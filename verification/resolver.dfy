/** `get_model_string`: turn a `provider/model` key into the identifier the
    completion client expects, or `None` when the key names no registered model. */
module Resolver {
  import opened Wrappers
  import opened Text
  import opened Registry

  /** The one provider whose identifier is the bare model name. */
  const OpenAI: string := "openai"

  /** The identifier for a registered `provider/model` pair: the bare model
      name for OpenAI, the whole key for every other provider. */
  function Identifier(provider: string, model: string): string {
    if provider == OpenAI then model else Key(provider, model)
  }

  /** Split on the first `/`; no `/` is an invalid key, and so is a provider or
      model the table does not hold. */
  function Resolve(table: Table, key: string): (r: Option<string>)
    ensures '/' !in key ==> r.None?
    ensures r.Some? ==>
      exists p, m :: Registered(table, p, m) && '/' !in p && key == Key(p, m) && r.value == Identifier(p, m)
  {
    match SplitFirst(key, '/')
    case None => None
    case Some((provider, model)) =>
      if provider !in table || model !in table[provider] then None
      else
        assert Registered(table, provider, model) && key == Key(provider, model);
        Some(if provider == OpenAI then model else key)
  }

  /** The resolver on a joined key: it succeeds exactly for registered pairs,
      and then yields the provider-specific identifier. The split is on the
      first `/` only, so a model part may itself hold `/`. */
  lemma ResolveKey(table: Table, p: string, m: string)
    requires '/' !in p
    ensures Resolve(table, Key(p, m)) ==
      if Registered(table, p, m) then Some(Identifier(p, m)) else None
  {
    SplitFirstJoin(p, m, '/');
  }

  /** The test `if get_model_string(new_key):` that guards a model switch: a
      result that is present and, being a Python string, non-empty. */
  predicate Accepted(table: Table, key: string) {
    var r := Resolve(table, key);
    r.Some? && r.value != ""
  }

  /** The truthiness test agrees with `is not None` unless some OpenAI model
      has an empty name: every other identifier is a whole key, which holds `/`. */
  lemma AcceptedIffResolves(table: Table, key: string)
    requires OpenAI in table ==> "" !in table[OpenAI]
    ensures Accepted(table, key) <==> Resolve(table, key).Some?
  {
    var r := Resolve(table, key);
    if r.Some? {
      var p, m :| Registered(table, p, m) && '/' !in p && key == Key(p, m) && r.value == Identifier(p, m);
      if p != OpenAI {
        assert r.value[|p|] == '/';
      }
    }
  }

  /** Every key the listing shows resolves, to the identifier of its entry. */
  lemma ListedKeysResolve(reg: Registry, key: string)
    requires WellFormed(reg)
    requires Item(key) in Listing(reg)
    ensures Resolve(ToTable(reg), key).Some?
  {
    ListingMatchesTable(reg, key);
    var p, m :| Registered(ToTable(reg), p, m) && key == Key(p, m);
    ToTableKeys(reg, p);
    var i :| 0 <= i < |reg| && reg[i].provider == p;
    ResolveKey(ToTable(reg), p, m);
  }

  /** In the registry as shipped, every resolvable key passes the switch test. */
  lemma ModelsAcceptedIffResolves(key: string)
    ensures Accepted(Models, key) <==> Resolve(Models, key).Some?
  {
    if OpenAI in Models && "" in Models[OpenAI] {
      ModelsNames(OpenAI, "");
    }
    AcceptedIffResolves(Models, key);
  }

  /** No model name in the registry as shipped holds a `/`, so a key with a
      second `/` after the provider (`anthropic/a/b`) is always rejected. */
  lemma ModelsRejectSecondSlash(p: string, m: string)
    requires '/' !in p && '/' in m
    ensures Resolve(Models, Key(p, m)) == None
  {
    ResolveKey(Models, p, m);
    if Registered(Models, p, m) {
      ModelsNames(p, m);
    }
  }

  /** Keys of the registry as shipped: an OpenAI key resolves to the bare model
      name, an Anthropic key to itself, an unknown provider to `None`. */
  lemma ResolveOpenAIExample()
    ensures Resolve(Models, Key("openai", "gpt-4.1-nano")) == Some("gpt-4.1-nano")
  {
    ModelsRegistered("openai", "gpt-4.1-nano");
    ResolveKey(Models, "openai", "gpt-4.1-nano");
  }

  lemma ResolveAnthropicExample()
    ensures Resolve(Models, Key("anthropic", "claude-3.7-sonnet")) == Some(Key("anthropic", "claude-3.7-sonnet"))
  {
    ModelsRegistered("anthropic", "claude-3.7-sonnet");
    ResolveKey(Models, "anthropic", "claude-3.7-sonnet");
  }

  lemma ResolveUnknownProviderExample()
    ensures Resolve(Models, Key("invalidprov", "x")) == None
  {
    ModelsRegistered("invalidprov", "x");
    ResolveKey(Models, "invalidprov", "x");
  }
}
