/** The static model registry: provider -> model name -> capabilities, kept in
    the order the entries are written (a Python dict literal preserves it), with
    the lookup table the resolver consults and the listing `--list-models` and
    `/models` print. */
module Registry {

  datatype Capabilities = Capabilities(maxTokens: nat)

  datatype ModelEntry = ModelEntry(name: string, caps: Capabilities)

  datatype ProviderEntry = ProviderEntry(provider: string, models: seq<ModelEntry>)

  /** The registry as written: provider entries in insertion order. */
  type Registry = seq<ProviderEntry>

  /** The registry as a lookup table: `table[provider][model]` is the model's
      capabilities. */
  type Table = map<string, map<string, Capabilities>>

  predicate Registered(table: Table, provider: string, model: string) {
    provider in table && model in table[provider]
  }

  /** The models of one provider as a dict: on a repeated name the later entry
      wins, as in a Python dict literal. */
  function ModelTable(ms: seq<ModelEntry>): map<string, Capabilities> {
    if ms == [] then map[] else map[ms[0].name := ms[0].caps] + ModelTable(ms[1..])
  }

  /** The whole registry as a dict of dicts, again with later entries winning. */
  function ToTable(reg: Registry): Table {
    if reg == [] then map[] else map[reg[0].provider := ModelTable(reg[0].models)] + ToTable(reg[1..])
  }

  /** Some entry of `ms` is named `n`. */
  predicate HasModel(ms: seq<ModelEntry>, n: string) {
    exists k :: 0 <= k < |ms| && ms[k].name == n
  }

  /** Some entry of `reg` is for provider `p`. */
  predicate HasProvider(reg: Registry, p: string) {
    exists i :: 0 <= i < |reg| && reg[i].provider == p
  }

  /** The dict of a provider's models has exactly the names of its entries. */
  lemma {:induction false} ModelTableKeys(ms: seq<ModelEntry>, n: string)
    ensures n in ModelTable(ms) <==> HasModel(ms, n)
    decreases |ms|
  {
    if ms != [] {
      ModelTableKeys(ms[1..], n);
      if HasModel(ms[1..], n) {
        var k :| 0 <= k < |ms[1..]| && ms[1..][k].name == n;
        assert ms[k + 1].name == n;
      }
      if HasModel(ms, n) && ms[0].name != n {
        var k :| 0 <= k < |ms| && ms[k].name == n;
        assert ms[1..][k - 1].name == n;
      }
    }
  }

  /** The table has exactly the providers of the registry's entries. */
  lemma {:induction false} ToTableKeys(reg: Registry, p: string)
    ensures p in ToTable(reg) <==> HasProvider(reg, p)
    decreases |reg|
  {
    if reg != [] {
      ToTableKeys(reg[1..], p);
      if HasProvider(reg[1..], p) {
        var i :| 0 <= i < |reg[1..]| && reg[1..][i].provider == p;
        assert reg[i + 1].provider == p;
      }
      if HasProvider(reg, p) && reg[0].provider != p {
        var i :| 0 <= i < |reg| && reg[i].provider == p;
        assert reg[1..][i - 1].provider == p;
      }
    }
  }

  predicate DistinctNames(ms: seq<ModelEntry>) {
    forall a, b :: 0 <= a < b < |ms| ==> ms[a].name != ms[b].name
  }

  /** No provider is written twice, no model twice under one provider, and no
      provider name holds the `/` that separates it from the model in a key. */
  predicate WellFormed(reg: Registry) {
    && (forall a, b :: 0 <= a < b < |reg| ==> reg[a].provider != reg[b].provider)
    && (forall i :: 0 <= i < |reg| ==> DistinctNames(reg[i].models))
    && (forall i :: 0 <= i < |reg| ==> '/' !in reg[i].provider)
  }

  /** With distinct names, each entry's capabilities are what the table holds. */
  lemma {:induction false} ModelTableAt(ms: seq<ModelEntry>, k: nat)
    requires DistinctNames(ms)
    requires k < |ms|
    ensures ms[k].name in ModelTable(ms)
    ensures ModelTable(ms)[ms[k].name] == ms[k].caps
    decreases |ms|
  {
    var tail := ms[1..];
    assert DistinctNames(tail) by {
      forall a, b | 0 <= a < b < |tail| ensures tail[a].name != tail[b].name {
        assert tail[a] == ms[a + 1] && tail[b] == ms[b + 1];
      }
    }
    if k > 0 {
      assert ms[k] == tail[k - 1];
      ModelTableAt(tail, k - 1);
    } else {
      forall j | 0 <= j < |tail| ensures tail[j].name != ms[0].name {
        assert tail[j] == ms[j + 1];
      }
      ModelTableKeys(tail, ms[0].name);
    }
  }

  /** With distinct providers, each provider's models are what the table holds. */
  lemma {:induction false} ToTableAt(reg: Registry, i: nat)
    requires WellFormed(reg)
    requires i < |reg|
    ensures reg[i].provider in ToTable(reg)
    ensures ToTable(reg)[reg[i].provider] == ModelTable(reg[i].models)
    decreases |reg|
  {
    var tail := reg[1..];
    if i > 0 {
      assert reg[i] == tail[i - 1];
      WellFormedTail(reg);
      ToTableAt(tail, i - 1);
    } else {
      forall j | 0 <= j < |tail| ensures tail[j].provider != reg[0].provider {
        assert tail[j] == reg[j + 1];
      }
      ToTableKeys(tail, reg[0].provider);
    }
  }

  lemma WellFormedTail(reg: Registry)
    requires WellFormed(reg) && reg != []
    ensures WellFormed(reg[1..])
  {
    var tail := reg[1..];
    forall j | 0 <= j < |tail| ensures tail[j] == reg[j + 1] { }
  }

  /** A registry entry as a model key: `provider/model`. */
  function Key(provider: string, model: string): string {
    provider + "/" + model
  }

  /** One line of the model listing: a provider heading, or a model key below it. */
  datatype ListLine = Heading(provider: string) | Item(key: string)

  /** The keys listed under one provider heading, in registry order. */
  function Items(provider: string, ms: seq<ModelEntry>): (lines: seq<ListLine>)
    ensures |lines| == |ms|
    ensures forall j :: 0 <= j < |ms| ==> lines[j] == Item(Key(provider, ms[j].name))
  {
    if ms == [] then []
    else [Item(Key(provider, ms[0].name))] + Items(provider, ms[1..])
  }

  /** `list_available_models`: every provider heading followed by its model
      keys. There is a heading for exactly the providers of the registry, and
      it opens the listing when there is any provider. */
  function Listing(reg: Registry): (lines: seq<ListLine>)
    ensures forall p :: Heading(p) in lines <==> HasProvider(reg, p)
    ensures reg != [] ==> |lines| > 0 && lines[0] == Heading(reg[0].provider)
    decreases |reg|
  {
    if reg == [] then []
    else
      var items := Items(reg[0].provider, reg[0].models);
      var rest := Listing(reg[1..]);
      assert forall p :: HasProvider(reg, p) <==> p == reg[0].provider || HasProvider(reg[1..], p) by {
        forall p ensures HasProvider(reg, p) <==> p == reg[0].provider || HasProvider(reg[1..], p) {
          if HasProvider(reg[1..], p) {
            var i :| 0 <= i < |reg[1..]| && reg[1..][i].provider == p;
            assert reg[i + 1].provider == p;
          }
          if HasProvider(reg, p) && p != reg[0].provider {
            var i :| 0 <= i < |reg| && reg[i].provider == p;
            assert reg[1..][i - 1].provider == p;
          }
        }
      }
      assert forall p :: Heading(p) !in items;
      [Heading(reg[0].provider)] + items + rest
  }

  /** Entry `j` of provider entry `i` exists and its key is `key`. */
  predicate EntryKey(reg: Registry, i: int, j: int, key: string) {
    0 <= i < |reg| && 0 <= j < |reg[i].models| && key == Key(reg[i].provider, reg[i].models[j].name)
  }

  /** The listing shows exactly the registry's entries: a key is listed if and
      only if some provider entry holds a model with that key. */
  lemma {:induction false} ListingItems(reg: Registry, key: string)
    ensures Item(key) in Listing(reg) <==> exists i, j :: EntryKey(reg, i, j, key)
    decreases |reg|
  {
    if reg != [] {
      var items := Items(reg[0].provider, reg[0].models);
      assert Listing(reg) == [Heading(reg[0].provider)] + items + Listing(reg[1..]);
      ListingItems(reg[1..], key);
      HeadItems(reg, key);
      EntriesSplit(reg, key);
    }
  }

  /** The keys under the first heading are those of the first entry. */
  lemma HeadItems(reg: Registry, key: string)
    requires reg != []
    ensures Item(key) in Items(reg[0].provider, reg[0].models) <==> exists j :: EntryKey(reg, 0, j, key)
  {
    var items := Items(reg[0].provider, reg[0].models);
    if Item(key) in items {
      var j :| 0 <= j < |items| && items[j] == Item(key);
      assert EntryKey(reg, 0, j, key);
    }
  }

  /** An entry of a registry is an entry of its first provider or of the rest. */
  lemma EntriesSplit(reg: Registry, key: string)
    requires reg != []
    ensures (exists i, j :: EntryKey(reg, i, j, key)) <==>
      (exists j :: EntryKey(reg, 0, j, key)) || (exists i, j :: EntryKey(reg[1..], i, j, key))
  {
    var tail := reg[1..];
    if exists i, j :: EntryKey(tail, i, j, key) {
      var i, j :| EntryKey(tail, i, j, key);
      assert tail[i] == reg[i + 1];
      assert EntryKey(reg, i + 1, j, key);
    }
    if exists i, j :: EntryKey(reg, i, j, key) {
      var i, j :| EntryKey(reg, i, j, key);
      if i > 0 {
        assert tail[i - 1] == reg[i];
        assert EntryKey(tail, i - 1, j, key);
      }
    }
  }

  /** The listing is complete and sound with respect to the lookup table: a key
      is listed if and only if it joins a registered provider and model. */
  lemma ListingMatchesTable(reg: Registry, key: string)
    requires WellFormed(reg)
    ensures Item(key) in Listing(reg) <==>
      exists p, m :: Registered(ToTable(reg), p, m) && key == Key(p, m)
  {
    var t := ToTable(reg);
    ListingItems(reg, key);
    if Item(key) in Listing(reg) {
      var i, j :| EntryKey(reg, i, j, key);
      ToTableAt(reg, i);
      var m := reg[i].models[j].name;
      ModelTableKeys(reg[i].models, m);
      assert Registered(t, reg[i].provider, m);
    }
    if exists p, m :: Registered(t, p, m) && key == Key(p, m) {
      var p, m :| Registered(t, p, m) && key == Key(p, m);
      ToTableKeys(reg, p);
      var i :| 0 <= i < |reg| && reg[i].provider == p;
      ToTableAt(reg, i);
      ModelTableKeys(reg[i].models, m);
      var j :| 0 <= j < |reg[i].models| && reg[i].models[j].name == m;
      assert EntryKey(reg, i, j, key);
    }
  }

  /** `MODEL_REGISTRY`. */
  const ModelRegistry: Registry := [
    ProviderEntry("openai", [
      ModelEntry("gpt-4.1", Capabilities(1047576)),
      ModelEntry("gpt-4.1-mini", Capabilities(1047576)),
      ModelEntry("gpt-4.1-nano", Capabilities(1047576))
    ]),
    ProviderEntry("anthropic", [
      ModelEntry("claude-3.7-sonnet", Capabilities(200000))
    ])
  ]

  /** The lookup table of the registry as shipped. */
  const Models: Table := ToTable(ModelRegistry)

  /** The registry as shipped has no repeated provider or model and no `/`
      in a provider name. */
  lemma ModelRegistryWellFormed()
    ensures WellFormed(ModelRegistry)
  {
    ShippedDistinctNames(ModelRegistry[0].models);
    assert '/' !in ModelRegistry[0].provider;
    assert '/' !in ModelRegistry[1].provider;
  }

  lemma ShippedDistinctNames(ms: seq<ModelEntry>)
    requires ms == ModelRegistry[0].models
    ensures DistinctNames(ms)
  {
    assert "gpt-4.1-mini"[8] != "gpt-4.1-nano"[8];
  }

  /** The registered pairs of the registry as shipped, written out. */
  lemma ModelsRegistered(p: string, m: string)
    ensures Registered(Models, p, m) <==>
      || (p == "openai" && (m == "gpt-4.1" || m == "gpt-4.1-mini" || m == "gpt-4.1-nano"))
      || (p == "anthropic" && m == "claude-3.7-sonnet")
  {
    ModelRegistryWellFormed();
    ToTableKeys(ModelRegistry, p);
    ToTableAt(ModelRegistry, 0);
    ToTableAt(ModelRegistry, 1);
    ShippedModels(ModelRegistry[0].models, ModelRegistry[1].models, m);
  }

  lemma ShippedModels(openai: seq<ModelEntry>, anthropic: seq<ModelEntry>, m: string)
    requires openai == ModelRegistry[0].models && anthropic == ModelRegistry[1].models
    ensures m in ModelTable(openai) <==> m == "gpt-4.1" || m == "gpt-4.1-mini" || m == "gpt-4.1-nano"
    ensures m in ModelTable(anthropic) <==> m == "claude-3.7-sonnet"
  {
    ModelTableKeys(openai, m);
    ModelTableKeys(anthropic, m);
  }

  /** No model name in the registry as shipped is empty or holds a `/`. */
  lemma ModelsNames(p: string, m: string)
    requires Registered(Models, p, m)
    ensures m != "" && '/' !in m
  {
    ModelsRegistered(p, m);
    ShippedNames(m);
  }

  lemma ShippedNames(m: string)
    requires m == "gpt-4.1" || m == "gpt-4.1-mini" || m == "gpt-4.1-nano" || m == "claude-3.7-sonnet"
    ensures m != "" && '/' !in m
  {
  }

  /** The listing of the registry, written out: each entry exactly once,
      grouped under its provider. */
  lemma ModelRegistryListing()
    ensures Listing(ModelRegistry) == [
      Heading("openai"),
      Item(Key("openai", "gpt-4.1")),
      Item(Key("openai", "gpt-4.1-mini")),
      Item(Key("openai", "gpt-4.1-nano")),
      Heading("anthropic"),
      Item(Key("anthropic", "claude-3.7-sonnet"))]
  {
    assert Listing(ModelRegistry[1..]) == [Heading("anthropic")] + Items("anthropic", ModelRegistry[1].models) + Listing([]);
  }
}
