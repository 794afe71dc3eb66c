/** `_handle_command`: recognise the slash commands of the interactive session.
    The console output of the program becomes a `Notice` tag. */
module Commands {
  import opened Wrappers
  import opened Text
  import opened Registry
  import opened Resolver

  const ExitCommand: string := "/exit"
  const ModelsCommand: string := "/models"
  const SwitchPrefix: string := "/model "

  /** What the command prints: nothing, the model listing, a confirmation of a
      switch, or the rejection of an invalid key. */
  datatype Notice = Quiet | ListedModels | SwitchedTo(key: string) | InvalidSwitch(attempted: string)

  /** `(new_model_key, should_exit)` together with what was printed. */
  datatype CommandResult = CommandResult(newKey: Option<string>, shouldExit: bool, notice: Notice)

  /** The line asks for a model switch: it starts with `/model ` in any case. */
  predicate IsSwitch(input: string) {
    StartsWith(Lower(input), SwitchPrefix)
  }

  /** The key a switch line names: the rest of the line after the prefix,
      stripped of whitespace. */
  function SwitchTarget(input: string): string
    requires IsSwitch(input)
  {
    Strip(input[|SwitchPrefix|..])
  }

  /** The line is one of the three commands, in any case. */
  predicate IsCommand(input: string) {
    Lower(input) == ExitCommand || Lower(input) == ModelsCommand || IsSwitch(input)
  }

  /** `_handle_command(user_input, current_key)`. The current key is a
      parameter that `_handle_command` never reads. */
  function HandleCommand(table: Table, input: string, currentKey: string): (r: CommandResult)
    ensures r.shouldExit <==> Lower(input) == ExitCommand
    ensures r.shouldExit ==> r.newKey.None? && r.notice == Quiet
    ensures r.notice == ListedModels <==> Lower(input) == ModelsCommand
    ensures r.newKey.Some? <==> IsSwitch(input) && Accepted(table, SwitchTarget(input))
    ensures r.newKey.Some? ==> r.newKey.value == SwitchTarget(input)
    ensures r.newKey.Some? ==>
      Resolve(table, r.newKey.value).Some? && r.notice == SwitchedTo(r.newKey.value)
    ensures r.notice.InvalidSwitch? <==> IsSwitch(input) && !Accepted(table, SwitchTarget(input))
    ensures r.notice.InvalidSwitch? ==> r.notice.attempted == SwitchTarget(input)
    ensures !IsCommand(input) ==> r == CommandResult(None, false, Quiet)
  {
    var lowered := Lower(input);
    assert lowered == ExitCommand ==> !IsSwitch(input) by {
      if lowered == ExitCommand {
        assert |lowered| < |SwitchPrefix|;
      }
    }
    assert lowered == ModelsCommand ==> !IsSwitch(input) by {
      if lowered == ModelsCommand {
        assert lowered[6] != SwitchPrefix[6];
      }
    }
    if lowered == ExitCommand then CommandResult(None, true, Quiet)
    else if lowered == ModelsCommand then CommandResult(None, false, ListedModels)
    else if StartsWith(lowered, SwitchPrefix) then
      var newKey := Strip(input[|SwitchPrefix|..]);
      if Accepted(table, newKey) then CommandResult(Some(newKey), false, SwitchedTo(newKey))
      else CommandResult(None, false, InvalidSwitch(newKey))
    else CommandResult(None, false, Quiet)
  }

  /** Typing `/model ` (in any case) followed by a key, with any whitespace
      around the key, switches to exactly that key whenever the resolver
      accepts it: the switch command and the key it carries round-trip. */
  lemma SwitchRoundTrip(table: Table, prefix: string, pre: string, key: string, post: string, currentKey: string)
    requires Lower(prefix) == SwitchPrefix
    requires AllSpace(pre) && AllSpace(post)
    requires key != [] && Trimmed(key)
    ensures IsSwitch(prefix + pre + key + post) && SwitchTarget(prefix + pre + key + post) == key
    ensures HandleCommand(table, prefix + pre + key + post, currentKey).newKey ==
      if Accepted(table, key) then Some(key) else None
  {
    var input := prefix + pre + key + post;
    LowerPrefix(input, |prefix|);
    assert input[..|prefix|] == prefix;
    assert input[|SwitchPrefix|..] == pre + key + post;
    StripPadded(pre, key, post);
  }

  /** The round trip without padding. */
  lemma SwitchKey(table: Table, prefix: string, key: string, currentKey: string)
    requires Lower(prefix) == SwitchPrefix
    requires key != [] && Trimmed(key)
    ensures IsSwitch(prefix + key) && SwitchTarget(prefix + key) == key
    ensures HandleCommand(table, prefix + key, currentKey).newKey ==
      if Accepted(table, key) then Some(key) else None
  {
    SwitchRoundTrip(table, prefix, [], key, [], currentKey);
    assert prefix + [] + key + [] == prefix + key;
  }

  /** The exit command in any mix of case ends the session. */
  lemma ExitAnyCase(table: Table, input: string, currentKey: string)
    requires |input| == |ExitCommand|
    requires forall i :: 0 <= i < |input| ==> LowerChar(input[i]) == ExitCommand[i]
    ensures HandleCommand(table, input, currentKey) == CommandResult(None, true, Quiet)
  {
    assert Lower(input) == ExitCommand;
  }

  /** `/EXIT`, `/Exit` and `/exit` all end the session. */
  lemma ExitSpellings(table: Table, currentKey: string)
    ensures HandleCommand(table, "/EXIT", currentKey).shouldExit
    ensures HandleCommand(table, "/Exit", currentKey).shouldExit
    ensures HandleCommand(table, "/exit", currentKey).shouldExit
  {
    ExitAnyCase(table, "/EXIT", currentKey);
    ExitAnyCase(table, "/Exit", currentKey);
    ExitAnyCase(table, "/exit", currentKey);
  }
}
