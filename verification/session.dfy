/** One step of `interactive_chat`, and whole sessions built from such steps.
    A step reads one line (or meets end of input), dispatches it, and either
    ends the session or continues with a new key and history. */
module Session {
  import opened Wrappers
  import opened Text
  import opened Registry
  import opened Resolver
  import opened Commands
  import opened Streaming

  /** One read from the terminal: a line, or `EOFError`/`KeyboardInterrupt`. */
  datatype Input = Line(text: string) | EndOfInput

  /** What the session hands the completion provider: the model identifier and
      the messages of the conversation ending with the new prompt. */
  datatype Request = Request(model: string, messages: History)

  /** The loop's variables `current_key` and `history`. */
  datatype State = State(currentKey: string, history: History)

  /** What became of a line as a prompt: not offered to the provider, refused
      because the current key does not resolve, or sent. */
  datatype PromptOutcome = NotSent | UnknownKey(key: string) | Sent(request: Request, failed: bool)

  /** The session ends (`return 0`), or goes round the loop again. */
  datatype Step = Exit | Continue(state: State, notice: Notice, prompt: PromptOutcome)

  /** One terminal read together with the provider's answer, should the line
      be sent. */
  datatype Turn = Turn(input: Input, reply: ProviderResult)

  /** The line as the loop sees it: `input().strip()`. */
  function Entered(input: Input): string
    requires input.Line?
  {
    Strip(input.text)
  }

  /** The line switches to a key the resolver accepts. */
  predicate SwitchAccepted(table: Table, line: string) {
    IsSwitch(line) && Accepted(table, SwitchTarget(line))
  }

  /** The lines the loop as written goes on to send: non-empty, not the exit
      command and not an accepted switch. `/models` and a rejected switch are
      among them. */
  predicate ForwardedAsWritten(table: Table, line: string) {
    line != "" && Lower(line) != ExitCommand && !SwitchAccepted(table, line)
  }

  /** The lines that are prompts: non-empty and none of the three commands. */
  predicate IsPrompt(line: string) {
    line != "" && !IsCommand(line)
  }

  /** The prompt path of `interactive_chat`: resolve the current key, report it when it does not
      resolve, otherwise stream the completion and keep the history it returns. */
  function Forward(table: Table, s: State, line: string, reply: ProviderResult, notice: Notice): (r: Step)
    ensures r.Continue? && r.notice == notice && r.state.currentKey == s.currentKey
    ensures !r.prompt.NotSent?
    ensures r.prompt.UnknownKey? <==> Resolve(table, s.currentKey).None?
    ensures r.prompt.UnknownKey? ==> r.prompt.key == s.currentKey && r.state == s
    ensures r.prompt.Sent? ==>
      Some(r.prompt.request.model) == Resolve(table, s.currentKey)
      && r.prompt.request.messages == s.history + [Message(User, line)]
      && r.prompt.failed == reply.Failure?
    ensures r.prompt.Sent? ==> r.state.history == StreamCompletion(line, s.history, reply)
    ensures r.prompt.Sent? && reply.Failure? ==> r.state.history == s.history
    ensures r.prompt.Sent? && reply.Success? ==> r.prompt.request.messages <= r.state.history
    ensures s.history <= r.state.history
  {
    match Resolve(table, s.currentKey)
    case None => Continue(s, notice, UnknownKey(s.currentKey))
    case Some(model) =>
      var history := StreamCompletion(line, s.history, reply);
      Continue(State(s.currentKey, history), notice, Sent(Request(model, s.history + [Message(User, line)]), reply.Failure?))
  }

  /** One pass of the `while True` loop of `interactive_chat` as written.
      Only the exit command and an accepted switch keep a
      line from the provider, so `/models` and a rejected `/model` line are
      sent as prompts after their notice. */
  function SessionStep(table: Table, s: State, input: Input, reply: ProviderResult): (r: Step)
    ensures input.EndOfInput? ==> r == Exit
    ensures input.Line? ==> (r.Exit? <==> Lower(Entered(input)) == ExitCommand)
    ensures input.Line? && Entered(input) == "" ==> r == Continue(s, Quiet, NotSent)
    ensures r.Continue? ==> s.history <= r.state.history
    ensures r.Continue? && r.state.currentKey != s.currentKey ==>
      Accepted(table, r.state.currentKey) && r.notice == SwitchedTo(r.state.currentKey)
      && r.state.history == s.history
    ensures r.Continue? && r.state.currentKey != s.currentKey ==>
      input.Line? && IsSwitch(Entered(input)) && r.state.currentKey == SwitchTarget(Entered(input))
    ensures input.Line? && SwitchAccepted(table, Entered(input)) ==>
      r == Continue(State(SwitchTarget(Entered(input)), s.history), SwitchedTo(SwitchTarget(Entered(input))), NotSent)
    ensures input.Line? && Entered(input) != "" && Lower(Entered(input)) != ExitCommand ==>
      r.Continue? && r.notice == HandleCommand(table, Entered(input), s.currentKey).notice
    ensures r.Continue? && r.prompt.UnknownKey? ==> r.prompt.key == s.currentKey && r.state == s
    ensures r.Continue? && !r.prompt.Sent? ==> r.state.history == s.history
    ensures r.Continue? && !r.prompt.NotSent? ==>
      (r.prompt.Sent? <==> Resolve(table, s.currentKey).Some?)
    ensures r.Continue? && r.prompt.Sent? ==>
      Some(r.prompt.request.model) == Resolve(table, s.currentKey)
      && r.prompt.failed == reply.Failure?
      && r.state.history == StreamCompletion(Entered(input), s.history, reply)
    ensures r.Continue? ==>
      (!r.prompt.NotSent? <==> input.Line? && ForwardedAsWritten(table, Entered(input)))
    ensures r.Continue? && r.prompt.Sent? ==>
      input.Line? && r.prompt.request.messages == s.history + [Message(User, Entered(input))]
  {
    match input
    case EndOfInput => Exit
    case Line(text) =>
      var line := Strip(text);
      if line == "" then Continue(s, Quiet, NotSent)
      else
        var c := HandleCommand(table, line, s.currentKey);
        if c.shouldExit then Exit
        else if c.newKey.Some? then Continue(State(c.newKey.value, s.history), c.notice, NotSent)
        else Forward(table, s, line, reply, c.notice)
  }

  /** The step the loop evidently intends: a line that was recognised as a
      command is handled and never sent. It differs from the step as written
      only on `/models` and on rejected switches. */
  function IntendedStep(table: Table, s: State, input: Input, reply: ProviderResult): (r: Step)
    ensures input.EndOfInput? ==> r == Exit
    ensures input.Line? ==> (r.Exit? <==> Lower(Entered(input)) == ExitCommand)
    ensures input.Line? && Entered(input) == "" ==> r == Continue(s, Quiet, NotSent)
    ensures r.Continue? ==> s.history <= r.state.history
    ensures r.Continue? && r.state.currentKey != s.currentKey ==>
      Accepted(table, r.state.currentKey) && r.notice == SwitchedTo(r.state.currentKey)
      && r.state.history == s.history
    ensures r.Continue? && r.state.currentKey != s.currentKey ==>
      input.Line? && IsSwitch(Entered(input)) && r.state.currentKey == SwitchTarget(Entered(input))
    ensures input.Line? && SwitchAccepted(table, Entered(input)) ==>
      r == Continue(State(SwitchTarget(Entered(input)), s.history), SwitchedTo(SwitchTarget(Entered(input))), NotSent)
    ensures input.Line? && Entered(input) != "" && Lower(Entered(input)) != ExitCommand ==>
      r.Continue? && r.notice == HandleCommand(table, Entered(input), s.currentKey).notice
    ensures r.Continue? && r.prompt.UnknownKey? ==> r.prompt.key == s.currentKey && r.state == s
    ensures r.Continue? && !r.prompt.Sent? ==> r.state.history == s.history
    ensures r.Continue? && !r.prompt.NotSent? ==>
      (r.prompt.Sent? <==> Resolve(table, s.currentKey).Some?)
    ensures r.Continue? && r.prompt.Sent? ==>
      Some(r.prompt.request.model) == Resolve(table, s.currentKey)
      && r.prompt.failed == reply.Failure?
      && r.state.history == StreamCompletion(Entered(input), s.history, reply)
    ensures r.Continue? ==> (!r.prompt.NotSent? <==> input.Line? && IsPrompt(Entered(input)))
    ensures r.Continue? && r.prompt.Sent? ==>
      input.Line? && r.prompt.request.messages == s.history + [Message(User, Entered(input))]
    ensures input.Line? && ForwardedAsWritten(table, Entered(input)) && !IsPrompt(Entered(input)) ==>
      r.Continue? && r.prompt.NotSent? && r.state == s
    ensures input.EndOfInput? || ForwardedAsWritten(table, Entered(input)) == IsPrompt(Entered(input)) ==>
      r == SessionStep(table, s, input, reply)
  {
    match input
    case EndOfInput => Exit
    case Line(text) =>
      var line := Strip(text);
      if line == "" then Continue(s, Quiet, NotSent)
      else
        var c := HandleCommand(table, line, s.currentKey);
        if c.shouldExit then Exit
        else if c.newKey.Some? then Continue(State(c.newKey.value, s.history), c.notice, NotSent)
        else if IsCommand(line) then Continue(s, c.notice, NotSent)
        else Forward(table, s, line, reply, c.notice)
  }

  /** The last message of a request is the user's prompt, and it is neither
      empty nor a command. */
  predicate PromptRequest(req: Request) {
    |req.messages| > 0
    && req.messages[|req.messages| - 1].role == User
    && IsPrompt(req.messages[|req.messages| - 1].content)
  }

  /** Where a run got to: `Some(0)` once the session returned, `None` while it
      still waits for input; the loop's variables; and every request sent, in
      order. */
  datatype RunResult = RunResult(exitCode: Option<int>, state: State, requests: seq<Request>)

  /** Which body a run of the loop uses: the one written in `interactive_chat`,
      or the corrected one that never sends a command line. */
  datatype Loop = AsWritten | Corrected

  /** One pass of the loop with the chosen body. */
  function StepOf(loop: Loop, table: Table, s: State, input: Input, reply: ProviderResult): Step {
    match loop
    case AsWritten => SessionStep(table, s, input, reply)
    case Corrected => IntendedStep(table, s, input, reply)
  }

  /** `interactive_chat` driven by a sequence of turns. The session returns
      only 0, and it sends at most one request a turn. */
  function Run(table: Table, loop: Loop, s: State, turns: seq<Turn>): (r: RunResult)
    ensures r.exitCode.Some? ==> r.exitCode.value == 0
    ensures |r.requests| <= |turns|
    decreases |turns|
  {
    if turns == [] then RunResult(None, s, [])
    else
      match StepOf(loop, table, s, turns[0].input, turns[0].reply)
      case Exit => RunResult(Some(0), s, [])
      case Continue(next, _, prompt) =>
        var tail := Run(table, loop, next, turns[1..]);
        var sent := if prompt.Sent? then [prompt.request] else [];
        RunResult(tail.exitCode, tail.state, sent + tail.requests)
  }

  /** The session returns as soon as input ends. */
  lemma {:induction false} RunEndsAtEndOfInput(table: Table, loop: Loop, s: State, turns: seq<Turn>, k: nat)
    requires k < |turns| && turns[k].input.EndOfInput?
    ensures Run(table, loop, s, turns).exitCode == Some(0)
    decreases k
  {
    var step := StepOf(loop, table, s, turns[0].input, turns[0].reply);
    if k == 0 {
      assert step == Exit;
    } else if step.Continue? {
      var rest := turns[1..];
      assert rest[k - 1] == turns[k];
      RunEndsAtEndOfInput(table, loop, step.state, rest, k - 1);
      assert Run(table, loop, s, turns).exitCode == Run(table, loop, step.state, rest).exitCode;
    }
  }

  /** The session-loop invariant: the key a run ends with is the one it
      started with or one the resolver accepted. */
  lemma {:induction false} RunKeepsKey(table: Table, loop: Loop, s: State, turns: seq<Turn>)
    ensures Run(table, loop, s, turns).state.currentKey == s.currentKey
      || Accepted(table, Run(table, loop, s, turns).state.currentKey)
    decreases |turns|
  {
    if turns != [] {
      var step := StepOf(loop, table, s, turns[0].input, turns[0].reply);
      if step.Continue? {
        RunKeepsKey(table, loop, step.state, turns[1..]);
      }
    }
  }

  /** The history only grows. */
  lemma {:induction false} RunHistoryGrows(table: Table, loop: Loop, s: State, turns: seq<Turn>)
    ensures s.history <= Run(table, loop, s, turns).state.history
    decreases |turns|
  {
    if turns != [] {
      var step := StepOf(loop, table, s, turns[0].input, turns[0].reply);
      if step.Continue? {
        RunHistoryGrows(table, loop, step.state, turns[1..]);
      }
    }
  }

  /** The two loops run alike on every session without a `/models` line or a
      rejected switch. */
  lemma {:induction false} RunsAgree(table: Table, s: State, turns: seq<Turn>)
    requires forall i :: 0 <= i < |turns| && turns[i].input.Line? ==>
      ForwardedAsWritten(table, Entered(turns[i].input)) == IsPrompt(Entered(turns[i].input))
    ensures Run(table, AsWritten, s, turns) == Run(table, Corrected, s, turns)
    decreases |turns|
  {
    if turns != [] {
      var step := IntendedStep(table, s, turns[0].input, turns[0].reply);
      assert step == SessionStep(table, s, turns[0].input, turns[0].reply);
      if step.Continue? {
        var rest := turns[1..];
        assert forall i :: 0 <= i < |rest| ==> rest[i] == turns[i + 1];
        RunsAgree(table, step.state, rest);
      }
    }
  }

  /** Every request is a prompt request that extends history `h`. */
  predicate RequestsOn(h: History, reqs: seq<Request>) {
    forall i :: 0 <= i < |reqs| ==> PromptRequest(reqs[i]) && h <= reqs[i].messages
  }

  /** With the corrected loop, every request extends the history the run
      started with and ends with a user prompt that is neither empty nor a
      command. What exactly each request holds is stated step by step by
      `Forward`. */
  lemma {:induction false} RunRequests(table: Table, s: State, turns: seq<Turn>)
    ensures RequestsOn(s.history, Run(table, Corrected, s, turns).requests)
    decreases |turns|
  {
    if turns != [] {
      var step := IntendedStep(table, s, turns[0].input, turns[0].reply);
      if step.Continue? {
        var tail := Run(table, Corrected, step.state, turns[1..]);
        RunRequests(table, step.state, turns[1..]);
        RequestsOnWeaken(s.history, step.state.history, tail.requests);
        var sent := if step.prompt.Sent? then [step.prompt.request] else [];
        if step.prompt.Sent? {
          SentIsPrompt(table, s, turns[0].input, turns[0].reply);
        }
        RequestsOnAppend(s.history, sent, tail.requests);
      }
    }
  }

  lemma RequestsOnWeaken(h: History, h2: History, reqs: seq<Request>)
    requires h <= h2 && RequestsOn(h2, reqs)
    ensures RequestsOn(h, reqs)
  {
  }

  lemma RequestsOnAppend(h: History, a: seq<Request>, b: seq<Request>)
    requires RequestsOn(h, a) && RequestsOn(h, b)
    ensures RequestsOn(h, a + b)
  {
    forall i | 0 <= i < |a + b|
      ensures PromptRequest((a + b)[i]) && h <= (a + b)[i].messages
    {
      if i >= |a| {
        assert (a + b)[i] == b[i - |a|];
      }
    }
  }

  /** A request a step sends is a prompt request on the history so far. */
  lemma SentIsPrompt(table: Table, s: State, input: Input, reply: ProviderResult)
    requires IntendedStep(table, s, input, reply).Continue?
    requires IntendedStep(table, s, input, reply).prompt.Sent?
    ensures PromptRequest(IntendedStep(table, s, input, reply).prompt.request)
    ensures s.history <= IntendedStep(table, s, input, reply).prompt.request.messages
  {
    var m := IntendedStep(table, s, input, reply).prompt.request.messages;
    assert m == s.history + [Message(User, Entered(input))];
    assert m[|m| - 1] == Message(User, Entered(input));
  }

  /** With the corrected loop, a session whose every line is blank or a
      command sends nothing and keeps its history. */
  lemma {:induction false} CommandsOnlyRun(table: Table, s: State, turns: seq<Turn>)
    requires forall i :: 0 <= i < |turns| ==>
      turns[i].input.Line? && !IsPrompt(Entered(turns[i].input))
    ensures Run(table, Corrected, s, turns).requests == []
    ensures Run(table, Corrected, s, turns).state.history == s.history
    decreases |turns|
  {
    if turns != [] {
      var step := IntendedStep(table, s, turns[0].input, turns[0].reply);
      if step.Continue? {
        assert step.state.history == s.history;
        CommandsOnlyRun(table, step.state, turns[1..]);
      }
    }
  }

  /** On either loop, switching to an accepted key and then typing `/exit`
      ends the session with 0, on the new key, with nothing sent. */
  lemma SwitchThenExit(table: Table, loop: Loop, s: State, prefix: string, key: string, r1: ProviderResult, r2: ProviderResult)
    requires Lower(prefix) == SwitchPrefix
    requires key != [] && Trimmed(key) && Accepted(table, key)
    ensures Run(table, loop, s, [Turn(Line(prefix + key), r1), Turn(Line(ExitCommand), r2)])
      == RunResult(Some(0), State(key, s.history), [])
  {
    var line := prefix + key;
    var s1 := State(key, s.history);
    SwitchLine(table, loop, s, prefix, key, r1);
    ExitLine(table, loop, s1, r2);
    var turns := [Turn(Line(line), r1), Turn(Line(ExitCommand), r2)];
    assert turns[1..] == [Turn(Line(ExitCommand), r2)];
    assert Run(table, loop, s1, turns[1..]) == RunResult(Some(0), s1, []);
    assert Run(table, loop, s, turns) == Run(table, loop, s1, turns[1..]);
  }

  /** A line that is not blank and neither `/exit` nor an accepted switch
      reaches the prompt path: the step as written forwards it, the intended
      step forwards it only when it is no command. */
  lemma StepOnPromptPath(table: Table, s: State, text: string, reply: ProviderResult)
    requires Strip(text) != ""
    requires !HandleCommand(table, Strip(text), s.currentKey).shouldExit
    requires HandleCommand(table, Strip(text), s.currentKey).newKey.None?
    ensures SessionStep(table, s, Line(text), reply) ==
      Forward(table, s, Strip(text), reply, HandleCommand(table, Strip(text), s.currentKey).notice)
    ensures IntendedStep(table, s, Line(text), reply) ==
      if IsCommand(Strip(text)) then Continue(s, HandleCommand(table, Strip(text), s.currentKey).notice, NotSent)
      else Forward(table, s, Strip(text), reply, HandleCommand(table, Strip(text), s.currentKey).notice)
  {
  }

  /** `/model ` in any case followed by an accepted trimmed key switches to
      that key, on either loop, with nothing sent. */
  lemma SwitchLine(table: Table, loop: Loop, s: State, prefix: string, key: string, reply: ProviderResult)
    requires Lower(prefix) == SwitchPrefix
    requires key != [] && Trimmed(key) && Accepted(table, key)
    ensures StepOf(loop, table, s, Line(prefix + key), reply) == Continue(State(key, s.history), SwitchedTo(key), NotSent)
  {
    SwitchLineTrimmed(prefix, key);
    StrippedLine(prefix + key);
    SwitchKey(table, prefix, key, s.currentKey);
    assert SwitchAccepted(table, Entered(Line(prefix + key)));
  }

  /** `/exit` typed as such ends the session, on either loop. */
  lemma ExitLine(table: Table, loop: Loop, s: State, reply: ProviderResult)
    ensures StepOf(loop, table, s, Line(ExitCommand), reply) == Exit
  {
    StrippedLine(ExitCommand);
    assert Lower(ExitCommand) == ExitCommand;
  }

  /** A trimmed non-empty line is its own `strip()`. */
  lemma StrippedLine(line: string)
    requires line != [] && Trimmed(line)
    ensures Strip(line) == line
  {
    StripPadded([], line, []);
    assert [] + line + [] == line;
  }

  lemma ModelsCommandLower()
    ensures Lower(ModelsCommand) == ModelsCommand
  {
    assert forall i :: 0 <= i < |ModelsCommand| ==> LowerChar(ModelsCommand[i]) == ModelsCommand[i];
  }

  lemma SwitchPrefixLower()
    ensures Lower(SwitchPrefix) == SwitchPrefix
  {
    assert forall i :: 0 <= i < |SwitchPrefix| ==> LowerChar(SwitchPrefix[i]) == SwitchPrefix[i];
  }

  /** A switch prefix followed by a trimmed key is already stripped. */
  lemma SwitchLineTrimmed(prefix: string, key: string)
    requires Lower(prefix) == SwitchPrefix
    requires key != [] && Trimmed(key)
    ensures prefix + key != [] && Trimmed(prefix + key)
  {
    var line := prefix + key;
    assert line[0] == prefix[0] && LowerChar(line[0]) == '/';
    assert line[|line| - 1] == key[|key| - 1];
  }

  /** The loop as written sends `/models` to the provider as a prompt after
      listing the models, whenever the current key resolves. */
  lemma ModelsLineIsSent(table: Table, s: State, reply: ProviderResult)
    requires Resolve(table, s.currentKey).Some?
    ensures SessionStep(table, s, Line(ModelsCommand), reply) ==
      Continue(StreamState(s, ModelsCommand, reply), ListedModels,
               Sent(Request(Resolve(table, s.currentKey).value, s.history + [Message(User, ModelsCommand)]), reply.Failure?))
    ensures IntendedStep(table, s, Line(ModelsCommand), reply) == Continue(s, ListedModels, NotSent)
  {
    StrippedLine(ModelsCommand);
    ModelsCommandLower();
    var c := HandleCommand(table, ModelsCommand, s.currentKey);
    assert !IsSwitch(ModelsCommand) by {
      assert Lower(ModelsCommand)[6] != SwitchPrefix[6];
    }
    assert c == CommandResult(None, false, ListedModels);
    StepOnPromptPath(table, s, ModelsCommand, reply);
  }

  /** The loop as written also sends a rejected switch line, prefix and all,
      to the provider as a prompt. */
  lemma RejectedSwitchIsSent(table: Table, s: State, key: string, reply: ProviderResult)
    requires key != [] && Trimmed(key) && !Accepted(table, key)
    requires Resolve(table, s.currentKey).Some?
    ensures SessionStep(table, s, Line(SwitchPrefix + key), reply) ==
      Continue(StreamState(s, SwitchPrefix + key, reply), InvalidSwitch(key),
               Sent(Request(Resolve(table, s.currentKey).value, s.history + [Message(User, SwitchPrefix + key)]), reply.Failure?))
    ensures IntendedStep(table, s, Line(SwitchPrefix + key), reply) == Continue(s, InvalidSwitch(key), NotSent)
  {
    var line := SwitchPrefix + key;
    SwitchPrefixLower();
    SwitchLineTrimmed(SwitchPrefix, key);
    StrippedLine(line);
    SwitchKey(table, SwitchPrefix, key, s.currentKey);
    StepOnPromptPath(table, s, line, reply);
  }

  /** The state after `line` went to the provider with the current key. */
  function StreamState(s: State, line: string, reply: ProviderResult): State {
    State(s.currentKey, StreamCompletion(line, s.history, reply))
  }
}
