/** The exit-code branches of `main`: `--version`, `--list-models`, startup
    validation of `--model`, one-shot mode with a positional prompt, and the
    interactive session. Argument parsing is reduced to its result. */
module Cli {
  import opened Wrappers
  import opened Registry
  import opened Resolver
  import opened Commands
  import opened Streaming
  import opened Session

  /** The default of `-m/--model`. */
  const DefaultModelKey: string := "openai/gpt-4.1-nano"

  /** The parsed command line: the optional positional prompt, the model key
      and the two flags. */
  datatype Args = Args(prompt: Option<string>, model: string, version: bool, listModels: bool)

  /** What `main` did besides choosing its exit code. */
  datatype Action =
    | ShowVersion
    | ListModels(lines: seq<ListLine>)
    | RejectKey(key: string)
    | OneShot(request: Request)
    | Interactive(run: RunResult)

  /** The exit code (`None` while the interactive session still waits for
      input) and what was done. */
  datatype Outcome = Outcome(code: Option<int>, action: Action)

  /** `main(args)` on registry `reg`, with the interactive session running
      `loop`: `AsWritten` is the program, `Corrected` the program with its
      session loop fixed. `turns` is what the interactive session reads. */
  function Main(reg: Registry, loop: Loop, args: Args, turns: seq<Turn>): (r: Outcome)
    ensures r.code == Some(1) <==>
      !args.version && !args.listModels && Resolve(ToTable(reg), args.model).None?
    ensures r.code.Some? ==> r.code.value == 0 || r.code.value == 1
    ensures args.version ==> r == Outcome(Some(0), ShowVersion)
    ensures !args.version && args.listModels ==> r == Outcome(Some(0), ListModels(Listing(reg)))
    ensures r.code == Some(1) ==> r.action == RejectKey(args.model)
    ensures r.code.None? ==> r.action.Interactive? && args.prompt.None?
    ensures r.action.OneShot? ==>
      args.prompt.Some? && r.code == Some(0)
      && Some(r.action.request.model) == Resolve(ToTable(reg), args.model)
      && r.action.request.messages == [Message(User, args.prompt.value)]
    ensures !args.version && !args.listModels && Resolve(ToTable(reg), args.model).Some? ==>
      (r.action.OneShot? <==> args.prompt.Some?)
    ensures !args.version && !args.listModels && Resolve(ToTable(reg), args.model).Some? && args.prompt.None? ==>
      r.action == Interactive(Run(ToTable(reg), loop, State(args.model, []), turns))
      && r.code == r.action.run.exitCode
    ensures r.action.Interactive? ==>
      Resolve(ToTable(reg), r.action.run.state.currentKey).Some?
      && |r.action.run.requests| <= |turns|
  {
    var table := ToTable(reg);
    if args.version then Outcome(Some(0), ShowVersion)
    else if args.listModels then Outcome(Some(0), ListModels(Listing(reg)))
    else if Resolve(table, args.model).None? then Outcome(Some(1), RejectKey(args.model))
    else if args.prompt.Some? then
      var model := Resolve(table, args.model).GetOr("");
      Outcome(Some(0), OneShot(Request(model, [Message(User, args.prompt.value)])))
    else
      var run := Run(table, loop, State(args.model, []), turns);
      RunKeepsKey(table, loop, State(args.model, []), turns);
      Outcome(run.exitCode, Interactive(run))
  }

  /** The default key is the nano OpenAI model. */
  lemma DefaultModelKeyIsKey()
    ensures DefaultModelKey == Key("openai", "gpt-4.1-nano")
  {
  }

  /** With the shipped registry and no flags, the default key passes startup
      validation: `main` never exits 1 on it. */
  lemma DefaultKeyStarts(loop: Loop, prompt: Option<string>, turns: seq<Turn>)
    ensures Main(ModelRegistry, loop, Args(prompt, DefaultModelKey, false, false), turns).code != Some(1)
  {
    DefaultModelKeyIsKey();
    ResolveOpenAIExample();
  }

  /** `--model invalidprov/x` without a prompt exits 1. */
  lemma UnknownProviderExits(loop: Loop, turns: seq<Turn>)
    ensures Main(ModelRegistry, loop, Args(None, Key("invalidprov", "x"), false, false), turns)
      == Outcome(Some(1), RejectKey(Key("invalidprov", "x")))
  {
    ResolveUnknownProviderExample();
  }

  /** `--list-models` shows only keys that resolve, whatever `--model` says. */
  lemma ListedModelsResolve(loop: Loop, args: Args, turns: seq<Turn>, key: string)
    requires !args.version && args.listModels
    requires Item(key) in Main(ModelRegistry, loop, args, turns).action.lines
    ensures Resolve(Models, key).Some?
  {
    ModelRegistryWellFormed();
    ListedKeysResolve(ModelRegistry, key);
  }

  /** Once the interactive session returns, `main` returns 0. */
  lemma InteractiveEndsWithZero(reg: Registry, loop: Loop, args: Args, turns: seq<Turn>, k: nat)
    requires !args.version && !args.listModels && args.prompt.None?
    requires Resolve(ToTable(reg), args.model).Some?
    requires k < |turns| && turns[k].input.EndOfInput?
    ensures Main(reg, loop, args, turns).code == Some(0)
  {
    RunEndsAtEndOfInput(ToTable(reg), loop, State(args.model, []), turns, k);
  }

  /** Interactive mode as written sends a `/models` line to the provider; with
      the corrected loop it sends nothing. */
  lemma ModelsLineInMain(reg: Registry, model: string, r1: ProviderResult)
    requires Resolve(ToTable(reg), model).Some?
    ensures Main(reg, AsWritten, Args(None, model, false, false), [Turn(Line(ModelsCommand), r1)]).action.run.requests
      == [Request(Resolve(ToTable(reg), model).value, [Message(User, ModelsCommand)])]
    ensures Main(reg, Corrected, Args(None, model, false, false), [Turn(Line(ModelsCommand), r1)]).action.run.requests
      == []
  {
    var table := ToTable(reg);
    var s := State(model, []);
    var args := Args(None, model, false, false);
    var turns := [Turn(Line(ModelsCommand), r1)];
    var req := Request(Resolve(table, model).value, [Message(User, ModelsCommand)]);
    ModelsLineIsSent(table, s, r1);
    assert StepOf(AsWritten, table, s, Line(ModelsCommand), r1).prompt == Sent(req, r1.Failure?);
    assert StepOf(Corrected, table, s, Line(ModelsCommand), r1) == Continue(s, ListedModels, NotSent);
    assert turns[1..] == [];
    assert Run(table, AsWritten, s, turns).requests == [req] + Run(table, AsWritten, StreamState(s, ModelsCommand, r1), []).requests;
    assert Run(table, Corrected, s, turns).requests == Run(table, Corrected, s, []).requests;
  }
}
