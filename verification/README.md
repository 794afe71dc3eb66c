# litellm-cli core in Dafny

A model of the pure core of `litellm-cli`, a terminal chat client that sends
prompts to a hosted completion API through LiteLLM and streams the answer back.
It covers:

- **The model registry** (`MODEL_REGISTRY`). The registry is an ordered list
  of provider entries, as the Python dict literal keeps insertion order. Its
  lookup table is a nested map.
- **The model-key resolver** (`get_model_string`). A `provider/model` key
  becomes the identifier LiteLLM expects: the bare model name for `openai`,
  the whole key for any other provider, or `None`.
- **The slash-command interpreter** (`_handle_command`). It recognises
  `/exit`, `/models` and `/model <key>` in any case. The console output
  becomes a `Notice` tag.
- **The history logic of `stream_completion`**. The provider is a value
  `Failure | Success(fragments)`. The history grows by the user prompt, then
  by the joined non-empty fragments when there are any. A failing provider
  leaves the history untouched.
- **One step of the `interactive_chat` loop, and runs of such steps**. The
  loop state is the current key and the history.
- **The exit-code branches of `main`**: `--version`, `--list-models`,
  startup validation of `--model`, one-shot mode and interactive mode.

Python's `str.strip()`, `str.lower()`, `str.split("/", 1)` and
`str.startswith` are modelled in module `Text`:

- `strip` uses Python's exact whitespace set.
- `lower` covers ASCII letters only.
- `split` returns `None` where the unpacking raises `ValueError`.

Only the `completion(...)` call (line 79) is inside `try`. An exception
raised while the stream is being consumed propagates out of
`stream_completion`. In the model, only that call can fail.

Modules and files:

| file | module | what |
|---|---|---|
| wrappers.dfy | `Wrappers` | `Option` |
| text.dfy | `Text` | strip, lower, first split, prefix test |
| registry.dfy | `Registry` | registry, lookup table, listing, the registry as shipped |
| resolver.dfy | `Resolver` | `get_model_string`, the truthiness test of a switch |
| commands.dfy | `Commands` | `_handle_command` |
| streaming.dfy | `Streaming` | `stream_completion` |
| session.dfy | `Session` | the loop of `interactive_chat`, as written and corrected; runs |
| cli.dfy | `Cli` | `main` |

## Model

| member | source | states |
|---|---|---|
| Text.Strip | litellm-cli/agent.py:159 | `input().strip()`: the result neither starts nor ends with whitespace, and it is empty exactly when the line is all whitespace |
| Text.StripDecomposes | litellm-cli/agent.py:159 | the stripped line is the original with only whitespace removed at both ends |
| Text.StripPadded | litellm-cli/agent.py:124 | stripping whitespace padding around a trimmed non-empty text gives back exactly that text |
| Text.StripIdempotent | litellm-cli/agent.py:159 | stripping twice is stripping once |
| Text.Lower | litellm-cli/agent.py:116-123 | `user_input.lower()`, ASCII only: the model keeps the length and lower-cases each ASCII letter |
| Text.LowerPrefix | litellm-cli/agent.py:123 | a prefix test on the lower-cased line depends only on the first characters of the line |
| Text.SplitFirst | litellm-cli/agent.py:52-55 | `split("/", 1)` unpacking fails exactly when there is no `/`; otherwise the line is head, `/`, tail, and the head has no `/` |
| Text.SplitFirstJoin | litellm-cli/agent.py:53 | splitting `a + "/" + b` on the first `/` gives back `a` and `b` when `a` has no `/` |
| Registry.ModelTableKeys | litellm-cli/agent.py:30-37 | a name is a key of a provider's inner dict exactly when some model entry has that name |
| Registry.ToTableKeys | litellm-cli/agent.py:30-37 | a provider is a key of the registry dict exactly when some entry names it |
| Registry.ModelTableAt | litellm-cli/agent.py:30-37 | with distinct names, each model entry is in the inner dict with its own capabilities |
| Registry.ToTableAt | litellm-cli/agent.py:30-37 | in a well-formed registry, each provider entry maps to the dict of its own models |
| Registry.Items | litellm-cli/agent.py:231-232 | the lines under a provider heading are its model keys `provider/name`, one per model, in order |
| Registry.Listing | litellm-cli/agent.py:226-232 | `list_available_models` shows a heading for exactly the providers of the registry, and a non-empty registry's listing opens with its first provider |
| Registry.ListingItems | litellm-cli/agent.py:226-232 | `list_available_models` lists a key exactly when some registry entry has that key |
| Registry.ListingMatchesTable | litellm-cli/agent.py:229-232 | in a well-formed registry, the listed keys are exactly the joined registered provider/model pairs |
| Registry.ModelRegistryWellFormed | litellm-cli/agent.py:30-37 | the shipped registry has no repeated provider or model and no `/` in a provider |
| Registry.ModelsRegistered | litellm-cli/agent.py:30-37 | the registered pairs are exactly openai with gpt-4.1, gpt-4.1-mini or gpt-4.1-nano, and anthropic with claude-3.7-sonnet |
| Registry.ModelsNames | litellm-cli/agent.py:30-37 | no shipped model name is empty or holds `/` |
| Registry.ModelRegistryListing | litellm-cli/agent.py:226-232 | the shipped listing, written out: two headings, each followed by its keys in registry order |
| Resolver.Resolve | litellm-cli/agent.py:42-60 | `get_model_string`: `None` for a key without `/`; a result only for a registered pair whose join is the key, and then the bare name for openai or the whole key otherwise |
| Resolver.ResolveKey | litellm-cli/agent.py:53-60 | for a provider without `/`, `provider/model` resolves exactly when the pair is registered, to the provider-specific identifier |
| Resolver.AcceptedIffResolves | litellm-cli/agent.py:125 | the truthiness test agrees with `is not None` when no openai model has an empty name |
| Resolver.ListedKeysResolve | litellm-cli/agent.py:42-60 | every key the listing shows resolves |
| Resolver.ModelsAcceptedIffResolves | litellm-cli/agent.py:125 | with the shipped registry, a switch is accepted exactly when the key resolves |
| Resolver.ModelsRejectSecondSlash | litellm-cli/agent.py:53-58 | with the shipped registry, a key with a second `/` after the provider, such as `anthropic/a/b`, gives `None` |
| Resolver.ResolveOpenAIExample | litellm-cli/agent.py:60 | `openai/gpt-4.1-nano` resolves to `gpt-4.1-nano` |
| Resolver.ResolveAnthropicExample | litellm-cli/agent.py:60 | `anthropic/claude-3.7-sonnet` resolves to itself |
| Resolver.ResolveUnknownProviderExample | litellm-cli/agent.py:57-58 | `invalidprov/x` resolves to `None` |
| Commands.HandleCommand | litellm-cli/agent.py:104-136 | exit exactly on `/exit` in any case, and then no new key; listing exactly on `/models`; a new key exactly for a `/model ` line whose stripped rest passes the switch test, and the new key is that stripped rest and resolves; a rejection naming the attempted key otherwise; any other line gives `(None, False)` |
| Commands.SwitchRoundTrip | litellm-cli/agent.py:123-130 | `/model ` in any case, then any whitespace, a trimmed key and any whitespace, is a switch to exactly that key when it is accepted, and to nothing otherwise |
| Commands.ExitAnyCase | litellm-cli/agent.py:116-117 | any line that lower-cases to `/exit` gives `(None, True)` |
| Commands.ExitSpellings | litellm-cli/agent.py:116-117 | `/EXIT`, `/Exit` and `/exit` all end the session |
| Streaming.NonEmpty | litellm-cli/agent.py:94 | the kept tokens are non-empty, and every non-empty token is kept as often as it was received |
| Streaming.NonEmptyAppend | litellm-cli/agent.py:84-96 | filtering two runs of tokens one after the other is filtering them together: the kept tokens stay in arrival order |
| Streaming.ConcatNonEmpty | litellm-cli/agent.py:94-95 | skipping empty tokens does not change the joined text |
| Streaming.ConcatEmpty | litellm-cli/agent.py:98-99 | the joined text is empty exactly when every token is |
| Streaming.Accumulate | litellm-cli/agent.py:84-96 | the `async for` loop leaves `response_content` as the start text followed by all tokens in arrival order |
| Streaming.Frames | litellm-cli/agent.py:94-96 | there is one `live.update` call per non-empty token, and the last one shows the whole response |
| Streaming.FrameContents | litellm-cli/agent.py:94-96 | the k-th `live.update` call shows exactly the first k+1 non-empty tokens joined |
| Streaming.FramesGrow | litellm-cli/agent.py:94-96 | each `live.update` text extends the one before it: no token is dropped or reordered |
| Streaming.StreamCompletion | litellm-cli/agent.py:63-101 | a failing call returns the history unchanged; otherwise the history, then the user prompt, then the assistant reply exactly when the joined tokens are non-empty |
| Streaming.StreamHelloExample | litellm-cli/agent.py:84-101 | tokens `Hel` and `lo` add the prompt and then `Hello` |
| Streaming.StreamSilentExample | litellm-cli/agent.py:98-101 | a stream without text keeps the prompt and adds no assistant message |
| Session.Forward | litellm-cli/agent.py:174-179 | an unresolvable current key is reported and changes nothing; otherwise the provider gets the resolved model and the history plus the prompt, and the new history is what `stream_completion` returns: unchanged on failure, extended on success |
| Session.SessionStep | litellm-cli/agent.py:151-179 | the loop as written: end of input and `/exit` end it; a blank line changes nothing; an accepted switch sets the key to its stripped target and sends nothing, and the key changes in no other way; every other non-blank line carries the notice `_handle_command` gives it; a line goes to the prompt path exactly when it is non-empty, not `/exit` and not an accepted switch, and it is sent exactly when the key resolves, an unresolvable key being reported by name with nothing changed; a sent prompt leaves the history `stream_completion` returns, anything else leaves it unchanged |
| Session.IntendedStep | litellm-cli/agent.py:151-179 | the corrected step: the same promises as written except that a line goes to the prompt path exactly when it is a non-empty non-command; it equals the step as written on every other line |
| Session.Run | litellm-cli/agent.py:139-179 | the session, on either loop, returns only 0 and sends at most one request per line read |
| Session.RunsAgree | litellm-cli/agent.py:139-179 | on a session without a `/models` line or a rejected switch, the loop as written and the corrected loop give the same result |
| Session.RunEndsAtEndOfInput | litellm-cli/agent.py:159-162 | on either loop, end of input or an interrupt ends the session with 0 |
| Session.RunKeepsKey | litellm-cli/agent.py:167-172 | on either loop, the key a session ends with is its first key or one the switch test accepted |
| Session.RunHistoryGrows | litellm-cli/agent.py:179 | on either loop, the history only grows during a session |
| Session.RunRequests | litellm-cli/agent.py:174-179 | with the corrected loop, every request extends the history the session started with and ends with a user prompt that is neither empty nor a command |
| Session.CommandsOnlyRun | litellm-cli/agent.py:164-172 | with the corrected loop, a session of blank and command lines sends nothing and keeps its history |
| Session.SwitchLine | litellm-cli/agent.py:167-172 | on either loop, `/model ` in any case followed by an accepted trimmed key sets the key to it, keeps the history and sends nothing |
| Session.SwitchThenExit | litellm-cli/agent.py:167-172 | on either loop, switching to an accepted key and then `/exit` returns 0 on the new key, with nothing sent |
| Session.ModelsLineIsSent | litellm-cli/agent.py:167-179 | as written, `/models` is listed and then sent to the provider as a prompt; the corrected step only lists |
| Session.RejectedSwitchIsSent | litellm-cli/agent.py:167-179 | as written, a rejected `/model` line is reported and then sent to the provider as a prompt; the corrected step only reports |
| Cli.Main | litellm-cli/agent.py:245-286 | exit code 1 exactly when neither flag is given and the key does not resolve, and then the key is reported; `--version` first, then `--list-models` with the listing, both 0; with a resolving key, one-shot mode exactly when a prompt is given, sending it alone to the resolved model and returning 0; otherwise the interactive session from the given key and an empty history, whose exit code `main` returns, ending on a resolving key |
| Cli.DefaultKeyStarts | litellm-cli/agent.py:255-258 | with no flags, the default key `openai/gpt-4.1-nano` never gives exit code 1 |
| Cli.UnknownProviderExits | litellm-cli/agent.py:255-258 | `--model invalidprov/x` without a prompt returns 1 and reports the key |
| Cli.ListedModelsResolve | litellm-cli/agent.py:251-253 | `--list-models` shows only keys that resolve |
| Cli.InteractiveEndsWithZero | litellm-cli/agent.py:282-283 | `main` returns 0 once the interactive session ends |
| Cli.ModelsLineInMain | litellm-cli/agent.py:164-179 | interactive `main` as written sends a `/models` line to the resolved model as a user prompt; with the corrected loop it sends nothing |

## Left out

- Console output: the message texts, Rich `Live` and `Markdown` rendering, and the 15 Hz refresh rate. Only a `Notice` tag, the listing lines and the texts passed to `live.update` (`Streaming.Frames`) are kept.
- The LiteLLM `completion` call is a network client. It is abstracted to the `ProviderResult` it yields; a chunk without choices, delta or content is the empty token.
- Exceptions raised while the stream is consumed are not caught by the code, and are not modelled.
- `asyncio` scheduling and `KeyboardInterrupt` during streaming or in `main` (lines 268-275 and 282-286) are not modelled. An interrupt while reading input is the `EndOfInput` of a session.
- `parse_arguments` (argparse) and `load_dotenv` are not modelled. `main` takes the parsed `Args`.
- `display_name` (lines 153 and 260) is only printed and is not modelled.
- `max_tokens` is kept in `Capabilities`, but the code never reads it.
- Text.Lower: models `str.lower()` for ASCII letters only and keeps the length, while Python lower-cases non-ASCII letters too and can change the length. Only two non-ASCII characters lower-case to ASCII letters. U+0130 becomes `i` followed by the combining dot U+0307, and U+212A (Kelvin sign) becomes `k`. Neither U+0307 nor `k` occurs in `/exit`, `/models` or `/model `. So neither character can be among the characters a command test compares. The `/exit` and `/models` tests fail in Python and in the model alike. The `/model ` test passes or fails in both, and the switch key is taken from the original line in both.
- Registry.Listing: the registry is an ordered list of entries. A Python dict literal with a repeated key keeps one entry, while the list would be listed twice. The lemmas that relate the listing to the lookup table (`Registry.ListingMatchesTable`, `Resolver.ListedKeysResolve`) therefore assume a well-formed registry, which the shipped one is (`Registry.ModelRegistryWellFormed`).
- Cli.Main: the history one-shot mode returns is discarded by the code, so the outcome records only the request sent.
- Session.Run: a run takes the loop it uses, `AsWritten` (`Session.SessionStep`) or `Corrected` (`Session.IntendedStep`), and so does `Cli.Main`. `Session.RunRequests` and `Session.CommandsOnlyRun` are proved for the corrected loop only. The loop as written sends command lines to the provider (see Findings). It agrees with the corrected loop on sessions without such lines (`Session.RunsAgree`).

## Findings

| source | as written | input that shows it | evidently intended | confidence | as-written member | corrected member |
|---|---|---|---|---|---|---|
| litellm-cli/agent.py:167-179 | `_handle_command` answers `/models` with `(None, False)`, and the loop then takes the prompt path, sending `/models` to the provider as a user message | the line `/models` while the current key resolves | the models are listed and nothing is sent | not executed | Session.ModelsLineIsSent | Session.IntendedStep |
| litellm-cli/agent.py:167-179 | a rejected switch also returns `(None, False)`, so `/model nosuch` is reported as invalid and then sent to the provider as a prompt | the line `/model nosuch` while the current key resolves | the invalid key is reported and nothing is sent | not executed | Session.RejectedSwitchIsSent | Session.IntendedStep |
