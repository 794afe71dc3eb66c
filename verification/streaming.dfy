/** The history logic of `stream_completion`: send the history plus the new
    prompt to the completion provider, accumulate the streamed text, and return
    the history the session keeps. The provider itself is abstracted to what it
    answers. */
module Streaming {

  datatype Role = User | Assistant

  datatype Message = Message(role: Role, content: string)

  /** The chat history: messages in the order they were exchanged. */
  type History = seq<Message>

  /** What the completion provider does with a request: the call raises, or it
      yields a stream of text fragments. A chunk with no choices, no delta or
      no content contributes the empty fragment. */
  datatype ProviderResult = Failure | Success(fragments: seq<string>)

  /** All fragments joined in arrival order. */
  function Concat(fs: seq<string>): string {
    if fs == [] then "" else fs[0] + Concat(fs[1..])
  }

  /** The fragments that carry text, in arrival order: `if token:` of the
      streaming loop. Every non-empty fragment is kept as often as it arrives,
      and no empty one. */
  function NonEmpty(fs: seq<string>): (r: seq<string>)
    ensures |r| <= |fs|
    ensures forall i :: 0 <= i < |r| ==> r[i] != ""
    ensures forall t :: t != "" ==> multiset(r)[t] == multiset(fs)[t]
  {
    if fs == [] then []
    else
      assert fs == [fs[0]] + fs[1..];
      if fs[0] == "" then NonEmpty(fs[1..])
      else [fs[0]] + NonEmpty(fs[1..])
  }

  /** Filtering keeps the arrival order: the kept fragments of a stream are
      those of its first part followed by those of the rest. */
  lemma {:induction false} NonEmptyAppend(a: seq<string>, b: seq<string>)
    ensures NonEmpty(a + b) == NonEmpty(a) + NonEmpty(b)
    decreases |a|
  {
    if a != [] {
      assert (a + b)[1..] == a[1..] + b;
      NonEmptyAppend(a[1..], b);
    } else {
      assert a + b == b;
    }
  }

  /** Skipping the empty fragments does not change the joined text. */
  lemma {:induction false} ConcatNonEmpty(fs: seq<string>)
    ensures Concat(NonEmpty(fs)) == Concat(fs)
  {
    if fs != [] {
      ConcatNonEmpty(fs[1..]);
      if fs[0] != "" {
        assert ([fs[0]] + NonEmpty(fs[1..]))[1..] == NonEmpty(fs[1..]);
      }
    }
  }

  /** The joined text is empty exactly when every fragment is. */
  lemma {:induction false} ConcatEmpty(fs: seq<string>)
    ensures Concat(fs) == "" <==> forall i :: 0 <= i < |fs| ==> fs[i] == ""
  {
    if fs != [] {
      ConcatEmpty(fs[1..]);
      assert forall i :: 1 <= i < |fs| ==> fs[i] == fs[1..][i - 1];
    }
  }

  /** The `async for` loop: `response_content += token` for every token that is
      not empty, starting from `acc`. */
  function Accumulate(acc: string, fs: seq<string>): (r: string)
    ensures r == acc + Concat(fs)
    decreases |fs|
  {
    if fs == [] then acc
    else
      var next := if fs[0] != "" then acc + fs[0] else acc;
      assert next + Concat(fs[1..]) == acc + (fs[0] + Concat(fs[1..]));
      Accumulate(next, fs[1..])
  }

  /** The text handed to `live.update` after each non-empty token, starting
      from `acc`. */
  function Frames(acc: string, fs: seq<string>): (r: seq<string>)
    ensures |r| == |NonEmpty(fs)|
    ensures r != [] ==> r[|r| - 1] == acc + Concat(fs)
    decreases |fs|
  {
    if fs == [] then []
    else if fs[0] == "" then Frames(acc, fs[1..])
    else
      var next := acc + fs[0];
      var rest := Frames(next, fs[1..]);
      assert next + Concat(fs[1..]) == acc + Concat(fs);
      ConcatNonEmpty(fs[1..]);
      [next] + rest
  }

  /** Every `live.update` call shows exactly the text received so far: the
      text passed after the `k`-th non-empty fragment is `acc` followed by
      the join of those fragments. */
  lemma {:induction false} FrameContents(acc: string, fs: seq<string>, k: nat)
    requires k < |Frames(acc, fs)|
    ensures Frames(acc, fs)[k] == acc + Concat(NonEmpty(fs)[..k + 1])
    decreases |fs|
  {
    var ne := NonEmpty(fs);
    var tail := NonEmpty(fs[1..]);
    if fs[0] == "" {
      FrameContents(acc, fs[1..], k);
    } else {
      var x := fs[0];
      assert ne == [x] + tail;
      var prefix := ne[..k + 1];
      assert prefix == [x] + tail[..k];
      ConcatCons(x, tail[..k]);
      if k > 0 {
        FrameContents(acc + x, fs[1..], k - 1);
      }
    }
  }

  /** Joining is a right fold: the first fragment comes first. */
  lemma ConcatCons(x: string, t: seq<string>)
    ensures Concat([x] + t) == x + Concat(t)
  {
    assert ([x] + t)[1..] == t;
  }

  /** Joining a longer prefix of the fragments extends the joined text. */
  lemma {:induction false} ConcatPrefix(fs: seq<string>, i: nat, j: nat)
    requires i <= j <= |fs|
    ensures Concat(fs[..i]) <= Concat(fs[..j])
    decreases i
  {
    if i > 0 {
      assert fs[..i][1..] == fs[1..][..i - 1];
      assert fs[..j][1..] == fs[1..][..j - 1];
      ConcatPrefix(fs[1..], i - 1, j - 1);
    }
  }

  /** No `live.update` call takes text back: each text extends the one before it. */
  lemma FramesGrow(acc: string, fs: seq<string>, i: nat, j: nat)
    requires i <= j < |Frames(acc, fs)|
    ensures Frames(acc, fs)[i] <= Frames(acc, fs)[j]
  {
    FrameContents(acc, fs, i);
    FrameContents(acc, fs, j);
    ConcatPrefix(NonEmpty(fs), i + 1, j + 1);
  }

  /** `stream_completion(prompt, model, history)` given the provider's answer.
      A provider failure leaves the history exactly as it was; otherwise the
      prompt is kept as a user message and the streamed text, when there is
      any, as an assistant message after it. */
  function StreamCompletion(prompt: string, history: History, reply: ProviderResult): (h: History)
    ensures reply.Failure? ==> h == history
    ensures reply.Success? ==> history <= h && |h| > |history| && h[|history|] == Message(User, prompt)
    ensures reply.Success? ==> (|h| == |history| + 2 <==> Concat(reply.fragments) != "")
    ensures reply.Success? && Concat(reply.fragments) != "" ==>
      h[|history| + 1] == Message(Assistant, Concat(reply.fragments))
    ensures |h| <= |history| + 2
  {
    var messages := history + [Message(User, prompt)];
    match reply
    case Failure => history
    case Success(fragments) =>
      var content := Accumulate("", fragments);
      if content != "" then messages + [Message(Assistant, content)] else messages
  }

  /** Fragments `Hel` and `lo` end the history with
      the prompt and then `Hello`. */
  lemma StreamHelloExample(prompt: string, history: History)
    ensures StreamCompletion(prompt, history, Success(["Hel", "lo"]))
      == history + [Message(User, prompt), Message(Assistant, "Hello")]
  {
    var fs := ["Hel", "lo"];
    assert Concat(fs[1..]) == "lo" + Concat([]);
    assert Concat(fs) == "Hello";
  }

  /** A stream without text keeps the prompt but adds no assistant message. */
  lemma StreamSilentExample(prompt: string, history: History)
    ensures StreamCompletion(prompt, history, Success([])) == history + [Message(User, prompt)]
    ensures StreamCompletion(prompt, history, Success(["", ""])) == history + [Message(User, prompt)]
  {
    ConcatEmpty(["", ""]);
  }
}
