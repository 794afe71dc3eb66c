/** The handful of Python string operations the command-line client relies on:
    `str.strip()`, `str.lower()`, `str.startswith()` and `str.split(sep, 1)`. */
module Text {
  import opened Wrappers

  /** Python's `str.isspace()` for one character: the characters `str.strip()`
      with no argument removes. */
  predicate IsSpace(c: char) {
    || c == ' '
    || ('\t' <= c <= '\r')
    || ('\U{1C}' <= c <= '\U{1F}')
    || c == '\U{85}'
    || c == '\U{A0}'
    || c == '\U{1680}'
    || ('\U{2000}' <= c <= '\U{200A}')
    || c == '\U{2028}'
    || c == '\U{2029}'
    || c == '\U{202F}'
    || c == '\U{205F}'
    || c == '\U{3000}'
  }

  predicate AllSpace(s: string) {
    forall i :: 0 <= i < |s| ==> IsSpace(s[i])
  }

  /** A string that `strip()` leaves as it is: empty, or starting and ending
      with a non-whitespace character. */
  predicate Trimmed(s: string) {
    s == [] || (!IsSpace(s[0]) && !IsSpace(s[|s| - 1]))
  }

  /** End of the run of whitespace that starts at index `k`. (The scans here
      move an index rather than slicing the string, so that the solver does not
      unfold them character by character on a string literal.) */
  function SkipSpace(s: string, k: nat): (n: nat)
    requires k <= |s|
    ensures k <= n <= |s|
    ensures forall i :: k <= i < n ==> IsSpace(s[i])
    ensures n < |s| ==> !IsSpace(s[n])
    decreases |s| - k
  {
    if k == |s| || !IsSpace(s[k]) then k else SkipSpace(s, k + 1)
  }

  /** Start of the run of whitespace that ends just before index `k`. */
  function BackSpace(s: string, k: nat): (n: nat)
    requires k <= |s|
    ensures n <= k
    ensures forall i :: n <= i < k ==> IsSpace(s[i])
    ensures n > 0 ==> !IsSpace(s[n - 1])
  {
    if k == 0 || !IsSpace(s[k - 1]) then k else BackSpace(s, k - 1)
  }

  /** Python's `s.strip()`: `s` without its leading and trailing whitespace. */
  function Strip(s: string): (r: string)
    ensures Trimmed(r)
    ensures r == [] <==> AllSpace(s)
  {
    var i := SkipSpace(s, 0);
    if i == |s| then []
    else
      var j := BackSpace(s, |s|);
      assert i < j by {
        assert !IsSpace(s[i]);
      }
      assert !AllSpace(s) by {
        assert !IsSpace(s[i]);
      }
      s[i..j]
  }

  /** What `strip()` removes is whitespace only: the input is the result with
      whitespace before and after it. */
  lemma StripDecomposes(s: string)
    ensures exists pre, post :: s == pre + Strip(s) + post && AllSpace(pre) && AllSpace(post)
  {
    var i := SkipSpace(s, 0);
    var j := BackSpace(s, |s|);
    if i == |s| {
      assert s == s + Strip(s) + [];
      assert AllSpace([]);
    } else {
      SpaceAround(s, i, j);
      assert s == s[..i] + Strip(s) + s[j..];
    }
  }

  lemma SpaceAround(s: string, i: nat, j: nat)
    requires i < |s| && i == SkipSpace(s, 0) && j == BackSpace(s, |s|)
    ensures i < j && Strip(s) == s[i..j]
    ensures AllSpace(s[..i]) && AllSpace(s[j..])
  {
    assert !IsSpace(s[i]);
    assert i < j;
    forall k | 0 <= k < i ensures IsSpace(s[..i][k]) {
      assert s[..i][k] == s[k];
    }
    forall k | 0 <= k < |s| - j ensures IsSpace(s[j..][k]) {
      assert s[j..][k] == s[j + k];
    }
  }

  /** The scans stop exactly at the borders of a trimmed middle part. */
  lemma SkipSpaceOf(pre: string, t: string, k: nat)
    requires AllSpace(pre) && k <= |pre|
    requires t == [] || !IsSpace(t[0])
    ensures SkipSpace(pre + t, k) == |pre|
    decreases |pre| - k
  {
    var s := pre + t;
    if k < |pre| {
      assert s[k] == pre[k];
      SkipSpaceOf(pre, t, k + 1);
    }
  }

  lemma BackSpaceOf(t: string, post: string, k: nat)
    requires AllSpace(post) && |t| <= k <= |t| + |post|
    requires t == [] || !IsSpace(t[|t| - 1])
    ensures BackSpace(t + post, k) == |t|
    decreases k
  {
    var s := t + post;
    if k > |t| {
      assert s[k - 1] == post[k - 1 - |t|];
      BackSpaceOf(t, post, k - 1);
    }
  }

  /** Stripping whitespace padding off a trimmed string gives that string back:
      together with the decomposition in `Strip`'s contract this pins `Strip`
      down completely. */
  lemma StripPadded(pre: string, t: string, post: string)
    requires AllSpace(pre) && AllSpace(post)
    requires t != [] && Trimmed(t)
    ensures Strip(pre + t + post) == t
  {
    var s := pre + t + post;
    assert s == pre + (t + post);
    SkipSpaceOf(pre, t + post, 0);
    assert s == (pre + t) + post;
    BackSpaceOf(pre + t, post, |s|);
    assert s[|pre|..|pre| + |t|] == t;
  }

  /** `strip()` is idempotent. */
  lemma StripIdempotent(s: string)
    ensures Strip(Strip(s)) == Strip(s)
  {
    var r := Strip(s);
    if r != [] {
      StripPadded([], r, []);
      assert [] + r + [] == r;
    }
  }

  /** Python's `str.lower()` restricted to ASCII letters. */
  function LowerChar(c: char): char {
    if 'A' <= c <= 'Z' then (c as int + 32) as char else c
  }

  function Lower(s: string): (r: string)
    ensures |r| == |s|
    ensures forall i :: 0 <= i < |s| ==> r[i] == LowerChar(s[i])
  {
    seq(|s|, i requires 0 <= i < |s| => LowerChar(s[i]))
  }

  /** Lower-casing a prefix is the prefix of the lower-cased string, so a
      prefix test on `s.lower()` is a test on the first characters of `s`. */
  lemma LowerPrefix(s: string, k: nat)
    requires k <= |s|
    ensures Lower(s)[..k] == Lower(s[..k])
  {
  }

  /** Python's `s.startswith(p)`. */
  predicate StartsWith(s: string, p: string) {
    p <= s
  }

  /** Index of the first occurrence of `c` in `s` at or after `k`, or `|s|`
      when there is none. */
  function IndexFrom(s: string, c: char, k: nat): (i: nat)
    requires k <= |s|
    ensures k <= i <= |s|
    ensures i < |s| ==> s[i] == c
    ensures forall j :: k <= j < i ==> s[j] != c
    decreases |s| - k
  {
    if k == |s| || s[k] == c then k else IndexFrom(s, c, k + 1)
  }

  /** Python's `s.split(sep, 1)` unpacked into two names: the text before the
      first `sep` and the text after it, or `None` where the unpacking raises
      `ValueError` because `sep` does not occur. */
  function SplitFirst(s: string, sep: char): (r: Option<(string, string)>)
    ensures r.None? <==> sep !in s
    ensures r.Some? ==> s == r.value.0 + [sep] + r.value.1 && sep !in r.value.0
  {
    var i := IndexFrom(s, sep, 0);
    if i == |s| then None
    else
      assert s == s[..i] + [sep] + s[i + 1..];
      Some((s[..i], s[i + 1..]))
  }

  /** Splitting a joined string on its first separator recovers both parts
      when the first part has no separator of its own. */
  lemma SplitFirstJoin(a: string, b: string, sep: char)
    requires sep !in a
    ensures SplitFirst(a + [sep] + b, sep) == Some((a, b))
  {
    var s := a + [sep] + b;
    var i := IndexFrom(s, sep, 0);
    assert s[|a|] == sep;
    assert i == |a|;
    assert s[..i] == a;
    assert s[i + 1..] == b;
  }
}
