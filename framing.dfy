/** The framing protocol: the server prints `||<json>||` and the client
    recovers `<json>` with the Rust regex `\|\|(.*)\|\|`.  Under Rust regex
    semantics that regex finds the leftmost `||` that has a closing `||`
    later on the same line (`.` does not match a newline), and the greedy
    `.*` then extends the capture to the LAST such closing `||`. */
module Framing {
  import opened Contract

  /** The text `print!("||{}||", payload)` writes (no trailing newline). */
  function Frame(payload: string): string
  {
    "||" + payload + "||"
  }

  /** A `||` starts at index k of s. */
  predicate IsDelimAt(s: string, k: int)
  {
    0 <= k && k + 1 < |s| && s[k] == '|' && s[k + 1] == '|'
  }

  /** The regex matches s[i..j+2]: an opening `||` at i, a closing `||` at j,
      and no newline in the captured text s[i+2..j]. */
  ghost predicate IsMatch(s: string, i: int, j: int)
  {
    IsDelimAt(s, i) && i + 2 <= j && IsDelimAt(s, j) &&
    forall k :: i + 2 <= k < j ==> s[k] != '\n'
  }

  /** A match inside a prefix is a match of the whole text. */
  lemma MatchInPrefix(t: string, u: string)
    requires t <= u
    ensures forall i, j :: IsMatch(t, i, j) ==> IsMatch(u, i, j)
  {
    forall i, j | IsMatch(t, i, j) ensures IsMatch(u, i, j) {
      assert u[..|t|] == t;
    }
  }

  /** The match the regex reports: leftmost start, then the longest capture. */
  ghost predicate IsFrameAt(s: string, i: int, j: int)
  {
    IsMatch(s, i, j) &&
    (forall i', j' :: IsMatch(s, i', j') ==> i <= i') &&
    (forall j' :: IsMatch(s, i, j') ==> j' <= j)
  }

  /** The first newline at or after k, or |s| if there is none. */
  function LineEnd(s: string, k: int): (e: int)
    requires 0 <= k <= |s|
    ensures k <= e <= |s|
    ensures forall m :: k <= m < e ==> s[m] != '\n'
    ensures e < |s| ==> s[e] == '\n'
    decreases |s| - k
  {
    if k == |s| || s[k] == '\n' then k else LineEnd(s, k + 1)
  }

  /** The largest j with lo <= j, j + 2 <= hi and a `||` at j. */
  function LastDelim(s: string, lo: int, hi: int): (r: Option<int>)
    requires 0 <= lo && hi <= |s|
    ensures r.Some? ==> lo <= r.value && r.value + 2 <= hi && IsDelimAt(s, r.value)
    ensures r.Some? ==> forall j :: r.value < j && j + 2 <= hi ==> !IsDelimAt(s, j)
    ensures r.None? ==> forall j :: lo <= j && j + 2 <= hi ==> !IsDelimAt(s, j)
    decreases hi
  {
    if hi - 2 < lo then None
    else if IsDelimAt(s, hi - 2) then Some(hi - 2)
    else LastDelim(s, lo, hi - 1)
  }

  /** The greedy closing `||` for an opening `||` at i, if any. */
  function ClosingFor(s: string, i: int): (r: Option<int>)
    requires IsDelimAt(s, i)
    ensures r.Some? ==> IsMatch(s, i, r.value)
    ensures r.Some? ==> forall j' :: IsMatch(s, i, j') ==> j' <= r.value
    ensures r.None? ==> forall j' :: !IsMatch(s, i, j')
  {
    var e := LineEnd(s, i + 2);
    assert forall j' :: IsMatch(s, i, j') ==> j' + 2 <= e;
    LastDelim(s, i + 2, e)
  }

  /** The leftmost match starting at or after i, with its greedy end. */
  function MatchFrom(s: string, i: int): (r: Option<(int, int)>)
    requires 0 <= i <= |s|
    ensures r.Some? ==> i <= r.value.0 && IsMatch(s, r.value.0, r.value.1)
    ensures r.Some? ==> forall i', j' :: i <= i' && IsMatch(s, i', j') ==> r.value.0 <= i'
    ensures r.Some? ==> forall j' :: IsMatch(s, r.value.0, j') ==> j' <= r.value.1
    ensures r.None? ==> forall i', j' :: i <= i' ==> !IsMatch(s, i', j')
    decreases |s| - i
  {
    if i == |s| then None
    else if IsDelimAt(s, i) && ClosingFor(s, i).Some? then Some((i, ClosingFor(s, i).value))
    else MatchFrom(s, i + 1)
  }

  /** `re.captures(txt)` followed by `cap.get(1)`: group 1 of the match. */
  function Capture(s: string): (r: Option<string>)
    ensures r.Some? ==> |r.value| + 4 <= |s| && '\n' !in r.value
  {
    match MatchFrom(s, 0)
    case Some((i, j)) =>
      Some(s[i + 2..j])
    case None => None
  }

  /** The capture exists exactly when the regex matches somewhere, and it is
      the text between the delimiters of the reported match. */
  lemma CaptureMeaning(s: string)
    ensures Capture(s).None? <==> forall i, j :: !IsMatch(s, i, j)
    ensures Capture(s).Some? ==> exists i, j :: IsFrameAt(s, i, j) && Capture(s).value == s[i + 2..j]
  {
    match MatchFrom(s, 0)
    case Some((i, j)) =>
      assert IsFrameAt(s, i, j);
    case None =>
  }

  /** There is only one reported match: its capture is what `Capture` gives. */
  lemma CaptureOfFrameAt(s: string, i: int, j: int)
    requires IsFrameAt(s, i, j)
    ensures Capture(s) == Some(s[i + 2..j])
  {
    CaptureMeaning(s);
    var r := Capture(s);
    var i', j' :| IsFrameAt(s, i', j') && r.value == s[i' + 2..j'];
    assert i == i' && j == j';
  }

  /** A printed frame on its own decodes to its payload, whatever `|`s the
      payload holds, as long as it holds no newline. */
  lemma CaptureOfFrame(payload: string)
    requires '\n' !in payload
    ensures Capture(Frame(payload)) == Some(payload)
  {
    var s := Frame(payload);
    var b := |payload| + 2;
    assert s[2..b] == payload;
    forall j' | IsMatch(s, 0, j') ensures j' <= b { }
    CaptureOfFrameAt(s, 0, b);
  }

  /** The only `|` characters of `pre + Frame(p) + post`, when pre, p and
      post hold none, are the four delimiter characters. */
  lemma PipesOfFramedStream(pre: string, p: string, post: string, k: int)
    requires '|' !in pre && '|' !in p && '|' !in post
    requires 0 <= k < |pre + Frame(p) + post|
    ensures var s := pre + Frame(p) + post;
      var a, b := |pre|, |pre| + 2 + |p|;
      s[k] == '|' <==> (k == a || k == a + 1 || k == b || k == b + 1)
  {
    var s := pre + Frame(p) + post;
    var a, b := |pre|, |pre| + 2 + |p|;
    if k < a {
      assert s[k] == pre[k];
    } else if k < a + 2 {
    } else if k < b {
      assert s[k] == p[k - a - 2];
    } else if k < b + 2 {
    } else {
      assert s[k] == post[k - b - 2];
    }
  }

  /** Chunk invariance, one buffer at a time: a prefix of a framed stream
      whose only `|` characters are the delimiters has no match until the
      closing `||` has fully arrived, and from then on captures exactly the
      payload. */
  lemma CaptureOfStreamPrefix(pre: string, p: string, post: string, n: int)
    requires '|' !in pre && '|' !in p && '|' !in post && '\n' !in p
    requires 0 <= n <= |pre + Frame(p) + post|
    ensures Capture((pre + Frame(p) + post)[..n]) ==
            if n >= |pre| + |p| + 4 then Some(p) else None
  {
    var s := pre + Frame(p) + post;
    var q := s[..n];
    var a, b := |pre|, |pre| + 2 + |p|;
    forall k | 0 <= k < n
      ensures q[k] == '|' <==> (k == a || k == a + 1 || k == b || k == b + 1)
    {
      PipesOfFramedStream(pre, p, post, k);
    }
    if n >= b + 2 {
      forall k | a + 2 <= k < b ensures q[k] != '\n' {
        assert q[k] == p[k - a - 2];
      }
      assert IsMatch(q, a, b);
      forall i', j' | IsMatch(q, i', j') ensures a <= i' {
        assert q[i'] == '|';
      }
      forall j' | IsMatch(q, a, j') ensures j' <= b {
        assert q[j'] == '|' && q[j' + 1] == '|';
      }
      assert |q[a + 2..b]| == |p|;
      forall k | 0 <= k < |p| ensures q[a + 2..b][k] == p[k] {
        assert q[a + 2 + k] == s[a + 2 + k];
      }
      assert q[a + 2..b] == p;
      CaptureOfFrameAt(q, a, b);
    } else {
      forall i, j ensures !IsMatch(q, i, j) { }
      CaptureMeaning(q);
    }
  }
}
