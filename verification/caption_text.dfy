/** The pure string steps of `rewrite_caption`: each caption is cut into
    parts at every ", " before it is sent, and every newline is removed
    from the model's reply before it is parsed. */
module CaptionText {
  import opened Outcomes

  /** The separator `str.split` is called with. */
  const Sep: string := ", "

  /** `s` has the separator starting at position `i`. */
  predicate SepAt(s: string, i: int) {
    0 <= i && i + 2 <= |s| && s[i] == ',' && s[i + 1] == ' '
  }

  /** The separator occurs nowhere in `s`. */
  predicate SepFree(s: string) {
    forall i :: 0 <= i < |s| ==> !SepAt(s, i)
  }

  /** Position of the leftmost separator, if any. */
  function FirstSep(s: string): (r: Option<nat>)
    ensures r.Some? ==> SepAt(s, r.value) && forall j :: 0 <= j < r.value ==> !SepAt(s, j)
    ensures r.None? <==> SepFree(s)
    decreases |s|
  {
    assert forall i :: 1 <= i < |s| ==> (SepAt(s, i) <==> SepAt(s[1..], i - 1));
    if |s| < 2 then None
    else if SepAt(s, 0) then Some(0)
    else
      match FirstSep(s[1..])
      case None => None
      case Some(k) => assert SepAt(s, k + 1); Some(k + 1)
  }

  /** Python's `s.split(", ")`: cuts at the leftmost separator, then again
      in the remainder, keeping empty parts. */
  function Split(s: string): (parts: seq<string>)
    ensures |parts| >= 1
    ensures forall k :: 0 <= k < |parts| ==> SepFree(parts[k])
    decreases |s|
  {
    match FirstSep(s)
    case None => [s]
    case Some(k) =>
      assert SepFree(s[..k]) by {
        forall i | 0 <= i < k ensures !SepAt(s[..k], i) {
          assert SepAt(s[..k], i) ==> SepAt(s, i);
        }
      }
      [s[..k]] + Split(s[k + 2..])
  }

  /** `", ".join(parts)`. */
  function Join(parts: seq<string>): string
    decreases |parts|
  {
    if |parts| == 0 then ""
    else if |parts| == 1 then parts[0]
    else parts[0] + Sep + Join(parts[1..])
  }

  /** Splitting a caption and joining the parts again gives the caption back. */
  lemma {:induction false} JoinSplit(s: string)
    ensures Join(Split(s)) == s
    decreases |s|
  {
    match FirstSep(s)
    case None =>
    case Some(k) =>
      var rest := Split(s[k + 2..]);
      JoinSplit(s[k + 2..]);
      assert Split(s) == [s[..k]] + rest;
      assert s == s[..k] + Sep + s[k + 2..];
  }

  /** The converse: any non-empty list of separator-free parts is what
      splitting their join returns, so `Split` and `Join` are inverse
      bijections between strings and such lists. */
  lemma {:induction false} SplitJoin(parts: seq<string>)
    requires |parts| >= 1
    requires forall k :: 0 <= k < |parts| ==> SepFree(parts[k])
    ensures Split(Join(parts)) == parts
    decreases |parts|
  {
    if |parts| > 1 {
      var p := parts[0];
      var rest := parts[1..];
      var tail := Join(rest);
      assert Join(parts) == p + Sep + tail;
      assert forall k :: 0 <= k < |rest| ==> SepFree(rest[k]) by {
        forall k | 0 <= k < |rest| ensures SepFree(rest[k]) {
          assert rest[k] == parts[k + 1];
        }
      }
      SplitJoin(rest);
      SplitAfter(p, tail);
    }
  }

  /** Splitting `p + ", " + tail` for a separator-free `p` cuts off `p`. */
  lemma SplitAfter(p: string, tail: string)
    requires SepFree(p)
    ensures Split(p + Sep + tail) == [p] + Split(tail)
  {
    var s := p + Sep + tail;
    FirstSepAfter(p, tail);
    assert s[..|p|] == p;
    assert s[|p| + 2..] == tail;
  }

  /** The first separator of `p + ", " + tail` is the one after `p` when
      `p` holds none. */
  lemma FirstSepAfter(p: string, tail: string)
    requires SepFree(p)
    ensures FirstSep(p + Sep + tail) == Some(|p|)
  {
    var s := p + Sep + tail;
    assert SepAt(s, |p|);
    forall j | 0 <= j < |p| ensures !SepAt(s, j) {
      if j + 1 < |p| {
        assert SepAt(s, j) ==> SepAt(p, j);
      } else {
        assert s[j + 1] == ',';
      }
    }
  }

  /** Every caption of a batch split into its parts (line 15). */
  function SplitAll(captions: seq<string>): (r: seq<seq<string>>)
    ensures |r| == |captions|
    ensures forall k :: 0 <= k < |captions| ==> Join(r[k]) == captions[k]
  {
    JoinSplitEach(captions);
    seq(|captions|, k requires 0 <= k < |captions| => Split(captions[k]))
  }

  lemma JoinSplitEach(captions: seq<string>)
    ensures forall k :: 0 <= k < |captions| ==> Join(Split(captions[k])) == captions[k]
  {
    forall k | 0 <= k < |captions| {
      JoinSplit(captions[k]);
    }
  }

  /** `s.replace('\n', '')`. */
  function StripNewlines(s: string): (r: string)
    ensures '\n' !in r
    ensures |r| <= |s|
    decreases |s|
  {
    if |s| == 0 then ""
    else if s[0] == '\n' then StripNewlines(s[1..])
    else [s[0]] + StripNewlines(s[1..])
  }

  /** Removing newlines distributes over concatenation ... */
  lemma {:induction false} StripNewlinesAppend(a: string, b: string)
    ensures StripNewlines(a + b) == StripNewlines(a) + StripNewlines(b)
    decreases |a|
  {
    if |a| == 0 {
      assert a + b == b;
    } else {
      var ab := a + b;
      assert ab[0] == a[0];
      assert ab[1..] == a[1..] + b;
      StripNewlinesAppend(a[1..], b);
      if a[0] == '\n' {
        assert StripNewlines(ab) == StripNewlines(ab[1..]);
        assert StripNewlines(a) == StripNewlines(a[1..]);
      } else {
        assert StripNewlines(ab) == [a[0]] + StripNewlines(ab[1..]);
        assert StripNewlines(a) == [a[0]] + StripNewlines(a[1..]);
      }
    }
  }

  /** ... keeps every character other than a newline, in order, and leaves a
      newline-free reply as it is; with `StripNewlinesAppend` this determines
      the function on every string. */
  lemma {:induction false} StripNewlinesKeeps(s: string)
    ensures '\n' !in s ==> StripNewlines(s) == s
    ensures forall c :: c != '\n' ==> multiset(StripNewlines(s))[c] == multiset(s)[c]
    ensures multiset(StripNewlines(s))['\n'] == 0
    decreases |s|
  {
    if |s| > 0 {
      StripNewlinesKeeps(s[1..]);
      assert s == [s[0]] + s[1..];
    }
  }
}
