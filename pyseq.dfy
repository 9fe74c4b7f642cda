/** Python sequence semantics that the splitter relies on: slicing with
    clamped bounds, and the concatenation of a list of lists. */
module PySeq {

  function Min(a: int, b: int): int { if a <= b then a else b }

  /** Python's `s[lo:hi]` for non-negative bounds: the upper bound is clamped
      to `|s|`, and the slice is empty when `lo` is at or past the clamped
      upper bound. */
  function Slice<T>(s: seq<T>, lo: nat, hi: nat): (r: seq<T>)
    ensures |r| == if lo <= Min(hi, |s|) then Min(hi, |s|) - lo else 0
    ensures lo <= hi <= |s| ==> r == s[lo..hi]
    ensures lo <= |s| <= hi ==> r == s[lo..]
  {
    var h := Min(hi, |s|);
    if lo < h then s[lo..h] else []
  }

  /** The frames of a list of windows, in order. */
  function Concat<T>(ss: seq<seq<T>>): seq<T>
  {
    if ss == [] then [] else Concat(ss[..|ss| - 1]) + ss[|ss| - 1]
  }

  /** Concatenation distributes over appending two lists of windows. */
  lemma {:induction false} ConcatAppend<T>(a: seq<seq<T>>, b: seq<seq<T>>)
    ensures Concat(a + b) == Concat(a) + Concat(b)
    decreases |b|
  {
    if b == [] {
      assert a + b == a;
    } else {
      var last := |b| - 1;
      assert (a + b)[..|a + b| - 1] == a + b[..last];
      ConcatAppend(a, b[..last]);
    }
  }
}
