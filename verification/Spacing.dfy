/** Counting moments that are at least a fixed distance apart. */
module Spacing {
  /** Consecutive moments are at least `gap` apart. */
  ghost predicate Spaced(moments: seq<int>, gap: nat) {
    forall i :: 0 < i < |moments| ==> moments[i - 1] + gap <= moments[i]
  }

  function CountIn(moments: seq<int>, lo: int, hi: int): nat {
    if moments == [] then 0
    else CountIn(moments[..|moments| - 1], lo, hi) + if lo <= moments[|moments| - 1] <= hi then 1 else 0
  }

  lemma {:induction false} SpacedBelow(moments: seq<int>, gap: nat, i: nat)
    requires Spaced(moments, gap) && i < |moments| - 1
    ensures moments[i] + gap <= moments[|moments| - 1]
  {
    if i < |moments| - 2 {
      SpacedBelow(moments[..|moments| - 1], gap, i);
    }
  }

  lemma {:induction false} CountLower(moments: seq<int>, lo: int, hi: int, top: int)
    requires hi <= top && forall i :: 0 <= i < |moments| ==> moments[i] <= hi
    ensures CountIn(moments, lo, top) == CountIn(moments, lo, hi)
  {
    if moments != [] {
      CountLower(moments[..|moments| - 1], lo, hi, top);
    }
  }

  lemma OneMore(n: int, gap: int)
    ensures (n + 1) * gap == n * gap + gap
  {
  }

  /** If an interval holds `n` moments, `n - 1` gaps fit into it. */
  lemma {:induction false} SpacedCount(moments: seq<int>, gap: nat, lo: int, hi: int)
    requires Spaced(moments, gap)
    ensures var n := CountIn(moments, lo, hi); n == 0 || (n - 1) * gap <= hi - lo
    decreases |moments|
  {
    if moments != [] {
      var n := |moments| - 1;
      var last := moments[n];
      if lo <= last <= hi {
        forall i | 0 <= i < n
          ensures moments[i] <= last - gap
        {
          SpacedBelow(moments, gap, i);
        }
        CountLower(moments[..n], lo, last - gap, hi);
        SpacedCount(moments[..n], gap, lo, last - gap);
        OneMore(CountIn(moments, lo, hi) - 2, gap);
      } else {
        SpacedCount(moments[..n], gap, lo, hi);
      }
    }
  }
}
