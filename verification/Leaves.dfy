/** Sums over the naive array of leaf weights that the Fenwick tree stands for. */
module Leaves {
  import opened Machine

  /** The sum of the leaves at positions `lo .. hi`, half open. */
  function RangeSum(leaves: seq<nat>, lo: nat, hi: nat): nat
    requires lo <= hi <= |leaves|
    decreases hi
  {
    if lo == hi then 0 else RangeSum(leaves, lo, hi - 1) + leaves[hi - 1]
  }

  function Total(leaves: seq<nat>): nat {
    RangeSum(leaves, 0, |leaves|)
  }

  lemma {:induction false} RangeSplit(leaves: seq<nat>, lo: nat, mid: nat, hi: nat)
    requires lo <= mid <= hi <= |leaves|
    ensures RangeSum(leaves, lo, hi) == RangeSum(leaves, lo, mid) + RangeSum(leaves, mid, hi)
    decreases hi
  {
    if mid < hi {
      RangeSplit(leaves, lo, mid, hi - 1);
    }
  }

  /** Writing one leaf moves a range sum by exactly that leaf's change, if the range holds it. */
  lemma {:induction false} RangeUpdate(leaves: seq<nat>, k: nat, weight: nat, lo: nat, hi: nat)
    requires k < |leaves| && lo <= hi <= |leaves|
    ensures RangeSum(leaves[k := weight], lo, hi)
         == RangeSum(leaves, lo, hi) + if lo <= k < hi then weight - leaves[k] else 0
    decreases hi
  {
    if lo < hi {
      RangeUpdate(leaves, k, weight, lo, hi - 1);
    }
  }

  lemma {:induction false} ZeroSum(leaves: seq<nat>, lo: nat, hi: nat)
    requires lo <= hi <= |leaves|
    requires forall k :: lo <= k < hi ==> leaves[k] == 0
    ensures RangeSum(leaves, lo, hi) == 0
    decreases hi
  {
    if lo < hi {
      ZeroSum(leaves, lo, hi - 1);
    }
  }

  /** Prefix sums never decrease, and never exceed the total. */
  lemma PrefixMonotone(leaves: seq<nat>, i: nat, j: nat)
    requires i <= j <= |leaves|
    ensures RangeSum(leaves, 0, i) <= RangeSum(leaves, 0, j) <= Total(leaves)
  {
    RangeSplit(leaves, 0, i, j);
    RangeSplit(leaves, 0, j, |leaves|);
  }

  lemma LeafWithinTotal(leaves: seq<nat>, k: nat)
    requires k < |leaves|
    ensures RangeSum(leaves, 0, k + 1) == RangeSum(leaves, 0, k) + leaves[k]
    ensures leaves[k] <= Total(leaves)
  {
    PrefixMonotone(leaves, k + 1, |leaves|);
  }

  // ---- The draw, as a left-to-right scan ----

  /** The first slot, from `i` on, at which the running sum `cum` passes `r`. */
  function ScanFrom(leaves: seq<nat>, i: nat, cum: nat, r: nat): Option<nat>
    requires i <= |leaves|
    decreases |leaves| - i
  {
    if i == |leaves| then None
    else if r < cum + leaves[i] then Some(i)
    else ScanFrom(leaves, i + 1, cum + leaves[i], r)
  }

  function Draw(leaves: seq<nat>, r: nat): Option<nat> {
    ScanFrom(leaves, 0, 0, r)
  }

  /** Slot `s` owns the half-open interval between its two prefix sums. */
  ghost predicate Owns(leaves: seq<nat>, s: nat, r: nat)
    requires s < |leaves|
  {
    RangeSum(leaves, 0, s) <= r < RangeSum(leaves, 0, s + 1)
  }

  lemma {:induction false} ScanIsInterval(leaves: seq<nat>, i: nat, r: nat)
    requires i <= |leaves|
    requires RangeSum(leaves, 0, i) <= r
    ensures var d := ScanFrom(leaves, i, RangeSum(leaves, 0, i), r);
            match d
            case None => Total(leaves) <= r
            case Some(s) => i <= s < |leaves| && Owns(leaves, s, r)
    decreases |leaves| - i
  {
    if i < |leaves| && RangeSum(leaves, 0, i + 1) <= r {
      ScanIsInterval(leaves, i + 1, r);
    }
  }

  lemma OwnerIsUnique(leaves: seq<nat>, s: nat, t: nat, r: nat)
    requires s < |leaves| && t < |leaves|
    requires Owns(leaves, s, r) && Owns(leaves, t, r)
    ensures s == t
  {
    if s < t {
      PrefixMonotone(leaves, s + 1, t);
    } else if t < s {
      PrefixMonotone(leaves, t + 1, s);
    }
  }

  /** The draws that select slot `s` are exactly the interval it owns; a draw at or past the
      total selects nobody. */
  lemma DrawIsInterval(leaves: seq<nat>, r: nat)
    ensures Draw(leaves, r) == None <==> Total(leaves) <= r
    ensures forall s :: 0 <= s < |leaves| ==> (Draw(leaves, r) == Some(s) <==> Owns(leaves, s, r))
  {
    ScanIsInterval(leaves, 0, r);
    if Draw(leaves, r).Some? {
      PrefixMonotone(leaves, Draw(leaves, r).value + 1, |leaves|);
    }
    forall s | 0 <= s < |leaves|
      ensures Draw(leaves, r) == Some(s) <==> Owns(leaves, s, r)
    {
      if Owns(leaves, s, r) {
        PrefixMonotone(leaves, s + 1, |leaves|);
        OwnerIsUnique(leaves, s, Draw(leaves, r).value, r);
      }
    }
  }

  /** The draws below the total that select slot `s`. */
  ghost function Winners(leaves: seq<nat>, s: nat): set<nat> {
    set r: nat | r < Total(leaves) && Draw(leaves, r) == Some(s)
  }

  /** Every slot wins exactly as many draws as it weighs, so an empty slot wins none. */
  lemma DrawOdds(leaves: seq<nat>, s: nat)
    requires s < |leaves|
    ensures |Winners(leaves, s)| == leaves[s]
  {
    var lo, hi := RangeSum(leaves, 0, s), RangeSum(leaves, 0, s + 1);
    PrefixMonotone(leaves, s + 1, |leaves|);
    forall r: nat
      ensures r in Winners(leaves, s) <==> r in Interval(lo, hi)
    {
      DrawIsInterval(leaves, r);
    }
    assert Winners(leaves, s) == Interval(lo, hi);
  }

  ghost function Interval(lo: nat, hi: nat): (s: set<nat>)
    requires lo <= hi
    ensures |s| == hi - lo
    ensures forall r: nat :: r in s <==> lo <= r < hi
    decreases hi
  {
    if lo == hi then {} else Interval(lo, hi - 1) + {hi - 1}
  }
}
