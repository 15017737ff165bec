/** The range-sum tree: every node holds the sum of the leaves it covers, for any capacity. */
module Fenwick {
  import opened Machine
  import opened Leaves

  // ---- lowbit ----

  /** Bitwise `and` of two naturals. */
  function BitAnd(a: nat, b: nat): nat {
    if a == 0 || b == 0 then 0 else 2 * BitAnd(a / 2, b / 2) + (a % 2) * (b % 2)
  }

  function Pow2(k: nat): (p: nat)
    ensures 0 < p
  {
    if k == 0 then 1 else 2 * Pow2(k - 1)
  }

  /** Two's-complement negation in a word of `bits` bits. */
  function WrappingNeg(i: nat, bits: nat): nat
    requires i < Pow2(bits)
  {
    if i == 0 then 0 else Pow2(bits) - i
  }

  /** The largest power of two dividing `i`. */
  function LowBit(i: nat): (b: nat)
    requires 0 < i
    ensures 0 < b <= i
  {
    if i % 2 == 1 then 1 else 2 * LowBit(i / 2)
  }

  lemma {:induction false} AndComplement(i: nat, bits: nat)
    requires i < Pow2(bits)
    ensures BitAnd(i, Pow2(bits) - 1 - i) == 0
    decreases bits
  {
    if bits > 0 {
      AndComplement(i / 2, bits - 1);
      assert (Pow2(bits) - 1 - i) / 2 == Pow2(bits - 1) - 1 - i / 2;
      assert i % 2 == 0 || (Pow2(bits) - 1 - i) % 2 == 0;
    }
  }

  /** `i & -i`, in a word of any width that holds `i`, is the largest power of two dividing it. */
  lemma {:induction false} LowBitIsAndNeg(i: nat, bits: nat)
    requires 0 < i < Pow2(bits)
    ensures BitAnd(i, WrappingNeg(i, bits)) == LowBit(i)
    decreases bits
  {
    var n := WrappingNeg(i, bits);
    if i % 2 == 1 {
      AndComplement(i / 2, bits - 1);
      assert n / 2 == Pow2(bits - 1) - 1 - i / 2;
      assert n % 2 == 1;
    } else {
      LowBitIsAndNeg(i / 2, bits - 1);
      assert n / 2 == WrappingNeg(i / 2, bits - 1);
    }
  }

  /** Climbing from a node at least doubles its low bit, so the next node covers what it covered. */
  lemma {:induction false} ClimbDoubles(i: nat)
    requires 0 < i
    ensures LowBit(i + LowBit(i)) >= 2 * LowBit(i)
    decreases i
  {
    if i % 2 == 1 {
      assert LowBit(i + 1) == 2 * LowBit((i + 1) / 2);
    } else {
      ClimbDoubles(i / 2);
      assert (i + LowBit(i)) / 2 == i / 2 + LowBit(i / 2);
    }
  }

  /** No node strictly between a node and the next one up reaches below the first. */
  lemma {:induction false} GapIsAbove(i: nat, j: nat)
    requires 0 < i < j < i + LowBit(i)
    ensures i <= j - LowBit(j)
    decreases i
  {
    if j % 2 == 0 {
      GapIsAbove(i / 2, j / 2);
    }
  }

  /** Divisibility by `Pow2(k)`. */
  ghost predicate Aligned(pos: nat, k: nat) {
    k == 0 || (pos % 2 == 0 && Aligned(pos / 2, k - 1))
  }

  lemma {:induction false} AlignedStep(pos: nat, k: nat)
    requires Aligned(pos, k + 1)
    ensures LowBit(pos + Pow2(k)) == Pow2(k)
    ensures Aligned(pos, k) && Aligned(pos + Pow2(k), k)
    decreases k
  {
    if k > 0 {
      AlignedStep(pos / 2, k - 1);
      assert (pos + Pow2(k)) / 2 == pos / 2 + Pow2(k - 1);
    }
  }

  lemma {:induction false} ZeroAligned(k: nat)
    ensures Aligned(0, k)
    decreases k
  {
    if k > 0 {
      ZeroAligned(k - 1);
    }
  }

  // ---- The representation ----

  /** What the node at zero-based index `k` must hold. */
  ghost function NodeSum(leaves: seq<nat>, k: nat): nat
    requires k < |leaves|
  {
    RangeSum(leaves, k + 1 - LowBit(k + 1), k + 1)
  }

  ghost predicate Represents(tree: seq<u64>, leaves: seq<nat>) {
    && |tree| == |leaves|
    && forall k :: 0 <= k < |tree| ==> tree[k] == NodeSum(leaves, k)
  }

  /** Whether the node at zero-based index `k` covers the leaf at zero-based index `slot`. */
  ghost predicate Covers(k: nat, slot: nat) {
    k + 1 - LowBit(k + 1) <= slot <= k
  }

  lemma NodeUpdate(leaves: seq<nat>, slot: nat, weight: nat, k: nat)
    requires slot < |leaves| && k < |leaves|
    ensures NodeSum(leaves[slot := weight], k)
         == NodeSum(leaves, k) + if Covers(k, slot) then weight - leaves[slot] else 0
  {
    RangeUpdate(leaves, slot, weight, k + 1 - LowBit(k + 1), k + 1);
  }

  lemma NodeWithinTotal(leaves: seq<nat>, k: nat)
    requires k < |leaves|
    ensures NodeSum(leaves, k) <= Total(leaves)
    ensures forall slot :: 0 <= slot < |leaves| && Covers(k, slot) ==> leaves[slot] <= NodeSum(leaves, k)
  {
    var lo := k + 1 - LowBit(k + 1);
    RangeSplit(leaves, 0, lo, k + 1);
    RangeSplit(leaves, 0, k + 1, |leaves|);
    forall slot | 0 <= slot < |leaves| && Covers(k, slot)
      ensures leaves[slot] <= NodeSum(leaves, k)
    {
      RangeSplit(leaves, lo, slot, k + 1);
      RangeSplit(leaves, slot, slot + 1, k + 1);
    }
  }

  /** The step of both update walks: from a covering node `i` to the next one up. */
  lemma Climb(i: nat, slot: nat)
    requires 0 < i && Covers(i - 1, slot)
    ensures Covers(i + LowBit(i) - 1, slot)
    ensures forall k :: i <= k < i + LowBit(i) - 1 ==> !Covers(k, slot)
  {
    ClimbDoubles(i);
    forall k | i <= k < i + LowBit(i) - 1
      ensures !Covers(k, slot)
    {
      GapIsAbove(i, k + 1);
    }
  }

  // ---- The walks ----

  /** Adds `delta` at leaf `slot`. The source panics on a node overflow; under the
      representation and a representable total that never happens. */
  method Add(tree: array<u64>, slot: nat, delta: u64, ghost leaves: seq<nat>)
    requires slot < tree.Length
    requires Represents(tree[..], leaves) && Total(leaves) + delta <= U64_MAX
    modifies tree
    ensures Represents(tree[..], leaves[slot := leaves[slot] + delta])
  {
    var capacity := tree.Length;
    ghost var after := leaves[slot := leaves[slot] + delta];
    RangeUpdate(leaves, slot, leaves[slot] + delta, 0, |leaves|);
    forall k | 0 <= k < slot
      ensures NodeSum(after, k) == NodeSum(leaves, k)
    {
      NodeUpdate(leaves, slot, leaves[slot] + delta, k);
    }
    var i := slot + 1;
    while i <= capacity
      invariant 0 < i && Covers(i - 1, slot)
      invariant forall k :: 0 <= k < capacity ==>
                  tree[k] == NodeSum(if k < i - 1 then after else leaves, k)
      decreases capacity + 1 - i
    {
      NodeUpdate(leaves, slot, leaves[slot] + delta, i - 1);
      NodeWithinTotal(after, i - 1);
      tree[i - 1] := tree[i - 1] + delta;
      Climb(i, slot);
      forall k | i <= k < i + LowBit(i) - 1 && k < capacity
        ensures NodeSum(after, k) == NodeSum(leaves, k)
      {
        NodeUpdate(leaves, slot, leaves[slot] + delta, k);
      }
      i := i + LowBit(i);
    }
  }

  /** Subtracts `delta` at leaf `slot + 1`. The source panics on a node underflow; a leaf that
      holds at least `delta` rules it out on the whole walk. */
  method Sub(tree: array<u64>, slot: nat, delta: u64, ghost leaves: seq<nat>)
    requires slot < tree.Length
    requires Represents(tree[..], leaves) && delta <= leaves[slot]
    modifies tree
    ensures Represents(tree[..], leaves[slot := leaves[slot] - delta])
  {
    var capacity := tree.Length;
    ghost var after := leaves[slot := leaves[slot] - delta];
    forall k | 0 <= k < slot
      ensures NodeSum(after, k) == NodeSum(leaves, k)
    {
      NodeUpdate(leaves, slot, leaves[slot] - delta, k);
    }
    var i := slot + 1;
    while i <= capacity
      invariant 0 < i && Covers(i - 1, slot)
      invariant forall k :: 0 <= k < capacity ==>
                  tree[k] == NodeSum(if k < i - 1 then after else leaves, k)
      decreases capacity + 1 - i
    {
      NodeUpdate(leaves, slot, leaves[slot] - delta, i - 1);
      NodeWithinTotal(leaves, i - 1);
      tree[i - 1] := tree[i - 1] - delta;
      Climb(i, slot);
      forall k | i <= k < i + LowBit(i) - 1 && k < capacity
        ensures NodeSum(after, k) == NodeSum(leaves, k)
      {
        NodeUpdate(leaves, slot, leaves[slot] - delta, k);
      }
      i := i + LowBit(i);
    }
  }

  /** The sum of the first `i` leaves. */
  method Prefix(tree: array<u64>, i: nat, ghost leaves: seq<nat>) returns (sum: u64)
    requires i <= tree.Length
    requires Represents(tree[..], leaves) && Total(leaves) <= U64_MAX
    ensures sum == RangeSum(leaves, 0, i)
  {
    sum := 0;
    var at := i;
    while at > 0
      invariant 0 <= at <= i
      invariant sum + RangeSum(leaves, 0, at) == RangeSum(leaves, 0, i)
    {
      RangeSplit(leaves, 0, at - LowBit(at), at);
      PrefixMonotone(leaves, i, |leaves|);
      assert tree[at - 1] == NodeSum(leaves, at - 1);
      sum := sum + tree[at - 1];
      at := at - LowBit(at);
    }
  }

  /** One leaf, read back out of the tree as the difference of two prefixes. */
  method Leaf(tree: array<u64>, slot: nat, ghost leaves: seq<nat>) returns (weight: u64)
    requires slot < tree.Length
    requires Represents(tree[..], leaves) && Total(leaves) <= U64_MAX
    ensures weight == leaves[slot]
  {
    var upper := Prefix(tree, slot + 1, leaves);
    var lower := Prefix(tree, slot, leaves);
    weight := upper - lower;
  }

  /** The exponent of the largest power of two at most `n`. */
  function ILog2(n: nat): (k: nat)
    requires 0 < n
    ensures Pow2(k) <= n < 2 * Pow2(k)
  {
    if n == 1 then 0 else 1 + ILog2(n / 2)
  }

  /** The binary descent: the number of leaves whose cumulative sum is at most `r`, that is the
      slot the draw lands on, for every capacity whether or not it is a power of two. */
  method Find(tree: array<u64>, r: u64, ghost leaves: seq<nat>) returns (pos: nat)
    requires Represents(tree[..], leaves)
    ensures pos <= tree.Length
    ensures RangeSum(leaves, 0, pos) <= r
    ensures pos < tree.Length ==> r < RangeSum(leaves, 0, pos + 1)
  {
    var capacity := tree.Length;
    pos := 0;
    var rest: u64 := r;
    var step := if capacity == 0 then 0 else Pow2(ILog2(capacity));
    ghost var k: nat := if capacity == 0 then 0 else ILog2(capacity);
    ZeroAligned(k + 1);
    while step > 0
      invariant pos <= capacity
      invariant RangeSum(leaves, 0, pos) + rest == r
      invariant step == 0 || (step == Pow2(k) && Aligned(pos, k + 1))
      invariant var reach := if step == 0 then 1 else 2 * step;
                pos + reach <= capacity ==> r < RangeSum(leaves, 0, pos + reach)
      decreases step
    {
      var next := pos + step;
      AlignedStep(pos, k);
      if next <= capacity {
        RangeSplit(leaves, 0, pos, next);
        assert tree[next - 1] == NodeSum(leaves, next - 1) == RangeSum(leaves, pos, next);
      }
      if next <= capacity && tree[next - 1] <= rest {
        pos := next;
        rest := rest - tree[next - 1];
      }
      step := step / 2;
      if step > 0 {
        k := k - 1;
      }
    }
  }
}
