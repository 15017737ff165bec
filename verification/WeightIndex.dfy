/** One pool's draw domain: the Fenwick tree, its free-slot stack and the separate aggregate,
    updated in place and refining the naive index of `IndexSpec`. */
module WeightIndexState {
  import opened Machine
  import opened FeeMath
  import Leaves
  import Fenwick
  import Spec = IndexSpec

  class WeightIndex {
    var totalWeight: u64
    var highWater: u32
    var freeCount: u32
    const tree: array<u64>
    const freeStack: array<u32>
    ghost var leaves: seq<nat>

    /** The naive index this object stands for. */
    ghost function Abs(): Spec.Index
      reads this, freeStack
      requires freeCount <= freeStack.Length
    {
      Spec.Index(leaves, freeStack[..freeCount], highWater)
    }

    ghost predicate Valid()
      reads this, tree, freeStack
    {
      && tree as object != freeStack
      && tree.Length == freeStack.Length <= U32_MAX
      && freeCount <= freeStack.Length
      && Fenwick.Represents(tree[..], leaves)
      && Spec.WellFormed(Abs())
      && totalWeight == Leaves.Total(leaves)
    }

    /** A freshly created account of `capacity` slots, all zero. */
    constructor (capacity: u32)
      ensures Valid() && fresh(tree) && fresh(freeStack)
      ensures Abs() == Spec.Empty(capacity)
    {
      totalWeight, highWater, freeCount := 0, 0, 0;
      tree := new u64[capacity](_ => 0);
      freeStack := new u32[capacity](_ => 0);
      leaves := seq(capacity, _ => 0);
      new;
      Spec.EmptyWellFormed(capacity);
      forall k | 0 <= k < capacity
        ensures tree[k] == Fenwick.NodeSum(leaves, k)
      {
        Leaves.ZeroSum(leaves, k + 1 - Fenwick.LowBit(k + 1), k + 1);
      }
    }

    /** `slot_alloc`: hands back a slot whose leaf is empty, recycled first. The source's
        two defensive checks, on the slot's bound and on its leaf, are assertions here: they
        never fire. */
    method SlotAlloc() returns (r: Result<u32>)
      requires Valid()
      modifies this`highWater, this`freeCount
      ensures r.Err? ==> r.error == WeightIndexFull && Spec.NextSlot(old(Abs())) == None
      ensures r.Ok? ==>
                && Spec.NextSlot(old(Abs())) == Some(r.value)
                && r.value < tree.Length && leaves[r.value] == 0
                && freeCount <= freeStack.Length && Abs() == Spec.Taken(old(Abs()))
    {
      var slot: u32;
      ghost var before := Abs();
      if freeCount > 0 {
        freeCount := freeCount - 1;
        slot := freeStack[freeCount];
        assert before.freed[freeCount] == slot;
        assert freeStack[..freeCount] == before.freed[..freeCount];
      } else {
        if highWater >= tree.Length {
          return Err(WeightIndexFull);
        }
        slot := highWater;
        highWater := highWater + 1;
      }
      var leaf := Fenwick.Leaf(tree, slot, leaves);
      assert slot < tree.Length && leaf == 0;
      r := Ok(slot);
    }

    /** `ops_insert`: allocates a slot, adds the weight there, and checks the aggregate the
        caller expects. Nothing is promised of the object after an error: the transaction is
        rolled back. */
    method InsertWeight(weight: u64, expectedTotal: u64) returns (r: Result<u32>)
      requires Valid() && 0 < weight
      modifies this, tree
      ensures r.Ok? <==> Spec.InsertWeight(old(Abs()), weight, expectedTotal).Ok?
      ensures r.Err? ==> r.error == Spec.InsertWeight(old(Abs()), weight, expectedTotal).error
      ensures r.Ok? ==> Valid() &&
                        (Abs(), r.value) == Spec.InsertWeight(old(Abs()), weight, expectedTotal).value
    {
      ghost var before := Abs();
      assert Spec.WellFormed(before);
      hide Spec.WellFormed;
      hide Fenwick.Represents;
      var slot := SlotAlloc();
      if slot.Err? {
        return Err(slot.error);
      }
      ghost var taken := Abs();
      if totalWeight + weight > U64_MAX {
        return Err(WeightDesync);
      }
      totalWeight := totalWeight + weight;
      Fenwick.Add(tree, slot.value, weight, leaves);
      leaves := leaves[slot.value := leaves[slot.value] + weight];
      assert Abs() == taken.(leaves := leaves);
      if totalWeight != expectedTotal {
        return Err(WeightDesync);
      }
      Spec.InsertWeightKeeps(before, weight, expectedTotal);
      assert (Abs(), slot.value) == Spec.InsertWeight(before, weight, expectedTotal).value;
      r := Ok(slot.value);
    }

    /** `insert`: the leaf weight is derived here, never supplied. */
    method Insert(value: u64, expectedTotal: u64) returns (r: Result<u32>)
      requires Valid()
      modifies this, tree
      ensures r.Ok? <==> Spec.Insert(old(Abs()), value, expectedTotal).Ok?
      ensures r.Err? ==> r.error == Spec.Insert(old(Abs()), value, expectedTotal).error
      ensures r.Ok? ==> Valid() &&
                        (Abs(), r.value) == Spec.Insert(old(Abs()), value, expectedTotal).value
    {
      var weight := WeightOf(value);
      if weight.Err? {
        return Err(weight.error);
      }
      r := InsertWeight(weight.value, expectedTotal);
    }

    /** `remove`: verifies the leaf against the value before anything is written, empties it and
        recycles the slot. */
    method Remove(slot: u32, value: u64, expectedTotal: u64) returns (r: Result<()>)
      requires Valid()
      modifies this, tree, freeStack
      ensures r.Ok? <==> Spec.Remove(old(Abs()), slot, value, expectedTotal).Ok?
      ensures r.Err? ==> r.error == Spec.Remove(old(Abs()), slot, value, expectedTotal).error
      ensures r.Ok? ==> Valid() && Abs() == Spec.Remove(old(Abs()), slot, value, expectedTotal).value
    {
      hide WeightOf;
      ghost var before := Abs();
      var weight := WeightOf(value);
      if weight.Err? {
        return Err(weight.error);
      }
      if slot >= tree.Length {
        return Err(WeightDesync);
      }
      var leaf := Fenwick.Leaf(tree, slot, leaves);
      if leaf != weight.value {
        return Err(WeightDesync);
      }
      Leaves.LeafWithinTotal(leaves, slot);
      totalWeight := totalWeight - weight.value;
      Fenwick.Sub(tree, slot, weight.value, leaves);
      leaves := leaves[slot := 0];
      SlotRelease(slot, before);
      if totalWeight != expectedTotal {
        return Err(WeightDesync);
      }
      Spec.RemoveKeeps(before, slot, value, expectedTotal);
      r := Ok(());
    }

    /** `slot_release`: pushes a slot. The source's capacity check on the stack is never the one
        to fail, because a slot that still weighs something is not among the freed ones. */
    method SlotRelease(slot: u32, ghost before: Spec.Index)
      requires Spec.WellFormed(before) && |before.leaves| == freeStack.Length <= U32_MAX
      requires slot < |before.leaves| && before.leaves[slot] > 0
      requires freeCount <= freeStack.Length && freeStack[..freeCount] == before.freed
      modifies this`freeCount, freeStack
      ensures old(freeCount) < freeStack.Length && freeCount == old(freeCount) + 1
      ensures freeStack[..freeCount] == before.freed + [slot]
    {
      Spec.DistinctFit(before.freed + [slot], before.highWater);
      freeStack[freeCount] := slot;
      freeCount := freeCount + 1;
    }

    /** The aggregate and the tree, moved by the difference of two weights in either direction. */
    method MoveLeaf(slot: u32, oldWeight: u64, newWeight: u64) returns (ok: bool)
      requires Valid() && slot < tree.Length && leaves[slot] == oldWeight
      modifies `totalWeight, `leaves, tree
      ensures ok <==> Leaves.Total(old(leaves)) - oldWeight + newWeight <= U64_MAX
      ensures ok ==> leaves == old(leaves)[slot := newWeight]
      ensures ok ==> Fenwick.Represents(tree[..], leaves)
      ensures ok ==> totalWeight == Leaves.Total(old(leaves)) - oldWeight + newWeight
    {
      Leaves.LeafWithinTotal(leaves, slot);
      if newWeight >= oldWeight {
        var delta := newWeight - oldWeight;
        if totalWeight + delta > U64_MAX {
          return false;
        }
        totalWeight := totalWeight + delta;
        Fenwick.Add(tree, slot, delta, leaves);
      } else {
        var delta := oldWeight - newWeight;
        totalWeight := totalWeight - delta;
        Fenwick.Sub(tree, slot, delta, leaves);
      }
      leaves := leaves[slot := newWeight];
      ok := true;
    }

    /** `update`: moves one leaf between two values' weights, in whichever direction. */
    method Update(slot: u32, oldValue: u64, newValue: u64, expectedTotal: u64) returns (r: Result<()>)
      requires Valid()
      modifies this, tree
      ensures r.Ok? <==> Spec.Update(old(Abs()), slot, oldValue, newValue, expectedTotal).Ok?
      ensures r.Err? ==>
                r.error == Spec.Update(old(Abs()), slot, oldValue, newValue, expectedTotal).error
      ensures r.Ok? ==> Valid()
      ensures r.Ok? ==>
                Abs() == Spec.Update(old(Abs()), slot, oldValue, newValue, expectedTotal).value
    {
      hide WeightOf;
      ghost var before := Abs();
      var oldWeight := WeightOf(oldValue);
      if oldWeight.Err? {
        return Err(oldWeight.error);
      }
      var newWeight := WeightOf(newValue);
      if newWeight.Err? {
        return Err(newWeight.error);
      }
      if slot >= tree.Length {
        return Err(WeightDesync);
      }
      var leaf := Fenwick.Leaf(tree, slot, leaves);
      if leaf != oldWeight.value {
        return Err(WeightDesync);
      }
      var moved := MoveLeaf(slot, oldWeight.value, newWeight.value);
      if !moved {
        return Err(WeightDesync);
      }
      if totalWeight != expectedTotal {
        return Err(WeightDesync);
      }
      Spec.UpdateKeeps(before, slot, oldValue, newValue, expectedTotal);
      r := Ok(());
    }

    /** `prefix_search`: the occupied slot whose cumulative interval contains `r`. */
    method PrefixSearch(r: u64) returns (slot: Option<u32>)
      requires Valid()
      ensures slot == Spec.PrefixSearch(Abs(), r)
      ensures slot.Some? ==> slot.value < tree.Length && leaves[slot.value] > 0
    {
      Leaves.DrawIsInterval(leaves, r);
      if totalWeight == 0 || r >= totalWeight {
        return None;
      }
      var pos := Fenwick.Find(tree, r, leaves);
      assert pos < tree.Length;
      assert Leaves.Owns(leaves, pos, r);
      slot := Some(pos);
    }
  }
}
