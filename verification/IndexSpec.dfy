/** The weight index as a naive array of leaf weights with a stack of freed slots. */
module IndexSpec {
  import opened Machine
  import opened FeeMath
  import opened Leaves

  /** `freed` is the recycle stack, top last; slots at or past `highWater` were never handed out. */
  datatype Index = Index(leaves: seq<nat>, freed: seq<nat>, highWater: nat)

  function Empty(capacity: nat): Index {
    Index(seq(capacity, _ => 0), [], 0)
  }

  /** Every slot is exactly one of occupied, freed or fresh, and occupied means weighing
      something. */
  ghost predicate WellFormed(x: Index) {
    && |x.freed| <= x.highWater <= |x.leaves|
    && (forall i :: 0 <= i < |x.freed| ==> 0 <= x.freed[i] < x.highWater)
    && (forall i, j :: 0 <= i < j < |x.freed| ==> x.freed[i] != x.freed[j])
    && (forall k :: 0 <= k < |x.leaves| ==> (x.leaves[k] > 0 <==> k < x.highWater && k !in x.freed))
    && Total(x.leaves) <= U64_MAX
  }

  /** Recycled first, else the next slot never handed out. */
  function NextSlot(x: Index): Option<nat> {
    if |x.freed| > 0 then Some(x.freed[|x.freed| - 1])
    else if x.highWater < |x.leaves| then Some(x.highWater)
    else None
  }

  /** The index once its next slot is no longer on the stack or fresh. */
  function Taken(x: Index): Index {
    if |x.freed| > 0 then x.(freed := x.freed[..|x.freed| - 1]) else x.(highWater := x.highWater + 1)
  }

  function InsertWeight(x: Index, weight: u64, expected: u64): (r: Result<(Index, nat)>)
    requires WellFormed(x)
    ensures r.Ok? ==> r.value.1 < |x.leaves|
  {
    match NextSlot(x)
    case None => Err(WeightIndexFull)
    case Some(slot) =>
      if Total(x.leaves) + weight > U64_MAX || Total(x.leaves) + weight != expected then
        Err(WeightDesync)
      else
        Ok((Taken(x).(leaves := x.leaves[slot := weight]), slot))
  }

  function Insert(x: Index, value: u64, expected: u64): (r: Result<(Index, nat)>)
    requires WellFormed(x)
    ensures r.Ok? ==> r.value.1 < |x.leaves|
  {
    var weight :- WeightOf(value);
    InsertWeight(x, weight, expected)
  }

  function Remove(x: Index, slot: nat, value: u64, expected: u64): Result<Index> {
    var weight :- WeightOf(value);
    if slot >= |x.leaves| || x.leaves[slot] != weight then Err(WeightDesync)
    else if Total(x.leaves) - weight != expected then Err(WeightDesync)
    else Ok(x.(leaves := x.leaves[slot := 0], freed := x.freed + [slot]))
  }

  function Update(x: Index, slot: nat, oldValue: u64, newValue: u64, expected: u64): Result<Index> {
    var oldWeight :- WeightOf(oldValue);
    var newWeight :- WeightOf(newValue);
    if slot >= |x.leaves| || x.leaves[slot] != oldWeight then Err(WeightDesync)
    else
      var total := Total(x.leaves) - oldWeight + newWeight;
      if total > U64_MAX || total != expected then Err(WeightDesync)
      else Ok(x.(leaves := x.leaves[slot := newWeight]))
  }

  function PrefixSearch(x: Index, r: u64): Option<nat> {
    Draw(x.leaves, r)
  }

  // ---- What each operation keeps ----

  lemma EmptyWellFormed(capacity: nat)
    ensures WellFormed(Empty(capacity)) && Total(Empty(capacity).leaves) == 0
  {
    ZeroSum(Empty(capacity).leaves, 0, capacity);
  }

  /** A successful insert lands on a slot that weighed nothing, changes that leaf alone and
      keeps the partition. */
  lemma InsertWeightKeeps(x: Index, weight: u64, expected: u64)
    requires WellFormed(x) && 0 < weight && InsertWeight(x, weight, expected).Ok?
    ensures var (y, slot) := InsertWeight(x, weight, expected).value;
            && WellFormed(y) && Total(y.leaves) == expected
            && slot < |x.leaves| && x.leaves[slot] == 0
            && y.leaves == x.leaves[slot := weight]
  {
    if x.freed == [] {
      FreshKeeps(x, weight);
    } else {
      RecycledKeeps(x, weight);
    }
    hide WellFormed;
  }

  /** The next slot never handed out is taken. */
  lemma FreshKeeps(x: Index, weight: nat)
    requires WellFormed(x) && x.freed == [] && x.highWater < |x.leaves| && 0 < weight
    requires Total(x.leaves) + weight <= U64_MAX
    ensures var y := x.(highWater := x.highWater + 1, leaves := x.leaves[x.highWater := weight]);
            WellFormed(y) && Total(y.leaves) == Total(x.leaves) + weight && x.leaves[x.highWater] == 0
  {
    RangeUpdate(x.leaves, x.highWater, weight, 0, |x.leaves|);
  }

  /** The slot freed last is taken. */
  lemma RecycledKeeps(x: Index, weight: nat)
    requires WellFormed(x) && x.freed != [] && 0 < weight && Total(x.leaves) + weight <= U64_MAX
    ensures var n := |x.freed| - 1;
            var y := x.(freed := x.freed[..n], leaves := x.leaves[x.freed[n] := weight]);
            WellFormed(y) && Total(y.leaves) == Total(x.leaves) + weight && x.leaves[x.freed[n]] == 0
  {
    var n := |x.freed| - 1;
    var slot, rest := x.freed[n], x.freed[..n];
    RangeUpdate(x.leaves, slot, weight, 0, |x.leaves|);
    assert x.freed == rest + [slot];
    forall k | 0 <= k < |x.leaves|
      ensures x.leaves[slot := weight][k] > 0 <==> k < x.highWater && k !in rest
    {
      assert k in x.freed <==> k in rest || k == slot;
    }
    hide Total;
  }

  /** Why an operation is refused: a value that has no weight as such, an index with no slot left as full,
      and everything else, a leaf that is not the value's or a total that is not the caller's, as a
      desync. */
  lemma Refusals(x: Index, slot: nat, value: u64, newValue: u64, expected: u64)
    requires WellFormed(x)
    ensures Insert(x, value, expected).Err? ==>
              Insert(x, value, expected).error ==
                if value == 0 then ZeroValue
                else if value > 1_000_000_000_000_000_000 then ArithmeticFailure
                else if x.freed == [] && x.highWater == |x.leaves| then WeightIndexFull
                else WeightDesync
    ensures Remove(x, slot, value, expected).Err? ==>
              Remove(x, slot, value, expected).error ==
                if value == 0 then ZeroValue
                else if value > 1_000_000_000_000_000_000 then ArithmeticFailure
                else WeightDesync
    ensures Update(x, slot, value, newValue, expected).Err? ==>
              Update(x, slot, value, newValue, expected).error ==
                if value == 0 || (value <= 1_000_000_000_000_000_000 && newValue == 0) then ZeroValue
                else if value > 1_000_000_000_000_000_000 || newValue > 1_000_000_000_000_000_000 then
                  ArithmeticFailure
                else WeightDesync
    ensures Remove(x, slot, value, expected).Ok? <==>
              && 0 < value <= 1_000_000_000_000_000_000 && slot < |x.leaves|
              && x.leaves[slot] == WeightOf(value).value && Total(x.leaves) == expected + x.leaves[slot]
    ensures Update(x, slot, value, newValue, expected).Ok? <==>
              && 0 < value <= 1_000_000_000_000_000_000 && 0 < newValue <= 1_000_000_000_000_000_000
              && slot < |x.leaves| && x.leaves[slot] == WeightOf(value).value
              && Total(x.leaves) + WeightOf(newValue).value == expected + x.leaves[slot]
  {
    assert x.highWater <= |x.leaves|;
    hide WellFormed;
  }

  lemma InsertKeeps(x: Index, value: u64, expected: u64)
    requires WellFormed(x) && Insert(x, value, expected).Ok?
    ensures var (y, slot) := Insert(x, value, expected).value;
            && WellFormed(y) && Total(y.leaves) == expected
            && slot < |x.leaves| && x.leaves[slot] == 0
            && y.leaves == x.leaves[slot := WeightOf(value).value]
  {
    InsertWeightKeeps(x, WeightOf(value).value, expected);
  }

  /** A successful remove was of a live slot; it empties that leaf alone and keeps the
      partition, so the stack never outgrows the array. */
  lemma RemoveKeeps(x: Index, slot: nat, value: u64, expected: u64)
    requires WellFormed(x) && Remove(x, slot, value, expected).Ok?
    ensures var y := Remove(x, slot, value, expected).value;
            && WellFormed(y) && Total(y.leaves) == expected
            && slot < |x.leaves| && 0 < x.leaves[slot] == WeightOf(value).value
            && y.leaves == x.leaves[slot := 0]
            && |x.freed| < |x.leaves|
  {
    var y := Remove(x, slot, value, expected).value;
    RangeUpdate(x.leaves, slot, 0, 0, |x.leaves|);
    assert slot < x.highWater && slot !in x.freed;
    DistinctFit(y.freed, x.highWater);
    forall k | 0 <= k < |y.leaves|
      ensures y.leaves[k] > 0 <==> k < y.highWater && k !in y.freed
    {
      assert k in y.freed <==> k in x.freed || k == slot;
    }
  }

  lemma UpdateKeeps(x: Index, slot: nat, oldValue: u64, newValue: u64, expected: u64)
    requires WellFormed(x) && Update(x, slot, oldValue, newValue, expected).Ok?
    ensures var y := Update(x, slot, oldValue, newValue, expected).value;
            && WellFormed(y) && Total(y.leaves) == expected
            && slot < |x.leaves| && 0 < x.leaves[slot] == WeightOf(oldValue).value
            && y == x.(leaves := x.leaves[slot := WeightOf(newValue).value])
  {
    RangeUpdate(x.leaves, slot, WeightOf(newValue).value, 0, |x.leaves|);
  }

  ghost function Members(s: seq<nat>): set<nat> {
    set k | k in s
  }

  lemma {:induction false} SetOfDistinct(s: seq<nat>)
    requires forall i, j :: 0 <= i < j < |s| ==> s[i] != s[j]
    ensures |Members(s)| == |s|
    decreases |s|
  {
    if |s| > 0 {
      var rest, last := s[..|s| - 1], s[|s| - 1];
      SetOfDistinct(rest);
      assert s == rest + [last];
      assert Members(s) == Members(rest) + {last};
      assert last !in rest;
    }
  }

  /** Distinct naturals below `bound` are at most `bound` many. */
  lemma DistinctFit(s: seq<nat>, bound: nat)
    requires forall i :: 0 <= i < |s| ==> s[i] < bound
    requires forall i, j :: 0 <= i < j < |s| ==> s[i] != s[j]
    ensures |s| <= bound
  {
    SetOfDistinct(s);
    var rest := Interval(0, bound) - Members(s);
    assert Interval(0, bound) == Members(s) + rest;
  }

  // ---- Whole runs ----

  datatype Op =
    | InsertOp(value: u64, expected: u64)
    | RemoveOp(slot: nat, value: u64, expected: u64)
    | UpdateOp(slot: nat, oldValue: u64, newValue: u64, expected: u64)

  /** One instruction: a failed one reverts, leaving the index as it was. */
  ghost function Apply(x: Index, op: Op): Index
    requires WellFormed(x)
  {
    match op
    case InsertOp(value, expected) =>
      var r := Insert(x, value, expected);
      if r.Ok? then r.value.0 else x
    case RemoveOp(slot, value, expected) =>
      var r := Remove(x, slot, value, expected);
      if r.Ok? then r.value else x
    case UpdateOp(slot, oldValue, newValue, expected) =>
      var r := Update(x, slot, oldValue, newValue, expected);
      if r.Ok? then r.value else x
  }

  lemma ApplyKeeps(x: Index, op: Op)
    requires WellFormed(x)
    ensures WellFormed(Apply(x, op)) && |Apply(x, op).leaves| == |x.leaves|
  {
    match op
    case InsertOp(value, expected) =>
      if Insert(x, value, expected).Ok? { InsertKeeps(x, value, expected); }
    case RemoveOp(slot, value, expected) =>
      if Remove(x, slot, value, expected).Ok? { RemoveKeeps(x, slot, value, expected); }
    case UpdateOp(slot, oldValue, newValue, expected) =>
      if Update(x, slot, oldValue, newValue, expected).Ok? {
        UpdateKeeps(x, slot, oldValue, newValue, expected);
      }
  }

  /** The index after a run of instructions from an empty one. */
  ghost function Run(capacity: nat, ops: seq<Op>): (x: Index)
    ensures WellFormed(x) && |x.leaves| == capacity
    decreases |ops|
  {
    EmptyWellFormed(capacity);
    if ops == [] then Empty(capacity)
    else
      var before := Run(capacity, ops[..|ops| - 1]);
      ApplyKeeps(before, ops[|ops| - 1]);
      Apply(before, ops[|ops| - 1])
  }

  ghost function Occupied(x: Index): set<nat> {
    set k: nat | k < |x.leaves| && x.leaves[k] > 0
  }

  lemma SlotPartition(x: Index)
    requires WellFormed(x)
    ensures Occupied(x) !! Members(x.freed)
    ensures Occupied(x) + Members(x.freed) == Interval(0, x.highWater)
    ensures |Occupied(x)| + |x.freed| == x.highWater
  {
    SetOfDistinct(x.freed);
    forall k: nat
      ensures k in Occupied(x) + Members(x.freed) <==> k in Interval(0, x.highWater)
    {
    }
  }

  /** After any run the occupied slots and the freed ones are together exactly those handed out. */
  lemma RunPartition(capacity: nat, ops: seq<Op>)
    ensures var x := Run(capacity, ops);
            && Occupied(x) !! Members(x.freed)
            && Occupied(x) + Members(x.freed) == Interval(0, x.highWater)
            && |Occupied(x)| + |x.freed| == x.highWater
  {
    SlotPartition(Run(capacity, ops));
  }

  /** In every reachable index an insert of a weighable value fails in three ways only: no slot
      left, an aggregate past `u64`, or a caller whose expected total is wrong. */
  lemma InsertFailsOnlyWhen(capacity: nat, ops: seq<Op>, value: u64, expected: u64)
    requires 0 < value <= WEIGHT_C
    ensures var x := Run(capacity, ops);
            var total := Total(x.leaves) + WeightOf(value).value;
            && (Insert(x, value, expected) == Err(WeightIndexFull) <==> |Occupied(x)| == capacity)
            && (Insert(x, value, expected).Ok? <==>
                |Occupied(x)| < capacity && total <= U64_MAX && total == expected)
  {
    var x := Run(capacity, ops);
    RunPartition(capacity, ops);
  }

  /** A remove undoes the insert before it: the leaves come back, and the slot is the next one
      handed out. */
  lemma RemoveUndoesInsert(x: Index, value: u64, expected: u64)
    requires WellFormed(x) && Insert(x, value, expected).Ok?
    ensures var (y, slot) := Insert(x, value, expected).value;
            var undone := Remove(y, slot, value, Total(x.leaves));
            && undone.Ok?
            && undone.value.leaves == x.leaves
            && NextSlot(undone.value) == Some(slot)
            && (x.freed != [] ==> undone.value == x)
  {
    InsertKeeps(x, value, expected);
  }
}
