/** What every reachable pool satisfies, in four parts that different accounts carry. */
module LedgerInvariant {
  import opened Machine
  import opened FeeMath
  import opened State
  import opened Accounting
  import opened TierSpec
  import opened TierTheorems
  import opened Sums
  import opened Leaves
  import opened Ledger
  import Index = IndexSpec

  // ---- Measures over the positions ----

  function CountOf(): Position -> nat {
    (p: Position) => if p.state == Active then 1 else 0
  }

  function Weight(value: u64): nat {
    var w := WeightOf(value);
    if w.Ok? then w.value else 0
  }

  function WeightOfPosition(): Position -> nat {
    (p: Position) => if p.state == Active then Weight(p.recordedValue) else 0
  }

  function CountOwned(owner: nat): Position -> nat {
    (p: Position) => if p.state == Active && p.depositor == owner then 1 else 0
  }

  function ValueOwned(owner: nat): Position -> nat {
    (p: Position) => if p.state == Active && p.depositor == owner then p.recordedValue else 0
  }

  function MemberOf(): Position -> nat {
    (p: Position) => if p.inTier then 1 else 0
  }

  function Lead(acc: nat, checkpoint: nat): nat {
    if acc >= checkpoint then acc - checkpoint else 0
  }

  /** What one position is owed, in accumulator precision: settled credit, the equal leg while it
      is active, the tier leg while it is a member. */
  function Claim(accEqual: nat, accTier: nat, p: Position): nat {
    ACC_PRECISION * p.accrued
    + (if p.state == Active then Lead(accEqual, p.equalCheckpoint) else 0)
    + (if p.inTier then Lead(accTier, p.tierCheckpoint) else 0)
  }

  function ClaimOf(accEqual: nat, accTier: nat): Position -> nat {
    (p: Position) => Claim(accEqual, accTier, p)
  }

  // ---- The four parts ----

  ghost predicate Placed(leaves: seq<nat>, p: Position) {
    && 0 < p.recordedValue <= WEIGHT_C
    && p.slotIndex < |leaves| && leaves[p.slotIndex] == Weight(p.recordedValue)
  }

  ghost predicate Holds(p: Position, slot: nat) {
    p.state == Active && p.slotIndex == slot
  }

  /** Active positions and occupied leaves correspond one to one, weight for weight, and the
      pool's counters are their totals. */
  ghost predicate WeightInv(wReal: nat, nReal: nat, leaves: seq<nat>, ps: seq<Position>) {
    && wReal == Total(leaves) == SumBy(WeightOfPosition(), ps)
    && nReal == SumBy(CountOf(), ps)
    && (forall i :: 0 <= i < |ps| && ps[i].state == Active ==> Placed(leaves, ps[i]))
    && (forall i, j :: 0 <= i < j < |ps| && ps[i].state == Active && ps[j].state == Active ==>
          ps[i].slotIndex != ps[j].slotIndex)
    && (forall s :: 0 <= s < |leaves| && leaves[s] > 0 ==>
          exists i :: 0 <= i < |ps| && Holds(ps[i], s))
  }

  ghost predicate WalletInv(wallets: map<nat, Wallet>, ps: seq<Position>) {
    forall owner :: var w := WalletOf(wallets, owner);
      && w.activePositions == SumBy(CountOwned(owner), ps)
      && w.activeValue == SumBy(ValueOwned(owner), ps)
  }

  ghost predicate CheckpointsOk(accEqual: nat, accTier: nat, p: Position) {
    && (p.state == Active ==> p.equalCheckpoint <= accEqual)
    && (p.inTier ==> p.tierCheckpoint <= accTier)
  }

  /** Solvency: what the vault owes covers every position's claim. */
  ghost predicate FeeInv(owed: nat, accEqual: nat, accTier: nat, ps: seq<Position>) {
    && (forall i :: 0 <= i < |ps| ==> CheckpointsOk(accEqual, accTier, ps[i]))
    && SumBy(ClaimOf(accEqual, accTier), ps) <= owed * ACC_PRECISION
  }

  ghost predicate Member(ps: seq<Position>, e: TierEntry) {
    e.position < |ps| && ps[e.position].inTier && e == EntryOf(ps[e.position], e.position)
  }

  /** The tier is ranked and is exactly the flagged positions, each an active one. */
  ghost predicate TierInv(tier: seq<TierEntry>, ps: seq<Position>) {
    && Sorted(tier)
    && |tier| == SumBy(MemberOf(), ps)
    && (forall e :: e in tier ==> Member(ps, e))
    && (forall i :: 0 <= i < |ps| && ps[i].inTier ==>
          ps[i].state == Active && EntryOf(ps[i], i) in tier)
  }

  ghost predicate IdsOk(ps: seq<Position>) {
    forall i :: 0 <= i < |ps| ==> ps[i].positionId == i
  }

  ghost predicate Inv(l: Ledger) {
    && Index.WellFormed(l.index) && |l.index.leaves| <= U32_MAX
    && ValidConfig(l.pool) && |l.pool.blanks| == 3
    && IdsOk(l.positions)
    && WeightInv(l.pool.wReal, l.pool.nReal, l.index.leaves, l.positions)
    && WalletInv(l.wallets, l.positions)
    && FeeInv(l.pool.owedFees, l.pool.accEqual, l.accTier, l.positions)
    && TierInv(l.tier, l.positions) && |l.tier| <= l.pool.tierSize
  }

  // ---- Frames: changes that one part does not see ----

  /** Everything but the fee legs and the membership flag is the same. */
  ghost predicate SameCore(p: Position, q: Position) {
    && p.state == q.state && p.recordedValue == q.recordedValue && p.slotIndex == q.slotIndex
    && p.depositor == q.depositor && p.activatedAt == q.activatedAt && p.positionId == q.positionId
    && p.lockUntil == q.lockUntil
  }

  ghost predicate SameCores(ps: seq<Position>, qs: seq<Position>) {
    |ps| == |qs| && forall i :: 0 <= i < |ps| ==> SameCore(ps[i], qs[i])
  }

  lemma WeightFrame(wReal: nat, nReal: nat, leaves: seq<nat>, ps: seq<Position>, qs: seq<Position>)
    requires WeightInv(wReal, nReal, leaves, ps) && SameCores(ps, qs)
    ensures WeightInv(wReal, nReal, leaves, qs)
  {
    hide WeightOf;
    SumSame(WeightOfPosition(), ps, qs);
    SumSame(CountOf(), ps, qs);
    forall s | 0 <= s < |leaves| && leaves[s] > 0
      ensures exists i :: 0 <= i < |qs| && Holds(qs[i], s)
    {
      var i :| 0 <= i < |ps| && Holds(ps[i], s);
      assert Holds(qs[i], s);
    }
  }

  lemma WalletFrame(wallets: map<nat, Wallet>, ps: seq<Position>, qs: seq<Position>)
    requires WalletInv(wallets, ps) && SameCores(ps, qs)
    ensures WalletInv(wallets, qs)
  {
    forall owner: nat
      ensures SumBy(CountOwned(owner), ps) == SumBy(CountOwned(owner), qs)
      ensures SumBy(ValueOwned(owner), ps) == SumBy(ValueOwned(owner), qs)
    {
      SumSame(CountOwned(owner), ps, qs);
      SumSame(ValueOwned(owner), ps, qs);
    }
  }

  // ---- Weight: one position enters, moves or leaves ----

  /** The totals after position `i` changes, whatever it changes to. */
  lemma WeightTotals(ps: seq<Position>, i: nat, q: Position)
    requires i < |ps|
    ensures SumBy(WeightOfPosition(), ps[i := q]) + WeightOfPosition()(ps[i])
         == SumBy(WeightOfPosition(), ps) + WeightOfPosition()(q)
    ensures SumBy(CountOf(), ps[i := q]) + CountOf()(ps[i]) == SumBy(CountOf(), ps) + CountOf()(q)
  {
    SumUpdate(WeightOfPosition(), ps, i, q);
    SumUpdate(CountOf(), ps, i, q);
  }

  /** Position `i` takes an empty slot. */
  lemma WeightEnters(wReal: nat, nReal: nat, leaves: seq<nat>, ps: seq<Position>, i: nat, q: Position)
    requires WeightInv(wReal, nReal, leaves, ps) && i < |ps| && ps[i].state != Active
    requires q.state == Active && 0 < q.recordedValue <= WEIGHT_C
    requires q.slotIndex < |leaves| && leaves[q.slotIndex] == 0
    ensures var w := Weight(q.recordedValue);
            WeightInv(wReal + w, nReal + 1, leaves[q.slotIndex := w], ps[i := q])
  {
    hide WeightOf;
    var w, s := Weight(q.recordedValue), q.slotIndex;
    var after, qs := leaves[s := w], ps[i := q];
    RangeUpdate(leaves, s, w, 0, |leaves|);
    WeightTotals(ps, i, q);
    forall k | 0 <= k < |after| && after[k] > 0
      ensures exists j :: 0 <= j < |qs| && Holds(qs[j], k)
    {
      if k == s {
        assert Holds(qs[i], k);
      } else {
        var j :| 0 <= j < |ps| && Holds(ps[j], k);
        assert Holds(qs[j], k);
      }
    }
  }

  /** Position `i` keeps its slot at another weight. */
  lemma WeightMoves(wReal: nat, nReal: nat, leaves: seq<nat>, ps: seq<Position>, i: nat, q: Position)
    requires WeightInv(wReal, nReal, leaves, ps) && i < |ps| && ps[i].state == Active
    requires q.state == Active && 0 < q.recordedValue <= WEIGHT_C && q.slotIndex == ps[i].slotIndex
    ensures var w, was := Weight(q.recordedValue), Weight(ps[i].recordedValue);
            was <= wReal && WeightInv(wReal - was + w, nReal, leaves[q.slotIndex := w], ps[i := q])
  {
    hide WeightOf;
    var w, s := Weight(q.recordedValue), q.slotIndex;
    var after, qs := leaves[s := w], ps[i := q];
    RangeUpdate(leaves, s, w, 0, |leaves|);
    LeafWithinTotal(leaves, s);
    WeightTotals(ps, i, q);
    forall k | 0 <= k < |after| && after[k] > 0
      ensures exists j :: 0 <= j < |qs| && Holds(qs[j], k)
    {
      if k == s {
        assert Holds(qs[i], k);
      } else {
        var j :| 0 <= j < |ps| && Holds(ps[j], k);
        assert Holds(qs[j], k);
      }
    }
  }

  /** Position `i` gives its slot up. */
  lemma WeightLeaves(wReal: nat, nReal: nat, leaves: seq<nat>, ps: seq<Position>, i: nat, q: Position)
    requires WeightInv(wReal, nReal, leaves, ps) && i < |ps| && ps[i].state == Active && q.state != Active
    ensures var was := Weight(ps[i].recordedValue);
            && was <= wReal && 1 <= nReal
            && WeightInv(wReal - was, nReal - 1, leaves[ps[i].slotIndex := 0], ps[i := q])
  {
    hide WeightOf;
    var s := ps[i].slotIndex;
    var after, qs := leaves[s := 0], ps[i := q];
    RangeUpdate(leaves, s, 0, 0, |leaves|);
    LeafWithinTotal(leaves, s);
    WeightTotals(ps, i, q);
    SumHolds(CountOf(), ps, i);
    forall k | 0 <= k < |after| && after[k] > 0
      ensures exists j :: 0 <= j < |qs| && Holds(qs[j], k)
    {
      var j :| 0 <= j < |ps| && Holds(ps[j], k);
      assert Holds(qs[j], k);
    }
  }

  /** An inactive position changes into another inactive one, or is appended. */
  lemma WeightIdle(wReal: nat, nReal: nat, leaves: seq<nat>, ps: seq<Position>, i: nat, q: Position)
    requires WeightInv(wReal, nReal, leaves, ps) && i < |ps| && ps[i].state != Active && q.state != Active
    ensures WeightInv(wReal, nReal, leaves, ps[i := q])
  {
    hide WeightOf;
    WeightTotals(ps, i, q);
    var qs := ps[i := q];
    forall k | 0 <= k < |leaves| && leaves[k] > 0
      ensures exists j :: 0 <= j < |qs| && Holds(qs[j], k)
    {
      var j :| 0 <= j < |ps| && Holds(ps[j], k);
      assert Holds(qs[j], k);
    }
  }

  lemma WeightAppends(wReal: nat, nReal: nat, leaves: seq<nat>, ps: seq<Position>, q: Position)
    requires WeightInv(wReal, nReal, leaves, ps) && q.state != Active
    ensures WeightInv(wReal, nReal, leaves, ps + [q])
  {
    hide WeightOf;
    SumAppend(WeightOfPosition(), ps, q);
    SumAppend(CountOf(), ps, q);
    var qs := ps + [q];
    forall k | 0 <= k < |leaves| && leaves[k] > 0
      ensures exists j :: 0 <= j < |qs| && Holds(qs[j], k)
    {
      var j :| 0 <= j < |ps| && Holds(ps[j], k);
      assert Holds(qs[j], k);
    }
  }

  // ---- Wallets ----

  /** The owner's wallet follows position `i`; nobody else's moves. */
  lemma WalletFollows(wallets: map<nat, Wallet>, ps: seq<Position>, i: nat, q: Position, w: Wallet)
    requires WalletInv(wallets, ps) && i < |ps| && q.depositor == ps[i].depositor
    requires var o := ps[i].depositor; var was := WalletOf(wallets, o);
             && w.activePositions + CountOwned(o)(ps[i]) == was.activePositions + CountOwned(o)(q)
             && w.activeValue + ValueOwned(o)(ps[i]) == was.activeValue + ValueOwned(o)(q)
    ensures WalletInv(wallets[ps[i].depositor := w], ps[i := q])
  {
    forall owner: nat
      ensures WalletOf(wallets[ps[i].depositor := w], owner).activePositions == SumBy(CountOwned(owner), ps[i := q])
      ensures WalletOf(wallets[ps[i].depositor := w], owner).activeValue == SumBy(ValueOwned(owner), ps[i := q])
    {
      SumUpdate(CountOwned(owner), ps, i, q);
      SumUpdate(ValueOwned(owner), ps, i, q);
    }
  }

  /** A wallet always covers any one of its active positions. */
  lemma WalletCovers(wallets: map<nat, Wallet>, ps: seq<Position>, i: nat)
    requires WalletInv(wallets, ps) && i < |ps| && ps[i].state == Active
    ensures var w := WalletOf(wallets, ps[i].depositor);
            1 <= w.activePositions && ps[i].recordedValue <= w.activeValue
  {
    SumHolds(CountOwned(ps[i].depositor), ps, i);
    SumHolds(ValueOwned(ps[i].depositor), ps, i);
  }

  lemma WalletIdle(wallets: map<nat, Wallet>, ps: seq<Position>, i: nat, q: Position)
    requires WalletInv(wallets, ps) && i < |ps| && ps[i].state != Active && q.state != Active
    ensures WalletInv(wallets, ps[i := q])
  {
    forall owner: nat
      ensures SumBy(CountOwned(owner), ps[i := q]) == SumBy(CountOwned(owner), ps)
      ensures SumBy(ValueOwned(owner), ps[i := q]) == SumBy(ValueOwned(owner), ps)
    {
      SumUpdate(CountOwned(owner), ps, i, q);
      SumUpdate(ValueOwned(owner), ps, i, q);
    }
  }

  lemma WalletAppends(wallets: map<nat, Wallet>, ps: seq<Position>, q: Position)
    requires WalletInv(wallets, ps) && q.state != Active
    ensures WalletInv(wallets, ps + [q])
  {
    forall owner: nat
      ensures SumBy(CountOwned(owner), ps + [q]) == SumBy(CountOwned(owner), ps)
      ensures SumBy(ValueOwned(owner), ps + [q]) == SumBy(ValueOwned(owner), ps)
    {
      SumAppend(CountOwned(owner), ps, q);
      SumAppend(ValueOwned(owner), ps, q);
    }
  }

  // ---- Fees ----

  /** A position's claim may only fall by what the vault stops owing. */
  lemma FeeReplace(owed: nat, left: nat, accEqual: nat, accTier: nat, ps: seq<Position>, i: nat, q: Position)
    requires FeeInv(owed, accEqual, accTier, ps) && i < |ps|
    requires CheckpointsOk(accEqual, accTier, q)
    requires left <= owed
    requires Claim(accEqual, accTier, q) + (owed - left) * ACC_PRECISION <= Claim(accEqual, accTier, ps[i])
    ensures FeeInv(left, accEqual, accTier, ps[i := q])
  {
    SumUpdate(ClaimOf(accEqual, accTier), ps, i, q);
    hide Claim;
  }

  /** No single claim exceeds what the vault owes. */
  lemma ClaimIsOwed(owed: nat, accEqual: nat, accTier: nat, ps: seq<Position>, i: nat)
    requires FeeInv(owed, accEqual, accTier, ps) && i < |ps|
    ensures Claim(accEqual, accTier, ps[i]) <= owed * ACC_PRECISION
  {
    SumHolds(ClaimOf(accEqual, accTier), ps, i);
    hide Claim;
  }

  lemma FeeAppends(owed: nat, accEqual: nat, accTier: nat, ps: seq<Position>, q: Position)
    requires FeeInv(owed, accEqual, accTier, ps) && q.state != Active && !q.inTier && q.accrued == 0
    ensures FeeInv(owed, accEqual, accTier, ps + [q])
  {
    SumAppend(ClaimOf(accEqual, accTier), ps, q);
  }

  /** Leaving the tier settles the member's leg: the claim does not grow and loses less than one
      unit. */
  lemma LeavingKeepsClaim(owed: nat, accEqual: nat, accTier: u128, ps: seq<Position>, i: nat)
    requires FeeInv(owed, accEqual, accTier, ps) && i < |ps| && ps[i].inTier && owed <= U64_MAX
    ensures var left := LeaveTier(ps[i], accTier);
            && left.Ok? && SameCore(ps[i], left.value) && !left.value.inTier
            && Claim(accEqual, accTier, ps[i]) < Claim(accEqual, accTier, left.value) + ACC_PRECISION
            && FeeInv(owed, accEqual, accTier, ps[i := left.value])
  {
    ClaimIsOwed(owed, accEqual, accTier, ps, i);
    var left := LeaveTier(ps[i], accTier).value;
    FeeReplace(owed, owed, accEqual, accTier, ps, i, left);
  }

  lemma JoiningKeepsClaim(owed: nat, accEqual: nat, accTier: u128, ps: seq<Position>, i: nat)
    requires FeeInv(owed, accEqual, accTier, ps) && i < |ps| && !ps[i].inTier
    ensures FeeInv(owed, accEqual, accTier, ps[i := JoinTier(ps[i], accTier)])
  {
    FeeReplace(owed, owed, accEqual, accTier, ps, i, JoinTier(ps[i], accTier));
  }

  lemma ClaimGrowth(accEqual: nat, accTier: nat, equalUnit: nat, tierUnit: nat, p: Position)
    requires CheckpointsOk(accEqual, accTier, p)
    ensures Claim(accEqual + equalUnit, accTier + tierUnit, p)
         == Claim(accEqual, accTier, p) + equalUnit * CountOf()(p) + tierUnit * MemberOf()(p)
    ensures CheckpointsOk(accEqual + equalUnit, accTier + tierUnit, p)
  {
  }

  /** An accrual raises the claims by its two units, once per active position and once per member. */
  lemma {:induction false} AccrualGrowth(accEqual: nat, accTier: nat, equalUnit: nat, tierUnit: nat, ps: seq<Position>)
    requires forall i :: 0 <= i < |ps| ==> CheckpointsOk(accEqual, accTier, ps[i])
    ensures SumBy(ClaimOf(accEqual + equalUnit, accTier + tierUnit), ps)
         == SumBy(ClaimOf(accEqual, accTier), ps)
            + equalUnit * SumBy(CountOf(), ps) + tierUnit * SumBy(MemberOf(), ps)
    decreases |ps|
  {
    if ps != [] {
      var rest, p := ps[..|ps| - 1], ps[|ps| - 1];
      AccrualGrowth(accEqual, accTier, equalUnit, tierUnit, rest);
      ClaimGrowth(accEqual, accTier, equalUnit, tierUnit, p);
      Distribute(equalUnit, SumBy(CountOf(), rest), CountOf()(p));
      Distribute(tierUnit, SumBy(MemberOf(), rest), MemberOf()(p));
      hide Claim;
      hide CheckpointsOk;
    }
  }

  lemma Distribute(k: nat, a: nat, b: nat)
    ensures k * (a + b) == k * a + k * b
  {
  }

  // ---- The tier ----

  lemma MembersKeyed(tier: seq<TierEntry>, ps: seq<Position>)
    requires TierInv(tier, ps)
    ensures DistinctKeys(tier)
  {
    forall i, j | 0 <= i < j < |tier|
      ensures tier[i].position != tier[j].position
    {
      assert Member(ps, tier[i]) && Member(ps, tier[j]);
      SortedDistinct(tier, i, j);
    }
  }

  /** A non-member ties with nobody in the tier: ids are distinct. */
  lemma OutsiderUnranked(tier: seq<TierEntry>, ps: seq<Position>, i: nat)
    requires TierInv(tier, ps) && IdsOk(ps) && i < |ps| && !ps[i].inTier
    ensures forall q: Position :: q.positionId == i ==> Unranked(tier, EntryOf(q, i))
  {
    forall q: Position, k | q.positionId == i && 0 <= k < |tier|
      ensures Rank(EntryOf(q, i), tier[k]) != Equal
    {
      assert Member(ps, tier[k]);
    }
  }

  /** A non-member may change in any way that leaves it a non-member. */
  lemma TierOutsider(tier: seq<TierEntry>, ps: seq<Position>, i: nat, q: Position)
    requires TierInv(tier, ps) && i < |ps| && !ps[i].inTier && !q.inTier
    ensures TierInv(tier, ps[i := q])
  {
    SumUpdate(MemberOf(), ps, i, q);
    forall e | e in tier
      ensures Member(ps[i := q], e)
    {
      assert Member(ps, e);
    }
  }

  lemma TierAppends(tier: seq<TierEntry>, ps: seq<Position>, q: Position)
    requires TierInv(tier, ps) && !q.inTier
    ensures TierInv(tier, ps + [q])
  {
    SumAppend(MemberOf(), ps, q);
    forall e | e in tier
      ensures Member(ps + [q], e)
    {
      assert Member(ps, e);
    }
  }

  lemma TierJoins(tier: seq<TierEntry>, ps: seq<Position>, i: nat, q: Position)
    requires TierInv(tier, ps) && IdsOk(ps) && i < |ps| && !ps[i].inTier
    requires q.inTier && q.state == Active && q.positionId == i
    ensures TierInv(InsertRanked(tier, EntryOf(q, i)), ps[i := q])
  {
    var c := EntryOf(q, i);
    OutsiderUnranked(tier, ps, i);
    InsertKeepsSorted(tier, c);
    InsertMembers(tier, c);
    SumUpdate(MemberOf(), ps, i, q);
    hide InsertRanked;
    forall e | e in InsertRanked(tier, c)
      ensures Member(ps[i := q], e)
    {
      assert e == c || Member(ps, e);
    }
  }

  /** The member at index `k` of the tier leaves it, in whatever state. */
  lemma TierLeaves(tier: seq<TierEntry>, ps: seq<Position>, k: nat, q: Position)
    requires TierInv(tier, ps) && k < |tier| && !q.inTier
    ensures tier[k].position < |ps|
    ensures TierInv(Without(tier, k), ps[tier[k].position := q])
  {
    var gone := tier[k];
    assert Member(ps, gone);
    var i := gone.position;
    MembersKeyed(tier, ps);
    WithoutMembers(tier, k);
    WithoutKeepsOrder(tier, k);
    SumUpdate(MemberOf(), ps, i, q);
    var rest := Without(tier, k);
    hide Without;
    forall e | e in rest
      ensures Member(ps[i := q], e)
    {
      assert Member(ps, e);
    }
  }

  /** Demoting by key finds a flagged position's entry. */
  lemma DemoteFinds(tier: seq<TierEntry>, ps: seq<Position>, i: nat)
    requires TierInv(tier, ps) && i < |ps| && ps[i].inTier
    ensures var k := IndexOf(tier, i);
            && k < |tier| && tier[k] == EntryOf(ps[i], i)
            && Demote(tier, i) == (Without(tier, k), Some(tier[k]))
  {
    var e := EntryOf(ps[i], i);
    var k := IndexOf(tier, i);
    var j :| 0 <= j < |tier| && tier[j] == e;
    assert Member(ps, tier[k]);
  }
}
