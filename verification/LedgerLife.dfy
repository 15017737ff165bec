/** When a deposit can be approved, and the life of one position from deposit to withdrawal. */
module LedgerLife {
  import opened Machine
  import opened FeeMath
  import opened State
  import opened Accounting
  import opened TierSpec
  import opened TierResolver
  import opened Ledger
  import opened LedgerInvariant
  import opened LedgerSteps
  import opened LedgerTheorems
  import opened LedgerUndo
  import LedgerEffects
  import opened RebalanceTheorems
  import Index = IndexSpec

  /** Whoever a full tier would evict for this entry was handed over to be settled. */
  predicate DisplacedSupplied(l: Ledger, c: TierEntry, supplied: seq<nat>)
    requires 0 < l.pool.tierSize
  {
    |l.tier| < l.pool.tierSize || !Before(c, l.tier[|l.tier| - 1])
    || l.tier[|l.tier| - 1].position in supplied
  }

  /** A crossing fails only for a missing displaced member: its settlement always fits. */
  lemma CrossSucceedsIff(l: Ledger, i: nat, supplied: seq<nat>)
    requires FeesAndTier(l) && Eligible(l.positions, i)
    ensures Cross(l, i, supplied).Ok? <==> DisplacedSupplied(l, EntryOf(l.positions[i], i), supplied)
    ensures Cross(l, i, supplied).Err? ==> Cross(l, i, supplied).error == AccountNotEnoughKeys
  {
    hide LeaveTier;
    hide Claim;
    var ps := l.positions;
    var q := JoinTier(ps[i], l.accTier);
    var joined := ps[i := q];
    var c := EntryOf(ps[i], i);
    assert EntryOf(q, i) == c;
    JoiningKeepsClaim(l.pool.owedFees, l.pool.accEqual, l.accTier, ps, i);
    TierJoins(l.tier, ps, i, q);
    var all := InsertRanked(l.tier, c);
    match Promote(l.tier, l.pool.tierSize, c).1
    case Rejected =>
    case Inserted =>
    case Swapped(evicted) =>
      assert evicted == all[|l.tier|] == l.tier[|l.tier| - 1];
      assert evicted in all;
      assert Member(joined, evicted);
      LeavingKeepsClaim(l.pool.owedFees, l.pool.accEqual, l.accTier, joined, evicted.position);
      hide InsertRanked;
  }

  /** The index takes a new weight exactly when a slot is left and the aggregate fits. */
  lemma InsertFits(x: Index.Index, value: u64)
    requires Index.WellFormed(x) && WeightOf(value).Ok? && Leaves.Total(x.leaves) + Weight(value) <= U64_MAX
    ensures Index.Insert(x, value, Leaves.Total(x.leaves) + Weight(value)).Ok? <==>
            |Index.Occupied(x)| < |x.leaves|
  {
    Index.SlotPartition(x);
  }

  predicate WithinLimits(pool: Pool, value: u64, held: u64) {
    && 0 < value && pool.admissionFloor <= value
    && (pool.admissionCeiling == 0 || value <= pool.admissionCeiling)
    && (pool.walletValueCap == 0 || held + value <= pool.walletValueCap)
  }

  lemma LimitsIff(pool: Pool, value: u64, held: u64)
    ensures ValidateAdmission(pool, value, held).Ok? <==> WithinLimits(pool, value, held)
  {
  }

  /** The pool with one more position of value `value`, before its blanks are re-evaluated. */
  ghost function Enlarged(pool: Pool, value: u64): Pool
    requires pool.wReal + Weight(value) <= U128_MAX && pool.nReal + 1 <= U32_MAX
  {
    pool.(wReal := pool.wReal + Weight(value), nReal := pool.nReal + 1)
  }

  /** Everything an operator can check of a pending deposit before approving it, the tier apart. */
  ghost predicate Admissible(l: Ledger, i: nat, att: Attestation, now: i64)
    requires i < |l.positions| && |l.pool.blankFaces| == 3
  {
    var wallet := WalletOf(l.wallets, l.positions[i].depositor);
    && l.positions[i].state == Pending && l.positions[i].depositor != l.pool.treasury
    && l.pool.openBatches == 0
    && WithinLimits(l.pool, att.value, wallet.activeValue)
    && att.value <= WEIGHT_C && l.pool.wReal + Weight(att.value) <= U64_MAX
    && l.pool.nReal < |l.index.leaves| && l.pool.nReal + 1 <= U32_MAX
    && wallet.activePositions + 1 <= U32_MAX && wallet.activeValue + att.value <= U64_MAX
    && -I64_MAX - 1 <= now - att.observedAt <= I64_MAX
    && CanRebalance(Enlarged(l.pool, att.value))
  }

  /** The guards of an approval that come before anything is written, and the age it reports. */
  ghost predicate Guarded(l: Ledger, i: nat, att: Attestation, now: i64)
    requires i < |l.positions|
  {
    && l.positions[i].depositor != l.pool.treasury && l.pool.openBatches == 0
    && WithinLimits(l.pool, att.value, WalletOf(l.wallets, l.positions[i].depositor).activeValue)
    && CheckedSubI64(now, att.observedAt).Ok?
  }

  lemma AdmissibleIff(l: Ledger, i: nat, att: Attestation, now: i64)
    requires Inv(l) && i < |l.positions| && Shape(l)
    ensures Admissible(l, i, att, now) <==>
            && Activatable(l, i, att.value) && Guarded(l, i, att, now)
            && CanRebalance(Enlarged(l.pool, att.value))
  {
    OccupiedByActive(l);
    if WeightOf(att.value).Ok? && l.pool.wReal + Weight(att.value) <= U64_MAX {
      InsertFits(l.index, att.value);
    }
    hide WithinLimits;
    hide Index.Insert;
    hide CanRebalance;
    hide WeightOf;
  }

  /** Once activated, what is left of an approval is the crossing and the rebalance. */
  lemma ApproveAfterActivation(l: Ledger, i: nat, att: Attestation, now: i64, supplied: seq<nat>)
    requires Shape(l) && Activatable(l, i, att.value) && Guarded(l, i, att, now)
    ensures var activated := ActivatedLedger(l, i, att, now);
            && (Approve(l, i, att, now, supplied).Ok? <==>
                Cross(activated, i, supplied).Ok? && Rebalanced(activated.pool).Ok?)
            && (Cross(activated, i, supplied).Err? ==>
                Approve(l, i, att, now, supplied) == Err(Cross(activated, i, supplied).error))
  {
    LimitsIff(l.pool, att.value, WalletOf(l.wallets, l.positions[i].depositor).activeValue);
    hide WithinLimits;
    hide Cross;
    hide Rebalanced;
    hide ValidateAdmission;
    hide WeightOf;
    hide Index.Insert;
    hide Index.WellFormed;
    CrossPool(ActivatedLedger(l, i, att, now), i, supplied);
  }

  lemma ActivatedFacts(l: Ledger, i: nat, att: Attestation, now: i64)
    requires Inv(l) && Activatable(l, i, att.value)
    ensures i <= U64_MAX
    ensures var activated := ActivatedLedger(l, i, att, now);
            && activated.tier == l.tier && activated.pool == Enlarged(l.pool, att.value)
            && FeesAndTier(activated) && Eligible(activated.positions, i)
            && EntryOf(activated.positions[i], i) == TierEntry(i, att.value, now, i)
  {
    IdOf(l, i);
    ActivationKeeps(l, i, att, now);
    hide Index.Insert;
    hide WeightOf;
    hide Inv;
    InvParts(ActivatedLedger(l, i, att, now));
    hide FeesAndTier;
  }

  lemma ActivatedApproves(l: Ledger, i: nat, att: Attestation, now: i64, supplied: seq<nat>)
    requires Inv(l) && Activatable(l, i, att.value) && Guarded(l, i, att, now)
    ensures i <= U64_MAX
    ensures Approve(l, i, att, now, supplied).Ok? <==>
            && CanRebalance(Enlarged(l.pool, att.value))
            && DisplacedSupplied(l, TierEntry(i, att.value, now, i), supplied)
    ensures !DisplacedSupplied(l, TierEntry(i, att.value, now, i), supplied) ==>
              Approve(l, i, att, now, supplied) == Err(AccountNotEnoughKeys)
  {
    ShapeOf(l);
    ActivatedFacts(l, i, att, now);
    RebalancesIff(Enlarged(l.pool, att.value));
    hide Inv;
    hide Approve;
    hide Activatable;
    hide ActivatedLedger;
    hide Guarded;
    hide Cross;
    hide Before;
    hide Rebalanced;
    hide CanRebalance;
    CrossSucceedsIff(ActivatedLedger(l, i, att, now), i, supplied);
    ApproveAfterActivation(l, i, att, now, supplied);
  }

  /** Exactly when an approval succeeds after any run: the deposit is admissible, and whoever it
      evicts from the tier was supplied. */
  lemma ApproveSucceedsIff(l: Ledger, i: nat, att: Attestation, now: i64, supplied: seq<nat>)
    requires Inv(l) && i < |l.positions|
    ensures Approve(l, i, att, now, supplied).Ok? <==>
            Admissible(l, i, att, now) && DisplacedSupplied(l, TierEntry(i, att.value, now, i), supplied)
  {
    ShapeOf(l);
    IdOf(l, i);
    AdmissibleIff(l, i, att, now);
    hide Inv;
    hide Approve;
    hide Activatable;
    hide Guarded;
    hide Admissible;
    hide CanRebalance;
    hide DisplacedSupplied;
    if Approve(l, i, att, now, supplied).Ok? {
      ApproveGuards(l, i, att, now, supplied);
      ActivatedApproves(l, i, att, now, supplied);
    }
    if Admissible(l, i, att, now) {
      ActivatedApproves(l, i, att, now, supplied);
    }
  }

  /** An approval handed the account the resolver names for "activated now" succeeds exactly when the
      deposit is admissible and a full tier's minimum is not the tie the resolver gets wrong. */
  lemma ResolvedApproveSucceedsIff(l: Ledger, i: nat, att: Attestation, now: i64)
    requires Inv(l) && i < |l.positions|
    ensures i <= U64_MAX && Shape(l) && |l.tier| <= l.pool.tierSize
    ensures var supplied := SuppliedBy(ResolveDisplaced(l.tier, l.pool.tierSize, Activating(att.value)));
            Approve(l, i, att, now, supplied).Ok? <==>
            && Admissible(l, i, att, now)
            && (|l.tier| == l.pool.tierSize ==>
                  !LosesTie(l.tier[|l.tier| - 1], TierEntry(i, att.value, now, i)))
  {
    ShapeOf(l);
    IdOf(l, i);
    var supplied := SuppliedBy(ResolveDisplaced(l.tier, l.pool.tierSize, Activating(att.value)));
    ApproveSucceedsIff(l, i, att, now, supplied);
    TierFits(l);
    hide Inv;
    hide Approve;
    hide Admissible;
    hide Shape;
  }

  lemma TierFits(l: Ledger)
    requires Inv(l)
    ensures |l.tier| <= l.pool.tierSize
  {
  }

  lemma IdOf(l: Ledger, i: nat)
    requires Inv(l) && i < |l.positions|
    ensures l.positions[i].positionId == i <= U64_MAX
  {
  }

  lemma ApproveGuards(l: Ledger, i: nat, att: Attestation, now: i64, supplied: seq<nat>)
    requires Shape(l) && i < |l.positions| && Approve(l, i, att, now, supplied).Ok?
    ensures Activatable(l, i, att.value) && Guarded(l, i, att, now)
  {
    ApproveIsCross(l, i, att, now, supplied);
    LimitsIff(l.pool, att.value, WalletOf(l.wallets, l.positions[i].depositor).activeValue);
    hide WithinLimits;
    hide ValidateAdmission;
    hide Cross;
    hide Rebalanced;
    hide WeightOf;
    hide Index.Insert;
    hide Index.WellFormed;
  }

  /** The launch configuration can target every market its `16_384` slots can hold. */
  lemma LaunchConfigIsSteady()
    ensures Steady(LAUNCH, 16_384)
  {
    DivUnique(WEIGHT_C, 1_000_000, 1_000_000_000_000);
    DivUnique(WEIGHT_C, 2_000_000, 500_000_000_000);
    DivUnique(WEIGHT_C, 5_000_000, 200_000_000_000);
  }

  /** The launch defaults, in a pool where nothing has happened yet. */
  const LAUNCH := Pool(
    treasury := 0,
    price := 9_900_000, ticketTarget := 9_000_000, fee := 900_000,
    blankFaces := [1_000_000, 2_000_000, 5_000_000],
    admissionFloor := 12_000_000, admissionCeiling := 0, walletValueCap := 0,
    allocEqualBps := 7_500, allocTierBps := 500, allocProtocolBps := 2_000,
    maxN := 10, buybackRateBps := 8_500, t04Ceiling := 2_000_000_000, sweepCadenceHours := 24, tierSize := 20,
    depositsPaused := false, rollsPaused := false,
    nReal := 0, blanks := [0, 0, 0], wReal := 0,
    openBatches := 0, batchCounter := 0, pendingRollLiability := 0,
    sweepPending := false, sweepEpoch := 0, sweepUpdates := 0, owedFees := 0, accEqual := 0)

  /** Steadiness is about the faces and the target only. */
  lemma SteadySame(pool: Pool, other: Pool, capacity: u32)
    requires Steady(pool, capacity) && ValidConfig(other)
    requires other.blankFaces == pool.blankFaces && other.ticketTarget == pool.ticketTarget
    ensures Steady(other, capacity)
  {
    hide AlwaysTargetable;
  }

  /** What an operator may attest of a depositor's first position in a pool. */
  predicate Acceptable(pool: Pool, depositor: nat, att: Attestation, now: i64) {
    && depositor != pool.treasury && WithinLimits(pool, att.value, 0) && att.value <= WEIGHT_C
    && -I64_MAX - 1 <= now - att.observedAt <= I64_MAX
  }

  /** In any new pool that can target every market it can hold, any acceptable deposit can be approved
      into the first slot and, once its lock is over, withdrawn, and the pool is as empty as before. */
  lemma LifeOfAPosition(pool: Pool, capacity: u32, depositor: nat, att: Attestation, now: i64, later: i64)
    returns (pending: Ledger, live: Ledger, gone: Ledger)
    requires Steady(pool, capacity) && 0 < capacity && Acceptable(pool, depositor, att, now)
    requires att.lockUntil <= later
    ensures Deposit(Genesis(pool, capacity), depositor) == Ok(pending) && Inv(pending) && Shape(pending)
    ensures Approve(pending, 0, att, now, []) == Ok(live) && Inv(live) && Shape(live)
    ensures |live.positions| == 1 && live.positions[0].state == Active && live.positions[0].slotIndex == 0
    ensures live.pool.wReal == Weight(att.value)
    ensures Withdraw(live, 0, later, []) == Ok(gone) && gone.pool.wReal == 0 && gone.pool.nReal == 0
  {
    FreshDeposit(pool, capacity, depositor);
    pending := Deposit(Genesis(pool, capacity), depositor).value;
    assert |pending.index.leaves| == capacity;
    FreshAdmissible(pool, pending, depositor, att, now);
    hide Approve;
    hide Withdraw;
    hide Deposit;
    hide Genesis;
    hide WeightOf;
    hide Admissible;
    hide AlwaysTargetable;
    ShapeOf(pending);
    FreshApproval(pending, att, now);
    live := Approve(pending, 0, att, now, []).value;
    SteadySame(pool, live.pool, capacity);
    hide Inv;
    hide Steady;
    ShapeOf(live);
    FreshWithdrawal(live, att.value, later);
    gone := Withdraw(live, 0, later, []).value;
  }

  lemma FreshAdmissible(pool: Pool, pending: Ledger, depositor: nat, att: Attestation, now: i64)
    requires 0 < |pending.index.leaves| <= U32_MAX && Steady(pool, |pending.index.leaves|)
    requires Acceptable(pool, depositor, att, now) && pending.pool == Genesis(pool, 0).pool
    requires pending.positions == [NewPosition(depositor, 0)] && pending.wallets == map[]
    ensures Admissible(pending, 0, att, now)
  {
    var priced := Enlarged(pending.pool, att.value);
    hide AlwaysTargetable;
    hide CanRebalance;
    SteadySame(pool, priced, |pending.index.leaves|);
    SteadyRebalances(priced, |pending.index.leaves|);
    hide WeightOf;
  }

  lemma FreshDeposit(pool: Pool, capacity: u32, depositor: nat)
    requires ValidConfig(pool)
    ensures var pending := Deposit(Genesis(pool, capacity), depositor);
            && pending.Ok? && Inv(pending.value)
            && |pending.value.positions| == 1 && pending.value.positions[0] == NewPosition(depositor, 0)
            && pending.value.wallets == map[] && pending.value.tier == []
            && pending.value.index == Index.Empty(capacity)
            && pending.value.pool == Genesis(pool, capacity).pool
  {
    GenesisInv(pool, capacity);
    DepositKeeps(Genesis(pool, capacity), depositor);
    hide Inv;
  }

  /** The first approval of a pool that holds one pending deposit and nothing else. */
  lemma FreshApproval(l: Ledger, att: Attestation, now: i64)
    requires Inv(l) && |l.positions| == 1 && l.tier == []
    requires l.index == Index.Empty(|l.index.leaves|) && Admissible(l, 0, att, now)
    ensures Approve(l, 0, att, now, []).Ok?
    ensures var a := Approve(l, 0, att, now, []).value;
            && Inv(a)
            && |a.positions| == 1 && a.positions[0].state == Active && a.positions[0].slotIndex == 0
            && a.positions[0].recordedValue == att.value && a.positions[0].lockUntil == att.lockUntil
            && a.pool == Enlarged(l.pool, att.value).(blanks := a.pool.blanks)
            && |a.index.leaves| == |l.index.leaves|
  {
    ApproveSucceedsIff(l, 0, att, now, []);
    ApprovalEffect(l, 0, att, now, []);
    ApproveKeeps(l, 0, att, now, []);
    hide Inv;
    hide Approve;
    hide Admissible;
    hide WeightOf;
  }

  lemma FreshWithdrawal(l: Ledger, value: u64, later: i64)
    requires Inv(l) && |l.positions| == 1 && l.positions[0].state == Active
    requires |l.index.leaves| <= U32_MAX && Steady(l.pool, |l.index.leaves|)
    requires l.positions[0].recordedValue == value && l.positions[0].lockUntil <= later
    requires l.pool.openBatches == 0 && l.pool.nReal == 1 && l.pool.wReal == Weight(value)
    ensures Withdraw(l, 0, later, []).Ok?
    ensures Withdraw(l, 0, later, []).value.pool.wReal == 0 && Withdraw(l, 0, later, []).value.pool.nReal == 0
  {
    WithdrawAlwaysAvailable(l, 0, later);
    LedgerEffects.WithdrawalLeaves(l, 0, later, []);
    hide Withdraw;
    hide WeightOf;
  }
}
