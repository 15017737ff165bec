/** Which error every instruction returns: after any run the first guard that fails decides, and no
    bookkeeping error is ever among them. */
module LedgerRefusals {
  import opened Machine
  import opened FeeMath
  import opened State
  import opened Accounting
  import opened TierSpec
  import opened Ledger
  import opened LedgerInvariant
  import opened LedgerSteps
  import opened LedgerCloses
  import opened LedgerTheorems
  import opened LedgerLife
  import opened LedgerRecord
  import Index = IndexSpec
  import Rebalance
  import TierTheorems
  import LedgerBest

  /** A market that cannot be targeted is an arithmetic failure, never a zero face. */
  lemma RebalanceRefuses(pool: Pool)
    requires |pool.blankFaces| == 3 && (forall d :: 0 <= d < 3 ==> 0 < pool.blankFaces[d])
    ensures Rebalanced(pool).Err? <==> !CanRebalance(pool)
    ensures Rebalanced(pool).Err? ==> Rebalanced(pool).error == ArithmeticFailure
  {
    RebalancesIff(pool);
    hide CanRebalance;
    hide WeightOf;
    hide Rebalance.Solve;
    SolveRefuses();
  }

  lemma SolveRefuses()
    ensures forall m :: Rebalance.Solve(m).Err? ==> Rebalance.Solve(m).error == ArithmeticFailure
  {
    hide Rebalance.Computable;
    hide Rebalance.BestOf;
  }

  // ---- Exits ----

  ghost function ExitRefusal(l: Ledger, i: nat, now: i64, supplied: seq<nat>, payable: bool): Option<Error>
    requires i < |l.positions| && |l.pool.blankFaces| == 3
  {
    var p := l.positions[i];
    if 0 < l.pool.openBatches then Some(RollBatchInFlight)
    else if p.state != Active then Some(InvalidPositionState)
    else if now < p.lockUntil then Some(PositionLocked)
    else if !CanRebalance(Remaining(l.pool, p.recordedValue)) then Some(ArithmeticFailure)
    else if p.inTier && supplied != [] && !Eligible(l.positions, supplied[0]) then Some(InvalidPositionState)
    else if !payable && !NothingDue(l, i) then Some(AccountNotEnoughKeys)
    else None
  }

  lemma ExitRefuses(l: Ledger, i: nat, now: i64, supplied: seq<nat>, payable: bool)
    requires Inv(l) && i < |l.positions|
    ensures Shape(l)
    ensures match ExitRefusal(l, i, now, supplied, payable)
            case None => WithdrawTo(l, i, now, supplied, payable).Ok?
            case Some(e) => WithdrawTo(l, i, now, supplied, payable) == Err(e)
  {
    ShapeOf(l);
    ExitSucceedsIff(l, i, now, supplied, payable);
    WithdrawSucceedsIff(l, i, now, supplied);
    if Withdraw(l, i, now, supplied).Err? {
      WithdrawRefuses(l, i, now, supplied);
    }
    hide Inv;
    hide Shape;
    hide Withdraw;
    hide CanRebalance;
    hide Remaining;
    hide NothingDue;
    hide ExitPayout;
  }

  lemma DepartRefuses(l: Ledger, i: nat, owed: u64)
    requires Inv(l) && i < |l.positions| && l.positions[i].state == Active
    ensures var p := l.positions[i];
            && |l.pool.blankFaces| == 3
            && var r := Depart(l.pool.(owedFees := owed), WalletOf(l.wallets, p.depositor), p.recordedValue);
               r.Err? ==> r.error == ArithmeticFailure
  {
    DepartCovered(l, i);
    hide WeightOf;
    hide Index.WellFormed;
    hide WeightInv;
    hide WalletInv;
    hide FeeInv;
    hide TierInv;
    RebalanceRefuses(Remaining(l.pool, l.positions[i].recordedValue).(owedFees := owed));
    hide Rebalanced;
    hide CanRebalance;
  }

  /** The order of an exit's checks, whatever its parts come to. */
  lemma ExitErrors(pool: Pool, p: Position, wallet: Wallet, accTier: u128, now: i64)
    requires |pool.blankFaces| == 3
    requires pool.openBatches == 0 && p.state == Active && p.lockUntil <= now ==>
               var paid := ExitPayout(pool, p, accTier);
               && paid.Ok? && paid.value <= pool.owedFees
               && var r := Depart(pool.(owedFees := pool.owedFees - paid.value), wallet, p.recordedValue);
                  r.Err? ==> r.error == ArithmeticFailure
    ensures var r := ApplyWithdraw(pool, p, wallet, accTier, now);
            r.Err? ==> r.error == if 0 < pool.openBatches then RollBatchInFlight
                                  else if p.state != Active then InvalidPositionState
                                  else if now < p.lockUntil then PositionLocked
                                  else ArithmeticFailure
  {
    hide ExitPayout;
    hide Depart;
  }

  lemma ApplyWithdrawRefuses(l: Ledger, i: nat, now: i64)
    requires Inv(l) && Shape(l) && i < |l.positions|
    ensures var p := l.positions[i];
            var r := ApplyWithdraw(l.pool, p, WalletOf(l.wallets, p.depositor), l.accTier, now);
            r.Err? ==> r.error == if 0 < l.pool.openBatches then RollBatchInFlight
                                  else if p.state != Active then InvalidPositionState
                                  else if now < p.lockUntil then PositionLocked
                                  else ArithmeticFailure
  {
    hide Inv;
    hide Index.WellFormed;
    hide ApplyWithdraw;
    hide Depart;
    hide ExitPayout;
    var p := l.positions[i];
    if p.state == Active {
      ExitIsCovered(l, i);
      DepartRefuses(l, i, l.pool.owedFees - ExitPayout(l.pool, p, l.accTier).value);
    }
    ExitErrors(l.pool, p, WalletOf(l.wallets, p.depositor), l.accTier, now);
  }

  lemma ExitIsCovered(l: Ledger, i: nat)
    requires Inv(l) && i < |l.positions| && l.positions[i].state == Active
    ensures var paid := ExitPayout(l.pool, l.positions[i], l.accTier);
            paid.Ok? && paid.value <= l.pool.owedFees
  {
    ClaimIsOwed(l.pool.owedFees, l.pool.accEqual, l.accTier, l.positions, i);
    assert CheckpointsOk(l.pool.accEqual, l.accTier, l.positions[i]);
    hide Inv;
    hide Claim;
    hide CheckpointsOk;
    ExitPays(l.pool, l.positions[i], l.accTier);
    hide ExitPayout;
  }

  lemma WithdrawRefuses(l: Ledger, i: nat, now: i64, supplied: seq<nat>)
    requires Inv(l) && i < |l.positions| && Shape(l) && Withdraw(l, i, now, supplied).Err?
    ensures var p := l.positions[i];
            Withdraw(l, i, now, supplied).error ==
              if 0 < l.pool.openBatches then RollBatchInFlight
              else if p.state != Active then InvalidPositionState
              else if now < p.lockUntil then PositionLocked
              else if !CanRebalance(Remaining(l.pool, p.recordedValue)) then ArithmeticFailure
              else InvalidPositionState
  {
    var p := l.positions[i];
    ApplyWithdrawRefuses(l, i, now);
    ApplyWithdrawSucceedsIff(l, i, now);
    var r := ApplyWithdraw(l.pool, p, WalletOf(l.wallets, p.depositor), l.accTier, now);
    hide CanRebalance;
    hide Remaining;
    if r.Ok? {
      WithdrawalEffect(l.pool, p, WalletOf(l.wallets, p.depositor), l.accTier, now);
      RemoveNeverDesyncs(l, i);
    }
    hide ApplyWithdraw;
    hide Inv;
    hide Index.Remove;
    hide VacateAndFill;
  }

  // ---- Approvals ----

  /** The guards of an approval up to the point where everything it writes before the tier fits. */
  ghost function AdmissionRefusal(l: Ledger, i: nat, att: Attestation): Option<Error>
    requires i < |l.positions|
  {
    var p, pool := l.positions[i], l.pool;
    var wallet := WalletOf(l.wallets, p.depositor);
    if p.state != Pending then Some(PositionNotPending)
    else if p.depositor == pool.treasury then Some(TreasuryPositionNotEligible)
    else if 0 < pool.openBatches then Some(RollBatchInFlight)
    else if att.value == 0 then Some(ZeroValue)
    else if att.value < pool.admissionFloor then Some(BelowAdmissionFloor)
    else if 0 < pool.admissionCeiling < att.value then Some(AboveAdmissionCeiling)
    else if 0 < pool.walletValueCap && wallet.activeValue + att.value > U64_MAX then Some(ArithmeticFailure)
    else if 0 < pool.walletValueCap < wallet.activeValue + att.value then Some(WalletValueCapExceeded)
    else if att.value > WEIGHT_C || pool.nReal + 1 > U32_MAX then Some(ArithmeticFailure)
    else if pool.wReal + Weight(att.value) > U64_MAX then Some(WeightDesync)
    else if pool.nReal == |l.index.leaves| then Some(WeightIndexFull)
    else if wallet.activePositions + 1 > U32_MAX || wallet.activeValue + att.value > U64_MAX then
      Some(ArithmeticFailure)
    else None
  }

  ghost function ApprovalRefusal(l: Ledger, i: nat, att: Attestation, now: i64, supplied: seq<nat>): Option<Error>
    requires i < |l.positions| && Inv(l)
  {
    ShapeOf(l);
    IdOf(l, i);
    var refused := AdmissionRefusal(l, i, att);
    if refused.Some? then refused
    else if !DisplacedSupplied(l, TierEntry(i, att.value, now, i), supplied) then Some(AccountNotEnoughKeys)
    else if l.pool.wReal + Weight(att.value) > U128_MAX || !CanRebalance(Enlarged(l.pool, att.value)) then
      Some(ArithmeticFailure)
    else if !(-I64_MAX - 1 <= now - att.observedAt <= I64_MAX) then Some(ArithmeticFailure)
    else None
  }

  /** What the index says of a new weight. */
  ghost predicate SlotRefusal(l: Ledger, value: u64)
    requires Shape(l)
  {
    WeightOf(value).Ok? && l.pool.wReal + Weight(value) <= U64_MAX ==>
      var r := Index.Insert(l.index, value, l.pool.wReal + Weight(value));
      && (r.Ok? <==> l.pool.nReal < |l.index.leaves|) && l.pool.nReal <= |l.index.leaves|
      && (r.Err? ==> r.error == WeightIndexFull)
  }

  lemma AdmissionErrors(l: Ledger, i: nat, att: Attestation, now: i64, supplied: seq<nat>)
    requires Shape(l) && i < |l.positions| && l.pool.wReal <= U64_MAX && SlotRefusal(l, att.value)
    ensures match AdmissionRefusal(l, i, att)
            case None => Activatable(l, i, att.value)
            case Some(e) => Approve(l, i, att, now, supplied) == Err(e)
  {
    hide Index.WellFormed;
    hide Index.Insert;
    hide Cross;
    hide Rebalanced;
    hide Activated;
    hide WeightOf;
  }

  lemma AdmissionRefuses(l: Ledger, i: nat, att: Attestation, now: i64, supplied: seq<nat>)
    requires Inv(l) && Shape(l) && i < |l.positions|
    ensures match AdmissionRefusal(l, i, att)
            case None => Activatable(l, i, att.value)
            case Some(e) => Approve(l, i, att, now, supplied) == Err(e)
  {
    NoSlotRefuses(l, att.value);
    assert l.pool.wReal <= U64_MAX;
    hide Inv;
    hide Shape;
    hide SlotRefusal;
    hide AdmissionRefusal;
    hide Activatable;
    hide Approve;
    AdmissionErrors(l, i, att, now, supplied);
  }

  /** Past the admission an approval is the crossing, then the rebalance, then the age. */
  lemma ActivatedErrors(l: Ledger, i: nat, att: Attestation, now: i64, supplied: seq<nat>)
    requires Shape(l) && i < |l.positions| && AdmissionRefusal(l, i, att) == None && Activatable(l, i, att.value)
    ensures var crossed := Cross(ActivatedLedger(l, i, att, now), i, supplied);
            && (crossed.Err? ==> Approve(l, i, att, now, supplied) == Err(crossed.error))
            && (crossed.Ok? && Approve(l, i, att, now, supplied).Err? ==>
                  var balanced := Rebalanced(ActivatedLedger(l, i, att, now).pool);
                  Approve(l, i, att, now, supplied).error ==
                    if balanced.Err? then balanced.error else ArithmeticFailure)
  {
    hide Cross;
    hide Rebalanced;
    hide WeightOf;
    hide Index.Insert;
    hide Index.WellFormed;
    CrossPool(ActivatedLedger(l, i, att, now), i, supplied);
  }

  lemma ActivatedRefuses(l: Ledger, i: nat, att: Attestation, now: i64, supplied: seq<nat>)
    requires Inv(l) && Shape(l) && i < |l.positions| && i <= U64_MAX
    requires AdmissionRefusal(l, i, att) == None && Activatable(l, i, att.value)
    ensures Approve(l, i, att, now, supplied).Err? ==>
              Approve(l, i, att, now, supplied).error ==
                if !DisplacedSupplied(l, TierEntry(i, att.value, now, i), supplied) then AccountNotEnoughKeys
                else ArithmeticFailure
  {
    ActivatedFacts(l, i, att, now);
    var mid := ActivatedLedger(l, i, att, now);
    assert ValidConfig(l.pool);
    hide Inv;
    hide Shape;
    hide Approve;
    hide Activatable;
    hide ActivatedLedger;
    hide AdmissionRefusal;
    hide Cross;
    hide Rebalanced;
    hide CanRebalance;
    hide Before;
    hide FeesAndTier;
    CrossSucceedsIff(mid, i, supplied);
    RebalanceRefuses(mid.pool);
    ActivatedErrors(l, i, att, now, supplied);
  }

  lemma ApprovalRefuses(l: Ledger, i: nat, att: Attestation, now: i64, supplied: seq<nat>)
    requires Inv(l) && i < |l.positions|
    ensures Shape(l)
    ensures match ApprovalRefusal(l, i, att, now, supplied)
            case None => Approve(l, i, att, now, supplied).Ok?
            case Some(e) => Approve(l, i, att, now, supplied) == Err(e)
  {
    ShapeOf(l);
    IdOf(l, i);
    ApproveSucceedsIff(l, i, att, now, supplied);
    AdmissionRefuses(l, i, att, now, supplied);
    NoSlotRefuses(l, att.value);
    if AdmissionRefusal(l, i, att) == None {
      ActivatedRefuses(l, i, att, now, supplied);
    }
    hide Inv;
    hide Shape;
    hide Approve;
    hide Index.Insert;
    hide CanRebalance;
    hide Before;
  }

  lemma NoSlotRefuses(l: Ledger, value: u64)
    requires Inv(l) && Shape(l)
    ensures SlotRefusal(l, value)
  {
    OccupiedByActive(l);
    ActiveFit(l);
    if WeightOf(value).Ok? && l.pool.wReal + Weight(value) <= U64_MAX {
      InsertFits(l.index, value);
    }
    hide WeightOf;
    hide FeeInv;
    hide TierInv;
    hide WalletInv;
  }

  // ---- Seizures, promotions, configuration, batches ----

  lemma SeizureRefuses(l: Ledger, i: nat, arrangeable: bool, now: i64)
    requires Inv(l) && i < |l.positions| && l.positions[i].state == Active
    ensures Shape(l)
    ensures CloseSeized(l, i, arrangeable, now).Err? ==>
              CloseSeized(l, i, arrangeable, now).error ==
                if arrangeable && now < l.positions[i].lockUntil then PositionLocked
                else if 0 < l.pool.openBatches then RollBatchInFlight
                else ArithmeticFailure
  {
    ShapeOf(l);
    SeizeSucceedsIff(l, i, arrangeable, now);
    DepartRefuses(l, i, l.pool.owedFees);
    DepartSucceedsIff(l, i, l.pool.owedFees);
    assert l.pool.(owedFees := l.pool.owedFees) == l.pool;
    RecordCovered(l, i);
    hide Inv;
    hide Index.WellFormed;
    hide Depart;
    hide PositionFeePayout;
    hide CanRebalance;
    hide Remaining;
    hide Index.Remove;
    hide Vacate;
  }

  ghost function PromotionRefusal(l: Ledger, i: nat, supplied: seq<nat>): Option<Error>
    requires Inv(l) && i < |l.positions|
  {
    ShapeOf(l);
    var c := EntryOf(l.positions[i], i);
    if !Eligible(l.positions, i) then Some(InvalidPositionState)
    else if !DisplacedSupplied(l, c, supplied) then Some(AccountNotEnoughKeys)
    else if |l.tier| == l.pool.tierSize && !Before(c, l.tier[|l.tier| - 1]) then Some(CandidateOutranked)
    else None
  }

  lemma PromotionRefuses(l: Ledger, i: nat, supplied: seq<nat>)
    requires Inv(l) && i < |l.positions|
    ensures Shape(l)
    ensures match PromotionRefusal(l, i, supplied)
            case None => UpdateTier(l, i, supplied).Ok?
            case Some(e) => UpdateTier(l, i, supplied) == Err(e)
  {
    ShapeOf(l);
    InvParts(l);
    assert |l.tier| <= l.pool.tierSize;
    if Eligible(l.positions, i) {
      UpdateTierSucceedsIff(l, i, supplied);
      CrossSucceedsIff(l, i, supplied);
      if Cross(l, i, supplied).Ok? {
        CrossRejects(l, i, supplied);
      }
    }
    hide Inv;
    hide Index.WellFormed;
    hide FeesAndTier;
    hide Cross;
    hide Before;
  }

  /** A configuration outside the guard is refused for the first of its clauses that fails, in numbers;
      an accepted one that moves the target while a batch is open for the batch; a smaller tier for a
      member that was not supplied. */
  lemma ConfigRefuses(l: Ledger, update: ConfigUpdate, supplied: seq<nat>)
    requires Inv(l) && UpdateConfig(l, update, supplied).Err? && |Configured(l.pool, update).blankFaces| == 3
    ensures var next := Configured(l.pool, update);
            var faces, target := next.blankFaces, next.ticketTarget;
            UpdateConfig(l, update, supplied).error ==
              if next.admissionFloor <= target then AdmissionFloorNotAboveTicket
              else if faces[0] == 0 then BlankFaceZero
              else if faces[0] >= target then BlankFaceNotBelowTicket
              else if faces[1] == 0 then BlankFaceZero
              else if faces[1] >= target then BlankFaceNotBelowTicket
              else if faces[2] == 0 then BlankFaceZero
              else if faces[2] >= target then BlankFaceNotBelowTicket
              else if next.allocEqualBps + next.allocTierBps + next.allocProtocolBps != 10_000 then
                AllocationBpsNotFullyAllocated
              else if next.price != target + next.fee then FeeNotPriceMinusTicket
              else if next.maxN == 0 || 10 < next.maxN then MaxNOutOfBounds
              else if next.tierSize == 0 || 20 < next.tierSize then TierSizeOutOfBounds
              else if && 0 < l.pool.openBatches
                      && (update.BlankFaces? || (update.Pricing? && target != l.pool.ticketTarget))
              then RollBatchInFlight
              else AccountNotEnoughKeys
  {
    GuardIs(Configured(l.pool, update));
    FirstFaceError(Configured(l.pool, update).blankFaces, Configured(l.pool, update).ticketTarget);
    if update.TierSize? {
      var (kept, evicted) := Shrink(l.tier, update.size);
      assert kept + evicted == l.tier;
      EvictionRefuses(l.pool.owedFees, l.pool.accEqual, l.accTier, kept, evicted, l.positions, supplied);
    }
    hide SettleEvicted;
    hide FaceError;
    hide Inv;
    hide ValidConfig;
  }

  lemma FirstFaceError(faces: seq<u64>, target: u64)
    requires |faces| == 3
    ensures FaceError(faces, target, 0) ==
              if faces[0] == 0 then Some(BlankFaceZero)
              else if faces[0] >= target then Some(BlankFaceNotBelowTicket)
              else if faces[1] == 0 then Some(BlankFaceZero)
              else if faces[1] >= target then Some(BlankFaceNotBelowTicket)
              else if faces[2] == 0 then Some(BlankFaceZero)
              else if faces[2] >= target then Some(BlankFaceNotBelowTicket)
              else None
  {
    assert FaceError(faces, target, 3) == None;
    assert FaceError(faces, target, 2) ==
             if faces[2] == 0 then Some(BlankFaceZero)
             else if faces[2] >= target then Some(BlankFaceNotBelowTicket) else None;
  }

  /** Settling an evicted member never fails on its fees. */
  lemma {:induction false} EvictionRefuses(owed: u64, accEqual: u128, accTier: u128, kept: seq<TierEntry>,
                                           evicted: seq<TierEntry>, ps: seq<Position>, supplied: seq<nat>)
    requires TierInv(kept + evicted, ps) && FeeInv(owed, accEqual, accTier, ps)
    ensures SettleEvicted(ps, evicted, supplied, accTier).Err? ==>
              SettleEvicted(ps, evicted, supplied, accTier).error == AccountNotEnoughKeys
    decreases |evicted|
  {
    hide Claim;
    if evicted != [] {
      var tier := kept + evicted;
      var e := evicted[0].position;
      assert tier[|kept|] == evicted[0] && tier[|kept|] in tier;
      assert Member(ps, evicted[0]);
      LeavingKeepsClaim(owed, accEqual, accTier, ps, e);
      var left := LeaveTier(ps[e], accTier).value;
      TierLeaves(tier, ps, |kept|, left);
      assert TierTheorems.Without(tier, |kept|) == kept + evicted[1..];
      hide LeaveTier;
      hide TierInv;
      hide FeeInv;
      EvictionRefuses(owed, accEqual, accTier, kept, evicted[1..], ps[e := left], supplied);
    }
  }

  ghost function CommitRefusal(l: Ledger, n: u8): Option<Error> {
    var pool := l.pool;
    if pool.rollsPaused then Some(RollsPaused)
    else if pool.sweepPending then Some(SweepPending)
    else if 0 < pool.openBatches then Some(RollBatchInFlight)
    else if n == 0 || pool.maxN < n then Some(RollCountOutOfBounds)
    else if pool.nReal == 0 then Some(RealPoolEmpty)
    else if |l.tier| < pool.tierSize && |l.tier| < pool.nReal then Some(TierNotFull)
    else if n * pool.price > U64_MAX then Some(RollCountOutOfBounds)
    else if pool.pendingRollLiability + n * pool.price > U64_MAX then Some(PrincipalShortfall)
    else if pool.batchCounter == U64_MAX then Some(RollCountOutOfBounds)
    else None
  }

  lemma CommitRefuses(l: Ledger, n: u8)
    requires Inv(l)
    ensures match CommitRefusal(l, n)
            case None => CommitRolls(l, n).Ok?
            case Some(e) => CommitRolls(l, n) == Err(e)
  {
    MembersCounted(l);
    assert ValidConfig(l.pool);
    hide Inv;
  }

  lemma MembersCounted(l: Ledger)
    requires Inv(l)
    ensures |l.tier| <= l.pool.tierSize && |l.tier| <= l.pool.nReal
  {
    LedgerBest.TierGateIff(l);
    hide Inv;
  }

  // ---- Re-attestations ----

  ghost function RecordRefusal(l: Ledger, i: nat, value: u64, now: i64, supplied: seq<nat>): Option<Error>
    requires i < |l.positions| && Inv(l)
  {
    ShapeOf(l);
    var p := l.positions[i];
    if !l.pool.sweepPending then Some(SweepNotOpen)
    else if 0 < l.pool.openBatches then Some(RollBatchInFlight)
    else if p.state != Active then Some(InvalidPositionState)
    else if value == 0 then Some(ZeroValue)
    else if l.pool.sweepUpdates == U32_MAX then Some(ArithmeticFailure)
    else if Closes(l.pool, p, value, now) then
      if !CanRebalance(Remaining(l.pool, p.recordedValue)) then Some(ArithmeticFailure)
      else if p.inTier && supplied != [] && !Eligible(l.positions, supplied[0]) then Some(InvalidPositionState)
      else None
    else if value > WEIGHT_C
            || WalletOf(l.wallets, p.depositor).activeValue - p.recordedValue + value > U64_MAX then
      Some(ArithmeticFailure)
    else if !CanRebalance(Reweighed(l.pool, p.recordedValue, value)) then Some(ArithmeticFailure)
    else if l.pool.wReal - Weight(p.recordedValue) + Weight(value) > U64_MAX then Some(WeightDesync)
    else if !p.inTier && !DisplacedSupplied(l, EntryOf(p.(recordedValue := value), i), supplied) then
      Some(AccountNotEnoughKeys)
    else None
  }

  lemma RecordErrors(pool: Pool, p: Position, wallet: Wallet, value: u64, now: i64)
    requires |pool.blankFaces| == 3 && ApplyRecordValue(pool, p, wallet, value, now).Err?
    requires pool.sweepPending && pool.openBatches == 0 && p.state == Active && 0 < value ==>
               pool.sweepUpdates == U32_MAX || Recordable(pool, p, wallet, value)
    requires forall d :: 0 <= d < 3 ==> 0 < pool.blankFaces[d]
    ensures ApplyRecordValue(pool, p, wallet, value, now).error ==
              if !pool.sweepPending then SweepNotOpen
              else if 0 < pool.openBatches then RollBatchInFlight
              else if p.state != Active then InvalidPositionState
              else if value == 0 then ZeroValue
              else if || pool.sweepUpdates == U32_MAX || Closes(pool, p, value, now) || value > WEIGHT_C
                      || wallet.activeValue - p.recordedValue + value > U64_MAX
                      || !CanRebalance(Reweighed(pool, p.recordedValue, value)) then ArithmeticFailure
              else WeightDesync
  {
    hide WeightOf;
    hide PositionFeePayout;
    hide Rebalanced;
    hide CanRebalance;
    if pool.sweepUpdates + 1 <= U32_MAX {
      RebalanceRefuses(Remaining(pool, p.recordedValue).(sweepUpdates := pool.sweepUpdates + 1));
      RebalanceRefuses(Reweighed(pool, p.recordedValue, value).(sweepUpdates := pool.sweepUpdates + 1));
      SameMarket(Reweighed(pool, p.recordedValue, value), pool.sweepUpdates + 1);
    }
  }

  lemma SameMarket(pool: Pool, updates: u32)
    requires |pool.blankFaces| == 3
    ensures CanRebalance(pool.(sweepUpdates := updates)) == CanRebalance(pool)
  {
  }

  lemma ApplyRecordRefuses(l: Ledger, i: nat, value: u64, now: i64)
    requires Inv(l) && Shape(l) && i < |l.positions|
    requires var p := l.positions[i];
             ApplyRecordValue(l.pool, p, WalletOf(l.wallets, p.depositor), value, now).Err?
    ensures RecordRefusal(l, i, value, now, [])
         == Some(ApplyRecordValue(l.pool, l.positions[i], WalletOf(l.wallets, l.positions[i].depositor), value,
                                  now).error)
  {
    var p := l.positions[i];
    assert ValidConfig(l.pool);
    if l.positions[i].state == Active {
      RecordCovered(l, i);
    }
    ApplyRecordSucceedsIff(l, i, value, now);
    hide Inv;
    hide Shape;
    hide ApplyRecordValue;
    hide CanRebalance;
    hide Remaining;
    hide Reweighed;
    hide PositionFeePayout;
    hide WeightOf;
    RecordErrors(l.pool, p, WalletOf(l.wallets, p.depositor), value, now);
  }

  lemma FillRefuses(l: Ledger, stored: seq<Position>, supplied: seq<nat>)
    requires 0 < l.pool.tierSize && |stored| == |l.positions|
    ensures FillFromCandidate(l, stored, supplied).Err? ==>
              FillFromCandidate(l, stored, supplied).error == InvalidPositionState
  {
    hide Promote;
  }

  /** Once the accounting has succeeded, a close is refused only for its successor, and a position that
      stays only for the member it displaces. */
  lemma RecordedRefuses(l: Ledger, i: nat, value: u64, now: i64, supplied: seq<nat>)
    requires Inv(l) && Shape(l) && i < |l.positions|
    requires var p := l.positions[i];
             ApplyRecordValue(l.pool, p, WalletOf(l.wallets, p.depositor), value, now).Ok?
    ensures RecordValue(l, i, value, now, supplied).Err? ==>
              RecordValue(l, i, value, now, supplied).error ==
                if Closes(l.pool, l.positions[i], value, now) then InvalidPositionState else AccountNotEnoughKeys
  {
    var p := l.positions[i];
    var wallet := WalletOf(l.wallets, p.depositor);
    var r := ApplyRecordValue(l.pool, p, wallet, value, now).value;
    RecordingEffect(l.pool, p, wallet, value, now);
    RemoveNeverDesyncs(l, i);
    hide Inv;
    hide ApplyRecordValue;
    hide SeatsUnmoved;
    hide PositionFeePayout;
    hide WeightOf;
    hide Index.WellFormed;
    hide Index.Remove;
    hide Index.Update;
    hide Vacate;
    hide FillFromCandidate;
    hide Cross;
    hide RefreshMember;
    if r.outcome.Close? {
      var index := Index.Remove(l.index, p.slotIndex, p.recordedValue, r.expectedTotal).value;
      ClosedKeeps(l, r.pool, index, r.wallet, i, r.position);
      if p.inTier {
        var closed := Ledger(r.pool, index, l.tier, l.accTier, l.positions[i := r.position],
                             l.wallets[p.depositor := r.wallet]);
        FillRefuses(Vacate(closed, i).value, l.positions, supplied);
      }
    } else {
      NarrowedFits(l.pool, p, wallet, value, now);
      UpdateNeverDesyncs(l, i, value);
      var index := Index.Update(l.index, p.slotIndex, p.recordedValue, value, r.expectedTotal).value;
      MovedKeeps(l, i, value, r.pool, index, r.wallet);
      if !p.inTier {
        var moved := Ledger(r.pool, index, l.tier, l.accTier, l.positions[i := r.position],
                            l.wallets[p.depositor := r.wallet]);
        InvParts(moved);
        CrossSucceedsIff(moved, i, supplied);
      }
    }
  }

  lemma NarrowedFits(pool: Pool, p: Position, wallet: Wallet, value: u64, now: i64)
    requires |pool.blankFaces| == 3 && ApplyRecordValue(pool, p, wallet, value, now).Ok?
    ensures ApplyRecordValue(pool, p, wallet, value, now).value.pool.wReal <= U64_MAX
  {
    RecordingEffect(pool, p, wallet, value, now);
    hide ApplyRecordValue;
  }

  lemma RecordRefuses(l: Ledger, i: nat, value: u64, now: i64, supplied: seq<nat>)
    requires Inv(l) && i < |l.positions|
    ensures Shape(l)
    ensures match RecordRefusal(l, i, value, now, supplied)
            case None => RecordValue(l, i, value, now, supplied).Ok?
            case Some(e) => RecordValue(l, i, value, now, supplied) == Err(e)
  {
    ShapeOf(l);
    var p := l.positions[i];
    var r := ApplyRecordValue(l.pool, p, WalletOf(l.wallets, p.depositor), value, now);
    RecordSucceedsIff(l, i, value, now, supplied);
    ApplyRecordSucceedsIff(l, i, value, now);
    if r.Err? {
      ApplyRecordRefuses(l, i, value, now);
      assert RecordValue(l, i, value, now, supplied) == Err(r.error);
    } else {
      RecordedRefuses(l, i, value, now, supplied);
    }
    hide Inv;
    hide Shape;
    hide RecordValue;
    hide ApplyRecordValue;
    hide CanRebalance;
    hide Remaining;
    hide Reweighed;
    hide Before;
    hide WeightOf;
  }
}
