/** What holds of a pool after any run of instructions whatsoever. */
module LedgerTheorems {
  import opened Machine
  import opened FeeMath
  import opened State
  import opened Accounting
  import opened TierSpec
  import opened Sums
  import opened Leaves
  import opened Ledger
  import opened LedgerInvariant
  import opened LedgerSteps
  import opened LedgerCloses
  import opened RebalanceTheorems
  import Index = IndexSpec

  lemma GenesisInv(pool: Pool, capacity: u32)
    requires ValidConfig(pool)
    ensures Inv(Genesis(pool, capacity))
  {
    Index.EmptyWellFormed(capacity);
  }

  lemma HandleKeeps(l: Ledger, a: Action)
    requires Inv(l)
    ensures Handle(l, a).Ok? ==> Inv(Handle(l, a).value)
  {
    hide Approve;
    hide Withdraw;
    hide RecordValue;
    hide CloseSeized;
    hide UpdateTier;
    hide UpdateConfig;
    hide Accrue;
    hide Deposit;
    hide Reject;
    hide Release;
    hide WeightInv;
    hide WalletInv;
    hide FeeInv;
    hide TierInv;
    if Handle(l, a).Ok? {
      match a
      case DepositBy(depositor) => DepositKeeps(l, depositor);
      case RejectDeposit(i) => RejectKeeps(l, i);
      case ReleasePosition(i) => ReleaseKeeps(l, i);
      case ApproveDeposit(i, att, now, supplied) => ApproveKeeps(l, i, att, now, supplied);
      case WithdrawPosition(i, now, supplied, payable) => WithdrawKeeps(l, i, now, supplied);
      case RecordValueOf(i, value, now, supplied) => RecordKeeps(l, i, value, now, supplied);
      case SeizePosition(i, arrangeable, now) => SeizeKeeps(l, i, arrangeable, now);
      case PromoteMember(i, supplied) => UpdateTierKeeps(l, i, supplied);
      case ChangeConfig(update, supplied) => ConfigKeeps(l, update, supplied);
      case AccrueFee(fee) => AccrueKeeps(l, fee);
      case BeginSweeping =>
      case EndSweeping =>
      case CommitBatch(n) =>
      case Roll(openBatches, liability) =>
      case SetPause(deposits, rolls) =>
    }
  }

  lemma RejectKeeps(l: Ledger, i: nat)
    requires Inv(l) && Reject(l, i).Ok?
    ensures Inv(Reject(l, i).value)
  {
    IdleKeeps(l, i, l.positions[i].(state := PositionState.Rejected));
  }

  lemma ReleaseKeeps(l: Ledger, i: nat)
    requires Inv(l) && Release(l, i).Ok?
    ensures Inv(Release(l, i).value)
  {
    IdleKeeps(l, i, l.positions[i].(state := Released, accrued := 0));
  }

  lemma RecordKeeps(l: Ledger, i: nat, value: u64, now: i64, supplied: seq<nat>)
    requires Inv(l) && RecordValue(l, i, value, now, supplied).Ok?
    ensures Inv(RecordValue(l, i, value, now, supplied).value)
  {
    var p := l.positions[i];
    if ApplyRecordValue(l.pool, p, WalletOf(l.wallets, p.depositor), value, now).value.outcome.Close? {
      ClosingRecordKeeps(l, i, value, now, supplied);
    } else {
      MovingRecordKeeps(l, i, value, now, supplied);
    }
  }

  /** One transaction: an error reverts every account. */
  ghost function Step(l: Ledger, a: Action): Ledger
    requires Inv(l)
  {
    ShapeOf(l);
    if Handle(l, a).Ok? then Handle(l, a).value else l
  }

  /** The pool after any run from a freshly created one. Every weight, counter, wallet, fee and tier
      equality of the invariant holds at its end. */
  ghost function Run(pool: Pool, capacity: u32, actions: seq<Action>): (l: Ledger)
    requires ValidConfig(pool)
    ensures Inv(l)
    decreases |actions|
  {
    GenesisInv(pool, capacity);
    if actions == [] then Genesis(pool, capacity)
    else
      var before := Run(pool, capacity, actions[..|actions| - 1]);
      ShapeOf(before);
      HandleKeeps(before, actions[|actions| - 1]);
      Step(before, actions[|actions| - 1])
  }

  /** A run extended by one transaction is the run, then that transaction. */
  lemma RunAppends(pool: Pool, capacity: u32, actions: seq<Action>, a: Action)
    requires ValidConfig(pool)
    ensures Run(pool, capacity, actions + [a]) == Step(Run(pool, capacity, actions), a)
  {
    assert (actions + [a])[..|actions|] == actions;
    hide Step;
    hide Inv;
  }

  // ---- Every fee unit is credited once and paid at most once ----

  ghost function Credit(l: Ledger, a: Action): nat
    requires Inv(l)
  {
    ShapeOf(l);
    if a.AccrueFee? && Handle(l, a).Ok? then
      BpsShare(a.fee, l.pool.allocEqualBps) + BpsShare(a.fee, l.pool.allocTierBps)
    else 0
  }

  ghost function Payment(l: Ledger, a: Action): nat
    requires Inv(l)
  {
    ShapeOf(l);
    if a.WithdrawPosition? && Handle(l, a).Ok? then
      WithdrawOwed(l, a.i, a.now, a.supplied);
      ExitPayout(l.pool, l.positions[a.i], l.accTier).value
    else 0
  }

  lemma TierStepsKeepPool(l: Ledger, i: nat, stored: seq<Position>, supplied: seq<nat>)
    requires 0 < l.pool.tierSize && i < |l.positions| == |stored|
    ensures Cross(l, i, supplied).Ok? ==> Cross(l, i, supplied).value.0.pool == l.pool
    ensures Vacate(l, i).Ok? ==> Vacate(l, i).value.pool == l.pool
    ensures FillFromCandidate(l, stored, supplied).Ok? ==> FillFromCandidate(l, stored, supplied).value.pool == l.pool
    ensures VacateAndFill(l, i, stored, supplied).Ok? ==> VacateAndFill(l, i, stored, supplied).value.pool == l.pool
  {
    hide PositionFeePayout;
    hide Promote;
  }

  /** A withdrawal leaves the pool its accounting leaves: the tier steps do not touch it. */
  lemma WithdrawPool(l: Ledger, i: nat, now: i64, supplied: seq<nat>)
    requires Inv(l) && Withdraw(l, i, now, supplied).Ok?
    ensures var p := l.positions[i];
            var r := ApplyWithdraw(l.pool, p, WalletOf(l.wallets, p.depositor), l.accTier, now);
            r.Ok? && Withdraw(l, i, now, supplied).value.pool == r.value.pool
  {
    ShapeOf(l);
    var p := l.positions[i];
    var wallet := WalletOf(l.wallets, p.depositor);
    WithdrawalEffect(l.pool, p, wallet, l.accTier, now);
    hide ApplyWithdraw;
    hide VacateAndFill;
    hide Inv;
    hide Index.WellFormed;
    var w := ApplyWithdraw(l.pool, p, wallet, l.accTier, now).value;
    var index := Index.Remove(l.index, w.slotIndex, w.recordedValue, w.expectedTotal).value;
    hide Index.Remove;
    TierStepsKeepPool(Ledger(w.pool, index, l.tier, l.accTier, l.positions[i := w.position],
                             l.wallets[p.depositor := w.wallet]), i, l.positions, supplied);
  }

  lemma WithdrawOwed(l: Ledger, i: nat, now: i64, supplied: seq<nat>)
    requires Inv(l) && Withdraw(l, i, now, supplied).Ok?
    ensures ExitPayout(l.pool, l.positions[i], l.accTier).Ok?
    ensures Withdraw(l, i, now, supplied).value.pool.owedFees + ExitPayout(l.pool, l.positions[i], l.accTier).value
         == l.pool.owedFees
  {
    ShapeOf(l);
    hide Withdraw;
    hide ExitPayout;
    hide Inv;
    WithdrawPool(l, i, now, supplied);
    WithdrawalEffect(l.pool, l.positions[i], WalletOf(l.wallets, l.positions[i].depositor), l.accTier, now);
    hide ApplyWithdraw;
  }

  lemma ApproveOwed(l: Ledger, i: nat, att: Attestation, now: i64, supplied: seq<nat>)
    requires Inv(l) && Approve(l, i, att, now, supplied).Ok?
    ensures Approve(l, i, att, now, supplied).value.pool.owedFees == l.pool.owedFees
  {
    ShapeOf(l);
    hide Inv;
    hide Approve;
    hide Cross;
    hide Rebalanced;
    ApproveIsCross(l, i, att, now, supplied);
    CrossPool(ActivatedLedger(l, i, att, now), i, supplied);
    RebalancedKeeps(ActivatedLedger(l, i, att, now).pool);
  }

  /** A re-attestation leaves the pool its accounting leaves. */
  lemma RecordPool(l: Ledger, i: nat, value: u64, now: i64, supplied: seq<nat>)
    requires Inv(l) && RecordValue(l, i, value, now, supplied).Ok?
    ensures var p := l.positions[i];
            var r := ApplyRecordValue(l.pool, p, WalletOf(l.wallets, p.depositor), value, now);
            r.Ok? && RecordValue(l, i, value, now, supplied).value.pool == r.value.pool
  {
    var p := l.positions[i];
    var wallet := WalletOf(l.wallets, p.depositor);
    RecordingEffect(l.pool, p, wallet, value, now);
    var r := ApplyRecordValue(l.pool, p, wallet, value, now).value;
    hide ApplyRecordValue;
    hide WeightOf;
    hide Inv;
    hide PositionFeePayout;
    var index := if r.outcome.Close?
                 then Index.Remove(l.index, p.slotIndex, p.recordedValue, r.expectedTotal).value
                 else Index.Update(l.index, p.slotIndex, p.recordedValue, value, r.expectedTotal).value;
    TierStepsKeepPool(Ledger(r.pool, index, l.tier, l.accTier, l.positions[i := r.position],
                             l.wallets[p.depositor := r.wallet]), i, l.positions, supplied);
    hide Cross;
    hide VacateAndFill;
    hide RefreshMember;
  }

  lemma RecordOwed(l: Ledger, i: nat, value: u64, now: i64, supplied: seq<nat>)
    requires Inv(l) && RecordValue(l, i, value, now, supplied).Ok?
    ensures RecordValue(l, i, value, now, supplied).value.pool.owedFees == l.pool.owedFees
  {
    RecordPool(l, i, value, now, supplied);
    RecordingEffect(l.pool, l.positions[i], WalletOf(l.wallets, l.positions[i].depositor), value, now);
    hide ApplyRecordValue;
    hide RecordValue;
    hide Inv;
  }

  lemma SeizeOwed(l: Ledger, i: nat, arrangeable: bool, now: i64)
    requires Inv(l) && CloseSeized(l, i, arrangeable, now).Ok?
    ensures CloseSeized(l, i, arrangeable, now).value.pool.owedFees == l.pool.owedFees
  {
    var p := l.positions[i];
    if p.state == Active {
      var wallet := WalletOf(l.wallets, p.depositor);
      DepartEffect(l.pool, wallet, p.recordedValue);
      hide Depart;
      hide PositionFeePayout;
      hide Inv;
    }
  }

  lemma UpdateTierOwed(l: Ledger, i: nat, supplied: seq<nat>)
    requires Inv(l) && UpdateTier(l, i, supplied).Ok?
    ensures UpdateTier(l, i, supplied).value.pool.owedFees == l.pool.owedFees
  {
    TierStepsKeepPool(l, i, l.positions, supplied);
    hide Cross;
  }

  lemma ConfigOwed(l: Ledger, update: ConfigUpdate, supplied: seq<nat>)
    requires UpdateConfig(l, update, supplied).Ok?
    ensures UpdateConfig(l, update, supplied).value.pool.owedFees == l.pool.owedFees
  {
    hide SettleEvicted;
  }

  lemma AccrueOwed(l: Ledger, fee: u64)
    requires |l.pool.blanks| == 3 && Accrue(l, fee).Ok?
    ensures Accrue(l, fee).value.pool.owedFees
         == l.pool.owedFees + BpsShare(fee, l.pool.allocEqualBps) + BpsShare(fee, l.pool.allocTierBps)
  {
    hide AccumulatorUnit;
    hide BpsShare;
  }

  lemma OwedStays(l: Ledger, a: Action)
    requires Inv(l) && Shape(l) && |l.pool.blanks| == 3 && Handle(l, a).Ok?
    requires !a.WithdrawPosition? && !a.AccrueFee?
    ensures Handle(l, a).value.pool.owedFees == l.pool.owedFees
  {
    hide Inv;
    hide Shape;
    hide Approve;
    hide RecordValue;
    hide CloseSeized;
    hide UpdateTier;
    hide UpdateConfig;
    match a
    case ApproveDeposit(i, att, now, supplied) => ApproveOwed(l, i, att, now, supplied);
    case RecordValueOf(i, value, now, supplied) => RecordOwed(l, i, value, now, supplied);
    case SeizePosition(i, arrangeable, now) => SeizeOwed(l, i, arrangeable, now);
    case PromoteMember(i, supplied) => UpdateTierOwed(l, i, supplied);
    case ChangeConfig(update, supplied) => ConfigOwed(l, update, supplied);
    case _ =>
  }

  /** One transaction moves what is owed by what it credits and what it pays. */
  lemma StepConserves(l: Ledger, a: Action)
    requires Inv(l)
    ensures Step(l, a).pool.owedFees + Payment(l, a) == l.pool.owedFees + Credit(l, a)
  {
    ShapeOf(l);
    hide Inv;
    hide Shape;
    hide ExitPayout;
    hide BpsShare;
    hide Withdraw;
    hide Accrue;
    if Handle(l, a).Ok? {
      if a.WithdrawPosition? {
        WithdrawOwed(l, a.i, a.now, a.supplied);
      } else if a.AccrueFee? {
        AccrueOwed(l, a.fee);
      } else {
        OwedStays(l, a);
        hide Handle;
      }
    }
  }

  ghost function Credited(pool: Pool, capacity: u32, actions: seq<Action>): nat
    requires ValidConfig(pool)
    decreases |actions|
  {
    if actions == [] then 0
    else
      var front := actions[..|actions| - 1];
      Credited(pool, capacity, front) + Credit(Run(pool, capacity, front), actions[|actions| - 1])
  }

  ghost function PaidOut(pool: Pool, capacity: u32, actions: seq<Action>): nat
    requires ValidConfig(pool)
    decreases |actions|
  {
    if actions == [] then 0
    else
      var front := actions[..|actions| - 1];
      PaidOut(pool, capacity, front) + Payment(Run(pool, capacity, front), actions[|actions| - 1])
  }

  /** Over any run: what was paid out and what is still owed are together exactly what was
      credited, and what is still owed covers every remaining claim. */
  lemma {:induction false} FeesAreConserved(pool: Pool, capacity: u32, actions: seq<Action>)
    requires ValidConfig(pool)
    ensures var l := Run(pool, capacity, actions);
            && PaidOut(pool, capacity, actions) + l.pool.owedFees == Credited(pool, capacity, actions)
            && PaidOut(pool, capacity, actions) * ACC_PRECISION
               + SumBy(ClaimOf(l.pool.accEqual, l.accTier), l.positions)
               <= Credited(pool, capacity, actions) * ACC_PRECISION
    decreases |actions|
  {
    hide Claim;
    hide Credit;
    hide Payment;
    hide Step;
    if actions != [] {
      var front := actions[..|actions| - 1];
      FeesAreConserved(pool, capacity, front);
      StepConserves(Run(pool, capacity, front), actions[|actions| - 1]);
    }
  }

  // ---- Withdrawals are never refused for bookkeeping reasons ----

  /** Once the weight of a live position is taken out, the index remove that follows verifies its
      leaf, its total and its free-slot stack. */
  lemma RemoveNeverDesyncs(l: Ledger, i: nat)
    requires Inv(l) && i < |l.positions| && l.positions[i].state == Active
    ensures var p := l.positions[i];
            && Weight(p.recordedValue) <= l.pool.wReal <= U64_MAX
            && Index.Remove(l.index, p.slotIndex, p.recordedValue, l.pool.wReal - Weight(p.recordedValue)).Ok?
  {
    var p := l.positions[i];
    assert Placed(l.index.leaves, p);
    LeafWithinTotal(l.index.leaves, p.slotIndex);
  }

  /** The pool without one position of value `value`, before its blanks are re-evaluated. */
  ghost function Remaining(pool: Pool, value: u64): Pool {
    if Weight(value) <= pool.wReal && 1 <= pool.nReal then
      pool.(wReal := pool.wReal - Weight(value), nReal := pool.nReal - 1)
    else pool
  }

  /** What a caller can check before an instruction rebalances a pool to this weight and count. */
  predicate CanRebalance(pool: Pool)
    requires |pool.blankFaces| == 3
  {
    Targetable(pool.nReal, pool.wReal, pool.blankFaces, pool.ticketTarget)
  }

  lemma RebalancesIff(pool: Pool)
    requires |pool.blankFaces| == 3
    ensures Rebalanced(pool).Ok? <==> CanRebalance(pool)
  {
    EvaluateSucceedsIff(pool.nReal, pool.wReal, pool.blankFaces, pool.ticketTarget);
    hide Rebalance.Evaluate;
    hide Targetable;
  }

  /** The counters a departing position takes from all cover it. */
  lemma DepartCovered(l: Ledger, i: nat)
    requires Inv(l) && i < |l.positions| && l.positions[i].state == Active
    ensures var p := l.positions[i];
            var wallet := WalletOf(l.wallets, p.depositor);
            && |l.pool.blankFaces| == 3 && WeightOf(p.recordedValue).Ok?
            && Weight(p.recordedValue) <= l.pool.wReal <= U64_MAX && 1 <= l.pool.nReal
            && 1 <= wallet.activePositions && p.recordedValue <= wallet.activeValue
  {
    RemoveNeverDesyncs(l, i);
    SumHolds(CountOf(), l.positions, i);
    WalletCovers(l.wallets, l.positions, i);
    hide WalletInv;
    hide FeeInv;
    hide TierInv;
    hide Index.Remove;
  }

  /** The four checked decrements of a live position never fail; only the rebalance can. */
  lemma DepartSucceedsIff(l: Ledger, i: nat, owed: u64)
    requires Inv(l) && i < |l.positions| && l.positions[i].state == Active
    ensures var p := l.positions[i];
            var wallet := WalletOf(l.wallets, p.depositor);
            && 1 <= l.pool.nReal && Weight(p.recordedValue) <= l.pool.wReal
            && |l.pool.blankFaces| == 3
            && (Depart(l.pool.(owedFees := owed), wallet, p.recordedValue).Ok? <==>
                CanRebalance(Remaining(l.pool, p.recordedValue)))
  {
    DepartCovered(l, i);
    hide Inv;
    hide WeightOf;
    RebalancesIff(Remaining(l.pool, l.positions[i].recordedValue).(owedFees := owed));
    hide Rebalanced;
    hide Targetable;
  }

  ghost predicate MayLeave(l: Ledger, i: nat, now: i64)
    requires i < |l.positions|
  {
    l.pool.openBatches == 0 && l.positions[i].state == Active && l.positions[i].lockUntil <= now
  }

  /** In every reachable pool a withdrawal's accounting fails only on the three guards or when the
      remaining market cannot be targeted: the vault always covers the payout and no counter underflows. */
  lemma ApplyWithdrawSucceedsIff(l: Ledger, i: nat, now: i64)
    requires Inv(l) && i < |l.positions|
    ensures var p := l.positions[i];
            ApplyWithdraw(l.pool, p, WalletOf(l.wallets, p.depositor), l.accTier, now).Ok? <==>
            MayLeave(l, i, now) && CanRebalance(Remaining(l.pool, p.recordedValue))
  {
    var p := l.positions[i];
    if MayLeave(l, i, now) {
      ClaimIsOwed(l.pool.owedFees, l.pool.accEqual, l.accTier, l.positions, i);
      ExitPays(l.pool, p, l.accTier);
      var paid := ExitPayout(l.pool, p, l.accTier).value;
      DepartSucceedsIff(l, i, l.pool.owedFees - paid);
      hide ExitPayout;
      hide Depart;
      hide CanRebalance;
      hide Inv;
    }
  }

  /** Exactly when a withdrawal succeeds after any run: no batch is open, the position is active
      and unlocked, the remaining market can be targeted, and a member's supplied successor, if any,
      is eligible. */
  lemma WithdrawSucceedsIff(l: Ledger, i: nat, now: i64, supplied: seq<nat>)
    requires Inv(l) && i < |l.positions|
    ensures var p := l.positions[i];
            Withdraw(l, i, now, supplied).Ok? <==>
            && MayLeave(l, i, now)
            && CanRebalance(Remaining(l.pool, p.recordedValue))
            && (p.inTier && supplied != [] ==> Eligible(l.positions, supplied[0]))
  {
    ShapeOf(l);
    var p := l.positions[i];
    ApplyWithdrawSucceedsIff(l, i, now);
    var r := ApplyWithdraw(l.pool, p, WalletOf(l.wallets, p.depositor), l.accTier, now);
    hide CanRebalance;
    hide Remaining;
    if r.Ok? {
      WithdrawalEffect(l.pool, p, WalletOf(l.wallets, p.depositor), l.accTier, now);
      RemoveNeverDesyncs(l, i);
      hide ApplyWithdraw;
      hide Inv;
      var index := Index.Remove(l.index, p.slotIndex, p.recordedValue, r.value.expectedTotal).value;
      assert Exits(l, i, now, r.value, index);
      hide Exits;
      WithdrawIsFilledDeparture(l, i, now, supplied, r.value, index);
      DepartedKeeps(l, i, now, r.value, index);
      hide Departed;
      hide Withdraw;
      if p.inTier {
        FilledKeeps(Departed(l, i, r.value, index), l.positions, supplied);
      }
    } else {
      hide ApplyWithdraw;
      hide Inv;
    }
  }

  /** Less than one whole unit has accrued on either leg, and nothing has been settled. */
  ghost predicate NothingDue(l: Ledger, i: nat)
    requires i < |l.positions|
  {
    var p := l.positions[i];
    && p.accrued == 0 && l.pool.accEqual - p.equalCheckpoint < ACC_PRECISION
    && (p.inTier ==> l.accTier - p.tierCheckpoint < ACC_PRECISION)
  }

  lemma NothingDueIff(l: Ledger, i: nat)
    requires Inv(l) && i < |l.positions| && l.positions[i].state == Active
    ensures ExitPayout(l.pool, l.positions[i], l.accTier) == Ok(0) <==> NothingDue(l, i)
  {
    ClaimIsOwed(l.pool.owedFees, l.pool.accEqual, l.accTier, l.positions, i);
    hide Index.WellFormed;
    hide ValidConfig;
    hide WeightInv;
    hide WalletInv;
    hide TierInv;
  }

  /** Exactly when the whole exit succeeds: the withdrawal does, and the depositor brought the account
      the fees go to unless there are none to pay. */
  lemma ExitSucceedsIff(l: Ledger, i: nat, now: i64, supplied: seq<nat>, payable: bool)
    requires Inv(l) && i < |l.positions|
    ensures Shape(l)
    ensures var p := l.positions[i];
            WithdrawTo(l, i, now, supplied, payable).Ok? <==>
            && MayLeave(l, i, now)
            && CanRebalance(Remaining(l.pool, p.recordedValue))
            && (p.inTier && supplied != [] ==> Eligible(l.positions, supplied[0]))
            && (payable || NothingDue(l, i))
  {
    ShapeOf(l);
    WithdrawSucceedsIff(l, i, now, supplied);
    if l.positions[i].state == Active {
      NothingDueIff(l, i);
    }
    hide Inv;
    hide CanRebalance;
    hide Remaining;
    hide Withdraw;
    hide ExitPayout;
    hide NothingDue;
  }

  /** Exactly when an active position can be seized after any run: the lock, if the depositor could
      keep the card, has passed, no batch is open, and the remaining market can be targeted. */
  lemma SeizeSucceedsIff(l: Ledger, i: nat, arrangeable: bool, now: i64)
    requires Inv(l) && i < |l.positions| && l.positions[i].state == Active
    ensures var p := l.positions[i];
            CloseSeized(l, i, arrangeable, now).Ok? <==>
            && (arrangeable ==> p.lockUntil <= now) && l.pool.openBatches == 0
            && CanRebalance(Remaining(l.pool, p.recordedValue))
  {
    ShapeOf(l);
    var p := l.positions[i];
    var wallet := WalletOf(l.wallets, p.depositor);
    ClaimIsOwed(l.pool.owedFees, l.pool.accEqual, l.accTier, l.positions, i);
    EqualLegFits(l.pool, p, l.accTier);
    DepartSucceedsIff(l, i, l.pool.owedFees);
    assert l.pool.(owedFees := l.pool.owedFees) == l.pool;
    RemoveNeverDesyncs(l, i);
    if DepartSeized(l.pool, p, wallet).Ok? {
      DepartEffect(l.pool, wallet, p.recordedValue);
      SeizeActiveKeeps(l, i);
    }
    hide Depart;
    hide CanRebalance;
    hide Remaining;
    hide PositionFeePayout;
    hide Inv;
    hide Vacate;
    hide Index.Remove;
  }

  lemma EqualLegFits(pool: Pool, p: Position, accTier: u128)
    requires p.state == Active && CheckpointsOk(pool.accEqual, accTier, p)
    requires Claim(pool.accEqual, accTier, p) <= pool.owedFees * ACC_PRECISION
    ensures PositionFeePayout(pool.accEqual, p.equalCheckpoint, p.accrued).Ok?
  {
  }

  /** The configuration can target every market of up to `capacity` positions. */
  ghost predicate Steady(pool: Pool, capacity: u32) {
    ValidConfig(pool) && AlwaysTargetable(pool.blankFaces, pool.ticketTarget, capacity)
  }

  lemma SteadyRebalances(pool: Pool, capacity: u32)
    requires Steady(pool, capacity) && pool.nReal <= capacity && pool.wReal <= U64_MAX
    requires pool.nReal <= pool.wReal <= pool.nReal * WEIGHT_C
    ensures CanRebalance(pool)
  {
    hide Targetable;
    hide AlwaysTargetable;
    if 0 < pool.nReal {
      AlwaysTargetableIff(pool.blankFaces, pool.ticketTarget, capacity);
    } else {
      EmptyIsTargetable(pool.wReal, pool.blankFaces, pool.ticketTarget);
    }
  }

  lemma EmptyIsTargetable(wReal: nat, faces: seq<u64>, ticketTarget: u64)
    requires |faces| == 3
    ensures Targetable(0, wReal, faces, ticketTarget)
  {
  }

  /** What a leaver leaves behind is a market of one position fewer. */
  lemma RemainingAttainable(l: Ledger, i: nat)
    requires Inv(l) && i < |l.positions| && l.positions[i].state == Active
    ensures var rest := Remaining(l.pool, l.positions[i].recordedValue);
            && rest.nReal == l.pool.nReal - 1 && rest.wReal <= U64_MAX
            && rest.nReal <= rest.wReal <= rest.nReal * WEIGHT_C
  {
    DepartCovered(l, i);
    var q := l.positions[i].(state := Released);
    WeightTotals(l.positions, i, q);
    forall k | 0 <= k < |l.positions| && l.positions[k].state == Active
      ensures 0 < Weight(l.positions[k].recordedValue) <= WEIGHT_C
    {
      assert Placed(l.index.leaves, l.positions[k]);
    }
    hide Weight;
    SumWithin(l.positions[i := q]);
    hide WalletInv;
    hide FeeInv;
    hide TierInv;
  }

  /** In a pool whose configuration can target every market its slots can hold, an active, unlocked
      position can always leave once no batch is open. */
  lemma WithdrawAlwaysAvailable(l: Ledger, i: nat, now: i64)
    requires Inv(l) && i < |l.positions| && |l.index.leaves| <= U32_MAX && Steady(l.pool, |l.index.leaves|)
    ensures Withdraw(l, i, now, []).Ok? <==> MayLeave(l, i, now)
  {
    ShapeOf(l);
    WithdrawSucceedsIff(l, i, now, []);
    if MayLeave(l, i, now) {
      ActiveFit(l);
      RemainingAttainable(l, i);
      hide Inv;
      hide Withdraw;
      hide CanRebalance;
      hide AlwaysTargetable;
      SteadyRebalances(Remaining(l.pool, l.positions[i].recordedValue), |l.index.leaves|);
    }
  }

  /** There are never more active positions than slots. */
  lemma ActiveFit(l: Ledger)
    requires Inv(l)
    ensures l.pool.nReal <= |l.index.leaves|
  {
    var slots := ActiveSlots(l.positions);
    forall k | 0 <= k < |slots|
      ensures slots[k] < |l.index.leaves|
    {
      var i := SlotOwner(l.positions, k);
      assert Placed(l.index.leaves, l.positions[i]);
    }
    DistinctSlots(l.positions);
    Index.DistinctFit(slots, |l.index.leaves|);
  }

  ghost function ActiveSlots(ps: seq<Position>): (s: seq<nat>)
    ensures |s| == SumBy(CountOf(), ps)
  {
    if ps == [] then []
    else
      var p := ps[|ps| - 1];
      ActiveSlots(ps[..|ps| - 1]) + if p.state == Active then [p.slotIndex] else []
  }

  lemma {:induction false} SlotOwner(ps: seq<Position>, k: nat) returns (i: nat)
    requires k < |ActiveSlots(ps)|
    ensures i < |ps| && ps[i].state == Active && ps[i].slotIndex == ActiveSlots(ps)[k]
    decreases |ps|
  {
    var rest := ps[..|ps| - 1];
    if k < |ActiveSlots(rest)| {
      i := SlotOwner(rest, k);
    } else {
      i := |ps| - 1;
    }
  }

  lemma {:induction false} DistinctSlots(ps: seq<Position>)
    requires forall i, j :: 0 <= i < j < |ps| && ps[i].state == Active && ps[j].state == Active ==>
               ps[i].slotIndex != ps[j].slotIndex
    ensures forall i, j :: 0 <= i < j < |ActiveSlots(ps)| ==> ActiveSlots(ps)[i] != ActiveSlots(ps)[j]
    decreases |ps|
  {
    if ps != [] {
      var rest := ps[..|ps| - 1];
      DistinctSlots(rest);
      var slots := ActiveSlots(rest);
      forall k | 0 <= k < |slots|
        ensures ps[|ps| - 1].state == Active ==> slots[k] != ps[|ps| - 1].slotIndex
      {
        var i := SlotOwner(rest, k);
        assert ps[i] == rest[i];
      }
    }
  }

  lemma {:induction false} ActiveSlotListed(ps: seq<Position>, i: nat)
    requires i < |ps| && ps[i].state == Active
    ensures ps[i].slotIndex in ActiveSlots(ps)
    decreases |ps|
  {
    if i < |ps| - 1 {
      ActiveSlotListed(ps[..|ps| - 1], i);
    }
  }

  /** The occupied slots are the active positions', so the pool's count is theirs. */
  lemma OccupiedByActive(l: Ledger)
    requires Inv(l)
    ensures |Index.Occupied(l.index)| == l.pool.nReal
  {
    hide ValidConfig;
    hide WalletInv;
    hide FeeInv;
    hide TierInv;
    var slots := ActiveSlots(l.positions);
    DistinctSlots(l.positions);
    Index.SetOfDistinct(slots);
    forall s: nat
      ensures s in slots <==> s in Index.Occupied(l.index)
    {
      if s in slots {
        var k :| 0 <= k < |slots| && slots[k] == s;
        var i := SlotOwner(l.positions, k);
        assert Placed(l.index.leaves, l.positions[i]);
      }
      if s in Index.Occupied(l.index) {
        var i :| 0 <= i < |l.positions| && Holds(l.positions[i], s);
        ActiveSlotListed(l.positions, i);
      }
    }
    assert Index.Members(slots) == Index.Occupied(l.index);
  }

  /** A pool's weight is at least one and at most `WEIGHT_C` for each of its positions. */
  lemma WeightIsAttainable(l: Ledger)
    requires Inv(l)
    ensures l.pool.nReal <= l.pool.wReal <= l.pool.nReal * WEIGHT_C
  {
    forall i | 0 <= i < |l.positions| && l.positions[i].state == Active
      ensures 0 < Weight(l.positions[i].recordedValue) <= WEIGHT_C
    {
      assert Placed(l.index.leaves, l.positions[i]);
    }
    hide Weight;
    SumWithin(l.positions);
  }

  lemma {:induction false} SumWithin(ps: seq<Position>)
    requires forall i :: 0 <= i < |ps| && ps[i].state == Active ==> 0 < Weight(ps[i].recordedValue) <= WEIGHT_C
    ensures SumBy(CountOf(), ps) <= SumBy(WeightOfPosition(), ps) <= SumBy(CountOf(), ps) * WEIGHT_C
    decreases |ps|
  {
    hide Weight;
    if ps != [] {
      SumWithin(ps[..|ps| - 1]);
    }
  }

  // ---- Draws ----

  /** After any run, every draw below the pool's weight selects a slot held by exactly one active
      position. */
  lemma DrawSelectsOnePosition(l: Ledger, r: nat) returns (winner: nat)
    requires Inv(l) && r < l.pool.wReal
    ensures winner < |l.positions| && l.positions[winner].state == Active
    ensures Index.PrefixSearch(l.index, r) == Some(l.positions[winner].slotIndex)
    ensures forall j :: 0 <= j < |l.positions| && j != winner && l.positions[j].state == Active ==>
              Index.PrefixSearch(l.index, r) != Some(l.positions[j].slotIndex)
  {
    ScanIsInterval(l.index.leaves, 0, r);
    var s := Draw(l.index.leaves, r).value;
    winner :| 0 <= winner < |l.positions| && Holds(l.positions[winner], s);
  }

  /** After any run, an active position wins exactly its weight out of the pool's weight draws. */
  lemma PositionOdds(l: Ledger, i: nat)
    requires Inv(l) && i < |l.positions| && l.positions[i].state == Active
    ensures |Winners(l.index.leaves, l.positions[i].slotIndex)| == WeightOf(l.positions[i].recordedValue).value
    ensures l.pool.wReal == Total(l.index.leaves)
  {
    assert Placed(l.index.leaves, l.positions[i]);
    DrawOdds(l.index.leaves, l.positions[i].slotIndex);
  }
}
