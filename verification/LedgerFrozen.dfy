/** What one transaction does to the active positions: which run changes nobody's draw, and what the
    clock says of the members' activation times. */
module LedgerFrozen {
  import opened Machine
  import opened FeeMath
  import opened State
  import opened Accounting
  import opened TierSpec
  import opened TierResolver
  import opened Ledger
  import opened LedgerInvariant
  import opened LedgerSteps
  import opened LedgerTheorems
  import opened LedgerLife
  import opened LedgerFees
  import opened LedgerPrice
  import LedgerEffects
  import LedgerUndo
  import Index = IndexSpec

  // ---- Who is active after a transaction ----

  /** Only an approval activates: any other transaction leaves whoever it is addressed to as inactive
      as before. */
  lemma TargetStaysInactive(l: Ledger, a: Action)
    requires Shape(l) && |l.pool.blanks| == 3 && Handle(l, a).Ok? && !a.ApproveDeposit?
    requires Target(l, a) < |l.positions| && l.positions[Target(l, a)].state != Active
    ensures Target(l, a) < |Handle(l, a).value.positions|
    ensures Handle(l, a).value.positions[Target(l, a)].state != Active
  {
    hide Index.WellFormed;
    hide ExitPayout;
    hide Depart;
    hide DepartSeized;
    hide Cross;
    hide Rebalanced;
    hide VacateAndFill;
    hide UpdateConfig;
    hide Accrue;
  }

  /** Position `k` after the transaction: active as it was before, or activated by this very approval. */
  ghost predicate ActiveByThen(l: Ledger, a: Action, k: nat, q: Position) {
    || (k < |l.positions| && l.positions[k].state == Active && SameSeat(l.positions[k], q))
    || (a.ApproveDeposit? && a.i == k && q.activatedAt == a.now)
  }

  lemma ApprovedAt(l: Ledger, i: nat, att: Attestation, now: i64, supplied: seq<nat>)
    requires Inv(l) && Approve(l, i, att, now, supplied).Ok?
    ensures i < |l.positions| == |Approve(l, i, att, now, supplied).value.positions|
    ensures Approve(l, i, att, now, supplied).value.positions[i].activatedAt == now
  {
    LedgerUndo.ApprovalEffect(l, i, att, now, supplied);
    ShapeOf(l);
    hide Inv;
    hide Approve;
    hide Index.Insert;
    hide ExitPayout;
  }

  lemma HandledActives(l: Ledger, a: Action, k: nat)
    requires Inv(l) && Shape(l) && |l.pool.blanks| == 3 && Handle(l, a).Ok?
    requires k < |Handle(l, a).value.positions| && Handle(l, a).value.positions[k].state == Active
    ensures ActiveByThen(l, a, k, Handle(l, a).value.positions[k])
  {
    hide Inv;
    hide Settles;
    if !a.DepositBy? && !a.AccrueFee? {
      HandledSettles(l, a);
      if k == Target(l, a) && l.positions[k].state != Active {
        if a.ApproveDeposit? {
          ApprovedAt(l, a.i, a.att, a.now, a.supplied);
          hide Approve;
        } else {
          TargetStaysInactive(l, a);
          hide Handle;
        }
      } else {
        hide Handle;
      }
    }
  }

  // ---- The clock ----

  /** The time a transaction reads, if it reads one. */
  function Clock(a: Action): Option<i64> {
    match a
    case ApproveDeposit(i, att, now, supplied) => Some(now)
    case WithdrawPosition(i, now, supplied, payable) => Some(now)
    case RecordValueOf(i, value, now, supplied) => Some(now)
    case SeizePosition(i, arrangeable, now) => Some(now)
    case _ => None
  }

  predicate NotAfter(actions: seq<Action>, now: i64) {
    forall k :: 0 <= k < |actions| ==> match Clock(actions[k]) case None => true case Some(t) => t <= now
  }

  /** Nobody was activated later than any time the run has not passed. */
  lemma {:induction false} ActivatedInThePast(pool: Pool, capacity: u32, actions: seq<Action>, now: i64, i: nat)
    requires ValidConfig(pool) && NotAfter(actions, now)
    requires i < |Run(pool, capacity, actions).positions| && Run(pool, capacity, actions).positions[i].state == Active
    ensures Run(pool, capacity, actions).positions[i].activatedAt <= now
    decreases |actions|
  {
    hide Inv;
    if actions != [] {
      var front, a := actions[..|actions| - 1], actions[|actions| - 1];
      var before := Run(pool, capacity, front);
      ShapeOf(before);
      if Handle(before, a).Ok? {
        HandledActives(before, a, i);
        hide Handle;
        if !(a.ApproveDeposit? && a.i == i && Run(pool, capacity, actions).positions[i].activatedAt == a.now) {
          ActivatedInThePast(pool, capacity, front, now, i);
        }
      } else {
        hide Handle;
        ActivatedInThePast(pool, capacity, front, now, i);
      }
    }
  }

  /** With a clock that does not run backwards the resolver's one wrong tie is two approvals in the
      same second, the earlier deposit second: nothing else can make an approval that trusts the
      resolver fail on the tier's account. */
  lemma ClockedApproveSucceedsIff(pool: Pool, capacity: u32, actions: seq<Action>, i: nat, att: Attestation, now: i64)
    requires ValidConfig(pool) && NotAfter(actions, now) && i < |Run(pool, capacity, actions).positions|
    ensures var l := Run(pool, capacity, actions);
            && i <= U64_MAX && Shape(l) && |l.tier| <= l.pool.tierSize
            && var supplied := SuppliedBy(ResolveDisplaced(l.tier, l.pool.tierSize, Activating(att.value)));
            (Approve(l, i, att, now, supplied).Ok? <==>
            && Admissible(l, i, att, now)
            && (|l.tier| == l.pool.tierSize ==>
                  var least := l.tier[|l.tier| - 1];
                  !(att.value == least.value && now == least.activatedAt && i < least.positionId)))
  {
    var l := Run(pool, capacity, actions);
    hide Run;
    ResolvedApproveSucceedsIff(l, i, att, now);
    if l.tier != [] {
      var key := SeatedPosition(l, |l.tier| - 1);
      hide Inv;
      ActivatedInThePast(pool, capacity, actions, now, key);
    }
    hide Inv;
    hide Approve;
    hide Admissible;
    hide Shape;
    hide ResolveDisplaced;
  }

  /** A seat is an active position's, at the time that position was activated. */
  lemma SeatedPosition(l: Ledger, k: nat) returns (i: nat)
    requires Inv(l) && k < |l.tier|
    ensures i < |l.positions| && l.positions[i].state == Active
    ensures l.tier[k].activatedAt == l.positions[i].activatedAt && 0 < l.pool.tierSize
  {
    assert l.tier[k] in l.tier;
    assert Member(l.positions, l.tier[k]);
    i := l.tier[k].position;
  }

  // ---- The weight freeze ----

  /** While a batch is open, every instruction that would move weight or the target, and a second
      batch, is refused. */
  lemma FrozenRefuses(l: Ledger, a: Action)
    requires Shape(l) && |l.pool.blanks| == 3 && 0 < l.pool.openBatches
    requires MovesWeight(l, a) || Retargets(l.pool, a) || a.CommitBatch?
    ensures Handle(l, a).Err?
  {
    hide Index.WellFormed;
    hide Depart;
    hide ExitPayout;
    hide DepartSeized;
    hide ValidateAdmission;
    hide ValidConfig;
    hide SettleEvicted;
  }

  /** The index, and the fields a draw's domain is computed from, are the same. */
  ghost predicate SameDomain(l: Ledger, after: Ledger) {
    after.index == l.index && SameTarget(l.pool, after.pool) && after.pool.openBatches == l.pool.openBatches
  }

  lemma QuietStepKeepsIndex(l: Ledger, a: Action)
    requires Inv(l) && !MovesWeight(l, a) && !a.CommitBatch? && !a.Roll?
    ensures Step(l, a).index == l.index && Step(l, a).pool.openBatches == l.pool.openBatches
  {
    ShapeOf(l);
    hide Inv;
    hide Shape;
    hide Approve;
    hide Withdraw;
    hide RecordValue;
    hide CloseSeized;
    hide UpdateTier;
    hide UpdateConfig;
    hide Accrue;
    if Handle(l, a).Ok? {
      match a
      case SeizePosition(i, arrangeable, now) =>
        SeizedExists(l, i, arrangeable, now);
        SeizeKeepsIndex(l, i, arrangeable, now);
      case PromoteMember(i, supplied) => PromoteKeepsIndex(l, i, supplied);
      case ChangeConfig(update, supplied) => ConfigKeepsIndex(l, update, supplied);
      case AccrueFee(fee) => AccrueKeepsIndex(l, fee);
      case _ =>
    }
  }

  lemma SeizeKeepsIndex(l: Ledger, i: nat, arrangeable: bool, now: i64)
    requires Shape(l) && CloseSeized(l, i, arrangeable, now).Ok? && l.positions[i].state != Active
    ensures var after := CloseSeized(l, i, arrangeable, now).value;
            after.index == l.index && after.pool.openBatches == l.pool.openBatches
  {
    hide Index.WellFormed;
    hide DepartSeized;
  }

  lemma PromoteKeepsIndex(l: Ledger, i: nat, supplied: seq<nat>)
    requires Shape(l) && UpdateTier(l, i, supplied).Ok?
    ensures var after := UpdateTier(l, i, supplied).value;
            after.index == l.index && after.pool.openBatches == l.pool.openBatches
  {
    hide Index.WellFormed;
    hide PositionFeePayout;
    hide Promote;
  }

  lemma ConfigKeepsIndex(l: Ledger, update: ConfigUpdate, supplied: seq<nat>)
    requires UpdateConfig(l, update, supplied).Ok?
    ensures var after := UpdateConfig(l, update, supplied).value;
            after.index == l.index && after.pool.openBatches == l.pool.openBatches
  {
    hide ValidConfig;
    hide SettleEvicted;
  }

  lemma AccrueKeepsIndex(l: Ledger, fee: u64)
    requires |l.pool.blanks| == 3 && Accrue(l, fee).Ok?
    ensures var after := Accrue(l, fee).value;
            after.index == l.index && after.pool.openBatches == l.pool.openBatches
  {
    hide AccumulatorUnit;
    hide BpsShare;
  }

  /** One transaction while a batch is open leaves the draw domain as it was. */
  lemma FrozenStep(l: Ledger, a: Action)
    requires Inv(l) && 0 < l.pool.openBatches && !a.Roll?
    ensures SameDomain(l, Step(l, a))
  {
    ShapeOf(l);
    hide Inv;
    hide Shape;
    hide Handle;
    if MovesWeight(l, a) || Retargets(l.pool, a) || a.CommitBatch? {
      FrozenRefuses(l, a);
    } else {
      QuietStepKeepsIndex(l, a);
      QuietStepKeepsTarget(l, a);
    }
  }

  /** An active position that is only promoted stays active. */
  lemma PromotedStaysActive(l: Ledger, i: nat, supplied: seq<nat>)
    requires Inv(l) && UpdateTier(l, i, supplied).Ok?
    ensures i < |l.positions| == |UpdateTier(l, i, supplied).value.positions|
    ensures UpdateTier(l, i, supplied).value.positions[i].state == Active
  {
    ShapeOf(l);
    InvParts(l);
    CrossKeeps(l, i, supplied);
    hide Inv;
    hide Cross;
  }

  lemma QuietTargetIsPromoted(l: Ledger, a: Action)
    requires Shape(l) && |l.pool.blanks| == 3 && Handle(l, a).Ok? && !MovesWeight(l, a)
    requires Target(l, a) < |l.positions| && l.positions[Target(l, a)].state == Active
    ensures a.PromoteMember?
  {
    hide Index.WellFormed;
  }

  /** A transaction that moves no weight keeps every active position active in its slot. */
  lemma QuietStepKeepsActive(l: Ledger, a: Action, k: nat)
    requires Inv(l) && Shape(l) && |l.pool.blanks| == 3 && Handle(l, a).Ok? && !MovesWeight(l, a)
    requires k < |l.positions| && l.positions[k].state == Active
    ensures k < |Handle(l, a).value.positions|
    ensures var q := Handle(l, a).value.positions[k];
            q.state == Active && q.slotIndex == l.positions[k].slotIndex
  {
    hide Settles;
    if !a.DepositBy? && !a.AccrueFee? {
      HandledSettles(l, a);
      if k == Target(l, a) {
        QuietTargetIsPromoted(l, a);
        PromotedStaysActive(l, k, a.supplied);
        hide UpdateTier;
      } else {
        hide Handle;
      }
    }
    hide Inv;
  }

  /** Position `i` is the one draw `r` selects. */
  ghost predicate Wins(l: Ledger, r: u64, i: nat) {
    && i < |l.positions| && l.positions[i].state == Active
    && Index.PrefixSearch(l.index, r) == Some(l.positions[i].slotIndex)
  }

  lemma FrozenWinner(l: Ledger, a: Action, r: u64, i: nat)
    requires Inv(l) && 0 < l.pool.openBatches && !a.Roll?
    ensures Wins(l, r, i) <==> Wins(Step(l, a), r, i)
  {
    ShapeOf(l);
    FrozenStep(l, a);
    hide Inv;
    hide Shape;
    hide SameTarget;
    if Handle(l, a).Ok? {
      if MovesWeight(l, a) {
        FrozenRefuses(l, a);
      } else {
        hide Index.PrefixSearch;
        if i < |l.positions| && l.positions[i].state == Active {
          QuietStepKeepsActive(l, a, i);
        }
        if i < |Handle(l, a).value.positions| && Handle(l, a).value.positions[i].state == Active {
          HandledActives(l, a, i);
        }
      }
    }
    hide Handle;
  }

  /** From the moment a batch is open until its life is next advanced, whatever else happens: the index,
      the blanks, the faces and the target stand still, and every draw selects the position it
      selected. */
  lemma {:induction false} FrozenRun(pool: Pool, capacity: u32, before: seq<Action>, during: seq<Action>,
                                     r: u64, i: nat)
    requires ValidConfig(pool) && 0 < Run(pool, capacity, before).pool.openBatches
    requires forall k :: 0 <= k < |during| ==> !during[k].Roll?
    ensures SameDomain(Run(pool, capacity, before), Run(pool, capacity, before + during))
    ensures Wins(Run(pool, capacity, before), r, i) <==> Wins(Run(pool, capacity, before + during), r, i)
    decreases |during|
  {
    hide Run;
    hide Inv;
    hide Wins;
    hide Step;
    if during == [] {
      assert before + during == before;
    } else {
      var front, a := during[..|during| - 1], during[|during| - 1];
      FrozenRun(pool, capacity, before, front, r, i);
      RunAppends(pool, capacity, before + front, a);
      assert before + during == (before + front) + [a];
      FrozenStep(Run(pool, capacity, before + front), a);
      FrozenWinner(Run(pool, capacity, before + front), a, r, i);
    }
  }

  /** A commit opens the batch and leaves the draw domain where it is. */
  lemma CommitKeepsDomain(l: Ledger, n: u8, r: u64, i: nat)
    requires Inv(l) && CommitRolls(l, n).Ok?
    ensures var after := Step(l, CommitBatch(n));
            && l.pool.openBatches == 0 && after.pool.openBatches == 1
            && after.index == l.index && SameTarget(l.pool, after.pool)
            && (Wins(l, r, i) <==> Wins(after, r, i))
  {
    ShapeOf(l);
    LedgerEffects.CommitOpens(l, n);
    hide Inv;
    hide Shape;
    hide CommitRolls;
    hide Index.PrefixSearch;
  }

  /** From the state a batch is committed in, through whatever happens until the batch's life is next
      advanced, every draw selects the position it would have selected before the commit. */
  lemma CommittedRun(pool: Pool, capacity: u32, before: seq<Action>, n: u8, during: seq<Action>, r: u64, i: nat)
    requires ValidConfig(pool)
    requires CommitRolls(Run(pool, capacity, before), n).Ok?
    requires forall k :: 0 <= k < |during| ==> !during[k].Roll?
    ensures Run(pool, capacity, before).pool.openBatches == 0
    ensures Run(pool, capacity, before + [CommitBatch(n)] + during).pool.openBatches == 1
    ensures var l, later := Run(pool, capacity, before), Run(pool, capacity, before + [CommitBatch(n)] + during);
            && later.index == l.index && SameTarget(l.pool, later.pool)
            && (Wins(l, r, i) <==> Wins(later, r, i))
  {
    hide Run;
    hide Inv;
    hide Step;
    hide CommitRolls;
    hide Wins;
    hide ValidConfig;
    RunAppends(pool, capacity, before, CommitBatch(n));
    CommitKeepsDomain(Run(pool, capacity, before), n, r, i);
    FrozenRun(pool, capacity, before + [CommitBatch(n)], during, r, i);
  }
}
