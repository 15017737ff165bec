/** Runs that reach the states the program's comments rule out. */
module LedgerWitnesses {
  import opened Machine
  import opened FeeMath
  import opened State
  import opened Accounting
  import opened Rebalance
  import opened RebalanceTheorems
  import opened TierSpec
  import opened TierResolver
  import opened Ledger
  import opened LedgerInvariant
  import opened LedgerSteps
  import opened LedgerCloses
  import opened LedgerTheorems
  import opened LedgerLife
  import opened LedgerRecord
  import opened LedgerPrice
  import opened LedgerUndo
  import LedgerBest
  import Index = IndexSpec
  import Sums

  // ---- A configuration that strands positions ----

  /** While the middle face does not outweigh the target, no rebalance over positions succeeds: an
      active position can neither be withdrawn nor seized unless it is the last one. */
  lemma LightFaceStrands(l: Ledger, i: nat)
    requires Inv(l) && i < |l.positions| && l.positions[i].state == Active && 1 < l.pool.nReal
    requires l.pool.blankFaces[1] > WEIGHT_C || l.pool.ticketTarget * (WEIGHT_C / l.pool.blankFaces[1]) <= WEIGHT_C
    ensures forall now, supplied :: Withdraw(l, i, now, supplied).Err?
    ensures forall arrangeable, now :: CloseSeized(l, i, arrangeable, now).Err?
  {
    DepartSucceedsIff(l, i, l.pool.owedFees);
    assert !CanRebalance(Remaining(l.pool, l.positions[i].recordedValue));
    forall now: i64, supplied: seq<nat>
      ensures Withdraw(l, i, now, supplied).Err?
    {
      WithdrawSucceedsIff(l, i, now, supplied);
    }
    forall arrangeable: bool, now: i64
      ensures CloseSeized(l, i, arrangeable, now).Err?
    {
      SeizeSucceedsIff(l, i, arrangeable, now);
    }
    hide Inv;
    hide Withdraw;
    hide CloseSeized;
    hide CanRebalance;
  }

  const LARGE_FLOOR: u64 := 800_000_000_000_000_000

  lemma StrandsEverybody(l: Ledger)
    requires Inv(l) && 1 < l.pool.nReal && l.pool.blankFaces[1] == LARGE_FACE && l.pool.ticketTarget == LARGE_TARGET
    ensures Shape(l)
    ensures forall i, now, supplied :: 0 <= i < |l.positions| ==> Withdraw(l, i, now, supplied).Err?
  {
    ShapeOf(l);
    DivUnique(WEIGHT_C, LARGE_FACE, 1);
    forall i: nat, now: i64, supplied: seq<nat> | i < |l.positions|
      ensures Withdraw(l, i, now, supplied).Err?
    {
      hide Withdraw;
      if l.positions[i].state == Active {
        LightFaceStrands(l, i);
      } else {
        WithdrawSucceedsIff(l, i, now, supplied);
      }
      hide Inv;
    }
  }

  lemma PlainUpdate(l: Ledger, update: ConfigUpdate)
    requires Inv(l) && !update.TierSize? && l.pool.openBatches == 0 && ValidConfig(Configured(l.pool, update))
    ensures UpdateConfig(l, update, []) == Ok(l.(pool := Configured(l.pool, update)))
    ensures Inv(l.(pool := Configured(l.pool, update)))
  {
    ConfigKeeps(l, update, []);
    hide Inv;
    hide ValidConfig;
  }

  /** The guard lets an administrator bring that about, three changes from any ordinary configuration. */
  lemma ConfigCanStrand(l: Ledger) returns (stuck: Ledger)
    requires Inv(l) && l.pool.openBatches == 0 && l.pool.ticketTarget < LARGE_TARGET
    ensures var floored := UpdateConfig(l, AdmissionFloor(LARGE_FLOOR), []);
            && floored.Ok?
            && var priced := UpdateConfig(floored.value, Pricing(LARGE_TARGET, LARGE_TARGET, 0), []);
            && priced.Ok? && UpdateConfig(priced.value, BlankFaces([1, LARGE_FACE, 1]), []) == Ok(stuck)
    ensures Inv(stuck) && Shape(stuck) && stuck.positions == l.positions && stuck.pool.nReal == l.pool.nReal
    ensures 1 < l.pool.nReal ==>
              forall i, now, supplied :: 0 <= i < |l.positions| ==> Withdraw(stuck, i, now, supplied).Err?
  {
    assert ValidConfig(l.pool);
    hide Inv;
    hide UpdateConfig;
    hide Withdraw;
    PlainUpdate(l, AdmissionFloor(LARGE_FLOOR));
    var floored := l.(pool := l.pool.(admissionFloor := LARGE_FLOOR));
    PlainUpdate(floored, Pricing(LARGE_TARGET, LARGE_TARGET, 0));
    var priced := floored.(pool := floored.pool.(price := LARGE_TARGET, ticketTarget := LARGE_TARGET, fee := 0));
    PlainUpdate(priced, BlankFaces([1, LARGE_FACE, 1]));
    stuck := priced.(pool := priced.pool.(blankFaces := [1, LARGE_FACE, 1]));
    ShapeOf(stuck);
    if 1 < l.pool.nReal {
      StrandsEverybody(stuck);
    }
  }

  // ---- A saturated pool that keeps a blank ----

  const LARGE_POOL := LAUNCH.(price := LARGE_TARGET, ticketTarget := LARGE_TARGET, fee := 0,
                              blankFaces := [LARGE_FACE, 2_000_000, 2_000_000], admissionFloor := LARGE_FLOOR)

  const LARGE_VALUE: u64 := 900_000_000_000_000_000

  /** Any such pool between a position's arrival and its revaluation can be targeted. */
  lemma LargeTargetable(wReal: nat)
    requires 1 <= wReal <= WEIGHT_C
    ensures Targetable(1, wReal, [LARGE_FACE, 2_000_000, 2_000_000], LARGE_TARGET)
  {
    DivUnique(WEIGHT_C, LARGE_FACE, 1);
    DivUnique(WEIGHT_C, 2_000_000, 500_000_000_000);
  }

  /** A position approved at a large value under a lock, then re-attested at one unit. */
  const LARGE_RUN: seq<Action> := [
    DepositBy(1),
    ApproveDeposit(0, Attestation(LARGE_VALUE, 0, 1), 0, []),
    BeginSweeping,
    RecordValueOf(0, 1, 0, [])
  ]

  lemma LargeAdmissible(pending: Ledger)
    requires pending.pool == LARGE_POOL && pending.positions == [NewPosition(1, 0)]
    requires pending.wallets == map[] && 1 <= |pending.index.leaves|
    ensures Admissible(pending, 0, Attestation(LARGE_VALUE, 0, 1), 0) && Weight(LARGE_VALUE) == 1
  {
    WeightBrackets(LARGE_VALUE, 1);
    LargeTargetable(1);
    hide WeightOf;
    hide Targetable;
  }

  lemma LargeDeposit() returns (pending: Ledger)
    ensures ValidConfig(LARGE_POOL)
    ensures Inv(Genesis(LARGE_POOL, 1)) && Inv(pending) && Deposit(Genesis(LARGE_POOL, 1), 1) == Ok(pending)
    ensures |pending.positions| == 1 && pending.tier == [] && pending.index == Index.Empty(|pending.index.leaves|)
    ensures pending.pool == LARGE_POOL && Admissible(pending, 0, Attestation(LARGE_VALUE, 0, 1), 0)
    ensures Weight(LARGE_VALUE) == 1
  {
    GenesisInv(LARGE_POOL, 1);
    FreshDeposit(LARGE_POOL, 1, 1);
    pending := Deposit(Genesis(LARGE_POOL, 1), 1).value;
    assert Genesis(LARGE_POOL, 1).pool == LARGE_POOL;
    assert |pending.index.leaves| == 1;
    hide Inv;
    hide Deposit;
    hide Genesis;
    hide Index.Empty;
    hide Weight;
    assert pending.positions == [NewPosition(1, 0)];
    LargeAdmissible(pending);
    hide Admissible;
  }

  lemma LargeApproval(pending: Ledger) returns (live: Ledger)
    requires Inv(pending) && |pending.positions| == 1 && pending.tier == []
    requires pending.index == Index.Empty(|pending.index.leaves|) && pending.pool == LARGE_POOL
    requires Admissible(pending, 0, Attestation(LARGE_VALUE, 0, 1), 0) && Weight(LARGE_VALUE) == 1
    ensures Inv(live) && |live.positions| == 1 && live.positions[0].state == Active
    ensures live.positions[0].recordedValue == LARGE_VALUE && live.positions[0].lockUntil == 1
    ensures live.pool == LARGE_POOL.(wReal := 1, nReal := 1, blanks := live.pool.blanks)
    ensures Shape(pending) && Approve(pending, 0, Attestation(LARGE_VALUE, 0, 1), 0, []) == Ok(live)
  {
    FreshApproval(pending, Attestation(LARGE_VALUE, 0, 1), 0);
    ShapeOf(pending);
    live := Approve(pending, 0, Attestation(LARGE_VALUE, 0, 1), 0, []).value;
    hide Approve;
    hide Inv;
    hide Admissible;
    hide Weight;
  }

  lemma LargeRecord(live: Ledger) returns (after: Ledger)
    requires Inv(live) && |live.positions| == 1 && live.positions[0].state == Active
    requires live.positions[0].recordedValue == LARGE_VALUE && live.positions[0].lockUntil == 1
    requires live.pool == LARGE_POOL.(wReal := 1, nReal := 1, blanks := live.pool.blanks, sweepPending := true)
    requires Weight(LARGE_VALUE) == 1
    ensures Shape(live) && RecordValue(live, 0, 1, 0, []) == Ok(after)
    ensures after.pool.wReal == WEIGHT_C && after.pool.nReal == 1 && OnTarget(after.pool)
    ensures after.pool.blankFaces == LARGE_POOL.blankFaces && after.pool.ticketTarget == LARGE_TARGET
  {
    ShapeOf(live);
    WeightBrackets(1, WEIGHT_C);
    LargeTargetable(WEIGHT_C);
    assert !Closes(live.pool, live.positions[0], 1, 0);
    OneWallet(live);
    OneMember(live);
    RecordSucceedsIff(live, 0, 1, 0, []);
    hide Inv;
    hide ApplyRecordValue;
    hide WeightOf;
    hide Targetable;
    hide RecordValue;
    assert Reweighable(live, 0, 1);
    hide Reweighable;
    after := RecordValue(live, 0, 1, 0, []).value;
    RecordOnTarget(live, 0, 1, 0, []);
    RecordPool(live, 0, 1, 0, []);
    RecordingEffect(live.pool, live.positions[0], WalletOf(live.wallets, live.positions[0].depositor), 1, 0);
    hide OnTarget;
  }

  lemma OneWallet(l: Ledger)
    requires Inv(l) && |l.positions| == 1 && l.positions[0].state == Active
    ensures WalletOf(l.wallets, l.positions[0].depositor).activeValue == l.positions[0].recordedValue
  {
    var p := l.positions[0];
    assert l.positions == [] + [p];
    Sums.SumAppend(ValueOwned(p.depositor), [], p);
  }

  lemma OneMember(l: Ledger)
    requires Inv(l) && |l.positions| == 1
    ensures |l.tier| <= 1
  {
    var p := l.positions[0];
    assert l.positions == [] + [p];
    Sums.SumAppend(MemberOf(), [], p);
  }

  /** A run after which the one real position, at the greatest weight, overshoots the target and the
      pool still holds a blank: its face lies below the target without outweighing it. */
  lemma SaturatedRunKeepsBlank()
    ensures ValidConfig(LARGE_POOL)
    ensures var pool := Run(LARGE_POOL, 1, LARGE_RUN).pool;
            && pool.nReal == 1 && pool.wReal == WEIGHT_C
            && pool.ticketTarget * pool.wReal >= WEIGHT_C * pool.nReal
            && OnTarget(pool) && pool.blanks != [0, 0, 0]
  {
    var pending := LargeDeposit();
    var live := LargeApproval(pending);
    var swept := SweptLedger(live);
    var after := LargeRecord(swept);
    KeepsBlank(after.pool);
    hide Run;
    hide Inv;
    hide OnTarget;
    hide Approve;
    hide RecordValue;
    hide Deposit;
    hide BeginSweep;
    hide Genesis;
    hide Leads;
    LeadsDeposit(Genesis(LARGE_POOL, 1), 1, pending);
    LeadsApprove(pending, 0, Attestation(LARGE_VALUE, 0, 1), 0, [], live);
    LeadsSweep(live, swept);
    LeadsRecord(swept, 0, 1, 0, [], after);
    RunOfFour(LARGE_POOL, 1, LARGE_RUN, pending, live, swept, after);
  }

  lemma SweptLedger(live: Ledger) returns (swept: Ledger)
    requires Inv(live) && live.pool == LARGE_POOL.(wReal := 1, nReal := 1, blanks := live.pool.blanks)
    ensures BeginSweep(live) == Ok(swept) && Inv(swept)
    ensures swept.positions == live.positions
    ensures swept.pool == live.pool.(sweepPending := true)
  {
    swept := live.(pool := live.pool.(sweepPending := true));
    hide WeightInv;
    hide WalletInv;
    hide FeeInv;
    hide TierInv;
  }

  lemma KeepsBlank(pool: Pool)
    requires OnTarget(pool) && pool.wReal == WEIGHT_C && pool.nReal == 1
    requires pool.blankFaces == [LARGE_FACE, 2_000_000, 2_000_000] && pool.ticketTarget == LARGE_TARGET
    ensures pool.blanks != [0, 0, 0]
  {
    LargeFaceUnderweighs();
    hide Evaluate;
    hide Solve;
  }

  // ---- A tie the resolver does not see coming ----

  /** Two deposits into a pool whose tier seats one, the later-deposited approved first. */
  function TieRun(first: nat, second: nat, att: Attestation, now: i64): seq<Action> {
    [DepositBy(first), DepositBy(second), ApproveDeposit(1, att, now, [])]
  }

  ghost predicate TwoPending(l: Ledger, pool: Pool, first: nat, second: nat) {
    && l.positions == [NewPosition(first, 0), NewPosition(second, 1)]
    && l.wallets == map[] && l.tier == [] && 2 <= |l.index.leaves| <= U32_MAX
    && ValidConfig(pool) && l.pool == Genesis(pool, 0).pool
  }

  lemma TwoDeposits(pool: Pool, capacity: u32, first: nat, second: nat) returns (one: Ledger, two: Ledger)
    requires ValidConfig(pool) && 2 <= capacity
    ensures Inv(Genesis(pool, capacity)) && Inv(one) && Inv(two) && TwoPending(two, pool, first, second)
    ensures |two.index.leaves| == capacity
    ensures Deposit(Genesis(pool, capacity), first) == Ok(one) && Deposit(one, second) == Ok(two)
  {
    FreshDeposit(pool, capacity, first);
    GenesisInv(pool, capacity);
    one := Deposit(Genesis(pool, capacity), first).value;
    two := Deposit(one, second).value;
    DepositKeeps(one, second);
    hide Inv;
    hide Index.Empty;
    assert two.positions == [NewPosition(first, 0), NewPosition(second, 1)];
  }

  lemma FirstAdmissible(l: Ledger, pool: Pool, first: nat, second: nat, att: Attestation, now: i64)
    requires TwoPending(l, pool, first, second) && Steady(pool, |l.index.leaves|)
    requires Acceptable(pool, second, att, now)
    ensures Admissible(l, 1, att, now)
  {
    var priced := Enlarged(l.pool, att.value);
    hide AlwaysTargetable;
    hide CanRebalance;
    hide WeightOf;
    SteadySame(pool, priced, |l.index.leaves|);
    SteadyRebalances(priced, |l.index.leaves|);
  }

  /** The first of the two approvals: it succeeds and takes the only seat. */
  lemma FirstApproved(l: Ledger, pool: Pool, first: nat, second: nat, att: Attestation, now: i64)
    returns (a: Ledger)
    requires Inv(l) && TwoPending(l, pool, first, second) && Steady(pool, |l.index.leaves|) && pool.tierSize == 1
    requires Acceptable(pool, second, att, now)
    ensures Shape(l) && Approve(l, 1, att, now, []) == Ok(a) && Inv(a)
    ensures |a.positions| == 2 && a.positions[0].state == Pending && a.positions[0].depositor == first
    ensures a.wallets == map[second := Wallet(1, att.value)] && |a.index.leaves| == |l.index.leaves|
    ensures 0 < Weight(att.value) <= WEIGHT_C
    ensures a.pool == l.pool.(wReal := Weight(att.value), nReal := 1, blanks := a.pool.blanks)
    ensures a.tier == [TierEntry(1, att.value, now, 1)]
  {
    ShapeOf(l);
    FirstAdmissible(l, pool, first, second, att, now);
    hide Approve;
    hide Inv;
    hide Cross;
    hide Promote;
    hide Index.Insert;
    hide Index.WellFormed;
    hide WeightOf;
    hide CanRebalance;
    hide Rebalanced;
    hide Steady;
    hide Admissible;
    ApproveSucceedsIff(l, 1, att, now, []);
    a := Approve(l, 1, att, now, []).value;
    ApproveKeeps(l, 1, att, now, []);
    ApprovalEffect(l, 1, att, now, []);
    ApproveIsCross(l, 1, att, now, []);
    var activated := ActivatedLedger(l, 1, att, now);
    LedgerBest.CrossTier(activated, 1, []);
    assert SameCore(l.positions[0], a.positions[0]);
    Index.InsertKeeps(l.index, att.value, activated.pool.wReal);
    OnlySeat(TierEntry(1, att.value, now, 1));
  }

  lemma OnlySeat(c: TierEntry)
    ensures Promote([], 1, c).0 == [c]
  {
    assert InsertRanked([], c) == [c];
  }

  /** The run reaches the ledger in which the first approved holds the only seat. */
  lemma TieReached(pool: Pool, capacity: u32, first: nat, second: nat, att: Attestation, now: i64)
    returns (before: Pool, a: Ledger)
    requires Steady(pool, capacity) && pool.tierSize == 1 && 2 <= capacity && first != second
    requires Acceptable(pool, second, att, now)
    ensures Run(pool, capacity, TieRun(first, second, att, now)) == a && Inv(a)
    ensures before == Genesis(pool, 0).pool && OneSeated(a, before, att, now)
    ensures a.positions[0].depositor == first && |a.index.leaves| == capacity
  {
    hide Run;
    hide Inv;
    hide Approve;
    hide Deposit;
    hide Steady;
    hide Acceptable;
    assert ValidConfig(pool) by { SteadyIsValid(pool, capacity); }
    var one, two := TwoDeposits(pool, capacity, first, second);
    before := two.pool;
    a := FirstApproved(two, pool, first, second, att, now);
    LeadsDeposit(Genesis(pool, capacity), first, one);
    LeadsDeposit(one, second, two);
    LeadsApprove(two, 1, att, now, [], a);
    hide Leads;
    hide Genesis;
    hide ValidConfig;
    RunOfThree(pool, capacity, TieRun(first, second, att, now), one, two, a);
  }

  lemma SteadyIsValid(pool: Pool, capacity: u32)
    requires Steady(pool, capacity)
    ensures ValidConfig(pool)
  {
  }

  /** For every pool with a one-seat tier that can target every market it can hold, and any two
      depositors, there is a run after which the resolver predicts that approving the remaining
      deposit displaces nobody, and an approval that believes it is refused for the account it did
      not bring. */
  lemma SameSecondTieRefused(pool: Pool, capacity: u32, first: nat, second: nat, att: Attestation, now: i64)
    requires Steady(pool, capacity) && pool.tierSize == 1 && 2 <= capacity && first != second
    requires Acceptable(pool, first, att, now) && Acceptable(pool, second, att, now)
    ensures var l := Run(pool, capacity, TieRun(first, second, att, now));
            && Shape(l) && |l.positions| == 2
            && ResolveDisplaced(l.tier, l.pool.tierSize, Activating(att.value)) == None
            && Approve(l, 0, att, now, []) == Err(AccountNotEnoughKeys)
            && Approve(l, 0, att, now, [1]).Ok?
  {
    hide Run;
    hide Inv;
    hide Approve;
    hide Genesis;
    hide ResolveDisplaced;
    hide Steady;
    hide Acceptable;
    hide TieRun;
    var before, a := TieReached(pool, capacity, first, second, att, now);
    SecondRefused(a, before, pool, att, now);
  }

  ghost predicate OneSeated(a: Ledger, before: Pool, att: Attestation, now: i64) {
    && |a.positions| == 2 && a.positions[0].state == Pending && 2 <= |a.index.leaves| <= U32_MAX
    && WalletOf(a.wallets, a.positions[0].depositor) == Wallet(0, 0) && 0 < Weight(att.value) <= WEIGHT_C
    && a.pool == before.(wReal := Weight(att.value), nReal := 1, blanks := a.pool.blanks)
    && a.tier == [TierEntry(1, att.value, now, 1)]
  }

  lemma SecondAdmissible(a: Ledger, before: Pool, pool: Pool, att: Attestation, now: i64)
    requires OneSeated(a, before, att, now) && before == Genesis(pool, 0).pool
    requires Steady(pool, |a.index.leaves|) && Acceptable(pool, a.positions[0].depositor, att, now)
    ensures |a.pool.blankFaces| == 3 && Admissible(a, 0, att, now)
  {
    var priced := Enlarged(a.pool, att.value);
    hide AlwaysTargetable;
    hide CanRebalance;
    hide WeightOf;
    SteadySame(pool, priced, |a.index.leaves|);
    SteadyRebalances(priced, |a.index.leaves|);
  }

  lemma SecondRefused(a: Ledger, before: Pool, pool: Pool, att: Attestation, now: i64)
    requires Inv(a) && OneSeated(a, before, att, now) && before == Genesis(pool, 0).pool && pool.tierSize == 1
    requires Steady(pool, |a.index.leaves|) && Acceptable(pool, a.positions[0].depositor, att, now)
    ensures Shape(a) && ResolveDisplaced(a.tier, a.pool.tierSize, Activating(att.value)) == None
    ensures Approve(a, 0, att, now, []) == Err(AccountNotEnoughKeys)
    ensures Approve(a, 0, att, now, [1]).Ok?
  {
    ShapeOf(a);
    SecondAdmissible(a, before, pool, att, now);
    AdmissibleIff(a, 0, att, now);
    var c := TierEntry(0, att.value, now, 0);
    assert Before(c, a.tier[0]);
    hide Steady;
    hide Admissible;
    ActivatedApproves(a, 0, att, now, []);
    ApproveSucceedsIff(a, 0, att, now, [1]);
    hide Approve;
    hide Inv;
    hide WeightOf;
    hide CanRebalance;
  }

  // ---- Runs by the states they visit ----

  ghost predicate Leads(l: Ledger, a: Action, after: Ledger) {
    Shape(l) && |l.pool.blanks| == 3 && Handle(l, a) == Ok(after)
  }

  lemma LeadsDeposit(l: Ledger, depositor: nat, after: Ledger)
    requires Inv(l) && Deposit(l, depositor) == Ok(after)
    ensures Leads(l, DepositBy(depositor), after)
  {
    ShapeOf(l);
    hide Inv;
    hide Shape;
    hide Deposit;
  }

  lemma LeadsApprove(l: Ledger, i: nat, att: Attestation, now: i64, supplied: seq<nat>, after: Ledger)
    requires Inv(l) && Shape(l) && Approve(l, i, att, now, supplied) == Ok(after)
    ensures Leads(l, ApproveDeposit(i, att, now, supplied), after)
  {
    ShapeOf(l);
    hide Inv;
    hide Shape;
    hide Approve;
  }

  lemma LeadsRecord(l: Ledger, i: nat, value: u64, now: i64, supplied: seq<nat>, after: Ledger)
    requires Inv(l) && Shape(l) && RecordValue(l, i, value, now, supplied) == Ok(after)
    ensures Leads(l, RecordValueOf(i, value, now, supplied), after)
  {
    ShapeOf(l);
    hide Inv;
    hide RecordValue;
    hide ApplyRecordValue;
    hide Index.WellFormed;
    var a := RecordValueOf(i, value, now, supplied);
    assert Handle(l, a) == RecordValue(l, a.i, a.value, a.now, a.supplied);
  }

  lemma LeadsSweep(l: Ledger, after: Ledger)
    requires Inv(l) && BeginSweep(l) == Ok(after)
    ensures Leads(l, BeginSweeping, after)
  {
    ShapeOf(l);
    hide Inv;
    hide Shape;
    hide BeginSweep;
  }

  lemma RunNext(pool: Pool, capacity: u32, actions: seq<Action>, n: nat, l: Ledger, after: Ledger)
    requires ValidConfig(pool) && n < |actions|
    requires Run(pool, capacity, actions[..n]) == l && Leads(l, actions[n], after)
    ensures Run(pool, capacity, actions[..n + 1]) == after
  {
    assert actions[..n + 1][..n] == actions[..n];
    hide Handle;
    hide Inv;
  }

  lemma RunStarts(pool: Pool, capacity: u32, actions: seq<Action>)
    requires ValidConfig(pool)
    ensures Run(pool, capacity, actions[..0]) == Genesis(pool, capacity)
  {
    assert actions[..0] == [];
    hide Inv;
  }

  lemma RunOfThree(pool: Pool, capacity: u32, actions: seq<Action>, a: Ledger, b: Ledger, c: Ledger)
    requires ValidConfig(pool) && |actions| == 3 && Leads(Genesis(pool, capacity), actions[0], a)
    requires Leads(a, actions[1], b) && Leads(b, actions[2], c)
    ensures Run(pool, capacity, actions) == c
  {
    hide Leads;
    hide Run;
    hide Inv;
    RunStarts(pool, capacity, actions);
    RunNext(pool, capacity, actions, 0, Genesis(pool, capacity), a);
    RunNext(pool, capacity, actions, 1, a, b);
    RunNext(pool, capacity, actions, 2, b, c);
    assert actions[..3] == actions;
  }

  lemma RunOfFour(pool: Pool, capacity: u32, actions: seq<Action>, a: Ledger, b: Ledger, c: Ledger, d: Ledger)
    requires ValidConfig(pool) && |actions| == 4 && Leads(Genesis(pool, capacity), actions[0], a)
    requires Leads(a, actions[1], b) && Leads(b, actions[2], c) && Leads(c, actions[3], d)
    ensures Run(pool, capacity, actions) == d
  {
    hide Leads;
    hide Run;
    hide Inv;
    RunStarts(pool, capacity, actions);
    RunNext(pool, capacity, actions, 0, Genesis(pool, capacity), a);
    RunNext(pool, capacity, actions, 1, a, b);
    RunNext(pool, capacity, actions, 2, b, c);
    RunNext(pool, capacity, actions, 3, c, d);
    assert actions[..4] == actions;
  }
}
