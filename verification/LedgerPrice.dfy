/** Every instruction that moves weight leaves the blanks on target for the weight it leaves. */
module LedgerPrice {
  import opened Machine
  import opened FeeMath
  import opened State
  import opened Accounting
  import opened Rebalance
  import opened RebalanceTheorems
  import opened Ledger
  import opened LedgerInvariant
  import opened LedgerSteps
  import opened LedgerTheorems
  import Index = IndexSpec

  /** The stored blanks are what evaluation asks for at the stored weight and count. */
  ghost predicate OnTarget(pool: Pool) {
    && |pool.blankFaces| == 3 && |pool.blanks| == 3
    && Evaluate(pool.nReal, pool.wReal, pool.blankFaces, pool.ticketTarget)
       == Ok(BlankTargets(pool.blanks[0], pool.blanks[1], pool.blanks[2]))
  }

  lemma RebalancedOnTarget(pool: Pool)
    requires |pool.blankFaces| == 3 && Rebalanced(pool).Ok?
    ensures OnTarget(Rebalanced(pool).value)
  {
    hide Evaluate;
  }

  lemma DepartOnTarget(pool: Pool, wallet: Wallet, value: u64)
    requires |pool.blankFaces| == 3 && Depart(pool, wallet, value).Ok?
    ensures OnTarget(Depart(pool, wallet, value).value.0)
  {
    hide Evaluate;
    hide WeightOf;
  }

  lemma ApproveOnTarget(l: Ledger, i: nat, att: Attestation, now: i64, supplied: seq<nat>)
    requires Inv(l) && Approve(l, i, att, now, supplied).Ok?
    ensures OnTarget(Approve(l, i, att, now, supplied).value.pool)
  {
    ShapeOf(l);
    hide Inv;
    hide Approve;
    hide Cross;
    hide Rebalanced;
    hide OnTarget;
    ApproveIsCross(l, i, att, now, supplied);
    RebalancedOnTarget(Cross(ActivatedLedger(l, i, att, now), i, supplied).value.0.pool);
  }

  lemma ExitOnTarget(pool: Pool, p: Position, wallet: Wallet, accTier: u128, now: i64)
    requires |pool.blankFaces| == 3 && ApplyWithdraw(pool, p, wallet, accTier, now).Ok?
    ensures OnTarget(ApplyWithdraw(pool, p, wallet, accTier, now).value.pool)
  {
    hide Depart;
    hide ExitPayout;
    hide OnTarget;
    var paid := ExitPayout(pool, p, accTier).value;
    DepartOnTarget(pool.(owedFees := pool.owedFees - paid), wallet, p.recordedValue);
  }

  lemma WithdrawOnTarget(l: Ledger, i: nat, now: i64, supplied: seq<nat>)
    requires Inv(l) && Withdraw(l, i, now, supplied).Ok?
    ensures OnTarget(Withdraw(l, i, now, supplied).value.pool)
  {
    ShapeOf(l);
    hide OnTarget;
    hide Inv;
    hide Withdraw;
    WithdrawPool(l, i, now, supplied);
    ExitOnTarget(l.pool, l.positions[i], WalletOf(l.wallets, l.positions[i].depositor), l.accTier, now);
  }

  lemma RecordingOnTarget(pool: Pool, p: Position, wallet: Wallet, value: u64, now: i64)
    requires |pool.blankFaces| == 3 && ApplyRecordValue(pool, p, wallet, value, now).Ok?
    ensures OnTarget(ApplyRecordValue(pool, p, wallet, value, now).value.pool)
  {
    hide WeightOf;
    hide Evaluate;
    hide PositionFeePayout;
  }

  lemma RecordOnTarget(l: Ledger, i: nat, value: u64, now: i64, supplied: seq<nat>)
    requires Inv(l) && RecordValue(l, i, value, now, supplied).Ok?
    ensures OnTarget(RecordValue(l, i, value, now, supplied).value.pool)
  {
    ShapeOf(l);
    RecordPool(l, i, value, now, supplied);
    RecordingOnTarget(l.pool, l.positions[i], WalletOf(l.wallets, l.positions[i].depositor), value, now);
    hide OnTarget;
    hide ApplyRecordValue;
    hide RecordValue;
    hide Inv;
  }

  lemma SeizeOnTarget(l: Ledger, i: nat, arrangeable: bool, now: i64)
    requires Inv(l) && CloseSeized(l, i, arrangeable, now).Ok? && l.positions[i].state == Active
    ensures OnTarget(CloseSeized(l, i, arrangeable, now).value.pool)
  {
    ShapeOf(l);
    DepartOnTarget(l.pool, WalletOf(l.wallets, l.positions[i].depositor), l.positions[i].recordedValue);
    hide Depart;
    hide OnTarget;
    hide PositionFeePayout;
    hide Inv;
  }

  ghost predicate MovesWeight(l: Ledger, a: Action) {
    match a
    case ApproveDeposit(i, att, now, supplied) => true
    case WithdrawPosition(i, now, supplied, payable) => true
    case RecordValueOf(i, value, now, supplied) => true
    case SeizePosition(i, arrangeable, now) => i < |l.positions| && l.positions[i].state == Active
    case _ => false
  }

  /** After any run, an instruction that moves weight leaves exactly the blanks evaluation asks for
      at the new weight and count, so the optimality results hold of the pool it leaves. */
  lemma WeightMovesRetarget(l: Ledger, a: Action)
    requires Inv(l) && MovesWeight(l, a) && Handle(l, a).Ok?
    ensures OnTarget(Handle(l, a).value.pool)
  {
    hide Approve;
    hide Withdraw;
    hide RecordValue;
    hide CloseSeized;
    hide OnTarget;
    match a
    case ApproveDeposit(i, att, now, supplied) => ApproveOnTarget(l, i, att, now, supplied);
    case WithdrawPosition(i, now, supplied, payable) => WithdrawOnTarget(l, i, now, supplied);
    case RecordValueOf(i, value, now, supplied) => RecordOnTarget(l, i, value, now, supplied);
    case SeizePosition(i, arrangeable, now) => SeizeOnTarget(l, i, arrangeable, now);
  }

  // ---- Which pools are on target ----

  /** A configuration change that moves what the stored blanks were evaluated against. */
  predicate Retargets(pool: Pool, a: Action) {
    a.ChangeConfig? && ((a.update.BlankFaces? && a.update.faces != pool.blankFaces)
                        || (a.update.Pricing? && a.update.ticketTarget != pool.ticketTarget))
  }

  ghost predicate SameTarget(pool: Pool, other: Pool) {
    && other.nReal == pool.nReal && other.wReal == pool.wReal && other.blanks == pool.blanks
    && other.blankFaces == pool.blankFaces && other.ticketTarget == pool.ticketTarget
  }

  /** On target is about five fields. */
  lemma TargetFrame(pool: Pool, other: Pool)
    requires OnTarget(pool) && SameTarget(pool, other)
    ensures OnTarget(other)
  {
    hide Evaluate;
  }

  lemma PromoteSameTarget(l: Ledger, i: nat, supplied: seq<nat>)
    requires Shape(l) && UpdateTier(l, i, supplied).Ok?
    ensures SameTarget(l.pool, UpdateTier(l, i, supplied).value.pool)
  {
    TierStepsKeepPool(l, i, l.positions, supplied);
    hide Cross;
    hide Index.WellFormed;
  }

  lemma ConfigSameTarget(l: Ledger, update: ConfigUpdate, supplied: seq<nat>)
    requires UpdateConfig(l, update, supplied).Ok? && !Retargets(l.pool, ChangeConfig(update, supplied))
    ensures SameTarget(l.pool, UpdateConfig(l, update, supplied).value.pool)
  {
    hide SettleEvicted;
    hide ValidConfig;
  }

  lemma AccrueSameTarget(l: Ledger, fee: u64)
    requires |l.pool.blanks| == 3 && Accrue(l, fee).Ok?
    ensures SameTarget(l.pool, Accrue(l, fee).value.pool)
  {
    hide AccumulatorUnit;
    hide BpsShare;
  }

  lemma SeizeSameTarget(l: Ledger, i: nat, arrangeable: bool, now: i64)
    requires Shape(l) && CloseSeized(l, i, arrangeable, now).Ok? && l.positions[i].state != Active
    ensures SameTarget(l.pool, CloseSeized(l, i, arrangeable, now).value.pool)
  {
    hide Index.WellFormed;
    hide DepartSeized;
  }

  lemma QuietStepKeepsTarget(l: Ledger, a: Action)
    requires Inv(l) && !MovesWeight(l, a) && !Retargets(l.pool, a)
    ensures SameTarget(l.pool, Step(l, a).pool)
  {
    ShapeOf(l);
    hide Inv;
    hide Shape;
    hide SameTarget;
    if Handle(l, a).Ok? {
      match a
      case SeizePosition(i, arrangeable, now) =>
        SeizedExists(l, i, arrangeable, now);
        SeizeSameTarget(l, i, arrangeable, now);
      case PromoteMember(i, supplied) => PromoteSameTarget(l, i, supplied);
      case ChangeConfig(update, supplied) => ConfigSameTarget(l, update, supplied);
      case AccrueFee(fee) => AccrueSameTarget(l, fee);
      case _ => IdleStepSameTarget(l, a);
    } else {
      assert SameTarget(l.pool, l.pool);
    }
  }

  /** Requests, claims, sweeps, batches and pauses are no part of what the blanks are solved from. */
  lemma IdleStepSameTarget(l: Ledger, a: Action)
    requires Shape(l) && |l.pool.blanks| == 3 && Handle(l, a).Ok? && !MovesWeight(l, a)
    requires !a.SeizePosition? && !a.PromoteMember? && !a.ChangeConfig? && !a.AccrueFee?
    ensures SameTarget(l.pool, Handle(l, a).value.pool)
  {
    hide Shape;
  }

  lemma SeizedExists(l: Ledger, i: nat, arrangeable: bool, now: i64)
    requires Shape(l) && CloseSeized(l, i, arrangeable, now).Ok?
    ensures i < |l.positions|
  {
    hide Index.WellFormed;
    hide DepartSeized;
  }

  /** One transaction keeps a pool on target unless it changes the faces or the target. */
  lemma StepKeepsTarget(l: Ledger, a: Action)
    requires Inv(l) && OnTarget(l.pool) && !Retargets(l.pool, a)
    ensures OnTarget(Step(l, a).pool)
  {
    hide OnTarget;
    hide Handle;
    hide MovesWeight;
    hide Inv;
    if MovesWeight(l, a) {
      ShapeOf(l);
      if Handle(l, a).Ok? {
        WeightMovesRetarget(l, a);
      }
    } else {
      QuietStepKeepsTarget(l, a);
      TargetFrame(l.pool, Step(l, a).pool);
    }
  }

  /** Since the last change of faces or target, if there ever was one, weight has moved. */
  ghost predicate Targeted(pool: Pool, capacity: u32, actions: seq<Action>)
    requires ValidConfig(pool)
    decreases |actions|
  {
    actions == [] ||
    (var front, a := actions[..|actions| - 1], actions[|actions| - 1];
     var before := Run(pool, capacity, front);
     ShapeOf(before);
     if MovesWeight(before, a) && Handle(before, a).Ok? then true
     else Targeted(pool, capacity, front) && !Retargets(before.pool, a))
  }

  /** Any run ends on target when weight has moved since its last change of faces or target. */
  lemma {:induction false} RunOnTarget(pool: Pool, capacity: u32, actions: seq<Action>)
    requires ValidConfig(pool) && Targeted(pool, capacity, actions)
    ensures OnTarget(Run(pool, capacity, actions).pool)
    decreases |actions|
  {
    if actions != [] {
      var front, a := actions[..|actions| - 1], actions[|actions| - 1];
      var before := Run(pool, capacity, front);
      ShapeOf(before);
      hide OnTarget;
      hide MovesWeight;
      hide Handle;
      hide Inv;
      if MovesWeight(before, a) && Handle(before, a).Ok? {
        WeightMovesRetarget(before, a);
      } else {
        RunOnTarget(pool, capacity, front);
        StepKeepsTarget(before, a);
      }
    }
  }

  // ---- The price an on-target pool publishes ----

  ghost predicate BlanksFit(pool: Pool) {
    && |pool.blankFaces| == 3 && |pool.blanks| == 3
    && pool.blanks[0] <= U32_MAX && pool.blanks[1] <= U32_MAX && pool.blanks[2] <= U32_MAX
    && pool.nReal + pool.blanks[0] + pool.blanks[1] + pool.blanks[2] <= U64_MAX
  }

  /** The quote over every slot, real or blank. */
  ghost function Quote(pool: Pool): Result<u64>
    requires BlanksFit(pool)
  {
    var slots := pool.nReal + pool.blanks[0] + pool.blanks[1] + pool.blanks[2];
    var aggregate :- AggregateUpTo(pool.wReal, pool.blanks, pool.blankFaces, 3);
    TicketQuote(slots, aggregate)
  }

  /** The market an on-target pool solves, and the blanks that solve it. */
  lemma SolvedByTarget(pool: Pool) returns (m: Market, b: BlankTargets)
    requires OnTarget(pool) && 0 < pool.nReal
    ensures InWidth(m) && m.t == pool.ticketTarget && m.w == pool.wReal && m.n == pool.nReal
    ensures WeightOf(pool.blankFaces[0]) == Ok(m.w1) && WeightOf(pool.blankFaces[1]) == Ok(m.w2)
    ensures WeightOf(pool.blankFaces[2]) == Ok(m.w5)
    ensures Solve(m) == Ok(b) && pool.blanks == [b.b1, b.b2, b.b5] && BlanksFit(pool)
    ensures Evaluate(m.n, m.w, pool.blankFaces, m.t) == Ok(b)
  {
    m := Market(pool.ticketTarget, pool.wReal, pool.nReal, WeightOf(pool.blankFaces[0]).value,
                WeightOf(pool.blankFaces[1]).value, WeightOf(pool.blankFaces[2]).value);
    b := BlankTargets(pool.blanks[0], pool.blanks[1], pool.blanks[2]);
    SolvedCounts(m);
    hide Solve;
    hide WeightOf;
  }

  /** The aggregate of a solved market fits, and no slot in it weighs nothing. */
  lemma SolvedAggregate(m: Market, b: BlankTargets, faces: seq<u64>)
    requires |faces| == 3 && InWidth(m) && 0 < m.n <= m.w && Solve(m) == Ok(b)
    requires WeightOf(faces[0]) == Ok(m.w1) && WeightOf(faces[1]) == Ok(m.w2) && WeightOf(faces[2]) == Ok(m.w5)
    ensures b.b1 <= U32_MAX && b.b2 <= U32_MAX && b.b5 <= U32_MAX
    ensures AggregateUpTo(m.w, [b.b1, b.b2, b.b5], faces, 3) == Ok(Weighted(m, b))
    ensures 0 < Count(m, b) <= Weighted(m, b) <= U128_MAX
  {
    var k := BestOfIsLeast(m, 8);
    SolvedCounts(m);
    LastIsHeaviest(m, k);
    MulMonotone(m.w1, 1, b.b1);
    MulMonotone(m.w2, 1, b.b2);
    MulMonotone(m.w5, 1, b.b5);
    hide Solve;
    hide BestOf;
    hide WeightOf;
    AggregateReaches(m, b, faces);
  }

  /** One denomination more. */
  lemma AggregateNext(w: u128, blanks: seq<u32>, faces: seq<u64>, d: nat, total: u128, weight: u64, part: nat)
    requires |blanks| == |faces| == 3 && 0 < d <= 3
    requires AggregateUpTo(w, blanks, faces, d - 1) == Ok(total) && WeightOf(faces[d - 1]) == Ok(weight)
    requires part == blanks[d - 1] * weight && total + part <= U128_MAX
    ensures AggregateUpTo(w, blanks, faces, d) == Ok(total + part)
  {
    hide WeightOf;
    assert part == weight * blanks[d - 1];
  }

  lemma AggregateOfThree(w: u128, b1: u32, b2: u32, b5: u32, faces: seq<u64>, w1: u64, w2: u64, w5: u64,
                         x: nat, y: nat, z: nat)
    requires |faces| == 3
    requires WeightOf(faces[0]) == Ok(w1) && WeightOf(faces[1]) == Ok(w2) && WeightOf(faces[2]) == Ok(w5)
    requires x == b1 * w1 && y == b2 * w2 && z == b5 * w5 && w + x + y + z <= U128_MAX
    ensures AggregateUpTo(w, [b1, b2, b5], faces, 3) == Ok(w + x + y + z)
  {
    var blanks := [b1, b2, b5];
    assert AggregateUpTo(w, blanks, faces, 0) == Ok(w);
    hide AggregateUpTo;
    hide WeightOf;
    AggregateNext(w, blanks, faces, 1, w, w1, x);
    AggregateNext(w, blanks, faces, 2, w + x, w2, y);
    AggregateNext(w, blanks, faces, 3, w + x + y, w5, z);
  }

  lemma AggregateReaches(m: Market, b: BlankTargets, faces: seq<u64>)
    requires |faces| == 3 && InWidth(m) && b.b1 <= U32_MAX && b.b2 <= U32_MAX && b.b5 <= U32_MAX
    requires WeightOf(faces[0]) == Ok(m.w1) && WeightOf(faces[1]) == Ok(m.w2) && WeightOf(faces[2]) == Ok(m.w5)
    requires Weighted(m, b) <= U128_MAX
    ensures AggregateUpTo(m.w, [b.b1, b.b2, b.b5], faces, 3) == Ok(Weighted(m, b))
  {
    hide AggregateUpTo;
    hide WeightOf;
    AggregateOfThree(m.w, b.b1, b.b2, b.b5, faces, m.w1, m.w2, m.w5, b.b1 * m.w1, b.b2 * m.w2, b.b5 * m.w5);
  }

  lemma QuoteFits(slots: u64, weight: u128)
    requires 0 < slots <= weight
    ensures TicketQuote(slots, weight).Ok? && TicketQuote(slots, weight).value <= WEIGHT_C
  {
    MulMonotone(U64_MAX, slots, WEIGHT_C);
    MulMonotone(weight, slots, WEIGHT_C);
    DivBrackets(WEIGHT_C * slots, weight);
    if WEIGHT_C * slots / weight > WEIGHT_C {
      MulMonotone(WEIGHT_C * slots / weight, WEIGHT_C + 1, weight);
    }
  }

  /** A reachable pool on target publishes a quote exactly when it holds a position. */
  lemma QuoteExistsIff(l: Ledger)
    requires Inv(l) && OnTarget(l.pool)
    ensures BlanksFit(l.pool) && (Quote(l.pool).Ok? <==> 0 < l.pool.nReal)
    ensures Quote(l.pool).Ok? ==> Quote(l.pool).value <= WEIGHT_C
  {
    hide OnTarget;
    hide BlanksFit;
    hide Quote;
    WeightIsAttainable(l);
    hide Inv;
    if 0 < l.pool.nReal {
      HeldPoolQuoted(l.pool);
    } else {
      EmptyPoolUnquoted(l.pool);
    }
  }

  lemma HeldPoolQuoted(pool: Pool)
    requires OnTarget(pool) && 0 < pool.nReal <= pool.wReal
    ensures BlanksFit(pool) && Quote(pool).Ok? && Quote(pool).value <= WEIGHT_C
  {
    hide WeightOf;
    hide TicketQuote;
    hide AggregateUpTo;
    hide Solve;
    hide Weighted;
    hide Evaluate;
    var m, b := SolvedByTarget(pool);
    SolvedAggregate(m, b, pool.blankFaces);
    QuoteFits(Count(m, b), Weighted(m, b));
  }

  lemma EmptyPoolUnquoted(pool: Pool)
    requires OnTarget(pool) && pool.nReal == 0 && pool.wReal == 0
    ensures BlanksFit(pool) && Quote(pool).Err?
  {
    hide WeightOf;
    assert AggregateUpTo(0, pool.blanks, pool.blankFaces, 0) == Ok(0);
    assert AggregateUpTo(0, pool.blanks, pool.blankFaces, 1).Ok? ==>
             AggregateUpTo(0, pool.blanks, pool.blankFaces, 1).value == 0;
    assert AggregateUpTo(0, pool.blanks, pool.blankFaces, 2).Ok? ==>
             AggregateUpTo(0, pool.blanks, pool.blankFaces, 2).value == 0;
  }

  /** The real positions alone average at least the target. */
  ghost predicate Undershoots(pool: Pool) {
    pool.ticketTarget * pool.wReal <= WEIGHT_C * pool.nReal
  }

  /** `q` is the quote over an aggregate of `weight`, and misses the target by at most half a middle
      blank's shift per unit of weight, and one unit. */
  ghost predicate QuotedWithin(pool: Pool, weight: u128, q: u64) {
    && BlanksFit(pool) && Quote(pool) == Ok(q)
    && AggregateUpTo(pool.wReal, pool.blanks, pool.blankFaces, 3) == Ok(weight)
    && QuoteMisses(pool.ticketTarget, Weight(pool.blankFaces[1]), weight, q)
  }

  lemma UndershootingBase(pool: Pool, m: Market)
    requires Undershoots(pool) && m.t == pool.ticketTarget && m.w == pool.wReal && m.n == pool.nReal
    ensures Base(m) <= 0
  {
  }

  lemma PoolPrice(pool: Pool) returns (weight: u128, q: u64)
    requires OnTarget(pool) && 0 < pool.nReal <= pool.wReal && Undershoots(pool)
    ensures QuotedWithin(pool, weight, q)
  {
    hide Undershoots;
    hide Base;
    hide Weighted;
    hide WeightOf;
    hide QuoteMisses;
    hide TicketQuote;
    hide AggregateUpTo;
    hide Solve;
    hide Evaluate;
    var m, b := SolvedByTarget(pool);
    UndershootingBase(pool, m);
    SolvedAggregate(m, b, pool.blankFaces);
    QuoteFits(Count(m, b), Weighted(m, b));
    weight, q := Weighted(m, b), Quote(pool).value;
    PublishedQuote(m, pool.blankFaces, q);
  }

  /** A reachable pool on target, while its real positions do not overshoot, publishes a quote within
      half a middle blank's shift per unit of weight, and one unit, of the ticket target. */
  lemma PriceOnTarget(l: Ledger) returns (weight: u128, q: u64)
    requires Inv(l) && OnTarget(l.pool) && 0 < l.pool.nReal && Undershoots(l.pool)
    ensures QuotedWithin(l.pool, weight, q)
  {
    hide OnTarget;
    hide Undershoots;
    hide QuotedWithin;
    WeightIsAttainable(l);
    weight, q := PoolPrice(l.pool);
    hide Inv;
  }
}
