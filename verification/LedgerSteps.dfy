/** Every instruction that succeeds keeps the invariant. */
module LedgerSteps {
  import opened Machine
  import opened FeeMath
  import opened State
  import opened Accounting
  import opened TierSpec
  import opened TierTheorems
  import opened Ledger
  import opened LedgerInvariant
  import Index = IndexSpec

  /** The parts of the invariant that do not look at weights. */
  ghost predicate FeesAndTier(l: Ledger) {
    && ValidConfig(l.pool) && IdsOk(l.positions)
    && FeeInv(l.pool.owedFees, l.pool.accEqual, l.accTier, l.positions)
    && TierInv(l.tier, l.positions) && |l.tier| <= l.pool.tierSize
  }

  ghost predicate WeightsAndWallets(l: Ledger) {
    && Index.WellFormed(l.index) && |l.index.leaves| <= U32_MAX
    && WeightInv(l.pool.wReal, l.pool.nReal, l.index.leaves, l.positions)
    && WalletInv(l.wallets, l.positions)
  }

  lemma InvParts(l: Ledger)
    ensures Inv(l) <==> FeesAndTier(l) && WeightsAndWallets(l) && |l.pool.blanks| == 3
  {
  }

  /** What a tier step may touch: the tier, and the fee legs and flags of positions. */
  ghost predicate TierStep(before: Ledger, after: Ledger) {
    && after == before.(tier := after.tier, positions := after.positions)
    && SameCores(before.positions, after.positions)
  }

  lemma TierStepKeepsWeights(before: Ledger, after: Ledger)
    requires WeightsAndWallets(before) && TierStep(before, after)
    ensures WeightsAndWallets(after)
  {
    WeightFrame(before.pool.wReal, before.pool.nReal, before.index.leaves, before.positions, after.positions);
    WalletFrame(before.wallets, before.positions, after.positions);
  }

  lemma WithoutLast(s: seq<TierEntry>)
    requires s != []
    ensures Without(s, |s| - 1) == s[..|s| - 1]
  {
  }

  // ---- Crossing, vacating, filling ----

  /** Cutting the last member off again and settling it keeps fees and tier. */
  lemma CutKeeps(owed: u64, accEqual: u128, accTier: u128, all: seq<TierEntry>, ps: seq<Position>)
    requires TierInv(all, ps) && FeeInv(owed, accEqual, accTier, ps) && all != []
    ensures var n := |all| - 1;
            var e := all[n].position;
            && e < |ps| && ps[e].inTier && LeaveTier(ps[e], accTier).Ok?
            && var qs := ps[e := LeaveTier(ps[e], accTier).value];
            && TierInv(all[..n], qs) && FeeInv(owed, accEqual, accTier, qs) && SameCores(ps, qs)
  {
    hide LeaveTier;
    hide Claim;
    var last := all[|all| - 1];
    assert last in all;
    assert Member(ps, last);
    LeavingKeepsClaim(owed, accEqual, accTier, ps, last.position);
    TierLeaves(all, ps, |all| - 1, LeaveTier(ps[last.position], accTier).value);
    WithoutLast(all);
    hide FeeInv;
    hide TierInv;
  }

  /** An eligible position takes a seat: the fees still cover the claims and the tier is still sound. */
  lemma SeatedKeeps(l: Ledger, i: nat)
    requires FeesAndTier(l) && Eligible(l.positions, i)
    ensures var all, qs := InsertRanked(l.tier, EntryOf(l.positions[i], i)),
                           l.positions[i := JoinTier(l.positions[i], l.accTier)];
            && TierInv(all, qs) && FeeInv(l.pool.owedFees, l.pool.accEqual, l.accTier, qs)
            && IdsOk(qs) && SameCores(l.positions, qs)
  {
    var ps := l.positions;
    var q := JoinTier(ps[i], l.accTier);
    assert EntryOf(q, i) == EntryOf(ps[i], i);
    hide FeeInv;
    hide TierInv;
    hide InsertRanked;
    JoiningKeepsClaim(l.pool.owedFees, l.pool.accEqual, l.accTier, ps, i);
    TierJoins(l.tier, ps, i, q);
  }

  lemma SameCoresChain(ps: seq<Position>, qs: seq<Position>, rs: seq<Position>)
    requires SameCores(ps, qs) && SameCores(qs, rs) && IdsOk(ps)
    ensures SameCores(ps, rs) && IdsOk(rs)
  {
  }

  /** A crossing of an eligible position that succeeds keeps fees and tier. */
  lemma CrossKeeps(l: Ledger, i: nat, supplied: seq<nat>)
    requires FeesAndTier(l) && Eligible(l.positions, i) && Cross(l, i, supplied).Ok?
    ensures var after := Cross(l, i, supplied).value.0;
            FeesAndTier(after) && TierStep(l, after)
  {
    var c := EntryOf(l.positions[i], i);
    var qs := l.positions[i := JoinTier(l.positions[i], l.accTier)];
    var all := InsertRanked(l.tier, c);
    SeatedKeeps(l, i);
    assert SameCores(l.positions, l.positions);
    hide FeeInv;
    hide TierInv;
    hide IdsOk;
    hide SameCores;
    hide InsertRanked;
    hide LeaveTier;
    hide JoinTier;
    hide Eligible;
    hide ValidConfig;
    hide Before;
    CutKeeps(l.pool.owedFees, l.pool.accEqual, l.accTier, all, qs);
    if Promote(l.tier, l.pool.tierSize, c).1.Swapped? {
      var e := all[|l.tier|].position;
      SameCoresChain(l.positions, qs, qs[e := LeaveTier(qs[e], l.accTier).value]);
    }
  }

  /** A departing member's entry is found and taken out, whatever its position now says, and the
      tier stays sound for its settled position. */
  lemma VacateLeaves(l: Ledger, i: nat, stored: seq<Position>, x: Position, q: Position)
    requires TierInv(l.tier, stored) && i < |stored| && stored[i].inTier
    requires l.positions == stored[i := x] && LeaveTier(x, l.accTier) == Ok(q)
    ensures Vacate(l, i) == Ok(l.(tier := Without(l.tier, IndexOf(l.tier, i)), positions := stored[i := q]))
    ensures TierInv(Without(l.tier, IndexOf(l.tier, i)), stored[i := q])
    ensures |Without(l.tier, IndexOf(l.tier, i))| == |l.tier| - 1
  {
    hide PositionFeePayout;
    DemoteFinds(l.tier, stored, i);
    TierLeaves(l.tier, stored, IndexOf(l.tier, i), q);
    assert stored[i := x][i := q] == stored[i := q];
  }

  /** Filling an open seat with an eligible candidate always lands, and keeps fees and tier. */
  lemma FillKeeps(l: Ledger, stored: seq<Position>, supplied: seq<nat>)
    requires FeesAndTier(l) && |l.tier| < l.pool.tierSize && |stored| == |l.positions|
    requires forall c :: 0 <= c < |stored| && Eligible(stored, c) ==> l.positions[c] == stored[c]
    ensures FillFromCandidate(l, stored, supplied).Ok? <==> supplied == [] || Eligible(stored, supplied[0])
    ensures FillFromCandidate(l, stored, supplied).Ok? ==>
              var after := FillFromCandidate(l, stored, supplied).value;
              FeesAndTier(after) && TierStep(l, after)
  {
    if supplied != [] && Eligible(stored, supplied[0]) {
      var c := supplied[0];
      var q := JoinTier(l.positions[c], l.accTier);
      assert EntryOf(q, c) == EntryOf(l.positions[c], c);
      JoiningKeepsClaim(l.pool.owedFees, l.pool.accEqual, l.accTier, l.positions, c);
      TierJoins(l.tier, l.positions, c, q);
      hide InsertRanked;
      hide Claim;
    }
  }

  // ---- Instructions that touch neither weight nor fees ----

  lemma IdleKeeps(l: Ledger, i: nat, q: Position)
    requires Inv(l) && i < |l.positions|
    requires l.positions[i].state != Active && q.state != Active && !q.inTier
    requires q.depositor == l.positions[i].depositor && q.positionId == i && q.accrued <= l.positions[i].accrued
    ensures Inv(l.(positions := l.positions[i := q]))
  {
    var ps := l.positions;
    assert !ps[i].inTier;
    WeightIdle(l.pool.wReal, l.pool.nReal, l.index.leaves, ps, i, q);
    WalletIdle(l.wallets, ps, i, q);
    TierOutsider(l.tier, ps, i, q);
    FeeReplace(l.pool.owedFees, l.pool.owedFees, l.pool.accEqual, l.accTier, ps, i, q);
  }

  lemma DepositKeeps(l: Ledger, depositor: nat)
    requires Inv(l) && Deposit(l, depositor).Ok?
    ensures Inv(Deposit(l, depositor).value)
  {
    var q := NewPosition(depositor, |l.positions|);
    WeightAppends(l.pool.wReal, l.pool.nReal, l.index.leaves, l.positions, q);
    WalletAppends(l.wallets, l.positions, q);
    FeeAppends(l.pool.owedFees, l.pool.accEqual, l.accTier, l.positions, q);
    TierAppends(l.tier, l.positions, q);
  }

  // ---- Activation ----

  /** The accounts an approval would write fit their widths, and the index takes the weight. */
  ghost predicate Activatable(l: Ledger, i: nat, value: u64)
    requires Shape(l)
  {
    && i < |l.positions| && l.positions[i].state == Pending
    && WeightOf(value).Ok? && l.pool.wReal + Weight(value) <= U64_MAX && l.pool.nReal + 1 <= U32_MAX
    && Index.Insert(l.index, value, l.pool.wReal + Weight(value)).Ok?
    && var wallet := WalletOf(l.wallets, l.positions[i].depositor);
       wallet.activePositions + 1 <= U32_MAX && wallet.activeValue + value <= U64_MAX
  }

  /** The ledger between a deposit's activation and its offer to the tier. */
  ghost function ActivatedLedger(l: Ledger, i: nat, att: Attestation, now: i64): Ledger
    requires Shape(l) && Activatable(l, i, att.value)
  {
    var p := l.positions[i];
    var wallet := WalletOf(l.wallets, p.depositor);
    var expected := l.pool.wReal + Weight(att.value);
    var (index, slot) := Index.Insert(l.index, att.value, expected).value;
    Ledger(l.pool.(wReal := expected, nReal := l.pool.nReal + 1), index, l.tier, l.accTier,
           l.positions[i := Activated(p, att, slot, now, l.pool.accEqual)],
           l.wallets[p.depositor := Wallet(wallet.activePositions + 1, wallet.activeValue + att.value)])
  }

  /** An approval is an activation, a crossing and a rebalance. */
  lemma ApproveIsCross(l: Ledger, i: nat, att: Attestation, now: i64, supplied: seq<nat>)
    requires Shape(l) && Approve(l, i, att, now, supplied).Ok?
    ensures Activatable(l, i, att.value)
    ensures var crossed := Cross(ActivatedLedger(l, i, att, now), i, supplied);
            && crossed.Ok? && |crossed.value.0.pool.blankFaces| == 3
            && Rebalanced(crossed.value.0.pool).Ok?
            && Approve(l, i, att, now, supplied).value
               == crossed.value.0.(pool := Rebalanced(crossed.value.0.pool).value)
  {
    hide Cross;
    hide Rebalanced;
    hide ValidateAdmission;
    hide WeightOf;
    hide Index.Insert;
    hide Index.WellFormed;
    CrossPool(ActivatedLedger(l, i, att, now), i, supplied);
  }

  lemma CrossPool(l: Ledger, i: nat, supplied: seq<nat>)
    requires 0 < l.pool.tierSize && i < |l.positions|
    ensures Cross(l, i, supplied).Ok? ==> Cross(l, i, supplied).value.0.pool == l.pool
  {
    hide PositionFeePayout;
    hide Promote;
  }

  lemma ActivatedClaim(accEqual: u128, accTier: nat, p: Position, att: Attestation, slot: u32, now: i64)
    requires p.state != Active && !p.inTier
    ensures var q := Activated(p, att, slot, now, accEqual);
            && Claim(accEqual, accTier, q) == Claim(accEqual, accTier, p)
            && CheckpointsOk(accEqual, accTier, q)
  {
  }

  lemma ActivationKeepsWeights(l: Ledger, i: nat, att: Attestation, now: i64)
    requires Inv(l) && Shape(l) && Activatable(l, i, att.value)
    ensures WeightsAndWallets(ActivatedLedger(l, i, att, now))
  {
    hide WeightOf;
    hide FeeInv;
    hide TierInv;
    var p := l.positions[i];
    var after := ActivatedLedger(l, i, att, now);
    var q := after.positions[i];
    Index.InsertKeeps(l.index, att.value, after.pool.wReal);
    hide Index.Insert;
    hide Index.WellFormed;
    hide WeightInv;
    hide WalletInv;
    WeightEnters(l.pool.wReal, l.pool.nReal, l.index.leaves, l.positions, i, q);
    WalletFollows(l.wallets, l.positions, i, q, WalletOf(after.wallets, p.depositor));
  }

  lemma ActivationKeepsFees(l: Ledger, i: nat, att: Attestation, now: i64)
    requires FeesAndTier(l) && Shape(l) && Activatable(l, i, att.value)
    ensures FeesAndTier(ActivatedLedger(l, i, att, now)) && !l.positions[i].inTier
  {
    var p := l.positions[i];
    assert !p.inTier && p.positionId == i;
    hide WeightOf;
    hide Claim;
    hide CheckpointsOk;
    hide Index.Insert;
    hide Index.WellFormed;
    hide TierInv;
    hide FeeInv;
    var q := ActivatedLedger(l, i, att, now).positions[i];
    TierOutsider(l.tier, l.positions, i, q);
    ActivatedClaim(l.pool.accEqual, l.accTier, p, att, q.slotIndex, now);
    FeeReplace(l.pool.owedFees, l.pool.owedFees, l.pool.accEqual, l.accTier, l.positions, i, q);
  }

  lemma ActivationKeeps(l: Ledger, i: nat, att: Attestation, now: i64)
    requires Inv(l) && Shape(l) && Activatable(l, i, att.value)
    ensures Inv(ActivatedLedger(l, i, att, now)) && !l.positions[i].inTier
    ensures ActivatedLedger(l, i, att, now).positions[i].state == Active
  {
    hide WeightsAndWallets;
    hide FeesAndTier;
    InvParts(l);
    ActivationKeepsWeights(l, i, att, now);
    ActivationKeepsFees(l, i, att, now);
    hide Inv;
    hide Index.Insert;
    hide Index.WellFormed;
    hide WeightOf;
    InvParts(ActivatedLedger(l, i, att, now));
  }

  lemma RebalancedKeeps(pool: Pool)
    requires |pool.blankFaces| == 3 && Rebalanced(pool).Ok?
    ensures var after := Rebalanced(pool).value;
            after == pool.(blanks := after.blanks) && |after.blanks| == 3
  {
    hide Rebalance.Evaluate;
  }

  lemma ApproveKeeps(l: Ledger, i: nat, att: Attestation, now: i64, supplied: seq<nat>)
    requires Inv(l) && Approve(l, i, att, now, supplied).Ok?
    ensures Inv(Approve(l, i, att, now, supplied).value)
  {
    ShapeOf(l);
    hide Inv;
    hide Cross;
    hide Rebalanced;
    hide Approve;
    ApproveIsCross(l, i, att, now, supplied);
    ActivationKeeps(l, i, att, now);
    CrossedAndBalanced(ActivatedLedger(l, i, att, now), i, supplied);
  }

  lemma ShapeOf(l: Ledger)
    requires Inv(l)
    ensures Shape(l) && |l.pool.blanks| == 3
    ensures forall i :: 0 <= i < |l.positions| && l.positions[i].inTier ==> l.positions[i].state == Active
  {
  }

  lemma CrossedAndBalanced(l: Ledger, i: nat, supplied: seq<nat>)
    requires Inv(l) && i < |l.positions| && Cross(l, i, supplied).Ok?
    requires l.positions[i].state == Active && !l.positions[i].inTier
    ensures Inv(Cross(l, i, supplied).value.0)
    ensures var after := Cross(l, i, supplied).value.0;
            Rebalanced(after.pool).Ok? ==> Inv(after.(pool := Rebalanced(after.pool).value))
  {
    hide Cross;
    hide Rebalanced;
    hide SameCores;
    InvParts(l);
    CrossKeeps(l, i, supplied);
    var after := Cross(l, i, supplied).value.0;
    TierStepKeepsWeights(l, after);
    InvParts(after);
    if Rebalanced(after.pool).Ok? {
      RebalancedKeeps(after.pool);
    }
  }

  // ---- Departures ----

  /** What the shared decrements leave of the pool and the wallet. */
  lemma DepartEffect(pool: Pool, wallet: Wallet, value: u64)
    requires |pool.blankFaces| == 3 && Depart(pool, wallet, value).Ok?
    ensures var (after, left, expected) := Depart(pool, wallet, value).value;
            && WeightOf(value).Ok? && Weight(value) <= pool.wReal && 1 <= pool.nReal
            && after == pool.(wReal := pool.wReal - Weight(value), nReal := pool.nReal - 1, blanks := after.blanks)
            && |after.blanks| == 3 && expected == after.wReal
            && left.activePositions + 1 == wallet.activePositions
            && left.activeValue + value == wallet.activeValue
  {
    hide WeightOf;
    hide Rebalance.Evaluate;
  }

  /** From `l` to `after`, position `i` leaves as `q` with its weight, its wallet share and its seat;
      the vault pays at most what the claim loses. */
  ghost predicate Departs(l: Ledger, after: Ledger, i: nat, q: Position)
    requires i < |l.positions|
  {
    var p := l.positions[i];
    var wallet := WalletOf(after.wallets, p.depositor);
    && q.state != Active && !q.inTier && q.depositor == p.depositor && q.positionId == i
    && after.pool == l.pool.(wReal := after.pool.wReal, nReal := after.pool.nReal, blanks := after.pool.blanks,
                             sweepUpdates := after.pool.sweepUpdates, owedFees := after.pool.owedFees)
    && |after.pool.blanks| == 3
    && l.pool.wReal == after.pool.wReal + Weight(p.recordedValue) && l.pool.nReal == after.pool.nReal + 1
    && after.pool.wReal <= U64_MAX
    && Index.Remove(l.index, p.slotIndex, p.recordedValue, after.pool.wReal) == Ok(after.index)
    && after.accTier == l.accTier
    && after.positions == l.positions[i := q]
    && after.wallets == l.wallets[p.depositor := wallet]
    && wallet.activePositions + 1 == WalletOf(l.wallets, p.depositor).activePositions
    && wallet.activeValue + p.recordedValue == WalletOf(l.wallets, p.depositor).activeValue
    && (p.inTier ==> IndexOf(l.tier, i) < |l.tier|)
    && after.tier == (if p.inTier then Without(l.tier, IndexOf(l.tier, i)) else l.tier)
    && after.pool.owedFees <= l.pool.owedFees
    && Claim(l.pool.accEqual, l.accTier, q) + (l.pool.owedFees - after.pool.owedFees) * ACC_PRECISION
       <= Claim(l.pool.accEqual, l.accTier, p)
  }

  lemma DepartureKeepsWeights(l: Ledger, after: Ledger, i: nat, q: Position)
    requires WeightsAndWallets(l) && i < |l.positions| && l.positions[i].state == Active
    requires Departs(l, after, i, q)
    ensures WeightsAndWallets(after)
  {
    hide WeightOf;
    hide Claim;
    var ps, p := l.positions, l.positions[i];
    Index.RemoveKeeps(l.index, p.slotIndex, p.recordedValue, after.pool.wReal);
    hide Index.WellFormed;
    hide Index.Remove;
    hide WeightInv;
    hide WalletInv;
    WeightLeaves(l.pool.wReal, l.pool.nReal, l.index.leaves, ps, i, q);
    WalletFollows(l.wallets, ps, i, q, WalletOf(after.wallets, p.depositor));
  }

  lemma DepartureKeepsFees(l: Ledger, after: Ledger, i: nat, q: Position)
    requires FeesAndTier(l) && i < |l.positions| && l.positions[i].state == Active
    requires Departs(l, after, i, q)
    ensures FeesAndTier(after)
  {
    hide Weight;
    hide Claim;
    hide Index.Remove;
    var ps, p := l.positions, l.positions[i];
    FeeReplace(l.pool.owedFees, after.pool.owedFees, l.pool.accEqual, l.accTier, ps, i, q);
    hide FeeInv;
    if p.inTier {
      DemoteFinds(l.tier, ps, i);
      TierLeaves(l.tier, ps, IndexOf(l.tier, i), q);
    } else {
      TierOutsider(l.tier, ps, i, q);
    }
  }

  /** A departure keeps the whole invariant. */
  lemma DepartureKeeps(l: Ledger, after: Ledger, i: nat, q: Position)
    requires Inv(l) && i < |l.positions| && l.positions[i].state == Active
    requires Departs(l, after, i, q)
    ensures Inv(after)
  {
    hide Inv;
    hide WeightsAndWallets;
    hide FeesAndTier;
    InvParts(l);
    DepartureKeepsWeights(l, after, i, q);
    DepartureKeepsFees(l, after, i, q);
    InvParts(after);
  }

  /** Filling the seat a departure left open, over a ledger that satisfies the invariant. */
  lemma FilledKeeps(l: Ledger, stored: seq<Position>, supplied: seq<nat>)
    requires Inv(l) && |l.tier| < l.pool.tierSize && SeatsUnmoved(stored, l.positions, true)
    ensures FillFromCandidate(l, stored, supplied).Ok? <==> supplied == [] || Eligible(stored, supplied[0])
    ensures FillFromCandidate(l, stored, supplied).Ok? ==> Inv(FillFromCandidate(l, stored, supplied).value)
  {
    hide FillFromCandidate;
    hide SameCores;
    InvParts(l);
    FillKeeps(l, stored, supplied);
    if FillFromCandidate(l, stored, supplied).Ok? {
      var after := FillFromCandidate(l, stored, supplied).value;
      TierStepKeepsWeights(l, after);
      InvParts(after);
    }
  }

  /** Filling does not look at the departed position, so it may be rewritten before or after. */
  lemma FillCommutes(l: Ledger, stored: seq<Position>, supplied: seq<nat>, i: nat, q: Position)
    requires 0 < l.pool.tierSize && |stored| == |l.positions| && i < |l.positions| && !Eligible(stored, i)
    ensures var first := FillFromCandidate(l, stored, supplied);
            var moved := FillFromCandidate(l.(positions := l.positions[i := q]), stored, supplied);
            && (first.Ok? <==> moved.Ok?) && (first.Err? ==> moved == first)
            && (first.Ok? ==> |first.value.positions| == |l.positions|
                              && moved.value == first.value.(positions := first.value.positions[i := q]))
  {
    if supplied != [] && Eligible(stored, supplied[0]) {
      var c := supplied[0];
      assert c != i;
      var joined := JoinTier(l.positions[c], l.accTier);
      assert l.positions[i := q][c := joined] == l.positions[c := joined][i := q];
    }
  }

  // ---- Withdrawal ----

  /** An exit pays no more than the claim and falls less than one unit short of it per leg; afterwards
      the position has nothing accrued, and leaving the tier settles nothing a second time. */
  lemma ExitPays(pool: Pool, p: Position, accTier: u128)
    requires p.state == Active && CheckpointsOk(pool.accEqual, accTier, p)
    requires Claim(pool.accEqual, accTier, p) <= pool.owedFees * ACC_PRECISION
    ensures var paid := ExitPayout(pool, p, accTier);
            && paid.Ok? && paid.value <= pool.owedFees
            && ACC_PRECISION * paid.value <= Claim(pool.accEqual, accTier, p)
               <= ACC_PRECISION * paid.value + (ACC_PRECISION - 1) * if p.inTier then 2 else 1
    ensures var x := ExitPosition(pool, p, accTier);
            && x.accrued == 0
            && (p.inTier ==> LeaveTier(x, accTier) == Ok(x.(inTier := false)))
  {
  }

  ghost function ReleasedPosition(pool: Pool, p: Position, accTier: u128): Position {
    ExitPosition(pool, p, accTier).(inTier := false, state := Released)
  }

  /** The ledger between a withdrawing position's departure and the filling of its seat. */
  ghost function Departed(l: Ledger, i: nat, w: Withdrawal, index: Index.Index): Ledger
    requires i < |l.positions|
  {
    var p := l.positions[i];
    var k := IndexOf(l.tier, i);
    Ledger(w.pool, index, if p.inTier && k < |l.tier| then Without(l.tier, k) else l.tier, l.accTier,
           l.positions[i := ReleasedPosition(l.pool, p, l.accTier)],
           l.wallets[p.depositor := w.wallet])
  }

  lemma WithdrawalEffect(pool: Pool, p: Position, wallet: Wallet, accTier: u128, now: i64)
    requires |pool.blankFaces| == 3 && ApplyWithdraw(pool, p, wallet, accTier, now).Ok?
    ensures var w := ApplyWithdraw(pool, p, wallet, accTier, now).value;
            && pool.openBatches == 0 && p.state == Active && p.lockUntil <= now
            && ExitPayout(pool, p, accTier) == Ok(w.feesPaid) && w.feesPaid <= pool.owedFees
            && w.position == ExitPosition(pool, p, accTier)
            && w.slotIndex == p.slotIndex && w.recordedValue == p.recordedValue && w.wasMember == p.inTier
            && w.blanksBefore == pool.blanks
            && Weight(p.recordedValue) <= pool.wReal && 1 <= pool.nReal
            && w.pool == pool.(wReal := pool.wReal - Weight(p.recordedValue), nReal := pool.nReal - 1,
                               blanks := w.pool.blanks, owedFees := pool.owedFees - w.feesPaid)
            && |w.pool.blanks| == 3 && w.expectedTotal == w.pool.wReal
            && w.wallet.activePositions + 1 == wallet.activePositions
            && w.wallet.activeValue + p.recordedValue == wallet.activeValue
  {
    hide ExitPayout;
    hide Depart;
    var paid := ExitPayout(pool, p, accTier).value;
    DepartEffect(pool.(owedFees := pool.owedFees - paid), wallet, p.recordedValue);
  }

  /** Whoever was eligible before is where it was. */
  ghost predicate SeatsUnmoved(ps: seq<Position>, qs: seq<Position>, vacated: bool) {
    |ps| == |qs| && (vacated ==> forall c :: 0 <= c < |ps| && Eligible(ps, c) ==> qs[c] == ps[c])
  }

  /** The accounting of an exit succeeds with `w`, and the index remove after it with `index`. */
  ghost predicate Exits(l: Ledger, i: nat, now: i64, w: Withdrawal, index: Index.Index)
    requires i < |l.positions| && |l.pool.blankFaces| == 3
  {
    var p := l.positions[i];
    && ApplyWithdraw(l.pool, p, WalletOf(l.wallets, p.depositor), l.accTier, now) == Ok(w)
    && Index.Remove(l.index, w.slotIndex, w.recordedValue, w.expectedTotal) == Ok(index)
  }

  lemma DepartedKeeps(l: Ledger, i: nat, now: i64, w: Withdrawal, index: Index.Index)
    requires Inv(l) && i < |l.positions| && Exits(l, i, now, w, index)
    ensures Inv(Departed(l, i, w, index))
    ensures l.positions[i].inTier ==> |Departed(l, i, w, index).tier| < Departed(l, i, w, index).pool.tierSize
    ensures SeatsUnmoved(l.positions, Departed(l, i, w, index).positions, l.positions[i].inTier)
  {
    var p := l.positions[i];
    hide WeightInv;
    hide WalletInv;
    hide Index.WellFormed;
    WithdrawalEffect(l.pool, p, WalletOf(l.wallets, p.depositor), l.accTier, now);
    hide ApplyWithdraw;
    ClaimIsOwed(l.pool.owedFees, l.pool.accEqual, l.accTier, l.positions, i);
    ExitPays(l.pool, p, l.accTier);
    if p.inTier {
      DemoteFinds(l.tier, l.positions, i);
    }
    assert Claim(l.pool.accEqual, l.accTier, ReleasedPosition(l.pool, p, l.accTier)) == 0;
    assert SeatsUnmoved(l.positions, Departed(l, i, w, index).positions, p.inTier);
    hide Claim;
    hide TierInv;
    DepartureKeeps(l, Departed(l, i, w, index), i, ReleasedPosition(l.pool, p, l.accTier));
  }

  /** The source settles, removes, vacates, fills and then closes the account; the result is the
      departed ledger with its seat filled. */
  lemma WithdrawIsFilledDeparture(l: Ledger, i: nat, now: i64, supplied: seq<nat>, w: Withdrawal, index: Index.Index)
    requires Inv(l) && i < |l.positions| && Exits(l, i, now, w, index)
    ensures Shape(l)
    ensures var mid := Departed(l, i, w, index);
            && 0 < mid.pool.tierSize == l.pool.tierSize && |mid.positions| == |l.positions|
            && var filled := FillFromCandidate(mid, l.positions, supplied);
            && (l.positions[i].inTier ==>
                  && (Withdraw(l, i, now, supplied).Ok? <==> filled.Ok?)
                  && (filled.Ok? ==> Withdraw(l, i, now, supplied) == filled))
            && (!l.positions[i].inTier ==> Withdraw(l, i, now, supplied) == Ok(mid))
  {
    ShapeOf(l);
    var p := l.positions[i];
    hide WeightInv;
    hide WalletInv;
    hide Index.WellFormed;
    WithdrawalEffect(l.pool, p, WalletOf(l.wallets, p.depositor), l.accTier, now);
    hide ApplyWithdraw;
    hide Index.Remove;
    ClaimIsOwed(l.pool.owedFees, l.pool.accEqual, l.accTier, l.positions, i);
    ExitPays(l.pool, p, l.accTier);
    hide FeeInv;
    hide Claim;
    hide ExitPayout;
    var x := ExitPosition(l.pool, p, l.accTier);
    assert x.inTier == p.inTier;
    assert l.positions[i := x][i := x.(state := Released)] == l.positions[i := x.(state := Released)];
    hide ExitPosition;
    hide LeaveTier;
    var departed := Ledger(w.pool, index, l.tier, l.accTier, l.positions[i := x], l.wallets[p.depositor := w.wallet]);
    if p.inTier {
      VacateLeaves(departed, i, l.positions, x, x.(inTier := false));
      var vacated := Vacate(departed, i).value;
      DemoteFinds(l.tier, l.positions, i);
      FillCommutes(vacated, l.positions, supplied, i, ReleasedPosition(l.pool, p, l.accTier));
      assert l.positions[i := x.(inTier := false)][i := ReleasedPosition(l.pool, p, l.accTier)]
          == l.positions[i := ReleasedPosition(l.pool, p, l.accTier)];
      FillKeepsOthers(vacated, l.positions, supplied, i);
    }
  }

  lemma FillKeepsOthers(l: Ledger, stored: seq<Position>, supplied: seq<nat>, i: nat)
    requires 0 < l.pool.tierSize && |stored| == |l.positions| && i < |l.positions| && !Eligible(stored, i)
    ensures var filled := FillFromCandidate(l, stored, supplied);
            filled.Ok? ==> |filled.value.positions| == |l.positions| && filled.value.positions[i] == l.positions[i]
  {
  }

  /** A withdrawal that succeeds went through both. */
  lemma WithdrawExits(l: Ledger, i: nat, now: i64, supplied: seq<nat>) returns (w: Withdrawal, index: Index.Index)
    requires Inv(l) && Withdraw(l, i, now, supplied).Ok?
    ensures i < |l.positions| && Exits(l, i, now, w, index)
  {
    ShapeOf(l);
    hide Inv;
    hide Index.WellFormed;
    hide ApplyWithdraw;
    hide VacateAndFill;
    var p := l.positions[i];
    w := ApplyWithdraw(l.pool, p, WalletOf(l.wallets, p.depositor), l.accTier, now).value;
    index := Index.Remove(l.index, w.slotIndex, w.recordedValue, w.expectedTotal).value;
    hide Index.Remove;
  }

  lemma WithdrawKeeps(l: Ledger, i: nat, now: i64, supplied: seq<nat>)
    requires Inv(l) && Withdraw(l, i, now, supplied).Ok?
    ensures Inv(Withdraw(l, i, now, supplied).value)
  {
    var w, index := WithdrawExits(l, i, now, supplied);
    hide Withdraw;
    hide Exits;
    hide Departed;
    hide SeatsUnmoved;
    WithdrawIsFilledDeparture(l, i, now, supplied, w, index);
    DepartedKeeps(l, i, now, w, index);
    if l.positions[i].inTier {
      FilledKeeps(Departed(l, i, w, index), l.positions, supplied);
    }
    hide Inv;
  }
}
