/** What each position earns over a run, and where every part of it goes. */
module LedgerFees {
  import opened Machine
  import opened FeeMath
  import opened State
  import opened Accounting
  import opened TierSpec
  import opened Ledger
  import opened LedgerInvariant
  import opened LedgerSteps
  import opened LedgerCloses
  import opened LedgerTheorems
  import Index = IndexSpec
  import TierTheorems

  /** The legs a transaction settles for a position: the equal leg when it stops being active, the
      tier leg when it stops being a member. */
  function LegsSettled(p: Position, q: Position): nat {
    (if p.state == Active && q.state != Active then 1 else 0) + (if p.inTier && !q.inTier then 1 else 0)
  }

  /** `gone` left the claim of `p` as it became `q`, and each settled leg lost less than one unit. */
  ghost predicate Settles(accEqual: nat, accTier: nat, p: Position, q: Position, gone: nat) {
    Claim(accEqual, accTier, q) + gone <= Claim(accEqual, accTier, p)
    <= Claim(accEqual, accTier, q) + gone + (ACC_PRECISION - 1) * LegsSettled(p, q)
  }

  /** A position that stays active stays where and when it was activated. */
  ghost predicate SameSeat(p: Position, q: Position) {
    p.state == Active && q.state == Active ==> p.slotIndex == q.slotIndex && p.activatedAt == q.activatedAt
  }

  /** From `l` to `after` the accumulators stand still, `gone` leaves position `i`, and nothing but
      roundings leaves any other, of which only fee legs and membership move. */
  ghost predicate AllSettle(l: Ledger, after: Ledger, i: nat, gone: nat) {
    && after.pool.accEqual == l.pool.accEqual && after.accTier == l.accTier
    && |after.positions| == |l.positions|
    && forall k :: 0 <= k < |l.positions| ==>
         && Settles(l.pool.accEqual, l.accTier, l.positions[k], after.positions[k], if k == i then gone else 0)
         && SameSeat(l.positions[k], after.positions[k])
         && (k != i ==> SameCore(l.positions[k], after.positions[k]))
  }

  /** No leg is settled twice on the way from `p` over `q` to `r`. */
  predicate LegsAdd(p: Position, q: Position, r: Position) {
    LegsSettled(p, q) + LegsSettled(q, r) <= LegsSettled(p, r)
  }

  lemma SettleInTurn(l: Ledger, mid: Ledger, after: Ledger, i: nat, gone: nat)
    requires AllSettle(l, mid, i, gone) && AllSettle(mid, after, i, 0)
    requires forall k :: 0 <= k < |l.positions| ==> LegsAdd(l.positions[k], mid.positions[k], after.positions[k])
    requires i < |l.positions| ==> SameCore(mid.positions[i], after.positions[i])
    ensures AllSettle(l, after, i, gone)
  {
    hide Claim;
    forall k | 0 <= k < |l.positions|
      ensures Settles(l.pool.accEqual, l.accTier, l.positions[k], after.positions[k], if k == i then gone else 0)
      ensures SameSeat(l.positions[k], after.positions[k])
      ensures k != i ==> SameCore(l.positions[k], after.positions[k])
    {
      assert LegsAdd(l.positions[k], mid.positions[k], after.positions[k]);
      hide LegsSettled;
    }
  }

  // ---- Tier steps ----

  lemma JoinSettles(accEqual: nat, accTier: u128, p: Position)
    requires !p.inTier
    ensures Settles(accEqual, accTier, p, JoinTier(p, accTier), 0)
  {
  }

  lemma LeaveSettles(accEqual: nat, accTier: u128, p: Position)
    requires p.inTier && CheckpointsOk(accEqual, accTier, p) && LeaveTier(p, accTier).Ok?
    ensures Settles(accEqual, accTier, p, LeaveTier(p, accTier).value, 0)
    ensures SameCore(p, LeaveTier(p, accTier).value) && !LeaveTier(p, accTier).value.inTier
  {
  }

  lemma CrossSettles(l: Ledger, i: nat, supplied: seq<nat>)
    requires FeesAndTier(l) && Eligible(l.positions, i) && Cross(l, i, supplied).Ok?
    ensures AllSettle(l, Cross(l, i, supplied).value.0, i, 0)
  {
    var ps := l.positions;
    JoinSettles(l.pool.accEqual, l.accTier, ps[i]);
    var all := InsertRanked(l.tier, EntryOf(ps[i], i));
    match Promote(l.tier, l.pool.tierSize, EntryOf(ps[i], i)).1
    case Rejected =>
    case Inserted =>
    case Swapped(evicted) =>
      assert evicted == all[|l.tier|] == l.tier[|l.tier| - 1];
      assert Member(ps, evicted);
      LeaveSettles(l.pool.accEqual, l.accTier, ps[evicted.position]);
      hide LeaveTier;
      hide InsertRanked;
      hide Claim;
      hide FeeInv;
      hide TierInv;
  }

  lemma FillSettles(l: Ledger, stored: seq<Position>, supplied: seq<nat>, i: nat)
    requires 0 < l.pool.tierSize && i < |stored| && SeatsUnmoved(stored, l.positions, true)
    requires FillFromCandidate(l, stored, supplied).Ok?
    ensures AllSettle(l, FillFromCandidate(l, stored, supplied).value, i, 0)
    ensures !Eligible(stored, i) ==> forall k :: 0 <= k < |stored| ==>
              var q, r := l.positions[k], FillFromCandidate(l, stored, supplied).value.positions[k];
              (k == i ==> q == r) && LegsSettled(q, r) == 0 && (r.inTier || !q.inTier) && SameCore(q, r)
  {
    hide Promote;
    hide Claim;
    if supplied != [] {
      JoinSettles(l.pool.accEqual, l.accTier, l.positions[supplied[0]]);
    }
  }

  // ---- Activation ----

  lemma ActivationSettles(l: Ledger, i: nat, att: Attestation, now: i64)
    requires Inv(l) && Activatable(l, i, att.value)
    ensures AllSettle(l, ActivatedLedger(l, i, att, now), i, 0)
  {
    var p := l.positions[i];
    assert !p.inTier;
    var q := ActivatedLedger(l, i, att, now).positions[i];
    ActivatedClaim(l.pool.accEqual, l.accTier, p, att, q.slotIndex, now);
    hide Claim;
    hide CheckpointsOk;
    hide Index.Insert;
    hide WeightOf;
  }

  lemma ApproveSettles(l: Ledger, i: nat, att: Attestation, now: i64, supplied: seq<nat>)
    requires Inv(l) && Approve(l, i, att, now, supplied).Ok?
    ensures AllSettle(l, Approve(l, i, att, now, supplied).value, i, 0)
  {
    ShapeOf(l);
    ApproveIsCross(l, i, att, now, supplied);
    ActivationKeeps(l, i, att, now);
    ActivationSettles(l, i, att, now);
    var mid := ActivatedLedger(l, i, att, now);
    InvParts(mid);
    CrossSettles(mid, i, supplied);
    CrossKeeps(mid, i, supplied);
    var after := Cross(mid, i, supplied).value.0;
    RebalancedKeeps(after.pool);
    forall k | 0 <= k < |l.positions|
      ensures LegsAdd(l.positions[k], mid.positions[k], after.positions[k])
    {
      assert k != i ==> l.positions[k] == mid.positions[k];
      assert SameCore(mid.positions[k], after.positions[k]);
    }
    SettleInTurn(l, mid, after, i, 0);
    hide Inv;
    hide Settles;
    hide Approve;
    hide Cross;
    hide Rebalanced;
  }

  // ---- Departures ----

  /** The account closes: `gone` is paid, whoever takes the seat. */
  lemma FilledSettles(l: Ledger, mid: Ledger, supplied: seq<nat>, i: nat, gone: nat)
    requires 0 < mid.pool.tierSize && i < |l.positions| && !Eligible(l.positions, i)
    requires AllSettle(l, mid, i, gone) && SeatsUnmoved(l.positions, mid.positions, true)
    requires forall k :: 0 <= k < |l.positions| && k != i ==> mid.positions[k] == l.positions[k]
    ensures FillFromCandidate(mid, l.positions, supplied).Ok? ==>
              AllSettle(l, FillFromCandidate(mid, l.positions, supplied).value, i, gone)
  {
    if FillFromCandidate(mid, l.positions, supplied).Ok? {
      var after := FillFromCandidate(mid, l.positions, supplied).value;
      FillSettles(mid, l.positions, supplied, i);
      hide FillFromCandidate;
      hide Settles;
      forall k | 0 <= k < |l.positions|
        ensures LegsAdd(l.positions[k], mid.positions[k], after.positions[k])
      {
        assert k != i ==> l.positions[k] == mid.positions[k];
      }
      SettleInTurn(l, mid, after, i, gone);
    }
  }

  lemma WithdrawSettles(l: Ledger, i: nat, now: i64, supplied: seq<nat>)
    requires Inv(l) && Withdraw(l, i, now, supplied).Ok?
    ensures ExitPayout(l.pool, l.positions[i], l.accTier).Ok?
    ensures AllSettle(l, Withdraw(l, i, now, supplied).value, i,
                      ACC_PRECISION * ExitPayout(l.pool, l.positions[i], l.accTier).value)
  {
    var w, index := WithdrawExits(l, i, now, supplied);
    var p := l.positions[i];
    WithdrawalEffect(l.pool, p, WalletOf(l.wallets, p.depositor), l.accTier, now);
    hide ApplyWithdraw;
    hide Inv;
    WithdrawIsFilledDeparture(l, i, now, supplied, w, index);
    DepartedKeeps(l, i, now, w, index);
    hide Withdraw;
    hide Exits;
    DepartedSettles(l, i, w, index);
    hide Departed;
    hide ExitPayout;
    hide SeatsUnmoved;
    if p.inTier {
      FilledSettles(l, Departed(l, i, w, index), supplied, i, ACC_PRECISION * w.feesPaid);
    }
    hide AllSettle;
  }

  /** The departure alone: the leaver is paid and nobody else moves. */
  lemma DepartedSettles(l: Ledger, i: nat, w: Withdrawal, index: Index.Index)
    requires Inv(l) && i < |l.positions| && l.positions[i].state == Active && w.pool.accEqual == l.pool.accEqual
    ensures ExitPayout(l.pool, l.positions[i], l.accTier).Ok?
    ensures var mid := Departed(l, i, w, index);
            && AllSettle(l, mid, i, ACC_PRECISION * ExitPayout(l.pool, l.positions[i], l.accTier).value)
            && mid.pool == w.pool
            && forall k :: 0 <= k < |l.positions| && k != i ==> mid.positions[k] == l.positions[k]
  {
    ReleaseSettles(l, i);
    hide Inv;
    hide Settles;
    hide ExitPayout;
  }

  lemma ReleaseSettles(l: Ledger, i: nat)
    requires Inv(l) && i < |l.positions| && l.positions[i].state == Active
    ensures ExitPayout(l.pool, l.positions[i], l.accTier).Ok?
    ensures Settles(l.pool.accEqual, l.accTier, l.positions[i], ReleasedPosition(l.pool, l.positions[i], l.accTier),
                    ACC_PRECISION * ExitPayout(l.pool, l.positions[i], l.accTier).value)
    ensures forall k :: 0 <= k < |l.positions| ==>
              Settles(l.pool.accEqual, l.accTier, l.positions[k], l.positions[k], 0)
  {
    ClaimIsOwed(l.pool.owedFees, l.pool.accEqual, l.accTier, l.positions, i);
    ExitPays(l.pool, l.positions[i], l.accTier);
    hide ExitPayout;
    hide WeightInv;
    hide WalletInv;
    hide TierInv;
  }

  /** A close that settles onto the position pays nothing out. */
  /** The legs of one closing position, a member's tier leg after its equal one. */
  lemma ClosedLegs(l: Ledger, i: nat, q: Position)
    requires Inv(l) && i < |l.positions| && l.positions[i].state == Active
    requires var p := l.positions[i];
      && q.state != Active && q.inTier == p.inTier && q.tierCheckpoint == p.tierCheckpoint
      && PositionFeePayout(l.pool.accEqual, p.equalCheckpoint, p.accrued) == Ok(q.accrued)
    ensures !q.inTier ==> Settles(l.pool.accEqual, l.accTier, l.positions[i], q, 0)
    ensures q.inTier ==>
              && LeaveTier(q, l.accTier).Ok?
              && Settles(l.pool.accEqual, l.accTier, l.positions[i], LeaveTier(q, l.accTier).value, 0)
              && SameCore(q, LeaveTier(q, l.accTier).value) && !LeaveTier(q, l.accTier).value.inTier
  {
    var p := l.positions[i];
    ClaimIsOwed(l.pool.owedFees, l.pool.accEqual, l.accTier, l.positions, i);
    assert CheckpointsOk(l.pool.accEqual, l.accTier, p);
    hide Inv;
    CloseSettles(l.pool.owedFees, l.pool.accEqual, l.accTier, p, q);
    hide Claim;
    hide PositionFeePayout;
    hide CheckpointsOk;
  }

  lemma ClosedSettles(l: Ledger, closed: Ledger, i: nat, q: Position)
    requires Inv(l) && i < |l.positions| && l.positions[i].state == Active
    requires var p := l.positions[i];
      && q.state != Active && q.inTier == p.inTier && q.tierCheckpoint == p.tierCheckpoint
      && PositionFeePayout(l.pool.accEqual, p.equalCheckpoint, p.accrued) == Ok(q.accrued)
    requires closed.positions == l.positions[i := q] && closed.tier == l.tier
    requires closed.pool.accEqual == l.pool.accEqual && closed.accTier == l.accTier
    ensures !q.inTier ==> AllSettle(l, closed, i, 0)
    ensures q.inTier ==> Vacate(closed, i).Ok? && AllSettle(l, Vacate(closed, i).value, i, 0)
    ensures q.inTier ==> forall k :: 0 <= k < |l.positions| && k != i ==>
              Vacate(closed, i).value.positions[k] == l.positions[k]
  {
    ClosedLegs(l, i, q);
    Same(l);
    assert AllSettle(l, l, i, 0);
    ShapeOf(l);
    assert TierInv(l.tier, l.positions);
    hide Inv;
    hide Settles;
    hide LeaveTier;
    hide PositionFeePayout;
    if q.inTier {
      VacateLeaves(closed, i, l.positions, q, LeaveTier(q, l.accTier).value);
    }
    hide TierInv;
    hide Vacate;
  }

  lemma ClosingRecordSettles(l: Ledger, i: nat, value: u64, now: i64, supplied: seq<nat>)
    requires Inv(l) && RecordValue(l, i, value, now, supplied).Ok?
    requires var p := l.positions[i];
             ApplyRecordValue(l.pool, p, WalletOf(l.wallets, p.depositor), value, now).value.outcome.Close?
    ensures AllSettle(l, RecordValue(l, i, value, now, supplied).value, i, 0)
  {
    ShapeOf(l);
    var p := l.positions[i];
    var wallet := WalletOf(l.wallets, p.depositor);
    RecordingEffect(l.pool, p, wallet, value, now);
    var r := ApplyRecordValue(l.pool, p, wallet, value, now).value;
    hide ApplyRecordValue;
    hide Settles;
    hide Vacate;
    hide FillFromCandidate;
    hide PositionFeePayout;
    hide WeightOf;
    var index := Index.Remove(l.index, p.slotIndex, p.recordedValue, r.expectedTotal).value;
    var closed := Ledger(r.pool, index, l.tier, l.accTier, l.positions[i := r.position],
                         l.wallets[p.depositor := r.wallet]);
    hide Index.Remove;
    ClosedSettles(l, closed, i, r.position);
    hide Inv;
    if p.inTier {
      VacateKeepsPool(closed, i);
      FilledSettles(l, Vacate(closed, i).value, supplied, i, 0);
    }
  }

  lemma VacateKeepsPool(l: Ledger, i: nat)
    requires i < |l.positions| && Vacate(l, i).Ok?
    ensures Vacate(l, i).value.pool == l.pool
  {
    hide PositionFeePayout;
  }

  /** A new value settles nothing. */
  lemma RevaluedSettles(l: Ledger, moved: Ledger, i: nat)
    requires i < |l.positions| && moved.pool.accEqual == l.pool.accEqual && moved.accTier == l.accTier
    requires |moved.positions| == |l.positions| && moved.positions == l.positions[i := moved.positions[i]]
    requires moved.positions[i] == l.positions[i].(recordedValue := moved.positions[i].recordedValue)
    ensures AllSettle(l, moved, i, 0)
  {
    SameClaim(l.pool.accEqual, l.accTier, l.positions[i], moved.positions[i]);
    hide Claim;
  }

  lemma MovingRecordSettles(l: Ledger, i: nat, value: u64, now: i64, supplied: seq<nat>)
    requires Inv(l) && RecordValue(l, i, value, now, supplied).Ok?
    requires var p := l.positions[i];
             !ApplyRecordValue(l.pool, p, WalletOf(l.wallets, p.depositor), value, now).value.outcome.Close?
    ensures AllSettle(l, RecordValue(l, i, value, now, supplied).value, i, 0)
  {
    ShapeOf(l);
    var p := l.positions[i];
    var wallet := WalletOf(l.wallets, p.depositor);
    RecordingEffect(l.pool, p, wallet, value, now);
    var r := ApplyRecordValue(l.pool, p, wallet, value, now).value;
    hide ApplyRecordValue;
    hide WeightOf;
    hide Cross;
    hide RefreshMember;
    hide Inv;
    hide Settles;
    var index := Index.Update(l.index, p.slotIndex, p.recordedValue, value, r.expectedTotal).value;
    hide Index.Update;
    var moved := Ledger(r.pool, index, l.tier, l.accTier, l.positions[i := r.position],
                        l.wallets[p.depositor := r.wallet]);
    MovedKeeps(l, i, value, r.pool, index, r.wallet);
    RevaluedSettles(l, moved, i);
    if !p.inTier {
      RevaluedCrossSettles(l, moved, i, supplied);
    }
  }

  lemma RevaluedCrossSettles(l: Ledger, moved: Ledger, i: nat, supplied: seq<nat>)
    requires Inv(moved) && Eligible(moved.positions, i) && 0 < moved.pool.tierSize
    requires i < |l.positions| && AllSettle(l, moved, i, 0)
    requires |moved.positions| == |l.positions| && moved.positions == l.positions[i := moved.positions[i]]
    requires moved.positions[i] == l.positions[i].(recordedValue := moved.positions[i].recordedValue)
    ensures Cross(moved, i, supplied).Ok? ==> AllSettle(l, Cross(moved, i, supplied).value.0, i, 0)
  {
    InvParts(moved);
    hide Inv;
    hide Cross;
    hide Settles;
    if Cross(moved, i, supplied).Ok? {
      CrossSettles(moved, i, supplied);
      CrossKeeps(moved, i, supplied);
      var after := Cross(moved, i, supplied).value.0;
      forall k | 0 <= k < |l.positions|
        ensures LegsAdd(l.positions[k], moved.positions[k], after.positions[k])
      {
      }
      SettleInTurn(l, moved, after, i, 0);
    }
  }

  lemma SeizeSettles(l: Ledger, i: nat, arrangeable: bool, now: i64)
    requires Inv(l) && CloseSeized(l, i, arrangeable, now).Ok?
    ensures AllSettle(l, CloseSeized(l, i, arrangeable, now).value, i, 0)
  {
    ShapeOf(l);
    var p := l.positions[i];
    if p.state == Active {
      var wallet := WalletOf(l.wallets, p.depositor);
      DepartEffect(l.pool, wallet, p.recordedValue);
      var (pool, seized, left, expected) := DepartSeized(l.pool, p, wallet).value;
      var index := Index.Remove(l.index, p.slotIndex, p.recordedValue, expected).value;
      hide Depart;
      hide PositionFeePayout;
      hide Vacate;
      hide Settles;
      hide Index.Remove;
      ClosedSettles(l, Ledger(pool, index, l.tier, l.accTier, l.positions[i := seized.(state := Seized)],
                              l.wallets[p.depositor := left]), i, seized.(state := Seized));
      hide Inv;
    } else {
      hide DepartSeized;
      hide Vacate;
    }
  }

  // ---- The other instructions ----

  /** Settling an evicted suffix touches its members once each and nobody else. */
  lemma {:induction false} EvictedSettle(owed: u64, accEqual: u128, accTier: u128, kept: seq<TierEntry>,
                                         evicted: seq<TierEntry>, ps: seq<Position>, supplied: seq<nat>)
    requires TierInv(kept + evicted, ps) && FeeInv(owed, accEqual, accTier, ps)
    requires SettleEvicted(ps, evicted, supplied, accTier).Ok?
    ensures var qs := SettleEvicted(ps, evicted, supplied, accTier).value;
            && |qs| == |ps|
            && forall k :: 0 <= k < |ps| ==>
                 && Settles(accEqual, accTier, ps[k], qs[k], 0) && SameCore(ps[k], qs[k])
                 && (!ps[k].inTier ==> qs[k] == ps[k])
    decreases |evicted|
  {
    hide Claim;
    if evicted != [] {
      var tier := kept + evicted;
      var e := evicted[0].position;
      assert tier[|kept|] == evicted[0] && tier[|kept|] in tier;
      assert Member(ps, evicted[0]);
      LeavingKeepsClaim(owed, accEqual, accTier, ps, e);
      LeaveSettles(accEqual, accTier, ps[e]);
      var left := LeaveTier(ps[e], accTier).value;
      TierLeaves(tier, ps, |kept|, left);
      assert TierTheorems.Without(tier, |kept|) == kept + evicted[1..];
      hide LeaveTier;
      hide TierInv;
      hide FeeInv;
      EvictedSettle(owed, accEqual, accTier, kept, evicted[1..], ps[e := left], supplied);
    }
  }

  /** A smaller tier settles whom it evicts. */
  lemma ResizeSettles(l: Ledger, size: u8, supplied: seq<nat>, i: nat)
    requires Inv(l) && UpdateConfig(l, TierSize(size), supplied).Ok?
    ensures AllSettle(l, UpdateConfig(l, TierSize(size), supplied).value, i, 0)
  {
    hide ValidConfig;
    hide Index.WellFormed;
    hide WeightInv;
    hide WalletInv;
    hide FeeInv;
    hide TierInv;
    hide Claim;
    hide LegsSettled;
    var (kept, evicted) := Shrink(l.tier, size);
    assert kept + evicted == l.tier;
    EvictedSettle(l.pool.owedFees, l.pool.accEqual, l.accTier, kept, evicted, l.positions, supplied);
    hide SettleEvicted;
  }

  lemma ConfigSettles(l: Ledger, update: ConfigUpdate, supplied: seq<nat>, i: nat)
    requires Inv(l) && UpdateConfig(l, update, supplied).Ok?
    ensures AllSettle(l, UpdateConfig(l, update, supplied).value, i, 0)
  {
    if update.TierSize? {
      ResizeSettles(l, update.size, supplied, i);
    } else {
      hide Inv;
      hide ValidConfig;
      Same(l);
      hide Settles;
      assert AllSettle(l, l, i, 0);
    }
    hide SettleEvicted;
  }

  lemma UpdateTierSettles(l: Ledger, i: nat, supplied: seq<nat>)
    requires Inv(l) && UpdateTier(l, i, supplied).Ok?
    ensures AllSettle(l, UpdateTier(l, i, supplied).value, i, 0)
  {
    ShapeOf(l);
    InvParts(l);
    CrossSettles(l, i, supplied);
    hide Inv;
    hide Cross;
    hide Settles;
  }

  // ---- One transaction ----

  /** What an accrual credits position `i`: a unit while active, a unit while a member. */
  ghost function Earned(l: Ledger, a: Action, i: nat): nat
    requires Inv(l) && i < |l.positions|
  {
    ShapeOf(l);
    if a.AccrueFee? && Handle(l, a).Ok? then
      var nTotal := l.pool.nReal + l.pool.blanks[0] + l.pool.blanks[1] + l.pool.blanks[2];
      AccumulatorUnit(a.fee, l.pool.allocEqualBps, nTotal).value * CountOf()(l.positions[i])
      + AccumulatorUnit(a.fee, l.pool.allocTierBps, |l.tier|).value * MemberOf()(l.positions[i])
    else 0
  }

  ghost function PaidTo(l: Ledger, a: Action, i: nat): nat
    requires Inv(l) && i < |l.positions|
  {
    if a.WithdrawPosition? && a.i == i then Payment(l, a) else 0
  }

  /** A closed or seized position's credit is discarded when its card is claimed. */
  ghost function Discarded(l: Ledger, a: Action, i: nat): nat
    requires Inv(l) && i < |l.positions|
  {
    ShapeOf(l);
    if a.ReleasePosition? && a.i == i && Handle(l, a).Ok? then l.positions[i].accrued else 0
  }

  ghost function LegsIn(l: Ledger, a: Action, i: nat): nat
    requires Inv(l) && i < |l.positions|
  {
    var after := Step(l, a);
    if i < |after.positions| then LegsSettled(l.positions[i], after.positions[i]) else 0
  }

  /** What leaves position `i` in one transaction, in whole units. */
  ghost function Outflow(l: Ledger, a: Action, i: nat): nat
    requires Inv(l) && i < |l.positions|
  {
    PaidTo(l, a, i) + Discarded(l, a, i)
  }

  ghost predicate Accounts(l: Ledger, a: Action, i: nat)
    requires Inv(l) && i < |l.positions|
  {
    var after := Step(l, a);
    && i < |after.positions|
    && var had := Claim(l.pool.accEqual, l.accTier, l.positions[i]) + Earned(l, a, i);
       var has := Claim(after.pool.accEqual, after.accTier, after.positions[i]);
       has + ACC_PRECISION * Outflow(l, a, i) <= had
       <= has + ACC_PRECISION * Outflow(l, a, i) + (ACC_PRECISION - 1) * LegsIn(l, a, i)
  }

  lemma AccrualAccounts(l: Ledger, fee: u64, i: nat)
    requires Inv(l) && i < |l.positions| && Accrue(l, fee).Ok?
    ensures Accounts(l, AccrueFee(fee), i)
  {
    ShapeOf(l);
    hide WeightInv;
    hide WalletInv;
    hide TierInv;
    hide Index.WellFormed;
    hide ValidConfig;
    hide IdsOk;
    hide AccumulatorUnit;
    hide BpsShare;
    hide Payment;
    var nTotal := l.pool.nReal + l.pool.blanks[0] + l.pool.blanks[1] + l.pool.blanks[2];
    ClaimGrowth(l.pool.accEqual, l.accTier, AccumulatorUnit(fee, l.pool.allocEqualBps, nTotal).value,
                AccumulatorUnit(fee, l.pool.allocTierBps, |l.tier|).value, l.positions[i]);
    hide Inv;
    hide Claim;
  }

  /** The position a transaction is addressed to; past the last one when it is addressed to none. */
  function Target(l: Ledger, a: Action): nat {
    match a
    case RejectDeposit(j) => j
    case ReleasePosition(j) => j
    case ApproveDeposit(j, att, now, supplied) => j
    case WithdrawPosition(j, now, supplied, payable) => j
    case RecordValueOf(j, value, now, supplied) => j
    case SeizePosition(j, arrangeable, now) => j
    case PromoteMember(j, supplied) => j
    case _ => |l.positions|
  }

  lemma IdleSettles(l: Ledger, i: nat, q: Position, gone: nat)
    requires Inv(l) && i < |l.positions| && l.positions[i].state != Active && q.state != Active && !q.inTier
    requires q.accrued <= l.positions[i].accrued
    requires gone == ACC_PRECISION * (l.positions[i].accrued - q.accrued)
    ensures AllSettle(l, l.(positions := l.positions[i := q]), i, gone)
  {
    assert !l.positions[i].inTier;
    hide WeightInv;
    hide WalletInv;
    hide FeeInv;
    hide TierInv;
  }

  /** No transaction is addressed to an account that no longer exists. */
  lemma TargetExists(l: Ledger, a: Action)
    requires Shape(l) && |l.pool.blanks| == 3 && Handle(l, a).Ok?
    ensures Target(l, a) < |l.positions| ==> l.positions[Target(l, a)].state != Released
    ensures Target(l, a) <= |l.positions|
  {
    hide Index.WellFormed;
    hide Index.Insert;
    hide Index.Remove;
    hide Index.Update;
    hide ExitPayout;
    hide Depart;
    hide WeightOf;
    hide PositionFeePayout;
    hide Cross;
    hide Rebalanced;
    hide UpdateConfig;
    hide Accrue;
  }

  lemma Same(l: Ledger)
    ensures forall i :: AllSettle(l, l, i, 0)
  {
    hide Claim;
  }

  lemma RecordSettles(l: Ledger, i: nat, value: u64, now: i64, supplied: seq<nat>)
    requires Inv(l) && RecordValue(l, i, value, now, supplied).Ok?
    ensures AllSettle(l, RecordValue(l, i, value, now, supplied).value, i, 0)
  {
    var p := l.positions[i];
    if ApplyRecordValue(l.pool, p, WalletOf(l.wallets, p.depositor), value, now).value.outcome.Close? {
      ClosingRecordSettles(l, i, value, now, supplied);
    } else {
      MovingRecordSettles(l, i, value, now, supplied);
    }
    hide Settles;
  }

  ghost function TargetOutflow(l: Ledger, a: Action): nat
    requires Inv(l)
  {
    if Target(l, a) < |l.positions| then Outflow(l, a, Target(l, a)) else 0
  }

  lemma TargetOutflowIs(l: Ledger, a: Action)
    requires Inv(l) && Shape(l) && |l.pool.blanks| == 3 && Handle(l, a).Ok?
    ensures a.WithdrawPosition? ==>
              && a.i < |l.positions| && ExitPayout(l.pool, l.positions[a.i], l.accTier).Ok?
              && TargetOutflow(l, a) == ExitPayout(l.pool, l.positions[a.i], l.accTier).value
    ensures a.ReleasePosition? ==> a.i < |l.positions| && TargetOutflow(l, a) == l.positions[a.i].accrued
    ensures !a.WithdrawPosition? && !a.ReleasePosition? ==> TargetOutflow(l, a) == 0
  {
    if a.WithdrawPosition? {
      WithdrawOwed(l, a.i, a.now, a.supplied);
    }
    hide ExitPayout;
    hide Inv;
    hide Withdraw;
    hide Approve;
    hide RecordValue;
    hide CloseSeized;
    hide UpdateTier;
    hide UpdateConfig;
  }

  /** All but an exit and a claimed card let nothing leave a position. */
  lemma KeptSettles(l: Ledger, a: Action)
    requires Inv(l) && !a.DepositBy? && !a.AccrueFee? && !a.WithdrawPosition? && !a.ReleasePosition?
    requires Shape(l) && |l.pool.blanks| == 3 && Handle(l, a).Ok?
    ensures AllSettle(l, Handle(l, a).value, Target(l, a), 0)
  {
    hide Inv;
    hide Shape;
    hide Approve;
    hide RecordValue;
    hide CloseSeized;
    hide UpdateTier;
    hide UpdateConfig;
    hide CommitRolls;
    hide AllSettle;
    hide Reject;
    match a
    case RejectDeposit(j) => RejectSettles(l, j);
    case ApproveDeposit(j, att, now, supplied) => ApproveSettles(l, j, att, now, supplied);
    case RecordValueOf(j, value, now, supplied) => RecordSettles(l, j, value, now, supplied);
    case SeizePosition(j, arrangeable, now) => SeizeSettles(l, j, arrangeable, now);
    case PromoteMember(j, supplied) => UpdateTierSettles(l, j, supplied);
    case ChangeConfig(update, supplied) => ConfigSettles(l, update, supplied, |l.positions|);
    case _ => QuietSettles(l, a);
  }

  lemma HandledSettles(l: Ledger, a: Action)
    requires Inv(l) && !a.DepositBy? && !a.AccrueFee?
    requires Shape(l) && |l.pool.blanks| == 3 && Handle(l, a).Ok?
    ensures AllSettle(l, Handle(l, a).value, Target(l, a), ACC_PRECISION * TargetOutflow(l, a))
  {
    TargetOutflowIs(l, a);
    hide TargetOutflow;
    hide Inv;
    hide Shape;
    hide Withdraw;
    hide ExitPayout;
    hide AllSettle;
    hide Release;
    if a.WithdrawPosition? {
      WithdrawSettles(l, a.i, a.now, a.supplied);
    } else if a.ReleasePosition? {
      ReleasedSettles(l, a.i);
    } else {
      hide Handle;
      KeptSettles(l, a);
    }
  }

  lemma RejectSettles(l: Ledger, i: nat)
    requires Inv(l) && Reject(l, i).Ok?
    ensures AllSettle(l, Reject(l, i).value, i, 0)
  {
    hide WeightInv;
    hide WalletInv;
    hide FeeInv;
    hide Index.WellFormed;
    hide AllSettle;
    assert !l.positions[i].inTier;
    IdleSettles(l, i, l.positions[i].(state := PositionState.Rejected), 0);
  }

  lemma ReleasedSettles(l: Ledger, i: nat)
    requires Inv(l) && Release(l, i).Ok?
    ensures i < |l.positions| && AllSettle(l, Release(l, i).value, i, ACC_PRECISION * l.positions[i].accrued)
  {
    hide WeightInv;
    hide WalletInv;
    hide FeeInv;
    hide Index.WellFormed;
    hide AllSettle;
    assert !l.positions[i].inTier;
    IdleSettles(l, i, l.positions[i].(state := Released, accrued := 0), ACC_PRECISION * l.positions[i].accrued);
  }

  /** Sweeps, batches and pauses leave every position and both accumulators alone. */
  lemma QuietSettles(l: Ledger, a: Action)
    requires Shape(l) && |l.pool.blanks| == 3 && Handle(l, a).Ok?
    requires a.BeginSweeping? || a.EndSweeping? || a.CommitBatch? || a.Roll? || a.SetPause?
    ensures AllSettle(l, Handle(l, a).value, |l.positions|, 0)
  {
    Same(l);
    hide Index.WellFormed;
    hide Claim;
    assert AllSettle(l, l, |l.positions|, 0);
  }

  /** Settlement, payment and discard are all that moves a claim. */
  lemma SettledAccounts(l: Ledger, a: Action, i: nat)
    requires Inv(l) && i < |l.positions| && !a.AccrueFee?
    requires AllSettle(l, Step(l, a), Target(l, a), ACC_PRECISION * TargetOutflow(l, a))
    ensures Accounts(l, a, i)
  {
    hide Claim;
    hide Payment;
    hide Step;
    hide Handle;
    hide Inv;
    assert Target(l, a) != i ==> Outflow(l, a, i) == 0;
    hide Outflow;
  }

  /** One transaction, one position: what it had and earned is what it has, was paid and lost to a
      discarded claim, less than one unit short for each leg settled. */
  lemma StepAccounts(l: Ledger, a: Action, i: nat)
    requires Inv(l) && i < |l.positions|
    ensures Accounts(l, a, i)
  {
    ShapeOf(l);
    hide Inv;
    hide Claim;
    if Handle(l, a).Err? {
      Refused(l, a, i);
    } else if a.AccrueFee? {
      AccrualAccounts(l, a.fee, i);
    } else if a.DepositBy? {
      assert Step(l, a).positions[i] == l.positions[i];
    } else {
      HandledSettles(l, a);
      hide Handle;
      hide AllSettle;
      SettledAccounts(l, a, i);
    }
  }

  lemma Refused(l: Ledger, a: Action, i: nat)
    requires Inv(l) && i < |l.positions| && Shape(l) && |l.pool.blanks| == 3 && Handle(l, a).Err?
    ensures Accounts(l, a, i)
  {
    hide Handle;
    hide Claim;
  }

  // ---- An account closes once ----

  ghost predicate Gone(l: Ledger, i: nat)
    requires i < |l.positions|
  {
    l.positions[i].state == Released && Claim(l.pool.accEqual, l.accTier, l.positions[i]) == 0
  }

  /** A withdrawal or a claimed card closes the account. */
  ghost predicate ClosesAccount(l: Ledger, a: Action, i: nat)
    requires Inv(l)
  {
    ShapeOf(l);
    (a.WithdrawPosition? || a.ReleasePosition?) && a.i == i && Handle(l, a).Ok?
  }

  lemma WithdrawReleases(l: Ledger, i: nat, now: i64, supplied: seq<nat>)
    requires Inv(l) && Withdraw(l, i, now, supplied).Ok?
    ensures var after := Withdraw(l, i, now, supplied).value;
            && |after.positions| == |l.positions|
            && after.positions[i] == ReleasedPosition(l.pool, l.positions[i], l.accTier)
  {
    var w, index := WithdrawExits(l, i, now, supplied);
    WithdrawIsFilledDeparture(l, i, now, supplied, w, index);
    hide Exits;
    hide Withdraw;
    hide FillFromCandidate;
    if l.positions[i].inTier {
      FillKeepsOthers(Departed(l, i, w, index), l.positions, supplied, i);
    }
    hide Inv;
  }

  lemma ClosingGone(l: Ledger, a: Action, i: nat)
    requires Inv(l) && i < |l.positions| && ClosesAccount(l, a, i)
    ensures i < |Step(l, a).positions| && Gone(Step(l, a), i)
    ensures PaidTo(l, a, i) == 0 || Discarded(l, a, i) == 0
  {
    ShapeOf(l);
    hide Withdraw;
    hide WeightInv;
    hide WalletInv;
    hide FeeInv;
    if a.WithdrawPosition? {
      WithdrawReleases(l, i, a.now, a.supplied);
    } else {
      assert !l.positions[i].inTier;
    }
  }

  lemma StatesStay(l: Ledger, a: Action, i: nat)
    requires Inv(l) && i < |l.positions| && l.positions[i].state == Released
    ensures i < |Step(l, a).positions| && Step(l, a).positions[i].state == Released
    ensures !ClosesAccount(l, a, i)
  {
    ShapeOf(l);
    hide Inv;
    hide Settles;
    if Handle(l, a).Ok? {
      TargetExists(l, a);
      if !a.DepositBy? && !a.AccrueFee? {
        HandledSettles(l, a);
        hide Handle;
      }
    }
  }

  /** Nothing moves for a closed account any more. */
  lemma GoneStays(l: Ledger, a: Action, i: nat)
    requires Inv(l) && i < |l.positions| && Gone(l, i)
    ensures i < |Step(l, a).positions| && Gone(Step(l, a), i)
    ensures PaidTo(l, a, i) == 0 && Discarded(l, a, i) == 0 && !ClosesAccount(l, a, i)
  {
    StatesStay(l, a, i);
    StepAccounts(l, a, i);
    assert !l.positions[i].inTier;
    hide Claim;
    hide Handle;
    hide Step;
    hide Payment;
    assert Earned(l, a, i) == 0;
  }

  // ---- Whole runs ----

  /** Totals over a run, each transaction counted at the state it met. */
  datatype Account = Account(earned: nat, paid: nat, discarded: nat, closings: nat, legs: nat)

  ghost function AccountOf(pool: Pool, capacity: u32, actions: seq<Action>, i: nat): Account
    requires ValidConfig(pool)
    decreases |actions|
  {
    if actions == [] then Account(0, 0, 0, 0, 0)
    else
      var front, a := actions[..|actions| - 1], actions[|actions| - 1];
      var before := Run(pool, capacity, front);
      var so := AccountOf(pool, capacity, front, i);
      if i < |before.positions| then
        Account(so.earned + Earned(before, a, i),
                so.paid + PaidTo(before, a, i),
                so.discarded + Discarded(before, a, i),
                so.closings + (if ClosesAccount(before, a, i) then 1 else 0),
                so.legs + LegsIn(before, a, i))
      else so
  }

  /** What an account satisfies against the position it is about. */
  ghost predicate Balanced(t: Account, l: Ledger, i: nat)
    requires i < |l.positions|
  {
    var claim := Claim(l.pool.accEqual, l.accTier, l.positions[i]);
    && claim + ACC_PRECISION * (t.paid + t.discarded) <= t.earned
       <= claim + ACC_PRECISION * (t.paid + t.discarded) + (ACC_PRECISION - 1) * t.legs
    && t.closings <= 1
    && (t.closings == 0 ==> t.paid == 0 && t.discarded == 0)
    && (t.closings == 1 ==> Gone(l, i) && (t.paid == 0 || t.discarded == 0))
  }

  lemma BalanceStep(t: Account, l: Ledger, a: Action, i: nat)
    requires Inv(l) && i < |l.positions| && Balanced(t, l, i)
    ensures i < |Step(l, a).positions|
    ensures Balanced(Account(t.earned + Earned(l, a, i), t.paid + PaidTo(l, a, i), t.discarded + Discarded(l, a, i),
                             t.closings + (if ClosesAccount(l, a, i) then 1 else 0), t.legs + LegsIn(l, a, i)),
                     Step(l, a), i)
  {
    StepAccounts(l, a, i);
    if Gone(l, i) {
      GoneStays(l, a, i);
    } else if ClosesAccount(l, a, i) {
      ClosingGone(l, a, i);
    } else {
      assert PaidTo(l, a, i) == 0 && Discarded(l, a, i) == 0;
    }
    hide Claim;
    hide Step;
    hide Earned;
    hide Gone;
    hide PaidTo;
    hide Discarded;
    hide ClosesAccount;
    hide LegsIn;
  }

  /** Over any run, for every position: what it earned is what it was paid, what a claimed card
      discarded and what it still claims, less than one unit short for each leg ever settled; and it
      is paid or discarded at most once, after which it claims nothing. */
  lemma {:induction false} EarningsAreAccountedFor(pool: Pool, capacity: u32, actions: seq<Action>, i: nat)
    requires ValidConfig(pool) && i < |Run(pool, capacity, actions).positions|
    ensures Balanced(AccountOf(pool, capacity, actions, i), Run(pool, capacity, actions), i)
    decreases |actions|
  {
    var front, a := actions[..|actions| - 1], actions[|actions| - 1];
    var before := Run(pool, capacity, front);
    ShapeOf(before);
    hide Balanced;
    hide Inv;
    hide Step;
    hide Earned;
    hide PaidTo;
    hide Discarded;
    hide ClosesAccount;
    hide LegsIn;
    if i < |before.positions| {
      EarningsAreAccountedFor(pool, capacity, front, i);
      BalanceStep(AccountOf(pool, capacity, front, i), before, a, i);
    } else {
      NotYetDeposited(pool, capacity, front, i);
      NewlyDeposited(before, a, i);
    }
  }

  lemma {:induction false} NotYetDeposited(pool: Pool, capacity: u32, actions: seq<Action>, i: nat)
    requires ValidConfig(pool) && |Run(pool, capacity, actions).positions| <= i
    ensures AccountOf(pool, capacity, actions, i) == Account(0, 0, 0, 0, 0)
    decreases |actions|
  {
    if actions != [] {
      var front, a := actions[..|actions| - 1], actions[|actions| - 1];
      PositionsRemain(Run(pool, capacity, front), a);
      NotYetDeposited(pool, capacity, front, i);
      hide Step;
    }
  }

  lemma PositionsRemain(l: Ledger, a: Action)
    requires Inv(l)
    ensures |l.positions| <= |Step(l, a).positions| <= |l.positions| + 1
    ensures |Step(l, a).positions| == |l.positions| + 1 ==> a.DepositBy?
  {
    ShapeOf(l);
    hide Inv;
    hide Settles;
    if Handle(l, a).Ok? && !a.DepositBy? && !a.AccrueFee? {
      HandledSettles(l, a);
      hide Handle;
    }
  }

  lemma NewlyDeposited(l: Ledger, a: Action, i: nat)
    requires Inv(l) && |l.positions| <= i < |Step(l, a).positions|
    ensures Balanced(Account(0, 0, 0, 0, 0), Step(l, a), i)
  {
    ShapeOf(l);
    PositionsRemain(l, a);
    hide Inv;
  }
}
