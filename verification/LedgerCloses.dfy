/** Re-attestation, seizure, promotion, configuration and accrual keep the invariant. */
module LedgerCloses {
  import opened Machine
  import opened FeeMath
  import opened State
  import opened Accounting
  import opened TierSpec
  import opened TierTheorems
  import opened Sums
  import opened Ledger
  import opened LedgerInvariant
  import opened LedgerSteps
  import Index = IndexSpec

  // ---- A close that settles onto the position ----

  /** Settling the equal leg onto a closing position, and the tier leg of a member after it, keeps
      its claim covered: each leg loses less than one unit and none is counted twice. */
  lemma CloseSettles(owed: nat, accEqual: u128, accTier: u128, p: Position, q: Position)
    requires p.state == Active && CheckpointsOk(accEqual, accTier, p) && owed <= U64_MAX
    requires Claim(accEqual, accTier, p) <= owed * ACC_PRECISION
    requires q.state != Active && q.inTier == p.inTier && q.tierCheckpoint == p.tierCheckpoint
    requires PositionFeePayout(accEqual, p.equalCheckpoint, p.accrued) == Ok(q.accrued)
    ensures !p.inTier ==>
              Claim(accEqual, accTier, q) <= Claim(accEqual, accTier, p)
              <= Claim(accEqual, accTier, q) + (ACC_PRECISION - 1)
    ensures p.inTier ==>
              var left := LeaveTier(q, accTier);
              && left.Ok? && !left.value.inTier && SameCore(q, left.value)
              && Claim(accEqual, accTier, left.value) <= Claim(accEqual, accTier, p)
                 <= Claim(accEqual, accTier, left.value) + 2 * (ACC_PRECISION - 1)
  {
  }

  /** A closing position leaves with weight and seat; what it is owed stays on it. */
  lemma ClosedKeeps(l: Ledger, pool: Pool, index: Index.Index, wallet: Wallet, i: nat, q: Position)
    requires Inv(l) && i < |l.positions| && l.positions[i].state == Active
    requires var p := l.positions[i];
      && q.state != Active && q.inTier == p.inTier && q.tierCheckpoint == p.tierCheckpoint
      && q.depositor == p.depositor && q.positionId == p.positionId
      && PositionFeePayout(l.pool.accEqual, p.equalCheckpoint, p.accrued) == Ok(q.accrued)
      && pool == l.pool.(wReal := pool.wReal, nReal := pool.nReal, blanks := pool.blanks,
                         sweepUpdates := pool.sweepUpdates)
      && |pool.blanks| == 3
      && l.pool.wReal == pool.wReal + Weight(p.recordedValue) && l.pool.nReal == pool.nReal + 1
      && Index.Remove(l.index, p.slotIndex, p.recordedValue, pool.wReal) == Ok(index)
      && wallet.activePositions + 1 == WalletOf(l.wallets, p.depositor).activePositions
      && wallet.activeValue + p.recordedValue == WalletOf(l.wallets, p.depositor).activeValue
    ensures var closed := Ledger(pool, index, l.tier, l.accTier, l.positions[i := q],
                                 l.wallets[q.depositor := wallet]);
            && (!l.positions[i].inTier ==> Inv(closed))
            && (l.positions[i].inTier ==>
                  var vacated := Vacate(closed, i);
                  && vacated.Ok? && Inv(vacated.value) && |vacated.value.tier| < pool.tierSize
                  && SeatsUnmoved(l.positions, vacated.value.positions, true))
  {
    var p := l.positions[i];
    ClaimIsOwed(l.pool.owedFees, l.pool.accEqual, l.accTier, l.positions, i);
    CloseSettles(l.pool.owedFees, l.pool.accEqual, l.accTier, p, q);
    var closed := Ledger(pool, index, l.tier, l.accTier, l.positions[i := q], l.wallets[q.depositor := wallet]);
    hide Claim;
    hide LeaveTier;
    hide WeightInv;
    hide WalletInv;
    hide TierInv;
    hide Index.Remove;
    if p.inTier {
      var left := LeaveTier(q, l.accTier).value;
      VacateLeaves(closed, i, l.positions, q, left);
      DemoteFinds(l.tier, l.positions, i);
      var vacated := Vacate(closed, i).value;
      DepartureKeeps(l, vacated, i, left);
    } else {
      DepartureKeeps(l, closed, i, q);
    }
  }

  // ---- Seizure ----

  lemma SeizeActiveKeeps(l: Ledger, i: nat)
    requires Inv(l) && i < |l.positions| && l.positions[i].state == Active
    requires DepartSeized(l.pool, l.positions[i], WalletOf(l.wallets, l.positions[i].depositor)).Ok?
    requires var p := l.positions[i];
             var (pool, seized, wallet, expected) := DepartSeized(l.pool, p, WalletOf(l.wallets, p.depositor)).value;
             Index.Remove(l.index, p.slotIndex, p.recordedValue, expected).Ok?
    ensures var p := l.positions[i];
            var (pool, seized, wallet, expected) := DepartSeized(l.pool, p, WalletOf(l.wallets, p.depositor)).value;
            var index := Index.Remove(l.index, p.slotIndex, p.recordedValue, expected).value;
            var departed := Ledger(pool, index, l.tier, l.accTier, l.positions[i := seized.(state := Seized)],
                                   l.wallets[p.depositor := wallet]);
            && (p.inTier ==> Vacate(departed, i).Ok? && Inv(Vacate(departed, i).value))
            && (!p.inTier ==> Inv(departed))
  {
    var p := l.positions[i];
    DepartEffect(l.pool, WalletOf(l.wallets, p.depositor), p.recordedValue);
    var (pool, seized, wallet, expected) := DepartSeized(l.pool, p, WalletOf(l.wallets, p.depositor)).value;
    var index := Index.Remove(l.index, p.slotIndex, p.recordedValue, expected).value;
    hide Inv;
    hide Depart;
    hide PositionFeePayout;
    hide Vacate;
    ClosedKeeps(l, pool, index, wallet, i, seized.(state := Seized));
  }

  lemma SeizeKeeps(l: Ledger, i: nat, arrangeable: bool, now: i64)
    requires Inv(l) && CloseSeized(l, i, arrangeable, now).Ok?
    ensures Inv(CloseSeized(l, i, arrangeable, now).value)
  {
    ShapeOf(l);
    var p := l.positions[i];
    hide DepartSeized;
    hide Vacate;
    if p.state == Active {
      hide Inv;
      SeizeActiveKeeps(l, i);
    } else {
      IdleKeeps(l, i, p.(state := Seized));
    }
  }

  // ---- Re-attestation ----

  lemma RecordingEffect(pool: Pool, p: Position, wallet: Wallet, value: u64, now: i64)
    requires |pool.blankFaces| == 3 && ApplyRecordValue(pool, p, wallet, value, now).Ok?
    ensures var r := ApplyRecordValue(pool, p, wallet, value, now).value;
            && p.state == Active && 0 < value && WeightOf(p.recordedValue).Ok? && pool.sweepUpdates + 1 <= U32_MAX
            && |r.pool.blanks| == 3 && r.expectedTotal == r.pool.wReal
            && (r.outcome.Close? <==> value < pool.admissionFloor && p.lockUntil <= now)
            && (r.outcome.Close? ==>
                  && 1 <= pool.nReal && pool.wReal == r.pool.wReal + Weight(p.recordedValue)
                  && r.pool == pool.(wReal := r.pool.wReal, nReal := pool.nReal - 1, blanks := r.pool.blanks,
                                     sweepUpdates := pool.sweepUpdates + 1)
                  && r.position == p.(state := ClosedBelowFloor, accrued := r.position.accrued,
                                      equalCheckpoint := pool.accEqual, recordedValue := value)
                  && PositionFeePayout(pool.accEqual, p.equalCheckpoint, p.accrued) == Ok(r.position.accrued)
                  && r.wallet.activePositions + 1 == wallet.activePositions
                  && r.wallet.activeValue + p.recordedValue == wallet.activeValue)
            && (!r.outcome.Close? ==>
                  && WeightOf(value).Ok?
                  && r.pool.wReal + Weight(p.recordedValue) == pool.wReal + Weight(value)
                  && r.pool == pool.(wReal := r.pool.wReal, blanks := r.pool.blanks,
                                     sweepUpdates := pool.sweepUpdates + 1)
                  && r.position == p.(recordedValue := value)
                  && r.wallet.activePositions == wallet.activePositions
                  && r.wallet.activeValue + p.recordedValue == wallet.activeValue + value)
  {
    hide WeightOf;
    hide Rebalance.Evaluate;
    hide PositionFeePayout;
  }

  lemma ClosingRecordKeeps(l: Ledger, i: nat, value: u64, now: i64, supplied: seq<nat>)
    requires Inv(l) && RecordValue(l, i, value, now, supplied).Ok?
    requires var p := l.positions[i];
             ApplyRecordValue(l.pool, p, WalletOf(l.wallets, p.depositor), value, now).value.outcome.Close?
    ensures Inv(RecordValue(l, i, value, now, supplied).value)
  {
    ShapeOf(l);
    var p := l.positions[i];
    var wallet := WalletOf(l.wallets, p.depositor);
    RecordingEffect(l.pool, p, wallet, value, now);
    var r := ApplyRecordValue(l.pool, p, wallet, value, now).value;
    hide Inv;
    hide ApplyRecordValue;
    hide SeatsUnmoved;
    hide Vacate;
    hide FillFromCandidate;
    hide PositionFeePayout;
    hide WeightOf;
    var index := Index.Remove(l.index, p.slotIndex, p.recordedValue, r.expectedTotal).value;
    ClosedKeeps(l, r.pool, index, r.wallet, i, r.position);
    if p.inTier {
      var closed := Ledger(r.pool, index, l.tier, l.accTier, l.positions[i := r.position],
                           l.wallets[p.depositor := r.wallet]);
      FilledKeeps(Vacate(closed, i).value, l.positions, supplied);
    }
  }

  /** A member's entry is taken out and put back at its new rank. */
  lemma RefreshedTier(tier: seq<TierEntry>, ps: seq<Position>, i: nat, q: Position, size: nat)
    requires TierInv(tier, ps) && IdsOk(ps) && i < |ps| && ps[i].inTier && |tier| <= size && 0 < size
    requires q.inTier && q.state == Active && q.positionId == i
    ensures var r := RefreshMember(tier, size, i, EntryOf(q, i));
            r.Ok? && TierInv(r.value, ps[i := q]) && |r.value| == |tier|
  {
    DemoteFinds(tier, ps, i);
    var out := ps[i].(inTier := false);
    var rest := Without(tier, IndexOf(tier, i));
    TierLeaves(tier, ps, IndexOf(tier, i), out);
    TierJoins(rest, ps[i := out], i, q);
    assert ps[i := out][i := q] == ps[i := q];
    hide TierInv;
    hide InsertRanked;
  }

  /** A live position's leaf, wallet share and entry move to the new value. */
  lemma MovedKeeps(l: Ledger, i: nat, value: u64, pool: Pool, index: Index.Index, wallet: Wallet)
    requires Inv(l) && i < |l.positions| && l.positions[i].state == Active && WeightOf(value).Ok?
    requires var p := l.positions[i];
      && pool == l.pool.(wReal := pool.wReal, blanks := pool.blanks, sweepUpdates := pool.sweepUpdates)
      && |pool.blanks| == 3
      && pool.wReal + Weight(p.recordedValue) == l.pool.wReal + Weight(value)
      && pool.wReal <= U64_MAX
      && Index.Update(l.index, p.slotIndex, p.recordedValue, value, pool.wReal) == Ok(index)
      && wallet.activePositions == WalletOf(l.wallets, p.depositor).activePositions
      && wallet.activeValue + p.recordedValue == WalletOf(l.wallets, p.depositor).activeValue + value
    ensures var p := l.positions[i];
            var q := p.(recordedValue := value);
            var moved := Ledger(pool, index, l.tier, l.accTier, l.positions[i := q], l.wallets[p.depositor := wallet]);
            && (!p.inTier ==> Inv(moved))
            && (p.inTier ==>
                  var tier := RefreshMember(l.tier, l.pool.tierSize, i, EntryOf(q, i));
                  tier.Ok? && Inv(moved.(tier := tier.value)))
  {
    hide WeightOf;
    hide Claim;
    hide ValidConfig;
    hide WalletInv;
    hide FeeInv;
    hide TierInv;
    var ps, p := l.positions, l.positions[i];
    var q := p.(recordedValue := value);
    Index.UpdateKeeps(l.index, p.slotIndex, p.recordedValue, value, pool.wReal);
    WeightMoves(l.pool.wReal, l.pool.nReal, l.index.leaves, ps, i, q);
    WalletFollows(l.wallets, ps, i, q, wallet);
    RevaluedFees(l.pool.owedFees, l.pool.accEqual, l.accTier, ps, i, q);
    RetargetedConfig(l.pool, pool);
    if p.inTier {
      RefreshedTier(l.tier, ps, i, q, l.pool.tierSize);
      hide RefreshMember;
    } else {
      TierOutsider(l.tier, ps, i, q);
    }
  }

  lemma SameClaim(accEqual: nat, accTier: nat, p: Position, q: Position)
    requires q == p.(recordedValue := q.recordedValue)
    ensures Claim(accEqual, accTier, q) == Claim(accEqual, accTier, p)
  {
  }

  /** A claim is not about the value. */
  lemma RevaluedFees(owed: u64, accEqual: u128, accTier: u128, ps: seq<Position>, i: nat, q: Position)
    requires FeeInv(owed, accEqual, accTier, ps) && i < |ps| && q == ps[i].(recordedValue := q.recordedValue)
    ensures FeeInv(owed, accEqual, accTier, ps[i := q])
  {
    SameClaim(accEqual, accTier, ps[i], q);
    FeeReplace(owed, owed, accEqual, accTier, ps, i, q);
    hide Claim;
  }

  /** What a sweep writes is no part of the configuration. */
  lemma RetargetedConfig(pool: Pool, other: Pool)
    requires ValidConfig(pool)
    requires other == pool.(wReal := other.wReal, blanks := other.blanks, sweepUpdates := other.sweepUpdates)
    ensures ValidConfig(other) && 0 < pool.tierSize && other.tierSize == pool.tierSize
    ensures other.nReal == pool.nReal && other.owedFees == pool.owedFees && other.accEqual == pool.accEqual
  {
  }

  lemma MovingRecordKeeps(l: Ledger, i: nat, value: u64, now: i64, supplied: seq<nat>)
    requires Inv(l) && RecordValue(l, i, value, now, supplied).Ok?
    requires var p := l.positions[i];
             !ApplyRecordValue(l.pool, p, WalletOf(l.wallets, p.depositor), value, now).value.outcome.Close?
    ensures Inv(RecordValue(l, i, value, now, supplied).value)
  {
    ShapeOf(l);
    var p := l.positions[i];
    var wallet := WalletOf(l.wallets, p.depositor);
    RecordingEffect(l.pool, p, wallet, value, now);
    var r := ApplyRecordValue(l.pool, p, wallet, value, now).value;
    hide Inv;
    hide ApplyRecordValue;
    hide Cross;
    hide RefreshMember;
    hide WeightOf;
    hide Rebalanced;
    var index := Index.Update(l.index, p.slotIndex, p.recordedValue, value, r.expectedTotal).value;
    MovedKeeps(l, i, value, r.pool, index, r.wallet);
    if !p.inTier {
      var moved := Ledger(r.pool, index, l.tier, l.accTier, l.positions[i := r.position],
                          l.wallets[p.depositor := r.wallet]);
      CrossedAndBalanced(moved, i, supplied);
    }
  }

  // ---- Promotion, configuration, accrual ----

  lemma UpdateTierKeeps(l: Ledger, i: nat, supplied: seq<nat>)
    requires Inv(l) && UpdateTier(l, i, supplied).Ok?
    ensures Inv(UpdateTier(l, i, supplied).value)
  {
    ShapeOf(l);
    hide Inv;
    hide Cross;
    CrossedAndBalanced(l, i, supplied);
  }

  /** Settling the evicted suffix member by member keeps fees, and leaves exactly the kept tier. */
  lemma {:induction false} SettleEvictedKeeps(owed: u64, accEqual: u128, accTier: u128, kept: seq<TierEntry>,
                                              evicted: seq<TierEntry>, ps: seq<Position>, supplied: seq<nat>)
    requires TierInv(kept + evicted, ps) && FeeInv(owed, accEqual, accTier, ps)
    requires SettleEvicted(ps, evicted, supplied, accTier).Ok?
    ensures var qs := SettleEvicted(ps, evicted, supplied, accTier).value;
            TierInv(kept, qs) && FeeInv(owed, accEqual, accTier, qs) && SameCores(ps, qs)
    decreases |evicted|
  {
    hide Claim;
    if evicted == [] {
      assert kept + evicted == kept;
    } else {
      var tier := kept + evicted;
      var e := evicted[0].position;
      assert tier[|kept|] == evicted[0] && tier[|kept|] in tier;
      assert Member(ps, evicted[0]);
      LeavingKeepsClaim(owed, accEqual, accTier, ps, e);
      var left := LeaveTier(ps[e], accTier).value;
      TierLeaves(tier, ps, |kept|, left);
      assert Without(tier, |kept|) == kept + evicted[1..];
      hide LeaveTier;
      hide TierInv;
      hide FeeInv;
      SettleEvictedKeeps(owed, accEqual, accTier, kept, evicted[1..], ps[e := left], supplied);
    }
  }

  lemma ConfigKeeps(l: Ledger, update: ConfigUpdate, supplied: seq<nat>)
    requires Inv(l) && UpdateConfig(l, update, supplied).Ok?
    ensures Inv(UpdateConfig(l, update, supplied).value)
  {
    if update.TierSize? {
      ResizeKeeps(l, update.size, supplied);
    } else {
      hide WeightInv;
      hide WalletInv;
      hide FeeInv;
      hide TierInv;
      hide Index.WellFormed;
    }
  }

  /** A smaller tier settles whom it evicts; a larger one only opens seats. */
  lemma ResizeKeeps(l: Ledger, size: u8, supplied: seq<nat>)
    requires Inv(l) && UpdateConfig(l, TierSize(size), supplied).Ok?
    ensures Inv(UpdateConfig(l, TierSize(size), supplied).value)
  {
    hide Index.WellFormed;
    hide WeightInv;
    hide WalletInv;
    hide FeeInv;
    hide TierInv;
    var (kept, evicted) := Shrink(l.tier, size);
    assert kept + evicted == l.tier;
    SettleEvictedKeeps(l.pool.owedFees, l.pool.accEqual, l.accTier, kept, evicted, l.positions, supplied);
    var qs := SettleEvicted(l.positions, evicted, supplied, l.accTier).value;
    hide SettleEvicted;
    WeightFrame(l.pool.wReal, l.pool.nReal, l.index.leaves, l.positions, qs);
    WalletFrame(l.wallets, l.positions, qs);
  }

  /** The units handed to active positions and members are within the two shares. */
  lemma SharesCover(fee: u64, equalBps: u16, tierBps: u16, nReal: nat, nTotal: u64, members: u64)
    requires nReal <= nTotal && 0 < nTotal && 0 < members
    ensures AccumulatorUnit(fee, equalBps, nTotal).Ok? && AccumulatorUnit(fee, tierBps, members).Ok?
    ensures var equalUnit, tierUnit := AccumulatorUnit(fee, equalBps, nTotal).value,
                                       AccumulatorUnit(fee, tierBps, members).value;
            equalUnit * nReal + tierUnit * members
            <= (BpsShare(fee, equalBps) + BpsShare(fee, tierBps)) * ACC_PRECISION
  {
    UnitOfShare(fee, equalBps, nTotal);
    UnitOfShare(fee, tierBps, members);
    MulMonotone(nTotal, nReal, AccumulatorUnit(fee, equalBps, nTotal).value);
    hide AccumulatorUnit;
    hide BpsShare;
  }

  /** What an accrual adds to each accumulator and to the vault's debt. */
  lemma AccrualEffect(l: Ledger, fee: u64) returns (equalUnit: nat, tierUnit: nat, shares: nat)
    requires |l.pool.blanks| == 3 && Accrue(l, fee).Ok? && |l.tier| <= U8_MAX
    ensures equalUnit * l.pool.nReal + tierUnit * |l.tier| <= shares * ACC_PRECISION
    ensures var after := Accrue(l, fee).value;
            && after.pool.accEqual == l.pool.accEqual + equalUnit && after.accTier == l.accTier + tierUnit
            && after.pool.owedFees == l.pool.owedFees + shares
            && after == l.(pool := l.pool.(accEqual := after.pool.accEqual, owedFees := after.pool.owedFees),
                           accTier := after.accTier)
  {
    var nTotal := l.pool.nReal + l.pool.blanks[0] + l.pool.blanks[1] + l.pool.blanks[2];
    UnitOfShare(fee, l.pool.allocEqualBps, nTotal);
    UnitOfShare(fee, l.pool.allocTierBps, |l.tier|);
    SharesCover(fee, l.pool.allocEqualBps, l.pool.allocTierBps, l.pool.nReal, nTotal, |l.tier|);
    equalUnit := AccumulatorUnit(fee, l.pool.allocEqualBps, nTotal).value;
    tierUnit := AccumulatorUnit(fee, l.pool.allocTierBps, |l.tier|).value;
    shares := BpsShare(fee, l.pool.allocEqualBps) + BpsShare(fee, l.pool.allocTierBps);
    hide AccumulatorUnit;
    hide BpsShare;
  }

  /** An accrual credits the vault with both shares, and the claims grow by no more: there are at
      least as many slots as active positions, and exactly as many members as seats paid. */
  lemma AccrueKeeps(l: Ledger, fee: u64)
    requires Inv(l) && Accrue(l, fee).Ok?
    ensures Inv(Accrue(l, fee).value)
  {
    ActiveCounted(l);
    hide Inv;
    hide Index.WellFormed;
    hide FeeInv;
    var equalUnit, tierUnit, shares := AccrualEffect(l, fee);
    hide Accrue;
    AccruedFees(l.pool.owedFees, l.pool.accEqual, l.accTier, equalUnit, tierUnit, l.positions, shares);
    OtherPartsStay(l, Accrue(l, fee).value);
  }

  lemma OtherPartsStay(l: Ledger, after: Ledger)
    requires Inv(l)
    requires after == l.(pool := l.pool.(accEqual := after.pool.accEqual, owedFees := after.pool.owedFees),
                         accTier := after.accTier)
    requires FeeInv(after.pool.owedFees, after.pool.accEqual, after.accTier, after.positions)
    ensures Inv(after)
  {
    hide WeightInv;
    hide WalletInv;
    hide FeeInv;
    hide TierInv;
    hide Index.WellFormed;
  }

  lemma ActiveCounted(l: Ledger)
    requires Inv(l)
    ensures l.pool.nReal == SumBy(CountOf(), l.positions) && |l.tier| == SumBy(MemberOf(), l.positions)
    ensures |l.pool.blanks| == 3 && |l.tier| <= U8_MAX
    ensures FeeInv(l.pool.owedFees, l.pool.accEqual, l.accTier, l.positions)
  {
  }

  lemma AccruedFees(owed: nat, accEqual: nat, accTier: nat, equalUnit: nat, tierUnit: nat, ps: seq<Position>,
                    shares: nat)
    requires FeeInv(owed, accEqual, accTier, ps)
    requires equalUnit * SumBy(CountOf(), ps) + tierUnit * SumBy(MemberOf(), ps) <= shares * ACC_PRECISION
    ensures FeeInv(owed + shares, accEqual + equalUnit, accTier + tierUnit, ps)
  {
    AccrualGrowth(accEqual, accTier, equalUnit, tierUnit, ps);
    forall i | 0 <= i < |ps|
      ensures CheckpointsOk(accEqual + equalUnit, accTier + tierUnit, ps[i])
    {
      ClaimGrowth(accEqual, accTier, equalUnit, tierUnit, ps[i]);
    }
    hide Claim;
  }
}
