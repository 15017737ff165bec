/** When a re-attestation, a promotion and a configuration change succeed. */
module LedgerRecord {
  import opened Machine
  import opened FeeMath
  import opened State
  import opened Accounting
  import opened TierSpec
  import opened Leaves
  import opened Ledger
  import opened LedgerInvariant
  import opened LedgerSteps
  import opened LedgerCloses
  import opened LedgerTheorems
  import opened LedgerLife
  import opened RebalanceTheorems
  import Index = IndexSpec
  import TierTheorems

  predicate Closes(pool: Pool, p: Position, value: u64, now: i64) {
    value < pool.admissionFloor && p.lockUntil <= now
  }

  /** The guards of a re-attestation. */
  ghost predicate MayRecord(l: Ledger, i: nat, value: u64)
    requires i < |l.positions|
  {
    && l.pool.sweepPending && l.pool.openBatches == 0 && l.positions[i].state == Active
    && 0 < value && l.pool.sweepUpdates + 1 <= U32_MAX
  }

  /** The pool after the weight of one position moved, before its blanks are re-evaluated. */
  ghost function Reweighed(pool: Pool, was: u64, value: u64): Pool {
    var wReal := pool.wReal - Weight(was) + Weight(value);
    if 0 <= wReal <= U128_MAX then pool.(wReal := wReal) else pool
  }

  /** What the new value must satisfy for the position to stay. */
  ghost predicate Reweighable(l: Ledger, i: nat, value: u64)
    requires i < |l.positions| && |l.pool.blankFaces| == 3
  {
    var p := l.positions[i];
    && value <= WEIGHT_C && l.pool.wReal - Weight(p.recordedValue) + Weight(value) <= U64_MAX
    && WalletOf(l.wallets, p.depositor).activeValue - p.recordedValue + value <= U64_MAX
    && CanRebalance(Reweighed(l.pool, p.recordedValue, value))
  }

  /** The counters a live position's re-attestation takes from all cover it, and its leg settles. */
  lemma RecordCovered(l: Ledger, i: nat)
    requires Inv(l) && i < |l.positions| && l.positions[i].state == Active
    ensures var p := l.positions[i];
            var wallet := WalletOf(l.wallets, p.depositor);
            && |l.pool.blankFaces| == 3 && WeightOf(p.recordedValue).Ok?
            && Weight(p.recordedValue) <= l.pool.wReal <= U64_MAX && 1 <= l.pool.nReal
            && 1 <= wallet.activePositions && p.recordedValue <= wallet.activeValue
            && PositionFeePayout(l.pool.accEqual, p.equalCheckpoint, p.accrued).Ok?
  {
    DepartCovered(l, i);
    ClaimIsOwed(l.pool.owedFees, l.pool.accEqual, l.accTier, l.positions, i);
    EqualLegFits(l.pool, l.positions[i], l.accTier);
    hide WeightInv;
    hide WalletInv;
    hide TierInv;
    hide Claim;
    hide PositionFeePayout;
  }

  /** The guards hold and every counter covers the position. */
  ghost predicate Recordable(pool: Pool, p: Position, wallet: Wallet, value: u64) {
    && |pool.blankFaces| == 3 && pool.sweepPending && pool.openBatches == 0 && p.state == Active && 0 < value
    && pool.sweepUpdates + 1 <= U32_MAX && WeightOf(p.recordedValue).Ok?
    && Weight(p.recordedValue) <= pool.wReal <= U64_MAX && 1 <= pool.nReal
    && 1 <= wallet.activePositions && p.recordedValue <= wallet.activeValue
    && PositionFeePayout(pool.accEqual, p.equalCheckpoint, p.accrued).Ok?
  }

  lemma ClosingApplies(pool: Pool, p: Position, wallet: Wallet, value: u64, now: i64)
    requires Recordable(pool, p, wallet, value) && Closes(pool, p, value, now)
    ensures ApplyRecordValue(pool, p, wallet, value, now).Ok? <==> CanRebalance(Remaining(pool, p.recordedValue))
  {
    RebalancesIff(Remaining(pool, p.recordedValue).(sweepUpdates := pool.sweepUpdates + 1));
    hide WeightOf;
    hide PositionFeePayout;
    hide Rebalanced;
    hide Targetable;
  }

  lemma StayingApplies(pool: Pool, p: Position, wallet: Wallet, value: u64, now: i64)
    requires Recordable(pool, p, wallet, value) && !Closes(pool, p, value, now)
    ensures ApplyRecordValue(pool, p, wallet, value, now).Ok? <==>
            && value <= WEIGHT_C && pool.wReal - Weight(p.recordedValue) + Weight(value) <= U64_MAX
            && wallet.activeValue - p.recordedValue + value <= U64_MAX
            && CanRebalance(Reweighed(pool, p.recordedValue, value))
  {
    RebalancesIff(Reweighed(pool, p.recordedValue, value).(sweepUpdates := pool.sweepUpdates + 1));
    hide WeightOf;
    hide PositionFeePayout;
    hide Rebalanced;
    hide Targetable;
  }

  /** The accounting half: only the guards, the target and the widths can refuse it. */
  lemma ApplyRecordSucceedsIff(l: Ledger, i: nat, value: u64, now: i64)
    requires Inv(l) && i < |l.positions|
    ensures var p := l.positions[i];
            && |l.pool.blankFaces| == 3
            && (ApplyRecordValue(l.pool, p, WalletOf(l.wallets, p.depositor), value, now).Ok? <==>
                && MayRecord(l, i, value)
                && if Closes(l.pool, p, value, now) then CanRebalance(Remaining(l.pool, p.recordedValue))
                   else Reweighable(l, i, value))
  {
    var p := l.positions[i];
    var wallet := WalletOf(l.wallets, p.depositor);
    if MayRecord(l, i, value) {
      RecordCovered(l, i);
      if Closes(l.pool, p, value, now) {
        ClosingApplies(l.pool, p, wallet, value, now);
      } else {
        StayingApplies(l.pool, p, wallet, value, now);
      }
      hide ApplyRecordValue;
      hide WeightOf;
      hide PositionFeePayout;
      hide CanRebalance;
    }
    hide Inv;
  }

  /** A live position's leaf verifies, and takes any representable weight the aggregate has room for. */
  lemma UpdateNeverDesyncs(l: Ledger, i: nat, value: u64)
    requires Inv(l) && i < |l.positions| && l.positions[i].state == Active && 0 < value <= WEIGHT_C
    requires l.pool.wReal - Weight(l.positions[i].recordedValue) + Weight(value) <= U64_MAX
    ensures var p := l.positions[i];
            && Weight(p.recordedValue) <= l.pool.wReal
            && Index.Update(l.index, p.slotIndex, p.recordedValue, value,
                            l.pool.wReal - Weight(p.recordedValue) + Weight(value)).Ok?
  {
    var p := l.positions[i];
    assert Placed(l.index.leaves, p);
    LeafWithinTotal(l.index.leaves, p.slotIndex);
  }

  /** Exactly when a re-attestation succeeds after any run. Above the floor, or locked, the new value
      must fit and a non-member that now displaces somebody must bring them; below it and unlocked
      the position leaves, and a member's supplied successor, if any, must be eligible. */
  lemma RecordSucceedsIff(l: Ledger, i: nat, value: u64, now: i64, supplied: seq<nat>)
    requires Inv(l) && i < |l.positions|
    ensures var p := l.positions[i];
            RecordValue(l, i, value, now, supplied).Ok? <==>
            && MayRecord(l, i, value)
            && if Closes(l.pool, p, value, now) then
                 && CanRebalance(Remaining(l.pool, p.recordedValue))
                 && (p.inTier && supplied != [] ==> Eligible(l.positions, supplied[0]))
               else
                 && Reweighable(l, i, value)
                 && (p.inTier || DisplacedSupplied(l, EntryOf(p.(recordedValue := value), i), supplied))
  {
    ApplyRecordSucceedsIff(l, i, value, now);
    var p := l.positions[i];
    var r := ApplyRecordValue(l.pool, p, WalletOf(l.wallets, p.depositor), value, now);
    if r.Ok? {
      RecordingEffect(l.pool, p, WalletOf(l.wallets, p.depositor), value, now);
      if r.value.outcome.Close? {
        ClosingRecordSucceedsIff(l, i, value, now, supplied);
      } else {
        MovingRecordSucceedsIff(l, i, value, now, supplied);
      }
    }
    hide ApplyRecordValue;
    hide Inv;
    hide CanRebalance;
    hide Remaining;
    hide Reweighable;
    hide DisplacedSupplied;
  }

  lemma ClosingRecordSucceedsIff(l: Ledger, i: nat, value: u64, now: i64, supplied: seq<nat>)
    requires Inv(l) && i < |l.positions|
    requires var p := l.positions[i];
             var r := ApplyRecordValue(l.pool, p, WalletOf(l.wallets, p.depositor), value, now);
             r.Ok? && r.value.outcome.Close?
    ensures RecordValue(l, i, value, now, supplied).Ok? <==>
            (l.positions[i].inTier && supplied != [] ==> Eligible(l.positions, supplied[0]))
  {
    ShapeOf(l);
    var p := l.positions[i];
    var wallet := WalletOf(l.wallets, p.depositor);
    RecordingEffect(l.pool, p, wallet, value, now);
    RemoveNeverDesyncs(l, i);
    var r := ApplyRecordValue(l.pool, p, wallet, value, now).value;
    hide Inv;
    hide ApplyRecordValue;
    hide SeatsUnmoved;
    hide Vacate;
    hide FillFromCandidate;
    hide PositionFeePayout;
    hide WeightOf;
    var index := Index.Remove(l.index, p.slotIndex, p.recordedValue, r.expectedTotal).value;
    ClosedKeeps(l, r.pool, index, r.wallet, i, r.position);
    if p.inTier {
      var closed := Ledger(r.pool, index, l.tier, l.accTier, l.positions[i := r.position],
                           l.wallets[p.depositor := r.wallet]);
      FilledKeeps(Vacate(closed, i).value, l.positions, supplied);
    }
  }

  lemma MovingRecordSucceedsIff(l: Ledger, i: nat, value: u64, now: i64, supplied: seq<nat>)
    requires Inv(l) && i < |l.positions|
    requires var p := l.positions[i];
             var r := ApplyRecordValue(l.pool, p, WalletOf(l.wallets, p.depositor), value, now);
             r.Ok? && !r.value.outcome.Close?
    ensures 0 < l.pool.tierSize
    ensures var p := l.positions[i];
            RecordValue(l, i, value, now, supplied).Ok? <==>
            p.inTier || DisplacedSupplied(l, EntryOf(p.(recordedValue := value), i), supplied)
  {
    ShapeOf(l);
    var p := l.positions[i];
    var wallet := WalletOf(l.wallets, p.depositor);
    RecordingEffect(l.pool, p, wallet, value, now);
    var r := ApplyRecordValue(l.pool, p, wallet, value, now).value;
    UpdateNeverDesyncs(l, i, value);
    hide Inv;
    hide ApplyRecordValue;
    hide Cross;
    hide RefreshMember;
    hide WeightOf;
    hide Rebalanced;
    var index := Index.Update(l.index, p.slotIndex, p.recordedValue, value, r.expectedTotal).value;
    MovedKeeps(l, i, value, r.pool, index, r.wallet);
    if !p.inTier {
      var moved := Ledger(r.pool, index, l.tier, l.accTier, l.positions[i := r.position],
                          l.wallets[p.depositor := r.wallet]);
      InvParts(moved);
      CrossSucceedsIff(moved, i, supplied);
    }
    hide DisplacedSupplied;
  }

  // ---- Promotion and configuration ----

  /** Exactly when a promotion succeeds: an eligible candidate finds an open seat or outranks the
      minimum, who must then have been supplied. */
  lemma UpdateTierSucceedsIff(l: Ledger, i: nat, supplied: seq<nat>)
    requires Inv(l) && Eligible(l.positions, i)
    ensures 0 < l.pool.tierSize
    ensures var c := EntryOf(l.positions[i], i);
            UpdateTier(l, i, supplied).Ok? <==>
            && (|l.tier| < l.pool.tierSize || Before(c, l.tier[|l.tier| - 1]))
            && DisplacedSupplied(l, c, supplied)
  {
    ShapeOf(l);
    InvParts(l);
    CrossSucceedsIff(l, i, supplied);
    if Cross(l, i, supplied).Ok? {
      CrossRejects(l, i, supplied);
    }
    hide Inv;
    hide Cross;
    hide Before;
  }

  lemma CrossRejects(l: Ledger, i: nat, supplied: seq<nat>)
    requires 0 < l.pool.tierSize && i < |l.positions| && Cross(l, i, supplied).Ok?
    ensures Cross(l, i, supplied).value.1 == Promotion.Rejected <==>
            |l.tier| >= l.pool.tierSize && !Before(EntryOf(l.positions[i], i), l.tier[|l.tier| - 1])
  {
    hide PositionFeePayout;
    hide InsertRanked;
    hide Before;
  }

  ghost predicate AllSupplied(evicted: seq<TierEntry>, supplied: seq<nat>) {
    forall e :: e in evicted ==> e.position in supplied
  }

  /** Settling evicted members fails only for one that was not supplied. */
  lemma {:induction false} SettleEvictedSucceedsIff(owed: u64, accEqual: u128, accTier: u128, kept: seq<TierEntry>,
                                                    evicted: seq<TierEntry>, ps: seq<Position>, supplied: seq<nat>)
    requires TierInv(kept + evicted, ps) && FeeInv(owed, accEqual, accTier, ps)
    ensures SettleEvicted(ps, evicted, supplied, accTier).Ok? <==> AllSupplied(evicted, supplied)
    decreases |evicted|
  {
    hide Claim;
    if evicted != [] {
      var tier := kept + evicted;
      var e := evicted[0].position;
      assert tier[|kept|] == evicted[0] && tier[|kept|] in tier;
      assert Member(ps, evicted[0]);
      LeavingKeepsClaim(owed, accEqual, accTier, ps, e);
      var left := LeaveTier(ps[e], accTier).value;
      TierLeaves(tier, ps, |kept|, left);
      assert TierTheorems.Without(tier, |kept|) == kept + evicted[1..];
      assert evicted == [evicted[0]] + evicted[1..];
      hide LeaveTier;
      hide TierInv;
      hide FeeInv;
      SettleEvictedSucceedsIff(owed, accEqual, accTier, kept, evicted[1..], ps[e := left], supplied);
    }
  }

  /** What the guard asks of a configuration, in numbers. */
  lemma GuardIs(pool: Pool)
    ensures ValidConfig(pool) <==>
            && pool.ticketTarget < pool.admissionFloor
            && |pool.blankFaces| == 3
            && 0 < pool.blankFaces[0] < pool.ticketTarget
            && 0 < pool.blankFaces[1] < pool.ticketTarget
            && 0 < pool.blankFaces[2] < pool.ticketTarget
            && pool.allocEqualBps + pool.allocTierBps + pool.allocProtocolBps == 10_000
            && pool.price - pool.ticketTarget == pool.fee
            && 0 < pool.maxN < 11 && 0 < pool.tierSize < 21
  {
    var faces := pool.blankFaces;
    assert |faces| == 3 ==>
             ((forall d :: 0 <= d < 3 ==> 0 < faces[d] < pool.ticketTarget) <==>
              0 < faces[0] < pool.ticketTarget && 0 < faces[1] < pool.ticketTarget && 0 < faces[2] < pool.ticketTarget);
  }

  /** Exactly when a configuration change succeeds: the result passes the guard, no batch is open if
      it re-targets, and every member a smaller tier evicts was supplied. */
  lemma ConfigSucceedsIff(l: Ledger, update: ConfigUpdate, supplied: seq<nat>)
    requires Inv(l)
    ensures UpdateConfig(l, update, supplied).Ok? <==>
            && ValidConfig(Configured(l.pool, update))
            && (RequiresFreeze(l.pool, update) ==> l.pool.openBatches == 0)
            && (update.TierSize? ==> AllSupplied(Shrink(l.tier, update.size).1, supplied))
  {
    if update.TierSize? {
      var (kept, evicted) := Shrink(l.tier, update.size);
      assert kept + evicted == l.tier;
      SettleEvictedSucceedsIff(l.pool.owedFees, l.pool.accEqual, l.accTier, kept, evicted, l.positions, supplied);
    }
    hide SettleEvicted;
    hide FeeInv;
    hide TierInv;
    hide WeightInv;
    hide WalletInv;
  }
}
