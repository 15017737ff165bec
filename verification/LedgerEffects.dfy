/** What each instruction leaves, account by account and field by field: who moved, by how much, and
    that nothing else did. */
module LedgerEffects {
  import opened Machine
  import opened FeeMath
  import opened State
  import opened Accounting
  import opened TierSpec
  import opened TierTheorems
  import opened Ledger
  import opened LedgerInvariant
  import opened LedgerSteps
  import opened LedgerCloses
  import Index = IndexSpec

  // ---- The tier as the flagged positions ----

  function Entry(ps: seq<Position>, i: nat): TierEntry
    requires i < |ps|
  {
    TierEntry(i, ps[i].recordedValue, ps[i].activatedAt, ps[i].positionId)
  }

  /** After any run the tier is the flagged positions, in rank order, so whoever says how flags and
      values move says how the tier does. */
  lemma TierIsFlagged(l: Ledger)
    requires Inv(l)
    ensures forall j, k :: 0 <= j < k < |l.tier| ==> Outranks(l.tier[j], l.tier[k])
    ensures forall e :: e in l.tier <==>
              e.position < |l.positions| && l.positions[e.position].inTier && e == Entry(l.positions, e.position)
  {
    forall j, k | 0 <= j < k < |l.tier|
      ensures Outranks(l.tier[j], l.tier[k])
    {
      OutranksIff(l.tier[j], l.tier[k]);
    }
    hide Rank;
    hide FeeInv;
    hide WeightInv;
    hide WalletInv;
    forall e
      ensures e in l.tier <==>
              e.position < |l.positions| && l.positions[e.position].inTier && e == Entry(l.positions, e.position)
    {
      if e in l.tier {
        assert Member(l.positions, e);
      }
    }
  }

  // ---- What happens to one position's fee legs ----

  /** Whole units accrued since a checkpoint. */
  function Units(acc: nat, checkpoint: nat): nat {
    if checkpoint <= acc then (acc - checkpoint) / 1_000_000_000_000 else 0
  }

  predicate JoinsTier(p: Position, q: Position, accTier: u128) {
    q == p.(inTier := true, tierCheckpoint := accTier)
  }

  /** The tier leg is settled onto the position, and the flag falls. */
  predicate LeavesTier(p: Position, q: Position, accTier: u128) {
    && q.accrued == p.accrued + Units(accTier, p.tierCheckpoint)
    && q == p.(accrued := q.accrued, inTier := false, tierCheckpoint := accTier)
  }

  /** Everything an active position is due: what was settled, its equal leg, a member's tier leg. */
  function Due(accEqual: u128, accTier: u128, p: Position): nat {
    p.accrued + Units(accEqual, p.equalCheckpoint) + if p.inTier then Units(accTier, p.tierCheckpoint) else 0
  }

  /** The position closes as `state`, at `value`: both legs read to now, the seat given up, and `accrued`
      left on it. */
  predicate ClosesAs(accEqual: u128, accTier: u128, p: Position, q: Position, state: PositionState, value: u64,
                     accrued: nat)
  {
    && q.accrued == accrued
    && q == p.(state := state, recordedValue := value, accrued := q.accrued, equalCheckpoint := accEqual,
               inTier := false, tierCheckpoint := if p.inTier then accTier else p.tierCheckpoint)
  }

  // ---- Crossing into the tier ----

  /** Position `i` is offered to the tier and nothing else happens. Outranked by every member of a full
      tier it changes nothing; otherwise it takes a seat, and of a full tier the least leaves. */
  ghost predicate Crosses(l: Ledger, after: Ledger, i: nat)
    requires i < |l.positions| && 0 < l.pool.tierSize
  {
    var full := |l.tier| >= l.pool.tierSize;
    var ps, qs := l.positions, after.positions;
    if full && !Outranks(Entry(ps, i), l.tier[|l.tier| - 1]) then after == l
    else
      && after == l.(tier := after.tier, positions := qs) && |qs| == |ps|
      && JoinsTier(ps[i], qs[i], l.accTier)
      && (forall k :: 0 <= k < |ps| && k != i && !(full && k == l.tier[|l.tier| - 1].position) ==> qs[k] == ps[k])
      && (full ==>
            var least := l.tier[|l.tier| - 1].position;
            least < |ps| && least != i && LeavesTier(ps[least], qs[least], l.accTier))
      && |after.tier| == (if full then |l.tier| else |l.tier| + 1)
      && forall e :: e in after.tier <==>
           e == Entry(ps, i) || (e in l.tier && !(full && e == l.tier[|l.tier| - 1]))
  }

  lemma PromotedMembers(s: seq<TierEntry>, size: nat, c: TierEntry)
    requires 0 < size && Sorted(s)
    ensures var (t, outcome) := Promote(s, size, c);
            && (outcome == Promotion.Rejected <==> |s| >= size && !Outranks(c, s[|s| - 1]))
            && (outcome == Inserted <==> |s| < size)
            && (outcome == Inserted ==> |t| == |s| + 1 && forall e :: e in t <==> e == c || e in s)
            && (outcome.Swapped? ==>
                  && s != [] && outcome.evicted == s[|s| - 1] && |t| == |s|
                  && forall e :: e in t <==> e == c || (e in s && e != s[|s| - 1]))
  {
    PromotionOutcome(s, size, c);
    InsertMembers(s, c);
    hide Outranks;
    hide Sorted;
    hide InsertRanked;
    if Promote(s, size, c).1.Swapped? {
      CutMembers(s, c);
    }
    hide Before;
  }

  lemma CrossEffect(l: Ledger, i: nat, supplied: seq<nat>)
    requires FeesAndTier(l) && Eligible(l.positions, i) && Cross(l, i, supplied).Ok?
    ensures Crosses(l, Cross(l, i, supplied).value.0, i)
    ensures Cross(l, i, supplied).value.1 == Promotion.Rejected <==>
              |l.tier| >= l.pool.tierSize && !Outranks(Entry(l.positions, i), l.tier[|l.tier| - 1])
  {
    var c := EntryOf(l.positions[i], i);
    PromotedMembers(l.tier, l.pool.tierSize, c);
    MembersReady(l.tier, l.positions, l.pool.owedFees, l.pool.accEqual, l.accTier);
    hide FeesAndTier;
    hide Promote;
    hide Outranks;
    var (tier, outcome) := Promote(l.tier, l.pool.tierSize, c);
    if outcome.Swapped? {
      assert outcome.evicted in l.tier;
    }
  }

  /** Whoever holds a seat is flagged, and its leg can be settled. */
  lemma MembersReady(tier: seq<TierEntry>, ps: seq<Position>, owed: nat, accEqual: nat, accTier: nat)
    requires TierInv(tier, ps) && FeeInv(owed, accEqual, accTier, ps)
    ensures forall e :: e in tier ==>
              e.position < |ps| && ps[e.position].inTier && ps[e.position].tierCheckpoint <= accTier
  {
    forall e | e in tier
      ensures e.position < |ps| && ps[e.position].inTier && ps[e.position].tierCheckpoint <= accTier
    {
      assert Member(ps, e);
      assert CheckpointsOk(accEqual, accTier, ps[e.position]);
    }
  }

  /** Cutting off the last of a full tier after an insertion that lands before it. */
  lemma CutMembers(s: seq<TierEntry>, c: TierEntry)
    requires Sorted(s) && s != [] && Before(c, s[|s| - 1])
    ensures var all := InsertRanked(s, c);
            all[|s|] == s[|s| - 1] &&
            forall e :: e in all[..|s|] <==> e == c || (e in s && e != s[|s| - 1])
  {
    var n := |s| - 1;
    var kept, last := s[..n], s[n];
    assert InsertRanked(s, c) == InsertRanked(kept, c) + [last];
    InsertMembers(kept, c);
    hide InsertRanked;
    NextIsNew(s, n);
    hide Sorted;
    assert s == kept + [last];
    assert (InsertRanked(kept, c) + [last])[..|s|] == InsertRanked(kept, c);
  }

  /** A promotion seats the position: it is flagged from now on, the tier gains its entry, and only a
      full tier's least member is evicted for it, its leg settled. Nothing else moves. */
  lemma PromotionSeats(l: Ledger, i: nat, supplied: seq<nat>)
    requires Inv(l) && UpdateTier(l, i, supplied).Ok?
    ensures i < |l.positions| && l.positions[i].state == Active && !l.positions[i].inTier && 0 < l.pool.tierSize
    ensures var after := UpdateTier(l, i, supplied).value;
            && Crosses(l, after, i)
            && after.positions[i].inTier && after.positions[i].tierCheckpoint == l.accTier
  {
    InvParts(l);
    ShapeOf(l);
    hide Inv;
    hide FeesAndTier;
    hide Cross;
    hide Index.WellFormed;
    CrossEffect(l, i, supplied);
    hide Outranks;
  }

  // ---- Leaving the pool ----

  /** Position `i` stops counting: its weight, its slot, its share of the wallet, and `paid` out of what
      the vault owes. Blanks and the sweep's counter are said elsewhere. */
  ghost predicate LeavesPool(l: Ledger, after: Ledger, i: nat, paid: nat)
    requires i < |l.positions|
  {
    var p := l.positions[i];
    var wallet := WalletOf(l.wallets, p.depositor);
    && Weight(p.recordedValue) <= l.pool.wReal && 1 <= l.pool.nReal && paid <= l.pool.owedFees
    && after.pool == l.pool.(wReal := l.pool.wReal - Weight(p.recordedValue), nReal := l.pool.nReal - 1,
                             owedFees := l.pool.owedFees - paid, blanks := after.pool.blanks,
                             sweepUpdates := after.pool.sweepUpdates)
    && after.accTier == l.accTier
    && p.slotIndex < |l.index.leaves|
    && after.index == l.index.(leaves := l.index.leaves[p.slotIndex := 0], freed := l.index.freed + [p.slotIndex])
    && 1 <= wallet.activePositions && p.recordedValue <= wallet.activeValue
    && after.wallets == l.wallets[p.depositor := Wallet(wallet.activePositions - 1,
                                                        wallet.activeValue - p.recordedValue)]
  }

  /** Of the others, only the successor of a departing member moves: it takes the seat. */
  ghost predicate HandsOver(l: Ledger, after: Ledger, i: nat, supplied: seq<nat>)
    requires i < |l.positions|
  {
    var ps, qs := l.positions, after.positions;
    && |qs| == |ps|
    && if ps[i].inTier && supplied != [] then
         var c := supplied[0];
         && c < |ps| && c != i && ps[c].state == Active && !ps[c].inTier && JoinsTier(ps[c], qs[c], l.accTier)
         && forall k :: 0 <= k < |ps| && k != i && k != c ==> qs[k] == ps[k]
       else forall k :: 0 <= k < |ps| && k != i ==> qs[k] == ps[k]
  }

  lemma FillEffect(l: Ledger, stored: seq<Position>, supplied: seq<nat>)
    requires 0 < l.pool.tierSize && |stored| == |l.positions| && FillFromCandidate(l, stored, supplied).Ok?
    ensures supplied != [] ==> Eligible(stored, supplied[0])
    ensures var after := FillFromCandidate(l, stored, supplied).value;
            && after == l.(tier := after.tier, positions := after.positions) && |after.positions| == |l.positions|
            && forall k :: 0 <= k < |l.positions| ==>
                 if supplied != [] && k == supplied[0] then JoinsTier(l.positions[k], after.positions[k], l.accTier)
                 else after.positions[k] == l.positions[k]
  {
    hide TierSpec.FillVacancy;
  }

  /** A departed member's seat filled, over positions that are otherwise as before. */
  lemma FilledHandsOver(l: Ledger, mid: Ledger, i: nat, supplied: seq<nat>)
    requires i < |l.positions| && l.positions[i].inTier && mid.accTier == l.accTier && 0 < mid.pool.tierSize
    requires |mid.positions| == |l.positions| && mid.positions == l.positions[i := mid.positions[i]]
    requires FillFromCandidate(mid, l.positions, supplied).Ok?
    ensures var after := FillFromCandidate(mid, l.positions, supplied).value;
            && after == mid.(tier := after.tier, positions := after.positions)
            && HandsOver(l, after, i, supplied)
            && after.positions[i] == mid.positions[i]
  {
    FillEffect(mid, l.positions, supplied);
    hide FillFromCandidate;
  }

  lemma OthersStay(l: Ledger, after: Ledger, i: nat)
    requires i < |l.positions|
    requires |after.positions| == |l.positions| && after.positions == l.positions[i := after.positions[i]]
    ensures HandsOver(l, after, i, [])
    ensures !l.positions[i].inTier ==> forall supplied :: HandsOver(l, after, i, supplied)
  {
  }

  lemma RemovalEffect(x: Index.Index, slot: nat, value: u64, expected: u64)
    requires Index.Remove(x, slot, value, expected).Ok?
    ensures slot < |x.leaves| && WeightOf(value).Ok? && x.leaves[slot] == WeightOf(value).value
    ensures Index.Remove(x, slot, value, expected).value
         == x.(leaves := x.leaves[slot := 0], freed := x.freed + [slot])
  {
    hide WeightOf;
  }

  /** What an exit pays is exactly what the position is due, each leg floored by itself. */
  lemma ExitPaysDue(pool: Pool, p: Position, accTier: u128)
    requires CheckpointsOk(pool.accEqual, accTier, p) && p.state == Active && ExitPayout(pool, p, accTier).Ok?
    ensures ExitPayout(pool, p, accTier).value == Due(pool.accEqual, accTier, p)
  {
  }

  /** Tier and positions are no part of what leaves the pool. */
  lemma LeavesPoolFrame(l: Ledger, mid: Ledger, after: Ledger, i: nat, paid: nat)
    requires i < |l.positions| && LeavesPool(l, mid, i, paid)
    requires after == mid.(tier := after.tier, positions := after.positions)
    ensures LeavesPool(l, after, i, paid)
  {
  }

  lemma DepartedLeaves(l: Ledger, i: nat, now: i64, w: Withdrawal, index: Index.Index)
    requires Inv(l) && i < |l.positions| && Exits(l, i, now, w, index)
    ensures var mid, p := Departed(l, i, w, index), l.positions[i];
            && LeavesPool(l, mid, i, Due(l.pool.accEqual, l.accTier, p))
            && mid.pool.sweepUpdates == l.pool.sweepUpdates && w.blanksBefore == l.pool.blanks
            && mid.positions == l.positions[i := mid.positions[i]]
            && ClosesAs(l.pool.accEqual, l.accTier, p, mid.positions[i], Released, p.recordedValue, 0)
  {
    var p := l.positions[i];
    WithdrawalEffect(l.pool, p, WalletOf(l.wallets, p.depositor), l.accTier, now);
    RemovalEffect(l.index, w.slotIndex, w.recordedValue, w.expectedTotal);
    assert CheckpointsOk(l.pool.accEqual, l.accTier, p);
    ExitPaysDue(l.pool, p, l.accTier);
    hide Inv;
    hide ApplyWithdraw;
    hide ExitPayout;
    hide Index.Remove;
    hide Index.WellFormed;
    hide Due;
    hide Weight;
  }

  /** A withdrawal pays the leaver exactly what it is due and closes the account; its weight, slot and
      wallet share go, and a member's seat passes to the successor, if one was supplied. */
  lemma WithdrawalLeaves(l: Ledger, i: nat, now: i64, supplied: seq<nat>)
    requires Inv(l) && Withdraw(l, i, now, supplied).Ok?
    ensures i < |l.positions|
    ensures var after, p := Withdraw(l, i, now, supplied).value, l.positions[i];
            && LeavesPool(l, after, i, Due(l.pool.accEqual, l.accTier, p))
            && after.pool.sweepUpdates == l.pool.sweepUpdates
            && HandsOver(l, after, i, supplied)
            && ClosesAs(l.pool.accEqual, l.accTier, p, after.positions[i], Released, p.recordedValue, 0)
  {
    var w, index := WithdrawExits(l, i, now, supplied);
    ShapeOf(l);
    var p, mid := l.positions[i], Departed(l, i, w, index);
    WithdrawIsFilledDeparture(l, i, now, supplied, w, index);
    DepartedLeaves(l, i, now, w, index);
    hide Inv;
    hide Withdraw;
    hide Exits;
    hide Departed;
    hide Due;
    hide ClosesAs;
    hide LeavesPool;
    hide HandsOver;
    hide FillFromCandidate;
    OthersStay(l, mid, i);
    if p.inTier {
      FilledHandsOver(l, mid, i, supplied);
    }
    LeavesPoolFrame(l, mid, Withdraw(l, i, now, supplied).value, i, Due(l.pool.accEqual, l.accTier, p));
  }

  // ---- Seizure ----

  /** The leg of a closing position that was no member, or both legs of one that was. */
  lemma CloseLeavesDue(accEqual: u128, accTier: u128, p: Position, q: Position)
    requires p.state == Active && CheckpointsOk(accEqual, accTier, p)
    requires q == p.(state := q.state, recordedValue := q.recordedValue, accrued := q.accrued,
                     equalCheckpoint := accEqual)
    requires PositionFeePayout(accEqual, p.equalCheckpoint, p.accrued) == Ok(q.accrued)
    ensures !p.inTier ==> ClosesAs(accEqual, accTier, p, q, q.state, q.recordedValue, Due(accEqual, accTier, p))
    ensures p.inTier && LeaveTier(q, accTier).Ok? ==>
              ClosesAs(accEqual, accTier, p, LeaveTier(q, accTier).value, q.state, q.recordedValue,
                       Due(accEqual, accTier, p))
  {
  }

  lemma VacateEffect(l: Ledger, i: nat)
    requires i < |l.positions| && Vacate(l, i).Ok?
    ensures LeaveTier(l.positions[i], l.accTier).Ok?
    ensures var after := Vacate(l, i).value;
            && after == l.(tier := after.tier, positions := after.positions)
            && after.positions == l.positions[i := LeaveTier(l.positions[i], l.accTier).value]
  {
    hide Demote;
    hide LeaveTier;
  }

  /** A seizure of an active position takes its weight, slot, wallet share and seat and pays nobody: what
      it is due stays on it. A waiting, rejected or closed one is only marked. Seized and released
      ones are refused. */
  lemma SeizureMarks(l: Ledger, i: nat, arrangeable: bool, now: i64)
    requires Inv(l) && i < |l.positions|
    ensures Shape(l)
    ensures var p, r := l.positions[i], CloseSeized(l, i, arrangeable, now);
            && (p.state == Seized || p.state == Released ==> r == Err(InvalidPositionState))
            && (p.state == Pending || p.state == PositionState.Rejected || p.state == ClosedBelowFloor ==>
                  r == Ok(l.(positions := l.positions[i := p.(state := Seized)])))
            && (p.state == Active && r.Ok? ==>
                  && LeavesPool(l, r.value, i, 0) && r.value.pool.sweepUpdates == l.pool.sweepUpdates
                  && HandsOver(l, r.value, i, [])
                  && ClosesAs(l.pool.accEqual, l.accTier, p, r.value.positions[i], Seized, p.recordedValue,
                              Due(l.pool.accEqual, l.accTier, p)))
  {
    ShapeOf(l);
    if l.positions[i].state == Active && CloseSeized(l, i, arrangeable, now).Ok? {
      ActiveSeizure(l, i, arrangeable, now);
    }
    hide DepartSeized;
    hide Vacate;
    hide Inv;
    hide Shape;
    hide Due;
    hide LeavesPool;
    hide HandsOver;
    hide ClosesAs;
  }

  lemma ActiveSeizure(l: Ledger, i: nat, arrangeable: bool, now: i64)
    requires Inv(l) && Shape(l) && i < |l.positions| && l.positions[i].state == Active
    requires CloseSeized(l, i, arrangeable, now).Ok?
    ensures var p, after := l.positions[i], CloseSeized(l, i, arrangeable, now).value;
            && LeavesPool(l, after, i, 0) && after.pool.sweepUpdates == l.pool.sweepUpdates
            && HandsOver(l, after, i, [])
            && ClosesAs(l.pool.accEqual, l.accTier, p, after.positions[i], Seized, p.recordedValue,
                        Due(l.pool.accEqual, l.accTier, p))
  {
    var p := l.positions[i];
    var wallet := WalletOf(l.wallets, p.depositor);
    assert CheckpointsOk(l.pool.accEqual, l.accTier, p);
    hide Inv;
    hide Shape;
    hide Depart;
    hide PositionFeePayout;
    hide Index.Remove;
    hide Vacate;
    hide LeaveTier;
    hide Due;
    hide ClosesAs;
    hide Weight;
    hide CheckpointsOk;
    DepartEffect(l.pool, wallet, p.recordedValue);
    var (pool, closed, left, expected) := DepartSeized(l.pool, p, wallet).value;
    RemovalEffect(l.index, p.slotIndex, p.recordedValue, expected);
    var q := closed.(state := Seized);
    CloseLeavesDue(l.pool.accEqual, l.accTier, p, q);
    if p.inTier {
      var departed := Ledger(pool, Index.Remove(l.index, p.slotIndex, p.recordedValue, expected).value,
                             l.tier, l.accTier, l.positions[i := q], l.wallets[p.depositor := left]);
      VacateEffect(departed, i);
    }
  }

  // ---- Re-attestation ----

  /** A position that stays is counted, wherever it was, at the new value. */
  ghost predicate Revalues(l: Ledger, after: Ledger, i: nat, value: u64)
    requires i < |l.positions|
  {
    var p := l.positions[i];
    var wallet := WalletOf(l.wallets, p.depositor);
    && after.pool == l.pool.(wReal := after.pool.wReal, blanks := after.pool.blanks,
                             sweepUpdates := after.pool.sweepUpdates)
    && after.pool.wReal == l.pool.wReal - Weight(p.recordedValue) + Weight(value)
    && after.pool.sweepUpdates == l.pool.sweepUpdates + 1
    && p.slotIndex < |l.index.leaves|
    && after.index == l.index.(leaves := l.index.leaves[p.slotIndex := Weight(value)])
    && after.accTier == l.accTier
    && var held := WalletOf(after.wallets, p.depositor);
       && held.activePositions == wallet.activePositions
       && held.activeValue == wallet.activeValue - p.recordedValue + value
       && after.wallets == l.wallets[p.depositor := held]
  }

  /** The ledger with one position revalued and the pool as `after` has it. */
  ghost function Revalued(l: Ledger, after: Ledger, i: nat, value: u64): Ledger
    requires i < |l.positions|
  {
    after.(tier := l.tier, positions := l.positions[i := l.positions[i].(recordedValue := value)])
  }

  /** A re-attestation below the floor, once the lock is over, closes the position with what it is due on
      it and hands a member's seat over. Any other is counted at its new value: a member keeps its seat
      and checkpoint, a non-member is offered to the tier at the new value. */
  lemma RecordMoves(l: Ledger, i: nat, value: u64, now: i64, supplied: seq<nat>)
    requires Inv(l) && RecordValue(l, i, value, now, supplied).Ok?
    ensures i < |l.positions| && 0 < l.pool.tierSize
    ensures var after, p := RecordValue(l, i, value, now, supplied).value, l.positions[i];
            if value < l.pool.admissionFloor && p.lockUntil <= now then
              && LeavesPool(l, after, i, 0) && after.pool.sweepUpdates == l.pool.sweepUpdates + 1
              && HandsOver(l, after, i, supplied)
              && ClosesAs(l.pool.accEqual, l.accTier, p, after.positions[i], ClosedBelowFloor, value,
                          Due(l.pool.accEqual, l.accTier, p))
            else
              && Revalues(l, after, i, value)
              && (p.inTier ==> after.positions == l.positions[i := p.(recordedValue := value)])
              && (!p.inTier ==> Crosses(Revalued(l, after, i, value), after, i))
  {
    ShapeOf(l);
    var p := l.positions[i];
    var wallet := WalletOf(l.wallets, p.depositor);
    RecordingEffect(l.pool, p, wallet, value, now);
    if ApplyRecordValue(l.pool, p, wallet, value, now).value.outcome.Close? {
      ClosingRecordLeaves(l, i, value, now, supplied);
    } else {
      StayingRecordMoves(l, i, value, now, supplied);
    }
    hide Inv;
    hide Shape;
    hide RecordValue;
    hide ApplyRecordValue;
    hide LeavesPool;
    hide HandsOver;
    hide ClosesAs;
    hide Crosses;
    hide Revalues;
  }

  /** The accounting half of a close, before the seat is seen to. */
  lemma RecordCloses(l: Ledger, i: nat, value: u64, now: i64, r: Recording, index: Index.Index)
    requires Inv(l) && Shape(l) && i < |l.positions|
    requires var p := l.positions[i];
             && ApplyRecordValue(l.pool, p, WalletOf(l.wallets, p.depositor), value, now) == Ok(r) && r.outcome.Close?
             && Index.Remove(l.index, p.slotIndex, p.recordedValue, r.expectedTotal) == Ok(index)
    ensures var p := l.positions[i];
            var closed := Ledger(r.pool, index, l.tier, l.accTier, l.positions[i := r.position],
                                 l.wallets[p.depositor := r.wallet]);
            var due := Due(l.pool.accEqual, l.accTier, p);
            && r.position.inTier == p.inTier && !Eligible(l.positions[i := r.position], i)
            && LeavesPool(l, closed, i, 0) && closed.pool.sweepUpdates == l.pool.sweepUpdates + 1
            && closed.pool.tierSize == l.pool.tierSize
            && (!p.inTier ==> ClosesAs(l.pool.accEqual, l.accTier, p, r.position, ClosedBelowFloor, value, due))
            && (p.inTier && LeaveTier(r.position, l.accTier).Ok? ==>
                  ClosesAs(l.pool.accEqual, l.accTier, p, LeaveTier(r.position, l.accTier).value, ClosedBelowFloor,
                           value, due))
  {
    var p := l.positions[i];
    RecordLeavesPool(l, i, value, now, r, index);
    LegsRead(l, i);
    RecordingEffect(l.pool, p, WalletOf(l.wallets, p.depositor), value, now);
    hide Inv;
    hide Shape;
    hide ApplyRecordValue;
    hide PositionFeePayout;
    hide Index.Remove;
    hide LeaveTier;
    hide LeavesPool;
    hide Due;
    hide CheckpointsOk;
    hide ClosesAs;
    CloseLeavesDue(l.pool.accEqual, l.accTier, p, r.position);
  }

  /** Both legs of a reachable position can be read. */
  lemma LegsRead(l: Ledger, i: nat)
    requires Inv(l) && i < |l.positions|
    ensures CheckpointsOk(l.pool.accEqual, l.accTier, l.positions[i])
  {
  }

  lemma RecordLeavesPool(l: Ledger, i: nat, value: u64, now: i64, r: Recording, index: Index.Index)
    requires Shape(l) && i < |l.positions|
    requires var p := l.positions[i];
             && ApplyRecordValue(l.pool, p, WalletOf(l.wallets, p.depositor), value, now) == Ok(r) && r.outcome.Close?
             && Index.Remove(l.index, p.slotIndex, p.recordedValue, r.expectedTotal) == Ok(index)
    ensures var p := l.positions[i];
            var closed := Ledger(r.pool, index, l.tier, l.accTier, l.positions[i := r.position],
                                 l.wallets[p.depositor := r.wallet]);
            && LeavesPool(l, closed, i, 0) && closed.pool.sweepUpdates == l.pool.sweepUpdates + 1
            && closed.pool.tierSize == l.pool.tierSize
  {
    var p := l.positions[i];
    hide Index.WellFormed;
    hide ApplyRecordValue;
    hide PositionFeePayout;
    hide Index.Remove;
    hide Weight;
    RecordingEffect(l.pool, p, WalletOf(l.wallets, p.depositor), value, now);
    RemovalEffect(l.index, p.slotIndex, p.recordedValue, r.expectedTotal);
  }

  lemma ClosingRecordLeaves(l: Ledger, i: nat, value: u64, now: i64, supplied: seq<nat>)
    requires Inv(l) && Shape(l) && RecordValue(l, i, value, now, supplied).Ok?
    requires var p := l.positions[i];
             ApplyRecordValue(l.pool, p, WalletOf(l.wallets, p.depositor), value, now).value.outcome.Close?
    ensures var after, p := RecordValue(l, i, value, now, supplied).value, l.positions[i];
            && LeavesPool(l, after, i, 0) && after.pool.sweepUpdates == l.pool.sweepUpdates + 1
            && HandsOver(l, after, i, supplied)
            && ClosesAs(l.pool.accEqual, l.accTier, p, after.positions[i], ClosedBelowFloor, value,
                        Due(l.pool.accEqual, l.accTier, p))
  {
    hide Inv;
    hide Index.WellFormed;
    hide ApplyRecordValue;
    hide Index.Remove;
    hide Vacate;
    hide FillFromCandidate;
    hide LeaveTier;
    hide Due;
    hide LeavesPool;
    hide ClosesAs;
    var p := l.positions[i];
    var r := ApplyRecordValue(l.pool, p, WalletOf(l.wallets, p.depositor), value, now).value;
    var index := Index.Remove(l.index, p.slotIndex, p.recordedValue, r.expectedTotal).value;
    RecordCloses(l, i, value, now, r, index);
    if p.inTier {
      var closed := Ledger(r.pool, index, l.tier, l.accTier, l.positions[i := r.position],
                           l.wallets[p.depositor := r.wallet]);
      SeatHandedOver(l, closed, i, supplied);
      LeavesPoolFrame(l, closed, RecordValue(l, i, value, now, supplied).value, i, 0);
    }
  }

  /** Vacating a closed member's seat and filling it, over positions that are otherwise as before. */
  lemma SeatHandedOver(l: Ledger, closed: Ledger, i: nat, supplied: seq<nat>)
    requires i < |l.positions| && l.positions[i].inTier && 0 < closed.pool.tierSize && closed.accTier == l.accTier
    requires |closed.positions| == |l.positions| && closed.positions == l.positions[i := closed.positions[i]]
    requires VacateAndFill(closed, i, l.positions, supplied).Ok?
    ensures LeaveTier(closed.positions[i], l.accTier).Ok?
    ensures var after := VacateAndFill(closed, i, l.positions, supplied).value;
            && after == closed.(tier := after.tier, positions := after.positions)
            && HandsOver(l, after, i, supplied)
            && after.positions[i] == LeaveTier(closed.positions[i], l.accTier).value
  {
    hide LeaveTier;
    hide Vacate;
    hide FillFromCandidate;
    hide HandsOver;
    VacateEffect(closed, i);
    FilledHandsOver(l, Vacate(closed, i).value, i, supplied);
  }

  lemma RevaluesFrame(l: Ledger, mid: Ledger, after: Ledger, i: nat, value: u64)
    requires i < |l.positions| && Revalues(l, mid, i, value)
    requires after == mid.(tier := after.tier, positions := after.positions)
    ensures Revalues(l, after, i, value)
  {
  }

  /** The ledger of a staying position before the tier is seen to. */
  ghost function MovedLedger(l: Ledger, i: nat, value: u64, r: Recording, index: Index.Index): Ledger
    requires i < |l.positions|
  {
    var p := l.positions[i];
    Ledger(r.pool, index, l.tier, l.accTier, l.positions[i := p.(recordedValue := value)],
           l.wallets[p.depositor := r.wallet])
  }

  lemma RecordRevalues(l: Ledger, i: nat, value: u64, now: i64, r: Recording, index: Index.Index)
    requires Inv(l) && Shape(l) && i < |l.positions|
    requires var p := l.positions[i];
             && ApplyRecordValue(l.pool, p, WalletOf(l.wallets, p.depositor), value, now) == Ok(r) && !r.outcome.Close?
             && Index.Update(l.index, p.slotIndex, p.recordedValue, value, r.expectedTotal) == Ok(index)
    ensures var p, moved := l.positions[i], MovedLedger(l, i, value, r, index);
            && p.state == Active && r.position == p.(recordedValue := value)
            && Revalues(l, moved, i, value) && (!p.inTier ==> FeesAndTier(moved))
            && moved.pool.tierSize == l.pool.tierSize
  {
    var p := l.positions[i];
    RecordingEffect(l.pool, p, WalletOf(l.wallets, p.depositor), value, now);
    hide Inv;
    hide ApplyRecordValue;
    hide Index.WellFormed;
    hide RefreshMember;
    hide WeightOf;
    hide FeesAndTier;
    MovedKeeps(l, i, value, r.pool, index, r.wallet);
    if !p.inTier {
      InvParts(MovedLedger(l, i, value, r, index));
    }
  }

  lemma StayingRecordMoves(l: Ledger, i: nat, value: u64, now: i64, supplied: seq<nat>)
    requires Inv(l) && Shape(l) && RecordValue(l, i, value, now, supplied).Ok?
    requires var p := l.positions[i];
             !ApplyRecordValue(l.pool, p, WalletOf(l.wallets, p.depositor), value, now).value.outcome.Close?
    ensures var after, p := RecordValue(l, i, value, now, supplied).value, l.positions[i];
            && Revalues(l, after, i, value)
            && (p.inTier ==> after.positions == l.positions[i := p.(recordedValue := value)])
            && (!p.inTier ==> Crosses(Revalued(l, after, i, value), after, i))
  {
    hide Inv;
    hide Index.WellFormed;
    hide ApplyRecordValue;
    hide Index.Update;
    hide Cross;
    hide RefreshMember;
    hide FeesAndTier;
    hide Revalues;
    hide Crosses;
    var p := l.positions[i];
    var r := ApplyRecordValue(l.pool, p, WalletOf(l.wallets, p.depositor), value, now).value;
    var index := Index.Update(l.index, p.slotIndex, p.recordedValue, value, r.expectedTotal).value;
    RecordRevalues(l, i, value, now, r, index);
    var moved := MovedLedger(l, i, value, r, index);
    var after := RecordValue(l, i, value, now, supplied).value;
    if !p.inTier {
      CrossEffect(moved, i, supplied);
      CrossStep(moved, i, supplied);
      assert Revalued(l, after, i, value) == moved;
    }
    RevaluesFrame(l, moved, after, i, value);
  }

  lemma CrossStep(l: Ledger, i: nat, supplied: seq<nat>)
    requires FeesAndTier(l) && Eligible(l.positions, i) && Cross(l, i, supplied).Ok?
    ensures var after := Cross(l, i, supplied).value.0;
            after == l.(tier := after.tier, positions := after.positions)
  {
    CrossKeeps(l, i, supplied);
    hide FeesAndTier;
    hide Cross;
    hide SameCores;
  }

  // ---- Deposits, rejections, claims ----

  /** A deposit appends one waiting account with nothing on it, unless deposits are paused. */
  lemma DepositAppends(l: Ledger, depositor: nat)
    requires Inv(l)
    ensures Deposit(l, depositor).Ok? <==> !l.pool.depositsPaused && |l.positions| < U64_MAX
    ensures l.pool.depositsPaused ==> Deposit(l, depositor) == Err(DepositsPaused)
    ensures Deposit(l, depositor).Ok? ==>
              var after, n := Deposit(l, depositor).value, |l.positions|;
              && |after.positions| == n + 1 && after == l.(positions := after.positions)
              && (forall k :: 0 <= k < n ==> after.positions[k] == l.positions[k])
              && var p := after.positions[n];
                 && p.depositor == depositor && p.positionId == n && p.state == Pending
                 && p.recordedValue == 0 && p.accrued == 0 && p.lockUntil == 0 && p.slotIndex == 0
                 && p.activatedAt == 0 && p.equalCheckpoint == 0 && p.tierCheckpoint == 0 && !p.inTier
  {
    hide Inv;
  }

  /** A rejection marks one waiting account, never the treasury's own. */
  lemma RejectionMarks(l: Ledger, i: nat)
    ensures Reject(l, i).Ok? <==>
              i < |l.positions| && l.positions[i].state == Pending && l.positions[i].depositor != l.pool.treasury
    ensures i < |l.positions| && l.positions[i].state != Pending ==> Reject(l, i) == Err(PositionNotPending)
    ensures i < |l.positions| && l.positions[i].state == Pending && l.positions[i].depositor == l.pool.treasury ==>
              Reject(l, i) == Err(TreasuryPositionNotEligible)
    ensures Reject(l, i).Ok? ==>
              var after := Reject(l, i).value;
              && after == l.(positions := after.positions) && |after.positions| == |l.positions|
              && after.positions[i] == l.positions[i].(state := PositionState.Rejected)
              && forall k :: 0 <= k < |l.positions| && k != i ==> after.positions[k] == l.positions[k]
  {
  }

  /** A claimed card closes a rejected, closed or seized account, whatever is accrued on it. */
  lemma ReleaseCloses(l: Ledger, i: nat)
    requires i < |l.positions|
    ensures var state := l.positions[i].state;
            && (state == PositionState.Rejected || state == ClosedBelowFloor || state == Seized ==> Release(l, i).Ok?)
            && (state == Pending || state == Active || state == Released ==>
                  Release(l, i) == Err(InvalidPositionState))
    ensures Release(l, i).Ok? ==>
              var after := Release(l, i).value;
              && after == l.(positions := after.positions) && |after.positions| == |l.positions|
              && after.positions[i] == l.positions[i].(state := Released, accrued := 0)
              && forall k :: 0 <= k < |l.positions| && k != i ==> after.positions[k] == l.positions[k]
  {
  }

  // ---- Approval ----

  /** The ledger once position `i` is active in `slot` and not yet offered to the tier. */
  ghost predicate Activates(l: Ledger, mid: Ledger, i: nat, att: Attestation, now: i64)
    requires i < |l.positions|
  {
    var p := l.positions[i];
    var wallet := WalletOf(l.wallets, p.depositor);
    && mid.tier == l.tier && mid.accTier == l.accTier
    && mid.pool == l.pool.(wReal := mid.pool.wReal, nReal := mid.pool.nReal)
    && mid.pool.wReal == l.pool.wReal + Weight(att.value) && mid.pool.nReal == l.pool.nReal + 1
    && |mid.positions| == |l.positions|
    && (forall k :: 0 <= k < |l.positions| && k != i ==> mid.positions[k] == l.positions[k])
    && var q := mid.positions[i];
       && q == p.(state := Active, recordedValue := att.value, slotIndex := q.slotIndex, activatedAt := now,
                  equalCheckpoint := l.pool.accEqual, lockUntil := att.lockUntil)
       && Index.NextSlot(l.index) == Some(q.slotIndex) && q.slotIndex < |l.index.leaves|
       && l.index.leaves[q.slotIndex] == 0
       && mid.index.leaves == l.index.leaves[q.slotIndex := Weight(att.value)]
       && var held := WalletOf(mid.wallets, p.depositor);
          && held.activePositions == wallet.activePositions + 1 && held.activeValue == wallet.activeValue + att.value
          && mid.wallets == l.wallets[p.depositor := held]
  }

  /** An approval activates the deposit in the next slot, at the attested value and lock and with its
      equal leg starting now, and offers it to the tier; only the blanks move besides. */
  lemma ApprovalActivates(l: Ledger, i: nat, att: Attestation, now: i64, supplied: seq<nat>)
    returns (mid: Ledger, crossed: Ledger)
    requires Inv(l) && Approve(l, i, att, now, supplied).Ok?
    ensures i < |l.positions| && l.positions[i].state == Pending && 0 < l.pool.tierSize
    ensures Activates(l, mid, i, att, now) && i < |mid.positions| && mid.pool.tierSize == l.pool.tierSize
    ensures Crosses(mid, crossed, i)
    ensures var after := Approve(l, i, att, now, supplied).value;
            after == crossed.(pool := mid.pool.(blanks := after.pool.blanks))
  {
    ShapeOf(l);
    ApproveIsCross(l, i, att, now, supplied);
    ActivationKeeps(l, i, att, now);
    mid := ActivatedLedger(l, i, att, now);
    ActivatedIs(l, i, att, now);
    hide Inv;
    hide Shape;
    hide Activatable;
    hide ActivatedLedger;
    hide Activates;
    hide Cross;
    hide Crosses;
    hide Approve;
    hide Rebalanced;
    hide FeesAndTier;
    InvParts(mid);
    CrossEffect(mid, i, supplied);
    CrossStep(mid, i, supplied);
    crossed := Cross(mid, i, supplied).value.0;
    RebalancedKeeps(crossed.pool);
  }

  lemma ActivatedIs(l: Ledger, i: nat, att: Attestation, now: i64)
    requires Inv(l) && Shape(l) && Activatable(l, i, att.value)
    ensures var mid := ActivatedLedger(l, i, att, now);
            Activates(l, mid, i, att, now) && mid.pool.tierSize == l.pool.tierSize
  {
    Index.InsertKeeps(l.index, att.value, l.pool.wReal + Weight(att.value));
    InsertTakesNext(l.index, att.value, l.pool.wReal + Weight(att.value));
    hide Inv;
    hide Index.WellFormed;
    hide Index.Insert;
    hide Index.NextSlot;
    hide WeightOf;
  }

  lemma InsertTakesNext(x: Index.Index, value: u64, expected: u64)
    requires Index.WellFormed(x) && Index.Insert(x, value, expected).Ok?
    ensures Index.NextSlot(x) == Some(Index.Insert(x, value, expected).value.1)
  {
    hide Index.WellFormed;
  }

  // ---- Configuration, accrual, sweeps, batches ----

  /** A configuration change writes the parameters it names, each its own, and no other. */
  lemma ConfigWrites(l: Ledger, u: ConfigUpdate, supplied: seq<nat>)
    requires UpdateConfig(l, u, supplied).Ok?
    ensures var was, now := l.pool, UpdateConfig(l, u, supplied).value.pool;
            && now.admissionFloor == (if u.AdmissionFloor? then u.value else was.admissionFloor)
            && now.admissionCeiling == (if u.AdmissionCeiling? then u.value else was.admissionCeiling)
            && now.walletValueCap == (if u.WalletValueCap? then u.value else was.walletValueCap)
            && now.t04Ceiling == (if u.T04Ceiling? then u.value else was.t04Ceiling)
            && now.maxN == (if u.MaxN? then u.count else was.maxN)
            && now.buybackRateBps == (if u.BuybackRateBps? then u.bps else was.buybackRateBps)
            && now.sweepCadenceHours == (if u.SweepCadenceHours? then u.hours else was.sweepCadenceHours)
            && now.tierSize == (if u.TierSize? then u.size else was.tierSize)
            && now.price == (if u.Pricing? then u.price else was.price)
            && now.ticketTarget == (if u.Pricing? then u.ticketTarget else was.ticketTarget)
            && now.fee == (if u.Pricing? then u.fee else was.fee)
            && now.allocEqualBps == (if u.Allocation? then u.equalBps else was.allocEqualBps)
            && now.allocTierBps == (if u.Allocation? then u.tierBps else was.allocTierBps)
            && now.allocProtocolBps == (if u.Allocation? then u.protocolBps else was.allocProtocolBps)
            && now.blankFaces == (if u.BlankFaces? then u.faces else was.blankFaces)
    ensures var was, now := l.pool, UpdateConfig(l, u, supplied).value.pool;
            now == was.(admissionFloor := now.admissionFloor, admissionCeiling := now.admissionCeiling,
                        walletValueCap := now.walletValueCap, t04Ceiling := now.t04Ceiling, maxN := now.maxN,
                        buybackRateBps := now.buybackRateBps, sweepCadenceHours := now.sweepCadenceHours,
                        tierSize := now.tierSize, price := now.price, ticketTarget := now.ticketTarget,
                        fee := now.fee, allocEqualBps := now.allocEqualBps, allocTierBps := now.allocTierBps,
                        allocProtocolBps := now.allocProtocolBps, blankFaces := now.blankFaces)
  {
    hide ValidConfig;
    hide SettleEvicted;
  }

  /** Whose seats a tier of `size` takes away. */
  ghost predicate Evicted(l: Ledger, size: nat, k: nat) {
    exists j :: size <= j < |l.tier| && l.tier[j].position == k
  }

  /** A smaller tier keeps its best members and settles the leg of every other; nobody else moves, and
      any other change of configuration moves nobody. */
  lemma ConfigEvicts(l: Ledger, u: ConfigUpdate, supplied: seq<nat>)
    requires Inv(l) && UpdateConfig(l, u, supplied).Ok?
    ensures var after := UpdateConfig(l, u, supplied).value;
            && after == l.(pool := after.pool, tier := after.tier, positions := after.positions)
            && |after.positions| == |l.positions|
            && after.tier == (if u.TierSize? && u.size < |l.tier| then l.tier[..u.size] else l.tier)
            && forall k :: 0 <= k < |l.positions| ==>
                 if u.TierSize? && Evicted(l, u.size, k) then LeavesTier(l.positions[k], after.positions[k], l.accTier)
                 else after.positions[k] == l.positions[k]
  {
    if u.TierSize? {
      ResizeEvicts(l, u.size, supplied);
    }
    hide Inv;
    hide ValidConfig;
    hide SettleEvicted;
    hide Evicted;
    hide LeavesTier;
  }

  lemma ResizeEvicts(l: Ledger, size: u8, supplied: seq<nat>)
    requires Inv(l) && SettleEvicted(l.positions, Shrink(l.tier, size).1, supplied, l.accTier).Ok?
    ensures var qs := SettleEvicted(l.positions, Shrink(l.tier, size).1, supplied, l.accTier).value;
            && |qs| == |l.positions|
            && forall k :: 0 <= k < |l.positions| ==>
                 if Evicted(l, size, k) then LeavesTier(l.positions[k], qs[k], l.accTier)
                 else qs[k] == l.positions[k]
  {
    var evicted := Shrink(l.tier, size).1;
    MembersReady(l.tier, l.positions, l.pool.owedFees, l.pool.accEqual, l.accTier);
    MembersKeyed(l.tier, l.positions);
    hide Inv;
    EvictedIff(l, size);
    EvictionSettles(l.positions, evicted, supplied, l.accTier);
    hide SettleEvicted;
    hide Evicted;
    hide LeavesTier;
    assert forall e :: e in evicted ==> e in l.tier;
  }

  lemma EvictedIff(l: Ledger, size: nat)
    ensures forall k :: Evicted(l, size, k) <==> exists e :: e in Shrink(l.tier, size).1 && e.position == k
  {
    var (kept, evicted) := Shrink(l.tier, size);
    forall k: nat
      ensures Evicted(l, size, k) <==> exists e :: e in evicted && e.position == k
    {
      if e :| e in evicted && e.position == k {
        var j :| 0 <= j < |evicted| && evicted[j] == e;
        assert l.tier[|kept| + j] == e;
      }
      if Evicted(l, size, k) {
        var j :| size <= j < |l.tier| && l.tier[j].position == k;
        assert evicted[j - |kept|] == l.tier[j];
      }
    }
  }

  lemma {:induction false} EvictionSettles(ps: seq<Position>, evicted: seq<TierEntry>, supplied: seq<nat>,
                                           accTier: u128)
    requires SettleEvicted(ps, evicted, supplied, accTier).Ok? && DistinctKeys(evicted)
    requires forall e :: e in evicted ==> e.position < |ps| && ps[e.position].tierCheckpoint <= accTier
    ensures var qs := SettleEvicted(ps, evicted, supplied, accTier).value;
            && |qs| == |ps|
            && forall k :: 0 <= k < |ps| ==>
                 if exists e :: e in evicted && e.position == k then LeavesTier(ps[k], qs[k], accTier)
                 else qs[k] == ps[k]
    decreases |evicted|
  {
    if evicted != [] {
      var e := evicted[0].position;
      var left := LeaveTier(ps[e], accTier).value;
      var rest := evicted[1..];
      forall x | x in rest
        ensures x.position != e
      {
        var j :| 0 <= j < |rest| && rest[j] == x;
        assert evicted[j + 1] == x;
      }
      assert LeavesTier(ps[e], left, accTier);
      assert evicted == [evicted[0]] + rest;
      hide LeaveTier;
      hide LeavesTier;
      EvictionSettles(ps[e := left], rest, supplied, accTier);
    }
  }

  /** The three shares of a fee lose at most two units of it between them. */
  lemma SharesOfPool(pool: Pool, fee: u64)
    requires ValidConfig(pool)
    ensures fee - 2 <= BpsShare(fee, pool.allocEqualBps) + BpsShare(fee, pool.allocTierBps)
                       + BpsShare(fee, pool.allocProtocolBps) <= fee
  {
    SharesOfWhole(fee, pool.allocEqualBps, pool.allocTierBps, pool.allocProtocolBps);
    hide BpsShare;
  }

  /** Every slot a draw can land on, real or blank. */
  function Slots(pool: Pool): nat
    requires |pool.blanks| == 3
  {
    pool.nReal + pool.blanks[0] + pool.blanks[1] + pool.blanks[2]
  }

  /** `unit` is what each of `claimants` is credited of `bps` ten-thousandths of the fee. */
  ghost predicate UnitOf(fee: nat, bps: nat, claimants: nat, share: nat, unit: nat) {
    && 10_000 * share <= fee * bps < 10_000 * (share + 1)
    && unit * claimants <= share * 1_000_000_000_000 < (unit + 1) * claimants
  }

  /** An accrual credits every slot, real or blank, with its part of the equal share and every member with
      its part of the tier share, and owes both shares. */
  lemma AccrualCredits(l: Ledger, fee: u64) returns (equalShare: nat, tierShare: nat, equalUnit: nat, tierUnit: nat)
    requires Inv(l) && Accrue(l, fee).Ok?
    ensures |l.pool.blanks| == 3
    ensures UnitOf(fee, l.pool.allocEqualBps, Slots(l.pool), equalShare, equalUnit)
    ensures UnitOf(fee, l.pool.allocTierBps, |l.tier|, tierShare, tierUnit)
    ensures var after := Accrue(l, fee).value;
            && after.accTier == l.accTier + tierUnit
            && after == l.(pool := after.pool, accTier := after.accTier)
            && after.pool == l.pool.(accEqual := after.pool.accEqual, owedFees := after.pool.owedFees)
            && after.pool.accEqual == l.pool.accEqual + equalUnit
            && after.pool.owedFees == l.pool.owedFees + equalShare + tierShare
  {
    ShapeOf(l);
    hide Inv;
    var slots := Slots(l.pool);
    equalShare, tierShare := BpsShare(fee, l.pool.allocEqualBps), BpsShare(fee, l.pool.allocTierBps);
    ShareBrackets(fee, l.pool.allocEqualBps, equalShare);
    ShareBrackets(fee, l.pool.allocTierBps, tierShare);
    UnitOfShare(fee, l.pool.allocEqualBps, slots);
    UnitOfShare(fee, l.pool.allocTierBps, |l.tier|);
    hide BpsShare;
    hide AccumulatorUnit;
    equalUnit := AccumulatorUnit(fee, l.pool.allocEqualBps, slots).value;
    tierUnit := AccumulatorUnit(fee, l.pool.allocTierBps, |l.tier|).value;
  }

  /** An accrual fails exactly over no slots or no members, or when a total no longer fits. */
  lemma AccrualSucceedsIff(l: Ledger, fee: u64, equalShare: nat, tierShare: nat, equalUnit: nat, tierUnit: nat)
    requires Inv(l) && |l.pool.blanks| == 3
    requires 0 < Slots(l.pool) ==> UnitOf(fee, l.pool.allocEqualBps, Slots(l.pool), equalShare, equalUnit)
    requires l.tier != [] ==> UnitOf(fee, l.pool.allocTierBps, |l.tier|, tierShare, tierUnit)
    ensures Accrue(l, fee).Ok? <==>
            && 0 < Slots(l.pool) <= U64_MAX && l.tier != []
            && l.pool.accEqual + equalUnit <= U128_MAX && l.accTier + tierUnit <= U128_MAX
            && l.pool.owedFees + equalShare + tierShare <= U64_MAX
  {
    assert |l.tier| <= U8_MAX;
    hide Inv;
    if 0 < Slots(l.pool) <= U64_MAX && l.tier != [] {
      UnitIs(fee, l.pool.allocEqualBps, Slots(l.pool), equalShare, equalUnit);
      UnitIs(fee, l.pool.allocTierBps, |l.tier|, tierShare, tierUnit);
    }
    hide UnitOf;
    hide BpsShare;
  }

  lemma UnitIs(fee: u64, bps: u16, claimants: u64, share: nat, unit: nat)
    requires 0 < claimants && UnitOf(fee, bps, claimants, share, unit)
    ensures unit <= U128_MAX && AccumulatorUnit(fee, bps, claimants) == Ok(unit) && BpsShare(fee, bps) == share
  {
    ShareBrackets(fee, bps, share);
    UnitOfShare(fee, bps, claimants);
    var found := AccumulatorUnit(fee, bps, claimants).value;
    hide AccumulatorUnit;
    hide BpsShare;
    DivUnique(share * ACC_PRECISION, claimants, unit);
    DivUnique(share * ACC_PRECISION, claimants, found);
  }

  /** A new pool holds nothing, owes nothing and is neither paused nor swept, whatever it was configured
      from. */
  lemma GenesisIsEmpty(pool: Pool, capacity: u32)
    ensures var l := Genesis(pool, capacity);
            && l.positions == [] && l.tier == [] && l.accTier == 0 && l.wallets == map[]
            && |l.index.leaves| == capacity && (forall s :: 0 <= s < capacity ==> l.index.leaves[s] == 0)
            && l.index.freed == [] && l.index.highWater == 0
            && l.pool.nReal == 0 && l.pool.wReal == 0 && l.pool.blanks == [0, 0, 0]
            && l.pool.owedFees == 0 && l.pool.accEqual == 0
            && l.pool.openBatches == 0 && l.pool.batchCounter == 0 && l.pool.pendingRollLiability == 0
            && l.pool.sweepEpoch == 0 && l.pool.sweepUpdates == 0
            && !l.pool.sweepPending && !l.pool.depositsPaused && !l.pool.rollsPaused
            && Reconfigured(l.pool, pool)
  {
  }

  /** Both pools have the same parameters and the same treasury. */
  predicate Reconfigured(a: Pool, b: Pool) {
    && a.treasury == b.treasury && a.price == b.price && a.ticketTarget == b.ticketTarget && a.fee == b.fee
    && a.blankFaces == b.blankFaces && a.admissionFloor == b.admissionFloor
    && a.admissionCeiling == b.admissionCeiling && a.walletValueCap == b.walletValueCap
    && a.allocEqualBps == b.allocEqualBps && a.allocTierBps == b.allocTierBps
    && a.allocProtocolBps == b.allocProtocolBps && a.maxN == b.maxN && a.buybackRateBps == b.buybackRateBps
    && a.t04Ceiling == b.t04Ceiling && a.sweepCadenceHours == b.sweepCadenceHours && a.tierSize == b.tierSize
  }

  /** A sweep opens once and counts from zero; ending it advances the epoch and nothing else. A pause sets
      the two switches. */
  lemma SweepMoves(l: Ledger, deposits: bool, rolls: bool)
    requires Shape(l) && |l.pool.blanks| == 3
    ensures l.pool.sweepPending ==> Handle(l, BeginSweeping) == Err(SweepAlreadyOpen)
    ensures !l.pool.sweepPending ==>
              Handle(l, BeginSweeping).Ok? && Handle(l, EndSweeping) == Err(SweepNotOpen)
    ensures Handle(l, EndSweeping).Ok? <==> l.pool.sweepPending && l.pool.sweepEpoch < U64_MAX
    ensures Handle(l, BeginSweeping).Ok? ==>
              var after := Handle(l, BeginSweeping).value;
              && after.pool.sweepPending && after.pool.sweepUpdates == 0
              && after == l.(pool := l.pool.(sweepPending := true, sweepUpdates := 0))
    ensures Handle(l, EndSweeping).Ok? ==>
              var after := Handle(l, EndSweeping).value;
              && !after.pool.sweepPending && after.pool.sweepEpoch == l.pool.sweepEpoch + 1
              && after == l.(pool := l.pool.(sweepPending := false, sweepEpoch := after.pool.sweepEpoch))
    ensures var paused := Handle(l, SetPause(deposits, rolls));
            && paused.Ok? && paused.value.pool.depositsPaused == deposits && paused.value.pool.rollsPaused == rolls
            && paused.value == l.(pool := l.pool.(depositsPaused := deposits, rollsPaused := rolls))
  {
    hide Index.WellFormed;
  }

  /** A commit opens the one batch: it is counted, its price is owed to be settled, and nothing else
      moves. */
  lemma CommitOpens(l: Ledger, n: u8)
    requires CommitRolls(l, n).Ok?
    ensures var pool := CommitRolls(l, n).value.pool;
            && l.pool.openBatches == 0 && pool.openBatches == 1
            && pool.batchCounter == l.pool.batchCounter + 1
            && pool.pendingRollLiability == l.pool.pendingRollLiability + n * l.pool.price
            && CommitRolls(l, n).value
               == l.(pool := l.pool.(openBatches := 1, batchCounter := pool.batchCounter,
                                     pendingRollLiability := pool.pendingRollLiability))
  {
  }
}
