/** When the pool's tier is the best of its active positions, and which instructions keep it so. */
module LedgerBest {
  import opened Machine
  import opened FeeMath
  import opened State
  import opened Accounting
  import opened TierSpec
  import opened TierTheorems
  import opened Sums
  import opened TierResolver
  import opened Ledger
  import opened LedgerInvariant
  import opened LedgerSteps
  import opened LedgerCloses
  import opened LedgerTheorems
  import opened LedgerRecord
  import Index = IndexSpec

  ghost function ActiveEntries(ps: seq<Position>): set<TierEntry> {
    set i | 0 <= i < |ps| && ps[i].state == Active :: EntryOf(ps[i], i)
  }

  ghost predicate TierIsBest(l: Ledger) {
    IsBest(l.tier, ActiveEntries(l.positions), l.pool.tierSize)
  }

  lemma ActiveAreRanked(ps: seq<Position>)
    requires IdsOk(ps)
    ensures Ranked(ActiveEntries(ps))
  {
  }

  /** Only entry `i` moves when position `i` does. */
  lemma ActiveMoves(ps: seq<Position>, i: nat, q: Position)
    requires i < |ps|
    ensures ActiveEntries(ps[i := q]) == (ActiveEntries(ps) - {EntryOf(ps[i], i)})
                                         + if q.state == Active then {EntryOf(q, i)} else {}
    ensures EntryOf(q, i) !in ActiveEntries(ps) - {EntryOf(ps[i], i)}
  {
    var qs := ps[i := q];
    forall e
      ensures e in ActiveEntries(qs) <==> e in (ActiveEntries(ps) - {EntryOf(ps[i], i)})
                                               + if q.state == Active then {EntryOf(q, i)} else {}
    {
      if e in ActiveEntries(qs) {
        var j :| 0 <= j < |qs| && qs[j].state == Active && EntryOf(qs[j], j) == e;
        assert j != i ==> EntryOf(ps[j], j) == e;
      }
      if e in ActiveEntries(ps) - {EntryOf(ps[i], i)} {
        var j :| 0 <= j < |ps| && ps[j].state == Active && EntryOf(ps[j], j) == e;
        assert EntryOf(qs[j], j) == e;
      }
      if q.state == Active {
        assert EntryOf(qs[i], i) == EntryOf(q, i);
      }
    }
  }

  lemma ActiveSame(ps: seq<Position>, qs: seq<Position>)
    requires SameCores(ps, qs)
    ensures ActiveEntries(ps) == ActiveEntries(qs)
  {
    forall i | 0 <= i < |ps|
      ensures EntryOf(ps[i], i) == EntryOf(qs[i], i)
    {
    }
  }

  /** A crossing leaves the tier that promotion leaves. */
  lemma CrossTier(l: Ledger, i: nat, supplied: seq<nat>)
    requires 0 < l.pool.tierSize && i < |l.positions| && Cross(l, i, supplied).Ok?
    ensures var after := Cross(l, i, supplied).value.0;
            && after.tier == Promote(l.tier, l.pool.tierSize, EntryOf(l.positions[i], i)).0
            && SameCores(l.positions, after.positions)
  {
    hide PositionFeePayout;
  }

  /** Position `i` was not among the active, or was active outside the tier; offering it at its
      present value makes the tier the best of the present active set. */
  lemma CrossMakesBest(l: Ledger, before: seq<Position>, i: nat, supplied: seq<nat>)
    requires 0 < l.pool.tierSize && i < |before| == |l.positions| && l.positions == before[i := l.positions[i]]
    requires IdsOk(before) && Cross(l, i, supplied).Ok?
    requires l.positions[i].state == Active && l.positions[i].positionId == i
    requires EntryOf(before[i], i) !in l.tier && IsBest(l.tier, ActiveEntries(before), l.pool.tierSize)
    ensures TierIsBest(Cross(l, i, supplied).value.0)
  {
    var all, was, c := ActiveEntries(before), EntryOf(before[i], i), EntryOf(l.positions[i], i);
    NonMemberDeparture(l.tier, all, l.pool.tierSize, was);
    ActiveMoves(before, i, l.positions[i]);
    ActiveAreRanked(l.positions);
    ActivationKeepsBest(l.tier, all - {was}, l.pool.tierSize, c);
    CrossTier(l, i, supplied);
    ActiveSame(l.positions, Cross(l, i, supplied).value.0.positions);
    hide Cross;
    hide Promote;
  }

  lemma NotMember(l: Ledger, i: nat)
    requires Inv(l) && i < |l.positions| && !l.positions[i].inTier
    ensures EntryOf(l.positions[i], i) !in l.tier
  {
    forall e | e in l.tier
      ensures e != EntryOf(l.positions[i], i)
    {
      assert Member(l.positions, e);
    }
  }

  /** An approval keeps the tier the best of the active positions. */
  lemma ApproveKeepsBest(l: Ledger, i: nat, att: Attestation, now: i64, supplied: seq<nat>)
    requires Inv(l) && Approve(l, i, att, now, supplied).Ok? && TierIsBest(l)
    ensures TierIsBest(Approve(l, i, att, now, supplied).value)
  {
    ShapeOf(l);
    ApproveIsCross(l, i, att, now, supplied);
    NotMember(l, i);
    assert l.positions[i].positionId == i;
    var activated := ActivatedLedger(l, i, att, now);
    hide Inv;
    hide Approve;
    hide Cross;
    hide Rebalanced;
    hide Index.Insert;
    hide IsBest;
    CrossMakesBest(activated, l.positions, i, supplied);
    CrossPool(activated, i, supplied);
    RebalancedKeeps(activated.pool);
  }

  /** A re-attestation of a non-member keeps the tier the best, whichever way the value moved. */
  lemma NonMemberRecordKeepsBest(l: Ledger, i: nat, value: u64, now: i64, supplied: seq<nat>)
    requires Inv(l) && RecordValue(l, i, value, now, supplied).Ok? && TierIsBest(l) && !l.positions[i].inTier
    ensures TierIsBest(RecordValue(l, i, value, now, supplied).value)
  {
    ShapeOf(l);
    NotMember(l, i);
    assert l.positions[i].positionId == i;
    var p := l.positions[i];
    var wallet := WalletOf(l.wallets, p.depositor);
    RecordingEffect(l.pool, p, wallet, value, now);
    var r := ApplyRecordValue(l.pool, p, wallet, value, now).value;
    hide Inv;
    hide ApplyRecordValue;
    hide Cross;
    hide WeightOf;
    hide IsBest;
    hide Index.Update;
    if r.outcome.Close? {
      var q := r.position;
      NonMemberDeparture(l.tier, ActiveEntries(l.positions), l.pool.tierSize, EntryOf(p, i));
      ActiveMoves(l.positions, i, q);
    } else {
      var index := Index.Update(l.index, p.slotIndex, p.recordedValue, value, r.expectedTotal).value;
      var recorded := Ledger(r.pool, index, l.tier, l.accTier, l.positions[i := r.position],
                             l.wallets[p.depositor := r.wallet]);
      CrossMakesBest(recorded, l.positions, i, supplied);
    }
  }

  /** A re-attestation that leaves a member in place, refreshed or retained, keeps the tier the best
      exactly when its new entry still outranks every active non-member: nothing re-examines those. */
  lemma MemberRecordKeepsBestIff(l: Ledger, i: nat, value: u64, now: i64, supplied: seq<nat>)
    requires Inv(l) && RecordValue(l, i, value, now, supplied).Ok? && TierIsBest(l) && l.positions[i].inTier
    requires !Closes(l.pool, l.positions[i], value, now)
    ensures TierIsBest(RecordValue(l, i, value, now, supplied).value) <==>
            LeadsWaiting(l, EntryOf(l.positions[i].(recordedValue := value), i))
  {
    ShapeOf(l);
    assert l.positions[i].positionId == i;
    var p := l.positions[i];
    var wallet := WalletOf(l.wallets, p.depositor);
    RecordingEffect(l.pool, p, wallet, value, now);
    var r := ApplyRecordValue(l.pool, p, wallet, value, now).value;
    var e, renewed := EntryOf(p, i), EntryOf(r.position, i);
    MembersKeyed(l.tier, l.positions);
    ActiveMoves(l.positions, i, r.position);
    assert IdsOk(l.positions[i := r.position]);
    ActiveAreRanked(l.positions[i := r.position]);
    RefreshIff(l.tier, ActiveEntries(l.positions), l.pool.tierSize, e, renewed);
    hide Inv;
    hide ApplyRecordValue;
    hide RefreshMember;
    hide Cross;
    hide Before;
    hide IsBest;
    hide WeightOf;
  }

  // ---- Members who leave ----

  /** Nobody active is outside the tier. */
  ghost predicate NobodyWaits(l: Ledger) {
    forall y :: y in ActiveEntries(l.positions) ==> y in l.tier
  }

  ghost predicate LeadsWaiting(l: Ledger, x: TierEntry) {
    forall y :: y in ActiveEntries(l.positions) && y !in l.tier && y != x ==> Before(x, y)
  }

  /** The successor handed in for a leaving member: nobody when nobody waits, else the best of those
      who do. */
  ghost predicate RightSuccessor(l: Ledger, supplied: seq<nat>) {
    if supplied == [] then NobodyWaits(l)
    else supplied[0] < |l.positions| && LeadsWaiting(l, EntryOf(l.positions[supplied[0]], supplied[0]))
  }

  lemma VacatedTier(l: Ledger, closed: Ledger, i: nat, q: Position)
    requires i < |l.positions| && closed.positions == l.positions[i := q] && closed.tier == l.tier
    requires Vacate(closed, i).Ok?
    ensures var vacated := Vacate(closed, i).value;
            && vacated.tier == Demote(l.tier, i).0 && vacated.pool == closed.pool
            && vacated.positions == l.positions[i := vacated.positions[i]]
            && vacated.positions[i].state == q.state
  {
    hide PositionFeePayout;
  }

  /** A member has left; filling the seat makes the tier the best exactly for the right successor. */
  lemma FilledBestIff(l: Ledger, mid: Ledger, i: nat, supplied: seq<nat>)
    requires Inv(l) && TierIsBest(l) && i < |l.positions| && l.positions[i].inTier
    requires mid.tier == Demote(l.tier, i).0 && 0 < mid.pool.tierSize == l.pool.tierSize
    requires |mid.positions| == |l.positions| && mid.positions == l.positions[i := mid.positions[i]]
    requires mid.positions[i].state != Active
    requires FillFromCandidate(mid, l.positions, supplied).Ok?
    ensures TierIsBest(FillFromCandidate(mid, l.positions, supplied).value) <==> RightSuccessor(l, supplied)
  {
    var e, all := EntryOf(l.positions[i], i), ActiveEntries(l.positions);
    MembersKeyed(l.tier, l.positions);
    ActiveAreRanked(l.positions);
    ActiveMoves(l.positions, i, mid.positions[i]);
    assert e in l.tier;
    assert ActiveEntries(mid.positions) == all - {e};
    if supplied == [] {
      VacancyIff(l.tier, all, l.pool.tierSize, e);
    } else {
      var c := supplied[0];
      var x := EntryOf(l.positions[c], c);
      NotMember(l, c);
      assert x in all;
      SuccessionIff(l.tier, all, l.pool.tierSize, e, x);
      ActiveSame(mid.positions, FillFromCandidate(mid, l.positions, supplied).value.positions);
    }
    hide Inv;
    hide IsBest;
    hide Demote;
    hide Before;
    hide FillVacancy;
  }

  /** A withdrawal keeps the tier the best exactly when the leaver was no member or the right
      successor was supplied. */
  lemma WithdrawKeepsBestIff(l: Ledger, i: nat, now: i64, supplied: seq<nat>)
    requires Inv(l) && TierIsBest(l) && Withdraw(l, i, now, supplied).Ok?
    ensures TierIsBest(Withdraw(l, i, now, supplied).value) <==>
            (l.positions[i].inTier ==> RightSuccessor(l, supplied))
  {
    var w, index := WithdrawExits(l, i, now, supplied);
    var p := l.positions[i];
    WithdrawIsFilledDeparture(l, i, now, supplied, w, index);
    hide Withdraw;
    hide Exits;
    hide FillFromCandidate;
    hide RightSuccessor;
    if p.inTier {
      DemoteFinds(l.tier, l.positions, i);
      FilledBestIff(l, Departed(l, i, w, index), i, supplied);
    } else {
      NotMember(l, i);
      NonMemberDeparture(l.tier, ActiveEntries(l.positions), l.pool.tierSize, EntryOf(p, i));
      ActiveMoves(l.positions, i, ReleasedPosition(l.pool, p, l.accTier));
    }
    hide Inv;
    hide IsBest;
  }

  /** A re-attestation that closes a member, likewise. */
  lemma ClosingRecordKeepsBestIff(l: Ledger, i: nat, value: u64, now: i64, supplied: seq<nat>)
    requires Inv(l) && TierIsBest(l) && RecordValue(l, i, value, now, supplied).Ok? && l.positions[i].inTier
    requires Closes(l.pool, l.positions[i], value, now)
    ensures TierIsBest(RecordValue(l, i, value, now, supplied).value) <==> RightSuccessor(l, supplied)
  {
    ShapeOf(l);
    var p := l.positions[i];
    var wallet := WalletOf(l.wallets, p.depositor);
    RecordingEffect(l.pool, p, wallet, value, now);
    var r := ApplyRecordValue(l.pool, p, wallet, value, now).value;
    hide ApplyRecordValue;
    hide Vacate;
    hide FillFromCandidate;
    hide WeightOf;
    hide IsBest;
    hide Inv;
    hide RightSuccessor;
    hide Demote;
    hide PositionFeePayout;
    var index := Index.Remove(l.index, p.slotIndex, p.recordedValue, r.expectedTotal).value;
    hide Index.Remove;
    var closed := Ledger(r.pool, index, l.tier, l.accTier, l.positions[i := r.position],
                         l.wallets[p.depositor := r.wallet]);
    VacatedTier(l, closed, i, r.position);
    FilledBestIff(l, Vacate(closed, i).value, i, supplied);
  }

  /** A seizure fills no seat: it keeps the tier the best exactly when the seized position was no
      member or nobody waits. */
  lemma SeizeKeepsBestIff(l: Ledger, i: nat, arrangeable: bool, now: i64)
    requires Inv(l) && TierIsBest(l) && CloseSeized(l, i, arrangeable, now).Ok?
    ensures i < |l.positions|
    ensures TierIsBest(CloseSeized(l, i, arrangeable, now).value) <==>
            (l.positions[i].inTier ==> NobodyWaits(l))
  {
    ShapeOf(l);
    var p := l.positions[i];
    var all := ActiveEntries(l.positions);
    if p.state == Active {
      var wallet := WalletOf(l.wallets, p.depositor);
      DepartEffect(l.pool, wallet, p.recordedValue);
      var (pool, seized, left, expected) := DepartSeized(l.pool, p, wallet).value;
      var index := Index.Remove(l.index, p.slotIndex, p.recordedValue, expected).value;
      hide Depart;
      hide PositionFeePayout;
      hide Vacate;
      hide Index.Remove;
      hide IsBest;
      var q := seized.(state := Seized);
      var departed := Ledger(pool, index, l.tier, l.accTier, l.positions[i := q], l.wallets[p.depositor := left]);
      ActiveMoves(l.positions, i, q);
      if p.inTier {
        VacatedTier(l, departed, i, q);
        ActiveMoves(l.positions, i, Vacate(departed, i).value.positions[i]);
        MembersKeyed(l.tier, l.positions);
        VacancyIff(l.tier, all, l.pool.tierSize, EntryOf(p, i));
      } else {
        NotMember(l, i);
        NonMemberDeparture(l.tier, all, l.pool.tierSize, EntryOf(p, i));
      }
      hide Inv;
    } else {
      IdleSame(l.positions, i, p.(state := Seized));
      hide DepartSeized;
      hide Vacate;
    }
  }

  /** A position that is not active may change without anyone active noticing. */
  lemma IdleSame(ps: seq<Position>, i: nat, q: Position)
    requires i < |ps| && ps[i].state != Active && q.state != Active
    ensures ActiveEntries(ps[i := q]) == ActiveEntries(ps)
  {
    ActiveMoves(ps, i, q);
  }

  /** The candidates the resolver's scan is handed: the active positions outside the tier. */
  ghost predicate Scanned(l: Ledger, candidates: seq<TierEntry>) {
    forall x :: x in candidates <==> x in ActiveEntries(l.positions) && x !in l.tier
  }

  /** The resolver's successor is the right one: the best of the scanned non-members, or nobody when
      the scan came back empty; and it is never refused as ineligible. */
  lemma ResolverIsRight(l: Ledger, candidates: seq<TierEntry>, i: nat)
    requires Inv(l) && i < |l.positions| && l.positions[i].inTier && Scanned(l, candidates)
    ensures var supplied := SuppliedBy(ResolveSuccessor(l.tier, candidates, i));
            && RightSuccessor(l, supplied)
            && (supplied != [] ==> Eligible(l.positions, supplied[0]))
  {
    DemoteFinds(l.tier, l.positions, i);
    hide Inv;
    if candidates != [] {
      var x := HighestRanked(candidates).value;
      HighestFromLeads(candidates[1..], candidates[0]);
      assert candidates == [candidates[0]] + candidates[1..];
      assert x in candidates;
      var c :| 0 <= c < |l.positions| && l.positions[c].state == Active && EntryOf(l.positions[c], c) == x;
      assert c == x.position;
      NotSeated(l, c);
      forall y | y in ActiveEntries(l.positions) && y !in l.tier && y != x
        ensures Before(x, y)
      {
        assert y in candidates;
        DistinctRanks(l, x, y);
        RankIsTotal(x, y);
      }
    }
  }

  lemma NotSeated(l: Ledger, c: nat)
    requires Inv(l) && c < |l.positions| && EntryOf(l.positions[c], c) !in l.tier
    ensures !l.positions[c].inTier
  {
  }

  lemma DistinctRanks(l: Ledger, x: TierEntry, y: TierEntry)
    requires Inv(l) && x in ActiveEntries(l.positions) && y in ActiveEntries(l.positions) && x != y
    ensures Rank(x, y) != Equal
  {
    ActiveAreRanked(l.positions);
  }

  /** A withdrawal handed the resolver's successor keeps the tier the best of the remaining active
      positions, and is not refused on the successor's account. */
  lemma WithdrawKeepsBest(l: Ledger, i: nat, now: i64, candidates: seq<TierEntry>)
    requires Inv(l) && i < |l.positions| && l.positions[i].inTier && TierIsBest(l) && Scanned(l, candidates)
    ensures Shape(l)
    ensures var supplied := SuppliedBy(ResolveSuccessor(l.tier, candidates, i));
            && (Withdraw(l, i, now, supplied).Ok? <==> Withdraw(l, i, now, []).Ok?)
            && (Withdraw(l, i, now, supplied).Ok? ==> TierIsBest(Withdraw(l, i, now, supplied).value))
  {
    ShapeOf(l);
    var supplied := SuppliedBy(ResolveSuccessor(l.tier, candidates, i));
    ResolverIsRight(l, candidates, i);
    WithdrawSucceedsIff(l, i, now, supplied);
    WithdrawSucceedsIff(l, i, now, []);
    hide Inv;
    hide Withdraw;
    hide CanRebalance;
    if Withdraw(l, i, now, supplied).Ok? {
      WithdrawKeepsBestIff(l, i, now, supplied);
    }
    hide TierIsBest;
    hide ResolveSuccessor;
    hide RightSuccessor;
  }

  // ---- Promotion and resizing ----

  /** With the best tier in place there is nobody to promote: whoever is offered is refused. */
  lemma PromotionRefused(l: Ledger, i: nat, supplied: seq<nat>)
    requires Inv(l) && TierIsBest(l)
    ensures Shape(l) && UpdateTier(l, i, supplied).Err?
  {
    ShapeOf(l);
    if Eligible(l.positions, i) {
      UpdateTierSucceedsIff(l, i, supplied);
      NotMember(l, i);
      var c := EntryOf(l.positions[i], i);
      assert c in ActiveEntries(l.positions);
      var least := l.tier[|l.tier| - 1];
      assert least in l.tier && Before(least, c);
      DistinctRanks(l, least, c);
      RankIsTotal(least, c);
    }
    hide Inv;
    hide Cross;
  }

  /** A configuration change keeps the tier the best unless it opens seats while somebody waits. */
  lemma ConfigKeepsBestIff(l: Ledger, update: ConfigUpdate, supplied: seq<nat>)
    requires Inv(l) && TierIsBest(l) && UpdateConfig(l, update, supplied).Ok?
    ensures TierIsBest(UpdateConfig(l, update, supplied).value) <==>
            (update.TierSize? && update.size > l.pool.tierSize ==> NobodyWaits(l))
  {
    if update.TierSize? {
      var (kept, evicted) := Shrink(l.tier, update.size);
      assert kept + evicted == l.tier;
      SettleEvictedKeeps(l.pool.owedFees, l.pool.accEqual, l.accTier, kept, evicted, l.positions, supplied);
      ActiveSame(l.positions, UpdateConfig(l, update, supplied).value.positions);
      if update.size <= l.pool.tierSize {
        ShrinkKeepsBest(l.tier, ActiveEntries(l.positions), l.pool.tierSize, update.size);
      } else {
        GrowIff(l.tier, ActiveEntries(l.positions), l.pool.tierSize, update.size);
      }
    }
    hide SettleEvicted;
    hide WeightInv;
    hide WalletInv;
    hide FeeInv;
    hide TierInv;
    hide IsBest;
  }

  // ---- Disciplined runs ----

  /** What each instruction must bring for the tier to stay the best. */
  ghost predicate Disciplined(l: Ledger, a: Action) {
    match a
    case WithdrawPosition(i, now, supplied, payable) =>
      i < |l.positions| && l.positions[i].inTier ==> RightSuccessor(l, supplied)
    case RecordValueOf(i, value, now, supplied) =>
      i < |l.positions| && l.positions[i].inTier ==>
        if Closes(l.pool, l.positions[i], value, now) then RightSuccessor(l, supplied)
        else LeadsWaiting(l, EntryOf(l.positions[i].(recordedValue := value), i))
    case SeizePosition(i, arrangeable, now) => i < |l.positions| && l.positions[i].inTier ==> NobodyWaits(l)
    case ChangeConfig(update, supplied) =>
      update.TierSize? && update.size > l.pool.tierSize ==> NobodyWaits(l)
    case _ => true
  }

  lemma RecordKeepsBestIff(l: Ledger, i: nat, value: u64, now: i64, supplied: seq<nat>)
    requires Inv(l) && TierIsBest(l) && RecordValue(l, i, value, now, supplied).Ok?
    ensures TierIsBest(RecordValue(l, i, value, now, supplied).value) <==>
            Disciplined(l, RecordValueOf(i, value, now, supplied))
  {
    if !l.positions[i].inTier {
      NonMemberRecordKeepsBest(l, i, value, now, supplied);
    } else if Closes(l.pool, l.positions[i], value, now) {
      ClosingRecordKeepsBestIff(l, i, value, now, supplied);
    } else {
      MemberRecordKeepsBestIff(l, i, value, now, supplied);
    }
    hide Inv;
    hide RecordValue;
    hide TierIsBest;
    hide RightSuccessor;
    hide LeadsWaiting;
  }

  /** The tier, its size and the active positions are what they were. */
  lemma BestFrame(l: Ledger, after: Ledger)
    requires TierIsBest(l) && after.tier == l.tier && after.pool.tierSize == l.pool.tierSize
    requires ActiveEntries(after.positions) == ActiveEntries(l.positions)
    ensures TierIsBest(after)
  {
    hide IsBest;
  }

  lemma DepositKeepsBest(l: Ledger, depositor: nat)
    requires TierIsBest(l) && Deposit(l, depositor).Ok?
    ensures TierIsBest(Deposit(l, depositor).value)
  {
    DepositSame(l.positions, NewPosition(depositor, |l.positions|));
    BestFrame(l, Deposit(l, depositor).value);
    hide TierIsBest;
  }

  lemma IdleKeepsBest(l: Ledger, i: nat, q: Position)
    requires TierIsBest(l) && i < |l.positions| && l.positions[i].state != Active && q.state != Active
    ensures TierIsBest(l.(positions := l.positions[i := q]))
  {
    IdleSame(l.positions, i, q);
    BestFrame(l, l.(positions := l.positions[i := q]));
    hide TierIsBest;
  }

  lemma AccrueKeepsBest(l: Ledger, fee: u64)
    requires TierIsBest(l) && |l.pool.blanks| == 3 && Accrue(l, fee).Ok?
    ensures TierIsBest(Accrue(l, fee).value)
  {
    hide AccumulatorUnit;
    hide BpsShare;
    BestFrame(l, Accrue(l, fee).value);
    hide TierIsBest;
  }

  /** Instructions that move no active position and no seat. */
  predicate Quiet(a: Action) {
    a.DepositBy? || a.RejectDeposit? || a.ReleasePosition? || a.AccrueFee? || a.BeginSweeping?
    || a.EndSweeping? || a.CommitBatch? || a.Roll? || a.SetPause?
  }

  lemma QuietStepKeepsBest(l: Ledger, a: Action)
    requires Inv(l) && TierIsBest(l) && Shape(l) && |l.pool.blanks| == 3 && Handle(l, a).Ok? && Quiet(a)
    ensures TierIsBest(Handle(l, a).value)
  {
    hide Inv;
    hide Shape;
    hide Deposit;
    hide Accrue;
    hide IsBest;
    match a
    case DepositBy(depositor) => DepositKeepsBest(l, depositor);
    case RejectDeposit(i) => IdleKeepsBest(l, i, l.positions[i].(state := PositionState.Rejected));
    case ReleasePosition(i) => IdleKeepsBest(l, i, l.positions[i].(state := Released, accrued := 0));
    case AccrueFee(fee) => AccrueKeepsBest(l, fee);
    case BeginSweeping =>
    case EndSweeping =>
    case CommitBatch(n) =>
    case Roll(openBatches, liability) =>
    case SetPause(deposits, rolls) =>
  }

  lemma DepositSame(ps: seq<Position>, q: Position)
    requires q.state != Active
    ensures ActiveEntries(ps + [q]) == ActiveEntries(ps)
  {
    var qs := ps + [q];
    forall e
      ensures e in ActiveEntries(qs) <==> e in ActiveEntries(ps)
    {
      if e in ActiveEntries(ps) {
        var j :| 0 <= j < |ps| && ps[j].state == Active && EntryOf(ps[j], j) == e;
        assert EntryOf(qs[j], j) == e;
      }
    }
  }

  lemma SeatedStepKeepsBestIff(l: Ledger, a: Action)
    requires Inv(l) && TierIsBest(l) && Shape(l) && |l.pool.blanks| == 3 && Handle(l, a).Ok? && !Quiet(a)
    ensures TierIsBest(Handle(l, a).value) <==> Disciplined(l, a)
  {
    hide Inv;
    hide Shape;
    hide TierIsBest;
    hide RightSuccessor;
    hide LeadsWaiting;
    hide NobodyWaits;
    hide Approve;
    hide Withdraw;
    hide RecordValue;
    hide CloseSeized;
    hide UpdateTier;
    hide UpdateConfig;
    match a
    case ApproveDeposit(i, att, now, supplied) => ApproveKeepsBest(l, i, att, now, supplied);
    case WithdrawPosition(i, now, supplied, payable) => WithdrawKeepsBestIff(l, i, now, supplied);
    case RecordValueOf(i, value, now, supplied) => RecordKeepsBestIff(l, i, value, now, supplied);
    case SeizePosition(i, arrangeable, now) => SeizeKeepsBestIff(l, i, arrangeable, now);
    case PromoteMember(i, supplied) => PromotionRefused(l, i, supplied);
    case ChangeConfig(update, supplied) => ConfigKeepsBestIff(l, update, supplied);
  }

  /** One transaction keeps the best tier exactly when it fails or is disciplined. */
  lemma StepKeepsBestIff(l: Ledger, a: Action)
    requires Inv(l) && TierIsBest(l)
    ensures Shape(l) && |l.pool.blanks| == 3
    ensures TierIsBest(Step(l, a)) <==> Handle(l, a).Err? || Disciplined(l, a)
  {
    ShapeOf(l);
    hide Inv;
    hide Shape;
    hide TierIsBest;
    hide Handle;
    if Handle(l, a).Ok? {
      if Quiet(a) {
        QuietStepKeepsBest(l, a);
        hide RightSuccessor;
        hide LeadsWaiting;
        hide NobodyWaits;
      } else {
        hide Disciplined;
        SeatedStepKeepsBestIff(l, a);
      }
    }
  }

  /** Every successful transaction of the run is disciplined at the state it meets. */
  ghost predicate DisciplinedRun(pool: Pool, capacity: u32, actions: seq<Action>)
    requires ValidConfig(pool)
    decreases |actions|
  {
    actions == [] ||
    (var front, a := actions[..|actions| - 1], actions[|actions| - 1];
     var before := Run(pool, capacity, front);
     ShapeOf(before);
     DisciplinedRun(pool, capacity, front) && (Handle(before, a).Ok? ==> Disciplined(before, a)))
  }

  /** The tier a disciplined run leaves is the best of its active positions. */
  lemma {:induction false} RunKeepsBest(pool: Pool, capacity: u32, actions: seq<Action>)
    requires ValidConfig(pool) && DisciplinedRun(pool, capacity, actions)
    ensures TierIsBest(Run(pool, capacity, actions))
    decreases |actions|
  {
    if actions != [] {
      var front, a := actions[..|actions| - 1], actions[|actions| - 1];
      RunKeepsBest(pool, capacity, front);
      hide TierIsBest;
      hide Disciplined;
      hide Handle;
      StepKeepsBestIff(Run(pool, capacity, front), a);
    }
  }

  // ---- The gate a batch opens through ----

  /** Members are active, so a measure of one is within the other; they agree only if pointwise. */
  lemma {:induction false} MembersWithinActive(ps: seq<Position>)
    requires forall i :: 0 <= i < |ps| && ps[i].inTier ==> ps[i].state == Active
    ensures SumBy(MemberOf(), ps) <= SumBy(CountOf(), ps)
    ensures SumBy(MemberOf(), ps) == SumBy(CountOf(), ps) <==>
            forall i :: 0 <= i < |ps| && ps[i].state == Active ==> ps[i].inTier
    decreases |ps|
  {
    if ps != [] {
      var rest, last := ps[..|ps| - 1], ps[|ps| - 1];
      MembersWithinActive(rest);
      assert forall i :: 0 <= i < |rest| ==> rest[i] == ps[i];
      assert ps[|ps| - 1].inTier ==> last.state == Active;
    }
  }

  lemma NobodyWaitsIff(l: Ledger)
    requires Inv(l)
    ensures NobodyWaits(l) <==>
            forall i :: 0 <= i < |l.positions| && l.positions[i].state == Active ==> l.positions[i].inTier
  {
    hide WeightInv;
    hide WalletInv;
    hide FeeInv;
    if NobodyWaits(l) {
      forall i | 0 <= i < |l.positions| && l.positions[i].state == Active
        ensures l.positions[i].inTier
      {
        assert EntryOf(l.positions[i], i) in ActiveEntries(l.positions);
        assert Member(l.positions, EntryOf(l.positions[i], i));
      }
    }
  }

  /** After any run the tier never holds more than the gate asks for, and passes it exactly when it is
      full or nobody waits. */
  lemma TierGateIff(l: Ledger)
    requires Inv(l)
    ensures |l.tier| <= RequiredTierLen(l.pool.tierSize, l.pool.nReal)
    ensures |l.tier| == RequiredTierLen(l.pool.tierSize, l.pool.nReal) <==>
            |l.tier| == l.pool.tierSize || NobodyWaits(l)
  {
    NobodyWaitsIff(l);
    MembersWithinActive(l.positions);
    hide NobodyWaits;
  }

  /** Exactly when a batch of `n` rolls can be committed after any run. */
  lemma CommitSucceedsIff(l: Ledger, n: u8)
    requires Inv(l)
    ensures CommitRolls(l, n).Ok? <==>
            && !l.pool.rollsPaused && !l.pool.sweepPending && l.pool.openBatches == 0
            && 1 <= n <= l.pool.maxN && 0 < l.pool.nReal && (|l.tier| == l.pool.tierSize || NobodyWaits(l))
            && n * l.pool.price + l.pool.pendingRollLiability <= U64_MAX && l.pool.batchCounter < U64_MAX
  {
    TierGateIff(l);
    hide NobodyWaits;
    hide Index.WellFormed;
    hide IdsOk;
    hide WeightInv;
    hide WalletInv;
    hide FeeInv;
    hide TierInv;
  }

  /** The best tier always passes. */
  lemma BestTierPassesGate(l: Ledger)
    requires Inv(l) && TierIsBest(l)
    ensures |l.tier| == RequiredTierLen(l.pool.tierSize, l.pool.nReal)
  {
    TierGateIff(l);
    hide Inv;
  }
}
