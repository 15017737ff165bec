/** The pool as one state machine: every instruction is a transaction over all of its accounts,
    and an error leaves them as they were. */
module Ledger {
  import opened Machine
  import opened FeeMath
  import opened State
  import opened Accounting
  import opened TierSpec
  import Index = IndexSpec

  /** `positions[i]` is the account with key and position id `i`; a wallet never written is zero. */
  datatype Ledger = Ledger(
    pool: Pool,
    index: Index.Index,
    tier: seq<TierEntry>,
    accTier: u128,
    positions: seq<Position>,
    wallets: map<nat, Wallet>)

  function WalletOf(wallets: map<nat, Wallet>, owner: nat): Wallet {
    if owner in wallets then wallets[owner] else Wallet(0, 0)
  }

  function EntryOf(p: Position, key: nat): TierEntry {
    TierEntry(key, p.recordedValue, p.activatedAt, p.positionId)
  }

  predicate Eligible(positions: seq<Position>, i: nat) {
    i < |positions| && positions[i].state == Active && !positions[i].inTier
  }

  /** What the handlers take for granted of the account layouts. */
  ghost predicate Shape(l: Ledger) {
    && Index.WellFormed(l.index) && |l.index.leaves| <= U32_MAX
    && |l.pool.blankFaces| == 3 && 0 < l.pool.tierSize
  }

  function Genesis(pool: Pool, capacity: u32): Ledger {
    Ledger(pool.(depositsPaused := false, rollsPaused := false, nReal := 0, blanks := [0, 0, 0], wReal := 0,
                 openBatches := 0, batchCounter := 0, pendingRollLiability := 0, sweepPending := false,
                 sweepEpoch := 0, sweepUpdates := 0, owedFees := 0, accEqual := 0),
           Index.Empty(capacity), [], 0, [], map[])
  }

  // ---- Tier steps shared by the handlers ----

  /** Promotion of position `i`, with the displaced member settled out of the supplied accounts. */
  function Cross(l: Ledger, i: nat, supplied: seq<nat>): Result<(Ledger, Promotion)>
    requires 0 < l.pool.tierSize && i < |l.positions|
  {
    var joined := l.positions[i := JoinTier(l.positions[i], l.accTier)];
    var (tier, outcome) := Promote(l.tier, l.pool.tierSize, EntryOf(l.positions[i], i));
    match outcome
    case Rejected => Ok((l, outcome))
    case Inserted => Ok((l.(tier := tier, positions := joined), outcome))
    case Swapped(evicted) =>
      var e := evicted.position;
      if e !in supplied || e >= |joined| then Err(AccountNotEnoughKeys)
      else
        var left :- LeaveTier(joined[e], l.accTier);
        Ok((l.(tier := tier, positions := joined[e := left]), outcome))
  }

  function Vacate(l: Ledger, i: nat): Result<Ledger>
    requires i < |l.positions|
  {
    var (rest, removed) := Demote(l.tier, i);
    if removed == None then Err(InvalidPositionState)
    else
      var left :- LeaveTier(l.positions[i], l.accTier);
      Ok(l.(tier := rest, positions := l.positions[i := left]))
  }

  /** The optional successor: the first supplied account, judged on its `stored` data. */
  function FillFromCandidate(l: Ledger, stored: seq<Position>, supplied: seq<nat>): Result<Ledger>
    requires 0 < l.pool.tierSize && |stored| == |l.positions|
  {
    if supplied == [] then Ok(l)
    else
      var c := supplied[0];
      if !Eligible(stored, c) then Err(InvalidPositionState)
      else
        var tier :- FillVacancy(l.tier, l.pool.tierSize, EntryOf(l.positions[c], c));
        Ok(l.(tier := tier, positions := l.positions[c := JoinTier(l.positions[c], l.accTier)]))
  }

  function VacateAndFill(l: Ledger, i: nat, stored: seq<Position>, supplied: seq<nat>): Result<Ledger>
    requires 0 < l.pool.tierSize && |stored| == |l.positions| && i < |l.positions|
  {
    var vacated :- Vacate(l, i);
    FillFromCandidate(vacated, stored, supplied)
  }

  // ---- The handlers ----

  function NewPosition(depositor: nat, id: u64): Position {
    Position(depositor, id, Pending, 0, 0, 0, 0, 0, false, 0, 0)
  }

  function Deposit(l: Ledger, depositor: nat): Result<Ledger> {
    if l.pool.depositsPaused then Err(DepositsPaused)
    else if |l.positions| + 1 > U64_MAX then Err(ArithmeticFailure)
    else Ok(l.(positions := l.positions + [NewPosition(depositor, |l.positions|)]))
  }

  function Reject(l: Ledger, i: nat): Result<Ledger> {
    if i >= |l.positions| || l.positions[i].state != Pending then Err(PositionNotPending)
    else if l.positions[i].depositor == l.pool.treasury then Err(TreasuryPositionNotEligible)
    else Ok(l.(positions := l.positions[i := l.positions[i].(state := PositionState.Rejected)]))
  }

  /** The account is closed: a rejected deposit returned, or a closed or seized position claimed. */
  function Release(l: Ledger, i: nat): Result<Ledger> {
    if i >= |l.positions| || l.positions[i].state !in {PositionState.Rejected, ClosedBelowFloor, Seized} then
      Err(InvalidPositionState)
    else Ok(l.(positions := l.positions[i := l.positions[i].(state := Released, accrued := 0)]))
  }

  /** What the operator attests at approval: the value, when it was observed, and the lock. */
  datatype Attestation = Attestation(value: u64, observedAt: i64, lockUntil: i64)

  function Activated(p: Position, att: Attestation, slot: u32, now: i64, accEqual: u128): Position {
    p.(state := Active, recordedValue := att.value, slotIndex := slot, activatedAt := now,
       equalCheckpoint := accEqual, lockUntil := att.lockUntil)
  }

  function Approve(l: Ledger, i: nat, att: Attestation, now: i64, supplied: seq<nat>): Result<Ledger>
    requires Shape(l)
  {
    if i >= |l.positions| || l.positions[i].state != Pending then Err(PositionNotPending)
    else if l.positions[i].depositor == l.pool.treasury then Err(TreasuryPositionNotEligible)
    else if l.pool.openBatches != 0 then Err(RollBatchInFlight)
    else
      var p := l.positions[i];
      var wallet := WalletOf(l.wallets, p.depositor);
      var value := att.value;
      var _ :- ValidateAdmission(l.pool, value, wallet.activeValue);
      var weight :- WeightOf(value);
      var wReal :- CheckedAdd(l.pool.wReal, weight, U128_MAX);
      var nReal :- CheckedAdd(l.pool.nReal, 1, U32_MAX);
      var expected :- NarrowExpectedTotal(wReal);
      var (index, slot) :- Index.Insert(l.index, value, expected);
      var activePositions :- CheckedAdd(wallet.activePositions, 1, U32_MAX);
      var activeValue :- CheckedAdd(wallet.activeValue, value, U64_MAX);
      var activated := Ledger(
        l.pool.(wReal := wReal, nReal := nReal), index, l.tier, l.accTier,
        l.positions[i := Activated(p, att, slot, now, l.pool.accEqual)],
        l.wallets[p.depositor := Wallet(activePositions, activeValue)]);
      var (crossed, _) :- Cross(activated, i, supplied);
      var balanced :- Rebalanced(crossed.pool);
      var _ :- CheckedSubI64(now, att.observedAt);
      Ok(crossed.(pool := balanced))
  }

  function Withdraw(l: Ledger, i: nat, now: i64, supplied: seq<nat>): Result<Ledger>
    requires Shape(l)
  {
    if i >= |l.positions| then Err(InvalidPositionState)
    else
      var p := l.positions[i];
      var w :- ApplyWithdraw(l.pool, p, WalletOf(l.wallets, p.depositor), l.accTier, now);
      var index :- Index.Remove(l.index, w.slotIndex, w.recordedValue, w.expectedTotal);
      var departed := Ledger(w.pool, index, l.tier, l.accTier, l.positions[i := w.position],
                             l.wallets[p.depositor := w.wallet]);
      var settled :- if w.wasMember then VacateAndFill(departed, i, l.positions, supplied)
                     else Ok(departed);
      Ok(settled.(positions := settled.positions[i := settled.positions[i].(state := Released)]))
  }

  /** The whole exit: when fees are due, the depositor must have brought the account they go to. */
  function WithdrawTo(l: Ledger, i: nat, now: i64, supplied: seq<nat>, payable: bool): Result<Ledger>
    requires Shape(l)
  {
    if i >= |l.positions| then Err(InvalidPositionState)
    else
      var after :- Withdraw(l, i, now, supplied);
      if !payable && ExitPayout(l.pool, l.positions[i], l.accTier) != Ok(0) then Err(AccountNotEnoughKeys)
      else Ok(after)
  }

  function RecordValue(l: Ledger, i: nat, value: u64, now: i64, supplied: seq<nat>): Result<Ledger>
    requires Shape(l)
  {
    if i >= |l.positions| then Err(InvalidPositionState)
    else
      var p := l.positions[i];
      var r :- ApplyRecordValue(l.pool, p, WalletOf(l.wallets, p.depositor), value, now);
      var index :- if r.outcome.Close?
                   then Index.Remove(l.index, p.slotIndex, p.recordedValue, r.expectedTotal)
                   else Index.Update(l.index, p.slotIndex, p.recordedValue, value, r.expectedTotal);
      var recorded := Ledger(r.pool, index, l.tier, l.accTier, l.positions[i := r.position],
                             l.wallets[p.depositor := r.wallet]);
      if r.outcome.Close? then
        (if p.inTier then VacateAndFill(recorded, i, l.positions, supplied) else Ok(recorded))
      else if p.inTier then
        var tier :- RefreshMember(l.tier, l.pool.tierSize, i, EntryOf(r.position, i));
        Ok(recorded.(tier := tier))
      else
        var (crossed, _) :- Cross(recorded, i, supplied);
        Ok(crossed)
  }

  /** `arrangeable` is whether the depositor could end up with the card, which is when the lock
      stands against a seizure. */
  function CloseSeized(l: Ledger, i: nat, arrangeable: bool, now: i64): Result<Ledger>
    requires Shape(l)
  {
    if i >= |l.positions| then Err(InvalidPositionState)
    else
      var p := l.positions[i];
      match p.state
      case Active =>
        if arrangeable && now < p.lockUntil then Err(PositionLocked)
        else if l.pool.openBatches != 0 then Err(RollBatchInFlight)
        else
          var (pool, seized, wallet, expected) :-
            DepartSeized(l.pool, p, WalletOf(l.wallets, p.depositor));
          var index :- Index.Remove(l.index, p.slotIndex, p.recordedValue, expected);
          var departed := Ledger(pool, index, l.tier, l.accTier,
                                 l.positions[i := seized.(state := Seized)],
                                 l.wallets[p.depositor := wallet]);
          if p.inTier then Vacate(departed, i) else Ok(departed)
      case Pending => Ok(l.(positions := l.positions[i := p.(state := Seized)]))
      case Rejected => Ok(l.(positions := l.positions[i := p.(state := Seized)]))
      case ClosedBelowFloor => Ok(l.(positions := l.positions[i := p.(state := Seized)]))
      case Seized => Err(InvalidPositionState)
      case Released => Err(InvalidPositionState)
  }

  function UpdateTier(l: Ledger, i: nat, supplied: seq<nat>): Result<Ledger>
    requires Shape(l)
  {
    if !Eligible(l.positions, i) then Err(InvalidPositionState)
    else
      var (crossed, outcome) :- Cross(l, i, supplied);
      if outcome == Promotion.Rejected then Err(CandidateOutranked) else Ok(crossed)
  }

  datatype ConfigUpdate =
    | AdmissionFloor(value: u64)
    | AdmissionCeiling(value: u64)
    | WalletValueCap(value: u64)
    | MaxN(count: u8)
    | BuybackRateBps(bps: u16)
    | T04Ceiling(value: u64)
    | SweepCadenceHours(hours: u16)
    | TierSize(size: u8)
    | Pricing(price: u64, ticketTarget: u64, fee: u64)
    | Allocation(equalBps: u16, tierBps: u16, protocolBps: u16)
    | BlankFaces(faces: seq<u64>)

  function Configured(pool: Pool, update: ConfigUpdate): Pool {
    match update
    case AdmissionFloor(value) => pool.(admissionFloor := value)
    case AdmissionCeiling(value) => pool.(admissionCeiling := value)
    case WalletValueCap(value) => pool.(walletValueCap := value)
    case TierSize(size) => pool.(tierSize := size)
    case MaxN(count) => pool.(maxN := count)
    case BuybackRateBps(bps) => pool.(buybackRateBps := bps)
    case T04Ceiling(value) => pool.(t04Ceiling := value)
    case SweepCadenceHours(hours) => pool.(sweepCadenceHours := hours)
    case Pricing(price, ticketTarget, fee) => pool.(price := price, ticketTarget := ticketTarget, fee := fee)
    case Allocation(equalBps, tierBps, protocolBps) =>
      pool.(allocEqualBps := equalBps, allocTierBps := tierBps, allocProtocolBps := protocolBps)
    case BlankFaces(faces) => pool.(blankFaces := faces)
  }

  /** Settles every evicted member out of the supplied accounts, best of the evicted first. */
  function SettleEvicted(positions: seq<Position>, evicted: seq<TierEntry>, supplied: seq<nat>, accTier: u128)
    : Result<seq<Position>>
    decreases |evicted|
  {
    if evicted == [] then Ok(positions)
    else
      var e := evicted[0].position;
      if e !in supplied || e >= |positions| then Err(AccountNotEnoughKeys)
      else
        var left :- LeaveTier(positions[e], accTier);
        SettleEvicted(positions[e := left], evicted[1..], supplied, accTier)
  }

  /** The two changes that move what a draw or a rebalance is computed against. */
  predicate RequiresFreeze(pool: Pool, update: ConfigUpdate) {
    update.BlankFaces? || (update.Pricing? && update.ticketTarget != pool.ticketTarget)
  }

  function UpdateConfig(l: Ledger, update: ConfigUpdate, supplied: seq<nat>): Result<Ledger> {
    var pool := Configured(l.pool, update);
    if !ValidConfig(pool) then Err(ConfigError(pool))
    else if RequiresFreeze(l.pool, update) && l.pool.openBatches != 0 then Err(RollBatchInFlight)
    else if update.TierSize? then
      var (kept, evicted) := Shrink(l.tier, update.size);
      var positions :- SettleEvicted(l.positions, evicted, supplied, l.accTier);
      Ok(l.(pool := pool, tier := kept, positions := positions))
    else Ok(l.(pool := pool))
  }

  /** One settled roll's fee: a unit per slot and a unit per tier member onto the accumulators,
      and the two whole-unit shares onto what the vault owes. */
  function Accrue(l: Ledger, fee: u64): Result<Ledger>
    requires |l.pool.blanks| == 3
  {
    var nTotal := l.pool.nReal + l.pool.blanks[0] + l.pool.blanks[1] + l.pool.blanks[2];
    if nTotal > U64_MAX || |l.tier| > U8_MAX then Err(ArithmeticFailure)
    else
      var equalUnit :- AccumulatorUnit(fee, l.pool.allocEqualBps, nTotal);
      var tierUnit :- AccumulatorUnit(fee, l.pool.allocTierBps, |l.tier|);
      var accEqual :- CheckedAdd(l.pool.accEqual, equalUnit, U128_MAX);
      var accTier :- CheckedAdd(l.accTier, tierUnit, U128_MAX);
      var owed :- CheckedAdd(l.pool.owedFees,
                             BpsShare(fee, l.pool.allocEqualBps) + BpsShare(fee, l.pool.allocTierBps), U64_MAX);
      Ok(l.(pool := l.pool.(accEqual := accEqual, owedFees := owed), accTier := accTier))
  }

  /** How many members the tier must hold before a batch may open. */
  function RequiredTierLen(tierSize: nat, nReal: nat): nat {
    if tierSize < nReal then tierSize else nReal
  }

  /** A roller buys `n` rolls: the batch opens and the weight is frozen until it is finished. */
  function CommitRolls(l: Ledger, n: u8): Result<Ledger> {
    if l.pool.rollsPaused then Err(RollsPaused)
    else if l.pool.sweepPending then Err(SweepPending)
    else if l.pool.openBatches != 0 then Err(RollBatchInFlight)
    else if !(1 <= n <= l.pool.maxN && n <= MAX_BATCH_CAPACITY) then Err(RollCountOutOfBounds)
    else if l.pool.nReal == 0 then Err(RealPoolEmpty)
    else if |l.tier| != RequiredTierLen(l.pool.tierSize, l.pool.nReal) then Err(TierNotFull)
    else
      var liability :- CheckedMul(n, l.pool.price, U64_MAX, RollCountOutOfBounds);
      var pending :- CheckedAdd(l.pool.pendingRollLiability, liability, U64_MAX, PrincipalShortfall);
      var openBatches :- CheckedAdd(l.pool.openBatches, 1, U32_MAX, RollBatchInFlight);
      var counter :- CheckedAdd(l.pool.batchCounter, 1, U64_MAX, RollCountOutOfBounds);
      Ok(l.(pool := l.pool.(pendingRollLiability := pending, openBatches := openBatches, batchCounter := counter)))
  }

  function BeginSweep(l: Ledger): Result<Ledger> {
    if l.pool.sweepPending then Err(SweepAlreadyOpen)
    else Ok(l.(pool := l.pool.(sweepPending := true, sweepUpdates := 0)))
  }

  function EndSweep(l: Ledger): Result<Ledger> {
    if !l.pool.sweepPending then Err(SweepNotOpen)
    else
      var epoch :- CheckedAdd(l.pool.sweepEpoch, 1, U64_MAX);
      Ok(l.(pool := l.pool.(sweepPending := false, sweepEpoch := epoch)))
  }

  // ---- Runs ----

  /** `Roll` stands for every instruction that advances or closes an open batch. */
  datatype Action =
    | DepositBy(depositor: nat)
    | RejectDeposit(i: nat)
    | ReleasePosition(i: nat)
    | ApproveDeposit(i: nat, att: Attestation, now: i64, supplied: seq<nat>)
    | WithdrawPosition(i: nat, now: i64, supplied: seq<nat>, payable: bool)
    | RecordValueOf(i: nat, value: u64, now: i64, supplied: seq<nat>)
    | SeizePosition(i: nat, arrangeable: bool, now: i64)
    | PromoteMember(i: nat, supplied: seq<nat>)
    | ChangeConfig(update: ConfigUpdate, supplied: seq<nat>)
    | AccrueFee(fee: u64)
    | BeginSweeping
    | EndSweeping
    | CommitBatch(n: u8)
    | Roll(openBatches: u32, liability: u64)
    | SetPause(deposits: bool, rolls: bool)

  function Handle(l: Ledger, a: Action): Result<Ledger>
    requires Shape(l) && |l.pool.blanks| == 3
  {
    match a
    case DepositBy(depositor) => Deposit(l, depositor)
    case RejectDeposit(i) => Reject(l, i)
    case ReleasePosition(i) => Release(l, i)
    case ApproveDeposit(i, att, now, supplied) => Approve(l, i, att, now, supplied)
    case WithdrawPosition(i, now, supplied, payable) => WithdrawTo(l, i, now, supplied, payable)
    case RecordValueOf(i, value, now, supplied) => RecordValue(l, i, value, now, supplied)
    case SeizePosition(i, arrangeable, now) => CloseSeized(l, i, arrangeable, now)
    case PromoteMember(i, supplied) => UpdateTier(l, i, supplied)
    case ChangeConfig(update, supplied) => UpdateConfig(l, update, supplied)
    case AccrueFee(fee) => Accrue(l, fee)
    case BeginSweeping => BeginSweep(l)
    case EndSweeping => EndSweep(l)
    case CommitBatch(n) => CommitRolls(l, n)
    case Roll(openBatches, liability) =>
      Ok(l.(pool := l.pool.(openBatches := openBatches, pendingRollLiability := liability)))
    case SetPause(deposits, rolls) => Ok(l.(pool := l.pool.(depositsPaused := deposits, rollsPaused := rolls)))
  }
}
