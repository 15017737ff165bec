/** What each instruction does to the pool, one position and one wallet: guards, fee legs,
    counters and the rebalance, before the weight index and the tier are moved. */
module Accounting {
  import opened Machine
  import opened FeeMath
  import opened State
  import opened Rebalance

  /** The tier leg of a departing or displaced member, folded into what it has accrued. */
  function LeaveTier(p: Position, accTier: u128): Result<Position> {
    var accrued :- PositionFeePayout(accTier, p.tierCheckpoint, p.accrued);
    Ok(p.(accrued := accrued, tierCheckpoint := accTier, inTier := false))
  }

  function JoinTier(p: Position, accTier: u128): Position {
    p.(inTier := true, tierCheckpoint := accTier)
  }

  function NarrowExpectedTotal(wReal: u128): Result<u64> {
    if wReal > U64_MAX then Err(WeightDesync) else Ok(wReal)
  }

  function Rebalanced(pool: Pool): Result<Pool>
    requires |pool.blankFaces| == 3
  {
    var targets :- Evaluate(pool.nReal, pool.wReal, pool.blankFaces, pool.ticketTarget);
    Ok(pool.(blanks := [targets.b1, targets.b2, targets.b5]))
  }

  /** The four checked decrements of a position leaving with `value`, then the rebalance; the
      last part is the aggregate the weight index must land on. */
  function Depart(pool: Pool, wallet: Wallet, value: u64): Result<(Pool, Wallet, u64)>
    requires |pool.blankFaces| == 3
  {
    var weight :- WeightOf(value);
    var wReal :- CheckedSub(pool.wReal, weight);
    var nReal :- CheckedSub(pool.nReal, 1);
    var activePositions :- CheckedSub(wallet.activePositions, 1);
    var activeValue :- CheckedSub(wallet.activeValue, value);
    var balanced :- Rebalanced(pool.(wReal := wReal, nReal := nReal));
    var expected :- NarrowExpectedTotal(wReal);
    Ok((balanced, Wallet(activePositions, activeValue), expected))
  }

  datatype Withdrawal = Withdrawal(
    pool: Pool, position: Position, wallet: Wallet,
    feesPaid: u64, recordedValue: u64, slotIndex: u32, expectedTotal: u64,
    blanksBefore: seq<nat>, wasMember: bool)

  /** Both fee legs of an exit, `accrued` folded in once: the tier leg's result is what the equal
      leg carries. */
  function ExitPayout(pool: Pool, p: Position, accTier: u128): Result<u64> {
    var carried :- if p.inTier then PositionFeePayout(accTier, p.tierCheckpoint, p.accrued)
                   else Ok(p.accrued);
    PositionFeePayout(pool.accEqual, p.equalCheckpoint, carried)
  }

  function ExitPosition(pool: Pool, p: Position, accTier: u128): Position {
    p.(tierCheckpoint := if p.inTier then accTier else p.tierCheckpoint,
       equalCheckpoint := pool.accEqual,
       accrued := 0)
  }

  function ApplyWithdraw(pool: Pool, p: Position, wallet: Wallet, accTier: u128, now: i64): Result<Withdrawal>
    requires |pool.blankFaces| == 3
  {
    if pool.openBatches != 0 then Err(RollBatchInFlight)
    else if p.state != Active then Err(InvalidPositionState)
    else if now < p.lockUntil then Err(PositionLocked)
    else
      var feesPaid :- ExitPayout(pool, p, accTier);
      var owedFees :- CheckedSub(pool.owedFees, feesPaid);
      var departed :- Depart(pool.(owedFees := owedFees), wallet, p.recordedValue);
      Ok(Withdrawal(departed.0, ExitPosition(pool, p, accTier), departed.1,
                    feesPaid, p.recordedValue, p.slotIndex, departed.2, pool.blanks, p.inTier))
  }

  datatype RecordOutcome = Refresh | Retained | Close

  function Classify(value: u64, admissionFloor: u64, lockUntil: i64, now: i64): RecordOutcome {
    if value >= admissionFloor then Refresh else if lockUntil > now then Retained else Close
  }

  /** A `u128` or `u64` total moved from one contribution to another, checked either way. */
  function Moved(total: nat, before: nat, after: nat, max: nat): Result<nat> {
    if after >= before then CheckedAdd(total, after - before, max) else CheckedSub(total, before - after)
  }

  datatype Recording = Recording(
    pool: Pool, position: Position, wallet: Wallet, outcome: RecordOutcome, expectedTotal: u64)

  /** A re-attested value: the leaf moves, or below the floor and unlocked the position closes
      with its equal leg settled. */
  function ApplyRecordValue(pool: Pool, p: Position, wallet: Wallet, value: u64, now: i64): Result<Recording>
    requires |pool.blankFaces| == 3
  {
    if !pool.sweepPending then Err(SweepNotOpen)
    else if pool.openBatches != 0 then Err(RollBatchInFlight)
    else if p.state != Active then Err(InvalidPositionState)
    else if value == 0 then Err(ZeroValue)
    else
      var sweepUpdates :- CheckedAdd(pool.sweepUpdates, 1, U32_MAX);
      var outcome := Classify(value, pool.admissionFloor, p.lockUntil, now);
      var oldWeight :- WeightOf(p.recordedValue);
      var newWeight :- if outcome.Close? then Ok(0) else WeightOf(value);
      var wReal :- Moved(pool.wReal, oldWeight, newWeight, U128_MAX);
      var activeValue :- Moved(wallet.activeValue, p.recordedValue, if outcome.Close? then 0 else value, U64_MAX);
      if outcome.Close? then
        var nReal :- CheckedSub(pool.nReal, 1);
        var activePositions :- CheckedSub(wallet.activePositions, 1);
        var accrued :- PositionFeePayout(pool.accEqual, p.equalCheckpoint, p.accrued);
        var balanced :- Rebalanced(pool.(wReal := wReal, nReal := nReal, sweepUpdates := sweepUpdates));
        var expected :- NarrowExpectedTotal(wReal);
        Ok(Recording(balanced,
                     p.(state := ClosedBelowFloor, accrued := accrued, equalCheckpoint := pool.accEqual,
                        recordedValue := value),
                     Wallet(activePositions, activeValue), outcome, expected))
      else
        var balanced :- Rebalanced(pool.(wReal := wReal, sweepUpdates := sweepUpdates));
        var expected :- NarrowExpectedTotal(wReal);
        Ok(Recording(balanced, p.(recordedValue := value),
                     wallet.(activeValue := activeValue), outcome, expected))
  }

  /** A seizure of an active position: the equal leg settles onto the position and is not paid. */
  function DepartSeized(pool: Pool, p: Position, wallet: Wallet): Result<(Pool, Position, Wallet, u64)>
    requires |pool.blankFaces| == 3
  {
    var accrued :- PositionFeePayout(pool.accEqual, p.equalCheckpoint, p.accrued);
    var departed :- Depart(pool, wallet, p.recordedValue);
    Ok((departed.0, p.(accrued := accrued, equalCheckpoint := pool.accEqual), departed.1, departed.2))
  }

  function ValidateAdmission(pool: Pool, value: u64, walletActiveValue: u64): Result<()> {
    if value == 0 then Err(ZeroValue)
    else if value < pool.admissionFloor then Err(BelowAdmissionFloor)
    else if pool.admissionCeiling > 0 && value > pool.admissionCeiling then Err(AboveAdmissionCeiling)
    else if pool.walletValueCap > 0 && walletActiveValue + value > U64_MAX then Err(ArithmeticFailure)
    else if pool.walletValueCap > 0 && walletActiveValue + value > pool.walletValueCap then
      Err(WalletValueCapExceeded)
    else Ok(())
  }

  const MAX_BATCH_CAPACITY: nat := 10
  const MAX_TIER_SIZE: nat := 20

  /** The config guard: the floor above the target, the faces below it, the allocation in full, the fee
      the price's excess over the target, and batches and a tier that fit their arrays. */
  predicate ValidConfig(pool: Pool) {
    && pool.admissionFloor > pool.ticketTarget
    && |pool.blankFaces| == 3
    && (forall d :: 0 <= d < 3 ==> 0 < pool.blankFaces[d] < pool.ticketTarget)
    && pool.allocEqualBps + pool.allocTierBps + pool.allocProtocolBps == BPS
    && pool.price == pool.ticketTarget + pool.fee
    && 1 <= pool.maxN <= MAX_BATCH_CAPACITY
    && 1 <= pool.tierSize <= MAX_TIER_SIZE
  }

  /** What is wrong with the first face, from `d` on, that is zero or not below the target. */
  function FaceError(faces: seq<u64>, ticketTarget: u64, d: nat): Option<Error>
    requires d <= |faces|
    decreases |faces| - d
  {
    if d == |faces| then None
    else if faces[d] == 0 then Some(BlankFaceZero)
    else if faces[d] >= ticketTarget then Some(BlankFaceNotBelowTicket)
    else FaceError(faces, ticketTarget, d + 1)
  }

  /** The first clause of the guard that fails. Faces come in threes by type; any other number is an
      invalid configuration here. */
  function ConfigError(pool: Pool): Error {
    if pool.admissionFloor <= pool.ticketTarget then AdmissionFloorNotAboveTicket
    else if |pool.blankFaces| != 3 then InvalidConfig
    else match FaceError(pool.blankFaces, pool.ticketTarget, 0)
         case Some(e) => e
         case None =>
           if pool.allocEqualBps + pool.allocTierBps + pool.allocProtocolBps != BPS then
             AllocationBpsNotFullyAllocated
           else if pool.price < pool.ticketTarget || pool.fee != pool.price - pool.ticketTarget then
             FeeNotPriceMinusTicket
           else if !(1 <= pool.maxN <= MAX_BATCH_CAPACITY) then MaxNOutOfBounds
           else TierSizeOutOfBounds
  }

  // ---- The exit in place ----

  /** `apply_withdraw` over the accounts themselves. Nothing is promised of them after an error:
      the transaction is rolled back. */
  method ApplyWithdrawInPlace(pool: PoolAccount, position: PositionAccount, wallet: WalletAccount,
                              accTier: u128, now: i64)
    returns (r: Result<Withdrawal>)
    requires |pool.config.blankFaces| == 3
    modifies pool, position, wallet
    ensures r == ApplyWithdraw(old(pool.Data()), old(position.Data()), old(wallet.Data()), accTier, now)
    ensures r.Ok? ==> pool.Data() == r.value.pool && position.Data() == r.value.position
                      && wallet.Data() == r.value.wallet
  {
    hide WeightOf;
    hide Evaluate;
    hide PositionFeePayout;
    hide Depart;
    if pool.openBatches != 0 {
      return Err(RollBatchInFlight);
    }
    if position.state != Active {
      return Err(InvalidPositionState);
    }
    if now < position.origin.lockUntil {
      return Err(PositionLocked);
    }
    var wasMember := position.inTier;
    var recordedValue := position.recordedValue;
    var slotIndex := position.slotIndex;

    var carried := position.accrued;
    if wasMember {
      var settled := PositionFeePayout(accTier, position.tierCheckpoint, position.accrued);
      if settled.Err? {
        return Err(settled.error);
      }
      position.tierCheckpoint := accTier;
      carried := settled.value;
    }
    var feesPaid := PositionFeePayout(pool.accEqual, position.equalCheckpoint, carried);
    if feesPaid.Err? {
      return Err(feesPaid.error);
    }
    position.equalCheckpoint := pool.accEqual;
    position.accrued := 0;
    if feesPaid.value > pool.owedFees {
      return Err(ArithmeticFailure);
    }
    pool.owedFees := pool.owedFees - feesPaid.value;

    var blanksBefore := pool.blanks;
    var expected := DepartInPlace(pool, wallet, recordedValue);
    if expected.Err? {
      return Err(expected.error);
    }
    r := Ok(Withdrawal(pool.Data(), position.Data(), wallet.Data(), feesPaid.value, recordedValue,
                       slotIndex, expected.value, blanksBefore, wasMember));
  }

  method DepartInPlace(pool: PoolAccount, wallet: WalletAccount, value: u64) returns (r: Result<u64>)
    requires |pool.config.blankFaces| == 3
    modifies pool`wReal, pool`nReal, pool`blanks, wallet
    ensures r.Ok? <==> Depart(old(pool.Data()), old(wallet.Data()), value).Ok?
    ensures r.Err? ==> r.error == Depart(old(pool.Data()), old(wallet.Data()), value).error
    ensures r.Ok? ==> (pool.Data(), wallet.Data(), r.value)
                      == Depart(old(pool.Data()), old(wallet.Data()), value).value
  {
    hide WeightOf;
    hide Evaluate;
    var weight := WeightOf(value);
    if weight.Err? {
      return Err(weight.error);
    }
    if weight.value > pool.wReal || pool.nReal == 0 {
      return Err(ArithmeticFailure);
    }
    pool.wReal := pool.wReal - weight.value;
    pool.nReal := pool.nReal - 1;
    if wallet.activePositions == 0 || value > wallet.activeValue {
      return Err(ArithmeticFailure);
    }
    wallet.activePositions := wallet.activePositions - 1;
    wallet.activeValue := wallet.activeValue - value;
    var targets := EvaluateScan(pool.nReal, pool.wReal, pool.config.blankFaces, pool.config.ticketTarget);
    if targets.Err? {
      return Err(targets.error);
    }
    pool.blanks := [targets.value.b1, targets.value.b2, targets.value.b5];
    r := NarrowExpectedTotal(pool.wReal);
  }
}
