/** The on-chain accounts: the values they hold, and the objects instructions update in place. */
module State {
  import opened Machine

  /** One ranked slot of the top tier; `position` is the member's account key. */
  datatype TierEntry = TierEntry(position: nat, value: u64, activatedAt: i64, positionId: u64)

  /** `Released` is an account that no longer exists. */
  datatype PositionState = Pending | Active | ClosedBelowFloor | Rejected | Seized | Released

  datatype Position = Position(
    depositor: nat,
    positionId: u64,
    state: PositionState,
    recordedValue: u64,
    slotIndex: u32,
    activatedAt: i64,
    equalCheckpoint: u128,
    accrued: u64,
    inTier: bool,
    tierCheckpoint: u128,
    lockUntil: i64)

  /** `treasury` is the depositor identity derived from the pool's own address. */
  datatype Pool = Pool(
    treasury: nat,
    price: u64,
    ticketTarget: u64,
    fee: u64,
    blankFaces: seq<u64>,
    admissionFloor: u64,
    admissionCeiling: u64,
    walletValueCap: u64,
    allocEqualBps: u16,
    allocTierBps: u16,
    allocProtocolBps: u16,
    maxN: u8,
    buybackRateBps: u16,
    t04Ceiling: u64,
    sweepCadenceHours: u16,
    tierSize: u8,
    depositsPaused: bool,
    rollsPaused: bool,
    nReal: u32,
    blanks: seq<nat>,
    wReal: u128,
    openBatches: u32,
    batchCounter: u64,
    pendingRollLiability: u64,
    sweepPending: bool,
    sweepEpoch: u64,
    sweepUpdates: u32,
    owedFees: u64,
    accEqual: u128)

  datatype Wallet = Wallet(activePositions: u32, activeValue: u64)

  class PoolAccount {
    const config: Pool
    var nReal: u32
    var blanks: seq<nat>
    var wReal: u128
    var openBatches: u32
    var owedFees: u64
    var accEqual: u128

    constructor (data: Pool)
      ensures Data() == data
    {
      config := data;
      nReal, blanks, wReal := data.nReal, data.blanks, data.wReal;
      openBatches, owedFees, accEqual := data.openBatches, data.owedFees, data.accEqual;
    }

    function Data(): Pool
      reads this
    {
      config.(nReal := nReal, blanks := blanks, wReal := wReal, openBatches := openBatches,
              owedFees := owedFees, accEqual := accEqual)
    }
  }

  class PositionAccount {
    const origin: Position
    var state: PositionState
    var recordedValue: u64
    var slotIndex: u32
    var equalCheckpoint: u128
    var accrued: u64
    var inTier: bool
    var tierCheckpoint: u128

    constructor (data: Position)
      ensures Data() == data
    {
      origin := data;
      state, recordedValue, slotIndex := data.state, data.recordedValue, data.slotIndex;
      equalCheckpoint, accrued := data.equalCheckpoint, data.accrued;
      inTier, tierCheckpoint := data.inTier, data.tierCheckpoint;
    }

    function Data(): Position
      reads this
    {
      origin.(state := state, recordedValue := recordedValue, slotIndex := slotIndex,
              equalCheckpoint := equalCheckpoint, accrued := accrued, inTier := inTier,
              tierCheckpoint := tierCheckpoint)
    }
  }

  class WalletAccount {
    var activePositions: u32
    var activeValue: u64

    constructor (data: Wallet)
      ensures Data() == data
    {
      activePositions, activeValue := data.activePositions, data.activeValue;
    }

    function Data(): Wallet
      reads this
    {
      Wallet(activePositions, activeValue)
    }
  }
}
