/** Machine widths, the program's error codes, and the result type every instruction returns. */
module Machine {

  const U8_MAX: nat := 0xFF
  const U16_MAX: nat := 0xFFFF
  const U32_MAX: nat := 0xFFFF_FFFF
  const U64_MAX: nat := 0xFFFF_FFFF_FFFF_FFFF
  const U128_MAX: nat := 0xFFFF_FFFF_FFFF_FFFF_FFFF_FFFF_FFFF_FFFF
  const I64_MAX: int := 0x7FFF_FFFF_FFFF_FFFF

  type u8 = x: int | 0 <= x <= U8_MAX
  type u16 = x: int | 0 <= x <= U16_MAX
  type u32 = x: int | 0 <= x <= U32_MAX
  type u64 = x: int | 0 <= x <= U64_MAX
  type u128 = x: int | 0 <= x <= U128_MAX
  type i64 = x: int | -I64_MAX - 1 <= x <= I64_MAX

  datatype Option<+T> = None | Some(value: T)

  /** The error codes the modelled code paths can return. */
  datatype Error =
    | ZeroValue
    | ArithmeticFailure
    | WeightDesync
    | WeightIndexFull
    | InvalidPositionState
    | PositionNotPending
    | PositionLocked
    | RollBatchInFlight
    | SweepNotOpen
    | SweepAlreadyOpen
    | TreasuryPositionNotEligible
    | BelowAdmissionFloor
    | AboveAdmissionCeiling
    | WalletValueCapExceeded
    | CandidateOutranked
    | AccountNotEnoughKeys
    | InvalidConfig
    | AdmissionFloorNotAboveTicket
    | BlankFaceZero
    | BlankFaceNotBelowTicket
    | AllocationBpsNotFullyAllocated
    | FeeNotPriceMinusTicket
    | MaxNOutOfBounds
    | TierSizeOutOfBounds
    | DepositsPaused
    | RollsPaused
    | SweepPending
    | RollCountOutOfBounds
    | RealPoolEmpty
    | TierNotFull
    | PrincipalShortfall

  /** The result of a step that can fail with an `E`. */
  datatype Checked<+T, +E> = Ok(value: T) | Err(error: E) {
    predicate IsFailure() {
      Err?
    }

    function PropagateFailure<U>(): Checked<U, E>
      requires Err?
    {
      Err(error)
    }

    function Extract(): T
      requires Ok?
    {
      value
    }
  }

  type Result<T> = Checked<T, Error>

  /** `checked_add` in a width whose maximum is `max`. */
  function CheckedAdd(a: nat, b: nat, max: nat, error: Error := ArithmeticFailure): Result<nat> {
    if a + b <= max then Ok(a + b) else Err(error)
  }

  /** `checked_sub` in any unsigned width. */
  function CheckedSub(a: nat, b: nat, error: Error := ArithmeticFailure): Result<nat> {
    if b <= a then Ok(a - b) else Err(error)
  }

  /** `checked_mul` in a width whose maximum is `max`. */
  function CheckedMul(a: nat, b: nat, max: nat, error: Error := ArithmeticFailure): Result<nat> {
    if a * b <= max then Ok(a * b) else Err(error)
  }

  /** `checked_sub` in `i64`. */
  function CheckedSubI64(a: i64, b: i64): Result<i64> {
    if -I64_MAX - 1 <= a - b <= I64_MAX then Ok(a - b) else Err(ArithmeticFailure)
  }

  /** Euclidean division of naturals, stated with products. */
  lemma DivBrackets(c: nat, v: nat)
    requires 0 < v
    ensures 0 <= c / v <= c
    ensures (c / v) * v <= c < (c / v + 1) * v
    ensures c / v == 0 <==> c < v
  {
    var w := c / v;
    assert c == w * v + c % v;
    assert (w + 1) * v == w * v + v;
    if w > 0 {
      MulMonotone(v, 1, w);
      MulMonotone(w, 1, v);
    }
  }

  /** The quotient is the only integer whose product brackets the dividend. */
  lemma DivUnique(c: nat, v: nat, q: nat)
    requires 0 < v
    requires q * v <= c < (q + 1) * v
    ensures c / v == q
  {
    DivBrackets(c, v);
    if c / v < q {
      MulMonotone(q, c / v + 1, v);
    } else if q < c / v {
      MulMonotone(c / v, q + 1, v);
    }
  }

  lemma MulMonotone(big: int, small: int, k: int)
    requires small <= big && 0 <= k
    ensures small * k <= big * k
    ensures k * small <= k * big
  {
  }
}
