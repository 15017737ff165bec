/** Inverse weighting, the published quote and the fee-accumulator units. */
module FeeMath {
  import opened Machine

  const WEIGHT_C: nat := 1_000_000_000_000_000_000
  const ACC_PRECISION: nat := 1_000_000_000_000
  const BPS: nat := 10_000

  /** A position's draw weight: the floor of `WEIGHT_C / value`, refused when it would be zero. */
  function WeightOf(value: u64): (r: Result<u64>)
    ensures r.Ok? <==> 0 < value <= WEIGHT_C
    ensures r.Ok? ==> 0 < r.value <= WEIGHT_C
    ensures r.Err? ==> r.error == if value == 0 then ZeroValue else ArithmeticFailure
  {
    if value == 0 then Err(ZeroValue)
    else
      DivBrackets(WEIGHT_C, value);
      var w := WEIGHT_C / value;
      if w == 0 || w > U64_MAX then Err(ArithmeticFailure) else Ok(w)
  }

  /** The weight is the integer whose product with the value brackets `WEIGHT_C`. */
  lemma WeightBrackets(value: u64, w: u64)
    requires 0 < value
    ensures WeightOf(value) == Ok(w) <==>
            0 < w && w * value <= 1_000_000_000_000_000_000 < (w + 1) * value
  {
    DivBrackets(WEIGHT_C, value);
    if w * value <= WEIGHT_C < (w + 1) * value {
      DivUnique(WEIGHT_C, value, w);
    }
  }

  /** A dearer card never weighs more, and inverting a weight never lands below the value. */
  lemma WeightAntitone(cheap: u64, dear: u64)
    requires 0 < cheap <= dear <= WEIGHT_C
    ensures WeightOf(dear).value <= WeightOf(cheap).value
    ensures WEIGHT_C / WeightOf(cheap).value >= cheap
  {
    var w, v := WeightOf(cheap).value, WeightOf(dear).value;
    WeightBrackets(cheap, w);
    WeightBrackets(dear, v);
    MulMonotone(dear, cheap, v);
    if v > w {
      MulMonotone(v, w + 1, cheap);
    }
    DivBrackets(WEIGHT_C, w);
    if WEIGHT_C / w < cheap {
      MulMonotone(cheap, WEIGHT_C / w + 1, w);
    }
  }

  /** The pool's draw weight after the first `d` denominations were added to `wReal`. */
  function AggregateUpTo(wReal: u128, blanks: seq<u32>, faces: seq<u64>, d: nat): Result<u128>
    requires |blanks| == |faces| == 3 && d <= 3
  {
    if d == 0 then Ok(wReal)
    else
      var total :- AggregateUpTo(wReal, blanks, faces, d - 1);
      var faceWeight :- WeightOf(faces[d - 1]);
      var contribution :- CheckedMul(faceWeight, blanks[d - 1], U128_MAX);
      if total + contribution <= U128_MAX then Ok(total + contribution) else Err(ArithmeticFailure)
  }

  method AggregateWeight(wReal: u128, blanks: seq<u32>, faces: seq<u64>) returns (r: Result<u128>)
    requires |blanks| == |faces| == 3
    ensures r == AggregateUpTo(wReal, blanks, faces, 3)
  {
    var total: nat := wReal;
    for d := 0 to 3
      invariant AggregateUpTo(wReal, blanks, faces, d) == Ok(total)
    {
      var faceWeight := WeightOf(faces[d]);
      if faceWeight.Err? {
        AggregateFails(wReal, blanks, faces, d + 1);
        return Err(faceWeight.error);
      }
      var contribution := CheckedMul(faceWeight.value, blanks[d], U128_MAX);
      if contribution.Err? {
        AggregateFails(wReal, blanks, faces, d + 1);
        return Err(contribution.error);
      }
      if total + contribution.value > U128_MAX {
        AggregateFails(wReal, blanks, faces, d + 1);
        return Err(ArithmeticFailure);
      }
      total := total + contribution.value;
    }
    r := Ok(total);
  }

  /** A failure at one denomination is the failure of the whole aggregate. */
  lemma {:induction false} AggregateFails(wReal: u128, blanks: seq<u32>, faces: seq<u64>, d: nat)
    requires |blanks| == |faces| == 3 && d <= 3
    requires AggregateUpTo(wReal, blanks, faces, d).Err?
    ensures AggregateUpTo(wReal, blanks, faces, 3) == AggregateUpTo(wReal, blanks, faces, d)
    decreases 3 - d
  {
    if d < 3 {
      AggregateFails(wReal, blanks, faces, d + 1);
    }
  }

  /** The published expected-value quote for `nTotal` slots over `aggregate` weight. */
  function TicketQuote(nTotal: u64, aggregate: u128): Result<u64> {
    if aggregate == 0 then Err(ArithmeticFailure)
    else
      var numerator :- CheckedMul(WEIGHT_C, nTotal, U128_MAX);
      DivBrackets(numerator, aggregate);
      var quote := numerator / aggregate;
      if quote > U64_MAX then Err(ArithmeticFailure) else Ok(quote)
  }

  lemma QuoteBrackets(nTotal: u64, aggregate: u128, q: u64)
    requires 0 < aggregate
    ensures TicketQuote(nTotal, aggregate) == Ok(q) <==>
            q * aggregate <= 1_000_000_000_000_000_000 * nTotal < (q + 1) * aggregate
  {
    MulMonotone(U64_MAX, nTotal, WEIGHT_C);
    DivBrackets(WEIGHT_C * nTotal, aggregate);
    if q * aggregate <= WEIGHT_C * nTotal < (q + 1) * aggregate {
      DivUnique(WEIGHT_C * nTotal, aggregate, q);
    }
  }

  /** The whole-unit share of `fee` that `bps` basis points allocate. */
  function BpsShare(fee: u64, bps: u16): nat {
    fee * bps / BPS
  }

  /** The `ACC_PRECISION`-scaled share of `fee` owed per one of `denom` claimants. */
  function AccumulatorUnit(fee: u64, bps: u16, denom: u64): Result<u128> {
    if denom == 0 then Err(ZeroValue)
    else
      var product :- CheckedMul(fee, bps, U128_MAX);
      var scaled :- CheckedMul(product / BPS, ACC_PRECISION, U128_MAX);
      DivBrackets(scaled, denom);
      Ok(scaled / denom)
  }

  /** A share is the whole units of `bps` ten-thousandths of the fee. */
  lemma ShareBrackets(fee: u64, bps: u16, share: nat)
    ensures BpsShare(fee, bps) == share <==> 10_000 * share <= fee * bps < 10_000 * (share + 1)
  {
  }

  /** Shares that allocate the whole fee lose at most two units of it between the three of them. */
  lemma SharesOfWhole(fee: u64, a: u16, b: u16, c: u16)
    requires a + b + c == 10_000
    ensures fee - 2 <= BpsShare(fee, a) + BpsShare(fee, b) + BpsShare(fee, c) <= fee
  {
    var x, y, z := fee * a, fee * b, fee * c;
    assert x + y + z == fee * (a + b + c);
    ShareBrackets(fee, a, BpsShare(fee, a));
    ShareBrackets(fee, b, BpsShare(fee, b));
    ShareBrackets(fee, c, BpsShare(fee, c));
    hide BpsShare;
  }

  /** The unit is the floor of `10^12` times the whole-unit share over the claimants, and it exists
      exactly when there are any. */
  lemma UnitBrackets(fee: u64, bps: u16, denom: u64, share: nat, unit: u128)
    requires 10_000 * share <= fee * bps < 10_000 * (share + 1)
    ensures denom == 0 ==> AccumulatorUnit(fee, bps, denom) == Err(ZeroValue)
    ensures denom != 0 ==>
              && AccumulatorUnit(fee, bps, denom).Ok?
              && (AccumulatorUnit(fee, bps, denom) == Ok(unit) <==>
                  unit * denom <= share * 1_000_000_000_000 < (unit + 1) * denom)
  {
    ShareBrackets(fee, bps, share);
    UnitOfShare(fee, bps, denom);
    hide AccumulatorUnit;
    hide BpsShare;
    if denom != 0 && unit * denom <= share * ACC_PRECISION < (unit + 1) * denom {
      DivUnique(share * ACC_PRECISION, denom, unit);
      DivUnique(share * ACC_PRECISION, denom, AccumulatorUnit(fee, bps, denom).value);
    }
  }

  lemma UnitOfShare(fee: u64, bps: u16, denom: u64)
    ensures denom == 0 ==> AccumulatorUnit(fee, bps, denom) == Err(ZeroValue)
    ensures AccumulatorUnit(fee, bps, denom).Ok? <==> denom != 0
    ensures denom != 0 ==>
              var unit := AccumulatorUnit(fee, bps, denom).value;
              unit * denom <= BpsShare(fee, bps) * ACC_PRECISION < (unit + 1) * denom
  {
    MulMonotone(U64_MAX, fee, bps);
    MulMonotone(U16_MAX, bps, U64_MAX);
    DivBrackets(fee * bps, BPS);
    if denom != 0 {
      DivBrackets(BpsShare(fee, bps) * ACC_PRECISION, denom);
    }
  }

  /** The floored accumulator delta since `checkpoint`, plus what was settled before. */
  function PositionFeePayout(accNow: u128, checkpoint: u128, accrued: u64): (r: Result<u64>)
    ensures r.Err? ==> r.error == ArithmeticFailure
  {
    if accNow < checkpoint then Err(ArithmeticFailure)
    else
      var scaled := (accNow - checkpoint) / ACC_PRECISION;
      if scaled > U64_MAX || scaled + accrued > U64_MAX then Err(ArithmeticFailure)
      else Ok(scaled + accrued)
  }

  /** What a payout pays: less than one unit of the claim is left behind, never more is taken. */
  lemma PayoutBrackets(accNow: u128, checkpoint: u128, accrued: u64, paid: u64)
    requires checkpoint <= accNow
    ensures PositionFeePayout(accNow, checkpoint, accrued) == Ok(paid) <==>
            0 <= accNow - checkpoint - ACC_PRECISION * (paid - accrued) < ACC_PRECISION
  {
  }

  /** Settles one leg at each of the accumulator readings `accs`, in order. */
  function Settle(accs: seq<u128>, checkpoint: u128, accrued: u64): Result<u64> {
    if accs == [] then Ok(accrued)
    else
      var carried :- PositionFeePayout(accs[0], checkpoint, accrued);
      Settle(accs[1..], accs[0], carried)
  }

  ghost predicate Ascending(checkpoint: u128, accs: seq<u128>)
    decreases |accs|
  {
    accs == [] || (checkpoint <= accs[0] && Ascending(accs[0], accs[1..]))
  }

  /** Settling a span in `m` steps pays at most the one-step amount and loses less than `m` units:
      whenever the single settlement succeeds, every way of splitting it does. */
  lemma {:induction false} SplitSettlement(accs: seq<u128>, checkpoint: u128, accrued: u64)
    requires accs != [] && Ascending(checkpoint, accs)
    requires PositionFeePayout(accs[|accs| - 1], checkpoint, accrued).Ok?
    ensures var once := PositionFeePayout(accs[|accs| - 1], checkpoint, accrued).value;
            var split := Settle(accs, checkpoint, accrued);
            split.Ok? && split.value <= once <= split.value + |accs| - 1
    decreases |accs|
  {
    var last := accs[|accs| - 1];
    if |accs| == 1 {
      assert Settle(accs[1..], accs[0], PositionFeePayout(accs[0], checkpoint, accrued).value).Ok?;
    } else {
      AscendingLast(accs[0], accs[1..]);
      assert accs[1..][|accs[1..]| - 1] == last;
      SplitSettlement(accs[1..], accs[0], PositionFeePayout(accs[0], checkpoint, accrued).value);
    }
  }

  lemma {:induction false} AscendingLast(checkpoint: u128, accs: seq<u128>)
    requires accs != [] && Ascending(checkpoint, accs)
    ensures checkpoint <= accs[|accs| - 1]
    decreases |accs|
  {
    if |accs| > 1 {
      AscendingLast(accs[0], accs[1..]);
    }
  }
}
