/** Blank targeting: a closed-form anchor in the middle denomination and an eight-candidate scan
    around it, minimising the ticket-price error. */
module Rebalance {
  import opened Machine
  import opened FeeMath

  datatype BlankTargets = BlankTargets(b1: nat, b2: nat, b5: nat)

  const NO_BLANKS := BlankTargets(0, 0, 0)

  /** One pricing problem: ticket target `t`, real weight `w` over `n` real positions, and the
      weight of one blank of each denomination. */
  datatype Market = Market(t: nat, w: nat, n: nat, w1: nat, w2: nat, w5: nat)

  function Weighted(m: Market, b: BlankTargets): nat {
    m.w + b.b1 * m.w1 + b.b2 * m.w2 + b.b5 * m.w5
  }

  function Count(m: Market, b: BlankTargets): nat {
    m.n + b.b1 + b.b2 + b.b5
  }

  function Blanks(b: BlankTargets): nat {
    b.b1 + b.b2 + b.b5
  }

  /** The signed ticket-price error a blank set leaves. */
  function Gap(m: Market, b: BlankTargets): int {
    m.t * Weighted(m, b) - WEIGHT_C * Count(m, b)
  }

  function Score(m: Market, b: BlankTargets): nat {
    if Gap(m, b) >= 0 then Gap(m, b) else -Gap(m, b)
  }

  /** What one blank of weight `weight` adds to the gap. */
  function Shift(t: nat, weight: nat): int {
    t * weight - WEIGHT_C
  }

  function Base(m: Market): int {
    m.t * m.w - WEIGHT_C * m.n
  }

  /** The anchor: the largest pure middle-denomination count that does not overshoot, or none
      when the real positions alone already do. */
  function Anchor(m: Market): nat
    requires WEIGHT_C < m.t * m.w2
  {
    var num := if Base(m) >= 0 then 0 else -Base(m);
    DivBrackets(num, Shift(m.t, m.w2));
    num / Shift(m.t, m.w2)
  }

  /** Candidate `k` in the order the scan visits them. */
  function Candidate(m: Market, k: nat): BlankTargets
    requires WEIGHT_C < m.t * m.w2 && k < 8
  {
    BlankTargets(k / 4, Anchor(m) + k % 2, k / 2 % 2)
  }

  /** The scan's key: score, then fewer blanks, then fewer `b1`, then fewer `b5`. */
  datatype Key = Key(score: nat, blanks: nat, b1: nat, b5: nat)

  predicate KeyLess(a: Key, b: Key) {
    a.score < b.score || (a.score == b.score &&
    (a.blanks < b.blanks || (a.blanks == b.blanks &&
    (a.b1 < b.b1 || (a.b1 == b.b1 && a.b5 < b.b5)))))
  }

  function KeyOf(m: Market, b: BlankTargets): Key {
    Key(Score(m, b), Blanks(b), b.b1, b.b5)
  }

  predicate Better(m: Market, a: BlankTargets, b: BlankTargets) {
    KeyLess(KeyOf(m, a), KeyOf(m, b))
  }

  function BestOf(m: Market, k: nat): BlankTargets
    requires WEIGHT_C < m.t * m.w2 && 1 <= k <= 8
  {
    if k == 1 then Candidate(m, 0)
    else
      var best := BestOf(m, k - 1);
      if Better(m, Candidate(m, k - 1), best) then Candidate(m, k - 1) else best
  }

  /** The largest blank set the scan scores; when it fits the machine widths they all do. */
  predicate Computable(m: Market)
    requires WEIGHT_C < m.t * m.w2
  {
    Anchor(m) + 1 <= U32_MAX && m.t * Weighted(m, Candidate(m, 7)) <= U128_MAX
  }

  function Solve(m: Market): Result<BlankTargets> {
    if WEIGHT_C < m.t * m.w2 && Computable(m) then Ok(BestOf(m, 8)) else Err(ArithmeticFailure)
  }

  function Evaluate(nReal: u32, wReal: u128, faces: seq<u64>, ticketTarget: u64): Result<BlankTargets>
    requires |faces| == 3
  {
    if nReal == 0 then Ok(NO_BLANKS)
    else
      var w1 :- WeightOf(faces[0]);
      var w2 :- WeightOf(faces[1]);
      var w5 :- WeightOf(faces[2]);
      Solve(Market(ticketTarget, wReal, nReal, w1, w2, w5))
  }

  // ---- The loops of the source ----

  function WeightedUpTo(w: nat, weights: seq<nat>, counts: seq<nat>, d: nat): nat
    requires |weights| == |counts| == 3 && d <= 3
  {
    if d == 0 then w else WeightedUpTo(w, weights, counts, d - 1) + weights[d - 1] * counts[d - 1]
  }

  function CountUpTo(n: nat, counts: seq<nat>, d: nat): nat
    requires |counts| == 3 && d <= 3
  {
    if d == 0 then n else CountUpTo(n, counts, d - 1) + counts[d - 1]
  }

  lemma {:induction false} UpToGrows(w: nat, n: nat, weights: seq<nat>, counts: seq<nat>, d: nat)
    requires |weights| == |counts| == 3 && d <= 3
    ensures WeightedUpTo(w, weights, counts, d) <= WeightedUpTo(w, weights, counts, 3)
    ensures CountUpTo(n, counts, d) <= CountUpTo(n, counts, 3)
    decreases 3 - d
  {
    if d < 3 {
      UpToGrows(w, n, weights, counts, d + 1);
    }
  }

  /** The absolute error of one candidate; it fails exactly when one of the four totals does not
      fit `u128`. */
  method ScoreOf(t: u128, w: u128, n: u128, weights: seq<u128>, counts: seq<u128>)
    returns (r: Result<u128>)
    requires |weights| == |counts| == 3
    ensures var weighted := WeightedUpTo(w, weights, counts, 3);
            var count := CountUpTo(n, counts, 3);
            r == if weighted <= U128_MAX && count <= U128_MAX
                    && t * weighted <= U128_MAX && WEIGHT_C * count <= U128_MAX
                 then Ok(if t * weighted >= WEIGHT_C * count then t * weighted - WEIGHT_C * count
                         else WEIGHT_C * count - t * weighted)
                 else Err(ArithmeticFailure)
  {
    var weighted: nat, totalCount: nat := w, n;
    for d := 0 to 3
      invariant weighted == WeightedUpTo(w, weights, counts, d) <= U128_MAX
      invariant totalCount == CountUpTo(n, counts, d) <= U128_MAX
    {
      UpToGrows(w, n, weights, counts, d + 1);
      var contribution := CheckedMul(weights[d], counts[d], U128_MAX);
      if contribution.Err? {
        return Err(ArithmeticFailure);
      }
      if weighted + contribution.value > U128_MAX {
        return Err(ArithmeticFailure);
      }
      weighted := weighted + contribution.value;
      if totalCount + counts[d] > U128_MAX {
        return Err(ArithmeticFailure);
      }
      totalCount := totalCount + counts[d];
    }
    var lhs := CheckedMul(t, weighted, U128_MAX);
    var rhs := CheckedMul(WEIGHT_C, totalCount, U128_MAX);
    if lhs.Err? || rhs.Err? {
      return Err(ArithmeticFailure);
    }
    r := Ok(AbsDiff(lhs.value, rhs.value));
  }

  function AbsDiff(a: u128, b: u128): u128 {
    if a >= b then a - b else b - a
  }

  lemma CandidateTotals(m: Market, k: nat)
    requires WEIGHT_C < m.t * m.w2 && k < 8
    ensures var b := Candidate(m, k);
            && WeightedUpTo(m.w, [m.w1, m.w2, m.w5], [b.b1, b.b2, b.b5], 3) == Weighted(m, b)
            && CountUpTo(m.n, [b.b1, b.b2, b.b5], 3) == Count(m, b)
  {
    var b := Candidate(m, k);
    var ws, cs := [m.w1, m.w2, m.w5], [b.b1, b.b2, b.b5];
    assert WeightedUpTo(m.w, ws, cs, 1) == m.w + m.w1 * b.b1;
    assert WeightedUpTo(m.w, ws, cs, 2) == WeightedUpTo(m.w, ws, cs, 1) + m.w2 * b.b2;
    assert CountUpTo(m.n, cs, 1) == m.n + b.b1;
    assert CountUpTo(m.n, cs, 2) == CountUpTo(m.n, cs, 1) + b.b2;
  }

  /** No candidate weighs more than the last one. */
  lemma LastIsHeaviest(m: Market, k: nat)
    requires WEIGHT_C < m.t * m.w2 && k < 8
    ensures 0 < m.t
    ensures Weighted(m, Candidate(m, k)) <= Weighted(m, Candidate(m, 7))
    ensures m.t * Weighted(m, Candidate(m, k)) <= m.t * Weighted(m, Candidate(m, 7))
    ensures Weighted(m, Candidate(m, k)) <= m.t * Weighted(m, Candidate(m, k))
  {
    var b, last := Candidate(m, k), Candidate(m, 7);
    MulMonotone(last.b1, b.b1, m.w1);
    MulMonotone(last.b2, b.b2, m.w2);
    MulMonotone(last.b5, b.b5, m.w5);
    MulMonotone(Weighted(m, last), Weighted(m, b), m.t);
    MulMonotone(m.w2, 0, m.t);
    assert m.t != 0;
    MulMonotone(m.t, 1, Weighted(m, b));
  }

  /** The four totals `ScoreOf` checks for candidate `k`. */
  predicate Fits(m: Market, b: BlankTargets) {
    && Weighted(m, b) <= U128_MAX && Count(m, b) <= U128_MAX
    && m.t * Weighted(m, b) <= U128_MAX && WEIGHT_C * Count(m, b) <= U128_MAX
  }

  lemma ComputableFits(m: Market, k: nat)
    requires WEIGHT_C < m.t * m.w2 && k < 8 && m.n <= U32_MAX
    ensures Computable(m) ==> Fits(m, Candidate(m, k)) && Candidate(m, k).b2 <= U32_MAX
    ensures k == 7 && Fits(m, Candidate(m, k)) && Candidate(m, k).b2 <= U32_MAX ==> Computable(m)
  {
    LastIsHeaviest(m, k);
  }

  /** The machine widths one resolved pricing problem arrives in. */
  predicate InWidth(m: Market) {
    && m.t <= U64_MAX && m.w <= U128_MAX && m.n <= U32_MAX
    && m.w1 <= WEIGHT_C && m.w2 <= WEIGHT_C && m.w5 <= WEIGHT_C
  }

  method ScoreCandidate(m: Market, k: nat) returns (r: Result<u128>)
    requires InWidth(m) && WEIGHT_C < m.t * m.w2 && k < 8
    ensures r == if Fits(m, Candidate(m, k)) then Ok(Score(m, Candidate(m, k)))
                 else Err(ArithmeticFailure)
  {
    AnchorBound(m);
    var b := Candidate(m, k);
    CandidateTotals(m, k);
    r := ScoreOf(m.t, m.w, m.n, [m.w1, m.w2, m.w5], [b.b1, b.b2, b.b5]);
  }

  /** The innermost body: score candidate `k` and keep it if its key is the least so far. */
  method Visit(m: Market, k: nat, candidate: BlankTargets, best: Option<(Key, BlankTargets)>)
    returns (r: Result<Option<(Key, BlankTargets)>>)
    requires InWidth(m) && WEIGHT_C < m.t * m.w2 && k < 8
    requires candidate == Candidate(m, k) && Scanned(m, k, best)
    ensures r.Err? ==> r.error == ArithmeticFailure && !Computable(m)
    ensures r.Ok? ==> Scanned(m, k + 1, r.value) && (k == 7 ==> Computable(m))
  {
    ComputableFits(m, k);
    var score := ScoreCandidate(m, k);
    if score.Err? || candidate.b2 > U32_MAX {
      return Err(ArithmeticFailure);
    }
    var key := Key(score.value, Blanks(candidate), candidate.b1, candidate.b5);
    assert key == KeyOf(m, candidate);
    if best.None? || KeyLess(key, best.value.0) {
      return Ok(Some((key, candidate)));
    }
    r := Ok(best);
  }

  lemma CandidateAt(m: Market, a1: nat, a5: nat, delta: nat)
    requires WEIGHT_C < m.t * m.w2 && a1 < 2 && a5 < 2 && delta < 2
    ensures Candidate(m, 4 * a1 + 2 * a5 + delta) == BlankTargets(a1, Anchor(m) + delta, a5)
  {
  }

  /** The innermost loop: the anchor and one more, beside `a1` and `a5` extra blanks. */
  method ScanAround(m: Market, a1: nat, a5: nat, b2Star: nat, best0: Option<(Key, BlankTargets)>)
    returns (r: Result<Option<(Key, BlankTargets)>>)
    requires InWidth(m) && WEIGHT_C < m.t * m.w2 && a1 < 2 && a5 < 2
    requires b2Star == Anchor(m) && Scanned(m, 4 * a1 + 2 * a5, best0)
    ensures r.Err? ==> r.error == ArithmeticFailure && !Computable(m)
    ensures r.Ok? ==> Scanned(m, 4 * a1 + 2 * a5 + 2, r.value) && (a1 == 1 && a5 == 1 ==> Computable(m))
  {
    hide KeyOf;
    hide BestOf;
    hide Computable;
    var best := best0;
    for delta := 0 to 2
      invariant Scanned(m, 4 * a1 + 2 * a5 + delta, best)
      invariant a1 == 1 && a5 == 1 && delta == 2 ==> Computable(m)
    {
      CandidateAt(m, a1, a5, delta);
      var visited := Visit(m, 4 * a1 + 2 * a5 + delta, BlankTargets(a1, b2Star + delta, a5), best);
      if visited.Err? {
        return visited;
      }
      best := visited.value;
    }
    r := Ok(best);
  }

  /** The anchor and the scan around it. An overflow of `t * w` is not tested apart: it makes
      every candidate's score overflow as well. */
  method SolveScan(m: Market) returns (r: Result<BlankTargets>)
    requires InWidth(m)
    ensures r == Solve(m)
  {
    hide KeyOf;
    hide BestOf;
    hide Computable;
    var scaledW2 := m.t * m.w2;
    if scaledW2 <= WEIGHT_C {
      return Err(ArithmeticFailure);
    }
    var b2Star := Anchor(m);
    var best: Option<(Key, BlankTargets)> := None;
    for a1 := 0 to 2
      invariant Scanned(m, 4 * a1, best)
      invariant a1 == 2 ==> Computable(m)
    {
      for a5 := 0 to 2
        invariant Scanned(m, 4 * a1 + 2 * a5, best)
        invariant a1 == 1 && a5 == 2 ==> Computable(m)
      {
        var scanned := ScanAround(m, a1, a5, b2Star, best);
        if scanned.Err? {
          return Err(scanned.error);
        }
        best := scanned.value;
      }
    }
    r := Ok(best.value.1);
  }

  method EvaluateScan(nReal: u32, wReal: u128, faces: seq<u64>, ticketTarget: u64)
    returns (r: Result<BlankTargets>)
    requires |faces| == 3
    ensures r == Evaluate(nReal, wReal, faces, ticketTarget)
  {
    if nReal == 0 {
      return Ok(NO_BLANKS);
    }
    var w1 := WeightOf(faces[0]);
    if w1.Err? { return Err(w1.error); }
    var w2 := WeightOf(faces[1]);
    if w2.Err? { return Err(w2.error); }
    var w5 := WeightOf(faces[2]);
    if w5.Err? { return Err(w5.error); }
    r := SolveScan(Market(ticketTarget, wReal, nReal, w1.value, w2.value, w5.value));
  }

  lemma AnchorBound(m: Market)
    requires WEIGHT_C < m.t * m.w2
    ensures Anchor(m) <= WEIGHT_C * m.n
  {
    var num := if Base(m) >= 0 then 0 else -Base(m);
    DivBrackets(num, Shift(m.t, m.w2));
    MulMonotone(m.w, 0, m.t);
  }

  /** What the scan holds after visiting the first `k` candidates. */
  ghost predicate Scanned(m: Market, k: nat, best: Option<(Key, BlankTargets)>)
    requires WEIGHT_C < m.t * m.w2 && k <= 8
  {
    if k == 0 then best == None
    else best == Some((KeyOf(m, BestOf(m, k)), BestOf(m, k)))
  }
}
