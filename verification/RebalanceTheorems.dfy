/** What the blank-targeting scan is worth: unique argmin, dominance, residual, saturation, the
    published price, and when it succeeds. */
module RebalanceTheorems {
  import opened Machine
  import opened FeeMath
  import opened Rebalance

  /** The gap is linear in the three counts. */
  lemma GapIsLinear(m: Market, b: BlankTargets)
    ensures Gap(m, b) == Base(m) + b.b1 * Shift(m.t, m.w1) + b.b2 * Shift(m.t, m.w2)
                       + b.b5 * Shift(m.t, m.w5)
  {
    var x, y, z := b.b1 * m.w1, b.b2 * m.w2, b.b5 * m.w5;
    assert m.t * (m.w + x + y + z) == m.t * m.w + m.t * x + m.t * y + m.t * z;
    Reassociate(m.t, b.b1, m.w1);
    Reassociate(m.t, b.b2, m.w2);
    Reassociate(m.t, b.b5, m.w5);
  }

  lemma Reassociate(t: int, b: int, w: int)
    ensures t * (b * w) == b * (t * w)
    ensures b * (t * w - WEIGHT_C) == b * (t * w) - WEIGHT_C * b
  {
  }

  // ---- The scan is a unique argmin ----

  ghost predicate IsCandidate(m: Market, b: BlankTargets)
    requires WEIGHT_C < m.t * m.w2
  {
    exists k :: 0 <= k < 8 && b == Candidate(m, k)
  }

  lemma BetterIsTransitive(m: Market, a: BlankTargets, b: BlankTargets, c: BlankTargets)
    requires Better(m, a, b) && Better(m, b, c)
    ensures Better(m, a, c)
  {
  }

  lemma KeysAreTotal(a: Key, b: Key)
    ensures KeyLess(a, b) || KeyLess(b, a) || a == b
  {
  }

  lemma CandidatesDiffer(j: nat, k: nat)
    requires j < 8 && k < 8 && j / 4 == k / 4 && j / 2 % 2 == k / 2 % 2 && j % 2 == k % 2
    ensures j == k
  {
  }

  /** Two candidates with the same key are the same candidate. */
  lemma BetterIsTotal(m: Market, j: nat, k: nat)
    requires WEIGHT_C < m.t * m.w2 && j < 8 && k < 8
    ensures Better(m, Candidate(m, j), Candidate(m, k)) || Better(m, Candidate(m, k), Candidate(m, j))
            || j == k
  {
    hide Score;
    hide Anchor;
    hide KeyLess;
    KeysAreTotal(KeyOf(m, Candidate(m, j)), KeyOf(m, Candidate(m, k)));
    if KeyOf(m, Candidate(m, j)) == KeyOf(m, Candidate(m, k)) {
      CandidatesDiffer(j, k);
    }
  }

  lemma {:induction false} BestOfIsLeast(m: Market, k: nat) returns (best: nat)
    requires WEIGHT_C < m.t * m.w2 && 1 <= k <= 8
    ensures best < k && BestOf(m, k) == Candidate(m, best)
    ensures forall j :: 0 <= j < k && j != best ==> Better(m, BestOf(m, k), Candidate(m, j))
    decreases k
  {
    hide Better;
    hide Candidate;
    if k == 1 {
      best := 0;
    } else {
      best := BestOfIsLeast(m, k - 1);
      var kept := best;
      if Better(m, Candidate(m, k - 1), Candidate(m, kept)) {
        best := k - 1;
        forall j | 0 <= j < k - 1
          ensures Better(m, BestOf(m, k), Candidate(m, j))
        {
          if j != kept {
            BetterIsTransitive(m, Candidate(m, k - 1), Candidate(m, kept), Candidate(m, j));
          }
        }
      } else {
        BetterIsTotal(m, kept, k - 1);
      }
    }
  }

  /** A successful evaluation over real positions returns the one candidate that every other is
      worse than: the eight keys are pairwise distinct, so the visiting order does not matter. */
  lemma ScanIsUniqueArgmin(m: Market, b: BlankTargets)
    requires Solve(m).Ok? && IsCandidate(m, b)
    ensures IsCandidate(m, Solve(m).value)
    ensures b != Solve(m).value <==> Better(m, Solve(m).value, b)
    ensures b == Solve(m).value <==>
            forall k :: 0 <= k < 8 && Candidate(m, k) != b ==> Better(m, b, Candidate(m, k))
  {
    var best := BestOfIsLeast(m, 8);
  }

  /** `s` misses by no more than `b`; missing as much it has no more blanks, then no more of the first
      denomination, then no more of the last. */
  predicate NoWorse(missed: nat, s: BlankTargets, other: nat, b: BlankTargets) {
    && missed <= other
    && (missed == other ==>
          && s.b1 + s.b2 + s.b5 <= b.b1 + b.b2 + b.b5
          && (s.b1 + s.b2 + s.b5 == b.b1 + b.b2 + b.b5 ==>
                s.b1 <= b.b1 && (s.b1 == b.b1 ==> s.b5 <= b.b5)))
  }

  /** What the scan is for, stated on the counts: over the anchor and one more, beside at most one of
      each other denomination, nothing misses the target by less; of those that miss it by as little
      nothing has fewer blanks, then nothing fewer of the first, then nothing fewer of the last. */
  lemma SolvedIsFirst(m: Market, b: BlankTargets)
    requires Solve(m).Ok? && b.b1 <= 1 && b.b5 <= 1 && Anchor(m) <= b.b2 <= Anchor(m) + 1
    ensures var s := Solve(m).value;
            NoWorse(Score(m, s), s, Score(m, b), b)
  {
    hide Score;
    hide Candidate;
    hide BestOf;
    hide Better;
    var best := BestOfIsLeast(m, 8);
    CandidateAt(m, b.b1, b.b5, b.b2 - Anchor(m));
    hide Anchor;
    if b != Solve(m).value {
      BetterMeans(m, Solve(m).value, b);
    }
  }

  lemma BetterMeans(m: Market, a: BlankTargets, b: BlankTargets)
    requires Better(m, a, b)
    ensures NoWorse(Score(m, a), a, Score(m, b), b)
  {
    hide Score;
  }

  /** How far a blank set leaves the faces from the target, scaled: the weight at the target price
      against `10^18` for every slot. */
  function Miss(nReal: nat, wReal: nat, faces: seq<u64>, t: nat, b: BlankTargets): nat
    requires |faces| == 3 && forall d :: 0 <= d < 3 ==> WeightOf(faces[d]).Ok?
  {
    var weight := wReal + b.b1 * WeightOf(faces[0]).value + b.b2 * WeightOf(faces[1]).value
                  + b.b5 * WeightOf(faces[2]).value;
    var slots := nReal + b.b1 + b.b2 + b.b5;
    if t * weight >= 1_000_000_000_000_000_000 * slots then t * weight - 1_000_000_000_000_000_000 * slots
    else 1_000_000_000_000_000_000 * slots - t * weight
  }

  /** `anchor` middle blanks of weight `w2` are the most that do not overshoot the target, or none do. */
  predicate LastUnder(t: nat, wReal: nat, nReal: nat, w2: nat, anchor: nat) {
    && (anchor == 0 || t * (wReal + anchor * w2) <= WEIGHT_C * (nReal + anchor))
    && t * (wReal + (anchor + 1) * w2) > WEIGHT_C * (nReal + anchor + 1)
  }

  /** The same of a whole evaluation, over the faces. */
  lemma EvaluatedIsFirst(nReal: u32, wReal: u128, faces: seq<u64>, t: u64, anchor: nat, b: BlankTargets)
    requires |faces| == 3 && 0 < nReal && Evaluate(nReal, wReal, faces, t).Ok?
    requires WeightOf(faces[1]).Ok? && LastUnder(t, wReal, nReal, WeightOf(faces[1]).value, anchor)
    requires b.b1 <= 1 && b.b5 <= 1 && anchor <= b.b2 <= anchor + 1
    ensures forall d :: 0 <= d < 3 ==> WeightOf(faces[d]).Ok?
    ensures var s := Evaluate(nReal, wReal, faces, t).value;
            && s.b1 <= 1 && s.b5 <= 1 && anchor <= s.b2 <= anchor + 1
            && NoWorse(Miss(nReal, wReal, faces, t, s), s, Miss(nReal, wReal, faces, t, b), b)
  {
    hide WeightOf;
    hide Solve;
    hide Score;
    hide Miss;
    hide LastUnder;
    hide NoWorse;
    hide Anchor;
    var m := Market(t, wReal, nReal, WeightOf(faces[0]).value, WeightOf(faces[1]).value,
                    WeightOf(faces[2]).value);
    var s := Evaluate(nReal, wReal, faces, t).value;
    SolvedHeavy(m);
    AnchorIsLast(m, anchor);
    SolvedCounts(m);
    MissIsScore(m, faces, s);
    MissIsScore(m, faces, b);
    SolvedIsFirst(m, b);
  }

  lemma SolvedHeavy(m: Market)
    requires Solve(m).Ok?
    ensures WEIGHT_C < m.t * m.w2
  {
  }

  lemma MissIsScore(m: Market, faces: seq<u64>, b: BlankTargets)
    requires |faces| == 3
    requires WeightOf(faces[0]) == Ok(m.w1) && WeightOf(faces[1]) == Ok(m.w2) && WeightOf(faces[2]) == Ok(m.w5)
    ensures Miss(m.n, m.w, faces, m.t, b) == Score(m, b)
  {
    hide WeightOf;
  }

  /** The anchor is the last middle count that does not overshoot, when there is one. */
  lemma AnchorIsLast(m: Market, anchor: nat)
    requires WEIGHT_C < m.t * m.w2
    requires LastUnder(m.t, m.w, m.n, m.w2, anchor)
    ensures Anchor(m) == anchor
  {
    var d, a := Shift(m.t, m.w2), Anchor(m);
    AnchorCrossing(m);
    GapIsLinear(m, Pure(anchor));
    GapIsLinear(m, Pure(anchor + 1));
    GapIsLinear(m, Pure(a));
    GapIsLinear(m, Pure(a + 1));
    hide Anchor;
    if anchor < a {
      MulMonotone(a, anchor + 1, d);
    } else if a < anchor {
      MulMonotone(anchor, a + 1, d);
    }
  }

  /** On success the scan's counts are the anchor or one more, so they fit `u32`. */
  lemma SolvedCounts(m: Market)
    requires Solve(m).Ok?
    ensures var b := Solve(m).value;
            b.b1 <= 1 && b.b5 <= 1 && Anchor(m) <= b.b2 <= Anchor(m) + 1 <= U32_MAX
  {
    var best := BestOfIsLeast(m, 8);
  }

  // ---- Dominance over every pure middle-denomination count ----

  function Pure(k: nat): BlankTargets {
    BlankTargets(0, k, 0)
  }

  /** Where the anchor sits: at or before the crossing, and one more is past it. */
  lemma AnchorCrossing(m: Market)
    requires WEIGHT_C < m.t * m.w2
    ensures Base(m) >= 0 ==> Anchor(m) == 0
    ensures Base(m) <= 0 ==> Gap(m, Pure(Anchor(m))) <= 0 < Gap(m, Pure(Anchor(m) + 1))
    ensures Gap(m, Pure(Anchor(m) + 1)) == Gap(m, Pure(Anchor(m))) + Shift(m.t, m.w2)
  {
    var d, a := Shift(m.t, m.w2), Anchor(m);
    GapIsLinear(m, Pure(a));
    GapIsLinear(m, Pure(a + 1));
    assert (a + 1) * d == a * d + d;
    DivBrackets(if Base(m) >= 0 then 0 else -Base(m), d);
  }

  /** Beyond the crossing the error only grows, on either side. */
  lemma PureIsConvex(m: Market, k: nat)
    requires WEIGHT_C < m.t * m.w2
    ensures Score(m, Pure(Anchor(m))) <= Score(m, Pure(k)) ||
            Score(m, Pure(Anchor(m) + 1)) <= Score(m, Pure(k))
  {
    var d, a := Shift(m.t, m.w2), Anchor(m);
    AnchorCrossing(m);
    GapIsLinear(m, Pure(k));
    GapIsLinear(m, Pure(a));
    GapIsLinear(m, Pure(a + 1));
    if k <= a {
      MulMonotone(a, k, d);
    } else {
      MulMonotone(k, a + 1, d);
    }
  }

  /** No number of pure middle-denomination blanks beats what the scan returns. */
  lemma Dominance(m: Market, k: nat)
    requires Solve(m).Ok?
    ensures Score(m, Solve(m).value) <= Score(m, Pure(k))
  {
    SolvedScore(m, 0);
    SolvedScore(m, 1);
    assert Candidate(m, 0) == Pure(Anchor(m)) && Candidate(m, 1) == Pure(Anchor(m) + 1);
    PureIsConvex(m, k);
  }

  /** When the real positions do not overshoot, at most half of one middle blank's shift is left. */
  lemma Residual(m: Market)
    requires Solve(m).Ok? && Base(m) <= 0
    ensures 2 * Score(m, Solve(m).value) <= Shift(m.t, m.w2)
  {
    AnchorCrossing(m);
    Dominance(m, Anchor(m));
    Dominance(m, Anchor(m) + 1);
  }

  // ---- The saturated regime ----

  /** With no denomination lighter than the target, blanks only widen a gap that is already
      open: none at all is the global optimum, and it is what the scan returns. */
  lemma SaturatedIsOptimal(m: Market, b: BlankTargets)
    requires Solve(m).Ok? && Base(m) >= 0
    requires Shift(m.t, m.w1) >= 0 && Shift(m.t, m.w5) >= 0
    ensures Solve(m).value == NO_BLANKS
    ensures Score(m, NO_BLANKS) <= Score(m, b)
  {
    BlanksOnlyWiden(m, b);
    BlanksOnlyWiden(m, Solve(m).value);
    assert Candidate(m, 0) == NO_BLANKS by { AnchorCrossing(m); }
    NoneUnlessBetter(m);
  }

  /** No candidate scores lower than what the scan returns. */
  lemma SolvedScore(m: Market, k: nat)
    requires Solve(m).Ok? && k < 8
    ensures Score(m, Solve(m).value) <= Score(m, Candidate(m, k))
  {
    var best := BestOfIsLeast(m, 8);
    if k != best {
      BetterScores(m, BestOf(m, 8), Candidate(m, k));
    }
    hide Score;
  }

  /** When the anchor is zero, anything else the scan returns scores strictly lower than none. */
  lemma NoneUnlessBetter(m: Market)
    requires Solve(m).Ok? && Candidate(m, 0) == NO_BLANKS
    ensures Solve(m).value == NO_BLANKS || Score(m, Solve(m).value) < Score(m, NO_BLANKS)
  {
    var best := BestOfIsLeast(m, 8);
    if best != 0 {
      BetterScores(m, BestOf(m, 8), NO_BLANKS);
    }
    hide Score;
  }

  /** A better key never has the higher score, and only a lower one beats no blanks at all. */
  lemma BetterScores(m: Market, a: BlankTargets, b: BlankTargets)
    requires Better(m, a, b)
    ensures Score(m, a) <= Score(m, b)
    ensures b == NO_BLANKS ==> Score(m, a) < Score(m, b)
  {
    hide Score;
  }

  lemma BlanksOnlyWiden(m: Market, b: BlankTargets)
    requires Base(m) >= 0
    requires Shift(m.t, m.w1) >= 0 && Shift(m.t, m.w2) >= 0 && Shift(m.t, m.w5) >= 0
    ensures Score(m, NO_BLANKS) <= Score(m, b)
  {
    GapIsLinear(m, b);
    GapIsLinear(m, NO_BLANKS);
    MulMonotone(Shift(m.t, m.w1), 0, b.b1);
    MulMonotone(Shift(m.t, m.w2), 0, b.b2);
    MulMonotone(Shift(m.t, m.w5), 0, b.b5);
  }

  /** The markets a pool can be in: no position outweighs `WEIGHT_C`. */
  ghost predicate Attainable(m: Market) {
    0 < m.n <= U32_MAX && m.w <= m.n * WEIGHT_C && Base(m) >= 0
  }

  ghost predicate SaturatedGivesNone(t: u64, w1: u64, w2: u64, w5: u64) {
    forall w: u128, n: u32 ::
      var m := Market(t, w, n, w1, w2, w5);
      Attainable(m) && Solve(m).Ok? ==> Solve(m).value == NO_BLANKS
  }

  ghost predicate SaturatedWantsNone(t: u64, w1: u64, w2: u64, w5: u64) {
    forall w: u128, n: u32, b: BlankTargets ::
      var m := Market(t, w, n, w1, w2, w5);
      Attainable(m) && Solve(m).Ok? ==> Score(m, NO_BLANKS) <= Score(m, b)
  }

  /** Exactly when saturation always yields no blanks, and exactly when no blanks are then the optimum
      over all triples: the two outer denominations must weigh at least the ticket target's inverse. */
  lemma SaturatedIff(t: u64, w1: u64, w2: u64, w5: u64)
    requires 0 < w1 <= WEIGHT_C && 0 < w2 <= WEIGHT_C && 0 < w5 <= WEIGHT_C
    requires WEIGHT_C < t * w2
    ensures SaturatedGivesNone(t, w1, w2, w5) <==> WEIGHT_C <= t * w1 && WEIGHT_C <= t * w5
    ensures SaturatedWantsNone(t, w1, w2, w5) <==> WEIGHT_C <= t * w1 && WEIGHT_C <= t * w5
  {
    if WEIGHT_C <= t * w1 && WEIGHT_C <= t * w5 {
      forall w: u128, n: u32, b: BlankTargets
        | Attainable(Market(t, w, n, w1, w2, w5)) && Solve(Market(t, w, n, w1, w2, w5)).Ok?
        ensures var m := Market(t, w, n, w1, w2, w5);
                Solve(m).value == NO_BLANKS && Score(m, NO_BLANKS) <= Score(m, b)
      {
        SaturatedIsOptimal(Market(t, w, n, w1, w2, w5), b);
      }
    } else {
      var m := Market(t, WEIGHT_C, 1, w1, w2, w5);
      LightBlankBeatsNone(m);
      assert Attainable(m);
    }
  }

  /** The heaviest single position, and a denomination lighter than the target's inverse: one of its
      blanks narrows the overshoot. */
  lemma LightBlankBeatsNone(m: Market)
    requires m.w == WEIGHT_C && m.n == 1 && m.t <= U64_MAX
    requires 0 < m.w1 <= WEIGHT_C && 0 < m.w2 <= WEIGHT_C && 0 < m.w5 <= WEIGHT_C
    requires WEIGHT_C < m.t * m.w2
    requires m.t * m.w1 < WEIGHT_C || m.t * m.w5 < WEIGHT_C
    ensures Base(m) >= 0 && Solve(m).Ok? && Solve(m).value != NO_BLANKS
    ensures Score(m, Solve(m).value) < Score(m, NO_BLANKS)
  {
    LightBlankGaps(m);
    AnchorCrossing(m);
    assert Candidate(m, 7) == BlankTargets(1, 1, 1);
    MulMonotone(U64_MAX, m.t, Weighted(m, Candidate(m, 7)));
    assert Candidate(m, 0) == NO_BLANKS;
    assert Candidate(m, 4) == BlankTargets(1, 0, 0);
    assert Candidate(m, 2) == BlankTargets(0, 0, 1);
    SolvedScore(m, 2);
    SolvedScore(m, 4);
    hide Score;
  }

  lemma LightBlankGaps(m: Market)
    requires m.w == WEIGHT_C && m.n == 1
    requires 0 < m.w1 && 0 < m.w2 <= WEIGHT_C && 0 < m.w5 && WEIGHT_C < m.t * m.w2
    ensures Base(m) >= WEIGHT_C
    ensures m.t * m.w1 < WEIGHT_C ==> Score(m, BlankTargets(1, 0, 0)) < Score(m, NO_BLANKS)
    ensures m.t * m.w5 < WEIGHT_C ==> Score(m, BlankTargets(0, 0, 1)) < Score(m, NO_BLANKS)
  {
    GapIsLinear(m, NO_BLANKS);
    GapIsLinear(m, BlankTargets(1, 0, 0));
    GapIsLinear(m, BlankTargets(0, 0, 1));
    if m.t < 2 {
      MulMonotone(1, m.t, m.w2);
    }
    MulMonotone(m.t, 2, m.w);
    MulMonotone(m.w1, 1, m.t);
    MulMonotone(m.w5, 1, m.t);
    hide Gap;
  }

  // ---- "Every face below the target outweighs it" ----

  ghost predicate OutweighsEveryTarget(face: u64)
    requires 0 < face <= WEIGHT_C
  {
    forall t: u64 :: face < t ==> WEIGHT_C < t * WeightOf(face).value
  }

  /** A face strictly below every admissible ticket target outweighs that target exactly when the
      remainder of the floor division is smaller than the weight itself. */
  lemma OutweighsIff(face: u64)
    requires 0 < face <= WEIGHT_C
    ensures OutweighsEveryTarget(face) <==> WEIGHT_C % face < WeightOf(face).value
  {
    var w := WeightOf(face).value;
    assert WEIGHT_C == w * face + WEIGHT_C % face;
    assert (face + 1) * w == w * face + w;
    if WEIGHT_C % face < w {
      forall t: u64 | face < t
        ensures WEIGHT_C < t * w
      {
        MulMonotone(t, face + 1, w);
      }
    } else {
      var t: u64 := face + 1;
      assert t * w <= WEIGHT_C;
    }
  }

  /** A face whose square is at most the weight constant always meets the condition. */
  lemma SmallFaceOutweighs(face: u64)
    requires 0 < face && face * face <= WEIGHT_C
    ensures face <= WEIGHT_C && OutweighsEveryTarget(face)
  {
    MulMonotone(face, 1, face);
    OutweighsIff(face);
    DivBrackets(WEIGHT_C, face);
    if WeightOf(face).value < face {
      MulMonotone(face, WeightOf(face).value + 1, face);
    }
  }

  const LARGE_FACE: u64 := 600_000_000_000_000_000
  const LARGE_TARGET: u64 := 700_000_000_000_000_000

  const LARGE_MARKET := Market(LARGE_TARGET, WEIGHT_C, 1, 1, 500_000_000_000, 500_000_000_000)

  lemma LargeWeights()
    ensures WeightOf(LARGE_FACE) == Ok(1) && WeightOf(2_000_000) == Ok(500_000_000_000)
    ensures !OutweighsEveryTarget(LARGE_FACE)
  {
    WeightBrackets(LARGE_FACE, 1);
    WeightBrackets(2_000_000, 500_000_000_000);
    assert LARGE_TARGET * WeightOf(LARGE_FACE).value < WEIGHT_C;
  }

  lemma EvaluateSolves(m: Market, faces: seq<u64>)
    requires |faces| == 3 && InWidth(m) && 0 < m.n
    requires WeightOf(faces[0]) == Ok(m.w1) && WeightOf(faces[1]) == Ok(m.w2) && WeightOf(faces[2]) == Ok(m.w5)
    ensures Evaluate(m.n, m.w, faces, m.t) == Solve(m)
  {
    hide WeightOf;
    hide Solve;
  }

  /** A face strictly below the ticket target that does not outweigh it, and an evaluation it
      makes return a blank although the single real position, at the greatest weight a position can
      have, already overshoots. */
  lemma LargeFaceUnderweighs()
    ensures LARGE_FACE < LARGE_TARGET && !OutweighsEveryTarget(LARGE_FACE)
    ensures Attainable(LARGE_MARKET)
    ensures var r := Evaluate(1, WEIGHT_C, [LARGE_FACE, 2_000_000, 2_000_000], LARGE_TARGET);
            r == Solve(LARGE_MARKET) && r.Ok? && r.value != NO_BLANKS
  {
    LargeWeights();
    var m := LARGE_MARKET;
    EvaluateSolves(m, [LARGE_FACE, 2_000_000, 2_000_000]);
    LightBlankBeatsNone(m);
    hide *;
  }

  // ---- The published price ----

  /** The aggregate weight and the score agree on what a blank set weighs. */
  lemma AggregateIsWeighted(m: Market, b: BlankTargets, faces: seq<u64>)
    requires |faces| == 3 && InWidth(m) && b.b1 <= U32_MAX && b.b2 <= U32_MAX && b.b5 <= U32_MAX
    requires WeightOf(faces[0]) == Ok(m.w1) && WeightOf(faces[1]) == Ok(m.w2) && WeightOf(faces[2]) == Ok(m.w5)
    requires AggregateUpTo(m.w, [b.b1, b.b2, b.b5], faces, 3).Ok?
    ensures AggregateUpTo(m.w, [b.b1, b.b2, b.b5], faces, 3).value == Weighted(m, b)
  {
    var blanks := [b.b1, b.b2, b.b5];
    assert AggregateUpTo(m.w, blanks, faces, 1).value == m.w + m.w1 * b.b1;
    assert AggregateUpTo(m.w, blanks, faces, 2).value == m.w + m.w1 * b.b1 + m.w2 * b.b2;
  }

  lemma QuoteWithin(m: Market, b: BlankTargets, q: u64)
    requires Count(m, b) <= U64_MAX && Weighted(m, b) <= U128_MAX
    requires TicketQuote(Count(m, b), Weighted(m, b)) == Ok(q)
    ensures 2 * (Weighted(m, b) * q) <= 2 * (m.t * Weighted(m, b)) + 2 * Score(m, b)
    ensures 2 * (Weighted(m, b) * (q + 1)) > 2 * (m.t * Weighted(m, b)) - 2 * Score(m, b)
  {
    QuoteBrackets(Count(m, b), Weighted(m, b), q);
    hide Weighted;
    hide TicketQuote;
  }

  /** `q` misses the target by at most half a middle blank's shift per unit of weight, and one unit. */
  predicate QuoteMisses(t: nat, w2: nat, weight: nat, q: nat) {
    && 2 * (weight * q) <= 2 * (t * weight) + Shift(t, w2)
    && 2 * (weight * (q + 1)) > 2 * (t * weight) - Shift(t, w2)
  }

  /** The quote published for the evaluated blank set misses the ticket target by at most half of
      one middle blank's shift per unit of weight, and by one unit of flooring. */
  lemma PublishedQuote(m: Market, faces: seq<u64>, q: u64)
    requires |faces| == 3 && InWidth(m) && 0 < m.n
    requires WeightOf(faces[0]) == Ok(m.w1) && WeightOf(faces[1]) == Ok(m.w2) && WeightOf(faces[2]) == Ok(m.w5)
    requires Evaluate(m.n, m.w, faces, m.t).Ok? && Base(m) <= 0
    requires var b := Evaluate(m.n, m.w, faces, m.t).value;
             && b.b1 <= U32_MAX && b.b2 <= U32_MAX && b.b5 <= U32_MAX && Count(m, b) <= U64_MAX
             && var aggregate := AggregateUpTo(m.w, [b.b1, b.b2, b.b5], faces, 3);
             && aggregate.Ok? && TicketQuote(Count(m, b), aggregate.value) == Ok(q)
    ensures var b := Evaluate(m.n, m.w, faces, m.t).value;
            var weight := AggregateUpTo(m.w, [b.b1, b.b2, b.b5], faces, 3).value;
            QuoteMisses(m.t, m.w2, weight, q)
  {
    var b := Evaluate(m.n, m.w, faces, m.t).value;
    assert Solve(m) == Ok(b);
    Residual(m);
    AggregateIsWeighted(m, b, faces);
    QuoteWithin(m, b, q);
  }

  // ---- When it succeeds ----

  /** What can be checked of a market before it is evaluated: the middle face outweighs the target,
      the shortfall is less than `u32::MAX` of its shifts, and one blank of each kind still fits. */
  predicate Solvable(m: Market) {
    && WEIGHT_C < m.t * m.w2
    && WEIGHT_C * m.n - m.t * m.w < U32_MAX * (m.t * m.w2 - WEIGHT_C)
    && m.t * (m.w + m.w1 + m.w2 + m.w5) <= U128_MAX
  }

  /** Exactly when the scan succeeds, at every machine width. */
  lemma SolveSucceedsIff(m: Market)
    requires InWidth(m)
    ensures Solve(m).Ok? <==> Solvable(m)
  {
    if WEIGHT_C < m.t * m.w2 {
      ComputableIff(m);
    }
  }

  lemma ComputableIff(m: Market)
    requires InWidth(m) && WEIGHT_C < m.t * m.w2
    ensures Computable(m) <==> -Base(m) < U32_MAX * Shift(m.t, m.w2)
                               && m.t * (m.w + m.w1 + m.w2 + m.w5) <= U128_MAX
  {
    AnchorFitsIff(m);
    LastCandidateWeighs(m);
    if Base(m) < 0 && Anchor(m) < U32_MAX {
      ShortfallFits(m);
    }
    MulMonotone(Shift(m.t, m.w2), 0, Anchor(m));
    hide Anchor;
    hide Weighted;
    hide Candidate;
    hide Shift;
    hide Base;
  }

  lemma AnchorFitsIff(m: Market)
    requires WEIGHT_C < m.t * m.w2
    ensures Anchor(m) + 1 <= U32_MAX <==> -Base(m) < U32_MAX * Shift(m.t, m.w2)
    ensures Anchor(m) * Shift(m.t, m.w2) <= if Base(m) >= 0 then 0 else -Base(m)
    ensures Base(m) >= 0 ==> Anchor(m) == 0
  {
    var num, d, a := if Base(m) >= 0 then 0 else -Base(m), Shift(m.t, m.w2), Anchor(m);
    DivBrackets(num, d);
    if a < U32_MAX {
      MulMonotone(U32_MAX, a + 1, d);
    } else {
      MulMonotone(a, U32_MAX, d);
    }
  }

  lemma LastCandidateWeighs(m: Market)
    requires WEIGHT_C < m.t * m.w2
    ensures m.t * Weighted(m, Candidate(m, 7))
         == m.t * (m.w + m.w1 + m.w2 + m.w5) + Anchor(m) * Shift(m.t, m.w2) + WEIGHT_C * Anchor(m)
  {
    var a, all := Anchor(m), m.w + m.w1 + m.w2 + m.w5;
    assert Candidate(m, 7) == BlankTargets(1, a + 1, 1);
    assert (a + 1) * m.w2 == a * m.w2 + m.w2;
    assert Weighted(m, Candidate(m, 7)) == all + a * m.w2;
    assert m.t * (all + a * m.w2) == m.t * all + m.t * (a * m.w2);
    Reassociate(m.t, a, m.w2);
  }

  /** Short of the target the totals are far inside `u128`. */
  lemma ShortfallFits(m: Market)
    requires InWidth(m) && WEIGHT_C < m.t * m.w2 && Base(m) < 0 && Anchor(m) < U32_MAX
    ensures m.t * (m.w + m.w1 + m.w2 + m.w5) + Anchor(m) * Shift(m.t, m.w2) + WEIGHT_C * Anchor(m) <= U128_MAX
  {
    AnchorFitsIff(m);
    var faces := m.w1 + m.w2 + m.w5;
    MulMonotone(m.w, 0, m.t);
    MulMonotone(U64_MAX, m.t, faces);
    assert m.t * (m.w + faces) == m.t * m.w + m.t * faces;
  }

  /** The same over faces: each weighs something, and the market they make is solvable. */
  predicate Targetable(nReal: nat, wReal: nat, faces: seq<u64>, ticketTarget: u64)
    requires |faces| == 3
  {
    nReal == 0 ||
    (0 < faces[0] <= WEIGHT_C && 0 < faces[1] <= WEIGHT_C && 0 < faces[2] <= WEIGHT_C &&
     Solvable(Market(ticketTarget, wReal, nReal,
                     WEIGHT_C / faces[0], WEIGHT_C / faces[1], WEIGHT_C / faces[2])))
  }

  lemma EvaluateSucceedsIff(nReal: u32, wReal: u128, faces: seq<u64>, ticketTarget: u64)
    requires |faces| == 3
    ensures Evaluate(nReal, wReal, faces, ticketTarget).Ok? <==> Targetable(nReal, wReal, faces, ticketTarget)
    ensures nReal == 0 ==> Evaluate(nReal, wReal, faces, ticketTarget) == Ok(BlankTargets(0, 0, 0))
  {
    if 0 < faces[0] <= WEIGHT_C && 0 < faces[1] <= WEIGHT_C && 0 < faces[2] <= WEIGHT_C {
      SolveSucceedsIff(Market(ticketTarget, wReal, nReal, WeightOf(faces[0]).value, WeightOf(faces[1]).value,
                              WeightOf(faces[2]).value));
      hide Solve;
      hide Solvable;
    }
  }

  lemma HeavyFaceSolves(m: Market)
    requires InWidth(m) && m.w <= U64_MAX && 0 < m.n <= 16_384
    requires 2 * WEIGHT_C <= m.t * m.w2 && m.t <= 0x4000_0000_0000_0000
    ensures Solve(m).Ok? && Anchor(m) <= m.n
  {
    SolveSucceedsIff(m);
    AnchorFitsIff(m);
    MulMonotone(m.w, 0, m.t);
    MulMonotone(0x4000_0000_0000_0000, m.t, m.w + m.w1 + m.w2 + m.w5);
    if Anchor(m) > m.n {
      MulMonotone(Anchor(m), m.n + 1, Shift(m.t, m.w2));
      MulMonotone(Shift(m.t, m.w2), WEIGHT_C, m.n + 1);
    }
    hide Solve;
    hide Anchor;
  }

  /** A target of at least twice the middle face's inverse weight, over at most `16_384`
      positions, never fails and never asks for more middle blanks than positions plus one. */
  lemma EvaluateNeverFails(nReal: u32, wReal: u128, faces: seq<u64>, t: u64)
    requires |faces| == 3 && forall d :: 0 <= d < 3 ==> 0 < faces[d] <= WEIGHT_C
    requires 2 * WEIGHT_C <= t * WeightOf(faces[1]).value && t <= 0x4000_0000_0000_0000
    requires nReal <= 16_384 && wReal <= U64_MAX
    ensures Evaluate(nReal, wReal, faces, t).Ok?
    ensures Evaluate(nReal, wReal, faces, t).value.b2 <= nReal + 1
  {
    if nReal > 0 {
      var m := Market(t, wReal, nReal, WeightOf(faces[0]).value, WeightOf(faces[1]).value,
                      WeightOf(faces[2]).value);
      HeavyFaceSolves(m);
      SolvedCounts(m);
      hide Solve;
    }
  }

  /** Every market that at most `capacity` positions can make can be targeted. */
  ghost predicate TargetsEveryMarket(faces: seq<u64>, ticketTarget: u64, capacity: u32)
    requires |faces| == 3
  {
    forall n: nat, w: nat :: 0 < n <= capacity && n <= w <= n * WEIGHT_C && w <= U64_MAX ==>
      Targetable(n, w, faces, ticketTarget)
  }

  /** The greatest weight `capacity` positions can have in a `u64` index. */
  function GreatestWeight(capacity: nat): nat {
    if capacity * WEIGHT_C <= U64_MAX then capacity * WEIGHT_C else U64_MAX
  }

  /** The same as three inequalities on the configuration. */
  predicate AlwaysTargetable(faces: seq<u64>, ticketTarget: u64, capacity: u32)
    requires |faces| == 3
  {
    && 0 < faces[0] <= WEIGHT_C && 0 < faces[1] <= WEIGHT_C && 0 < faces[2] <= WEIGHT_C
    && var w1, w2, w5 := WEIGHT_C / faces[0], WEIGHT_C / faces[1], WEIGHT_C / faces[2];
    && WEIGHT_C < ticketTarget * w2
    && (WEIGHT_C - ticketTarget) * capacity < U32_MAX * (ticketTarget * w2 - WEIGHT_C)
    && ticketTarget * (GreatestWeight(capacity) + w1 + w2 + w5) <= U128_MAX
  }

  /** Solvability over a whole range of weights and counts is solvability at its two corners: the
      fewest units of weight a full pool can have, and the most. */
  lemma CornersSuffice(m: Market, capacity: nat, greatest: nat)
    requires 0 < m.n <= capacity && m.n <= m.w <= greatest
    requires WEIGHT_C < m.t * m.w2
    requires (WEIGHT_C - m.t) * capacity < U32_MAX * (m.t * m.w2 - WEIGHT_C)
    requires m.t * (greatest + m.w1 + m.w2 + m.w5) <= U128_MAX
    ensures Solvable(m)
  {
    MulMonotone(greatest + m.w1 + m.w2 + m.w5, m.w + m.w1 + m.w2 + m.w5, m.t);
    MulMonotone(m.w, m.n, m.t);
    assert WEIGHT_C * m.n - m.t * m.n == (WEIGHT_C - m.t) * m.n;
    if WEIGHT_C >= m.t {
      MulMonotone(capacity, m.n, WEIGHT_C - m.t);
    } else {
      MulMonotone(0, WEIGHT_C - m.t, m.n);
    }
  }

  /** Exactly which configurations can target every market up to `capacity` positions. */
  lemma AlwaysTargetableIff(faces: seq<u64>, ticketTarget: u64, capacity: u32)
    requires |faces| == 3 && 0 < capacity
    ensures TargetsEveryMarket(faces, ticketTarget, capacity) <==> AlwaysTargetable(faces, ticketTarget, capacity)
  {
    var greatest := GreatestWeight(capacity);
    assert capacity <= greatest <= capacity * WEIGHT_C;
    hide Solvable;
    if AlwaysTargetable(faces, ticketTarget, capacity) {
      forall n: nat, w: nat | 0 < n <= capacity && n <= w <= n * WEIGHT_C && w <= U64_MAX
        ensures Targetable(n, w, faces, ticketTarget)
      {
        MulMonotone(capacity, n, WEIGHT_C);
        CornersSuffice(Market(ticketTarget, w, n, WEIGHT_C / faces[0], WEIGHT_C / faces[1], WEIGHT_C / faces[2]),
                       capacity, greatest);
      }
    }
    if TargetsEveryMarket(faces, ticketTarget, capacity) {
      assert Targetable(capacity, capacity, faces, ticketTarget);
      assert Targetable(capacity, greatest, faces, ticketTarget);
      CornersAreNeeded(Market(ticketTarget, capacity, capacity, WEIGHT_C / faces[0], WEIGHT_C / faces[1],
                              WEIGHT_C / faces[2]), greatest);
    }
  }

  lemma CornersAreNeeded(m: Market, greatest: nat)
    requires m.w == m.n && Solvable(m) && Solvable(m.(w := greatest))
    ensures WEIGHT_C < m.t * m.w2
    ensures (WEIGHT_C - m.t) * m.n < U32_MAX * (m.t * m.w2 - WEIGHT_C)
    ensures m.t * (greatest + m.w1 + m.w2 + m.w5) <= U128_MAX
  {
    assert WEIGHT_C * m.n - m.t * m.n == (WEIGHT_C - m.t) * m.n;
  }
}
