/** The off-chain resolver that predicts whom an activation displaces and who should succeed. */
module TierResolver {
  import opened Machine
  import opened State
  import opened TierSpec
  import opened TierTheorems

  /** `Activating` stands for "activated now"; `Stored` carries a position's own tie-break keys. */
  datatype RankKey =
    | Activating(value: u64)
    | Stored(value: u64, activatedAt: i64, positionId: u64)

  /** The position field plays no part in the rank. */
  function CandidateKey(key: RankKey): TierEntry {
    match key
    case Activating(value) => TierEntry(0, value, I64_MAX, U64_MAX)
    case Stored(value, activatedAt, positionId) => TierEntry(0, value, activatedAt, positionId)
  }

  function ResolveDisplaced(entries: seq<TierEntry>, tierSize: nat, key: RankKey): Option<nat> {
    if |entries| == 0 || |entries| != tierSize then None
    else if Before(CandidateKey(key), entries[|entries| - 1]) then Some(entries[|entries| - 1].position)
    else None
  }

  /** The accounts an instruction carries for the resolver's answer. */
  function SuppliedBy(answer: Option<nat>): seq<nat> {
    match answer
    case None => []
    case Some(key) => [key]
  }

  function KeyOf(c: TierEntry): RankKey {
    Stored(c.value, c.activatedAt, c.positionId)
  }

  /** The member the chain evicts when `c` is promoted. */
  function Displaced(entries: seq<TierEntry>, tierSize: nat, c: TierEntry): Option<nat>
    requires 0 < |entries| + tierSize
  {
    match Promote(entries, tierSize, c).1
    case Inserted => None
    case Swapped(evicted) => Some(evicted.position)
    case Rejected => None
  }

  /** For a stored key the prediction is right on every tier that is not over-full; on an
      over-full one it is wrong exactly when the candidate outranks the minimum. */
  lemma ResolverAgreesIff(entries: seq<TierEntry>, tierSize: nat, c: TierEntry)
    requires 0 < |entries| + tierSize
    ensures ResolveDisplaced(entries, tierSize, KeyOf(c)) == Displaced(entries, tierSize, c) <==>
            |entries| <= tierSize || !Before(c, entries[|entries| - 1])
  {
    if entries != [] {
      var last := entries[|entries| - 1];
      assert Rank(CandidateKey(KeyOf(c)), last) == Rank(c, last);
      if Before(c, last) {
        assert InsertRanked(entries, c)[|entries|] == last;
      }
    }
  }

  /** The tie the activating key gets wrong: the minimum has the same value, and either activated
      later or in the same second with a later id. */
  predicate LosesTie(least: TierEntry, c: TierEntry) {
    && c.value == least.value
    && (c.activatedAt < least.activatedAt ||
        (c.activatedAt == least.activatedAt && c.positionId < least.positionId))
  }

  /** The activating key predicts a real activation on every tier with room, and on a full one except
      in that tie; on an over-full tier it is wrong whenever the candidate outranks the minimum. */
  lemma ActivatingKeyAgreesIff(entries: seq<TierEntry>, tierSize: nat, c: TierEntry)
    requires 0 < |entries| + tierSize
    ensures ResolveDisplaced(entries, tierSize, Activating(c.value)) == Displaced(entries, tierSize, c) <==>
            && (|entries| == tierSize ==> !LosesTie(entries[|entries| - 1], c))
            && (|entries| > tierSize ==> !Before(c, entries[|entries| - 1]))
  {
    if entries != [] {
      var last := entries[|entries| - 1];
      if Before(c, last) {
        assert InsertRanked(entries, c)[|entries|] == last;
      }
    }
  }

  // ---- The successor scan ----

  /** The best of the eligible candidates, folded left to right. */
  function HighestFrom(candidates: seq<TierEntry>, best: TierEntry): TierEntry {
    if candidates == [] then best
    else HighestFrom(candidates[1..], if Before(candidates[0], best) then candidates[0] else best)
  }

  function HighestRanked(candidates: seq<TierEntry>): Option<TierEntry> {
    if candidates == [] then None else Some(HighestFrom(candidates[1..], candidates[0]))
  }

  function ResolveSuccessor(entries: seq<TierEntry>, candidates: seq<TierEntry>, closing: nat): Option<nat> {
    if IndexOf(entries, closing) == |entries| then None
    else match HighestRanked(candidates)
         case None => None
         case Some(best) => Some(best.position)
  }

  lemma {:induction false} HighestFromLeads(candidates: seq<TierEntry>, best: TierEntry)
    ensures var h := HighestFrom(candidates, best);
            && (h == best || h in candidates)
            && !Before(best, h)
            && forall x :: x in candidates ==> !Before(x, h)
    decreases |candidates|
  {
    if candidates != [] {
      var head := candidates[0];
      var next := if Before(head, best) then head else best;
      HighestFromLeads(candidates[1..], next);
      var h := HighestFrom(candidates, best);
      assert candidates == [head] + candidates[1..];
      NotBeforeChain(best, head, next, h);
    }
  }

  lemma NotBeforeChain(best: TierEntry, head: TierEntry, next: TierEntry, h: TierEntry)
    requires next == if Before(head, best) then head else best
    requires !Before(next, h)
    ensures !Before(best, h) && !Before(head, h)
  {
  }

  /** Nobody succeeds a position that holds no seat, and nobody can when nobody is eligible; otherwise it
      is a candidate that no other outranks. */
  lemma SuccessorIs(entries: seq<TierEntry>, candidates: seq<TierEntry>, closing: nat)
    ensures ResolveSuccessor(entries, candidates, closing) == None <==>
            candidates == [] || forall e :: e in entries ==> e.position != closing
    ensures ResolveSuccessor(entries, candidates, closing).Some? ==>
              exists c :: c in candidates && ResolveSuccessor(entries, candidates, closing) == Some(c.position)
                          && forall x :: x in candidates ==> !Before(x, c)
  {
    var i := IndexOf(entries, closing);
    assert i == |entries| <==> forall e :: e in entries ==> e.position != closing by {
      assert i < |entries| ==> entries[i] in entries;
    }
    if candidates != [] {
      HighestFromLeads(candidates[1..], candidates[0]);
      assert candidates == [candidates[0]] + candidates[1..];
    }
    hide Before;
  }

  /** A closing member, and the eligible non-members the scan was handed: landing the resolved
      successor keeps the tier the best of the remaining active set; with nobody eligible it
      resolves to none and leaving the vacancy open keeps it the best as well. */
  lemma ResolvedSuccessorKeepsBest(entries: seq<TierEntry>, all: set<TierEntry>, k: nat, e: TierEntry,
                                   candidates: seq<TierEntry>)
    requires 0 < k && IsBest(entries, all, k) && Ranked(all) && DistinctKeys(entries) && e in entries
    requires forall x :: x in candidates <==> x in all && x !in entries
    ensures var rest := Demote(entries, e.position).0;
            match HighestRanked(candidates)
            case None => ResolveSuccessor(entries, candidates, e.position) == None
                         && IsBest(rest, all - {e}, k)
            case Some(x) => ResolveSuccessor(entries, candidates, e.position) == Some(x.position)
                            && FillVacancy(rest, k, x).Ok?
                            && IsBest(FillVacancy(rest, k, x).value, all - {e}, k)
  {
    DemoteRemoves(entries, e);
    if candidates == [] {
      VacancyIff(entries, all, k, e);
    } else {
      var x := HighestRanked(candidates).value;
      HighestFromLeads(candidates[1..], candidates[0]);
      assert candidates == [candidates[0]] + candidates[1..];
      assert x in candidates;
      forall y | y in all && y !in entries && y != x
        ensures Before(x, y)
      {
        assert y in candidates;
        RankIsTotal(x, y);
      }
      SuccessionIff(entries, all, k, e, x);
    }
  }
}
