/** The top tier as a ranked sequence, and the best-`k` reference it is measured against. */
module TierSpec {
  import opened Machine
  import opened State

  datatype Ordering = Less | Equal | Greater

  /** Value descending, then activation ascending, then position id ascending. */
  function Rank(a: TierEntry, b: TierEntry): Ordering {
    if a.value != b.value then (if a.value > b.value then Less else Greater)
    else if a.activatedAt != b.activatedAt then (if a.activatedAt < b.activatedAt then Less else Greater)
    else if a.positionId != b.positionId then (if a.positionId < b.positionId then Less else Greater)
    else Equal
  }

  predicate Before(a: TierEntry, b: TierEntry) {
    Rank(a, b) == Less
  }

  /** Inserts from the back, past every entry the candidate outranks. */
  function InsertRanked(s: seq<TierEntry>, c: TierEntry): (r: seq<TierEntry>)
    ensures |r| == |s| + 1
  {
    if s == [] || !Before(c, s[|s| - 1]) then s + [c]
    else InsertRanked(s[..|s| - 1], c) + [s[|s| - 1]]
  }

  datatype Promotion = Inserted | Swapped(evicted: TierEntry) | Rejected

  /** Insert, and when the tier was full cut the last one off again. */
  function Promote(s: seq<TierEntry>, size: nat, c: TierEntry): (r: (seq<TierEntry>, Promotion))
    requires 0 < |s| + size
    ensures |r.0| == if |s| < size then |s| + 1 else |s|
  {
    var all := InsertRanked(s, c);
    if |s| < size then (all, Inserted)
    else if !Before(c, s[|s| - 1]) then (s, Promotion.Rejected)
    else (all[..|s|], Swapped(all[|s|]))
  }

  function IndexOf(s: seq<TierEntry>, key: nat): (i: nat)
    ensures i <= |s|
    ensures i < |s| ==> s[i].position == key
    ensures forall j :: 0 <= j < i ==> s[j].position != key
  {
    if s == [] || s[0].position == key then 0 else 1 + IndexOf(s[1..], key)
  }

  function Demote(s: seq<TierEntry>, key: nat): (seq<TierEntry>, Option<TierEntry>) {
    var i := IndexOf(s, key);
    if i == |s| then (s, None) else (s[..i] + s[i + 1..], Some(s[i]))
  }

  function RefreshMember(s: seq<TierEntry>, size: nat, key: nat, entry: TierEntry): Result<seq<TierEntry>>
    requires 0 < size
  {
    var (rest, removed) := Demote(s, key);
    if removed == None then Err(InvalidPositionState) else FillVacancy(rest, size, entry)
  }

  function FillVacancy(s: seq<TierEntry>, size: nat, entry: TierEntry): Result<seq<TierEntry>>
    requires 0 < size
  {
    var (filled, outcome) := Promote(s, size, entry);
    if outcome == Inserted then Ok(filled) else Err(InvalidPositionState)
  }

  /** Truncates to the new size; the second part is what was evicted, best rank first. */
  function Shrink(s: seq<TierEntry>, newSize: nat): (seq<TierEntry>, seq<TierEntry>) {
    if newSize >= |s| then (s, []) else (s[..newSize], s[newSize..])
  }

  // ---- The rank order ----

  ghost predicate Sorted(s: seq<TierEntry>) {
    forall i, j :: 0 <= i < j < |s| ==> Before(s[i], s[j])
  }

  /** The candidate ties with none of the entries. */
  ghost predicate Unranked(s: seq<TierEntry>, c: TierEntry) {
    forall i :: 0 <= i < |s| ==> Rank(c, s[i]) != Equal
  }

  lemma BeforeIsTransitive(a: TierEntry, b: TierEntry, c: TierEntry)
    requires Before(a, b) && Before(b, c)
    ensures Before(a, c)
  {
  }

  /** Where the insertion lands, and what it keeps. */
  lemma {:induction false} InsertRankedAt(s: seq<TierEntry>, c: TierEntry, i: nat)
    requires i <= |s|
    requires i == 0 || !Before(c, s[i - 1])
    requires forall j :: i <= j < |s| ==> Before(c, s[j])
    ensures InsertRanked(s, c) == s[..i] + [c] + s[i..]
    decreases |s|
  {
    if i < |s| {
      InsertRankedAt(s[..|s| - 1], c, i);
      assert s[i..] == s[..|s| - 1][i..] + [s[|s| - 1]];
    }
  }

  lemma {:induction false} InsertionPoint(s: seq<TierEntry>, c: TierEntry) returns (i: nat)
    ensures i <= |s| && InsertRanked(s, c) == s[..i] + [c] + s[i..]
    ensures i == 0 || !Before(c, s[i - 1])
    ensures forall j :: i <= j < |s| ==> Before(c, s[j])
    decreases |s|
  {
    if s == [] || !Before(c, s[|s| - 1]) {
      i := |s|;
      assert s[..i] + [c] + s[i..] == s + [c];
    } else {
      i := InsertionPoint(s[..|s| - 1], c);
      InsertRankedAt(s, c, i);
    }
  }

  lemma RankIsTotal(a: TierEntry, b: TierEntry)
    requires Rank(a, b) != Equal
    ensures Before(a, b) <==> !Before(b, a)
  {
  }

  /** Everything before the insertion point outranks the candidate. */
  lemma {:induction false} InsertionPointRanks(s: seq<TierEntry>, c: TierEntry) returns (i: nat)
    requires Sorted(s) && Unranked(s, c)
    ensures i <= |s| && InsertRanked(s, c) == s[..i] + [c] + s[i..]
    ensures forall j :: 0 <= j < i ==> Before(s[j], c)
    ensures forall j :: i <= j < |s| ==> Before(c, s[j])
  {
    i := InsertionPoint(s, c);
    forall j | 0 <= j < i
      ensures Before(s[j], c)
    {
      RankIsTotal(c, s[i - 1]);
      if j < i - 1 {
        BeforeIsTransitive(s[j], s[i - 1], c);
      }
    }
  }

  lemma SplicedIsSorted(s: seq<TierEntry>, c: TierEntry, i: nat)
    requires Sorted(s) && i <= |s|
    requires forall j :: 0 <= j < i ==> Before(s[j], c)
    requires forall j :: i <= j < |s| ==> Before(c, s[j])
    ensures Sorted(s[..i] + [c] + s[i..])
  {
    hide Before;
  }

  lemma SplicedMembers(s: seq<TierEntry>, c: TierEntry, i: nat)
    requires i <= |s|
    ensures multiset(s[..i] + [c] + s[i..]) == multiset(s) + multiset{c}
    ensures forall e :: e in s[..i] + [c] + s[i..] <==> e in s || e == c
  {
    assert s == s[..i] + s[i..];
    assert multiset(s) == multiset(s[..i]) + multiset(s[i..]);
  }

  lemma InsertKeepsSorted(s: seq<TierEntry>, c: TierEntry)
    requires Sorted(s) && Unranked(s, c)
    ensures Sorted(InsertRanked(s, c))
  {
    var i := InsertionPointRanks(s, c);
    SplicedIsSorted(s, c, i);
  }

  lemma InsertMembers(s: seq<TierEntry>, c: TierEntry)
    ensures multiset(InsertRanked(s, c)) == multiset(s) + multiset{c}
    ensures forall e :: e in InsertRanked(s, c) <==> e in s || e == c
  {
    var i := InsertionPoint(s, c);
    SplicedMembers(s, c, i);
  }

  // ---- Promotion refines sort-and-take ----

  function SortAll(offers: seq<TierEntry>): seq<TierEntry> {
    if offers == [] then [] else InsertRanked(SortAll(offers[..|offers| - 1]), offers[|offers| - 1])
  }

  /** The tier after a run of promotions from empty, and everything swapped out or rejected. */
  function PromoteAll(size: nat, offers: seq<TierEntry>): (seq<TierEntry>, multiset<TierEntry>)
    requires 0 < size
  {
    if offers == [] then ([], multiset{})
    else
      var (tier, dropped) := PromoteAll(size, offers[..|offers| - 1]);
      var c := offers[|offers| - 1];
      var (next, outcome) := Promote(tier, size, c);
      (next, dropped + Outgoing(outcome, c))
  }

  ghost predicate DistinctOffers(offers: seq<TierEntry>) {
    forall i, j :: 0 <= i < j < |offers| ==> Rank(offers[i], offers[j]) != Equal
  }

  lemma {:induction false} SortAllSorts(offers: seq<TierEntry>)
    requires DistinctOffers(offers)
    ensures Sorted(SortAll(offers)) && |SortAll(offers)| == |offers|
    ensures multiset(SortAll(offers)) == multiset(offers)
    ensures forall e :: e in SortAll(offers) <==> e in offers
    decreases |offers|
  {
    if offers != [] {
      var rest, c := offers[..|offers| - 1], offers[|offers| - 1];
      SortAllSorts(rest);
      assert offers == rest + [c];
      forall i | 0 <= i < |SortAll(rest)|
        ensures Rank(c, SortAll(rest)[i]) != Equal
      {
        var e := SortAll(rest)[i];
        assert e in rest;
      }
      InsertKeepsSorted(SortAll(rest), c);
      InsertMembers(SortAll(rest), c);
    }
  }

  lemma SplicePrefix(s: seq<TierEntry>, c: TierEntry, i: nat, k: nat)
    requires i <= |s| && 0 < k <= |s|
    ensures i >= k ==> (s[..i] + [c] + s[i..])[..k] == s[..k]
    ensures i < k ==> (s[..i] + [c] + s[i..])[..k] == (s[..k][..i] + [c] + s[..k][i..])[..k]
  {
  }

  /** Cutting before or after an insertion makes no difference to the best `k`. */
  lemma InsertCommutesWithTake(s: seq<TierEntry>, k: nat, c: TierEntry)
    requires 0 < k && Sorted(s) && Unranked(s, c)
    ensures Promote(Best(s, k), k, c).0 == Best(InsertRanked(s, c), k)
  {
    var i := InsertionPointRanks(s, c);
    if |s| >= k {
      SplicePrefix(s, c, i, k);
      RankIsTotal(c, s[k - 1]);
      if i < k {
        assert i == 0 || !Before(c, s[i - 1]) by {
          if i > 0 {
            RankIsTotal(s[i - 1], c);
          }
        }
        InsertRankedAt(s[..k], c, i);
      }
    }
    hide InsertRanked;
    hide Before;
  }

  lemma PromoteConserves(s: seq<TierEntry>, size: nat, c: TierEntry)
    requires 0 < |s| + size
    ensures multiset(Promote(s, size, c).0) + Outgoing(Promote(s, size, c).1, c)
         == multiset(s) + multiset{c}
  {
    InsertMembers(s, c);
    var all := InsertRanked(s, c);
    assert all == all[..|s|] + [all[|s|]];
    hide InsertRanked;
  }

  /** What one promotion swaps out or rejects. */
  function Outgoing(outcome: Promotion, c: TierEntry): multiset<TierEntry> {
    match outcome
    case Inserted => multiset{}
    case Swapped(evicted) => multiset{evicted}
    case Rejected => multiset{c}
  }

  function Best(s: seq<TierEntry>, k: nat): seq<TierEntry> {
    if |s| < k then s else s[..k]
  }

  /** Every entry offered to an empty tier is either held at the end or was swapped out or
      rejected on the way, once. */
  lemma {:induction false} PromotionLosesNothing(size: nat, offers: seq<TierEntry>)
    requires 0 < size
    ensures multiset(PromoteAll(size, offers).0) + PromoteAll(size, offers).1 == multiset(offers)
    decreases |offers|
  {
    if offers != [] {
      var rest, c := offers[..|offers| - 1], offers[|offers| - 1];
      PromotionLosesNothing(size, rest);
      var (tier, dropped) := PromoteAll(size, rest);
      var (next, outcome) := Promote(tier, size, c);
      PromoteConserves(tier, size, c);
      assert offers == rest + [c];
      AddBothSides(multiset(next), Outgoing(outcome, c), multiset(tier), multiset{c}, dropped);
    }
  }

  lemma AddBothSides(a: multiset<TierEntry>, b: multiset<TierEntry>, c: multiset<TierEntry>,
                     d: multiset<TierEntry>, x: multiset<TierEntry>)
    requires a + b == c + d
    ensures a + (x + b) == (c + x) + d
  {
    assert a + (x + b) == (a + b) + x;
  }

  /** Any run of promotions from an empty tier holds the best `size` of everything offered,
      ranked. */
  lemma {:induction false} PromotionIsSortAndTake(size: nat, offers: seq<TierEntry>)
    requires 0 < size && DistinctOffers(offers)
    ensures PromoteAll(size, offers).0 == Best(SortAll(offers), size)
    ensures Sorted(PromoteAll(size, offers).0)
    decreases |offers|
  {
    SortAllSorts(offers);
    if offers != [] {
      var rest, c := offers[..|offers| - 1], offers[|offers| - 1];
      PromotionIsSortAndTake(size, rest);
      SortAllSorts(rest);
      LastIsUnranked(offers);
      InsertCommutesWithTake(SortAll(rest), size, c);
    }
  }

  lemma LastIsUnranked(offers: seq<TierEntry>)
    requires offers != [] && DistinctOffers(offers)
    ensures Unranked(SortAll(offers[..|offers| - 1]), offers[|offers| - 1])
  {
    var rest, c := offers[..|offers| - 1], offers[|offers| - 1];
    SortAllSorts(rest);
    var s := SortAll(rest);
    forall i | 0 <= i < |s|
      ensures Rank(c, s[i]) != Equal
    {
      assert s[i] in rest;
    }
  }
}
