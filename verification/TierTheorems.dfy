/** When the tier holds the best `k` of the active set, and which operations keep it so. */
module TierTheorems {
  import opened Machine
  import opened State
  import opened TierSpec

  /** Dearer first, then longer active, then the lower id. */
  predicate Outranks(a: TierEntry, b: TierEntry) {
    || a.value > b.value
    || (a.value == b.value && a.activatedAt < b.activatedAt)
    || (a.value == b.value && a.activatedAt == b.activatedAt && a.positionId < b.positionId)
  }

  lemma OutranksIff(a: TierEntry, b: TierEntry)
    ensures Before(a, b) <==> Outranks(a, b)
    ensures Rank(a, b) == Equal <==> a.value == b.value && a.activatedAt == b.activatedAt
                                     && a.positionId == b.positionId
  {
  }

  /** What an offer comes to: a tier with room takes it, a full one takes it for its last member if that
      one is outranked, and otherwise stays as it is. */
  lemma PromotionOutcome(s: seq<TierEntry>, size: nat, c: TierEntry)
    requires 0 < |s| + size
    ensures var (t, outcome) := Promote(s, size, c);
            && (outcome == Inserted <==> |s| < size)
            && (outcome == Promotion.Rejected <==> |s| >= size && !Outranks(c, s[|s| - 1]))
            && (outcome.Swapped? ==> outcome.evicted == s[|s| - 1] && multiset(t) + multiset{s[|s| - 1]}
                                                                       == multiset(s) + multiset{c})
            && (outcome.Inserted? ==> multiset(t) == multiset(s) + multiset{c})
            && (outcome.Rejected? ==> t == s)
  {
    InsertMembers(s, c);
    PromoteConserves(s, size, c);
    if s != [] {
      OutranksIff(c, s[|s| - 1]);
      if |s| >= size && Before(c, s[|s| - 1]) {
        assert InsertRanked(s, c)[|s|] == s[|s| - 1];
      }
    }
    hide InsertRanked;
    hide Before;
    hide Outranks;
  }

  /** A seat is filled exactly when one is open, a member refreshed exactly when it is one and fits, and a
      key demoted exactly when it is held. */
  lemma SeatsIff(s: seq<TierEntry>, size: nat, key: nat, e: TierEntry)
    requires 0 < size
    ensures FillVacancy(s, size, e).Ok? <==> |s| < size
    ensures FillVacancy(s, size, e).Err? ==> FillVacancy(s, size, e).error == InvalidPositionState
    ensures Demote(s, key).1 == None <==> forall x :: x in s ==> x.position != key
    ensures Demote(s, key).1 == None ==> Demote(s, key).0 == s
    ensures RefreshMember(s, size, key, e).Ok? <==> |s| <= size && exists x :: x in s && x.position == key
    ensures RefreshMember(s, size, key, e).Err? ==> RefreshMember(s, size, key, e).error == InvalidPositionState
  {
    var i := IndexOf(s, key);
    assert i < |s| ==> s[i] in s;
    hide InsertRanked;
  }

  /** Ranked members of `all`, each ahead of every non-member, as many as fit. */
  ghost predicate IsBest(s: seq<TierEntry>, all: set<TierEntry>, k: nat) {
    && Sorted(s)
    && (forall e :: e in s ==> e in all)
    && (forall e, x :: e in s && x in all && x !in s ==> Before(e, x))
    && |s| <= k
    && (|s| < k ==> forall x :: x in all ==> x in s)
  }

  /** No two entries tie: position ids are distinct. */
  ghost predicate Ranked(all: set<TierEntry>) {
    forall a, b :: a in all && b in all && a != b ==> Rank(a, b) != Equal
  }

  ghost function Offered(offers: seq<TierEntry>): set<TierEntry> {
    set e | e in offers
  }

  /** Sort-and-take is the best `k`. */
  lemma SortAndTakeIsBest(offers: seq<TierEntry>, k: nat)
    requires 0 < k && DistinctOffers(offers)
    ensures IsBest(PromoteAll(k, offers).0, Offered(offers), k)
  {
    PromotionIsSortAndTake(k, offers);
    SortAllSorts(offers);
    var sorted := SortAll(offers);
    PrefixMembers(sorted, if |sorted| < k then |sorted| else k);
    forall e, x | e in Best(sorted, k) && x in Offered(offers) && x !in Best(sorted, k)
      ensures Before(e, x)
    {
      var i :| 0 <= i < |sorted| && sorted[i] == x;
      var j :| 0 <= j < |Best(sorted, k)| && Best(sorted, k)[j] == e;
    }
  }

  lemma PrefixMembers(s: seq<TierEntry>, n: nat)
    requires n <= |s|
    ensures forall i :: 0 <= i < n ==> s[i] in s[..n]
  {
    forall i | 0 <= i < n
      ensures s[i] in s[..n]
    {
      assert s[..n][i] == s[i];
    }
  }

  lemma SortedDistinct(s: seq<TierEntry>, i: nat, j: nat)
    requires Sorted(s) && i < j < |s|
    ensures s[i] != s[j]
  {
    assert Before(s[i], s[j]);
  }

  lemma NextIsNew(s: seq<TierEntry>, n: nat)
    requires Sorted(s) && n < |s|
    ensures s[n] in s && s[n] !in s[..n]
  {
    forall j | 0 <= j < n
      ensures s[j] != s[n]
    {
      SortedDistinct(s, j, n);
    }
  }

  /** There is only one best tier: whatever route led to it, it is the same sequence. */
  lemma {:induction false} BestIsUnique(s: seq<TierEntry>, t: seq<TierEntry>, all: set<TierEntry>, k: nat)
    requires Ranked(all) && IsBest(s, all, k) && IsBest(t, all, k)
    ensures s == t
  {
    if |s| <= |t| {
      PrefixOfBest(s, t, all, k, |s|);
      NoLonger(s, t, all, k);
    } else {
      PrefixOfBest(t, s, all, k, |t|);
      NoLonger(t, s, all, k);
    }
  }

  lemma NoLonger(s: seq<TierEntry>, t: seq<TierEntry>, all: set<TierEntry>, k: nat)
    requires IsBest(s, all, k) && IsBest(t, all, k)
    requires |s| <= |t| && s == t[..|s|]
    ensures |t| <= |s|
  {
    if |s| < |t| {
      NextIsNew(t, |s|);
    }
  }

  lemma {:induction false} PrefixOfBest(s: seq<TierEntry>, t: seq<TierEntry>, all: set<TierEntry>, k: nat, n: nat)
    requires Ranked(all) && IsBest(s, all, k) && IsBest(t, all, k)
    requires n <= |s| && n <= |t|
    ensures s[..n] == t[..n]
    decreases n
  {
    if n > 0 {
      PrefixOfBest(s, t, all, k, n - 1);
      NotAhead(s, t, all, k, n - 1);
      NotAhead(t, s, all, k, n - 1);
      assert s[n - 1] in all && t[n - 1] in all;
      if Rank(s[n - 1], t[n - 1]) != Equal {
        RankIsTotal(s[n - 1], t[n - 1]);
      }
    }
  }

  lemma NotAhead(s: seq<TierEntry>, t: seq<TierEntry>, all: set<TierEntry>, k: nat, n: nat)
    requires IsBest(s, all, k) && IsBest(t, all, k)
    requires n < |s| && n < |t| && s[..n] == t[..n]
    ensures !Before(s[n], t[n])
  {
    assert s[n] in s && t[n] in t;
    if s[n] in t {
      var j :| 0 <= j < |t| && t[j] == s[n];
      NextIsNew(s, n);
      PrefixMembers(t, n);
      if j > n {
        assert Before(t[n], t[j]);
      }
    }
  }

  // ---- Activation and crossing ----

  lemma UnrankedOutside(s: seq<TierEntry>, all: set<TierEntry>, c: TierEntry)
    requires (forall e :: e in s ==> e in all) && c !in all && Ranked(all + {c})
    ensures Unranked(s, c)
  {
    forall i | 0 <= i < |s|
      ensures Rank(c, s[i]) != Equal
    {
      assert s[i] in s;
    }
  }

  /** Offering a newly active position keeps the tier the best of the larger set. */
  lemma ActivationKeepsBest(s: seq<TierEntry>, all: set<TierEntry>, k: nat, c: TierEntry)
    requires 0 < k && IsBest(s, all, k) && c !in all && Ranked(all + {c})
    ensures IsBest(Promote(s, k, c).0, all + {c}, k)
  {
    UnrankedOutside(s, all, c);
    InsertKeepsSorted(s, c);
    InsertMembers(s, c);
    var joined := InsertRanked(s, c);
    if |s| == k {
      var last := s[k - 1];
      RankIsTotal(c, last);
      if Before(c, last) {
        CutKeepsBest(joined, s, all, k, c);
      } else {
        forall e, x | e in s && x in all + {c} && x !in s
          ensures Before(e, x)
        {
          var j :| 0 <= j < |s| && s[j] == e;
          if x == c && j < k - 1 {
            BeforeIsTransitive(e, last, c);
          }
        }
      }
    }
  }

  /** Inserting into a full tier and cutting the last member off again. */
  lemma CutKeepsBest(joined: seq<TierEntry>, s: seq<TierEntry>, all: set<TierEntry>, k: nat, c: TierEntry)
    requires IsBest(s, all, k) && |s| == k && Sorted(joined) && |joined| == k + 1
    requires forall e :: e in joined <==> e in s || e == c
    requires 0 < k && Before(c, s[k - 1])
    ensures IsBest(joined[..k], all + {c}, k)
  {
    var cut, last := joined[..k], joined[k];
    assert joined == cut + [last];
    forall e, x | e in cut && x in all + {c} && x !in cut
      ensures Before(e, x)
    {
      var j :| 0 <= j < k && cut[j] == e;
      assert Before(e, last);
      if x != last {
        assert x !in joined;
        if e == c {
          assert Before(s[k - 1], x);
          BeforeIsTransitive(c, s[k - 1], x);
        }
      }
    }
  }

  // ---- Departure and succession ----

  ghost predicate DistinctKeys(s: seq<TierEntry>) {
    forall i, j :: 0 <= i < j < |s| ==> s[i].position != s[j].position
  }

  function Without(s: seq<TierEntry>, i: nat): seq<TierEntry>
    requires i < |s|
  {
    s[..i] + s[i + 1..]
  }

  lemma WithoutMembers(s: seq<TierEntry>, i: nat)
    requires Sorted(s) && i < |s|
    ensures forall x :: x in Without(s, i) <==> x in s && x != s[i]
  {
    forall x | x in Without(s, i)
      ensures x in s && x != s[i]
    {
      var p :| 0 <= p < |Without(s, i)| && Without(s, i)[p] == x;
      if p < i {
        SortedDistinct(s, p, i);
      } else {
        SortedDistinct(s, i, p + 1);
      }
    }
    forall x | x in s && x != s[i]
      ensures x in Without(s, i)
    {
      var q :| 0 <= q < |s| && s[q] == x;
      assert Without(s, i)[if q < i then q else q - 1] == x;
    }
  }

  lemma WithoutKeepsOrder(s: seq<TierEntry>, i: nat)
    requires Sorted(s) && DistinctKeys(s) && i < |s|
    ensures Sorted(Without(s, i)) && DistinctKeys(Without(s, i))
  {
    hide Before;
  }

  /** Demoting a member takes out that entry and leaves the others in order. */
  lemma DemoteRemoves(s: seq<TierEntry>, e: TierEntry)
    requires Sorted(s) && DistinctKeys(s) && e in s
    ensures var (rest, removed) := Demote(s, e.position);
            && removed == Some(e) && Sorted(rest) && |rest| == |s| - 1
            && (forall x :: x in rest <==> x in s && x != e)
            && DistinctKeys(rest)
  {
    var i := IndexOf(s, e.position);
    var j :| 0 <= j < |s| && s[j] == e;
    assert i == j;
    WithoutMembers(s, i);
    WithoutKeepsOrder(s, i);
    hide Sorted;
    hide DistinctKeys;
  }

  /** A departing non-member leaves the tier the best of what remains. */
  lemma NonMemberDeparture(s: seq<TierEntry>, all: set<TierEntry>, k: nat, e: TierEntry)
    requires IsBest(s, all, k) && e !in s
    ensures IsBest(s, all - {e}, k)
  {
  }

  /** A vacancy left open keeps the tier the best exactly when there is nobody to promote. */
  lemma VacancyIff(s: seq<TierEntry>, all: set<TierEntry>, k: nat, e: TierEntry)
    requires IsBest(s, all, k) && DistinctKeys(s) && e in s
    ensures IsBest(Demote(s, e.position).0, all - {e}, k) <==> forall x :: x in all ==> x in s
  {
    DemoteRemoves(s, e);
    hide Before;
    hide Demote;
  }

  /** Whoever is landed in the vacancy, the result is the best tier exactly when the successor
      outranks every other non-member. The program does not check this: its caller must. */
  lemma SuccessionIff(s: seq<TierEntry>, all: set<TierEntry>, k: nat, e: TierEntry, x: TierEntry)
    requires 0 < k && IsBest(s, all, k) && Ranked(all) && DistinctKeys(s)
    requires e in s && x in all && x !in s
    ensures var rest := Demote(s, e.position).0;
            && FillVacancy(rest, k, x).Ok?
            && (IsBest(FillVacancy(rest, k, x).value, all - {e}, k) <==>
                forall y :: y in all && y !in s && y != x ==> Before(x, y))
  {
    DemoteRemoves(s, e);
    var rest := Demote(s, e.position).0;
    UnrankedOutside(rest, all - {x}, x) by {
      assert (all - {x}) + {x} == all;
    }
    InsertKeepsSorted(rest, x);
    InsertMembers(rest, x);
    hide Before;
    hide Demote;
    hide InsertRanked;
  }

  /** A re-attested member stays placed in rank order, and the tier stays the best exactly when
      the new entry still outranks every non-member. */
  lemma RefreshIff(s: seq<TierEntry>, all: set<TierEntry>, k: nat, e: TierEntry, renewed: TierEntry)
    requires 0 < k && IsBest(s, all, k) && DistinctKeys(s) && e in s
    requires renewed !in all - {e} && Ranked((all - {e}) + {renewed})
    ensures var r := RefreshMember(s, k, e.position, renewed);
            && r.Ok?
            && (IsBest(r.value, (all - {e}) + {renewed}, k) <==>
                forall y :: y in all && y !in s ==> Before(renewed, y))
  {
    DemoteRemoves(s, e);
    var rest := Demote(s, e.position).0;
    UnrankedOutside(rest, all - {e}, renewed);
    InsertKeepsSorted(rest, renewed);
    InsertMembers(rest, renewed);
    hide Before;
    hide Demote;
    hide InsertRanked;
  }

  // ---- Resizing ----

  /** Lowering the size keeps the best and evicts the suffix; every evicted member is behind
      every kept one, best of the evicted first. */
  lemma ShrinkKeepsBest(s: seq<TierEntry>, all: set<TierEntry>, k: nat, newSize: nat)
    requires IsBest(s, all, k) && newSize <= k
    ensures var (kept, evicted) := Shrink(s, newSize);
            && IsBest(kept, all, newSize)
            && kept + evicted == s && Sorted(evicted)
  {
    var (kept, evicted) := Shrink(s, newSize);
    assert kept + evicted == s;
    PrefixMembers(s, |kept|);
    forall e, x | e in kept && x in all && x !in kept
      ensures Before(e, x)
    {
      if x in s {
        var i :| 0 <= i < |s| && s[i] == x;
        var j :| 0 <= j < |kept| && kept[j] == e;
      }
    }
  }

  /** Raising the size promotes nobody, so it keeps the best exactly when no non-member waits or
      the size did not really grow. */
  lemma GrowIff(s: seq<TierEntry>, all: set<TierEntry>, k: nat, newSize: nat)
    requires IsBest(s, all, k) && k <= newSize
    ensures IsBest(s, all, newSize) <==> |s| == newSize || forall x :: x in all ==> x in s
  {
  }
}
