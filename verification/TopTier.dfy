/** The bounded, ranked member array, shifted in place and refining `TierSpec`. */
module TopTierState {
  import opened Machine
  import opened FeeMath
  import opened State
  import opened TierSpec
  import opened Accounting

  class TopTier {
    var len: u8
    const entries: array<TierEntry>

    ghost predicate Valid()
      reads this, entries
    {
      len <= entries.Length <= U8_MAX
    }

    function Members(): seq<TierEntry>
      reads this, entries
      requires Valid()
    {
      entries[..len]
    }

    constructor (capacity: u8, blank: TierEntry)
      ensures Valid() && fresh(entries) && entries.Length == capacity && Members() == []
    {
      len := 0;
      entries := new TierEntry[capacity](_ => blank);
    }

    /** The shifting insertion both arms of `promote` run: entries behind the candidate move down
        one place, from index `last` on. */
    method Place(last: nat, candidate: TierEntry)
      requires last < entries.Length
      modifies entries
      ensures entries[..last + 1] == InsertRanked(old(entries[..last]), candidate)
    {
      ghost var before := entries[..last];
      var idx := last;
      while idx > 0 && Before(candidate, entries[idx - 1])
        invariant idx <= last
        invariant entries[..idx] == before[..idx]
        invariant entries[idx + 1..last + 1] == before[idx..]
        invariant forall j :: idx <= j < last ==> Before(candidate, before[j])
      {
        assert entries[idx - 1] == before[idx - 1];
        entries[idx] := entries[idx - 1];
        idx := idx - 1;
      }
      assert idx == 0 || entries[idx - 1] == entries[..idx][idx - 1];
      entries[idx] := candidate;
      InsertRankedAt(before, candidate, idx);
      assert entries[..last + 1] == entries[..idx] + [entries[idx]] + entries[idx + 1..last + 1];
    }

    method Promote(tierSize: u8, candidate: TierEntry) returns (outcome: Promotion)
      requires Valid() && tierSize <= entries.Length && 0 < len + tierSize
      modifies this`len, entries
      ensures Valid() && (Members(), outcome) == TierSpec.Promote(old(Members()), tierSize, candidate)
    {
      ghost var before := Members();
      if len < tierSize {
        Place(len, candidate);
        len := len + 1;
        return Inserted;
      }
      var min := len - 1;
      if !Before(candidate, entries[min]) {
        return Promotion.Rejected;
      }
      var evicted := entries[min];
      assert before[..|before| - 1] == entries[..min];
      Place(min, candidate);
      assert InsertRanked(before, candidate)[..|before|] == Members();
      outcome := Swapped(evicted);
    }

    method Demote(key: nat) returns (removed: Option<TierEntry>)
      requires Valid()
      modifies this`len, entries
      ensures Valid() && (Members(), removed) == TierSpec.Demote(old(Members()), key)
    {
      ghost var before := Members();
      var idx := IndexOf(entries[..len], key);
      if idx == len {
        return None;
      }
      removed := Some(entries[idx]);
      for i := idx to len - 1
        invariant len == |before|
        invariant forall j :: 0 <= j < idx ==> entries[j] == before[j]
        invariant forall j :: idx <= j < i ==> entries[j] == before[j + 1]
        invariant forall j :: i <= j < len ==> entries[j] == before[j]
        modifies entries
      {
        entries[i] := entries[i + 1];
      }
      len := len - 1;
      ghost var rest := before[..idx] + before[idx + 1..];
      assert forall j :: 0 <= j < len ==> entries[j] == rest[j];
      assert entries[..len] == rest;
    }

    method FillVacancy(tierSize: u8, entry: TierEntry) returns (r: Result<()>)
      requires Valid() && 0 < tierSize <= entries.Length
      modifies this`len, entries
      ensures r.Ok? <==> TierSpec.FillVacancy(old(Members()), tierSize, entry).Ok?
      ensures r.Err? ==> r.error == InvalidPositionState
      ensures r.Ok? ==> Valid() && Members() == TierSpec.FillVacancy(old(Members()), tierSize, entry).value
    {
      hide TierSpec.Promote;
      var promoted := Promote(tierSize, entry);
      if promoted != Inserted {
        return Err(InvalidPositionState);
      }
      r := Ok(());
    }

    method RefreshMember(tierSize: u8, key: nat, newEntry: TierEntry) returns (r: Result<()>)
      requires Valid() && 0 < tierSize <= entries.Length
      modifies this`len, entries
      ensures r.Ok? <==> TierSpec.RefreshMember(old(Members()), tierSize, key, newEntry).Ok?
      ensures r.Err? ==> r.error == InvalidPositionState
      ensures r.Ok? ==> Valid()
      ensures r.Ok? ==> Members() == TierSpec.RefreshMember(old(Members()), tierSize, key, newEntry).value
    {
      hide TierSpec.Demote;
      hide TierSpec.FillVacancy;
      ghost var before := Members();
      var demoted := Demote(key);
      if demoted.None? {
        return Err(InvalidPositionState);
      }
      assert TierSpec.RefreshMember(before, tierSize, key, newEntry)
          == TierSpec.FillVacancy(Members(), tierSize, newEntry);
      r := FillVacancy(tierSize, newEntry);
    }

    /** A checked demote, the departing member's tier leg folded into what it accrued, and its
        membership flag cleared. */
    method Vacate(key: nat, position: PositionAccount, accTier: u128) returns (r: Result<TierEntry>)
      requires Valid()
      modifies this`len, entries, position
      ensures var (rest, removed) := TierSpec.Demote(old(Members()), key);
              var left := LeaveTier(old(position.Data()), accTier);
              if removed == None then r == Err(InvalidPositionState)
              else if left.Err? then r == Err(left.error)
              else r == Ok(removed.value) && Valid() && Members() == rest && position.Data() == left.value
    {
      var removed := Demote(key);
      if removed.None? {
        return Err(InvalidPositionState);
      }
      var settled := PositionFeePayout(accTier, position.tierCheckpoint, position.accrued);
      if settled.Err? {
        return Err(settled.error);
      }
      position.accrued := settled.value;
      position.tierCheckpoint := accTier;
      position.inTier := false;
      r := Ok(removed.value);
    }

    /** A promotion attempt whose membership effect lands on `position`; a rejected one touches
        nothing. */
    method CrossIntoTier(tierSize: u8, position: PositionAccount, entry: TierEntry, accTier: u128)
      returns (outcome: Promotion)
      requires Valid() && tierSize <= entries.Length && 0 < len + tierSize
      modifies this`len, entries, position
      ensures Valid() && (Members(), outcome) == TierSpec.Promote(old(Members()), tierSize, entry)
      ensures position.Data() == if outcome == Promotion.Rejected then old(position.Data())
                                 else JoinTier(old(position.Data()), accTier)
      ensures outcome == Promotion.Rejected ==> Members() == old(Members())
    {
      outcome := Promote(tierSize, entry);
      if outcome != Promotion.Rejected {
        position.inTier := true;
        position.tierCheckpoint := accTier;
      }
    }

    method Shrink(newSize: u8) returns (evicted: seq<TierEntry>)
      requires Valid()
      modifies this`len
      ensures Valid() && (Members(), evicted) == TierSpec.Shrink(old(Members()), newSize)
    {
      if newSize >= len {
        return [];
      }
      ghost var before := Members();
      evicted := entries[newSize..len];
      assert evicted == before[newSize..];
      len := newSize;
      assert entries[..newSize] == before[..newSize];
    }
  }

  /** The index of the first supplied account with the evicted member's key. */
  function Supplied(keys: seq<nat>, key: nat): (i: nat)
    ensures i <= |keys|
    ensures i < |keys| ==> keys[i] == key
    ensures forall j :: 0 <= j < i ==> keys[j] != key
  {
    if keys == [] || keys[0] == key then 0 else 1 + Supplied(keys[1..], key)
  }

  /** Settles the tier leg of a displaced member, found by key among the supplied accounts; every
      other account is left alone. */
  method SettleDisplacedMember(keys: seq<nat>, accounts: seq<PositionAccount>, evicted: TierEntry, accTier: u128)
    returns (r: Result<()>)
    requires |keys| == |accounts|
    modifies accounts
    ensures var i := Supplied(keys, evicted.position);
            if i == |keys| then r == Err(AccountNotEnoughKeys)
            else
              var left := LeaveTier(old(accounts[i].Data()), accTier);
              if left.Err? then r == Err(left.error)
              else r == Ok(()) && accounts[i].Data() == left.value
    ensures forall j :: 0 <= j < |accounts| ==>
              accounts[j].Data() == old(accounts[j].Data()) ||
              (r.Ok? && accounts[j] == accounts[Supplied(keys, evicted.position)])
  {
    var i := Supplied(keys, evicted.position);
    if i == |keys| {
      return Err(AccountNotEnoughKeys);
    }
    var position := accounts[i];
    var settled := PositionFeePayout(accTier, position.tierCheckpoint, position.accrued);
    if settled.Err? {
      return Err(settled.error);
    }
    position.accrued := settled.value;
    position.tierCheckpoint := accTier;
    position.inTier := false;
    r := Ok(());
  }
}
