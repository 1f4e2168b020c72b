/** The presence store with its tables changed in place. */
module PresenceStore {
  import opened Sizes
  import opened Common
  import opened Text
  import opened Groups
  import opened Presence

  /** The caller each record is charged to. */
  function CallerOf(records: map<string, Record>): map<string, string> { map k | k in records :: records[k].caller }

  lemma HeldIsMembers(records: map<string, Record>, caller: string)
    ensures Held(records, caller) == Members(CallerOf(records), caller)
  {
  }

  /** `callers` counts every caller's records exactly, with no empty entries. */
  ghost predicate Exact(callers: map<string, nat>, records: map<string, Record>) {
    IsCount(callers, CallerOf(records))
  }

  lemma CountIs(callers: map<string, nat>, records: map<string, Record>, caller: string)
    requires Exact(callers, records)
    ensures Get(callers, caller) == |Held(records, caller)|
  {
    HeldIsMembers(records, caller);
  }

  lemma DropExact(callers: map<string, nat>, records: map<string, Record>, key: string)
    requires Exact(callers, records) && key in records
    ensures Exact(Decrement(callers, records[key].caller), records - {key})
  {
    CountRemove(callers, CallerOf(records), key);
    assert CallerOf(records - {key}) == CallerOf(records) - {key};
  }

  lemma AddExact(callers: map<string, nat>, records: map<string, Record>, key: string, item: Record)
    requires Exact(callers, records) && key !in records
    ensures Exact(Increment(callers, item.caller), records[key := item])
  {
    CountInsert(callers, CallerOf(records), key, item.caller);
    assert CallerOf(records[key := item]) == CallerOf(records)[key := item.caller];
  }

  function Matching(records: map<string, Record>, picks: Record -> bool): set<string> {
    set k | k in records && picks(records[k])
  }

  class Store {
    const limits: Limits
    var records: map<string, Record>
    var callers: map<string, nat>
    var revocations: map<string, Revocation>

    ghost function View(): State
      reads this
    {
      State(records, revocations)
    }

    ghost predicate Valid()
      reads this
    {
      limits.Valid() && Exact(callers, records)
    }

    constructor (limits: Limits)
      ensures Valid() && this.limits == limits.Corrected() && View() == EMPTY
    {
      this.limits := limits.Corrected();
      records, callers, revocations := map[], map[], map[];
      new;
      assert CallerOf(map[]) == map[];
      assert forall c :: Members(CallerOf(records), c) == {};
    }

    method ReleaseLocked(caller: string)
      modifies `callers
      ensures callers == Decrement(old(callers), caller)
    {
      if Get(callers, caller) <= 1 { callers := callers - {caller}; }
      else { callers := callers[caller := callers[caller] - 1]; }
    }

    method DropLocked(key: string)
      requires Valid()
      modifies `records, `callers
      ensures Valid() && records == old(records) - {key}
    {
      if key in records {
        DropExact(callers, records, key);
        var item := records[key];
        records := records - {key};
        ReleaseLocked(item.caller);
      } else {
        assert records - {key} == records;
      }
    }

    method PutLocked(item: Record)
      requires Valid()
      modifies `records, `callers
      ensures Valid() && records == old(records)[item.grantHash := item]
    {
      ghost var rest := records - {item.grantHash};
      if item.grantHash in records {
        DropExact(callers, records, item.grantHash);
        ReleaseLocked(records[item.grantHash].caller);
      } else {
        assert rest == records;
      }
      AddExact(callers, rest, item.grantHash, item);
      assert rest[item.grantHash := item] == records[item.grantHash := item];
      records := records[item.grantHash := item];
      callers := callers[item.caller := Get(callers, item.caller) + 1];
    }

    method PruneRecords(now: nat)
      requires Valid()
      modifies `records, `callers
      ensures Valid() && records == LiveRecords(limits, old(records), now)
    {
      ghost var before := records;
      var keys := records.Keys;
      while keys != {}
        invariant Valid() && keys <= records.Keys <= before.Keys
        invariant forall k | k in records :: records[k] == before[k]
        invariant forall k | k in before && k !in keys :: k in records <==> !Forgotten(limits, before[k], now)
      {
        var key :| key in keys;
        keys := keys - {key};
        if records[key].lastSeen + limits.lastSeenTTL < now { DropLocked(key); }
      }
    }

    method PruneRevocations(now: nat)
      modifies `revocations
      ensures revocations == LiveRevocations(old(revocations), now)
    {
      ghost var before := revocations;
      var keys := revocations.Keys;
      while keys != {}
        invariant keys <= revocations.Keys <= before.Keys
        invariant forall o | o in revocations :: revocations[o] == before[o]
        invariant forall o | o in before && o !in keys :: o in revocations <==> now < before[o].expiresAt
      {
        var key :| key in keys;
        keys := keys - {key};
        if revocations[key].expiresAt <= now { revocations := revocations - {key}; }
      }
    }

    method PruneLocked(now: nat)
      requires Valid()
      modifies this
      ensures Valid() && View() == Pruned(limits, old(View()), now)
    {
      PruneRecords(now);
      PruneRevocations(now);
    }

    /** One record's claim to its slot. */
    method RankOf(item: Record, caller: string, now: nat) returns (rank: nat)
      requires Valid()
      ensures rank == Rank(records, item, caller, now)
    {
      CountIs(callers, records, item.caller);
      if item.expiresAt <= now { return 0; }
      if item.caller != caller && Get(callers, item.caller) > MAX_RECORDS_PER_CALLER { return 1; }
      rank := 2;
    }

    /** The search through the whole table, best so far first. */
    method FindVictim(caller: string, now: nat) returns (victim: Option<string>)
      requires Valid()
      ensures if victim.Some? then IsVictim(records, caller, now, victim.value) else NoCandidate(records, caller, now)
    {
      victim := None;
      var bestRank, bestSeen := 2, 0;
      var keys := records.Keys;
      while keys != {}
        invariant keys <= records.Keys
        invariant victim.None? ==> forall k | k in records && k !in keys :: Rank(records, records[k], caller, now) == 2
        invariant victim.Some? ==>
                    victim.value in records && bestRank < 2
                    && bestRank == Rank(records, records[victim.value], caller, now)
                    && bestSeen == records[victim.value].lastSeen
        invariant victim.Some? ==>
                    forall k | k in records && k !in keys ::
                      NoLater(records, records[victim.value], records[k], caller, now)
      {
        var key :| key in keys;
        keys := keys - {key};
        var item := records[key];
        var rank := RankOf(item, caller, now);
        if rank == 2 { continue; }
        if victim.None? || rank < bestRank || (rank == bestRank && item.lastSeen < bestSeen) {
          victim, bestRank, bestSeen := Some(key), rank, item.lastSeen;
        }
      }
    }

    /** Whether there is or can be made a slot for one more record. */
    method MakeRoomLocked(now: nat, caller: string, ghost grantHash: string)
      returns (ok: bool, ghost victim: Option<string>)
      requires Valid() && grantHash !in records
      modifies `records, `callers
      ensures Valid() && Chosen(limits, old(records), grantHash, caller, now, victim)
      ensures records == Without(old(records), victim)
      ensures ok == (!NeedsSlot(limits, old(records), grantHash) || victim.Some?)
    {
      victim := None;
      if |records| < limits.maxRecords { return true, None; }
      CountIs(callers, records, caller);
      if Get(callers, caller) >= MAX_RECORDS_PER_CALLER { return false, None; }
      var found := FindVictim(caller, now);
      if found.None? { return false, None; }
      victim := found;
      DropLocked(found.value);
      ok := true;
    }

    /** A lease charged to `grantCaller`. */
    method HeartbeatWithGrant(value: Lease, grantCaller: string, now: nat)
      returns (ok: bool, ghost victim: Option<string>)
      requires Valid()
      modifies this
      ensures Valid()
      ensures var v, caller := value.(ownerHash := Trim(value.ownerHash), grantHash := Trim(value.grantHash)),
              Trim(grantCaller);
              && Chosen(limits, Cleared(limits, old(View()), v, now).records, v.grantHash, caller, now, victim)
              && View() == Heartbeat(limits, old(View()), v, caller, now, victim)
              && ok == Taken(limits, old(View()), v, now, victim)
    {
      var v, caller := value.(ownerHash := Trim(value.ownerHash), grantHash := Trim(value.grantHash)),
        Trim(grantCaller);
      ok, victim := AddLease(v, caller, now);
    }

    /** The same once the strings are trimmed. */
    method AddLease(v: Lease, caller: string, now: nat) returns (ok: bool, ghost victim: Option<string>)
      requires Valid()
      modifies this
      ensures Valid() && Chosen(limits, Cleared(limits, old(View()), v, now).records, v.grantHash, caller, now, victim)
      ensures View() == Heartbeat(limits, old(View()), v, caller, now, victim)
      ensures ok == Taken(limits, old(View()), v, now, victim)
    {
      if BadLease(v, now) {
        victim := SomeChoice(limits, Cleared(limits, View(), v, now).records, v.grantHash, caller, now);
        return false, victim;
      }
      PruneLocked(now);
      if v.ownerHash in revocations && UpdateTime(v, now) <= revocations[v.ownerHash].updatedAt {
        victim := SomeChoice(limits, records, v.grantHash, caller, now);
        return false, victim;
      }
      revocations := revocations - {v.ownerHash};
      victim := None;
      if v.grantHash !in records {
        ok, victim := MakeRoomLocked(now, caller, v.grantHash);
        if !ok { return; }
      }
      PutLocked(Stored(v, caller, now));
      ok := true;
    }

    /** Walk the table and drop every record `picks` holds of. */
    method DropMatching(picks: Record -> bool) returns (count: nat)
      requires Valid()
      modifies `records, `callers
      ensures Valid() && records == old(records) - Matching(old(records), picks)
              && count == |Matching(old(records), picks)|
    {
      count := 0;
      ghost var before := records;
      ghost var dropped: set<string> := {};
      var keys := records.Keys;
      while keys != {}
        invariant Valid() && keys <= records.Keys && records == before - dropped && dropped <= before.Keys
        invariant count == |dropped|
        invariant forall k | k in before && k !in keys :: k in dropped <==> picks(before[k])
      {
        var key :| key in keys;
        keys := keys - {key};
        if picks(records[key]) {
          MinusTwice(before, dropped, {key});
          DropLocked(key);
          count := count + 1;
          dropped := dropped + {key};
        }
      }
      assert dropped == Matching(before, picks);
    }

    method StoreRevocationLocked(r: Revocation)
      modifies `revocations
      ensures revocations == StoreRevocation(limits, old(revocations), r)
    {
      if r.ownerHash !in revocations && |revocations| >= limits.maxRecords { return; }
      revocations := revocations[r.ownerHash := r];
    }

    /** Every record of the owner goes; the tombstone is kept if there is room. */
    method Revoke(ownerHash: string, now: nat) returns (count: nat)
      requires Valid()
      modifies this
      ensures Valid() && View() == Presence.Revoke(limits, old(View()), Trim(ownerHash), now)
      ensures count == |OwnedBy(old(records), Trim(ownerHash))|
    {
      var owner := Trim(ownerHash);
      var owned := (r: Record) => r.ownerHash == owner;
      assert OwnedBy(records, owner) == Matching(records, owned);
      count := DropMatching(owned);
      StoreRevocationLocked(Revocation(owner, now, now + limits.lastSeenTTL));
    }

    method ImportOneLocked(r: Revocation, now: nat)
      requires Valid()
      modifies this
      ensures Valid() && View() == ImportOne(limits, old(View()), r, now)
    {
      if r.ownerHash == "" || r.expiresAt <= now { return; }
      if r.ownerHash in revocations && r.updatedAt <= revocations[r.ownerHash].updatedAt { return; }
      if r.ownerHash !in revocations && |revocations| >= limits.maxRecords { return; }
      revocations := revocations[r.ownerHash := r];
      var superseded := (x: Record) => x.ownerHash == r.ownerHash && x.updatedAt <= r.updatedAt;
      assert Superseded(records, r) == Matching(records, superseded);
      var _ := DropMatching(superseded);
    }

    /** Replicated tombstones, one after the other. */
    method ImportRevocations(rs: seq<Revocation>, now: nat)
      requires Valid()
      modifies this
      ensures Valid() && View() == Presence.ImportRevocations(limits, old(View()), rs, now)
    {
      for i := 0 to |rs|
        invariant Valid() && View() == Presence.ImportRevocations(limits, old(View()), rs[..i], now)
      {
        assert rs[..i + 1][..i] == rs[..i];
        ImportOneLocked(rs[i], now);
      }
      assert rs[..|rs|] == rs;
    }
  }

  /** There is always a lawful choice, needed or not. */
  lemma {:induction false} SomeVictim(records: map<string, Record>, keys: set<string>, caller: string, now: nat)
    returns (victim: Option<string>)
    requires keys <= records.Keys
    ensures victim.None? ==> forall k | k in keys :: Rank(records, records[k], caller, now) == 2
    ensures victim.Some? ==> victim.value in keys && Rank(records, records[victim.value], caller, now) < 2
    ensures victim.Some? ==> forall k | k in keys :: NoLater(records, records[victim.value], records[k], caller, now)
  {
    victim := None;
    if keys != {} {
      var x :| x in keys;
      victim := SomeVictim(records, keys - {x}, caller, now);
      if Rank(records, records[x], caller, now) < 2
         && (victim.None? || !NoLater(records, records[victim.value], records[x], caller, now)) { victim := Some(x); }
    }
  }

  lemma SomeChoice(limits: Limits, records: map<string, Record>, grantHash: string, caller: string, now: nat)
    returns (victim: Option<string>)
    ensures Chosen(limits, records, grantHash, caller, now, victim)
  {
    if !NeedsSlot(limits, records, grantHash) || PastShare(records, caller) {
      victim := None;
    } else {
      victim := SomeVictim(records, records.Keys, caller, now);
    }
  }
}
