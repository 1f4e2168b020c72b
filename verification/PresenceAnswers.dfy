/** What each call on the presence table comes to. */
module PresenceAnswers {
  import opened Common
  import opened Presence
  import opened PresenceRules
  import opened PresenceRevocations

  /** The records whose retention time has not passed. */
  ghost function Remembered(limits: Limits, s: State, now: nat): map<string, Record> {
    map k | k in s.records && now <= s.records[k].lastSeen + limits.lastSeenTTL :: s.records[k]
  }

  ghost function Standing(s: State, now: nat): map<string, Revocation> {
    map o | o in s.revocations && now < s.revocations[o].expiresAt :: s.revocations[o]
  }

  /** A prune keeps exactly what is remembered and stands. */
  lemma PruneKeepsExactly(limits: Limits, s: State, t: State, now: nat)
    requires Steps(limits, s, PruneOp(now), t)
    ensures t.records == Remembered(limits, s, now) && t.revocations == Standing(s, now)
  {
  }

  // ---------------------------------------------------------------- heartbeats

  /** Both hashes, and a lease that ends within five minutes. */
  predicate GoodLease(v: Lease, now: nat) {
    v.ownerHash != "" && v.grantHash != "" && now < v.expiresAt <= now + 5 * 60 * SECOND
  }

  function Renewed(v: Lease, now: nat): Time { if v.updatedAt == NOT_SET then now else v.updatedAt }

  /** Somebody would give way to `caller`: a lease that has ended, or one of another
      caller with more than thirty-two. */
  ghost predicate SomebodyWouldGo(records: map<string, Record>, caller: string, now: nat) {
    exists k :: k in records && (records[k].expiresAt <= now || PastItsShare(records, k, caller))
  }

  ghost predicate HasRoom(limits: Limits, records: map<string, Record>, grantHash: string, caller: string, now: nat) {
    || grantHash in records || |records| < limits.maxRecords
    || (|Held(records, caller)| < 32 && SomebodyWouldGo(records, caller, now))
  }

  /** A bad lease changes nothing.  One no newer than a standing revocation is not
      stored.  Any other lifts the revocation, and is stored, under its grant and as
      its caller's, if there is room or room can be made. */
  lemma HeartbeatTakesEffect(limits: Limits, s: State, op: Op, t: State)
    requires op.HeartbeatOp? && Steps(limits, s, op, t)
    ensures var v, now, live := op.lease, op.now, Remembered(limits, s, op.now);
            if !GoodLease(v, now) then t == s
            else if v.ownerHash in Standing(s, now) && Renewed(v, now) <= s.revocations[v.ownerHash].updatedAt
            then t.records == live && t.revocations == Standing(s, now)
            else && t.revocations == Standing(s, now) - {v.ownerHash}
                 && if !HasRoom(limits, live, v.grantHash, op.caller, now) then t.records == live
                    else v.grantHash in t.records
                         && t.records[v.grantHash]
                            == Record(v.ownerHash, v.grantHash, op.caller, now, Renewed(v, now), v.expiresAt)
                         && forall k | k in t.records && k != v.grantHash :: k in live && t.records[k] == live[k]
  {
    var v, now := op.lease, op.now;
    var p := Pruned(limits, s, now);
    PrunedIs(limits, s, now);
    BarredIff(s, p, v, now);
    var victim := TheVictim(limits, s, op, t);
    if GoodLease(v, now) && !Blocked(p, v, now) {
      RoomIff(limits, p.records, v.grantHash, op.caller, now, victim);
      PutInPlace(p.records, victim, Stored(v, op.caller, now));
    }
  }

  lemma PutInPlace(records: map<string, Record>, victim: Option<string>, item: Record)
    ensures var t := Without(records, victim)[item.grantHash := item];
            item.grantHash in t && t[item.grantHash] == item
            && forall k | k in t && k != item.grantHash :: k in records && t[k] == records[k]
  {
  }

  lemma RoomIff(limits: Limits, records: map<string, Record>, grantHash: string, caller: string, now: nat,
                victim: Option<string>)
    requires Chosen(limits, records, grantHash, caller, now, victim)
    ensures HasRoom(limits, records, grantHash, caller, now) <==> !NeedsSlot(limits, records, grantHash) || victim.Some?
  {
    if victim.Some? {
      var k := victim.value;
      assert k in records && Rank(records, records[k], caller, now) < 2;
    }
    if NeedsSlot(limits, records, grantHash) && SomebodyWouldGo(records, caller, now) {
      var k :| k in records && (records[k].expiresAt <= now || PastItsShare(records, k, caller));
      assert Rank(records, records[k], caller, now) < 2;
    }
  }

  /** The answer says whether the lease was stored: a good one, newer than any standing
      revocation, with room. */
  lemma HeartbeatAnswered(limits: Limits, s: State, v: Lease, caller: string, now: nat, victim: Option<string>)
    requires Chosen(limits, Cleared(limits, s, v, now).records, v.grantHash, caller, now, victim)
    ensures Taken(limits, s, v, now, victim)
       <==> && GoodLease(v, now)
            && !(v.ownerHash in Standing(s, now) && Renewed(v, now) <= s.revocations[v.ownerHash].updatedAt)
            && HasRoom(limits, Remembered(limits, s, now), v.grantHash, caller, now)
  {
    PrunedIs(limits, s, now);
    BarredIff(s, Pruned(limits, s, now), v, now);
    RoomIff(limits, Remembered(limits, s, now), v.grantHash, caller, now, victim);
  }

  lemma PrunedIs(limits: Limits, s: State, now: nat)
    ensures Pruned(limits, s, now) == State(Remembered(limits, s, now), Standing(s, now))
  {
    assert LiveRecords(limits, s.records, now) == Remembered(limits, s, now);
    assert LiveRevocations(s.revocations, now) == Standing(s, now);
  }

  lemma BarredIff(s: State, p: State, v: Lease, now: nat)
    requires p.revocations == Standing(s, now)
    ensures Blocked(p, v, now)
       <==> v.ownerHash in Standing(s, now) && Renewed(v, now) <= s.revocations[v.ownerHash].updatedAt
  {
  }

  // --------------------------------------------------------------- revocations

  /** A revocation removes the owner's records and no others, and stands for the whole
      retention time if there is room for it or the owner has one. */
  lemma RevokeTakesEffect(limits: Limits, s: State, owner: string, now: nat, t: State)
    requires Steps(limits, s, RevokeOp(owner, now), t)
    ensures t.records == map k | k in s.records && s.records[k].ownerHash != owner :: s.records[k]
    ensures t.revocations
         == if owner in s.revocations || |s.revocations| < limits.maxRecords
            then s.revocations[owner := Revocation(owner, now, now + limits.lastSeenTTL)] else s.revocations
  {
    OwnedGone(s.records, owner);
    StoredIfRoom(limits, s.revocations, Revocation(owner, now, now + limits.lastSeenTTL));
  }

  lemma OwnedGone(records: map<string, Record>, owner: string)
    ensures records - OwnedBy(records, owner) == map k | k in records && records[k].ownerHash != owner :: records[k]
  {
  }

  lemma StoredIfRoom(limits: Limits, revocations: map<string, Revocation>, r: Revocation)
    ensures StoreRevocation(limits, revocations, r)
         == if r.ownerHash in revocations || |revocations| < limits.maxRecords then revocations[r.ownerHash := r]
            else revocations
  {
  }

  /** A replicated revocation counts if it names an owner, has not run out, and is newer
      than the one stored or there is room for it. */
  ghost predicate Counts(limits: Limits, s: State, r: Revocation, now: nat) {
    && r.ownerHash != "" && now < r.expiresAt
    && (r.ownerHash in s.revocations || |s.revocations| < limits.maxRecords)
    && (r.ownerHash in s.revocations ==> s.revocations[r.ownerHash].updatedAt < r.updatedAt)
  }

  /** Then it is stored as it came and removes the owner's records it supersedes;
      otherwise nothing happens. */
  lemma ReplicatedTakesEffect(limits: Limits, s: State, r: Revocation, now: nat)
    ensures var t := ImportOne(limits, s, r, now);
            if !Counts(limits, s, r, now) then t == s
            else && t.revocations == s.revocations[r.ownerHash := r]
                 && t.records == map k | k in s.records
                                         && (s.records[k].ownerHash == r.ownerHash ==>
                                               r.updatedAt < s.records[k].updatedAt)
                                 :: s.records[k]
  {
  }

  /** The `i`th of the list finds the table full and its owner not in it. */
  ghost predicate NoRoom(limits: Limits, s: State, rs: seq<Revocation>, now: nat, i: nat)
    requires i < |rs|
  {
    var turn := ImportRevocations(limits, s, rs[..i], now).revocations;
    rs[i].ownerHash !in turn && |turn| >= limits.maxRecords
  }

  /** So after a list each of its live revocations stands, itself or by a newer one,
      unless it found no room. */
  lemma {:induction false} ReplicatedStands(limits: Limits, s: State, rs: seq<Revocation>, now: nat, i: nat)
    requires i < |rs| && rs[i].ownerHash != "" && now < rs[i].expiresAt && !NoRoom(limits, s, rs, now, i)
    ensures Stands(ImportRevocations(limits, s, rs, now), rs[i].ownerHash, rs[i].updatedAt)
    decreases |rs|
  {
    var n := |rs| - 1;
    var p := ImportRevocations(limits, s, rs[..n], now);
    if i == n {
      NowStands(limits, p, rs[n], now);
    } else {
      assert rs[..n][..i] == rs[..i] && rs[..n][i] == rs[i];
      ReplicatedStands(limits, s, rs[..n], now, i);
      StillStands(limits, p, rs[n], now, rs[i].ownerHash, rs[i].updatedAt);
    }
  }

  lemma NowStands(limits: Limits, s: State, r: Revocation, now: nat)
    requires r.ownerHash != "" && now < r.expiresAt
    requires r.ownerHash in s.revocations || |s.revocations| < limits.maxRecords
    ensures Stands(ImportOne(limits, s, r, now), r.ownerHash, r.updatedAt)
  {
    ReplicatedTakesEffect(limits, s, r, now);
  }

  lemma StillStands(limits: Limits, s: State, r: Revocation, now: nat, owner: string, since: Time)
    requires Stands(s, owner, since)
    ensures Stands(ImportOne(limits, s, r, now), owner, since)
  {
    ReplicatedTakesEffect(limits, s, r, now);
  }
}
