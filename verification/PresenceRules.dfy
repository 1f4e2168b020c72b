/** What the presence table promises over every run. */
module PresenceRules {
  import opened Sizes
  import opened Common
  import opened Presence

  /** Records are filed under their own hashes, and no lease runs for more than five
      minutes from when it was last renewed. */
  ghost predicate Filed(s: State) {
    && (forall k | k in s.records ::
          var r := s.records[k]; r.grantHash == k && r.lastSeen < r.expiresAt <= r.lastSeen + MAX_LEASE)
    && (forall o | o in s.revocations :: s.revocations[o].ownerHash == o)
  }

  /** Every record of an owner with a stored tombstone is newer than it. */
  ghost predicate NoneStale(s: State) {
    forall k | k in s.records && s.records[k].ownerHash in s.revocations ::
      s.revocations[s.records[k].ownerHash].updatedAt < s.records[k].updatedAt
  }

  ghost predicate WithinCap(limits: Limits, s: State) {
    |s.records| <= limits.maxRecords && |s.revocations| <= limits.maxRecords
  }

  /** The record a heartbeat's step took away, if any. */
  lemma TheVictim(limits: Limits, s: State, op: Op, t: State) returns (victim: Option<string>)
    requires op.HeartbeatOp? && Steps(limits, s, op, t)
    ensures Chosen(limits, Cleared(limits, s, op.lease, op.now).records, op.lease.grantHash, op.caller, op.now, victim)
    ensures t == Heartbeat(limits, s, op.lease, op.caller, op.now, victim)
  {
    var records := Cleared(limits, s, op.lease, op.now).records;
    victim :| Chosen(limits, records, op.lease.grantHash, op.caller, op.now, victim)
              && t == Heartbeat(limits, s, op.lease, op.caller, op.now, victim);
  }

  // ---------------------------------------------------------------- revocation

  /** Opened by the lemmas about single changes; the others pass it along. */
  ghost predicate Orderly(s: State) {
    forall i {:trigger Unsealed(i)} :: Unsealed(i) ==> Filed(s) && NoneStale(s)
  }

  lemma OrderlyIs(s: State)
    ensures Orderly(s) <==> Filed(s) && NoneStale(s)
  {
    assert Unsealed(0);
  }

  lemma PruneKeeps(limits: Limits, s: State, now: nat)
    requires Orderly(s)
    ensures Orderly(Pruned(limits, s, now))
  {
    OrderlyIs(s);
    OrderlyIs(Pruned(limits, s, now));
  }

  lemma ClearedKeeps(p: State, owner: string)
    requires Orderly(p)
    ensures Orderly(p.(revocations := p.revocations - {owner}))
  {
    OrderlyIs(p);
    OrderlyIs(p.(revocations := p.revocations - {owner}));
  }

  /** A lease is stored only when its owner has no tombstone left. */
  lemma PutKeeps(c: State, item: Record, victim: Option<string>)
    requires Orderly(c) && item.ownerHash !in c.revocations
    requires item.lastSeen < item.expiresAt <= item.lastSeen + MAX_LEASE
    ensures Orderly(c.(records := Without(c.records, victim)[item.grantHash := item]))
  {
    OrderlyIs(c);
    OrderlyIs(c.(records := Without(c.records, victim)[item.grantHash := item]));
  }

  lemma HeartbeatKeeps(limits: Limits, s: State, v: Lease, caller: string, now: nat, victim: Option<string>)
    requires Orderly(s)
    ensures Orderly(Heartbeat(limits, s, v, caller, now, victim))
  {
    PruneKeeps(limits, s, now);
    ClearedKeeps(Pruned(limits, s, now), v.ownerHash);
    if Taken(limits, s, v, now, victim) { PutKeeps(Cleared(limits, s, v, now), Stored(v, caller, now), victim); }
  }

  lemma RevokeKeeps(limits: Limits, s: State, owner: string, now: nat)
    requires Orderly(s)
    ensures Orderly(Revoke(limits, s, owner, now))
  {
    var r := Revocation(owner, now, now + limits.lastSeenTTL);
    StoredOrNot(limits, s.revocations, r);
    RevokedKeeps(s, r, StoreRevocation(limits, s.revocations, r));
  }

  lemma StoredOrNot(limits: Limits, revocations: map<string, Revocation>, r: Revocation)
    ensures var t := StoreRevocation(limits, revocations, r); t == revocations || t == revocations[r.ownerHash := r]
  {
  }

  /** With the owner's records gone, what is written about the owner matters to none. */
  lemma RevokedKeeps(s: State, r: Revocation, revocations: map<string, Revocation>)
    requires Orderly(s) && (revocations == s.revocations || revocations == s.revocations[r.ownerHash := r])
    ensures Orderly(State(s.records - OwnedBy(s.records, r.ownerHash), revocations))
  {
    OrderlyIs(s);
    OrderlyIs(State(s.records - OwnedBy(s.records, r.ownerHash), revocations));
  }

  lemma ImportOneKeeps(limits: Limits, s: State, r: Revocation, now: nat)
    requires Orderly(s)
    ensures Orderly(ImportOne(limits, s, r, now))
  {
    OrderlyIs(s);
    OrderlyIs(ImportOne(limits, s, r, now));
    if News(limits, s.revocations, r, now) { SupersedingKeeps(s, r); }
  }

  lemma SupersedingKeeps(s: State, r: Revocation)
    requires Filed(s) && NoneStale(s)
    ensures var t := State(s.records - Superseded(s.records, r), s.revocations[r.ownerHash := r]);
            Filed(t) && NoneStale(t)
  {
  }

  lemma {:induction false} ImportKeeps(limits: Limits, s: State, rs: seq<Revocation>, now: nat)
    requires Orderly(s)
    ensures Orderly(ImportRevocations(limits, s, rs, now))
  {
    if rs != [] {
      ImportKeeps(limits, s, rs[..|rs| - 1], now);
      ImportOneKeeps(limits, ImportRevocations(limits, s, rs[..|rs| - 1], now), rs[|rs| - 1], now);
    }
  }

  lemma StepKeeps(limits: Limits, s: State, op: Op, t: State)
    requires Orderly(s) && Steps(limits, s, op, t)
    ensures Orderly(t)
  {
    match op
    case HeartbeatOp(v, caller, now) =>
      var victim := TheVictim(limits, s, op, t);
      HeartbeatKeeps(limits, s, v, caller, now, victim);
    case RevokeOp(owner, now) => RevokeKeeps(limits, s, owner, now);
    case ImportOp(rs, now) => ImportKeeps(limits, s, rs, now);
    case PruneOp(now) => PruneKeeps(limits, s, now);
  }

  lemma {:induction false} RunKeeps(limits: Limits, ops: seq<Op>, states: seq<State>, i: nat)
    requires IsRun(limits, ops, states) && i < |states|
    ensures Orderly(states[i])
  {
    if i == 0 {
      OrderlyIs(EMPTY);
    } else {
      var k := i - 1;
      RunKeeps(limits, ops, states, k);
      assert Steps(limits, states[k], ops[k], states[k + 1]);
      StepKeeps(limits, states[k], ops[k], states[i]);
    }
  }

  /** In every reachable state a record outlives a stored tombstone of its owner only
      by being newer, whatever order leases and tombstones came in. */
  lemma RevocationOrder(limits: Limits, ops: seq<Op>, states: seq<State>, i: nat)
    requires IsRun(limits, ops, states) && i < |states|
    ensures Filed(states[i]) && NoneStale(states[i])
  {
    RunKeeps(limits, ops, states, i);
    OrderlyIs(states[i]);
  }

  // ---------------------------------------------------------------------- caps

  lemma HeartbeatFits(limits: Limits, s: State, v: Lease, caller: string, now: nat, victim: Option<string>)
    requires limits.Valid() && WithinCap(limits, s)
    requires victim.Some? ==> victim.value in Cleared(limits, s, v, now).records
    ensures WithinCap(limits, Heartbeat(limits, s, v, caller, now, victim))
  {
    PrunedFits(limits, s, now);
    var c := Cleared(limits, s, v, now);
    SubmapSize(c.revocations, Pruned(limits, s, now).revocations);
    if Taken(limits, s, v, now, victim) { OneInOneOut(limits, c.records, v.grantHash, Stored(v, caller, now), victim); }
  }

  lemma PrunedFits(limits: Limits, s: State, now: nat)
    requires WithinCap(limits, s)
    ensures WithinCap(limits, Pruned(limits, s, now))
  {
    var p := Pruned(limits, s, now);
    SubmapSize(p.records, s.records);
    SubmapSize(p.revocations, s.revocations);
  }

  lemma VictimIsStored(limits: Limits, records: map<string, Record>, grantHash: string, caller: string, now: nat,
                       victim: Option<string>)
    requires Chosen(limits, records, grantHash, caller, now, victim)
    ensures victim.Some? ==> victim.value in records
  {
  }

  lemma OneInOneOut(limits: Limits, records: map<string, Record>, key: string, item: Record, victim: Option<string>)
    requires |records| <= limits.maxRecords
    requires !NeedsSlot(limits, records, key) || (victim.Some? && victim.value in records)
    ensures |Without(records, victim)[key := item]| <= limits.maxRecords
  {
    var after := Without(records, victim)[key := item];
    if NeedsSlot(limits, records, key) {
      PlusOneSize(after.Keys, records.Keys - {victim.value}, key);
    } else {
      PlusOneSize(after.Keys, records.Keys, key);
    }
  }

  lemma RevokeFits(limits: Limits, s: State, owner: string, now: nat)
    requires limits.Valid() && WithinCap(limits, s)
    ensures WithinCap(limits, Revoke(limits, s, owner, now))
  {
    var t := Revoke(limits, s, owner, now);
    SubmapSize(t.records, s.records);
    OneMore(limits, s.revocations, owner, Revocation(owner, now, now + limits.lastSeenTTL));
  }

  lemma OneMore(limits: Limits, revocations: map<string, Revocation>, owner: string, r: Revocation)
    requires |revocations| <= limits.maxRecords
    ensures owner in revocations || |revocations| < limits.maxRecords ==> |revocations[owner := r]| <= limits.maxRecords
  {
    assert revocations[owner := r].Keys == revocations.Keys + {owner};
    if owner in revocations { assert revocations.Keys + {owner} == revocations.Keys; }
  }

  lemma {:induction false} ImportFits(limits: Limits, s: State, rs: seq<Revocation>, now: nat)
    requires limits.Valid() && WithinCap(limits, s)
    ensures WithinCap(limits, ImportRevocations(limits, s, rs, now))
  {
    if rs != [] {
      ImportFits(limits, s, rs[..|rs| - 1], now);
      var p, r := ImportRevocations(limits, s, rs[..|rs| - 1], now), rs[|rs| - 1];
      SubmapSize(ImportOne(limits, p, r, now).records, p.records);
      OneMore(limits, p.revocations, r.ownerHash, r);
    }
  }

  lemma StepFits(limits: Limits, s: State, op: Op, t: State)
    requires limits.Valid() && WithinCap(limits, s) && Steps(limits, s, op, t)
    ensures WithinCap(limits, t)
  {
    match op
    case HeartbeatOp(v, caller, now) =>
      var victim := TheVictim(limits, s, op, t);
      VictimIsStored(limits, Cleared(limits, s, v, now).records, v.grantHash, caller, now, victim);
      HeartbeatFits(limits, s, v, caller, now, victim);
    case RevokeOp(owner, now) => RevokeFits(limits, s, owner, now);
    case ImportOp(rs, now) => ImportFits(limits, s, rs, now);
    case PruneOp(now) => PrunedFits(limits, s, now);
  }

  /** Neither table ever passes its cap. */
  lemma {:induction false} AlwaysWithinCap(limits: Limits, ops: seq<Op>, states: seq<State>, i: nat)
    requires limits.Valid() && IsRun(limits, ops, states) && i < |states|
    ensures WithinCap(limits, states[i])
  {
    if i > 0 {
      AlwaysWithinCap(limits, ops, states, i - 1);
      assert Steps(limits, states[i - 1], ops[i - 1], states[i - 1 + 1]);
      StepFits(limits, states[i - 1], ops[i - 1], states[i]);
    }
  }

  // ------------------------------------------------------------------ eviction

  lemma HeldShrinks(limits: Limits, records: map<string, Record>, caller: string, now: nat)
    ensures |Held(LiveRecords(limits, records, now), caller)| <= |Held(records, caller)|
  {
    SubsetSize(Held(LiveRecords(limits, records, now), caller), Held(records, caller));
  }

  lemma SparedBy(limits: Limits, s: State, v: Lease, caller: string, now: nat, victim: Option<string>, k: string)
    requires Chosen(limits, Cleared(limits, s, v, now).records, v.grantHash, caller, now, victim)
    requires k in s.records && k != v.grantHash && Online(s.records[k], now) && !Forgotten(limits, s.records[k], now)
    requires |Held(s.records, s.records[k].caller)| <= MAX_RECORDS_PER_CALLER
    ensures var t := Heartbeat(limits, s, v, caller, now, victim); k in t.records && t.records[k] == s.records[k]
  {
    WithinShareIsSafe(limits, s.records, caller, now, k);
    NotTheVictim(limits, LiveRecords(limits, s.records, now), v.grantHash, caller, now, victim, k);
  }

  lemma WithinShareIsSafe(limits: Limits, records: map<string, Record>, caller: string, now: nat, k: string)
    requires k in records && Online(records[k], now) && !Forgotten(limits, records[k], now)
    requires |Held(records, records[k].caller)| <= MAX_RECORDS_PER_CALLER
    ensures k in LiveRecords(limits, records, now)
    ensures Rank(LiveRecords(limits, records, now), records[k], caller, now) == 2
  {
    HeldShrinks(limits, records, records[k].caller, now);
  }

  lemma NotTheVictim(limits: Limits, records: map<string, Record>, grantHash: string, caller: string, now: nat,
                     victim: Option<string>, k: string)
    requires Chosen(limits, records, grantHash, caller, now, victim)
    requires k in records && Rank(records, records[k], caller, now) == 2
    ensures victim != Some(k)
  {
  }

  /** Over every run, a heartbeat costs nobody else a live lease within its caller's
      share, unless that lease had not been seen for the whole retention time. */
  lemma LiveLeasesSpared(limits: Limits, ops: seq<Op>, states: seq<State>, i: nat, k: string)
    requires IsRun(limits, ops, states) && i < |ops| && ops[i].HeartbeatOp? && k != ops[i].lease.grantHash
    requires var records, now := states[i].records, ops[i].now;
             && k in records && Online(records[k], now) && !Forgotten(limits, records[k], now)
             && |Held(records, records[k].caller)| <= MAX_RECORDS_PER_CALLER
    ensures k in states[i + 1].records && states[i + 1].records[k] == states[i].records[k]
  {
    var victim := TheVictim(limits, states[i], ops[i], states[i + 1]);
    SparedBy(limits, states[i], ops[i].lease, ops[i].caller, ops[i].now, victim, k);
  }

  lemma OnlyTheVictimLeaves(limits: Limits, s: State, v: Lease, caller: string, now: nat, victim: Option<string>,
                            k: string)
    requires k in LiveRecords(limits, s.records, now) && k !in Heartbeat(limits, s, v, caller, now, victim).records
    ensures victim == Some(k)
  {
  }

  /** And when a record still remembered has to go, it is the only one, the table was
      full and the newcomer within its share.  It is a lease that has ended, the longest
      unseen of those; or, if none has ended, one of another caller past its share,
      again the longest unseen. */
  lemma WeakestGivesWay(limits: Limits, ops: seq<Op>, states: seq<State>, i: nat, k: string)
    requires IsRun(limits, ops, states) && i < |ops| && ops[i].HeartbeatOp?
    requires k in LiveRecords(limits, states[i].records, ops[i].now) && k !in states[i + 1].records
    ensures var live, caller, now := LiveRecords(limits, states[i].records, ops[i].now), ops[i].caller, ops[i].now;
            && |live| >= limits.maxRecords && |Held(live, caller)| < 32
            && (if live[k].expiresAt <= now
                then forall x | x in live && live[x].expiresAt <= now :: live[k].lastSeen <= live[x].lastSeen
                else && PastItsShare(live, k, caller) && (forall x | x in live :: now < live[x].expiresAt)
                     && forall x | x in live && PastItsShare(live, x, caller) :: live[k].lastSeen <= live[x].lastSeen)
            && (forall x | x in live && x != k :: x in states[i + 1].records)
  {
    var s, op := states[i], ops[i];
    var victim := TheVictim(limits, s, op, states[i + 1]);
    OnlyTheVictimLeaves(limits, s, op.lease, op.caller, op.now, victim, k);
    VictimIsWeakest(LiveRecords(limits, s.records, op.now), op.caller, op.now, k);
    forall x | x in LiveRecords(limits, s.records, op.now) && x !in states[i + 1].records
      ensures x == k
    {
      OnlyTheVictimLeaves(limits, s, op.lease, op.caller, op.now, victim, x);
    }
  }

  /** Held by another caller with more than thirty-two. */
  ghost predicate PastItsShare(records: map<string, Record>, k: string, caller: string)
    requires k in records
  {
    records[k].caller != caller && |Held(records, records[k].caller)| > 32
  }

  lemma VictimIsWeakest(records: map<string, Record>, caller: string, now: nat, k: string)
    requires IsVictim(records, caller, now, k)
    ensures if records[k].expiresAt <= now
            then forall x | x in records && records[x].expiresAt <= now :: records[k].lastSeen <= records[x].lastSeen
            else && PastItsShare(records, k, caller) && (forall x | x in records :: now < records[x].expiresAt)
                 && forall x | x in records && PastItsShare(records, x, caller) ::
                      records[k].lastSeen <= records[x].lastSeen
  {
    forall x | x in records ensures NoLater(records, records[k], records[x], caller, now) { }
  }
}
