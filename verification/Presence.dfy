/** The presence table as a value: leases, revocation tombstones, and whose lease
    gives way when the table is full. */
module Presence {
  import opened Common

  type Time = int
  const NOT_SET: Time := 0
  const MINUTE := 60_000_000_000
  const MAX_LEASE := 5 * MINUTE
  const MAX_RECORDS_PER_CALLER := 32

  datatype Lease = Lease(ownerHash: string, grantHash: string, updatedAt: Time, expiresAt: Time)

  datatype Record = Record(ownerHash: string, grantHash: string, caller: string, lastSeen: Time, updatedAt: Time,
                           expiresAt: Time)

  datatype Revocation = Revocation(ownerHash: string, updatedAt: Time, expiresAt: Time)

  datatype Limits = Limits(maxRecords: int, lastSeenTTL: int) {
    predicate Valid() { 0 < maxRecords && 0 < lastSeenTTL }

    function Corrected(): (l: Limits)
      ensures l.Valid()
      ensures Valid() ==> l == this
    {
      Limits(if maxRecords <= 0 then 5000 else maxRecords, if lastSeenTTL <= 0 then 24 * 60 * MINUTE else lastSeenTTL)
    }
  }

  datatype State = State(records: map<string, Record>, revocations: map<string, Revocation>)

  const EMPTY := State(map[], map[])

  // -------------------------------------------------------------------- prune

  predicate Forgotten(limits: Limits, item: Record, now: nat) { item.lastSeen + limits.lastSeenTTL < now }

  function LiveRecords(limits: Limits, records: map<string, Record>, now: nat): map<string, Record> {
    map k | k in records && !Forgotten(limits, records[k], now) :: records[k]
  }

  function LiveRevocations(revocations: map<string, Revocation>, now: nat): map<string, Revocation> {
    map o | o in revocations && now < revocations[o].expiresAt :: revocations[o]
  }

  function Pruned(limits: Limits, s: State, now: nat): State {
    State(LiveRecords(limits, s.records, now), LiveRevocations(s.revocations, now))
  }

  // ----------------------------------------------------------------- eviction

  ghost function Held(records: map<string, Record>, caller: string): set<string> {
    set k | k in records && records[k].caller == caller
  }

  predicate Online(item: Record, now: nat) { now < item.expiresAt }

  /** How weak a record's claim is against `caller`: offline first, then one whose
      own caller is past its share; 2 is no candidate. */
  ghost function Rank(records: map<string, Record>, item: Record, caller: string, now: nat): nat {
    if !Online(item, now) then 0
    else if item.caller != caller && |Held(records, item.caller)| > MAX_RECORDS_PER_CALLER then 1
    else 2
  }

  /** `a` gives way no later than `b`: weaker claim, then longer unseen. */
  ghost predicate NoLater(records: map<string, Record>, a: Record, b: Record, caller: string, now: nat) {
    var ra, rb := Rank(records, a, caller, now), Rank(records, b, caller, now);
    ra < rb || (ra == rb && a.lastSeen <= b.lastSeen)
  }

  /** A candidate before which no other record would give way. */
  ghost predicate IsVictim(records: map<string, Record>, caller: string, now: nat, key: string) {
    && key in records && Rank(records, records[key], caller, now) < 2
    && forall k | k in records :: NoLater(records, records[key], records[k], caller, now)
  }

  ghost predicate NoCandidate(records: map<string, Record>, caller: string, now: nat) {
    forall k | k in records :: Rank(records, records[k], caller, now) == 2
  }

  // ---------------------------------------------------------------- heartbeat

  predicate BadLease(v: Lease, now: nat) {
    v.ownerHash == "" || v.grantHash == "" || v.expiresAt <= now || v.expiresAt > now + MAX_LEASE
  }

  function UpdateTime(v: Lease, now: nat): Time { if v.updatedAt == NOT_SET then now else v.updatedAt }

  /** A tombstone at least as recent as the lease stands against it. */
  predicate Blocked(s: State, v: Lease, now: nat) {
    v.ownerHash in s.revocations && UpdateTime(v, now) <= s.revocations[v.ownerHash].updatedAt
  }

  /** The state once the lease has got past the tombstones. */
  function Cleared(limits: Limits, s: State, v: Lease, now: nat): State {
    var p := Pruned(limits, s, now); p.(revocations := p.revocations - {v.ownerHash})
  }

  /** Somebody else's slot is needed. */
  predicate NeedsSlot(limits: Limits, records: map<string, Record>, grantHash: string) {
    grantHash !in records && |records| >= limits.maxRecords
  }

  ghost predicate PastShare(records: map<string, Record>, caller: string) {
    |Held(records, caller)| >= MAX_RECORDS_PER_CALLER
  }

  /** Who gives way, if anybody: the source's choice among equals is left open. */
  ghost predicate Chosen(limits: Limits, records: map<string, Record>, grantHash: string, caller: string, now: nat,
                         victim: Option<string>) {
    if !NeedsSlot(limits, records, grantHash) || PastShare(records, caller) then victim == None
    else if victim.Some? then IsVictim(records, caller, now, victim.value)
    else NoCandidate(records, caller, now)
  }

  function Stored(v: Lease, caller: string, now: nat): Record {
    Record(v.ownerHash, v.grantHash, caller, now, UpdateTime(v, now), v.expiresAt)
  }

  function Without(records: map<string, Record>, victim: Option<string>): map<string, Record> {
    if victim.Some? then records - {victim.value} else records
  }

  /** The lease is taken. */
  predicate Taken(limits: Limits, s: State, v: Lease, now: nat, victim: Option<string>) {
    && !BadLease(v, now) && !Blocked(Pruned(limits, s, now), v, now)
    && (!NeedsSlot(limits, Cleared(limits, s, v, now).records, v.grantHash) || victim.Some?)
  }

  function Heartbeat(limits: Limits, s: State, v: Lease, caller: string, now: nat, victim: Option<string>): State {
    if BadLease(v, now) then s
    else if Blocked(Pruned(limits, s, now), v, now) then Pruned(limits, s, now)
    else
      var c := Cleared(limits, s, v, now);
      if Taken(limits, s, v, now, victim)
      then c.(records := Without(c.records, victim)[v.grantHash := Stored(v, caller, now)])
      else c
  }

  // ------------------------------------------------------------------- revoke

  function OwnedBy(records: map<string, Record>, owner: string): set<string> {
    set k | k in records && records[k].ownerHash == owner
  }

  function StoreRevocation(limits: Limits, revocations: map<string, Revocation>,
                           r: Revocation): map<string, Revocation> {
    if r.ownerHash !in revocations && |revocations| >= limits.maxRecords then revocations
    else revocations[r.ownerHash := r]
  }

  function Revoke(limits: Limits, s: State, owner: string, now: nat): State {
    State(s.records - OwnedBy(s.records, owner),
          StoreRevocation(limits, s.revocations, Revocation(owner, now, now + limits.lastSeenTTL)))
  }

  /** A replicated tombstone is news: not expired, and newer than what is stored or
      there is room for it. */
  predicate News(limits: Limits, revocations: map<string, Revocation>, r: Revocation, now: nat) {
    && r.ownerHash != "" && now < r.expiresAt
    && (if r.ownerHash in revocations then revocations[r.ownerHash].updatedAt < r.updatedAt
        else |revocations| < limits.maxRecords)
  }

  function Superseded(records: map<string, Record>, r: Revocation): set<string> {
    set k | k in records && records[k].ownerHash == r.ownerHash && records[k].updatedAt <= r.updatedAt
  }

  function ImportOne(limits: Limits, s: State, r: Revocation, now: nat): State {
    if !News(limits, s.revocations, r, now) then s
    else State(s.records - Superseded(s.records, r), s.revocations[r.ownerHash := r])
  }

  function ImportRevocations(limits: Limits, s: State, rs: seq<Revocation>, now: nat): State {
    if rs == [] then s
    else ImportOne(limits, ImportRevocations(limits, s, rs[..|rs| - 1], now), rs[|rs| - 1], now)
  }

  // --------------------------------------------------------------------- runs

  datatype Op =
    | HeartbeatOp(lease: Lease, caller: string, now: nat)      // also a replicated lease, with no caller
    | RevokeOp(owner: string, now: nat)
    | ImportOp(revocations: seq<Revocation>, now: nat)
    | PruneOp(now: nat)

  ghost predicate Steps(limits: Limits, s: State, op: Op, t: State) {
    match op
    case HeartbeatOp(v, caller, now) =>
      exists victim :: Chosen(limits, Cleared(limits, s, v, now).records, v.grantHash, caller, now, victim)
                       && t == Heartbeat(limits, s, v, caller, now, victim)
    case RevokeOp(owner, now) => t == Revoke(limits, s, owner, now)
    case ImportOp(rs, now) => t == ImportRevocations(limits, s, rs, now)
    case PruneOp(now) => t == Pruned(limits, s, now)
  }

  ghost predicate IsRun(limits: Limits, ops: seq<Op>, states: seq<State>) {
    && |states| == |ops| + 1 && states[0] == EMPTY
    && forall i {:trigger ops[i]} | 0 <= i < |ops| :: Steps(limits, states[i], ops[i], states[i + 1])
  }
}
