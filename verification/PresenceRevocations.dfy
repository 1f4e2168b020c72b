/** How long a revocation keeps stale leases of its owner out. */
module PresenceRevocations {
  import opened Presence
  import opened Common

  /** A tombstone of `owner` at least as recent as `since` is stored. */
  predicate Stands(s: State, owner: string, since: Time) {
    owner in s.revocations && since <= s.revocations[owner].updatedAt
  }

  /** The call takes that tombstone away: it looks when the tombstone's time is up, or
      it brings a newer lease of the same owner. */
  predicate Lifts(s: State, op: Op, owner: string) {
    owner in s.revocations
    && var r := s.revocations[owner];
       match op
       case HeartbeatOp(v, _, now) =>
         !BadLease(v, now) && (r.expiresAt <= now || (v.ownerHash == owner && r.updatedAt < UpdateTime(v, now)))
       case RevokeOp(_, _) => false
       case ImportOp(_, _) => false
       case PruneOp(now) => r.expiresAt <= now
  }

  /** The call brings a revocation of `owner`. */
  ghost predicate Revokes(op: Op, owner: string) {
    || (op.RevokeOp? && op.owner == owner)
    || (op.ImportOp? && exists r :: r in op.revocations && r.ownerHash == owner)
  }

  // -------------------------------------------------------------------- one call

  lemma {:induction false} ImportLeavesOthers(limits: Limits, s: State, rs: seq<Revocation>, now: nat, owner: string)
    requires forall r | r in rs :: r.ownerHash != owner
    ensures var t := ImportRevocations(limits, s, rs, now);
            && (owner in t.revocations <==> owner in s.revocations)
            && (owner in s.revocations ==> t.revocations[owner] == s.revocations[owner])
  {
    if rs != [] {
      ImportLeavesOthers(limits, s, rs[..|rs| - 1], now, owner);
      assert rs[|rs| - 1] in rs;
    }
  }

  lemma HeartbeatLifts(limits: Limits, s: State, op: Op, t: State, owner: string)
    requires op.HeartbeatOp? && Steps(limits, s, op, t)
    ensures owner in t.revocations <==> owner in s.revocations && !Lifts(s, op, owner)
    ensures owner in t.revocations ==> t.revocations[owner] == s.revocations[owner]
  {
    var v, now := op.lease, op.now;
    var victim :| Chosen(limits, Cleared(limits, s, v, now).records, v.grantHash, op.caller, now, victim)
                  && t == Heartbeat(limits, s, v, op.caller, now, victim);
    assert t.revocations == if BadLease(v, now) then s.revocations
                            else if Blocked(Pruned(limits, s, now), v, now) then LiveRevocations(s.revocations, now)
                            else LiveRevocations(s.revocations, now) - {v.ownerHash};
  }

  /** A tombstone leaves in exactly these ways, and none comes from anywhere else. */
  lemma TombstoneAfter(limits: Limits, s: State, op: Op, t: State, owner: string)
    requires Steps(limits, s, op, t) && !Revokes(op, owner)
    ensures owner in t.revocations <==> owner in s.revocations && !Lifts(s, op, owner)
    ensures owner in t.revocations ==> t.revocations[owner] == s.revocations[owner]
  {
    match op
    case HeartbeatOp(_, _, _) => HeartbeatLifts(limits, s, op, t, owner);
    case RevokeOp(_, _) =>
    case ImportOp(rs, now) => ImportLeavesOthers(limits, s, rs, now, owner);
    case PruneOp(_) =>
  }

  // ------------------------------------------------------------------------ runs

  /** One of the calls `k` up to `j` lifts the tombstone. */
  ghost predicate LiftedBetween(ops: seq<Op>, states: seq<State>, k: nat, j: nat, owner: string)
    requires k <= j <= |ops| && j <= |states|
  {
    exists i :: k <= i < j && Lifts(states[i], ops[i], owner)
  }

  /** With no other revocation of the owner, the tombstone is there until it is lifted
      and gone from then on. */
  lemma {:induction false} StandsUntilLifted(limits: Limits, ops: seq<Op>, states: seq<State>, k: nat, j: nat,
                                             owner: string)
    requires IsRun(limits, ops, states) && k <= j <= |ops| && owner in states[k].revocations
    requires forall i | k <= i < j :: !Revokes(ops[i], owner)
    ensures owner in states[j].revocations <==> !LiftedBetween(ops, states, k, j, owner)
    ensures owner in states[j].revocations ==> states[j].revocations[owner] == states[k].revocations[owner]
    decreases j
  {
    if k < j {
      var i := j - 1;
      StandsUntilLifted(limits, ops, states, k, i, owner);
      StepAt(limits, ops, states, i);
      TombstoneAfter(limits, states[i], ops[i], states[j], owner);
      LiftedNext(ops, states, k, i, owner);
    }
  }

  lemma StepAt(limits: Limits, ops: seq<Op>, states: seq<State>, i: nat)
    requires IsRun(limits, ops, states) && i < |ops|
    ensures Steps(limits, states[i], ops[i], states[i + 1])
  {
  }

  lemma LiftedNext(ops: seq<Op>, states: seq<State>, k: nat, i: nat, owner: string)
    requires k <= i < |ops| && i < |states|
    ensures LiftedBetween(ops, states, k, i + 1, owner)
            <==> LiftedBetween(ops, states, k, i, owner) || Lifts(states[i], ops[i], owner)
  {
  }

  lemma StoredIff(limits: Limits, s: State, op: Op, t: State)
    requires op.HeartbeatOp? && Steps(limits, s, op, t) && !BadLease(op.lease, op.now)
    requires !NeedsSlot(limits, LiveRecords(limits, s.records, op.now), op.lease.grantHash)
    requires !Blocked(Pruned(limits, s, op.now), op.lease, op.now)
    ensures op.lease.grantHash in t.records && t.records[op.lease.grantHash] == Stored(op.lease, op.caller, op.now)
  {
    assert Cleared(limits, s, op.lease, op.now).records == LiveRecords(limits, s.records, op.now);
  }

  /** Exactly when a lease no newer than a revocation still gets in, there being room
      and no other revocation of its owner since: if the tombstone was lifted in the
      meantime, or its time is up when the lease comes. */
  lemma StaleLeaseStoredIff(limits: Limits, ops: seq<Op>, states: seq<State>, k: nat, j: nat)
    requires IsRun(limits, ops, states) && k <= j < |ops| && ops[j].HeartbeatOp? && !BadLease(ops[j].lease, ops[j].now)
    requires Stands(states[k], ops[j].lease.ownerHash, UpdateTime(ops[j].lease, ops[j].now))
    requires forall i | k <= i < j :: !Revokes(ops[i], ops[j].lease.ownerHash)
    requires !NeedsSlot(limits, LiveRecords(limits, states[j].records, ops[j].now), ops[j].lease.grantHash)
    ensures LiftedBetween(ops, states, k, j + 1, ops[j].lease.ownerHash)
       <==> !Blocked(Pruned(limits, states[j], ops[j].now), ops[j].lease, ops[j].now)
    ensures LiftedBetween(ops, states, k, j + 1, ops[j].lease.ownerHash)
        ==> ops[j].lease.grantHash in states[j + 1].records
            && states[j + 1].records[ops[j].lease.grantHash] == Stored(ops[j].lease, ops[j].caller, ops[j].now)
    ensures !LiftedBetween(ops, states, k, j + 1, ops[j].lease.ownerHash)
        ==> states[j + 1] == Pruned(limits, states[j], ops[j].now)
  {
    var owner := ops[j].lease.ownerHash;
    StandsUntilLifted(limits, ops, states, k, j, owner);
    LiftedNext(ops, states, k, j, owner);
    StepAt(limits, ops, states, j);
    if LiftedBetween(ops, states, k, j + 1, owner) { StoredIff(limits, states[j], ops[j], states[j + 1]); }
  }

  // -------------------------------------------------------------------- an input

  const SMALL := Limits(2, 100)

  /** Revoke at 10, a lease of grant g2 renewed at 11, then a lease of grant g1 last
      renewed at 9: the revocation runs to 110, and g1 is back at 12. */
  const COMEBACK := [RevokeOp("o", 10), HeartbeatOp(Lease("o", "g2", 11, 50), "c", 11),
                     HeartbeatOp(Lease("o", "g1", 9, 50), "", 12)]

  function Revoked(): State { State(map[], map["o" := Revocation("o", 10, 110)]) }

  function Renewed(): State { State(map["g2" := Record("o", "g2", "c", 11, 11, 50)], map[]) }

  function Returned(): State { State(Renewed().records["g1" := Record("o", "g1", "", 12, 9, 50)], map[]) }

  lemma StaleLeaseReturns()
    ensures SMALL.Valid() && IsRun(SMALL, COMEBACK, [EMPTY, Revoked(), Renewed(), Returned()])
    ensures "g1" in Returned().records && Returned().records["g1"].updatedAt < Revoked().revocations["o"].updatedAt
    ensures COMEBACK[2].now < Revoked().revocations["o"].expiresAt
  {
    var ss := [EMPTY, Revoked(), Renewed(), Returned()];
    RevokeStep();
    RenewalStep();
    ReturnStep();
    forall i {:trigger COMEBACK[i]} | 0 <= i < |COMEBACK|
      ensures Steps(SMALL, ss[i], COMEBACK[i], ss[i + 1])
    {
      if i == 0 { assert ss[0] == EMPTY && ss[1] == Revoked(); }
      else if i == 1 { assert ss[1] == Revoked() && ss[2] == Renewed(); }
      else { assert ss[2] == Renewed() && ss[3] == Returned(); }
    }
  }

  lemma RevokeStep()
    ensures Steps(SMALL, EMPTY, COMEBACK[0], Revoked())
  {
    assert Revoke(SMALL, EMPTY, "o", 10) == Revoked();
  }

  lemma RenewalStep()
    ensures Steps(SMALL, Revoked(), COMEBACK[1], Renewed())
  {
    var v := COMEBACK[1].lease;
    assert LiveRevocations(Revoked().revocations, 11) == Revoked().revocations;
    assert Cleared(SMALL, Revoked(), v, 11) == EMPTY;
    assert Chosen(SMALL, Cleared(SMALL, Revoked(), v, 11).records, v.grantHash, "c", 11, None);
    assert Heartbeat(SMALL, Revoked(), v, "c", 11, None) == Renewed();
  }

  lemma ReturnStep()
    ensures Steps(SMALL, Renewed(), COMEBACK[2], Returned())
  {
    var v := COMEBACK[2].lease;
    assert LiveRecords(SMALL, Renewed().records, 12) == Renewed().records;
    assert Cleared(SMALL, Renewed(), v, 12) == Renewed();
    assert Chosen(SMALL, Cleared(SMALL, Renewed(), v, 12).records, v.grantHash, "", 12, None);
    assert Heartbeat(SMALL, Renewed(), v, "", 12, None) == Returned();
  }
}
