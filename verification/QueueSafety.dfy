/** What can and cannot happen to queued mail over a run of the store. */
module QueueSafety {
  import opened QueueModel
  import opened QueueMoves
  import opened QueueSteps
  import opened QueueInvariant

  // -------------------------------------------------------------- lifetimes

  /** No stored record outlives the clock by more than the node's ceiling. */
  ghost predicate Lifetimes(cfg: Config, clock: nat, messages: map<string, Envelope>, acks: map<string, Ack>) {
    && (forall m | m in messages :: messages[m].expiresAt <= clock + cfg.maxTTL)
    && (forall a | a in acks :: acks[a].expiresAt <= clock + cfg.maxTTL)
  }

  /** What a move stores runs out in time. */
  predicate StoresInTime(cfg: Config, mv: Move, clock: nat) {
    && (mv.Queue? || mv.Adopt? ==> mv.e.expiresAt <= clock + cfg.maxTTL)
    && (mv.Queue? || mv.Record? ==> mv.a.expiresAt <= clock + cfg.maxTTL)
  }

  lemma LegalInTime(cfg: Config, s: State, now: nat, mv: Move, clock: nat)
    requires Legal(cfg, s, now, mv) && now <= clock
    ensures StoresInTime(cfg, mv, clock)
  {
  }

  lemma LifetimesAfter(cfg: Config, messages: map<string, Envelope>, acks: map<string, Ack>, mv: Move, clock: nat)
    requires StoresInTime(cfg, mv, clock) && Lifetimes(cfg, clock, messages, acks)
    ensures Lifetimes(cfg, clock, MessagesAfter(messages, mv), AcksAfter(acks, mv))
  {
  }

  lemma MoveKeepsLifetimes(cfg: Config, s: State, now: nat, mv: Move, clock: nat)
    requires Legal(cfg, s, now, mv) && now <= clock && Lifetimes(cfg, clock, s.messages, s.acks)
    ensures Lifetimes(cfg, clock, Apply(s, mv).messages, Apply(s, mv).acks)
  {
    LegalInTime(cfg, s, now, mv, clock);
    LifetimesAfter(cfg, s.messages, s.acks, mv, clock);
    ApplyRecords(s, mv);
  }

  lemma BoundedLifetime(cfg: Config, ops: seq<Op>)
    requires cfg.Valid()
    ensures Lifetimes(cfg, Clock(ops), Exec(cfg, ops).messages, Exec(cfg, ops).acks)
  {
    var P := (clock: nat, s: State) => Lifetimes(cfg, clock, s.messages, s.acks);
    forall clock: nat, s: State, now: nat, mv: Move
      | Inv(cfg, s) && P(clock, s) && now <= clock && Legal(cfg, s, now, mv)
      ensures P(clock, Apply(s, mv))
    {
      MoveKeepsLifetimes(cfg, s, now, mv, clock);
    }
    RunKeeps(cfg, ops, P);
  }

  // ------------------------------------------------------------- tombstones

  /** Mail stamped with a hash is queued only if that hash's stored tombstone, if
      any, has run out. */
  ghost predicate NoEntombedMail(clock: nat, messages: map<string, Envelope>, purges: map<string, Purge>) {
    forall m | m in messages ::
      var h := PurgeHash(messages[m]);
      h != "" && h in purges ==> purges[h].expiresAt <= clock
  }

  lemma MoveKeepsEntombment(cfg: Config, s: State, now: nat, mv: Move, clock: nat)
    requires Legal(cfg, s, now, mv) && now <= clock && NoEntombedMail(clock, s.messages, s.purges)
    ensures NoEntombedMail(clock, Apply(s, mv).messages, Apply(s, mv).purges)
  {
  }

  /** While an owner's tombstone is stored and unexpired, none of that owner's mail
      is queued, however it arrived. */
  lemma PurgedMailStaysGone(cfg: Config, ops: seq<Op>, hash: string)
    requires cfg.Valid() && hash != ""
    requires var s := Exec(cfg, ops); hash in s.purges && Clock(ops) < s.purges[hash].expiresAt
    ensures MessagesWithHash(Exec(cfg, ops), hash) == {}
  {
    var P := (clock: nat, s: State) => NoEntombedMail(clock, s.messages, s.purges);
    forall clock: nat, s: State, now: nat, mv: Move
      | Inv(cfg, s) && P(clock, s) && now <= clock && Legal(cfg, s, now, mv)
      ensures P(clock, Apply(s, mv))
    {
      MoveKeepsEntombment(cfg, s, now, mv, clock);
    }
    RunKeeps(cfg, ops, P);
    assert NoEntombedMail(Clock(ops), Exec(cfg, ops).messages, Exec(cfg, ops).purges);
  }

  // ----------------------------------------------------------------- causes

  /** The move takes the queued envelope `e` out of the queue. */
  ghost predicate Removes(mv: Move, now: nat, e: Envelope) {
    || (mv.Record? && Terminal(mv.a.kind) && mv.a.messageId == e.id)
    || (mv.Expire? && e.id in mv.ms && e.expiresAt <= now)
    || (mv.Bury? && mv.hash == PurgeHash(e) && mv.hash != "")
  }

  lemma MoveKeepsOrRemoves(cfg: Config, s: State, now: nat, mv: Move, m: string)
    requires Sound(s) && Legal(cfg, s, now, mv) && m in s.messages
    ensures (m in Apply(s, mv).messages && Apply(s, mv).messages[m] == s.messages[m])
         || Removes(mv, now, s.messages[m])
  {
    ApplyRecords(s, mv);
    KeptOrRemoved(cfg, s, now, mv, m, MessagesAfter(s.messages, mv));
  }

  lemma KeptOrRemoved(cfg: Config, s: State, now: nat, mv: Move, m: string, after: map<string, Envelope>)
    requires Sound(s) && Legal(cfg, s, now, mv) && m in s.messages && after == MessagesAfter(s.messages, mv)
    ensures (m in after && after[m] == s.messages[m]) || Removes(mv, now, s.messages[m])
  {
  }

  /** Over a list of moves a queued envelope either stays or some move removes it. */
  lemma {:induction false} PlayKeepsOrRemoves(cfg: Config, s: State, now: nat, mvs: seq<Move>, m: string)
    requires cfg.Valid() && Inv(cfg, s) && AllLegal(cfg, s, now, mvs) && m in s.messages
    ensures (m in Play(s, mvs).messages && Play(s, mvs).messages[m] == s.messages[m])
         || exists mv :: mv in mvs && Removes(mv, now, s.messages[m])
  {
    if mvs != [] {
      var rest, mv := mvs[..|mvs| - 1], mvs[|mvs| - 1];
      PlayKeepsOrRemoves(cfg, s, now, rest, m);
      PlayKeeps(cfg, s, now, rest, now, (_, _) => true);
      var t := Play(s, rest);
      if m in t.messages && t.messages[m] == s.messages[m] {
        MayMoveIs(cfg, t, now, mv);
        MoveKeepsOrRemoves(cfg, t, now, mv, m);
        assert mv in mvs;
      }
    }
  }

  /** The only reasons queued mail may leave for. */
  ghost predicate Cause(cfg: Config, s: State, op: Op, e: Envelope) {
    match op
    case Acknowledge(a, nodeId, grant, auth, now) =>
      && PostAckError(cfg, s, PreparePostedAck(cfg, s, a, nodeId, grant, now), auth, now).None?
      && Terminal(a.kind) && a.messageId == e.id
      && e.id in s.tags && auth.Permits(s.tags[e.id])
    case FetchMessages(_, now) => e.expiresAt <= now
    case Snapshot(now) => e.expiresAt <= now
    case Prune(now) => e.expiresAt <= now
    case PurgeByOwner(hash, _) => hash != "" && hash == PurgeHash(e)
    case Import(page, now) =>
      || (exists a :: a in page.acks && Terminal(a.kind) && a.messageId == e.id)
      || CarriesTombstone(page, now, PurgeHash(e))
    case _ => false
  }

  lemma CarriedAckIsRaw(cfg: Config, page: Page, now: nat, a: Ack)
    requires CarriesAck(cfg, page, now, a) && Terminal(a.kind)
    ensures exists raw :: raw in page.acks && Terminal(raw.kind) && raw.messageId == a.messageId
  {
    var raw :| raw in page.acks && PrepareAck(cfg, raw, 0, now) == a;
    assert Terminal(raw.kind) && raw.messageId == a.messageId;
  }

  lemma AdmitAckCause(cfg: Config, s: State, a: Ack, auth: Auth, now: nat, m: string)
    requires Bound(s.messages, s.acks, s.tags) && m in s.messages
    requires var t := AdmitAck(cfg, s, a, auth, now); m !in t.messages || t.messages[m] != s.messages[m]
    ensures PostAckError(cfg, s, a, auth, now).None?
    ensures Terminal(a.kind) && a.messageId == m && m in s.tags && auth.Permits(s.tags[m])
  {
    AdmittedOrNot(cfg, s, a, auth, now);
    StoreAckRecords(s, a);
    BoundWhileQueued(s, m);
  }

  lemma AdmittedOrNot(cfg: Config, s: State, a: Ack, auth: Auth, now: nat)
    ensures var t := AdmitAck(cfg, s, a, auth, now);
            if PostAckError(cfg, s, a, auth, now).Some? then t == s
            else t == StoreAck(s, a) && (a.messageId in s.tags ==> auth.Permits(s.tags[a.messageId]))
  {
  }

  lemma BoundWhileQueued(s: State, m: string)
    requires Bound(s.messages, s.acks, s.tags) && m in s.messages
    ensures m in s.tags
  {
    assert Named(s.messages, s.acks, m);
  }

  lemma AcknowledgeCause(cfg: Config, s: State, op: Op, m: string)
    requires Sound(s) && op.Acknowledge? && m in s.messages
    requires m !in StepAcknowledge(cfg, s, op).messages || StepAcknowledge(cfg, s, op).messages[m] != s.messages[m]
    ensures Cause(cfg, s, op, s.messages[m])
  {
    AdmitAckCause(cfg, s, PreparePostedAck(cfg, s, op.ack, op.nodeId, op.grant, op.now), op.auth, op.now, m);
  }

  lemma OtherCause(cfg: Config, s: State, op: Op, m: string, mv: Move)
    requires !op.Acknowledge? && m in s.messages
    requires Removes(mv, op.now, s.messages[m]) && Justified(cfg, op, mv)
    requires op.FetchAcks? ==> mv.Expire? ==> mv.ms == {}
    ensures Cause(cfg, s, op, s.messages[m])
  {
    if mv.Record? {
      CarriedAckIsRaw(cfg, op.page, op.now, mv.a);
    }
  }

  /** A queued envelope that a call removes (or replaces) was removed for cause: an
      accepted terminal ack whose caller matched the bound tag, a sweep at or past
      its expiry, a purge of its own hash, or a replicated terminal ack or
      tombstone for it. */
  lemma MailLeavesOnlyForCause(cfg: Config, s: State, op: Op, m: string)
    requires cfg.Valid() && Inv(cfg, s) && m in s.messages
    requires m !in Step(cfg, s, op).messages || Step(cfg, s, op).messages[m] != s.messages[m]
    ensures Cause(cfg, s, op, s.messages[m])
  {
    if op.Acknowledge? {
      AcknowledgeCause(cfg, s, op, m);
    } else if op.FetchAcks? {
      FetchAcksKeepsMail(cfg, s, op);
      assert false;
    } else {
      var mvs := StepMoves(cfg, s, op);
      PlayKeepsOrRemoves(cfg, s, op.now, mvs, m);
      var mv :| mv in mvs && Removes(mv, op.now, s.messages[m]);
      OtherCause(cfg, s, op, m, mv);
    }
  }

  lemma FetchAcksKeepsMail(cfg: Config, s: State, op: Op)
    requires op.FetchAcks?
    ensures Step(cfg, s, op).messages == s.messages
  {
  }

  /** The same over every run: whatever call of a run takes an envelope away had a
      cause in the state it started from. */
  lemma RunLosesMailOnlyForCause(cfg: Config, ops: seq<Op>, i: nat, m: string)
    requires cfg.Valid() && i < |ops| && m in Exec(cfg, ops[..i]).messages
    requires var t := Exec(cfg, ops[..i + 1]); m !in t.messages || t.messages[m] != Exec(cfg, ops[..i]).messages[m]
    ensures Cause(cfg, Exec(cfg, ops[..i]), ops[i], Exec(cfg, ops[..i]).messages[m])
  {
    assert ops[..i + 1][..i] == ops[..i];
    Reachable(cfg, ops[..i]);
    MailLeavesOnlyForCause(cfg, Exec(cfg, ops[..i]), ops[i], m);
  }

  // ----------------------------------------------------------- terminal acks

  /** No queued message is named by a stored terminal ack. */
  ghost predicate Settled(s: State) {
    forall m | m in s.messages :: !HasTerminalAck(s, m)
  }

  lemma MoveKeepsSettled(cfg: Config, s: State, now: nat, mv: Move)
    requires Settled(s) && Legal(cfg, s, now, mv)
    requires mv.Queue? ==> !HasTerminalAck(s, mv.e.id)
    ensures Settled(Apply(s, mv))
  {
    ApplyRecords(s, mv);
    var t := Apply(s, mv);
    forall m | m in t.messages
      ensures !HasTerminalAck(t, m)
    {
      if HasTerminalAck(t, m) {
        var a :| a in t.acks && t.acks[a].messageId == m && Terminal(t.acks[a].kind);
        if a in s.acks && s.acks[a] == t.acks[a] {
          assert HasTerminalAck(s, m);
        }
      }
    }
  }

  lemma {:induction false} PlayKeepsSettled(cfg: Config, s: State, now: nat, mvs: seq<Move>)
    requires Settled(s) && AllLegal(cfg, s, now, mvs)
    requires forall mv | mv in mvs :: !mv.Queue?
    ensures Settled(Play(s, mvs))
  {
    if mvs != [] {
      PlayKeepsSettled(cfg, s, now, mvs[..|mvs| - 1]);
      MayMoveIs(cfg, Play(s, mvs[..|mvs| - 1]), now, mvs[|mvs| - 1]);
      MoveKeepsSettled(cfg, Play(s, mvs[..|mvs| - 1]), now, mvs[|mvs| - 1]);
    }
  }

  /** An accepted post keeps that so if and only if no stored terminal ack names
      its id: posting, unlike importing, does not ask. */
  lemma PostSettledIff(cfg: Config, s: State, e: Envelope, nodeId: string, grant: Grant, now: nat)
    requires Settled(s) && AdmitReply(cfg, s, e, nodeId, grant, now).error.None?
    ensures Settled(Admit(cfg, s, e, nodeId, grant, now)) <==> !HasTerminalAck(s, e.id)
  {
    var ack := CoupledAck(e, nodeId, now);
    var t := Admit(cfg, s, e, nodeId, grant, now);
    assert t.messages == s.messages[e.id := e] && t.acks == s.acks[ack.id := ack];
    if HasTerminalAck(s, e.id) {
      var a :| a in s.acks && s.acks[a].messageId == e.id && Terminal(s.acks[a].kind);
      assert t.acks[a] == s.acks[a];
      assert HasTerminalAck(t, e.id);
    } else {
      forall m | m in t.messages
        ensures !HasTerminalAck(t, m)
      {
        if HasTerminalAck(t, m) {
          var a :| a in t.acks && t.acks[a].messageId == m && Terminal(t.acks[a].kind);
          assert s.acks[a] == t.acks[a];
          assert HasTerminalAck(s, m);
        }
      }
    }
  }

  lemma StepKeepsSettled(cfg: Config, s: State, op: Op)
    requires cfg.Valid() && Inv(cfg, s) && Settled(s)
    requires op.Post? ==> !HasTerminalAck(s, op.envelope.id)
    ensures Settled(Step(cfg, s, op))
  {
    if op.Post? {
      var e := PrepareEnvelope(cfg, op.envelope, op.grant.retention, op.now);
      if AdmitReply(cfg, s, e, op.nodeId, op.grant, op.now).error.None? {
        PostSettledIff(cfg, s, e, op.nodeId, op.grant, op.now);
      }
    } else {
      var mvs := StepMoves(cfg, s, op);
      PlayKeepsSettled(cfg, s, op.now, mvs);
    }
  }

  /** No post of the run re-uses an id that a stored terminal ack names. */
  ghost predicate PostsAvoidAcked(cfg: Config, ops: seq<Op>) {
    forall i {:trigger ops[i]} | 0 <= i < |ops| && ops[i].Post? ::
      !HasTerminalAck(Exec(cfg, ops[..i]), ops[i].envelope.id)
  }

  /** In every such run a terminal ack wins, whichever of the two arrived first and
      whichever way: no queued message is ever named by a stored terminal ack. */
  lemma {:induction false} TerminalAckWins(cfg: Config, ops: seq<Op>)
    requires cfg.Valid() && PostsAvoidAcked(cfg, ops)
    ensures Settled(Exec(cfg, ops))
  {
    if ops != [] {
      var rest, op := ops[..|ops| - 1], ops[|ops| - 1];
      forall i | 0 <= i < |rest| && rest[i].Post?
        ensures !HasTerminalAck(Exec(cfg, rest[..i]), rest[i].envelope.id)
      {
        assert rest[i] == ops[i] && rest[..i] == ops[..i];
      }
      TerminalAckWins(cfg, rest);
      Reachable(cfg, rest);
      StepKeepsSettled(cfg, Exec(cfg, rest), op);
    }
  }

  lemma FirstTerminalAck(cfg: Config, a: Ack, now: nat)
    requires cfg.Valid() && AckFieldError(PreparePostedAck(cfg, EMPTY, a, "", NO_GRANT, now), now).None?
             && Terminal(a.kind)
    ensures var s := Step(cfg, EMPTY, Acknowledge(a, "", NO_GRANT, TRUSTED, now));
            && s.messages == map[] && s.charged == map[] && s.purges == map[] && s.acks.Keys == {a.id}
            && HasTerminalAck(s, a.messageId)
  {
    var p := PreparePostedAck(cfg, EMPTY, a, "", NO_GRANT, now);
    assert PostAckError(cfg, EMPTY, p, TRUSTED, now).None?;
    ApplyRecords(EMPTY, Record(p));
    var s := StoreAck(EMPTY, p);
    assert s.acks[a.id] == p;
  }

  lemma EmptyQueueAdmits(cfg: Config, s: State, a: string, e: Envelope, now: nat)
    requires cfg.Valid() && s.messages == map[] && s.charged == map[] && s.purges == map[] && s.acks.Keys == {a}
    requires EnvelopeError(cfg, e, now).None? && CoupledId(e.id) != a
    ensures AdmitReply(cfg, s, e, "", NO_GRANT, now).error.None?
  {
    assert Lane(s, PairKey(e)) == {};
    assert |s.acks| == |s.acks.Keys| == 1;
  }

  /** Without that care the property fails: a terminal ack that arrives before its
      message does not stop the message from being posted, and the two then stand
      side by side. */
  lemma TerminalAckThenPost(cfg: Config, a: Ack, e: Envelope, now: nat)
    requires cfg.Valid() && Terminal(a.kind) && a.messageId == e.id && a.id != CoupledId(e.id)
    requires AckFieldError(PreparePostedAck(cfg, EMPTY, a, "", NO_GRANT, now), now).None?
    requires EnvelopeError(cfg, PrepareEnvelope(cfg, e, 0, now), now).None?
    ensures !Settled(Exec(cfg, [Acknowledge(a, "", NO_GRANT, TRUSTED, now), Post(e, "", NO_GRANT, now)]))
  {
    var x, y := Acknowledge(a, "", NO_GRANT, TRUSTED, now), Post(e, "", NO_GRANT, now);
    var f := PrepareEnvelope(cfg, e, 0, now);
    assert [x, y][..1] == [x] && [x][..0] == [];
    var s := Step(cfg, EMPTY, x);
    assert Exec(cfg, [x]) == s;
    FirstTerminalAck(cfg, a, now);
    EmptyQueueAdmits(cfg, s, a.id, f, now);
    PostSettledIff(cfg, s, f, "", NO_GRANT, now);
  }
}
