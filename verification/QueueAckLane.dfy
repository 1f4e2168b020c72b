/** The ack lane's reserve: caller-posted and replicated acks can never take the
    slots the coupled acks of queued messages need. */
module QueueAckLane {
  import opened Sizes
  import opened Common
  import opened Text
  import opened QueueModel
  import opened QueueMoves
  import opened QueueInvariant

  /** Acks unexpired at `t`. */
  ghost function LiveAcks(acks: map<string, Ack>, t: Time): set<string> {
    set a | a in acks && t < acks[a].expiresAt
  }

  ghost function LiveMessages(messages: map<string, Envelope>, t: Time): set<string> {
    set m | m in messages && t < messages[m].expiresAt
  }

  /** The coupled ack of queued message `m` is still stored and expires with it. */
  predicate Coupled(messages: map<string, Envelope>, acks: map<string, Ack>, m: string)
    requires m in messages
  {
    var c := CoupledId(m);
    c in acks && acks[c].messageId == m && acks[c].expiresAt == messages[m].expiresAt
  }

  /** Queued messages unexpired at `t` whose coupled ack is stored. */
  ghost function Covered(messages: map<string, Envelope>, acks: map<string, Ack>, t: Time): set<string> {
    set m | m in messages && t < messages[m].expiresAt && Coupled(messages, acks, m)
  }

  ghost predicate Holds(cfg: Config, messages: map<string, Envelope>, acks: map<string, Ack>, t: Time) {
    |LiveAcks(acks, t)| <= cfg.ExternalAckCapacity() + |Covered(messages, acks, t)|
  }

  ghost predicate Reserve(cfg: Config, clock: nat, s: State) {
    forall t: Time :: clock <= t ==> Holds(cfg, s.messages, s.acks, t)
  }

  // ------------------------------------------------------------------ moves

  lemma {:induction false} InjectionSize(lost: set<string>, gone: set<string>)
    requires forall m | m in lost :: CoupledId(m) in gone
    ensures |lost| <= |gone|
  {
    if lost != {} {
      var m :| m in lost;
      forall n | n in lost - {m}
        ensures CoupledId(n) in gone - {CoupledId(m)}
      {
        if CoupledId(n) == CoupledId(m) { CoupledIdInjective(n, m); }
      }
      InjectionSize(lost - {m}, gone - {CoupledId(m)});
    }
  }

  lemma QueueSets(cfg: Config, s: State, now: nat, mv: Move, t: Time)
    requires mv.Queue? && LegalQueue(cfg, s, now, mv)
    ensures LiveAcks(s.acks[mv.a.id := mv.a], t)
         == if t < mv.e.expiresAt then LiveAcks(s.acks, t) + {mv.a.id} else LiveAcks(s.acks, t)
    ensures (if t < mv.e.expiresAt then Covered(s.messages, s.acks, t) + {mv.e.id} else Covered(s.messages, s.acks, t))
         <= Covered(s.messages[mv.e.id := mv.e], s.acks[mv.a.id := mv.a], t)
    ensures mv.e.id !in Covered(s.messages, s.acks, t)
  {
  }

  lemma BothGrow<T>(live: set<T>, a: T, covered: set<T>, m: T, covered': set<T>, cap: int)
    requires |live| <= cap + |covered| && m !in covered && covered + {m} <= covered'
    ensures |live + {a}| <= cap + |covered'|
  {
    SubsetSize(covered + {m}, covered');
  }

  lemma QueueHolds(cfg: Config, s: State, now: nat, mv: Move, t: Time)
    requires mv.Queue? && LegalQueue(cfg, s, now, mv)
    requires Holds(cfg, s.messages, s.acks, t)
    ensures Holds(cfg, s.messages[mv.e.id := mv.e], s.acks[mv.a.id := mv.a], t)
  {
    var ms, as_ := s.messages[mv.e.id := mv.e], s.acks[mv.a.id := mv.a];
    QueueSets(cfg, s, now, mv, t);
    if t < mv.e.expiresAt {
      BothGrow(LiveAcks(s.acks, t), mv.a.id, Covered(s.messages, s.acks, t), mv.e.id, Covered(ms, as_, t),
               cfg.ExternalAckCapacity());
    } else {
      SubsetSize(Covered(s.messages, s.acks, t), Covered(ms, as_, t));
    }
  }

  lemma AdoptHolds(cfg: Config, s: State, e: Envelope, t: Time)
    requires e.id !in s.messages
    requires Holds(cfg, s.messages, s.acks, t)
    ensures Holds(cfg, s.messages[e.id := e], s.acks, t)
  {
    assert Covered(s.messages, s.acks, t) <= Covered(s.messages[e.id := e], s.acks, t);
    SubsetSize(Covered(s.messages, s.acks, t), Covered(s.messages[e.id := e], s.acks, t));
  }

  /** Under the external budget the bound needs no message at all. */
  lemma FewAcksHold(cfg: Config, messages: map<string, Envelope>, acks: map<string, Ack>, t: Time)
    requires |acks| <= cfg.ExternalAckCapacity()
    ensures Holds(cfg, messages, acks, t)
  {
    SubsetSize(LiveAcks(acks, t), acks.Keys);
  }

  lemma ExpireHolds(cfg: Config, s: State, now: nat, mv: Move, t: Time)
    requires mv.Expire? && LegalExpire(s, now, mv) && now <= t
    requires Holds(cfg, s.messages, s.acks, t)
    ensures Holds(cfg, s.messages - mv.ms, s.acks - mv.as_, t)
  {
    assert LiveAcks(s.acks - mv.as_, t) == LiveAcks(s.acks, t);
    assert Covered(s.messages - mv.ms, s.acks - mv.as_, t) == Covered(s.messages, s.acks, t);
  }

  /** Each covered message a purge removes takes its own coupled ack with it, and
      no other message loses its cover. */
  lemma BurySets(s: State, mv: Move, t: Time)
    requires mv.Bury? && LegalBury(s, mv)
    ensures LiveAcks(s.acks - mv.as_, t) == LiveAcks(s.acks, t) - mv.as_
    ensures Covered(s.messages - mv.ms, s.acks - mv.as_, t) == Covered(s.messages, s.acks, t) - mv.ms
    ensures forall m | m in Covered(s.messages, s.acks, t) * mv.ms :: CoupledId(m) in LiveAcks(s.acks, t) * mv.as_
  {
  }

  lemma BothShrink(live: set<string>, as_: set<string>, covered: set<string>, ms: set<string>, cap: int)
    requires |live| <= cap + |covered| && |covered * ms| <= |live * as_|
    ensures |live - as_| <= cap + |covered - ms|
  {
    assert live - as_ == live - live * as_;
    assert covered - ms == covered - covered * ms;
  }

  lemma BuryHolds(cfg: Config, s: State, mv: Move, t: Time)
    requires mv.Bury? && LegalBury(s, mv)
    requires Holds(cfg, s.messages, s.acks, t)
    ensures Holds(cfg, s.messages - mv.ms, s.acks - mv.as_, t)
  {
    var live, covered := LiveAcks(s.acks, t), Covered(s.messages, s.acks, t);
    BurySets(s, mv, t);
    InjectionSize(covered * mv.ms, live * mv.as_);
    BothShrink(live, mv.as_, covered, mv.ms, cfg.ExternalAckCapacity());
  }

  lemma StoreAckAcks(s: State, a: Ack)
    ensures StoreAck(s, a).acks == s.acks[a.id := a]
  {
  }

  lemma OneMore(acks: map<string, Ack>, a: Ack, cap: int)
    requires |acks| < cap
    ensures |acks[a.id := a]| <= cap
  {
  }

  lemma RecordHolds(cfg: Config, s: State, now: nat, mv: Move, t: Time)
    requires mv.Record? && LegalRecord(cfg, s, now, mv)
    ensures Holds(cfg, StoreAck(s, mv.a).messages, StoreAck(s, mv.a).acks, t)
  {
    StoreAckAcks(s, mv.a);
    OneMore(s.acks, mv.a, cfg.ExternalAckCapacity());
    FewAcksHold(cfg, StoreAck(s, mv.a).messages, s.acks[mv.a.id := mv.a], t);
  }

  lemma MoveHolds(cfg: Config, s: State, now: nat, mv: Move, t: Time)
    requires Legal(cfg, s, now, mv) && now <= t && Holds(cfg, s.messages, s.acks, t)
    ensures Holds(cfg, Apply(s, mv).messages, Apply(s, mv).acks, t)
  {
    match mv
    case Queue(_, _, _) => QueueHolds(cfg, s, now, mv, t);
    case Adopt(e) => AdoptHolds(cfg, s, e, t);
    case Record(_) => RecordHolds(cfg, s, now, mv, t);
    case Expire(_, _) => ExpireHolds(cfg, s, now, mv, t);
    case Bury(_, _, _) => BuryHolds(cfg, s, mv, t);
    case Entomb(_) =>
  }

  lemma MoveKeepsReserve(cfg: Config, s: State, now: nat, mv: Move, clock: nat)
    requires Legal(cfg, s, now, mv) && now <= clock && Reserve(cfg, clock, s)
    ensures Reserve(cfg, clock, Apply(s, mv))
  {
    forall t: Time | clock <= t
      ensures Holds(cfg, Apply(s, mv).messages, Apply(s, mv).acks, t)
    {
      MoveHolds(cfg, s, now, mv, t);
    }
  }

  // ------------------------------------------------------------------- runs

  /** In every reachable state and at every time from the clock on, live acks
      number at most the external budget plus the live queued messages whose
      coupled ack is stored. */
  lemma AckLaneReserve(cfg: Config, ops: seq<Op>, t: Time)
    requires cfg.Valid() && Clock(ops) <= t
    ensures var s := Exec(cfg, ops);
            |LiveAcks(s.acks, t)| <= cfg.ExternalAckCapacity() + |Covered(s.messages, s.acks, t)|
    ensures var s := Exec(cfg, ops);
            |LiveAcks(s.acks, t)| <= cfg.ExternalAckCapacity() + |LiveMessages(s.messages, t)|
  {
    var P := (clock: nat, s: State) => Reserve(cfg, clock, s);
    forall clock: nat, s: State, now: nat, mv: Move
      | Inv(cfg, s) && P(clock, s) && now <= clock && Legal(cfg, s, now, mv)
      ensures P(clock, Apply(s, mv))
    {
      MoveKeepsReserve(cfg, s, now, mv, clock);
    }
    EmptyReserve(cfg);
    RunKeeps(cfg, ops, P);
    var s := Exec(cfg, ops);
    assert Holds(cfg, s.messages, s.acks, t);
    SubsetSize(Covered(s.messages, s.acks, t), LiveMessages(s.messages, t));
  }

  lemma EmptyReserve(cfg: Config)
    requires cfg.Valid()
    ensures Reserve(cfg, 0, EMPTY)
  {
    forall t: Time | 0 <= t
      ensures Holds(cfg, EMPTY.messages, EMPTY.acks, t)
    {
      FewAcksHold(cfg, EMPTY.messages, EMPTY.acks, t);
    }
  }

  /** No stored ack is past its expiry. */
  ghost predicate AcksSwept(s: State, t: Time) {
    forall a | a in s.acks :: t < s.acks[a].expiresAt
  }

  /** While no expired ack is waiting for a sweep, a post that passes the earlier
      checks and whose coupled ack id is unused is accepted: ack pressure cannot
      refuse it. */
  lemma PostNeverRefusedForAcks(cfg: Config, ops: seq<Op>, e: Envelope, nodeId: string, grant: Grant, now: nat)
    requires cfg.Valid() && AcksSwept(Exec(cfg, ops), Clock(ops))
    requires EnvelopeError(cfg, e, now).None?
    requires AdmissionError(cfg, Exec(cfg, ops), e, grant, now).None?
    requires CoupledId(e.id) !in Exec(cfg, ops).acks
    ensures AdmitReply(cfg, Exec(cfg, ops), e, nodeId, grant, now) == PostReply(Some(CoupledAck(e, nodeId, now)), None)
  {
    var s, t := Exec(cfg, ops), Clock(ops);
    SweptLaneHasRoom(cfg, ops);
    AdmittedUnless(cfg, s, e, nodeId, grant, now);
  }

  lemma SweptLaneHasRoom(cfg: Config, ops: seq<Op>)
    requires cfg.Valid() && AcksSwept(Exec(cfg, ops), Clock(ops))
    ensures var s := Exec(cfg, ops); |s.messages| < cfg.maxMessages ==> |s.acks| < cfg.maxAcks
  {
    var s, t := Exec(cfg, ops), Clock(ops);
    AckLaneReserve(cfg, ops, t);
    assert LiveAcks(s.acks, t) == s.acks.Keys;
    SubsetSize(LiveMessages(s.messages, t), s.messages.Keys);
  }

  /** Past the earlier checks and with an unused ack id, the one remaining refusal
      is a full lane. */
  lemma AdmittedUnless(cfg: Config, s: State, e: Envelope, nodeId: string, grant: Grant, now: nat)
    requires EnvelopeError(cfg, e, now).None? && AdmissionError(cfg, s, e, grant, now).None?
    requires CoupledId(e.id) !in s.acks
    ensures |s.messages| < cfg.maxMessages
    ensures AdmitReply(cfg, s, e, nodeId, grant, now)
         == if |s.acks| >= cfg.maxAcks then PostReply(None, Some(QueueFull))
            else PostReply(Some(CoupledAck(e, nodeId, now)), None)
  {
  }

  /** The exact condition in every reachable state: such a post is refused if and
      only if the whole lane is occupied, and that takes an expired, unswept ack. */
  lemma PostRefusedForAcksIff(cfg: Config, ops: seq<Op>, e: Envelope, nodeId: string, grant: Grant, now: nat)
    requires cfg.Valid()
    requires EnvelopeError(cfg, e, now).None?
    requires AdmissionError(cfg, Exec(cfg, ops), e, grant, now).None?
    requires CoupledId(e.id) !in Exec(cfg, ops).acks
    ensures AdmitReply(cfg, Exec(cfg, ops), e, nodeId, grant, now).error.Some? <==> |Exec(cfg, ops).acks| == cfg.maxAcks
    ensures |Exec(cfg, ops).acks| == cfg.maxAcks ==> !AcksSwept(Exec(cfg, ops), Clock(ops))
  {
    Reachable(cfg, ops);
    AdmittedUnless(cfg, Exec(cfg, ops), e, nodeId, grant, now);
    if AcksSwept(Exec(cfg, ops), Clock(ops)) {
      SweptLaneHasRoom(cfg, ops);
    }
  }

  /** Right after a sweep by the latest clock reading no expired ack is stored. */
  lemma SweptAfterPrune(cfg: Config, ops: seq<Op>, op: Op)
    requires op.Prune? || op.Snapshot?
    requires Clock(ops) <= op.now
    ensures AcksSwept(Exec(cfg, ops + [op]), Clock(ops + [op]))
  {
    assert (ops + [op])[..|ops|] == ops;
    var s := Exec(cfg, ops);
    assert Exec(cfg, ops + [op]) == Sweep(s, op.now);
  }

  // --------------------------------------------------- when ack pressure bites

  /** The smallest lane: one message, and one ack beyond the reserve. */
  const TINY := Config(1, 2, 1, 1, 8, 100, 100)

  /** One external ack, one post, and a fetch after both have expired: the fetch
      sweeps messages only, so the lane stays full of expired acks. */
  function StaleLane(a: Ack, e: Envelope, later: nat): seq<Op> {
    [Acknowledge(a, "node", NO_GRANT, TRUSTED, 1), Post(e, "node", NO_GRANT, 1), FetchMessages("r", later)]
  }

  lemma ExecThree(cfg: Config, x: Op, y: Op, z: Op)
    ensures Exec(cfg, [x, y, z]) == Step(cfg, Step(cfg, Step(cfg, EMPTY, x), y), z)
  {
    assert [x, y, z][..2] == [x, y] && [x, y][..1] == [x] && [x][..0] == [];
    assert Exec(cfg, [x]) == Step(cfg, EMPTY, x);
    assert Exec(cfg, [x, y]) == Step(cfg, Exec(cfg, [x]), y);
  }

  lemma FirstAck(a: Ack)
    requires a.id != "" && a.messageId != "" && a.sender != "" && a.recipient != "" && a.kind == NodeReceived
    requires a.createdAt != NOT_SET && 1 < a.expiresAt < 100
    ensures var s := Step(TINY, EMPTY, Acknowledge(a, "node", NO_GRANT, TRUSTED, 1));
            s.acks.Keys == {a.id} && s.messages == map[] && s.purges == map[] && s.charged == map[]
  {
    var p := PreparePostedAck(TINY, EMPTY, a, "node", NO_GRANT, 1);
    assert PostAckError(TINY, EMPTY, p, TRUSTED, 1).None?;
  }

  lemma ThenPost(s: State, a: Ack, e: Envelope)
    requires s.acks.Keys == {a.id} && s.messages == map[] && s.purges == map[] && s.charged == map[]
    requires e.id != "" && e.sender != "" && e.recipient != "" && e.payload != "" && Utf8Len(e.payload) <= 8
    requires 1 < e.expiresAt < 100 && CoupledId(e.id) != a.id
    ensures var t := Step(TINY, s, Post(e, "node", NO_GRANT, 1));
            && t.acks.Keys == {a.id, CoupledId(e.id)} && t.messages.Keys == {e.id}
            && t.messages[e.id].expiresAt == e.expiresAt && t.purges == map[] && t.charged == map[]
  {
    var f := PrepareEnvelope(TINY, e, 0, 1);
    assert Lane(s, PairKey(f)) == {};
    assert AdmitReply(TINY, s, f, "node", NO_GRANT, 1).error.None?;
  }

  lemma ThenFetch(s: State, id: string, later: nat)
    requires s.messages.Keys == {id} && s.messages[id].expiresAt <= later && s.charged == map[]
    ensures var t := Step(TINY, s, FetchMessages("r", later));
            t.messages == map[] && t.acks == s.acks && t.charged == map[] && t.purges == s.purges
  {
    SweptOfMail(s, id, later);
  }

  lemma StaleLaneState(a: Ack, e: Envelope, later: nat)
    requires a.id != "" && a.messageId != "" && a.sender != "" && a.recipient != "" && a.kind == NodeReceived
    requires a.createdAt != NOT_SET && 1 < a.expiresAt < 100
    requires e.id != "" && e.sender != "" && e.recipient != "" && e.payload != "" && Utf8Len(e.payload) <= 8
    requires 1 < e.expiresAt <= later && e.expiresAt < 100 && CoupledId(e.id) != a.id
    ensures var s := Exec(TINY, StaleLane(a, e, later));
            && s.acks.Keys == {a.id, CoupledId(e.id)}
            && s.messages == map[] && s.charged == map[] && s.purges == map[]
  {
    var x, y := Acknowledge(a, "node", NO_GRANT, TRUSTED, 1), Post(e, "node", NO_GRANT, 1);
    ExecThree(TINY, x, y, FetchMessages("r", later));
    FirstAck(a);
    var s1 := Step(TINY, EMPTY, x);
    ThenPost(s1, a, e);
    ThenFetch(Step(TINY, s1, y), e.id, later);
  }

  lemma FullLaneRefuses(s: State, x: string, y: string, f: Envelope, now: nat)
    requires s.acks.Keys == {x, y} && x != y && s.messages == map[] && s.charged == map[] && s.purges == map[]
    requires EnvelopeError(TINY, f, now).None? && CoupledId(f.id) !in s.acks
    ensures AdmissionError(TINY, s, f, NO_GRANT, now).None?
    ensures AdmitReply(TINY, s, f, "node", NO_GRANT, now) == PostReply(None, Some(QueueFull))
  {
    assert |s.acks| == |s.acks.Keys| == 2;
    assert Lane(s, PairKey(f)) == {};
  }

  /** So the promise that ack pressure never refuses a post does not hold between
      sweeps of the ack lane: every such run ends with a refusal. */
  lemma AckPressureCanRefuse(a: Ack, e: Envelope, f: Envelope, later: nat)
    requires a.id != "" && a.messageId != "" && a.sender != "" && a.recipient != "" && a.kind == NodeReceived
    requires a.createdAt != NOT_SET && 1 < a.expiresAt < 100
    requires e.id != "" && e.sender != "" && e.recipient != "" && e.payload != "" && Utf8Len(e.payload) <= 8
    requires 1 < e.expiresAt <= later && e.expiresAt < 100 && CoupledId(e.id) != a.id
    requires EnvelopeError(TINY, f, later).None? && CoupledId(f.id) !in {a.id, CoupledId(e.id)}
    ensures var s := Exec(TINY, StaleLane(a, e, later));
            && AdmissionError(TINY, s, f, NO_GRANT, later).None? && CoupledId(f.id) !in s.acks
            && AdmitReply(TINY, s, f, "node", NO_GRANT, later) == PostReply(None, Some(QueueFull))
  {
    StaleLaneState(a, e, later);
    FullLaneRefuses(Exec(TINY, StaleLane(a, e, later)), a.id, CoupledId(e.id), f, later);
  }

  lemma SweptOfMail(s: State, id: string, later: nat)
    requires s.messages.Keys == {id} && s.messages[id].expiresAt <= later
    ensures SweepMessages(s, later).messages == map[] && SweepMessages(s, later).acks == s.acks
    ensures SweepMessages(s, later).charged == s.charged - {id}
  {
    assert ExpiredMessages(s, later) == {id};
  }
}
