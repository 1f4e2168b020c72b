/** The queue store's bookkeeping, and the rule by which a property is shown to
    hold in every reachable state. */
module QueueInvariant {
  import opened Sizes
  import opened QueueModel
  import opened QueueMoves
  import opened QueueSteps

  /** Every stored record is filed under its own nonempty id and has an expiry. */
  ghost predicate Filed(messages: map<string, Envelope>, acks: map<string, Ack>, charged: map<string, nat>) {
    && (forall m {:trigger messages[m]} | m in messages :: m != "" && messages[m].id == m && 0 < messages[m].expiresAt)
    && (forall a {:trigger acks[a]} | a in acks :: a != "" && acks[a].id == a && acks[a].messageId != ""
                             && 0 < acks[a].expiresAt && ValidAckType(acks[a].kind))
    && charged.Keys <= messages.Keys
    && (forall m {:trigger charged[m]} | m in charged :: charged[m] != 0)
  }

  /** `owner` says which record each arrival number belongs to. */
  ghost predicate Owners(messageSeq: map<string, nat>, ackSeq: map<string, nat>, owner: map<nat, Ref>) {
    && (forall m {:trigger messageSeq[m]} | m in messageSeq ::
         messageSeq[m] in owner && owner[messageSeq[m]] == MessageRef(m))
    && (forall a {:trigger ackSeq[a]} | a in ackSeq :: ackSeq[a] in owner && owner[ackSeq[a]] == AckRef(a))
  }

  /** Arrival numbers: no number used twice across the two maps, none above the
      counter. */
  ghost predicate Numbered(seqNo: nat, messageSeq: map<string, nat>, ackSeq: map<string, nat>) {
    && (forall m {:trigger messageSeq[m]} | m in messageSeq :: 0 < messageSeq[m] <= seqNo)
    && (forall a {:trigger ackSeq[a]} | a in ackSeq :: 0 < ackSeq[a] <= seqNo)
    && (exists owner :: Owners(messageSeq, ackSeq, owner))
  }

  /** One arrival number per record. */
  ghost predicate Sequenced(s: State) {
    && s.messageSeq.Keys == s.messages.Keys
    && s.ackSeq.Keys == s.acks.Keys
    && Numbered(s.seqNo, s.messageSeq, s.ackSeq)
  }

  /** A message id is bound to a tag exactly while some record names it. */
  ghost predicate Bound(messages: map<string, Envelope>, acks: map<string, Ack>, tags: map<string, string>) {
    forall id {:trigger Named(messages, acks, id)} :: id in tags <==> Named(messages, acks, id)
  }

  ghost predicate Sound(s: State) {
    && Filed(s.messages, s.acks, s.charged)
    && Sequenced(s)
    && Bound(s.messages, s.acks, s.tags)
  }

  // ------------------------------------------------------- primitive moves

  lemma DropKeepsSequenced(s: State, ms: set<string>, as_: set<string>)
    requires Sequenced(s)
    ensures Sequenced(Drop(s, ms, as_))
  {
    var owner :| Owners(s.messageSeq, s.ackSeq, owner);
    assert Owners(s.messageSeq - ms, s.ackSeq - as_, owner);
  }

  lemma DropKeepsBound(s: State, ms: set<string>, as_: set<string>)
    requires Bound(s.messages, s.acks, s.tags)
    ensures var t := Drop(s, ms, as_); Bound(t.messages, t.acks, t.tags)
  {
    var t := Drop(s, ms, as_);
    forall id
      ensures id in t.tags <==> Named(t.messages, t.acks, id)
    {
      if Named(t.messages, t.acks, id) {
        assert Named(s.messages, s.acks, id);
      }
    }
  }

  lemma DropKeepsSound(s: State, ms: set<string>, as_: set<string>)
    requires Sound(s)
    ensures Sound(Drop(s, ms, as_))
  {
    DropKeepsSequenced(s, ms, as_);
    DropKeepsBound(s, ms, as_);
  }

  lemma NumberMessage(seqNo: nat, messageSeq: map<string, nat>, ackSeq: map<string, nat>, id: string)
    requires Numbered(seqNo, messageSeq, ackSeq) && id !in messageSeq
    ensures Numbered(seqNo + 1, messageSeq[id := seqNo + 1], ackSeq)
  {
    var owner :| Owners(messageSeq, ackSeq, owner);
    assert Owners(messageSeq[id := seqNo + 1], ackSeq, owner[seqNo + 1 := MessageRef(id)]);
  }

  lemma NumberAck(seqNo: nat, messageSeq: map<string, nat>, ackSeq: map<string, nat>, id: string)
    requires Numbered(seqNo, messageSeq, ackSeq) && id !in ackSeq
    ensures Numbered(seqNo + 1, messageSeq, ackSeq[id := seqNo + 1])
  {
    var owner :| Owners(messageSeq, ackSeq, owner);
    assert Owners(messageSeq, ackSeq[id := seqNo + 1], owner[seqNo + 1 := AckRef(id)]);
  }

  lemma InsertMessageKeepsSequenced(s: State, e: Envelope, credential: nat)
    requires Sequenced(s) && e.id !in s.messages
    ensures Sequenced(InsertMessage(s, e, credential))
  {
    NumberMessage(s.seqNo, s.messageSeq, s.ackSeq, e.id);
  }

  lemma InsertMessageKeepsFiled(s: State, e: Envelope, credential: nat)
    requires Filed(s.messages, s.acks, s.charged) && e.id != "" && 0 < e.expiresAt
    ensures var t := InsertMessage(s, e, credential); Filed(t.messages, t.acks, t.charged)
  {
  }

  lemma InsertMessageKeepsBound(s: State, e: Envelope, credential: nat)
    requires Bound(s.messages, s.acks, s.tags)
    requires e.id != ""
    ensures var t := InsertMessage(s, e, credential); Bound(t.messages, t.acks, t.tags)
  {
    var t := InsertMessage(s, e, credential);
    forall id
      ensures id in t.tags <==> Named(t.messages, t.acks, id)
    {
      assert Named(t.messages, s.acks, id) <==> Named(s.messages, s.acks, id) || id == e.id;
    }
  }

  lemma InsertMessageKeepsSound(s: State, e: Envelope, credential: nat)
    requires Sound(s)
    requires e.id !in s.messages && e.id != "" && 0 < e.expiresAt
    ensures Sound(InsertMessage(s, e, credential))
  {
    InsertMessageKeepsSequenced(s, e, credential);
    InsertMessageKeepsFiled(s, e, credential);
    InsertMessageKeepsBound(s, e, credential);
  }

  lemma InsertAckKeepsSequenced(s: State, a: Ack)
    requires Sequenced(s) && a.id !in s.acks
    ensures Sequenced(InsertAck(s, a))
  {
    NumberAck(s.seqNo, s.messageSeq, s.ackSeq, a.id);
  }

  lemma InsertAckKeepsBound(s: State, a: Ack)
    requires Bound(s.messages, s.acks, s.tags)
    requires a.id !in s.acks && a.messageId != ""
    ensures var t := InsertAck(s, a); Bound(t.messages, t.acks, t.tags)
  {
    var t := InsertAck(s, a);
    forall id
      ensures id in t.tags <==> Named(t.messages, t.acks, id)
    {
      assert t.acks[a.id].messageId == a.messageId;
      if Named(s.messages, s.acks, id) && id !in s.messages {
        var b :| b in s.acks && s.acks[b].messageId == id;
        assert t.acks[b].messageId == id;
      }
    }
  }

  lemma InsertAckKeepsSound(s: State, a: Ack)
    requires Sound(s)
    requires a.id !in s.acks && a.id != "" && a.messageId != "" && 0 < a.expiresAt && ValidAckType(a.kind)
    ensures Sound(InsertAck(s, a))
  {
    InsertAckKeepsSequenced(s, a);
    InsertAckKeepsBound(s, a);
  }

  /** Removing in two rounds is removing once. */
  lemma DropTwice(s: State, ms: set<string>, as_: set<string>, ms': set<string>, as_': set<string>)
    ensures Drop(Drop(s, ms, as_), ms', as_') == Drop(s, ms + ms', as_ + as_')
  {
    var t, u := Drop(Drop(s, ms, as_), ms', as_'), Drop(s, ms + ms', as_ + as_');
    MinusTwice(s.messages, ms, ms');
    MinusTwice(s.acks, as_, as_');
    MinusTwice(s.messageSeq, ms, ms');
    MinusTwice(s.ackSeq, as_, as_');
    MinusTwice(s.charged, ms, ms');
    forall id
      ensures id in t.tags <==> id in u.tags
    {
      if id in u.tags && id !in t.tags {
        assert Named(u.messages, u.acks, id);
        assert Named(s.messages - ms, s.acks - as_, id);
      }
    }
    assert t.tags == u.tags;
  }

  lemma MinusAbsent<V>(m: map<string, V>, ids: set<string>)
    requires forall i | i in ids :: i !in m
    ensures m - ids == m
  {
  }

  /** Removing records that are not there changes nothing. */
  lemma DropAbsent(s: State, ms: set<string>, as_: set<string>)
    requires Sound(s)
    requires forall m | m in ms :: m !in s.messages
    requires forall a | a in as_ :: a !in s.acks
    ensures Drop(s, ms, as_) == s
  {
    MinusAbsent(s.messages, ms);
    MinusAbsent(s.acks, as_);
    MinusAbsent(s.messageSeq, ms);
    MinusAbsent(s.ackSeq, as_);
    MinusAbsent(s.charged, ms);
    assert Drop(s, ms, as_).tags == s.tags;
  }

  // ------------------------------------------------------------------ moves

  lemma StoreAckKeepsSound(s: State, a: Ack)
    requires Sound(s)
    requires a.id !in s.acks && a.id != "" && a.messageId != "" && 0 < a.expiresAt && ValidAckType(a.kind)
    ensures Sound(StoreAck(s, a))
  {
    InsertAckKeepsSound(s, a);
    DropKeepsSound(InsertAck(s, a), {a.messageId}, {});
  }

  lemma QueueKeepsSound(cfg: Config, s: State, now: nat, mv: Move)
    requires Sound(s) && mv.Queue? && LegalQueue(cfg, s, now, mv)
    ensures Sound(Apply(s, mv))
  {
    CoupledIdNonempty(mv.e.id);
    InsertAckKeepsSound(s, mv.a);
    InsertMessageKeepsSound(InsertAck(s, mv.a), mv.e, mv.credential);
  }

  lemma CoupledIdNonempty(id: string)
    ensures CoupledId(id) != ""
  {
  }

  lemma MoveKeepsSound(cfg: Config, s: State, now: nat, mv: Move)
    requires Sound(s) && Legal(cfg, s, now, mv)
    ensures Sound(Apply(s, mv))
  {
    match mv
    case Queue(_, _, _) => QueueKeepsSound(cfg, s, now, mv);
    case Adopt(e) => InsertMessageKeepsSound(s, e, 0);
    case Record(a) => StoreAckKeepsSound(s, a);
    case Expire(ms, as_) => DropKeepsSound(s, ms, as_);
    case Bury(_, ms, as_) => DropKeepsSound(s, ms, as_);
    case Entomb(_) =>
  }

  // ------------------------------------------------------------------- caps

  ghost predicate Capped(cfg: Config, s: State) {
    |s.messages| <= cfg.maxMessages && |s.acks| <= cfg.maxAcks && TombsFit(cfg, s.purges)
  }

  lemma DropKeepsCapped(cfg: Config, s: State, ms: set<string>, as_: set<string>)
    requires Capped(cfg, s)
    ensures Capped(cfg, Drop(s, ms, as_))
  {
    SubmapSize(s.messages - ms, s.messages);
    SubmapSize(s.acks - as_, s.acks);
  }

  lemma StoreAckKeepsCapped(cfg: Config, s: State, a: Ack)
    requires Capped(cfg, s) && |s.acks| < cfg.maxAcks
    ensures Capped(cfg, StoreAck(s, a))
  {
    assert Capped(cfg, InsertAck(s, a));
    DropKeepsCapped(cfg, InsertAck(s, a), {a.messageId}, {});
  }

  lemma MoveKeepsCapped(cfg: Config, s: State, now: nat, mv: Move)
    requires cfg.Valid() && Capped(cfg, s) && Legal(cfg, s, now, mv)
    ensures Capped(cfg, Apply(s, mv))
  {
    match mv
    case Queue(_, _, _) =>
    case Adopt(_) =>
    case Record(a) => StoreAckKeepsCapped(cfg, s, a);
    case Expire(ms, as_) => DropKeepsCapped(cfg, s, ms, as_);
    case Bury(_, ms, as_) => DropKeepsCapped(cfg, s, ms, as_);
    case Entomb(_) =>
  }

  // -------------------------------------------------------- induction rule

  ghost predicate Inv(cfg: Config, s: State) { Sound(s) && Capped(cfg, s) }

  /** Every legal move, made no later than the clock, keeps `P`. */
  ghost predicate KeptByMoves(cfg: Config, P: (nat, State) -> bool) {
    forall clock: nat, s: State, now: nat, mv: Move ::
      Inv(cfg, s) && P(clock, s) && now <= clock && Legal(cfg, s, now, mv) ==> P(clock, Apply(s, mv))
  }

  /** `P` does not stop holding because time passes. */
  ghost predicate KeptByTime(P: (nat, State) -> bool) {
    forall c: nat, d: nat, s: State :: c <= d && P(c, s) ==> P(d, s)
  }

  lemma {:induction false} PlayKeeps(cfg: Config, s: State, now: nat, mvs: seq<Move>, clock: nat,
                                     P: (nat, State) -> bool)
    requires cfg.Valid() && Inv(cfg, s) && AllLegal(cfg, s, now, mvs) && now <= clock
    requires KeptByMoves(cfg, P) && P(clock, s)
    ensures Inv(cfg, Play(s, mvs)) && P(clock, Play(s, mvs))
  {
    if mvs != [] {
      var t, mv := Play(s, mvs[..|mvs| - 1]), mvs[|mvs| - 1];
      PlayKeeps(cfg, s, now, mvs[..|mvs| - 1], clock, P);
      MayMoveIs(cfg, t, now, mv);
      MoveKeepsSound(cfg, t, now, mv);
      MoveKeepsCapped(cfg, t, now, mv);
    }
  }

  lemma StepKeeps(cfg: Config, s: State, op: Op, clock: nat, P: (nat, State) -> bool)
    requires cfg.Valid() && Inv(cfg, s) && op.now <= clock
    requires KeptByMoves(cfg, P) && P(clock, s)
    ensures Inv(cfg, Step(cfg, s, op)) && P(clock, Step(cfg, s, op))
  {
    var mvs := StepMoves(cfg, s, op);
    PlayKeeps(cfg, s, op.now, mvs, clock, P);
  }

  lemma EmptyInv(cfg: Config)
    requires cfg.Valid()
    ensures Inv(cfg, EMPTY)
  {
    assert Owners(map[], map[], map[]);
  }

  /** A property kept by moves and by time holds after every run from boot. */
  lemma {:induction false} RunKeeps(cfg: Config, ops: seq<Op>, P: (nat, State) -> bool)
    requires cfg.Valid() && KeptByMoves(cfg, P) && KeptByTime(P) && P(0, EMPTY)
    ensures Inv(cfg, Exec(cfg, ops)) && P(Clock(ops), Exec(cfg, ops))
  {
    if ops == [] {
      EmptyInv(cfg);
    } else {
      RunKeeps(cfg, ops[..|ops| - 1], P);
      StepKeeps(cfg, Exec(cfg, ops[..|ops| - 1]), ops[|ops| - 1], Clock(ops), P);
    }
  }

  /** In every reachable state the records are filed under their own ids, arrival
      numbers are distinct and below the counter, an id is bound exactly while some
      record names it, and every table is within its cap. */
  lemma Reachable(cfg: Config, ops: seq<Op>)
    requires cfg.Valid()
    ensures Inv(cfg, Exec(cfg, ops))
  {
    RunKeeps(cfg, ops, (_, _) => true);
  }
}
