/** Every operation of the queue store is a short list of legal moves.  A move is
    one change of the records; what makes it legal is what the source has checked
    by the time it makes that change. */
module QueueMoves {
  import opened Common
  import opened QueueModel

  datatype Move =
    | Queue(e: Envelope, a: Ack, credential: nat)            // a post and its coupled ack
    | Adopt(e: Envelope)                                     // a replicated envelope
    | Record(a: Ack)                                         // a posted or replicated ack
    | Expire(ms: set<string>, as_: set<string>)              // a sweep
    | Bury(hash: string, ms: set<string>, as_: set<string>)  // an owner purge
    | Entomb(purges: map<string, Purge>)                     // the tombstone table changes

  ghost function Apply(s: State, mv: Move): State {
    match mv
    case Queue(e, a, credential) => InsertMessage(InsertAck(s, a), e, credential)
    case Adopt(e) => InsertMessage(s, e, 0)
    case Record(a) => StoreAck(s, a)
    case Expire(ms, as_) => Drop(s, ms, as_)
    case Bury(_, ms, as_) => Drop(s, ms, as_)
    case Entomb(purges) => s.(purges := purges)
  }

  /** What a move does to the two record maps. */
  function MessagesAfter(messages: map<string, Envelope>, mv: Move): map<string, Envelope> {
    match mv
    case Queue(e, _, _) => messages[e.id := e]
    case Adopt(e) => messages[e.id := e]
    case Record(a) => if Terminal(a.kind) then messages - {a.messageId} else messages
    case Expire(ms, _) => messages - ms
    case Bury(_, ms, _) => messages - ms
    case Entomb(_) => messages
  }

  function AcksAfter(acks: map<string, Ack>, mv: Move): map<string, Ack> {
    match mv
    case Queue(_, a, _) => acks[a.id := a]
    case Adopt(_) => acks
    case Record(a) => acks[a.id := a]
    case Expire(_, as_) => acks - as_
    case Bury(_, _, as_) => acks - as_
    case Entomb(_) => acks
  }

  lemma ApplyRecords(s: State, mv: Move)
    ensures Apply(s, mv).messages == MessagesAfter(s.messages, mv)
    ensures Apply(s, mv).acks == AcksAfter(s.acks, mv)
    ensures Apply(s, mv).purges == if mv.Entomb? then mv.purges else s.purges
  {
    match mv
    case Queue(_, _, _) =>
    case Adopt(_) =>
    case Record(a) => StoreAckRecords(s, a);
    case Expire(ms, as_) => DropRecords(s, ms, as_);
    case Bury(_, ms, as_) => DropRecords(s, ms, as_);
    case Entomb(_) =>
  }

  lemma DropRecords(s: State, ms: set<string>, as_: set<string>)
    ensures var t := Drop(s, ms, as_); t.messages == s.messages - ms && t.acks == s.acks - as_ && t.purges == s.purges
  {
  }

  lemma StoreAckRecords(s: State, a: Ack)
    ensures var t := StoreAck(s, a);
            && t.messages == (if Terminal(a.kind) then s.messages - {a.messageId} else s.messages)
            && t.acks == s.acks[a.id := a] && t.purges == s.purges
  {
    DropRecords(InsertAck(s, a), {a.messageId}, {});
    assert s.acks[a.id := a] - {} == s.acks[a.id := a];
  }

  predicate LivesWithin(cfg: Config, expiresAt: Time, now: nat) {
    now < expiresAt <= now + cfg.maxTTL
  }

  predicate LegalQueue(cfg: Config, s: State, now: nat, mv: Move)
    requires mv.Queue?
  {
    && mv.e.id != "" && mv.e.sender != "" && mv.e.recipient != ""
    && mv.e.id !in s.messages && !Entombed(s, mv.e, now)
    && LivesWithin(cfg, mv.e.expiresAt, now)
    && mv.a.id == CoupledId(mv.e.id) && mv.a.messageId == mv.e.id && mv.a.kind == NodeReceived
    && mv.a.expiresAt == mv.e.expiresAt && mv.a.recipientTag == mv.e.recipientTag
    && mv.a.id !in s.acks
    && |s.messages| < cfg.maxMessages && |s.acks| < cfg.maxAcks
  }

  ghost predicate LegalAdopt(cfg: Config, s: State, now: nat, mv: Move)
    requires mv.Adopt?
  {
    && mv.e.id != "" && mv.e.sender != "" && mv.e.recipient != ""
    && mv.e.id !in s.messages && !Entombed(s, mv.e, now)
    && LivesWithin(cfg, mv.e.expiresAt, now)
    && !HasTerminalAck(s, mv.e.id)
    && |s.messages| < cfg.maxMessages
  }

  predicate LegalRecord(cfg: Config, s: State, now: nat, mv: Move)
    requires mv.Record?
  {
    && mv.a.id != "" && mv.a.messageId != "" && ValidAckType(mv.a.kind) && mv.a.id !in s.acks
    && LivesWithin(cfg, mv.a.expiresAt, now)
    && |s.acks| < cfg.ExternalAckCapacity()
  }

  predicate LegalExpire(s: State, now: nat, mv: Move)
    requires mv.Expire?
  {
    && (forall m | m in mv.ms :: m in s.messages && s.messages[m].expiresAt <= now)
    && (forall a | a in mv.as_ :: a in s.acks && s.acks[a].expiresAt <= now)
  }

  ghost predicate LegalBury(s: State, mv: Move)
    requires mv.Bury?
  {
    && mv.hash != ""
    && mv.ms == MessagesWithHash(s, mv.hash)
    && mv.as_ == AcksNaming(s, mv.ms)
  }

  /** A tombstone is only set once no mail of its owner is queued. */
  predicate LegalEntomb(cfg: Config, s: State, mv: Move)
    requires mv.Entomb?
  {
    && |mv.purges| <= cfg.maxPurges
    && (forall h | h in mv.purges :: mv.purges[h].hash == h)
    && (forall m | m in s.messages ::
          var h := PurgeHash(s.messages[m]);
          h != "" && h in mv.purges ==> h in s.purges && mv.purges[h] == s.purges[h])
  }

  ghost predicate Legal(cfg: Config, s: State, now: nat, mv: Move) {
    match mv
    case Queue(_, _, _) => LegalQueue(cfg, s, now, mv)
    case Adopt(_) => LegalAdopt(cfg, s, now, mv)
    case Record(_) => LegalRecord(cfg, s, now, mv)
    case Expire(_, _) => LegalExpire(s, now, mv)
    case Bury(_, _, _) => LegalBury(s, mv)
    case Entomb(_) => LegalEntomb(cfg, s, mv)
  }

  /** The same; opened where a proof needs to know why the move is legal. */
  ghost predicate MayMove(cfg: Config, s: State, now: nat, mv: Move) {
    forall i {:trigger Unsealed(i)} :: Unsealed(i) ==> Legal(cfg, s, now, mv)
  }

  lemma MayMoveIs(cfg: Config, s: State, now: nat, mv: Move)
    ensures MayMove(cfg, s, now, mv) <==> Legal(cfg, s, now, mv)
  {
    assert Unsealed(0);
  }

  ghost function Play(s: State, mvs: seq<Move>): State {
    if mvs == [] then s else Apply(Play(s, mvs[..|mvs| - 1]), mvs[|mvs| - 1])
  }

  ghost predicate AllLegal(cfg: Config, s: State, now: nat, mvs: seq<Move>) {
    mvs == []
    || (AllLegal(cfg, s, now, mvs[..|mvs| - 1])
        && MayMove(cfg, Play(s, mvs[..|mvs| - 1]), now, mvs[|mvs| - 1]))
  }

  /** `mvs` is a legal way from `s` to `t`. */
  ghost predicate Leads(cfg: Config, s: State, now: nat, mvs: seq<Move>, t: State) {
    AllLegal(cfg, s, now, mvs) && Play(s, mvs) == t
  }

  lemma {:induction false} PlayConcat(s: State, xs: seq<Move>, ys: seq<Move>)
    ensures Play(s, xs + ys) == Play(Play(s, xs), ys)
  {
    if ys == [] {
      assert xs + ys == xs;
    } else {
      PlayConcat(s, xs, ys[..|ys| - 1]);
      ConcatLast(xs, ys);
      PlayLast(s, xs + ys, xs + ys[..|ys| - 1], ys[|ys| - 1]);
      PlayLast(Play(s, xs), ys, ys[..|ys| - 1], ys[|ys| - 1]);
    }
  }

  lemma ConcatLast<T>(xs: seq<T>, ys: seq<T>)
    requires ys != []
    ensures ys == ys[..|ys| - 1] + [ys[|ys| - 1]] && xs + ys == xs + ys[..|ys| - 1] + [ys[|ys| - 1]]
  {
  }

  lemma PlayLast(s: State, mvs: seq<Move>, rest: seq<Move>, mv: Move)
    requires mvs == rest + [mv]
    ensures Play(s, mvs) == Apply(Play(s, rest), mv)
  {
    assert mvs[..|mvs| - 1] == rest;
  }

  lemma {:induction false} LegalConcat(cfg: Config, s: State, now: nat, xs: seq<Move>, ys: seq<Move>)
    requires AllLegal(cfg, s, now, xs) && AllLegal(cfg, Play(s, xs), now, ys)
    ensures AllLegal(cfg, s, now, xs + ys)
  {
    if ys == [] {
      assert xs + ys == xs;
    } else {
      var zs := ys[..|ys| - 1];
      LegalConcat(cfg, s, now, xs, zs);
      PlayConcat(s, xs, zs);
      assert (xs + ys)[..|xs + ys| - 1] == xs + zs;
      assert (xs + ys)[|xs + ys| - 1] == ys[|ys| - 1];
    }
  }

  lemma Chain(cfg: Config, s: State, now: nat, xs: seq<Move>, t: State, ys: seq<Move>, u: State)
    requires Leads(cfg, s, now, xs, t) && Leads(cfg, t, now, ys, u)
    ensures Leads(cfg, s, now, xs + ys, u)
  {
    PlayConcat(s, xs, ys);
    LegalConcat(cfg, s, now, xs, ys);
  }

  lemma One(cfg: Config, s: State, now: nat, mv: Move)
    requires Legal(cfg, s, now, mv)
    ensures Leads(cfg, s, now, [mv], Apply(s, mv))
  {
    MayMoveIs(cfg, s, now, mv);
    assert [mv][..0] == [];
    assert Play(s, []) == s;
  }

  lemma Stay(cfg: Config, s: State, now: nat)
    ensures Leads(cfg, s, now, [], s)
  {
  }
}
