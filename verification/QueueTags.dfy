/** The write-authorization binding of a message id is write-once: from the first
    nonempty tag on, it stays until the last record naming the id has left. */
module QueueTags {
  import opened QueueModel
  import opened QueueMoves
  import opened QueueSteps
  import opened QueueInvariant

  /** `id` is bound to the nonempty tag `tag`. */
  predicate BoundTo(s: State, id: string, tag: string) {
    tag != "" && id in s.tags && s.tags[id] == tag
  }

  lemma InsertsKeepTag(s: State, id: string, tag: string, e: Envelope, a: Ack, credential: nat)
    requires BoundTo(s, id, tag)
    ensures BoundTo(InsertMessage(s, e, credential), id, tag)
    ensures BoundTo(InsertAck(s, a), id, tag)
  {
  }

  /** A binding that outlives a removal is not changed by it. */
  lemma DropKeepsTag(s: State, ms: set<string>, as_: set<string>, id: string, tag: string)
    requires BoundTo(s, id, tag)
    ensures id in Drop(s, ms, as_).tags ==> BoundTo(Drop(s, ms, as_), id, tag)
  {
  }

  /** Recording an ack releases no binding: the ack itself names the message whose
      envelope it removes. */
  lemma RecordKeepsTag(s: State, a: Ack, id: string, tag: string)
    requires Sound(s) && BoundTo(s, id, tag) && a.id !in s.acks && a.messageId != ""
    ensures BoundTo(StoreAck(s, a), id, tag)
  {
    var t := InsertAck(s, a);
    InsertsKeepTag(s, id, tag, AnyEnvelope(), a, 0);
    InsertAckKeepsBound(s, a);
    if Terminal(a.kind) {
      assert t.acks[a.id].messageId == a.messageId;
      StillNamed(t, a.messageId, a.id, id);
      DropKeepsTag(t, {a.messageId}, {}, id, tag);
    }
  }

  ghost function AnyEnvelope(): Envelope {
    Envelope("", "", "", 0, 0, "", "", "", "", map[], "", "")
  }

  /** With an ack naming `m` stored, removing message `m` leaves every id named that
      was named. */
  lemma StillNamed(t: State, m: string, a: string, id: string)
    requires a in t.acks && t.acks[a].messageId == m && Named(t.messages, t.acks, id)
    ensures Named(t.messages - {m}, t.acks - {}, id)
  {
    assert t.acks - {} == t.acks;
    if id == m {
      assert t.acks[a].messageId == id;
    }
  }

  /** No single move changes a nonempty binding: it keeps it or releases it. */
  lemma MoveKeepsTag(cfg: Config, s: State, now: nat, mv: Move, id: string, tag: string)
    requires Sound(s) && Legal(cfg, s, now, mv) && BoundTo(s, id, tag)
    ensures id in Apply(s, mv).tags ==> BoundTo(Apply(s, mv), id, tag)
    ensures mv.Queue? || mv.Adopt? || mv.Record? ==> BoundTo(Apply(s, mv), id, tag)
  {
    match mv
    case Queue(e, a, credential) =>
      InsertsKeepTag(s, id, tag, e, a, 0);
      InsertsKeepTag(InsertAck(s, a), id, tag, e, a, credential);
    case Adopt(e) => InsertsKeepTag(s, id, tag, e, AnyAck(), 0);
    case Record(a) => RecordKeepsTag(s, a, id, tag);
    case Expire(ms, as_) => DropKeepsTag(s, ms, as_, id, tag);
    case Bury(_, ms, as_) => DropKeepsTag(s, ms, as_, id, tag);
    case Entomb(_) =>
  }

  ghost function AnyAck(): Ack {
    Ack("", "", "", "", NodeReceived, 0, 0, "", "", "", "", "")
  }

  predicate Removal(mv: Move) { mv.Expire? || mv.Bury? || mv.Entomb? }

  lemma RemovalBindsNothing(s: State, mv: Move, id: string)
    requires Removal(mv) && id in Apply(s, mv).tags
    ensures id in s.tags
  {
  }

  /** Removals alone never rebind. */
  lemma {:induction false} RemovalsKeepTag(cfg: Config, s: State, now: nat, mvs: seq<Move>, id: string, tag: string)
    requires cfg.Valid() && Inv(cfg, s) && AllLegal(cfg, s, now, mvs) && BoundTo(s, id, tag)
    requires forall mv | mv in mvs :: Removal(mv)
    ensures id in Play(s, mvs).tags ==> BoundTo(Play(s, mvs), id, tag)
  {
    if mvs != [] && id in Play(s, mvs).tags {
      var rest, mv := mvs[..|mvs| - 1], mvs[|mvs| - 1];
      RemovalsKeepTag(cfg, s, now, rest, id, tag);
      PlayKeeps(cfg, s, now, rest, now, (_, _) => true);
      RemovalBindsNothing(Play(s, rest), mv, id);
      MayMoveIs(cfg, Play(s, rest), now, mv);
      MoveKeepsTag(cfg, Play(s, rest), now, mv, id, tag);
    }
  }

  /** Additions keep every nonempty binding. */
  lemma {:induction false} AdditionsKeepTag(cfg: Config, s: State, now: nat, mvs: seq<Move>, id: string, tag: string)
    requires cfg.Valid() && Inv(cfg, s) && AllLegal(cfg, s, now, mvs) && BoundTo(s, id, tag)
    requires forall mv | mv in mvs :: mv.Queue? || mv.Adopt? || mv.Record?
    ensures BoundTo(Play(s, mvs), id, tag)
  {
    if mvs != [] {
      var rest, mv := mvs[..|mvs| - 1], mvs[|mvs| - 1];
      AdditionsKeepTag(cfg, s, now, rest, id, tag);
      PlayKeeps(cfg, s, now, rest, now, (_, _) => true);
      MayMoveIs(cfg, Play(s, rest), now, mv);
      MoveKeepsTag(cfg, Play(s, rest), now, mv, id, tag);
    }
  }

  // ------------------------------------------------------------------ calls

  lemma ImportKeepsTag(cfg: Config, s: State, page: Page, now: nat, id: string, tag: string)
    requires cfg.Valid() && Inv(cfg, s) && BoundTo(s, id, tag)
    requires id in ImportPurges(cfg, s, page.purges, now).tags
    ensures BoundTo(ImportPage(cfg, s, page, now), id, tag)
  {
    var xs, ys := ImportPageMoves(cfg, s, page, now);
    RemovalsKeepTag(cfg, s, now, xs, id, tag);
    PlayKeeps(cfg, s, now, xs, now, (_, _) => true);
    AdditionsKeepTag(cfg, ImportPurges(cfg, s, page.purges, now), now, ys, id, tag);
  }

  /** The call leaves some record naming `id` in place throughout.  Only the purge
      phase of an import can take the last one away and let a later phase of the
      same call bring the id back. */
  ghost predicate KeepsNaming(cfg: Config, s: State, op: Op, id: string) {
    && id in Step(cfg, s, op).tags
    && (op.Import? ==> id in ImportPurges(cfg, s, op.page.purges, op.now).tags)
  }

  lemma StepKeepsTag(cfg: Config, s: State, op: Op, id: string, tag: string)
    requires cfg.Valid() && Inv(cfg, s) && BoundTo(s, id, tag) && KeepsNaming(cfg, s, op, id)
    ensures BoundTo(Step(cfg, s, op), id, tag)
  {
    if op.Import? {
      ImportKeepsTag(cfg, s, op.page, op.now, id, tag);
    } else if op.Post? || op.Acknowledge? {
      PostedKeepsTag(cfg, s, op, id, tag);
    } else {
      var mvs := StepMoves(cfg, s, op);
      RemovalsKeepTag(cfg, s, op.now, mvs, id, tag);
    }
  }

  lemma PostedKeepsTag(cfg: Config, s: State, op: Op, id: string, tag: string)
    requires cfg.Valid() && Inv(cfg, s) && BoundTo(s, id, tag) && (op.Post? || op.Acknowledge?)
    ensures BoundTo(Step(cfg, s, op), id, tag)
  {
    var mvs := StepMoves(cfg, s, op);
    AllAdditions(cfg, op, mvs);
    AdditionsKeepTag(cfg, s, op.now, mvs, id, tag);
    SameTag(Play(s, mvs), Step(cfg, s, op), id, tag);
  }

  lemma AllAdditions(cfg: Config, op: Op, mvs: seq<Move>)
    requires AllJustified(cfg, op, mvs) && (op.Post? || op.Acknowledge?)
    ensures forall mv | mv in mvs :: mv.Queue? || mv.Adopt? || mv.Record?
  {
    forall mv | mv in mvs ensures mv.Queue? || mv.Record? { assert Justified(cfg, op, mv); }
  }

  lemma SameTag(s: State, t: State, id: string, tag: string)
    requires s == t && BoundTo(s, id, tag)
    ensures BoundTo(t, id, tag)
  {
  }

  /** Over every run: once a message id is bound to a nonempty tag it stays bound to
      that tag for as long as records naming it remain, the envelope's own removal
      included. */
  lemma {:induction false} TagIsWriteOnce(cfg: Config, ops: seq<Op>, i: nat, j: nat, id: string, tag: string)
    requires cfg.Valid() && i <= j <= |ops| && BoundTo(Exec(cfg, ops[..i]), id, tag)
    requires forall k {:trigger ops[k]} | i <= k < j :: KeepsNaming(cfg, Exec(cfg, ops[..k]), ops[k], id)
    ensures BoundTo(Exec(cfg, ops[..j]), id, tag)
    decreases j - i
  {
    if i < j {
      TagIsWriteOnce(cfg, ops, i, j - 1, id, tag);
      assert KeepsNaming(cfg, Exec(cfg, ops[..j - 1]), ops[j - 1], id);
      CallKeepsTag(cfg, ops[..j], ops[..j - 1], ops[j - 1], id, tag);
    }
  }

  lemma CallKeepsTag(cfg: Config, all: seq<Op>, ops: seq<Op>, op: Op, id: string, tag: string)
    requires cfg.Valid() && all == ops + [op] && BoundTo(Exec(cfg, ops), id, tag)
             && KeepsNaming(cfg, Exec(cfg, ops), op, id)
    ensures BoundTo(Exec(cfg, all), id, tag)
  {
    Reachable(cfg, ops);
    assert all[..|ops|] == ops;
    StepKeepsTag(cfg, Exec(cfg, ops), op, id, tag);
  }

  /** So every caller-posted ack accepted for that id in the meantime was posted by
      a caller whose proof matches the first tag. */
  lemma AcceptedAckMatchesFirstTag(cfg: Config, ops: seq<Op>, i: nat, j: nat, id: string, tag: string)
    requires cfg.Valid() && i <= j < |ops| && BoundTo(Exec(cfg, ops[..i]), id, tag)
    requires forall k {:trigger ops[k]} | i <= k < j :: KeepsNaming(cfg, Exec(cfg, ops[..k]), ops[k], id)
    requires ops[j].Acknowledge? && ops[j].ack.messageId == id
    requires Exec(cfg, ops[..j + 1]) != Exec(cfg, ops[..j])
    ensures ops[j].auth.Permits(tag)
  {
    TagIsWriteOnce(cfg, ops, i, j, id, tag);
    assert ops[..j + 1][..j] == ops[..j];
    AcceptedAckMatchesTag(cfg, Exec(cfg, ops[..j]), ops[j]);
  }

  lemma AcceptedAckMatchesTag(cfg: Config, s: State, op: Op)
    requires op.Acknowledge? && Step(cfg, s, op) != s && op.ack.messageId in s.tags
    ensures op.auth.Permits(s.tags[op.ack.messageId])
  {
    var a := PreparePostedAck(cfg, s, op.ack, op.nodeId, op.grant, op.now);
    assert PostAckError(cfg, s, a, op.auth, op.now).None?;
  }
}
