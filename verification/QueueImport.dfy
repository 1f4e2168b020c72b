/** Importing a page twice is importing it once. */
module QueueImport {
  import opened Common
  import opened QueueModel
  import opened QueueMoves
  import opened QueueSteps
  import opened QueueInvariant

  // ------------------------------------------------------ what a page leaves

  /** Importing `p` again would only write the tombstone it already wrote. */
  ghost predicate PurgeDone(s: State, p: Purge, now: nat) {
    PurgeAcceptable(p, now) ==>
      && p.hash in s.purges && now < s.purges[p.hash].expiresAt
      && forall m | m in s.messages :: PurgeHash(s.messages[m]) != p.hash
  }

  /** Importing the prepared envelope `e` again would be refused. */
  ghost predicate MessageDone(cfg: Config, s: State, e: Envelope, now: nat) {
    || EnvelopeError(cfg, e, now).Some?
    || e.id in s.messages || Entombed(s, e, now) || HasTerminalAck(s, e.id)
  }

  /** Importing the prepared ack `a` again would be refused. */
  predicate AckDone(s: State, a: Ack, now: nat) {
    AckFieldError(a, now).Some? || a.id in s.acks
  }

  ghost predicate MessagesDone(cfg: Config, s: State, es: seq<Envelope>, now: nat) {
    forall raw | raw in es :: MessageDone(cfg, s, PrepareEnvelope(cfg, raw, 0, now), now)
  }

  ghost predicate AcksDone(cfg: Config, s: State, as_: seq<Ack>, now: nat) {
    forall raw | raw in as_ :: AckDone(s, PrepareAck(cfg, raw, 0, now), now)
  }

  ghost predicate PurgesDone(s: State, ps: seq<Purge>, now: nat) {
    forall p | p in ps :: PurgeDone(s, p, now)
  }

  // ---------------------------------------------- moves do not undo any of it

  lemma HasTerminalAckGrows(s: State, t: State, id: string)
    requires HasTerminalAck(s, id)
    requires forall a | a in s.acks :: a in t.acks && t.acks[a] == s.acks[a]
    ensures HasTerminalAck(t, id)
  {
    var a :| a in s.acks && s.acks[a].messageId == id && Terminal(s.acks[a].kind);
    assert t.acks[a] == s.acks[a];
  }

  /** Adopting an envelope and recording an ack keep messages done: an envelope that
      leaves does so under a terminal ack that stays. */
  lemma AdditionKeepsMessageDone(cfg: Config, s: State, now: nat, mv: Move, e: Envelope)
    requires Legal(cfg, s, now, mv) && (mv.Adopt? || mv.Record?) && MessageDone(cfg, s, e, now)
    ensures MessageDone(cfg, Apply(s, mv), e, now)
  {
    ApplyRecords(s, mv);
    var t := Apply(s, mv);
    if HasTerminalAck(s, e.id) {
      AdditionKeepsAcks(cfg, s, now, mv);
      HasTerminalAckGrows(s, t, e.id);
    } else if mv.Record? && Terminal(mv.a.kind) && e.id == mv.a.messageId {
      RecordedIsTerminal(s, mv.a);
    }
  }

  lemma AdditionKeepsAcks(cfg: Config, s: State, now: nat, mv: Move)
    requires Legal(cfg, s, now, mv) && (mv.Adopt? || mv.Record?)
    ensures forall a | a in s.acks :: a in Apply(s, mv).acks && Apply(s, mv).acks[a] == s.acks[a]
  {
    ApplyRecords(s, mv);
  }

  lemma RecordedIsTerminal(s: State, a: Ack)
    requires Terminal(a.kind)
    ensures HasTerminalAck(Apply(s, Record(a)), a.messageId)
  {
    ApplyRecords(s, Record(a));
    assert Apply(s, Record(a)).acks[a.id] == a;
  }

  lemma AdditionKeepsPurgeDone(cfg: Config, s: State, now: nat, mv: Move, p: Purge)
    requires Legal(cfg, s, now, mv) && (mv.Adopt? || mv.Record?) && PurgeDone(s, p, now)
    ensures PurgeDone(Apply(s, mv), p, now)
  {
    ApplyRecords(s, mv);
  }

  // -------------------------------------------------------- the first import

  /** Nothing on the page is refused for lack of room. */
  ghost predicate RoomForPurges(cfg: Config, s: State, ps: seq<Purge>, now: nat) {
    ps == [] ||
    var t, p := ImportPurges(cfg, s, ps[..|ps| - 1], now), ps[|ps| - 1];
    && RoomForPurges(cfg, s, ps[..|ps| - 1], now)
    && (PurgeAcceptable(p, now) && p.hash !in t.purges ==> |t.purges| < cfg.maxPurges)
  }

  ghost predicate RoomForMessages(cfg: Config, s: State, es: seq<Envelope>, now: nat) {
    es == [] ||
    var t := ImportMessages(cfg, s, es[..|es| - 1], now);
    && RoomForMessages(cfg, s, es[..|es| - 1], now)
    && ImportMessageError(cfg, t, PrepareEnvelope(cfg, es[|es| - 1], 0, now), now) != Some(QueueFull)
  }

  ghost predicate RoomForAcks(cfg: Config, s: State, as_: seq<Ack>, now: nat) {
    as_ == [] ||
    var t := ImportAcks(cfg, s, as_[..|as_| - 1], now);
    && RoomForAcks(cfg, s, as_[..|as_| - 1], now)
    && ImportAckError(cfg, t, PrepareAck(cfg, as_[|as_| - 1], 0, now), now) != Some(QueueFull)
  }

  ghost predicate RoomForPage(cfg: Config, s: State, page: Page, now: nat) {
    var t := ImportPurges(cfg, s, page.purges, now);
    && RoomForPurges(cfg, s, page.purges, now)
    && RoomForMessages(cfg, t, page.messages, now)
    && RoomForAcks(cfg, ImportMessages(cfg, t, page.messages, now), page.acks, now)
  }

  /** The tombstone table after a purge phase that met no full table. */
  function Overlay(purges: map<string, Purge>, ps: seq<Purge>, now: nat): map<string, Purge> {
    if ps == [] then purges
    else
      var rest, p := Overlay(purges, ps[..|ps| - 1], now), ps[|ps| - 1];
      if PurgeAcceptable(p, now) then rest[p.hash := p] else rest
  }

  lemma {:induction false} OverlayIsSum(purges: map<string, Purge>, ps: seq<Purge>, now: nat)
    ensures Overlay(purges, ps, now) == purges + Overlay(map[], ps, now)
  {
    if ps != [] { OverlayIsSum(purges, ps[..|ps| - 1], now); }
  }

  lemma OverlayTwice(purges: map<string, Purge>, ps: seq<Purge>, now: nat)
    ensures Overlay(Overlay(purges, ps, now), ps, now) == Overlay(purges, ps, now)
  {
    OverlayIsSum(purges, ps, now);
    OverlayIsSum(Overlay(purges, ps, now), ps, now);
  }

  lemma BuryLeavesPurgeDone(cfg: Config, s: State, p: Purge, now: nat)
    requires PurgeAcceptable(p, now) && (p.hash !in s.purges ==> |s.purges| < cfg.maxPurges)
    ensures PurgeDone(BuryOwner(cfg, s, p), p, now)
    ensures BuryOwner(cfg, s, p).purges == s.purges[p.hash := p]
  {
  }

  lemma BuryKeepsPurgeDone(cfg: Config, s: State, p: Purge, q: Purge, now: nat)
    requires PurgeAcceptable(p, now) && PurgeDone(s, q, now)
    ensures PurgeDone(BuryOwner(cfg, s, p), q, now)
  {
  }

  lemma {:induction false} PurgePhaseDone(cfg: Config, s: State, ps: seq<Purge>, now: nat)
    requires RoomForPurges(cfg, s, ps, now)
    ensures PurgesDone(ImportPurges(cfg, s, ps, now), ps, now)
    ensures ImportPurges(cfg, s, ps, now).purges == Overlay(s.purges, ps, now)
  {
    if ps != [] {
      var rest, p := ps[..|ps| - 1], ps[|ps| - 1];
      PurgePhaseDone(cfg, s, rest, now);
      var t := ImportPurges(cfg, s, rest, now);
      if PurgeAcceptable(p, now) {
        BuryLeavesPurgeDone(cfg, t, p, now);
        forall q | q in rest
          ensures PurgeDone(BuryOwner(cfg, t, p), q, now)
        {
          BuryKeepsPurgeDone(cfg, t, p, q, now);
        }
      }
    }
  }

  lemma ImportMessageDone(cfg: Config, s: State, raw: Envelope, now: nat)
    requires ImportMessageError(cfg, s, PrepareEnvelope(cfg, raw, 0, now), now) != Some(QueueFull)
    ensures MessageDone(cfg, ImportMessage(cfg, s, raw, now), PrepareEnvelope(cfg, raw, 0, now), now)
  {
  }

  /** What the page has settled so far stays settled under one more adoption or
      ack. */
  lemma AdditionKeepsDone(cfg: Config, s: State, now: nat, mv: Move, ps: seq<Purge>, es: seq<Envelope>)
    requires Legal(cfg, s, now, mv) && (mv.Adopt? || mv.Record?)
    requires PurgesDone(s, ps, now) && MessagesDone(cfg, s, es, now)
    ensures PurgesDone(Apply(s, mv), ps, now) && MessagesDone(cfg, Apply(s, mv), es, now)
  {
    forall p | p in ps
      ensures PurgeDone(Apply(s, mv), p, now)
    {
      AdditionKeepsPurgeDone(cfg, s, now, mv, p);
    }
    forall raw | raw in es
      ensures MessageDone(cfg, Apply(s, mv), PrepareEnvelope(cfg, raw, 0, now), now)
    {
      AdditionKeepsMessageDone(cfg, s, now, mv, PrepareEnvelope(cfg, raw, 0, now));
    }
  }

  lemma AdoptionKeepsDone(cfg: Config, s: State, raw: Envelope, now: nat, ps: seq<Purge>, es: seq<Envelope>)
    requires cfg.Valid() && PurgesDone(s, ps, now) && MessagesDone(cfg, s, es, now)
    ensures PurgesDone(ImportMessage(cfg, s, raw, now), ps, now)
    ensures MessagesDone(cfg, ImportMessage(cfg, s, raw, now), es, now)
  {
    var mvs := AdoptMessageMoves(cfg, s, raw, now);
    if mvs == [] {
      assert ImportMessage(cfg, s, raw, now) == s;
    } else {
      SingleMove(cfg, s, now, mvs[0], ImportMessage(cfg, s, raw, now));
      AdditionKeepsDone(cfg, s, now, mvs[0], ps, es);
    }
  }

  lemma SingleMove(cfg: Config, s: State, now: nat, mv: Move, t: State)
    requires Leads(cfg, s, now, [mv], t)
    ensures Legal(cfg, s, now, mv) && t == Apply(s, mv)
  {
    assert [mv][..0] == [];
    assert Play(s, []) == s;
    MayMoveIs(cfg, s, now, mv);
  }

  lemma {:induction false} MessagePhaseDone(cfg: Config, s: State, es: seq<Envelope>, now: nat, ps: seq<Purge>)
    requires cfg.Valid() && RoomForMessages(cfg, s, es, now) && PurgesDone(s, ps, now)
    ensures MessagesDone(cfg, ImportMessages(cfg, s, es, now), es, now)
    ensures PurgesDone(ImportMessages(cfg, s, es, now), ps, now)
  {
    if es != [] {
      var rest, raw := es[..|es| - 1], es[|es| - 1];
      MessagePhaseDone(cfg, s, rest, now, ps);
      var t := ImportMessages(cfg, s, rest, now);
      AdoptionKeepsDone(cfg, t, raw, now, ps, rest);
      ImportMessageDone(cfg, t, raw, now);
      assert forall e | e in es :: e in rest || e == raw;
    }
  }

  lemma RecordKeepsDone(cfg: Config, s: State, raw: Ack, now: nat, ps: seq<Purge>, es: seq<Envelope>)
    requires cfg.Valid() && PurgesDone(s, ps, now) && MessagesDone(cfg, s, es, now)
    ensures PurgesDone(ImportAck(cfg, s, raw, now), ps, now)
    ensures MessagesDone(cfg, ImportAck(cfg, s, raw, now), es, now)
  {
    var mvs := AdoptAckMoves(cfg, s, raw, now);
    if mvs == [] {
      assert ImportAck(cfg, s, raw, now) == s;
    } else {
      SingleMove(cfg, s, now, mvs[0], ImportAck(cfg, s, raw, now));
      AdditionKeepsDone(cfg, s, now, mvs[0], ps, es);
    }
  }

  lemma ImportAckDone(cfg: Config, s: State, raw: Ack, now: nat)
    requires ImportAckError(cfg, s, PrepareAck(cfg, raw, 0, now), now) != Some(QueueFull)
    ensures AckDone(ImportAck(cfg, s, raw, now), PrepareAck(cfg, raw, 0, now), now)
    ensures forall a | a in s.acks :: a in ImportAck(cfg, s, raw, now).acks
  {
    ApplyRecords(s, Record(PrepareAck(cfg, raw, 0, now)));
  }

  lemma {:induction false} AckPhaseDone(cfg: Config, s: State, as_: seq<Ack>, now: nat, ps: seq<Purge>,
                                        es: seq<Envelope>)
    requires cfg.Valid() && RoomForAcks(cfg, s, as_, now)
    requires PurgesDone(s, ps, now) && MessagesDone(cfg, s, es, now)
    ensures AcksDone(cfg, ImportAcks(cfg, s, as_, now), as_, now)
    ensures PurgesDone(ImportAcks(cfg, s, as_, now), ps, now)
    ensures MessagesDone(cfg, ImportAcks(cfg, s, as_, now), es, now)
  {
    if as_ != [] {
      var rest, raw := as_[..|as_| - 1], as_[|as_| - 1];
      AckPhaseDone(cfg, s, rest, now, ps, es);
      var t := ImportAcks(cfg, s, rest, now);
      RecordKeepsDone(cfg, t, raw, now, ps, es);
      ImportAckDone(cfg, t, raw, now);
      assert forall a | a in as_ :: a in rest || a == raw;
    }
  }

  // ------------------------------------------------------- the second import

  lemma BuryAgain(cfg: Config, s: State, p: Purge, now: nat)
    requires Sound(s) && PurgeAcceptable(p, now) && PurgeDone(s, p, now)
    ensures BuryOwner(cfg, s, p) == s.(purges := s.purges[p.hash := p])
  {
    var t := s.(purges := s.purges[p.hash := p]);
    assert Sound(t);
    assert MessagesWithHash(t, p.hash) == {};
    assert AcksNaming(t, {}) == {};
    DropAbsent(t, {}, {});
  }

  lemma {:induction false} PurgePhaseAgain(cfg: Config, s: State, ps: seq<Purge>, now: nat)
    requires Sound(s) && PurgesDone(s, ps, now)
    ensures ImportPurges(cfg, s, ps, now) == s.(purges := Overlay(s.purges, ps, now))
  {
    if ps != [] {
      var rest, p := ps[..|ps| - 1], ps[|ps| - 1];
      PurgePhaseAgain(cfg, s, rest, now);
      var t := ImportPurges(cfg, s, rest, now);
      assert Sound(t);
      assert p in ps;
      if PurgeAcceptable(p, now) {
        OverlayKeeps(s.purges, rest, p.hash, now);
        assert PurgeDone(t, p, now);
        BuryAgain(cfg, t, p, now);
      }
    }
  }

  /** A hash whose tombstone is live stays live through more live tombstones. */
  lemma {:induction false} OverlayKeeps(purges: map<string, Purge>, ps: seq<Purge>, hash: string, now: nat)
    requires hash in purges && now < purges[hash].expiresAt
    ensures hash in Overlay(purges, ps, now) && now < Overlay(purges, ps, now)[hash].expiresAt
  {
    if ps != [] { OverlayKeeps(purges, ps[..|ps| - 1], hash, now); }
  }

  lemma {:induction false} MessagePhaseAgain(cfg: Config, s: State, es: seq<Envelope>, now: nat)
    requires MessagesDone(cfg, s, es, now)
    ensures ImportMessages(cfg, s, es, now) == s
  {
    if es != [] { MessagePhaseAgain(cfg, s, es[..|es| - 1], now); }
  }

  lemma {:induction false} AckPhaseAgain(cfg: Config, s: State, as_: seq<Ack>, now: nat)
    requires AcksDone(cfg, s, as_, now)
    ensures ImportAcks(cfg, s, as_, now) == s
  {
    if as_ != [] { AckPhaseAgain(cfg, s, as_[..|as_| - 1], now); }
  }

  lemma ImportPageDone(cfg: Config, s: State, page: Page, now: nat)
    requires cfg.Valid() && RoomForPage(cfg, s, page, now)
    ensures var t := ImportPage(cfg, s, page, now);
            PurgesDone(t, page.purges, now) && MessagesDone(cfg, t, page.messages, now)
            && AcksDone(cfg, t, page.acks, now)
  {
    var t := ImportPurges(cfg, s, page.purges, now);
    PurgePhaseDone(cfg, s, page.purges, now);
    MessagePhaseDone(cfg, t, page.messages, now, page.purges);
    AckPhaseDone(cfg, ImportMessages(cfg, t, page.messages, now), page.acks, now, page.purges, page.messages);
  }

  lemma ImportPageTombs(cfg: Config, s: State, page: Page, now: nat)
    requires cfg.Valid() && RoomForPage(cfg, s, page, now)
    ensures ImportPage(cfg, s, page, now).purges == Overlay(s.purges, page.purges, now)
  {
    var t := ImportPurges(cfg, s, page.purges, now);
    PurgePhaseDone(cfg, s, page.purges, now);
    var es := ImportMessagesMoves(cfg, t, page.messages, now);
    var as_ := ImportAcksMoves(cfg, ImportMessages(cfg, t, page.messages, now), page.acks, now);
  }

  /** If the first import met no full table, importing the same page again at the
      same time changes nothing at all, the arrival counter included. */
  lemma ImportIsIdempotent(cfg: Config, s: State, page: Page, now: nat)
    requires cfg.Valid() && Inv(cfg, s) && RoomForPage(cfg, s, page, now)
    ensures ImportPage(cfg, ImportPage(cfg, s, page, now), page, now) == ImportPage(cfg, s, page, now)
  {
    var t := ImportPage(cfg, s, page, now);
    ImportPageDone(cfg, s, page, now);
    ImportPageTombs(cfg, s, page, now);
    ImportedSound(cfg, s, page, now);
    PurgePhaseAgain(cfg, t, page.purges, now);
    OverlayTwice(s.purges, page.purges, now);
    assert ImportPurges(cfg, t, page.purges, now) == t;
    MessagePhaseAgain(cfg, t, page.messages, now);
    AckPhaseAgain(cfg, t, page.acks, now);
  }

  lemma ImportedSound(cfg: Config, s: State, page: Page, now: nat)
    requires cfg.Valid() && Inv(cfg, s)
    ensures Inv(cfg, ImportPage(cfg, s, page, now))
  {
    var xs, ys := ImportPageMoves(cfg, s, page, now);
    PlayKeeps(cfg, s, now, xs + ys, now, (_, _) => true);
  }
}
