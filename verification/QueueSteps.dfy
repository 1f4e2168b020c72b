/** Each operation as a list of legal moves, and what about the call justifies
    every move in it. */
module QueueSteps {
  import opened QueueModel
  import opened QueueMoves

  ghost predicate CarriesMessage(cfg: Config, page: Page, now: nat, e: Envelope) {
    exists raw :: raw in page.messages && PrepareEnvelope(cfg, raw, 0, now) == e
  }

  ghost predicate CarriesAck(cfg: Config, page: Page, now: nat, a: Ack) {
    exists raw :: raw in page.acks && PrepareAck(cfg, raw, 0, now) == a
  }

  predicate CarriesTombstone(page: Page, now: nat, hash: string) {
    exists p :: p in page.purges && p.hash == hash && PurgeAcceptable(p, now)
  }

  /** `a` is the ack the call posts, under whatever tag the store holds for it. */
  predicate IsPosted(cfg: Config, op: Op, a: Ack)
    requires op.Acknowledge?
  {
    var raw := PrepareAck(cfg, op.ack, op.grant.retention, op.now);
    a == raw.(nodeId := if raw.nodeId == "" then op.nodeId else raw.nodeId, recipientTag := a.recipientTag)
  }

  /** Why a call may make a move. */
  ghost predicate Justified(cfg: Config, op: Op, mv: Move) {
    match mv
    case Queue(e, a, _) =>
      && op.Post? && e == PrepareEnvelope(cfg, op.envelope, op.grant.retention, op.now)
      && a == CoupledAck(e, op.nodeId, op.now)
    case Adopt(e) => op.Import? && CarriesMessage(cfg, op.page, op.now, e)
    case Record(a) => (op.Acknowledge? && IsPosted(cfg, op, a)) || (op.Import? && CarriesAck(cfg, op.page, op.now, a))
    case Expire(_, _) => op.FetchMessages? || op.FetchAcks? || op.Snapshot? || op.Prune?
    case Bury(hash, _, _) => (op.PurgeByOwner? && hash == op.hash)
                          || (op.Import? && CarriesTombstone(op.page, op.now, hash))
    case Entomb(_) => op.Snapshot? || op.Prune? || op.PurgeByOwner? || op.Import?
  }

  ghost predicate AllJustified(cfg: Config, op: Op, mvs: seq<Move>) {
    forall mv | mv in mvs :: Justified(cfg, op, mv)
  }

  lemma JustifiedConcat(cfg: Config, op: Op, xs: seq<Move>, ys: seq<Move>)
    requires AllJustified(cfg, op, xs) && AllJustified(cfg, op, ys)
    ensures AllJustified(cfg, op, xs + ys)
  {
  }

  // ------------------------------------------------------------------ posts

  lemma PreparedLifetime(cfg: Config, e: Envelope, retention: int, now: nat)
    requires cfg.Valid()
    ensures PrepareEnvelope(cfg, e, retention, now).expiresAt <= now + cfg.maxTTL
  {
  }

  lemma PostMoves(cfg: Config, s: State, op: Op) returns (mvs: seq<Move>)
    requires cfg.Valid() && op.Post?
    ensures Leads(cfg, s, op.now, mvs, StepPost(cfg, s, op))
    ensures AllJustified(cfg, op, mvs)
  {
    var e := PrepareEnvelope(cfg, op.envelope, op.grant.retention, op.now);
    if AdmitReply(cfg, s, e, op.nodeId, op.grant, op.now).error.None? {
      PreparedLifetime(cfg, op.envelope, op.grant.retention, op.now);
      var mv := Queue(e, CoupledAck(e, op.nodeId, op.now), op.grant.credential);
      assert LegalQueue(cfg, s, op.now, mv);
      One(cfg, s, op.now, mv);
      mvs := [mv];
    } else {
      Stay(cfg, s, op.now);
      mvs := [];
    }
  }

  /** An accepted ack is stored under the tag this store holds, and its caller has
      matched that tag. */
  lemma AcknowledgeMoves(cfg: Config, s: State, op: Op) returns (mvs: seq<Move>)
    requires cfg.Valid() && op.Acknowledge?
    ensures Leads(cfg, s, op.now, mvs, StepAcknowledge(cfg, s, op))
    ensures AllJustified(cfg, op, mvs)
    ensures var a := PreparePostedAck(cfg, s, op.ack, op.nodeId, op.grant, op.now);
            mvs == [] || (mvs == [Record(a)] && (a.messageId in s.tags ==> op.auth.Permits(s.tags[a.messageId])))
  {
    var a := PreparePostedAck(cfg, s, op.ack, op.nodeId, op.grant, op.now);
    if PostAckError(cfg, s, a, op.auth, op.now).None? {
      AcceptedAckIs(cfg, s, op, a);
      One(cfg, s, op.now, Record(a));
      mvs := [Record(a)];
    } else {
      Stay(cfg, s, op.now);
      mvs := [];
    }
  }

  lemma AcceptedAckIs(cfg: Config, s: State, op: Op, a: Ack)
    requires cfg.Valid() && op.Acknowledge? && a == PreparePostedAck(cfg, s, op.ack, op.nodeId, op.grant, op.now)
    requires PostAckError(cfg, s, a, op.auth, op.now).None?
    ensures Legal(cfg, s, op.now, Record(a)) && StepAcknowledge(cfg, s, op) == Apply(s, Record(a))
    ensures a.messageId in s.tags ==> op.auth.Permits(s.tags[a.messageId])
  {
    AckLifetime(cfg, op.ack, op.grant.retention, op.now);
  }

  lemma AckLifetime(cfg: Config, a: Ack, retention: int, now: nat)
    requires cfg.Valid()
    ensures PrepareAck(cfg, a, retention, now).expiresAt <= now + cfg.maxTTL
  {
  }

  // ----------------------------------------------------------------- sweeps

  lemma FetchMoves(cfg: Config, s: State, op: Op) returns (mvs: seq<Move>)
    requires op.FetchMessages? || op.FetchAcks?
    ensures Leads(cfg, s, op.now, mvs, StepFetch(s, op))
    ensures AllJustified(cfg, op, mvs)
  {
    if StepFetch(s, op) == s {
      Stay(cfg, s, op.now);
      mvs := [];
    } else {
      var mv := if op.FetchMessages? then Expire(ExpiredMessages(s, op.now), {})
                else Expire({}, ExpiredAcks(s, op.now));
      assert LegalExpire(s, op.now, mv);
      One(cfg, s, op.now, mv);
      mvs := [mv];
    }
  }

  lemma PruneMoves(cfg: Config, s: State, op: Op) returns (mvs: seq<Move>)
    requires op.Snapshot? || op.Prune?
    requires TombsFit(cfg, s.purges)
    ensures Leads(cfg, s, op.now, mvs, StepPrune(s, op))
    ensures AllJustified(cfg, op, mvs)
  {
    var sweep := Expire(ExpiredMessages(s, op.now), ExpiredAcks(s, op.now));
    var forget := Entomb(LivePurges(s.purges, op.now));
    assert LegalExpire(s, op.now, sweep);
    One(cfg, s, op.now, sweep);
    var t := Apply(s, sweep);
    ForgetLegal(cfg, t, op.now);
    One(cfg, t, op.now, forget);
    Chain(cfg, s, op.now, [sweep], t, [forget], Apply(t, forget));
    mvs := [sweep] + [forget];
  }

  lemma ForgetLegal(cfg: Config, t: State, now: nat)
    requires TombsFit(cfg, t.purges)
    ensures LegalEntomb(cfg, t, Entomb(LivePurges(t.purges, now)))
  {
    LivePurgesFewer(t.purges, now);
  }

  lemma LivePurgesFewer(purges: map<string, Purge>, now: Time)
    ensures |LivePurges(purges, now)| <= |purges|
  {
    var a, b := LivePurges(purges, now).Keys, purges.Keys;
    assert a + (b - a) == b;
    assert |b| == |a| + |b - a|;
  }

  // ----------------------------------------------------------------- purges

  /** What may be said of a tombstone table at any time. */
  ghost predicate TombsFit(cfg: Config, purges: map<string, Purge>) {
    |purges| <= cfg.maxPurges && forall h | h in purges :: purges[h].hash == h
  }

  lemma StorePurgeFits(cfg: Config, s: State, p: Purge)
    requires TombsFit(cfg, s.purges)
    ensures TombsFit(cfg, StorePurge(cfg, s, p).purges)
    ensures forall h | h in StorePurge(cfg, s, p).purges && h != p.hash ::
              h in s.purges && StorePurge(cfg, s, p).purges[h] == s.purges[h]
  {
    if p.hash in s.purges || |s.purges| < cfg.maxPurges { OneMoreTomb(cfg, s.purges, p); }
  }

  lemma OneMoreTomb(cfg: Config, purges: map<string, Purge>, p: Purge)
    requires TombsFit(cfg, purges) && (p.hash in purges || |purges| < cfg.maxPurges)
    ensures TombsFit(cfg, purges[p.hash := p])
  {
    var more := purges[p.hash := p];
    assert more.Keys == purges.Keys + {p.hash};
    if p.hash in purges { assert more.Keys == purges.Keys; }
    assert |more| == |more.Keys| && |purges| == |purges.Keys|;
  }

  /** With the owner's mail gone the tombstone may be set. */
  lemma EntombLegal(cfg: Config, s: State, p: Purge, t: State)
    requires TombsFit(cfg, s.purges) && t.purges == s.purges
    requires p.hash != "" ==> forall m | m in t.messages :: PurgeHash(t.messages[m]) != p.hash
    ensures LegalEntomb(cfg, t, Entomb(StorePurge(cfg, s, p).purges))
  {
    StorePurgeFits(cfg, s, p);
  }

  /** Removing the owner's mail and setting the tombstone can be done in either
      order; as moves the mail goes first. */
  lemma BuryMoves(cfg: Config, s: State, p: Purge, now: nat) returns (mvs: seq<Move>)
    requires TombsFit(cfg, s.purges)
    ensures Leads(cfg, s, now, mvs, BuryOwner(cfg, s, p))
    ensures forall mv | mv in mvs :: mv.Entomb? || (mv.Bury? && mv.hash == p.hash)
  {
    var entomb := Entomb(StorePurge(cfg, s, p).purges);
    if p.hash == "" {
      EntombLegal(cfg, s, p, s);
      One(cfg, s, now, entomb);
      mvs := [entomb];
    } else {
      var bury := BuryMove(s, p.hash);
      var t := Apply(s, bury);
      One(cfg, s, now, bury);
      EntombLegal(cfg, s, p, t);
      One(cfg, t, now, entomb);
      Chain(cfg, s, now, [bury], t, [entomb], Apply(t, entomb));
      BuryCommutes(cfg, s, p);
      mvs := [bury] + [entomb];
    }
  }

  ghost function BuryMove(s: State, hash: string): (mv: Move)
    requires hash != ""
    ensures mv.Bury? && mv.hash == hash && LegalBury(s, mv)
    ensures forall m | m in Apply(s, mv).messages :: PurgeHash(Apply(s, mv).messages[m]) != hash
    ensures Apply(s, mv).purges == s.purges
  {
    var owned := MessagesWithHash(s, hash);
    Bury(hash, owned, AcksNaming(s, owned))
  }

  lemma BuryCommutes(cfg: Config, s: State, p: Purge)
    requires p.hash != ""
    ensures var owned := MessagesWithHash(s, p.hash);
            BuryOwner(cfg, s, p) == Drop(s, owned, AcksNaming(s, owned)).(purges := StorePurge(cfg, s, p).purges)
  {
    var t := StorePurge(cfg, s, p);
    assert t.messages == s.messages && t.acks == s.acks;
    assert MessagesWithHash(t, p.hash) == MessagesWithHash(s, p.hash);
    assert AcksNaming(t, MessagesWithHash(s, p.hash)) == AcksNaming(s, MessagesWithHash(s, p.hash));
  }

  lemma PurgeMoves(cfg: Config, s: State, op: Op) returns (mvs: seq<Move>)
    requires op.PurgeByOwner? && TombsFit(cfg, s.purges)
    ensures Leads(cfg, s, op.now, mvs, StepPurge(cfg, s, op))
    ensures AllJustified(cfg, op, mvs)
  {
    var p := Purge(op.hash, op.now + cfg.defaultTTL);
    mvs := BuryMoves(cfg, s, p, op.now);
    PurgeIsBurial(cfg, s, op);
    LeadsThere(cfg, s, op.now, mvs, BuryOwner(cfg, s, p), StepPurge(cfg, s, op));
    BuriesJustified(cfg, op, mvs);
  }

  lemma PurgeIsBurial(cfg: Config, s: State, op: Op)
    requires op.PurgeByOwner?
    ensures StepPurge(cfg, s, op) == BuryOwner(cfg, s, Purge(op.hash, op.now + cfg.defaultTTL))
  {
    calc {
      StepPurge(cfg, s, op);
      PurgeOwner(cfg, s, op.hash, op.now);
      BuryOwner(cfg, s, Purge(op.hash, op.now + cfg.defaultTTL));
    }
  }

  lemma LeadsThere(cfg: Config, s: State, now: nat, mvs: seq<Move>, t: State, u: State)
    requires Leads(cfg, s, now, mvs, t) && t == u
    ensures Leads(cfg, s, now, mvs, u)
  {
  }

  lemma BuriesJustified(cfg: Config, op: Op, mvs: seq<Move>)
    requires op.PurgeByOwner? && forall mv | mv in mvs :: mv.Entomb? || (mv.Bury? && mv.hash == op.hash)
    ensures AllJustified(cfg, op, mvs)
  {
  }

  // ----------------------------------------------------------------- import

  lemma BuryKeepsTombs(cfg: Config, s: State, p: Purge)
    requires TombsFit(cfg, s.purges)
    ensures TombsFit(cfg, BuryOwner(cfg, s, p).purges)
  {
    StorePurgeFits(cfg, s, p);
  }

  /** The purge phase removes mail of the listed owners only. */
  lemma {:induction false} ImportPurgesMoves(cfg: Config, s: State, ps: seq<Purge>, now: nat) returns (mvs: seq<Move>)
    requires TombsFit(cfg, s.purges)
    ensures Leads(cfg, s, now, mvs, ImportPurges(cfg, s, ps, now))
    ensures TombsFit(cfg, ImportPurges(cfg, s, ps, now).purges)
    ensures forall mv | mv in mvs :: mv.Entomb?
              || (mv.Bury? && exists p :: p in ps && p.hash == mv.hash && PurgeAcceptable(p, now))
  {
    if ps == [] {
      Stay(cfg, s, now);
      mvs := [];
    } else {
      var p, rest := ps[|ps| - 1], ps[..|ps| - 1];
      mvs := ImportPurgesMoves(cfg, s, rest, now);
      var t := ImportPurges(cfg, s, rest, now);
      if PurgeAcceptable(p, now) {
        var more := BuryMoves(cfg, t, p, now);
        BuryKeepsTombs(cfg, t, p);
        Chain(cfg, s, now, mvs, t, more, BuryOwner(cfg, t, p));
        mvs := mvs + more;
      }
    }
  }

  lemma AdoptMessageMoves(cfg: Config, s: State, raw: Envelope, now: nat) returns (mvs: seq<Move>)
    requires cfg.Valid()
    ensures Leads(cfg, s, now, mvs, ImportMessage(cfg, s, raw, now))
    ensures mvs == [] || mvs == [Adopt(PrepareEnvelope(cfg, raw, 0, now))]
    ensures ImportMessage(cfg, s, raw, now).purges == s.purges
  {
    var e := PrepareEnvelope(cfg, raw, 0, now);
    if ImportMessageError(cfg, s, e, now).None? {
      PreparedLifetime(cfg, raw, 0, now);
      var mv := Adopt(e);
      assert LegalAdopt(cfg, s, now, mv);
      One(cfg, s, now, mv);
      mvs := [mv];
    } else {
      Stay(cfg, s, now);
      mvs := [];
    }
  }

  lemma {:induction false} ImportMessagesMoves(cfg: Config, s: State, es: seq<Envelope>, now: nat)
    returns (mvs: seq<Move>)
    requires cfg.Valid()
    ensures Leads(cfg, s, now, mvs, ImportMessages(cfg, s, es, now))
    ensures forall mv | mv in mvs :: mv.Adopt? && exists raw :: raw in es && PrepareEnvelope(cfg, raw, 0, now) == mv.e
    ensures ImportMessages(cfg, s, es, now).purges == s.purges
  {
    if es == [] {
      Stay(cfg, s, now);
      mvs := [];
    } else {
      var raw, rest := es[|es| - 1], es[..|es| - 1];
      mvs := ImportMessagesMoves(cfg, s, rest, now);
      var t := ImportMessages(cfg, s, rest, now);
      var more := AdoptMessageMoves(cfg, t, raw, now);
      Chain(cfg, s, now, mvs, t, more, ImportMessage(cfg, t, raw, now));
      mvs := mvs + more;
    }
  }

  lemma AdoptAckMoves(cfg: Config, s: State, raw: Ack, now: nat) returns (mvs: seq<Move>)
    requires cfg.Valid()
    ensures Leads(cfg, s, now, mvs, ImportAck(cfg, s, raw, now))
    ensures mvs == [] || mvs == [Record(PrepareAck(cfg, raw, 0, now))]
    ensures ImportAck(cfg, s, raw, now).purges == s.purges
  {
    var a := PrepareAck(cfg, raw, 0, now);
    if ImportAckError(cfg, s, a, now).None? {
      var mv := Record(a);
      assert LegalRecord(cfg, s, now, mv);
      One(cfg, s, now, mv);
      mvs := [mv];
    } else {
      Stay(cfg, s, now);
      mvs := [];
    }
  }

  lemma {:induction false} ImportAcksMoves(cfg: Config, s: State, as_: seq<Ack>, now: nat) returns (mvs: seq<Move>)
    requires cfg.Valid()
    ensures Leads(cfg, s, now, mvs, ImportAcks(cfg, s, as_, now))
    ensures forall mv | mv in mvs :: mv.Record? && exists raw :: raw in as_ && PrepareAck(cfg, raw, 0, now) == mv.a
    ensures ImportAcks(cfg, s, as_, now).purges == s.purges
  {
    if as_ == [] {
      Stay(cfg, s, now);
      mvs := [];
    } else {
      var raw, rest := as_[|as_| - 1], as_[..|as_| - 1];
      mvs := ImportAcksMoves(cfg, s, rest, now);
      var t := ImportAcks(cfg, s, rest, now);
      var more := AdoptAckMoves(cfg, t, raw, now);
      Chain(cfg, s, now, mvs, t, more, ImportAck(cfg, t, raw, now));
      mvs := mvs + more;
    }
  }

  lemma PurgePhaseJustified(cfg: Config, op: Op, mvs: seq<Move>)
    requires op.Import?
    requires forall mv | mv in mvs :: mv.Entomb?
               || (mv.Bury? && exists p :: p in op.page.purges && p.hash == mv.hash && PurgeAcceptable(p, op.now))
    ensures AllJustified(cfg, op, mvs)
  {
  }

  lemma RecordPhasesJustified(cfg: Config, op: Op, mvs: seq<Move>)
    requires op.Import?
    requires forall mv | mv in mvs ::
               || (mv.Adopt? && CarriesMessage(cfg, op.page, op.now, mv.e))
               || (mv.Record? && CarriesAck(cfg, op.page, op.now, mv.a))
    ensures AllJustified(cfg, op, mvs)
  {
  }

  /** An import is: remove and entomb, then adopt, then record, in that order. */
  lemma ImportPageMoves(cfg: Config, s: State, page: Page, now: nat) returns (xs: seq<Move>, ys: seq<Move>)
    requires cfg.Valid() && TombsFit(cfg, s.purges)
    ensures Leads(cfg, s, now, xs, ImportPurges(cfg, s, page.purges, now))
    ensures Leads(cfg, ImportPurges(cfg, s, page.purges, now), now, ys, ImportPage(cfg, s, page, now))
    ensures Leads(cfg, s, now, xs + ys, ImportPage(cfg, s, page, now))
    ensures forall mv | mv in xs :: mv.Entomb?
              || (mv.Bury? && exists p :: p in page.purges && p.hash == mv.hash && PurgeAcceptable(p, now))
    ensures forall mv | mv in ys ::
              || (mv.Adopt? && CarriesMessage(cfg, page, now, mv.e))
              || (mv.Record? && CarriesAck(cfg, page, now, mv.a))
  {
    var t := ImportPurges(cfg, s, page.purges, now);
    var u := ImportMessages(cfg, t, page.messages, now);
    xs := ImportPurgesMoves(cfg, s, page.purges, now);
    var es := ImportMessagesMoves(cfg, t, page.messages, now);
    var as_ := ImportAcksMoves(cfg, u, page.acks, now);
    Chain(cfg, t, now, es, u, as_, ImportAcks(cfg, u, page.acks, now));
    ys := es + as_;
    Chain(cfg, s, now, xs, t, ys, ImportPage(cfg, s, page, now));
  }

  lemma ImportMoves(cfg: Config, s: State, op: Op) returns (mvs: seq<Move>)
    requires cfg.Valid() && op.Import? && TombsFit(cfg, s.purges)
    ensures Leads(cfg, s, op.now, mvs, StepImport(cfg, s, op))
    ensures AllJustified(cfg, op, mvs)
  {
    var xs, ys := ImportPageMoves(cfg, s, op.page, op.now);
    PurgePhaseJustified(cfg, op, xs);
    RecordPhasesJustified(cfg, op, ys);
    JustifiedConcat(cfg, op, xs, ys);
    mvs := xs + ys;
  }

  // -------------------------------------------------------------- every call

  /** Every call is a list of legal moves, each justified by the call. */
  lemma StepMoves(cfg: Config, s: State, op: Op) returns (mvs: seq<Move>)
    requires cfg.Valid() && TombsFit(cfg, s.purges)
    ensures Leads(cfg, s, op.now, mvs, Step(cfg, s, op))
    ensures AllJustified(cfg, op, mvs)
  {
    match op
    case Post(_, _, _, _) => mvs := PostMoves(cfg, s, op);
    case Acknowledge(_, _, _, _, _) => mvs := AcknowledgeMoves(cfg, s, op);
    case FetchMessages(_, _) => mvs := FetchMoves(cfg, s, op);
    case FetchAcks(_, _) => mvs := FetchMoves(cfg, s, op);
    case Snapshot(_) => mvs := PruneMoves(cfg, s, op);
    case Import(_, _) => mvs := ImportMoves(cfg, s, op);
    case Prune(_) => mvs := PruneMoves(cfg, s, op);
    case PurgeByOwner(_, _) => mvs := PurgeMoves(cfg, s, op);
  }
}
