/** The two fairness quotas, over every run, and what a lane is. */
module QueueQuotas {
  import opened Common
  import opened Sizes
  import opened Text
  import opened QueueModel
  import opened QueueRequest
  import opened QueueMoves
  import opened QueueSteps
  import opened QueueInvariant
  import opened QueueDrain

  // ------------------------------------------------------------- what shrinks

  /** Nothing but a post charges a credential. */
  ghost predicate NoNewCharges(s: State, t: State) {
    forall m {:trigger t.charged[m]} | m in t.charged :: m in s.charged && t.charged[m] == s.charged[m]
  }

  lemma MoveCharges(s: State, mv: Move)
    requires !mv.Queue?
    ensures NoNewCharges(s, Apply(s, mv))
  {
  }

  lemma MoveMail(s: State, mv: Move)
    requires !mv.Queue? && !mv.Adopt?
    ensures FewerMail(s, Apply(s, mv))
  {
    ApplyRecords(s, mv);
  }

  lemma {:induction false} PlayCharges(s: State, mvs: seq<Move>)
    requires forall mv | mv in mvs :: !mv.Queue?
    ensures NoNewCharges(s, Play(s, mvs))
  {
    if mvs != [] {
      PlayCharges(s, mvs[..|mvs| - 1]);
      MoveCharges(Play(s, mvs[..|mvs| - 1]), mvs[|mvs| - 1]);
    }
  }

  lemma {:induction false} PlayMail(s: State, mvs: seq<Move>)
    requires forall mv | mv in mvs :: !mv.Queue? && !mv.Adopt?
    ensures FewerMail(s, Play(s, mvs))
  {
    if mvs != [] {
      PlayMail(s, mvs[..|mvs| - 1]);
      MoveMail(Play(s, mvs[..|mvs| - 1]), mvs[|mvs| - 1]);
    }
  }

  lemma StepCharges(cfg: Config, s: State, op: Op)
    requires cfg.Valid() && Inv(cfg, s) && !op.Post?
    ensures NoNewCharges(s, Step(cfg, s, op))
  {
    var mvs := StepMoves(cfg, s, op);
    PlayCharges(s, mvs);
  }

  lemma StepMail(cfg: Config, s: State, op: Op)
    requires cfg.Valid() && Inv(cfg, s) && !op.Post? && !op.Import?
    ensures FewerMail(s, Step(cfg, s, op))
  {
    var mvs := StepMoves(cfg, s, op);
    PlayMail(s, mvs);
  }

  // ------------------------------------------------------------ one more post

  lemma LaneAfterInsert(s: State, e: Envelope, credential: nat, key: string)
    ensures Lane(InsertMessage(s, e, credential), key)
         == if PairKey(e) == key then Lane(s, key) + {e.id} else Lane(s, key) - {e.id}
  {
  }

  lemma LaneAfterPost(s: State, e: Envelope, a: Ack, credential: nat, key: string)
    requires e.id !in s.messages
    ensures var t := InsertMessage(InsertAck(s, a), e, credential);
            |Lane(t, key)| == |Lane(s, key)| + if PairKey(e) == key then 1 else 0
  {
    LaneAfterInsert(InsertAck(s, a), e, credential, key);
    assert Lane(InsertAck(s, a), key) == Lane(s, key);
    if PairKey(e) != key { assert Lane(s, key) - {e.id} == Lane(s, key); }
  }

  lemma ChargesAfterPost(s: State, e: Envelope, a: Ack, credential: nat, c: nat)
    requires e.id !in s.charged && c != 0
    ensures var t := InsertMessage(InsertAck(s, a), e, credential);
            |ChargedTo(t, c)| == |ChargedTo(s, c)| + if credential == c then 1 else 0
  {
    var t := InsertMessage(InsertAck(s, a), e, credential);
    assert ChargedTo(t, c) == if credential == c then ChargedTo(s, c) + {e.id} else ChargedTo(s, c);
  }

  /** What an accepted post has been measured against. */
  lemma AcceptedWithinQuotas(cfg: Config, s: State, e: Envelope, nodeId: string, grant: Grant, now: nat)
    requires AdmitReply(cfg, s, e, nodeId, grant, now).error.None?
    ensures e.id !in s.messages && |Lane(s, PairKey(e))| < LowerOf(cfg.maxPerPair, grant.maxPerPair)
    ensures grant.credential != 0 ==> |ChargedTo(s, grant.credential)| < LowerOf(cfg.maxMessages, grant.slots)
  {
  }

  /** A post never takes a lane past the quota, full as it may already be. */
  lemma PostLane(cfg: Config, s: State, op: Op, key: string)
    requires cfg.Valid() && op.Post?
    ensures |Lane(Step(cfg, s, op), key)| <= Max(|Lane(s, key)|, cfg.maxPerPair)
  {
    var e := PrepareEnvelope(cfg, op.envelope, op.grant.retention, op.now);
    if AdmitReply(cfg, s, e, op.nodeId, op.grant, op.now).error.None? {
      AcceptedWithinQuotas(cfg, s, e, op.nodeId, op.grant, op.now);
      LaneAfterPost(s, e, CoupledAck(e, op.nodeId, op.now), op.grant.credential, key);
    }
  }

  lemma PostCharges(cfg: Config, s: State, op: Op, c: nat, slots: int)
    requires op.Post? && c != 0 && s.charged.Keys <= s.messages.Keys && |ChargedTo(s, c)| <= slots
    requires op.grant.credential == c ==> LowerOf(cfg.maxMessages, op.grant.slots) <= slots
    ensures |ChargedTo(Step(cfg, s, op), c)| <= slots
  {
    var e := PrepareEnvelope(cfg, op.envelope, op.grant.retention, op.now);
    if AdmitReply(cfg, s, e, op.nodeId, op.grant, op.now).error.None? {
      AcceptedWithinQuotas(cfg, s, e, op.nodeId, op.grant, op.now);
      ChargesAfterPost(s, e, CoupledAck(e, op.nodeId, op.now), op.grant.credential, c);
    }
  }

  lemma FewerInLane(s: State, t: State, key: string)
    requires FewerMail(s, t)
    ensures |Lane(t, key)| <= |Lane(s, key)|
  {
    SubsetSize(Lane(t, key), Lane(s, key));
  }

  lemma FewerCharged(s: State, t: State, c: nat)
    requires NoNewCharges(s, t)
    ensures |ChargedTo(t, c)| <= |ChargedTo(s, c)|
  {
    SubsetSize(ChargedTo(t, c), ChargedTo(s, c));
  }

  // --------------------------------------------------------------------- runs

  /** The message call `op` queues, if it is an accepted post. */
  ghost function Queued(cfg: Config, s: State, op: Op): set<string> {
    if op.Post? then Step(cfg, s, op).messages.Keys - s.messages.Keys else {}
  }

  /** The messages that came by a post to this relay and have been here unchanged
      since. */
  ghost function Posted(cfg: Config, ops: seq<Op>): set<string> {
    if ops == [] then {}
    else
      var n := |ops| - 1;
      var s, t := Exec(cfg, ops[..n]), Exec(cfg, ops);
      (set m | m in Posted(cfg, ops[..n]) && m in s.messages && m in t.messages && t.messages[m] == s.messages[m])
      + Queued(cfg, s, ops[n])
  }

  lemma PostedInLane(cfg: Config, ops: seq<Op>, key: string)
    requires ops != [] && Queued(cfg, Exec(cfg, ops[..|ops| - 1]), ops[|ops| - 1]) * Lane(Exec(cfg, ops), key) == {}
    ensures var before := ops[..|ops| - 1];
            |Posted(cfg, ops) * Lane(Exec(cfg, ops), key)| <= |Posted(cfg, before) * Lane(Exec(cfg, before), key)|
  {
    var before := ops[..|ops| - 1];
    SubsetSize(Posted(cfg, ops) * Lane(Exec(cfg, ops), key), Posted(cfg, before) * Lane(Exec(cfg, before), key));
  }

  /** A post that adds to this lane leaves the whole of it within the quota. */
  lemma QueuedLane(cfg: Config, s: State, op: Op, key: string)
    requires Queued(cfg, s, op) * Lane(Step(cfg, s, op), key) != {}
    ensures |Lane(Step(cfg, s, op), key)| <= cfg.maxPerPair
  {
    var e := PrepareEnvelope(cfg, op.envelope, op.grant.retention, op.now);
    AcceptedWithinQuotas(cfg, s, e, op.nodeId, op.grant, op.now);
    LaneAfterPost(s, e, CoupledAck(e, op.nodeId, op.now), op.grant.credential, key);
  }

  /** Whatever is imported, no sender-recipient lane ever holds more of the mail
      posted here than the pair quota. */
  lemma {:induction false} LaneQuotaHolds(cfg: Config, ops: seq<Op>, key: string)
    requires cfg.Valid()
    ensures |Posted(cfg, ops) * Lane(Exec(cfg, ops), key)| <= cfg.maxPerPair
  {
    if ops != [] {
      var n := |ops| - 1;
      var s := Exec(cfg, ops[..n]);
      LaneQuotaHolds(cfg, ops[..n], key);
      if Queued(cfg, s, ops[n]) * Lane(Exec(cfg, ops), key) == {} {
        PostedInLane(cfg, ops, key);
      } else {
        QueuedLane(cfg, s, ops[n], key);
        SubsetSize(Posted(cfg, ops) * Lane(Exec(cfg, ops), key), Lane(Exec(cfg, ops), key));
      }
    }
  }

  /** The quota is not asked of replicated mail, and nothing else can pass it: a call
      that makes a lane longer and leaves it over the quota is an import. */
  lemma OnlyImportsOverfill(cfg: Config, ops: seq<Op>, op: Op, key: string)
    requires cfg.Valid()
    ensures var s := Exec(cfg, ops);
            |Lane(Step(cfg, s, op), key)| > Max(|Lane(s, key)|, cfg.maxPerPair) ==> op.Import?
  {
    var s := Exec(cfg, ops);
    Reachable(cfg, ops);
    if op.Post? {
      PostLane(cfg, s, op, key);
    } else if !op.Import? {
      StepMail(cfg, s, op);
      FewerInLane(s, Step(cfg, s, op), key);
    }
  }

  /** And of imports it is exactly those that find the lane full: an adoption leaves
      its lane within the quota if and only if it would have passed a post's guard. */
  lemma AdoptionMeetsQuotaIff(cfg: Config, s: State, e: Envelope, now: nat, key: string)
    requires ImportMessageError(cfg, s, e, now).None?
    ensures var t := AdoptMessage(cfg, s, e, now);
            if key == PairKey(e) then |Lane(t, key)| <= cfg.maxPerPair <==> |Lane(s, key)| < cfg.maxPerPair
            else Lane(t, key) == Lane(s, key)
  {
    AdoptedIs(cfg, s, e, now);
    LaneSizeAfterInsert(s, e, key);
  }

  lemma AdoptedIs(cfg: Config, s: State, e: Envelope, now: nat)
    requires ImportMessageError(cfg, s, e, now).None?
    ensures AdoptMessage(cfg, s, e, now) == InsertMessage(s, e, 0) && e.id !in s.messages
  {
  }

  lemma LaneSizeAfterInsert(s: State, e: Envelope, key: string)
    requires e.id !in s.messages
    ensures var t := InsertMessage(s, e, 0);
            if key == PairKey(e) then |Lane(t, key)| == |Lane(s, key)| + 1 else Lane(t, key) == Lane(s, key)
  {
    LaneAfterInsert(s, e, 0, key);
    assert e.id !in Lane(s, key);
  }

  /** So on a relay that imports nothing every lane is within the quota. */
  lemma {:induction false} LaneQuotaWithoutImports(cfg: Config, ops: seq<Op>, key: string)
    requires cfg.Valid() && forall op | op in ops :: !op.Import?
    ensures |Lane(Exec(cfg, ops), key)| <= cfg.maxPerPair
  {
    if ops == [] {
      assert Lane(EMPTY, key) == {};
    } else {
      var n := |ops| - 1;
      LaneQuotaWithoutImports(cfg, ops[..n], key);
      OnlyImportsOverfill(cfg, ops[..n], ops[n], key);
      assert ops[n] in ops;
    }
  }

  function Letter(id: string): Envelope {
    Envelope(id, "s", "r", 1, 10, "p", "", "", "", map[], "", "")
  }

  const TIGHT := Config(2, 4, 1, 1, 1, 10, 10)
  const TWO_LETTERS := Page("", 0, false, [Letter("a"), Letter("b")], [], [])

  lemma LetterAdopted(s: State, id: string)
    requires id != "" && id !in s.messages && |s.messages| < 2 && s.purges == map[] && s.acks == map[]
    ensures ImportMessage(TIGHT, s, Letter(id), 1) == InsertMessage(s, Letter(id), 0)
  {
    assert Utf8Len("p") == 1;
    assert PrepareEnvelope(TIGHT, Letter(id), 0, 1) == Letter(id);
  }

  /** And on one that does, a single page can take a lane past it. */
  lemma ImportCanOverfill()
    ensures TIGHT.Valid() && |Lane(Exec(TIGHT, [Import(TWO_LETTERS, 1)]), JoinNul("s", "r"))| > TIGHT.maxPerPair
  {
    var a, b, run := Letter("a"), Letter("b"), [Import(TWO_LETTERS, 1)];
    assert run[..0] == [] && run[0] == Import(TWO_LETTERS, 1);
    assert [a, b][..1] == [a] && [a][..0] == [];
    LetterAdopted(EMPTY, "a");
    LetterAdopted(InsertMessage(EMPTY, a, 0), "b");
    var two := InsertMessage(InsertMessage(EMPTY, a, 0), b, 0);
    assert ImportMessages(TIGHT, EMPTY, [a, b], 1) == two;
    assert Exec(TIGHT, run) == two;
    assert Lane(two, JoinNul("s", "r")) == {"a", "b"};
  }

  /** Whatever is imported, a circle whose posts all come with at most `slots` never
      has more than that queued. */
  lemma {:induction false} SlotsHold(cfg: Config, ops: seq<Op>, credential: nat, slots: nat)
    requires cfg.Valid() && credential != 0
    requires forall op | op in ops && op.Post? && op.grant.credential == credential ::
               LowerOf(cfg.maxMessages, op.grant.slots) <= slots
    ensures |ChargedTo(Exec(cfg, ops), credential)| <= slots
  {
    if ops == [] {
      assert ChargedTo(EMPTY, credential) == {};
    } else {
      var n := |ops| - 1;
      SlotsHold(cfg, ops[..n], credential, slots);
      Reachable(cfg, ops[..n]);
      var s := Exec(cfg, ops[..n]);
      assert ops[n] in ops;
      if ops[n].Post? {
        PostCharges(cfg, s, ops[n], credential, slots);
      } else {
        StepCharges(cfg, s, ops[n]);
        FewerCharged(s, Step(cfg, s, ops[n]), credential);
      }
    }
  }

  // ----------------------------------------------------------- what a lane is

  predicate TrimmedPair(e: Envelope) { Trim(e.sender) == e.sender && Trim(e.recipient) == e.recipient }

  /** The call as the store makes it: what it was given, trimmed. */
  ghost predicate TrimmedCall(op: Op) {
    && (op.Post? ==> TrimmedPair(op.envelope))
    && (op.Import? ==> forall e | e in op.page.messages :: TrimmedPair(e))
  }

  lemma RequestsAreTrimmed(e: Envelope, page: Page)
    ensures TrimmedPair(TrimPosted(e)) && forall x | x in TrimPage(page).messages :: TrimmedPair(x)
  {
    TrimsPair(e);
    forall i | 0 <= i < |page.messages|
      ensures TrimmedPair(TrimPage(page).messages[i])
    {
      TrimsPair(page.messages[i]);
    }
  }

  lemma TrimsPair(e: Envelope)
    ensures TrimmedPair(TrimPosted(e)) && TrimmedPair(TrimImported(e))
  {
    TrimIdempotent(e.sender);
    TrimIdempotent(e.recipient);
  }

  ghost predicate BetweenNames(messages: map<string, Envelope>) {
    forall m {:trigger messages[m]} | m in messages :: IsName(messages[m].sender) && IsName(messages[m].recipient)
  }

  lemma JustifiedPair(cfg: Config, op: Op, mv: Move)
    requires TrimmedCall(op) && Justified(cfg, op, mv) && (mv.Queue? || mv.Adopt?)
    ensures TrimmedPair(mv.e)
  {
  }

  lemma MoveBetweenNames(cfg: Config, s: State, now: nat, mv: Move)
    requires BetweenNames(s.messages) && Legal(cfg, s, now, mv) && (mv.Queue? || mv.Adopt? ==> TrimmedPair(mv.e))
    ensures BetweenNames(Apply(s, mv).messages)
  {
    ApplyRecords(s, mv);
  }

  lemma {:induction false} PlayBetweenNames(cfg: Config, s: State, op: Op, mvs: seq<Move>)
    requires TrimmedCall(op) && BetweenNames(s.messages) && AllLegal(cfg, s, op.now, mvs) && AllJustified(cfg, op, mvs)
    ensures BetweenNames(Play(s, mvs).messages)
  {
    if mvs != [] {
      var mv := mvs[|mvs| - 1];
      PlayBetweenNames(cfg, s, op, mvs[..|mvs| - 1]);
      assert mv in mvs;
      if mv.Queue? || mv.Adopt? { JustifiedPair(cfg, op, mv); }
      MayMoveIs(cfg, Play(s, mvs[..|mvs| - 1]), op.now, mv);
      MoveBetweenNames(cfg, Play(s, mvs[..|mvs| - 1]), op.now, mv);
    }
  }

  lemma {:induction false} AlwaysBetweenNames(cfg: Config, ops: seq<Op>)
    requires cfg.Valid() && forall op | op in ops :: TrimmedCall(op)
    ensures BetweenNames(Exec(cfg, ops).messages)
  {
    if ops != [] {
      var n := |ops| - 1;
      AlwaysBetweenNames(cfg, ops[..n]);
      Reachable(cfg, ops[..n]);
      assert ops[n] in ops;
      var mvs := StepMoves(cfg, Exec(cfg, ops[..n]), ops[n]);
      PlayBetweenNames(cfg, Exec(cfg, ops[..n]), ops[n], mvs);
    }
  }

  /** In every reachable state the backlog a pair is measured by is that pair's own
      mail and nobody else's, as long as its key can be cut in one place only. */
  lemma LaneIsThePair(cfg: Config, ops: seq<Op>, sender: string, recipient: string)
    requires cfg.Valid() && forall op | op in ops :: TrimmedCall(op)
    requires IsName(sender) && IsName(recipient)
    requires forall i | CutAt(JoinNul(sender, recipient), i) :: i == |sender|
    ensures var s := Exec(cfg, ops);
            Lane(s, JoinNul(sender, recipient))
            == set m | m in s.messages && s.messages[m].sender == sender && s.messages[m].recipient == recipient
  {
    AlwaysBetweenNames(cfg, ops);
    JoinNulUnambiguous(sender, recipient);
    var s := Exec(cfg, ops);
    forall m | m in Lane(s, JoinNul(sender, recipient))
      ensures s.messages[m].sender == sender && s.messages[m].recipient == recipient
    {
      assert ShareKey(sender, recipient, s.messages[m].sender, s.messages[m].recipient);
    }
  }
}
