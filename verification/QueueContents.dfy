/** What the stored records say, told from the requests that brought them. */
module QueueContents {
  import opened Common
  import opened Text
  import opened QueueModel
  import opened QueueRequest
  import opened QueueMoves
  import opened QueueSteps
  import opened QueueInvariant

  /** The earliest of what was asked for (the default time if nothing was), the
      node's ceiling and the circle's own. */
  predicate Lasts(cfg: Config, asked: Time, retention: int, now: nat, expiresAt: Time) {
    var wish := if asked == NOT_SET then now + cfg.defaultTTL else asked;
    && expiresAt <= wish && expiresAt <= now + cfg.maxTTL && (0 < retention ==> expiresAt <= now + retention)
    && (expiresAt == wish || expiresAt == now + cfg.maxTTL || (0 < retention && expiresAt == now + retention))
  }

  predicate Dated(asked: Time, now: nat, createdAt: Time) {
    if asked == NOT_SET then createdAt == now else createdAt == asked
  }

  /** The letter `e` with its names and payload trimmed and nothing else about it
      changed; the tags are spoken of apart. */
  predicate SameLetter(raw: Envelope, e: Envelope) {
    && e.id == Trim(raw.id) && e.sender == Trim(raw.sender) && e.recipient == Trim(raw.recipient)
    && e.payload == Trim(raw.payload) && e.contentType == raw.contentType && e.keyId == raw.keyId
    && e.signature == raw.signature && e.metadata == raw.metadata
  }

  /** Request `op` brought the letter `e`: a post trims its tags, a page's stay. */
  ghost predicate Sent(cfg: Config, op: Op, e: Envelope) {
    || (&& op.Post? && SameLetter(op.envelope, e) && Dated(op.envelope.createdAt, op.now, e.createdAt)
        && e.recipientTag == Trim(op.envelope.recipientTag) && e.senderTag == Trim(op.envelope.senderTag)
        && Lasts(cfg, op.envelope.expiresAt, op.grant.retention, op.now, e.expiresAt))
    || (op.Import? && exists i :: 0 <= i < |op.page.messages| && Replicated(cfg, op.page.messages[i], op.now, e))
  }

  predicate Replicated(cfg: Config, raw: Envelope, now: nat, e: Envelope) {
    && SameLetter(raw, e) && Dated(raw.createdAt, now, e.createdAt) && Lasts(cfg, raw.expiresAt, 0, now, e.expiresAt)
    && e.recipientTag == raw.recipientTag && e.senderTag == raw.senderTag
  }

  /** A reason is trimmed, and dropped if longer than 64 bytes. */
  predicate Reason(raw: string, reason: string) {
    reason == if Utf8Len(Trim(raw)) <= 64 then Trim(raw) else ""
  }

  predicate SameAck(raw: Ack, a: Ack) {
    && a.id == Trim(raw.id) && a.messageId == Trim(raw.messageId) && a.sender == Trim(raw.sender)
    && a.recipient == Trim(raw.recipient) && a.kind == raw.kind && a.signature == raw.signature
    && Reason(raw.reason, a.reason)
  }

  /** The receipt for a posted letter: to its sender, about its recipient, under both
      its tags, for as long as the letter lasts. */
  predicate Receipt(cfg: Config, op: Op, a: Ack)
    requires op.Post?
  {
    var raw := op.envelope;
    && a.id == Trim(raw.id) + ":node_received" && a.messageId == Trim(raw.id) && a.kind == NodeReceived
    && a.sender == Trim(raw.sender) && a.recipient == Trim(raw.recipient)
    && a.senderTag == Trim(raw.senderTag) && a.recipientTag == Trim(raw.recipientTag)
    && a.nodeId == op.nodeId && a.createdAt == op.now && a.signature == "" && a.reason == ""
    && Lasts(cfg, raw.expiresAt, op.grant.retention, op.now, a.expiresAt)
  }

  predicate ReplicatedAck(cfg: Config, raw: Ack, now: nat, a: Ack) {
    && SameAck(raw, a) && Dated(raw.createdAt, now, a.createdAt) && Lasts(cfg, raw.expiresAt, 0, now, a.expiresAt)
    && a.senderTag == raw.senderTag && a.recipientTag == raw.recipientTag && a.nodeId == raw.nodeId
  }

  /** Request `op` brought the ack `a`.  The recipient's tag on a posted ack is not the
      caller's to say. */
  ghost predicate SentAck(cfg: Config, op: Op, a: Ack) {
    || (op.Post? && Receipt(cfg, op, a))
    || (&& op.Acknowledge? && SameAck(op.ack, a) && Dated(op.ack.createdAt, op.now, a.createdAt)
        && a.senderTag == Trim(op.ack.senderTag)
        && a.nodeId == (if op.ack.nodeId == "" then op.nodeId else op.ack.nodeId)
        && Lasts(cfg, op.ack.expiresAt, op.grant.retention, op.now, a.expiresAt))
    || (op.Import? && exists i :: 0 <= i < |op.page.acks| && ReplicatedAck(cfg, op.page.acks[i], op.now, a))
  }

  // ---------------------------------------------------------------- preparing

  lemma PreparedLasts(cfg: Config, e: Envelope, retention: int, now: nat)
    requires cfg.Valid()
    ensures Lasts(cfg, e.expiresAt, retention, now, PrepareEnvelope(cfg, e, retention, now).expiresAt)
  {
  }

  lemma PreparedAckLasts(cfg: Config, a: Ack, retention: int, now: nat)
    requires cfg.Valid()
    ensures Lasts(cfg, a.expiresAt, retention, now, PrepareAck(cfg, a, retention, now).expiresAt)
  {
  }

  lemma QueuedIsSent(cfg: Config, op: Op, e: Envelope, a: Ack)
    requires cfg.Valid() && op.Post? && e == PrepareEnvelope(cfg, TrimPosted(op.envelope), op.grant.retention, op.now)
    requires a == CoupledAck(e, op.nodeId, op.now)
    ensures Sent(cfg, op, e) && SentAck(cfg, op, a)
  {
    PreparedLasts(cfg, TrimPosted(op.envelope), op.grant.retention, op.now);
  }

  lemma AdoptedIsSent(cfg: Config, op: Op, e: Envelope)
    requires cfg.Valid() && op.Import? && CarriesMessage(cfg, TrimPage(op.page), op.now, e)
    ensures Sent(cfg, op, e)
  {
    var raw :| raw in TrimPage(op.page).messages && PrepareEnvelope(cfg, raw, 0, op.now) == e;
    var i :| 0 <= i < |op.page.messages| && raw == TrimImported(op.page.messages[i]);
    PreparedLasts(cfg, raw, 0, op.now);
    assert Replicated(cfg, op.page.messages[i], op.now, e);
  }

  lemma PostedAckIsSent(cfg: Config, op: Op, a: Ack)
    requires cfg.Valid() && op.Acknowledge? && IsPosted(cfg, TrimCall(op), a)
    ensures SentAck(cfg, op, a)
  {
    PreparedAckLasts(cfg, TrimAck(op.ack), op.grant.retention, op.now);
  }

  lemma AdoptedAckIsSent(cfg: Config, op: Op, a: Ack)
    requires cfg.Valid() && op.Import? && CarriesAck(cfg, TrimPage(op.page), op.now, a)
    ensures SentAck(cfg, op, a)
  {
    var raw :| raw in TrimPage(op.page).acks && PrepareAck(cfg, raw, 0, op.now) == a;
    var i :| 0 <= i < |op.page.acks| && raw == TrimImportedAck(op.page.acks[i]);
    PreparedAckLasts(cfg, raw, 0, op.now);
    assert ReplicatedAck(cfg, op.page.acks[i], op.now, a);
  }

  // ------------------------------------------------------------------- moves

  /** What one move of a request stores, the request brought. */
  lemma MoveStores(cfg: Config, op: Op, mv: Move)
    requires cfg.Valid() && Justified(cfg, TrimCall(op), mv)
    ensures mv.Queue? || mv.Adopt? ==> Sent(cfg, op, mv.e)
    ensures mv.Queue? || mv.Record? ==> SentAck(cfg, op, mv.a)
  {
    match mv
    case Queue(e, a, _) => QueuedIsSent(cfg, op, e, a);
    case Adopt(e) => AdoptedIsSent(cfg, op, e);
    case Record(a) => if op.Acknowledge? { PostedAckIsSent(cfg, op, a); } else { AdoptedAckIsSent(cfg, op, a); }
    case Expire(_, _) =>
    case Bury(_, _, _) =>
    case Entomb(_) =>
  }

  /** Every record was here before or came with the request. */
  ghost predicate Grown(cfg: Config, s: State, op: Op, messages: map<string, Envelope>, acks: map<string, Ack>) {
    && (forall m {:trigger messages[m]} | m in messages ::
          (m in s.messages && messages[m] == s.messages[m]) || Sent(cfg, op, messages[m]))
    && (forall a {:trigger acks[a]} | a in acks ::
          (a in s.acks && acks[a] == s.acks[a]) || SentAck(cfg, op, acks[a]))
  }

  lemma MoveGrows(cfg: Config, s: State, op: Op, mv: Move, messages: map<string, Envelope>, acks: map<string, Ack>)
    requires Grown(cfg, s, op, messages, acks)
    requires mv.Queue? || mv.Adopt? ==> Sent(cfg, op, mv.e)
    requires mv.Queue? || mv.Record? ==> SentAck(cfg, op, mv.a)
    ensures Grown(cfg, s, op, MessagesAfter(messages, mv), AcksAfter(acks, mv))
  {
  }

  lemma {:induction false} PlayGrows(cfg: Config, s: State, op: Op, mvs: seq<Move>)
    requires cfg.Valid() && AllJustified(cfg, TrimCall(op), mvs)
    ensures Grown(cfg, s, op, Play(s, mvs).messages, Play(s, mvs).acks)
  {
    if mvs != [] {
      var rest, mv := mvs[..|mvs| - 1], mvs[|mvs| - 1];
      PlayGrows(cfg, s, op, rest);
      assert mv in mvs;
      MoveStores(cfg, op, mv);
      MoveGrows(cfg, s, op, mv, Play(s, rest).messages, Play(s, rest).acks);
      ApplyRecords(Play(s, rest), mv);
    }
  }

  lemma CallGrows(cfg: Config, s: State, op: Op)
    requires cfg.Valid() && Inv(cfg, s)
    ensures var t := Step(cfg, s, TrimCall(op)); Grown(cfg, s, op, t.messages, t.acks)
  {
    var mvs := StepMoves(cfg, s, TrimCall(op));
    PlayGrows(cfg, s, op, mvs);
  }

  // -------------------------------------------------------------------- runs

  ghost predicate WasSent(cfg: Config, ops: seq<Op>, e: Envelope) {
    exists k :: 0 <= k < |ops| && Sent(cfg, ops[k], e)
  }

  ghost predicate AckWasSent(cfg: Config, ops: seq<Op>, a: Ack) {
    exists k :: 0 <= k < |ops| && SentAck(cfg, ops[k], a)
  }

  ghost predicate AllSent(cfg: Config, ops: seq<Op>, s: State) {
    && (forall m {:trigger s.messages[m]} | m in s.messages :: WasSent(cfg, ops, s.messages[m]))
    && (forall a {:trigger s.acks[a]} | a in s.acks :: AckWasSent(cfg, ops, s.acks[a]))
  }

  ghost predicate Accounted(cfg: Config, ops: seq<Op>, s: State) {
    forall i {:trigger Unsealed(i)} :: Unsealed(i) ==> AllSent(cfg, ops, s)
  }

  lemma AccountedIs(cfg: Config, ops: seq<Op>, s: State)
    ensures Accounted(cfg, ops, s) <==> AllSent(cfg, ops, s)
  {
    assert Unsealed(0);
  }

  lemma StillSent(cfg: Config, ops: seq<Op>, op: Op, e: Envelope)
    requires WasSent(cfg, ops, e) || Sent(cfg, op, e)
    ensures WasSent(cfg, ops + [op], e)
  {
    if WasSent(cfg, ops, e) {
      var k :| 0 <= k < |ops| && Sent(cfg, ops[k], e);
      assert (ops + [op])[k] == ops[k];
    } else {
      assert (ops + [op])[|ops|] == op;
    }
  }

  lemma AckStillSent(cfg: Config, ops: seq<Op>, op: Op, a: Ack)
    requires AckWasSent(cfg, ops, a) || SentAck(cfg, op, a)
    ensures AckWasSent(cfg, ops + [op], a)
  {
    if AckWasSent(cfg, ops, a) {
      var k :| 0 <= k < |ops| && SentAck(cfg, ops[k], a);
      assert (ops + [op])[k] == ops[k];
    } else {
      assert (ops + [op])[|ops|] == op;
    }
  }

  lemma LastCall(cfg: Config, ops: seq<Op>)
    requires ops != []
    ensures Exec(cfg, TrimCalls(ops)) == Step(cfg, Exec(cfg, TrimCalls(ops[..|ops| - 1])), TrimCall(ops[|ops| - 1]))
  {
    assert TrimCalls(ops)[..|ops| - 1] == TrimCalls(ops[..|ops| - 1]);
  }

  lemma {:induction false} RunAccounted(cfg: Config, ops: seq<Op>)
    requires cfg.Valid()
    ensures Accounted(cfg, ops, Exec(cfg, TrimCalls(ops)))
  {
    if ops == [] {
      AccountedIs(cfg, ops, EMPTY);
    } else {
      RunAccounted(cfg, ops[..|ops| - 1]);
      NextAccounted(cfg, ops, ops[..|ops| - 1], ops[|ops| - 1]);
    }
  }

  lemma NextAccounted(cfg: Config, ops: seq<Op>, rest: seq<Op>, op: Op)
    requires cfg.Valid() && ops != [] && rest == ops[..|ops| - 1] && op == ops[|ops| - 1]
    requires Accounted(cfg, rest, Exec(cfg, TrimCalls(rest)))
    ensures Accounted(cfg, ops, Exec(cfg, TrimCalls(ops)))
  {
    LastCall(cfg, ops);
    CallAccounted(cfg, rest, op, TrimCalls(rest), Exec(cfg, TrimCalls(ops)));
    Rejoined(ops);
  }

  lemma Rejoined<T>(xs: seq<T>)
    requires xs != []
    ensures xs[..|xs| - 1] + [xs[|xs| - 1]] == xs
  {
  }

  lemma CallAccounted(cfg: Config, ops: seq<Op>, op: Op, calls: seq<Op>, t: State)
    requires cfg.Valid() && Accounted(cfg, ops, Exec(cfg, calls)) && t == Step(cfg, Exec(cfg, calls), TrimCall(op))
    ensures Accounted(cfg, ops + [op], t)
  {
    Reachable(cfg, calls);
    CallGrows(cfg, Exec(cfg, calls), op);
    StillAccounted(cfg, ops, op, Exec(cfg, calls), t);
  }

  /** Over every run of requests, each stored letter was posted or came on a page, with
      its names and payload trimmed, its tags as they came, its life as asked and
      clamped, and nothing else about it changed; and each stored ack was posted, came
      on a page, or is the receipt of a posted letter. */
  lemma RecordsAreAsSent(cfg: Config, ops: seq<Op>)
    requires cfg.Valid()
    ensures AllSent(cfg, ops, Exec(cfg, TrimCalls(ops)))
  {
    RunAccounted(cfg, ops);
    AccountedIs(cfg, ops, Exec(cfg, TrimCalls(ops)));
  }

  lemma StillAccounted(cfg: Config, ops: seq<Op>, op: Op, s: State, t: State)
    requires Accounted(cfg, ops, s) && Grown(cfg, s, op, t.messages, t.acks)
    ensures Accounted(cfg, ops + [op], t)
  {
    AccountedIs(cfg, ops, s);
    forall m | m in t.messages
      ensures WasSent(cfg, ops + [op], t.messages[m])
    {
      StillSent(cfg, ops, op, t.messages[m]);
    }
    forall a | a in t.acks ensures AckWasSent(cfg, ops + [op], t.acks[a]) { AckStillSent(cfg, ops, op, t.acks[a]); }
    AccountedIs(cfg, ops + [op], t);
  }
}
