/** What a caller of the queue store is answered, and what the answer is worth. */
module QueueAnswers {
  import opened Common
  import opened Text
  import opened QueueModel
  import opened QueueRequest
  import opened QueueMoves
  import opened QueueInvariant
  import opened QueuePaging
  import opened QueueContents

  /** What the caller has shown suffices for records under `tag`. */
  predicate Proves(auth: Auth, tag: string) {
    auth.trusted || (tag == "" && auth.allowUntagged) || (tag != "" && tag in auth.tags)
  }

  // -------------------------------------------------------------------- posts

  /** What can be wrong with a posted letter, in the order it is looked at. */
  ghost function PostChecks(cfg: Config, s: State, raw: Envelope, grant: Grant, now: nat): seq<Check<Error>> {
    var id, sender, recipient, payload := Trim(raw.id), Trim(raw.sender), Trim(raw.recipient), Trim(raw.payload);
    var lane := JoinNul(sender, recipient);
    [ Check(id == "" || sender == "" || recipient == "" || payload == "", Invalid),
      Check(Utf8Len(payload) > cfg.maxPayloadBytes, PayloadTooLarge),
      Check(raw.expiresAt != NOT_SET && raw.expiresAt <= now, Expired),
      Check(id in s.messages, Duplicate),
      Check(Buried(s, raw, now), Duplicate),
      Check(|Lane(s, lane)| >= LowerOf(cfg.maxPerPair, grant.maxPerPair), PairQuotaFull),
      Check(grant.credential != 0
            && |ChargedTo(s, grant.credential)| >= LowerOf(cfg.maxMessages, grant.slots), SlotsFull),
      Check(|s.messages| >= cfg.maxMessages, QueueFull),
      Check(id + ":node_received" in s.acks, Duplicate),
      Check(|s.acks| >= cfg.maxAcks, QueueFull) ]
  }

  /** The letter is stamped with the hash of an owner whose tombstone stands. */
  predicate Buried(s: State, raw: Envelope, now: nat) {
    && "purgeHash" in raw.metadata && raw.metadata["purgeHash"] != "" && raw.metadata["purgeHash"] in s.purges
    && now < s.purges[raw.metadata["purgeHash"]].expiresAt
  }

  lemma LivesIff(cfg: Config, raw: Envelope, retention: int, now: nat)
    requires cfg.Valid()
    ensures now < PrepareEnvelope(cfg, raw, retention, now).expiresAt
       <==> raw.expiresAt == NOT_SET || now < raw.expiresAt
  {
  }

  lemma EnvelopeAnswer(cfg: Config, raw: Envelope, retention: int, now: nat)
    requires cfg.Valid()
    ensures var e := PrepareEnvelope(cfg, TrimPosted(raw), retention, now);
            EnvelopeError(cfg, e, now)
            == if Trim(raw.id) == "" || Trim(raw.sender) == "" || Trim(raw.recipient) == "" || Trim(raw.payload) == ""
               then Some(Invalid)
               else if Utf8Len(Trim(raw.payload)) > cfg.maxPayloadBytes then Some(PayloadTooLarge)
               else if raw.expiresAt != NOT_SET && raw.expiresAt <= now then Some(Expired)
               else None
  {
    LivesIff(cfg, TrimPosted(raw), retention, now);
  }

  /** A post is answered by the first thing that is wrong with it. */
  lemma PostAnswered(cfg: Config, s: State, raw: Envelope, nodeId: string, grant: Grant, now: nat)
    requires cfg.Valid()
    ensures var e := PrepareEnvelope(cfg, TrimPosted(raw), grant.retention, now);
            AdmitReply(cfg, s, e, nodeId, grant, now).error == First(PostChecks(cfg, s, raw, grant, now))
  {
    FirstOfTen(PostChecks(cfg, s, raw, grant, now));
    EnvelopeAnswer(cfg, raw, grant.retention, now);
  }

  /** It comes with a receipt if it is accepted or if its id is queued already. */
  lemma PostReceipted(cfg: Config, s: State, raw: Envelope, nodeId: string, grant: Grant, now: nat)
    requires cfg.Valid()
    ensures var e := PrepareEnvelope(cfg, TrimPosted(raw), grant.retention, now);
            var reply := AdmitReply(cfg, s, e, nodeId, grant, now);
            var checks := PostChecks(cfg, s, raw, grant, now);
            && (reply.ack.Some? <==> !checks[0].fails && !checks[1].fails && !checks[2].fails
                                     && (reply.error.None? || Trim(raw.id) in s.messages))
            && (reply.ack.Some? ==> Receipt(cfg, Post(raw, nodeId, grant, now), reply.ack.value))
  {
    EnvelopeAnswer(cfg, raw, grant.retention, now);
    var e := PrepareEnvelope(cfg, TrimPosted(raw), grant.retention, now);
    QueuedIsSent(cfg, Post(raw, nodeId, grant, now), e, CoupledAck(e, nodeId, now));
  }

  /** A refused post changes nothing.  An accepted one adds the letter and its receipt,
      charges the circle, and binds the letter's tag to its id unless a nonempty one
      is bound already. */
  lemma PostTakesEffect(cfg: Config, s: State, raw: Envelope, nodeId: string, grant: Grant, now: nat)
    requires cfg.Valid()
    ensures var t, id := Step(cfg, s, TrimCall(Post(raw, nodeId, grant, now))), Trim(raw.id);
            var post := Post(raw, nodeId, grant, now);
            if First(PostChecks(cfg, s, raw, grant, now)).Some? then t == s
            else && id in t.messages && Sent(cfg, post, t.messages[id])
                 && t.messages == s.messages[id := t.messages[id]]
                 && id + ":node_received" in t.acks && Receipt(cfg, post, t.acks[id + ":node_received"])
                 && t.acks[id + ":node_received"].expiresAt == t.messages[id].expiresAt
                 && t.acks == s.acks[id + ":node_received" := t.acks[id + ":node_received"]]
                 && t.purges == s.purges && t.seqNo == s.seqNo + 2
                 && t.charged == (if grant.credential == 0 then s.charged else s.charged[id := grant.credential])
                 && id in t.tags
                 && t.tags[id] == if id in s.tags && s.tags[id] != "" then s.tags[id] else Trim(raw.recipientTag)
  {
    PostAnswered(cfg, s, raw, nodeId, grant, now);
    var e := PrepareEnvelope(cfg, TrimPosted(raw), grant.retention, now);
    if First(PostChecks(cfg, s, raw, grant, now)).None? {
      AcceptedEffect(cfg, s, e, nodeId, grant, now);
      QueuedIsSent(cfg, Post(raw, nodeId, grant, now), e, CoupledAck(e, nodeId, now));
      FirstOfTen(PostChecks(cfg, s, raw, grant, now));
    }
  }

  lemma AcceptedEffect(cfg: Config, s: State, e: Envelope, nodeId: string, grant: Grant, now: nat)
    requires AdmitReply(cfg, s, e, nodeId, grant, now).error.None?
    ensures var t, a := Admit(cfg, s, e, nodeId, grant, now), CoupledAck(e, nodeId, now);
            && t.messages == s.messages[e.id := e] && t.acks == s.acks[a.id := a] && t.purges == s.purges
            && t.seqNo == s.seqNo + 2
            && t.charged == (if grant.credential == 0 then s.charged else s.charged[e.id := grant.credential])
            && e.id in t.tags
            && t.tags[e.id] == if e.id in s.tags && s.tags[e.id] != "" then s.tags[e.id] else e.recipientTag
  {
  }

  /** The receipt of an accepted post is there for its sender to fetch, and for nobody
      who cannot show the sender's tag. */
  lemma ReceiptIsTheSenders(cfg: Config, s: State, raw: Envelope, nodeId: string, grant: Grant, now: nat, auth: Auth)
    requires cfg.Valid() && First(PostChecks(cfg, s, raw, grant, now)).None?
    ensures var e := PrepareEnvelope(cfg, TrimPosted(raw), grant.retention, now);
            var reply := AdmitReply(cfg, s, e, nodeId, grant, now);
            var t := Step(cfg, s, TrimCall(Post(raw, nodeId, grant, now)));
            && reply.ack.Some?
            && forall who :: reply.ack.value in ReadableAckSet(t, who, auth)
                             <==> who == Trim(raw.sender) && Proves(auth, Trim(raw.senderTag))
  {
    PostAnswered(cfg, s, raw, nodeId, grant, now);
    var e := PrepareEnvelope(cfg, TrimPosted(raw), grant.retention, now);
    AcceptedEffect(cfg, s, e, nodeId, grant, now);
    ReceiptSays(cfg, s, e, nodeId, grant, now);
    ReceiptRead(Admit(cfg, s, e, nodeId, grant, now), CoupledAck(e, nodeId, now), auth);
  }

  lemma ReceiptSays(cfg: Config, s: State, e: Envelope, nodeId: string, grant: Grant, now: nat)
    requires AdmitReply(cfg, s, e, nodeId, grant, now).error.None?
    ensures AdmitReply(cfg, s, e, nodeId, grant, now).ack == Some(CoupledAck(e, nodeId, now))
    ensures CoupledAck(e, nodeId, now).sender == e.sender && CoupledAck(e, nodeId, now).senderTag == e.senderTag
  {
  }

  /** A stored ack is in the reading of whoever asks in its sender's name and proves
      its tag. */
  lemma ReceiptRead(t: State, a: Ack, auth: Auth)
    requires a.id in t.acks && t.acks[a.id] == a
    ensures forall who :: a in ReadableAckSet(t, who, auth) <==> who == a.sender && Proves(auth, a.senderTag)
  {
    forall who | who == a.sender && Proves(auth, a.senderTag) ensures a in ReadableAckSet(t, who, auth) {
      assert ReadableAck(t, who, auth, t.acks[a.id]);
    }
  }

  // --------------------------------------------------------------------- acks

  ghost function AckChecks(cfg: Config, s: State, raw: Ack, auth: Auth, now: nat): seq<Check<Error>> {
    var id, about := Trim(raw.id), Trim(raw.messageId);
    [ Check(id == "" || about == "" || Trim(raw.sender) == "" || Trim(raw.recipient) == "" || raw.kind.Other?, Invalid),
      Check(raw.expiresAt != NOT_SET && raw.expiresAt <= now, Expired),
      Check(about in s.tags && !Proves(auth, s.tags[about]), NotOwned),
      Check(id in s.acks, Duplicate),
      Check(|s.acks| >= cfg.maxAcks - cfg.maxMessages, QueueFull) ]
  }

  lemma AckLivesIff(cfg: Config, raw: Ack, retention: int, now: nat)
    requires cfg.Valid()
    ensures now < PrepareAck(cfg, raw, retention, now).expiresAt <==> raw.expiresAt == NOT_SET || now < raw.expiresAt
  {
  }

  /** A posted ack is answered by the first thing that is wrong with it. */
  lemma AckAnswered(cfg: Config, s: State, raw: Ack, nodeId: string, grant: Grant, auth: Auth, now: nat)
    requires cfg.Valid()
    ensures var a := PreparePostedAck(cfg, s, TrimAck(raw), nodeId, grant, now);
            PostAckError(cfg, s, a, auth, now) == First(AckChecks(cfg, s, raw, auth, now))
  {
    FirstOfFive(AckChecks(cfg, s, raw, auth, now));
    AckLivesIff(cfg, TrimAck(raw), grant.retention, now);
  }

  /** The five kinds that settle a message. */
  predicate Settles(kind: AckType) {
    kind == RecipientDeviceReceived || kind == RecipientRead || kind == ExpiredAck || kind == Rejected
    || kind == RetractionApplied
  }

  /** A refused ack changes nothing.  An accepted one is stored under the tag this
      store holds for its message, and its message leaves the queue if it settles it. */
  lemma AckTakesEffect(cfg: Config, s: State, raw: Ack, nodeId: string, grant: Grant, auth: Auth, now: nat)
    requires cfg.Valid()
    ensures var post := Acknowledge(raw, nodeId, grant, auth, now);
            var t, id, about := Step(cfg, s, TrimCall(post)), Trim(raw.id), Trim(raw.messageId);
            if First(AckChecks(cfg, s, raw, auth, now)).Some? then t == s
            else && id in t.acks && SentAck(cfg, post, t.acks[id]) && t.acks == s.acks[id := t.acks[id]]
                 && t.acks[id].recipientTag == (if about in s.tags then s.tags[about] else "")
                 && t.messages == (if Settles(raw.kind) then s.messages - {about} else s.messages)
                 && t.purges == s.purges && t.seqNo == s.seqNo + 1
  {
    AckAnswered(cfg, s, raw, nodeId, grant, auth, now);
    var a := PreparePostedAck(cfg, s, TrimAck(raw), nodeId, grant, now);
    AckAdmitted(cfg, s, a, auth, now);
    SettlesIs(a.kind);
    PostedAckIsSent(cfg, Acknowledge(raw, nodeId, grant, auth, now), a);
  }

  lemma SettlesIs(kind: AckType)
    ensures Settles(kind) <==> Terminal(kind)
  {
  }

  lemma AckAdmitted(cfg: Config, s: State, a: Ack, auth: Auth, now: nat)
    ensures var t := AdmitAck(cfg, s, a, auth, now);
            if PostAckError(cfg, s, a, auth, now).Some? then t == s
            else && t.acks == s.acks[a.id := a] && t.purges == s.purges && t.seqNo == s.seqNo + 1
                 && t.messages == if Terminal(a.kind) then s.messages - {a.messageId} else s.messages
  {
    StoreAckRecords(s, a);
  }

  // ------------------------------------------------------------------- imports

  ghost function ImportChecks(cfg: Config, s: State, raw: Envelope, now: nat): seq<Check<Error>> {
    var id, payload := Trim(raw.id), Trim(raw.payload);
    [ Check(id == "" || Trim(raw.sender) == "" || Trim(raw.recipient) == "" || payload == "", Invalid),
      Check(Utf8Len(payload) > cfg.maxPayloadBytes, PayloadTooLarge),
      Check(raw.expiresAt != NOT_SET && raw.expiresAt <= now, Expired),
      Check(id in s.messages || Buried(s, raw, now) || SettledHere(s, id), Duplicate),
      Check(|s.messages| >= cfg.maxMessages, QueueFull) ]
  }

  /** An ack stored here has settled the message. */
  ghost predicate SettledHere(s: State, id: string) {
    exists a :: a in s.acks && s.acks[a].messageId == id && Settles(s.acks[a].kind)
  }

  /** A replicated message is answered by the first thing that is wrong with it. */
  lemma ImportAnswered(cfg: Config, s: State, raw: Envelope, now: nat)
    requires cfg.Valid()
    ensures var e := PrepareEnvelope(cfg, TrimImported(raw), 0, now);
            ImportMessageError(cfg, s, e, now) == First(ImportChecks(cfg, s, raw, now))
  {
    FirstOfFive(ImportChecks(cfg, s, raw, now));
    LivesIff(cfg, TrimImported(raw), 0, now);
    SettledIs(s, Trim(raw.id));
  }

  lemma SettledIs(s: State, id: string)
    ensures SettledHere(s, id) <==> HasTerminalAck(s, id)
  {
    forall a | a in s.acks ensures Settles(s.acks[a].kind) <==> Terminal(s.acks[a].kind) { SettlesIs(s.acks[a].kind); }
  }

  ghost function ImportAckChecks(cfg: Config, s: State, raw: Ack, now: nat): seq<Check<Error>> {
    var id := Trim(raw.id);
    [ Check(id == "" || Trim(raw.messageId) == "" || Trim(raw.sender) == "" || Trim(raw.recipient) == ""
            || raw.kind.Other?, Invalid),
      Check(raw.expiresAt != NOT_SET && raw.expiresAt <= now, Expired),
      Check(false, NotOwned),
      Check(id in s.acks, Duplicate),
      Check(|s.acks| >= cfg.maxAcks - cfg.maxMessages, QueueFull) ]
  }

  /** And so is a replicated ack, which nobody has to prove anything about. */
  lemma ImportAckAnswered(cfg: Config, s: State, raw: Ack, now: nat)
    requires cfg.Valid()
    ensures var a := PrepareAck(cfg, TrimImportedAck(raw), 0, now);
            ImportAckError(cfg, s, a, now) == First(ImportAckChecks(cfg, s, raw, now))
  {
    FirstOfFive(ImportAckChecks(cfg, s, raw, now));
    AckLivesIff(cfg, TrimImportedAck(raw), 0, now);
  }

  // -------------------------------------------------------------------- reads

  /** A fetch in the name of `recipient` can see exactly the unexpired letters to that
      name whose tag the caller proves. */
  lemma FetchSees(s: State, recipient: string, auth: Auth, now: nat, e: Envelope)
    requires Sound(s)
    ensures e in ReadableSet(SweepMessages(s, now), recipient, auth)
       <==> e.id in s.messages && s.messages[e.id] == e && now < e.expiresAt && e.recipient == recipient
            && Proves(auth, e.recipientTag)
  {
    DropRecords(s, ExpiredMessages(s, now), {});
    var t := SweepMessages(s, now);
    if e.id in t.messages && t.messages[e.id] == e {
      assert Readable(t, recipient, auth, e) <==> e in ReadableSet(t, recipient, auth);
    }
  }

  lemma AckFetchSees(s: State, sender: string, auth: Auth, now: nat, a: Ack)
    requires Sound(s)
    ensures a in ReadableAckSet(SweepAcks(s, now), sender, auth)
       <==> a.id in s.acks && s.acks[a.id] == a && now < a.expiresAt && a.sender == sender && Proves(auth, a.senderTag)
  {
    DropRecords(s, {}, ExpiredAcks(s, now));
    var t := SweepAcks(s, now);
    if a.id in t.acks && t.acks[a.id] == a {
      assert ReadableAck(t, sender, auth, a) <==> a in ReadableAckSet(t, sender, auth);
    }
  }

  /** So over every run of requests whoever fetches gets only what was sent to the name
      they ask in, as it was sent, under a tag they prove. */
  lemma FetchedWasSent(cfg: Config, ops: seq<Op>, recipient: string, auth: Auth, now: nat, e: Envelope)
    requires cfg.Valid() && e in ReadableSet(SweepMessages(Exec(cfg, TrimCalls(ops)), now), recipient, auth)
    ensures WasSent(cfg, ops, e) && e.recipient == recipient && Proves(auth, e.recipientTag) && now < e.expiresAt
  {
    RecordsAreAsSent(cfg, ops);
    Reachable(cfg, TrimCalls(ops));
    FetchSees(Exec(cfg, TrimCalls(ops)), recipient, auth, now, e);
  }

  // ---------------------------------------------------------- purges and sweeps

  /** The letters not stamped with that hash, and the acks not about one that is. */
  function LettersLeft(s: State, hash: string): map<string, Envelope> {
    map m | m in s.messages
            && !("purgeHash" in s.messages[m].metadata && s.messages[m].metadata["purgeHash"] == hash) :: s.messages[m]
  }

  function AcksLeft(s: State, hash: string): map<string, Ack> {
    map a | a in s.acks
            && !(s.acks[a].messageId in s.messages && s.acks[a].messageId !in LettersLeft(s, hash)) :: s.acks[a]
  }

  /** A burial, which is what an owner's purge and a replicated tombstone come to,
      removes the owner's letters and every ack about one, and nothing else; the
      tombstone stands if there is room for it or the owner has one. */
  lemma PurgeTakesEffect(cfg: Config, s: State, p: Purge, t: State)
    requires p.hash != "" && t == BuryOwner(cfg, s, p)
    ensures t.messages == LettersLeft(s, p.hash) && t.acks == AcksLeft(s, p.hash)
    ensures t.purges == if p.hash in s.purges || |s.purges| < cfg.maxPurges then s.purges[p.hash := p] else s.purges
  {
    TombstoneStored(cfg, s, p);
    MailPurged(StorePurge(cfg, s, p), p.hash);
    OwnersGone(s, StorePurge(cfg, s, p), t, p.hash);
  }

  lemma TombstoneStored(cfg: Config, s: State, p: Purge)
    ensures var t := StorePurge(cfg, s, p);
            && t.messages == s.messages && t.acks == s.acks
            && t.purges == if p.hash in s.purges || |s.purges| < cfg.maxPurges then s.purges[p.hash := p] else s.purges
  {
  }

  lemma MailPurged(s: State, hash: string)
    requires hash != ""
    ensures var t, ms := PurgeMail(s, hash), MessagesWithHash(s, hash);
            t.messages == s.messages - ms && t.acks == s.acks - AcksNaming(s, ms) && t.purges == s.purges
  {
    DropRecords(s, MessagesWithHash(s, hash), AcksNaming(s, MessagesWithHash(s, hash)));
  }

  lemma OwnersGone(s: State, u: State, t: State, hash: string)
    requires hash != "" && u.messages == s.messages && u.acks == s.acks
    requires t.messages == u.messages - MessagesWithHash(u, hash)
    requires t.acks == u.acks - AcksNaming(u, MessagesWithHash(u, hash))
    ensures t.messages == LettersLeft(s, hash) && t.acks == AcksLeft(s, hash)
  {
    forall m | m in s.messages ensures m in MessagesWithHash(u, hash) <==> m !in LettersLeft(s, hash) { }
  }

  /** A sweep keeps exactly what has not run out, of all three tables. */
  lemma SweepKeepsTheLiving(cfg: Config, s: State, now: nat)
    ensures var t := Step(cfg, s, Prune(now));
            && t == Step(cfg, s, Snapshot(now))
            && t.messages == (map m | m in s.messages && now < s.messages[m].expiresAt :: s.messages[m])
            && t.acks == (map a | a in s.acks && now < s.acks[a].expiresAt :: s.acks[a])
            && t.purges == (map h | h in s.purges && now < s.purges[h].expiresAt :: s.purges[h])
  {
    DropRecords(s, ExpiredMessages(s, now), ExpiredAcks(s, now));
  }
}
