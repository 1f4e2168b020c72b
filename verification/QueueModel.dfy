/** The queue store as a value: what it holds and what each operation does to it,
    written with plain scans.  The class QueueStore.Store keeps counters and
    indexes instead of scanning and is proved to agree with this module.

    Strings reach these functions already trimmed: the store trims each request
    before it decides anything, and the functions here are total on all strings. */
module QueueModel {
  import opened Common
  import opened Text

  /** Instants are nanosecond counts; zero is Go's zero time, which the source
      reads as "not set". */
  type Time = int
  const NOT_SET: Time := 0

  datatype Error = Duplicate | Expired | QueueFull | PairQuotaFull | SlotsFull
                 | PayloadTooLarge | Invalid | NotOwned

  datatype AckType = NodeReceived | RecipientDeviceReceived | RecipientRead | ExpiredAck
                   | Rejected | RetractionApplied | Other(name: string)

  datatype Envelope = Envelope(id: string, sender: string, recipient: string,
                               createdAt: Time, expiresAt: Time, payload: string,
                               contentType: string, keyId: string, signature: string,
                               metadata: map<string, string>,
                               recipientTag: string, senderTag: string)

  datatype Ack = Ack(id: string, messageId: string, sender: string, recipient: string,
                     kind: AckType, createdAt: Time, expiresAt: Time, nodeId: string,
                     signature: string, senderTag: string, recipientTag: string, reason: string)

  datatype Purge = Purge(hash: string, expiresAt: Time)

  datatype Grant = Grant(credential: nat, slots: int, maxPerPair: int, retention: int)

  const NO_GRANT := Grant(0, 0, 0, 0)

  /** What one caller proved about itself: tags derived from presented secrets. */
  datatype Auth = Auth(tags: seq<string>, allowUntagged: bool, trusted: bool) {
    predicate Permits(tag: string) {
      trusted || (if tag == "" then allowUntagged else tag in tags)
    }
  }

  const TRUSTED := Auth([], true, true)

  datatype Page = Page(epoch: string, nextSeq: nat, more: bool,
                       messages: seq<Envelope>, acks: seq<Ack>, purges: seq<Purge>)

  datatype Config = Config(maxMessages: int, maxAcks: int, maxPurges: int, maxPerPair: int,
                           maxPayloadBytes: int, maxTTL: int, defaultTTL: int) {
    predicate Valid() {
      && 0 < maxMessages < maxAcks && 0 < maxPurges && 0 < maxPerPair
      && 0 < maxPayloadBytes && 0 < maxTTL && 0 < defaultTTL
    }

    /** The part of the ack lane that caller-posted and replicated acks may fill. */
    function ExternalAckCapacity(): int { maxAcks - maxMessages }

    /** NewStore's corrections: whatever an embedder passes, every cap ends up
        positive and the ack lane ends up larger than the message lane. */
    function Corrected(): (c: Config)
      ensures c.Valid()
      ensures Valid() ==> c == this
    {
      var messages := if maxMessages <= 0 then 1000 else maxMessages;
      Config(messages,
             if maxAcks <= messages then 2 * messages else maxAcks,
             if maxPurges <= 0 then 1000 else maxPurges,
             if maxPerPair <= 0 then 10 else maxPerPair,
             if maxPayloadBytes <= 0 then 8192 else maxPayloadBytes,
             if maxTTL <= 0 then 72 * HOUR else maxTTL,
             if defaultTTL <= 0 then 24 * HOUR else defaultTTL)
    }
  }

  predicate ValidAckType(kind: AckType) { !kind.Other? }

  /** Five of the six known ack types remove the message they name. */
  predicate Terminal(kind: AckType) { ValidAckType(kind) && !kind.NodeReceived? }

  function PurgeHash(e: Envelope): string {
    if "purgeHash" in e.metadata then e.metadata["purgeHash"] else ""
  }

  function PairKey(e: Envelope): string { JoinNul(e.sender, e.recipient) }

  function CoupledId(id: string): string { id + ":node_received" }

  lemma CoupledIdInjective(a: string, b: string)
    requires CoupledId(a) == CoupledId(b)
    ensures a == b
  {
    assert a == CoupledId(a)[..|CoupledId(a)| - 14];
    assert b == CoupledId(b)[..|CoupledId(b)| - 14];
  }

  /** Which record: arrival numbers run across both kinds. */
  datatype Ref = MessageRef(id: string) | AckRef(id: string)

  // ----------------------------------------------------------------- state

  /** `charged` is the credential each queued envelope was posted under, `tags`
      the write-authorization binding of every message id some record names. */
  datatype State = State(messages: map<string, Envelope>, acks: map<string, Ack>,
                         purges: map<string, Purge>, seqNo: nat,
                         messageSeq: map<string, nat>, ackSeq: map<string, nat>,
                         charged: map<string, nat>, tags: map<string, string>)

  const EMPTY := State(map[], map[], map[], 0, map[], map[], map[], map[])

  /** Some stored record is about message `id`. */
  ghost predicate Named(messages: map<string, Envelope>, acks: map<string, Ack>, id: string) {
    id in messages || exists a :: a in acks && acks[a].messageId == id
  }

  ghost predicate HasTerminalAck(s: State, id: string) {
    exists a :: a in s.acks && s.acks[a].messageId == id && Terminal(s.acks[a].kind)
  }

  ghost function AcksNaming(s: State, ids: set<string>): set<string> {
    set a | a in s.acks && s.acks[a].messageId in ids
  }

  ghost function MessagesWithHash(s: State, hash: string): set<string> {
    set m | m in s.messages && PurgeHash(s.messages[m]) == hash
  }

  ghost function Lane(s: State, key: string): set<string> {
    set m | m in s.messages && PairKey(s.messages[m]) == key
  }

  ghost function ChargedTo(s: State, credential: nat): set<string> {
    set m | m in s.charged && s.charged[m] == credential
  }

  // ------------------------------------------------------- primitive moves

  /** The first nonempty tag bound to a message id stays. */
  function Bind(tags: map<string, string>, id: string, tag: string): map<string, string> {
    if id == "" || (id in tags && tags[id] != "") then tags else tags[id := tag]
  }

  function InsertMessage(s: State, e: Envelope, credential: nat): State {
    s.(messages := s.messages[e.id := e],
       seqNo := s.seqNo + 1,
       messageSeq := s.messageSeq[e.id := s.seqNo + 1],
       charged := if credential != 0 then s.charged[e.id := credential] else s.charged,
       tags := Bind(s.tags, e.id, e.recipientTag))
  }

  function InsertAck(s: State, a: Ack): State {
    s.(acks := s.acks[a.id := a],
       seqNo := s.seqNo + 1,
       ackSeq := s.ackSeq[a.id := s.seqNo + 1],
       tags := Bind(s.tags, a.messageId, a.recipientTag))
  }

  /** Remove messages `ms` and acks `as_`; a binding goes with the last record
      naming its message id. */
  ghost function Drop(s: State, ms: set<string>, as_: set<string>): State {
    var messages := s.messages - ms;
    var acks := s.acks - as_;
    s.(messages := messages, acks := acks,
       messageSeq := s.messageSeq - ms, ackSeq := s.ackSeq - as_,
       charged := s.charged - ms,
       tags := map id | id in s.tags && Named(messages, acks, id) :: s.tags[id])
  }

  // ------------------------------------------------------------ operations

  function Clamp(expiresAt: Time, now: nat, ttl: int): Time {
    Min(expiresAt, now + ttl)
  }

  /** Default and clamped lifetime of an incoming envelope. */
  function PrepareEnvelope(cfg: Config, e: Envelope, retention: int, now: nat): Envelope {
    e.(createdAt := if e.createdAt == NOT_SET then now else e.createdAt,
       expiresAt := Clamp(if e.expiresAt == NOT_SET then now + cfg.defaultTTL else e.expiresAt,
                          now, LowerOf(cfg.maxTTL, retention)))
  }

  function EnvelopeError(cfg: Config, e: Envelope, now: nat): Option<Error> {
    if e.id == "" || e.sender == "" || e.recipient == "" || e.payload == "" then Some(Invalid)
    else if Utf8Len(e.payload) > cfg.maxPayloadBytes then Some(PayloadTooLarge)
    else if e.expiresAt <= now then Some(Expired)
    else None
  }

  function CoupledAck(e: Envelope, nodeId: string, now: nat): Ack {
    Ack(CoupledId(e.id), e.id, e.sender, e.recipient, NodeReceived, now, e.expiresAt, nodeId,
        "", e.senderTag, e.recipientTag, "")
  }

  predicate Entombed(s: State, e: Envelope, now: nat) {
    PurgeHash(e) != "" && PurgeHash(e) in s.purges && now < s.purges[PurgeHash(e)].expiresAt
  }

  /** The checks a prepared envelope passes before an ack is coupled to it. */
  ghost function AdmissionError(cfg: Config, s: State, e: Envelope, grant: Grant, now: nat): Option<Error> {
    if e.id in s.messages then Some(Duplicate)
    else if Entombed(s, e, now) then Some(Duplicate)
    else if |Lane(s, PairKey(e))| >= LowerOf(cfg.maxPerPair, grant.maxPerPair) then Some(PairQuotaFull)
    else if grant.credential != 0
         && |ChargedTo(s, grant.credential)| >= LowerOf(cfg.maxMessages, grant.slots) then Some(SlotsFull)
    else if |s.messages| >= cfg.maxMessages then Some(QueueFull)
    else None
  }

  /** Whether an ack fits under `capacity`; acks never carry an unset expiry here. */
  function AckError(s: State, a: Ack, now: nat, capacity: int): Option<Error> {
    if a.id in s.acks then Some(Duplicate)
    else if |s.acks| >= capacity then Some(QueueFull)
    else if a.expiresAt <= now then Some(Expired)
    else None
  }

  /** Go returns an ack and an error side by side. */
  datatype PostReply = PostReply(ack: Option<Ack>, error: Option<Error>)

  /** The answer to a prepared envelope. */
  ghost function AdmitReply(cfg: Config, s: State, e: Envelope, nodeId: string, grant: Grant, now: nat): PostReply {
    var ack := CoupledAck(e, nodeId, now);
    if EnvelopeError(cfg, e, now).Some? then PostReply(None, EnvelopeError(cfg, e, now))
    else if e.id in s.messages then PostReply(Some(ack), Some(Duplicate))
    else if AdmissionError(cfg, s, e, grant, now).Some? then PostReply(None, AdmissionError(cfg, s, e, grant, now))
    else if AckError(s, ack, now, cfg.maxAcks).Some? then PostReply(None, AckError(s, ack, now, cfg.maxAcks))
    else PostReply(Some(ack), None)
  }

  /** Queue a prepared envelope together with its coupled node_received ack. */
  ghost function Admit(cfg: Config, s: State, e: Envelope, nodeId: string, grant: Grant, now: nat): State {
    if AdmitReply(cfg, s, e, nodeId, grant, now).error.None?
    then InsertMessage(InsertAck(s, CoupledAck(e, nodeId, now)), e, grant.credential)
    else s
  }

  ghost function PostMessage(cfg: Config, s: State, raw: Envelope, nodeId: string, grant: Grant, now: nat): State {
    Admit(cfg, s, PrepareEnvelope(cfg, raw, grant.retention, now), nodeId, grant, now)
  }

  function PrepareAck(cfg: Config, a: Ack, retention: int, now: nat): Ack {
    a.(createdAt := if a.createdAt == NOT_SET then now else a.createdAt,
       expiresAt := Clamp(if a.expiresAt == NOT_SET then now + cfg.defaultTTL else a.expiresAt,
                          now, LowerOf(cfg.maxTTL, retention)))
  }

  function AckFieldError(a: Ack, now: nat): Option<Error> {
    if a.id == "" || a.messageId == "" || a.sender == "" || a.recipient == "" || !ValidAckType(a.kind)
    then Some(Invalid)
    else if a.expiresAt <= now then Some(Expired)
    else None
  }

  /** A posted ack as it would be stored: the tag on the wire is discarded and
      replaced by the one this store holds for the message. */
  function PreparePostedAck(cfg: Config, s: State, raw: Ack, nodeId: string, grant: Grant, now: nat): Ack {
    var a := PrepareAck(cfg, raw, grant.retention, now);
    a.(nodeId := if a.nodeId == "" then nodeId else a.nodeId,
       recipientTag := if a.messageId in s.tags then s.tags[a.messageId] else "")
  }

  function PostAckError(cfg: Config, s: State, a: Ack, auth: Auth, now: nat): Option<Error> {
    if AckFieldError(a, now).Some? then AckFieldError(a, now)
    else if a.messageId in s.tags && !auth.Permits(s.tags[a.messageId]) then Some(NotOwned)
    else AckError(s, a, now, cfg.ExternalAckCapacity())
  }

  ghost function StoreAck(s: State, a: Ack): State {
    if Terminal(a.kind) then Drop(InsertAck(s, a), {a.messageId}, {}) else InsertAck(s, a)
  }

  /** Store a prepared ack and remove the message a terminal one names. */
  ghost function AdmitAck(cfg: Config, s: State, a: Ack, auth: Auth, now: nat): State {
    if PostAckError(cfg, s, a, auth, now).None? then StoreAck(s, a) else s
  }

  ghost function PostAck(cfg: Config, s: State, raw: Ack, nodeId: string, grant: Grant, auth: Auth, now: nat): State {
    AdmitAck(cfg, s, PreparePostedAck(cfg, s, raw, nodeId, grant, now), auth, now)
  }

  // ---------------------------------------------------------------- sweeps

  ghost function ExpiredMessages(s: State, now: Time): set<string> {
    set m | m in s.messages && s.messages[m].expiresAt <= now
  }

  ghost function ExpiredAcks(s: State, now: Time): set<string> {
    set a | a in s.acks && s.acks[a].expiresAt <= now
  }

  ghost function LivePurges(purges: map<string, Purge>, now: Time): map<string, Purge> {
    map h | h in purges && now < purges[h].expiresAt :: purges[h]
  }

  ghost function SweepMessages(s: State, now: Time): State { Drop(s, ExpiredMessages(s, now), {}) }

  ghost function SweepAcks(s: State, now: Time): State { Drop(s, {}, ExpiredAcks(s, now)) }

  /** PruneExpired, and what SnapshotSince does before it serves. */
  ghost function Sweep(s: State, now: Time): State {
    Drop(s, ExpiredMessages(s, now), ExpiredAcks(s, now)).(purges := LivePurges(s.purges, now))
  }

  // ---------------------------------------------------------------- purges

  function StorePurge(cfg: Config, s: State, p: Purge): State {
    if p.hash !in s.purges && |s.purges| >= cfg.maxPurges then s
    else s.(purges := s.purges[p.hash := p])
  }

  /** Remove every message stamped with `hash` and every ack naming one.  The
      empty hash matches nothing. */
  ghost function PurgeMail(s: State, hash: string): State {
    if hash == "" then s
    else var owned := MessagesWithHash(s, hash); Drop(s, owned, AcksNaming(s, owned))
  }

  /** Store the tombstone if there is room; remove the mail in any case. */
  ghost function BuryOwner(cfg: Config, s: State, p: Purge): State {
    PurgeMail(StorePurge(cfg, s, p), p.hash)
  }

  ghost function PurgeOwner(cfg: Config, s: State, hash: string, now: nat): State {
    BuryOwner(cfg, s, Purge(hash, now + cfg.defaultTTL))
  }

  // ---------------------------------------------------------------- import

  predicate PurgeAcceptable(p: Purge, now: nat) { p.hash != "" && now < p.expiresAt }

  ghost function ImportPurge(cfg: Config, s: State, p: Purge, now: nat): State {
    if PurgeAcceptable(p, now) then BuryOwner(cfg, s, p) else s
  }

  ghost function ImportMessageError(cfg: Config, s: State, e: Envelope, now: nat): Option<Error> {
    if EnvelopeError(cfg, e, now).Some? then EnvelopeError(cfg, e, now)
    else if e.id in s.messages || Entombed(s, e, now) || HasTerminalAck(s, e.id) then Some(Duplicate)
    else if |s.messages| >= cfg.maxMessages then Some(QueueFull)
    else None
  }

  ghost function AdoptMessage(cfg: Config, s: State, e: Envelope, now: nat): State {
    if ImportMessageError(cfg, s, e, now).None? then InsertMessage(s, e, 0) else s
  }

  ghost function ImportMessage(cfg: Config, s: State, raw: Envelope, now: nat): State {
    AdoptMessage(cfg, s, PrepareEnvelope(cfg, raw, 0, now), now)
  }

  function ImportAckError(cfg: Config, s: State, a: Ack, now: nat): Option<Error> {
    if AckFieldError(a, now).Some? then AckFieldError(a, now)
    else AckError(s, a, now, cfg.ExternalAckCapacity())
  }

  ghost function AdoptAck(cfg: Config, s: State, a: Ack, now: nat): State {
    if ImportAckError(cfg, s, a, now).None? then StoreAck(s, a) else s
  }

  ghost function ImportAck(cfg: Config, s: State, raw: Ack, now: nat): State {
    AdoptAck(cfg, s, PrepareAck(cfg, raw, 0, now), now)
  }

  ghost function ImportPurges(cfg: Config, s: State, ps: seq<Purge>, now: nat): State {
    if ps == [] then s
    else ImportPurge(cfg, ImportPurges(cfg, s, ps[..|ps| - 1], now), ps[|ps| - 1], now)
  }

  ghost function ImportMessages(cfg: Config, s: State, es: seq<Envelope>, now: nat): State {
    if es == [] then s
    else ImportMessage(cfg, ImportMessages(cfg, s, es[..|es| - 1], now), es[|es| - 1], now)
  }

  ghost function ImportAcks(cfg: Config, s: State, as_: seq<Ack>, now: nat): State {
    if as_ == [] then s
    else ImportAck(cfg, ImportAcks(cfg, s, as_[..|as_| - 1], now), as_[|as_| - 1], now)
  }

  ghost function ImportPage(cfg: Config, s: State, page: Page, now: nat): State {
    ImportAcks(cfg, ImportMessages(cfg, ImportPurges(cfg, s, page.purges, now), page.messages, now), page.acks, now)
  }

  // ------------------------------------------------------------------ runs

  /** One locked method body.  `now` is the clock reading that call used. */
  datatype Op =
    | Post(envelope: Envelope, nodeId: string, grant: Grant, now: nat)
    | Acknowledge(ack: Ack, nodeId: string, grant: Grant, auth: Auth, now: nat)
    | FetchMessages(recipient: string, now: nat)
    | FetchAcks(sender: string, now: nat)
    | Snapshot(now: nat)
    | Import(page: Page, now: nat)
    | Prune(now: nat)
    | PurgeByOwner(hash: string, now: nat)

  ghost function StepPost(cfg: Config, s: State, op: Op): State
    requires op.Post?
  {
    PostMessage(cfg, s, op.envelope, op.nodeId, op.grant, op.now)
  }

  ghost function StepAcknowledge(cfg: Config, s: State, op: Op): State
    requires op.Acknowledge?
  {
    PostAck(cfg, s, op.ack, op.nodeId, op.grant, op.auth, op.now)
  }

  ghost function StepFetch(s: State, op: Op): State
    requires op.FetchMessages? || op.FetchAcks?
  {
    if op.FetchMessages? then (if op.recipient == "" then s else SweepMessages(s, op.now))
    else (if op.sender == "" then s else SweepAcks(s, op.now))
  }

  ghost function StepImport(cfg: Config, s: State, op: Op): State
    requires op.Import?
  {
    ImportPage(cfg, s, op.page, op.now)
  }

  ghost function StepPrune(s: State, op: Op): State
    requires op.Snapshot? || op.Prune?
  {
    Sweep(s, op.now)
  }

  ghost function StepPurge(cfg: Config, s: State, op: Op): State
    requires op.PurgeByOwner?
  {
    PurgeOwner(cfg, s, op.hash, op.now)
  }

  /** What the call `op` leaves behind when it starts from `s`. */
  ghost function Step(cfg: Config, s: State, op: Op): State {
    if op.Post? then StepPost(cfg, s, op)
    else if op.Acknowledge? then StepAcknowledge(cfg, s, op)
    else if op.FetchMessages? || op.FetchAcks? then StepFetch(s, op)
    else if op.Import? then StepImport(cfg, s, op)
    else if op.PurgeByOwner? then StepPurge(cfg, s, op)
    else StepPrune(s, op)
  }

  /** The state after a run from boot. */
  ghost function Exec(cfg: Config, ops: seq<Op>): State {
    if ops == [] then EMPTY else Step(cfg, Exec(cfg, ops[..|ops| - 1]), ops[|ops| - 1])
  }

  /** The greatest clock reading any call of the run used. */
  function Clock(ops: seq<Op>): nat {
    if ops == [] then 0 else Max(Clock(ops[..|ops| - 1]), ops[|ops| - 1].now)
  }
}
