/** The attachment relay as a value: live transfers, each a bounded window of
    chunks, and a rolling byte total per circle. */
module Attachment {
  import opened Common
  import opened Text
  import opened Bitmap
  import opened TransitRing

  const MAX_CHUNKS_PER_TRANSFER := 8192

  datatype Error = Duplicate | WindowFull | TooManySessions | Invalid | TooLarge | TransitExhausted | TooManyChunks

  datatype Chunk = Chunk(id: string, transferId: string, capability: string, recipient: string,
                         index: int, totalChunks: int, payload: string, sizeBytes: int, createdAt: int, expiresAt: int)

  datatype Grant = Grant(credential: nat, attachmentBytes: int, concurrentTransfers: int, transitBytesPerDay: int)

  datatype Limits = Limits(maxWindow: int, maxChunkBytes: int, maxAttachmentBytes: int, maxSessions: int,
                           idleTimeout: int) {
    predicate Valid() {
      0 < maxWindow && 0 < maxChunkBytes && 0 < maxAttachmentBytes && 0 < maxSessions && 0 < idleTimeout
    }

    /** NewRelay's defaults for figures that make no sense. */
    function Corrected(): (l: Limits)
      ensures l.Valid()
      ensures Valid() ==> l == this
    {
      Limits(if maxWindow <= 0 then 8 else maxWindow,
             if maxChunkBytes <= 0 then 1024 * 1024 else maxChunkBytes,
             if maxAttachmentBytes <= 0 then 50 * 1024 * 1024 else maxAttachmentBytes,
             if maxSessions <= 0 then 256 else maxSessions,
             if idleTimeout <= 0 then 30 * SECOND else idleTimeout)
    }
  }

  /** One live transfer.  `seen` remembers the indices accepted, `pushedBytes` every
      byte accepted, including what has been drained. */
  datatype Session = Session(transferId: string, capability: string, recipient: string, window: seq<Chunk>, bytes: nat,
                             totalChunks: nat, seen: seq<bv64>, lastActivity: nat, credential: nat, pushedBytes: nat)

  datatype State = State(sessions: map<string, Session>, transit: map<nat, Ring>)

  const EMPTY := State(map[], map[])

  function SizeOf(c: Chunk): nat { Utf8Len(c.payload) }

  function TrimChunk(c: Chunk): Chunk {
    c.(id := Trim(c.id), transferId := Trim(c.transferId), capability := Trim(c.capability),
       recipient := Trim(c.recipient), payload := Trim(c.payload))
  }

  // -------------------------------------------------------------------- push

  /** What is refused before any transfer is looked at. */
  function ChunkError(limits: Limits, c: Chunk): Option<Error> {
    if c.id == "" || c.transferId == "" || c.capability == "" || c.recipient == "" || c.payload == ""
       || c.index < 0 || c.totalChunks <= 0 || c.index >= c.totalChunks
       || c.sizeBytes <= 0 || c.sizeBytes > limits.maxChunkBytes then Some(Invalid)
    else if SizeOf(c) > limits.maxChunkBytes then Some(Invalid)
    else if c.totalChunks > MAX_CHUNKS_PER_TRANSFER then Some(TooManyChunks)
    else None
  }

  predicate Idle(limits: Limits, sess: Session, now: nat) { now - sess.lastActivity > limits.idleTimeout }

  function Swept(limits: Limits, sessions: map<string, Session>, now: nat): map<string, Session> {
    map k | k in sessions && !Idle(limits, sessions[k], now) :: sessions[k]
  }

  ghost function OpenedBy(sessions: map<string, Session>, credential: nat): set<string> {
    set k | k in sessions && sessions[k].credential == credential
  }

  /** Whether one more transfer may open. */
  ghost function RoomError(limits: Limits, sessions: map<string, Session>, grant: Grant): Option<Error> {
    if |sessions| >= limits.maxSessions then Some(TooManySessions)
    else if grant.credential != 0 && grant.concurrentTransfers > 0
         && |OpenedBy(sessions, grant.credential)| >= LowerOf(limits.maxSessions, grant.concurrentTransfers)
    then Some(TooManySessions)
    else None
  }

  function Opened(c: Chunk, credential: nat, now: nat): Session
    requires 0 <= c.totalChunks
  {
    Session(c.transferId, c.capability, c.recipient, [], 0, c.totalChunks, Blank(c.totalChunks), now, credential, 0)
  }

  predicate Matches(sess: Session, c: Chunk) {
    sess.transferId == c.transferId && sess.recipient == c.recipient && sess.totalChunks == c.totalChunks
  }

  /** The bytes a circle has in its window, if it has a window at all. */
  function SpentBy(transit: map<nat, Ring>, credential: nat, hour: nat): Option<nat> {
    if credential in transit then Some(Total(transit[credential], hour)) else None
  }

  /** What an open transfer refuses.  The daily ceiling is that of the request, but
      the bytes are those of the circle that opened the transfer. */
  ghost function OfferError(limits: Limits, sess: Session, spent: Option<nat>, c: Chunk, grant: Grant): Option<Error>
    requires 0 <= c.index
  {
    if !Matches(sess, c) then Some(Invalid)
    else if IsSet(sess.seen, c.index) then Some(Duplicate)
    else if |sess.window| >= limits.maxWindow then Some(WindowFull)
    else if sess.credential != 0 && grant.transitBytesPerDay > 0
         && spent.Some? && spent.value + SizeOf(c) > grant.transitBytesPerDay then Some(TransitExhausted)
    else if sess.pushedBytes + SizeOf(c) > LowerOf(limits.maxAttachmentBytes, grant.attachmentBytes) then Some(TooLarge)
    else None
  }

  function Accepted(sess: Session, c: Chunk, now: nat): Session
    requires 0 <= c.index
  {
    sess.(window := sess.window + [c], bytes := sess.bytes + SizeOf(c), pushedBytes := sess.pushedBytes + SizeOf(c),
          seen := Mark(sess.seen, c.index), lastActivity := now)
  }

  function ChargedRing(transit: map<nat, Ring>, credential: nat, hour: nat, n: nat): map<nat, Ring> {
    if credential == 0 then transit
    else transit[credential := Add(if credential in transit then transit[credential] else BLANK, hour, n)]
  }

  datatype PushResult = PushResult(state: State, error: Option<Error>)

  /** The push of a trimmed chunk.  A transfer that was opened for it stays open even
      when the chunk is then refused. */
  ghost function Push(limits: Limits, s: State, c: Chunk, grant: Grant, now: nat): PushResult {
    if ChunkError(limits, c).Some? then PushResult(s, ChunkError(limits, c))
    else
      var live := Swept(limits, s.sessions, now);
      if c.capability !in live && RoomError(limits, live, grant).Some?
      then PushResult(s.(sessions := live), RoomError(limits, live, grant))
      else Offer(limits, s.(sessions := live), c, grant, now)
  }

  ghost function SessionFor(s: State, c: Chunk, grant: Grant, now: nat): Session
    requires 0 <= c.totalChunks
  {
    if c.capability in s.sessions then s.sessions[c.capability] else Opened(c, grant.credential, now)
  }

  ghost function Offer(limits: Limits, s: State, c: Chunk, grant: Grant, now: nat): PushResult
    requires ChunkError(limits, c).None?
  {
    var sess := SessionFor(s, c, grant, now);
    var error := OfferError(limits, sess, SpentBy(s.transit, sess.credential, HourOf(now)), c, grant);
    if error.Some? then PushResult(s.(sessions := s.sessions[c.capability := sess]), error)
    else PushResult(State(s.sessions[c.capability := Accepted(sess, c, now)],
                          ChargedRing(s.transit, sess.credential, HourOf(now), SizeOf(c))),
                    None)
  }

  // ------------------------------------------------------------ the other calls

  /** The transfer a recipient may drain now. */
  predicate Drainable(sessions: map<string, Session>, recipient: string, capability: string) {
    && recipient != "" && capability != "" && capability in sessions
    && sessions[capability].recipient == recipient && sessions[capability].window != []
  }

  function DrainOut(limits: Limits, s: State, recipient: string, capability: string, now: nat): seq<Chunk> {
    var live := Swept(limits, s.sessions, now);
    if Drainable(live, recipient, capability) then live[capability].window else []
  }

  function Drain(limits: Limits, s: State, recipient: string, capability: string, now: nat, later: nat): State {
    if recipient == "" || capability == "" then s
    else
      var live := Swept(limits, s.sessions, now);
      if !Drainable(live, recipient, capability) then s.(sessions := live)
      else s.(sessions := live[capability := live[capability].(window := [], bytes := 0, lastActivity := later)])
  }

  predicate Completable(sessions: map<string, Session>, transferId: string, capability: string) {
    capability in sessions && sessions[capability].transferId == transferId
  }

  function Complete(s: State, transferId: string, capability: string): State {
    if Completable(s.sessions, transferId, capability) then s.(sessions := s.sessions - {capability}) else s
  }

  ghost function Prune(limits: Limits, s: State, now: nat): State {
    State(Swept(limits, s.sessions, now),
          map c | c in s.transit && Total(s.transit[c], HourOf(now)) != 0 :: s.transit[c])
  }

  // -------------------------------------------------------------------- runs

  /** One locked method body; Drain reads the clock twice. */
  datatype Op =
    | PushOp(chunk: Chunk, grant: Grant, now: nat)
    | DrainOp(recipient: string, capability: string, now: nat, later: nat)
    | CompleteOp(transferId: string, capability: string)
    | PruneOp(now: nat)

  ghost function Step(limits: Limits, s: State, op: Op): State {
    match op
    case PushOp(chunk, grant, now) => Push(limits, s, chunk, grant, now).state
    case DrainOp(recipient, capability, now, later) => Drain(limits, s, recipient, capability, now, later)
    case CompleteOp(transferId, capability) => Complete(s, transferId, capability)
    case PruneOp(now) => Prune(limits, s, now)
  }

  ghost function Exec(limits: Limits, ops: seq<Op>): State {
    if ops == [] then EMPTY else Step(limits, Exec(limits, ops[..|ops| - 1]), ops[|ops| - 1])
  }
}
