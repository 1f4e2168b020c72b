/** What a sender is answered, and what a recipient is handed. */
module AttachmentAnswers {
  import opened Common
  import opened Text
  import opened Bitmap
  import opened TransitRing
  import opened Attachment
  import opened AttachmentLives

  // -------------------------------------------------------------------- pushes

  /** The capability has a transfer that has not gone idle. */
  predicate Live(limits: Limits, s: State, k: string, now: nat) {
    k in s.sessions && now - s.sessions[k].lastActivity <= limits.idleTimeout
  }

  ghost function LiveKeys(limits: Limits, s: State, now: nat): set<string> {
    set k | k in s.sessions && now - s.sessions[k].lastActivity <= limits.idleTimeout
  }

  /** Who pays for the chunk: whoever opened its transfer. */
  function Payer(limits: Limits, s: State, k: string, grant: Grant, now: nat): nat {
    if Live(limits, s, k, now) then s.sessions[k].credential else grant.credential
  }

  /** What can be wrong with a chunk, in the order it is looked at. */
  ghost function PushChecks(limits: Limits, s: State, raw: Chunk, grant: Grant, now: nat): seq<Check<Error>> {
    var k, n := Trim(raw.capability), Utf8Len(Trim(raw.payload));
    var live, mine := Live(limits, s, k, now), Payer(limits, s, k, grant, now);
    [ Check(Trim(raw.id) == "" || Trim(raw.transferId) == "" || k == "" || Trim(raw.recipient) == ""
            || Trim(raw.payload) == "" || raw.index < 0 || raw.totalChunks <= raw.index
            || raw.sizeBytes <= 0 || raw.sizeBytes > limits.maxChunkBytes,
            Invalid),
      Check(n > limits.maxChunkBytes, Invalid),
      Check(raw.totalChunks > 8192, TooManyChunks),
      Check(!live && |LiveKeys(limits, s, now)| >= limits.maxSessions, TooManySessions),
      Check(!live && grant.credential != 0 && grant.concurrentTransfers > 0
            && |set x | x in LiveKeys(limits, s, now) && s.sessions[x].credential == grant.credential|
               >= LowerOf(limits.maxSessions, grant.concurrentTransfers), TooManySessions),
      Check(live && !Of(s.sessions[k], raw), Invalid),
      Check(live && 0 <= raw.index && IsSet(s.sessions[k].seen, raw.index), Duplicate),
      Check(live && |s.sessions[k].window| >= limits.maxWindow, WindowFull),
      Check(mine != 0 && grant.transitBytesPerDay > 0 && mine in s.transit
            && Total(s.transit[mine], HourOf(now)) + n > grant.transitBytesPerDay, TransitExhausted),
      Check((if live then s.sessions[k].pushedBytes else 0) + n
            > LowerOf(limits.maxAttachmentBytes, grant.attachmentBytes), TooLarge) ]
  }

  /** The chunk claims to be of that transfer. */
  predicate Of(sess: Session, raw: Chunk) {
    sess.transferId == Trim(raw.transferId) && sess.recipient == Trim(raw.recipient)
      && sess.totalChunks == raw.totalChunks
  }

  lemma SweptIs(limits: Limits, s: State, now: nat)
    ensures Swept(limits, s.sessions, now).Keys == LiveKeys(limits, s, now)
    ensures |Swept(limits, s.sessions, now)| == |LiveKeys(limits, s, now)|
    ensures forall k | k in Swept(limits, s.sessions, now) :: Swept(limits, s.sessions, now)[k] == s.sessions[k]
    ensures forall c: nat :: OpenedBy(Swept(limits, s.sessions, now), c)
                          == set x | x in LiveKeys(limits, s, now) && s.sessions[x].credential == c
  {
    var live := Swept(limits, s.sessions, now);
    assert live.Keys == LiveKeys(limits, s, now);
    assert |live| == |live.Keys|;
  }

  /** Whether the transfer is there or can be opened. */
  lemma RoomAnswer(limits: Limits, s: State, raw: Chunk, grant: Grant, now: nat)
    ensures var k, live := Trim(raw.capability), Swept(limits, s.sessions, now);
            var c := PushChecks(limits, s, raw, grant, now);
            && (k in live <==> Live(limits, s, k, now))
            && (k !in live ==> RoomError(limits, live, grant)
                               == if c[3].fails then Some(c[3].error)
                                  else if c[4].fails then Some(c[4].error) else None)
            && (k in live ==> !c[3].fails && !c[4].fails)
  {
    SweptIs(limits, s, now);
  }

  lemma OfferAnswer(limits: Limits, s: State, raw: Chunk, grant: Grant, now: nat)
    requires limits.Valid() && ChunkError(limits, TrimChunk(raw)).None?
    ensures var c, live := TrimChunk(raw), s.(sessions := Swept(limits, s.sessions, now));
            var checks, sess := PushChecks(limits, s, raw, grant, now), SessionFor(live, c, grant, now);
            OfferError(limits, sess, SpentBy(s.transit, sess.credential, HourOf(now)), c, grant)
            == if checks[5].fails then Some(checks[5].error) else if checks[6].fails then Some(checks[6].error)
               else if checks[7].fails then Some(checks[7].error) else First(checks[8..])
  {
    FirstOfTen(PushChecks(limits, s, raw, grant, now));
    var c, live := TrimChunk(raw), s.(sessions := Swept(limits, s.sessions, now));
    SessionIs(limits, s, c, grant, now);
    var sess := SessionFor(live, c, grant, now);
    if !Live(limits, s, c.capability, now) {
      NothingSeen(c, grant, now);
      FreshSession(limits, s, c, grant, now);
    }
    OfferedTo(limits, s, raw, grant, now, sess);
  }

  lemma FreshSession(limits: Limits, s: State, c: Chunk, grant: Grant, now: nat)
    requires ChunkError(limits, c).None? && !Live(limits, s, c.capability, now)
    ensures SessionFor(s.(sessions := Swept(limits, s.sessions, now)), c, grant, now)
         == Opened(c, grant.credential, now)
  {
    SweptIs(limits, s, now);
  }

  lemma OfferedTo(limits: Limits, s: State, raw: Chunk, grant: Grant, now: nat, sess: Session)
    requires limits.Valid() && 0 <= raw.index
    requires if Live(limits, s, Trim(raw.capability), now) then sess == s.sessions[Trim(raw.capability)]
             else && sess.window == [] && sess.pushedBytes == 0 && Matches(sess, TrimChunk(raw))
                  && !IsSet(sess.seen, raw.index)
    requires sess.credential == Payer(limits, s, Trim(raw.capability), grant, now)
    ensures var checks := PushChecks(limits, s, raw, grant, now);
            OfferError(limits, sess, SpentBy(s.transit, sess.credential, HourOf(now)), TrimChunk(raw), grant)
            == if checks[5].fails then Some(checks[5].error) else if checks[6].fails then Some(checks[6].error)
               else if checks[7].fails then Some(checks[7].error) else if checks[8].fails then Some(checks[8].error)
               else if checks[9].fails then Some(checks[9].error) else None
  {
  }

  lemma NothingSeen(c: Chunk, grant: Grant, now: nat)
    requires 0 <= c.index < c.totalChunks
    ensures !IsSet(Opened(c, grant.credential, now).seen, c.index) && Matches(Opened(c, grant.credential, now), c)
  {
    BlankIsEmpty(c.totalChunks, c.index);
  }

  lemma ChunkAnswer(limits: Limits, s: State, raw: Chunk, grant: Grant, now: nat)
    ensures var c := PushChecks(limits, s, raw, grant, now);
            ChunkError(limits, TrimChunk(raw))
            == if c[0].fails then Some(c[0].error) else if c[1].fails then Some(c[1].error)
               else if c[2].fails then Some(c[2].error) else None
  {
  }

  /** A push is answered by the first thing that is wrong with it. */
  lemma PushAnswered(limits: Limits, s: State, raw: Chunk, grant: Grant, now: nat)
    requires limits.Valid()
    ensures Push(limits, s, TrimChunk(raw), grant, now).error == First(PushChecks(limits, s, raw, grant, now))
  {
    var checks := PushChecks(limits, s, raw, grant, now);
    FirstOfTen(checks);
    ChunkAnswer(limits, s, raw, grant, now);
    if ChunkError(limits, TrimChunk(raw)).None? {
      RoomAnswer(limits, s, raw, grant, now);
      OfferAnswer(limits, s, raw, grant, now);
    }
  }

  /** The chunk as it is kept: its names and payload trimmed. */
  predicate SameChunk(raw: Chunk, c: Chunk) {
    && c.id == Trim(raw.id) && c.transferId == Trim(raw.transferId) && c.capability == Trim(raw.capability)
    && c.recipient == Trim(raw.recipient) && c.payload == Trim(raw.payload) && c.index == raw.index
    && c.totalChunks == raw.totalChunks && c.sizeBytes == raw.sizeBytes
    && c.createdAt == raw.createdAt && c.expiresAt == raw.expiresAt
  }

  /** An accepted chunk waits last in its transfer's window, which is otherwise as it
      was or newly opened, and every other live transfer is left alone. */
  lemma PushTakesEffect(limits: Limits, s: State, raw: Chunk, grant: Grant, now: nat)
    requires limits.Valid() && First(PushChecks(limits, s, raw, grant, now)).None?
    ensures var t, k := Push(limits, s, TrimChunk(raw), grant, now).state, Trim(raw.capability);
            && k in t.sessions && t.sessions[k].window != []
            && var sess := t.sessions[k];
               var c, before := sess.window[|sess.window| - 1], sess.window[..|sess.window| - 1];
               && SameChunk(raw, c) && before == (if Live(limits, s, k, now) then s.sessions[k].window else [])
               && sess.lastActivity == now && sess.transferId == c.transferId && sess.recipient == c.recipient
               && sess.credential == Payer(limits, s, k, grant, now)
               && (forall x | x != k :: x in t.sessions <==> Live(limits, s, x, now))
               && (forall x | x != k && x in t.sessions :: t.sessions[x] == s.sessions[x])
  {
    PushAnswered(limits, s, raw, grant, now);
    var c := TrimChunk(raw);
    AcceptedPush(limits, s, c, grant, now);
    var sess := SessionFor(s.(sessions := Swept(limits, s.sessions, now)), c, grant, now);
    SessionIs(limits, s, c, grant, now);
    AcceptedIs(sess, c, now);
    AcceptedInto(limits, s, c, now, sess, Accepted(sess, c, now), Push(limits, s, c, grant, now).state);
  }

  lemma AcceptedPush(limits: Limits, s: State, c: Chunk, grant: Grant, now: nat)
    requires Push(limits, s, c, grant, now).error.None?
    ensures ChunkError(limits, c).None?
    ensures var live := s.(sessions := Swept(limits, s.sessions, now));
            var sess := SessionFor(live, c, grant, now);
            Matches(sess, c)
            && Push(limits, s, c, grant, now).state.sessions == live.sessions[c.capability := Accepted(sess, c, now)]
  {
  }

  lemma SessionIs(limits: Limits, s: State, c: Chunk, grant: Grant, now: nat)
    requires ChunkError(limits, c).None?
    ensures var sess := SessionFor(s.(sessions := Swept(limits, s.sessions, now)), c, grant, now);
            && (Live(limits, s, c.capability, now) ==> sess == s.sessions[c.capability])
            && (!Live(limits, s, c.capability, now) ==> sess.window == [])
            && sess.credential == Payer(limits, s, c.capability, grant, now)
  {
    SweptIs(limits, s, now);
  }

  lemma AcceptedIs(sess: Session, c: Chunk, now: nat)
    requires 0 <= c.index
    ensures var next := Accepted(sess, c, now);
            && next.window == sess.window + [c] && next.lastActivity == now && next.transferId == sess.transferId
            && next.recipient == sess.recipient && next.credential == sess.credential
  {
  }

  lemma AcceptedInto(limits: Limits, s: State, c: Chunk, now: nat, sess: Session, next: Session, t: State)
    requires Matches(sess, c) && t.sessions == Swept(limits, s.sessions, now)[c.capability := next]
    requires next.window == sess.window + [c] && next.transferId == sess.transferId && next.recipient == sess.recipient
    ensures var k := c.capability;
            && k in t.sessions && t.sessions[k] == next && next.window[|next.window| - 1] == c
            && next.window[..|next.window| - 1] == sess.window
            && next.transferId == c.transferId && next.recipient == c.recipient
            && (forall x | x != k :: x in t.sessions <==> Live(limits, s, x, now))
            && (forall x | x != k && x in t.sessions :: t.sessions[x] == s.sessions[x])
  {
  }

  // --------------------------------------------------------------------- drains

  /** Over every run a recipient is handed only chunks addressed to them under the
      capability they showed. */
  lemma HandedToTheRecipient(limits: Limits, ops: seq<Op>, recipient: string, capability: string, now: nat, c: Chunk)
    requires limits.Valid() && c in DrainOut(limits, Exec(limits, ops), recipient, capability, now)
    ensures c.recipient == recipient && c.capability == capability
  {
    RunLives(limits, ops);
    WindowsBelong(limits, Exec(limits, ops), Delivered(limits, ops), capability, c);
  }

  lemma WindowsBelong(limits: Limits, s: State, d: map<string, seq<Chunk>>, k: string, c: Chunk)
    requires AllOk(limits, s.sessions, d) && k in s.sessions && c in s.sessions[k].window
    ensures c.recipient == s.sessions[k].recipient && c.capability == k
  {
    var sess := s.sessions[k];
    assert LifeOk(limits, sess, d[k]) && c in d[k] + sess.window;
    assert Belongs(limits, sess, c);
  }

  /** A recipient whose transfer is live gets everything that waits in it, and nobody
      else gets anything; the window is then empty and all else as it was. */
  lemma DrainTakesEffect(limits: Limits, s: State, recipient: string, capability: string, now: nat, later: nat)
    ensures var out := DrainOut(limits, s, Trim(recipient), Trim(capability), now);
            var t, k := Drain(limits, s, Trim(recipient), Trim(capability), now, later), Trim(capability);
            if Trim(recipient) == "" || k == "" then out == [] && t == s
            else if !Live(limits, s, k, now) || s.sessions[k].recipient != Trim(recipient)
            then out == [] && t.sessions == Swept(limits, s.sessions, now) && t.transit == s.transit
            else && out == s.sessions[k].window && t.transit == s.transit && k in t.sessions
                 && t.sessions[k].window == []
                 && t.sessions[k] == s.sessions[k].(window := [], bytes := t.sessions[k].bytes,
                                                    lastActivity := t.sessions[k].lastActivity)
                 && (out != [] ==> t.sessions[k].bytes == 0 && t.sessions[k].lastActivity == later)
                 && t.sessions == Swept(limits, s.sessions, now)[k := t.sessions[k]]
  {
    SweptIs(limits, s, now);
  }

  /** So what is pushed comes out again: a chunk accepted at `now` is the last of what
      its recipient drains, at any time before the transfer goes idle. */
  lemma PushThenDrain(limits: Limits, s: State, raw: Chunk, grant: Grant, now: nat, then_: nat)
    requires limits.Valid() && First(PushChecks(limits, s, raw, grant, now)).None?
    requires then_ - now <= limits.idleTimeout
    ensures var t := Push(limits, s, TrimChunk(raw), grant, now).state;
            var out := DrainOut(limits, t, Trim(raw.recipient), Trim(raw.capability), then_);
            out != [] && SameChunk(raw, out[|out| - 1])
            && out[..|out| - 1]
               == if Live(limits, s, Trim(raw.capability), now) then s.sessions[Trim(raw.capability)].window else []
  {
    PushTakesEffect(limits, s, raw, grant, now);
    FirstOfTen(PushChecks(limits, s, raw, grant, now));
    var t := Push(limits, s, TrimChunk(raw), grant, now).state;
    DrainTakesEffect(limits, t, Trim(raw.recipient), Trim(raw.capability), then_, then_);
    TrimIdempotent(raw.recipient);
    TrimIdempotent(raw.capability);
  }

  // ------------------------------------------------------------------ how they end

  /** The call looks for idle transfers. */
  predicate Sweeps(limits: Limits, op: Op) {
    match op
    case PushOp(c, _, _) => ChunkError(limits, c).None?
    case DrainOp(r, k, _, _) => r != "" && k != ""
    case CompleteOp(_, _) => false
    case PruneOp(_) => true
  }

  /** A transfer ends when a sweep finds it idle or its own id completes it. */
  predicate EndsTransfer(limits: Limits, sess: Session, op: Op, k: string) {
    if op.CompleteOp? then op.capability == k && op.transferId == sess.transferId
    else Sweeps(limits, op) && op.now - sess.lastActivity > limits.idleTimeout
  }

  /** Exactly then: otherwise it stays the transfer it is, and if the same capability
      is there afterwards all the same it is that of a transfer opened by this push. */
  lemma TransferEndsIff(limits: Limits, s: State, op: Op, k: string)
    requires k in s.sessions
    ensures var t, sess := Step(limits, s, op), s.sessions[k];
            if EndsTransfer(limits, sess, op, k)
            then k in t.sessions ==> op.PushOp? && op.chunk.capability == k && t.sessions[k].window <= [op.chunk]
                                     && t.sessions[k].credential == op.grant.credential
            else && k in t.sessions && t.sessions[k].transferId == sess.transferId
                 && t.sessions[k].recipient == sess.recipient
                 && t.sessions[k].credential == sess.credential && t.sessions[k].totalChunks == sess.totalChunks
                 && sess.pushedBytes <= t.sessions[k].pushedBytes
  {
  }
}
