/** At most once, and nothing lost: what each transfer delivers over its life. */
module AttachmentLives {
  import opened Sizes
  import opened Common
  import opened Bitmap
  import opened TransitRing
  import opened Attachment

  function Bytes(cs: seq<Chunk>): nat {
    if cs == [] then 0 else Bytes(cs[..|cs| - 1]) + SizeOf(cs[|cs| - 1])
  }

  lemma {:induction false} BytesConcat(a: seq<Chunk>, b: seq<Chunk>)
    ensures Bytes(a + b) == Bytes(a) + Bytes(b)
  {
    if b == [] {
      assert a + b == a;
    } else {
      BytesConcat(a, b[..|b| - 1]);
      assert (a + b)[..|a + b| - 1] == a + b[..|b| - 1];
    }
  }

  ghost function Indices(cs: seq<Chunk>): set<nat> {
    set i | 0 <= i < |cs| && 0 <= cs[i].index :: cs[i].index
  }

  ghost predicate Distinct(cs: seq<Chunk>) {
    forall i, j | 0 <= i < j < |cs| :: cs[i].index != cs[j].index
  }

  /** A chunk belongs to the transfer and fits its limits. */
  predicate Belongs(limits: Limits, sess: Session, c: Chunk) {
    && 0 <= c.index < sess.totalChunks && c.transferId == sess.transferId && c.recipient == sess.recipient
    && c.capability == sess.capability && SizeOf(c) <= limits.maxChunkBytes
  }

  /** `out` is what the transfer has delivered so far.  Delivered and waiting chunks
      together have distinct indices, exactly those the bitmap remembers; every byte
      accepted is accounted for and within the ceiling. */
  ghost predicate LifeOk(limits: Limits, sess: Session, out: seq<Chunk>) {
    var all := out + sess.window;
    && 0 < sess.totalChunks <= MAX_CHUNKS_PER_TRANSFER
    && Distinct(all) && (forall c | c in all :: Belongs(limits, sess, c))
    && Encodes(sess.seen, sess.totalChunks, Indices(all))
    && sess.bytes == Bytes(sess.window) && sess.pushedBytes == Bytes(all) <= limits.maxAttachmentBytes
    && |sess.window| <= limits.maxWindow
  }

  // --------------------------------------------------------------- one transfer

  lemma OpenedOk(limits: Limits, c: Chunk, credential: nat, now: nat)
    requires limits.Valid() && ChunkError(limits, c).None?
    ensures LifeOk(limits, Opened(c, credential, now), [])
  {
    BlankEncodes(c.totalChunks);
    assert Indices([]) == {};
    assert [] + Opened(c, credential, now).window == [];
  }

  lemma FreshIndex(limits: Limits, sess: Session, out: seq<Chunk>, k: nat)
    requires LifeOk(limits, sess, out) && k < sess.totalChunks
    ensures IsSet(sess.seen, k) <==> exists c :: c in out + sess.window && c.index == k
  {
    var all := out + sess.window;
    EncodesAt(sess.seen, sess.totalChunks, Indices(all), k);
    if c :| c in all && c.index == k {
      var i :| 0 <= i < |all| && all[i] == c;
      assert k in Indices(all);
    }
    if k in Indices(all) {
      var i :| 0 <= i < |all| && 0 <= all[i].index && all[i].index == k;
      assert all[i] in all;
    }
  }

  lemma IndicesGrow(cs: seq<Chunk>, c: Chunk)
    requires 0 <= c.index
    ensures Indices(cs + [c]) == Indices(cs) + {c.index}
  {
    var more := cs + [c];
    assert more[|cs|] == c;
    forall k: nat | k in Indices(cs)
      ensures k in Indices(more)
    {
      var i :| 0 <= i < |cs| && 0 <= cs[i].index && cs[i].index == k;
      assert more[i].index == k;
    }
  }

  lemma DistinctGrows(cs: seq<Chunk>, c: Chunk)
    requires Distinct(cs) && forall x | x in cs :: x.index != c.index
    ensures Distinct(cs + [c])
  {
    forall i | 0 <= i < |cs|
      ensures cs[i].index != c.index
    {
      assert cs[i] in cs;
    }
  }

  lemma BelongsGrows(limits: Limits, sess: Session, next: Session, cs: seq<Chunk>, c: Chunk)
    requires forall x | x in cs :: Belongs(limits, sess, x)
    requires Belongs(limits, sess, c)
    requires next.totalChunks == sess.totalChunks && next.transferId == sess.transferId
          && next.recipient == sess.recipient && next.capability == sess.capability
    ensures forall x | x in cs + [c] :: Belongs(limits, next, x)
  {
  }

  lemma AcceptedOk(limits: Limits, sess: Session, out: seq<Chunk>, c: Chunk, spent: Option<nat>, grant: Grant, now: nat)
    requires LifeOk(limits, sess, out) && ChunkError(limits, c).None? && sess.capability == c.capability
    requires OfferError(limits, sess, spent, c, grant).None?
    ensures LifeOk(limits, Accepted(sess, c, now), out)
  {
    var next, all := Accepted(sess, c, now), out + sess.window;
    assert out + next.window == all + [c];
    FreshIndex(limits, sess, out, c.index);
    DistinctGrows(all, c);
    BelongsGrows(limits, sess, next, all, c);
    MarkEncodes(sess.seen, sess.totalChunks, Indices(all), c.index);
    IndicesGrow(all, c);
    BytesConcat(all, [c]);
    BytesConcat(sess.window, [c]);
    assert Bytes([c]) == SizeOf(c) by { assert [c][..0] == []; }
  }

  lemma DrainedOk(limits: Limits, sess: Session, out: seq<Chunk>, later: nat)
    requires limits.Valid() && LifeOk(limits, sess, out)
    ensures LifeOk(limits, sess.(window := [], bytes := 0, lastActivity := later), out + sess.window)
  {
    var next := sess.(window := [], bytes := 0, lastActivity := later);
    assert (out + sess.window) + next.window == out + sess.window;
  }

  // ------------------------------------------------------------------ over runs

  /** The call opens a new transfer under `k`. */
  ghost predicate Opens(limits: Limits, s: State, op: Op, k: string) {
    op.PushOp? && ChunkError(limits, op.chunk).None? && op.chunk.capability == k
      && k !in Swept(limits, s.sessions, op.now)
  }

  /** What the call hands over of transfer `k`. */
  function HandedOver(limits: Limits, s: State, op: Op, k: string): seq<Chunk> {
    if op.DrainOp? && op.capability == k then DrainOut(limits, s, op.recipient, k, op.now) else []
  }

  /** What each live transfer has delivered since it was opened. */
  ghost function Delivered(limits: Limits, ops: seq<Op>): map<string, seq<Chunk>> {
    if ops == [] then map[]
    else
      var n := |ops| - 1;
      DeliveredAfter(limits, Exec(limits, ops[..n]), Delivered(limits, ops[..n]), ops[n])
  }

  ghost function DeliveredAfter(limits: Limits, s: State, d: map<string, seq<Chunk>>, op: Op): map<string, seq<Chunk>> {
    map k | k in Step(limits, s, op).sessions ::
      if k !in d || Opens(limits, s, op, k) then [] else d[k] + HandedOver(limits, s, op, k)
  }

  ghost predicate AllOk(limits: Limits, sessions: map<string, Session>, d: map<string, seq<Chunk>>) {
    forall k {:trigger sessions[k]} | k in sessions ::
      k in d && sessions[k].capability == k && LifeOk(limits, sessions[k], d[k])
  }

  lemma PushLife(limits: Limits, s: State, d: map<string, seq<Chunk>>, c: Chunk, grant: Grant, now: nat, k: string)
    requires limits.Valid() && AllOk(limits, s.sessions, d) && k in Push(limits, s, c, grant, now).state.sessions
    ensures var t, op := Push(limits, s, c, grant, now).state, PushOp(c, grant, now);
            t.sessions[k].capability == k
            && (!Opens(limits, s, op, k) ==> k in s.sessions && LifeOk(limits, t.sessions[k], d[k]))
            && (Opens(limits, s, op, k) ==> LifeOk(limits, t.sessions[k], []))
  {
    if ChunkError(limits, c).None? {
      var live := s.(sessions := Swept(limits, s.sessions, now));
      if k == c.capability {
        var sess := SessionFor(live, c, grant, now);
        var out := if k in live.sessions then d[k] else [];
        if k !in live.sessions { OpenedOk(limits, c, grant.credential, now); }
        var spent := SpentBy(s.transit, sess.credential, HourOf(now));
        if OfferError(limits, sess, spent, c, grant).None? { AcceptedOk(limits, sess, out, c, spent, grant, now); }
      }
    }
  }

  lemma DrainLife(limits: Limits, s: State, d: map<string, seq<Chunk>>, op: Op, k: string)
    requires limits.Valid() && AllOk(limits, s.sessions, d) && op.DrainOp? && k in Step(limits, s, op).sessions
    ensures var t := Step(limits, s, op);
            k in s.sessions && t.sessions[k].capability == k
            && LifeOk(limits, t.sessions[k], d[k] + HandedOver(limits, s, op, k))
  {
    assert k in s.sessions && LifeOk(limits, s.sessions[k], d[k]);
    if k == op.capability && Drainable(Swept(limits, s.sessions, op.now), op.recipient, k) {
      DrainedOk(limits, s.sessions[k], d[k], op.later);
    } else {
      assert Step(limits, s, op).sessions[k] == s.sessions[k];
      assert d[k] + [] == d[k];
    }
  }

  lemma StepLives(limits: Limits, s: State, d: map<string, seq<Chunk>>, op: Op)
    requires limits.Valid() && AllOk(limits, s.sessions, d)
    ensures AllOk(limits, Step(limits, s, op).sessions, DeliveredAfter(limits, s, d, op))
  {
    var t := Step(limits, s, op);
    forall k {:trigger t.sessions[k]} | k in t.sessions
      ensures t.sessions[k].capability == k && LifeOk(limits, t.sessions[k], DeliveredAfter(limits, s, d, op)[k])
    {
      if op.PushOp? { PushLife(limits, s, d, op.chunk, op.grant, op.now, k); }
      else if op.DrainOp? { DrainLife(limits, s, d, op, k); }
      if k in d { assert d[k] + [] == d[k]; }
    }
  }

  lemma {:induction false} RunLives(limits: Limits, ops: seq<Op>)
    requires limits.Valid()
    ensures AllOk(limits, Exec(limits, ops).sessions, Delivered(limits, ops))
  {
    if ops != [] {
      var n := |ops| - 1;
      RunLives(limits, ops[..n]);
      StepLives(limits, Exec(limits, ops[..n]), Delivered(limits, ops[..n]), ops[n]);
    }
  }

  /** At most once, and conservation, for every transfer of every run. */
  lemma DeliveredAtMostOnce(limits: Limits, ops: seq<Op>, k: string)
    requires limits.Valid() && k in Exec(limits, ops).sessions
    ensures k in Delivered(limits, ops)
    ensures var sess, out := Exec(limits, ops).sessions[k], Delivered(limits, ops)[k];
            && Distinct(out + sess.window)
            && Encodes(sess.seen, sess.totalChunks, Indices(out + sess.window))
            && sess.pushedBytes == Bytes(out) + Bytes(sess.window) <= limits.maxAttachmentBytes
  {
    RunLives(limits, ops);
    BytesConcat(Delivered(limits, ops)[k], Exec(limits, ops).sessions[k].window);
  }

  lemma DuplicateIff(limits: Limits, s: State, c: Chunk, grant: Grant, now: nat)
    requires ChunkError(limits, c).None?
    requires var live := Swept(limits, s.sessions, now); c.capability in live && Matches(live[c.capability], c)
    ensures Push(limits, s, c, grant, now).error == Some(Duplicate) <==> IsSet(s.sessions[c.capability].seen, c.index)
  {
  }

  /** A chunk of a live transfer is refused as a duplicate exactly when its index was
      accepted before, whether that chunk still waits or has been delivered. */
  lemma ReplayRefusedIff(limits: Limits, ops: seq<Op>, c: Chunk, grant: Grant, now: nat)
    requires limits.Valid() && ChunkError(limits, c).None?
    requires var live := Swept(limits, Exec(limits, ops).sessions, now);
             c.capability in live && Matches(live[c.capability], c)
    ensures c.capability in Delivered(limits, ops)
    ensures var sess := Exec(limits, ops).sessions[c.capability];
            Push(limits, Exec(limits, ops), c, grant, now).error == Some(Duplicate)
            <==> exists x :: x in Delivered(limits, ops)[c.capability] + sess.window && x.index == c.index
  {
    RunLives(limits, ops);
    var s := Exec(limits, ops);
    DuplicateIff(limits, s, c, grant, now);
    FreshIndex(limits, s.sessions[c.capability], Delivered(limits, ops)[c.capability], c.index);
  }

  // ------------------------------------------------------------------ footprint

  ghost function Pick(sessions: map<string, Session>): (k: string)
    requires sessions != map[]
    ensures k in sessions
  {
    var k :| k in sessions; k
  }

  lemma OneFewer(sessions: map<string, Session>, k: string)
    requires k in sessions
    ensures |sessions - {k}| + 1 == |sessions|
  {
    assert (sessions - {k}).Keys == sessions.Keys - {k};
  }

  /** Bytes held in all windows. */
  ghost function HeldBytes(sessions: map<string, Session>): nat
    decreases |sessions|
  {
    if sessions == map[] then 0
    else
      var k := Pick(sessions);
      OneFewer(sessions, k);
      sessions[k].bytes + HeldBytes(sessions - {k})
  }

  /** The sum does not depend on the order. */
  lemma {:induction false} HeldWithout(sessions: map<string, Session>, k: string)
    requires k in sessions
    ensures HeldBytes(sessions) == sessions[k].bytes + HeldBytes(sessions - {k})
    decreases |sessions|
  {
    var x := Pick(sessions);
    if x != k {
      OneFewer(sessions, x);
      OneFewer(sessions, k);
      HeldWithout(sessions - {x}, k);
      HeldWithout(sessions - {k}, x);
      assert (sessions - {x}) - {k} == (sessions - {k}) - {x};
    }
  }

  lemma TimesNext(n: nat, m: nat)
    ensures (n + 1) * m == n * m + m
  {
  }

  lemma TimesMore(a: nat, b: nat, m: nat)
    requires a <= b
    ensures a * m <= b * m
  {
  }

  lemma {:induction false} WindowBytes(limits: Limits, cs: seq<Chunk>)
    requires limits.Valid() && forall c | c in cs :: SizeOf(c) <= limits.maxChunkBytes
    ensures Bytes(cs) <= |cs| * limits.maxChunkBytes
  {
    if cs != [] {
      WindowBytes(limits, cs[..|cs| - 1]);
      assert cs[|cs| - 1] in cs;
      TimesNext(|cs| - 1, limits.maxChunkBytes);
    }
  }

  ghost predicate AllAtMost(sessions: map<string, Session>, most: nat) {
    forall k | k in sessions :: sessions[k].bytes <= most
  }

  lemma {:induction false} HeldAtMost(sessions: map<string, Session>, most: nat)
    requires AllAtMost(sessions, most)
    ensures HeldBytes(sessions) <= |sessions| * most
    decreases |sessions|
  {
    if sessions != map[] {
      var k := Pick(sessions);
      OneFewer(sessions, k);
      HeldWithout(sessions, k);
      HeldAtMost(sessions - {k}, most);
      TimesNext(|sessions - {k}|, most);
    }
  }

  lemma SweptSmaller(limits: Limits, sessions: map<string, Session>, now: nat)
    ensures |Swept(limits, sessions, now)| <= |sessions|
  {
    SubsetSize(Swept(limits, sessions, now).Keys, sessions.Keys);
  }

  lemma StepKeepsRoom(limits: Limits, s: State, op: Op)
    requires |s.sessions| <= limits.maxSessions
    ensures |Step(limits, s, op).sessions| <= limits.maxSessions
  {
    if !op.CompleteOp? {
      SweptSmaller(limits, s.sessions, op.now);
    } else {
      SubsetSize(Step(limits, s, op).sessions.Keys, s.sessions.Keys);
    }
  }

  lemma {:induction false} RunKeepsRoom(limits: Limits, ops: seq<Op>)
    requires limits.Valid()
    ensures |Exec(limits, ops).sessions| <= limits.maxSessions
  {
    if ops != [] {
      RunKeepsRoom(limits, ops[..|ops| - 1]);
      StepKeepsRoom(limits, Exec(limits, ops[..|ops| - 1]), ops[|ops| - 1]);
    }
  }

  lemma SessionAtMost(limits: Limits, sess: Session, out: seq<Chunk>)
    requires limits.Valid() && LifeOk(limits, sess, out)
    ensures sess.bytes <= limits.maxWindow * limits.maxChunkBytes
  {
    forall c | c in sess.window
      ensures SizeOf(c) <= limits.maxChunkBytes
    {
      assert c in out + sess.window;
    }
    WindowBytes(limits, sess.window);
    TimesMore(|sess.window|, limits.maxWindow, limits.maxChunkBytes);
  }

  lemma AllSessionsAtMost(limits: Limits, sessions: map<string, Session>, d: map<string, seq<Chunk>>)
    requires limits.Valid() && AllOk(limits, sessions, d)
    ensures AllAtMost(sessions, limits.maxWindow * limits.maxChunkBytes)
  {
    forall k | k in sessions
      ensures sessions[k].bytes <= limits.maxWindow * limits.maxChunkBytes
    {
      SessionAtMost(limits, sessions[k], d[k]);
    }
  }

  lemma HeldBounded(limits: Limits, sessions: map<string, Session>, d: map<string, seq<Chunk>>)
    requires limits.Valid() && AllOk(limits, sessions, d) && |sessions| <= limits.maxSessions
    ensures HeldBytes(sessions) <= limits.maxSessions * (limits.maxWindow * limits.maxChunkBytes)
  {
    var most := limits.maxWindow * limits.maxChunkBytes;
    AllSessionsAtMost(limits, sessions, d);
    assert 0 <= most by { TimesMore(0, limits.maxWindow, limits.maxChunkBytes); }
    HeldAtMost(sessions, most);
    TimesMore(|sessions|, limits.maxSessions, most);
  }

  /** However hard it is pushed, the relay holds no more than its limits multiply to. */
  lemma FootprintBounded(limits: Limits, ops: seq<Op>)
    requires limits.Valid()
    ensures HeldBytes(Exec(limits, ops).sessions) <= limits.maxSessions * (limits.maxWindow * limits.maxChunkBytes)
  {
    RunLives(limits, ops);
    RunKeepsRoom(limits, ops);
    HeldBounded(limits, Exec(limits, ops).sessions, Delivered(limits, ops));
  }

  // ----------------------------------------------------------- a circle's share

  lemma SweptOpenedBy(limits: Limits, sessions: map<string, Session>, now: nat, credential: nat)
    ensures |OpenedBy(Swept(limits, sessions, now), credential)| <= |OpenedBy(sessions, credential)|
  {
    SubsetSize(OpenedBy(Swept(limits, sessions, now), credential), OpenedBy(sessions, credential));
  }

  /** A transfer keeps the circle that opened it, whoever pushes into it. */
  lemma OfferOpenedBy(limits: Limits, s: State, c: Chunk, grant: Grant, now: nat, credential: nat)
    requires ChunkError(limits, c).None?
    ensures var t := Offer(limits, s, c, grant, now).state;
            OpenedBy(t.sessions, credential)
            == if c.capability !in s.sessions && grant.credential == credential
               then OpenedBy(s.sessions, credential) + {c.capability}
               else OpenedBy(s.sessions, credential)
  {
  }

  lemma PushOpenedBy(limits: Limits, s: State, c: Chunk, grant: Grant, now: nat, credential: nat, share: nat)
    requires credential != 0 && |OpenedBy(s.sessions, credential)| <= share
    requires grant.credential == credential ==>
               grant.concurrentTransfers > 0 && LowerOf(limits.maxSessions, grant.concurrentTransfers) <= share
    ensures |OpenedBy(Push(limits, s, c, grant, now).state.sessions, credential)| <= share
  {
    if ChunkError(limits, c).None? {
      var live := s.(sessions := Swept(limits, s.sessions, now));
      SweptOpenedBy(limits, s.sessions, now, credential);
      OfferOpenedBy(limits, live, c, grant, now, credential);
    }
  }

  lemma StepOpenedBy(limits: Limits, s: State, op: Op, credential: nat, share: nat)
    requires credential != 0 && |OpenedBy(s.sessions, credential)| <= share
    requires op.PushOp? && op.grant.credential == credential ==>
               op.grant.concurrentTransfers > 0 && LowerOf(limits.maxSessions, op.grant.concurrentTransfers) <= share
    ensures |OpenedBy(Step(limits, s, op).sessions, credential)| <= share
  {
    if op.PushOp? {
      PushOpenedBy(limits, s, op.chunk, op.grant, op.now, credential, share);
    } else {
      SubsetSize(OpenedBy(Step(limits, s, op).sessions, credential), OpenedBy(s.sessions, credential));
    }
  }

  /** A circle whose pushes all come with a share of at most `share` transfers never
      has more than that live. */
  lemma {:induction false} CircleWithinShare(limits: Limits, ops: seq<Op>, credential: nat, share: nat)
    requires credential != 0
    requires forall op | op in ops && op.PushOp? && op.grant.credential == credential ::
               op.grant.concurrentTransfers > 0 && LowerOf(limits.maxSessions, op.grant.concurrentTransfers) <= share
    ensures |OpenedBy(Exec(limits, ops).sessions, credential)| <= share
  {
    if ops == [] {
      assert OpenedBy(EMPTY.sessions, credential) == {};
    } else {
      CircleWithinShare(limits, ops[..|ops| - 1], credential, share);
      assert ops[|ops| - 1] in ops;
      StepOpenedBy(limits, Exec(limits, ops[..|ops| - 1]), ops[|ops| - 1], credential, share);
    }
  }
}
