/** The attachment relay with its tables changed in place. */
module AttachmentRelay {
  import opened Common
  import opened Text
  import opened Bitmap
  import opened TransitRing
  import opened Attachment
  import opened AttachmentLives

  datatype Stats = Stats(sessions: nat, chunks: nat, bytes: nat)

  ghost function HeldChunks(sessions: map<string, Session>): nat
    decreases |sessions|
  {
    if sessions == map[] then 0
    else
      var k := Pick(sessions);
      OneFewer(sessions, k);
      |sessions[k].window| + HeldChunks(sessions - {k})
  }

  lemma {:induction false} ChunksWithout(sessions: map<string, Session>, k: string)
    requires k in sessions
    ensures HeldChunks(sessions) == |sessions[k].window| + HeldChunks(sessions - {k})
    decreases |sessions|
  {
    var x := Pick(sessions);
    if x != k {
      OneFewer(sessions, x);
      OneFewer(sessions, k);
      ChunksWithout(sessions - {x}, k);
      ChunksWithout(sessions - {k}, x);
      assert (sessions - {x}) - {k} == (sessions - {k}) - {x};
    }
  }

  /** The words of every session cover its index space. */
  ghost predicate Fit(sessions: map<string, Session>) {
    forall k | k in sessions :: |sessions[k].seen| == Words(sessions[k].totalChunks)
  }

  /** The checks an open transfer makes, in order. */
  method CheckOffer(limits: Limits, sess: Session, spent: Option<nat>, c: Chunk, grant: Grant)
    returns (error: Option<Error>)
    requires ChunkError(limits, c).None? && |sess.seen| == Words(sess.totalChunks)
    ensures error == OfferError(limits, sess, spent, c, grant)
  {
    if sess.transferId != c.transferId || sess.recipient != c.recipient || sess.totalChunks != c.totalChunks {
      return Some(Invalid);
    }
    WordInRange(c.totalChunks, c.index);
    IsSetIsBitOn(sess.seen, c.index);
    if sess.seen[c.index / 64] & Mask(c.index % 64) != 0 { return Some(Duplicate); }
    if |sess.window| >= limits.maxWindow { return Some(WindowFull); }
    if sess.credential != 0 && grant.transitBytesPerDay > 0 {
      if spent.Some? && spent.value + SizeOf(c) > grant.transitBytesPerDay { return Some(TransitExhausted); }
    }
    if sess.pushedBytes + SizeOf(c) > LowerOf(limits.maxAttachmentBytes, grant.attachmentBytes) {
      return Some(TooLarge);
    }
    error := None;
  }

  /** An accepted chunk joins the window and its index is remembered. */
  method AcceptChunk(sess: Session, c: Chunk, now: nat) returns (next: Session)
    requires 0 <= c.index < sess.totalChunks && |sess.seen| == Words(sess.totalChunks)
    ensures next == Accepted(sess, c, now) && |next.seen| == Words(next.totalChunks)
  {
    WordInRange(sess.totalChunks, c.index);
    var word := sess.seen[c.index / 64] | Mask(c.index % 64);
    next := sess.(window := sess.window + [c], bytes := sess.bytes + SizeOf(c),
                  pushedBytes := sess.pushedBytes + SizeOf(c),
                  seen := sess.seen[c.index / 64 := word], lastActivity := now);
  }

  /** Whether the chunk's transfer is or can be open, and the table with it open. */
  ghost function OpenError(limits: Limits, sessions: map<string, Session>, c: Chunk, grant: Grant,
                           now: nat): Option<Error> {
    var live := Swept(limits, sessions, now);
    if c.capability in live then None else RoomError(limits, live, grant)
  }

  ghost function WithTransfer(limits: Limits, sessions: map<string, Session>, c: Chunk, grant: Grant,
                              now: nat): map<string, Session>
    requires 0 <= c.totalChunks
  {
    var live := Swept(limits, sessions, now);
    if c.capability in live || OpenError(limits, sessions, c, grant, now).Some? then live
    else live[c.capability := Opened(c, grant.credential, now)]
  }

  /** A push is an opening followed by an offer. */
  lemma PushIs(limits: Limits, s: State, c: Chunk, grant: Grant, now: nat)
    requires ChunkError(limits, c).None?
    ensures var t := s.(sessions := WithTransfer(limits, s.sessions, c, grant, now));
            var error := OpenError(limits, s.sessions, c, grant, now);
            Push(limits, s, c, grant, now)
            == if error.Some? then PushResult(t, error) else Offer(limits, t, c, grant, now)
  {
    var live := s.(sessions := Swept(limits, s.sessions, now));
    OfferOpened(limits, live, c, grant, now);
    var sess := SessionFor(live, c, grant, now);
    assert c.capability in live.sessions ==> live.sessions[c.capability := sess] == live.sessions;
  }

  /** Opening the transfer first makes no difference to the offer. */
  lemma OfferOpened(limits: Limits, s: State, c: Chunk, grant: Grant, now: nat)
    requires ChunkError(limits, c).None?
    ensures var t := s.(sessions := s.sessions[c.capability := SessionFor(s, c, grant, now)]);
            Offer(limits, t, c, grant, now) == Offer(limits, s, c, grant, now)
  {
    var t := s.(sessions := s.sessions[c.capability := SessionFor(s, c, grant, now)]);
    var sess := SessionFor(s, c, grant, now);
    var next := Accepted(sess, c, now);
    assert t.sessions[c.capability := sess] == s.sessions[c.capability := sess];
    assert t.sessions[c.capability := next] == s.sessions[c.capability := next];
  }

  /** The answer to a chunk whose transfer is open. */
  ghost function Verdict(limits: Limits, s: State, c: Chunk, grant: Grant, now: nat): Option<Error>
    requires ChunkError(limits, c).None? && c.capability in s.sessions
  {
    var sess := s.sessions[c.capability];
    OfferError(limits, sess, SpentBy(s.transit, sess.credential, HourOf(now)), c, grant)
  }

  ghost function WithChunk(s: State, c: Chunk, now: nat): State
    requires 0 <= c.index && c.capability in s.sessions
  {
    var sess := s.sessions[c.capability];
    State(s.sessions[c.capability := Accepted(sess, c, now)],
          ChargedRing(s.transit, sess.credential, HourOf(now), SizeOf(c)))
  }

  lemma WithChunkIs(s: State, c: Chunk, now: nat, sessions: map<string, Session>, transit: map<nat, Ring>)
    requires 0 <= c.index && c.capability in s.sessions
    requires sessions == s.sessions[c.capability := Accepted(s.sessions[c.capability], c, now)]
    requires transit == ChargedRing(s.transit, s.sessions[c.capability].credential, HourOf(now), SizeOf(c))
    ensures State(sessions, transit) == WithChunk(s, c, now)
  {
  }

  lemma OfferIs(limits: Limits, s: State, c: Chunk, grant: Grant, now: nat)
    requires ChunkError(limits, c).None? && c.capability in s.sessions
    ensures var error := Verdict(limits, s, c, grant, now);
            Offer(limits, s, c, grant, now) == PushResult(if error.Some? then s else WithChunk(s, c, now), error)
    ensures Verdict(limits, s, c, grant, now).None? ==> s.sessions[c.capability].totalChunks == c.totalChunks
  {
    assert s.sessions[c.capability := s.sessions[c.capability]] == s.sessions;
  }

  ghost function Unspent(transit: map<nat, Ring>, now: nat): map<nat, Ring> {
    map c | c in transit && Total(transit[c], HourOf(now)) != 0 :: transit[c]
  }

  lemma PruneIs(limits: Limits, s: State, now: nat, sessions: map<string, Session>, transit: map<nat, Ring>)
    requires sessions == Swept(limits, s.sessions, now) && transit == Unspent(s.transit, now)
    ensures State(sessions, transit) == Attachment.Prune(limits, s, now)
  {
  }

  /** All windows but those under `keys` have been looked at. */
  ghost predicate Partly(before: map<nat, Ring>, rings: map<nat, Ring>, keys: set<nat>, now: nat) {
    && keys <= rings.Keys <= before.Keys && (forall c | c in rings :: rings[c] == before[c])
    && (forall c | c in before && c !in keys :: c in rings <==> Total(before[c], HourOf(now)) != 0)
  }

  lemma PartlyDone(before: map<nat, Ring>, rings: map<nat, Ring>, now: nat)
    requires Partly(before, rings, {}, now)
    ensures rings == Unspent(before, now)
  {
  }

  lemma PartlyNext(before: map<nat, Ring>, rings: map<nat, Ring>, keys: set<nat>, key: nat, now: nat)
    requires Partly(before, rings, keys, now) && key in keys
    ensures Partly(before, if Total(rings[key], HourOf(now)) == 0 then rings - {key} else rings, keys - {key}, now)
  {
  }

  /** Looking at one more transfer. */
  lemma CountNext(sessions: map<string, Session>, credential: nat, keys: set<string>, key: string)
    requires key in keys && keys <= sessions.Keys
    ensures var mine := OpenedBy(sessions, credential);
            |mine - (keys - {key})| == |mine - keys| + if sessions[key].credential == credential then 1 else 0
  {
    var mine := OpenedBy(sessions, credential);
    assert mine - (keys - {key}) == if sessions[key].credential == credential then mine - keys + {key} else mine - keys;
  }

  class Relay {
    const limits: Limits
    var sessions: map<string, Session>
    var transit: map<nat, TransitWindow>

    /** The arrays of all windows. */
    ghost var buffers: set<array<nat>>

    ghost predicate Apart()
      reads `transit, `buffers
    {
      && (forall c | c in transit :: transit[c].Valid() && transit[c].bytes in buffers && transit[c].hour in buffers)
      && (forall c, d | c in transit && d in transit && c != d ::
            transit[c].bytes != transit[d].bytes && transit[c].hour != transit[d].hour
            && transit[c].bytes != transit[d].hour)
    }

    /** Windows are whole and share nothing with each other. */
    ghost predicate Separate()
      reads `transit, `buffers
    {
      forall i {:trigger Unsealed(i)} :: Unsealed(i) ==> Apart()
    }

    lemma OpenSeparate()
      requires Separate()
      ensures Apart()
    {
      assert Unsealed(0);
    }

    ghost predicate Valid()
      reads this
    {
      limits.Valid() && Fit(sessions) && Separate()
    }

    ghost function Rings(): map<nat, Ring>
      requires Separate()
      reads `transit, `buffers, buffers
    {
      OpenSeparate();
      map c | c in transit :: transit[c].View()
    }

    ghost function View(): State
      requires Valid()
      reads this, buffers
    {
      State(sessions, Rings())
    }

    constructor (limits: Limits)
      ensures Valid() && this.limits == limits.Corrected() && View() == EMPTY && buffers == {}
    {
      this.limits := limits.Corrected();
      sessions := map[];
      transit := map[];
      buffers := {};
    }

    method SweepLocked(now: nat)
      requires Valid()
      modifies `sessions
      ensures Valid() && sessions == Swept(limits, old(sessions), now)
    {
      var keys := sessions.Keys;
      while keys != {}
        invariant keys <= sessions.Keys <= old(sessions).Keys
        invariant forall k | k in old(sessions) && !Idle(limits, old(sessions)[k], now) :: k in sessions
        invariant forall k | k in sessions ::
                    sessions[k] == old(sessions)[k] && (k in keys || !Idle(limits, sessions[k], now))
      {
        var key :| key in keys;
        keys := keys - {key};
        if now - sessions[key].lastActivity > limits.idleTimeout {
          sessions := sessions - {key};
        }
      }
    }

    /** A circle's live transfers, counted by a scan. */
    method SessionsFor(credential: nat) returns (count: nat)
      ensures count == |OpenedBy(sessions, credential)|
    {
      var keys := sessions.Keys;
      count := 0;
      assert OpenedBy(sessions, credential) - keys == {};
      while keys != {}
        invariant keys <= sessions.Keys && count == |OpenedBy(sessions, credential) - keys|
      {
        var key :| key in keys;
        CountNext(sessions, credential, keys, key);
        keys := keys - {key};
        if sessions[key].credential == credential { count := count + 1; }
      }
      assert OpenedBy(sessions, credential) - {} == OpenedBy(sessions, credential);
    }

    /** The footprint monitoring watches. */
    method StatsLocked() returns (stats: Stats)
      ensures stats == Stats(|sessions|, HeldChunks(sessions), HeldBytes(sessions))
    {
      var rest := sessions;
      var chunks, bytes := 0, 0;
      while rest != map[]
        invariant chunks + HeldChunks(rest) == HeldChunks(sessions)
        invariant bytes + HeldBytes(rest) == HeldBytes(sessions)
        decreases |rest|
      {
        var key :| key in rest;
        OneFewer(rest, key);
        ChunksWithout(rest, key);
        HeldWithout(rest, key);
        chunks, bytes := chunks + |rest[key].window|, bytes + rest[key].bytes;
        rest := rest - {key};
      }
      stats := Stats(|sessions|, chunks, bytes);
    }

    method ChargeOld(credential: nat, now: nat, n: nat)
      requires Separate() && credential in transit
      modifies buffers
      ensures Rings() == old(Rings())[credential := Add(old(Rings())[credential], HourOf(now), n)]
    {
      OpenSeparate();
      transit[credential].Charge(now, n);
      assert forall c | c in transit && c != credential :: transit[c].View() == old(transit[c].View());
    }

    method InsertWindow(credential: nat, window: TransitWindow)
      requires Separate() && credential !in transit
      requires window.Valid() && window.bytes !in buffers && window.hour !in buffers
      modifies `transit, `buffers
      ensures Separate() && Rings() == old(Rings())[credential := window.View()]
      ensures buffers == old(buffers) + {window.bytes, window.hour}
    {
      OpenSeparate();
      transit := transit[credential := window];
      buffers := buffers + {window.bytes, window.hour};
      assert Apart();
    }

    method ChargeNew(credential: nat, now: nat, n: nat)
      requires Separate() && credential !in transit
      modifies `transit, `buffers
      ensures Separate() && Rings() == old(Rings())[credential := Add(BLANK, HourOf(now), n)]
      ensures fresh(buffers - old(buffers))
    {
      var window := new TransitWindow();
      window.Charge(now, n);
      InsertWindow(credential, window);
    }

    /** The circle's window, created on its first accepted chunk. */
    method ChargeLocked(credential: nat, now: nat, n: nat)
      requires Separate()
      modifies `transit, `buffers, buffers
      ensures Separate() && Rings() == ChargedRing(old(Rings()), credential, HourOf(now), n)
      ensures fresh(buffers - old(buffers))
    {
      if credential != 0 {
        if credential !in transit { ChargeNew(credential, now, n); } else { ChargeOld(credential, now, n); }
      }
    }

    /** What a circle has in its window, if it has one. */
    method SpentLocked(credential: nat, now: nat) returns (spent: Option<nat>)
      requires Separate()
      ensures spent == SpentBy(Rings(), credential, HourOf(now))
    {
      if credential !in transit { return None; }
      OpenSeparate();
      var sum := transit[credential].Sum(now);
      spent := Some(sum);
    }

    /** Sweep, then find the chunk's transfer or open one for it. */
    method OpenLocked(c: Chunk, grant: Grant, now: nat) returns (error: Option<Error>)
      requires Valid() && ChunkError(limits, c).None?
      modifies `sessions
      ensures Valid()
      ensures error == OpenError(limits, old(sessions), c, grant, now)
      ensures sessions == WithTransfer(limits, old(sessions), c, grant, now)
      ensures error.None? ==> c.capability in sessions
    {
      SweepLocked(now);
      error := None;
      if c.capability !in sessions {
        if |sessions| >= limits.maxSessions { return Some(TooManySessions); }
        if grant.credential != 0 && grant.concurrentTransfers > 0 {
          var count := SessionsFor(grant.credential);
          if count >= LowerOf(limits.maxSessions, grant.concurrentTransfers) { return Some(TooManySessions); }
        }
        sessions := sessions[c.capability := Opened(c, grant.credential, now)];
      }
    }

    method CheckLocked(c: Chunk, grant: Grant, now: nat) returns (error: Option<Error>)
      requires Valid() && ChunkError(limits, c).None? && c.capability in sessions
      ensures error == Verdict(limits, View(), c, grant, now)
    {
      var sess := sessions[c.capability];
      var spent := SpentLocked(sess.credential, now);
      error := CheckOffer(limits, sess, spent, c, grant);
    }

    method AcceptLocked(c: Chunk, now: nat)
      requires Valid() && ChunkError(limits, c).None? && c.capability in sessions
      requires sessions[c.capability].totalChunks == c.totalChunks
      modifies `sessions, `transit, `buffers, buffers
      ensures Valid() && View() == WithChunk(old(View()), c, now)
      ensures fresh(buffers - old(buffers))
    {
      ghost var s := View();
      var sess := sessions[c.capability];
      var next := AcceptChunk(sess, c, now);
      SetSession(c.capability, next);
      assert Rings() == s.transit;
      ChargeLocked(sess.credential, now, SizeOf(c));
      WithChunkIs(s, c, now, sessions, Rings());
    }

    method OfferLocked(c: Chunk, grant: Grant, now: nat) returns (error: Option<Error>)
      requires Valid() && ChunkError(limits, c).None? && c.capability in sessions
      modifies `sessions, `transit, `buffers, buffers
      ensures Valid() && PushResult(View(), error) == Offer(limits, old(View()), c, grant, now)
      ensures fresh(buffers - old(buffers))
    {
      OfferIs(limits, View(), c, grant, now);
      error := CheckLocked(c, grant, now);
      if error.None? { AcceptLocked(c, now); }
    }

    method SetSession(capability: string, sess: Session)
      requires Valid() && |sess.seen| == Words(sess.totalChunks)
      modifies `sessions
      ensures Valid() && sessions == old(sessions)[capability := sess]
    {
      sessions := sessions[capability := sess];
    }

    /** One chunk against a credential's terms. */
    method PushWithGrant(chunk: Chunk, grant: Grant, now: nat) returns (error: Option<Error>)
      requires Valid()
      modifies `sessions, `transit, `buffers, buffers
      ensures Valid() && PushResult(View(), error) == Push(limits, old(View()), TrimChunk(chunk), grant, now)
      ensures fresh(buffers - old(buffers))
    {
      var c := TrimChunk(chunk);
      error := ChunkError(limits, c);
      if error.Some? { return; }
      ghost var s := View();
      PushIs(limits, s, c, grant, now);
      error := OpenLocked(c, grant, now);
      assert View() == s.(sessions := WithTransfer(limits, s.sessions, c, grant, now));
      if error.Some? { return; }
      error := OfferLocked(c, grant, now);
    }

    /** Everything waiting goes to the recipient; the indices stay remembered. */
    method Drain(recipient: string, capability: string, now: nat, later: nat) returns (out: seq<Chunk>)
      requires Valid()
      modifies `sessions
      ensures Valid() && View() == Attachment.Drain(limits, old(View()), Trim(recipient), Trim(capability), now, later)
      ensures out == DrainOut(limits, old(View()), Trim(recipient), Trim(capability), now)
    {
      var r, k := Trim(recipient), Trim(capability);
      out := [];
      if r == "" || k == "" { return; }
      SweepLocked(now);
      if k !in sessions || sessions[k].recipient != r || |sessions[k].window| == 0 { return; }
      out := sessions[k].window;
      sessions := sessions[k := sessions[k].(window := [], bytes := 0, lastActivity := later)];
    }

    /** Tear the transfer down; what was still waiting is reported. */
    method Complete(transferId: string, capability: string) returns (inFlight: nat)
      requires Valid()
      modifies `sessions
      ensures Valid() && View() == Attachment.Complete(old(View()), Trim(transferId), Trim(capability))
      ensures inFlight == if Completable(old(sessions), Trim(transferId), Trim(capability))
                          then |old(sessions)[Trim(capability)].window| else 0
    {
      var t, k := Trim(transferId), Trim(capability);
      if k !in sessions || sessions[k].transferId != t { return 0; }
      inFlight := |sessions[k].window|;
      sessions := sessions - {k};
    }

    /** Drop idle transfers and windows with nothing left in them. */
    method Prune(now: nat) returns (stats: Stats)
      requires Valid()
      modifies `sessions, `transit
      ensures Valid() && View() == Attachment.Prune(limits, old(View()), now)
      ensures stats == Stats(|sessions|, HeldChunks(sessions), HeldBytes(sessions))
      ensures buffers <= old(buffers)
    {
      ghost var s := View();
      SweepLocked(now);
      assert Rings() == s.transit;
      ForgetSpent(now);
      PruneIs(limits, s, now, sessions, Rings());
      stats := StatsLocked();
    }

    method DropWindow(credential: nat)
      requires Separate()
      modifies `transit
      ensures Separate() && Rings() == old(Rings()) - {credential} && transit.Keys == old(transit.Keys) - {credential}
    {
      OpenSeparate();
      transit := transit - {credential};
      assert Apart();
    }

    method ForgetIfSpent(key: nat, now: nat)
      requires Separate() && key in Rings()
      modifies `transit
      ensures Separate()
      ensures Rings()
           == if Total(old(Rings())[key], HourOf(now)) == 0 then old(Rings()) - {key} else old(Rings())
    {
      var spent := SpentLocked(key, now);
      if spent == Some(0) { DropWindow(key); }
    }

    method ForgetSpent(now: nat)
      requires Separate()
      modifies `transit
      ensures Separate() && Rings() == Unspent(old(Rings()), now)
    {
      ghost var before := Rings();
      var keys := transit.Keys;
      while keys != {}
        invariant Separate() && Partly(before, Rings(), keys, now)
      {
        var key :| key in keys;
        PartlyNext(before, Rings(), keys, key, now);
        keys := keys - {key};
        ForgetIfSpent(key, now);
      }
      PartlyDone(before, Rings(), now);
    }

    /** A circle's rolling total. */
    method TransitToday(credential: nat, now: nat) returns (sum: nat)
      requires Separate()
      ensures sum == if credential in Rings() then Total(Rings()[credential], HourOf(now)) else 0
    {
      if credential !in transit { return 0; }
      OpenSeparate();
      sum := transit[credential].Sum(now);
    }
  }
}
