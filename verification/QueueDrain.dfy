/** Nothing the store does makes a record live longer than it was meant to, so a
    store nobody posts to runs empty. */
module QueueDrain {
  import opened QueueModel
  import opened QueueRequest
  import opened QueueMoves
  import opened QueueSteps
  import opened QueueInvariant
  import opened QueueImport
  import opened QueueIndex
  import opened Groups

  /** Every record stored has an expiry, no later than `bound`. */
  ghost predicate Due(bound: Time, messages: map<string, Envelope>, acks: map<string, Ack>) {
    && (forall m {:trigger messages[m]} | m in messages :: 0 < messages[m].expiresAt <= bound)
    && (forall a {:trigger acks[a]} | a in acks :: 0 < acks[a].expiresAt <= bound)
  }

  ghost predicate PageDue(bound: Time, page: Page) {
    && (forall e | e in page.messages :: 0 < e.expiresAt <= bound)
    && (forall a | a in page.acks :: 0 < a.expiresAt <= bound)
  }

  // ------------------------------------------------- where records come from

  /** Each message was there before or is one of `es` with its lifetime clamped. */
  ghost predicate MessagesFrom(cfg: Config, old_: map<string, Envelope>, es: seq<Envelope>, now: nat,
                               messages: map<string, Envelope>) {
    forall m {:trigger messages[m]} | m in messages ::
      || (m in old_ && messages[m] == old_[m])
      || exists e :: e in es && messages[m] == PrepareEnvelope(cfg, e, 0, now)
  }

  ghost predicate AcksFrom(cfg: Config, old_: map<string, Ack>, as_: seq<Ack>, now: nat, acks: map<string, Ack>) {
    forall a {:trigger acks[a]} | a in acks ::
      || (a in old_ && acks[a] == old_[a])
      || exists x :: x in as_ && acks[a] == PrepareAck(cfg, x, 0, now)
  }

  /** `t` has no message that `s` has not. */
  ghost predicate FewerMail(s: State, t: State) {
    forall m {:trigger t.messages[m]} | m in t.messages :: m in s.messages && t.messages[m] == s.messages[m]
  }

  ghost predicate Fewer(s: State, t: State) {
    && FewerMail(s, t)
    && (forall a {:trigger t.acks[a]} | a in t.acks :: a in s.acks && t.acks[a] == s.acks[a])
  }

  lemma DropLeavesFewer(s: State, ms: set<string>, as_: set<string>)
    ensures Fewer(s, Drop(s, ms, as_))
  {
  }

  lemma BurialLeavesFewer(cfg: Config, s: State, p: Purge)
    ensures Fewer(s, BuryOwner(cfg, s, p))
  {
    var t := StorePurge(cfg, s, p);
    var owned := MessagesWithHash(t, p.hash);
    DropLeavesFewer(t, owned, AcksNaming(t, owned));
  }

  lemma {:induction false} PurgesOnlyRemove(cfg: Config, s: State, ps: seq<Purge>, now: nat)
    ensures Fewer(s, ImportPurges(cfg, s, ps, now))
  {
    if ps != [] {
      PurgesOnlyRemove(cfg, s, ps[..|ps| - 1], now);
      BurialLeavesFewer(cfg, ImportPurges(cfg, s, ps[..|ps| - 1], now), ps[|ps| - 1]);
    }
  }

  lemma AdoptedMessageStored(cfg: Config, s: State, e: Envelope, now: nat)
    ensures var t := AdoptMessage(cfg, s, e, now);
            (t.messages == s.messages || t.messages == s.messages[e.id := e]) && t.acks == s.acks
  {
  }

  lemma StoredMessageFrom(cfg: Config, old_: map<string, Envelope>, messages: map<string, Envelope>,
                          es: seq<Envelope>, e: Envelope, now: nat, id: string)
    requires MessagesFrom(cfg, old_, es, now, messages)
    ensures MessagesFrom(cfg, old_, es + [e], now, messages)
    ensures MessagesFrom(cfg, old_, es + [e], now, messages[id := PrepareEnvelope(cfg, e, 0, now)])
  {
    assert e in es + [e] && forall x | x in es :: x in es + [e];
  }

  lemma OneMessageFrom(cfg: Config, old_: map<string, Envelope>, s: State, es: seq<Envelope>, e: Envelope, now: nat)
    requires MessagesFrom(cfg, old_, es, now, s.messages)
    ensures var t := ImportMessage(cfg, s, e, now);
            MessagesFrom(cfg, old_, es + [e], now, t.messages) && t.acks == s.acks
  {
    AdoptedMessageStored(cfg, s, PrepareEnvelope(cfg, e, 0, now), now);
    StoredMessageFrom(cfg, old_, s.messages, es, e, now, e.id);
  }

  lemma {:induction false} ImportedMessagesFrom(cfg: Config, s: State, es: seq<Envelope>, now: nat)
    ensures var t := ImportMessages(cfg, s, es, now);
            MessagesFrom(cfg, s.messages, es, now, t.messages) && t.acks == s.acks
  {
    if es != [] {
      var n := |es| - 1;
      ImportedMessagesFrom(cfg, s, es[..n], now);
      OneMessageFrom(cfg, s.messages, ImportMessages(cfg, s, es[..n], now), es[..n], es[n], now);
      assert es[..n] + [es[n]] == es;
    }
  }

  /** What storing one ack does to the two record maps. */
  ghost predicate AckStored(s: State, a: Ack, t: State) {
    && (t.acks == s.acks || t.acks == s.acks[a.id := a])
    && (t.messages == s.messages || t.messages == s.messages - {a.messageId})
  }

  lemma AdoptedAckStored(cfg: Config, s: State, a: Ack, now: nat)
    ensures AckStored(s, a, AdoptAck(cfg, s, a, now))
  {
    ApplyRecords(s, Record(a));
  }

  lemma StoredAckFrom(cfg: Config, old_: map<string, Ack>, s: State, as_: seq<Ack>, a: Ack, now: nat, t: State)
    requires AcksFrom(cfg, old_, as_, now, s.acks) && AckStored(s, PrepareAck(cfg, a, 0, now), t)
    ensures AcksFrom(cfg, old_, as_ + [a], now, t.acks)
  {
    assert a in as_ + [a] && forall x | x in as_ :: x in as_ + [a];
  }

  lemma OneAckFrom(cfg: Config, old_: map<string, Ack>, s: State, as_: seq<Ack>, a: Ack, now: nat)
    requires AcksFrom(cfg, old_, as_, now, s.acks)
    ensures var t := ImportAck(cfg, s, a, now);
            AcksFrom(cfg, old_, as_ + [a], now, t.acks) && FewerMail(s, t)
  {
    AdoptedAckStored(cfg, s, PrepareAck(cfg, a, 0, now), now);
    StoredAckFrom(cfg, old_, s, as_, a, now, ImportAck(cfg, s, a, now));
  }

  lemma {:induction false} ImportedAcksFrom(cfg: Config, s: State, as_: seq<Ack>, now: nat)
    ensures var t := ImportAcks(cfg, s, as_, now);
            AcksFrom(cfg, s.acks, as_, now, t.acks) && FewerMail(s, t)
  {
    if as_ != [] {
      var n := |as_| - 1;
      ImportedAcksFrom(cfg, s, as_[..n], now);
      OneAckFrom(cfg, s.acks, ImportAcks(cfg, s, as_[..n], now), as_[..n], as_[n], now);
      assert as_[..n] + [as_[n]] == as_;
    }
  }

  lemma ImportedFrom(cfg: Config, s: State, page: Page, now: nat)
    ensures var t := ImportPage(cfg, s, page, now);
            MessagesFrom(cfg, s.messages, page.messages, now, t.messages)
            && AcksFrom(cfg, s.acks, page.acks, now, t.acks)
  {
    PurgesOnlyRemove(cfg, s, page.purges, now);
    var p := ImportPurges(cfg, s, page.purges, now);
    ImportedMessagesFrom(cfg, p, page.messages, now);
    ImportedAcksFrom(cfg, ImportMessages(cfg, p, page.messages, now), page.acks, now);
  }

  /** A message under that id came on the page, and the stored one ends no later. */
  ghost predicate CameOn(page: Page, m: string, stored: Envelope) {
    exists e :: e in page.messages && e.id == m && (e.expiresAt != NOT_SET ==> stored.expiresAt <= e.expiresAt)
  }

  ghost predicate AckCameOn(page: Page, a: string, stored: Ack) {
    exists x :: x in page.acks && x.id == a && (x.expiresAt != NOT_SET ==> stored.expiresAt <= x.expiresAt)
  }

  /** An import never extends a life: each record it leaves was there before, or is
      one of the page's, ending no later than the page said. */
  lemma ImportNeverExtends(cfg: Config, s: State, page: Page, now: nat)
    requires cfg.Valid() && Inv(cfg, s)
    ensures var t := ImportPage(cfg, s, page, now);
            forall m | m in t.messages ::
              (m in s.messages && t.messages[m] == s.messages[m]) || CameOn(page, m, t.messages[m])
    ensures var t := ImportPage(cfg, s, page, now);
            forall a | a in t.acks :: (a in s.acks && t.acks[a] == s.acks[a]) || AckCameOn(page, a, t.acks[a])
  {
    ImportedFrom(cfg, s, page, now);
    ImportedSound(cfg, s, page, now);
    var t := ImportPage(cfg, s, page, now);
    OriginsOnPage(cfg, s.messages, page, now, t);
    AckOriginsOnPage(cfg, s.acks, page, now, t);
  }

  lemma OriginsOnPage(cfg: Config, old_: map<string, Envelope>, page: Page, now: nat, t: State)
    requires Sound(t) && MessagesFrom(cfg, old_, page.messages, now, t.messages)
    ensures forall m | m in t.messages :: (m in old_ && t.messages[m] == old_[m]) || CameOn(page, m, t.messages[m])
  {
    forall m | m in t.messages && !(m in old_ && t.messages[m] == old_[m])
      ensures CameOn(page, m, t.messages[m])
    {
      var e :| e in page.messages && t.messages[m] == PrepareEnvelope(cfg, e, 0, now);
      assert e.id == m;
    }
  }

  lemma AckOriginsOnPage(cfg: Config, old_: map<string, Ack>, page: Page, now: nat, t: State)
    requires Sound(t) && AcksFrom(cfg, old_, page.acks, now, t.acks)
    ensures forall a | a in t.acks :: (a in old_ && t.acks[a] == old_[a]) || AckCameOn(page, a, t.acks[a])
  {
    forall a | a in t.acks && !(a in old_ && t.acks[a] == old_[a])
      ensures AckCameOn(page, a, t.acks[a])
    {
      var x :| x in page.acks && t.acks[a] == PrepareAck(cfg, x, 0, now);
      assert x.id == a;
    }
  }

  /** So one bound on everything here and on the page bounds everything after. */
  lemma ImportDue(cfg: Config, s: State, page: Page, now: nat, bound: Time)
    requires Due(bound, s.messages, s.acks) && PageDue(bound, page) && cfg.Valid()
    ensures var t := ImportPage(cfg, s, page, now); Due(bound, t.messages, t.acks)
  {
    ImportedFrom(cfg, s, page, now);
  }

  lemma TrimmedPageDue(bound: Time, page: Page)
    requires PageDue(bound, page)
    ensures PageDue(bound, TrimPage(page))
  {
    var t := TrimPage(page);
    forall e | e in t.messages
      ensures 0 < e.expiresAt <= bound
    {
      var i :| 0 <= i < |t.messages| && t.messages[i] == e;
      assert page.messages[i] in page.messages;
    }
    forall a | a in t.acks
      ensures 0 < a.expiresAt <= bound
    {
      var i :| 0 <= i < |t.acks| && t.acks[i] == a;
      assert page.acks[i] in page.acks;
    }
  }

  // ------------------------------------------------------------------- steps

  /** A client call made early enough that what it stores has run out at `bound`. */
  ghost predicate InTime(cfg: Config, op: Op, bound: Time) {
    && (op.Post? || op.Acknowledge? ==> op.now + cfg.maxTTL <= bound)
    && (op.Import? ==> PageDue(bound, op.page))
  }

  lemma PostDue(cfg: Config, s: State, op: Op, bound: Time)
    requires cfg.Valid() && op.Post? && Due(bound, s.messages, s.acks) && InTime(cfg, op, bound)
    ensures var t := StepPost(cfg, s, op); Due(bound, t.messages, t.acks)
  {
  }

  lemma PostedAckStored(cfg: Config, s: State, a: Ack, auth: Auth, now: nat)
    ensures var t := AdmitAck(cfg, s, a, auth, now); t == s || (now < a.expiresAt && AckStored(s, a, t))
  {
    ApplyRecords(s, Record(a));
  }

  lemma StoredAckDue(s: State, a: Ack, t: State, bound: Time)
    requires Due(bound, s.messages, s.acks) && AckStored(s, a, t) && 0 < a.expiresAt <= bound
    ensures Due(bound, t.messages, t.acks)
  {
  }

  lemma AdmittedAckDue(cfg: Config, s: State, a: Ack, auth: Auth, now: nat, bound: Time)
    requires Due(bound, s.messages, s.acks) && a.expiresAt <= bound
    ensures var t := AdmitAck(cfg, s, a, auth, now); Due(bound, t.messages, t.acks)
  {
    PostedAckStored(cfg, s, a, auth, now);
    var t := AdmitAck(cfg, s, a, auth, now);
    if t != s { StoredAckDue(s, a, t, bound); }
  }

  lemma AcknowledgeDue(cfg: Config, s: State, op: Op, bound: Time)
    requires cfg.Valid() && op.Acknowledge? && Due(bound, s.messages, s.acks) && InTime(cfg, op, bound)
    ensures var t := StepAcknowledge(cfg, s, op); Due(bound, t.messages, t.acks)
  {
    AdmittedAckDue(cfg, s, PreparePostedAck(cfg, s, op.ack, op.nodeId, op.grant, op.now), op.auth, op.now, bound);
  }

  /** A call that queues nothing. */
  predicate OnlyRemoves(op: Op) { !op.Post? && !op.Acknowledge? && !op.Import? }

  lemma RemovalLeavesFewer(cfg: Config, s: State, op: Op)
    requires OnlyRemoves(op)
    ensures Fewer(s, Step(cfg, s, op))
  {
    var ms, as_ := RemovedRecords(cfg, s, op);
    RemovedIsFewer(s, Step(cfg, s, op), ms, as_);
  }

  lemma RemovedIsFewer(s: State, t: State, ms: set<string>, as_: set<string>)
    requires t.messages == s.messages - ms && t.acks == s.acks - as_
    ensures Fewer(s, t)
  {
  }

  /** What such a call takes away. */
  lemma RemovedRecords(cfg: Config, s: State, op: Op) returns (ms: set<string>, as_: set<string>)
    requires OnlyRemoves(op)
    ensures var t := Step(cfg, s, op); t.messages == s.messages - ms && t.acks == s.acks - as_
  {
    if op.PurgeByOwner? {
      PurgeStepIs(cfg, s, op);
      ms, as_ := BuriedRecords(cfg, s, Purge(op.hash, op.now + cfg.defaultTTL));
    }
    else if op.Snapshot? || op.Prune? { ms, as_ := SweptRecords(cfg, s, op); }
    else { ms, as_ := FetchedRecords(s, op); }
  }

  lemma PurgeStepIs(cfg: Config, s: State, op: Op)
    requires op.PurgeByOwner?
    ensures Step(cfg, s, op) == BuryOwner(cfg, s, Purge(op.hash, op.now + cfg.defaultTTL))
  {
    calc {
      Step(cfg, s, op);
      StepPurge(cfg, s, op);
      { PurgeIsBurial(cfg, s, op); }
      BuryOwner(cfg, s, Purge(op.hash, op.now + cfg.defaultTTL));
    }
  }

  lemma SweptRecords(cfg: Config, s: State, op: Op) returns (ms: set<string>, as_: set<string>)
    requires op.Snapshot? || op.Prune?
    ensures var t := Step(cfg, s, op); t.messages == s.messages - ms && t.acks == s.acks - as_
  {
    ms, as_ := ExpiredMessages(s, op.now), ExpiredAcks(s, op.now);
    DropRecords(s, ms, as_);
  }

  lemma FetchedRecords(s: State, op: Op) returns (ms: set<string>, as_: set<string>)
    requires op.FetchMessages? || op.FetchAcks?
    ensures var t := StepFetch(s, op); t.messages == s.messages - ms && t.acks == s.acks - as_
  {
    ms, as_ := {}, {};
    if op.FetchMessages? {
      if op.recipient != "" { ms := ExpiredMessages(s, op.now); }
    } else if op.sender != "" {
      as_ := ExpiredAcks(s, op.now);
    }
    DropRecords(s, ms, as_);
    assert s.messages - {} == s.messages && s.acks - {} == s.acks;
  }

  lemma BuriedRecords(cfg: Config, s: State, p: Purge) returns (ms: set<string>, as_: set<string>)
    ensures var t := BuryOwner(cfg, s, p); t.messages == s.messages - ms && t.acks == s.acks - as_
  {
    PurgeKeepsRecords(cfg, s, p);
    ms, as_ := PurgedRecords(StorePurge(cfg, s, p), p.hash);
  }

  lemma PurgeKeepsRecords(cfg: Config, s: State, p: Purge)
    ensures var t := StorePurge(cfg, s, p); t.messages == s.messages && t.acks == s.acks
  {
  }

  lemma PurgedRecords(s: State, hash: string) returns (ms: set<string>, as_: set<string>)
    ensures var t := PurgeMail(s, hash); t.messages == s.messages - ms && t.acks == s.acks - as_
  {
    if hash == "" {
      ms, as_ := {}, {};
    } else {
      ms := MessagesWithHash(s, hash);
      as_ := AcksNaming(s, ms);
      DropRecords(s, ms, as_);
    }
  }

  lemma StepDue(cfg: Config, s: State, op: Op, bound: Time)
    requires cfg.Valid() && Due(bound, s.messages, s.acks) && InTime(cfg, op, bound)
    ensures var t := Step(cfg, s, op); Due(bound, t.messages, t.acks)
  {
    if op.Post? { PostDue(cfg, s, op, bound); }
    else if op.Acknowledge? { AcknowledgeDue(cfg, s, op, bound); }
    else if op.Import? { ImportDue(cfg, s, op.page, op.now, bound); }
    else { RemovalLeavesFewer(cfg, s, op); }
  }

  // ------------------------------------------------------------------- empty

  /** No record and nothing derived from one. */
  predicate Drained(s: State) {
    && s.messages == map[] && s.acks == map[] && s.messageSeq == map[] && s.ackSeq == map[]
    && s.charged == map[] && s.tags == map[]
  }

  lemma NoRecordsDrained(cfg: Config, s: State)
    requires Inv(cfg, s) && s.messages == map[] && s.acks == map[]
    ensures Drained(s)
  {
    assert Sequenced(s) && Bound(s.messages, s.acks, s.tags) && Filed(s.messages, s.acks, s.charged);
    forall id
      ensures id !in s.tags
    {
      assert !Named(s.messages, s.acks, id);
    }
  }

  /** Empty records leave every index and counter of the store empty. */
  lemma DrainedBooks(b: Books, s: State)
    requires Whole(b, s) && Drained(s)
    ensures b.pairCounts == map[] && b.credentialCounts == map[] && b.byPurge == map[] && b.byMessage == map[]
            && b.bindings == map[]
  {
    Open(b, s);
    assert LaneOf(s.messages) == map[] && HashOf(s.messages) == map[] && NamedBy(s.acks) == map[];
    CountOfNothing(b.pairCounts);
    CountOfNothing(b.credentialCounts);
    IndexOfNothing(b.byPurge);
    IndexOfNothing(b.byMessage);
    forall id
      ensures id !in b.bindings
    {
      assert Members(NamedBy(s.acks), id) == {};
      assert RefCount(s.messages, s.acks, id) == 0;
    }
  }

  /** A sweep once everything is due. */
  lemma SweepDrains(cfg: Config, s: State, bound: Time, now: nat)
    requires Due(bound, s.messages, s.acks) && bound <= now && Inv(cfg, Sweep(s, now))
    ensures Drained(Sweep(s, now))
  {
    NoRecordsDrained(cfg, Sweep(s, now));
  }

  lemma {:induction false} LateMessagesRefused(cfg: Config, s: State, es: seq<Envelope>, bound: Time, now: nat)
    requires s.messages == map[] && bound <= now && forall e | e in es :: 0 < e.expiresAt <= bound
    ensures ImportMessages(cfg, s, es, now) == s
  {
    if es != [] { LateMessagesRefused(cfg, s, es[..|es| - 1], bound, now); }
  }

  lemma {:induction false} LateAcksRefused(cfg: Config, s: State, as_: seq<Ack>, bound: Time, now: nat)
    requires bound <= now && forall a | a in as_ :: 0 < a.expiresAt <= bound
    ensures ImportAcks(cfg, s, as_, now) == s
  {
    if as_ != [] { LateAcksRefused(cfg, s, as_[..|as_| - 1], bound, now); }
  }

  lemma LatePageRefused(cfg: Config, s: State, page: Page, bound: Time, now: nat)
    requires s.messages == map[] && s.acks == map[] && PageDue(bound, page) && bound <= now
    ensures var t := ImportPage(cfg, s, page, now); t.messages == map[] && t.acks == map[]
  {
    PurgesOnlyRemove(cfg, s, page.purges, now);
    var p := ImportPurges(cfg, s, page.purges, now);
    assert p.messages == map[] && p.acks == map[];
    LateMessagesRefused(cfg, p, page.messages, bound, now);
    LateAcksRefused(cfg, p, page.acks, bound, now);
  }

  /** From then on pages still in flight bring nothing back. */
  lemma StaysDrained(cfg: Config, s: State, op: Op, bound: Time)
    requires cfg.Valid() && Drained(s) && InTime(cfg, op, bound) && bound <= op.now && Inv(cfg, Step(cfg, s, op))
    ensures Drained(Step(cfg, s, op))
  {
    if op.Import? {
      LatePageRefused(cfg, s, op.page, bound, op.now);
    } else {
      RemovalLeavesFewer(cfg, s, op);
      assert Step(cfg, s, op).messages == map[] && Step(cfg, s, op).acks == map[];
    }
    NoRecordsDrained(cfg, Step(cfg, s, op));
  }
}
