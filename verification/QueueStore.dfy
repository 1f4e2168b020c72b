/** The queue store with its counters and indexes.  Every method is proved to do to
    the records exactly what QueueModel's scanning function does, and to leave every
    derived structure equal to its definition over the records. */
module QueueStore {
  import opened Common
  import opened Text
  import opened Groups
  import opened QueueModel
  import opened QueueRequest
  import opened QueueInvariant
  import opened QueueIndex
  import opened QueuePaging
  import opened Sorting

  /** The three record maps, the arrival numbers and the charges. */
  datatype Records = Records(messages: map<string, Envelope>, acks: map<string, Ack>,
                             purges: map<string, Purge>, seqNo: nat,
                             messageSeq: map<string, nat>, ackSeq: map<string, nat>,
                             messageCredential: map<string, nat>)

  /** What the store holds, seen without its derived structures. */
  function StateOf(r: Records, b: Books): State {
    State(r.messages, r.acks, r.purges, r.seqNo, r.messageSeq, r.ackSeq, r.messageCredential, TagsOf(b.bindings))
  }

  /** All messages but those under `ids` have been looked at. */
  ghost predicate ReadSoFar(s: State, recipient: string, auth: Auth, now: nat, ids: set<string>, done: set<string>,
                            all: set<Envelope>) {
    && (forall m | m in s.messages :: s.messages[m].id == m) && done <= s.messages.Keys
    && (forall m | m in s.messages && m !in ids :: m in done <==> s.messages[m].expiresAt <= now)
    && (forall e :: e in all <==> e.id !in ids && now < e.expiresAt && Readable(s, recipient, auth, e))
  }

  lemma ReadNext(s: State, recipient: string, auth: Auth, now: nat, ids: set<string>, done: set<string>,
                 all: set<Envelope>, id: string)
    requires ReadSoFar(s, recipient, auth, now, ids, done, all) && id in ids && id in s.messages && id !in done
    ensures var e := s.messages[id];
            && e !in all
            && if e.expiresAt <= now then ReadSoFar(s, recipient, auth, now, ids - {id}, done + {id}, all)
               else if e.recipient == recipient && auth.Permits(e.recipientTag)
               then ReadSoFar(s, recipient, auth, now, ids - {id}, done, all + {e})
               else ReadSoFar(s, recipient, auth, now, ids - {id}, done, all)
  {
  }

  lemma OneMoreRead<T>(xs: seq<T>, all: set<T>, x: T)
    requires x !in all && multiset(xs) == multiset(all)
    ensures multiset(xs + [x]) == multiset(all + {x})
  {
  }

  lemma ReadAll(s: State, recipient: string, auth: Auth, now: nat, done: set<string>, all: set<Envelope>)
    requires ReadSoFar(s, recipient, auth, now, {}, done, all)
    ensures done == ExpiredMessages(s, now)
    ensures forall e :: e in all <==> now < e.expiresAt && Readable(s, recipient, auth, e)
  {
  }

  /** Order what is pending, cut it at the limit, and copy it out. */
  method BuildPage(r: Records, epoch: string, since: nat, limit: nat, ghost s: State) returns (page: Page)
    requires 0 < limit && s.messages == r.messages && s.acks == r.acks && s.purges == r.purges
    requires s.messageSeq == r.messageSeq && s.ackSeq == r.ackSeq && Numbered(s.seqNo, s.messageSeq, s.ackSeq)
    requires s.messageSeq.Keys == s.messages.Keys && s.ackSeq.Keys == s.acks.Keys && OwnHash(s.purges)
    ensures exists refs :: Serves(s, epoch, since, limit, refs, page)
  {
    var refs, nos := OrderPending(r.messageSeq, r.ackSeq, since, s);
    var more := |refs| > limit;
    var n := if more then limit else |refs|;
    var es, as_ := ReadOut(r.messages, r.acks, refs[..n], s);
    var nextSeq := if n == 0 then since else nos[n - 1];
    var purges := ListPurges(r.purges);
    page := Page(epoch, nextSeq, more, es, as_, purges);
    CutServes(s, epoch, since, limit, refs, n, page);
  }

  class Store {
    const cfg: Config
    const epoch: string
    var records: Records
    var books: Books

    ghost function View(): State
      reads this
    {
      StateOf(records, books)
    }

    /** The records are sound and every derived structure equals its definition. */
    ghost predicate Valid()
      reads this
    {
      Whole(books, View())
    }

    constructor (config: Config, epoch: string)
      ensures Valid() && View() == EMPTY
      ensures cfg == config.Corrected() && this.epoch == epoch
    {
      cfg := config.Corrected();
      this.epoch := epoch;
      records := Records(map[], map[], map[], 0, map[], map[], map[]);
      books := Books(map[], map[], map[], map[], map[]);
      new;
      EmptyInv(cfg);
    }

    // ------------------------------------------- the four add/delete points

    method AddMessageLocked(e: Envelope, credential: nat)
      requires Valid() && e.id !in records.messages && e.id != "" && 0 < e.expiresAt
      modifies this
      ensures Valid() && View() == InsertMessage(old(View()), e, credential)
    {
      WholeWithMessage(books, View(), e, credential);
      var r, b := PutMessage(records, books, e, credential);
      records, books := r, b;
    }

    /** Safe to call with an id that is not queued. */
    method DeleteMessageLocked(id: string)
      requires Valid()
      modifies this
      ensures Valid() && View() == Drop(old(View()), {id}, {})
    {
      if id !in records.messages {
        DropMissing(books, View(), {id}, {});
        return;
      }
      WholeWithoutMessage(books, View(), id);
      var r, b := TakeMessage(records, books, id);
      records, books := r, b;
    }

    method InsertAckLocked(a: Ack)
      requires Valid() && a.id !in records.acks
      requires a.id != "" && a.messageId != "" && 0 < a.expiresAt && ValidAckType(a.kind)
      modifies this
      ensures Valid() && View() == InsertAck(old(View()), a)
    {
      WholeWithAck(books, View(), a);
      var r, b := PutAck(records, books, a);
      records, books := r, b;
    }

    /** Insert an ack if it is new, the lane holds fewer than `capacity` and it has
        not expired. */
    method AddAckWithinLocked(ack: Ack, now: nat, capacity: int) returns (error: Option<Error>)
      requires Valid() && ack.id != "" && ack.messageId != "" && ValidAckType(ack.kind)
      modifies this
      ensures Valid()
      ensures error == AckError(old(View()), WithExpiry(cfg, ack, now), now, capacity)
      ensures View() == if error.None? then InsertAck(old(View()), WithExpiry(cfg, ack, now)) else old(View())
    {
      if ack.id in records.acks { return Some(Duplicate); }
      if |records.acks| >= capacity { return Some(QueueFull); }
      var a := ack;
      if a.expiresAt == NOT_SET { a := a.(expiresAt := now + cfg.defaultTTL); }
      if a.expiresAt <= now { return Some(Expired); }
      InsertAckLocked(a);
      return None;
    }

    method DeleteAckLocked(id: string)
      requires Valid()
      modifies this
      ensures Valid() && View() == Drop(old(View()), {}, {id})
    {
      if id !in records.acks {
        DropMissing(books, View(), {}, {id});
        return;
      }
      WholeWithoutAck(books, View(), id);
      var r, b := TakeAck(records, books, id);
      records, books := r, b;
    }

    // ----------------------------------------------------------- index reads

    lemma IndexedAcks(id: string)
      requires Valid()
      ensures Lookup(books.byMessage, id) == AcksNaming(View(), {id})
    {
      Open(books, View());
      assert Members(NamedBy(records.acks), id) == AcksNaming(View(), {id});
    }

    lemma IndexedMessages(hash: string)
      requires Valid()
      ensures Lookup(books.byPurge, hash) == PurgedMessages(View(), hash)
    {
      Open(books, View());
      var filed := Members(HashOf(records.messages), hash);
      assert filed == PurgedMessages(View(), hash);
    }

    /** The index lookup agrees with a scan of all acks. */
    method HasTerminalAckLocked(id: string) returns (found: bool)
      requires Valid()
      ensures found <==> HasTerminalAck(View(), id)
    {
      IndexedAcks(id);
      var naming := Lookup(books.byMessage, id);
      var rest := naming;
      while rest != {}
        invariant rest <= naming
        invariant forall a | a in naming - rest :: !Terminal(records.acks[a].kind)
      {
        var a :| a in rest;
        if Terminal(records.acks[a].kind) { return true; }
        rest := rest - {a};
      }
      return false;
    }

    // ---------------------------------------------------------------- sweeps

    method SweepMessagesLocked(now: Time)
      requires Valid()
      modifies this
      ensures Valid() && View() == SweepMessages(old(View()), now)
    {
      ghost var s := View();
      var ids, done := records.messages.Keys, {};
      DropMissing(books, s, {}, {});
      while ids != {}
        invariant Valid() && View() == Drop(s, done, {})
        invariant ids <= s.messages.Keys && done !! ids
        invariant forall m :: m in s.messages && m !in ids ==> (m in done <==> s.messages[m].expiresAt <= now)
        invariant done <= s.messages.Keys
      {
        var id :| id in ids;
        ids := ids - {id};
        if records.messages[id].expiresAt <= now {
          DeleteMessageLocked(id);
          DropTwice(s, done, {}, {id}, {});
          done := done + {id};
        }
      }
      assert done == ExpiredMessages(s, now);
    }

    method SweepAcksLocked(now: Time)
      requires Valid()
      modifies this
      ensures Valid() && View() == SweepAcks(old(View()), now)
    {
      ghost var s := View();
      var ids, done := records.acks.Keys, {};
      DropMissing(books, s, {}, {});
      while ids != {}
        invariant Valid() && View() == Drop(s, {}, done)
        invariant ids <= s.acks.Keys && done !! ids
        invariant forall a :: a in s.acks && a !in ids ==> (a in done <==> s.acks[a].expiresAt <= now)
        invariant done <= s.acks.Keys
      {
        var id :| id in ids;
        ids := ids - {id};
        if records.acks[id].expiresAt <= now {
          DeleteAckLocked(id);
          DropTwice(s, {}, done, {}, {id});
          done := done + {id};
        }
      }
      assert done == ExpiredAcks(s, now);
    }

    method SweepPurgesLocked(now: Time)
      requires Valid()
      modifies this
      ensures Valid() && View() == old(View()).(purges := LivePurges(old(View()).purges, now))
    {
      var purges, ids := records.purges, records.purges.Keys;
      while ids != {}
        invariant ids <= records.purges.Keys
        invariant purges == map h | h in records.purges && (h in ids || now < records.purges[h].expiresAt) ::
                    records.purges[h]
      {
        var h :| h in ids;
        ids := ids - {h};
        if records.purges[h].expiresAt <= now { purges := purges - {h}; }
      }
      SoundParts(books, View());
      WholeWithPurges(books, View(), purges);
      records := records.(purges := purges);
    }

    method SweepAll(now: nat)
      requires Valid()
      modifies this
      ensures Valid() && View() == Sweep(old(View()), now)
    {
      ghost var s := View();
      SweepMessagesLocked(now);
      SweepAcksLocked(now);
      SweepPurgesLocked(now);
      SweepsCompose(s, now);
    }

    /** Three sweeps, then the table sizes. */
    method PruneExpired(now: nat) returns (m: nat, a: nat, p: nat)
      requires Valid()
      modifies this
      ensures Valid() && View() == Step(cfg, old(View()), Prune(now))
      ensures m == |View().messages| && a == |View().acks| && p == |View().purges|
    {
      SweepAll(now);
      m, a, p := |records.messages|, |records.acks|, |records.purges|;
    }

    // ---------------------------------------------------------------- purges

    method StorePurgeLocked(p: Purge)
      requires Valid()
      modifies this
      ensures Valid() && View() == StorePurge(cfg, old(View()), p)
    {
      if p.hash !in records.purges && |records.purges| >= cfg.maxPurges { return; }
      SoundParts(books, View());
      WholeWithPurges(books, View(), records.purges[p.hash := p]);
      records := records.(purges := records.purges[p.hash := p]);
    }

    method DeleteAcksLocked(doomed: set<string>) returns (count: nat)
      requires Valid()
      modifies this
      ensures Valid() && View() == Drop(old(View()), {}, doomed) && count == |doomed|
    {
      ghost var s := View();
      var rest, done := doomed, {};
      count := 0;
      DropMissing(books, s, {}, {});
      while rest != {}
        invariant Valid() && View() == Drop(s, {}, done)
        invariant done + rest == doomed && done !! rest && count == |done|
      {
        var a :| a in rest;
        rest := rest - {a};
        DeleteAckLocked(a);
        DropTwice(s, {}, done, {}, {a});
        done := done + {a};
        count := count + 1;
      }
      assert done == doomed;
    }

    method DeleteAcksNaming(id: string) returns (count: nat)
      requires Valid()
      modifies this
      ensures Valid() && View() == Drop(old(View()), {}, AcksNaming(old(View()), {id}))
      ensures count == |AcksNaming(old(View()), {id})|
    {
      IndexedAcks(id);
      count := DeleteAcksLocked(Lookup(books.byMessage, id));
    }

    method PurgeMessageLocked(id: string) returns (count: nat)
      requires Valid()
      modifies this
      ensures Valid() && View() == Drop(old(View()), {id}, AcksNaming(old(View()), {id}))
      ensures count == |AcksNaming(old(View()), {id})|
    {
      ghost var s := View();
      DeleteMessageLocked(id);
      count := DeleteAcksNaming(id);
      MailThenAcks(s, id);
    }

    method PurgeMessagesLocked(owned: set<string>) returns (m: nat, a: nat)
      requires Valid()
      modifies this
      ensures Valid() && View() == Drop(old(View()), owned, AcksNaming(old(View()), owned))
      ensures m == |owned| && a == |AcksNaming(old(View()), owned)|
    {
      ghost var s := View();
      var rest, done := owned, {};
      m, a := 0, 0;
      NothingNamed(books, s);
      while rest != {}
        invariant Valid() && View() == Drop(s, done, AcksNaming(s, done))
        invariant done + rest == owned && done !! rest
        invariant m == |done| && a == |AcksNaming(s, done)|
      {
        var id :| id in rest;
        rest := rest - {id};
        var n := PurgeMessageLocked(id);
        PurgeOneMore(s, done, id);
        done := done + {id};
        m, a := m + 1, a + n;
      }
      assert done == owned;
    }

    /** Index lookups instead of two scans: exactly the messages carrying the hash
        and exactly the acks naming them, counted. */
    method PurgeOwnerLocked(hash: string) returns (m: nat, a: nat)
      requires Valid()
      modifies this
      ensures Valid() && View() == PurgeMail(old(View()), hash)
      ensures m == |PurgedMessages(old(View()), hash)|
      ensures a == |AcksNaming(old(View()), PurgedMessages(old(View()), hash))|
    {
      IndexedMessages(hash);
      NothingNamed(books, View());
      m, a := PurgeMessagesLocked(Lookup(books.byPurge, hash));
    }

    method PurgeOwner(purgeHash: string, now: nat) returns (m: nat, a: nat)
      requires Valid()
      modifies this
      ensures Valid() && View() == Step(cfg, old(View()), PurgeByOwner(Trim(purgeHash), now))
      ensures m == |PurgedMessages(old(View()), Trim(purgeHash))|
      ensures a == |AcksNaming(old(View()), PurgedMessages(old(View()), Trim(purgeHash)))|
    {
      m, a := PurgeTrimmed(Trim(purgeHash), now);
    }

    method PurgeTrimmed(hash: string, now: nat) returns (m: nat, a: nat)
      requires Valid()
      modifies this
      ensures Valid() && View() == QueueModel.PurgeOwner(cfg, old(View()), hash, now)
      ensures m == |PurgedMessages(old(View()), hash)|
      ensures a == |AcksNaming(old(View()), PurgedMessages(old(View()), hash))|
    {
      StorePurgeLocked(Purge(hash, now + cfg.defaultTTL));
      SameMail(old(View()), View(), hash);
      m, a := PurgeOwnerLocked(hash);
    }

    // ----------------------------------------------------------------- posts

    lemma LaneCount(key: string)
      requires Valid()
      ensures Get(books.pairCounts, key) == |Lane(View(), key)|
    {
      Open(books, View());
      assert Members(LaneOf(records.messages), key) == Lane(View(), key);
    }

    /** How many undelivered envelopes a credential is holding. */
    method Occupancy(credential: nat) returns (count: nat)
      requires Valid()
      ensures count == |ChargedTo(View(), credential)|
    {
      Open(books, View());
      assert Members(records.messageCredential, credential) == ChargedTo(View(), credential);
      count := Get(books.credentialCounts, credential);
    }

    method AdmissionCheck(e: Envelope, grant: Grant, now: nat) returns (error: Option<Error>)
      requires Valid()
      ensures error == AdmissionError(cfg, View(), e, grant, now)
    {
      if e.id in records.messages { return Some(Duplicate); }
      var hash := PurgeHash(e);
      if hash != "" && hash in records.purges && now < records.purges[hash].expiresAt { return Some(Duplicate); }
      LaneCount(PairKey(e));
      if Get(books.pairCounts, PairKey(e)) >= LowerOf(cfg.maxPerPair, grant.maxPerPair) { return Some(PairQuotaFull); }
      if grant.credential != 0 {
        var held := Occupancy(grant.credential);
        if held >= LowerOf(cfg.maxMessages, grant.slots) { return Some(SlotsFull); }
      }
      if |records.messages| >= cfg.maxMessages { return Some(QueueFull); }
      return None;
    }

    /** Queue a prepared envelope with its coupled ack, or say why not. */
    method AdmitLocked(e: Envelope, nodeId: string, grant: Grant, now: nat) returns (reply: PostReply)
      requires Valid() && EnvelopeError(cfg, e, now).None?
      modifies this
      ensures Valid()
      ensures reply == AdmitReply(cfg, old(View()), e, nodeId, grant, now)
      ensures View() == Admit(cfg, old(View()), e, nodeId, grant, now)
    {
      var ack := CoupledAck(e, nodeId, now);
      var error := AdmissionCheck(e, grant, now);
      if e.id in records.messages { return PostReply(Some(ack), Some(Duplicate)); }
      if error.Some? { return PostReply(None, error); }
      CoupledIdNonempty(e.id);
      error := AddAckWithinLocked(ack, now, cfg.maxAcks);
      if error.Some? { return PostReply(None, error); }
      AddMessageLocked(e, grant.credential);
      return PostReply(Some(ack), None);
    }

    method AddMessageWithGrant(envelope: Envelope, nodeId: string, grant: Grant, now: nat) returns (reply: PostReply)
      requires Valid()
      modifies this
      ensures Valid() && View() == Step(cfg, old(View()), Post(TrimPosted(envelope), nodeId, grant, now))
      ensures var e := PrepareEnvelope(cfg, TrimPosted(envelope), grant.retention, now);
              reply == AdmitReply(cfg, old(View()), e, nodeId, grant, now)
    {
      var e := PrepareEnvelope(cfg, TrimPosted(envelope), grant.retention, now);
      var error := EnvelopeError(cfg, e, now);
      if error.Some? { return PostReply(None, error); }
      reply := AdmitLocked(e, nodeId, grant, now);
    }

    // ------------------------------------------------------------------ acks

    /** Insert a checked ack under the external budget and remove the message a
        terminal one names. */
    method AdmitExternalAckLocked(a: Ack, now: nat) returns (error: Option<Error>)
      requires Valid() && AckFieldError(a, now).None?
      modifies this
      ensures Valid()
      ensures error == AckError(old(View()), a, now, cfg.ExternalAckCapacity())
      ensures View() == if error.None? then StoreAck(old(View()), a) else old(View())
    {
      error := AddAckWithinLocked(a, now, cfg.ExternalAckCapacity());
      if error.None? && Terminal(a.kind) {
        DeleteMessageLocked(a.messageId);
      }
    }

    /** Authorization comes before anything else, and the tag the caller sent is
        discarded either way. */
    method AddAckWithGrant(posted: Ack, nodeId: string, grant: Grant, auth: Auth, now: nat)
      returns (error: Option<Error>)
      requires Valid()
      modifies this
      ensures Valid() && View() == Step(cfg, old(View()), Acknowledge(TrimAck(posted), nodeId, grant, auth, now))
      ensures var a := PreparePostedAck(cfg, old(View()), TrimAck(posted), nodeId, grant, now);
              error == PostAckError(cfg, old(View()), a, auth, now)
    {
      var a := PrepareAck(cfg, TrimAck(posted), grant.retention, now);
      a := a.(nodeId := if a.nodeId == "" then nodeId else a.nodeId, recipientTag := "");
      if a.messageId in books.bindings {
        a := a.(recipientTag := books.bindings[a.messageId].tag);
      }
      error := AdmitAckLocked(a, auth, now);
    }

    method AdmitAckLocked(a: Ack, auth: Auth, now: nat) returns (error: Option<Error>)
      requires Valid()
      modifies this
      ensures Valid() && View() == AdmitAck(cfg, old(View()), a, auth, now)
      ensures error == PostAckError(cfg, old(View()), a, auth, now)
    {
      error := AckFieldError(a, now);
      if error.Some? { return; }
      if a.messageId in books.bindings && !auth.Permits(books.bindings[a.messageId].tag) { return Some(NotOwned); }
      error := AdmitExternalAckLocked(a, now);
    }

    // ---------------------------------------------------------------- import

    method ImportPurgesLocked(ps: seq<Purge>, now: nat) returns (rejected: nat)
      requires Valid()
      modifies this
      ensures Valid() && View() == ImportPurges(cfg, old(View()), ps, now)
      ensures rejected == RefusedPurges(ps, now)
    {
      ghost var s := View();
      rejected := 0;
      for i := 0 to |ps|
        invariant Valid() && View() == ImportPurges(cfg, s, ps[..i], now)
        invariant rejected == RefusedPurges(ps[..i], now)
      {
        assert ps[..i + 1][..i] == ps[..i];
        if ps[i].hash == "" || ps[i].expiresAt <= now {
          rejected := rejected + 1;
        } else {
          StorePurgeLocked(ps[i]);
          var _, _ := PurgeOwnerLocked(ps[i].hash);
        }
      }
      assert ps[..|ps|] == ps;
    }

    method ImportMessageLocked(e: Envelope, now: nat) returns (error: Option<Error>)
      requires Valid()
      modifies this
      ensures Valid() && View() == AdoptMessage(cfg, old(View()), e, now)
      ensures error == ImportMessageError(cfg, old(View()), e, now)
    {
      error := EnvelopeError(cfg, e, now);
      if error.Some? { return; }
      if e.id in records.messages { return Some(Duplicate); }
      var hash := PurgeHash(e);
      if hash != "" && hash in records.purges && now < records.purges[hash].expiresAt { return Some(Duplicate); }
      var acked := HasTerminalAckLocked(e.id);
      if acked { return Some(Duplicate); }
      if |records.messages| >= cfg.maxMessages { return Some(QueueFull); }
      AddMessageLocked(e, 0);
      return None;
    }

    method ImportAckLocked(a: Ack, now: nat) returns (error: Option<Error>)
      requires Valid()
      modifies this
      ensures Valid() && View() == AdoptAck(cfg, old(View()), a, now)
      ensures error == ImportAckError(cfg, old(View()), a, now)
    {
      error := AckFieldError(a, now);
      if error.Some? { return; }
      error := AdmitExternalAckLocked(a, now);
    }

    method ImportMessagesLocked(es: seq<Envelope>, now: nat) returns (accepted: nat, duplicate: nat, rejected: nat)
      requires Valid()
      modifies this
      ensures Valid() && View() == ImportMessages(cfg, old(View()), es, now)
      ensures View().seqNo == old(View()).seqNo + accepted
      ensures duplicate == DuplicateMessages(cfg, old(View()), es, now)
      ensures accepted + duplicate + rejected == |es|
    {
      ghost var s := View();
      accepted, duplicate, rejected := 0, 0, 0;
      for i := 0 to |es|
        invariant Valid() && View() == ImportMessages(cfg, s, es[..i], now)
        invariant View().seqNo == s.seqNo + accepted && accepted + duplicate + rejected == i
        invariant duplicate == DuplicateMessages(cfg, s, es[..i], now)
      {
        assert es[..i + 1][..i] == es[..i];
        var error := ImportMessageLocked(PrepareEnvelope(cfg, es[i], 0, now), now);
        if error.None? {
          accepted := accepted + 1;
        } else if error == Some(Duplicate) {
          duplicate := duplicate + 1;
        } else {
          rejected := rejected + 1;
        }
      }
      assert es[..|es|] == es;
    }

    method ImportAcksLocked(as_: seq<Ack>, now: nat) returns (accepted: nat, duplicate: nat, rejected: nat)
      requires Valid()
      modifies this
      ensures Valid() && View() == ImportAcks(cfg, old(View()), as_, now)
      ensures View().seqNo == old(View()).seqNo + accepted
      ensures duplicate == DuplicateAcks(cfg, old(View()), as_, now)
      ensures accepted + duplicate + rejected == |as_|
    {
      ghost var s := View();
      accepted, duplicate, rejected := 0, 0, 0;
      for i := 0 to |as_|
        invariant Valid() && View() == ImportAcks(cfg, s, as_[..i], now)
        invariant View().seqNo == s.seqNo + accepted && accepted + duplicate + rejected == i
        invariant duplicate == DuplicateAcks(cfg, s, as_[..i], now)
      {
        assert as_[..i + 1][..i] == as_[..i];
        var error := ImportAckLocked(PrepareAck(cfg, as_[i], 0, now), now);
        if error.None? {
          accepted := accepted + 1;
        } else if error == Some(Duplicate) {
          duplicate := duplicate + 1;
        } else {
          rejected := rejected + 1;
        }
      }
      assert as_[..|as_|] == as_;
    }

    /** Purges, then messages, then acks.  Every record on the page is counted once,
        and the arrival counter moves by exactly the accepted ones. */
    method ImportSnapshot(page: Page, now: nat) returns (result: ImportResult)
      requires Valid()
      modifies this
      ensures Valid() && View() == Step(cfg, old(View()), Import(TrimPage(page), now))
      ensures View().seqNo == old(View()).seqNo + result.acceptedMessages + result.acceptedAcks
      ensures var t := ImportPurges(cfg, old(View()), page.purges, now);
              && result.acceptedMessages == ImportMessages(cfg, t, TrimPage(page).messages, now).seqNo - t.seqNo
              && result.duplicateMessages == DuplicateMessages(cfg, t, TrimPage(page).messages, now)
              && result.duplicateAcks
                 == DuplicateAcks(cfg, ImportMessages(cfg, t, TrimPage(page).messages, now), TrimPage(page).acks, now)
      ensures result.acceptedMessages + result.duplicateMessages
              + result.acceptedAcks + result.duplicateAcks + result.rejected
           == |page.messages| + |page.acks| + RefusedPurges(page.purges, now)
    {
      var trimmed := TrimPage(page);
      PurgesKeepSeq(cfg, View(), page.purges, now);
      var refused := ImportPurgesLocked(trimmed.purges, now);
      var am, dm, rm := ImportMessagesLocked(trimmed.messages, now);
      var aa, da, ra := ImportAcksLocked(trimmed.acks, now);
      result := ImportResult(am, dm, aa, da, refused + rm + ra);
    }

    // ----------------------------------------------------------------- reads

    /** One page: sweep first, then the oldest arrivals after `since`. */
    method SnapshotSince(since: nat, limit: int, now: nat) returns (page: Page)
      requires Valid()
      modifies this
      ensures Valid() && View() == Step(cfg, old(View()), Snapshot(now))
      ensures var most: nat := if limit <= 0 then 500 else limit;
              exists refs :: Serves(View(), epoch, since, most, refs, page)
    {
      SweepAll(now);
      page := ReadPage(since, PageLimit(limit));
    }

    method ReadPage(since: nat, limit: nat) returns (page: Page)
      requires Valid() && 0 < limit
      ensures exists refs :: Serves(View(), epoch, since, limit, refs, page)
    {
      SoundParts(books, View());
      page := BuildPage(records, epoch, since, limit, View());
      ghost var refs :| Serves(View(), epoch, since, limit, refs, page);
      assert Serves(View(), epoch, since, limit, refs, page);
    }

    method DropOneMore(id: string, ghost s: State, ghost done: set<string>)
      requires Valid() && View() == Drop(s, done, {})
      modifies this
      ensures Valid() && View() == Drop(s, done + {id}, {})
    {
      DeleteMessageLocked(id);
      DropOneMoreIs(s, done, {}, {id}, {});
    }

    method DropOneMoreAck(id: string, ghost s: State, ghost done: set<string>)
      requires Valid() && View() == Drop(s, {}, done)
      modifies this
      ensures Valid() && View() == Drop(s, {}, done + {id})
    {
      DeleteAckLocked(id);
      DropOneMoreIs(s, {}, done, {}, {id});
    }

    /** One pass over the messages: expired ones are deleted whoever asks, live ones
        are collected if the caller may read them. */
    method CollectReadable(recipient: string, auth: Auth, now: nat)
      returns (xs: seq<Envelope>, ghost all: set<Envelope>)
      requires Valid()
      modifies this
      ensures Valid() && View() == SweepMessages(old(View()), now)
      ensures multiset(xs) == multiset(all)
      ensures forall e :: e in all <==> now < e.expiresAt && Readable(old(View()), recipient, auth, e)
    {
      ghost var s := View();
      var ids, done := records.messages.Keys, {};
      xs, all := [], {};
      OwnIds(books, s);
      DropMissing(books, s, {}, {});
      while ids != {}
        invariant Valid() && View() == Drop(s, done, {}) && ids <= s.messages.Keys && done !! ids
        invariant multiset(xs) == multiset(all) && ReadSoFar(s, recipient, auth, now, ids, done, all)
      {
        var id :| id in ids;
        ReadNext(s, recipient, auth, now, ids, done, all, id);
        ids := ids - {id};
        var e := records.messages[id];
        if e.expiresAt <= now {
          DropOneMore(id, s, done);
          done := done + {id};
        } else if e.recipient == recipient && auth.Permits(e.recipientTag) {
          OneMoreRead(xs, all, e);
          xs, all := xs + [e], all + {e};
        }
      }
      ReadAll(s, recipient, auth, now, done, all);
    }

    method MessagesForRecipient(recipient: string, limit: int, auth: Auth, now: nat) returns (found: seq<Envelope>)
      requires Valid()
      modifies this
      ensures Valid() && View() == Step(cfg, old(View()), FetchMessages(Trim(recipient), now))
      ensures Trim(recipient) == "" ==> found == []
      ensures Trim(recipient) != "" ==>
                OldestFirst(found, ReadableSet(View(), Trim(recipient), auth),
                            (e: Envelope) => e.createdAt, if limit <= 0 then 100 else limit)
    {
      var who := Trim(recipient);
      if who == "" { return []; }
      OwnIds(books, View());
      var xs, all := CollectReadable(who, auth, now);
      AllReadable(old(View()), now, who, auth, all);
      found := OldestOf(xs, all, (e: Envelope) => e.createdAt, FetchLimit(limit));
    }

    method CollectReadableAcks(sender: string, auth: Auth, now: nat) returns (xs: seq<Ack>, ghost all: set<Ack>)
      requires Valid()
      modifies this
      ensures Valid() && View() == SweepAcks(old(View()), now)
      ensures multiset(xs) == multiset(all)
      ensures forall a :: a in all <==> now < a.expiresAt && ReadableAck(old(View()), sender, auth, a)
    {
      ghost var s := View();
      var ids, done := records.acks.Keys, {};
      xs, all := [], {};
      OwnIds(books, s);
      DropMissing(books, s, {}, {});
      while ids != {}
        invariant Valid() && View() == Drop(s, {}, done)
        invariant ids <= s.acks.Keys && done !! ids && done <= s.acks.Keys
        invariant forall a :: a in s.acks && a !in ids ==> (a in done <==> s.acks[a].expiresAt <= now)
        invariant multiset(xs) == multiset(all)
        invariant forall a :: a in all <==> a.id !in ids && now < a.expiresAt && ReadableAck(s, sender, auth, a)
      {
        var id :| id in ids;
        ids := ids - {id};
        var a := records.acks[id];
        if a.expiresAt <= now {
          DropOneMoreAck(id, s, done);
          done := done + {id};
        } else if a.sender == sender && auth.Permits(a.senderTag) {
          xs, all := xs + [a], all + {a};
        }
      }
      assert done == ExpiredAcks(s, now);
    }

    method AcksForSender(sender: string, limit: int, auth: Auth, now: nat) returns (found: seq<Ack>)
      requires Valid()
      modifies this
      ensures Valid() && View() == Step(cfg, old(View()), FetchAcks(Trim(sender), now))
      ensures Trim(sender) == "" ==> found == []
      ensures Trim(sender) != "" ==>
                OldestFirst(found, ReadableAckSet(View(), Trim(sender), auth),
                            (a: Ack) => a.createdAt, if limit <= 0 then 100 else limit)
    {
      var who := Trim(sender);
      if who == "" { return []; }
      OwnIds(books, View());
      var xs, all := CollectReadableAcks(who, auth, now);
      AllReadableAcks(old(View()), now, who, auth, all);
      found := OldestOf(xs, all, (a: Ack) => a.createdAt, FetchLimit(limit));
    }
  }

  function FetchLimit(limit: int): nat {
    if limit <= 0 then 100 else limit
  }

  method OldestOf<T(!new)>(xs: seq<T>, ghost all: set<T>, key: T -> int, limit: nat) returns (found: seq<T>)
    requires multiset(xs) == multiset(all)
    ensures OldestFirst(found, all, key, limit)
  {
    var ordered := Sort(xs, key);
    found := if |ordered| > limit then ordered[..limit] else ordered;
    assert found == ordered[..Min(limit, |ordered|)];
  }

  function PageLimit(limit: int): nat {
    if limit <= 0 then 500 else limit
  }

  datatype ImportResult = ImportResult(acceptedMessages: nat, duplicateMessages: nat,
                                       acceptedAcks: nat, duplicateAcks: nat, rejected: nat)

  function RefusedPurges(ps: seq<Purge>, now: nat): nat {
    if ps == [] then 0
    else RefusedPurges(ps[..|ps| - 1], now) + if PurgeAcceptable(ps[|ps| - 1], now) then 0 else 1
  }

  /** How many envelopes of the list are refused as duplicates when their turn comes. */
  ghost function DuplicateMessages(cfg: Config, s: State, es: seq<Envelope>, now: nat): nat {
    if es == [] then 0
    else
      var rest, e := es[..|es| - 1], PrepareEnvelope(cfg, es[|es| - 1], 0, now);
      DuplicateMessages(cfg, s, rest, now)
      + if ImportMessageError(cfg, ImportMessages(cfg, s, rest, now), e, now) == Some(Duplicate) then 1 else 0
  }

  ghost function DuplicateAcks(cfg: Config, s: State, as_: seq<Ack>, now: nat): nat {
    if as_ == [] then 0
    else
      var rest, a := as_[..|as_| - 1], PrepareAck(cfg, as_[|as_| - 1], 0, now);
      DuplicateAcks(cfg, s, rest, now)
      + if ImportAckError(cfg, ImportAcks(cfg, s, rest, now), a, now) == Some(Duplicate) then 1 else 0
  }

  lemma {:induction false} PurgesKeepSeq(cfg: Config, s: State, ps: seq<Purge>, now: nat)
    ensures ImportPurges(cfg, s, ps, now).seqNo == s.seqNo
  {
    if ps != [] { PurgesKeepSeq(cfg, s, ps[..|ps| - 1], now); }
  }

  /** The messages a purge of `hash` removes; an empty hash matches nothing. */
  ghost function PurgedMessages(s: State, hash: string): set<string> {
    if hash == "" then {} else MessagesWithHash(s, hash)
  }

  /** An ack without an expiry gets the default one. */
  function WithExpiry(cfg: Config, a: Ack, now: nat): Ack {
    if a.expiresAt == NOT_SET then a.(expiresAt := now + cfg.defaultTTL) else a
  }

  method PutMessage(r0: Records, b0: Books, e: Envelope, credential: nat) returns (r: Records, b: Books)
    ensures b == BooksWithMessage(b0, e, credential)
    ensures StateOf(r, b) == InsertMessage(StateOf(r0, b0), e, credential)
  {
    BindRefTags(b0.bindings, e.id, e.recipientTag);
    var messages := r0.messages[e.id := e];
    var pairCounts := Increment(b0.pairCounts, PairKey(e));
    var credentialCounts, messageCredential := b0.credentialCounts, r0.messageCredential;
    if credential != 0 {
      credentialCounts := Increment(credentialCounts, credential);
      messageCredential := messageCredential[e.id := credential];
    }
    var seqNo := r0.seqNo + 1;
    var messageSeq := r0.messageSeq[e.id := seqNo];
    var bindings := BindRef(b0.bindings, e.id, e.recipientTag);
    var byPurge := FileUnder(b0.byPurge, PurgeHash(e), e.id);
    r := Records(messages, r0.acks, r0.purges, seqNo, messageSeq, r0.ackSeq, messageCredential);
    b := Books(pairCounts, credentialCounts, bindings, byPurge, b0.byMessage);
  }

  method TakeMessage(r0: Records, b0: Books, id: string) returns (r: Records, b: Books)
    requires Whole(b0, StateOf(r0, b0)) && id in r0.messages
    ensures b == BooksWithoutMessage(b0, r0.messages[id], r0.messageCredential)
    ensures StateOf(r, b) == Drop(StateOf(r0, b0), {id}, {})
  {
    Open(b0, StateOf(r0, b0));
    var e := r0.messages[id];
    assert e.id == id;
    ReleaseMessage(b0.bindings, r0.messages, r0.acks, id);
    ReleaseTags(b0.bindings, id, r0.messages - {id}, r0.acks);
    MinusNothing(r0.acks);
    MinusNothing(r0.ackSeq);
    var messages, messageSeq := r0.messages - {id}, r0.messageSeq - {id};
    var bindings := ReleaseRef(b0.bindings, id);
    var byPurge := IndexRemove(b0.byPurge, PurgeHash(e), id);
    var pairCounts := Decrement(b0.pairCounts, PairKey(e));
    var credentialCounts, messageCredential := b0.credentialCounts, r0.messageCredential;
    if id in messageCredential {
      credentialCounts := Decrement(credentialCounts, messageCredential[id]);
    }
    messageCredential := messageCredential - {id};
    r := Records(messages, r0.acks, r0.purges, r0.seqNo, messageSeq, r0.ackSeq, messageCredential);
    b := Books(pairCounts, credentialCounts, bindings, byPurge, b0.byMessage);
  }

  method PutAck(r0: Records, b0: Books, a: Ack) returns (r: Records, b: Books)
    ensures b == BooksWithAck(b0, a)
    ensures StateOf(r, b) == InsertAck(StateOf(r0, b0), a)
  {
    BindRefTags(b0.bindings, a.messageId, a.recipientTag);
    r := r0.(acks := r0.acks[a.id := a], seqNo := r0.seqNo + 1, ackSeq := r0.ackSeq[a.id := r0.seqNo + 1]);
    b := b0.(bindings := BindRef(b0.bindings, a.messageId, a.recipientTag),
             byMessage := FileUnder(b0.byMessage, a.messageId, a.id));
  }

  method TakeAck(r0: Records, b0: Books, id: string) returns (r: Records, b: Books)
    requires Whole(b0, StateOf(r0, b0)) && id in r0.acks
    ensures b == BooksWithoutAck(b0, r0.acks[id])
    ensures StateOf(r, b) == Drop(StateOf(r0, b0), {}, {id})
  {
    Open(b0, StateOf(r0, b0));
    var a := r0.acks[id];
    assert a.id == id;
    ReleaseAck(b0.bindings, r0.messages, r0.acks, id);
    ReleaseTags(b0.bindings, a.messageId, r0.messages, r0.acks - {id});
    MinusNothing(r0.messages);
    MinusNothing(r0.messageSeq);
    MinusNothing(r0.messageCredential);
    r := r0.(acks := r0.acks - {id}, ackSeq := r0.ackSeq - {id});
    b := b0.(bindings := ReleaseRef(b0.bindings, a.messageId),
             byMessage := IndexRemove(b0.byMessage, a.messageId, id));
  }

  /** Sweeping messages and then acks is one removal. */
  lemma DropOneMoreIs(s: State, ms: set<string>, as_: set<string>, ms': set<string>, as_': set<string>)
    ensures ms' == {} ==> Drop(Drop(s, ms, as_), {}, as_') == Drop(s, ms, as_ + as_')
    ensures as_' == {} ==> Drop(Drop(s, ms, as_), ms', {}) == Drop(s, ms + ms', as_)
  {
    DropTwice(s, ms, as_, ms', as_');
    if ms' == {} { assert ms + ms' == ms; }
    if as_' == {} { assert as_ + as_' == as_; }
  }

  lemma SweepsCompose(s: State, now: Time)
    ensures SweepAcks(SweepMessages(s, now), now).(purges := LivePurges(s.purges, now)) == Sweep(s, now)
  {
    var t := SweepMessages(s, now);
    assert t.acks == s.acks;
    assert ExpiredAcks(t, now) == ExpiredAcks(s, now);
    DropTwice(s, ExpiredMessages(s, now), {}, {}, ExpiredAcks(s, now));
    assert ExpiredMessages(s, now) + {} == ExpiredMessages(s, now);
    assert {} + ExpiredAcks(s, now) == ExpiredAcks(s, now);
  }

  lemma NothingNamed(b: Books, s: State)
    requires Whole(b, s)
    ensures AcksNaming(s, {}) == {} && Drop(s, {}, AcksNaming(s, {})) == s
  {
    DropMissing(b, s, {}, {});
  }

  lemma MailThenAcks(s: State, id: string)
    ensures var t := Drop(s, {id}, {});
            AcksNaming(t, {id}) == AcksNaming(s, {id})
            && Drop(t, {}, AcksNaming(t, {id})) == Drop(s, {id}, AcksNaming(s, {id}))
  {
    var t, own := Drop(s, {id}, {}), AcksNaming(s, {id});
    assert t.acks == s.acks;
    assert AcksNaming(t, {id}) == own;
    DropTwice(s, {id}, {}, {}, own);
    assert {id} + {} == {id} && {} + own == own;
  }

  /** The acks naming one more message are new ones. */
  lemma AcksSplit(s: State, done: set<string>, id: string)
    requires id !in done
    ensures AcksNaming(s, done + {id}) == AcksNaming(s, done) + AcksNaming(s, {id})
    ensures |AcksNaming(s, done + {id})| == |AcksNaming(s, done)| + |AcksNaming(s, {id})|
  {
    assert AcksNaming(s, done + {id}) == AcksNaming(s, done) + AcksNaming(s, {id});
    assert AcksNaming(s, done) !! AcksNaming(s, {id});
  }

  lemma PurgeOneMore(s: State, done: set<string>, id: string)
    requires id !in done
    ensures var t := Drop(s, done, AcksNaming(s, done));
            && AcksNaming(t, {id}) == AcksNaming(s, {id})
            && Drop(t, {id}, AcksNaming(t, {id})) == Drop(s, done + {id}, AcksNaming(s, done + {id}))
    ensures |AcksNaming(s, done + {id})| == |AcksNaming(s, done)| + |AcksNaming(s, {id})|
  {
    var before, own := AcksNaming(s, done), AcksNaming(s, {id});
    AcksSplit(s, done, id);
    assert AcksNaming(Drop(s, done, before), {id}) == own;
    DropTwice(s, done, before, {id}, own);
  }

  lemma SameMail(s: State, t: State, hash: string)
    requires t.messages == s.messages && t.acks == s.acks
    ensures PurgedMessages(t, hash) == PurgedMessages(s, hash)
    ensures AcksNaming(t, PurgedMessages(t, hash)) == AcksNaming(s, PurgedMessages(s, hash))
  {
    assert PurgedMessages(t, hash) == PurgedMessages(s, hash);
  }
}
