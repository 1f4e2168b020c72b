/** What became of the records paging has passed over: each was taken when its page
    was imported, or refused for one of a few reasons. */
module MeshOutcome {
  import opened Common
  import opened QueueModel
  import opened QueueRequest
  import opened QueueInvariant
  import opened QueuePaging
  import opened QueueArrivals
  import opened QueueImport
  import opened QueueDrain
  import opened Mesh
  import opened MeshPaging
  import opened MeshDrain

  // -------------------------------------------------------- one page, one record

  /** The `i`th message of the page came to a full table. */
  ghost predicate NoRoomFor(cfg: Config, s: State, page: Page, now: nat, i: nat)
    requires i < |page.messages|
  {
    var turn := ImportMessages(cfg, ImportPurges(cfg, s, page.purges, now), page.messages[..i], now);
    |turn.messages| >= cfg.maxMessages
  }

  /** And the `i`th ack to a spent budget. */
  ghost predicate NoRoomForAck(cfg: Config, s: State, page: Page, now: nat, i: nat)
    requires i < |page.acks|
  {
    var mail := ImportMessages(cfg, ImportPurges(cfg, s, page.purges, now), page.messages, now);
    var turn := ImportAcks(cfg, mail, page.acks[..i], now);
    |turn.acks| >= cfg.maxAcks - cfg.maxMessages
  }

  /** After the import the message is stored, or it is malformed, too large or
      expired, its owner is purged, a terminal ack has settled it, or there was no
      room. */
  ghost predicate MessageOutcome(cfg: Config, s: State, page: Page, now: nat, i: nat) {
    i < |page.messages|
    && var t, e := ImportPage(cfg, s, page, now), PrepareEnvelope(cfg, page.messages[i], 0, now);
       || e.id in t.messages || EnvelopeError(cfg, e, now).Some? || Entombed(t, e, now) || HasTerminalAck(t, e.id)
       || NoRoomFor(cfg, s, page, now, i)
  }

  /** After the import the ack is stored, or it is malformed or expired, or there was
      no room. */
  ghost predicate AckOutcome(cfg: Config, s: State, page: Page, now: nat, i: nat) {
    i < |page.acks|
    && var t, a := ImportPage(cfg, s, page, now), PrepareAck(cfg, page.acks[i], 0, now);
       a.id in t.acks || AckFieldError(a, now).Some? || NoRoomForAck(cfg, s, page, now, i)
  }

  lemma {:induction false} DoneThroughMessages(cfg: Config, s: State, es: seq<Envelope>, now: nat, i: nat)
    requires cfg.Valid() && i < |es|
    requires MessagesDone(cfg, ImportMessages(cfg, s, es[..i + 1], now), [es[i]], now)
    ensures MessagesDone(cfg, ImportMessages(cfg, s, es, now), [es[i]], now)
    decreases |es|
  {
    var n := |es| - 1;
    if i == n {
      assert es[..i + 1] == es;
    } else {
      assert es[..n][..i + 1] == es[..i + 1];
      DoneThroughMessages(cfg, s, es[..n], now, i);
      DoneThroughOne(cfg, s, es, now, es[i]);
    }
  }

  lemma DoneThroughOne(cfg: Config, s: State, es: seq<Envelope>, now: nat, raw: Envelope)
    requires cfg.Valid() && es != [] && MessagesDone(cfg, ImportMessages(cfg, s, es[..|es| - 1], now), [raw], now)
    ensures MessagesDone(cfg, ImportMessages(cfg, s, es, now), [raw], now)
  {
    AdoptionKeepsDone(cfg, ImportMessages(cfg, s, es[..|es| - 1], now), es[|es| - 1], now, [], [raw]);
  }

  lemma {:induction false} DoneThroughAcks(cfg: Config, s: State, as_: seq<Ack>, now: nat, raw: Envelope)
    requires cfg.Valid() && MessagesDone(cfg, s, [raw], now)
    ensures MessagesDone(cfg, ImportAcks(cfg, s, as_, now), [raw], now)
  {
    if as_ != [] {
      var n := |as_| - 1;
      DoneThroughAcks(cfg, s, as_[..n], now, raw);
      RecordKeepsDone(cfg, ImportAcks(cfg, s, as_[..n], now), as_[n], now, [], [raw]);
    }
  }

  lemma OneDone(cfg: Config, s: State, raw: Envelope, now: nat)
    ensures MessagesDone(cfg, s, [raw], now) <==> MessageDone(cfg, s, PrepareEnvelope(cfg, raw, 0, now), now)
  {
    assert raw in [raw];
  }

  lemma MessageSettled(cfg: Config, s: State, es: seq<Envelope>, now: nat, i: nat)
    requires cfg.Valid() && i < |es|
    ensures var e := PrepareEnvelope(cfg, es[i], 0, now);
            || ImportMessageError(cfg, ImportMessages(cfg, s, es[..i], now), e, now) == Some(QueueFull)
            || MessagesDone(cfg, ImportMessages(cfg, s, es, now), [es[i]], now)
  {
    var turn := ImportMessages(cfg, s, es[..i], now);
    if ImportMessageError(cfg, turn, PrepareEnvelope(cfg, es[i], 0, now), now) != Some(QueueFull) {
      assert es[..i + 1][..i] == es[..i];
      ImportMessageDone(cfg, turn, es[i], now);
      OneDone(cfg, ImportMessages(cfg, s, es[..i + 1], now), es[i], now);
      DoneThroughMessages(cfg, s, es, now, i);
    }
  }

  lemma MessageTakenOrRefused(cfg: Config, s: State, page: Page, now: nat, i: nat)
    requires cfg.Valid() && i < |page.messages|
    ensures MessageOutcome(cfg, s, page, now, i)
  {
    var p, raw := ImportPurges(cfg, s, page.purges, now), page.messages[i];
    MessageSettled(cfg, p, page.messages, now, i);
    if !NoRoomFor(cfg, s, page, now, i) {
      DoneThroughAcks(cfg, ImportMessages(cfg, p, page.messages, now), page.acks, now, raw);
      OneDone(cfg, ImportPage(cfg, s, page, now), raw, now);
    }
  }

  lemma {:induction false} AckDoneThrough(cfg: Config, s: State, as_: seq<Ack>, now: nat, i: nat)
    requires i < |as_| && AckDone(ImportAcks(cfg, s, as_[..i + 1], now), PrepareAck(cfg, as_[i], 0, now), now)
    ensures AckDone(ImportAcks(cfg, s, as_, now), PrepareAck(cfg, as_[i], 0, now), now)
    decreases |as_|
  {
    var n := |as_| - 1;
    if i == n {
      assert as_[..i + 1] == as_;
    } else {
      assert as_[..n][..i + 1] == as_[..i + 1];
      AckDoneThrough(cfg, s, as_[..n], now, i);
      AdoptedAckStored(cfg, ImportAcks(cfg, s, as_[..n], now), PrepareAck(cfg, as_[n], 0, now), now);
    }
  }

  lemma AckSettled(cfg: Config, s: State, as_: seq<Ack>, now: nat, i: nat)
    requires i < |as_|
    ensures var a := PrepareAck(cfg, as_[i], 0, now);
            || ImportAckError(cfg, ImportAcks(cfg, s, as_[..i], now), a, now) == Some(QueueFull)
            || AckDone(ImportAcks(cfg, s, as_, now), a, now)
  {
    var turn := ImportAcks(cfg, s, as_[..i], now);
    if ImportAckError(cfg, turn, PrepareAck(cfg, as_[i], 0, now), now) != Some(QueueFull) {
      assert as_[..i + 1][..i] == as_[..i];
      ImportAckDone(cfg, turn, as_[i], now);
      AckDoneThrough(cfg, s, as_, now, i);
    }
  }

  lemma AckTakenOrRefused(cfg: Config, s: State, page: Page, now: nat, i: nat)
    requires i < |page.acks|
    ensures AckOutcome(cfg, s, page, now, i)
  {
    AckSettled(cfg, ImportMessages(cfg, ImportPurges(cfg, s, page.purges, now), page.messages, now), page.acks, now, i);
  }

  // ------------------------------------------------------- what a page in flight has

  predicate Lists(page: Page, r: Ref) {
    match r
    case MessageRef(id) => exists i :: 0 <= i < |page.messages| && page.messages[i].id == id
    case AckRef(id) => exists i :: 0 <= i < |page.acks| && page.acks[i].id == id
  }

  ghost predicate Carries(pool: Pool) {
    forall i, e | i in pool.pulls && pool.pulls[i].InFlight? && e in pool.pulls[i].entries ::
      Lists(pool.pulls[i].page, e.ref)
  }

  lemma {:induction false} MessageListed(s: State, refs: seq<Ref>, id: string) returns (i: nat)
    requires MessageRef(id) in refs && id in s.messages
    ensures i < |MessagesOn(s, refs)| && MessagesOn(s, refs)[i] == s.messages[id]
  {
    var n := |refs| - 1;
    if refs[n] == MessageRef(id) {
      i := |MessagesOn(s, refs[..n])|;
    } else {
      i := MessageListed(s, refs[..n], id);
    }
  }

  lemma {:induction false} AckListed(s: State, refs: seq<Ref>, id: string) returns (i: nat)
    requires AckRef(id) in refs && id in s.acks
    ensures i < |AcksOn(s, refs)| && AcksOn(s, refs)[i] == s.acks[id]
  {
    var n := |refs| - 1;
    if refs[n] == AckRef(id) {
      i := |AcksOn(s, refs[..n])|;
    } else {
      i := AckListed(s, refs[..n], id);
    }
  }

  lemma ServedLists(s: State, epoch: string, since: nat, refs: seq<Ref>, page: Page, r: Ref)
    requires Sound(s) && Serves(s, epoch, since, PAGE_SIZE, refs, page) && r in refs && Stored(s, r)
    ensures Lists(page, r)
  {
    match r
    case MessageRef(id) => var i := MessageListed(s, refs, id);
    case AckRef(id) => var i := AckListed(s, refs, id);
  }

  lemma SweptLists(cfg: Config, s: State, epoch: string, since: nat, now: nat, refs: seq<Ref>, page: Page)
    requires Healthy(cfg, s) && Serves(Sweep(s, now), epoch, since, PAGE_SIZE, refs, page)
    ensures forall e | e in EntriesOn(Sweep(s, now), refs) :: Lists(page, e.ref)
  {
    SweptHealthy(cfg, s, now);
    EntriesListed(cfg, Sweep(s, now), epoch, since, refs, page);
  }

  lemma EntriesListed(cfg: Config, s: State, epoch: string, since: nat, refs: seq<Ref>, page: Page)
    requires Healthy(cfg, s) && Serves(s, epoch, since, PAGE_SIZE, refs, page)
    ensures forall e | e in EntriesOn(s, refs) :: Lists(page, e.ref)
  {
    Examine(cfg, s);
    forall e | e in EntriesOn(s, refs)
      ensures Lists(page, e.ref)
    {
      ServedLists(s, epoch, since, refs, page, e.ref);
    }
  }

  lemma ServeCarries(pool: Pool, id: nat, now: nat, refs: seq<Ref>, page: Page)
    requires Carries(pool) && Enabled(pool, Serve(id, now, refs, page))
    requires Healthy(pool.relays[pool.pulls[id].peer].cfg, pool.relays[pool.pulls[id].peer].store)
    ensures Carries(AfterServe(pool, id, now, refs, page))
  {
    var q := pool.relays[pool.pulls[id].peer];
    SweptLists(q.cfg, q.store, q.epoch, pool.pulls[id].at.seqNo, now, refs, page);
  }

  lemma OtherCarries(pool: Pool, ev: Event)
    requires Carries(pool) && Enabled(pool, ev) && !ev.Serve?
    ensures Carries(After(pool, ev))
  {
  }

  lemma {:induction false} HistoryCarries(events: seq<Event>, pools: seq<Pool>, n: nat)
    requires IsHistory(events, pools) && n < |pools|
    ensures Carries(pools[n])
  {
    if n > 0 {
      var k, ev := n - 1, events[n - 1];
      HistoryCarries(events, pools, k);
      assert Enabled(pools[k], ev) && pools[k + 1] == After(pools[k], ev);
      if ev.Serve? {
        HistoryHealthy(events, pools, k, pools[k].pulls[ev.id].peer);
        ServeCarries(pools[k], ev.id, ev.now, ev.refs, ev.page);
      } else {
        OtherCarries(pools[k], ev);
      }
    }
  }

  // ------------------------------------------------------------ every seen record

  /** Call `j` imports a page that carries what `x` speaks of. */
  ghost predicate Imports(events: seq<Event>, pools: seq<Pool>, j: nat, x: Seen) {
    && j < |events| && j < |pools| && events[j].Receive? && events[j].id in pools[j].pulls
    && var p := pools[j].pulls[events[j].id];
       && p.InFlight? && p.puller == x.puller && p.peer == x.peer && p.page.epoch == x.epoch
       && x.entry in p.entries && !Restarted(p.at, p.page) && p.puller in pools[j].relays
  }

  lemma NewlySeen(pool: Pool, ev: Event, x: Seen)
    requires Enabled(pool, ev) && x in After(pool, ev).seen && x !in pool.seen
    ensures ev.Receive? && x in SeenWith(pool, pool.pulls[ev.id])
  {
  }

  lemma {:induction false} SeenWasImported(events: seq<Event>, pools: seq<Pool>, n: nat, x: Seen) returns (j: nat)
    requires IsHistory(events, pools) && n < |pools| && x in pools[n].seen
    ensures j < n && Imports(events, pools, j, x)
  {
    var k := n - 1;
    assert Enabled(pools[k], events[k]) && pools[k + 1] == After(pools[k], events[k]);
    if x in pools[k].seen {
      j := SeenWasImported(events, pools, k, x);
    } else {
      NewlySeen(pools[k], events[k], x);
      j := k;
    }
  }

  /** The page's record `x` speaks of has one of the outcomes. */
  ghost predicate Settles(r: Relay, page: Page, now: nat, ref: Ref) {
    var trimmed := TrimPage(page);
    match ref
    case MessageRef(id) =>
      exists i: nat :: i < |page.messages| && page.messages[i].id == id
        && MessageOutcome(r.cfg, r.store, trimmed, now, i)
    case AckRef(id) =>
      exists i: nat :: i < |page.acks| && page.acks[i].id == id && AckOutcome(r.cfg, r.store, trimmed, now, i)
  }

  lemma ListedSettles(r: Relay, page: Page, now: nat, ref: Ref)
    requires r.cfg.Valid() && Lists(page, ref)
    ensures Settles(r, page, now, ref)
  {
    match ref
    case MessageRef(id) =>
      var i :| 0 <= i < |page.messages| && page.messages[i].id == id;
      MessageTakenOrRefused(r.cfg, r.store, TrimPage(page), now, i);
    case AckRef(id) =>
      var i :| 0 <= i < |page.acks| && page.acks[i].id == id;
      AckTakenOrRefused(r.cfg, r.store, TrimPage(page), now, i);
  }

  /** Between the two moments the puller's store has taken the page in. */
  ghost predicate Lands(pools: seq<Pool>, j: nat, puller: string, page: Page, now: nat) {
    && j + 1 < |pools| && puller in pools[j].relays && puller in pools[j + 1].relays
    && var r := pools[j].relays[puller];
       pools[j + 1].relays[puller].store == ImportPage(r.cfg, r.store, TrimPage(page), now)
  }

  lemma ImportLands(events: seq<Event>, pools: seq<Pool>, j: nat, x: Seen)
    requires IsHistory(events, pools) && Imports(events, pools, j, x)
    ensures Lands(pools, j, x.puller, pools[j].pulls[events[j].id].page, events[j].now)
  {
    assert Enabled(pools[j], events[j]) && pools[j + 1] == After(pools[j], events[j]);
  }

  /** Over every history, each seen record was on a page at whose import it was taken
      or refused for a listed cause. */
  lemma SeenIsSettled(events: seq<Event>, pools: seq<Pool>, n: nat, x: Seen) returns (j: nat)
    requires IsHistory(events, pools) && n < |pools| && x in pools[n].seen
    ensures j < n && Imports(events, pools, j, x)
            && Lands(pools, j, x.puller, pools[j].pulls[events[j].id].page, events[j].now)
    ensures Settles(pools[j].relays[x.puller], pools[j].pulls[events[j].id].page, events[j].now, x.entry.ref)
  {
    j := SeenWasImported(events, pools, n, x);
    HistoryCarries(events, pools, j);
    HistoryHealthy(events, pools, j, x.puller);
    var r := pools[j].relays[x.puller];
    Examine(r.cfg, r.store);
    ImportLands(events, pools, j, x);
    ListedSettles(r, pools[j].pulls[events[j].id].page, events[j].now, x.entry.ref);
  }

  /** So of everything a peer still holds at or below a puller's cursor, nothing was
      passed over in silence. */
  lemma PassedIsSettled(events: seq<Event>, pools: seq<Pool>, n: nat, puller: string, peer: string, e: Entry)
    returns (j: nat)
    requires IsHistory(events, pools) && n < |pools| && puller in pools[n].relays && peer in pools[n].relays
    requires var c := pools[n].relays[puller].CursorFor(peer);
             c.epoch == pools[n].relays[peer].epoch && e.no <= c.seqNo
    requires Holds(pools[n].relays[peer].store, e)
    ensures j < n && Imports(events, pools, j, Seen(puller, peer, pools[n].relays[peer].epoch, e))
    ensures Lands(pools, j, puller, pools[j].pulls[events[j].id].page, events[j].now)
    ensures Settles(pools[j].relays[puller], pools[j].pulls[events[j].id].page, events[j].now, e.ref)
  {
    PagingNeverSkips(events, pools, n, puller, peer, e);
    j := SeenIsSettled(events, pools, n, Seen(puller, peer, pools[n].relays[peer].epoch, e));
  }

  // ------------------------------------------------------------------- tombstones

  ghost predicate ClearOf(messages: map<string, Envelope>, hash: string) {
    forall m {:trigger messages[m]} | m in messages :: PurgeHash(messages[m]) != hash
  }

  lemma StaysClear(s: State, t: State, hash: string)
    requires ClearOf(s.messages, hash) && Fewer(s, t)
    ensures ClearOf(t.messages, hash)
  {
  }

  lemma OnePurge(cfg: Config, s: State, p: Purge, now: nat)
    ensures Fewer(s, ImportPurge(cfg, s, p, now))
    ensures PurgeAcceptable(p, now) ==> ClearOf(ImportPurge(cfg, s, p, now).messages, p.hash)
  {
    if PurgeAcceptable(p, now) {
      BurialLeavesFewer(cfg, s, p);
      BuryingRemoves(cfg, s, p);
    }
  }

  lemma {:induction false} PhaseBuries(cfg: Config, s: State, ps: seq<Purge>, now: nat, i: nat)
    requires i < |ps| && PurgeAcceptable(ps[i], now)
    ensures ClearOf(ImportPurges(cfg, s, ps, now).messages, ps[i].hash)
    decreases |ps|
  {
    var n := |ps| - 1;
    var t := ImportPurges(cfg, s, ps[..n], now);
    OnePurge(cfg, t, ps[n], now);
    if i < n {
      PhaseBuries(cfg, s, ps[..n], now, i);
      StaysClear(t, ImportPurge(cfg, t, ps[n], now), ps[i].hash);
    }
  }

  lemma BuryingRemoves(cfg: Config, s: State, p: Purge)
    requires p.hash != ""
    ensures ClearOf(BuryOwner(cfg, s, p).messages, p.hash)
  {
    var u := StorePurge(cfg, s, p);
    PurgeKeepsRecords(cfg, s, p);
    DropRecordsOf(u, p.hash);
  }

  lemma DropRecordsOf(s: State, hash: string)
    requires hash != ""
    ensures ClearOf(PurgeMail(s, hash).messages, hash)
  {
  }

  /** A page carries every tombstone its peer has, and one still running reaches the
      puller's own mail before anything of the page is adopted. */
  lemma TombstonesCross(cfg: Config, s: State, peer: State, epoch: string, since: nat, limit: nat, refs: seq<Ref>,
                        page: Page, now: nat, hash: string)
    requires Serves(peer, epoch, since, limit, refs, page)
    requires hash in peer.purges && peer.purges[hash].hash == hash != "" && now < peer.purges[hash].expiresAt
    ensures ClearOf(ImportPurges(cfg, s, TrimPage(page).purges, now).messages, hash)
  {
    assert peer.purges[hash] in page.purges;
    var i :| 0 <= i < |page.purges| && page.purges[i] == peer.purges[hash];
    PhaseBuries(cfg, s, page.purges, now, i);
  }
}
