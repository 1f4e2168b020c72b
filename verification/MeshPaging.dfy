/** Paging never skips a record, whatever happens between pages. */
module MeshPaging {
  import opened Common
  import opened QueueModel
  import opened QueueRequest
  import opened QueueInvariant
  import opened QueuePaging
  import opened QueueArrivals
  import opened Mesh

  // -------------------------------------------------------------- invariant

  /** Opened by Examine only: most proofs here just pass it along. */
  ghost predicate Healthy(cfg: Config, s: State) {
    forall i {:trigger Unsealed(i)} :: Unsealed(i) ==> cfg.Valid() && Inv(cfg, s)
  }

  lemma Examine(cfg: Config, s: State)
    requires Healthy(cfg, s)
    ensures cfg.Valid() && Inv(cfg, s)
  {
    assert Unsealed(0);
  }

  /** A call leaves a healthy store healthy and only adds newer records. */
  lemma HealthyStep(cfg: Config, s: State, op: Op)
    requires Healthy(cfg, s)
    ensures Healthy(cfg, Step(cfg, s, op)) && OnlyNewer(s, Step(cfg, s, op))
  {
    Examine(cfg, s);
    StepKeeps(cfg, s, op, op.now, (_, _) => true);
    StepOnlyNewer(cfg, s, op);
  }

  ghost predicate RelayOk(epochs: set<string>, r: Relay) {
    && Healthy(r.cfg, r.store)
    && r.epoch != "" && r.epoch in epochs
    && (forall q | q in r.cursors :: r.cursors[q].epoch in epochs)
  }

  /** Every record the peer still holds at or below the mark was on a page that
      `puller` imported. */
  ghost predicate AllSeen(pool: Pool, puller: string, peer: string, mark: nat)
    requires peer in pool.relays
  {
    var q := pool.relays[peer];
    forall e: Entry {:trigger Holds(q.store, e)} ::
      Holds(q.store, e) && e.no <= mark ==> Seen(puller, peer, q.epoch, e) in pool.seen
  }

  /** If the cursor is of the peer's present life, all it passes over has been seen. */
  ghost predicate MarkOk(pool: Pool, puller: string, peer: string, c: Cursor)
    requires peer in pool.relays
  {
    var q := pool.relays[peer];
    c.epoch == q.epoch ==> c.seqNo <= q.store.seqNo && AllSeen(pool, puller, peer, c.seqNo)
  }

  ghost predicate CursorOk(pool: Pool, puller: string, peer: string)
    requires puller in pool.relays && peer in pool.relays
  {
    MarkOk(pool, puller, peer, pool.relays[puller].CursorFor(peer))
  }

  /** A page of the peer's present life brings everything between its two marks. */
  ghost predicate FlightOk(pool: Pool, p: Pull)
    requires p.InFlight? && p.peer in pool.relays
  {
    var q := pool.relays[p.peer];
    p.page.epoch == q.epoch && !Restarted(p.at, p.page) ==>
      && p.page.nextSeq <= q.store.seqNo
      && (forall e: Entry {:trigger Holds(q.store, e)} ::
            Holds(q.store, e) && p.at.seqNo < e.no <= p.page.nextSeq ==> e in p.entries)
      && (p.at.epoch == q.epoch ==> AllSeen(pool, p.puller, p.peer, p.at.seqNo))
  }

  ghost predicate PullOk(pool: Pool, p: Pull) {
    && p.puller in pool.relays && p.peer in pool.relays
    && (p.at.epoch in pool.epochs || p.at == NO_CURSOR)
    && (!p.Asked? ==> p.page.epoch in pool.epochs && p.at.seqNo <= p.page.nextSeq)
    && match p
       case Asked(_, _, _) => MarkOk(pool, p.puller, p.peer, p.at)
       case InFlight(_, _, _, _, _) => FlightOk(pool, p)
       case Imported(_, _, _, _) => MarkOk(pool, p.puller, p.peer, NextCursor(p.at, p.page))
  }

  ghost predicate RelaysOk(pool: Pool) {
    "" !in pool.epochs && forall r | r in pool.relays :: RelayOk(pool.epochs, pool.relays[r])
  }

  ghost predicate CursorsOk(pool: Pool) {
    forall p, q | p in pool.relays && q in pool.relays :: CursorOk(pool, p, q)
  }

  ghost predicate PullsOk(pool: Pool) {
    forall i | i in pool.pulls :: PullOk(pool, pool.pulls[i])
  }

  ghost predicate Consistent(pool: Pool) { RelaysOk(pool) && CursorsOk(pool) && PullsOk(pool) }

  // ------------------------------------------------ what a step may not undo

  /** `b` is a later state in which `peer` has not restarted and nothing `puller`
      has seen is forgotten. */
  ghost predicate Later(a: Pool, b: Pool, puller: string, peer: string)
    requires peer in a.relays && peer in b.relays
  {
    && a.relays[peer].epoch == b.relays[peer].epoch
    && OnlyNewer(a.relays[peer].store, b.relays[peer].store)
    && (forall x | x in a.seen && x.puller == puller :: x in b.seen)
  }

  lemma AllSeenKept(a: Pool, b: Pool, puller: string, peer: string, mark: nat)
    requires peer in a.relays && peer in b.relays && Later(a, b, puller, peer)
    requires mark <= a.relays[peer].store.seqNo && AllSeen(a, puller, peer, mark)
    ensures AllSeen(b, puller, peer, mark)
  {
  }

  lemma MarkKept(a: Pool, b: Pool, puller: string, peer: string, c: Cursor)
    requires peer in a.relays && peer in b.relays && MarkOk(a, puller, peer, c) && Later(a, b, puller, peer)
    ensures MarkOk(b, puller, peer, c)
  {
    if c.epoch == a.relays[peer].epoch { AllSeenKept(a, b, puller, peer, c.seqNo); }
  }

  lemma FlightKept(a: Pool, b: Pool, p: Pull)
    requires p.InFlight? && p.peer in a.relays && p.peer in b.relays && p.at.seqNo <= p.page.nextSeq
    requires FlightOk(a, p) && Later(a, b, p.puller, p.peer)
    ensures FlightOk(b, p)
  {
    var q := a.relays[p.peer];
    if p.page.epoch == q.epoch && !Restarted(p.at, p.page) && p.at.epoch == q.epoch {
      AllSeenKept(a, b, p.puller, p.peer, p.at.seqNo);
    }
  }

  lemma PullKept(a: Pool, b: Pool, p: Pull)
    requires PullOk(a, p) && p.puller in b.relays && p.peer in b.relays && a.epochs <= b.epochs
    requires Later(a, b, p.puller, p.peer)
    ensures PullOk(b, p)
  {
    match p
    case Asked(_, _, at) => MarkKept(a, b, p.puller, p.peer, at);
    case InFlight(_, _, _, _, _) => FlightKept(a, b, p);
    case Imported(_, _, at, page) => MarkKept(a, b, p.puller, p.peer, NextCursor(at, page));
  }

  lemma OnlyNewerRefl(s: State)
    ensures OnlyNewer(s, s)
  {
  }

  /** Relay `r`'s store may move on to `s`. */
  ghost predicate MovesOn(a: Pool, r: string, s: State) {
    r in a.relays && OnlyNewer(a.relays[r].store, s) && Healthy(a.relays[r].cfg, s)
  }

  lemma MovedOnIsLater(a: Pool, r: string, s: State, p: string, q: string)
    requires MovesOn(a, r, s) && q in a.relays
    ensures Later(a, WithStore(a, r, s), p, q)
  {
    OnlyNewerRefl(a.relays[q].store);
  }

  lemma MovedOnKeepsRelays(a: Pool, r: string, s: State)
    requires RelaysOk(a) && MovesOn(a, r, s)
    ensures RelaysOk(WithStore(a, r, s))
  {
    var b := WithStore(a, r, s);
    forall x | x in b.relays ensures RelayOk(b.epochs, b.relays[x]) { assert RelayOk(a.epochs, a.relays[x]); }
  }

  lemma MovedOnKeepsCursors(a: Pool, r: string, s: State)
    requires CursorsOk(a) && MovesOn(a, r, s)
    ensures CursorsOk(WithStore(a, r, s))
  {
    var b := WithStore(a, r, s);
    forall p, q | p in b.relays && q in b.relays
      ensures CursorOk(b, p, q)
    {
      assert CursorOk(a, p, q);
      MovedOnIsLater(a, r, s, p, q);
      MarkKept(a, b, p, q, a.relays[p].CursorFor(q));
    }
  }

  lemma MovedOnKeepsPulls(a: Pool, r: string, s: State)
    requires PullsOk(a) && MovesOn(a, r, s)
    ensures PullsOk(WithStore(a, r, s))
  {
    var b := WithStore(a, r, s);
    forall i | i in b.pulls
      ensures PullOk(b, b.pulls[i])
    {
      assert PullOk(a, a.pulls[i]);
      MovedOnIsLater(a, r, s, a.pulls[i].puller, a.pulls[i].peer);
      PullKept(a, b, a.pulls[i]);
    }
  }

  /** A step that only lets one relay's store move on keeps everything. */
  lemma MovedOnKeeps(a: Pool, r: string, s: State)
    requires Consistent(a) && MovesOn(a, r, s)
    ensures Consistent(WithStore(a, r, s))
  {
    MovedOnKeepsRelays(a, r, s);
    MovedOnKeepsCursors(a, r, s);
    MovedOnKeepsPulls(a, r, s);
  }

  lemma LocalKeeps(pool: Pool, r: string, op: Op)
    requires Consistent(pool) && r in pool.relays
    ensures Consistent(AfterLocal(pool, r, op))
  {
    var x := pool.relays[r];
    assert RelayOk(pool.epochs, x);
    HealthyStep(x.cfg, x.store, op);
    MovedOnKeeps(pool, r, Step(x.cfg, x.store, op));
  }

  // ---------------------------------------------------------------- restart

  lemma RestartIsLater(a: Pool, r: string, epoch: string, p: string, q: string)
    requires r in a.relays && q in a.relays && p != r && q != r
    ensures Later(a, AfterRestart(a, r, epoch), p, q)
  {
    OnlyNewerRefl(a.relays[q].store);
  }

  lemma EmptyHealthy(cfg: Config)
    requires cfg.Valid()
    ensures Healthy(cfg, EMPTY)
  {
    EmptyInv(cfg);
  }

  lemma RestartKeepsRelays(a: Pool, r: string, epoch: string)
    requires RelaysOk(a) && r in a.relays && epoch != "" && epoch !in a.epochs
    ensures RelaysOk(AfterRestart(a, r, epoch))
  {
    var b := AfterRestart(a, r, epoch);
    RebornOk(a.epochs, a.relays[r], epoch);
    forall x | x in b.relays
      ensures RelayOk(b.epochs, b.relays[x])
    {
      assert RelayOk(a.epochs, a.relays[x]);
      if x != r { StaysOk(a.epochs, a.relays[x], epoch); }
    }
  }

  lemma StaysOk(epochs: set<string>, r: Relay, epoch: string)
    requires RelayOk(epochs, r)
    ensures RelayOk(epochs + {epoch}, r)
  {
  }

  lemma RebornOk(epochs: set<string>, r: Relay, epoch: string)
    requires RelayOk(epochs, r) && epoch != ""
    ensures RelayOk(epochs + {epoch}, Relay(r.cfg, EMPTY, epoch, map[]))
  {
    Examine(r.cfg, r.store);
    EmptyHealthy(r.cfg);
  }

  lemma RestartKeepsCursors(a: Pool, r: string, epoch: string)
    requires RelaysOk(a) && CursorsOk(a) && r in a.relays && epoch != "" && epoch !in a.epochs
    ensures CursorsOk(AfterRestart(a, r, epoch))
  {
    var b := AfterRestart(a, r, epoch);
    forall p, q | p in b.relays && q in b.relays
      ensures CursorOk(b, p, q)
    {
      assert RelayOk(a.epochs, a.relays[p]) && RelayOk(a.epochs, a.relays[q]) && CursorOk(a, p, q);
      if p != r && q != r {
        RestartIsLater(a, r, epoch, p, q);
        MarkKept(a, b, p, q, a.relays[p].CursorFor(q));
      }
    }
  }

  lemma RestartKeepsPulls(a: Pool, r: string, epoch: string)
    requires PullsOk(a) && r in a.relays && epoch != "" && epoch !in a.epochs
    ensures PullsOk(AfterRestart(a, r, epoch))
  {
    var b := AfterRestart(a, r, epoch);
    forall i | i in b.pulls
      ensures PullOk(b, b.pulls[i])
    {
      var p := a.pulls[i];
      assert PullOk(a, p);
      if p.peer != r {
        RestartIsLater(a, r, epoch, p.puller, p.peer);
        PullKept(a, b, p);
      }
    }
  }

  lemma RestartKeeps(a: Pool, r: string, epoch: string)
    requires Consistent(a) && r in a.relays && epoch != "" && epoch !in a.epochs
    ensures Consistent(AfterRestart(a, r, epoch))
  {
    RestartKeepsRelays(a, r, epoch);
    RestartKeepsCursors(a, r, epoch);
    RestartKeepsPulls(a, r, epoch);
  }

  // ----------------------------------------------------------- ask and serve

  /** The invariant looks at pulls one by one. */
  lemma SameButPulls(a: Pool, b: Pool)
    requires Consistent(a) && b == a.(pulls := b.pulls)
    requires forall i | i in b.pulls :: PullOk(a, b.pulls[i])
    ensures Consistent(b)
  {
    forall r | r in b.relays ensures RelayOk(b.epochs, b.relays[r]) { assert RelayOk(a.epochs, a.relays[r]); }
    forall p, q | p in b.relays && q in b.relays ensures CursorOk(b, p, q) { assert CursorOk(a, p, q); }
    forall i | i in b.pulls ensures PullOk(b, b.pulls[i]) { SamePull(a, b, b.pulls[i]); }
  }

  lemma SamePull(a: Pool, b: Pool, p: Pull)
    requires b == a.(pulls := b.pulls) && PullOk(a, p)
    ensures PullOk(b, p)
  {
    OnlyNewerRefl(a.relays[p.peer].store);
    PullKept(a, b, p);
  }

  lemma OneMorePull(a: Pool, id: nat, p: Pull)
    requires Consistent(a) && PullOk(a, p)
    ensures Consistent(a.(pulls := a.pulls[id := p]))
  {
    var b := a.(pulls := a.pulls[id := p]);
    forall i | i in b.pulls ensures PullOk(a, b.pulls[i]) { assert i == id || PullOk(a, a.pulls[i]); }
    SameButPulls(a, b);
  }

  lemma AskKeeps(pool: Pool, id: nat, puller: string, peer: string)
    requires Consistent(pool) && puller in pool.relays && peer in pool.relays
    ensures Consistent(AfterAsk(pool, id, puller, peer))
  {
    assert RelayOk(pool.epochs, pool.relays[puller]) && CursorOk(pool, puller, peer);
    OneMorePull(pool, id, Asked(puller, peer, pool.relays[puller].CursorFor(peer)));
  }

  /** A served page carries every record held between its two marks, whatever has
      become of the puller's cursor since it was asked for. */
  lemma ServedPullOk(pool: Pool, p: Pull, refs: seq<Ref>, page: Page)
    requires RelaysOk(pool) && p.Asked? && PullOk(pool, p)
    requires var q := pool.relays[p.peer]; Serves(q.store, q.epoch, p.at.seqNo, PAGE_SIZE, refs, page)
    ensures PullOk(pool, InFlight(p.puller, p.peer, p.at, page, EntriesOn(pool.relays[p.peer].store, refs)))
  {
    var q := pool.relays[p.peer];
    assert RelayOk(pool.epochs, q);
    MarkWithinCounter(q.cfg, q.store, p.at.seqNo, refs, page, q.epoch);
    forall e: Entry | Holds(q.store, e) && p.at.seqNo < e.no <= page.nextSeq
      ensures e in EntriesOn(q.store, refs)
    {
      PageIsAnInterval(q.store, q.epoch, p.at.seqNo, PAGE_SIZE, refs, page, e.ref);
    }
  }

  /** The page's mark is a number the peer has reached, unless the page is empty. */
  lemma MarkWithinCounter(cfg: Config, s: State, since: nat, refs: seq<Ref>, page: Page, epoch: string)
    requires Healthy(cfg, s) && Serves(s, epoch, since, PAGE_SIZE, refs, page)
    ensures since <= page.nextSeq
    ensures page.nextSeq <= s.seqNo || page.nextSeq == since
  {
    Examine(cfg, s);
    if refs != [] {
      var r := refs[|refs| - 1];
      assert r in refs;
    }
  }

  lemma ServeKeeps(pool: Pool, id: nat, now: nat, refs: seq<Ref>, page: Page)
    requires Consistent(pool) && Enabled(pool, Serve(id, now, refs, page))
    ensures Consistent(AfterServe(pool, id, now, refs, page))
  {
    var p := pool.pulls[id];
    var q := pool.relays[p.peer];
    var swept := Sweep(q.store, now);
    assert RelayOk(pool.epochs, q);
    SweepIsStep(q.cfg, q.store, now);
    HealthyStep(q.cfg, q.store, Snapshot(now));
    MovedOnKeeps(pool, p.peer, swept);
    var mid := WithStore(pool, p.peer, swept);
    assert PullOk(mid, mid.pulls[id]);
    ServedPullOk(mid, p, refs, page);
    OneMorePull(mid, id, InFlight(p.puller, p.peer, p.at, page, EntriesOn(swept, refs)));
  }

  lemma SweepIsStep(cfg: Config, s: State, now: nat)
    ensures Step(cfg, s, Snapshot(now)) == Sweep(s, now)
  {
  }

  // ------------------------------------------------------ receive and advance

  ghost function MoreSeen(a: Pool, p: Pull): Pool
    requires p.InFlight?
  {
    a.(seen := SeenWith(a, p))
  }

  lemma MoreSeenIsLater(a: Pool, p: Pull, x: string, y: string)
    requires p.InFlight? && y in a.relays
    ensures Later(a, MoreSeen(a, p), x, y)
  {
    OnlyNewerRefl(a.relays[y].store);
  }

  lemma MoreSeenKeeps(a: Pool, p: Pull)
    requires Consistent(a) && p.InFlight?
    ensures Consistent(MoreSeen(a, p))
  {
    var b := MoreSeen(a, p);
    forall r | r in b.relays ensures RelayOk(b.epochs, b.relays[r]) { assert RelayOk(a.epochs, a.relays[r]); }
    forall x, y | x in b.relays && y in b.relays
      ensures CursorOk(b, x, y)
    {
      assert CursorOk(a, x, y);
      MoreSeenIsLater(a, p, x, y);
      MarkKept(a, b, x, y, a.relays[x].CursorFor(y));
    }
    forall i | i in b.pulls
      ensures PullOk(b, b.pulls[i])
    {
      assert PullOk(a, a.pulls[i]);
      MoreSeenIsLater(a, p, a.pulls[i].puller, a.pulls[i].peer);
      PullKept(a, b, a.pulls[i]);
    }
  }

  lemma PositiveNumber(cfg: Config, s: State, e: Entry)
    requires Healthy(cfg, s) && Holds(s, e)
    ensures 0 < e.no <= s.seqNo
  {
    Examine(cfg, s);
  }

  /** The cursor an imported page is about to set passes over seen records only. */
  lemma ImportedPullOk(a: Pool, p: Pull)
    requires RelaysOk(a) && p.InFlight? && PullOk(a, p)
    ensures PullOk(MoreSeen(a, p), Imported(p.puller, p.peer, p.at, p.page))
  {
    var b, q := MoreSeen(a, p), a.relays[p.peer];
    assert RelayOk(a.epochs, q);
    forall e: Entry | q.epoch == p.page.epoch && Holds(q.store, e) && e.no <= NextCursor(p.at, p.page).seqNo
      ensures Seen(p.puller, p.peer, q.epoch, e) in b.seen
    {
      PositiveNumber(q.cfg, q.store, e);
    }
  }

  lemma ReceiveKeeps(pool: Pool, id: nat, now: nat)
    requires Consistent(pool) && Enabled(pool, Receive(id, now))
    ensures Consistent(AfterReceive(pool, id, now))
  {
    var p := pool.pulls[id];
    var r := pool.relays[p.puller];
    assert RelayOk(pool.epochs, r);
    OnlyNewerRefl(r.store);
    HealthyStep(r.cfg, r.store, Import(TrimPage(p.page), now));
    var s := StoreAfter(r, p.at, p.page, now);
    MovedOnKeeps(pool, p.puller, s);
    var mid := WithStore(pool, p.puller, s);
    assert PullOk(mid, mid.pulls[id]);
    MoreSeenKeeps(mid, p);
    ImportedPullOk(mid, p);
    OneMorePull(MoreSeen(mid, p), id, Imported(p.puller, p.peer, p.at, p.page));
  }

  ghost function WithCursor(a: Pool, puller: string, peer: string, c: Cursor): Pool
    requires puller in a.relays
  {
    a.(relays := a.relays[puller := a.relays[puller].(cursors := a.relays[puller].cursors[peer := c])])
  }

  lemma WithCursorIsLater(a: Pool, puller: string, peer: string, c: Cursor, x: string, y: string)
    requires puller in a.relays && y in a.relays
    ensures Later(a, WithCursor(a, puller, peer, c), x, y)
  {
    OnlyNewerRefl(a.relays[y].store);
  }

  lemma WithCursorKeepsRelays(a: Pool, puller: string, peer: string, c: Cursor)
    requires RelaysOk(a) && puller in a.relays && c.epoch in a.epochs
    ensures RelaysOk(WithCursor(a, puller, peer, c))
  {
    var b := WithCursor(a, puller, peer, c);
    forall r | r in b.relays ensures RelayOk(b.epochs, b.relays[r]) { assert RelayOk(a.epochs, a.relays[r]); }
  }

  lemma WithCursorKeeps(a: Pool, puller: string, peer: string, c: Cursor)
    requires Consistent(a) && puller in a.relays && peer in a.relays && c.epoch in a.epochs
             && MarkOk(a, puller, peer, c)
    ensures Consistent(WithCursor(a, puller, peer, c))
  {
    var b := WithCursor(a, puller, peer, c);
    WithCursorKeepsRelays(a, puller, peer, c);
    forall x, y | x in b.relays && y in b.relays
      ensures CursorOk(b, x, y)
    {
      assert CursorOk(a, x, y);
      WithCursorIsLater(a, puller, peer, c, x, y);
      MarkKept(a, b, x, y, b.relays[x].CursorFor(y));
    }
    forall i | i in b.pulls
      ensures PullOk(b, b.pulls[i])
    {
      assert PullOk(a, a.pulls[i]);
      WithCursorIsLater(a, puller, peer, c, a.pulls[i].puller, a.pulls[i].peer);
      PullKept(a, b, a.pulls[i]);
    }
  }

  lemma AdvanceKeeps(pool: Pool, id: nat)
    requires Consistent(pool) && Enabled(pool, Advance(id))
    ensures Consistent(AfterAdvance(pool, id))
  {
    var p := pool.pulls[id];
    assert PullOk(pool, p);
    WithCursorKeeps(pool, p.puller, p.peer, NextCursor(p.at, p.page));
    LoseKeeps(WithCursor(pool, p.puller, p.peer, NextCursor(p.at, p.page)), id);
  }

  lemma LoseKeeps(pool: Pool, id: nat)
    requires Consistent(pool)
    ensures Consistent(pool.(pulls := pool.pulls - {id}))
  {
    var b := pool.(pulls := pool.pulls - {id});
    forall i | i in b.pulls ensures PullOk(pool, b.pulls[i]) { assert pool.pulls[i] == b.pulls[i]; }
    SameButPulls(pool, b);
  }

  // ------------------------------------------------------------ every event

  lemma EventKeeps(pool: Pool, ev: Event)
    requires Consistent(pool) && Enabled(pool, ev)
    ensures Consistent(After(pool, ev))
  {
    match ev
    case Local(r, op) => LocalKeeps(pool, r, op);
    case Restart(r, epoch) => RestartKeeps(pool, r, epoch);
    case Ask(id, puller, peer) => AskKeeps(pool, id, puller, peer);
    case Serve(id, now, refs, page) => ServeKeeps(pool, id, now, refs, page);
    case Receive(id, now) => ReceiveKeeps(pool, id, now);
    case Advance(id) => AdvanceKeeps(pool, id);
    case Lose(id) => LoseKeeps(pool, id);
  }

  lemma BootConsistent(pool: Pool)
    requires Booted(pool)
    ensures Consistent(pool)
  {
    forall r | r in pool.relays
      ensures RelayOk(pool.epochs, pool.relays[r])
    {
      EmptyHealthy(pool.relays[r].cfg);
    }
  }

  lemma {:induction false} HistoryConsistent(events: seq<Event>, pools: seq<Pool>, i: nat)
    requires IsHistory(events, pools) && i < |pools|
    ensures Consistent(pools[i])
  {
    if i == 0 {
      BootConsistent(pools[0]);
    } else {
      HistoryConsistent(events, pools, i - 1);
      assert Enabled(pools[i - 1], events[i - 1]);
      EventKeeps(pools[i - 1], events[i - 1]);
    }
  }

  /** Paging never skips: whatever is posted, deleted, swept, restarted, lost or
      imported in between, and however pulls of one peer overlap, every record a
      peer still holds at or below a puller's cursor was on a page that puller
      imported. */
  lemma PagingNeverSkips(events: seq<Event>, pools: seq<Pool>, i: nat, puller: string, peer: string, e: Entry)
    requires IsHistory(events, pools) && i < |pools|
    requires puller in pools[i].relays && peer in pools[i].relays
    requires var c := pools[i].relays[puller].CursorFor(peer);
             c.epoch == pools[i].relays[peer].epoch && e.no <= c.seqNo
    requires Holds(pools[i].relays[peer].store, e)
    ensures Seen(puller, peer, pools[i].relays[peer].epoch, e) in pools[i].seen
  {
    HistoryConsistent(events, pools, i);
    assert CursorOk(pools[i], puller, peer);
  }
}
