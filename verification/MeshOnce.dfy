/** A puller that waits for each pull of a peer to end before the next one never
    imports the same record under the same arrival number twice. */
module MeshOnce {
  import opened QueueModel
  import opened QueuePaging
  import opened Mesh

  ghost predicate SamePair(p: Pull, puller: string, peer: string) { p.puller == puller && p.peer == peer }

  /** No pull of `peer` by `puller` is under way. */
  ghost predicate Idle(pool: Pool, puller: string, peer: string) {
    forall i | i in pool.pulls :: !SamePair(pool.pulls[i], puller, peer)
  }

  /** Each pull ends before the next one of that peer is made. */
  ghost predicate OneAtATime(events: seq<Event>, pools: seq<Pool>)
    requires |pools| == |events| + 1
  {
    forall i {:trigger events[i]} | 0 <= i < |events| && events[i].Ask? ::
      Idle(pools[i], events[i].puller, events[i].peer)
  }

  // -------------------------------------------------------------- invariant

  /** The cursor is of `x`'s epoch and at or past its number. */
  predicate Passed(c: Cursor, x: Seen) { c.epoch == x.epoch && x.entry.no <= c.seqNo }

  /** Pull `i` is about to set such a cursor. */
  predicate AboutToPass(pool: Pool, i: nat, x: Seen) {
    && i in pool.pulls && pool.pulls[i].Imported? && pool.pulls[i].puller == x.puller && pool.pulls[i].peer == x.peer
    && Passed(NextCursor(pool.pulls[i].at, pool.pulls[i].page), x)
  }

  /** What was imported in the peer's current epoch lies at or below the cursor, or
      the one about to be set. */
  ghost predicate BehindCursor(pool: Pool, x: Seen) {
    && x.puller in pool.relays && x.peer in pool.relays && x.epoch in pool.epochs
    && (x.epoch == pool.relays[x.peer].epoch ==>
          Passed(pool.relays[x.puller].CursorFor(x.peer), x) || exists i :: AboutToPass(pool, i, x))
  }

  /** The pull was asked with the cursor the puller still has, and a page carries
      records beyond it only. */
  ghost predicate AheadOfCursor(pool: Pool, p: Pull) {
    && p.puller in pool.relays && p.peer in pool.relays
    && (p.at.epoch in pool.epochs || p.at == NO_CURSOR)
    && p.at == pool.relays[p.puller].CursorFor(p.peer)
    && (!p.Asked? ==>
          && p.page.epoch in pool.epochs && p.at.seqNo <= p.page.nextSeq
          && (p.at.epoch == pool.relays[p.peer].epoch ==> p.page.epoch == p.at.epoch))
    && (p.InFlight? ==> forall e | e in p.entries :: p.at.seqNo < e.no <= p.page.nextSeq)
  }

  ghost predicate KnownEpochs(pool: Pool) {
    && "" !in pool.epochs
    && (forall r | r in pool.relays :: pool.relays[r].epoch in pool.epochs)
    && (forall r, q | r in pool.relays && q in pool.relays[r].cursors :: pool.relays[r].cursors[q].epoch in pool.epochs)
  }

  ghost predicate OnePerPair(pulls: map<nat, Pull>) {
    forall i, j | i in pulls && j in pulls && i != j :: !SamePair(pulls[i], pulls[j].puller, pulls[j].peer)
  }

  ghost predicate Orderly(pool: Pool) {
    && KnownEpochs(pool)
    && (forall x | x in pool.seen :: BehindCursor(pool, x))
    && (forall i | i in pool.pulls :: AheadOfCursor(pool, pool.pulls[i]))
    && OnePerPair(pool.pulls)
  }

  // ----------------------------------------------------------------- events

  /** What `a` promises of `x` still stands if its cursor and the pull about to pass
      it do. */
  lemma StaysBehind(a: Pool, b: Pool, x: Seen)
    requires BehindCursor(a, x) && x.puller in b.relays && x.peer in b.relays && a.epochs <= b.epochs
    requires x.epoch == b.relays[x.peer].epoch ==>
               && x.epoch == a.relays[x.peer].epoch
               && a.relays[x.puller].CursorFor(x.peer) == b.relays[x.puller].CursorFor(x.peer)
               && forall i | AboutToPass(a, i, x) :: AboutToPass(b, i, x)
    ensures BehindCursor(b, x)
  {
  }

  /** A store may change freely: the invariant reads epochs and cursors only. */
  lemma StoreChangeOrderly(a: Pool, r: string, s: State)
    requires Orderly(a) && r in a.relays
    ensures Orderly(WithStore(a, r, s))
  {
    var b := WithStore(a, r, s);
    forall x | x in b.seen ensures BehindCursor(b, x) { StaysBehind(a, b, x); }
    forall i | i in b.pulls ensures AheadOfCursor(b, b.pulls[i]) { assert AheadOfCursor(a, a.pulls[i]); }
  }

  lemma RestartOrderly(a: Pool, r: string, epoch: string)
    requires Orderly(a) && r in a.relays && epoch != "" && epoch !in a.epochs
    ensures Orderly(AfterRestart(a, r, epoch))
  {
    var b := AfterRestart(a, r, epoch);
    forall x | x in b.seen
      ensures BehindCursor(b, x)
    {
      assert BehindCursor(a, x);
      StaysBehind(a, b, x);
    }
    forall i | i in b.pulls ensures AheadOfCursor(b, b.pulls[i]) { assert AheadOfCursor(a, a.pulls[i]); }
  }

  /** A pull is made, or comes one stage further without passing anything. */
  lemma PullSetOrderly(a: Pool, id: nat, p: Pull)
    requires Orderly(a) && AheadOfCursor(a, p) && MayBecome(a, id, p)
    ensures Orderly(a.(pulls := a.pulls[id := p]))
  {
    var b := a.(pulls := a.pulls[id := p]);
    forall x | x in b.seen
      ensures BehindCursor(b, x)
    {
      assert BehindCursor(a, x);
      PullSetBehind(a, id, p, x);
    }
    forall i | i in b.pulls ensures AheadOfCursor(b, b.pulls[i]) { assert i == id || AheadOfCursor(a, a.pulls[i]); }
    PullSetApart(a, id, p);
  }

  /** Pull `id` is new to an idle pair, or was `p`'s pair's own and had imported
      nothing. */
  ghost predicate MayBecome(a: Pool, id: nat, p: Pull) {
    if id in a.pulls then !a.pulls[id].Imported? && SamePair(p, a.pulls[id].puller, a.pulls[id].peer)
    else Idle(a, p.puller, p.peer)
  }

  lemma PullSetBehind(a: Pool, id: nat, p: Pull, x: Seen)
    requires BehindCursor(a, x) && (id in a.pulls ==> !a.pulls[id].Imported?)
    ensures BehindCursor(a.(pulls := a.pulls[id := p]), x)
  {
    assert forall i | AboutToPass(a, i, x) :: i != id;
    StaysBehind(a, a.(pulls := a.pulls[id := p]), x);
  }

  lemma PullSetApart(a: Pool, id: nat, p: Pull)
    requires OnePerPair(a.pulls) && MayBecome(a, id, p)
    ensures OnePerPair(a.pulls[id := p])
  {
  }

  lemma EntriesAhead(s: State, epoch: string, since: nat, refs: seq<Ref>, page: Page)
    requires Serves(s, epoch, since, PAGE_SIZE, refs, page)
    ensures since <= page.nextSeq
    ensures forall e | e in EntriesOn(s, refs) :: since < e.no <= page.nextSeq
  {
    forall e | e in EntriesOn(s, refs)
      ensures since < e.no <= page.nextSeq
    {
      PageIsAnInterval(s, epoch, since, PAGE_SIZE, refs, page, e.ref);
    }
    if refs != [] { PageIsAnInterval(s, epoch, since, PAGE_SIZE, refs, page, refs[0]); }
  }

  lemma AskOrderly(pool: Pool, id: nat, puller: string, peer: string)
    requires Orderly(pool) && Enabled(pool, Ask(id, puller, peer)) && Idle(pool, puller, peer)
    ensures Orderly(AfterAsk(pool, id, puller, peer))
  {
    PullSetOrderly(pool, id, Asked(puller, peer, pool.relays[puller].CursorFor(peer)));
  }

  lemma ServeOrderly(pool: Pool, id: nat, now: nat, refs: seq<Ref>, page: Page)
    requires Orderly(pool) && Enabled(pool, Serve(id, now, refs, page))
    ensures Orderly(AfterServe(pool, id, now, refs, page))
  {
    var p := pool.pulls[id];
    var q := pool.relays[p.peer];
    var swept := Sweep(q.store, now);
    StoreChangeOrderly(pool, p.peer, swept);
    var mid := WithStore(pool, p.peer, swept);
    assert AheadOfCursor(mid, mid.pulls[id]);
    EntriesAhead(swept, q.epoch, p.at.seqNo, refs, page);
    PullSetOrderly(mid, id, InFlight(p.puller, p.peer, p.at, page, EntriesOn(swept, refs)));
  }

  lemma SeenOrderly(a: Pool, id: nat, p: Pull)
    requires Orderly(a) && id in a.pulls && p.InFlight? && AheadOfCursor(a, p)
    requires a.pulls[id] == Imported(p.puller, p.peer, p.at, p.page)
    ensures Orderly(a.(seen := SeenWith(a, p)))
  {
    var b := a.(seen := SeenWith(a, p));
    forall x | x in b.seen
      ensures BehindCursor(b, x)
    {
      if x in a.seen {
        StaysBehind(a, b, x);
      } else {
        assert x.entry in p.entries;
        assert AboutToPass(b, id, x);
      }
    }
    forall i | i in b.pulls ensures AheadOfCursor(b, b.pulls[i]) { assert AheadOfCursor(a, a.pulls[i]); }
  }

  lemma ReceiveOrderly(pool: Pool, id: nat, now: nat)
    requires Orderly(pool) && Enabled(pool, Receive(id, now))
    ensures Orderly(AfterReceive(pool, id, now))
  {
    var p := pool.pulls[id];
    var s := StoreAfter(pool.relays[p.puller], p.at, p.page, now);
    StoreChangeOrderly(pool, p.puller, s);
    var mid := WithStore(pool, p.puller, s);
    assert AheadOfCursor(mid, mid.pulls[id]);
    var next := Imported(p.puller, p.peer, p.at, p.page);
    PullSetOrderly(mid, id, next);
    SeenOrderly(mid.(pulls := mid.pulls[id := next]), id, p);
  }

  /** A pull that ends without having imported anything. */
  lemma LoseOrderly(a: Pool, id: nat)
    requires Orderly(a) && Enabled(a, Lose(id))
    ensures Orderly(a.(pulls := a.pulls - {id}))
  {
    var b := a.(pulls := a.pulls - {id});
    forall x | x in b.seen
      ensures BehindCursor(b, x)
    {
      assert forall i | AboutToPass(a, i, x) :: i != id;
      StaysBehind(a, b, x);
    }
    forall i | i in b.pulls ensures AheadOfCursor(b, b.pulls[i]) { assert AheadOfCursor(a, a.pulls[i]); }
  }

  lemma AdvanceCursors(a: Pool, id: nat, r: string, q: string)
    requires Enabled(a, Advance(id)) && AheadOfCursor(a, a.pulls[id]) && r in a.relays
    ensures var p, b := a.pulls[id], AfterAdvance(a, id);
            r in b.relays && b.relays[r].epoch == a.relays[r].epoch
            && b.relays[r].CursorFor(q)
               == if SamePair(p, r, q) then NextCursor(p.at, p.page) else a.relays[r].CursorFor(q)
  {
  }

  lemma AdvanceSeen(a: Pool, id: nat, x: Seen)
    requires Orderly(a) && Enabled(a, Advance(id)) && x in a.seen
    ensures BehindCursor(AfterAdvance(a, id), x)
  {
    var p, b := a.pulls[id], AfterAdvance(a, id);
    assert AheadOfCursor(a, p) && BehindCursor(a, x);
    AdvanceCursors(a, id, x.puller, x.peer);
    AdvanceCursors(a, id, x.peer, x.peer);
    if SamePair(p, x.puller, x.peer) {
      assert forall i | AboutToPass(a, i, x) :: i == id;
    } else {
      assert forall i | AboutToPass(a, i, x) :: i != id && AboutToPass(b, i, x);
    }
  }

  lemma AdvancePulls(a: Pool, id: nat, i: nat)
    requires Orderly(a) && Enabled(a, Advance(id)) && i in a.pulls && i != id
    ensures AheadOfCursor(AfterAdvance(a, id), a.pulls[i])
  {
    var g := a.pulls[i];
    assert AheadOfCursor(a, g) && AheadOfCursor(a, a.pulls[id]);
    AdvanceCursors(a, id, g.puller, g.peer);
    AdvanceCursors(a, id, g.peer, g.peer);
  }

  lemma AdvanceEpochs(a: Pool, id: nat)
    requires Orderly(a) && Enabled(a, Advance(id))
    ensures KnownEpochs(AfterAdvance(a, id))
  {
    assert AheadOfCursor(a, a.pulls[id]);
  }

  lemma AdvanceOrderly(a: Pool, id: nat)
    requires Orderly(a) && Enabled(a, Advance(id))
    ensures Orderly(AfterAdvance(a, id))
  {
    var b := AfterAdvance(a, id);
    AdvanceEpochs(a, id);
    forall x | x in b.seen ensures BehindCursor(b, x) { AdvanceSeen(a, id, x); }
    forall i | i in b.pulls ensures AheadOfCursor(b, b.pulls[i]) { AdvancePulls(a, id, i); }
  }

  lemma EventOrderly(pool: Pool, ev: Event)
    requires Orderly(pool) && Enabled(pool, ev)
    requires ev.Ask? ==> Idle(pool, ev.puller, ev.peer)
    ensures Orderly(After(pool, ev))
  {
    match ev
    case Local(r, op) => StoreChangeOrderly(pool, r, Step(pool.relays[r].cfg, pool.relays[r].store, op));
    case Restart(r, epoch) => RestartOrderly(pool, r, epoch);
    case Ask(id, puller, peer) => AskOrderly(pool, id, puller, peer);
    case Serve(id, now, refs, page) => ServeOrderly(pool, id, now, refs, page);
    case Receive(id, now) => ReceiveOrderly(pool, id, now);
    case Advance(id) => AdvanceOrderly(pool, id);
    case Lose(id) => LoseOrderly(pool, id);
  }

  lemma {:induction false} HistoryOrderly(events: seq<Event>, pools: seq<Pool>, i: nat)
    requires IsHistory(events, pools) && OneAtATime(events, pools) && i < |pools|
    ensures Orderly(pools[i])
  {
    if i > 0 {
      HistoryOrderly(events, pools, i - 1);
      assert Enabled(pools[i - 1], events[i - 1]);
      EventOrderly(pools[i - 1], events[i - 1]);
    }
  }

  /** An asked-for page starts past everything seen. */
  lemma AskedIsPast(pool: Pool, id: nat, x: Seen)
    requires Orderly(pool) && id in pool.pulls && pool.pulls[id].Asked? && x in pool.seen
    requires SamePair(pool.pulls[id], x.puller, x.peer)
    ensures x.peer in pool.relays && (x.epoch == pool.relays[x.peer].epoch ==> x.entry.no <= pool.pulls[id].at.seqNo)
  {
    assert AheadOfCursor(pool, pool.pulls[id]) && BehindCursor(pool, x);
    assert forall i :: !AboutToPass(pool, i, x);
  }

  /** Over every such history: a page never carries a record, under its arrival
      number, that the puller has already imported in the peer's epoch. */
  lemma NeverServedTwice(events: seq<Event>, pools: seq<Pool>, i: nat, e: Entry)
    requires IsHistory(events, pools) && OneAtATime(events, pools) && i < |events| && events[i].Serve?
    requires var ev, pool := events[i], pools[i];
             && ev.id in pool.pulls && pool.pulls[ev.id].peer in pool.relays
             && e in EntriesOn(Sweep(pool.relays[pool.pulls[ev.id].peer].store, ev.now), ev.refs)
    ensures var p := pools[i].pulls[events[i].id];
            Seen(p.puller, p.peer, pools[i].relays[p.peer].epoch, e) !in pools[i].seen
  {
    HistoryOrderly(events, pools, i);
    var ev, pool := events[i], pools[i];
    assert Enabled(pool, ev);
    var p := pool.pulls[ev.id];
    var q := pool.relays[p.peer];
    EntriesAhead(Sweep(q.store, ev.now), q.epoch, p.at.seqNo, ev.refs, ev.page);
    var x := Seen(p.puller, p.peer, q.epoch, e);
    if x in pool.seen { AskedIsPast(pool, ev.id, x); }
  }
}
