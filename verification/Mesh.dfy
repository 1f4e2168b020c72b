/** Pull replication between any number of relays.  Each step is one locked method
    body on one relay, or the network losing something; whatever is asked, served,
    imported or recorded happens at its own moment, with anything in between. */
module Mesh {
  import opened QueueModel
  import opened QueueRequest
  import opened QueuePaging

  const PAGE_SIZE := 500

  datatype Cursor = Cursor(epoch: string, seqNo: nat)

  /** What a puller that has never heard from a peer starts with. */
  const NO_CURSOR := Cursor("", 0)

  datatype Relay = Relay(cfg: Config, store: State, epoch: string, cursors: map<string, Cursor>) {
    function CursorFor(peer: string): Cursor {
      if peer in cursors then cursors[peer] else NO_CURSOR
    }
  }

  /** One request for a page and how far it has come: asked with the cursor read then,
      answered with records under their arrival numbers, or imported with the cursor
      still to be set. */
  datatype Pull =
    | Asked(puller: string, peer: string, at: Cursor)
    | InFlight(puller: string, peer: string, at: Cursor, page: Page, entries: set<Entry>)
    | Imported(puller: string, peer: string, at: Cursor, page: Page)

  /** `puller` has imported a page of `peer` carrying `entry` in that epoch. */
  datatype Seen = Seen(puller: string, peer: string, epoch: string, entry: Entry)

  datatype Pool = Pool(relays: map<string, Relay>, pulls: map<nat, Pull>, seen: set<Seen>, epochs: set<string>)

  datatype Event =
    | Local(relay: string, op: Op)                                    // a client call or a sweep
    | Restart(relay: string, epoch: string)
    | Ask(id: nat, puller: string, peer: string)
    | Serve(id: nat, now: nat, refs: seq<Ref>, page: Page)
    | Receive(id: nat, now: nat)
    | Advance(id: nat)
    | Lose(id: nat)

  ghost function EntriesOn(s: State, refs: seq<Ref>): set<Entry> {
    set r | r in refs && Stored(s, r) :: Entry(SeqOf(s, r), r)
  }

  ghost predicate Enabled(pool: Pool, ev: Event) {
    match ev
    case Local(r, op) => r in pool.relays && !op.Import?
    case Restart(r, epoch) => r in pool.relays && epoch != "" && epoch !in pool.epochs
    case Ask(id, puller, peer) => id !in pool.pulls && puller in pool.relays && peer in pool.relays
    case Serve(id, now, refs, page) =>
      && id in pool.pulls && pool.pulls[id].Asked? && pool.pulls[id].peer in pool.relays
      && var q := pool.relays[pool.pulls[id].peer];
         Serves(Sweep(q.store, now), q.epoch, pool.pulls[id].at.seqNo, PAGE_SIZE, refs, page)
    case Receive(id, _) => id in pool.pulls && pool.pulls[id].InFlight? && pool.pulls[id].puller in pool.relays
    case Advance(id) => id in pool.pulls && pool.pulls[id].Imported? && pool.pulls[id].puller in pool.relays
    case Lose(id) => id in pool.pulls && !pool.pulls[id].Imported?
  }

  // ------------------------------------------------------ the puller's decisions

  /** The puller's test for "the peer restarted". */
  predicate Restarted(at: Cursor, page: Page) {
    page.epoch != at.epoch && at.epoch != "" && at.seqNo != 0
  }

  /** Whether a page sets the cursor, and to what. */
  predicate SetsCursor(at: Cursor, page: Page) { Restarted(at, page) || page.nextSeq >= at.seqNo }

  function NextCursor(at: Cursor, page: Page): Cursor {
    Cursor(page.epoch, if Restarted(at, page) then 0 else page.nextSeq)
  }

  /** The store after the page has come: a restarted peer's is read over. */
  ghost function StoreAfter(r: Relay, at: Cursor, page: Page, now: nat): State {
    if Restarted(at, page) then r.store else Step(r.cfg, r.store, Import(TrimPage(page), now))
  }

  function CursorsAfter(cursors: map<string, Cursor>, peer: string, at: Cursor, page: Page): map<string, Cursor> {
    if SetsCursor(at, page) then cursors[peer := NextCursor(at, page)] else cursors
  }

  /** The puller's whole part in one page. */
  ghost function Absorb(r: Relay, peer: string, at: Cursor, page: Page, now: nat): Relay {
    r.(store := StoreAfter(r, at, page, now), cursors := CursorsAfter(r.cursors, peer, at, page))
  }

  // ----------------------------------------------------------------------- steps

  ghost function WithStore(pool: Pool, r: string, s: State): Pool
    requires r in pool.relays
  {
    pool.(relays := pool.relays[r := pool.relays[r].(store := s)])
  }

  ghost function AfterLocal(pool: Pool, r: string, op: Op): Pool
    requires r in pool.relays
  {
    WithStore(pool, r, Step(pool.relays[r].cfg, pool.relays[r].store, op))
  }

  /** Queues, cursors and pulls in the making are in memory only. */
  ghost function AfterRestart(pool: Pool, r: string, epoch: string): Pool
    requires r in pool.relays
  {
    Pool(pool.relays[r := Relay(pool.relays[r].cfg, EMPTY, epoch, map[])],
         map i | i in pool.pulls && pool.pulls[i].puller != r :: pool.pulls[i],
         (set x | x in pool.seen && x.puller != r),
         pool.epochs + {epoch})
  }

  ghost function AfterAsk(pool: Pool, id: nat, puller: string, peer: string): Pool
    requires puller in pool.relays
  {
    pool.(pulls := pool.pulls[id := Asked(puller, peer, pool.relays[puller].CursorFor(peer))])
  }

  ghost function AfterServe(pool: Pool, id: nat, now: nat, refs: seq<Ref>, page: Page): Pool
    requires id in pool.pulls && pool.pulls[id].peer in pool.relays
  {
    var p := pool.pulls[id];
    var swept := Sweep(pool.relays[p.peer].store, now);
    var served := InFlight(p.puller, p.peer, p.at, page, EntriesOn(swept, refs));
    WithStore(pool, p.peer, swept).(pulls := pool.pulls[id := served])
  }

  ghost function SeenWith(pool: Pool, p: Pull): set<Seen>
    requires p.InFlight?
  {
    if Restarted(p.at, p.page) then pool.seen
    else pool.seen + set e | e in p.entries :: Seen(p.puller, p.peer, p.page.epoch, e)
  }

  ghost function AfterReceive(pool: Pool, id: nat, now: nat): Pool
    requires id in pool.pulls && pool.pulls[id].InFlight? && pool.pulls[id].puller in pool.relays
  {
    var p := pool.pulls[id];
    WithStore(pool, p.puller, StoreAfter(pool.relays[p.puller], p.at, p.page, now))
    .(pulls := pool.pulls[id := Imported(p.puller, p.peer, p.at, p.page)], seen := SeenWith(pool, p))
  }

  ghost function AfterAdvance(pool: Pool, id: nat): Pool
    requires id in pool.pulls && pool.pulls[id].Imported? && pool.pulls[id].puller in pool.relays
  {
    var p := pool.pulls[id];
    var r := pool.relays[p.puller];
    pool.(relays := pool.relays[p.puller := r.(cursors := CursorsAfter(r.cursors, p.peer, p.at, p.page))],
          pulls := pool.pulls - {id})
  }

  ghost function After(pool: Pool, ev: Event): Pool
    requires Enabled(pool, ev)
  {
    match ev
    case Local(r, op) => AfterLocal(pool, r, op)
    case Restart(r, epoch) => AfterRestart(pool, r, epoch)
    case Ask(id, puller, peer) => AfterAsk(pool, id, puller, peer)
    case Serve(id, now, refs, page) => AfterServe(pool, id, now, refs, page)
    case Receive(id, now) => AfterReceive(pool, id, now)
    case Advance(id) => AfterAdvance(pool, id)
    case Lose(id) => pool.(pulls := pool.pulls - {id})
  }

  /** Freshly started relays that have not talked to each other. */
  ghost predicate Booted(pool: Pool) {
    && (forall r | r in pool.relays ::
          pool.relays[r].cfg.Valid() && pool.relays[r].store == EMPTY && pool.relays[r].cursors == map[]
          && pool.relays[r].epoch != "" && pool.relays[r].epoch in pool.epochs)
    && pool.pulls == map[] && pool.seen == {} && "" !in pool.epochs
  }

  /** `pools` are the states the pool passes through under `events`. */
  ghost predicate IsHistory(events: seq<Event>, pools: seq<Pool>) {
    && |pools| == |events| + 1 && Booted(pools[0])
    && forall i {:trigger events[i]} | 0 <= i < |events| ::
         Enabled(pools[i], events[i]) && pools[i + 1] == After(pools[i], events[i])
  }
}
