/** Replication cannot keep mail alive: once clients stop, there is a fixed time
    from which a sweep empties every relay of the pool, for good. */
module MeshDrain {
  import opened QueueModel
  import opened QueueRequest
  import opened QueuePaging
  import opened QueueDrain
  import opened Mesh
  import opened MeshPaging

  /** No client call of the history stores anything that outlives `bound`: with the
      last such call at time t, any `bound` of at least t + maxTTL will do. */
  ghost predicate ClientsStop(events: seq<Event>, pools: seq<Pool>, bound: Time)
    requires IsHistory(events, pools)
  {
    forall i {:trigger events[i]} | 0 <= i < |events| && events[i].Local?
      && (events[i].op.Post? || events[i].op.Acknowledge?) ::
      var r := events[i].relay;
      assert Enabled(pools[i], events[i]);
      events[i].op.now + pools[i].relays[r].cfg.maxTTL <= bound
  }

  ghost predicate EventInTime(pool: Pool, ev: Event, bound: Time) {
    ev.Local? ==> ev.relay in pool.relays && InTime(pool.relays[ev.relay].cfg, ev.op, bound)
  }

  ghost predicate PoolDue(bound: Time, pool: Pool) {
    && (forall r | r in pool.relays ::
          pool.relays[r].cfg.Valid() && Due(bound, pool.relays[r].store.messages, pool.relays[r].store.acks))
    && (forall i | i in pool.pulls && pool.pulls[i].InFlight? :: PageDue(bound, pool.pulls[i].page))
  }

  lemma {:induction false} ServedRecordsDue(s: State, refs: seq<Ref>, bound: Time)
    requires Due(bound, s.messages, s.acks)
    ensures forall e | e in MessagesOn(s, refs) :: 0 < e.expiresAt <= bound
    ensures forall a | a in AcksOn(s, refs) :: 0 < a.expiresAt <= bound
  {
    if refs != [] { ServedRecordsDue(s, refs[..|refs| - 1], bound); }
  }

  /** One relay's store has changed to one that is still due. */
  lemma StoreChangeDue(a: Pool, r: string, s: State, bound: Time)
    requires PoolDue(bound, a) && r in a.relays && Due(bound, s.messages, s.acks)
    ensures PoolDue(bound, WithStore(a, r, s))
  {
  }

  lemma LocalDue(pool: Pool, r: string, op: Op, bound: Time)
    requires PoolDue(bound, pool) && r in pool.relays && InTime(pool.relays[r].cfg, op, bound)
    ensures PoolDue(bound, AfterLocal(pool, r, op))
  {
    var rel := pool.relays[r];
    StepDue(rel.cfg, rel.store, op, bound);
    StoreChangeDue(pool, r, Step(rel.cfg, rel.store, op), bound);
  }

  lemma ServedPageDue(s: State, epoch: string, since: nat, refs: seq<Ref>, page: Page, bound: Time)
    requires Due(bound, s.messages, s.acks) && Serves(s, epoch, since, PAGE_SIZE, refs, page)
    ensures PageDue(bound, page)
  {
    ServedRecordsDue(s, refs, bound);
  }

  lemma SweptDue(cfg: Config, s: State, now: nat, bound: Time)
    requires cfg.Valid() && Due(bound, s.messages, s.acks)
    ensures Due(bound, Sweep(s, now).messages, Sweep(s, now).acks)
  {
    StepDue(cfg, s, Snapshot(now), bound);
  }

  lemma PullSetDue(a: Pool, id: nat, p: Pull, bound: Time)
    requires PoolDue(bound, a) && (p.InFlight? ==> PageDue(bound, p.page))
    ensures PoolDue(bound, a.(pulls := a.pulls[id := p]))
  {
  }

  lemma ServeDue(pool: Pool, id: nat, now: nat, refs: seq<Ref>, page: Page, bound: Time)
    requires PoolDue(bound, pool) && Enabled(pool, Serve(id, now, refs, page))
    ensures PoolDue(bound, AfterServe(pool, id, now, refs, page))
  {
    var p := pool.pulls[id];
    var q := pool.relays[p.peer];
    var swept := Sweep(q.store, now);
    SweptDue(q.cfg, q.store, now, bound);
    ServedPageDue(swept, q.epoch, p.at.seqNo, refs, page, bound);
    StoreChangeDue(pool, p.peer, swept, bound);
    var served := InFlight(p.puller, p.peer, p.at, page, EntriesOn(swept, refs));
    PullSetDue(WithStore(pool, p.peer, swept), id, served, bound);
  }

  lemma ImportedDue(r: Relay, at: Cursor, page: Page, now: nat, bound: Time)
    requires r.cfg.Valid() && Due(bound, r.store.messages, r.store.acks) && PageDue(bound, page)
    ensures var t := StoreAfter(r, at, page, now); Due(bound, t.messages, t.acks)
  {
    TrimmedPageDue(bound, page);
    StepDue(r.cfg, r.store, Import(TrimPage(page), now), bound);
  }

  lemma ReceiveDue(pool: Pool, id: nat, now: nat, bound: Time)
    requires PoolDue(bound, pool) && Enabled(pool, Receive(id, now))
    ensures PoolDue(bound, AfterReceive(pool, id, now))
  {
    var p := pool.pulls[id];
    var s := StoreAfter(pool.relays[p.puller], p.at, p.page, now);
    ImportedDue(pool.relays[p.puller], p.at, p.page, now, bound);
    StoreChangeDue(pool, p.puller, s, bound);
    PullSetDue(WithStore(pool, p.puller, s), id, Imported(p.puller, p.peer, p.at, p.page), bound);
  }

  lemma EventDue(pool: Pool, ev: Event, bound: Time)
    requires PoolDue(bound, pool) && Enabled(pool, ev) && EventInTime(pool, ev, bound)
    ensures PoolDue(bound, After(pool, ev))
  {
    match ev
    case Local(r, op) => LocalDue(pool, r, op, bound);
    case Restart(_, _) =>
    case Ask(_, _, _) =>
    case Serve(id, now, refs, page) => ServeDue(pool, id, now, refs, page, bound);
    case Receive(id, now) => ReceiveDue(pool, id, now, bound);
    case Advance(_) =>
    case Lose(_) =>
  }

  lemma {:induction false} HistoryDue(events: seq<Event>, pools: seq<Pool>, bound: Time, i: nat)
    requires IsHistory(events, pools) && ClientsStop(events, pools, bound) && i < |pools|
    ensures PoolDue(bound, pools[i])
  {
    if i > 0 {
      HistoryDue(events, pools, bound, i - 1);
      assert Enabled(pools[i - 1], events[i - 1]);
      EventDue(pools[i - 1], events[i - 1], bound);
    }
  }

  lemma HistoryHealthy(events: seq<Event>, pools: seq<Pool>, i: nat, r: string)
    requires IsHistory(events, pools) && i < |pools| && r in pools[i].relays
    ensures Healthy(pools[i].relays[r].cfg, pools[i].relays[r].store)
  {
    HistoryConsistent(events, pools, i);
    assert RelayOk(pools[i].epochs, pools[i].relays[r]);
  }

  lemma SweptHealthy(cfg: Config, s: State, now: nat)
    requires Healthy(cfg, s)
    ensures Healthy(cfg, Sweep(s, now))
  {
    HealthyStep(cfg, s, Snapshot(now));
    SweepIsStep(cfg, s, now);
  }

  lemma HealthySweepDrains(cfg: Config, s: State, bound: Time, now: nat)
    requires Healthy(cfg, s) && Due(bound, s.messages, s.acks) && bound <= now
    ensures Drained(Sweep(s, now))
  {
    SweptHealthy(cfg, s, now);
    Examine(cfg, Sweep(s, now));
    SweepDrains(cfg, s, bound, now);
  }

  lemma HealthyStaysDrained(cfg: Config, s: State, op: Op, bound: Time)
    requires Healthy(cfg, s) && Drained(s) && InTime(cfg, op, bound) && bound <= op.now
    ensures Drained(Step(cfg, s, op))
  {
    HealthyStep(cfg, s, op);
    Examine(cfg, s);
    Examine(cfg, Step(cfg, s, op));
    StaysDrained(cfg, s, op, bound);
  }

  /** Whatever the relays pulled from each other and whatever is still in flight, a
      sweep at or after `bound` leaves no record, no index entry, no charge and no
      binding on any relay. */
  lemma SweepEmptiesAnyRelay(events: seq<Event>, pools: seq<Pool>, bound: Time, i: nat, r: string, now: nat)
    requires IsHistory(events, pools) && ClientsStop(events, pools, bound)
    requires i < |pools| && r in pools[i].relays && bound <= now
    ensures Drained(Sweep(pools[i].relays[r].store, now))
  {
    HistoryDue(events, pools, bound, i);
    HistoryHealthy(events, pools, i, r);
    HealthySweepDrains(pools[i].relays[r].cfg, pools[i].relays[r].store, bound, now);
  }

  /** The clock `ev` uses on relay `r` has reached `bound`, if `ev` touches `r`. */
  ghost predicate LateOn(pool: Pool, ev: Event, r: string, bound: Time) {
    match ev
    case Local(x, op) => x == r ==> bound <= op.now
    case Serve(id, now, _, _) => id in pool.pulls && pool.pulls[id].peer == r ==> bound <= now
    case Receive(id, now) => id in pool.pulls && pool.pulls[id].puller == r ==> bound <= now
    case Restart(_, _) => true
    case Ask(_, _, _) => true
    case Advance(_) => true
    case Lose(_) => true
  }

  lemma SweepStaysDrained(cfg: Config, s: State, now: nat, bound: Time)
    requires Healthy(cfg, s) && Drained(s) && bound <= now
    ensures Drained(Sweep(s, now))
  {
    HealthyStaysDrained(cfg, s, Snapshot(now), bound);
  }

  lemma ImportStaysDrained(r: Relay, at: Cursor, page: Page, now: nat, bound: Time)
    requires Healthy(r.cfg, r.store) && Drained(r.store) && PageDue(bound, page) && bound <= now
    ensures Drained(StoreAfter(r, at, page, now))
  {
    TrimmedPageDue(bound, page);
    HealthyStaysDrained(r.cfg, r.store, Import(TrimPage(page), now), bound);
  }

  lemma ServeStaysDrained(pool: Pool, id: nat, now: nat, refs: seq<Ref>, page: Page, r: string, bound: Time)
    requires Enabled(pool, Serve(id, now, refs, page)) && (pool.pulls[id].peer == r ==> bound <= now)
    requires r in pool.relays && Drained(pool.relays[r].store) && Healthy(pool.relays[r].cfg, pool.relays[r].store)
    ensures Drained(AfterServe(pool, id, now, refs, page).relays[r].store)
  {
    if pool.pulls[id].peer == r { SweepStaysDrained(pool.relays[r].cfg, pool.relays[r].store, now, bound); }
  }

  lemma ReceiveStaysDrained(pool: Pool, id: nat, now: nat, r: string, bound: Time)
    requires PoolDue(bound, pool) && Enabled(pool, Receive(id, now)) && (pool.pulls[id].puller == r ==> bound <= now)
    requires r in pool.relays && Drained(pool.relays[r].store) && Healthy(pool.relays[r].cfg, pool.relays[r].store)
    ensures Drained(AfterReceive(pool, id, now).relays[r].store)
  {
    var p := pool.pulls[id];
    if p.puller == r { ImportStaysDrained(pool.relays[r], p.at, p.page, now, bound); }
  }

  lemma LocalStaysDrained(pool: Pool, x: string, op: Op, r: string, bound: Time)
    requires x in pool.relays && InTime(pool.relays[x].cfg, op, bound) && (x == r ==> bound <= op.now)
    requires r in pool.relays && Drained(pool.relays[r].store) && Healthy(pool.relays[r].cfg, pool.relays[r].store)
    ensures Drained(AfterLocal(pool, x, op).relays[r].store)
  {
    if x == r { HealthyStaysDrained(pool.relays[r].cfg, pool.relays[r].store, op, bound); }
  }

  lemma RelayStaysDrained(pool: Pool, ev: Event, r: string, bound: Time)
    requires PoolDue(bound, pool) && Enabled(pool, ev) && EventInTime(pool, ev, bound) && LateOn(pool, ev, r, bound)
    requires r in pool.relays && Drained(pool.relays[r].store) && Healthy(pool.relays[r].cfg, pool.relays[r].store)
    ensures r in After(pool, ev).relays && Drained(After(pool, ev).relays[r].store)
  {
    match ev
    case Local(x, op) => LocalStaysDrained(pool, x, op, r, bound);
    case Serve(id, now, refs, page) => ServeStaysDrained(pool, id, now, refs, page, r, bound);
    case Receive(id, now) => ReceiveStaysDrained(pool, id, now, r, bound);
    case Restart(_, _) =>
    case Ask(_, _, _) =>
    case Advance(_) =>
    case Lose(_) =>
  }

  /** And it stays empty, however many pages arrive afterwards. */
  lemma {:induction false} DrainedForGood(events: seq<Event>, pools: seq<Pool>, bound: Time, k: nat, i: nat, r: string)
    requires IsHistory(events, pools) && ClientsStop(events, pools, bound)
    requires k <= i < |pools| && r in pools[k].relays && Drained(pools[k].relays[r].store)
    requires forall j {:trigger events[j]} | k <= j < i :: LateOn(pools[j], events[j], r, bound)
    ensures r in pools[i].relays && Drained(pools[i].relays[r].store)
  {
    if i > k {
      DrainedForGood(events, pools, bound, k, i - 1, r);
      var pool, ev := pools[i - 1], events[i - 1];
      assert Enabled(pool, ev) && pools[i] == After(pool, ev);
      HistoryDue(events, pools, bound, i - 1);
      HistoryHealthy(events, pools, i - 1, r);
      RelayStaysDrained(pool, ev, r, bound);
    }
  }
}
