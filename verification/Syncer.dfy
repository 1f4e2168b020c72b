/** The puller: one bounded run of pages from one peer. */
module Syncer {
  import opened Common
  import opened QueueModel
  import opened QueueRequest
  import opened QueueStore
  import opened Mesh

  const PAGES_PER_SYNC := 20

  /** What one request to the peer comes back with, and the puller's clock then. */
  datatype Reply = Failed | Served(page: Page, now: nat)

  datatype SyncError = FetchFailed | Stalled

  datatype Tally = Tally(pages: nat, pulledMessages: nat, pulledAcks: nat, acceptedMessages: nat, acceptedAcks: nat)

  // ----------------------------------------------------- what a run amounts to

  /** `after` is `before` having absorbed the page, asked with its own cursor. */
  ghost predicate Follows(before: Relay, peer: string, reply: Reply, after: Relay) {
    reply.Served? && forall i {:trigger Unsealed(i)} :: Unsealed(i) ==>
                       after == Absorb(before, peer, before.CursorFor(peer), reply.page, reply.now)
  }

  lemma Followed(before: Relay, peer: string, reply: Reply, after: Relay)
    requires Follows(before, peer, reply, after)
    ensures after == Absorb(before, peer, before.CursorFor(peer), reply.page, reply.now)
  {
    assert Unsealed(0);
  }

  lemma RestartFollows(before: Relay, peer: string, page: Page, now: nat)
    requires Restarted(before.CursorFor(peer), page)
    ensures Follows(before, peer, Served(page, now), before.(cursors := before.cursors[peer := Cursor(page.epoch, 0)]))
  {
  }

  lemma ImportFollows(before: Relay, peer: string, page: Page, now: nat, s: State)
    requires !Restarted(before.CursorFor(peer), page)
    requires s == Step(before.cfg, before.store, Import(TrimPage(page), now))
    ensures var moved := before.cursors[peer := Cursor(page.epoch, page.nextSeq)];
            Follows(before, peer, Served(page, now),
                    before.(store := s,
                            cursors := if page.nextSeq >= before.CursorFor(peer).seqNo then moved else before.cursors))
  {
  }

  /** `trace` is the puller before the first page and after each one. */
  ghost predicate Pulls(trace: seq<Relay>, peer: string, replies: seq<Reply>) {
    && 0 < |trace| <= |replies| + 1
    && forall i {:trigger trace[i + 1]} | 0 <= i < |trace| - 1 :: Follows(trace[i], peer, replies[i], trace[i + 1])
  }

  /** What the puller does after a page: ask again, stop content, or stop because
      the peer claims more without moving the cursor. */
  datatype Next = Again | Done | Stuck

  function NextAfter(at: Cursor, page: Page): Next {
    if Restarted(at, page) then Again
    else if !page.more then Done
    else if page.nextSeq <= at.seqNo then Stuck
    else Again
  }

  /** The run goes this way after page `i`. */
  ghost predicate Goes(trace: seq<Relay>, peer: string, replies: seq<Reply>, i: int, next: Next)
    requires i < |replies| && i < |trace|
  {
    0 <= i && replies[i].Served? && NextAfter(trace[i].CursorFor(peer), replies[i].page) == next
  }

  ghost predicate AllAgain(trace: seq<Relay>, peer: string, replies: seq<Reply>, n: int)
    requires n <= |replies| && n <= |trace|
  {
    forall i | 0 <= i < n :: Goes(trace, peer, replies, i, Again)
  }

  /** Where a run stops and why: the first page that finishes or stalls, the first
      request that fails, or the page limit. */
  ghost predicate Ends(trace: seq<Relay>, peer: string, replies: seq<Reply>, error: Option<SyncError>)
    requires 0 < |trace| <= PAGES_PER_SYNC + 1 && PAGES_PER_SYNC <= |replies|
  {
    var n := |trace| - 1;
    && AllAgain(trace, peer, replies, n - 1)
    && match error
       case Some(FetchFailed) =>
         n < PAGES_PER_SYNC && replies[n].Failed? && (n > 0 ==> Goes(trace, peer, replies, n - 1, Again))
       case Some(Stalled) => Goes(trace, peer, replies, n - 1, Stuck)
       case None =>
         || Goes(trace, peer, replies, n - 1, Done)
         || (n == PAGES_PER_SYNC && Goes(trace, peer, replies, n - 1, Again))
  }

  /** What importing the page does to the arrival counter: once for each message
      taken, then once for each ack. */
  ghost function TakenMessages(before: Relay, page: Page, now: nat): int {
    var s := ImportPurges(before.cfg, before.store, page.purges, now);
    ImportMessages(before.cfg, s, TrimPage(page).messages, now).seqNo - s.seqNo
  }

  ghost function TakenAcks(before: Relay, page: Page, now: nat): int {
    Step(before.cfg, before.store, Import(TrimPage(page), now)).seqNo - before.store.seqNo
    - TakenMessages(before, page, now)
  }

  /** `messages` and `acks` of the page were taken. */
  ghost predicate Took(before: Relay, page: Page, now: nat, messages: int, acks: int) {
    forall i {:trigger Unsealed(i)} :: Unsealed(i) ==>
      messages == TakenMessages(before, page, now) && acks == TakenAcks(before, page, now)
  }

  lemma FiguresTaken(before: Relay, page: Page, now: nat, seqNo: nat, messages: int, acks: int)
    requires messages == TakenMessages(before, page, now)
    requires seqNo == Step(before.cfg, before.store, Import(TrimPage(page), now)).seqNo
    requires seqNo == before.store.seqNo + messages + acks
    ensures Took(before, page, now, messages, acks)
  {
  }

  /** A restart's page is only counted; any other is pulled whole, and what of it is
      new is accepted. */
  ghost predicate AddsPage(t: Tally, before: Relay, peer: string, reply: Reply, u: Tally) {
    reply.Served?
    && if Restarted(before.CursorFor(peer), reply.page) then u == t.(pages := t.pages + 1)
       else u.pages == t.pages + 1 && u.pulledMessages == t.pulledMessages + |reply.page.messages|
            && u.pulledAcks == t.pulledAcks + |reply.page.acks|
            && Took(before, reply.page, reply.now,
                    u.acceptedMessages - t.acceptedMessages, u.acceptedAcks - t.acceptedAcks)
  }

  /** `tallies` are the figures before the first page and after each one. */
  ghost predicate Counts(tallies: seq<Tally>, trace: seq<Relay>, peer: string, replies: seq<Reply>) {
    && 0 < |tallies| == |trace| <= |replies| + 1 && tallies[0] == Tally(0, 0, 0, 0, 0)
    && forall i {:trigger tallies[i + 1]} | 0 <= i < |tallies| - 1 ::
         AddsPage(tallies[i], trace[i], peer, replies[i], tallies[i + 1])
  }

  lemma CountOneMore(tallies: seq<Tally>, trace: seq<Relay>, peer: string, replies: seq<Reply>, r: Relay, u: Tally)
    requires Counts(tallies, trace, peer, replies) && |trace| <= |replies|
    requires AddsPage(tallies[|trace| - 1], trace[|trace| - 1], peer, replies[|trace| - 1], u)
    ensures Counts(tallies + [u], trace + [r], peer, replies)
  {
    var ts, rs := tallies + [u], trace + [r];
    forall i {:trigger ts[i + 1]} | 0 <= i < |ts| - 1
      ensures AddsPage(ts[i], rs[i], peer, replies[i], ts[i + 1])
    {
      if i < |trace| - 1 { assert AddsPage(tallies[i], trace[i], peer, replies[i], tallies[i + 1]); }
    }
  }

  /** One more page on a run. */
  lemma Extend(trace: seq<Relay>, peer: string, replies: seq<Reply>, r: Relay)
    requires Pulls(trace, peer, replies) && |trace| <= |replies| && AllAgain(trace, peer, replies, |trace| - 1)
    requires Follows(trace[|trace| - 1], peer, replies[|trace| - 1], r)
    ensures Pulls(trace + [r], peer, replies) && AllAgain(trace + [r], peer, replies, |trace| - 1)
    ensures Goes(trace + [r], peer, replies, |trace| - 1,
                 NextAfter(trace[|trace| - 1].CursorFor(peer), replies[|trace| - 1].page))
  {
    forall i | 0 <= i < |trace| - 1
      ensures Goes(trace + [r], peer, replies, i, Again)
    {
      assert Goes(trace, peer, replies, i, Again);
    }
  }

  lemma PageNumbers(before: Relay, peer: string, reply: Reply, after: Relay, t: Tally, u: Tally)
    requires Follows(before, peer, reply, after) && AddsPage(t, before, peer, reply, u)
    ensures after.store.seqNo - before.store.seqNo
         == u.acceptedMessages - t.acceptedMessages + u.acceptedAcks - t.acceptedAcks
  {
    assert Unsealed(0);
  }

  /** Every record a run accepts has taken one arrival number, and nothing else has. */
  lemma {:induction false} AcceptedAreNumbered(tallies: seq<Tally>, trace: seq<Relay>, peer: string,
                                               replies: seq<Reply>, n: nat)
    requires Pulls(trace, peer, replies) && Counts(tallies, trace, peer, replies) && n < |trace|
    ensures trace[n].store.seqNo == trace[0].store.seqNo + tallies[n].acceptedMessages + tallies[n].acceptedAcks
  {
    if n > 0 {
      var k := n - 1;
      AcceptedAreNumbered(tallies, trace, peer, replies, k);
      PageNumbers(trace[k], peer, replies[k], trace[k + 1], tallies[k], tallies[k + 1]);
    }
  }

  // ------------------------------------------------------------------ the run

  class Syncer {
    const store: Store
    var cursors: map<string, Cursor>

    ghost function AsRelay(): Relay
      reads this, store
    {
      Relay(store.cfg, store.View(), store.epoch, cursors)
    }

    constructor (store: Store)
      requires store.Valid()
      ensures this.store == store && cursors == map[]
    {
      this.store := store;
      cursors := map[];
    }

    method CursorFor(peer: string) returns (c: Cursor)
      ensures c == AsRelay().CursorFor(peer)
    {
      c := if peer in cursors then cursors[peer] else NO_CURSOR;
    }

    /** One page: a restart resets the cursor, anything else is imported and moves it. */
    method TakePage(peer: string, page: Page, now: nat) returns (pulled: bool, result: ImportResult)
      requires store.Valid()
      modifies this, store
      ensures store.Valid() && Follows(old(AsRelay()), peer, Served(page, now), AsRelay())
      ensures pulled == !Restarted(old(AsRelay()).CursorFor(peer), page)
      ensures pulled ==> Took(old(AsRelay()), page, now, result.acceptedMessages, result.acceptedAcks)
    {
      ghost var before := AsRelay();
      var current := CursorFor(peer);
      result := ImportResult(0, 0, 0, 0, 0);
      pulled := !(page.epoch != current.epoch && current.epoch != "" && current.seqNo != 0);
      if !pulled {
        RestartFollows(before, peer, page, now);
        cursors := cursors[peer := Cursor(page.epoch, 0)];
      } else {
        result := store.ImportSnapshot(page, now);
        ImportFollows(before, peer, page, now, store.View());
        FiguresTaken(before, page, now, store.View().seqNo, result.acceptedMessages, result.acceptedAcks);
        if page.nextSeq >= current.seqNo {
          cursors := cursors[peer := Cursor(page.epoch, page.nextSeq)];
        }
      }
    }

    /** A page and what it adds to the result; what to do next. */
    method PullPage(peer: string, page: Page, now: nat, before: Tally) returns (result: Tally, next: Next)
      requires store.Valid()
      modifies this, store
      ensures store.Valid() && Follows(old(AsRelay()), peer, Served(page, now), AsRelay())
      ensures AddsPage(before, old(AsRelay()), peer, Served(page, now), result)
      ensures next == NextAfter(old(AsRelay()).CursorFor(peer), page)
    {
      var current := CursorFor(peer);
      var pulled, imported := TakePage(peer, page, now);
      result := before.(pages := before.pages + 1);
      if !pulled { return result, Again; }
      result := result.(pulledMessages := before.pulledMessages + |page.messages|,
                        pulledAcks := before.pulledAcks + |page.acks|,
                        acceptedMessages := before.acceptedMessages + imported.acceptedMessages,
                        acceptedAcks := before.acceptedAcks + imported.acceptedAcks);
      next := if !page.more then Done else if page.nextSeq <= current.seqNo then Stuck else Again;
    }

    /** Up to twenty pages, each absorbed against the cursor the one before it left,
        with every figure of the result as the pages had it. */
    method SyncPeer(peer: string, replies: seq<Reply>)
      returns (result: Tally, error: Option<SyncError>, ghost trace: seq<Relay>, ghost tallies: seq<Tally>)
      requires store.Valid() && PAGES_PER_SYNC <= |replies|
      modifies this, store
      ensures store.Valid() && result.pages <= 20 && |trace| == result.pages + 1
      ensures trace[0] == old(AsRelay()) && trace[result.pages] == AsRelay()
      ensures Pulls(trace, peer, replies) && Ends(trace, peer, replies, error)
      ensures Counts(tallies, trace, peer, replies) && tallies[result.pages] == result
    {
      result, error, trace, tallies := Tally(0, 0, 0, 0, 0), None, [AsRelay()], [Tally(0, 0, 0, 0, 0)];
      while result.pages < PAGES_PER_SYNC
        invariant store.Valid() && result.pages <= PAGES_PER_SYNC && |trace| == result.pages + 1 && error == None
        invariant trace[0] == old(AsRelay()) && trace[result.pages] == AsRelay()
        invariant Pulls(trace, peer, replies) && AllAgain(trace, peer, replies, result.pages)
        invariant Counts(tallies, trace, peer, replies) && tallies[result.pages] == result
      {
        var reply := replies[result.pages];
        if reply.Failed? {
          error := Some(FetchFailed);
          return;
        }
        var next;
        result, next := PullPage(peer, reply.page, reply.now, result);
        Extend(trace, peer, replies, AsRelay());
        CountOneMore(tallies, trace, peer, replies, AsRelay(), result);
        trace, tallies := trace + [AsRelay()], tallies + [result];
        if next == Done { return; }
        if next == Stuck {
          error := Some(Stalled);
          return;
        }
      }
    }
  }
}
