/** One run of the puller from a fresh cursor takes everything a quiet peer has, as
    long as that is at most twenty pages of five hundred. */
module SyncDrain {
  import opened Sizes
  import opened Common
  import opened QueueModel
  import opened QueuePaging
  import opened Mesh
  import opened Syncer

  /** What is still to be served after `since`. */
  ghost function Waiting(s: State, since: nat): set<Ref> {
    (set id | id in s.messageSeq && since < s.messageSeq[id] :: MessageRef(id))
    + (set id | id in s.ackSeq && since < s.ackSeq[id] :: AckRef(id))
  }

  lemma WaitingIsPending(s: State, since: nat, r: Ref)
    ensures r in Waiting(s, since) <==> Pending(s, since, r)
  {
  }

  /** The peer took nothing in between the two moments; it may have dropped some. */
  ghost predicate NothingAdded(s: State, t: State) {
    forall r {:trigger Stored(t, r)} :: Stored(t, r) ==> Stored(s, r) && SeqOf(s, r) == SeqOf(t, r)
  }

  /** `peers[i]` is the peer when it served page `i`, which carried `refs[i]` and was
      asked with cursor `at[i]`: the epoch stays and nothing new arrives. */
  ghost predicate Quiet(at: seq<Cursor>, pages: seq<Page>, epoch: string, peers: seq<State>, refs: seq<seq<Ref>>) {
    && |at| == |pages| + 1 == |peers| + 1 == |refs| + 1
    && (forall i {:trigger pages[i]} | 0 <= i < |pages| ::
         Serves(peers[i], epoch, at[i].seqNo, PAGE_SIZE, refs[i], pages[i]))
    && (forall i {:trigger peers[i + 1]} | 0 <= i < |pages| - 1 :: NothingAdded(peers[i], peers[i + 1]))
  }

  /** Where a page leaves the cursor. */
  function Moved(at: Cursor, page: Page): Cursor {
    if SetsCursor(at, page) then NextCursor(at, page) else at
  }

  ghost predicate Chained(at: seq<Cursor>, pages: seq<Page>) {
    && |at| == |pages| + 1 && at[0] == NO_CURSOR
    && forall i {:trigger at[i + 1]} | 0 <= i < |pages| :: at[i + 1] == Moved(at[i], pages[i])
  }

  // ---------------------------------------------------------------- counting

  lemma SetOfDistinct(s: State, refs: seq<Ref>)
    requires InArrivalOrder(s, refs)
    ensures |set r | r in refs| == |refs|
  {
    if refs != [] {
      var n := |refs| - 1;
      SetOfDistinct(s, refs[..n]);
      assert (set r | r in refs) == (set r | r in refs[..n]) + {refs[n]};
      assert refs[n] !in refs[..n];
    }
  }

  lemma BothFit(a: set<Ref>, b: set<Ref>, whole: set<Ref>)
    requires a !! b && a <= whole && b <= whole
    ensures |a| + |b| <= |whole|
  {
    SubsetSize(a + b, whole);
  }

  lemma ServedWereWaiting(s: State, since: nat, refs: seq<Ref>)
    requires forall r | r in refs :: Pending(s, since, r)
    ensures (set r | r in refs) <= Waiting(s, since)
  {
    forall r | r in refs
      ensures r in Waiting(s, since)
    {
      WaitingIsPending(s, since, r);
    }
  }

  lemma PageShrinksWaiting(s: State, t: State, epoch: string, since: nat, refs: seq<Ref>, page: Page)
    requires Serves(s, epoch, since, PAGE_SIZE, refs, page) && NothingAdded(s, t)
    ensures |Waiting(t, page.nextSeq)| + |refs| <= |Waiting(s, since)|
  {
    var served, left := (set r | r in refs), Waiting(t, page.nextSeq);
    SetOfDistinct(s, refs);
    ServedWereWaiting(s, since, refs);
    forall r | r in left
      ensures r in Waiting(s, since) && r !in served
    {
      StillWaiting(s, t, epoch, since, refs, page, r);
    }
    BothFit(left, served, Waiting(s, since));
  }

  lemma StillWaiting(s: State, t: State, epoch: string, since: nat, refs: seq<Ref>, page: Page, r: Ref)
    requires Serves(s, epoch, since, PAGE_SIZE, refs, page) && NothingAdded(s, t) && r in Waiting(t, page.nextSeq)
    ensures r in Waiting(s, since) && r !in refs
  {
    WaitingIsPending(t, page.nextSeq, r);
    assert Stored(t, r);
    PageIsAnInterval(s, epoch, since, PAGE_SIZE, refs, page, r);
    WaitingIsPending(s, since, r);
  }

  /** A page that reports more is full and leaves something behind. */
  lemma MoreMeansOverfull(s: State, epoch: string, since: nat, refs: seq<Ref>, page: Page)
    requires Serves(s, epoch, since, PAGE_SIZE, refs, page) && page.more
    ensures PAGE_SIZE < |Waiting(s, since)|
    ensures since < page.nextSeq
  {
    SetOfDistinct(s, refs);
    ServedWereWaiting(s, since, refs);
    var left :| Pending(s, since, left) && left !in refs;
    WaitingIsPending(s, since, left);
    BothFit((set r | r in refs), {left}, Waiting(s, since));
    assert refs[|refs| - 1] in refs;
  }

  // ----------------------------------------------------------------- the run

  lemma MarkAdvances(s: State, epoch: string, since: nat, refs: seq<Ref>, page: Page)
    requires Serves(s, epoch, since, PAGE_SIZE, refs, page)
    ensures since <= page.nextSeq && page.epoch == epoch
  {
    if refs != [] { assert refs[|refs| - 1] in refs; }
  }

  /** Against a quiet peer no page looks like a restart, and the cursor follows the
      pages' marks. */
  lemma {:induction false} CursorFollows(at: seq<Cursor>, pages: seq<Page>, epoch: string,
                                         peers: seq<State>, refs: seq<seq<Ref>>, i: nat)
    requires Chained(at, pages) && Quiet(at, pages, epoch, peers, refs) && epoch != "" && i < |pages|
    ensures !Restarted(at[i], pages[i]) && at[i + 1] == Cursor(epoch, pages[i].nextSeq)
  {
    MarkAdvances(peers[i], epoch, at[i].seqNo, refs[i], pages[i]);
    if i > 0 { CursorFollows(at, pages, epoch, peers, refs, i - 1); }
  }

  /** Every full page takes five hundred off what is waiting. */
  lemma {:induction false} WaitingAt(at: seq<Cursor>, pages: seq<Page>, epoch: string,
                                     peers: seq<State>, refs: seq<seq<Ref>>, i: nat)
    requires Chained(at, pages) && Quiet(at, pages, epoch, peers, refs) && epoch != "" && i < |pages|
    requires forall j | 0 <= j < i :: pages[j].more
    ensures |Waiting(peers[i], at[i].seqNo)| + PAGE_SIZE * i <= |Waiting(peers[0], 0)|
  {
    if i > 0 {
      WaitingAt(at, pages, epoch, peers, refs, i - 1);
      CursorFollows(at, pages, epoch, peers, refs, i - 1);
      assert NothingAdded(peers[i - 1], peers[i - 1 + 1]);
      PageShrinksWaiting(peers[i - 1], peers[i], epoch, at[i - 1].seqNo, refs[i - 1], pages[i - 1]);
    }
  }

  /** Each record at or below page `i`'s mark was on some page up to `i`. */
  lemma {:induction false} ServedSoFar(at: seq<Cursor>, pages: seq<Page>, epoch: string,
                                       peers: seq<State>, refs: seq<seq<Ref>>, i: nat, r: Ref) returns (j: nat)
    requires Chained(at, pages) && Quiet(at, pages, epoch, peers, refs) && epoch != "" && i < |pages|
    requires Stored(peers[i], r) && 0 < SeqOf(peers[i], r) <= pages[i].nextSeq
    ensures j <= i && r in refs[j]
  {
    if at[i].seqNo < SeqOf(peers[i], r) {
      PageIsAnInterval(peers[i], epoch, at[i].seqNo, PAGE_SIZE, refs[i], pages[i], r);
      j := i;
    } else {
      CursorFollows(at, pages, epoch, peers, refs, i - 1);
      assert NothingAdded(peers[i - 1], peers[i - 1 + 1]);
      j := ServedSoFar(at, pages, epoch, peers, refs, i - 1, r);
    }
  }

  /** A quiet peer never stalls the puller: it goes on exactly while there is more. */
  lemma QuietNext(at: seq<Cursor>, pages: seq<Page>, epoch: string, peers: seq<State>, refs: seq<seq<Ref>>, i: nat)
    requires Chained(at, pages) && Quiet(at, pages, epoch, peers, refs) && epoch != "" && i < |pages|
    ensures NextAfter(at[i], pages[i]) == if pages[i].more then Again else Done
  {
    CursorFollows(at, pages, epoch, peers, refs, i);
    if pages[i].more { MoreMeansOverfull(peers[i], epoch, at[i].seqNo, refs[i], pages[i]); }
  }

  lemma LastPageHasNoMore(at: seq<Cursor>, pages: seq<Page>, epoch: string, peers: seq<State>, refs: seq<seq<Ref>>)
    requires Chained(at, pages) && Quiet(at, pages, epoch, peers, refs) && epoch != "" && |pages| == PAGES_PER_SYNC
    requires |Waiting(peers[0], 0)| <= 10_000
    requires forall j | 0 <= j < |pages| - 1 :: pages[j].more
    ensures !pages[PAGES_PER_SYNC - 1].more
  {
    var last := PAGES_PER_SYNC - 1;
    WaitingAt(at, pages, epoch, peers, refs, last);
    if pages[last].more { MoreMeansOverfull(peers[last], epoch, at[last].seqNo, refs[last], pages[last]); }
  }

  /** A final page with nothing more to come covers everything. */
  lemma AllServed(at: seq<Cursor>, pages: seq<Page>, epoch: string, peers: seq<State>, refs: seq<seq<Ref>>, r: Ref)
    returns (j: nat)
    requires Chained(at, pages) && Quiet(at, pages, epoch, peers, refs) && epoch != ""
    requires pages != [] && !pages[|pages| - 1].more && Pending(peers[|pages| - 1], 0, r)
    ensures j < |pages| && r in refs[j]
  {
    var i := |pages| - 1;
    assert Serves(peers[i], epoch, at[i].seqNo, PAGE_SIZE, refs[i], pages[i]);
    if r in refs[i] { j := i; } else { j := ServedSoFar(at, pages, epoch, peers, refs, i, r); }
  }

  // ---------------------------------------------------- the same, of SyncPeer

  ghost function CursorsOf(trace: seq<Relay>, peer: string): seq<Cursor> {
    seq(|trace|, i requires 0 <= i < |trace| => trace[i].CursorFor(peer))
  }

  /** `pages` are what the first requests came back with. */
  ghost predicate AreServed(pages: seq<Page>, replies: seq<Reply>) {
    |pages| <= |replies| && forall i {:trigger replies[i]} | 0 <= i < |pages| ::
      replies[i].Served? && replies[i].page == pages[i]
  }

  ghost predicate OnSomePage(refs: seq<seq<Ref>>, r: Ref) {
    exists j :: 0 <= j < |refs| && r in refs[j]
  }

  lemma CursorAfterPage(before: Relay, peer: string, reply: Reply, after: Relay)
    requires Follows(before, peer, reply, after)
    ensures after.CursorFor(peer) == Moved(before.CursorFor(peer), reply.page)
  {
    Followed(before, peer, reply, after);
  }

  lemma TraceChained(trace: seq<Relay>, peer: string, replies: seq<Reply>, pages: seq<Page>)
    requires Pulls(trace, peer, replies) && trace[0].CursorFor(peer) == NO_CURSOR
    requires AreServed(pages, replies) && |pages| == |trace| - 1
    ensures Chained(CursorsOf(trace, peer), pages)
  {
    var at := CursorsOf(trace, peer);
    forall i {:trigger at[i + 1]} | 0 <= i < |pages|
      ensures at[i + 1] == Moved(at[i], pages[i])
    {
      CursorAfterPage(trace[i], peer, replies[i], trace[i + 1]);
    }
  }

  /** One SyncPeer from a fresh cursor, no request failing, against a peer that takes
      nothing in meanwhile and holds at most twenty pages' worth: the run ends
      without error on a page that leaves nothing behind, and every record the peer
      still holds was on one of the pages. */
  lemma FreshSyncDrains(trace: seq<Relay>, peer: string, replies: seq<Reply>, error: Option<SyncError>,
                        pages: seq<Page>, epoch: string, peers: seq<State>, refs: seq<seq<Ref>>)
    requires 0 < |trace| <= PAGES_PER_SYNC + 1 && PAGES_PER_SYNC <= |replies|
    requires Pulls(trace, peer, replies) && Ends(trace, peer, replies, error) && error != Some(FetchFailed)
    requires trace[0].CursorFor(peer) == NO_CURSOR && epoch != ""
    requires AreServed(pages, replies) && |pages| == |trace| - 1
             && Quiet(CursorsOf(trace, peer), pages, epoch, peers, refs)
    requires peers != [] ==> |Waiting(peers[0], 0)| <= 10_000
    ensures error == None && pages != [] && !pages[|pages| - 1].more
    ensures forall r | r in Waiting(peers[|pages| - 1], 0) :: OnSomePage(refs, r)
  {
    TraceChained(trace, peer, replies, pages);
    var at := CursorsOf(trace, peer);
    RunGoesOn(trace, peer, replies, pages, epoch, peers, refs);
    RunFinishes(trace, peer, replies, error, pages, epoch, peers, refs);
    WaitingWereServed(at, pages, epoch, peers, refs);
  }

  /** A page of a quiet peer makes the run go on or end contentedly, never stall. */
  lemma GoesByMore(trace: seq<Relay>, peer: string, replies: seq<Reply>, pages: seq<Page>, epoch: string,
                   peers: seq<State>, refs: seq<seq<Ref>>, i: nat)
    requires AreServed(pages, replies) && |pages| == |trace| - 1 && epoch != "" && i < |pages|
    requires Chained(CursorsOf(trace, peer), pages) && Quiet(CursorsOf(trace, peer), pages, epoch, peers, refs)
    ensures Goes(trace, peer, replies, i, if pages[i].more then Again else Done)
  {
    QuietNext(CursorsOf(trace, peer), pages, epoch, peers, refs, i);
    assert CursorsOf(trace, peer)[i] == trace[i].CursorFor(peer);
    assert replies[i].Served? && replies[i].page == pages[i];
  }

  lemma RunGoesOn(trace: seq<Relay>, peer: string, replies: seq<Reply>, pages: seq<Page>, epoch: string,
                  peers: seq<State>, refs: seq<seq<Ref>>)
    requires AreServed(pages, replies) && |pages| == |trace| - 1 && epoch != ""
    requires Chained(CursorsOf(trace, peer), pages) && Quiet(CursorsOf(trace, peer), pages, epoch, peers, refs)
    requires AllAgain(trace, peer, replies, |pages| - 1)
    ensures forall j | 0 <= j < |pages| - 1 :: pages[j].more
  {
    forall j | 0 <= j < |pages| - 1
      ensures pages[j].more
    {
      GoesByMore(trace, peer, replies, pages, epoch, peers, refs, j);
      assert Goes(trace, peer, replies, j, Again);
    }
  }

  lemma RunFinishes(trace: seq<Relay>, peer: string, replies: seq<Reply>, error: Option<SyncError>,
                    pages: seq<Page>, epoch: string, peers: seq<State>, refs: seq<seq<Ref>>)
    requires 0 < |trace| <= PAGES_PER_SYNC + 1 && PAGES_PER_SYNC <= |replies|
    requires Ends(trace, peer, replies, error) && error != Some(FetchFailed) && epoch != ""
    requires AreServed(pages, replies) && |pages| == |trace| - 1
    requires Chained(CursorsOf(trace, peer), pages) && Quiet(CursorsOf(trace, peer), pages, epoch, peers, refs)
    requires peers != [] ==> |Waiting(peers[0], 0)| <= 10_000
    requires forall j | 0 <= j < |pages| - 1 :: pages[j].more
    ensures error == None && pages != [] && !pages[|pages| - 1].more
  {
    var n := |pages|;
    assert n > 0;
    GoesByMore(trace, peer, replies, pages, epoch, peers, refs, n - 1);
    if n == PAGES_PER_SYNC { LastPageHasNoMore(CursorsOf(trace, peer), pages, epoch, peers, refs); }
  }

  lemma WaitingWereServed(at: seq<Cursor>, pages: seq<Page>, epoch: string, peers: seq<State>, refs: seq<seq<Ref>>)
    requires Chained(at, pages) && Quiet(at, pages, epoch, peers, refs) && epoch != ""
    requires pages != [] && !pages[|pages| - 1].more
    ensures forall r | r in Waiting(peers[|pages| - 1], 0) :: OnSomePage(refs, r)
  {
    forall r | r in Waiting(peers[|pages| - 1], 0)
      ensures OnSomePage(refs, r)
    {
      WaitingIsPending(peers[|pages| - 1], 0, r);
      var j := AllServed(at, pages, epoch, peers, refs, r);
    }
  }
}
