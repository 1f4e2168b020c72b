/** A pull that passes over a record for want of room. */
module MeshFullTable {
  import opened Common
  import opened Text
  import opened QueueModel
  import opened QueueRequest
  import opened QueuePaging
  import opened QueueArrivals
  import opened QueueQuotas
  import opened Mesh
  import opened MeshOutcome

  const ONE_MESSAGE := Config(1, 3, 1, 9, 9, 10, 10)

  /** A peer with two messages, and the page it serves of them. */
  ghost function TwoLetters(): State { InsertMessage(InsertMessage(EMPTY, Letter("a"), 0), Letter("b"), 0) }

  const PAGE := Page("p", 2, false, [Letter("a"), Letter("b")], [], [])
  const REFS := [MessageRef("a"), MessageRef("b")]

  lemma PageIsServed()
    ensures Serves(TwoLetters(), "p", 0, PAGE_SIZE, REFS, PAGE)
  {
    var s := TwoLetters();
    assert s.messageSeq == map["a" := 1, "b" := 2] && s.ackSeq == map[];
    assert REFS[..1] == [MessageRef("a")] && [MessageRef("a")][..0] == [];
    assert MessagesOn(s, [MessageRef("a")]) == [Letter("a")];
    assert MessagesOn(s, REFS) == [Letter("a"), Letter("b")] && AcksOn(s, REFS) == [];
    assert MessageRef("a") == REFS[0] && MessageRef("b") == REFS[1];
  }

  lemma LetterTrimmed(id: string)
    requires IsName(id)
    ensures TrimImported(Letter(id)) == Letter(id)
  {
    NameEnds("s");
    NameEnds("r");
    NameEnds("p");
  }

  lemma PageTrimmed()
    ensures TrimPage(PAGE) == PAGE
  {
    NameEnds("a");
    NameEnds("b");
    LetterTrimmed("a");
    LetterTrimmed("b");
    assert TrimPage(PAGE).messages == PAGE.messages;
  }

  lemma SecondRefused()
    ensures ImportPage(ONE_MESSAGE, EMPTY, PAGE, 1) == InsertMessage(EMPTY, Letter("a"), 0)
    ensures NoRoomFor(ONE_MESSAGE, EMPTY, PAGE, 1, 1)
  {
    var a, b, t := Letter("a"), Letter("b"), InsertMessage(EMPTY, Letter("a"), 0);
    assert Utf8Len("p") == 1;
    assert PrepareEnvelope(ONE_MESSAGE, a, 0, 1) == a && PrepareEnvelope(ONE_MESSAGE, b, 0, 1) == b;
    assert PAGE.messages[..1] == [a] && [a][..0] == [];
    assert ImportMessage(ONE_MESSAGE, EMPTY, a, 1) == t;
    assert ImportMessages(ONE_MESSAGE, EMPTY, [a], 1) == t;
    assert |t.messages| == 1;
    assert ImportMessageError(ONE_MESSAGE, t, b, 1) == Some(QueueFull);
  }

  ghost function Puller(): Relay { Relay(ONE_MESSAGE, EMPTY, "q", map[]) }

  /** A first pull imports its page and moves the cursor to the page's mark. */
  lemma FirstPull(r: Relay, peer: string, page: Page, now: nat, t: State)
    requires TrimPage(page) == page && ImportPage(r.cfg, r.store, page, now) == t
    ensures var after := Absorb(r, peer, NO_CURSOR, page, now);
            after.CursorFor(peer) == Cursor(page.epoch, page.nextSeq) && after.store == t
  {
  }

  lemma PullerAfter()
    ensures var r := Absorb(Puller(), "peer", NO_CURSOR, PAGE, 1);
            r.CursorFor("peer") == Cursor("p", 2) && r.store == InsertMessage(EMPTY, Letter("a"), 0)
  {
    PageTrimmed();
    SecondRefused();
    FirstPull(Puller(), "peer", PAGE, 1, InsertMessage(EMPTY, Letter("a"), 0));
  }

  lemma PeerHolds()
    ensures Holds(TwoLetters(), Entry(2, MessageRef("b")))
  {
  }

  /** A full table is the one cause that is the puller's own: the cursor passes a
      record the peer still holds and this relay never stored. */
  lemma FullTablePassesOver()
    ensures ONE_MESSAGE.Valid() && Serves(TwoLetters(), "p", 0, PAGE_SIZE, REFS, PAGE)
    ensures Absorb(Puller(), "peer", NO_CURSOR, PAGE, 1).CursorFor("peer") == Cursor("p", 2)
    ensures "b" !in Absorb(Puller(), "peer", NO_CURSOR, PAGE, 1).store.messages
    ensures Holds(TwoLetters(), Entry(2, MessageRef("b"))) && NoRoomFor(ONE_MESSAGE, EMPTY, TrimPage(PAGE), 1, 1)
  {
    PageIsServed();
    PullerAfter();
    PeerHolds();
    PageTrimmed();
    SecondRefused();
  }
}
