/** What a page of the queue is: the oldest arrivals after a cursor. */
module QueuePaging {
  import opened Common
  import opened QueueModel
  import opened QueueInvariant
  import opened Sorting

  /** The record is stored. */
  predicate Stored(s: State, r: Ref) {
    match r
    case MessageRef(id) => id in s.messageSeq
    case AckRef(id) => id in s.ackSeq
  }

  /** The arrival number of a stored record. */
  function SeqOf(s: State, r: Ref): nat
    requires Stored(s, r)
  {
    match r
    case MessageRef(id) => s.messageSeq[id]
    case AckRef(id) => s.ackSeq[id]
  }

  predicate Pending(s: State, since: nat, r: Ref) {
    Stored(s, r) && since < SeqOf(s, r)
  }

  /** Records in strictly increasing order of arrival. */
  ghost predicate InArrivalOrder(s: State, refs: seq<Ref>) {
    && (forall i | 0 <= i < |refs| :: Stored(s, refs[i]))
    && (forall i, j | 0 <= i < j < |refs| :: SeqOf(s, refs[i]) < SeqOf(s, refs[j]))
  }

  function MessagesOn(s: State, refs: seq<Ref>): seq<Envelope> {
    if refs == [] then []
    else
      var rest, r := MessagesOn(s, refs[..|refs| - 1]), refs[|refs| - 1];
      if r.MessageRef? && r.id in s.messages then rest + [s.messages[r.id]] else rest
  }

  function AcksOn(s: State, refs: seq<Ref>): seq<Ack> {
    if refs == [] then []
    else
      var rest, r := AcksOn(s, refs[..|refs| - 1]), refs[|refs| - 1];
      if r.AckRef? && r.id in s.acks then rest + [s.acks[r.id]] else rest
  }

  /** The tombstones, once each, in no particular order. */
  ghost predicate ListsPurges(ps: seq<Purge>, purges: map<string, Purge>) {
    && (forall p | p in ps :: p.hash in purges && purges[p.hash] == p)
    && (forall h | h in purges :: purges[h] in ps)
    && |ps| == |purges|
  }

  /** `page` carries exactly the records `refs`: the pending ones up to the page's
      own mark, at most `limit` of them, with `more` set exactly when some pending
      record was left behind. */
  ghost predicate Serves(s: State, epoch: string, since: nat, limit: nat, refs: seq<Ref>, page: Page) {
    && InArrivalOrder(s, refs) && |refs| <= limit
    && (forall r | r in refs :: Pending(s, since, r))
    && page.nextSeq == (if refs == [] then since else SeqOf(s, refs[|refs| - 1]))
    && (forall r :: Pending(s, since, r) ==> r in refs || page.nextSeq < SeqOf(s, r))
    && (page.more <==> exists r :: Pending(s, since, r) && r !in refs)
    && (page.more ==> |refs| == limit)
    && page.epoch == epoch
    && page.messages == MessagesOn(s, refs) && page.acks == AcksOn(s, refs)
    && ListsPurges(page.purges, s.purges)
  }

  /** The records on a page are exactly those that arrived after the cursor and no
      later than the page's mark. */
  lemma PageIsAnInterval(s: State, epoch: string, since: nat, limit: nat, refs: seq<Ref>, page: Page, r: Ref)
    requires Serves(s, epoch, since, limit, refs, page) && Stored(s, r)
    ensures r in refs <==> since < SeqOf(s, r) <= page.nextSeq
    ensures since <= page.nextSeq
  {
  }

  // --------------------------------------------------------- building a page

  /** A record waiting to be served, under its arrival number. */
  datatype Entry = Entry(no: nat, ref: Ref)

  ghost predicate Collected(s: State, since: nat, entries: set<Entry>) {
    forall e :: e in entries <==> Pending(s, since, e.ref) && e.no == SeqOf(s, e.ref)
  }

  ghost function MessageEntries(messageSeq: map<string, nat>, since: nat): set<Entry> {
    set id | id in messageSeq && since < messageSeq[id] :: Entry(messageSeq[id], MessageRef(id))
  }

  method CollectMessages(messageSeq: map<string, nat>, since: nat) returns (xs: seq<Entry>)
    ensures multiset(xs) == multiset(MessageEntries(messageSeq, since))
  {
    var rest := messageSeq.Keys;
    ghost var all: set<Entry> := {};
    xs := [];
    while rest != {}
      invariant rest <= messageSeq.Keys && multiset(xs) == multiset(all)
      invariant forall e :: e in all <==>
                  e.ref.MessageRef? && e.ref.id in messageSeq - rest && messageSeq[e.ref.id] == e.no && since < e.no
    {
      var id :| id in rest;
      rest := rest - {id};
      if since < messageSeq[id] {
        var e := Entry(messageSeq[id], MessageRef(id));
        xs, all := xs + [e], all + {e};
      }
    }
    assert all == MessageEntries(messageSeq, since);
  }

  ghost function AckEntries(ackSeq: map<string, nat>, since: nat): set<Entry> {
    set id | id in ackSeq && since < ackSeq[id] :: Entry(ackSeq[id], AckRef(id))
  }

  method CollectAcks(ackSeq: map<string, nat>, since: nat) returns (xs: seq<Entry>)
    ensures multiset(xs) == multiset(AckEntries(ackSeq, since))
  {
    var rest := ackSeq.Keys;
    ghost var all: set<Entry> := {};
    xs := [];
    while rest != {}
      invariant rest <= ackSeq.Keys && multiset(xs) == multiset(all)
      invariant forall e :: e in all <==>
                  e.ref.AckRef? && e.ref.id in ackSeq - rest && ackSeq[e.ref.id] == e.no && since < e.no
    {
      var id :| id in rest;
      rest := rest - {id};
      if since < ackSeq[id] {
        var e := Entry(ackSeq[id], AckRef(id));
        xs, all := xs + [e], all + {e};
      }
    }
    assert all == AckEntries(ackSeq, since);
  }

  lemma NoRepeats<T>(xs: seq<T>, all: set<T>, i: nat, j: nat)
    requires multiset(xs) == multiset(all) && i < j < |xs|
    ensures xs[i] != xs[j]
  {
    assert xs == xs[..j] + xs[j..];
    assert xs[i] in xs[..j] && xs[j] in xs[j..];
    assert multiset(xs)[xs[j]] <= 1;
  }

  /** Two stored records never share an arrival number. */
  lemma SeqOfInjective(s: State, a: Ref, b: Ref)
    requires Numbered(s.seqNo, s.messageSeq, s.ackSeq) && Stored(s, a) && Stored(s, b)
    requires SeqOf(s, a) == SeqOf(s, b)
    ensures a == b
  {
    var owner :| Owners(s.messageSeq, s.ackSeq, owner);
    assert owner[SeqOf(s, a)] == a && owner[SeqOf(s, b)] == b;
  }

  function RefsOf(xs: seq<Entry>): (refs: seq<Ref>)
    ensures |refs| == |xs| && forall i | 0 <= i < |xs| :: refs[i] == xs[i].ref
  {
    seq(|xs|, i requires 0 <= i < |xs| => xs[i].ref)
  }

  lemma StrictOrder(s: State, since: nat, xs: seq<Entry>, all: set<Entry>)
    requires Numbered(s.seqNo, s.messageSeq, s.ackSeq) && Collected(s, since, all)
    requires multiset(xs) == multiset(all) && SortedBy(xs, (e: Entry) => e.no)
    ensures InArrivalOrder(s, RefsOf(xs))
    ensures forall i | 0 <= i < |xs| :: Pending(s, since, xs[i].ref) && xs[i].no == SeqOf(s, xs[i].ref)
    ensures forall r | Pending(s, since, r) :: r in RefsOf(xs)
  {
    var key := (e: Entry) => e.no;
    forall i | 0 <= i < |xs|
      ensures Pending(s, since, xs[i].ref) && xs[i].no == SeqOf(s, xs[i].ref)
    {
      assert xs[i] in multiset(xs);
    }
    forall i, j | 0 <= i < j < |xs|
      ensures SeqOf(s, xs[i].ref) < SeqOf(s, xs[j].ref)
    {
      assert key(xs[i]) <= key(xs[j]);
      NoRepeats(xs, all, i, j);
      if xs[i].no == xs[j].no {
        SeqOfInjective(s, xs[i].ref, xs[j].ref);
      }
    }
    forall r | Pending(s, since, r)
      ensures r in RefsOf(xs)
    {
      var e := Entry(SeqOf(s, r), r);
      assert e in multiset(all);
      assert e in multiset(xs);
      var i :| 0 <= i < |xs| && xs[i] == e;
      assert RefsOf(xs)[i] == r;
    }
  }

  /** Cutting the ordered list at `n` yields a page. */
  lemma CutServes(s: State, epoch: string, since: nat, limit: nat, refs: seq<Ref>, n: nat, page: Page)
    requires InArrivalOrder(s, refs) && n == (if |refs| > limit then limit else |refs|) && 0 < limit
    requires forall r :: r in refs <==> Pending(s, since, r)
    requires page.nextSeq == (if n == 0 then since else SeqOf(s, refs[n - 1]))
    requires page.more == (|refs| > limit) && page.epoch == epoch
    requires page.messages == MessagesOn(s, refs[..n]) && page.acks == AcksOn(s, refs[..n])
    requires ListsPurges(page.purges, s.purges)
    ensures Serves(s, epoch, since, limit, refs[..n], page)
  {
    forall r | Pending(s, since, r)
      ensures r in refs[..n] || page.nextSeq < SeqOf(s, r)
    {
      var i :| 0 <= i < |refs| && refs[i] == r;
      if i < n { assert refs[..n][i] == r; }
    }
    if |refs| > limit {
      var r := refs[n];
      assert r in refs;
      forall i | 0 <= i < n ensures refs[i] != r { assert SeqOf(s, refs[i]) < SeqOf(s, r); }
    }
  }

  ghost function PendingEntries(s: State, since: nat): (all: set<Entry>)
    ensures Collected(s, since, all)
  {
    MessageEntries(s.messageSeq, since) + AckEntries(s.ackSeq, since)
  }

  method CollectPending(messageSeq: map<string, nat>, ackSeq: map<string, nat>, since: nat, ghost s: State)
    returns (xs: seq<Entry>)
    requires s.messageSeq == messageSeq && s.ackSeq == ackSeq
    ensures multiset(xs) == multiset(PendingEntries(s, since))
  {
    var ms := CollectMessages(messageSeq, since);
    var as_ := CollectAcks(ackSeq, since);
    xs := ms + as_;
    Apart(MessageEntries(messageSeq, since), AckEntries(ackSeq, since));
  }

  lemma Apart(a: set<Entry>, b: set<Entry>)
    requires (forall e | e in a :: e.ref.MessageRef?) && (forall e | e in b :: e.ref.AckRef?)
    ensures multiset(a + b) == multiset(a) + multiset(b)
  {
  }

  /** The pending records by arrival, with their numbers. */
  method OrderPending(messageSeq: map<string, nat>, ackSeq: map<string, nat>, since: nat, ghost s: State)
    returns (refs: seq<Ref>, nos: seq<nat>)
    requires s.messageSeq == messageSeq && s.ackSeq == ackSeq && Numbered(s.seqNo, messageSeq, ackSeq)
    ensures InArrivalOrder(s, refs) && forall r :: r in refs <==> Pending(s, since, r)
    ensures |nos| == |refs| && forall i | 0 <= i < |refs| :: nos[i] == SeqOf(s, refs[i])
  {
    var pending := CollectPending(messageSeq, ackSeq, since, s);
    pending := Sort(pending, (e: Entry) => e.no);
    StrictOrder(s, since, pending, PendingEntries(s, since));
    refs := RefsOf(pending);
    nos := seq(|pending|, i requires 0 <= i < |pending| => pending[i].no);
  }

  /** Copy out the records the references stand for, in order. */
  method ReadOut(messages: map<string, Envelope>, acks: map<string, Ack>, refs: seq<Ref>, ghost s: State)
    returns (es: seq<Envelope>, as_: seq<Ack>)
    requires s.messages == messages && s.acks == acks
    requires s.messageSeq.Keys == messages.Keys && s.ackSeq.Keys == acks.Keys
    requires forall r | r in refs :: Stored(s, r)
    ensures es == MessagesOn(s, refs) && as_ == AcksOn(s, refs)
  {
    es, as_ := [], [];
    for i := 0 to |refs|
      invariant es == MessagesOn(s, refs[..i]) && as_ == AcksOn(s, refs[..i])
    {
      assert refs[..i + 1][..i] == refs[..i];
      assert refs[i] in refs;
      match refs[i]
      case MessageRef(id) => es := es + [messages[id]];
      case AckRef(id) => as_ := as_ + [acks[id]];
    }
    assert refs[..|refs|] == refs;
  }

  method ListPurges(purges: map<string, Purge>) returns (ps: seq<Purge>)
    requires forall h | h in purges :: purges[h].hash == h
    ensures ListsPurges(ps, purges)
  {
    var rest, done := purges.Keys, {};
    ps := [];
    while rest != {}
      invariant done + rest == purges.Keys && done !! rest && |ps| == |done|
      invariant forall p | p in ps :: p.hash in done && purges[p.hash] == p
      invariant forall h | h in done :: purges[h] in ps
    {
      var h :| h in rest;
      rest, done := rest - {h}, done + {h};
      ps := ps + [purges[h]];
    }
    assert done == purges.Keys;
  }

  // ----------------------------------------------------------------- fetches

  /** `found` reads the records in `all` oldest first: some ordering by the key, cut
      at the limit. */
  ghost predicate OldestFirst<T(!new)>(found: seq<T>, all: set<T>, key: T -> int, limit: nat) {
    exists ordered :: SortedBy(ordered, key) && multiset(ordered) == multiset(all)
                   && found == ordered[..Min(limit, |ordered|)]
  }

  /** The queued envelopes a fetch may see. */
  ghost predicate Readable(s: State, recipient: string, auth: Auth, e: Envelope) {
    e.id in s.messages && s.messages[e.id] == e && e.recipient == recipient && auth.Permits(e.recipientTag)
  }

  ghost predicate ReadableAck(s: State, sender: string, auth: Auth, a: Ack) {
    a.id in s.acks && s.acks[a.id] == a && a.sender == sender && auth.Permits(a.senderTag)
  }

  ghost function ReadableSet(s: State, recipient: string, auth: Auth): set<Envelope> {
    set m | m in s.messages && Readable(s, recipient, auth, s.messages[m]) :: s.messages[m]
  }

  ghost function ReadableAckSet(s: State, sender: string, auth: Auth): set<Ack> {
    set a | a in s.acks && ReadableAck(s, sender, auth, s.acks[a]) :: s.acks[a]
  }

  lemma AllReadable(s: State, now: nat, recipient: string, auth: Auth, all: set<Envelope>)
    requires forall e :: e in all <==> now < e.expiresAt && Readable(s, recipient, auth, e)
    requires forall m | m in s.messages :: s.messages[m].id == m
    ensures all == ReadableSet(SweepMessages(s, now), recipient, auth)
  {
    var t := SweepMessages(s, now);
    forall e | e in all
      ensures e in ReadableSet(t, recipient, auth)
    {
      assert t.messages[e.id] == e;
    }
  }

  lemma AllReadableAcks(s: State, now: nat, sender: string, auth: Auth, all: set<Ack>)
    requires forall a :: a in all <==> now < a.expiresAt && ReadableAck(s, sender, auth, a)
    requires forall a | a in s.acks :: s.acks[a].id == a
    ensures all == ReadableAckSet(SweepAcks(s, now), sender, auth)
  {
    var t := SweepAcks(s, now);
    forall a | a in all
      ensures a in ReadableAckSet(t, sender, auth)
    {
      assert t.acks[a.id] == a;
    }
  }
}
