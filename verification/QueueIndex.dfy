/** The derived structures the store keeps beside its records, each as a function
    of the records, with the effect of one insertion or one deletion on it. */
module QueueIndex {
  import opened Common
  import opened Groups
  import opened QueueModel
  import opened QueueInvariant

  ghost function LaneOf(messages: map<string, Envelope>): map<string, string> {
    map m | m in messages :: PairKey(messages[m])
  }

  /** Only envelopes that carry a purge hash are indexed. */
  ghost function HashOf(messages: map<string, Envelope>): map<string, string> {
    map m | m in messages && PurgeHash(messages[m]) != "" :: PurgeHash(messages[m])
  }

  ghost function NamedBy(acks: map<string, Ack>): map<string, string> {
    map a | a in acks :: acks[a].messageId
  }

  lemma LaneOfInsert(messages: map<string, Envelope>, e: Envelope)
    ensures LaneOf(messages[e.id := e]) == LaneOf(messages)[e.id := PairKey(e)]
  {
  }

  lemma LaneOfRemove(messages: map<string, Envelope>, id: string)
    ensures LaneOf(messages - {id}) == LaneOf(messages) - {id}
  {
  }

  lemma HashOfInsert(messages: map<string, Envelope>, e: Envelope)
    requires e.id !in messages
    ensures HashOf(messages[e.id := e])
         == if PurgeHash(e) == "" then HashOf(messages) else HashOf(messages)[e.id := PurgeHash(e)]
  {
  }

  lemma HashOfRemove(messages: map<string, Envelope>, id: string)
    ensures HashOf(messages - {id}) == HashOf(messages) - {id}
  {
  }

  lemma NamedByInsert(acks: map<string, Ack>, a: Ack)
    ensures NamedBy(acks[a.id := a]) == NamedBy(acks)[a.id := a.messageId]
  {
  }

  lemma NamedByRemove(acks: map<string, Ack>, id: string)
    ensures NamedBy(acks - {id}) == NamedBy(acks) - {id}
  {
  }

  /** indexAddLocked: an empty key is not indexed. */
  function FileUnder(index: map<string, set<string>>, key: string, id: string): map<string, set<string>> {
    if key == "" || id == "" then index else IndexAdd(index, key, id)
  }

  lemma HashIndexInsert(index: map<string, set<string>>, messages: map<string, Envelope>, e: Envelope)
    requires IsIndex(index, HashOf(messages)) && e.id !in messages && e.id != ""
    ensures IsIndex(FileUnder(index, PurgeHash(e), e.id), HashOf(messages[e.id := e]))
  {
    HashOfInsert(messages, e);
    if PurgeHash(e) != "" { IndexInsert(index, HashOf(messages), e.id, PurgeHash(e)); }
  }

  lemma HashIndexRemove(index: map<string, set<string>>, messages: map<string, Envelope>, id: string)
    requires IsIndex(index, HashOf(messages)) && id in messages
    ensures IsIndex(IndexRemove(index, PurgeHash(messages[id]), id), HashOf(messages - {id}))
  {
    HashOfRemove(messages, id);
    if PurgeHash(messages[id]) == "" {
      assert Members(HashOf(messages), "") == {};
      assert HashOf(messages) - {id} == HashOf(messages);
    } else {
      IndexDelete(index, HashOf(messages), id);
    }
  }

  lemma NameIndexInsert(index: map<string, set<string>>, acks: map<string, Ack>, a: Ack)
    requires IsIndex(index, NamedBy(acks)) && a.id !in acks && a.id != "" && a.messageId != ""
    ensures IsIndex(FileUnder(index, a.messageId, a.id), NamedBy(acks[a.id := a]))
  {
    NamedByInsert(acks, a);
    IndexInsert(index, NamedBy(acks), a.id, a.messageId);
  }

  lemma NameIndexRemove(index: map<string, set<string>>, acks: map<string, Ack>, id: string)
    requires IsIndex(index, NamedBy(acks)) && id in acks
    ensures IsIndex(IndexRemove(index, acks[id].messageId, id), NamedBy(acks - {id}))
  {
    NamedByRemove(acks, id);
    IndexDelete(index, NamedBy(acks), id);
  }

  // ------------------------------------------------------- the tag bindings

  datatype Binding = Binding(tag: string, records: nat)

  /** How many stored records name a message id: its envelope and its acks. */
  ghost function RefCount(messages: map<string, Envelope>, acks: map<string, Ack>, id: string): nat {
    (if id in messages then 1 else 0) + |Members(NamedBy(acks), id)|
  }

  function Refs(bindings: map<string, Binding>, id: string): nat {
    if id in bindings then bindings[id].records else 0
  }

  ghost predicate RefsExact(bindings: map<string, Binding>, messages: map<string, Envelope>, acks: map<string, Ack>) {
    && (forall id {:trigger bindings[id]} | id in bindings :: bindings[id].records > 0)
    && (forall id {:trigger RefCount(messages, acks, id)} :: Refs(bindings, id) == RefCount(messages, acks, id))
  }

  function TagsOf(bindings: map<string, Binding>): map<string, string> {
    map id | id in bindings :: bindings[id].tag
  }

  /** bindMessageTagLocked. */
  function BindRef(bindings: map<string, Binding>, id: string, tag: string): map<string, Binding> {
    if id == "" then bindings
    else
      var b := if id in bindings then bindings[id] else Binding("", 0);
      bindings[id := Binding(if b.tag == "" then tag else b.tag, b.records + 1)]
  }

  /** releaseMessageTagLocked. */
  function ReleaseRef(bindings: map<string, Binding>, id: string): map<string, Binding> {
    if id !in bindings then bindings
    else if bindings[id].records <= 1 then bindings - {id}
    else bindings[id := bindings[id].(records := bindings[id].records - 1)]
  }

  lemma BindRefTags(bindings: map<string, Binding>, id: string, tag: string)
    ensures TagsOf(BindRef(bindings, id, tag)) == Bind(TagsOf(bindings), id, tag)
  {
  }

  /** An id is named exactly when its reference count is positive. */
  lemma NamedIffCounted(messages: map<string, Envelope>, acks: map<string, Ack>, id: string)
    ensures Named(messages, acks, id) <==> RefCount(messages, acks, id) > 0
  {
    var naming := Members(NamedBy(acks), id);
    assert forall a :: a in naming <==> a in acks && acks[a].messageId == id;
    if id !in messages && naming != {} {
      var a :| a in naming;
      assert acks[a].messageId == id;
    }
  }

  lemma CountAfterMessage(messages: map<string, Envelope>, acks: map<string, Ack>, e: Envelope, id: string)
    requires e.id !in messages
    ensures RefCount(messages[e.id := e], acks, id) == RefCount(messages, acks, id) + if id == e.id then 1 else 0
  {
  }

  lemma CountAfterAck(messages: map<string, Envelope>, acks: map<string, Ack>, a: Ack, id: string)
    requires a.id !in acks
    ensures RefCount(messages, acks[a.id := a], id) == RefCount(messages, acks, id) + if id == a.messageId then 1 else 0
  {
    NamedByInsert(acks, a);
    MembersAfterInsert(NamedBy(acks), a.id, a.messageId, id);
  }

  lemma CountWithoutMessage(messages: map<string, Envelope>, acks: map<string, Ack>, m: string, id: string)
    requires m in messages
    ensures RefCount(messages - {m}, acks, id) == RefCount(messages, acks, id) - if id == m then 1 else 0
  {
  }

  lemma CountWithoutAck(messages: map<string, Envelope>, acks: map<string, Ack>, a: string, id: string)
    requires a in acks
    ensures RefCount(messages, acks - {a}, id)
         == RefCount(messages, acks, id) - if id == acks[a].messageId then 1 else 0
  {
    NamedByRemove(acks, a);
    MembersAfterRemove(NamedBy(acks), a, id);
  }

  /** Binding one more record of `id` keeps the counts exact. */
  lemma BindKeepsRefs(bindings: map<string, Binding>, messages: map<string, Envelope>, acks: map<string, Ack>,
                      messages': map<string, Envelope>, acks': map<string, Ack>, id: string, tag: string)
    requires RefsExact(bindings, messages, acks) && id != ""
    requires forall q {:trigger RefCount(messages', acks', q)} ::
               RefCount(messages', acks', q) == RefCount(messages, acks, q) + if q == id then 1 else 0
    ensures RefsExact(BindRef(bindings, id, tag), messages', acks')
  {
  }

  /** Releasing one record of `id` keeps the counts exact, and the binding goes
      with the last record. */
  lemma ReleaseKeepsRefs(bindings: map<string, Binding>, messages: map<string, Envelope>, acks: map<string, Ack>,
                         messages': map<string, Envelope>, acks': map<string, Ack>, id: string)
    requires RefsExact(bindings, messages, acks) && Named(messages, acks, id)
    requires forall q {:trigger RefCount(messages', acks', q)} ::
               RefCount(messages', acks', q) == RefCount(messages, acks, q) - if q == id then 1 else 0
    ensures RefsExact(ReleaseRef(bindings, id), messages', acks')
    ensures forall q :: q in ReleaseRef(bindings, id) <==> q in bindings && Named(messages', acks', q)
  {
    NamedIffCounted(messages, acks, id);
    forall q
      ensures q in ReleaseRef(bindings, id) <==> q in bindings && Named(messages', acks', q)
    {
      NamedIffCounted(messages', acks', q);
      NamedIffCounted(messages, acks, q);
    }
  }

  // ------------------------------------------------ all of it, move by move

  /** The derived structures together. */
  datatype Books = Books(pairCounts: map<string, nat>, credentialCounts: map<nat, nat>,
                         bindings: map<string, Binding>,
                         byPurge: map<string, set<string>>, byMessage: map<string, set<string>>)

  /** Every derived structure equals its definition over the records. */
  ghost predicate InStep(b: Books, messages: map<string, Envelope>, acks: map<string, Ack>, charged: map<string, nat>) {
    && IsCount(b.pairCounts, LaneOf(messages))
    && IsCount(b.credentialCounts, charged)
    && RefsExact(b.bindings, messages, acks)
    && IsIndex(b.byPurge, HashOf(messages))
    && IsIndex(b.byMessage, NamedBy(acks))
  }

  function BooksWithMessage(b: Books, e: Envelope, credential: nat): Books {
    b.(pairCounts := Increment(b.pairCounts, PairKey(e)),
       credentialCounts := if credential != 0 then Increment(b.credentialCounts, credential) else b.credentialCounts,
       bindings := BindRef(b.bindings, e.id, e.recipientTag),
       byPurge := FileUnder(b.byPurge, PurgeHash(e), e.id))
  }

  lemma BindMessage(bindings: map<string, Binding>, messages: map<string, Envelope>, acks: map<string, Ack>,
                    e: Envelope)
    requires RefsExact(bindings, messages, acks) && e.id !in messages && e.id != ""
    ensures RefsExact(BindRef(bindings, e.id, e.recipientTag), messages[e.id := e], acks)
  {
    forall q
      ensures RefCount(messages[e.id := e], acks, q) == RefCount(messages, acks, q) + if q == e.id then 1 else 0
    {
      CountAfterMessage(messages, acks, e, q);
    }
    BindKeepsRefs(bindings, messages, acks, messages[e.id := e], acks, e.id, e.recipientTag);
  }

  lemma MessageKeepsInStep(b: Books, s: State, e: Envelope, credential: nat)
    requires InStep(b, s.messages, s.acks, s.charged)
    requires e.id !in s.messages && e.id !in s.charged && e.id != ""
    ensures var t := InsertMessage(s, e, credential);
            InStep(BooksWithMessage(b, e, credential), t.messages, t.acks, t.charged)
  {
    LaneOfInsert(s.messages, e);
    CountInsert(b.pairCounts, LaneOf(s.messages), e.id, PairKey(e));
    CountInsert(b.credentialCounts, s.charged, e.id, credential);
    HashIndexInsert(b.byPurge, s.messages, e);
    BindMessage(b.bindings, s.messages, s.acks, e);
  }

  function BooksWithAck(b: Books, a: Ack): Books {
    b.(bindings := BindRef(b.bindings, a.messageId, a.recipientTag),
       byMessage := FileUnder(b.byMessage, a.messageId, a.id))
  }

  lemma BindAck(bindings: map<string, Binding>, messages: map<string, Envelope>, acks: map<string, Ack>, a: Ack)
    requires RefsExact(bindings, messages, acks) && a.id !in acks && a.messageId != ""
    ensures RefsExact(BindRef(bindings, a.messageId, a.recipientTag), messages, acks[a.id := a])
  {
    forall q
      ensures RefCount(messages, acks[a.id := a], q) == RefCount(messages, acks, q) + if q == a.messageId then 1 else 0
    {
      CountAfterAck(messages, acks, a, q);
    }
    BindKeepsRefs(bindings, messages, acks, messages, acks[a.id := a], a.messageId, a.recipientTag);
  }

  lemma AckKeepsInStep(b: Books, s: State, a: Ack)
    requires InStep(b, s.messages, s.acks, s.charged)
    requires a.id !in s.acks && a.id != "" && a.messageId != ""
    ensures var t := InsertAck(s, a); InStep(BooksWithAck(b, a), t.messages, t.acks, t.charged)
  {
    NameIndexInsert(b.byMessage, s.acks, a);
    BindAck(b.bindings, s.messages, s.acks, a);
  }

  function BooksWithoutMessage(b: Books, e: Envelope, charged: map<string, nat>): Books {
    b.(pairCounts := Decrement(b.pairCounts, PairKey(e)),
       credentialCounts := if e.id in charged then Decrement(b.credentialCounts, charged[e.id]) else b.credentialCounts,
       bindings := ReleaseRef(b.bindings, e.id),
       byPurge := IndexRemove(b.byPurge, PurgeHash(e), e.id))
  }

  lemma ReleaseMessage(bindings: map<string, Binding>, messages: map<string, Envelope>, acks: map<string, Ack>,
                       id: string)
    requires RefsExact(bindings, messages, acks) && id in messages
    ensures RefsExact(ReleaseRef(bindings, id), messages - {id}, acks)
    ensures forall q :: q in ReleaseRef(bindings, id) <==> q in bindings && Named(messages - {id}, acks, q)
  {
    forall q
      ensures RefCount(messages - {id}, acks, q) == RefCount(messages, acks, q) - if q == id then 1 else 0
    {
      CountWithoutMessage(messages, acks, id, q);
    }
    ReleaseKeepsRefs(bindings, messages, acks, messages - {id}, acks, id);
  }

  lemma MessageLeavesInStep(b: Books, s: State, id: string)
    requires InStep(b, s.messages, s.acks, s.charged)
    requires id in s.messages && s.messages[id].id == id
    ensures InStep(BooksWithoutMessage(b, s.messages[id], s.charged), s.messages - {id}, s.acks, s.charged - {id})
  {
    LaneOfRemove(s.messages, id);
    CountRemove(b.pairCounts, LaneOf(s.messages), id);
    if id in s.charged { CountRemove(b.credentialCounts, s.charged, id); } else { MinusAbsent(s.charged, {id}); }
    HashIndexRemove(b.byPurge, s.messages, id);
    ReleaseMessage(b.bindings, s.messages, s.acks, id);
  }

  function BooksWithoutAck(b: Books, a: Ack): Books {
    b.(bindings := ReleaseRef(b.bindings, a.messageId),
       byMessage := IndexRemove(b.byMessage, a.messageId, a.id))
  }

  lemma ReleaseAck(bindings: map<string, Binding>, messages: map<string, Envelope>, acks: map<string, Ack>, id: string)
    requires RefsExact(bindings, messages, acks) && id in acks
    ensures RefsExact(ReleaseRef(bindings, acks[id].messageId), messages, acks - {id})
    ensures forall q ::
              q in ReleaseRef(bindings, acks[id].messageId) <==> q in bindings && Named(messages, acks - {id}, q)
  {
    forall q
      ensures RefCount(messages, acks - {id}, q)
           == RefCount(messages, acks, q) - if q == acks[id].messageId then 1 else 0
    {
      CountWithoutAck(messages, acks, id, q);
    }
    assert acks[id].messageId == acks[id].messageId;
    ReleaseKeepsRefs(bindings, messages, acks, messages, acks - {id}, acks[id].messageId);
  }

  lemma AckLeavesInStep(b: Books, s: State, id: string)
    requires InStep(b, s.messages, s.acks, s.charged)
    requires id in s.acks && s.acks[id].id == id
    ensures InStep(BooksWithoutAck(b, s.acks[id]), s.messages, s.acks - {id}, s.charged)
  {
    NameIndexRemove(b.byMessage, s.acks, id);
    ReleaseAck(b.bindings, s.messages, s.acks, id);
  }

  /** The tags left after a release are those of the ids still named. */
  lemma ReleaseTags(bindings: map<string, Binding>, id: string, messages: map<string, Envelope>, acks: map<string, Ack>)
    requires forall q :: q in ReleaseRef(bindings, id) <==> q in bindings && Named(messages, acks, q)
    ensures TagsOf(ReleaseRef(bindings, id))
         == map q | q in TagsOf(bindings) && Named(messages, acks, q) :: TagsOf(bindings)[q]
  {
  }

  /** The records are sound and the books are in step with them.  Most proofs only
      pass this along. */
  ghost predicate Whole(b: Books, s: State) {
    forall i {:trigger Unsealed(i)} :: Unsealed(i) ==>
      && Sound(s) && InStep(b, s.messages, s.acks, s.charged) && s.tags == TagsOf(b.bindings)
      && OwnHash(s.purges)
  }

  /** Every tombstone is filed under its own hash. */
  ghost predicate OwnHash(purges: map<string, Purge>) {
    forall h | h in purges :: purges[h].hash == h
  }

  lemma Open(b: Books, s: State)
    requires Whole(b, s)
    ensures Sound(s) && InStep(b, s.messages, s.acks, s.charged) && s.tags == TagsOf(b.bindings)
    ensures OwnHash(s.purges)
  {
    assert Unsealed(0);
  }

  lemma OwnIds(b: Books, s: State)
    requires Whole(b, s)
    ensures forall m | m in s.messages :: s.messages[m].id == m
    ensures forall a | a in s.acks :: s.acks[a].id == a
  {
    Open(b, s);
  }

  /** What reading a page relies on. */
  lemma SoundParts(b: Books, s: State)
    requires Whole(b, s)
    ensures s.messageSeq.Keys == s.messages.Keys && s.ackSeq.Keys == s.acks.Keys
    ensures Numbered(s.seqNo, s.messageSeq, s.ackSeq) && OwnHash(s.purges)
  {
    Open(b, s);
  }

  lemma DropMissing(b: Books, s: State, ms: set<string>, as_: set<string>)
    requires Whole(b, s)
    requires forall m | m in ms :: m !in s.messages
    requires forall a | a in as_ :: a !in s.acks
    ensures Drop(s, ms, as_) == s
  {
    Open(b, s);
    DropAbsent(s, ms, as_);
  }

  lemma WholeWithPurges(b: Books, s: State, purges: map<string, Purge>)
    requires Whole(b, s) && OwnHash(purges)
    ensures Whole(b, s.(purges := purges))
  {
    Open(b, s);
  }

  lemma WholeWithMessage(b: Books, s: State, e: Envelope, credential: nat)
    requires Whole(b, s) && e.id !in s.messages && e.id != "" && 0 < e.expiresAt
    ensures Whole(BooksWithMessage(b, e, credential), InsertMessage(s, e, credential))
  {
    Open(b, s);
    InsertMessageKeepsSound(s, e, credential);
    MessageKeepsInStep(b, s, e, credential);
    BindRefTags(b.bindings, e.id, e.recipientTag);
  }

  lemma WholeWithAck(b: Books, s: State, a: Ack)
    requires Whole(b, s)
    requires a.id !in s.acks && a.id != "" && a.messageId != "" && 0 < a.expiresAt && ValidAckType(a.kind)
    ensures Whole(BooksWithAck(b, a), InsertAck(s, a))
  {
    Open(b, s);
    InsertAckKeepsSound(s, a);
    AckKeepsInStep(b, s, a);
    BindRefTags(b.bindings, a.messageId, a.recipientTag);
  }

  lemma WholeWithoutMessage(b: Books, s: State, id: string)
    requires Whole(b, s) && id in s.messages
    ensures Whole(BooksWithoutMessage(b, s.messages[id], s.charged), Drop(s, {id}, {}))
  {
    Open(b, s);
    DropKeepsSound(s, {id}, {});
    MessageLeavesInStep(b, s, id);
    ReleaseMessage(b.bindings, s.messages, s.acks, id);
    ReleaseTags(b.bindings, id, s.messages - {id}, s.acks);
    MinusNothing(s.acks);
  }

  lemma WholeWithoutAck(b: Books, s: State, id: string)
    requires Whole(b, s) && id in s.acks
    ensures Whole(BooksWithoutAck(b, s.acks[id]), Drop(s, {}, {id}))
  {
    Open(b, s);
    DropKeepsSound(s, {}, {id});
    AckLeavesInStep(b, s, id);
    ReleaseAck(b.bindings, s.messages, s.acks, id);
    ReleaseTags(b.bindings, s.acks[id].messageId, s.messages, s.acks - {id});
    MinusNothing(s.messages);
    MinusNothing(s.charged);
  }

  lemma MinusNothing<V>(m: map<string, V>)
    ensures m - {} == m
  {
  }
}
