/** What a publish and a claim are answered, told from the calls. */
module PrekeyAnswers {
  import opened Common
  import opened Text
  import opened Prekey
  import opened PrekeyLimits

  // ------------------------------------------------------------------- publishing

  /** Published less than the published TTL ago. */
  predicate Unexpired(limits: Limits, e: Entry, now: nat) { now < e.publishedAt + limits.publishedTTL }

  /** The pools with anything unexpired in them. */
  ghost function LivePools(limits: Limits, s: State, now: nat): set<string> {
    (set k | k in s.queues && exists i :: 0 <= i < |s.queues[k]| && Unexpired(limits, s.queues[k][i], now))
    + (set k | k in s.lastResort && Unexpired(limits, s.lastResort[k], now))
  }

  lemma KeptSomeIff(limits: Limits, queue: seq<Entry>, now: nat)
    ensures Kept(limits, queue, now) != [] <==> exists i :: 0 <= i < |queue| && Unexpired(limits, queue[i], now)
  {
    if i :| 0 <= i < |queue| && Unexpired(limits, queue[i], now) { KeptHas(limits, queue, now, queue[i]); }
    if Kept(limits, queue, now) != [] {
      KeptAre(limits, queue, now, Kept(limits, queue, now)[0]);
    }
  }

  lemma {:induction false} KeptAre(limits: Limits, queue: seq<Entry>, now: nat, e: Entry)
    requires e in Kept(limits, queue, now)
    ensures e in queue && Unexpired(limits, e, now)
  {
    var n := |queue| - 1;
    if e in Kept(limits, queue[..n], now) { KeptAre(limits, queue[..n], now, e); }
  }

  lemma LivePoolsAre(limits: Limits, s: State, now: nat)
    ensures Buckets(Pruned(limits, s, now)) == LivePools(limits, s, now)
  {
    forall k | k in s.queues
      ensures Kept(limits, s.queues[k], now) != []
         <==> exists i :: 0 <= i < |s.queues[k]| && Unexpired(limits, s.queues[k][i], now)
    {
      KeptSomeIff(limits, s.queues[k], now);
    }
  }

  /** A publish is refused if it names no owner, or if it would open one more pool than
      the store carries. */
  lemma PublishRefusedIff(limits: Limits, s: State, owner: string, device: string, now: nat)
    ensures var pools := LivePools(limits, s, now);
            Refused(limits, s, owner, JoinNul(owner, device), now)
            <==> owner == "" || (JoinNul(owner, device) !in pools && |pools| >= limits.maxBuckets)
  {
    LivePoolsAre(limits, s, now);
  }

  /** The prekey as it is kept: its id trimmed. */
  predicate SamePrekey(raw: PrekeyEntry, e: PrekeyEntry) {
    e.opkId == Trim(raw.opkId) && e.publicKey == raw.publicKey && e.signature == raw.signature
  }

  /** Each entry a publish adds is one of the candidates, complete, and dated now. */
  lemma {:induction false} AdmittedWereOffered(queue: seq<Entry>, candidates: seq<PrekeyEntry>, most: int, now: nat,
                                               e: Entry)
    requires e in Admitted(queue, candidates, most, now)
    ensures exists i :: 0 <= i < |candidates| && SamePrekey(candidates[i], e.value)
                        && e.value.lastResort == candidates[i].lastResort
    ensures e.publishedAt == now && e.value.opkId != "" && e.value.publicKey != "" && e.value.signature != ""
    decreases |candidates|
  {
    var c := TrimId(candidates[0]);
    if e == Entry(c, now) && Usable(c) && !HasId(queue, c.opkId) && |queue| < most {
      assert SamePrekey(candidates[0], e.value);
    } else {
      var more := if !Usable(c) || HasId(queue, c.opkId) then queue else queue + [Entry(c, now)];
      AdmittedWereOffered(more, candidates[1..], most, now, e);
      var i :| 0 <= i < |candidates| - 1 && SamePrekey(candidates[1..][i], e.value)
               && e.value.lastResort == candidates[1..][i].lastResort;
      assert candidates[i + 1] == candidates[1..][i];
    }
  }

  // ----------------------------------------------------------- the last-resort key

  /** Call `j` is a publish to pool `key`, not refused, that offers a complete
      last-resort prekey. */
  ghost predicate OffersOne(limits: Limits, ops: seq<Op>, j: nat, key: string)
    requires limits.Valid()
  {
    && j < |ops| && ops[j].PublishOp? && JoinNul(ops[j].owner, ops[j].device) == key
    && !Refused(limits, Exec(limits, ops[..j]), ops[j].owner, key, ops[j].now)
    && ops[j].offered.Some? && Complete(ops[j].offered.value)
  }

  ghost predicate Offers(limits: Limits, ops: seq<Op>, j: nat, key: string)
    requires limits.Valid()
  {
    forall i {:trigger Unsealed(i)} :: Unsealed(i) ==> OffersOne(limits, ops, j, key)
  }

  lemma OffersIs(limits: Limits, ops: seq<Op>, j: nat, key: string)
    requires limits.Valid()
    ensures Offers(limits, ops, j, key) <==> OffersOne(limits, ops, j, key)
  {
    assert Unsealed(0);
  }

  predicate Complete(e: PrekeyEntry) { Trim(e.opkId) != "" && e.publicKey != "" && e.signature != "" }

  ghost predicate NoneFrom(limits: Limits, ops: seq<Op>, n: nat, key: string)
    requires limits.Valid()
  {
    forall i: nat | n <= i < |ops| :: !Offers(limits, ops, i, key)
  }

  /** And no later call is. */
  ghost predicate LatestOffer(limits: Limits, ops: seq<Op>, j: nat, key: string)
    requires limits.Valid()
  {
    j < |ops| && Offers(limits, ops, j, key) && NoneFrom(limits, ops, j + 1, key)
  }

  /** A publish without an owner looks at nothing. */
  predicate Looks(op: Op) { !op.PublishOp? || op.owner != "" }

  /** No call since has read a clock at or past the end of its time. */
  ghost predicate InTime(limits: Limits, ops: seq<Op>, j: nat)
    requires j < |ops|
  {
    forall i | j < i < |ops| && Looks(ops[i]) :: ops[i].now < ops[j].now + limits.publishedTTL
  }

  /** The entry the offer leaves: the prekey, its id trimmed, marked as reusable. */
  predicate IsOffer(op: Op, e: Entry) {
    op.PublishOp? && op.offered.Some? && SamePrekey(op.offered.value, e.value) && e.value.lastResort
      && e.publishedAt == op.now
  }

  lemma OfferPrefix(limits: Limits, ops: seq<Op>, j: nat, key: string)
    requires limits.Valid() && ops != [] && j < |ops| - 1
    ensures Offers(limits, ops, j, key) <==> Offers(limits, ops[..|ops| - 1], j, key)
  {
    assert ops[..|ops| - 1][..j] == ops[..j];
    OffersIs(limits, ops, j, key);
    OffersIs(limits, ops[..|ops| - 1], j, key);
  }

  /** The call writes the last-resort key of a pool. */
  predicate Writes(limits: Limits, s: State, op: Op, key: string) {
    && op.PublishOp? && JoinNul(op.owner, op.device) == key && op.offered.Some? && Complete(op.offered.value)
    && !Refused(limits, s, op.owner, key, op.now)
  }

  /** The table of last-resort keys after a call. */
  lemma TableAfter(limits: Limits, s: State, op: Op)
    requires limits.Valid()
    ensures Step(limits, s, op).lastResort
         == if !Looks(op) then s.lastResort
            else if op.PublishOp? && !Refused(limits, s, op.owner, JoinNul(op.owner, op.device), op.now)
            then WithLastResort(KeptLastResort(limits, s.lastResort, op.now), JoinNul(op.owner, op.device),
                                op.offered, op.now)
            else KeptLastResort(limits, s.lastResort, op.now)
  {
    match op
    case PublishOp(owner, device, entries, offered, now) =>
      assert Replenished(limits, Pruned(limits, s, now), JoinNul(owner, device), entries, offered, now).lastResort
          == WithLastResort(KeptLastResort(limits, s.lastResort, now), JoinNul(owner, device), offered, now);
    case ClaimOp(_, _) =>
    case PruneOp(_) =>
  }

  /** What one call does to the last-resort key of a pool. */
  lemma LastResortAfter(limits: Limits, s: State, op: Op, key: string)
    requires limits.Valid()
    ensures var t := Step(limits, s, op).lastResort;
            if Writes(limits, s, op, key) then key in t && IsOffer(op, t[key])
            else && (key in t <==> key in s.lastResort && (Looks(op) ==> Unexpired(limits, s.lastResort[key], op.now)))
                 && (key in t ==> t[key] == s.lastResort[key])
  {
    TableAfter(limits, s, op);
    if op.PublishOp? {
      WrittenIs(KeptLastResort(limits, s.lastResort, op.now), JoinNul(op.owner, op.device), op.offered, op.now, key);
    }
  }

  lemma WrittenIs(table: map<string, Entry>, at: string, offered: Option<PrekeyEntry>, now: nat, key: string)
    ensures var t := WithLastResort(table, at, offered, now);
            if at == key && offered.Some? && Complete(offered.value)
            then && key in t && SamePrekey(offered.value, t[key].value) && t[key].value.lastResort
                 && t[key].publishedAt == now
            else (key in t <==> key in table) && (key in t ==> t[key] == table[key])
  {
  }

  /** A pool's last-resort key is the latest offer, for as long as no call has read a
      clock past its time. */
  lemma {:induction false} LastResortIs(limits: Limits, ops: seq<Op>, j: nat, key: string)
    requires limits.Valid() && LatestOffer(limits, ops, j, key)
    ensures key in Exec(limits, ops).lastResort <==> InTime(limits, ops, j)
    ensures key in Exec(limits, ops).lastResort ==> IsOffer(ops[j], Exec(limits, ops).lastResort[key])
    decreases |ops|
  {
    var n := |ops| - 1;
    LastResortAfter(limits, Exec(limits, ops[..n]), ops[n], key);
    OffersIs(limits, ops, n, key);
    if j < n {
      assert !Offers(limits, ops, n, key);
      EarlierOffers(limits, ops, j, key);
      LastResortIs(limits, ops[..n], j, key);
      InTimeNext(limits, ops, j);
    }
  }

  lemma EarlierOffers(limits: Limits, ops: seq<Op>, j: nat, key: string)
    requires limits.Valid() && LatestOffer(limits, ops, j, key) && j < |ops| - 1
    ensures LatestOffer(limits, ops[..|ops| - 1], j, key)
  {
    OfferPrefix(limits, ops, j, key);
    NonePrefix(limits, ops, j + 1, key);
  }

  lemma NonePrefix(limits: Limits, ops: seq<Op>, n: nat, key: string)
    requires limits.Valid() && ops != [] && NoneFrom(limits, ops, n, key)
    ensures NoneFrom(limits, ops[..|ops| - 1], n, key)
  {
    var rest := ops[..|ops| - 1];
    forall i: nat | n <= i < |rest| ensures !Offers(limits, rest, i, key) { OfferPrefix(limits, ops, i, key); }
  }

  lemma InTimeNext(limits: Limits, ops: seq<Op>, j: nat)
    requires j < |ops| - 1
    ensures InTime(limits, ops, j)
       <==> InTime(limits, ops[..|ops| - 1], j)
            && (Looks(ops[|ops| - 1]) ==> ops[|ops| - 1].now < ops[j].now + limits.publishedTTL)
  {
    var rest := ops[..|ops| - 1];
    assert forall i | 0 <= i < |rest| :: rest[i] == ops[i];
  }

  /** A pool nobody offered one to has none. */
  lemma {:induction false} NoOfferNoKey(limits: Limits, ops: seq<Op>, key: string)
    requires limits.Valid() && NoneFrom(limits, ops, 0, key)
    ensures key !in Exec(limits, ops).lastResort
  {
    if ops != [] {
      var n := |ops| - 1;
      NonePrefix(limits, ops, 0, key);
      NoOfferNoKey(limits, ops[..n], key);
      LastResortAfter(limits, Exec(limits, ops[..n]), ops[n], key);
      OffersIs(limits, ops, n, key);
      assert !Offers(limits, ops, n, key);
    }
  }

  /** Some call was the last to offer, or none ever did. */
  lemma {:induction false} SomeLatest(limits: Limits, ops: seq<Op>, key: string, n: nat) returns (j: nat)
    requires limits.Valid() && n <= |ops| && NoneFrom(limits, ops, n, key)
    ensures LatestOffer(limits, ops, j, key) || NoneFrom(limits, ops, 0, key)
    decreases n
  {
    var here := n > 0 && Offers(limits, ops, n - 1, key);
    if here {
      j := n - 1;
    } else if n == 0 {
      j := 0;
    } else {
      NorHere(limits, ops, n - 1, key);
      j := SomeLatest(limits, ops, key, n - 1);
    }
  }

  lemma NorHere(limits: Limits, ops: seq<Op>, n: nat, key: string)
    requires limits.Valid() && NoneFrom(limits, ops, n + 1, key) && !Offers(limits, ops, n, key)
    ensures NoneFrom(limits, ops, n, key)
  {
  }

  /** The latest offer to the pool is still good at `now`. */
  ghost predicate Good(limits: Limits, ops: seq<Op>, j: nat, key: string, now: nat)
    requires limits.Valid()
  {
    LatestOffer(limits, ops, j, key) && InTime(limits, ops, j) && now < ops[j].now + limits.publishedTTL
  }

  /** Over every run: a claim that takes no one-time entry is served the pool's latest
      last-resort prekey, trimmed and marked, if that is still good; otherwise nothing. */
  lemma ClaimFallsBack(limits: Limits, ops: seq<Op>, key: string, now: nat)
    requires limits.Valid() && !Pops(limits, Exec(limits, ops), key, now)
    ensures var reply := ClaimReply(limits, Exec(limits, ops), key, now);
            && (reply.Some? <==> exists j: nat :: Good(limits, ops, j, key, now))
            && (forall j: nat | Good(limits, ops, j, key, now) ::
                  ops[j].PublishOp? && ops[j].offered.Some? && reply.Some?
                  && SamePrekey(ops[j].offered.value, reply.value) && reply.value.lastResort)
  {
    var s := Exec(limits, ops);
    var j := SomeLatest(limits, ops, key, |ops|);
    if LatestOffer(limits, ops, j, key) {
      LastResortIs(limits, ops, j, key);
      forall i: nat | Good(limits, ops, i, key, now) ensures i == j { OneLatest(limits, ops, i, j, key); }
      assert Good(limits, ops, j, key, now) <==> key in s.lastResort && now < ops[j].now + limits.publishedTTL;
    } else {
      NoOfferNoKey(limits, ops, key);
    }
  }

  lemma OneLatest(limits: Limits, ops: seq<Op>, i: nat, j: nat, key: string)
    requires limits.Valid() && LatestOffer(limits, ops, i, key) && LatestOffer(limits, ops, j, key)
    ensures i == j
  {
  }

  // ------------------------------------------------------------------------ claims

  /** A one-time entry is handed out only while it is good, the oldest good one first. */
  lemma PoppedIsGood(limits: Limits, s: State, key: string, now: nat)
    requires limits.Valid() && Pops(limits, s, key, now)
    ensures key in s.queues
    ensures exists i :: && 0 <= i < |s.queues[key]| && Unexpired(limits, s.queues[key][i], now)
                        && ClaimReply(limits, s, key, now) == Some(s.queues[key][i].value)
                        && forall k | 0 <= k < i :: !Unexpired(limits, s.queues[key][k], now)
  {
    var i := KeptHead(limits, s.queues[key], now);
  }

  lemma {:induction false} KeptHead(limits: Limits, queue: seq<Entry>, now: nat) returns (i: nat)
    requires Kept(limits, queue, now) != []
    ensures i < |queue| && Kept(limits, queue, now)[0] == queue[i] && Unexpired(limits, queue[i], now)
    ensures forall k | 0 <= k < i :: !Unexpired(limits, queue[k], now)
  {
    var n := |queue| - 1;
    if Kept(limits, queue[..n], now) != [] {
      i := KeptHead(limits, queue[..n], now);
    } else {
      i := n;
      KeptSomeIff(limits, queue[..n], now);
      assert forall k | 0 <= k < n :: queue[..n][k] == queue[k];
    }
  }
}
