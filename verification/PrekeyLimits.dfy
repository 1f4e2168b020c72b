/** How much the prekey store holds, and how fast a pool can be drained. */
module PrekeyLimits {
  import opened Sizes
  import opened Common
  import opened Text
  import opened Prekey

  // ---------------------------------------------------------------- admission

  ghost predicate UniqueIds(queue: seq<Entry>) {
    forall i, j | 0 <= i < j < |queue| :: queue[i].value.opkId != queue[j].value.opkId
  }

  /** What a publish appends: ids stay distinct, the cap holds, and if there is room
      left then every usable candidate's id is now in the queue. */
  lemma {:induction false} AdmittedIs(queue: seq<Entry>, candidates: seq<PrekeyEntry>, most: int, now: nat)
    requires UniqueIds(queue) && |queue| <= most
    ensures var all := queue + Admitted(queue, candidates, most, now);
            && UniqueIds(all) && |all| <= most
            && (|all| < most ==> forall c | c in candidates && Usable(TrimId(c)) :: HasId(all, TrimId(c).opkId))
    decreases |candidates|
  {
    var all := queue + Admitted(queue, candidates, most, now);
    if candidates == [] {
      assert all == queue;
    } else {
      var c := TrimId(candidates[0]);
      assert candidates == [candidates[0]] + candidates[1..];
      if !Usable(c) || HasId(queue, c.opkId) {
        AdmittedIs(queue, candidates[1..], most, now);
        if HasId(queue, c.opkId) { HasIdGrows(queue, Admitted(queue, candidates, most, now), c.opkId); }
      } else if |queue| >= most {
        assert all == queue;
      } else {
        var more := queue + [Entry(c, now)];
        assert more[|queue|].value.opkId == c.opkId;
        AdmittedIs(more, candidates[1..], most, now);
        assert all == more + Admitted(more, candidates[1..], most, now);
        HasIdGrows(more, Admitted(more, candidates[1..], most, now), c.opkId);
      }
    }
  }

  lemma HasIdGrows(queue: seq<Entry>, more: seq<Entry>, id: string)
    requires HasId(queue, id)
    ensures HasId(queue + more, id)
  {
    var i :| 0 <= i < |queue| && queue[i].value.opkId == id;
    assert (queue + more)[i].value.opkId == id;
  }

  // --------------------------------------------------------------------- caps

  /** No pool is empty, none is over its cap, no id twice in one pool. */
  ghost predicate QueuesOk(limits: Limits, queues: map<string, seq<Entry>>) {
    forall k | k in queues :: 0 < |queues[k]| <= limits.maxPerRecipient && UniqueIds(queues[k])
  }

  ghost predicate TokensOk(limits: Limits, tokens: map<string, Bucket>) {
    forall k | k in tokens :: 0.0 <= tokens[k].tokens <= limits.claimBurst as real
  }

  ghost predicate Bounded(limits: Limits, s: State) {
    && QueuesOk(limits, s.queues) && TokensOk(limits, s.tokens)
    && |Buckets(s)| <= limits.maxBuckets && |s.tokens| <= limits.maxBuckets
  }

  lemma {:induction false} KeptIs(limits: Limits, queue: seq<Entry>, now: nat)
    requires UniqueIds(queue)
    ensures var kept := Kept(limits, queue, now);
            |kept| <= |queue| && UniqueIds(kept) && forall e | e in kept :: e in queue
  {
    if queue != [] {
      var n := |queue| - 1;
      KeptIs(limits, queue[..n], now);
      assert queue == queue[..n] + [queue[n]];
      var rest := Kept(limits, queue[..n], now);
      forall i | 0 <= i < |rest|
        ensures rest[i].value.opkId != queue[n].value.opkId
      {
        assert rest[i] in queue[..n];
        var j :| 0 <= j < n && queue[j] == rest[i];
      }
    }
  }

  lemma KeptQueuesOk(limits: Limits, queues: map<string, seq<Entry>>, now: nat)
    requires QueuesOk(limits, queues)
    ensures QueuesOk(limits, KeptQueues(limits, queues, now))
  {
    forall k | k in KeptQueues(limits, queues, now)
      ensures 0 < |KeptQueues(limits, queues, now)[k]| <= limits.maxPerRecipient
              && UniqueIds(KeptQueues(limits, queues, now)[k])
    {
      KeptIs(limits, queues[k], now);
    }
  }

  /** After a prune only live pools have limiter state. */
  lemma PrunedOk(limits: Limits, s: State, now: nat)
    requires limits.Valid() && Bounded(limits, s)
    ensures Bounded(limits, Pruned(limits, s, now))
            && Pruned(limits, s, now).tokens.Keys <= Buckets(Pruned(limits, s, now))
  {
    KeptQueuesOk(limits, s.queues, now);
    PrunedSmaller(limits, s, now);
  }

  lemma PrunedSmaller(limits: Limits, s: State, now: nat)
    ensures var p := Pruned(limits, s, now); |Buckets(p)| <= |Buckets(s)| && |p.tokens| <= |s.tokens|
  {
    var p := Pruned(limits, s, now);
    SubsetSize(Buckets(p), Buckets(s));
    SubmapSize(p.tokens, s.tokens);
  }

  lemma RoomForOne(a: set<string>, b: set<string>, key: string, most: int)
    requires a <= b + {key} && |b| <= most && (key in b || |b| < most)
    ensures |a| <= most
  {
    PlusOneSize(a, b, key);
  }

  /** A replenished pool is the only new one there can be. */
  lemma ReplenishedBuckets(limits: Limits, p: State, key: string, op: Op)
    requires op.PublishOp?
    ensures Buckets(Replenished(limits, p, key, op.entries, op.offered, op.now)) <= Buckets(p) + {key}
  {
  }

  lemma ReplenishedQueuesOk(limits: Limits, p: State, key: string, op: Op)
    requires limits.Valid() && op.PublishOp? && QueuesOk(limits, p.queues)
    ensures QueuesOk(limits, Replenished(limits, p, key, op.entries, op.offered, op.now).queues)
  {
    AdmittedIs(QueueOf(p.queues, key), op.entries, limits.maxPerRecipient, op.now);
  }

  lemma PublishOk(limits: Limits, s: State, op: Op)
    requires limits.Valid() && Bounded(limits, s) && op.PublishOp? && op.owner != ""
    ensures Bounded(limits, Step(limits, s, op))
  {
    PrunedOk(limits, s, op.now);
    var key, p := JoinNul(op.owner, op.device), Pruned(limits, s, op.now);
    if !Refused(limits, s, op.owner, key, op.now) {
      ReplenishedQueuesOk(limits, p, key, op);
      ReplenishedBuckets(limits, p, key, op);
      var t := Replenished(limits, p, key, op.entries, op.offered, op.now);
      RoomForOne(Buckets(t), Buckets(p), key, limits.maxBuckets);
    }
  }

  lemma RefilledOk(limits: Limits, tokens: map<string, Bucket>, key: string, now: nat)
    requires limits.Valid() && TokensOk(limits, tokens)
    ensures 0.0 <= Refilled(limits, tokens, key, now).tokens <= limits.claimBurst as real
    ensures TokensOk(limits, TokensAfter(limits, tokens, key, now))
  {
  }

  /** Where a claim may leave pools and limiter state: only where there is a pool. */
  lemma ClaimedBuckets(limits: Limits, s: State, op: Op)
    requires limits.Valid() && op.ClaimOp?
    ensures var p, t := Pruned(limits, s, op.now), Step(limits, s, op);
            Buckets(t) <= Buckets(p) && t.tokens.Keys <= p.tokens.Keys + Buckets(p)
  {
  }

  lemma ClaimedContentsOk(limits: Limits, s: State, op: Op)
    requires limits.Valid() && op.ClaimOp?
    requires var p := Pruned(limits, s, op.now); QueuesOk(limits, p.queues) && TokensOk(limits, p.tokens)
    ensures QueuesOk(limits, Step(limits, s, op).queues) && TokensOk(limits, Step(limits, s, op).tokens)
  {
    RefilledOk(limits, Pruned(limits, s, op.now).tokens, op.key, op.now);
  }

  lemma ClaimOk(limits: Limits, s: State, op: Op)
    requires limits.Valid() && Bounded(limits, s) && op.ClaimOp?
    ensures Bounded(limits, Step(limits, s, op))
  {
    PrunedOk(limits, s, op.now);
    ClaimedContentsOk(limits, s, op);
    ClaimedBuckets(limits, s, op);
    var p, t := Pruned(limits, s, op.now), Step(limits, s, op);
    SubsetSize(t.tokens.Keys, Buckets(p));
    SubsetSize(Buckets(t), Buckets(p));
  }

  /** Over every run: pools, queues and limiter states all stay under their caps. */
  lemma {:induction false} AlwaysBounded(limits: Limits, ops: seq<Op>)
    requires limits.Valid()
    ensures Bounded(limits, Exec(limits, ops))
  {
    if ops != [] {
      var n := |ops| - 1;
      AlwaysBounded(limits, ops[..n]);
      var s := Exec(limits, ops[..n]);
      if ops[n].PublishOp? {
        if ops[n].owner != "" { PublishOk(limits, s, ops[n]); }
      }
      else if ops[n].ClaimOp? { ClaimOk(limits, s, ops[n]); }
      else { PrunedOk(limits, s, ops[n].now); }
    }
  }

  // ------------------------------------------------------------------ claim rate

  /** The pruning this call starts with finds nothing left in pool `key`, and drops
      its limiter state with it. */
  predicate LimiterDropped(limits: Limits, s: State, op: Op, key: string) {
    key in s.tokens && !(op.PublishOp? && op.owner == "") && key !in Buckets(Pruned(limits, s, op.now))
  }

  /** This call pops from pool `key`. */
  predicate PopsFrom(limits: Limits, s: State, op: Op, key: string)
    requires limits.Valid()
  {
    op.ClaimOp? && op.key == key && Pops(limits, s, key, op.now)
  }

  function PopAt(limits: Limits, ops: seq<Op>, key: string, k: nat): nat
    requires limits.Valid() && k < |ops|
  {
    if PopsFrom(limits, Exec(limits, ops[..k]), ops[k], key) then 1 else 0
  }

  /** Pops from `key` during the calls numbered `lo` up to `hi`. */
  function PopCount(limits: Limits, ops: seq<Op>, key: string, lo: nat, hi: nat): nat
    requires limits.Valid() && lo <= hi <= |ops|
    decreases hi
  {
    if lo == hi then 0 else PopCount(limits, ops, key, lo, hi - 1) + PopAt(limits, ops, key, hi - 1)
  }

  /** What one limiter state can pay for between two instants: a full bucket and
      what accrues. */
  function Allowance(limits: Limits, start: int, end: int): real
    requires limits.Valid()
  {
    limits.claimBurst as real + Accrued(limits, start, end)
  }

  /** `each` once for every limiter state the calls `lo` up to `hi` have dropped. */
  function Settled(limits: Limits, ops: seq<Op>, key: string, lo: nat, hi: nat, each: real): real
    requires limits.Valid() && lo <= hi <= |ops|
    decreases hi
  {
    if lo == hi then 0.0
    else Settled(limits, ops, key, lo, hi - 1, each) + SettledAt(limits, ops, key, hi - 1, each)
  }

  function SettledAt(limits: Limits, ops: seq<Op>, key: string, k: nat, each: real): real
    requires limits.Valid() && k < |ops|
  {
    if LimiterDropped(limits, Exec(limits, ops[..k]), ops[k], key) then each else 0.0
  }

  /** Pops beyond those earlier limiter states answer for are covered by the
      allowance up to the bucket's last refill, less the tokens it still has. */
  ghost predicate Covered(limits: Limits, tokens: map<string, Bucket>, key: string, excess: real, start: int, end: int)
    requires limits.Valid()
  {
    excess <= 0.0
    || (key in tokens && start <= tokens[key].lastRefill
        && excess + tokens[key].tokens <= Allowance(limits, start, Min(tokens[key].lastRefill, end)))
  }

  lemma AccruesOnward(limits: Limits, a: int, b: int, c: int)
    requires limits.Valid() && a <= b <= c
    ensures 0.0 <= Accrued(limits, a, b) <= Accrued(limits, a, c)
    ensures Accrued(limits, a, b) + Accrued(limits, b, c) == Accrued(limits, a, c)
  {
    var r := limits.claimRefill as real;
    var x, y := (b - a) as real, (c - b) as real;
    assert x / r + y / r == (x + y) / r;
    assert 0.0 <= x / r && 0.0 <= y / r;
  }

  /** Spending in the window keeps the account. */
  lemma SpendCovered(limits: Limits, tokens: map<string, Bucket>, key: string, now: nat, excess: real, start: int,
                     end: int)
    requires limits.Valid() && TokensOk(limits, tokens) && start <= now <= end
    requires Covered(limits, tokens, key, excess, start, end)
    ensures Covered(limits, TokensAfter(limits, tokens, key, now), key,
                    excess + if Allowed(limits, tokens, key, now) then 1.0 else 0.0, start, end)
  {
    var full := Refilled(limits, tokens, key, now);
    RefilledOk(limits, tokens, key, now);
    AccruesOnward(limits, start, Max(start, Min(full.lastRefill, end)), end);
    if excess > 0.0 && full.lastRefill != tokens[key].lastRefill {
      AccruesOnward(limits, start, tokens[key].lastRefill, now);
    }
  }

  /** Only a claim on a pool that has entries touches its limiter state. */
  lemma LimiterAfter(limits: Limits, s: State, op: Op, key: string)
    requires limits.Valid()
    ensures var p, t := Pruned(limits, s, op.now), Step(limits, s, op);
            if op.PublishOp? && op.owner == "" then t.tokens == s.tokens
            else if op.ClaimOp? && op.key == key && key in p.queues
            then key in t.tokens && t.tokens[key] == TokensAfter(limits, p.tokens, key, op.now)[key]
                 && (PopsFrom(limits, s, op, key) <==> Allowed(limits, p.tokens, key, op.now))
            else !PopsFrom(limits, s, op, key) && (key in t.tokens <==> key in p.tokens)
                 && (key in t.tokens ==> t.tokens[key] == p.tokens[key])
  {
  }

  /** One call: what it drops is settled, what it pops is paid for. */
  lemma StepCovered(limits: Limits, s: State, op: Op, key: string, excess: real, start: int, end: int)
    requires limits.Valid() && TokensOk(limits, s.tokens) && start <= end
    requires op.ClaimOp? && op.key == key ==> start <= op.now <= end
    requires Covered(limits, s.tokens, key, excess, start, end)
    ensures Covered(limits, Step(limits, s, op).tokens, key,
                    excess + (if PopsFrom(limits, s, op, key) then 1.0 else 0.0)
                    - (if LimiterDropped(limits, s, op, key) then Allowance(limits, start, end) else 0.0), start, end)
  {
    LimiterAfter(limits, s, op, key);
    var p := Pruned(limits, s, op.now);
    if LimiterDropped(limits, s, op, key) && excess > 0.0 {
      AccruesOnward(limits, start, Min(s.tokens[key].lastRefill, end), end);
    } else if op.ClaimOp? && op.key == key && key in p.queues {
      SpendCovered(limits, p.tokens, key, op.now, excess, start, end);
    }
  }

  /** Every claim on `key` among those calls reads a clock between the two instants. */
  ghost predicate ClaimedWithin(ops: seq<Op>, key: string, lo: nat, hi: nat, start: int, end: int)
    requires lo <= hi <= |ops|
  {
    forall k | lo <= k < hi && ops[k].ClaimOp? && ops[k].key == key :: start <= ops[k].now <= end
  }

  /** Pops that no dropped limiter state answers for. */
  function Excess(limits: Limits, ops: seq<Op>, key: string, lo: nat, hi: nat, start: int, end: int): real
    requires limits.Valid() && lo <= hi <= |ops|
  {
    PopCount(limits, ops, key, lo, hi) as real - Settled(limits, ops, key, lo, hi, Allowance(limits, start, end))
  }

  /** The account at one call, as a whole. */
  ghost predicate InAccount(limits: Limits, ops: seq<Op>, key: string, lo: nat, hi: nat, start: int, end: int)
    requires limits.Valid() && lo <= hi <= |ops|
  {
    Covered(limits, Exec(limits, ops[..hi]).tokens, key,
            Excess(limits, ops, key, lo, hi, start, end), start, end)
  }

  lemma CallInAccount(limits: Limits, ops: seq<Op>, key: string, lo: nat, k: nat, start: int, end: int)
    requires limits.Valid() && lo <= k < |ops| && start <= end && ClaimedWithin(ops, key, lo, k + 1, start, end)
    requires InAccount(limits, ops, key, lo, k, start, end)
    ensures InAccount(limits, ops, key, lo, k + 1, start, end)
  {
    AlwaysBounded(limits, ops[..k]);
    assert ops[..k + 1][..k] == ops[..k];
    StepCovered(limits, Exec(limits, ops[..k]), ops[k], key, Excess(limits, ops, key, lo, k, start, end), start, end);
  }

  lemma {:induction false} WindowInAccount(limits: Limits, ops: seq<Op>, key: string, lo: nat, hi: nat, start: int,
                                           end: int)
    requires limits.Valid() && lo <= hi <= |ops| && start <= end && ClaimedWithin(ops, key, lo, hi, start, end)
    ensures InAccount(limits, ops, key, lo, hi, start, end)
    decreases hi
  {
    if lo < hi {
      WindowInAccount(limits, ops, key, lo, hi - 1, start, end);
      CallInAccount(limits, ops, key, lo, hi - 1, start, end);
    }
  }

  /** An account never exceeds one allowance. */
  lemma CoveredWithin(limits: Limits, tokens: map<string, Bucket>, key: string, excess: real, start: int, end: int)
    requires limits.Valid() && TokensOk(limits, tokens) && start <= end
             && Covered(limits, tokens, key, excess, start, end)
    ensures excess <= Allowance(limits, start, end)
  {
    AccruesOnward(limits, start, end, end);
    if excess > 0.0 { AccruesOnward(limits, start, Min(tokens[key].lastRefill, end), end); }
  }

  /** Over any stretch of any run: if the claims on a pool fall between two instants,
      it loses at most the burst and one entry per refill interval between them, for
      each limiter state it had then. */
  lemma PopsBounded(limits: Limits, ops: seq<Op>, key: string, lo: nat, hi: nat, start: int, end: int)
    requires limits.Valid() && lo <= hi <= |ops| && start <= end && ClaimedWithin(ops, key, lo, hi, start, end)
    ensures var each := Allowance(limits, start, end);
            PopCount(limits, ops, key, lo, hi) as real <= each + Settled(limits, ops, key, lo, hi, each)
  {
    WindowInAccount(limits, ops, key, lo, hi, start, end);
    AlwaysBounded(limits, ops[..hi]);
    var excess := Excess(limits, ops, key, lo, hi, start, end);
    CoveredWithin(limits, Exec(limits, ops[..hi]).tokens, key, excess, start, end);
  }

  lemma {:induction false} NothingSettled(limits: Limits, ops: seq<Op>, key: string, lo: nat, hi: nat, each: real)
    requires limits.Valid() && lo <= hi <= |ops|
    requires forall k | lo <= k < hi :: !LimiterDropped(limits, Exec(limits, ops[..k]), ops[k], key)
    ensures Settled(limits, ops, key, lo, hi, each) == 0.0
    decreases hi
  {
    if lo < hi { NothingSettled(limits, ops, key, lo, hi - 1, each); }
  }

  /** So while the limiter state is not dropped, a window of any length loses at most
      the burst plus that length over the refill interval. */
  lemma PopsBoundedWhileKept(limits: Limits, ops: seq<Op>, key: string, lo: nat, hi: nat, start: int, end: int)
    requires limits.Valid() && lo <= hi <= |ops| && start <= end && ClaimedWithin(ops, key, lo, hi, start, end)
    requires forall k | lo <= k < hi :: !LimiterDropped(limits, Exec(limits, ops[..k]), ops[k], key)
    ensures PopCount(limits, ops, key, lo, hi) as real <= limits.claimBurst as real + Accrued(limits, start, end)
  {
    NothingSettled(limits, ops, key, lo, hi, Allowance(limits, start, end));
    PopsBounded(limits, ops, key, lo, hi, start, end);
  }

  /** And the limiter holds nobody up for longer: in every run, a claim on a pool
      with a live entry is served one if the pool's limiter state is new or was last
      refilled a whole interval ago. */
  lemma PatientClaimPops(limits: Limits, ops: seq<Op>, key: string, now: nat)
    requires limits.Valid()
    requires var s := Exec(limits, ops);
             && (exists e :: e in QueueOf(s.queues, key) && Alive(limits, e, now))
             && (key !in s.tokens || s.tokens[key].lastRefill + limits.claimRefill <= now)
    ensures Pops(limits, Exec(limits, ops), key, now)
  {
    var s := Exec(limits, ops);
    var e :| e in QueueOf(s.queues, key) && Alive(limits, e, now);
    KeptHas(limits, QueueOf(s.queues, key), now, e);
    AlwaysBounded(limits, ops);
    if key in s.tokens { WholeInterval(limits, s.tokens[key].lastRefill, now); }
  }

  lemma {:induction false} KeptHas(limits: Limits, queue: seq<Entry>, now: nat, e: Entry)
    requires e in queue && Alive(limits, e, now)
    ensures e in Kept(limits, queue, now)
  {
    if e != queue[|queue| - 1] { KeptHas(limits, queue[..|queue| - 1], now, e); }
  }

  lemma WholeInterval(limits: Limits, since: int, until: int)
    requires limits.Valid() && since + limits.claimRefill <= until
    ensures Accrued(limits, since, until) >= 1.0
  {
    AccruesOnward(limits, since, since + limits.claimRefill, until);
    assert Accrued(limits, since, since + limits.claimRefill) == 1.0;
  }
}
