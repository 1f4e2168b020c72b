/** Each admitted entry is issued at most once and in order, whatever happens. */
module PrekeyIssue {
  import opened Common
  import opened Text
  import opened Prekey

  /** The life of one pool: everything ever admitted, and which of those, by their
      place in that log, are queued, claimed (in claiming order) or expired. */
  datatype Life = Life(log: seq<Entry>, queued: seq<nat>, claimed: seq<nat>, expired: set<nat>)

  function Survivors(limits: Limits, log: seq<Entry>, queued: seq<nat>, now: nat): seq<nat> {
    if queued == [] then []
    else
      var rest, last := Survivors(limits, log, queued[..|queued| - 1], now), queued[|queued| - 1];
      if last < |log| && Alive(limits, log[last], now) then rest + [last] else rest
  }

  ghost function LifePruned(limits: Limits, l: Life, now: nat): Life {
    var left := Survivors(limits, l.log, l.queued, now);
    l.(queued := left, expired := l.expired + set i | i in l.queued && i !in left)
  }

  function From(n: nat, count: nat): seq<nat> { seq(count, i requires 0 <= i < count => n + i) }

  function LifeAdmitted(l: Life, added: seq<Entry>): Life {
    l.(log := l.log + added, queued := l.queued + From(|l.log|, |added|))
  }

  function LifePopped(l: Life): Life {
    if l.queued == [] then l else l.(queued := l.queued[1..], claimed := l.claimed + [l.queued[0]])
  }

  ghost function LifeAfter(limits: Limits, s: State, l: Life, op: Op, key: string): Life
    requires limits.Valid()
  {
    if op.PublishOp? && op.owner == "" then l
    else
      var p := LifePruned(limits, l, op.now);
      match op
      case PublishOp(owner, device, entries, _, now) =>
        if JoinNul(owner, device) != key || Refused(limits, s, owner, key, now) then p
        else
          var queue := QueueOf(Pruned(limits, s, now).queues, key);
          LifeAdmitted(p, Admitted(queue, entries, limits.maxPerRecipient, now))
      case ClaimOp(k, now) => if k == key && Pops(limits, s, key, now) then LifePopped(p) else p
      case PruneOp(_) => p
  }

  /** The life of pool `key` over a run. */
  ghost function Lived(limits: Limits, ops: seq<Op>, key: string): Life
    requires limits.Valid()
  {
    if ops == [] then Life([], [], [], {})
    else
      var n := |ops| - 1;
      LifeAfter(limits, Exec(limits, ops[..n]), Lived(limits, ops[..n], key), ops[n], key)
  }

  /** The latest clock reading of the run. */
  function Latest(ops: seq<Op>): nat {
    if ops == [] then 0 else Max(Latest(ops[..|ops| - 1]), ops[|ops| - 1].now)
  }

  // ------------------------------------------------------------------ invariant

  ghost predicate Increasing(xs: seq<nat>) { forall i, j | 0 <= i < j < |xs| :: xs[i] < xs[j] }

  lemma IncreasingConcat(a: seq<nat>, b: seq<nat>)
    requires Increasing(a) && Increasing(b) && forall x, y | x in a && y in b :: x < y
    ensures Increasing(a + b)
  {
    var c := a + b;
    forall i, j | 0 <= i < j < |c|
      ensures c[i] < c[j]
    {
      if i < |a| <= j { assert a[i] in a && b[j - |a|] in b; }
    }
  }

  lemma HeadIsLeast(xs: seq<nat>, x: nat)
    requires Increasing(xs) && xs != [] && x in xs[1..]
    ensures xs[0] < x && x in xs
  {
    var j :| 0 <= j < |xs| - 1 && xs[1..][j] == x;
    assert xs[j + 1] == x;
  }

  /** `queue` is what the log has at the queued places. */
  ghost predicate Shows(l: Life, queue: seq<Entry>) {
    |queue| == |l.queued| && forall i | 0 <= i < |queue| :: l.queued[i] < |l.log| && queue[i] == l.log[l.queued[i]]
  }

  /** Exactly one of the three. */
  ghost predicate Placed(l: Life, i: nat) {
    || (i in l.claimed && i !in l.expired && i !in l.queued)
    || (i !in l.claimed && i in l.expired && i !in l.queued)
    || (i !in l.claimed && i !in l.expired && i in l.queued)
  }

  ghost predicate Partition(l: Life) {
    && Increasing(l.queued) && Increasing(l.claimed)
    && (forall c, q | c in l.claimed && q in l.queued :: c < q)
    && (forall i: nat | i < |l.log| :: Placed(l, i))
    && (forall i | i in l.claimed || i in l.expired || i in l.queued :: i < |l.log|)
  }

  /** What is called expired had lived out its time by then. */
  ghost predicate Overdue(limits: Limits, l: Life, by_: nat) {
    forall i | i in l.expired :: i < |l.log| && l.log[i].publishedAt + limits.publishedTTL <= by_
  }

  // --------------------------------------------------------------------- prune

  lemma {:induction false} SurvivorsHave(limits: Limits, log: seq<Entry>, queued: seq<nat>, now: nat, i: nat)
    requires i in queued && i < |log| && Alive(limits, log[i], now)
    ensures i in Survivors(limits, log, queued, now)
  {
    if i != queued[|queued| - 1] { SurvivorsHave(limits, log, queued[..|queued| - 1], now, i); }
  }

  lemma PruneOverdue(limits: Limits, l: Life, now: nat, by_: nat)
    requires Partition(l) && Overdue(limits, l, by_) && now <= by_
    ensures Overdue(limits, LifePruned(limits, l, now), by_)
  {
    var p := LifePruned(limits, l, now);
    forall i | i in p.expired && i !in l.expired
      ensures i < |p.log| && p.log[i].publishedAt + limits.publishedTTL <= by_
    {
      if Alive(limits, l.log[i], now) { SurvivorsHave(limits, l.log, l.queued, now, i); }
    }
  }

  lemma StepOverdue(limits: Limits, s: State, l: Life, op: Op, key: string, by_: nat)
    requires limits.Valid() && Partition(l) && Overdue(limits, l, by_) && op.now <= by_
    ensures Overdue(limits, LifeAfter(limits, s, l, op, key), by_)
  {
    PruneOverdue(limits, l, op.now, by_);
  }

  lemma {:induction false} SurvivorsAre(limits: Limits, log: seq<Entry>, queued: seq<nat>, now: nat)
    requires Increasing(queued)
    ensures var left := Survivors(limits, log, queued, now);
            Increasing(left) && forall i | i in left :: i in queued
  {
    if queued != [] {
      var n := |queued| - 1;
      SurvivorsAre(limits, log, queued[..n], now);
      assert queued == queued[..n] + [queued[n]];
      forall i | i in Survivors(limits, log, queued[..n], now)
        ensures i < queued[n]
      {
        assert i in queued[..n];
      }
      IncreasingConcat(Survivors(limits, log, queued[..n], now), [queued[n]]);
    }
  }

  lemma {:induction false} SurvivorsShow(limits: Limits, l: Life, queue: seq<Entry>, now: nat)
    requires Shows(l, queue)
    ensures Shows(l.(queued := Survivors(limits, l.log, l.queued, now)), Kept(limits, queue, now))
    decreases |queue|
  {
    if queue != [] {
      var n := |queue| - 1;
      SurvivorsShow(limits, l.(queued := l.queued[..n]), queue[..n], now);
    }
  }

  lemma PruneKeeps(limits: Limits, l: Life, queue: seq<Entry>, now: nat)
    requires Partition(l) && Shows(l, queue)
    ensures Partition(LifePruned(limits, l, now)) && Shows(LifePruned(limits, l, now), Kept(limits, queue, now))
  {
    SurvivorsAre(limits, l.log, l.queued, now);
    SurvivorsShow(limits, l, queue, now);
    var p := LifePruned(limits, l, now);
    forall i: nat | i < |p.log|
      ensures Placed(p, i)
    {
      assert Placed(l, i);
    }
  }

  // --------------------------------------------------------------------- admit

  lemma AdmitKeepsOrder(l: Life, added: seq<Entry>)
    requires Partition(l)
    ensures Partition(LifeAdmitted(l, added))
  {
    var t := LifeAdmitted(l, added);
    var fresh_ := From(|l.log|, |added|);
    IncreasingConcat(l.queued, fresh_);
    forall i: nat | i < |t.log|
      ensures Placed(t, i)
    {
      if i < |l.log| {
        assert Placed(l, i);
      } else {
        assert fresh_[i - |l.log|] == i;
        assert i in fresh_;
      }
    }
  }

  lemma AdmitShows(l: Life, queue: seq<Entry>, added: seq<Entry>)
    requires Shows(l, queue)
    ensures Shows(LifeAdmitted(l, added), queue + added)
  {
  }

  // ----------------------------------------------------------------------- pop

  lemma PopPartitions(l: Life)
    requires Partition(l) && l.queued != []
    ensures Partition(LifePopped(l))
  {
    var t, first := LifePopped(l), l.queued[0];
    assert l.queued == [first] + t.queued;
    assert first in l.queued;
    IncreasingConcat(l.claimed, [first]);
    forall q | q in t.queued
      ensures first < q && q in l.queued
    {
      HeadIsLeast(l.queued, q);
    }
    forall i: nat | i < |t.log|
      ensures Placed(t, i)
    {
      assert Placed(l, i);
    }
  }

  lemma PopKeeps(l: Life, queue: seq<Entry>)
    requires Partition(l) && Shows(l, queue) && queue != []
    ensures Partition(LifePopped(l)) && Shows(LifePopped(l), queue[1..])
    ensures LifePopped(l).claimed == l.claimed + [l.queued[0]] && l.log[l.queued[0]] == queue[0]
  {
    PopPartitions(l);
  }

  // ----------------------------------------------------------------------- runs

  lemma KeptQueue(limits: Limits, s: State, key: string, now: nat)
    ensures QueueOf(Pruned(limits, s, now).queues, key) == Kept(limits, QueueOf(s.queues, key), now)
  {
  }

  lemma PublishKeeps(limits: Limits, s: State, l: Life, op: Op, key: string)
    requires limits.Valid() && Partition(l) && Shows(l, QueueOf(s.queues, key)) && op.PublishOp? && op.owner != ""
    ensures var t := LifeAfter(limits, s, l, op, key);
            Partition(t) && Shows(t, QueueOf(Step(limits, s, op).queues, key))
  {
    PruneKeeps(limits, l, QueueOf(s.queues, key), op.now);
    KeptQueue(limits, s, key, op.now);
    var p, queue := LifePruned(limits, l, op.now), QueueOf(Pruned(limits, s, op.now).queues, key);
    if JoinNul(op.owner, op.device) == key && !Refused(limits, s, op.owner, key, op.now) {
      var added := Admitted(queue, op.entries, limits.maxPerRecipient, op.now);
      AdmitKeepsOrder(p, added);
      AdmitShows(p, queue, added);
      PublishedQueue(limits, s, op);
    }
  }

  /** A publish that is not refused appends what it admits. */
  lemma PublishedQueue(limits: Limits, s: State, op: Op)
    requires limits.Valid() && op.PublishOp? && !Refused(limits, s, op.owner, JoinNul(op.owner, op.device), op.now)
    ensures var key := JoinNul(op.owner, op.device);
            var queue := QueueOf(Pruned(limits, s, op.now).queues, key);
            QueueOf(Step(limits, s, op).queues, key)
            == queue + Admitted(queue, op.entries, limits.maxPerRecipient, op.now)
  {
    var queue := QueueOf(Pruned(limits, s, op.now).queues, JoinNul(op.owner, op.device));
    assert queue + [] == queue;
  }

  lemma ClaimKeeps(limits: Limits, s: State, l: Life, op: Op, key: string)
    requires limits.Valid() && Partition(l) && Shows(l, QueueOf(s.queues, key)) && op.ClaimOp?
    ensures var t := LifeAfter(limits, s, l, op, key);
            Partition(t) && Shows(t, QueueOf(Step(limits, s, op).queues, key))
  {
    PruneKeeps(limits, l, QueueOf(s.queues, key), op.now);
    KeptQueue(limits, s, key, op.now);
    var p, queue := LifePruned(limits, l, op.now), QueueOf(Pruned(limits, s, op.now).queues, key);
    if op.key == key && Pops(limits, s, key, op.now) { PopKeeps(p, queue); }
  }

  lemma StepKeeps(limits: Limits, s: State, l: Life, op: Op, key: string)
    requires limits.Valid() && Partition(l) && Shows(l, QueueOf(s.queues, key))
    ensures var t := LifeAfter(limits, s, l, op, key);
            Partition(t) && Shows(t, QueueOf(Step(limits, s, op).queues, key))
  {
    if op.PublishOp? {
      if op.owner != "" { PublishKeeps(limits, s, l, op, key); }
    } else if op.ClaimOp? {
      ClaimKeeps(limits, s, l, op, key);
    } else {
      PruneKeeps(limits, l, QueueOf(s.queues, key), op.now);
      KeptQueue(limits, s, key, op.now);
    }
  }

  /** Over every run: each entry ever admitted to a pool is exactly one of still
      queued, expired for having lived out its time, or claimed once; claims and
      queue follow publishing order. */
  lemma {:induction false} IssuedAtMostOnce(limits: Limits, ops: seq<Op>, key: string)
    requires limits.Valid()
    ensures Partition(Lived(limits, ops, key)) && Overdue(limits, Lived(limits, ops, key), Latest(ops))
    ensures Shows(Lived(limits, ops, key), QueueOf(Exec(limits, ops).queues, key))
  {
    if ops != [] {
      var n := |ops| - 1;
      IssuedAtMostOnce(limits, ops[..n], key);
      StepKeeps(limits, Exec(limits, ops[..n]), Lived(limits, ops[..n], key), ops[n], key);
      StepOverdue(limits, Exec(limits, ops[..n]), Lived(limits, ops[..n], key), ops[n], key, Latest(ops));
    }
  }

  /** A claim either hands out the oldest queued entry, which is then claimed, or
      claims nothing and serves the reusable prekey, marked as such. */
  lemma ClaimServes(limits: Limits, ops: seq<Op>, key: string, now: nat)
    requires limits.Valid()
    ensures var s, l, t := Exec(limits, ops), Lived(limits, ops, key), Lived(limits, ops + [ClaimOp(key, now)], key);
            var reply := ClaimReply(limits, s, key, now);
            if Pops(limits, s, key, now)
            then |t.claimed| == |l.claimed| + 1 && t.claimed[..|l.claimed|] == l.claimed
                 && t.claimed[|l.claimed|] in l.queued && t.claimed[|l.claimed|] < |t.log|
                 && reply == Some(t.log[t.claimed[|l.claimed|]].value)
            else t.claimed == l.claimed && (reply.Some? ==> reply.value.lastResort)
  {
    var s, l, all := Exec(limits, ops), Lived(limits, ops, key), ops + [ClaimOp(key, now)];
    assert all[..|all| - 1] == ops && all[|all| - 1] == ClaimOp(key, now);
    IssuedAtMostOnce(limits, ops, key);
    PruneKeeps(limits, l, QueueOf(s.queues, key), now);
    KeptQueue(limits, s, key, now);
    SurvivorsAre(limits, l.log, l.queued, now);
    var p, queue := LifePruned(limits, l, now), QueueOf(Pruned(limits, s, now).queues, key);
    if Pops(limits, s, key, now) { PopKeeps(p, queue); }
  }
}
