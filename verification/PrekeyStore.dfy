/** The prekey store with its tables changed in place. */
module PrekeyStore {
  import opened Common
  import opened Text
  import opened Prekey

  /** Filter one queue. */
  method KeepAlive(limits: Limits, queue: seq<Entry>, now: nat) returns (kept: seq<Entry>)
    ensures kept == Kept(limits, queue, now)
  {
    kept := [];
    for i := 0 to |queue|
      invariant kept == Kept(limits, queue[..i], now)
    {
      assert queue[..i + 1][..i] == queue[..i];
      if Alive(limits, queue[i], now) { kept := kept + [queue[i]]; }
    }
    assert queue[..|queue|] == queue;
  }

  lemma AdmittedNext(queue: seq<Entry>, added: seq<Entry>, candidates: seq<PrekeyEntry>, i: nat, most: int, now: nat)
    requires i < |candidates|
    ensures var c, rest := TrimId(candidates[i]), candidates[i + 1..];
            added + Admitted(queue + added, candidates[i..], most, now)
            == if !Usable(c) || HasId(queue + added, c.opkId) then added + Admitted(queue + added, rest, most, now)
               else if |queue + added| >= most then added
               else (added + [Entry(c, now)]) + Admitted(queue + (added + [Entry(c, now)]), rest, most, now)
  {
    var c := TrimId(candidates[i]);
    assert candidates[i..][0] == candidates[i] && candidates[i..][1..] == candidates[i + 1..];
    assert (queue + added) + [Entry(c, now)] == queue + (added + [Entry(c, now)]);
  }

  ghost function Ids(queue: seq<Entry>): set<string> { set i | 0 <= i < |queue| :: queue[i].value.opkId }

  lemma IdsAre(queue: seq<Entry>, id: string)
    ensures id in Ids(queue) <==> HasId(queue, id)
  {
  }

  lemma IdsGrow(queue: seq<Entry>, e: Entry)
    ensures Ids(queue + [e]) == Ids(queue) + {e.value.opkId}
  {
    var more := queue + [e];
    assert more[|queue|] == e;
    forall id | id in Ids(queue)
      ensures id in Ids(more)
    {
      var i :| 0 <= i < |queue| && queue[i].value.opkId == id;
      assert more[i].value.opkId == id;
    }
  }

  /** The publishing loop: skip what is unusable or already there, stop when full. */
  method Select(queue: seq<Entry>, candidates: seq<PrekeyEntry>, most: int, now: nat) returns (added: seq<Entry>)
    ensures added == Admitted(queue, candidates, most, now)
  {
    var existing: set<string> := {};
    for i := 0 to |queue|
      invariant existing == Ids(queue[..i])
    {
      assert queue[..i + 1] == queue[..i] + [queue[i]];
      IdsGrow(queue[..i], queue[i]);
      existing := existing + {queue[i].value.opkId};
    }
    assert queue[..|queue|] == queue;
    added := [];
    assert queue + added == queue && candidates[0..] == candidates;
    for i := 0 to |candidates|
      invariant existing == Ids(queue + added)
      invariant added + Admitted(queue + added, candidates[i..], most, now) == Admitted(queue, candidates, most, now)
    {
      var c := TrimId(candidates[i]);
      AdmittedNext(queue, added, candidates, i, most, now);
      IdsAre(queue + added, c.opkId);
      if !Usable(c) || c.opkId in existing { continue; }
      if |queue| + |added| >= most { break; }
      IdsGrow(queue + added, Entry(c, now));
      assert queue + (added + [Entry(c, now)]) == (queue + added) + [Entry(c, now)];
      added := added + [Entry(c, now)];
      existing := existing + {c.opkId};
    }
  }

  /** Looking at one more last-resort key. */
  lemma UnionNext(queues: set<string>, lastResort: set<string>, keys: set<string>, key: string)
    requires key in keys && keys <= lastResort
    ensures |queues + (lastResort - (keys - {key}))| == |queues + (lastResort - keys)| + if key in queues then 0 else 1
  {
    var seen := queues + (lastResort - keys);
    assert queues + (lastResort - (keys - {key})) == if key in queues then seen else seen + {key};
  }

  class Store {
    const limits: Limits
    var queues: map<string, seq<Entry>>
    var lastResort: map<string, Entry>
    var tokens: map<string, Bucket>

    ghost function View(): State
      reads this
    {
      State(queues, lastResort, tokens)
    }

    ghost predicate Valid() { limits.Valid() }

    constructor (limits: Limits)
      ensures Valid() && this.limits == limits.Corrected() && View() == EMPTY
    {
      this.limits := limits.Corrected();
      queues, lastResort, tokens := map[], map[], map[];
    }

    method PruneQueues(now: nat)
      modifies `queues
      ensures queues == KeptQueues(limits, old(queues), now)
    {
      ghost var before := queues;
      var keys := queues.Keys;
      while keys != {}
        invariant keys <= queues.Keys <= before.Keys
        invariant forall k | k in keys :: queues[k] == before[k]
        invariant forall k | k in before && k !in keys ::
                    if Kept(limits, before[k], now) == [] then k !in queues
                    else k in queues && queues[k] == Kept(limits, before[k], now)
      {
        var key :| key in keys;
        keys := keys - {key};
        var kept := KeepAlive(limits, queues[key], now);
        if |kept| == 0 { queues := queues - {key}; } else { queues := queues[key := kept]; }
      }
    }

    method PruneLastResort(now: nat)
      modifies `lastResort
      ensures lastResort == KeptLastResort(limits, old(lastResort), now)
    {
      ghost var before := lastResort;
      var keys := lastResort.Keys;
      while keys != {}
        invariant keys <= lastResort.Keys <= before.Keys
        invariant forall k | k in lastResort :: lastResort[k] == before[k]
        invariant forall k | k in before && k !in keys :: k in lastResort <==> Alive(limits, before[k], now)
      {
        var key :| key in keys;
        keys := keys - {key};
        if !Alive(limits, lastResort[key], now) { lastResort := lastResort - {key}; }
      }
    }

    method PruneTokens()
      requires forall k | k in queues :: queues[k] != []
      modifies `tokens
      ensures tokens == KeptTokens(old(tokens), queues.Keys + lastResort.Keys)
    {
      ghost var before := tokens;
      var keys := tokens.Keys;
      while keys != {}
        invariant keys <= tokens.Keys <= before.Keys
        invariant forall k | k in tokens :: tokens[k] == before[k]
        invariant forall k | k in before && k !in keys :: k in tokens <==> k in queues || k in lastResort
      {
        var key :| key in keys;
        keys := keys - {key};
        if |QueueOf(queues, key)| == 0 && key !in lastResort { tokens := tokens - {key}; }
      }
    }

    method PruneLocked(now: nat)
      modifies this
      ensures View() == Pruned(limits, old(View()), now)
    {
      PruneQueues(now);
      PruneLastResort(now);
      PruneTokens();
    }

    /** Pools across both maps, none counted twice. */
    method BucketCountLocked() returns (count: nat)
      ensures count == |Buckets(View())|
    {
      count := |queues|;
      var keys := lastResort.Keys;
      assert queues.Keys + (lastResort.Keys - keys) == queues.Keys;
      while keys != {}
        invariant keys <= lastResort.Keys && count == |queues.Keys + (lastResort.Keys - keys)|
      {
        var key :| key in keys;
        UnionNext(queues.Keys, lastResort.Keys, keys, key);
        keys := keys - {key};
        if key !in queues { count := count + 1; }
      }
      assert lastResort.Keys - {} == lastResort.Keys;
    }

    method Publish(ownerTag: string, deviceKey: string, entries: seq<PrekeyEntry>, offered: Option<PrekeyEntry>,
                   now: nat)
      returns (added: nat, ok: bool)
      modifies this
      ensures var owner, device := Trim(ownerTag), Trim(deviceKey);
              && View() == Prekey.Publish(limits, old(View()), owner, device, entries, offered, now)
              && ok == !Refused(limits, old(View()), owner, JoinNul(owner, device), now)
              && added == if ok then |Admitted(QueueOf(Pruned(limits, old(View()), now).queues, JoinNul(owner, device)),
                                               entries, limits.maxPerRecipient, now)| else 0
    {
      var owner := Trim(ownerTag);
      if owner == "" { return 0, false; }
      var key := JoinNul(owner, Trim(deviceKey));
      PruneLocked(now);
      if key !in queues && key !in lastResort {
        var count := BucketCountLocked();
        if count >= limits.maxBuckets { return 0, false; }
      }
      var queue := QueueOf(queues, key);
      var fresh_ := Select(queue, entries, limits.maxPerRecipient, now);
      if |fresh_| > 0 { queues := queues[key := queue + fresh_]; }
      if offered.Some? {
        var lr := TrimId(offered.value);
        if Usable(lr) { lastResort := lastResort[key := Entry(lr.(lastResort := true), now)]; }
      }
      return |fresh_|, true;
    }

    /** Refill by elapsed time, then spend one if there is one. */
    method TakeTokenLocked(key: string, now: nat) returns (available: bool)
      requires Valid()
      modifies `tokens
      ensures available == Allowed(limits, old(tokens), key, now)
      ensures tokens == TokensAfter(limits, old(tokens), key, now)
    {
      var st: Bucket;
      if key !in tokens {
        st := Bucket(limits.claimBurst as real, now);
      } else {
        st := tokens[key];
        var elapsed := now - st.lastRefill;
        if elapsed > 0 {
          st := st.(tokens := st.tokens + elapsed as real / limits.claimRefill as real);
          if st.tokens > limits.claimBurst as real { st := st.(tokens := limits.claimBurst as real); }
          st := st.(lastRefill := now);
        }
      }
      available := st.tokens >= 1.0;
      if available { st := st.(tokens := st.tokens - 1.0); }
      tokens := tokens[key := st];
    }

    method Claim(ownerTag: string, deviceKey: string, now: nat) returns (reply: Option<PrekeyEntry>)
      requires Valid()
      modifies this
      ensures var key := JoinNul(Trim(ownerTag), Trim(deviceKey));
              && View() == Prekey.Claim(limits, old(View()), key, now)
              && reply == ClaimReply(limits, old(View()), key, now)
    {
      var key := JoinNul(Trim(ownerTag), Trim(deviceKey));
      PruneLocked(now);
      var queue := QueueOf(queues, key);
      var pops := false;
      if |queue| > 0 { pops := TakeTokenLocked(key, now); }
      if pops {
        if |queue| == 1 { queues := queues - {key}; } else { queues := queues[key := queue[1..]]; }
        return Some(queue[0].value);
      }
      if key in lastResort { return Some(lastResort[key].value.(lastResort := true)); }
      reply := None;
    }

    /** How many one-time entries a pool still has. */
    method Status(ownerTag: string, deviceKey: string, now: nat) returns (count: nat)
      modifies this
      ensures View() == Pruned(limits, old(View()), now)
      ensures count == |QueueOf(View().queues, JoinNul(Trim(ownerTag), Trim(deviceKey)))|
    {
      PruneLocked(now);
      count := |QueueOf(queues, JoinNul(Trim(ownerTag), Trim(deviceKey)))|;
    }
  }
}
