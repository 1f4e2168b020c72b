/** The one-time prekey pools as a value. */
module Prekey {
  import opened Common
  import opened Text

  datatype PrekeyEntry = PrekeyEntry(opkId: string, publicKey: string, signature: string, lastResort: bool)

  datatype Entry = Entry(value: PrekeyEntry, publishedAt: nat)

  /** A token bucket: one token accrues per refill interval, up to the burst. */
  datatype Bucket = Bucket(tokens: real, lastRefill: int)

  datatype Limits = Limits(maxPerRecipient: int, maxBuckets: int, publishedTTL: int, claimBurst: int,
                           claimRefill: int) {
    predicate Valid() { 0 < maxPerRecipient && 0 < maxBuckets && 0 < publishedTTL && 0 < claimBurst && 0 < claimRefill }

    /** NewStoreWithLimits: a figure that is not positive takes the default. */
    function Corrected(): (l: Limits)
      ensures l.Valid()
      ensures Valid() ==> l == this
    {
      Limits(if maxPerRecipient <= 0 then 100 else maxPerRecipient,
             if maxBuckets <= 0 then 5000 else maxBuckets,
             if publishedTTL <= 0 then 30 * 24 * HOUR else publishedTTL,
             if claimBurst <= 0 then 32 else claimBurst,
             if claimRefill <= 0 then SECOND else claimRefill)
    }
  }

  datatype State = State(queues: map<string, seq<Entry>>, lastResort: map<string, Entry>, tokens: map<string, Bucket>)

  const EMPTY := State(map[], map[], map[])

  function QueueOf(queues: map<string, seq<Entry>>, key: string): seq<Entry> {
    if key in queues then queues[key] else []
  }

  /** The pools this store carries: a queue, a last-resort prekey, or both. */
  function Buckets(s: State): set<string> { s.queues.Keys + s.lastResort.Keys }

  // ------------------------------------------------------------------- pruning

  predicate Alive(limits: Limits, e: Entry, now: nat) { e.publishedAt + limits.publishedTTL > now }

  function Kept(limits: Limits, queue: seq<Entry>, now: nat): seq<Entry> {
    if queue == [] then []
    else
      var rest, last := Kept(limits, queue[..|queue| - 1], now), queue[|queue| - 1];
      if Alive(limits, last, now) then rest + [last] else rest
  }

  function KeptQueues(limits: Limits, queues: map<string, seq<Entry>>, now: nat): map<string, seq<Entry>> {
    map k | k in queues && Kept(limits, queues[k], now) != [] :: Kept(limits, queues[k], now)
  }

  function KeptLastResort(limits: Limits, lastResort: map<string, Entry>, now: nat): map<string, Entry> {
    map k | k in lastResort && Alive(limits, lastResort[k], now) :: lastResort[k]
  }

  /** Limiter state goes with the pool it protects. */
  function KeptTokens(tokens: map<string, Bucket>, pools: set<string>): map<string, Bucket> {
    map k | k in tokens && k in pools :: tokens[k]
  }

  function Pruned(limits: Limits, s: State, now: nat): State {
    var queues, lastResort := KeptQueues(limits, s.queues, now), KeptLastResort(limits, s.lastResort, now);
    State(queues, lastResort, KeptTokens(s.tokens, queues.Keys + lastResort.Keys))
  }

  // -------------------------------------------------------------------- publish

  function TrimId(e: PrekeyEntry): PrekeyEntry { e.(opkId := Trim(e.opkId)) }

  predicate Usable(e: PrekeyEntry) { e.opkId != "" && e.publicKey != "" && e.signature != "" }

  predicate HasId(queue: seq<Entry>, id: string) { exists i :: 0 <= i < |queue| && queue[i].value.opkId == id }

  /** What a list of candidates adds to a queue: the usable ones whose id is not in
      it already, until it is full. */
  function Admitted(queue: seq<Entry>, candidates: seq<PrekeyEntry>, most: int, now: nat): seq<Entry>
    decreases |candidates|
  {
    if candidates == [] then []
    else
      var c := TrimId(candidates[0]);
      if !Usable(c) || HasId(queue, c.opkId) then Admitted(queue, candidates[1..], most, now)
      else if |queue| >= most then []
      else [Entry(c, now)] + Admitted(queue + [Entry(c, now)], candidates[1..], most, now)
  }

  predicate Refused(limits: Limits, s: State, owner: string, key: string, now: nat) {
    owner == "" || (var p := Pruned(limits, s, now); key !in Buckets(p) && |Buckets(p)| >= limits.maxBuckets)
  }

  function WithLastResort(lastResort: map<string, Entry>, key: string, offered: Option<PrekeyEntry>,
                          now: nat): map<string, Entry> {
    if offered.Some? && Usable(TrimId(offered.value))
    then lastResort[key := Entry(TrimId(offered.value).(lastResort := true), now)]
    else lastResort
  }

  /** One publish to the pool of `owner`; nothing is looked at without an owner. */
  function Publish(limits: Limits, s: State, owner: string, device: string, entries: seq<PrekeyEntry>,
                   offered: Option<PrekeyEntry>, now: nat): State {
    var key := JoinNul(owner, device);
    if owner == "" then s
    else
      var p := Pruned(limits, s, now);
      if Refused(limits, s, owner, key, now) then p else Replenished(limits, p, key, entries, offered, now)
  }

  /** Pool `key` with the new entries and the new last-resort prekey. */
  function Replenished(limits: Limits, p: State, key: string, entries: seq<PrekeyEntry>,
                       offered: Option<PrekeyEntry>, now: nat): State {
    var queue := QueueOf(p.queues, key);
    var added := Admitted(queue, entries, limits.maxPerRecipient, now);
    State(if added == [] then p.queues else p.queues[key := queue + added],
          WithLastResort(p.lastResort, key, offered, now), p.tokens)
  }

  // ---------------------------------------------------------------------- claim

  /** Tokens that come with time. */
  function Accrued(limits: Limits, since: int, until: int): real
    requires limits.Valid()
  {
    (until - since) as real / limits.claimRefill as real
  }

  /** The bucket refilled for the time since it was last looked at; one seen for the
      first time starts full. */
  function Refilled(limits: Limits, tokens: map<string, Bucket>, key: string, now: nat): Bucket
    requires limits.Valid()
  {
    if key !in tokens then Bucket(limits.claimBurst as real, now)
    else
      var b := tokens[key];
      if now - b.lastRefill > 0
      then Bucket(MinReal(b.tokens + Accrued(limits, b.lastRefill, now), limits.claimBurst as real), now)
      else b
  }

  function MinReal(a: real, b: real): real { if a > b then b else a }

  /** A token is there to spend. */
  predicate Allowed(limits: Limits, tokens: map<string, Bucket>, key: string, now: nat)
    requires limits.Valid()
  {
    Refilled(limits, tokens, key, now).tokens >= 1.0
  }

  function TokensAfter(limits: Limits, tokens: map<string, Bucket>, key: string, now: nat): map<string, Bucket>
    requires limits.Valid()
  {
    var b := Refilled(limits, tokens, key, now);
    tokens[key := if b.tokens >= 1.0 then b.(tokens := b.tokens - 1.0) else b]
  }

  /** The claim takes a one-time entry. */
  predicate Pops(limits: Limits, s: State, key: string, now: nat)
    requires limits.Valid()
  {
    var p := Pruned(limits, s, now); key in p.queues && Allowed(limits, p.tokens, key, now)
  }

  function Popped(queues: map<string, seq<Entry>>, key: string): map<string, seq<Entry>>
    requires key in queues && queues[key] != []
  {
    if |queues[key]| == 1 then queues - {key} else queues[key := queues[key][1..]]
  }

  function Claim(limits: Limits, s: State, key: string, now: nat): State
    requires limits.Valid()
  {
    var p := Pruned(limits, s, now);
    if key !in p.queues then p
    else
      var tokens := TokensAfter(limits, p.tokens, key, now);
      if !Allowed(limits, p.tokens, key, now) then p.(tokens := tokens)
      else State(Popped(p.queues, key), p.lastResort, tokens)
  }

  /** What the claimer gets: a one-time entry, the last-resort one, or nothing. */
  function ClaimReply(limits: Limits, s: State, key: string, now: nat): Option<PrekeyEntry>
    requires limits.Valid()
  {
    var p := Pruned(limits, s, now);
    if Pops(limits, s, key, now) then Some(p.queues[key][0].value)
    else if key in p.lastResort then Some(p.lastResort[key].value.(lastResort := true))
    else None
  }

  // ----------------------------------------------------------------------- runs

  datatype Op =
    | PublishOp(owner: string, device: string, entries: seq<PrekeyEntry>, offered: Option<PrekeyEntry>, now: nat)
    | ClaimOp(key: string, now: nat)
    | PruneOp(now: nat)                        // Prune, Status and the counts

  function Step(limits: Limits, s: State, op: Op): State
    requires limits.Valid()
  {
    match op
    case PublishOp(owner, device, entries, offered, now) => Publish(limits, s, owner, device, entries, offered, now)
    case ClaimOp(key, now) => Claim(limits, s, key, now)
    case PruneOp(now) => Pruned(limits, s, now)
  }

  function Exec(limits: Limits, ops: seq<Op>): State
    requires limits.Valid()
  {
    if ops == [] then EMPTY else Step(limits, Exec(limits, ops[..|ops| - 1]), ops[|ops| - 1])
  }
}
