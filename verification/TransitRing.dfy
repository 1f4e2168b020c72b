/** Twenty-four hourly buckets standing for the log of everything ever charged. */
module TransitRing {
  import opened Common

  const BUCKETS := 24

  /** The hour bucket of an instant given in nanoseconds. */
  function HourOf(now: nat): (h: nat)
    ensures h * HOUR <= now < (h + 1) * HOUR
  {
    now / SECOND / 3600
  }

  lemma HoursPass(now: nat, later: nat)
    requires now <= later
    ensures HourOf(now) <= HourOf(later)
  {
    assert now / SECOND <= later / SECOND;
  }

  datatype Charge = Charge(hour: nat, bytes: nat)

  datatype Buckets = Buckets(bytes: seq<nat>, hour: seq<nat>)

  predicate Shaped(b: Buckets) { |b.bytes| == BUCKETS && |b.hour| == BUCKETS }

  const ZEROS: seq<nat> := [0, 0, 0, 0, 0, 0, 0, 0, 0, 0, 0, 0, 0, 0, 0, 0, 0, 0, 0, 0, 0, 0, 0, 0]

  const BLANK: Buckets := Buckets(ZEROS, ZEROS)

  type Ring = b: Buckets | Shaped(b) witness BLANK

  // ---------------------------------------------------------- the simple form

  /** Bytes charged at or after hour `oldest`. */
  function WindowTotal(log: seq<Charge>, oldest: int): nat {
    if log == [] then 0
    else
      var c := log[|log| - 1];
      WindowTotal(log[..|log| - 1], oldest) + if oldest <= c.hour then c.bytes else 0
  }

  /** Of those, the bytes whose hour falls in the first `k` buckets. */
  function BelowTotal(log: seq<Charge>, oldest: int, k: nat): nat {
    if log == [] then 0
    else
      var c := log[|log| - 1];
      BelowTotal(log[..|log| - 1], oldest, k) + if oldest <= c.hour && c.hour % BUCKETS < k then c.bytes else 0
  }

  function SlotTotal(log: seq<Charge>, oldest: int, slot: nat): nat {
    if log == [] then 0
    else
      var c := log[|log| - 1];
      SlotTotal(log[..|log| - 1], oldest, slot) + if oldest <= c.hour && c.hour % BUCKETS == slot then c.bytes else 0
  }

  lemma {:induction false} SlotsAddUp(log: seq<Charge>, oldest: int, k: nat)
    ensures BelowTotal(log, oldest, k + 1) == BelowTotal(log, oldest, k) + SlotTotal(log, oldest, k)
    ensures BelowTotal(log, oldest, 0) == 0 && BelowTotal(log, oldest, BUCKETS) == WindowTotal(log, oldest)
  {
    if log != [] { SlotsAddUp(log[..|log| - 1], oldest, k); }
  }

  /** Charges between two starting hours make no difference if there are none. */
  lemma {:induction false} SlotFrom(log: seq<Charge>, a: int, b: int, slot: nat)
    requires a <= b
    requires forall c | c in log :: c.hour % BUCKETS == slot && a <= c.hour ==> b <= c.hour
    ensures SlotTotal(log, a, slot) == SlotTotal(log, b, slot)
  {
    if log != [] {
      assert log[|log| - 1] in log;
      SlotFrom(log[..|log| - 1], a, b, slot);
    }
  }

  lemma {:induction false} SlotMonotone(log: seq<Charge>, a: int, b: int, slot: nat)
    requires a <= b
    ensures SlotTotal(log, b, slot) <= SlotTotal(log, a, slot)
    ensures WindowTotal(log, b) <= WindowTotal(log, a)
  {
    if log != [] { SlotMonotone(log[..|log| - 1], a, b, slot); }
  }

  lemma {:induction false} SlotNone(log: seq<Charge>, oldest: int, slot: nat)
    requires forall c | c in log :: c.hour % BUCKETS == slot ==> c.hour < oldest
    ensures SlotTotal(log, oldest, slot) == 0
  {
    if log != [] {
      assert log[|log| - 1] in log;
      SlotNone(log[..|log| - 1], oldest, slot);
    }
  }

  // ----------------------------------------------------------------- the ring

  function Oldest(hour: nat): int { hour - (BUCKETS - 1) }

  /** What a bucket counts for at that hour. */
  function Share(r: Ring, oldest: int, slot: nat): nat
    requires slot < BUCKETS
  {
    if oldest <= r.hour[slot] then r.bytes[slot] else 0
  }

  function TotalUpTo(r: Ring, oldest: int, k: nat): nat
    requires k <= BUCKETS
  {
    if k == 0 then 0 else TotalUpTo(r, oldest, k - 1) + Share(r, oldest, k - 1)
  }

  function Total(r: Ring, hour: nat): nat {
    TotalUpTo(r, Oldest(hour), BUCKETS)
  }

  function Add(r: Ring, hour: nat, n: nat): Ring {
    var slot := hour % BUCKETS;
    Buckets(r.bytes[slot := (if r.hour[slot] == hour then r.bytes[slot] else 0) + n], r.hour[slot := hour])
  }

  /** Bucket by bucket, the ring holds what the log has for the last 24 hours; a
      bucket never used counts for nothing. */
  ghost predicate Stands(r: Ring, log: seq<Charge>, hour: nat) {
    && (forall c | c in log :: c.hour <= hour)
    && (forall s {:trigger r.hour[s]} | 0 <= s < BUCKETS ::
         r.hour[s] <= hour && (r.hour[s] % BUCKETS == s || r.bytes[s] == 0))
    && (forall s | 0 <= s < BUCKETS :: Share(r, Oldest(hour), s) == SlotTotal(log, Oldest(hour), s))
  }

  lemma {:induction false} TotalIsBelow(r: Ring, log: seq<Charge>, hour: nat, k: nat)
    requires Stands(r, log, hour) && k <= BUCKETS
    ensures TotalUpTo(r, Oldest(hour), k) == BelowTotal(log, Oldest(hour), k)
  {
    if k > 0 {
      TotalIsBelow(r, log, hour, k - 1);
      SlotsAddUp(log, Oldest(hour), k - 1);
    } else {
      SlotsAddUp(log, Oldest(hour), 0);
    }
  }

  /** The ring's total is the log's. */
  lemma TotalIsWindow(r: Ring, log: seq<Charge>, hour: nat)
    requires Stands(r, log, hour)
    ensures Total(r, hour) == WindowTotal(log, Oldest(hour))
  {
    TotalIsBelow(r, log, hour, BUCKETS);
    SlotsAddUp(log, Oldest(hour), 0);
  }

  lemma SameBucketSameHour(a: nat, b: nat)
    requires a % BUCKETS == b % BUCKETS && a - BUCKETS < b < a + BUCKETS
    ensures a == b
  {
  }

  /** All of a bucket's charges in the window are of the bucket's own hour. */
  lemma OneHourPerBucket(r: Ring, log: seq<Charge>, hour: nat, s: nat, c: Charge)
    requires Stands(r, log, hour) && s < BUCKETS && Oldest(hour) <= r.hour[s] && r.hour[s] % BUCKETS == s
    requires c in log && c.hour % BUCKETS == s && Oldest(hour) <= c.hour
    ensures c.hour == r.hour[s]
  {
    SameBucketSameHour(c.hour, r.hour[s]);
  }

  lemma SlotPasses(r: Ring, log: seq<Charge>, hour: nat, later: nat, s: nat)
    requires Stands(r, log, hour) && hour <= later && s < BUCKETS
    ensures Share(r, Oldest(later), s) == SlotTotal(log, Oldest(later), s)
  {
    assert Share(r, Oldest(hour), s) == SlotTotal(log, Oldest(hour), s);
    SlotMonotone(log, Oldest(hour), Oldest(later), s);
    if r.hour[s] >= Oldest(hour) && r.hour[s] % BUCKETS == s {
      forall c | c in log && c.hour % BUCKETS == s && Oldest(hour) <= c.hour
        ensures c.hour == r.hour[s]
      {
        OneHourPerBucket(r, log, hour, s, c);
      }
      if r.hour[s] >= Oldest(later) {
        SlotFrom(log, Oldest(hour), Oldest(later), s);
      } else {
        SlotNone(log, Oldest(later), s);
      }
    }
  }

  /** The passing of time takes whole buckets out, and only those due. */
  lemma TimePasses(r: Ring, log: seq<Charge>, hour: nat, later: nat)
    requires Stands(r, log, hour) && hour <= later
    ensures Stands(r, log, later)
  {
    forall s | 0 <= s < BUCKETS
      ensures Share(r, Oldest(later), s) == SlotTotal(log, Oldest(later), s)
    {
      SlotPasses(r, log, hour, later, s);
    }
  }

  lemma ReusedSlotIsClear(r: Ring, log: seq<Charge>, hour: nat)
    requires Stands(r, log, hour) && r.hour[hour % BUCKETS] != hour
    ensures SlotTotal(log, Oldest(hour), hour % BUCKETS) == 0
  {
    var s := hour % BUCKETS;
    assert Share(r, Oldest(hour), s) == SlotTotal(log, Oldest(hour), s);
    assert r.hour[s] <= hour;
  }

  /** Charging the ring is charging the log. */
  lemma AddStands(r: Ring, log: seq<Charge>, hour: nat, n: nat)
    requires Stands(r, log, hour)
    ensures Stands(Add(r, hour, n), log + [Charge(hour, n)], hour)
  {
    var t, log', slot := Add(r, hour, n), log + [Charge(hour, n)], hour % BUCKETS;
    assert log'[..|log'| - 1] == log;
    if r.hour[slot] != hour { ReusedSlotIsClear(r, log, hour); }
    forall s | 0 <= s < BUCKETS
      ensures Share(t, Oldest(hour), s) == SlotTotal(log', Oldest(hour), s)
    {
      assert Share(r, Oldest(hour), s) == SlotTotal(log, Oldest(hour), s);
    }
  }

  /** A new ring stands for a log with nothing left in the window. */
  lemma BlankStands(log: seq<Charge>, hour: nat)
    requires WindowTotal(log, Oldest(hour)) == 0 && forall c | c in log :: c.hour <= hour
    ensures Stands(BLANK, log, hour)
  {
    forall s | 0 <= s < BUCKETS
      ensures Share(BLANK, Oldest(hour), s) == SlotTotal(log, Oldest(hour), s)
    {
      SlotWithinWindow(log, Oldest(hour), s);
    }
  }

  lemma {:induction false} SlotWithinWindow(log: seq<Charge>, oldest: int, slot: nat)
    ensures SlotTotal(log, oldest, slot) <= WindowTotal(log, oldest)
  {
    if log != [] { SlotWithinWindow(log[..|log| - 1], oldest, slot); }
  }

  // ------------------------------------------------------- the arrays in place

  class TransitWindow {
    const bytes: array<nat>
    const hour: array<nat>

    ghost predicate Valid() { bytes != hour && bytes.Length == BUCKETS && hour.Length == BUCKETS }

    ghost function View(): Ring
      reads bytes, hour
    {
      if Valid() then Buckets(bytes[..], hour[..]) else BLANK
    }

    constructor ()
      ensures Valid() && View() == BLANK && fresh(bytes) && fresh(hour)
    {
      bytes := new nat[BUCKETS](_ => 0);
      hour := new nat[BUCKETS](_ => 0);
      new;
      assert bytes[..] == BLANK.bytes && hour[..] == BLANK.hour;
    }

    method Charge(now: nat, n: nat)
      requires Valid()
      modifies bytes, hour
      ensures View() == Add(old(View()), HourOf(now), n)
    {
      var h := HourOf(now);
      var slot := h % BUCKETS;
      if hour[slot] != h {
        hour[slot] := h;
        bytes[slot] := 0;
      }
      bytes[slot] := bytes[slot] + n;
      assert hour[..] == old(hour[..])[slot := h];
    }

    method Sum(now: nat) returns (sum: nat)
      requires Valid()
      ensures sum == Total(View(), HourOf(now))
    {
      var oldest := HourOf(now) - 23;
      sum := 0;
      for slot := 0 to BUCKETS
        invariant sum == TotalUpTo(View(), oldest, slot)
      {
        if hour[slot] >= oldest {
          sum := sum + bytes[slot];
        }
      }
    }
  }
}
