/** The rolling daily total is the log of everything a circle pushed, and what the
    ceiling on it amounts to. */
module AttachmentTransit {
  import opened Common
  import opened Text
  import opened Bitmap
  import opened TransitRing
  import opened Attachment

  // ------------------------------------------------------------------- the log

  /** The circle an accepted push is charged to; zero if none. */
  ghost function BilledTo(limits: Limits, s: State, op: Op): nat {
    if op.PushOp? && Push(limits, s, op.chunk, op.grant, op.now).error.None?
    then SessionFor(s.(sessions := Swept(limits, s.sessions, op.now)), op.chunk, op.grant, op.now).credential
    else 0
  }

  ghost function NewCharges(limits: Limits, s: State, op: Op, credential: nat): seq<Charge> {
    if op.PushOp? && credential != 0 && BilledTo(limits, s, op) == credential
    then [Charge(HourOf(op.now), SizeOf(op.chunk))] else []
  }

  /** Every byte ever charged to a circle. */
  ghost function Charged(limits: Limits, ops: seq<Op>, credential: nat): seq<Charge> {
    if ops == [] then []
    else
      var n := |ops| - 1;
      Charged(limits, ops[..n], credential) + NewCharges(limits, Exec(limits, ops[..n]), ops[n], credential)
  }

  predicate Clocked(op: Op) { !op.CompleteOp? }

  function Latest(ops: seq<Op>): nat {
    if ops == [] then 0
    else if Clocked(ops[|ops| - 1]) then Max(Latest(ops[..|ops| - 1]), ops[|ops| - 1].now)
    else Latest(ops[..|ops| - 1])
  }

  /** The clock does not go back. */
  ghost predicate InOrder(ops: seq<Op>) {
    ops == [] || (InOrder(ops[..|ops| - 1])
                  && (Clocked(ops[|ops| - 1]) ==> Latest(ops[..|ops| - 1]) <= ops[|ops| - 1].now))
  }

  // ----------------------------------------------------------------- invariant

  /** A circle without a window has nothing left in the last 24 hours. */
  ghost predicate LedgerOk(transit: map<nat, Ring>, credential: nat, log: seq<Charge>, hour: nat) {
    if credential in transit then Stands(transit[credential], log, hour)
    else WindowTotal(log, Oldest(hour)) == 0 && forall c | c in log :: c.hour <= hour
  }

  function Spent(transit: map<nat, Ring>, credential: nat, hour: nat): nat {
    if credential in transit then Total(transit[credential], hour) else 0
  }

  lemma LedgerTotal(transit: map<nat, Ring>, credential: nat, log: seq<Charge>, hour: nat)
    requires LedgerOk(transit, credential, log, hour)
    ensures Spent(transit, credential, hour) == WindowTotal(log, Oldest(hour))
  {
    if credential in transit { TotalIsWindow(transit[credential], log, hour); }
  }

  lemma LedgerPasses(transit: map<nat, Ring>, credential: nat, log: seq<Charge>, hour: nat, later: nat)
    requires LedgerOk(transit, credential, log, hour) && hour <= later
    ensures LedgerOk(transit, credential, log, later)
  {
    if credential in transit {
      TimePasses(transit[credential], log, hour, later);
    } else {
      SlotMonotone(log, Oldest(hour), Oldest(later), 0);
    }
  }

  lemma ChargeKeeps(transit: map<nat, Ring>, billed: nat, n: nat, credential: nat, log: seq<Charge>, hour: nat)
    requires LedgerOk(transit, credential, log, hour) && credential != 0
    ensures LedgerOk(ChargedRing(transit, billed, hour, n), credential,
                     if billed == credential then log + [Charge(hour, n)] else log, hour)
  {
    if billed == credential {
      if credential !in transit { BlankStands(log, hour); }
      AddStands(if credential in transit then transit[credential] else BLANK, log, hour, n);
    }
  }

  /** A push leaves the windows alone or charges one. */
  lemma PushCharges(limits: Limits, s: State, op: Op)
    requires op.PushOp?
    ensures Step(limits, s, op).transit
         == (if Push(limits, s, op.chunk, op.grant, op.now).error.Some? then s.transit
             else ChargedRing(s.transit, BilledTo(limits, s, op), HourOf(op.now), SizeOf(op.chunk)))
  {
  }

  lemma StepLedger(limits: Limits, s: State, op: Op, credential: nat, log: seq<Charge>)
    requires credential != 0 && Clocked(op) && LedgerOk(s.transit, credential, log, HourOf(op.now))
    ensures LedgerOk(Step(limits, s, op).transit, credential, log + NewCharges(limits, s, op, credential),
                     HourOf(op.now))
  {
    var hour := HourOf(op.now);
    assert log + [] == log;
    if op.PushOp? {
      PushCharges(limits, s, op);
      ChargeKeeps(s.transit, BilledTo(limits, s, op), SizeOf(op.chunk), credential, log, hour);
    } else if op.PruneOp? {
      LedgerTotal(s.transit, credential, log, hour);
    }
  }

  lemma {:induction false} RunLedger(limits: Limits, ops: seq<Op>, credential: nat, now: nat)
    requires credential != 0 && InOrder(ops) && Latest(ops) <= now
    ensures LedgerOk(Exec(limits, ops).transit, credential, Charged(limits, ops, credential), HourOf(now))
  {
    if ops == [] {
      BlankStands([], 0);
    } else {
      var n := |ops| - 1;
      var s, op, log := Exec(limits, ops[..n]), ops[n], Charged(limits, ops[..n], credential);
      assert log + [] == log;
      if Clocked(op) {
        RunLedger(limits, ops[..n], credential, op.now);
        StepLedger(limits, s, op, credential, log);
        HoursPass(op.now, now);
        LedgerPasses(Step(limits, s, op).transit, credential, Charged(limits, ops, credential),
                     HourOf(op.now), HourOf(now));
      } else {
        RunLedger(limits, ops[..n], credential, now);
      }
    }
  }

  /** Twenty-four buckets, reused and sometimes thrown away, answer as the full log
      would: all bytes charged in this hour and the 23 before it. */
  lemma RingRefinesLog(limits: Limits, ops: seq<Op>, credential: nat, now: nat)
    requires credential != 0 && InOrder(ops) && Latest(ops) <= now
    ensures Spent(Exec(limits, ops).transit, credential, HourOf(now))
         == WindowTotal(Charged(limits, ops, credential), HourOf(now) - 23)
  {
    RunLedger(limits, ops, credential, now);
    LedgerTotal(Exec(limits, ops).transit, credential, Charged(limits, ops, credential), HourOf(now));
  }

  // ------------------------------------------------------------------- ceiling

  /** Every push charged to the circle came with this ceiling. */
  ghost predicate SameCeiling(limits: Limits, ops: seq<Op>, credential: nat, ceiling: int) {
    forall i {:trigger ops[i]} | 0 <= i < |ops| && ops[i].PushOp?
      && BilledTo(limits, Exec(limits, ops[..i]), ops[i]) == credential ::
      ops[i].grant.transitBytesPerDay == ceiling
  }

  /** What an accepted push has passed. */
  lemma AcceptedPassed(limits: Limits, s: State, op: Op)
    requires op.PushOp? && BilledTo(limits, s, op) != 0 && op.grant.transitBytesPerDay > 0
    ensures var billed, n := BilledTo(limits, s, op), SizeOf(op.chunk);
            && n <= limits.maxChunkBytes
            && (billed in s.transit ==> Total(s.transit[billed], HourOf(op.now)) + n <= op.grant.transitBytesPerDay)
  {
  }

  lemma WindowGrows(log: seq<Charge>, c: Charge, oldest: int)
    ensures WindowTotal(log + [c], oldest) == WindowTotal(log, oldest) + if oldest <= c.hour then c.bytes else 0
  {
    assert (log + [c])[..|log + [c]| - 1] == log;
  }

  /** After an accepted push the circle is within the ceiling exactly if it had a
      window before, or this one chunk fits by itself: the first push of a circle
      is not held against it. */
  lemma CeilingMetIff(limits: Limits, s: State, op: Op, log: seq<Charge>)
    requires op.PushOp? && BilledTo(limits, s, op) != 0 && op.grant.transitBytesPerDay > 0
    requires LedgerOk(s.transit, BilledTo(limits, s, op), log, HourOf(op.now))
    ensures var hour, n := HourOf(op.now), SizeOf(op.chunk);
            WindowTotal(log + [Charge(hour, n)], Oldest(hour)) <= op.grant.transitBytesPerDay
            <==> BilledTo(limits, s, op) in s.transit || n <= op.grant.transitBytesPerDay
  {
    AcceptedPassed(limits, s, op);
    LedgerTotal(s.transit, BilledTo(limits, s, op), log, HourOf(op.now));
    WindowGrows(log, Charge(HourOf(op.now), SizeOf(op.chunk)), Oldest(HourOf(op.now)));
  }

  lemma StepCeiling(limits: Limits, s: State, op: Op, credential: nat, log: seq<Charge>, ceiling: int, most: int)
    requires credential != 0 && Clocked(op) && LedgerOk(s.transit, credential, log, HourOf(op.now))
    requires 0 < ceiling <= most && limits.maxChunkBytes <= most
    requires op.PushOp? && BilledTo(limits, s, op) == credential ==> op.grant.transitBytesPerDay == ceiling
    requires WindowTotal(log, Oldest(HourOf(op.now))) <= most
    ensures WindowTotal(log + NewCharges(limits, s, op, credential), Oldest(HourOf(op.now))) <= most
  {
    assert log + [] == log;
    if op.PushOp? && BilledTo(limits, s, op) == credential {
      AcceptedPassed(limits, s, op);
      LedgerTotal(s.transit, credential, log, HourOf(op.now));
      WindowGrows(log, Charge(HourOf(op.now), SizeOf(op.chunk)), Oldest(HourOf(op.now)));
    }
  }

  /** With one ceiling throughout, the rolling total never passes the larger of the
      ceiling and one chunk. */
  lemma {:induction false} TotalWithinCeiling(limits: Limits, ops: seq<Op>, credential: nat, ceiling: int, now: nat)
    requires credential != 0 && InOrder(ops) && Latest(ops) <= now && 0 < ceiling
    requires SameCeiling(limits, ops, credential, ceiling)
    ensures WindowTotal(Charged(limits, ops, credential), Oldest(HourOf(now))) <= Max(ceiling, limits.maxChunkBytes)
  {
    if ops != [] {
      var n := |ops| - 1;
      var s, op, log := Exec(limits, ops[..n]), ops[n], Charged(limits, ops[..n], credential);
      forall i | 0 <= i < n
        ensures ops[..n][i] == ops[i] && ops[..n][..i] == ops[..i]
      {
      }
      assert SameCeiling(limits, ops[..n], credential, ceiling);
      assert log + [] == log;
      if Clocked(op) {
        TotalWithinCeiling(limits, ops[..n], credential, ceiling, op.now);
        RunLedger(limits, ops[..n], credential, op.now);
        StepCeiling(limits, s, op, credential, log, ceiling, Max(ceiling, limits.maxChunkBytes));
        HoursPass(op.now, now);
        SlotMonotone(Charged(limits, ops, credential), Oldest(HourOf(op.now)), Oldest(HourOf(now)), 0);
      } else {
        TotalWithinCeiling(limits, ops[..n], credential, ceiling, now);
      }
    }
  }

  const SMALL := Limits(8, 100, 1000, 10, 30)

  const FIRST_PUSH := PushOp(Chunk("c", "t", "k", "r", 0, 1, "ab", 2, 0, 0), Grant(1, 0, 0, 1), 0)

  /** A circle whose ceiling is one byte a day gets two bytes through. */
  lemma FirstPushPassesTheCeiling()
    ensures InOrder([FIRST_PUSH]) && SameCeiling(SMALL, [FIRST_PUSH], 1, 1)
    ensures WindowTotal(Charged(SMALL, [FIRST_PUSH], 1), Oldest(HourOf(0))) == 2
  {
    var ops := [FIRST_PUSH];
    assert ops[..0] == [] && |ops| == 1;
    assert SizeOf(FIRST_PUSH.chunk) == 2 by { TwoLetters(); }
    assert Swept(SMALL, EMPTY.sessions, 0) == map[];
    assert !IsSet(Blank(1), 0) by { BlankIsEmpty(1, 0); }
    assert BilledTo(SMALL, EMPTY, FIRST_PUSH) == 1;
    assert Charged(SMALL, [], 1) == [];
    WindowGrows([], Charge(0, 2), Oldest(0));
  }

  lemma TwoLetters()
    ensures Utf8Len("ab") == 2
  {
    assert Utf8Len("a") == 1;
    assert "ab"[..1] == "a" && "ab"[1..] == "b";
  }
}
