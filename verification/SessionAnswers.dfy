/** Exactly which proofs the gate accepts and which tokens it resolves, told from the
    calls alone. */
module SessionAnswers {
  import opened Common
  import opened Sessions
  import opened SessionRules

  // ------------------------------------------------------------------- nonces

  /** Call `j` draws the nonce and there is room for it on the table. */
  ghost predicate Issues(ops: seq<Op>, ss: seq<State>, j: nat, nonce: string) {
    && j < |ops| && j < |ss| && Draws(ops[j], nonce)
    && |set n | n in ss[j].nonces && ops[j].now < ss[j].nonces[n]| < 8192
  }

  /** The call presents the nonce, or sweeps when its time is up. */
  predicate TakesNonce(op: Op, nonce: string, expiry: int) {
    (op.VerifyOp? && op.nonce == nonce) || ((op.ChallengeOp? || op.OpenOp?) && expiry <= op.now)
  }

  /** Issued by call `j` and neither presented nor swept away before call `i`. */
  ghost predicate Untouched(ops: seq<Op>, ss: seq<State>, j: nat, i: nat, nonce: string) {
    && j < i <= |ops| && Issues(ops, ss, j, nonce)
    && forall k | j < k < i :: !TakesNonce(ops[k], nonce, ops[j].now + 30 * SECOND)
  }

  lemma LiveCount(nonces: map<string, int>, now: nat)
    ensures |LiveNonces(nonces, now)| == |set n | n in nonces && now < nonces[n]|
  {
    assert LiveNonces(nonces, now).Keys == set n | n in nonces && now < nonces[n];
  }

  lemma NonceAfter(s: State, op: Op, nonce: string)
    requires !Draws(op, nonce)
    ensures nonce in Step(s, op).nonces <==> nonce in s.nonces && !TakesNonce(op, nonce, s.nonces[nonce])
    ensures nonce in Step(s, op).nonces ==> Step(s, op).nonces[nonce] == s.nonces[nonce]
  {
  }

  lemma DrawStores(s: State, op: Op, nonce: string)
    requires Draws(op, nonce) && nonce !in s.nonces
    ensures nonce in Step(s, op).nonces <==> |set n | n in s.nonces && op.now < s.nonces[n]| < 8192
    ensures nonce in Step(s, op).nonces ==> Step(s, op).nonces[nonce] == op.now + 30 * SECOND
  {
    LiveCount(s.nonces, op.now);
  }

  lemma NotYetDrawn(ops: seq<Op>, ss: seq<State>, k: nat, nonce: string)
    requires IsRun(ops, ss) && FreshNonces(ops) && k < |ops| && Draws(ops[k], nonce)
    ensures nonce !in ss[k].nonces
  {
    if nonce in ss[k].nonces { var i := OutstandingWasDrawn(ops, ss, k, nonce); }
  }

  /** A nonce is on the table exactly while some call's issue of it is untouched. */
  lemma {:induction false} OnTheTable(ops: seq<Op>, ss: seq<State>, i: nat, nonce: string) returns (j: nat)
    requires IsRun(ops, ss) && FreshNonces(ops) && i <= |ops| && nonce in ss[i].nonces
    ensures Untouched(ops, ss, j, i, nonce) && ss[i].nonces[nonce] == ops[j].now + 30 * SECOND
  {
    var k := i - 1;
    Followed(ss[k], ops[k], ss[k + 1]);
    if Draws(ops[k], nonce) {
      NotYetDrawn(ops, ss, k, nonce);
      DrawStores(ss[k], ops[k], nonce);
      j := k;
    } else {
      NonceAfter(ss[k], ops[k], nonce);
      j := OnTheTable(ops, ss, k, nonce);
    }
  }

  lemma {:induction false} StaysOnTheTable(ops: seq<Op>, ss: seq<State>, j: nat, i: nat, nonce: string)
    requires IsRun(ops, ss) && FreshNonces(ops) && Untouched(ops, ss, j, i, nonce)
    ensures nonce in ss[i].nonces && ss[i].nonces[nonce] == ops[j].now + 30 * SECOND
    decreases i
  {
    var k := i - 1;
    Followed(ss[k], ops[k], ss[k + 1]);
    if k == j {
      NotYetDrawn(ops, ss, k, nonce);
      DrawStores(ss[k], ops[k], nonce);
    } else {
      StaysOnTheTable(ops, ss, j, k, nonce);
      NonceAfter(ss[k], ops[k], nonce);
    }
  }

  /** The nonce of the proof at call `i` was issued by call `j`, is untouched since, and
      has not run out. */
  ghost predicate Answers(ops: seq<Op>, ss: seq<State>, j: nat, i: nat)
    requires i < |ops| && ops[i].VerifyOp?
  {
    Untouched(ops, ss, j, i, ops[i].nonce) && ops[i].now < ops[j].now + 30 * SECOND
  }

  /** Over every run with fresh nonces, a proof is accepted if and only if its signature
      verifies and it answers a challenge issued here, still untouched and in time. */
  lemma ProofAcceptedIff(verify: Verifier, ops: seq<Op>, ss: seq<State>, i: nat)
    requires IsRun(ops, ss) && FreshNonces(ops) && i < |ops| && ops[i].VerifyOp?
    ensures ProofAccepted(verify, ss[i], ops[i].credential, ops[i].nonce, ops[i].signature, ops[i].now)
       <==> verify(ops[i].credential, ops[i].nonce, ops[i].signature) && exists j: nat :: Answers(ops, ss, j, i)
  {
    var nonce := ops[i].nonce;
    if nonce in ss[i].nonces {
      var j := OnTheTable(ops, ss, i, nonce);
      assert ops[i].now < ss[i].nonces[nonce] ==> Answers(ops, ss, j, i);
    }
    forall j: nat | Answers(ops, ss, j, i)
      ensures nonce in ss[i].nonces && ops[i].now < ss[i].nonces[nonce]
    {
      StaysOnTheTable(ops, ss, j, i, nonce);
    }
  }

  /** Whatever the random source does, no proof is accepted that does not verify. */
  lemma AcceptedVerifies(verify: Verifier, ops: seq<Op>, ss: seq<State>, i: nat, nonce: string)
    requires IsRun(ops, ss) && i < |ops| && Accepts(verify, ops, ss, i, nonce)
    ensures verify(ops[i].credential, nonce, ops[i].signature)
  {
  }

  // ------------------------------------------------------------------ sessions

  /** Call `j` opens a session for `credential` and there is room for it. */
  ghost predicate Admits(ops: seq<Op>, ss: seq<State>, j: nat, credential: string, t: string) {
    && j < |ops| && j < |ss| && ops[j].OpenOp? && ops[j].credential == credential
    && ops[j].token == Some(t)
    && |set x | x in ss[j].sessions && ops[j].now < ss[j].sessions[x].expiresAt| < 16384
  }

  ghost predicate EndsAt(ops: seq<Op>, ss: seq<State>, k: nat, t: string)
    requires k < |ops| && k < |ss|
  {
    t in ss[k].sessions && Ends(ops, ss, k, t)
  }

  /** Opened by call `j` and not ended before call `k`. */
  ghost predicate StillOpen(ops: seq<Op>, ss: seq<State>, j: nat, k: nat, credential: string, t: string) {
    && j < k <= |ops| && k < |ss| && Admits(ops, ss, j, credential, t)
    && forall i | j < i < k :: !EndsAt(ops, ss, i, t)
  }

  lemma SessionCount(sessions: map<string, Entry>, now: nat)
    ensures |sessions - ExpiredSessions(sessions, now)| == |set x | x in sessions && now < sessions[x].expiresAt|
  {
    assert (sessions - ExpiredSessions(sessions, now)).Keys == set x | x in sessions && now < sessions[x].expiresAt;
  }

  /** The newest token is never the one to make way. */
  lemma EnlistStores(s: State, c: string, token: string, now: nat)
    requires token !in ListOf(s.byCredential, c)
    ensures token in Enlist(s, c, token, now).sessions
    ensures Enlist(s, c, token, now).sessions[token] == Entry(c, now + SESSION_TTL)
  {
    var list := ListOf(s.byCredential, c) + [token];
    assert forall i | 0 <= i < Excess(list) :: list[i] == ListOf(s.byCredential, c)[i];
  }

  lemma OpenStores(ops: seq<Op>, ss: seq<State>, j: nat, c: string, t: string)
    requires IsRun(ops, ss) && FreshTokens(ops) && j < |ops|
    requires ops[j].OpenOp? && ops[j].credential == c && ops[j].token == Some(t)
    ensures t in ss[j + 1].sessions <==> Admits(ops, ss, j, c, t)
    ensures t in ss[j + 1].sessions ==> ss[j + 1].sessions[t] == Entry(c, ops[j].now + 15 * 60 * SECOND)
  {
    Followed(ss[j], ops[j], ss[j + 1]);
    SessionCount(ss[j].sessions, ops[j].now);
    NotOpenYet(ops, ss, j, t);
    StandingIs(ops, ss, j, c, ops[j].now);
    EnlistStores(Swept(ss[j], ops[j].now), c, t, ops[j].now);
  }

  lemma NotOpenYet(ops: seq<Op>, ss: seq<State>, j: nat, t: string)
    requires IsRun(ops, ss) && FreshTokens(ops) && j < |ops| && ops[j].OpenOp? && ops[j].token == Some(t)
    ensures t !in ss[j].sessions
  {
    if t in ss[j].sessions { DrawsAnother(ops, ss, j, t); }
  }

  lemma SessionStays(ops: seq<Op>, ss: seq<State>, k: nat, t: string)
    requires IsRun(ops, ss) && FreshTokens(ops) && k < |ops| && !(ops[k].OpenOp? && ops[k].token == Some(t))
    ensures t in ss[k + 1].sessions <==> t in ss[k].sessions && !EndsAt(ops, ss, k, t)
    ensures t in ss[k + 1].sessions ==> ss[k + 1].sessions[t] == ss[k].sessions[t]
  {
    Followed(ss[k], ops[k], ss[k + 1]);
    if t in ss[k].sessions { SessionLeavesIff(ops, ss, k, t); } else { GoneStaysGone(ss[k], ops[k], t); }
    if t in ss[k + 1].sessions { SessionStep(ss[k], ops[k], t); }
  }

  lemma {:induction false} InTheTable(ops: seq<Op>, ss: seq<State>, k: nat, t: string) returns (j: nat)
    requires IsRun(ops, ss) && FreshTokens(ops) && k <= |ops| && t in ss[k].sessions
    ensures StillOpen(ops, ss, j, k, ss[k].sessions[t].credential, t)
    ensures ss[k].sessions[t].expiresAt == ops[j].now + 15 * 60 * SECOND
  {
    var i := k - 1;
    assert Follows(ss[i], ops[i], ss[i + 1]);
    if ops[i].OpenOp? && ops[i].token == Some(t) {
      OpenStores(ops, ss, i, ops[i].credential, t);
      j := i;
    } else {
      SessionStays(ops, ss, i, t);
      j := InTheTable(ops, ss, i, t);
    }
  }

  lemma {:induction false} StaysInTheTable(ops: seq<Op>, ss: seq<State>, j: nat, k: nat, c: string, t: string)
    requires IsRun(ops, ss) && FreshTokens(ops) && StillOpen(ops, ss, j, k, c, t)
    ensures t in ss[k].sessions && ss[k].sessions[t] == Entry(c, ops[j].now + 15 * 60 * SECOND)
    decreases k
  {
    var i := k - 1;
    if i == j {
      OpenStores(ops, ss, j, c, t);
    } else {
      StaysInTheTable(ops, ss, j, i, c, t);
      SessionStays(ops, ss, i, t);
    }
  }

  /** Over every run with fresh tokens, a token resolves to a credential if and only if a
      call opened it for that credential, no call has ended it since, and it is within
      fifteen minutes. */
  lemma ResolvesIff(ops: seq<Op>, ss: seq<State>, k: nat, t: string, c: string, now: nat)
    requires IsRun(ops, ss) && FreshTokens(ops) && k <= |ops| && t != ""
    ensures Resolved(ss[k], t, now) == Some(c)
       <==> exists j: nat :: StillOpen(ops, ss, j, k, c, t) && now < ops[j].now + 15 * 60 * SECOND
  {
    if Resolved(ss[k], t, now) == Some(c) {
      var j := InTheTable(ops, ss, k, t);
      assert StillOpen(ops, ss, j, k, c, t);
    }
    forall j: nat | StillOpen(ops, ss, j, k, c, t) && now < ops[j].now + 15 * 60 * SECOND
      ensures Resolved(ss[k], t, now) == Some(c)
    {
      StaysInTheTable(ops, ss, j, k, c, t);
    }
  }
}
