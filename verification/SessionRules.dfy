/** What the admission gate promises over every run with fresh random tokens. */
module SessionRules {
  import opened Sizes
  import opened Common
  import opened Sessions

  // ------------------------------------------------------------------- nonces

  /** The call draws this nonce. */
  predicate Draws(op: Op, nonce: string) { op.ChallengeOp? && op.token == Some(nonce) }

  /** No nonce is drawn twice. */
  ghost predicate FreshNonces(ops: seq<Op>) {
    forall i, j | 0 <= i < j < |ops| && ops[i].ChallengeOp? && ops[j].ChallengeOp? && ops[i].token.Some? ::
      ops[i].token != ops[j].token
  }

  /** Only a challenge puts a nonce on the table. */
  lemma NonceStep(s: State, op: Op, nonce: string)
    requires nonce in Step(s, op).nonces
    ensures (Draws(op, nonce) && Step(s, op).nonces[nonce] == op.now + NONCE_TTL)
         || (nonce in s.nonces && Step(s, op).nonces[nonce] == s.nonces[nonce])
  {
  }

  lemma StaysAway(s: State, op: Op, nonce: string)
    requires nonce !in s.nonces || (op.VerifyOp? && op.nonce == nonce)
    requires !Draws(op, nonce)
    ensures nonce !in Step(s, op).nonces
  {
  }

  /** An outstanding nonce was drawn by an earlier challenge and expires with it. */
  lemma {:induction false} OutstandingWasDrawn(ops: seq<Op>, ss: seq<State>, k: nat, nonce: string) returns (i: nat)
    requires IsRun(ops, ss) && k < |ss| && nonce in ss[k].nonces
    ensures i < k && Draws(ops[i], nonce) && ss[k].nonces[nonce] == ops[i].now + NONCE_TTL
  {
    assert Follows(ss[k - 1], ops[k - 1], ss[k - 1 + 1]);
    Followed(ss[k - 1], ops[k - 1], ss[k]);
    NonceStep(ss[k - 1], ops[k - 1], nonce);
    if Draws(ops[k - 1], nonce) && ss[k].nonces[nonce] == ops[k - 1].now + NONCE_TTL {
      i := k - 1;
    } else {
      i := OutstandingWasDrawn(ops, ss, k - 1, nonce);
    }
  }

  /** A nonce that was drawn and then presented once, well or badly, is gone for the
      rest of the run. */
  lemma {:induction false} SpentForGood(ops: seq<Op>, ss: seq<State>, drawn: nat, i: nat, j: nat, nonce: string)
    requires IsRun(ops, ss) && FreshNonces(ops) && drawn < i < j < |ss|
    requires Draws(ops[drawn], nonce) && ops[i].VerifyOp? && ops[i].nonce == nonce
    ensures nonce !in ss[j].nonces
    decreases j
  {
    if j > i + 1 { SpentForGood(ops, ss, drawn, i, j - 1, nonce); }
    assert Follows(ss[j - 1], ops[j - 1], ss[j - 1 + 1]);
    Followed(ss[j - 1], ops[j - 1], ss[j]);
    StaysAway(ss[j - 1], ops[j - 1], nonce);
  }

  /** The call at place `i` is a proof over `nonce` that the gate accepted. */
  ghost predicate Accepts(verify: Verifier, ops: seq<Op>, ss: seq<State>, i: nat, nonce: string)
    requires i < |ops| && i < |ss|
  {
    ops[i].VerifyOp? && ops[i].nonce == nonce
    && ProofAccepted(verify, ss[i], ops[i].credential, nonce, ops[i].signature, ops[i].now)
  }

  /** An accepted proof is over a nonce this gate drew less than thirty seconds ago. */
  lemma AcceptedInTime(verify: Verifier, ops: seq<Op>, ss: seq<State>, i: nat, nonce: string) returns (drawn: nat)
    requires IsRun(ops, ss) && i < |ops| && Accepts(verify, ops, ss, i, nonce)
    ensures drawn < i && Draws(ops[drawn], nonce) && ops[i].now < ops[drawn].now + NONCE_TTL
  {
    drawn := OutstandingWasDrawn(ops, ss, i, nonce);
  }

  /** Each nonce is accepted at most once over the whole run. */
  lemma AcceptedAtMostOnce(verify: Verifier, ops: seq<Op>, ss: seq<State>, i: nat, j: nat, nonce: string)
    requires IsRun(ops, ss) && FreshNonces(ops) && i < j < |ops| && Accepts(verify, ops, ss, i, nonce)
    ensures !Accepts(verify, ops, ss, j, nonce)
  {
    var drawn := AcceptedInTime(verify, ops, ss, i, nonce);
    SpentForGood(ops, ss, drawn, i, j, nonce);
  }

  /** And one try is all there is: a failed proof uses the nonce up too. */
  lemma FailedProofSpends(verify: Verifier, ops: seq<Op>, ss: seq<State>, drawn: nat, i: nat, j: nat)
    requires IsRun(ops, ss) && FreshNonces(ops) && drawn < i < j < |ops| && ops[i].VerifyOp?
             && Draws(ops[drawn], ops[i].nonce)
    ensures !Accepts(verify, ops, ss, j, ops[i].nonce)
  {
    SpentForGood(ops, ss, drawn, i, j, ops[i].nonce);
  }

  // ----------------------------------------------------------------- sessions

  /** The session token the call issues to `credential`, if any. */
  function NewToken(s: State, op: Op, credential: string): seq<string> {
    if op.OpenOp? && op.credential == credential && Opened(s, op.token, op.now).Some? then [op.token.value] else []
  }

  /** The tokens issued to a credential by the first `k` calls, in order. */
  ghost function Issued(ops: seq<Op>, ss: seq<State>, k: nat, credential: string): seq<string>
    requires k <= |ops| && k <= |ss|
  {
    if k == 0 then [] else Issued(ops, ss, k - 1, credential) + NewToken(ss[k - 1], ops[k - 1], credential)
  }

  /** No session token is drawn twice. */
  ghost predicate FreshTokens(ops: seq<Op>) {
    forall i, j | 0 <= i < j < |ops| && ops[i].OpenOp? && ops[j].OpenOp? && ops[i].token.Some? ::
      ops[i].token != ops[j].token
  }

  /** Where an issued token was drawn. */
  lemma {:induction false} IssuedWasDrawn(ops: seq<Op>, ss: seq<State>, k: nat, c: string, t: string) returns (i: nat)
    requires k <= |ops| && k <= |ss| && t in Issued(ops, ss, k, c)
    ensures i < k && ops[i].OpenOp? && ops[i].token == Some(t) && ops[i].credential == c
  {
    if t in NewToken(ss[k - 1], ops[k - 1], c) { i := k - 1; } else { i := IssuedWasDrawn(ops, ss, k - 1, c, t); }
  }

  /** Of the tokens issued, those with a live session, in issue order. */
  function Live(issued: seq<string>, sessions: map<string, Entry>): seq<string> {
    if issued == [] then []
    else
      var rest, last := Live(issued[..|issued| - 1], sessions), issued[|issued| - 1];
      if last in sessions then rest + [last] else rest
  }

  ghost predicate NoRepeats(list: seq<string>) { forall i, j | 0 <= i < j < |list| :: list[i] != list[j] }

  lemma {:induction false} IssuedOnce(ops: seq<Op>, ss: seq<State>, k: nat, c: string)
    requires k <= |ops| && k <= |ss| && FreshTokens(ops)
    ensures NoRepeats(Issued(ops, ss, k, c))
  {
    if k > 0 {
      IssuedOnce(ops, ss, k - 1, c);
      var before, fresh_ := Issued(ops, ss, k - 1, c), NewToken(ss[k - 1], ops[k - 1], c);
      if fresh_ == [] {
        assert before + fresh_ == before;
      } else {
        NotIssuedBefore(ops, ss, k - 1, c);
        NoRepeatsAppend(before, fresh_[0]);
        assert before + fresh_ == before + [fresh_[0]];
      }
    }
  }

  lemma NoRepeatsAppend(list: seq<string>, t: string)
    requires NoRepeats(list) && t !in list
    ensures NoRepeats(list + [t])
  {
  }

  lemma IssuedToOne(ops: seq<Op>, ss: seq<State>, k: nat, c: string, d: string, t: string)
    requires k <= |ops| && k <= |ss| && FreshTokens(ops) && t in Issued(ops, ss, k, c) && t in Issued(ops, ss, k, d)
    ensures c == d
  {
    var i := IssuedWasDrawn(ops, ss, k, c, t);
    var j := IssuedWasDrawn(ops, ss, k, d, t);
    assert i == j;
  }

  // ------------------------------------------------------------- list lemmas

  lemma {:induction false} LiveAre(issued: seq<string>, sessions: map<string, Entry>)
    ensures forall t | t in Live(issued, sessions) :: t in issued && t in sessions
    ensures forall t | t in issued && t in sessions :: t in Live(issued, sessions)
    ensures NoRepeats(issued) ==> NoRepeats(Live(issued, sessions))
  {
    if issued != [] {
      var n := |issued| - 1;
      LiveAre(issued[..n], sessions);
      assert issued == issued[..n] + [issued[n]];
      if NoRepeats(issued) { assert issued[n] !in issued[..n]; }
    }
  }

  /** Dropping sessions and filtering the list come to the same. */
  lemma {:induction false} RemainingIsLive(issued: seq<string>, sessions: map<string, Entry>, dead: set<string>)
    ensures Remaining(Live(issued, sessions), dead) == Live(issued, sessions - dead)
  {
    if issued != [] {
      var n := |issued| - 1;
      RemainingIsLive(issued[..n], sessions, dead);
      var list := Live(issued[..n], sessions);
      assert (list + [issued[n]])[..|list|] == list;
    }
  }

  /** Sessions a credential was never issued make no difference to its list. */
  lemma {:induction false} LiveSame(issued: seq<string>, a: map<string, Entry>, b: map<string, Entry>)
    requires forall t | t in issued :: t in a <==> t in b
    ensures Live(issued, a) == Live(issued, b)
  {
    if issued != [] {
      var n := |issued| - 1;
      assert issued == issued[..n] + [issued[n]];
      LiveSame(issued[..n], a, b);
    }
  }

  ghost function Members(list: seq<string>, n: nat): set<string>
    requires n <= |list|
  {
    set i | 0 <= i < n :: list[i]
  }

  lemma {:induction false} RemainingSuffix(list: seq<string>, n: nat)
    requires NoRepeats(list) && n <= |list|
    ensures Remaining(list, Members(list, n)) == list[n..]
    decreases |list|
  {
    if n == |list| {
      RemainingNone(list, Members(list, n));
    } else {
      var m := |list| - 1;
      RemainingSuffix(list[..m], n);
      assert Members(list[..m], n) == Members(list, n) by { assert forall i | 0 <= i < n :: list[..m][i] == list[i]; }
      assert list[m] !in Members(list, n);
      assert list[n..] == list[..m][n..] + [list[m]];
    }
  }

  lemma {:induction false} RemainingNone(list: seq<string>, dead: set<string>)
    requires forall t | t in list :: t in dead
    ensures Remaining(list, dead) == []
  {
    if list != [] {
      assert list[|list| - 1] in list;
      RemainingNone(list[..|list| - 1], dead);
    }
  }

  // --------------------------------------------------------------- invariant

  /** Among the tokens the first `k` calls issued, none was issued twice. */
  ghost predicate Apart(ops: seq<Op>, ss: seq<State>, k: nat)
    requires k <= |ops| && k <= |ss|
  {
    && (forall c :: NoRepeats(Issued(ops, ss, k, c)))
    && (forall c, d, t | t in Issued(ops, ss, k, c) && t in Issued(ops, ss, k, d) :: c == d)
  }

  /** Every session of `s` was issued to its credential, and each credential's list
      is exactly its live sessions in issue order; no list is kept empty. */
  ghost predicate Indexed(s: State, ops: seq<Op>, ss: seq<State>, k: nat)
    requires k <= |ops| && k <= |ss|
  {
    && (forall t {:trigger s.sessions[t]} | t in s.sessions :: t in Issued(ops, ss, k, s.sessions[t].credential))
    && (forall c :: ListOf(s.byCredential, c) == Live(Issued(ops, ss, k, c), s.sessions))
    && (forall c | c in s.byCredential :: s.byCredential[c] != [])
  }

  lemma DropKeeps(s: State, ops: seq<Op>, ss: seq<State>, k: nat, dead: set<string>)
    requires k <= |ops| && k <= |ss| && Indexed(s, ops, ss, k)
    ensures Indexed(DropSessions(s, dead), ops, ss, k)
  {
    forall c
      ensures ListOf(Lists(s.byCredential, dead), c) == Live(Issued(ops, ss, k, c), s.sessions - dead)
    {
      RemainingIsLive(Issued(ops, ss, k, c), s.sessions, dead);
    }
  }

  lemma SweepKeeps(s: State, ops: seq<Op>, ss: seq<State>, k: nat, now: nat)
    requires k <= |ops| && k <= |ss| && Indexed(s, ops, ss, k)
    ensures Indexed(Swept(s, now), ops, ss, k)
  {
    DropKeeps(s, ops, ss, k, ExpiredSessions(s.sessions, now));
  }

  /** Call `k` issues exactly this token, to `c`. */
  ghost predicate Issues(ops: seq<Op>, ss: seq<State>, k: nat, c: string, token: string)
    requires k < |ops| && k < |ss|
  {
    && (forall d | d != c :: Issued(ops, ss, k + 1, d) == Issued(ops, ss, k, d))
    && Issued(ops, ss, k + 1, c) == Issued(ops, ss, k, c) + [token]
  }

  lemma EnlistedList(s: State, ops: seq<Op>, ss: seq<State>, k: nat, c: string, token: string, now: nat)
    requires k < |ops| && k < |ss| && Indexed(s, ops, ss, k) && token !in s.sessions
    requires Apart(ops, ss, k + 1) && Issues(ops, ss, k, c, token)
    ensures var t := Enlist(s, c, token, now); ListOf(t.byCredential, c) == Live(Issued(ops, ss, k + 1, c), t.sessions)
  {
    var before, mine, list := Issued(ops, ss, k, c), Issued(ops, ss, k + 1, c), ListOf(s.byCredential, c) + [token];
    var n, with_ := Excess(list), s.sessions[token := Entry(c, now + SESSION_TTL)];
    assert mine[..|mine| - 1] == before;
    assert token !in before by { assert mine[|mine| - 1] == token; assert NoRepeats(mine); }
    LiveSame(before, s.sessions, with_);
    assert list == Live(mine, with_);
    LiveAre(mine, with_);
    RemainingSuffix(list, n);
    RemainingIsLive(mine, with_, Members(list, n));
  }

  lemma EnlistedRooted(s: State, ops: seq<Op>, ss: seq<State>, k: nat, c: string, token: string, now: nat, x: string)
    requires k < |ops| && k < |ss| && Indexed(s, ops, ss, k) && token !in s.sessions && Issues(ops, ss, k, c, token)
    requires x in Enlist(s, c, token, now).sessions
    ensures x in Issued(ops, ss, k + 1, Enlist(s, c, token, now).sessions[x].credential)
  {
    assert Issued(ops, ss, k + 1, c)[|Issued(ops, ss, k, c)|] == token;
    if x != token { assert x in Issued(ops, ss, k, s.sessions[x].credential); }
  }

  /** Enlisting touches no session outside the credential's own list. */
  lemma OthersUnchanged(s: State, c: string, token: string, now: nat, other: seq<string>)
    requires forall x | x in other :: x !in ListOf(s.byCredential, c) + [token]
    ensures Live(other, Enlist(s, c, token, now).sessions) == Live(other, s.sessions)
  {
    LiveSame(other, s.sessions, Enlist(s, c, token, now).sessions);
  }

  lemma ListedWereIssued(s: State, ops: seq<Op>, ss: seq<State>, k: nat, c: string, token: string, x: string)
    requires k < |ops| && k < |ss| && Indexed(s, ops, ss, k) && Issues(ops, ss, k, c, token)
    requires x in ListOf(s.byCredential, c) + [token]
    ensures x in Issued(ops, ss, k + 1, c)
  {
    var mine := Issued(ops, ss, k, c);
    LiveAre(mine, s.sessions);
    assert Issued(ops, ss, k + 1, c)[|mine|] == token;
  }

  lemma EnlistedOthers(s: State, ops: seq<Op>, ss: seq<State>, k: nat, c: string, token: string, now: nat, d: string)
    requires k < |ops| && k < |ss| && Indexed(s, ops, ss, k) && token !in s.sessions
    requires Apart(ops, ss, k + 1) && Issues(ops, ss, k, c, token) && d != c
    ensures var t := Enlist(s, c, token, now); ListOf(t.byCredential, d) == Live(Issued(ops, ss, k + 1, d), t.sessions)
  {
    var list, other := ListOf(s.byCredential, c) + [token], Issued(ops, ss, k + 1, d);
    forall x | x in list
      ensures x !in other
    {
      ListedWereIssued(s, ops, ss, k, c, token, x);
    }
    OthersUnchanged(s, c, token, now, other);
  }

  lemma EnlistKeeps(s: State, ops: seq<Op>, ss: seq<State>, k: nat, c: string, token: string, now: nat)
    requires k < |ops| && k < |ss| && Indexed(s, ops, ss, k) && token !in s.sessions
    requires Apart(ops, ss, k + 1) && Issues(ops, ss, k, c, token)
    ensures Indexed(Enlist(s, c, token, now), ops, ss, k + 1)
  {
    var t := Enlist(s, c, token, now);
    forall x {:trigger t.sessions[x]} | x in t.sessions
      ensures x in Issued(ops, ss, k + 1, t.sessions[x].credential)
    {
      EnlistedRooted(s, ops, ss, k, c, token, now, x);
    }
    forall d
      ensures ListOf(t.byCredential, d) == Live(Issued(ops, ss, k + 1, d), t.sessions)
    {
      if d == c { EnlistedList(s, ops, ss, k, c, token, now); }
      else { EnlistedOthers(s, ops, ss, k, c, token, now, d); }
    }
  }

  lemma ForgetKeeps(s: State, ops: seq<Op>, ss: seq<State>, k: nat, c: string)
    requires k <= |ops| && k <= |ss| && Indexed(s, ops, ss, k) && Apart(ops, ss, k)
    ensures Indexed(Forget(s, c), ops, ss, k)
  {
    var t, list, mine := Forget(s, c), ListOf(s.byCredential, c), Issued(ops, ss, k, c);
    LiveAre(mine, s.sessions);
    forall d
      ensures ListOf(t.byCredential, d) == Live(Issued(ops, ss, k, d), t.sessions)
    {
      if d == c {
        RemainingNone(list, Members(list, |list|));
        RemainingIsLive(mine, s.sessions, Members(list, |list|));
      } else {
        LiveSame(Issued(ops, ss, k, d), s.sessions, t.sessions);
      }
    }
  }

  // -------------------------------------------------------------------- runs

  lemma RunApart(ops: seq<Op>, ss: seq<State>, k: nat)
    requires k <= |ops| && k <= |ss| && FreshTokens(ops)
    ensures Apart(ops, ss, k)
  {
    forall c
      ensures NoRepeats(Issued(ops, ss, k, c))
    {
      IssuedOnce(ops, ss, k, c);
    }
    forall c, d, t | t in Issued(ops, ss, k, c) && t in Issued(ops, ss, k, d)
      ensures c == d
    {
      IssuedToOne(ops, ss, k, c, d, t);
    }
  }

  lemma NotIssuedBefore(ops: seq<Op>, ss: seq<State>, k: nat, c: string)
    requires k < |ops| && k <= |ss| && FreshTokens(ops) && ops[k].OpenOp? && ops[k].token.Some?
    ensures ops[k].token.value !in Issued(ops, ss, k, c)
  {
    if ops[k].token.value in Issued(ops, ss, k, c) {
      var i := IssuedWasDrawn(ops, ss, k, c, ops[k].token.value);
    }
  }

  lemma IssuesNothing(ops: seq<Op>, ss: seq<State>, k: nat, s: State)
    requires k < |ops| && k < |ss| && Indexed(s, ops, ss, k)
    requires !ops[k].OpenOp? || Opened(ss[k], ops[k].token, ops[k].now).None?
    ensures Indexed(s, ops, ss, k + 1)
  {
    forall c
      ensures Issued(ops, ss, k + 1, c) == Issued(ops, ss, k, c)
    {
      assert Issued(ops, ss, k, c) + [] == Issued(ops, ss, k, c);
    }
  }

  lemma IssuesOne(ops: seq<Op>, ss: seq<State>, k: nat)
    requires k < |ops| && k < |ss| && ops[k].OpenOp? && Opened(ss[k], ops[k].token, ops[k].now).Some?
    ensures Issues(ops, ss, k, ops[k].credential, ops[k].token.value)
  {
    forall d | d != ops[k].credential
      ensures Issued(ops, ss, k + 1, d) == Issued(ops, ss, k, d)
    {
      assert Issued(ops, ss, k, d) + [] == Issued(ops, ss, k, d);
    }
  }

  lemma OpenIndexed(ops: seq<Op>, ss: seq<State>, k: nat)
    requires k < |ops| && k < |ss| && ops[k].OpenOp? && FreshTokens(ops) && Indexed(ss[k], ops, ss, k)
    ensures Indexed(Step(ss[k], ops[k]), ops, ss, k + 1)
  {
    var op, p := ops[k], Swept(ss[k], ops[k].now);
    SweepKeeps(ss[k], ops, ss, k, op.now);
    if Opened(ss[k], op.token, op.now).Some? {
      IssuesOne(ops, ss, k);
      RunApart(ops, ss, k + 1);
      if op.token.value in p.sessions { NotIssuedBefore(ops, ss, k, p.sessions[op.token.value].credential); }
      EnlistKeeps(p, ops, ss, k, op.credential, op.token.value, op.now);
    } else {
      IssuesNothing(ops, ss, k, p);
    }
  }

  lemma OtherIndexed(ops: seq<Op>, ss: seq<State>, k: nat)
    requires k < |ops| && k < |ss| && !ops[k].OpenOp? && FreshTokens(ops) && Indexed(ss[k], ops, ss, k)
    ensures Indexed(Step(ss[k], ops[k]), ops, ss, k + 1)
  {
    var s := ss[k];
    match ops[k] {
      case ChallengeOp(_, now) => SweepKeeps(s, ops, ss, k, now);
      case VerifyOp(_, _, _, _) =>
      case ResolveOp(token, _) => DropKeeps(s, ops, ss, k, {token});
      case ForgetOp(c) =>
        RunApart(ops, ss, k);
        ForgetKeeps(s, ops, ss, k, c);
    }
    IssuesNothing(ops, ss, k, Step(s, ops[k]));
  }

  lemma StepIndexed(ops: seq<Op>, ss: seq<State>, k: nat)
    requires IsRun(ops, ss) && FreshTokens(ops) && k < |ops| && Indexed(ss[k], ops, ss, k)
    ensures Indexed(ss[k + 1], ops, ss, k + 1)
  {
    Followed(ss[k], ops[k], ss[k + 1]);
    if ops[k].OpenOp? { OpenIndexed(ops, ss, k); } else { OtherIndexed(ops, ss, k); }
  }

  lemma StartIndexed(ops: seq<Op>, ss: seq<State>)
    requires ss != []
    ensures Indexed(EMPTY, ops, ss, 0)
  {
  }

  lemma {:induction false} RunIndexed(ops: seq<Op>, ss: seq<State>, k: nat)
    requires IsRun(ops, ss) && FreshTokens(ops) && k < |ss|
    ensures Indexed(ss[k], ops, ss, k)
  {
    if k == 0 {
      StartIndexed(ops, ss);
    } else {
      RunIndexed(ops, ss, k - 1);
      StepIndexed(ops, ss, k - 1);
    }
  }

  /** Over every run with fresh tokens, each credential's list is exactly its live
      sessions, once each, in issue order. */
  lemma ListsAreExact(ops: seq<Op>, ss: seq<State>, k: nat, credential: string)
    requires IsRun(ops, ss) && FreshTokens(ops) && k < |ss|
    ensures ListOf(ss[k].byCredential, credential) == Live(Issued(ops, ss, k, credential), ss[k].sessions)
    ensures NoRepeats(ListOf(ss[k].byCredential, credential))
    ensures forall t ::
              t in ListOf(ss[k].byCredential, credential)
              <==> t in ss[k].sessions && ss[k].sessions[t].credential == credential
  {
    RunIndexed(ops, ss, k);
    RunApart(ops, ss, k);
    OneListExact(ss[k], ops, ss, k, credential);
  }

  lemma OneListExact(s: State, ops: seq<Op>, ss: seq<State>, k: nat, c: string)
    requires k <= |ops| && k <= |ss| && Indexed(s, ops, ss, k) && Apart(ops, ss, k)
    ensures ListOf(s.byCredential, c) == Live(Issued(ops, ss, k, c), s.sessions)
    ensures NoRepeats(ListOf(s.byCredential, c))
    ensures forall t :: t in ListOf(s.byCredential, c) <==> t in s.sessions && s.sessions[t].credential == c
  {
    LiveAre(Issued(ops, ss, k, c), s.sessions);
  }

  // ---------------------------------------------------- what a token is worth

  /** Only Open puts a session on the table, and nothing extends one. */
  lemma SessionStep(s: State, op: Op, t: string)
    requires t in Step(s, op).sessions
    ensures (op.OpenOp? && op.token == Some(t) && Step(s, op).sessions[t] == Entry(op.credential, op.now + SESSION_TTL))
         || (t in s.sessions && Step(s, op).sessions[t] == s.sessions[t])
  {
  }

  /** A live session was opened by an earlier call, for that credential, and ends
      fifteen minutes after it. */
  lemma {:induction false} SessionWasOpened(ops: seq<Op>, ss: seq<State>, k: nat, t: string) returns (i: nat)
    requires IsRun(ops, ss) && k < |ss| && t in ss[k].sessions
    ensures i < k && ops[i].OpenOp? && ops[i].token == Some(t)
    ensures ss[k].sessions[t] == Entry(ops[i].credential, ops[i].now + SESSION_TTL)
  {
    assert Follows(ss[k - 1], ops[k - 1], ss[k - 1 + 1]);
    Followed(ss[k - 1], ops[k - 1], ss[k]);
    SessionStep(ss[k - 1], ops[k - 1], t);
    if t in ss[k - 1].sessions && ss[k].sessions[t] == ss[k - 1].sessions[t] {
      i := SessionWasOpened(ops, ss, k - 1, t);
    } else {
      i := k - 1;
    }
  }

  /** So a token resolves only to the credential it was opened for, and only within
      fifteen minutes of that, however often it is used. */
  lemma ResolvedInTime(ops: seq<Op>, ss: seq<State>, k: nat, t: string, now: nat) returns (i: nat)
    requires IsRun(ops, ss) && k < |ss| && Resolved(ss[k], t, now).Some?
    ensures i < k && ops[i].OpenOp? && ops[i].token == Some(t)
    ensures Resolved(ss[k], t, now) == Some(ops[i].credential) && now < ops[i].now + SESSION_TTL
  {
    i := SessionWasOpened(ops, ss, k, t);
  }

  lemma GoneStaysGone(s: State, op: Op, t: string)
    requires t !in s.sessions && !(op.OpenOp? && op.token == Some(t))
    ensures t !in Step(s, op).sessions
  {
  }

  lemma GoneNext(ops: seq<Op>, ss: seq<State>, k: nat, t: string)
    requires IsRun(ops, ss) && k < |ops| && t !in ss[k].sessions && !(ops[k].OpenOp? && ops[k].token == Some(t))
    ensures t !in ss[k + 1].sessions
  {
    Followed(ss[k], ops[k], ss[k + 1]);
    GoneStaysGone(ss[k], ops[k], t);
  }

  lemma {:induction false} NeverReissued(ops: seq<Op>, ss: seq<State>, drawn: nat, i: nat, j: nat, t: string)
    requires IsRun(ops, ss) && FreshTokens(ops) && drawn < i <= j < |ss|
    requires ops[drawn].OpenOp? && ops[drawn].token == Some(t) && t !in ss[i].sessions
    ensures t !in ss[j].sessions
    decreases j
  {
    if i < j {
      NeverReissued(ops, ss, drawn, i, j - 1, t);
      GoneNext(ops, ss, j - 1, t);
    }
  }

  /** Once a credential is forgotten, no token opened for it before ever resolves
      again. */
  lemma ForgottenForGood(ops: seq<Op>, ss: seq<State>, drawn: nat, i: nat, j: nat, t: string, now: nat)
    requires IsRun(ops, ss) && FreshTokens(ops) && drawn < i < j < |ss|
    requires ops[drawn].OpenOp? && ops[drawn].token == Some(t) && ops[i] == ForgetOp(ops[drawn].credential)
    ensures Resolved(ss[j], t, now) == None
  {
    ForgetRemoves(ops, ss, drawn, i, t);
    NeverReissued(ops, ss, drawn, i + 1, j, t);
  }

  lemma ForgetRemoves(ops: seq<Op>, ss: seq<State>, drawn: nat, i: nat, t: string)
    requires IsRun(ops, ss) && FreshTokens(ops) && drawn < i < |ops|
    requires ops[drawn].OpenOp? && ops[drawn].token == Some(t) && ops[i] == ForgetOp(ops[drawn].credential)
    ensures t !in ss[i + 1].sessions
  {
    var c := ops[drawn].credential;
    Followed(ss[i], ops[i], ss[i + 1]);
    if t in ss[i].sessions {
      var first := SessionWasOpened(ops, ss, i, t);
      assert first == drawn;
      ListsAreExact(ops, ss, i, c);
      assert t in ListOf(ss[i].byCredential, c);
    }
  }

  // ---------------------------------------------------------------------- caps

  ghost predicate ListsFit(byCredential: map<string, seq<string>>) {
    forall c | c in byCredential :: |byCredential[c]| <= 128
  }

  ghost predicate WithinCaps(s: State) {
    |s.nonces| <= 8192 && |s.sessions| <= 16384 && ListsFit(s.byCredential)
  }

  lemma {:induction false} RemainingShorter(list: seq<string>, dead: set<string>)
    ensures |Remaining(list, dead)| <= |list|
  {
    if list != [] { RemainingShorter(list[..|list| - 1], dead); }
  }

  lemma DropFits(s: State, dead: set<string>)
    requires WithinCaps(s)
    ensures WithinCaps(DropSessions(s, dead))
  {
    SubmapSize(s.sessions - dead, s.sessions);
    forall c | c in Lists(s.byCredential, dead)
      ensures |Lists(s.byCredential, dead)[c]| <= MAX_SESSIONS_PER_CREDENTIAL
    {
      RemainingShorter(s.byCredential[c], dead);
    }
  }

  lemma SweepFits(s: State, now: nat)
    requires WithinCaps(s)
    ensures WithinCaps(Swept(s, now))
  {
    DropFits(s, ExpiredSessions(s.sessions, now));
    SubmapSize(LiveNonces(s.nonces, now), s.nonces);
  }

  lemma GrowsByOne<V>(m: map<string, V>, k: string, v: V)
    ensures |m[k := v]| <= |m| + 1
  {
    assert m[k := v].Keys == m.Keys + {k};
  }

  lemma EnlistFits(s: State, c: string, token: string, now: nat)
    requires WithinCaps(s) && |s.sessions| < MAX_SESSIONS
    ensures WithinCaps(Enlist(s, c, token, now))
  {
    var with_ := s.sessions[token := Entry(c, now + SESSION_TTL)];
    GrowsByOne(s.sessions, token, Entry(c, now + SESSION_TTL));
    SubmapSize(Enlist(s, c, token, now).sessions, with_);
  }

  lemma ChallengeFits(s: State, token: Option<string>, now: nat)
    requires WithinCaps(s)
    ensures WithinCaps(Challenge(s, token, now))
  {
    SweepFits(s, now);
    if token.Some? { GrowsByOne(Swept(s, now).nonces, token.value, now + NONCE_TTL); }
  }

  lemma OpenFits(s: State, c: string, token: Option<string>, now: nat)
    requires WithinCaps(s)
    ensures WithinCaps(Open(s, c, token, now))
  {
    SweepFits(s, now);
    if Opened(s, token, now).Some? { EnlistFits(Swept(s, now), c, token.value, now); }
  }

  lemma StepFits(s: State, op: Op)
    requires WithinCaps(s)
    ensures WithinCaps(Step(s, op))
  {
    match op
    case ChallengeOp(token, now) => ChallengeFits(s, token, now);
    case VerifyOp(_, nonce, _, _) => SubmapSize(s.nonces - {nonce}, s.nonces);
    case OpenOp(c, token, now) => OpenFits(s, c, token, now);
    case ResolveOp(token, _) => DropFits(s, {token});
    case ForgetOp(c) => SubmapSize(Forget(s, c).sessions, s.sessions);
  }

  /** Neither table passes its cap, nor any credential its allowance. */
  lemma {:induction false} AlwaysWithinCaps(ops: seq<Op>, ss: seq<State>, k: nat)
    requires IsRun(ops, ss) && k < |ss|
    ensures WithinCaps(ss[k])
  {
    if k > 0 {
      AlwaysWithinCaps(ops, ss, k - 1);
      StepFits(ss[k - 1], ops[k - 1]);
      Followed(ss[k - 1], ops[k - 1], ss[k - 1 + 1]);
    }
  }

  // ------------------------------------------------------------ why they leave

  /** The credential's unexpired sessions when call `k` is made, oldest first. */
  ghost function Standing(ops: seq<Op>, ss: seq<State>, k: nat, credential: string, now: nat): seq<string>
    requires k <= |ops| && k < |ss|
  {
    Live(Issued(ops, ss, k, credential), Swept(ss[k], now).sessions)
  }

  /** The only ways a session ends: its time is up and a call looks, its credential is
      forgotten, or it is the oldest of a full allowance and its own credential opens
      another. */
  ghost predicate Ends(ops: seq<Op>, ss: seq<State>, k: nat, t: string)
    requires k < |ops| && k < |ss| && t in ss[k].sessions
  {
    var e := ss[k].sessions[t];
    match ops[k]
    case ChallengeOp(_, now) => e.expiresAt <= now
    case VerifyOp(_, _, _, _) => false
    case OpenOp(c, token, now) =>
      || e.expiresAt <= now
      || (e.credential == c && Opened(ss[k], token, now).Some?
          && var standing := Standing(ops, ss, k, c, now);
             |standing| == 128 && standing[0] == t)
    case ResolveOp(x, now) => x == t && x != "" && e.expiresAt <= now
    case ForgetOp(c) => e.credential == c
  }

  /** Enlisting one more removes the head of a full list and nothing else. */
  lemma EnlistRemoves(s: State, c: string, token: string, now: nat, t: string)
    requires t in s.sessions && t != token && |ListOf(s.byCredential, c)| <= MAX_SESSIONS_PER_CREDENTIAL
    ensures t !in Enlist(s, c, token, now).sessions
       <==> |ListOf(s.byCredential, c)| == MAX_SESSIONS_PER_CREDENTIAL && ListOf(s.byCredential, c)[0] == t
  {
    var list := ListOf(s.byCredential, c) + [token];
    assert list[0] == if |list| > 1 then ListOf(s.byCredential, c)[0] else token;
    assert (set i | 0 <= i < Excess(list) :: list[i]) == if Excess(list) == 1 then {list[0]} else {};
  }

  lemma OpenRemoves(s: State, c: string, token: Option<string>, now: nat, t: string)
    requires t in s.sessions && token != Some(t)
             && |ListOf(Swept(s, now).byCredential, c)| <= MAX_SESSIONS_PER_CREDENTIAL
    ensures var list := ListOf(Swept(s, now).byCredential, c);
            t !in Open(s, c, token, now).sessions
            <==> || s.sessions[t].expiresAt <= now
                 || (Opened(s, token, now).Some? && |list| == MAX_SESSIONS_PER_CREDENTIAL && list[0] == t)
  {
    if Opened(s, token, now).Some? && now < s.sessions[t].expiresAt {
      EnlistRemoves(Swept(s, now), c, token.value, now, t);
    }
  }

  lemma StandingIs(ops: seq<Op>, ss: seq<State>, k: nat, c: string, now: nat)
    requires IsRun(ops, ss) && FreshTokens(ops) && k < |ops|
    ensures var standing, p := Standing(ops, ss, k, c, now), Swept(ss[k], now);
            && ListOf(p.byCredential, c) == standing && |standing| <= MAX_SESSIONS_PER_CREDENTIAL
            && forall t | t in standing :: t in p.sessions && p.sessions[t].credential == c
  {
    var p := Swept(ss[k], now);
    RunIndexed(ops, ss, k);
    RunApart(ops, ss, k);
    SweepKeeps(ss[k], ops, ss, k, now);
    OneListExact(p, ops, ss, k, c);
    AlwaysWithinCaps(ops, ss, k);
    SweepFits(ss[k], now);
  }

  lemma DrawsAnother(ops: seq<Op>, ss: seq<State>, k: nat, t: string)
    requires IsRun(ops, ss) && FreshTokens(ops) && k < |ops| && ops[k].OpenOp? && t in ss[k].sessions
    ensures ops[k].token != Some(t)
  {
    var i := SessionWasOpened(ops, ss, k, t);
  }

  lemma OpenEnds(ops: seq<Op>, ss: seq<State>, k: nat, t: string)
    requires IsRun(ops, ss) && FreshTokens(ops) && k < |ops| && ops[k].OpenOp? && t in ss[k].sessions
    ensures t !in Open(ss[k], ops[k].credential, ops[k].token, ops[k].now).sessions <==> Ends(ops, ss, k, t)
  {
    var c, now := ops[k].credential, ops[k].now;
    StandingIs(ops, ss, k, c, now);
    DrawsAnother(ops, ss, k, t);
    OpenRemoves(ss[k], c, ops[k].token, now, t);
    var standing := Standing(ops, ss, k, c, now);
    assert standing != [] && standing[0] == t ==> t in standing;
  }

  lemma ForgetEnds(ops: seq<Op>, ss: seq<State>, k: nat, t: string)
    requires IsRun(ops, ss) && FreshTokens(ops) && k < |ops| && ops[k].ForgetOp? && t in ss[k].sessions
    ensures t !in Step(ss[k], ops[k]).sessions <==> Ends(ops, ss, k, t)
  {
    ListsAreExact(ops, ss, k, ops[k].credential);
  }

  /** Over every run with fresh tokens, a session leaves the table exactly then. */
  lemma SessionLeavesIff(ops: seq<Op>, ss: seq<State>, k: nat, t: string)
    requires IsRun(ops, ss) && FreshTokens(ops) && k < |ops| && t in ss[k].sessions
    ensures t !in ss[k + 1].sessions <==> Ends(ops, ss, k, t)
  {
    Followed(ss[k], ops[k], ss[k + 1]);
    if ops[k].OpenOp? { OpenEnds(ops, ss, k, t); }
    else if ops[k].ForgetOp? { ForgetEnds(ops, ss, k, t); }
  }
}
