/** The admission gate's tables changed in place. */
module SessionStore {
  import opened Common
  import opened Sessions
  import opened SessionRules

  /** Listed tokens have sessions under that credential, once each; no list is empty. */
  ghost predicate Consistent(s: State) {
    forall c | c in s.byCredential ::
      s.byCredential[c] != [] && NoRepeats(s.byCredential[c])
      && forall i | 0 <= i < |s.byCredential[c]| ::
           s.byCredential[c][i] in s.sessions && s.sessions[s.byCredential[c][i]].credential == c
  }

  lemma {:induction false} RemainingTwice(list: seq<string>, a: set<string>, b: set<string>)
    ensures Remaining(Remaining(list, a), b) == Remaining(list, a + b)
  {
    if list != [] {
      var rest, last := Remaining(list[..|list| - 1], a), list[|list| - 1];
      RemainingTwice(list[..|list| - 1], a, b);
      assert (rest + [last])[..|rest|] == rest;
    }
  }

  lemma {:induction false} RemainingAll(list: seq<string>, dead: set<string>)
    requires forall i | 0 <= i < |list| :: list[i] !in dead
    ensures Remaining(list, dead) == list
  {
    if list != [] { RemainingAll(list[..|list| - 1], dead); }
  }

  lemma {:induction false} RemainingFrom(list: seq<string>, dead: set<string>)
    ensures forall i | 0 <= i < |Remaining(list, dead)| ::
              Remaining(list, dead)[i] in list && Remaining(list, dead)[i] !in dead
    ensures NoRepeats(list) ==> NoRepeats(Remaining(list, dead))
  {
    if list != [] {
      var n := |list| - 1;
      RemainingFrom(list[..n], dead);
      var rest := Remaining(list[..n], dead);
      forall i | 0 <= i < |rest| && NoRepeats(list)
        ensures rest[i] != list[n]
      {
        assert rest[i] in list[..n];
      }
    }
  }

  lemma ListsTwice(by_: map<string, seq<string>>, a: set<string>, b: set<string>)
    ensures Lists(Lists(by_, a), b) == Lists(by_, a + b)
  {
    forall c | c in by_
      ensures Remaining(Remaining(by_[c], a), b) == Remaining(by_[c], a + b)
    {
      RemainingTwice(by_[c], a, b);
    }
    assert forall c | c in by_ && Remaining(by_[c], a) == [] :: Remaining(by_[c], a + b) == [];
  }

  lemma ListsNone(by_: map<string, seq<string>>)
    requires forall c | c in by_ :: by_[c] != []
    ensures Lists(by_, {}) == by_
  {
    forall c | c in by_ ensures Remaining(by_[c], {}) == by_[c] { RemainingAll(by_[c], {}); }
  }

  /** Filtering the owner's list is filtering them all. */
  lemma OneListEnough(s: State, token: string)
    requires Consistent(s) && token in s.sessions
    ensures var c := s.sessions[token].credential;
            var left := Remaining(ListOf(s.byCredential, c), {token});
            Lists(s.byCredential, {token}) == if left == [] then s.byCredential - {c} else s.byCredential[c := left]
  {
    var c := s.sessions[token].credential;
    forall d | d in s.byCredential && d != c
      ensures Remaining(s.byCredential[d], {token}) == s.byCredential[d]
    {
      RemainingAll(s.byCredential[d], {token});
    }
  }

  lemma DropConsistent(s: State, dead: set<string>)
    requires Consistent(s)
    ensures Consistent(DropSessions(s, dead))
  {
    var t := DropSessions(s, dead);
    forall c | c in t.byCredential
      ensures NoRepeats(t.byCredential[c])
      ensures forall i | 0 <= i < |t.byCredential[c]| ::
                t.byCredential[c][i] in t.sessions && t.sessions[t.byCredential[c][i]].credential == c
    {
      RemainingFrom(s.byCredential[c], dead);
    }
  }

  lemma EnlistConsistent(s: State, credential: string, token: string, now: nat)
    requires Consistent(s) && token !in s.sessions
    ensures Consistent(Enlist(s, credential, token, now))
  {
    var list := ListOf(s.byCredential, credential);
    assert forall i | 0 <= i < |list| :: list[i] != token;
  }

  lemma ForgetConsistent(s: State, credential: string)
    requires Consistent(s)
    ensures Consistent(Forget(s, credential))
  {
  }

  class Gate {
    var nonces: map<string, int>
    var sessions: map<string, Entry>
    var byCredential: map<string, seq<string>>

    ghost function View(): State
      reads this
    {
      State(nonces, sessions, byCredential)
    }

    ghost predicate Valid()
      reads this
    {
      Consistent(View())
    }

    constructor ()
      ensures Valid() && View() == EMPTY
    {
      nonces, sessions, byCredential := map[], map[], map[];
    }

    /** Remove a session and its place in its credential's list. */
    method DropLocked(token: string, credential: string)
      requires Valid() && token in sessions && sessions[token].credential == credential
      modifies `sessions, `byCredential
      ensures Valid() && View() == DropSessions(old(View()), {token})
    {
      OneListEnough(View(), token);
      DropConsistent(View(), {token});
      sessions := sessions - {token};
      var tokens := ListOf(byCredential, credential);
      var remaining: seq<string> := [];
      for i := 0 to |tokens|
        invariant remaining == Remaining(tokens[..i], {token})
      {
        assert tokens[..i + 1][..i] == tokens[..i];
        if tokens[i] != token { remaining := remaining + [tokens[i]]; }
      }
      assert tokens[..|tokens|] == tokens;
      if |remaining| == 0 { byCredential := byCredential - {credential}; }
      else { byCredential := byCredential[credential := remaining]; }
    }

    method SweepNonces(now: nat)
      modifies `nonces
      ensures nonces == LiveNonces(old(nonces), now)
    {
      ghost var before := nonces;
      var keys := nonces.Keys;
      while keys != {}
        invariant keys <= nonces.Keys <= before.Keys
        invariant forall n | n in nonces :: nonces[n] == before[n]
        invariant forall n | n in before && n !in keys :: n in nonces <==> now < before[n]
      {
        var key :| key in keys;
        keys := keys - {key};
        if nonces[key] <= now { nonces := nonces - {key}; }
      }
    }

    method SweepSessions(now: nat)
      requires Valid()
      modifies `sessions, `byCredential
      ensures Valid() && View() == DropSessions(old(View()), ExpiredSessions(old(sessions), now))
    {
      ghost var before := View();
      ghost var dead: set<string> := {};
      ListsNone(byCredential);
      var keys := sessions.Keys;
      while keys != {}
        invariant Valid() && View() == DropSessions(before, dead) && keys <= sessions.Keys
                  && dead <= before.sessions.Keys
        invariant forall t | t in before.sessions && t !in keys :: t in dead <==> before.sessions[t].expiresAt <= now
      {
        var token :| token in keys;
        keys := keys - {token};
        if sessions[token].expiresAt <= now {
          DropTwice(before, dead, {token});
          DropLocked(token, sessions[token].credential);
          dead := dead + {token};
        }
      }
      assert dead == ExpiredSessions(before.sessions, now);
    }

    method SweepLocked(now: nat)
      requires Valid()
      modifies this
      ensures Valid() && View() == Swept(old(View()), now)
    {
      SweepNonces(now);
      SweepSessions(now);
    }

    /** A single-use nonce, `fresh_` being what the random source gave. */
    method Challenge(fresh_: Option<string>, now: nat) returns (nonce: Option<string>)
      requires Valid()
      modifies this
      ensures Valid() && View() == Sessions.Challenge(old(View()), fresh_, now)
      ensures nonce == Challenged(old(View()), fresh_, now)
    {
      SweepLocked(now);
      if |nonces| >= MAX_NONCES || fresh_.None? { return None; }
      nonces := nonces[fresh_.value := now + NONCE_TTL];
      nonce := fresh_;
    }

    /** The nonce is spent first, then the signature is looked at. */
    method VerifyProof(verify: Verifier, credential: string, nonce: string, signature: string, now: nat)
      returns (ok: bool)
      requires Valid()
      modifies this
      ensures Valid() && View() == SpendNonce(old(View()), nonce)
      ensures ok == ProofAccepted(verify, old(View()), credential, nonce, signature, now)
    {
      var spent := nonce in nonces && now < nonces[nonce];
      nonces := nonces - {nonce};
      ok := spent && verify(credential, nonce, signature);
    }

    /** A session; the credential's oldest makes way past the allowance.  The tables
        stay consistent unless the random source repeats a token still in use. */
    method Open(credential: string, fresh_: Option<string>, now: nat) returns (token: Option<string>)
      requires Valid()
      modifies this
      ensures View() == Sessions.Open(old(View()), credential, fresh_, now)
      ensures (fresh_.Some? ==> fresh_.value !in Swept(old(View()), now).sessions) ==> Valid()
      ensures token == Opened(old(View()), fresh_, now)
    {
      SweepLocked(now);
      if |sessions| >= MAX_SESSIONS || fresh_.None? { return None; }
      if fresh_.value !in sessions { EnlistConsistent(View(), credential, fresh_.value, now); }
      EnlistLocked(credential, fresh_.value, now);
      token := fresh_;
    }

    method EnlistLocked(credential: string, token: string, now: nat)
      modifies `sessions, `byCredential
      ensures View() == Enlist(old(View()), credential, token, now)
    {
      sessions := sessions[token := Entry(credential, now + SESSION_TTL)];
      ghost var with_ := sessions;
      var tokens := ListOf(byCredential, credential) + [token];
      ghost var all := tokens;
      ghost var n := 0;
      while |tokens| > MAX_SESSIONS_PER_CREDENTIAL
        invariant 0 <= n <= Excess(all) && tokens == all[n..]
        invariant sessions == with_ - Members(all, n) && byCredential == old(byCredential)
      {
        assert Members(all, n + 1) == Members(all, n) + {all[n]};
        sessions := sessions - {tokens[0]};
        tokens := tokens[1..];
        n := n + 1;
      }
      byCredential := byCredential[credential := tokens];
    }

    method Resolve(token: string, now: nat) returns (credential: Option<string>)
      requires Valid()
      modifies this
      ensures Valid() && View() == Sessions.Resolve(old(View()), token, now)
      ensures credential == Resolved(old(View()), token, now)
    {
      if token == "" || token !in sessions { return None; }
      var entry := sessions[token];
      if entry.expiresAt <= now {
        DropLocked(token, entry.credential);
        return None;
      }
      credential := Some(entry.credential);
    }

    method Forget(credential: string)
      requires Valid()
      modifies this
      ensures Valid() && View() == Sessions.Forget(old(View()), credential)
    {
      ForgetConsistent(View(), credential);
      ghost var before := sessions;
      var tokens := ListOf(byCredential, credential);
      for i := 0 to |tokens|
        invariant sessions == before - Members(tokens, i) && byCredential == old(byCredential) && nonces == old(nonces)
      {
        assert Members(tokens, i + 1) == Members(tokens, i) + {tokens[i]};
        sessions := sessions - {tokens[i]};
      }
      byCredential := byCredential - {credential};
    }
  }

  lemma DropTwice(s: State, a: set<string>, b: set<string>)
    ensures DropSessions(DropSessions(s, a), b) == DropSessions(s, a + b)
  {
    ListsTwice(s.byCredential, a, b);
    assert s.sessions - a - b == s.sessions - (a + b);
  }
}
