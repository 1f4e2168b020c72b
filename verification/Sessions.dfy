/** The admission gate's two tables as values: outstanding challenges and live
    sessions, with each credential's tokens in issue order. */
module Sessions {
  import opened Common

  const NONCE_TTL := 30 * SECOND
  const SESSION_TTL := 15 * 60 * SECOND
  const MAX_NONCES := 8192
  const MAX_SESSIONS_PER_CREDENTIAL := 128
  const MAX_SESSIONS := 16384

  datatype Entry = Entry(credential: string, expiresAt: int)

  datatype State = State(nonces: map<string, int>, sessions: map<string, Entry>, byCredential: map<string, seq<string>>)

  const EMPTY := State(map[], map[], map[])

  function ListOf(byCredential: map<string, seq<string>>, credential: string): seq<string> {
    if credential in byCredential then byCredential[credential] else []
  }

  // ----------------------------------------------------------------- dropping

  /** A list without the tokens in `dead`, order kept. */
  function Remaining(list: seq<string>, dead: set<string>): seq<string> {
    if list == [] then []
    else
      var rest, last := Remaining(list[..|list| - 1], dead), list[|list| - 1];
      if last in dead then rest else rest + [last]
  }

  /** No list is kept empty. */
  function Lists(byCredential: map<string, seq<string>>, dead: set<string>): map<string, seq<string>> {
    map c | c in byCredential && Remaining(byCredential[c], dead) != [] :: Remaining(byCredential[c], dead)
  }

  function DropSessions(s: State, dead: set<string>): State {
    s.(sessions := s.sessions - dead, byCredential := Lists(s.byCredential, dead))
  }

  function ExpiredSessions(sessions: map<string, Entry>, now: nat): set<string> {
    set t | t in sessions && sessions[t].expiresAt <= now
  }

  function LiveNonces(nonces: map<string, int>, now: nat): map<string, int> {
    map n | n in nonces && now < nonces[n] :: nonces[n]
  }

  function Swept(s: State, now: nat): State {
    DropSessions(s, ExpiredSessions(s.sessions, now)).(nonces := LiveNonces(s.nonces, now))
  }

  // --------------------------------------------------------------- operations

  /** A token is missing when the random source fails. */
  function Challenge(s: State, token: Option<string>, now: nat): State {
    var p := Swept(s, now);
    if |p.nonces| >= MAX_NONCES || token.None? then p else p.(nonces := p.nonces[token.value := now + NONCE_TTL])
  }

  function Challenged(s: State, token: Option<string>, now: nat): Option<string> {
    if |Swept(s, now).nonces| >= MAX_NONCES then None else token
  }

  /** The nonce is gone whether or not the proof holds. */
  function SpendNonce(s: State, nonce: string): State { s.(nonces := s.nonces - {nonce}) }

  predicate Spendable(s: State, nonce: string, now: nat) { nonce in s.nonces && now < s.nonces[nonce] }

  /** Ed25519 over the transcript, whatever it decides. */
  type Verifier = (string, string, string) -> bool

  predicate ProofAccepted(verify: Verifier, s: State, credential: string, nonce: string, signature: string, now: nat) {
    Spendable(s, nonce, now) && verify(credential, nonce, signature)
  }

  /** The oldest tokens past the allowance. */
  function Excess(list: seq<string>): nat {
    if |list| > MAX_SESSIONS_PER_CREDENTIAL then |list| - MAX_SESSIONS_PER_CREDENTIAL else 0
  }

  function Enlist(s: State, credential: string, token: string, now: nat): State {
    var list := ListOf(s.byCredential, credential) + [token];
    var n := Excess(list);
    s.(sessions := s.sessions[token := Entry(credential, now + SESSION_TTL)] - set i | 0 <= i < n :: list[i],
       byCredential := s.byCredential[credential := list[n..]])
  }

  function Open(s: State, credential: string, token: Option<string>, now: nat): State {
    var p := Swept(s, now);
    if |p.sessions| >= MAX_SESSIONS || token.None? then p else Enlist(p, credential, token.value, now)
  }

  function Opened(s: State, token: Option<string>, now: nat): Option<string> {
    if |Swept(s, now).sessions| >= MAX_SESSIONS then None else token
  }

  function Resolve(s: State, token: string, now: nat): State {
    if token != "" && token in s.sessions && s.sessions[token].expiresAt <= now then DropSessions(s, {token}) else s
  }

  function Resolved(s: State, token: string, now: nat): Option<string> {
    if token != "" && token in s.sessions && now < s.sessions[token].expiresAt
    then Some(s.sessions[token].credential) else None
  }

  function Forget(s: State, credential: string): State {
    var list := ListOf(s.byCredential, credential);
    s.(sessions := s.sessions - set i | 0 <= i < |list| :: list[i],
       byCredential := s.byCredential - {credential})
  }

  // --------------------------------------------------------------------- runs

  datatype Op =
    | ChallengeOp(token: Option<string>, now: nat)
    | VerifyOp(credential: string, nonce: string, signature: string, now: nat)
    | OpenOp(credential: string, token: Option<string>, now: nat)
    | ResolveOp(token_: string, now: nat)
    | ForgetOp(credential: string)

  function Step(s: State, op: Op): State {
    match op
    case ChallengeOp(token, now) => Challenge(s, token, now)
    case VerifyOp(_, nonce, _, _) => SpendNonce(s, nonce)
    case OpenOp(credential, token, now) => Open(s, credential, token, now)
    case ResolveOp(token, now) => Resolve(s, token, now)
    case ForgetOp(credential) => Forget(s, credential)
  }

  /** `t` is what the call leaves of `s`. */
  ghost predicate Follows(s: State, op: Op, t: State) {
    forall i {:trigger Unsealed(i)} :: Unsealed(i) ==> t == Step(s, op)
  }

  lemma Followed(s: State, op: Op, t: State)
    requires Follows(s, op, t)
    ensures t == Step(s, op)
  {
    assert Unsealed(0);
  }

  /** `ss` are the states the gate passes through under `ops`. */
  ghost predicate IsRun(ops: seq<Op>, ss: seq<State>) {
    && |ss| == |ops| + 1 && ss[0] == EMPTY
    && forall k {:trigger ops[k]} | 0 <= k < |ops| :: Follows(ss[k], ops[k], ss[k + 1])
  }
}
