/** Arrival numbers over time: a call never gives a record a number that is already
    past. */
module QueueArrivals {
  import opened QueueModel
  import opened QueueMoves
  import opened QueueSteps
  import opened QueueInvariant
  import opened QueuePaging

  /** The record is stored under that number. */
  predicate Holds(s: State, e: Entry) {
    Stored(s, e.ref) && SeqOf(s, e.ref) == e.no
  }

  /** Whatever `t` holds under a number `s` had already reached, `s` holds too. */
  ghost predicate OnlyNewer(s: State, t: State) {
    && s.seqNo <= t.seqNo
    && forall e: Entry {:trigger Holds(t, e)} :: e.no <= s.seqNo && Holds(t, e) ==> Holds(s, e)
  }

  lemma OnlyNewerTrans(s: State, t: State, u: State)
    requires OnlyNewer(s, t) && OnlyNewer(t, u)
    ensures OnlyNewer(s, u)
  {
  }

  lemma InsertMessageOnlyNewer(s: State, e: Envelope, credential: nat)
    ensures OnlyNewer(s, InsertMessage(s, e, credential))
  {
  }

  lemma InsertAckOnlyNewer(s: State, a: Ack)
    ensures OnlyNewer(s, InsertAck(s, a))
  {
  }

  lemma DropOnlyNewer(s: State, ms: set<string>, as_: set<string>)
    ensures OnlyNewer(s, Drop(s, ms, as_))
  {
  }

  lemma MoveOnlyNewer(s: State, mv: Move)
    ensures OnlyNewer(s, Apply(s, mv))
  {
    match mv
    case Queue(e, a, credential) =>
      InsertAckOnlyNewer(s, a);
      InsertMessageOnlyNewer(InsertAck(s, a), e, credential);
      OnlyNewerTrans(s, InsertAck(s, a), Apply(s, mv));
    case Adopt(e) => InsertMessageOnlyNewer(s, e, 0);
    case Record(a) =>
      InsertAckOnlyNewer(s, a);
      DropOnlyNewer(InsertAck(s, a), {a.messageId}, {});
      if Terminal(a.kind) {
        OnlyNewerTrans(s, InsertAck(s, a), Apply(s, mv));
      }
    case Expire(ms, as_) => DropOnlyNewer(s, ms, as_);
    case Bury(_, ms, as_) => DropOnlyNewer(s, ms, as_);
    case Entomb(_) =>
      forall e | Holds(Apply(s, mv), e) ensures Holds(s, e) { }
  }

  lemma {:induction false} PlayOnlyNewer(s: State, mvs: seq<Move>)
    ensures OnlyNewer(s, Play(s, mvs))
  {
    if mvs != [] {
      var t := Play(s, mvs[..|mvs| - 1]);
      PlayOnlyNewer(s, mvs[..|mvs| - 1]);
      MoveOnlyNewer(t, mvs[|mvs| - 1]);
      OnlyNewerTrans(s, t, Play(s, mvs));
    }
  }

  /** No call renumbers a record or reuses a number. */
  lemma StepOnlyNewer(cfg: Config, s: State, op: Op)
    requires cfg.Valid() && Inv(cfg, s)
    ensures OnlyNewer(s, Step(cfg, s, op))
  {
    var mvs := StepMoves(cfg, s, op);
    PlayOnlyNewer(s, mvs);
  }
}
