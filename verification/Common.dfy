/** Small shared vocabulary: optional values, time units and the smaller-cap rule. */
module Common {

  datatype Option<+T> = None | Some(value: T)

  /** Instants and spans are counted in nanoseconds. */
  const SECOND := 1_000_000_000
  const HOUR := 3600 * SECOND

  /** A predicate written `forall i {:trigger Unsealed(i)} :: Unsealed(i) ==> body`
      says `body`, but a proof sees inside only where it mentions Unsealed(0). */
  ghost predicate Unsealed(i: int) { i == i }

  /** A credential may lower a box cap and never raise it; zero (or less) means
      "the box's own cap".  Both the queue and the attachment relay resolve every
      per-credential figure this way. */
  function LowerOf(box: int, credential: int): (cap: int)
    ensures cap <= box
    ensures 0 < box ==> 0 < cap
    ensures 0 < credential ==> cap <= credential
    ensures credential <= 0 ==> cap == box
    ensures cap == box || cap == credential
  {
    if credential <= 0 || box < credential then box else credential
  }

  function Max(a: int, b: int): int { if a < b then b else a }

  function Min(a: int, b: int): int { if a < b then a else b }

  /** One thing that can be wrong with a request, and the answer it gets. */
  datatype Check<+E> = Check(fails: bool, error: E)

  /** The answer of the first check that fails. */
  function First<E>(checks: seq<Check<E>>): Option<E> {
    if checks == [] then None
    else if checks[0].fails then Some(checks[0].error)
    else First(checks[1..])
  }

  lemma FirstFrom<E>(checks: seq<Check<E>>, i: nat)
    requires i < |checks|
    ensures First(checks[i..]) == if checks[i].fails then Some(checks[i].error) else First(checks[i + 1..])
  {
  }

  lemma FirstOfFive<E>(c: seq<Check<E>>)
    requires |c| == 5
    ensures First(c) == if c[0].fails then Some(c[0].error) else if c[1].fails then Some(c[1].error)
                        else if c[2].fails then Some(c[2].error) else if c[3].fails then Some(c[3].error)
                        else if c[4].fails then Some(c[4].error) else None
  {
    forall i | 0 <= i < 5
      ensures First(c[i..]) == if c[i].fails then Some(c[i].error) else First(c[i + 1..])
    {
      FirstFrom(c, i);
    }
    assert c[0..] == c && c[5..] == [];
  }

  /** A table of ten read to its end. */
  lemma FirstOfTen<E>(c: seq<Check<E>>)
    requires |c| == 10
    ensures First(c) == if c[0].fails then Some(c[0].error) else if c[1].fails then Some(c[1].error)
                        else if c[2].fails then Some(c[2].error) else if c[3].fails then Some(c[3].error)
                        else First(c[4..])
    ensures First(c[4..]) == if c[4].fails then Some(c[4].error) else if c[5].fails then Some(c[5].error)
                             else if c[6].fails then Some(c[6].error) else if c[7].fails then Some(c[7].error)
                             else First(c[8..])
    ensures First(c[8..]) == if c[8].fails then Some(c[8].error) else if c[9].fails then Some(c[9].error) else None
  {
    forall i | 0 <= i < 10
      ensures First(c[i..]) == if c[i].fails then Some(c[i].error) else First(c[i + 1..])
    {
      FirstFrom(c, i);
    }
    assert c[0..] == c && c[10..] == [];
  }
}
