/** A set of small numbers kept as bits of 64-bit words. */
module Bitmap {
  import opened Common

  /** The word with only that bit set. */
  function Mask(bit: nat): bv64
    requires bit < 64
  {
    (1 as bv64) << bit
  }

  function Words(n: nat): nat { (n + 63) / 64 }

  function Blank(n: nat): seq<bv64> { seq(Words(n), _ => 0 as bv64) }

  predicate BitOn(seen: seq<bv64>, k: nat) {
    k / 64 < |seen| && seen[k / 64] & Mask(k % 64) != 0
  }

  /** Number `k` is in the set. */
  ghost predicate IsSet(seen: seq<bv64>, k: nat) {
    forall i {:trigger Unsealed(i)} :: Unsealed(i) ==> BitOn(seen, k)
  }

  lemma IsSetIsBitOn(seen: seq<bv64>, k: nat)
    ensures IsSet(seen, k) <==> BitOn(seen, k)
  {
    assert Unsealed(0);
  }

  function Mark(seen: seq<bv64>, k: nat): seq<bv64> {
    if k / 64 < |seen| then seen[k / 64 := seen[k / 64] | Mask(k % 64)] else seen
  }

  lemma WordInRange(n: nat, k: nat)
    requires k < n
    ensures k / 64 < Words(n)
  {
  }

  // The arithmetic of one word, on bit vectors alone.

  lemma OneBit(x: bv64, b: bv6, c: bv6)
    ensures ((x | (1 << b)) & (1 << c)) != 0 <==> (x & (1 << c)) != 0 || b == c
  {
  }

  lemma BitRoundTrip(b: nat)
    requires b < 64
    ensures (b as bv6) as int == b
  {
  }

  lemma MaskOfBit(b: nat)
    requires b < 64
    ensures Mask(b) == (1 as bv64) << (b as bv6)
  {
  }

  lemma SetInWord(x: bv64, b: nat, c: nat)
    requires b < 64 && c < 64
    ensures ((x | Mask(b)) & Mask(c)) != 0 <==> (x & Mask(c)) != 0 || b == c
  {
    BitRoundTrip(b);
    BitRoundTrip(c);
    MaskOfBit(b);
    MaskOfBit(c);
    OneBit(x, b as bv6, c as bv6);
  }

  lemma NoBitOfZero(b: nat)
    requires b < 64
    ensures (0 as bv64) & Mask(b) == 0
  {
  }

  lemma MarkWord(seen: seq<bv64>, w: nat, b: nat, v: nat, c: nat)
    requires w < |seen| && v < |seen| && b < 64 && c < 64
    ensures seen[w := seen[w] | Mask(b)][v] & Mask(c) != 0 <==> seen[v] & Mask(c) != 0 || (w == v && b == c)
  {
    if w == v { SetInWord(seen[w], b, c); }
  }

  /** Marking adds exactly that number to the set. */
  lemma MarkAdds(seen: seq<bv64>, k: nat, j: nat)
    requires k / 64 < |seen| && j / 64 < |seen|
    ensures IsSet(Mark(seen, k), j) <==> IsSet(seen, j) || j == k
  {
    MarkBit(seen, k, j);
    IsSetIsBitOn(Mark(seen, k), j);
    IsSetIsBitOn(seen, j);
  }

  lemma MarkBit(seen: seq<bv64>, k: nat, j: nat)
    requires k / 64 < |seen| && j / 64 < |seen|
    ensures BitOn(Mark(seen, k), j) <==> BitOn(seen, j) || j == k
  {
    SamePlace(k, j);
    MarkAt(seen, k, k / 64, k % 64, j, j / 64, j % 64);
  }

  lemma MarkAt(seen: seq<bv64>, k: nat, w: nat, b: nat, j: nat, v: nat, c: nat)
    requires w == k / 64 && b == k % 64 && v == j / 64 && c == j % 64 && w < |seen| && v < |seen|
    ensures BitOn(Mark(seen, k), j) <==> BitOn(seen, j) || (w == v && b == c)
  {
    MarkWord(seen, w, b, v, c);
  }

  lemma SamePlace(k: nat, j: nat)
    ensures k == j <==> k / 64 == j / 64 && k % 64 == j % 64
  {
  }

  lemma BlankIsEmpty(n: nat, k: nat)
    requires k < n
    ensures k / 64 < |Blank(n)| && !IsSet(Blank(n), k)
  {
    WordInRange(n, k);
    NoBitOfZero(k % 64);
    IsSetIsBitOn(Blank(n), k);
  }

  // ------------------------------------------------------- the set it encodes

  /** Over the numbers below `n`, the words encode exactly `marks`. */
  ghost predicate Encodes(seen: seq<bv64>, n: nat, marks: set<nat>) {
    |seen| == Words(n)
    && forall i {:trigger Unsealed(i)} :: Unsealed(i) ==>
         forall k: nat | k < n :: k / 64 < |seen| && (IsSet(seen, k) <==> k in marks)
  }

  lemma EncodesAt(seen: seq<bv64>, n: nat, marks: set<nat>, k: nat)
    requires Encodes(seen, n, marks) && k < n
    ensures k / 64 < |seen| && (IsSet(seen, k) <==> k in marks)
  {
    assert Unsealed(0);
  }

  lemma BlankEncodes(n: nat)
    ensures Encodes(Blank(n), n, {})
  {
    forall k: nat | k < n
      ensures k / 64 < |Blank(n)| && !IsSet(Blank(n), k)
    {
      BlankIsEmpty(n, k);
    }
  }

  lemma MarkEncodesAt(seen: seq<bv64>, n: nat, marks: set<nat>, k: nat, j: nat)
    requires Encodes(seen, n, marks) && k < n && j < n && k / 64 < |seen|
    ensures j / 64 < |seen| && (IsSet(Mark(seen, k), j) <==> j in marks + {k})
  {
    EncodesAt(seen, n, marks, j);
    MarkAdds(seen, k, j);
  }

  lemma MarkEncodes(seen: seq<bv64>, n: nat, marks: set<nat>, k: nat)
    requires Encodes(seen, n, marks) && k < n
    ensures k / 64 < |seen| && Encodes(Mark(seen, k), n, marks + {k})
  {
    EncodesAt(seen, n, marks, k);
    forall j: nat | j < n
      ensures j / 64 < |seen| && (IsSet(Mark(seen, k), j) <==> j in marks + {k})
    {
      MarkEncodesAt(seen, n, marks, k, j);
    }
  }
}
