/** Go strings that arrive through a JSON decoder are valid UTF-8, so a Dafny
    string (a sequence of Unicode scalar values) stands for one.  This module
    gives the three string operations the relay's decisions depend on: trimming,
    length in bytes, and the NUL-separated lane key. */
module Text {

  /** The scalar values that Go's unicode.IsSpace accepts. */
  predicate IsSpace(c: char) {
    var n := c as int;
    || 9 <= n <= 13 || n == 32 || n == 0x85 || n == 0xA0 || n == 0x1680
    || 0x2000 <= n <= 0x200A || n == 0x2028 || n == 0x2029 || n == 0x202F
    || n == 0x205F || n == 0x3000
  }

  function TrimLeft(s: string): string {
    if s != [] && IsSpace(s[0]) then TrimLeft(s[1..]) else s
  }

  function TrimRight(s: string): string {
    if s != [] && IsSpace(s[|s| - 1]) then TrimRight(s[..|s| - 1]) else s
  }

  /** strings.TrimSpace. */
  function Trim(s: string): string {
    TrimRight(TrimLeft(s))
  }

  lemma {:induction false} TrimLeftEnds(s: string)
    ensures TrimLeft(s) != [] ==> !IsSpace(TrimLeft(s)[0])
  {
    if s != [] && IsSpace(s[0]) { TrimLeftEnds(s[1..]); }
  }

  lemma {:induction false} TrimRightEnds(s: string)
    ensures TrimRight(s) <= s
    ensures TrimRight(s) != [] ==> !IsSpace(TrimRight(s)[|TrimRight(s)| - 1])
  {
    if s != [] && IsSpace(s[|s| - 1]) { TrimRightEnds(s[..|s| - 1]); }
  }

  /** Trimming twice is trimming once: both ends of the result are non-space. */
  lemma TrimIdempotent(s: string)
    ensures Trim(Trim(s)) == Trim(s)
  {
    TrimLeftEnds(s);
    TrimRightEnds(TrimLeft(s));
    var r := Trim(s);
    if r != [] {
      assert r[0] == TrimLeft(s)[0];
    }
  }

  function Utf8Width(c: char): nat {
    var n := c as int;
    if n < 0x80 then 1 else if n < 0x800 then 2 else if n < 0x10000 then 3 else 4
  }

  /** len(s) in Go: the number of UTF-8 bytes. */
  function Utf8Len(s: string): nat {
    if s == [] then 0 else Utf8Len(s[..|s| - 1]) + Utf8Width(s[|s| - 1])
  }

  const NUL: char := '\0'

  /** The lane key a per-pair quota is counted under, and the bucket key of a
      prekey pool: two names joined by a NUL. */
  function JoinNul(a: string, b: string): string {
    a + [NUL] + b
  }

  /** What is left of a routing id after trimming, if anything is. */
  predicate IsName(s: string) { s != "" && Trim(s) == s }

  lemma NameEnds(s: string)
    requires s != ""
    ensures IsName(s) <==> !IsSpace(s[0]) && !IsSpace(s[|s| - 1])
  {
    TrimLeftEnds(s);
    TrimRightEnds(TrimLeft(s));
    if IsSpace(s[0]) { TrimLeftShorter(s[1..]); }
  }

  lemma {:induction false} TrimLeftShorter(s: string)
    ensures |TrimLeft(s)| <= |s|
  {
    if s != [] && IsSpace(s[0]) { TrimLeftShorter(s[1..]); }
  }

  /** A NUL at `i` with no white space on either side: the key reads as two names
      there. */
  predicate CutAt(key: string, i: int) {
    0 < i < |key| - 1 && key[i] == NUL && !IsSpace(key[i - 1]) && !IsSpace(key[i + 1])
  }

  lemma CutIsTwoNames(a: string, b: string, c: string, d: string)
    requires IsName(a) && IsName(b) && JoinNul(a, b) == JoinNul(c, d) && c != "" && d != ""
    ensures IsName(c) && IsName(d) <==> CutAt(JoinNul(a, b), |c|)
  {
    var key := JoinNul(a, b);
    assert key[0] == a[0] == c[0] && key[|c|] == NUL && key[|c| - 1] == c[|c| - 1];
    assert key[|key| - 1] == b[|b| - 1] == d[|d| - 1] && key[|c| + 1] == d[0];
    NameEnds(a);
    NameEnds(b);
    NameEnds(c);
    NameEnds(d);
  }

  lemma SameCut(a: string, b: string, c: string, d: string)
    requires JoinNul(a, b) == JoinNul(c, d) && |a| == |c|
    ensures a == c && b == d
  {
    var key := JoinNul(a, b);
    assert a == key[..|a|] == c;
    assert b == key[|a| + 1..] == d;
  }

  /** `c` and `d` are names with the key of `a` and `b`. */
  predicate ShareKey(a: string, b: string, c: string, d: string) {
    IsName(c) && IsName(d) && JoinNul(c, d) == JoinNul(a, b)
  }

  lemma SharersCut(a: string, b: string, c: string, d: string)
    requires IsName(a) && IsName(b) && ShareKey(a, b, c, d)
    ensures CutAt(JoinNul(a, b), |c|) && (|c| == |a| ==> c == a && d == b)
  {
    CutIsTwoNames(a, b, c, d);
    if |c| == |a| { SameCut(a, b, c, d); }
  }

  lemma CutsShare(a: string, b: string, i: int)
    requires IsName(a) && IsName(b) && CutAt(JoinNul(a, b), i)
    ensures var key := JoinNul(a, b); ShareKey(a, b, key[..i], key[i + 1..])
  {
    var key := JoinNul(a, b);
    assert JoinNul(key[..i], key[i + 1..]) == key;
    CutIsTwoNames(a, b, key[..i], key[i + 1..]);
  }

  /** The source says distinct pairs never collide because a trimmed routing id
      holds no NUL.  Trimming does not remove a NUL, so the exact statement is this:
      among the pairs of names that reach it, a pair shares its key with no other if
      and only if the key cannot be cut anywhere but at the NUL that joins it. */
  lemma JoinNulUnambiguous(a: string, b: string)
    requires IsName(a) && IsName(b)
    ensures (forall c, d | ShareKey(a, b, c, d) :: c == a && d == b)
            <==> (forall i | CutAt(JoinNul(a, b), i) :: i == |a|)
  {
    forall c, d | ShareKey(a, b, c, d)
      ensures CutAt(JoinNul(a, b), |c|) && (|c| == |a| ==> c == a && d == b)
    {
      SharersCut(a, b, c, d);
    }
    forall i | CutAt(JoinNul(a, b), i)
      ensures exists c, d :: ShareKey(a, b, c, d) && |c| == i
    {
      CutsShare(a, b, i);
    }
  }

  /** In particular a pair without a NUL has its key to itself. */
  lemma NulFreeUnambiguous(a: string, b: string, c: string, d: string)
    requires NUL !in a && NUL !in b && JoinNul(c, d) == JoinNul(a, b)
    ensures c == a && d == b
  {
    var key := JoinNul(a, b);
    assert key[|c|] == NUL;
    if |c| != |a| {
      assert false;
    }
    SameCut(a, b, c, d);
  }

  /** Two different pairs of names, one key. */
  lemma JoinNulCollision()
    ensures exists a, b, c, d :: IsName(a) && IsName(b) && IsName(c) && IsName(d)
                              && JoinNul(a, b) == JoinNul(c, d) && a != c
  {
    var x, left := ['x'], ['x', NUL, 'x'];
    NameEnds(x);
    NameEnds(left);
    assert JoinNul(left, x) == ['x', NUL, 'x', NUL, 'x'] == JoinNul(x, left);
    assert left != x;
  }

  predicate AllSpace(s: string) { forall i | 0 <= i < |s| :: IsSpace(s[i]) }

  lemma {:induction false} TrimLeftCuts(s: string) returns (a: string)
    ensures s == a + TrimLeft(s) && AllSpace(a)
  {
    if s != [] && IsSpace(s[0]) {
      var rest := TrimLeftCuts(s[1..]);
      a := [s[0]] + rest;
      assert s == [s[0]] + s[1..];
    } else {
      a := "";
      assert s == "" + s;
    }
  }

  lemma {:induction false} TrimRightCuts(s: string) returns (b: string)
    ensures s == TrimRight(s) + b && AllSpace(b)
  {
    if s != [] && IsSpace(s[|s| - 1]) {
      var rest := TrimRightCuts(s[..|s| - 1]);
      b := rest + [s[|s| - 1]];
      assert s == s[..|s| - 1] + [s[|s| - 1]];
    } else {
      b := "";
      assert s == s + "";
    }
  }

  /** Trimming takes white space off both ends, all of it and nothing else. */
  lemma TrimCuts(s: string) returns (a: string, b: string)
    ensures s == a + Trim(s) + b && AllSpace(a) && AllSpace(b)
    ensures Trim(s) != "" ==> !IsSpace(Trim(s)[0]) && !IsSpace(Trim(s)[|Trim(s)| - 1])
  {
    a := TrimLeftCuts(s);
    b := TrimRightCuts(TrimLeft(s));
    TrimLeftEnds(s);
    TrimRightEnds(TrimLeft(s));
    assert s == a + (Trim(s) + b);
  }
}
