/** Redemption codes: 128 random bits as Crockford base32, and what every side does
    to a code before using it. */
module RedemptionCode {
  import opened Common
  import opened Text

  const ALPHABET: string := "0123456789ABCDEFGHJKMNPQRSTVWXYZ"
  const CODE_BYTES := 16
  const WORD := 0x1_0000_0000

  type Byte = b: int | 0 <= b < 256

  type Digit = d: int | 0 <= d < 32

  // -------------------------------------------------------------------- values

  /** The bytes read as one big-endian number. */
  function BytesValue(raw: seq<Byte>): nat {
    if raw == [] then 0 else BytesValue(raw[..|raw| - 1]) * 256 + raw[|raw| - 1]
  }

  /** The digits read as one base-32 number. */
  function DigitsValue(digits: seq<Digit>): nat {
    if digits == [] then 0 else DigitsValue(digits[..|digits| - 1]) * 32 + digits[|digits| - 1]
  }

  /** The symbols of the digits. */
  function Spell(digits: seq<Digit>): string {
    seq(|digits|, i requires 0 <= i < |digits| => Symbol(digits[i]))
  }

  /** What a symbol is worth; nothing outside the alphabet has a value. */
  function SymbolValue(c: char): Option<Digit> {
    if '0' <= c <= '9' then Some((c - '0') as int)
    else if 'A' <= c <= 'H' then Some((c - 'A') as int + 10)
    else if 'J' <= c <= 'K' then Some((c - 'J') as int + 18)
    else if 'M' <= c <= 'N' then Some((c - 'M') as int + 20)
    else if 'P' <= c <= 'T' then Some((c - 'P') as int + 22)
    else if 'V' <= c <= 'Z' then Some((c - 'V') as int + 27)
    else None
  }

  /** The symbol of a digit: the alphabet skips I, L, O and U. */
  function Symbol(d: Digit): (c: char)
    ensures SymbolValue(c) == Some(d)
  {
    if d < 10 then (d + '0' as int) as char
    else if d < 18 then (d - 10 + 'A' as int) as char
    else if d < 20 then (d - 18 + 'J' as int) as char
    else if d < 22 then (d - 20 + 'M' as int) as char
    else if d < 27 then (d - 22 + 'P' as int) as char
    else (d - 27 + 'V' as int) as char
  }

  lemma FirstSymbols(d: Digit)
    requires d < 10
    ensures ALPHABET[d] == Symbol(d)
  {
    assert ALPHABET[..10] == "0123456789";
    assert ALPHABET[d] == ALPHABET[..10][d];
  }

  lemma MiddleSymbols(d: Digit)
    requires 10 <= d < 22
    ensures ALPHABET[d] == Symbol(d)
  {
    assert ALPHABET[..22] == "0123456789" + "ABCDEFGHJKMN";
    assert ALPHABET[d] == ALPHABET[..22][d] == "ABCDEFGHJKMN"[d - 10];
  }

  lemma LastSymbols(d: Digit)
    requires 22 <= d
    ensures ALPHABET[d] == Symbol(d)
  {
    assert ALPHABET[22..32] == "PQRSTVWXYZ";
    assert ALPHABET[d] == ALPHABET[22..32][d - 22];
  }

  lemma AlphabetSpelled(d: Digit)
    ensures ALPHABET[d] == Symbol(d)
  {
    if d < 10 { FirstSymbols(d); } else if d < 22 { MiddleSymbols(d); } else { LastSymbols(d); }
  }

  predicate InAlphabet(c: char) { SymbolValue(c).Some? }

  ghost predicate AllInAlphabet(code: string) { forall i | 0 <= i < |code| :: InAlphabet(code[i]) }

  /** A code read as one base-32 number. */
  function CodeValue(code: string): nat {
    if code == [] then 0
    else
      CodeValue(code[..|code| - 1]) * 32 + (var v := SymbolValue(code[|code| - 1]); if v.Some? then v.value else 0)
  }

  lemma {:induction false} SpelledValue(digits: seq<Digit>)
    ensures CodeValue(Spell(digits)) == DigitsValue(digits) && AllInAlphabet(Spell(digits))
  {
    if digits != [] {
      var n := |digits| - 1;
      SpelledValue(digits[..n]);
      assert Spell(digits)[..n] == Spell(digits[..n]);
      forall i | 0 <= i < n
        ensures InAlphabet(Spell(digits)[i])
      {
        assert Spell(digits)[i] == Spell(digits[..n])[i];
      }
    }
  }

  /** The number `v` shifted left by `n` bits. */
  function Shl(v: nat, n: nat): nat {
    if n == 0 then v else Shl(v, n - 1) * 2
  }

  /** The number `v` shifted right by `n` bits. */
  function Shr(v: nat, n: nat): nat {
    if n == 0 then v else Shr(v, n - 1) / 2
  }

  // ---------------------------------------------------------------- arithmetic

  lemma {:induction false} ShrTwice(v: nat, a: nat, b: nat)
    ensures Shr(v, a + b) == Shr(Shr(v, a), b)
  {
    if b > 0 { ShrTwice(v, a, b - 1); }
  }

  lemma ShrFive(x: nat)
    ensures Shr(x, 5) == x / 32
  {
    assert Shr(x, 1) == x / 2 && Shr(x, 2) == x / 4;
    assert Shr(x, 3) == x / 8 && Shr(x, 4) == x / 16;
  }

  lemma ShrEight(v: nat, b: Byte)
    ensures Shr(v * 256 + b, 8) == v
  {
    var x := v * 256 + b;
    ShrTwice(x, 5, 3);
    ShrFive(x);
    assert Shr(x / 32, 3) == x / 256 by { assert Shr(x / 32, 1) == x / 64 && Shr(x / 32, 2) == x / 128; }
  }

  lemma ShlEight(x: nat)
    ensures Shl(x, 8) == x * 256
  {
    assert Shl(x, 1) == x * 2 && Shl(x, 2) == x * 4 && Shl(x, 3) == x * 8 && Shl(x, 4) == x * 16;
    assert Shl(x, 5) == x * 32 && Shl(x, 6) == x * 64 && Shl(x, 7) == x * 128;
  }

  lemma {:induction false} ShrWord(b: nat)
    requires b <= 7
    ensures Shr(WORD, b) % 64 == 0
  {
    assert Shr(WORD, 0) == WORD && Shr(WORD, 1) == 0x8000_0000;
    assert Shr(WORD, 2) == 0x4000_0000 && Shr(WORD, 3) == 0x2000_0000;
    assert Shr(WORD, 4) == 0x1000_0000 && Shr(WORD, 5) == 0x800_0000;
    assert Shr(WORD, 6) == 0x400_0000 && Shr(WORD, 7) == 0x200_0000;
  }

  lemma {:induction false} ShrPlusWords(a: nat, k: nat, b: nat)
    requires b <= 7
    ensures Shr(a + WORD * k, b) == Shr(a, b) + Shr(WORD, b) * k
  {
    if b > 0 {
      ShrPlusWords(a, k, b - 1);
      ShrWord(b - 1);
      HalfSum(Shr(a, b - 1), Shr(WORD, b - 1), Shr(WORD, b - 1) / 2, k);
    }
  }

  lemma HalfSum(x: nat, w: nat, u: nat, k: nat)
    requires w == 2 * u
    ensures (x + w * k) / 2 == x / 2 + u * k
  {
    assert w * k == 2 * (u * k);
    Half(x, u * k);
  }

  lemma Half(x: nat, y: nat)
    ensures (x + 2 * y) / 2 == x / 2 + y
  {
  }

  /** Dropping everything above 32 bits does not change the five bits read. */
  lemma WrapKeepsDigit(v: nat, b: nat)
    requires b <= 7
    ensures Shr(v % WORD, b) % 32 == Shr(v, b) % 32
  {
    var a, k := v % WORD, v / WORD;
    assert v == a + WORD * k;
    ShrPlusWords(a, k, b);
    ShrWord(b);
    SameDigit(Shr(a, b), Shr(WORD, b), Shr(WORD, b) / 32, k);
  }

  lemma SameDigit(x: nat, s: nat, w: nat, k: nat)
    requires s == 32 * w
    ensures (x + s * k) % 32 == x % 32
  {
    Regroup(w, k);
    MultipleVanishes(x, w * k);
  }

  lemma Regroup(w: nat, k: nat)
    ensures (32 * w) * k == 32 * (w * k)
  {
  }

  lemma MultipleVanishes(x: nat, z: nat)
    ensures (x + 32 * z) % 32 == x % 32
  {
  }

  lemma WrapTakesByte(v: nat, b: Byte)
    ensures ((v % WORD) * 256 % WORD) + b == (v * 256 + b) % WORD
  {
    var a, k := v % WORD, v / WORD;
    var a1, a0 := a / 0x100_0000, a % 0x100_0000;
    assert a * 256 == WORD * a1 + 256 * a0;
    CutTo(a * 256, a1, 256 * a0);
    CutTo(v * 256 + b, 256 * k + a1, 256 * a0 + b);
  }

  lemma CutTo(v: nat, q: nat, r: nat)
    requires v == WORD * q + r && r < WORD
    ensures v % WORD == r
  {
  }

  // ------------------------------------------------------------------ encoding

  /** The code written so far stands for all bits read but the last `bits`, and the
      accumulator is what has been read, cut to 32 bits. */
  ghost predicate Reads(raw: seq<Byte>, acc: nat, bits: nat, out: seq<Digit>) {
    && acc == BytesValue(raw) % WORD
    && DigitsValue(out) == Shr(BytesValue(raw), bits)
    && 5 * |out| + bits == 8 * |raw|
  }

  lemma ReadByte(raw: seq<Byte>, acc: nat, bits: nat, out: seq<Digit>, b: Byte)
    requires Reads(raw, acc, bits, out)
    ensures Reads(raw + [b], Shl(acc, 8) % WORD + b, bits + 8, out)
  {
    ShlEight(acc);
    var v := BytesValue(raw);
    assert (raw + [b])[..|raw|] == raw;
    WrapTakesByte(v, b);
    ShrEight(v, b);
    ShrTwice(v * 256 + b, 8, bits);
  }

  lemma WriteDigit(raw: seq<Byte>, acc: nat, bits: nat, out: seq<Digit>)
    requires Reads(raw, acc, bits, out) && 5 <= bits <= 12
    ensures Reads(raw, acc, bits - 5, out + [Shr(acc, bits - 5) % 32])
  {
    var v, d := BytesValue(raw), Shr(acc, bits - 5) % 32;
    assert (out + [d])[..|out|] == out;
    WrapKeepsDigit(v, bits - 5);
    ShrTwice(v, bits - 5, 5);
    ShrFive(Shr(v, bits - 5));
  }

  /** The last symbol: the three bits left over, and two zero bits. */
  lemma WriteLast(raw: seq<Byte>, acc: nat, out: seq<Digit>)
    requires Reads(raw, acc, 3, out)
    ensures DigitsValue(out + [Shl(acc, 2) % WORD % 32]) == 4 * BytesValue(raw)
  {
    var v, d := BytesValue(raw), acc * 4 % WORD % 32;
    assert Shl(acc, 2) == acc * 4 by { assert Shl(acc, 1) == acc * 2; }
    assert (out + [d])[..|out|] == out;
    assert Shr(v, 3) == v / 8 by { assert Shr(v, 1) == v / 2 && Shr(v, 2) == v / 4; }
    LastDigit(v);
  }

  lemma LastDigit(v: nat)
    ensures (v % WORD) * 4 % WORD % 32 == (v % 8) * 4
  {
    var a := v % WORD;
    LowBits(a, v / WORD);
    assert v == a + WORD * (v / WORD);
    var q, r := a / 8, a % 8;
    var q1, q0 := q / 0x800_0000, q % 0x800_0000;
    assert a * 4 == WORD * q1 + (32 * q0 + 4 * r);
    CutTo(a * 4, q1, 32 * q0 + 4 * r);
    MultipleVanishes(4 * r, q0);
  }

  lemma LowBits(a: nat, k: nat)
    ensures (a + WORD * k) % 8 == a % 8
  {
    assert a + WORD * k == a + 8 * (0x2000_0000 * k);
  }

  /** The encoding loop: 26 symbols whose base-32 value is four times the 128-bit
      number the bytes spell, whatever the accumulator lost on the way. */
  method NewCode(raw: seq<Byte>) returns (code: string)
    requires |raw| == CODE_BYTES
    ensures IsCodeOf(code, raw)
  {
    code := "";
    var acc: nat, bits: nat := 0, 0;
    ghost var digits: seq<Digit> := [];
    for i := 0 to |raw|
      invariant Reads(raw[..i], acc, bits, digits) && bits < 5 && code == Spell(digits)
    {
      ReadByte(raw[..i], acc, bits, digits, raw[i]);
      assert raw[..i] + [raw[i]] == raw[..i + 1];
      acc, bits := Shl(acc, 8) % WORD + raw[i], bits + 8;
      while bits >= 5
        invariant Reads(raw[..i + 1], acc, bits, digits) && bits <= 12 && code == Spell(digits)
      {
        WriteDigit(raw[..i + 1], acc, bits, digits);
        bits := bits - 5;
        AlphabetSpelled(Shr(acc, bits) % 32);
        SpellNext(digits, Shr(acc, bits) % 32);
        code := code + [ALPHABET[Shr(acc, bits) % 32]];
        digits := digits + [Shr(acc, bits) % 32];
      }
    }
    assert raw[..|raw|] == raw;
    assert bits == 3 && |digits| == 25;
    WriteLast(raw, acc, digits);
    if bits > 0 {
      AlphabetSpelled(Shl(acc, 5 - bits) % WORD % 32);
      SpellNext(digits, Shl(acc, 5 - bits) % WORD % 32);
      code := code + [ALPHABET[Shl(acc, 5 - bits) % WORD % 32]];
      digits := digits + [Shl(acc, 5 - bits) % WORD % 32];
    }
    SpelledValue(digits);
  }

  lemma SpellNext(digits: seq<Digit>, d: Digit)
    ensures Spell(digits + [d]) == Spell(digits) + [Symbol(d)]
  {
  }

  /** 26 symbols worth four times the bytes. */
  ghost predicate IsCodeOf(code: string, raw: seq<Byte>) {
    |code| == 26 && AllInAlphabet(code) && CodeValue(code) == 4 * BytesValue(raw)
  }

  lemma {:induction false} BytesInjective(a: seq<Byte>, b: seq<Byte>)
    requires |a| == |b| && BytesValue(a) == BytesValue(b)
    ensures a == b
  {
    if a != [] {
      var n := |a| - 1;
      BytesInjective(a[..n], b[..n]);
      assert a == a[..n] + [a[n]] && b == b[..n] + [b[n]];
    }
  }

  /** No two keys share a code. */
  lemma CodesAreInjective(code: string, a: seq<Byte>, b: seq<Byte>)
    requires IsCodeOf(code, a) && IsCodeOf(code, b) && |a| == |b| == CODE_BYTES
    ensures a == b
  {
    BytesInjective(a, b);
  }

  lemma {:induction false} CodeDetermined(x: string, y: string)
    requires |x| == |y| && AllInAlphabet(x) && AllInAlphabet(y) && CodeValue(x) == CodeValue(y)
    ensures x == y
  {
    if x != [] {
      var n := |x| - 1;
      LastDigits(x, y);
      CodeDetermined(x[..n], y[..n]);
      SymbolsDiffer(x[n], y[n]);
      Rejoin(x);
      Rejoin(y);
    }
  }

  /** Equal codes of one length end in the same digit and are equal before it. */
  lemma LastDigits(x: string, y: string)
    requires x != [] && y != [] && InAlphabet(x[|x| - 1]) && InAlphabet(y[|y| - 1]) && CodeValue(x) == CodeValue(y)
    ensures SymbolValue(x[|x| - 1]) == SymbolValue(y[|y| - 1]) && CodeValue(x[..|x| - 1]) == CodeValue(y[..|y| - 1])
  {
    SameQuotient(CodeValue(x[..|x| - 1]), SymbolValue(x[|x| - 1]).value,
                 CodeValue(y[..|y| - 1]), SymbolValue(y[|y| - 1]).value);
  }

  lemma SameQuotient(a: nat, r: Digit, b: nat, q: Digit)
    requires a * 32 + r == b * 32 + q
    ensures a == b && r == q
  {
  }

  lemma Rejoin(s: string)
    requires s != []
    ensures s == s[..|s| - 1] + [s[|s| - 1]]
  {
  }

  lemma SymbolsDiffer(c: char, d: char)
    requires SymbolValue(c) == SymbolValue(d) && SymbolValue(c).Some?
    ensures c == d
  {
  }

  // -------------------------------------------------------------- normalizing

  /** strings.ToUpper on the characters that can end up in a code: ASCII letters, and
      the two others whose upper case is an ASCII letter. */
  function Upper(c: char): char {
    if 'a' <= c <= 'z' then (c as int - 32) as char
    else if c == '\U{0131}' then 'I'
    else if c == '\U{017F}' then 'S'
    else c
  }

  /** What one character contributes: O reads as zero, I and L as one, U is kept so
      that the code fails, and everything else outside the alphabet is grouping. */
  function Contribution(c: char): string {
    var u := Upper(c);
    if u == 'O' then "0"
    else if u == 'I' || u == 'L' then "1"
    else if u == 'U' || InAlphabet(u) then [u]
    else ""
  }

  function Contributions(s: string): string {
    if s == [] then "" else Contributions(s[..|s| - 1]) + Contribution(s[|s| - 1])
  }

  function Normal(code: string): string { Contributions(Trim(code)) }

  method NormalizeCode(code: string) returns (out: string)
    ensures out == Normal(code)
  {
    var s := Trim(code);
    out := "";
    for i := 0 to |s|
      invariant out == Contributions(s[..i])
    {
      assert s[..i + 1][..i] == s[..i];
      var r := Upper(s[i]);
      match r
      case 'O' => out := out + "0";
      case 'I' => out := out + "1";
      case 'L' => out := out + "1";
      case 'U' => out := out + "U";
      case _ => if r in ALPHABET { out := out + [r]; }
      InAlphabetIff(r);
    }
    assert s[..|s|] == s;
  }

  lemma InAlphabetIff(c: char)
    ensures c in ALPHABET <==> InAlphabet(c)
  {
    if InAlphabet(c) {
      var d := SymbolValue(c).value;
      AlphabetSpelled(d);
      SymbolsDiffer(c, ALPHABET[d]);
    }
    if c in ALPHABET {
      var i :| 0 <= i < |ALPHABET| && ALPHABET[i] == c;
      assert |ALPHABET| == 32;
      AlphabetSpelled(i);
    }
  }

  lemma {:induction false} ContributionsConcat(a: string, b: string)
    ensures Contributions(a + b) == Contributions(a) + Contributions(b)
  {
    if b == [] {
      assert a + b == a;
    } else {
      ContributionsConcat(a, b[..|b| - 1]);
      assert (a + b)[..|a + b| - 1] == a + b[..|b| - 1];
      Reassociate(Contributions(a), Contributions(b[..|b| - 1]), Contribution(b[|b| - 1]));
    }
  }

  lemma Reassociate(x: string, y: string, z: string)
    ensures x + (y + z) == (x + y) + z
  {
  }

  lemma One(c: char)
    ensures Contributions([c]) == Contribution(c)
  {
    assert [c][..0] == "" && Contributions("") == "";
  }

  lemma {:induction false} TrimLeftSame(s: string)
    ensures Contributions(TrimLeft(s)) == Contributions(s)
  {
    if s != [] && IsSpace(s[0]) {
      TrimLeftSame(s[1..]);
      LeadingSpace(s);
    }
  }

  lemma LeadingSpace(s: string)
    requires s != [] && IsSpace(s[0])
    ensures Contributions(s) == Contributions(s[1..])
  {
    ContributionsConcat([s[0]], s[1..]);
    One(s[0]);
    SpaceContributesNothing(s[0]);
    assert [s[0]] + s[1..] == s;
    assert "" + Contributions(s[1..]) == Contributions(s[1..]);
  }

  lemma SpaceContributesNothing(c: char)
    requires IsSpace(c)
    ensures Contribution(c) == ""
  {
  }

  lemma {:induction false} TrimRightSame(s: string)
    ensures Contributions(TrimRight(s)) == Contributions(s)
  {
    if s != [] && IsSpace(s[|s| - 1]) {
      TrimRightSame(s[..|s| - 1]);
      SpaceContributesNothing(s[|s| - 1]);
      assert Contributions(s[..|s| - 1]) + "" == Contributions(s[..|s| - 1]);
    }
  }

  /** Leading and trailing space makes no difference. */
  lemma NormalIs(s: string)
    ensures Normal(s) == Contributions(s)
  {
    TrimLeftSame(s);
    TrimRightSame(TrimLeft(s));
  }

  ghost predicate AllNormal(s: string) { forall i | 0 <= i < |s| :: InAlphabet(s[i]) || s[i] == 'U' }

  lemma SymbolIsNormal(c: char)
    requires InAlphabet(c) || c == 'U'
    ensures Contribution(c) == [c]
  {
  }

  lemma {:induction false} NormalFixed(s: string)
    requires AllNormal(s)
    ensures Contributions(s) == s
  {
    if s != [] {
      NormalFixed(s[..|s| - 1]);
      SymbolIsNormal(s[|s| - 1]);
      FixedByLast(s);
    }
  }

  lemma FixedByLast(s: string)
    requires s != [] && Contributions(s[..|s| - 1]) == s[..|s| - 1] && Contribution(s[|s| - 1]) == [s[|s| - 1]]
    ensures Contributions(s) == s
  {
    var n := |s| - 1;
    calc {
      Contributions(s);
      Contributions(s[..n]) + Contribution(s[n]);
      s[..n] + [s[n]];
      { Rejoin(s); }
      s;
    }
  }

  lemma {:induction false} ContributionsNormal(s: string)
    ensures AllNormal(Contributions(s))
  {
    if s != [] { ContributionsNormal(s[..|s| - 1]); }
  }

  /** A code as printed normalizes to itself. */
  lemma CodeIsNormal(code: string, raw: seq<Byte>)
    requires IsCodeOf(code, raw)
    ensures Normal(code) == code
  {
    NormalIs(code);
    NormalFixed(code);
  }

  lemma NormalizeIdempotent(s: string)
    ensures Normal(Normal(s)) == Normal(s)
  {
    NormalIs(s);
    ContributionsNormal(s);
    NormalFixed(Normal(s));
    NormalIs(Normal(s));
  }

  /** A character may be put in or left out anywhere without consequence exactly if it
      contributes nothing: spaces, hyphens and all other grouping do. */
  lemma SeparatorsIgnoredIff(a: string, c: char, b: string)
    ensures Normal(a + [c] + b) == Normal(a + b) <==> Contribution(c) == ""
  {
    NormalIs(a + [c] + b);
    NormalIs(a + b);
    ContributionsConcat(a + [c], b);
    ContributionsConcat(a, [c]);
    ContributionsConcat(a, b);
    One(c);
    MiddleVanishesIff(Contributions(a), Contribution(c), Contributions(b));
  }

  lemma MiddleVanishesIff(x: string, y: string, z: string)
    ensures (x + y) + z == x + z <==> y == ""
  {
    assert |(x + y) + z| == |x| + |y| + |z| && |x + z| == |x| + |z|;
    if y == "" { assert x + y == x; }
  }

  function LowerAscii(c: char): char {
    if 'A' <= c <= 'Z' then (c as int + 32) as char else c
  }

  function Lowered(s: string): string { seq(|s|, i requires 0 <= i < |s| => LowerAscii(s[i])) }

  lemma LowerContributes(c: char)
    ensures Contribution(LowerAscii(c)) == Contribution(c)
  {
  }

  lemma {:induction false} LowerSame(s: string)
    ensures Contributions(Lowered(s)) == Contributions(s)
  {
    if s != [] {
      var n := |s| - 1;
      LowerSame(s[..n]);
      LowerContributes(s[n]);
      assert Lowered(s)[..n] == Lowered(s[..n]);
    }
  }

  /** A code that arrives in lower case is the same code. */
  lemma CaseIgnored(s: string)
    ensures Normal(Lowered(s)) == Normal(s)
  {
    NormalIs(s);
    NormalIs(Lowered(s));
    LowerSame(s);
  }

  /** A character a code can be written with, in either case. */
  predicate IsAscii(c: char, d: char) { c == d || ('A' <= d <= 'Z' && c as int == d as int + 32) }

  /** How a character of a written code is read: O as zero, I and L as one, U as itself so
      that the code fails, a symbol of the alphabet as itself, in either case. */
  lemma ReadAs(a: string, c: char, d: char, b: string)
    requires IsAscii(c, d)
    requires '0' <= d <= '9' || 'A' <= d <= 'Z'
    ensures var read := if d == 'O' then '0' else if d == 'I' || d == 'L' then '1' else d;
            Normal(a + [c] + b) == Contributions(a) + [read] + Contributions(b)
            && (InAlphabet(read) <==> d != 'U')
  {
    NormalIs(a + [c] + b);
    ContributionsConcat(a + [c], b);
    ContributionsConcat(a, [c]);
    One(c);
    ReadOne(c, d);
  }

  lemma ReadOne(c: char, d: char)
    requires IsAscii(c, d)
    requires '0' <= d <= '9' || 'A' <= d <= 'Z'
    ensures var read := if d == 'O' then '0' else if d == 'I' || d == 'L' then '1' else d;
            Contribution(c) == [read] && (InAlphabet(read) <==> d != 'U')
  {
  }

  /** And everything that is not a letter or a digit is only there for the eye. */
  lemma GroupingIgnored(a: string, c: char, b: string)
    requires c < '0' || '9' < c < 'A' || 'Z' < c < 'a' || ('z' < c && c != '\U{0131}' && c != '\U{017F}')
    ensures Normal(a + [c] + b) == Normal(a + b)
  {
    SeparatorsIgnoredIff(a, c, b);
  }
}
