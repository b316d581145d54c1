/**
 IPv4 addresses and CIDR blocks, matched with JavaScript's 32-bit operators
 (profiles/reference/sec/extensions/scope-guard-v2.ts:211-244; section 3.1 of RFC 4632).
 */
module Cidr {
  import opened Basics
  import opened Lines
  import ScopeFile

  // 32-bit arithmetic

  const WORD := 0x1_0000_0000

  function Pow2(n: nat): (p: nat)
    ensures p > 0
  {
    if n == 0 then 1 else 2 * Pow2(n - 1)
  }

  function ToUint32(x: int): nat { x % WORD }

  function ToInt32(x: int): int {
    var u := ToUint32(x);
    if u >= 0x8000_0000 then u - WORD else u
  }

  function ShiftLeft(x: int, count: int): int { ToInt32(ToInt32(x) * Pow2(count % 32)) }

  /** The lowest `n` bits of both numbers, and-ed. */
  function AndBits(a: nat, b: nat, n: nat): nat {
    if n == 0 then 0 else 2 * AndBits(a / 2, b / 2, n - 1) + (a % 2) * (b % 2)
  }

  function BitAnd(a: int, b: int): int { ToInt32(AndBits(ToUint32(a), ToUint32(b), 32)) }

  // Decimal text; None stands for NaN

  predicate IsDigit(c: char) { '0' <= c <= '9' }

  function DigitValue(c: char): nat
    requires IsDigit(c)
  {
    c as int - '0' as int
  }

  predicate AllDigits(s: string) { forall i :: 0 <= i < |s| ==> IsDigit(s[i]) }

  function DigitRun(s: string): (n: nat)
    ensures n <= |s| && AllDigits(s[..n]) && (n < |s| ==> !IsDigit(s[n]))
  {
    if s == "" || !IsDigit(s[0]) then 0
    else
      var n := 1 + DigitRun(s[1..]);
      assert s[..n] == [s[0]] + s[1..][..n - 1];
      n
  }

  function DigitsValue(s: string): nat
    requires AllDigits(s)
  {
    if s == "" then 0 else DigitsValue(s[..|s| - 1]) * 10 + DigitValue(s[|s| - 1])
  }

  /** parseInt(s, 10) */
  function ParseInt(s: string): Option<int> {
    var t := s[ScopeFile.SpaceRun(s)..];
    var signed := t != "" && (t[0] == '-' || t[0] == '+');
    var digits := if signed then t[1..] else t;
    var n := DigitRun(digits);
    if n == 0 then None
    else
      var value: int := DigitsValue(digits[..n]);
      Some(if signed && t[0] == '-' then -value else value)
  }

  /** String(n) */
  function Show(n: nat): string {
    (if n < 10 then "" else Show(n / 10)) + [('0' as int + n % 10) as char]
  }

  // The functions of the program

  predicate IsOctet(p: string) {
    var n := ParseInt(p);
    n.Some? && 0 <= n.value <= 255 && Show(n.value) == p
  }

  predicate IsIPv4(s: string) {
    var parts := Split(s, '.');
    |parts| == 4 && forall i :: 0 <= i < 4 ==> IsOctet(parts[i])
  }

  function Part(parts: seq<string>, i: nat): Option<int> {
    if i < |parts| then ParseInt(parts[i]) else None
  }

  /** What a bitwise operator makes of a number. */
  function Bits(x: Option<int>): int { if x.Some? then x.value else 0 }

  function IpToInt(ip: string): Option<int> {
    var parts := Split(ip, '.');
    var last := Part(parts, 3);
    if last.None? then None
    else Some(ShiftLeft(Bits(Part(parts, 0)), 24) + ShiftLeft(Bits(Part(parts, 1)), 16)
              + ShiftLeft(Bits(Part(parts, 2)), 8) + last.value)
  }

  predicate DigitGroup(s: string, most: nat) { 1 <= |s| <= most && AllDigits(s) }

  predicate IsCidr(s: string) {
    var parts := Split(s, '/');
    && |parts| == 2 && DigitGroup(parts[1], 2)
    && |Split(parts[0], '.')| == 4 && (forall i :: 0 <= i < 4 ==> DigitGroup(Split(parts[0], '.')[i], 3))
    && DigitsValue(parts[1]) <= 32
  }

  function Mask(bits: Option<int>): int {
    if bits == Some(32) then 0xFFFF_FFFF else ToUint32(ShiftLeft(-1, if bits.Some? then 32 - bits.value else 0))
  }

  predicate IpInCidr(ip: string, cidr: string) {
    IsIPv4(ip) &&
      var parts := Split(cidr, '/');
      var bits := Part(parts, 1);
      bits == Some(0) ||
      BitAnd(Bits(IpToInt(ip)), Mask(bits)) == BitAnd(Bits(IpToInt(parts[0])), Mask(bits))
  }

  // Masking keeps the upper bits

  lemma HalfThenDivide(a: nat, p: nat)
    requires p > 0
    ensures (a / 2) / p == a / (2 * p)
  {
    var q, r := a / (2 * p), a % (2 * p);
    assert a == 2 * (p * q) + r by { assert a == (2 * p) * q + r; assert (2 * p) * q == 2 * (p * q); }
    assert a / 2 == p * q + r / 2 && r / 2 < p;
    DivideUnique(a / 2, p, q, r / 2);
  }

  lemma {:induction false} TimesGap(p: nat, x: int, y: int)
    requires p > 0 && x < y
    ensures p * x + p <= p * y
    decreases y - x
  {
    assert p * y == p * (y - 1) + p;
    if y == x + 1 {
    } else {
      TimesGap(p, x, y - 1);
    }
  }

  lemma DivideUnique(a: nat, p: nat, q: int, r: nat)
    requires p > 0 && r < p && a == p * q + r
    ensures a / p == q
  {
    var d := a / p;
    assert a == p * d + a % p;
    if q > d { TimesGap(p, d, q); }
    if q < d { TimesGap(p, q, d); }
  }

  lemma {:induction false} AndAll(a: nat, n: nat)
    requires a < Pow2(n)
    ensures AndBits(a, Pow2(n) - 1, n) == a
  {
    if n == 0 {
    } else {
      AndAll(a / 2, n - 1);
      assert (Pow2(n) - 1) / 2 == Pow2(n - 1) - 1 && (Pow2(n) - 1) % 2 == 1;
    }
  }

  lemma {:induction false} PowMonotone(s: nat, n: nat)
    requires s <= n
    ensures Pow2(s) <= Pow2(n)
  {
    if s < n { PowMonotone(s, n - 1); }
  }

  /** And-ing with ones above `s` zeros clears the lowest `s` bits. */
  lemma {:induction false} AndMask(a: nat, s: nat, n: nat)
    requires s <= n && a < Pow2(n)
    ensures Pow2(s) <= Pow2(n) && AndBits(a, Pow2(n) - Pow2(s), n) == a / Pow2(s) * Pow2(s)
    decreases n
  {
    hide AndBits;
    PowMonotone(s, n);
    if s == 0 {
      AndAll(a, n);
    } else {
      AndMask(a / 2, s - 1, n - 1);
      AndEven(a, Pow2(n - 1) - Pow2(s - 1), n);
      RoundHalf(a, Pow2(s - 1));
    }
  }

  lemma AndEven(a: nat, m: nat, n: nat)
    requires n > 0
    ensures AndBits(a, 2 * m, n) == 2 * AndBits(a / 2, m, n - 1)
  {
    assert 2 * m / 2 == m && 2 * m % 2 == 0;
  }

  lemma RoundHalf(a: nat, p: nat)
    requires p > 0
    ensures 2 * ((a / 2) / p * p) == a / (2 * p) * (2 * p)
  {
    HalfThenDivide(a, p);
    var q := a / (2 * p);
    assert q * (2 * p) == 2 * (q * p);
  }

  lemma WordIsPower()
    ensures Pow2(8) == 0x100 && Pow2(16) == 0x1_0000 && Pow2(24) == 0x100_0000
    ensures Pow2(31) == 0x8000_0000 && Pow2(32) == WORD
  {
    assert Pow2(4) == 16;
    assert Pow2(8) == 256;
    assert Pow2(12) == 0x1000;
    assert Pow2(16) == 0x1_0000;
    assert Pow2(20) == 0x10_0000;
    assert Pow2(24) == 0x100_0000;
    assert Pow2(28) == 0x1000_0000;
  }

  /** How many leading bits are compared: the number itself from 0 to 32, whatever is written otherwise. */
  function PrefixLength(bits: Option<int>): (n: nat)
    ensures n <= 32
    ensures bits.Some? && 0 <= bits.value <= 32 ==> n == bits.value
  {
    if bits == Some(0) then 0 else if bits.None? then 32 else 32 - (32 - bits.value) % 32
  }

  lemma MaskWord(s: nat)
    requires s < 32
    ensures 0 < Pow2(s) < WORD && ToUint32(WORD - Pow2(s)) == WORD - Pow2(s) && Pow2(32) == WORD
  {
    WordIsPower();
    PowMonotone(s, 31);
  }

  lemma SameWord(x: int)
    ensures ToUint32(ToInt32(x)) == ToUint32(x)
  {
  }

  lemma ShiftOnes(count: int)
    ensures ToUint32(ShiftLeft(-1, count)) == WORD - Pow2(count % 32)
  {
    hide Pow2;
    var p: int := Pow2(count % 32);
    MaskWord(count % 32);
    SameWord(-1 * p);
    assert -1 * p == (WORD - p) + -1 * WORD;
    AddWords(WORD - p, -1);
  }

  lemma MaskIs(bits: Option<int>)
    requires bits != Some(0)
    ensures PrefixLength(bits) > 0 && Mask(bits) == WORD - Pow2(32 - PrefixLength(bits))
  {
    if bits == Some(32) {
      assert Pow2(0) == 1;
    } else {
      hide Pow2, ShiftLeft, ToUint32;
      ShiftOnes(if bits.Some? then 32 - bits.value else 0);
    }
  }

  lemma WordsTellApart(u: nat, v: nat)
    requires u < WORD && v < WORD
    ensures ToInt32(u) == ToInt32(v) <==> u == v
  {
  }

  lemma RoundDown(x: nat, y: nat, p: nat)
    requires p > 0
    ensures 0 <= x / p * p <= x && (x / p * p == y / p * p <==> x / p == y / p)
  {
    var q, r := x / p, y / p;
    assert x == p * q + x % p;
    assert q * p == p * q && r * p == p * r;
    if q < r { TimesGap(p, q, r); }
    if r < q { TimesGap(p, r, q); }
  }

  /** Masked words are equal exactly when the words agree above the mask. */
  lemma MaskedEqual(a: int, b: int, s: nat)
    requires s < 32
    ensures BitAnd(a, WORD - Pow2(s)) == BitAnd(b, WORD - Pow2(s)) <==> ToUint32(a) / Pow2(s) == ToUint32(b) / Pow2(s)
  {
    hide AndBits, Pow2, ToInt32;
    MaskWord(s);
    var p, x, y := Pow2(s), ToUint32(a), ToUint32(b);
    AndMask(x, s, 32);
    AndMask(y, s, 32);
    RoundDown(x, y, p);
    RoundDown(y, x, p);
    WordsTellApart(x / p * p, y / p * p);
  }

  // Addresses

  function Address(ip: string): nat { ToUint32(Bits(IpToInt(ip))) }

  /** For any two texts: an address is in a block exactly when the upper bits are those of the network. */
  lemma InCidrExactly(ip: string, cidr: string)
    ensures var parts := Split(cidr, '/');
      var p := Pow2(32 - PrefixLength(Part(parts, 1)));
      IpInCidr(ip, cidr) <==> IsIPv4(ip) && Address(ip) / p == Address(parts[0]) / p
  {
    hide IsIPv4, IpToInt, BitAnd, Mask, Pow2, ToUint32, Split, Part;
    var parts := Split(cidr, '/');
    var bits := Part(parts, 1);
    if bits == Some(0) {
      NoPrefix(Bits(IpToInt(ip)));
      NoPrefix(Bits(IpToInt(parts[0])));
    } else {
      MaskIs(bits);
      MaskedEqual(Bits(IpToInt(ip)), Bits(IpToInt(parts[0])), 32 - PrefixLength(bits));
    }
  }

  lemma NoPrefix(x: int)
    ensures ToUint32(x) / Pow2(32) == 0
  {
    WordIsPower();
  }

  lemma ShiftIs(x: nat, n: nat)
    requires n < 32
    ensures ToUint32(ShiftLeft(x, n)) == ToUint32(x * Pow2(n))
  {
    hide Pow2;
    SameWord(x);
    SameWord(ToInt32(x) * Pow2(n));
    TimesWord(ToInt32(x), x, Pow2(n));
  }

  lemma TimesWord(x: int, y: int, p: int)
    requires ToUint32(x) == ToUint32(y)
    ensures ToUint32(x * p) == ToUint32(y * p)
  {
    var k := x / WORD - y / WORD;
    assert x == y + k * WORD;
    assert x * p == y * p + (k * p) * WORD by {
      assert (y + k * WORD) * p == y * p + (k * WORD) * p;
      assert (k * WORD) * p == (k * p) * WORD;
    }
    AddWords(y * p, k * p);
  }

  lemma AddWords(x: int, k: int)
    ensures ToUint32(x + k * WORD) == ToUint32(x)
  {
  }

  /** The four numbers of a dotted text are the digits of the address in base 256. */
  lemma AddressIs(ip: string, a: nat, b: nat, c: nat, d: nat)
    requires var parts := Split(ip, '.');
      |parts| == 4 && ParseInt(parts[0]) == Some(a) && ParseInt(parts[1]) == Some(b)
      && ParseInt(parts[2]) == Some(c) && ParseInt(parts[3]) == Some(d)
    ensures Address(ip) == ToUint32(((a * 0x100 + b) * 0x100 + c) * 0x100 + d)
  {
    hide ParseInt, ShiftLeft;
    WordIsPower();
    ShiftIs(a, 24);
    ShiftIs(b, 16);
    ShiftIs(c, 8);
    assert Bits(IpToInt(ip)) == ShiftLeft(a, 24) + ShiftLeft(b, 16) + ShiftLeft(c, 8) + d;
    SumOfWords(ShiftLeft(a, 24), ShiftLeft(b, 16), ShiftLeft(c, 8), a * 0x100_0000, b * 0x1_0000, c * 0x100, d);
  }

  lemma SumOfWords(x: int, y: int, z: int, a: int, b: int, c: int, d: int)
    requires ToUint32(x) == ToUint32(a) && ToUint32(y) == ToUint32(b) && ToUint32(z) == ToUint32(c)
    ensures ToUint32(x + y + z + d) == ToUint32(a + b + c + d)
  {
  }

  // Text

  lemma {:induction false} DigitRunAll(s: string)
    requires AllDigits(s)
    ensures DigitRun(s) == |s|
  {
    if s == "" {
    } else {
      DigitRunAll(s[1..]);
    }
  }

  lemma ParseDigits(s: string)
    requires s != "" && AllDigits(s)
    ensures ParseInt(s) == Some(DigitsValue(s))
  {
    assert IsDigit(s[0]);
    DigitNotSpecial(s[0]);
    ScopeFile.SpaceRunIs(s, 0);
    assert s[0..] == s;
    DigitRunAll(s);
    assert s[..|s|] == s;
  }

  /** An optional sign and a run of digits, with white space in front and anything but a digit behind. */
  ghost predicate Numeral(s: string, space: string, sign: string, digits: string, rest: string, n: int) {
    && s == space + (sign + (digits + rest))
    && (forall i :: 0 <= i < |space| ==> ScopeFile.IsSpace(space[i]))
    && (sign == "" || sign == "+" || sign == "-") && digits != "" && AllDigits(digits)
    && (rest != "" ==> !('0' <= rest[0] <= '9'))
    && var value: int := DigitsValue(digits); n == if sign == "-" then -value else value
  }

  /** parseInt reads exactly the texts that start with a numeral. */
  lemma ParseIntExactly(s: string, n: int)
    ensures ParseInt(s) == Some(n) <==> exists space, sign, digits, rest :: Numeral(s, space, sign, digits, rest, n)
  {
    hide ParseInt, Numeral;
    if ParseInt(s) == Some(n) {
      var space, sign, digits, rest := ParsedNumeral(s, n);
    }
    forall space, sign, digits, rest | Numeral(s, space, sign, digits, rest, n) ensures ParseInt(s) == Some(n) {
      NumeralParses(s, space, sign, digits, rest, n);
    }
  }

  lemma ParsedNumeral(s: string, n: int) returns (space: string, sign: string, digits: string, rest: string)
    requires ParseInt(s) == Some(n)
    ensures Numeral(s, space, sign, digits, rest, n)
  {
    hide DigitsValue, ScopeFile.IsSpace, AllDigits, DigitRun, ScopeFile.SpaceRun;
    var k := ScopeFile.SpaceRun(s);
    var tail;
    sign, tail := SignCut(s[k..]);
    var d := DigitRun(tail);
    space, digits, rest := s[..k], tail[..d], tail[d..];
    Joined(s, k, sign, tail, d);
  }

  lemma SignCut(t: string) returns (sign: string, tail: string)
    ensures t == sign + tail && (sign == "" || sign == "+" || sign == "-")
    ensures tail == if t != "" && (t[0] == '-' || t[0] == '+') then t[1..] else t
    ensures sign == "-" <==> t != "" && t[0] == '-'
  {
    if t != "" && t[0] == '-' {
      sign, tail := "-", t[1..];
    } else if t != "" && t[0] == '+' {
      sign, tail := "+", t[1..];
    } else {
      sign, tail := "", t;
    }
  }

  lemma Joined(s: string, k: nat, sign: string, tail: string, d: nat)
    requires k <= |s| && s[k..] == sign + tail && d <= |tail|
    ensures s == s[..k] + (sign + (tail[..d] + tail[d..]))
  {
    assert tail == tail[..d] + tail[d..];
  }

  lemma NumeralParses(s: string, space: string, sign: string, digits: string, rest: string, n: int)
    requires Numeral(s, space, sign, digits, rest, n)
    ensures ParseInt(s) == Some(n)
  {
    hide DigitsValue;
    var tail := digits + rest;
    var t := sign + tail;
    DigitNotSpecial(digits[0]);
    assert tail[0] == digits[0];
    assert !ScopeFile.IsSpace('-') && !ScopeFile.IsSpace('+');
    hide ScopeFile.IsSpace;
    ScopeFile.SpaceRunIs(s, |space|);
    assert s[|space|..] == t;
    DigitRunStops(digits, rest);
    assert tail[..|digits|] == digits;
    if sign == "" { assert t == tail; } else { assert t[1..] == tail && t[0] == sign[0]; }
  }

  lemma {:induction false} DigitRunStops(digits: string, rest: string)
    requires AllDigits(digits) && (rest != "" ==> !('0' <= rest[0] <= '9'))
    ensures DigitRun(digits + rest) == |digits|
  {
    if digits == "" {
      assert "" + rest == rest;
    } else {
      assert (digits + rest)[1..] == digits[1..] + rest;
      DigitRunStops(digits[1..], rest);
    }
  }

  lemma DigitNotSpecial(c: char)
    requires IsDigit(c)
    ensures !ScopeFile.IsSpace(c) && c != '-' && c != '+' && c != '.' && c != '/'
  {
  }

  lemma {:induction false} ShowDigits(n: nat)
    ensures Show(n) != "" && AllDigits(Show(n)) && DigitsValue(Show(n)) == n
  {
    var c := ('0' as int + n % 10) as char;
    if n >= 10 {
      ShowDigits(n / 10);
      assert Show(n)[..|Show(n)| - 1] == Show(n / 10);
    } else {
      assert Show(n) == [c];
      assert [c][..0] == "";
    }
  }

  /** parseInt undoes String. */
  lemma ParseShow(n: nat)
    ensures ParseInt(Show(n)) == Some(n)
  {
    ShowDigits(n);
    ParseDigits(Show(n));
  }

  lemma DigitsFree(s: string, c: char)
    requires AllDigits(s) && !IsDigit(c)
    ensures c !in s
  {
  }

  datatype Quad = Quad(a: nat, b: nat, c: nat, d: nat) {
    predicate Valid() { a <= 255 && b <= 255 && c <= 255 && d <= 255 }

    function Value(): nat { ((a * 0x100 + b) * 0x100 + c) * 0x100 + d }

    function Parts(): seq<string> { [Show(a), Show(b), Show(c), Show(d)] }

    function Text(): string { Join(Parts(), '.') }
  }

  lemma QuadSplits(q: Quad)
    ensures Split(q.Text(), '.') == q.Parts() && '/' !in q.Text()
  {
    ShowDigits(q.a);
    ShowDigits(q.b);
    ShowDigits(q.c);
    ShowDigits(q.d);
    hide Show, Split, AllDigits, Join;
    forall i | 0 <= i < 4 ensures '.' !in q.Parts()[i] && '/' !in q.Parts()[i] {
      DigitsFree(q.Parts()[i], '.');
      DigitsFree(q.Parts()[i], '/');
    }
    SplitJoin(q.Parts(), '.');
    JoinFree(q.Parts(), '.', '/');
  }

  lemma {:induction false} JoinFree(parts: seq<string>, c: char, x: char)
    requires x != c && forall i :: 0 <= i < |parts| ==> x !in parts[i]
    ensures x !in Join(parts, c)
  {
    if |parts| > 1 { JoinFree(parts[1..], c, x); }
  }

  lemma OctetExactly(p: string)
    ensures IsOctet(p) <==> exists n :: 0 <= n <= 255 && Show(n) == p
  {
    forall n | 0 <= n <= 255 && Show(n) == p ensures IsOctet(p) { ParseShow(n); }
    if IsOctet(p) {
      var n := ParseInt(p).value;
      assert 0 <= n <= 255 && Show(n) == p;
    }
  }

  /** The accepted addresses are exactly the dotted quads without leading zeros. */
  lemma IPv4Exactly(s: string)
    ensures IsIPv4(s) <==> exists q: Quad :: q.Valid() && q.Text() == s
  {
    hide Show, Split, Join, ParseInt, IsOctet;
    if IsIPv4(s) {
      var q := ReadQuad(s);
    }
    forall q: Quad | q.Valid() && q.Text() == s ensures IsIPv4(s) { QuadIsIPv4(q); }
  }

  lemma ReadQuad(s: string) returns (q: Quad)
    requires IsIPv4(s)
    ensures q.Valid() && q.Text() == s
  {
    hide Show, Split, Join, ParseInt, IsOctet;
    var parts := Split(s, '.');
    forall i | 0 <= i < 4 ensures exists n :: 0 <= n <= 255 && Show(n) == parts[i] { OctetExactly(parts[i]); }
    var a :| 0 <= a <= 255 && Show(a) == parts[0];
    var b :| 0 <= b <= 255 && Show(b) == parts[1];
    var c :| 0 <= c <= 255 && Show(c) == parts[2];
    var d :| 0 <= d <= 255 && Show(d) == parts[3];
    q := Quad(a, b, c, d);
    assert q.Parts() == parts;
    JoinSplit(s, '.');
  }

  lemma QuadIsIPv4(q: Quad)
    requires q.Valid()
    ensures IsIPv4(q.Text()) && Address(q.Text()) == q.Value()
  {
    QuadSplits(q);
    ParseShow(q.a);
    ParseShow(q.b);
    ParseShow(q.c);
    ParseShow(q.d);
    hide Show, Split, Join, ParseInt, IpToInt;
    AddressIs(q.Text(), q.a, q.b, q.c, q.d);
  }

  // The main results

  function Block(net: Quad, bits: nat): string { net.Text() + "/" + Show(bits) }

  lemma BlockSplits(net: Quad, bits: nat)
    ensures Split(Block(net, bits), '/') == [net.Text(), Show(bits)]
  {
    QuadSplits(net);
    ShowDigits(bits);
    DigitsFree(Show(bits), '/');
    SplitFirst(net.Text(), '/', Show(bits));
    SplitFirst(Show(bits), '/', "");
  }

  /** An address is in a block exactly when the two agree in their upper `bits` bits. */
  lemma MatchesPrefix(ip: Quad, net: Quad, bits: nat)
    requires ip.Valid() && net.Valid() && bits <= 32
    ensures IpInCidr(ip.Text(), Block(net, bits)) <==> ip.Value() / Pow2(32 - bits) == net.Value() / Pow2(32 - bits)
  {
    hide Pow2, IpInCidr, IsIPv4, Split, Quad.Text, Quad.Value, Block, Address, Show, ParseInt;
    InCidrExactly(ip.Text(), Block(net, bits));
    BlockSplits(net, bits);
    ParseShow(bits);
    QuadIsIPv4(ip);
    QuadIsIPv4(net);
  }

  lemma {:induction false} DivideFurther(x: nat, y: nat, s: nat, t: nat)
    requires s <= t && x / Pow2(s) == y / Pow2(s)
    ensures x / Pow2(t) == y / Pow2(t)
    decreases t
  {
    if s < t {
      DivideFurther(x, y, s, t - 1);
      PowHalves(x, t);
      PowHalves(y, t);
    }
  }

  lemma PowHalves(x: nat, t: nat)
    requires t > 0
    ensures x / Pow2(t) == (x / Pow2(t - 1)) / 2
  {
    var p := Pow2(t - 1);
    var q, r := x / (2 * p), x % (2 * p);
    assert x == (2 * p) * q + r && (2 * p) * q == p * (2 * q);
    if r < p {
      DivideUnique(x, p, 2 * q, r);
    } else {
      assert p * (2 * q + 1) == p * (2 * q) + p;
      DivideUnique(x, p, 2 * q + 1, r - p);
    }
  }

  /** Shortening the prefix never loses a match. */
  lemma ShorterPrefix(ip: Quad, net: Quad, bits: nat, fewer: nat)
    requires ip.Valid() && net.Valid() && fewer <= bits <= 32 && IpInCidr(ip.Text(), Block(net, bits))
    ensures IpInCidr(ip.Text(), Block(net, fewer))
  {
    hide Pow2, IpInCidr, Quad.Text, Quad.Value, Block;
    MatchesPrefix(ip, net, bits);
    MatchesPrefix(ip, net, fewer);
    DivideFurther(ip.Value(), net.Value(), 32 - bits, 32 - fewer);
  }

  /** Four groups of up to three digits and one of up to two. */
  ghost predicate BlockParts(s: string, a: string, b: string, c: string, d: string, bits: string) {
    && s == a + "." + b + "." + c + "." + d + "/" + bits
    && 1 <= |a| <= 3 && 1 <= |b| <= 3 && 1 <= |c| <= 3 && 1 <= |d| <= 3 && 1 <= |bits| <= 2
    && forall x :: x in a + b + c + d + bits ==> '0' <= x <= '9'
  }

  lemma DigitsOf(s: string)
    ensures AllDigits(s) <==> forall x :: x in s ==> '0' <= x <= '9'
  {
    forall i | 0 <= i < |s| ensures s[i] in s {}
  }

  /** The block test admits exactly these texts, with a prefix length of at most 32. */
  lemma IsCidrExactly(s: string)
    ensures IsCidr(s) <==> exists a, b, c, d, bits ::
      BlockParts(s, a, b, c, d, bits) && AllDigits(bits) && DigitsValue(bits) <= 32
  {
    hide DigitsValue;
    if IsCidr(s) { CidrHasParts(s); }
    forall a, b, c, d, bits | BlockParts(s, a, b, c, d, bits) && AllDigits(bits) && DigitsValue(bits) <= 32
      ensures IsCidr(s)
    {
      PartsAreCidr(s, a, b, c, d, bits);
    }
  }

  lemma CidrHasParts(s: string)
    requires IsCidr(s)
    ensures exists a, b, c, d, bits :: BlockParts(s, a, b, c, d, bits) && AllDigits(bits) && DigitsValue(bits) <= 32
  {
    hide DigitsValue, Split, Join;
    var parts := Split(s, '/');
    var n := Split(parts[0], '.');
    JoinSplit(s, '/');
    JoinSplit(parts[0], '.');
    JoinTwo(parts, '/');
    JoinFour(n, '.');
    assert DigitGroup(n[0], 3) && DigitGroup(n[1], 3) && DigitGroup(n[2], 3) && DigitGroup(n[3], 3);
    DigitsOf(n[0]);
    DigitsOf(n[1]);
    DigitsOf(n[2]);
    DigitsOf(n[3]);
    DigitsOf(parts[1]);
    assert BlockParts(s, n[0], n[1], n[2], n[3], parts[1]);
  }

  lemma JoinTwo(parts: seq<string>, c: char)
    requires |parts| == 2
    ensures Join(parts, c) == parts[0] + [c] + parts[1]
  {
  }

  lemma JoinFour(n: seq<string>, c: char)
    requires |n| == 4
    ensures Join(n, c) == n[0] + [c] + n[1] + [c] + n[2] + [c] + n[3]
  {
    JoinTwo(n[2..], c);
    assert n[1..][1..] == n[2..];
    assert Join(n[1..], c) == n[1] + [c] + Join(n[2..], c);
  }

  lemma PartsAreCidr(s: string, a: string, b: string, c: string, d: string, bits: string)
    requires BlockParts(s, a, b, c, d, bits) && AllDigits(bits) && DigitsValue(bits) <= 32
    ensures IsCidr(s)
  {
    hide DigitsValue, Split, Join;
    var n := [a, b, c, d];
    var address := a + "." + b + "." + c + "." + d;
    JoinFour(n, '.');
    forall i | 0 <= i < 4 ensures DigitGroup(n[i], 3) && '.' !in n[i] && '/' !in n[i] {
      DigitsOf(n[i]);
      assert forall x :: x in n[i] ==> x in a + b + c + d + bits;
    }
    assert Join(n, '.') == address;
    SplitJoin(n, '.');
    DigitsOf(bits);
    JoinFree(n, '.', '/');
    DigitsFree(bits, '/');
    assert s == address + "/" + bits;
    SplitFirst(address, '/', bits);
    SplitFirst(bits, '/', "");
  }

  /** For whatever the block test admits, including numbers above 255, which carry into the next one. */
  lemma GuardedExactly(ip: Quad, cidr: string)
    requires ip.Valid() && IsCidr(cidr)
    ensures var parts := Split(cidr, '/');
      var n := Split(parts[0], '.');
      var upper := DigitsValue(n[0]) * 0x100 + DigitsValue(n[1]);
      var value := (upper * 0x100 + DigitsValue(n[2])) * 0x100 + DigitsValue(n[3]);
      var p := Pow2(32 - DigitsValue(parts[1]));
      IpInCidr(ip.Text(), cidr) <==> ip.Value() / p == ToUint32(value) / p
  {
    hide Split, ParseInt, IpInCidr, ToUint32, Quad.Text;
    var parts := Split(cidr, '/');
    var n := Split(parts[0], '.');
    ParseDigits(parts[1]);
    assert DigitGroup(n[0], 3) && DigitGroup(n[1], 3) && DigitGroup(n[2], 3) && DigitGroup(n[3], 3);
    ParseDigits(n[0]);
    ParseDigits(n[1]);
    ParseDigits(n[2]);
    ParseDigits(n[3]);
    InCidrExactly(ip.Text(), cidr);
    QuadIsIPv4(ip);
    AddressIs(parts[0], DigitsValue(n[0]), DigitsValue(n[1]), DigitsValue(n[2]), DigitsValue(n[3]));
  }
}
