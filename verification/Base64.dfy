/**
 Unpadded base64url (section 5 of RFC 4648) as Go's base64.RawURLEncoding does it: the decoder
 skips line breaks, refuses any other character outside the alphabet and a lone last symbol, and
 ignores the unused bits of the last symbol.

 A Go string is a sequence of bytes; it is written here as a string whose characters are all
 below 256, one character a byte.
 */
module Base64 {
  import opened Options
  import opened Sequences

  newtype Byte = b: int | 0 <= b < 256

  predicate IsByteString(s: string) {
    forall c :: c in s ==> c as int < 256
  }

  function BytesOf(s: string): (r: seq<Byte>)
    requires IsByteString(s)
    ensures |r| == |s|
  {
    seq(|s|, i requires 0 <= i < |s| => assert s[i] in s; s[i] as int as Byte)
  }

  function TextOf(b: seq<Byte>): (r: string)
    ensures |r| == |b| && IsByteString(r)
    ensures BytesOf(r) == b
  {
    seq(|b|, i requires 0 <= i < |b| => b[i] as int as char)
  }

  lemma TextOfBytesOf(s: string)
    requires IsByteString(s)
    ensures TextOf(BytesOf(s)) == s
  {
    var t := TextOf(BytesOf(s));
    forall i | 0 <= i < |s| ensures t[i] == s[i] {
      assert s[i] in s;
    }
  }

  // ---- the alphabet ----

  function Symbol(v: int): char
    requires 0 <= v < 64
  {
    if v < 26 then ('A' as int + v) as char
    else if v < 52 then ('a' as int + (v - 26)) as char
    else if v < 62 then ('0' as int + (v - 52)) as char
    else if v == 62 then '-' else '_'
  }

  function SymbolValue(c: char): (r: Option<int>)
    ensures r.Some? ==> 0 <= r.value < 64 && Symbol(r.value) == c
  {
    if 'A' <= c <= 'Z' then Some(c as int - 'A' as int)
    else if 'a' <= c <= 'z' then Some(c as int - 'a' as int + 26)
    else if '0' <= c <= '9' then Some(c as int - '0' as int + 52)
    else if c == '-' then Some(62)
    else if c == '_' then Some(63)
    else None
  }

  predicate InAlphabet(s: string) {
    forall c :: c in s ==> SymbolValue(c).Some?
  }

  type Six = v: int | 0 <= v < 64

  function Symbols(v: seq<Six>): (s: string)
    ensures |s| == |v| && InAlphabet(s)
  {
    seq(|v|, i requires 0 <= i < |v| => Symbol(v[i]))
  }

  function Values(s: string): (v: seq<Six>)
    requires InAlphabet(s)
    ensures |v| == |s| && Symbols(v) == s
  {
    seq(|s|, i requires 0 <= i < |s| => assert s[i] in s; SymbolValue(s[i]).value)
  }

  // ---- three bytes as four six-bit values ----

  function Quad(x: Byte, y: Byte, z: Byte): (r: seq<Six>)
    ensures |r| == 4
  {
    var a, b, c := x as int, y as int, z as int;
    [a / 4, a % 4 * 16 + b / 16, b % 16 * 4 + c / 64, c % 64]
  }

  function Pack(b: seq<Byte>): (v: seq<Six>)
    ensures |v| == (4 * |b| + 2) / 3
  {
    if |b| == 0 then []
    else if |b| == 1 then Quad(b[0], 0, 0)[..2]
    else if |b| == 2 then Quad(b[0], b[1], 0)[..3]
    else Quad(b[0], b[1], b[2]) + Pack(b[3..])
  }

  function First(v: seq<Six>): Byte
    requires |v| >= 2
  {
    var p: int, q: int := v[0], v[1];
    (p * 4 + q / 16) as Byte
  }

  function Second(v: seq<Six>): Byte
    requires |v| >= 3
  {
    var q: int, t: int := v[1], v[2];
    (q % 16 * 16 + t / 4) as Byte
  }

  function Third(v: seq<Six>): Byte
    requires |v| >= 4
  {
    var t: int, u: int := v[2], v[3];
    (t % 4 * 64 + u) as Byte
  }

  function Unpack(v: seq<Six>): (b: seq<Byte>)
    requires |v| % 4 != 1
    ensures |b| == 3 * |v| / 4
  {
    if |v| == 0 then []
    else if |v| == 2 then [First(v)]
    else if |v| == 3 then [First(v), Second(v)]
    else
      assert |v[4..]| == |v| - 4 && |v[4..]| % 4 == |v| % 4;
      [First(v), Second(v), Third(v)] + Unpack(v[4..])
  }

  // ---- encode and decode ----

  function Encode(b: seq<Byte>): (s: string)
    ensures InAlphabet(s)
    ensures |s| == (4 * |b| + 2) / 3
  {
    Symbols(Pack(b))
  }

  predicate IsLineBreak(c: char) { c == '\r' || c == '\n' }

  /** The symbols the decoder looks at: line breaks are skipped wherever they stand. */
  function SkipLineBreaks(s: string): string { Filter(s, (c: char) => !IsLineBreak(c)) }

  function Decode(s: string): Option<seq<Byte>> {
    var t := SkipLineBreaks(s);
    if InAlphabet(t) && |t| % 4 != 1 then Some(Unpack(Values(t))) else None
  }

  // ---- round trips ----

  lemma NoLineBreaks(s: string)
    requires InAlphabet(s)
    ensures SkipLineBreaks(s) == s
  {
    FilterAll(s, (c: char) => !IsLineBreak(c));
  }

  /** Regrouping three bytes as four six-bit values loses nothing. */
  lemma Regroup(x: int, y: int, z: int)
    requires 0 <= x < 256 && 0 <= y < 256 && 0 <= z < 256
    ensures x / 4 * 4 + (x % 4 * 16 + y / 16) / 16 == x
    ensures (x % 4 * 16 + y / 16) % 16 * 16 + (y % 16 * 4 + z / 64) / 4 == y
    ensures (y % 16 * 4 + z / 64) % 4 * 64 + z % 64 == z
  {
    assert (x % 4 * 16 + y / 16) / 16 == x % 4;
    assert (x % 4 * 16 + y / 16) % 16 == y / 16;
    assert (y % 16 * 4 + z / 64) / 4 == y % 16;
    assert (y % 16 * 4 + z / 64) % 4 == z / 64;
  }

  lemma ThreeOfQuad(x: Byte, y: Byte, z: Byte)
    ensures var v := Quad(x, y, z); First(v) == x && Second(v) == y && Third(v) == z
  {
    Regroup(x as int, y as int, z as int);
  }

  lemma SameHead(q: seq<Six>, rest: seq<Six>)
    requires |q| == 4
    ensures var v := q + rest; First(v) == First(q) && Second(v) == Second(q) && Third(v) == Third(q)
  {
    var v := q + rest;
    assert v[0] == q[0] && v[1] == q[1] && v[2] == q[2] && v[3] == q[3];
  }

  lemma HeadOfPack(b: seq<Byte>)
    requires |b| > 2
    ensures var v := Pack(b);
            v[4..] == Pack(b[3..]) && First(v) == b[0] && Second(v) == b[1] && Third(v) == b[2]
  {
    hide Quad, First, Second, Third;
    var q, rest := Quad(b[0], b[1], b[2]), Pack(b[3..]);
    ThreeOfQuad(b[0], b[1], b[2]);
    SameHead(q, rest);
    assert Pack(b) == q + rest;
  }

  lemma ShortRoundTrip(b: seq<Byte>)
    requires |b| < 3
    ensures |Pack(b)| % 4 != 1 && Unpack(Pack(b)) == b
  {
    if |b| > 0 {
      ThreeOfQuad(b[0], if |b| > 1 then b[1] else 0, 0);
    }
  }

  lemma {:induction false} UnpackOfPack(b: seq<Byte>)
    ensures |Pack(b)| % 4 != 1 && Unpack(Pack(b)) == b
  {
    hide Quad, First, Second, Third;
    if |b| < 3 {
      ShortRoundTrip(b);
    } else {
      HeadOfPack(b);
      UnpackOfPack(b[3..]);
      assert b == [b[0], b[1], b[2]] + b[3..];
    }
  }

  lemma ValuesOfSymbols(v: seq<Six>)
    ensures Values(Symbols(v)) == v
  {
    forall i | 0 <= i < |v| ensures Values(Symbols(v))[i] == v[i] {
      assert Symbols(v)[i] == Symbol(v[i]);
    }
  }

  /** What was encoded is what is decoded, for every byte string. */
  lemma DecodeOfEncode(b: seq<Byte>)
    ensures Decode(Encode(b)) == Some(b)
  {
    NoLineBreaks(Encode(b));
    UnpackOfPack(b);
    ValuesOfSymbols(Pack(b));
  }

  /** So two byte strings never share an encoding. */
  lemma EncodeInjective(a: seq<Byte>, b: seq<Byte>)
    requires Encode(a) == Encode(b)
    ensures a == b
  {
    DecodeOfEncode(a);
    DecodeOfEncode(b);
  }

  // ---- the text as a number ----

  function Power(base: nat, n: nat): nat { if n == 0 then 1 else base * Power(base, n - 1) }

  /** The value of digits in a base, the first the most significant. */
  function Number(digits: seq<int>, base: nat): int {
    if digits == [] then 0 else digits[0] * Power(base, |digits| - 1) + Number(digits[1..], base)
  }

  /** Table 2 of RFC 4648: a symbol's value is its place. */
  const ALPHABET := "ABCDEFGHIJKLMNOPQRSTUVWXYZ" + "abcdefghijklmnopqrstuvwxyz" + "0123456789" + "-_"

  lemma SymbolOfTable(v: int)
    requires 0 <= v < 64
    ensures Symbol(v) == ALPHABET[v]
  {
    if v < 26 {
      assert "ABCDEFGHIJKLMNOPQRSTUVWXYZ"[v] == Symbol(v);
    } else if v < 52 {
      assert "abcdefghijklmnopqrstuvwxyz"[v - 26] == Symbol(v);
    } else if v < 62 {
      assert "0123456789"[v - 52] == Symbol(v);
    }
  }

  /** A symbol's place in the table is the only one. */
  lemma PlaceIsValue(c: char, v: int)
    requires 0 <= v < 64 && ALPHABET[v] == c
    ensures SymbolValue(c) == Some(v)
  {
    SymbolOfTable(v);
  }

  lemma InTable(c: char)
    ensures c in ALPHABET <==> SymbolValue(c).Some?
  {
    if SymbolValue(c).Some? {
      SymbolOfTable(SymbolValue(c).value);
    } else if c in ALPHABET {
      var v :| 0 <= v < 64 && ALPHABET[v] == c;
      PlaceIsValue(c, v);
    }
  }

  /** The places in the table of a text's symbols. */
  ghost predicate ArePlaces(places: seq<Six>, s: string) {
    |places| == |s| && forall i :: 0 <= i < |s| ==> ALPHABET[places[i]] == s[i]
  }

  function Octets(b: seq<Byte>): (r: seq<int>)
    ensures |r| == |b| && forall i :: 0 <= i < |b| ==> r[i] == b[i] as int
  {
    seq(|b|, i requires 0 <= i < |b| => b[i] as int)
  }

  /** What the unused bits of the last symbol multiply by: none, four or two of them. */
  function Padding(n: nat): nat { if n % 3 == 0 then 1 else if n % 3 == 1 then 16 else 4 }

  lemma {:induction false} PowerSum(base: nat, m: nat, n: nat)
    ensures Power(base, m + n) == Power(base, m) * Power(base, n)
  {
    if m == 0 {
    } else {
      PowerSum(base, m - 1, n);
      assert base * (Power(base, m - 1) * Power(base, n)) == base * Power(base, m - 1) * Power(base, n);
    }
  }

  lemma Weigh(d: int, p: int, q: int, n: int)
    ensures d * (p * q) + n * q == (d * p + n) * q
  {
    assert d * (p * q) == d * p * q;
  }

  lemma {:induction false} NumberConcat(a: seq<int>, b: seq<int>, base: nat)
    ensures Number(a + b, base) == Number(a, base) * Power(base, |b|) + Number(b, base)
  {
    if a == [] {
      assert a + b == b;
    } else {
      hide Power;
      var p, q := Power(base, |a| - 1), Power(base, |b|);
      assert (a + b)[1..] == a[1..] + b;
      NumberConcat(a[1..], b, base);
      PowerSum(base, |a| - 1, |b|);
      Weigh(a[0], p, q, Number(a[1..], base));
    }
  }

  lemma NumberOfOne(d: seq<int>, base: nat)
    requires |d| == 1
    ensures Number(d, base) == d[0] && Power(base, 1) == base
  {
    assert d[1..] == [];
  }

  lemma NumberOfTwo(d: seq<int>, base: nat)
    requires |d| == 2
    ensures Number(d, base) == d[0] * base + d[1]
  {
    assert d == d[..1] + d[1..];
    NumberConcat(d[..1], d[1..], base);
    NumberOfOne(d[..1], base);
    NumberOfOne(d[1..], base);
  }

  lemma NumberOfThree(d: seq<int>, base: nat)
    requires |d| == 3
    ensures Number(d, base) == (d[0] * base + d[1]) * base + d[2]
  {
    assert d == d[..2] + d[2..];
    NumberConcat(d[..2], d[2..], base);
    NumberOfTwo(d[..2], base);
    NumberOfOne(d[2..], base);
  }

  lemma NumberOfFour(d: seq<int>, base: nat)
    requires |d| == 4
    ensures Number(d, base) == ((d[0] * base + d[1]) * base + d[2]) * base + d[3]
  {
    assert d == d[..3] + d[3..];
    NumberConcat(d[..3], d[3..], base);
    NumberOfThree(d[..3], base);
    NumberOfOne(d[3..], base);
  }

  /** A group of three bytes and of four symbols are one number. */
  lemma QuadIsNumber(v: seq<Six>)
    requires |v| == 4
    ensures Number(Octets([First(v), Second(v), Third(v)]), 256) == Number(v, 64)
  {
    NumberOfFour(v, 64);
    NumberOfThree(Octets([First(v), Second(v), Third(v)]), 256);
  }

  /** A group's worth of symbols and of bytes weigh the same. */
  lemma PowerOfGroup(n: nat)
    ensures Power(64, n + 4) == 16777216 * Power(64, n) && Power(256, n + 3) == 16777216 * Power(256, n)
  {
    PowerSum(64, 4, n);
    PowerSum(256, 3, n);
    assert Power(64, 4) == 64 * (64 * (64 * (64 * Power(64, 0))));
    assert Power(256, 3) == 256 * (256 * (256 * Power(256, 0)));
  }

  lemma Regrouped(p: int, k: int)
    ensures 16777216 * (p * k) == 16777216 * p * k
  {
  }

  lemma {:induction false} PowersMeet(n: nat)
    ensures Power(64, (4 * n + 2) / 3) == Power(256, n) * Padding(n)
  {
    if n == 0 {
    } else if n == 1 {
      assert Power(64, 2) == 64 * (64 * Power(64, 0)) && Power(256, 1) == 256 * Power(256, 0);
    } else if n == 2 {
      assert Power(64, 3) == 64 * (64 * (64 * Power(64, 0))) && Power(256, 2) == 256 * (256 * Power(256, 0));
    } else {
      PowersMeet(n - 3);
      PowerOfGroup(n - 3);
      PowerOfGroup((4 * (n - 3) + 2) / 3);
      assert (4 * n + 2) / 3 == (4 * (n - 3) + 2) / 3 + 4 && Padding(n - 3) == Padding(n);
      Regrouped(Power(256, n - 3), Padding(n));
    }
  }

  /** The bytes' number, shifted by the padding, is the symbols' but for the bits that do not count. */
  ghost predicate IsShifted(b: seq<Byte>, v: seq<Six>) {
    Padding(|b|) * Number(Octets(b), 256) <= Number(v, 64) < Padding(|b|) * (Number(Octets(b), 256) + 1)
  }

  lemma Shift(h: int, p: nat, k: nat, low: int, rest: int)
    requires k * rest <= low < k * (rest + 1)
    ensures k * (h * p + rest) <= h * (p * k) + low < k * (h * p + rest + 1)
  {
    assert h * (p * k) == k * (h * p);
    assert k * (h * p + rest) == k * (h * p) + k * rest;
    assert k * (h * p + rest + 1) == k * (h * p) + k * (rest + 1);
  }

  lemma OctetsConcat(a: seq<Byte>, b: seq<Byte>)
    ensures Octets(a + b) == Octets(a) + Octets(b)
  {
  }

  lemma GroupIsShifted(b: seq<Byte>, head: seq<Six>, c: seq<Byte>, rest: seq<Six>)
    requires |b| == 3 && Number(Octets(b), 256) == Number(head, 64)
    requires IsShifted(c, rest) && |rest| == (4 * |c| + 2) / 3
    ensures IsShifted(b + c, head + rest)
  {
    hide Number, Power;
    OctetsConcat(b, c);
    NumberConcat(head, rest, 64);
    NumberConcat(Octets(b), Octets(c), 256);
    PowersMeet(|c|);
    Shift(Number(head, 64), Power(256, |c|), Padding(|c|), Number(rest, 64), Number(Octets(c), 256));
    assert Padding(|b + c|) == Padding(|c|);
  }

  lemma ShortIsShifted(v: seq<Six>)
    requires |v| == 2 || |v| == 3
    ensures IsShifted(Unpack(v), v)
  {
    if |v| == 2 {
      NumberOfTwo(v, 64);
      NumberOfOne(Octets([First(v)]), 256);
    } else {
      NumberOfThree(v, 64);
      NumberOfTwo(Octets([First(v), Second(v)]), 256);
    }
  }

  lemma HeadOfUnpack(v: seq<Six>)
    requires |v| >= 4 && |v| % 4 != 1
    ensures |v[4..]| % 4 == |v| % 4 && v == v[..4] + v[4..]
    ensures var head := v[..4];
            Unpack(v) == [First(head), Second(head), Third(head)] + Unpack(v[4..])
            && |v[4..]| == (4 * |Unpack(v[4..])| + 2) / 3
  {
    hide First, Second, Third;
    assert v == v[..4] + v[4..];
    SameHead(v[..4], v[4..]);
  }

  lemma {:induction false} UnpackIsShifted(v: seq<Six>)
    requires |v| % 4 != 1
    ensures IsShifted(Unpack(v), v)
    decreases |v|
  {
    if |v| == 0 {
    } else if |v| < 4 {
      ShortIsShifted(v);
    } else {
      hide First, Second, Third, Number, IsShifted, Unpack;
      var head, rest := v[..4], v[4..];
      HeadOfUnpack(v);
      UnpackIsShifted(rest);
      QuadIsNumber(head);
      GroupIsShifted([First(head), Second(head), Third(head)], head, Unpack(rest), rest);
    }
  }

  /** One byte, or two, over the symbols they take. */
  lemma TwoFit(x: int)
    requires 0 <= x < 256
    ensures x / 4 * 64 + x % 4 * 16 == 16 * x
  {
  }

  lemma ThreeFit(x: int, y: int)
    requires 0 <= x < 256 && 0 <= y < 256
    ensures (x / 4 * 64 + (x % 4 * 16 + y / 16)) * 64 + y % 16 * 4 == 4 * (x * 256 + y)
  {
    assert x == x / 4 * 4 + x % 4 && y == y / 16 * 16 + y % 16;
  }

  lemma OneIsExact(b: seq<Byte>)
    requires |b| == 1
    ensures Number(Pack(b), 64) == Padding(|b|) * Number(Octets(b), 256)
  {
    hide Number;
    NumberOfTwo(Pack(b), 64);
    NumberOfOne(Octets(b), 256);
    TwoFit(b[0] as int);
  }

  lemma PackOfTwo(b: seq<Byte>)
    requires |b| == 2
    ensures var (x, y, v) := (b[0] as int, b[1] as int, Pack(b));
            |v| == 3 && v[0] == x / 4 && v[1] == x % 4 * 16 + y / 16 && v[2] == y % 16 * 4
  {
  }

  lemma TwoAreExact(b: seq<Byte>)
    requires |b| == 2
    ensures Number(Pack(b), 64) == Padding(|b|) * Number(Octets(b), 256)
  {
    hide Number, Pack;
    PackOfTwo(b);
    NumberOfThree(Pack(b), 64);
    NumberOfTwo(Octets(b), 256);
    ThreeFit(b[0] as int, b[1] as int);
  }

  lemma GroupIsExact(b: seq<Byte>, head: seq<Six>, c: seq<Byte>, rest: seq<Six>)
    requires |b| == 3 && Number(Octets(b), 256) == Number(head, 64)
    requires Number(rest, 64) == Padding(|c|) * Number(Octets(c), 256) && |rest| == (4 * |c| + 2) / 3
    ensures Number(head + rest, 64) == Padding(|b + c|) * Number(Octets(b + c), 256)
  {
    hide Number, Power;
    OctetsConcat(b, c);
    NumberConcat(head, rest, 64);
    NumberConcat(Octets(b), Octets(c), 256);
    PowersMeet(|c|);
    Shift(Number(head, 64), Power(256, |c|), Padding(|c|), Number(rest, 64), Number(Octets(c), 256));
    assert Padding(|b + c|) == Padding(|c|);
    var h, p, k := Number(head, 64), Power(256, |c|), Padding(|c|);
    assert h * (p * k) == k * (h * p);
    assert k * (h * p + Number(Octets(c), 256)) == k * (h * p) + k * Number(Octets(c), 256);
  }

  lemma {:induction false} PackIsExact(b: seq<Byte>)
    ensures Number(Pack(b), 64) == Padding(|b|) * Number(Octets(b), 256)
    decreases |b|
  {
    if |b| == 0 {
    } else if |b| == 1 {
      OneIsExact(b);
    } else if |b| == 2 {
      TwoAreExact(b);
    } else {
      hide Quad, First, Second, Third, Number;
      var head := Quad(b[0], b[1], b[2]);
      PackIsExact(b[3..]);
      ThreeOfQuad(b[0], b[1], b[2]);
      QuadIsNumber(head);
      assert b[..3] == [First(head), Second(head), Third(head)] && b == b[..3] + b[3..];
      GroupIsExact(b[..3], head, b[3..], Pack(b[3..]));
    }
  }

  /** The text of some bytes, read as a number in base 64, is theirs in base 256, shifted by the unused bits. */
  lemma EncodeIsNumber(b: seq<Byte>, places: seq<Six>)
    requires ArePlaces(places, Encode(b))
    ensures Number(places, 64) == Padding(|b|) * Number(Octets(b), 256)
  {
    hide Number, Padding, Pack, Octets, Symbol;
    PackIsExact(b);
    ValuesOfSymbols(Pack(b));
    forall i | 0 <= i < |places| ensures places[i] == Pack(b)[i] {
      PlaceIsValue(Encode(b)[i], places[i]);
      assert Values(Encode(b))[i] == SymbolValue(Encode(b)[i]).value;
    }
    assert places == Pack(b);
  }

  /** A text decodes exactly when all but its line breaks is in the table and no single symbol is left over. */
  lemma DecodesExactly(s: string)
    ensures Decode(s).Some? <==>
            (forall c :: c in s ==> c == '\r' || c == '\n' || c in ALPHABET) && |SkipLineBreaks(s)| % 4 != 1
  {
    forall c | c in s ensures c in ALPHABET <==> SymbolValue(c).Some? {
      InTable(c);
    }
    hide SymbolValue;
    assert forall c :: c in SkipLineBreaks(s) <==> c in s && !IsLineBreak(c);
  }

  /** What it decodes to has that number, less the unused bits, in as many bytes as there are whole ones. */
  lemma DecodeIsNumber(s: string, places: seq<Six>)
    requires Decode(s).Some? && ArePlaces(places, SkipLineBreaks(s))
    ensures |Decode(s).value| == 3 * |places| / 4 && IsShifted(Decode(s).value, places)
  {
    hide IsShifted, Unpack, SkipLineBreaks, Symbol;
    var t := SkipLineBreaks(s);
    forall i | 0 <= i < |places| ensures places[i] == Values(t)[i] {
      PlaceIsValue(t[i], places[i]);
    }
    assert places == Values(t);
    UnpackIsShifted(places);
  }
}
