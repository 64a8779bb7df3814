/** Decimal numbers as Go's strconv prints (FormatInt) and reads (ParseInt, 64 bits) them. */
module Decimals {
  import opened Options

  const MIN_INT64: int := -0x8000_0000_0000_0000
  const MAX_INT64: int := 0x7fff_ffff_ffff_ffff

  predicate IsInt64(n: int) { MIN_INT64 <= n <= MAX_INT64 }

  function Digit(n: int): (c: char)
    requires 0 <= n < 10
    ensures '0' <= c <= '9'
  {
    ('0' as int + n) as char
  }

  predicate IsDigit(c: char) { '0' <= c <= '9' }

  predicate AllDigits(s: string) { forall c :: c in s ==> IsDigit(c) }

  function DigitValue(c: char): (n: int)
    requires IsDigit(c)
    ensures 0 <= n < 10 && Digit(n) == c
  {
    c as int - '0' as int
  }

  function Digits(n: nat): (s: string)
    ensures |s| > 0 && AllDigits(s)
  {
    if n < 10 then [Digit(n)] else Digits(n / 10) + [Digit(n % 10)]
  }

  function NatValue(s: string): nat
    requires AllDigits(s)
  {
    if s == "" then 0
    else
      assert forall c :: c in s[..|s| - 1] ==> c in s;
      assert s[|s| - 1] in s;
      NatValue(s[..|s| - 1]) * 10 + DigitValue(s[|s| - 1])
  }

  function FormatInt(n: int): (s: string)
    ensures forall c :: c in s ==> IsDigit(c) || c == '-'
  {
    if n < 0 then "-" + Digits(-n) else Digits(n)
  }

  /** A sign is optional; no digits, another character or a value past 64 bits is an error. */
  function ParseInt64(s: string): (r: Option<int>)
    ensures r.Some? ==> IsInt64(r.value)
  {
    if s == "" then None
    else
      var digits := if s[0] == '-' || s[0] == '+' then s[1..] else s;
      if digits == "" || !AllDigits(digits) then None
      else
        var magnitude: int := NatValue(digits);
        var n := if s[0] == '-' then -magnitude else magnitude;
        if IsInt64(n) then Some(n) else None
  }

  lemma {:induction false} NatValueOfDigits(n: nat)
    ensures NatValue(Digits(n)) == n
  {
    var s := Digits(n);
    if n < 10 {
      assert s[..|s| - 1] == "";
    } else {
      assert s[..|s| - 1] == Digits(n / 10);
      NatValueOfDigits(n / 10);
    }
  }

  /** What was printed is what is read, for every 64-bit number. */
  lemma ParseOfFormat(n: int)
    requires IsInt64(n)
    ensures ParseInt64(FormatInt(n)) == Some(n)
  {
    NatValueOfDigits(if n < 0 then -n else n);
    if n < 0 {
      assert FormatInt(n)[1..] == Digits(-n);
    } else {
      assert FormatInt(n)[0] in Digits(n);
    }
  }

  // ---- which texts, and what they mean ----

  lemma DigitOfTable(n: int)
    requires 0 <= n < 10
    ensures Digit(n) == "0123456789"[n] && DigitValue(Digit(n)) == n
  {
  }

  /** The text is decimal digits, the first the most significant, and n is what they say. */
  predicate Says(s: string, n: int) { s != "" && AllDigits(s) && NatValue(s) == n }

  lemma {:induction false} FirstDigit(n: nat)
    ensures |Digits(n)| > 1 ==> Digits(n)[0] != '0'
    ensures n > 0 ==> Digits(n)[0] != '0'
  {
    if n < 10 {
    } else {
      FirstDigit(n / 10);
    }
  }

  /** A number prints as its digits with no zero before them, after a minus when it is negative. */
  lemma FormatIs(n: int)
    ensures var s := FormatInt(n);
            && (n >= 0 ==> Says(s, n) && (n > 0 ==> s[0] != '0') && (n == 0 ==> s == "0"))
            && (n < 0 ==> s != "" && s[0] == '-' && Says(s[1..], -n) && s[1] != '0')
  {
    var m := if n < 0 then -n else n;
    NatValueOfDigits(m);
    FirstDigit(m);
    if n < 0 {
      assert FormatInt(n)[1..] == Digits(m);
    }
  }

  /** A text reads as n exactly when it is the digits of n or of -n after the sign they need, and n fits 64 bits. */
  lemma ParsesExactly(s: string, n: int)
    ensures ParseInt64(s) == Some(n) <==>
            && IsInt64(n) && s != ""
            && (Says(s, n) || (s[0] == '+' && Says(s[1..], n)) || (s[0] == '-' && Says(s[1..], -n)))
  {
    assert s != "" ==> s[0] in s;
  }
}
