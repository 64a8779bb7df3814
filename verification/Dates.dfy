/**
 Calendar dates of the proleptic Gregorian calendar, their YYYY-MM-DD text, and the day number
 that orders them. Both Go's time.Parse("2006-01-02", ...) and Format are modelled character by
 character.
 */
module Dates {
  import opened Options
  import opened Decimals

  datatype Civil = Civil(year: int, month: int, day: int)

  predicate IsLeap(y: int) { y % 4 == 0 && (y % 100 != 0 || y % 400 == 0) }

  function DaysIn(y: int, m: int): (n: int)
    ensures 28 <= n <= 31
  {
    if m == 2 then (if IsLeap(y) then 29 else 28)
    else if m == 4 || m == 6 || m == 9 || m == 11 then 30
    else 31
  }

  predicate IsReal(d: Civil) {
    1 <= d.month <= 12 && 1 <= d.day <= DaysIn(d.year, d.month)
  }

  predicate HasText(d: Civil) { IsReal(d) && 0 <= d.year <= 9999 }

  /** A date that YYYY-MM-DD can name. */
  type Date = d: Civil | HasText(d) witness Civil(2026, 10, 8)

  // ---- the order ----

  function DaysBeforeYear(y: int): int {
    var p := y - 1;
    365 * p + p / 4 - p / 100 + p / 400
  }

  function DaysBeforeMonth(y: int, m: int): int
    requires 1 <= m <= 12
  {
    if m == 1 then 0
    else if m == 2 then 31
    else [59, 90, 120, 151, 181, 212, 243, 273, 304, 334][m - 3] + (if IsLeap(y) then 1 else 0)
  }

  function DayNumber(d: Civil): int
    requires IsReal(d)
  {
    DaysBeforeYear(d.year) + DaysBeforeMonth(d.year, d.month) + d.day
  }

  lemma MonthsFit(y: int, m: int, n: int)
    requires 1 <= m <= n <= 12
    ensures m < n ==> DaysBeforeMonth(y, m) + DaysIn(y, m) <= DaysBeforeMonth(y, n)
    ensures 0 <= DaysBeforeMonth(y, m)
  {
  }

  lemma YearLength(y: int)
    ensures DaysBeforeYear(y + 1) == DaysBeforeYear(y) + 365 + (if IsLeap(y) then 1 else 0)
    ensures DaysBeforeMonth(y, 12) + 31 == 365 + (if IsLeap(y) then 1 else 0)
  {
    assert y / 4 - (y - 1) / 4 == if y % 4 == 0 then 1 else 0;
    assert y / 100 - (y - 1) / 100 == if y % 100 == 0 then 1 else 0;
    assert y / 400 - (y - 1) / 400 == if y % 400 == 0 then 1 else 0;
  }

  lemma {:induction false} YearsFit(y: int, z: int)
    requires y < z
    ensures DaysBeforeYear(y) + 365 + (if IsLeap(y) then 1 else 0) <= DaysBeforeYear(z)
    decreases z - y
  {
    YearLength(y);
    if y + 1 >= z {
    } else {
      YearsFit(y + 1, z);
    }
  }

  predicate EarlierParts(a: Civil, b: Civil) {
    a.year < b.year
    || (a.year == b.year && a.month < b.month)
    || (a.year == b.year && a.month == b.month && a.day < b.day)
  }

  lemma PartsOrderDays(a: Civil, b: Civil)
    requires IsReal(a) && IsReal(b) && EarlierParts(a, b)
    ensures DayNumber(a) < DayNumber(b)
  {
    MonthsFit(b.year, b.month, b.month);
    if a.year < b.year {
      YearLength(a.year);
      YearsFit(a.year, b.year);
      MonthsFit(a.year, a.month, 12);
    } else if a.month < b.month {
      MonthsFit(a.year, a.month, b.month);
    }
  }

  /** The day number orders real dates as year, month and day do; no two share a number. */
  lemma DayNumberOrders(a: Civil, b: Civil)
    requires IsReal(a) && IsReal(b)
    ensures DayNumber(a) < DayNumber(b) <==> EarlierParts(a, b)
    ensures DayNumber(a) == DayNumber(b) <==> a == b
  {
    if EarlierParts(a, b) {
      PartsOrderDays(a, b);
    } else if EarlierParts(b, a) {
      PartsOrderDays(b, a);
    } else {
      assert a == b;
    }
  }

  // ---- stepping back ----

  function DayBefore(d: Civil): (r: Civil)
    requires IsReal(d)
    ensures IsReal(r)
    ensures d.year - 1 <= r.year <= d.year
  {
    if d.day > 1 then d.(day := d.day - 1)
    else if d.month > 1 then Civil(d.year, d.month - 1, DaysIn(d.year, d.month - 1))
    else Civil(d.year - 1, 12, 31)
  }

  lemma DayBeforeNumber(d: Civil)
    requires IsReal(d)
    ensures DayNumber(DayBefore(d)) == DayNumber(d) - 1
  {
    YearLength(d.year - 1);
  }

  /** AddDate(0, 0, -n): n days back, through the ends of months and years. */
  function DaysBack(d: Civil, n: nat): (r: Civil)
    requires IsReal(d)
    ensures IsReal(r)
    ensures DayNumber(r) == DayNumber(d) - n
    decreases n
  {
    if n == 0 then d
    else
      DayBeforeNumber(d);
      DaysBack(DayBefore(d), n - 1)
  }

  // ---- the text ----

  function Two(n: int): (s: string)
    requires 0 <= n < 100
    ensures |s| == 2 && AllDigits(s)
  {
    [Digit(n / 10), Digit(n % 10)]
  }

  function Four(n: int): (s: string)
    requires 0 <= n < 10000
    ensures |s| == 4 && AllDigits(s)
  {
    Two(n / 100) + Two(n % 100)
  }

  /** Format("2006-01-02"); a year before 0 is printed with a sign. */
  function Format(d: Civil): (s: string)
    requires IsReal(d) && -9999 <= d.year <= 9999
    ensures |s| == 10 <==> d.year >= 0
  {
    (if d.year < 0 then "-" + Four(-d.year) else Four(d.year)) + "-" + Two(d.month) + "-" + Two(d.day)
  }

  function TwoValue(s: string): int
    requires |s| == 2 && AllDigits(s)
  {
    DigitValue(s[0]) * 10 + DigitValue(s[1])
  }

  predicate LooksLikeDate(s: string) {
    && |s| == 10 && s[4] == '-' && s[7] == '-'
    && AllDigits(s[..4]) && AllDigits(s[5..7]) && AllDigits(s[8..])
  }

  /** time.Parse("2006-01-02", s): exactly four, two and two digits, and a date that exists. */
  function ParseDate(s: string): Option<Date> {
    if !LooksLikeDate(s) then None
    else
      var d := Civil(TwoValue(s[..2]) * 100 + TwoValue(s[2..4]), TwoValue(s[5..7]), TwoValue(s[8..]));
      if IsReal(d) then Some(d) else None
  }

  lemma TwoRoundTrip(n: int)
    requires 0 <= n < 100
    ensures TwoValue(Two(n)) == n
  {
  }

  lemma TwoOfValue(s: string)
    requires |s| == 2 && AllDigits(s)
    ensures 0 <= TwoValue(s) < 100 && Two(TwoValue(s)) == s
  {
  }

  lemma ParseOfFormatDate(d: Date)
    ensures ParseDate(Format(d)) == Some(d)
  {
    var s := Format(d);
    assert s[..2] == Two(d.year / 100) && s[2..4] == Two(d.year % 100);
    assert s[..4] == Four(d.year) && s[5..7] == Two(d.month) && s[8..] == Two(d.day);
    TwoRoundTrip(d.year / 100);
    TwoRoundTrip(d.year % 100);
    TwoRoundTrip(d.month);
    TwoRoundTrip(d.day);
  }

  lemma FourIs(n: int)
    requires 0 <= n < 10000
    ensures Says(Four(n), n)
  {
    var s := Four(n);
    assert s[..3][..2] == s[..2] && s[..2][..1] == s[..1] && s[..1][..0] == "";
    assert NatValue(s[..1]) == n / 1000;
    assert NatValue(s[..2]) == n / 100;
    assert NatValue(s[..3]) == n / 10;
  }

  lemma TwoIs(n: int)
    requires 0 <= n < 100
    ensures Says(Two(n), n)
  {
    var s := Two(n);
    assert s[..1][..0] == "";
    assert NatValue(s[..1]) == n / 10;
  }

  /** A date prints as four digits of its year, two of its month and two of its day, between dashes. */
  lemma FormatIsIso(d: Date)
    ensures var s := Format(d);
            && |s| == 10 && s[4] == '-' && s[7] == '-'
            && Says(s[..4], d.year) && Says(s[5..7], d.month) && Says(s[8..], d.day)
  {
    hide Four, Two;
    var s := Format(d);
    assert s[..4] == Four(d.year) && s[5..7] == Two(d.month) && s[8..] == Two(d.day);
    FourIs(d.year);
    TwoIs(d.month);
    TwoIs(d.day);
  }

  lemma FormatOfParse(s: string)
    requires ParseDate(s).Some?
    ensures Format(ParseDate(s).value) == s
  {
    hide Two, TwoValue;
    TwoOfValue(s[..2]);
    TwoOfValue(s[2..4]);
    TwoOfValue(s[5..7]);
    TwoOfValue(s[8..]);
    var d, a, b := ParseDate(s).value, TwoValue(s[..2]), TwoValue(s[2..4]);
    assert d.year / 100 == a && d.year % 100 == b;
    assert Four(d.year) == s[..2] + s[2..4];
    assert s == s[..2] + s[2..4] + "-" + s[5..7] + "-" + s[8..];
  }

  /** A text reads as a date exactly when it is that date's. */
  lemma ParsesExactly(s: string, d: Date)
    ensures ParseDate(s) == Some(d) <==> s == Format(d)
  {
    ParseOfFormatDate(d);
    if ParseDate(s) == Some(d) {
      FormatOfParse(s);
    }
  }

  // ---- days by number ----

  const FIRST_DAY := -365   // 0000-01-01
  const LAST_DAY := 3652059 // 9999-12-31

  type Day = n: int | FIRST_DAY <= n <= LAST_DAY

  function DayOf(d: Date): (n: Day) {
    DayNumberOrders(d, Civil(0, 1, 1));
    DayNumberOrders(d, Civil(9999, 12, 31));
    DayNumber(d)
  }

  function DateOf(n: Day): (d: Date)
    ensures DayOf(d) == n
  {
    var d := DaysBack(Civil(9999, 12, 31), LAST_DAY - n);
    DayNumberOrders(d, Civil(-1, 12, 31));
    DayNumberOrders(d, Civil(9999, 12, 31));
    d
  }

  function DayText(n: Day): (s: string)
    ensures |s| == 10
  {
    Format(DateOf(n))
  }

  function TextDay(s: string): Option<Day> {
    match ParseDate(s)
    case None => None
    case Some(d) => Some(DayOf(d))
  }

  /** Days and their texts name each other. */
  lemma DayTextRoundTrip(n: Day)
    ensures ParseDate(DayText(n)).Some? && TextDay(DayText(n)) == Some(n)
  {
    ParseOfFormatDate(DateOf(n));
  }

  // ---- the order of the texts ----

  /** Go's string comparison a > b. */
  predicate TextAfter(a: string, b: string) {
    a != "" && (b == "" || a[0] > b[0] || (a[0] == b[0] && TextAfter(a[1..], b[1..])))
  }

  lemma {:induction false} TextAfterConcat(a: string, b: string, c: string, d: string)
    requires |a| == |c|
    ensures TextAfter(a + b, c + d) <==> TextAfter(a, c) || (a == c && TextAfter(b, d))
  {
    if a == "" {
      assert a + b == b && c + d == d;
    } else {
      assert (a + b)[1..] == a[1..] + b && (c + d)[1..] == c[1..] + d;
      TextAfterConcat(a[1..], b, c[1..], d);
      assert a == [a[0]] + a[1..] && c == [c[0]] + c[1..];
    }
  }

  lemma TwoOrders(m: int, n: int)
    requires 0 <= m < 100 && 0 <= n < 100
    ensures TextAfter(Two(m), Two(n)) <==> m > n
    ensures Two(m) == Two(n) <==> m == n
  {
    TwoRoundTrip(m);
    TwoRoundTrip(n);
    assert Two(m)[1..] == [Two(m)[1]] && Two(n)[1..] == [Two(n)[1]];
    assert TextAfter([Two(m)[1]], [Two(n)[1]]) <==> m % 10 > n % 10;
  }

  lemma FourOrders(m: int, n: int)
    requires 0 <= m < 10000 && 0 <= n < 10000
    ensures TextAfter(Four(m), Four(n)) <==> m > n
    ensures Four(m) == Four(n) <==> m == n
  {
    TwoOrders(m / 100, n / 100);
    TwoOrders(m % 100, n % 100);
    hide TextAfter, Two;
    TextAfterConcat(Two(m / 100), Two(m % 100), Two(n / 100), Two(n % 100));
    assert Four(m)[..2] == Two(m / 100) && Four(m)[2..] == Two(m % 100);
    assert Four(n)[..2] == Two(n / 100) && Four(n)[2..] == Two(n % 100);
  }

  lemma {:induction false} NotAfterItself(a: string)
    ensures !TextAfter(a, a)
  {
    if a == "" {
    } else {
      NotAfterItself(a[1..]);
    }
  }

  lemma SameLead(a: string, b: string, d: string)
    ensures TextAfter(a + b, a + d) <==> TextAfter(b, d)
  {
    NotAfterItself(a);
    TextAfterConcat(a, b, a, d);
  }

  lemma FormatOrders(a: Date, b: Date)
    ensures TextAfter(Format(a), Format(b)) <==> EarlierParts(b, a)
  {
    FourOrders(a.year, b.year);
    TwoOrders(a.month, b.month);
    TwoOrders(a.day, b.day);
    hide TextAfter, Two, Four;
    var restA, restB := "-" + Two(a.month) + "-" + Two(a.day), "-" + Two(b.month) + "-" + Two(b.day);
    assert Format(a) == Four(a.year) + restA && Format(b) == Four(b.year) + restB;
    TextAfterConcat(Four(a.year), restA, Four(b.year), restB);
    var dayA, dayB := "-" + Two(a.day), "-" + Two(b.day);
    assert restA == "-" + (Two(a.month) + dayA) && restB == "-" + (Two(b.month) + dayB);
    SameLead("-", Two(a.month) + dayA, Two(b.month) + dayB);
    TextAfterConcat(Two(a.month), dayA, Two(b.month), dayB);
    SameLead("-", Two(a.day), Two(b.day));
  }

  /** YYYY-MM-DD texts sort as their days do. */
  lemma DayTextOrders(m: Day, n: Day)
    ensures TextAfter(DayText(m), DayText(n)) <==> m > n
  {
    FormatOrders(DateOf(m), DateOf(n));
    DayNumberOrders(DateOf(n), DateOf(m));
  }
}
