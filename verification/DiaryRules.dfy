/** The diary's pure rules: the paging cursor, the average and the week streak. */
module DiaryRules {
  import opened Numbers
  import opened Options
  import opened Sequences
  import opened Dates
  import opened Decimals
  import Base64

  const MAX_LIMIT := 50
  const MAX_STREAK_WEEKS := 520
  const MAX_CURSOR_LENGTH := 64
  const CURSOR_PREFIX := "v1:"

  datatype Problem = BadCursor | BadLimit

  // ---- the cursor ----

  function EncodeCursor(date: string): (s: string)
    requires Base64.IsByteString(date)
    ensures s != ""
  {
    Base64.Encode(Base64.BytesOf(CURSOR_PREFIX + date))
  }

  /** The date inside a cursor; an empty cursor is the first page and gives "". */
  function DecodeCursor(s: string): (r: Result<string, Problem>)
    ensures r.Ok? && s != "" ==>
              ParseDate(r.value).Some? && Base64.Decode(s).Some?
              && Base64.TextOf(Base64.Decode(s).value) == CURSOR_PREFIX + r.value
    ensures r.Err? ==> r.error == BadCursor
  {
    if s == "" then Ok("")
    else if |s| > MAX_CURSOR_LENGTH then Err(BadCursor)
    else
      match Base64.Decode(s)
      case None => Err(BadCursor)
      case Some(raw) =>
        var text := Base64.TextOf(raw);
        if !(CURSOR_PREFIX <= text) then Err(BadCursor)
        else
          var date := text[|CURSOR_PREFIX|..];
          if |date| != 10 || ParseDate(date).None? then Err(BadCursor) else Ok(date)
  }

  /** A cursor made from a text is read back exactly when the text is a real date. */
  lemma DecodeOfEncodeCursor(date: string)
    requires Base64.IsByteString(date)
    ensures DecodeCursor(EncodeCursor(date)) == if ParseDate(date).Some? then Ok(date) else Err(BadCursor)
  {
    var text := CURSOR_PREFIX + date;
    Base64.DecodeOfEncode(Base64.BytesOf(text));
    Base64.TextOfBytesOf(text);
    assert text[|CURSOR_PREFIX|..] == date;
  }

  /**
   A text is read as a date exactly when it is at most 64 characters that decode to v1: and that date;
   the empty text is read as none, and any other is refused.
   */
  lemma DecodesExactly(s: string, date: string)
    ensures DecodeCursor(s) == Ok(date) <==>
            (s == "" && date == "")
            || (0 < |s| <= 64 && ParseDate(date).Some? && Base64.Decode(s).Some?
                && Base64.TextOf(Base64.Decode(s).value) == "v1:" + date)
    ensures DecodeCursor(s).Err? ==> DecodeCursor(s) == Err(BadCursor)
  {
    if s != "" && Base64.Decode(s).Some? {
      var text := Base64.TextOf(Base64.Decode(s).value);
      if text == "v1:" + date {
        assert text[3..] == date;
      }
      if "v1:" <= text {
        assert text == "v1:" + text[3..];
      }
    }
  }

  lemma DayTextIsBytes(n: Day)
    ensures Base64.IsByteString(DayText(n))
  {
    hide DaysBack;
    var s := Format(DateOf(n));
    assert forall c :: c in s ==> IsDigit(c) || c == '-';
  }

  /** The cursor that stands at a day; "" stands before every row. */
  function CursorAt(before: Option<Day>): (s: string)
    ensures s == "" <==> before.None?
  {
    if before.None? then "" else
      DayTextIsBytes(before.value);
      EncodeCursor(DayText(before.value))
  }

  /** The day a request's cursor stands at. */
  function ReadCursor(s: string): Result<Option<Day>, Problem> {
    match DecodeCursor(s)
    case Err(e) => Err(e)
    case Ok(text) => Ok(if text == "" then None else TextDay(text))
  }

  lemma CursorRoundTrip(before: Option<Day>)
    ensures ReadCursor(CursorAt(before)) == Ok(before)
  {
    if before.Some? {
      DayTextRoundTrip(before.value);
      DayTextIsBytes(before.value);
      DecodeOfEncodeCursor(DayText(before.value));
      hide DayText, TextDay, ParseDate, DecodeCursor, EncodeCursor;
      assert CursorAt(before) == EncodeCursor(DayText(before.value));
    } else {
      assert DecodeCursor("") == Ok("");
    }
  }

  // ---- the average ----

  /** Go's integer division, which truncates toward zero. */
  function Quotient(a: int, b: int): int
    requires b > 0
  {
    if a >= 0 then a / b else -(-a / b)
  }

  function AverageTenths(sum: int, count: int): int {
    if count <= 0 then 0 else Quotient(10 * sum + count, 2 * count)
  }

  /** t is half the mean star in tenths, to the nearest tenth with halves up. */
  ghost predicate IsRoundedTenths(t: int, sum: int, count: int) {
    2 * count * t <= 10 * sum + count < 2 * count * (t + 1)
  }

  lemma Scale(m: nat, x: int, y: int)
    requires x <= y
    ensures m * x <= m * y
  {
  }

  lemma FloorIsUnique(n: nat, m: nat, t: int)
    requires m > 0
    ensures t == n / m <==> m * t <= n < m * (t + 1)
  {
    var q, r := n / m, n % m;
    assert n == m * q + r;
    assert m * (q + 1) == m * q + m;
    if t < q {
      Scale(m, t + 1, q);
    } else if t > q {
      Scale(m, q + 1, t);
    }
  }

  lemma AverageIsRounded(sum: nat, count: nat, t: int)
    requires count > 0
    ensures t == AverageTenths(sum, count) <==> IsRoundedTenths(t, sum, count)
  {
    FloorIsUnique(10 * sum + count, 2 * count, t);
  }

  /** Nothing rated averages to 0. */
  lemma AverageOfNone(sum: int, count: int)
    requires count <= 0
    ensures AverageTenths(sum, count) == 0
  {
  }

  lemma AverageInRange(sum: nat, count: nat)
    requires count > 0 && count <= sum <= 10 * count
    ensures 5 <= AverageTenths(sum, count) <= 50
  {
    var t, m := AverageTenths(sum, count), 2 * count;
    AverageIsRounded(sum, count, t);
    hide AverageTenths;
    if t < 5 {
      Scale(m, t + 1, 5);
    } else if t > 50 {
      Scale(m, 51, t);
    }
  }

  /** If n0 and n1 round down between a and b, so does their sum. */
  lemma FloorOfSum(n0: nat, m0: nat, n1: nat, m1: nat, a: int, b: int, t: int)
    requires m0 * a <= n0 < m0 * (b + 1) && m1 * a <= n1 < m1 * (b + 1)
    requires (m0 + m1) * t <= n0 + n1 < (m0 + m1) * (t + 1)
    ensures a <= t <= b
  {
    var m := m0 + m1;
    assert m * a == m0 * a + m1 * a;
    assert m * (b + 1) == m0 * (b + 1) + m1 * (b + 1);
    if t < a {
      Scale(m, t + 1, a);
    } else if t > b {
      Scale(m, b + 1, t);
    }
  }

  /** The average of two categories taken together lies between their two averages. */
  lemma AverageOfBoth(sum0: nat, count0: nat, sum1: nat, count1: nat)
    requires count0 > 0 && count1 > 0
    requires AverageTenths(sum0, count0) <= AverageTenths(sum1, count1)
    ensures AverageTenths(sum0, count0) <= AverageTenths(sum0 + sum1, count0 + count1) <= AverageTenths(sum1, count1)
  {
    var t0, t1 := AverageTenths(sum0, count0), AverageTenths(sum1, count1);
    var t := AverageTenths(sum0 + sum1, count0 + count1);
    AverageIsRounded(sum0, count0, t0);
    AverageIsRounded(sum1, count1, t1);
    AverageIsRounded(sum0 + sum1, count0 + count1, t);
    hide AverageTenths;
    var m0, m1 := 2 * count0, 2 * count1;
    Scale(m1, t0, t1);
    Scale(m0, t0 + 1, t1 + 1);
    assert 2 * (count0 + count1) == m0 + m1;
    FloorOfSum(10 * sum0 + count0, m0, 10 * sum1 + count1, m1, t0, t1, t);
  }

  // ---- the week streak ----

  ghost function UpTo(w: set<int>, d: int): set<int> { set x | x in w && x <= d }

  lemma UpToShrinks(w: set<int>, d: int)
    requires d in w
    ensures |UpTo(w, d - 7)| < |UpTo(w, d)|
  {
    assert d in UpTo(w, d) - UpTo(w, d - 7);
    assert UpTo(w, d) == UpTo(w, d - 7) + (UpTo(w, d) - UpTo(w, d - 7));
  }

  /** How many of the days d, d - 7, d - 14, ... are in w before the first that is not. */
  ghost function Streak(w: set<int>, d: int): nat
    decreases |UpTo(w, d)|
  {
    if d in w then
      UpToShrinks(w, d);
      1 + Streak(w, d - 7)
    else 0
  }

  /** The streak is the largest n whose n days are all there. */
  lemma {:induction false} StreakIsLargest(w: set<int>, d: int, n: nat)
    ensures n <= Streak(w, d) <==> forall i: nat | i < n :: d - 7 * i in w
    decreases n
  {
    if n == 0 {
    } else {
      if d in w {
        StreakIsLargest(w, d - 7, n - 1);
        if forall i: nat | i < n - 1 :: d - 7 - 7 * i in w {
          forall i: nat | i < n ensures d - 7 * i in w {
            if i > 0 {
              var j := i - 1;
              assert d - 7 - 7 * j in w;
            }
          }
        }
        if forall i: nat | i < n :: d - 7 * i in w {
          forall i: nat | i < n - 1 ensures d - 7 - 7 * i in w {
            var j := i + 1;
            assert d - 7 * j in w;
          }
        }
      } else {
        assert d - 7 * 0 !in w;
      }
    }
  }

  /** The current week counts when it is there; else the streak ends with the week before it. */
  ghost function CurrentStreak(w: set<int>, current: int): nat {
    if current in w then Streak(w, current) else Streak(w, current - 7)
  }

  /** The days start, start - 7, ... of n weeks are all in w. */
  ghost predicate WeeksBack(w: set<int>, start: int, n: nat) { forall i: nat | i < n :: start - 7 * i in w }

  /** n weeks in a row, and no more, end with this one. */
  ghost predicate EndsWith(n: nat, w: set<int>, last: int) { forall m: nat :: m <= n <==> WeeksBack(w, last, m) }

  /** n weeks in a row, and no more, end with the current one when it is there, else with the one before. */
  ghost predicate IsStreak(n: nat, w: set<int>, current: int) {
    if current in w then EndsWith(n, w, current) else EndsWith(n, w, current - 7)
  }

  /** The streak counts exactly the weeks in a row. */
  lemma CurrentStreakIs(w: set<int>, current: int)
    ensures IsStreak(CurrentStreak(w, current), w, current)
  {
    var start := if current in w then current else current - 7;
    forall m: nat ensures m <= CurrentStreak(w, current) <==> WeeksBack(w, start, m) {
      StreakIsLargest(w, start, m);
    }
  }

  ghost function DaysNamed(weekStarts: seq<string>): set<int> {
    set s | s in weekStarts && ParseDate(s).Some? :: DayNumber(ParseDate(s).value)
  }

  ghost function WeekStreakOf(currentWeekStart: string, weekStarts: seq<string>): nat {
    match ParseDate(currentWeekStart)
    case None => 0
    case Some(c) => CurrentStreak(DaysNamed(weekStarts), DayNumber(c))
  }

  lemma NamedDay(d: Civil, weekStarts: seq<string>)
    requires IsReal(d) && -9999 <= d.year <= 9999
    ensures Format(d) in weekStarts && ParseDate(Format(d)).Some? <==> DayNumber(d) in DaysNamed(weekStarts)
  {
    if d.year >= 0 {
      ParseOfFormatDate(d);
      if DayNumber(d) in DaysNamed(weekStarts) {
        var s :| s in weekStarts && ParseDate(s).Some? && DayNumber(ParseDate(s).value) == DayNumber(d);
        DayNumberOrders(ParseDate(s).value, d);
        FormatOfParse(s);
      }
    } else if DayNumber(d) in DaysNamed(weekStarts) {
      var s :| s in weekStarts && ParseDate(s).Some? && DayNumber(ParseDate(s).value) == DayNumber(d);
      DayNumberOrders(ParseDate(s).value, d);
    }
  }

  lemma WeekBackYear(d: Civil)
    requires IsReal(d) && 0 <= d.year <= 9999
    ensures -1 <= DaysBack(d, 7).year <= 9999
  {
    var r, first := DaysBack(d, 7), Civil(-1, 1, 1);
    DayNumberOrders(r, d);
    DayNumberOrders(r, first);
    DayNumberOrders(d, Civil(0, 1, 1));
    assert DayNumber(first) + 365 == DayNumber(Civil(0, 1, 1));
  }

  /** The weeks that can be read, by their printed date. */
  method ReadWeeks(weekStarts: seq<string>) returns (seen: map<string, bool>)
    ensures forall s :: s in seen <==> s in weekStarts && ParseDate(s).Some?
  {
    seen := map[];
    for i := 0 to |weekStarts|
      invariant forall s :: s in seen <==> s in weekStarts[..i] && ParseDate(s).Some?
    {
      var t := ParseDate(weekStarts[i]);
      if t.Some? {
        FormatOfParse(weekStarts[i]);
        seen := seen[Format(t.value) := true];
      }
    }
    assert weekStarts[..|weekStarts|] == weekStarts;
  }

  method CountBack(from: Civil, seen: map<string, bool>, ghost weekStarts: seq<string>) returns (n: nat)
    requires IsReal(from) && -1 <= from.year <= 9999
    requires forall s :: s in seen <==> s in weekStarts && ParseDate(s).Some?
    ensures n == Streak(DaysNamed(weekStarts), DayNumber(from))
  {
    var cur := from;
    ghost var w := DaysNamed(weekStarts);
    n := 0;
    NamedDay(cur, weekStarts);
    while Format(cur) in seen
      invariant IsReal(cur) && -1 <= cur.year <= 9999
      invariant n + Streak(w, DayNumber(cur)) == Streak(w, DayNumber(from))
      invariant Format(cur) in seen <==> DayNumber(cur) in w
      decreases Streak(w, DayNumber(cur))
    {
      assert cur.year >= 0;
      n := n + 1;
      WeekBackYear(cur);
      cur := DaysBack(cur, 7);
      NamedDay(cur, weekStarts);
    }
  }

  method WeekStreak(currentWeekStart: string, weekStarts: seq<string>) returns (n: nat)
    ensures n == WeekStreakOf(currentWeekStart, weekStarts)
    ensures match ParseDate(currentWeekStart)
            case None => n == 0
            case Some(c) => IsStreak(n, DaysNamed(weekStarts), DayNumber(c))
  {
    hide ParseDate, Streak, DaysNamed, DayNumber, IsStreak;
    var seen := ReadWeeks(weekStarts);
    var parsed := ParseDate(currentWeekStart);
    if parsed.None? {
      return 0;
    }
    var cur: Civil := parsed.value;
    ghost var w := DaysNamed(weekStarts);
    NamedDay(cur, weekStarts);
    if Format(cur) !in seen {
      WeekBackYear(cur);
      cur := DaysBack(cur, 7);
    }
    n := CountBack(cur, seen, weekStarts);
    CurrentStreakIs(w, DayNumber(parsed.value));
  }

  /** Order, duplicates and unreadable strings do not matter. */
  lemma StreakOfSameWeeks(currentWeekStart: string, a: seq<string>, b: seq<string>)
    requires forall s :: ParseDate(s).Some? ==> (s in a <==> s in b)
    ensures WeekStreakOf(currentWeekStart, a) == WeekStreakOf(currentWeekStart, b)
  {
    assert DaysNamed(a) == DaysNamed(b);
  }

  lemma {:induction false} StreakIgnoresLater(w: set<int>, later: int, d: int)
    requires d < later
    ensures Streak(w + {later}, d) == Streak(w, d)
    decreases |UpTo(w, d)|
  {
    if d !in w {
    } else {
      UpToShrinks(w, d);
      StreakIgnoresLater(w, later, d - 7);
    }
  }

  /** Meeting the goal this week adds exactly one to the streak. */
  lemma CurrentWeekAddsOne(w: set<int>, current: int)
    requires current !in w
    ensures CurrentStreak(w + {current}, current) == CurrentStreak(w, current) + 1
  {
    StreakIgnoresLater(w, current, current - 7);
  }

  // ---- reading only the newest weeks ----

  ghost predicate NewestFirst(days: seq<int>) {
    forall i, j :: 0 <= i < j < |days| ==> days[i] > days[j]
  }

  /** Whole weeks back from the current one, none after it. */
  ghost predicate Aligned(days: seq<int>, current: int) {
    forall d :: d in days ==> d <= current && (current - d) % 7 == 0
  }

  ghost function SetOf(days: seq<int>): set<int> { set d | d in days }

  lemma WeekApart(current: int, newer: int, older: int)
    requires older < newer && (current - newer) % 7 == 0 && (current - older) % 7 == 0
    ensures older <= newer - 7
  {
  }

  /** The weeks of the streak are exactly the first ones of the list. */
  lemma {:induction false} StreakIsPrefix(days: seq<int>, current: int, start: int, i: nat)
    requires NewestFirst(days) && Aligned(days, current)
    requires start == if current in SetOf(days) then current else current - 7
    requires i < Streak(SetOf(days), start)
    ensures i < |days| && days[i] == start - 7 * i
  {
    var w := SetOf(days);
    StreakIsLargest(w, start, Streak(w, start));
    assert start - 7 * i in w;
    var j :| 0 <= j < |days| && days[j] == start - 7 * i;
    if i == 0 {
      assert days[0] in days;
    } else {
      StreakIsPrefix(days, current, start, i - 1);
      assert days[i - 1] == start - 7 * (i - 1);
      assert j >= i;
      assert days[i] in days;
      WeekApart(current, days[i - 1], days[i]);
    }
  }

  lemma PastTheCut(days: seq<int>, current: int, start: int, cap: nat)
    requires NewestFirst(days) && Aligned(days, current)
    requires start == if current in SetOf(days) then current else current - 7
    ensures start - 7 * Min(Streak(SetOf(days), start), cap) !in SetOf(Cut(days, cap))
  {
    hide Streak;
    var kept, w := Cut(days, cap), SetOf(days);
    var full := Streak(w, start);
    var cut := Min(full, cap);
    forall j | 0 <= j < |kept| ensures kept[j] != start - 7 * cut {
      assert kept[j] == days[j] && days[j] in w;
      if full <= cap {
        StreakIsLargest(w, start, full);
        StreakIsLargest(w, start, full + 1);
      } else {
        StreakIsPrefix(days, current, start, cut);
      }
    }
  }

  /** From one start the newest cap weeks give that streak, cut at cap. */
  lemma StreakFromNewest(days: seq<int>, current: int, start: int, cap: nat)
    requires NewestFirst(days) && Aligned(days, current)
    requires start == if current in SetOf(days) then current else current - 7
    ensures Streak(SetOf(Cut(days, cap)), start) == Min(Streak(SetOf(days), start), cap)
  {
    hide Streak;
    var kept, w, k := Cut(days, cap), SetOf(days), SetOf(Cut(days, cap));
    var full := Streak(w, start);
    var cut := Min(full, cap);
    forall i: nat | i < cut ensures start - 7 * i in k {
      StreakIsPrefix(days, current, start, i);
      assert kept[i] == days[i];
    }
    assert start - 7 * cut !in k by {
      PastTheCut(days, current, start, cap);
    }
    StreakIsLargest(k, start, cut);
    StreakIsLargest(k, start, cut + 1);
  }

  /** The newest cap weeks give the true streak, cut at cap. */
  lemma StreakOfNewest(days: seq<int>, current: int, cap: nat)
    requires NewestFirst(days) && Aligned(days, current)
    ensures CurrentStreak(SetOf(Cut(days, cap)), current) == Min(CurrentStreak(SetOf(days), current), cap)
  {
    var kept := Cut(days, cap);
    var start := if current in SetOf(days) then current else current - 7;
    StreakFromNewest(days, current, start, cap);
    if current in SetOf(days) && cap > 0 {
      StreakIsPrefix(days, current, start, 0);
      assert kept[0] == current;
    }
  }

  /** n is the streak, or cap when that is smaller. */
  ghost predicate IsCutStreak(n: nat, w: set<int>, current: int, cap: nat) {
    exists full: nat :: IsStreak(full, w, current) && n == Min(full, cap)
  }

  lemma CutStreakIs(w: set<int>, current: int, cap: nat)
    ensures IsCutStreak(Min(CurrentStreak(w, current), cap), w, current, cap)
  {
    hide CurrentStreak, WeeksBack;
    CurrentStreakIs(w, current);
  }

  function PrintAll(dates: seq<Date>): (r: seq<string>)
    ensures |r| == |dates| && forall i :: 0 <= i < |dates| ==> r[i] == Format(dates[i])
  {
    seq(|dates|, i requires 0 <= i < |dates| => Format(dates[i]))
  }

  ghost function DayNumbers(dates: seq<Date>): (r: seq<int>)
    ensures |r| == |dates|
  {
    seq(|dates|, i requires 0 <= i < |dates| => DayNumber(dates[i]))
  }

  lemma NamedAsPrinted(dates: seq<Date>, texts: seq<string>)
    requires |texts| == |dates| && forall i :: 0 <= i < |dates| ==> texts[i] == Format(dates[i])
    ensures DaysNamed(texts) == SetOf(DayNumbers(dates))
  {
    hide Format, ParseDate, DayNumber;
    forall i | 0 <= i < |dates|
      ensures ParseDate(texts[i]) == Some(dates[i])
    {
      ParseOfFormatDate(dates[i]);
    }
    forall d | d in SetOf(DayNumbers(dates)) ensures d in DaysNamed(texts) {
      var i :| 0 <= i < |dates| && DayNumbers(dates)[i] == d;
      assert texts[i] in texts;
    }
    forall d | d in DaysNamed(texts) ensures d in SetOf(DayNumbers(dates)) {
      var s :| s in texts && ParseDate(s).Some? && DayNumber(ParseDate(s).value) == d;
      var i :| 0 <= i < |texts| && texts[i] == s;
      assert DayNumbers(dates)[i] == d;
    }
  }

  /** The streak as the summary counts it: goalWeeks are the stored weeks, newest first; 520 of them are read. */
  method SummaryStreak(current: Date, goalWeeks: seq<Date>) returns (n: nat)
    ensures NewestFirst(DayNumbers(goalWeeks)) && Aligned(DayNumbers(goalWeeks), DayNumber(current)) ==>
              IsCutStreak(n, SetOf(DayNumbers(goalWeeks)), DayNumber(current), 520)
  {
    hide Format, DayNumber, CurrentStreak, DaysNamed, ParseDate, IsStreak, IsCutStreak;
    var newest := if |goalWeeks| > MAX_STREAK_WEEKS then goalWeeks[..MAX_STREAK_WEEKS] else goalWeeks;
    var weeks := PrintAll(newest);
    n := WeekStreak(Format(current), weeks);
    NamedAsPrinted(newest, weeks);
    ParseOfFormatDate(current);
    ghost var days := DayNumbers(goalWeeks);
    assert DayNumbers(newest) == Cut(days, MAX_STREAK_WEEKS);
    if NewestFirst(days) && Aligned(days, DayNumber(current)) {
      StreakOfNewest(days, DayNumber(current), MAX_STREAK_WEEKS);
      CutStreakIs(SetOf(days), DayNumber(current), MAX_STREAK_WEEKS);
    }
  }
}
