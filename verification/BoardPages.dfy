/**
 The Board's server: pages of the viewer's posted dates, newest first, each date with the cards the
 viewer may see on it. Dates are day numbers.
 */
module BoardPages {
  import opened Options
  import opened Sequences
  import opened BoardMerge

  /** What a viewer's Board is read from: posted dates and visible cards, both newest first. */
  datatype View = View(follows: bool, dayInPlay: int, posted: seq<int>, cards: seq<Card>)

  datatype Page = Page(days: seq<BoardDay>, nextBefore: Option<int>)

  function LabelOf(day: int, dayInPlay: int): Label {
    if dayInPlay - day == 0 then Today else if dayInPlay - day == 1 then Yesterday else Earlier
  }

  function Asked(upTo: int, before: Option<int>): int -> bool {
    (d: int) => d <= upTo && (before.Some? ==> d < before.value)
  }

  /** The viewer's posted dates up to the day in play, strictly before `before` when set, at most limit. */
  function PostedDates(v: View, before: Option<int>, limit: nat): seq<int> {
    Cut(Filter(v.posted, Asked(v.dayInPlay, before)), limit)
  }

  function OnAny(dates: seq<int>): Card -> bool { (c: Card) => c.day in dates }
  function OnDate(day: int): Card -> bool { (c: Card) => c.day == day }

  function DayWith(day: int, cards: seq<Card>, dayInPlay: int): seq<BoardDay> {
    var list := Filter(cards, OnDate(day));
    if list == [] then [] else [BoardDay(day, LabelOf(day, dayInPlay), list)]
  }

  /** Every date with its cards, in order; a date with none is left out. */
  function DaysOf(dates: seq<int>, cards: seq<Card>, dayInPlay: int): seq<BoardDay> {
    if dates == [] then []
    else DaysOf(dates[..|dates| - 1], cards, dayInPlay) + DayWith(dates[|dates| - 1], cards, dayInPlay)
  }

  function PageOf(v: View, before: Option<int>, limit: nat): Page
    requires limit > 0
  {
    if !v.follows then Page([], None)
    else
      var dates := PostedDates(v, before, limit + 1);
      var kept := Cut(dates, limit);
      Page(DaysOf(kept, v.cards, v.dayInPlay), if |dates| > limit then Some(kept[limit - 1]) else None)
  }

  // ---- reading it ----

  function CardsIn(byDate: map<int, seq<Card>>, day: int): seq<Card> {
    if day in byDate then byDate[day] else []
  }

  method GroupByDate(cards: seq<Card>) returns (byDate: map<int, seq<Card>>)
    ensures forall day :: CardsIn(byDate, day) == Filter(cards, OnDate(day))
  {
    hide Filter;
    byDate := map[];
    forall day ensures CardsIn(byDate, day) == Filter(cards[..0], OnDate(day)) {
      FilterAll(cards[..0], OnDate(day));
    }
    for i := 0 to |cards|
      invariant forall day :: CardsIn(byDate, day) == Filter(cards[..i], OnDate(day))
    {
      var c := cards[i];
      ghost var before := byDate;
      assert cards[..i + 1] == cards[..i] + [c];
      byDate := byDate[c.day := CardsIn(byDate, c.day) + [c]];
      forall day ensures CardsIn(byDate, day) == Filter(cards[..i + 1], OnDate(day)) {
        FilterSnoc(cards[..i], c, OnDate(day));
        assert CardsIn(before, day) == Filter(cards[..i], OnDate(day));
      }
    }
    assert cards[..|cards|] == cards;
  }

  /** Narrowing a wider selection selects the same. */
  lemma FilterWithin(cards: seq<Card>, narrow: Card -> bool, wide: Card -> bool)
    requires forall c :: narrow(c) ==> wide(c)
    ensures Filter(Filter(cards, wide), narrow) == Filter(cards, narrow)
  {
    FilterCommutes(cards, wide, narrow);
    FilterAll(Filter(cards, narrow), wide);
  }

  lemma CardsOfListedDate(cards: seq<Card>, dates: seq<int>, i: nat)
    requires i < |dates|
    ensures Filter(Filter(cards, OnAny(dates)), OnDate(dates[i])) == Filter(cards, OnDate(dates[i]))
  {
    FilterWithin(cards, OnDate(dates[i]), OnAny(dates));
  }

  method DaysRead(dates: seq<int>, cards: seq<Card>, dayInPlay: int) returns (days: seq<BoardDay>)
    ensures days == DaysOf(dates, cards, dayInPlay)
  {
    hide Filter, OnDate, OnAny;
    var rows := Filter(cards, OnAny(dates));
    var byDate := GroupByDate(rows);
    days := [];
    for i := 0 to |dates|
      invariant days == DaysOf(dates[..i], cards, dayInPlay)
    {
      assert dates[..i + 1][..i] == dates[..i];
      var list := CardsIn(byDate, dates[i]);
      CardsOfListedDate(cards, dates, i);
      if |list| == 0 {
        continue;
      }
      days := days + [BoardDay(dates[i], LabelOf(dates[i], dayInPlay), list)];
    }
    assert dates[..|dates|] == dates;
  }

  method ReadBoard(v: View, before: Option<int>, limit: nat) returns (page: Page)
    requires limit > 0
    ensures page == PageOf(v, before, limit)
  {
    hide PostedDates, DayWith;
    if !v.follows {
      return Page([], None);
    }
    var dates := PostedDates(v, before, limit + 1);
    var nextBefore: Option<int> := None;
    if |dates| > limit {
      dates := dates[..limit];
      nextBefore := Some(dates[|dates| - 1]);
    }
    if |dates| == 0 {
      return Page([], nextBefore);
    }
    var days := DaysRead(dates, v.cards, v.dayInPlay);
    return Page(days, nextBefore);
  }

  // ---- where a page starts and ends ----

  ghost predicate Descending(dates: seq<int>) {
    forall i, j :: 0 <= i < j < |dates| ==> dates[i] > dates[j]
  }

  /** Every date the Board can list. */
  function AllDates(v: View): seq<int> { Filter(v.posted, Asked(v.dayInPlay, None)) }

  /** The cursor that stands after the first n dates. */
  function After(v: View, n: nat): Option<int>
    requires n <= |AllDates(v)|
  {
    if n == 0 then None else Some(AllDates(v)[n - 1])
  }

  lemma {:induction false} FilterKeepsDescending(dates: seq<int>, p: int -> bool)
    requires Descending(dates)
    ensures Descending(Filter(dates, p))
  {
    if dates == [] {
    } else {
      var rest := Filter(dates[1..], p);
      FilterKeepsDescending(dates[1..], p);
      forall i | 0 <= i < |rest| ensures rest[i] < dates[0] {
        assert rest[i] in dates[1..];
      }
    }
  }

  function Below(edge: int): int -> bool { (d: int) => d < edge }

  lemma NoneBelow(dates: seq<int>, n: nat)
    requires Descending(dates) && 0 < n <= |dates|
    ensures Filter(dates[..n], Below(dates[n - 1])) == []
  {
    FilterNone(dates[..n], Below(dates[n - 1]));
  }

  lemma AllBelow(dates: seq<int>, n: nat)
    requires Descending(dates) && 0 < n <= |dates|
    ensures Filter(dates[n..], Below(dates[n - 1])) == dates[n..]
  {
    FilterAll(dates[n..], Below(dates[n - 1]));
  }

  lemma BelowOf(dates: seq<int>, n: nat)
    requires Descending(dates) && 0 < n <= |dates|
    ensures Filter(dates, Below(dates[n - 1])) == dates[n..]
  {
    hide Filter, Below, Descending;
    NoneBelow(dates, n);
    AllBelow(dates, n);
    assert dates == dates[..n] + dates[n..];
    FilterConcat(dates[..n], dates[n..], Below(dates[n - 1]));
  }

  lemma DatesAfter(v: View, n: nat)
    requires Descending(v.posted) && n <= |AllDates(v)|
    ensures Filter(v.posted, Asked(v.dayInPlay, After(v, n))) == AllDates(v)[n..]
  {
    hide Filter;
    if n > 0 {
      var all := AllDates(v);
      var below := Below(all[n - 1]);
      var p := Asked(v.dayInPlay, After(v, n));
      FilterKeepsDescending(v.posted, Asked(v.dayInPlay, None));
      BelowOf(all, n);
      FilterCommutes(v.posted, Asked(v.dayInPlay, None), below);
      FilterCommutes(v.posted, Asked(v.dayInPlay, None), p);
      FilterAll(Filter(v.posted, p), Asked(v.dayInPlay, None));
      FilterAgree(all, p, below);
    }
  }

  function End(v: View, n: nat, limit: nat): (m: nat)
    requires n <= |AllDates(v)|
    ensures m <= |AllDates(v)|
  {
    if n + limit < |AllDates(v)| then n + limit else |AllDates(v)|
  }

  /** A page asked after the first n dates lists the next ones, and its cursor stands where it ends. */
  lemma PageAfter(v: View, n: nat, limit: nat)
    requires Descending(v.posted) && v.follows && n <= |AllDates(v)| && limit > 0
    ensures var m := End(v, n, limit);
            n <= m && PageOf(v, After(v, n), limit) ==
                      Page(DaysOf(AllDates(v)[n..m], v.cards, v.dayInPlay),
                           if m < |AllDates(v)| then After(v, m) else None)
  {
    hide Filter, DaysOf;
    DatesAfter(v, n);
    var all, m := AllDates(v), End(v, n, limit);
    var left := all[n..];
    assert PostedDates(v, After(v, n), limit + 1) == Cut(left, limit + 1);
    assert Cut(Cut(left, limit + 1), limit) == all[n..m];
  }

  // ---- joining pages ----

  lemma {:induction false} DaysOfConcat(a: seq<int>, b: seq<int>, cards: seq<Card>, dayInPlay: int)
    ensures DaysOf(a + b, cards, dayInPlay) == DaysOf(a, cards, dayInPlay) + DaysOf(b, cards, dayInPlay)
  {
    hide DayWith;
    if b == [] {
      assert a + b == a;
    } else {
      assert (a + b)[..|a + b| - 1] == a + b[..|b| - 1];
      DaysOfConcat(a, b[..|b| - 1], cards, dayInPlay);
    }
  }

  lemma {:induction false} InDaysOf(dates: seq<int>, cards: seq<Card>, dayInPlay: int)
    ensures forall d :: d in DaysOf(dates, cards, dayInPlay) ==>
                          d.day in dates && d.cards == Filter(cards, OnDate(d.day)) && d.cards != []
  {
    hide Filter;
    if dates == [] {
    } else {
      InDaysOf(dates[..|dates| - 1], cards, dayInPlay);
    }
  }

  lemma {:induction false} DatesFall(dates: seq<int>, upTo: int, k: nat)
    requires Descending(dates) && k < |dates| && dates[0] <= upTo
    ensures dates[k] + k <= upTo
  {
    if k == 0 {
    } else {
      DatesFall(dates, upTo, k - 1);
    }
  }

  lemma {:induction false} DaysAreLabelled(dates: seq<int>, cards: seq<Card>, dayInPlay: int)
    requires Descending(dates) && (dates != [] ==> dates[0] <= dayInPlay)
    ensures var days := DaysOf(dates, cards, dayInPlay);
            && |days| <= |dates|
            && forall i :: 0 <= i < |days| ==>
                             days[i].day + i <= dayInPlay && days[i].tag == LabelOf(days[i].day, dayInPlay)
  {
    hide Filter;
    if dates == [] {
    } else {
      DaysAreLabelled(dates[..|dates| - 1], cards, dayInPlay);
      DatesFall(dates, dayInPlay, |dates| - 1);
    }
  }

  function Unpaged(v: View): seq<BoardDay> {
    if v.follows then DaysOf(AllDates(v), v.cards, v.dayInPlay) else []
  }

  lemma FilterKeepsAll(v: View)
    requires Descending(v.posted)
    ensures Descending(AllDates(v))
  {
    FilterKeepsDescending(v.posted, Asked(v.dayInPlay, None));
  }

  /** Today can only be the first day of the Board, and yesterday the first or the second. */
  lemma LabelsFall(v: View, i: nat)
    requires Descending(v.posted) && i < |Unpaged(v)|
    ensures Unpaged(v)[i].tag == Today ==> i == 0
    ensures Unpaged(v)[i].tag == Yesterday ==> i <= 1
    ensures Unpaged(v)[i].day == v.dayInPlay <==> Unpaged(v)[i].tag == Today
  {
    hide DaysOf;
    FilterKeepsAll(v);
    assert AllDates(v) != [] ==> AllDates(v)[0] in AllDates(v);
    DaysAreLabelled(AllDates(v), v.cards, v.dayInPlay);
  }

  lemma {:induction false} DaysAreDistinct(dates: seq<int>, cards: seq<Card>, dayInPlay: int)
    requires Descending(dates)
    ensures DistinctDays(DaysOf(dates, cards, dayInPlay))
  {
    hide Filter;
    if dates == [] {
    } else {
      DaysAreDistinct(dates[..|dates| - 1], cards, dayInPlay);
      InDaysOf(dates[..|dates| - 1], cards, dayInPlay);
    }
  }

  lemma JoinNext(dates: seq<int>, n: nat, m: nat, cards: seq<Card>, dayInPlay: int)
    requires Descending(dates) && n <= m <= |dates|
    ensures MergeDays(DaysOf(dates[..n], cards, dayInPlay), DaysOf(dates[n..m], cards, dayInPlay)) ==
            DaysOf(dates[..m], cards, dayInPlay)
  {
    hide DaysOf, MergeDays;
    var a, b := DaysOf(dates[..n], cards, dayInPlay), DaysOf(dates[n..m], cards, dayInPlay);
    assert dates[..m] == dates[..n] + dates[n..m];
    DaysOfConcat(dates[..n], dates[n..m], cards, dayInPlay);
    DaysAreDistinct(dates[n..m], cards, dayInPlay);
    InDaysOf(dates[..n], cards, dayInPlay);
    InDaysOf(dates[n..m], cards, dayInPlay);
    MergeOfNewDays(a, b);
  }

  predicate Positive(limits: seq<nat>) { forall k :: 0 <= k < |limits| ==> limits[k] > 0 }

  /** Following next_before page after page, joining each to what is held. */
  function Walk(v: View, held: seq<BoardDay>, before: Option<int>, limits: seq<nat>): seq<BoardDay>
    requires Positive(limits)
    decreases limits
  {
    if limits == [] then held
    else
      var page := PageOf(v, before, limits[0]);
      var joined := MergeDays(held, page.days);
      if page.nextBefore.None? then joined else Walk(v, joined, page.nextBefore, limits[1..])
  }

  /** Whether the limits are enough for the walk to reach a page with no next_before. */
  predicate Finished(v: View, before: Option<int>, limits: seq<nat>)
    requires Positive(limits)
    decreases limits
  {
    if limits == [] then false
    else
      var page := PageOf(v, before, limits[0]);
      page.nextBefore.None? || Finished(v, page.nextBefore, limits[1..])
  }

  lemma {:induction false} WalkFrom(v: View, n: nat, limits: seq<nat>)
    requires Descending(v.posted) && v.follows && Positive(limits) && n <= |AllDates(v)|
    requires Finished(v, After(v, n), limits)
    ensures Walk(v, DaysOf(AllDates(v)[..n], v.cards, v.dayInPlay), After(v, n), limits) == Unpaged(v)
    decreases limits
  {
    hide DaysOf, MergeDays, PageOf, AllDates;
    var all, m := AllDates(v), End(v, n, limits[0]);
    PageAfter(v, n, limits[0]);
    FilterKeepsAll(v);
    JoinNext(all, n, m, v.cards, v.dayInPlay);
    if m < |all| {
      WalkFrom(v, m, limits[1..]);
    } else {
      assert all[..m] == all;
    }
  }

  lemma {:induction false} FinishesFrom(v: View, n: nat, limits: seq<nat>)
    requires Descending(v.posted) && v.follows && Positive(limits) && n <= |AllDates(v)|
    requires 0 < |limits| && |AllDates(v)| <= n + |limits|
    ensures Finished(v, After(v, n), limits)
    decreases limits
  {
    hide PageOf, AllDates;
    PageAfter(v, n, limits[0]);
    var m := End(v, n, limits[0]);
    if m == |AllDates(v)| {
    } else {
      FinishesFrom(v, m, limits[1..]);
    }
  }

  /** Each page takes a date at least, so a walk of as many pages as there are dates has finished. */
  lemma WalkFinishes(v: View, limits: seq<nat>)
    requires Descending(v.posted) && Positive(limits) && 0 < |limits| && |AllDates(v)| <= |limits|
    ensures Finished(v, None, limits)
  {
    if v.follows {
      FinishesFrom(v, 0, limits);
    }
  }

  /** A finished walk, whatever its limits, joined on the phone is the Board grouped at once. */
  lemma PagedIsUnpaged(v: View, limits: seq<nat>)
    requires Descending(v.posted) && Positive(limits) && Finished(v, None, limits)
    ensures Walk(v, [], None, limits) == Unpaged(v)
  {
    if v.follows {
      assert AllDates(v)[..0] == [];
      WalkFrom(v, 0, limits);
    }
  }

  /** What the two reads promise: dates newest first, and no entry twice. */
  ghost predicate ProperView(v: View) { Descending(v.posted) && DistinctCards(v.cards) }

  lemma {:induction false} FilterKeepsCards(cards: seq<Card>, p: Card -> bool)
    requires DistinctCards(cards)
    ensures DistinctCards(Filter(cards, p))
  {
    if cards == [] {
    } else {
      var rest := Filter(cards[1..], p);
      FilterKeepsCards(cards[1..], p);
      forall i | 0 <= i < |rest| ensures rest[i].id != cards[0].id {
        assert rest[i] in cards[1..];
      }
    }
  }

  lemma NoDaysAreProper()
    ensures Proper([])
  {
  }

  /** No page, asked anywhere, has a date twice or an entry of a day twice. */
  lemma PageIsProper(v: View, before: Option<int>, limit: nat)
    requires ProperView(v) && limit > 0
    ensures Proper(PageOf(v, before, limit).days)
  {
    hide Filter, DaysOf, DistinctCards;
    if v.follows {
      var dates := Filter(v.posted, Asked(v.dayInPlay, before));
      FilterKeepsDescending(v.posted, Asked(v.dayInPlay, before));
      var kept := Cut(Cut(dates, limit + 1), limit);
      assert Descending(kept);
      DaysAreDistinct(kept, v.cards, v.dayInPlay);
      InDaysOf(kept, v.cards, v.dayInPlay);
      forall d | d in DaysOf(kept, v.cards, v.dayInPlay) ensures DistinctCards(d.cards) {
        FilterKeepsCards(v.cards, OnDate(d.day));
      }
    } else {
      NoDaysAreProper();
    }
  }

  // ---- no card lost ----

  function CardsOfDays(days: seq<BoardDay>): seq<Card> {
    if days == [] then [] else CardsOfDays(days[..|days| - 1]) + days[|days| - 1].cards
  }

  ghost predicate NewestFirst(cards: seq<Card>) {
    forall i, j :: 0 <= i < j < |cards| ==> cards[i].day >= cards[j].day
  }

  lemma OlderCards(cards: seq<Card>, dates: seq<int>)
    requires NewestFirst(cards) && cards != [] && forall d :: d in dates ==> d > cards[0].day
    ensures Filter(cards[1..], OnAny(dates)) == []
  {
    forall c | c in cards[1..] ensures c.day <= cards[0].day {
      var i :| 0 <= i < |cards[1..]| && cards[1..][i] == c;
      assert cards[i + 1] == c;
    }
    FilterNone(cards[1..], OnAny(dates));
  }

  lemma RestIsNewest(cards: seq<Card>)
    requires NewestFirst(cards) && cards != []
    ensures NewestFirst(cards[1..])
  {
  }

  lemma {:induction false} CardsSplit(cards: seq<Card>, dates: seq<int>, day: int)
    requires NewestFirst(cards) && forall d :: d in dates ==> d > day
    ensures Filter(cards, OnAny(dates + [day])) == Filter(cards, OnAny(dates)) + Filter(cards, OnDate(day))
  {
    hide Filter, NewestFirst;
    if cards == [] {
      FilterNone(cards, OnAny(dates + [day]));
      FilterNone(cards, OnAny(dates));
      FilterNone(cards, OnDate(day));
    } else {
      var c, rest := cards[0], cards[1..];
      assert cards == [c] + rest;
      RestIsNewest(cards);
      CardsSplit(rest, dates, day);
      FilterCons(c, rest, OnAny(dates + [day]));
      FilterCons(c, rest, OnAny(dates));
      FilterCons(c, rest, OnDate(day));
      if c.day == day {
        OlderCards(cards, dates);
      }
    }
  }

  lemma CardsOfSnoc(days: seq<BoardDay>, d: BoardDay)
    ensures CardsOfDays(days + [d]) == CardsOfDays(days) + d.cards
  {
    assert (days + [d])[..|days|] == days;
  }

  lemma NoCards(cards: seq<Card>)
    ensures CardsOfDays([]) == [] == Filter(cards, OnAny([]))
  {
    FilterNone(cards, OnAny([]));
  }

  lemma {:induction false} DaysHoldCards(dates: seq<int>, cards: seq<Card>, dayInPlay: int)
    requires Descending(dates) && NewestFirst(cards)
    ensures CardsOfDays(DaysOf(dates, cards, dayInPlay)) == Filter(cards, OnAny(dates))
  {
    hide Filter, CardsOfDays, NewestFirst;
    if dates == [] {
      NoCards(cards);
    } else {
      var rest, day := dates[..|dates| - 1], dates[|dates| - 1];
      assert dates == rest + [day];
      DaysHoldCards(rest, cards, dayInPlay);
      CardsSplit(cards, rest, day);
      var days, list := DaysOf(rest, cards, dayInPlay), Filter(cards, OnDate(day));
      if list == [] {
        assert DaysOf(dates, cards, dayInPlay) == days;
      } else {
        CardsOfSnoc(days, BoardDay(day, LabelOf(day, dayInPlay), list));
      }
    }
  }

  /** Every visible card of a listed date is on the finished walk once, in the order it was read. */
  lemma NoCardLost(v: View, limits: seq<nat>)
    requires Descending(v.posted) && NewestFirst(v.cards) && v.follows && Positive(limits)
    requires Finished(v, None, limits)
    ensures CardsOfDays(Walk(v, [], None, limits)) == Filter(v.cards, OnAny(AllDates(v)))
  {
    hide Filter, CardsOfDays, DaysOf, Walk, Finished;
    PagedIsUnpaged(v, limits);
    FilterKeepsAll(v);
    DaysHoldCards(AllDates(v), v.cards, v.dayInPlay);
  }

  // ---- which dates and cards, from the view alone ----

  /** A date the Board may list after a cursor: posted, not past the day in play, older than the cursor. */
  predicate Listable(v: View, before: Option<int>, d: int) {
    d in v.posted && d <= v.dayInPlay && (before.Some? ==> d < before.value)
  }

  ghost function NewerListable(v: View, before: Option<int>, d: int): set<int> {
    set x | x in v.posted && Listable(v, before, x) && x > d
  }

  predicate HasSomeCard(v: View, day: int) { exists c :: c in v.cards && c.day == day }

  ghost function Firsts(dates: seq<int>, n: nat): set<int>
    requires n <= |dates|
  {
    set x | x in dates[..n]
  }

  lemma {:induction false} CountFirsts(dates: seq<int>, n: nat)
    requires Descending(dates) && n <= |dates|
    ensures |Firsts(dates, n)| == n
  {
    if n == 0 {
    } else {
      CountFirsts(dates, n - 1);
      assert dates[..n] == dates[..n - 1] + [dates[n - 1]];
      assert Firsts(dates, n) == Firsts(dates, n - 1) + {dates[n - 1]};
      assert dates[n - 1] !in dates[..n - 1];
    }
  }

  /** As many listable dates are newer than one as come before it in the list. */
  lemma NewerAreBefore(v: View, before: Option<int>, i: nat)
    requires Descending(v.posted) && i < |Filter(v.posted, Asked(v.dayInPlay, before))|
    ensures |NewerListable(v, before, Filter(v.posted, Asked(v.dayInPlay, before))[i])| == i
  {
    var dates := Filter(v.posted, Asked(v.dayInPlay, before));
    FilterKeepsDescending(v.posted, Asked(v.dayInPlay, before));
    CountFirsts(dates, i);
    forall x ensures x in NewerListable(v, before, dates[i]) <==> x in Firsts(dates, i) {
      if x in NewerListable(v, before, dates[i]) {
        assert x in dates;
        var j :| 0 <= j < |dates| && dates[j] == x;
        assert j < i && dates[..i][j] == x;
      }
      if x in Firsts(dates, i) {
        var j :| 0 <= j < i && dates[..i][j] == x;
        assert dates[j] == x && x in dates;
      }
    }
    assert NewerListable(v, before, dates[i]) == Firsts(dates, i);
  }

  lemma InFilter(v: View, before: Option<int>, day: int)
    ensures day in Filter(v.posted, Asked(v.dayInPlay, before)) <==> Listable(v, before, day)
  {
  }

  lemma KeptExactly(v: View, before: Option<int>, limit: nat, day: int)
    requires Descending(v.posted) && limit > 0
    ensures day in Cut(PostedDates(v, before, limit + 1), limit) <==>
            Listable(v, before, day) && |NewerListable(v, before, day)| < limit
  {
    hide Filter;
    var dates := Filter(v.posted, Asked(v.dayInPlay, before));
    var kept := Cut(Cut(dates, limit + 1), limit);
    assert kept == Cut(dates, limit);
    assert day in dates <==> Listable(v, before, day) by {
      InFilter(v, before, day);
    }
    if day in dates {
      var i :| 0 <= i < |dates| && dates[i] == day;
      NewerAreBefore(v, before, i);
      if i < limit {
        assert kept[i] == day;
      }
    }
    if day in kept {
      var i :| 0 <= i < |kept| && kept[i] == day;
      assert dates[i] == day;
      NewerAreBefore(v, before, i);
    }
  }

  lemma EmptyWhenNone(cards: seq<Card>, day: int)
    ensures Filter(cards, OnDate(day)) == [] <==> !(exists c :: c in cards && c.day == day)
  {
    var list := Filter(cards, OnDate(day));
    if list != [] {
      assert list[0] in list;
    }
  }

  lemma HasDayConcat(a: seq<BoardDay>, b: seq<BoardDay>, day: int)
    ensures HasDay(a + b, day) <==> HasDay(a, day) || HasDay(b, day)
  {
    if HasDay(a, day) {
      var d :| d in a && d.day == day;
      assert d in a + b;
    }
    if HasDay(b, day) {
      var d :| d in b && d.day == day;
      assert d in a + b;
    }
  }

  /** Each listed date with cards is a day, labelled by how far it is from the day in play, with its cards as read. */
  lemma {:induction false} DaysAre(dates: seq<int>, cards: seq<Card>, dayInPlay: int)
    ensures forall d :: d in DaysOf(dates, cards, dayInPlay) ==>
                          && d.day in dates && d.cards == Filter(cards, OnDate(d.day)) && d.cards != []
                          && (d.tag == Today <==> d.day == dayInPlay)
                          && (d.tag == Yesterday <==> d.day == dayInPlay - 1)
    ensures forall day :: HasDay(DaysOf(dates, cards, dayInPlay), day) <==>
                            day in dates && exists c :: c in cards && c.day == day
  {
    hide Filter;
    if dates == [] {
    } else {
      var rest, last := dates[..|dates| - 1], dates[|dates| - 1];
      DaysAre(rest, cards, dayInPlay);
      var list := Filter(cards, OnDate(last));
      assert list == [] <==> !(exists c :: c in cards && c.day == last) by {
        EmptyWhenNone(cards, last);
      }
      var days, more := DaysOf(rest, cards, dayInPlay), DayWith(last, cards, dayInPlay);
      forall day ensures HasDay(days + more, day) <==> HasDay(days, day) || (list != [] && day == last) {
        HasDayConcat(days, more, day);
      }
      assert dates == rest + [last];
    }
  }

  /**
   A page lists a date exactly when it may be listed, is among the newest limit of those, and has a card
   to show.
   */
  lemma PageListsExactly(v: View, before: Option<int>, limit: nat, day: int)
    requires Descending(v.posted) && limit > 0
    ensures HasDay(PageOf(v, before, limit).days, day) <==>
            v.follows && Listable(v, before, day) && |NewerListable(v, before, day)| < limit && HasSomeCard(v, day)
  {
    hide DaysOf, PostedDates;
    if v.follows {
      var kept := Cut(PostedDates(v, before, limit + 1), limit);
      KeptExactly(v, before, limit, day);
      DaysAre(kept, v.cards, v.dayInPlay);
    }
  }

  /** Its cursor is a date exactly when that is the last of the newest limit and an older one is left. */
  lemma CursorIsExact(v: View, before: Option<int>, limit: nat, at: int)
    requires Descending(v.posted) && limit > 0
    ensures PageOf(v, before, limit).nextBefore == Some(at) <==>
            && v.follows && Listable(v, before, at) && |NewerListable(v, before, at)| == limit - 1
            && exists d :: d in v.posted && Listable(v, before, d) && d < at
  {
    hide DaysOf, Filter;
    var dates := Filter(v.posted, Asked(v.dayInPlay, before));
    assert Descending(dates) by {
      FilterKeepsDescending(v.posted, Asked(v.dayInPlay, before));
    }
    forall d ensures d in dates <==> Listable(v, before, d) {
      InFilter(v, before, d);
    }
    if v.follows && |dates| > limit {
      NewerAreBefore(v, before, limit - 1);
      assert dates[limit] in dates && dates[limit - 1] in dates;
    }
    if Listable(v, before, at) && |NewerListable(v, before, at)| == limit - 1 {
      var i :| 0 <= i < |dates| && dates[i] == at;
      NewerAreBefore(v, before, i);
      if d :| d in v.posted && Listable(v, before, d) && d < at {
        var j :| 0 <= j < |dates| && dates[j] == d;
        assert j > i;
      }
    }
  }

  /** The card stands on a day of the list. */
  ghost predicate Stands(days: seq<BoardDay>, c: Card) { exists d :: d in days && c in d.cards }

  /**
   A card is on a finished walk exactly when the viewer follows someone, may see it, and its date is posted
   and not past the day in play; it stands on its own date, labelled by how far that is from the day in play.
   */
  lemma CardsOnWalk(v: View, limits: seq<nat>, c: Card, d: BoardDay)
    requires Descending(v.posted) && Positive(limits) && Finished(v, None, limits)
    ensures Stands(Walk(v, [], None, limits), c) <==>
            v.follows && c in v.cards && c.day in v.posted && c.day <= v.dayInPlay
    ensures d in Walk(v, [], None, limits) && c in d.cards ==>
              && d.day == c.day
              && (d.tag == Today <==> c.day == v.dayInPlay) && (d.tag == Yesterday <==> c.day == v.dayInPlay - 1)
  {
    hide DaysOf, Walk, Finished;
    PagedIsUnpaged(v, limits);
    if v.follows {
      var days := Unpaged(v);
      DaysAre(AllDates(v), v.cards, v.dayInPlay);
      assert c.day in AllDates(v) <==> Listable(v, None, c.day) by {
        InFilter(v, None, c.day);
      }
      if c in v.cards && c.day in AllDates(v) {
        assert HasDay(days, c.day);
        var e :| e in days && e.day == c.day;
        assert c in e.cards;
      }
    }
  }
}
