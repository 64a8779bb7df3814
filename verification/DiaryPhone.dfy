/**
 The phone's copy of the diary while requests race: reloads, next pages, category and account
 changes overlap in any order, and every answer carries the sequence number its request captured.
 The state is the hook's refs and view state; a run is any list of steps.
 */
module DiaryPhone {
  import opened Numbers
  import opened Options
  import opened Sequences
  import opened Dates
  import opened DiaryRules
  import opened DiaryServer

  const PAGE_SIZE := 20
  const MAX_PAGE := 50

  /** Whose list, and which category of it (None is All). */
  datatype Scope = Scope(owner: string, category: Option<string>)

  datatype Mode = Quiet | Pull | Retry
  datatype Status = Loading | Ready | Offline
  datatype Failure = Network | Generic

  datatype Held = Held(owner: Option<string>, category: Option<string>, rows: seq<Row>, chips: seq<string>,
                       nextCursor: Option<string>, loaded: bool)

  datatype Request =
    | First(mine: nat, scope: Scope, limit: nat, mode: Mode)
    | More(mine: nat, scope: Scope, cursor: string)

  datatype State = State(
    held: Held, status: Status, failure: Failure, refreshing: bool, loadingMore: bool, moreFailed: bool,
    seqNo: nat, firstBusy: bool, moreBusy: bool, mounted: bool,
    flight: map<nat, Request>, sent: nat)

  function RowKey(r: Row): string {
    if r.EntryRow? then r.id else "skipped-" + DayText(r.day)
  }

  lemma DayTextTells(m: Day, n: Day)
    requires DayText(m) == DayText(n)
    ensures m == n
  {
    DayTextRoundTrip(m);
    DayTextRoundTrip(n);
  }

  /** Two rows have one key only when they are one entry or one skipped day, but for an entry id that spells a day. */
  lemma KeyTells(a: Row, b: Row)
    ensures RowKey(a) == RowKey(b) <==>
            if a.EntryRow? && b.EntryRow? then a.id == b.id
            else if a.SkippedRow? && b.SkippedRow? then a.day == b.day
            else if a.EntryRow? then a.id == "skipped-" + DayText(b.day)
            else b.id == "skipped-" + DayText(a.day)
  {
    hide DayText;
    if a.SkippedRow? && b.SkippedRow? && RowKey(a) == RowKey(b) {
      assert RowKey(a)[8..] == DayText(a.day) && RowKey(b)[8..] == DayText(b.day);
      DayTextTells(a.day, b.day);
    }
  }

  function Start(user: Option<string>, category: Option<string>): State {
    State(Held(user, category, [], [], None, false), Loading, Network, false, false, false,
          0, false, false, true, map[], 0)
  }

  // ---- asking ----

  predicate Holds(h: Held, scope: Scope) {
    h.loaded && h.owner == Some(scope.owner) && h.category == scope.category
  }

  /** A quiet reload asks for as many rows as are shown, up to a full page of 50. */
  function FirstLimit(h: Held, scope: Scope, mode: Mode): (n: nat)
    ensures PAGE_SIZE <= n <= MAX_PAGE
  {
    if mode == Quiet && Holds(h, scope) then Min(MAX_PAGE, Max(PAGE_SIZE, |h.rows|)) else PAGE_SIZE
  }

  function AskFirst(s: State, user: Option<string>, category: Option<string>, mode: Mode): State {
    if user.None? then s
    else
      var scope := Scope(user.value, category);
      s.(seqNo := s.seqNo + 1, firstBusy := true, moreBusy := false, loadingMore := false,
         refreshing := s.refreshing || mode == Pull,
         status := if mode == Retry then Loading else s.status,
         flight := s.flight[s.sent := First(s.seqNo + 1, scope, FirstLimit(s.held, scope, mode), mode)],
         sent := s.sent + 1)
  }

  function AskMore(s: State, user: Option<string>, category: Option<string>, auto: bool): State {
    if user.None? || s.moreBusy || s.firstBusy then s
    else if !Holds(s.held, Scope(user.value, category)) || s.held.nextCursor.None? then s
    else if auto && s.moreFailed then s
    else
      s.(moreBusy := true, loadingMore := true, moreFailed := false,
         flight := s.flight[s.sent := More(s.seqNo, Scope(user.value, category), s.held.nextCursor.value)],
         sent := s.sent + 1)
  }

  // ---- answers ----

  /** Whether an answer still counts: the screen is there and no newer first page began. */
  predicate Counts(s: State, q: Request) { s.mounted && q.mine == s.seqNo }

  function Landed(s: State, n: nat): State
    requires n in s.flight
  {
    var q := s.flight[n];
    var current := q.mine == s.seqNo;
    var t := s.(flight := s.flight - {n});
    match q
    case First(_, _, _, mode) =>
      t.(firstBusy := s.firstBusy && !current, refreshing := s.refreshing && !(s.mounted && mode == Pull))
    case More(_, _, _) =>
      t.(moreBusy := s.moreBusy && !current, loadingMore := s.loadingMore && !(current && s.mounted))
  }

  function WireCursor(c: string): Option<string> { if c == "" then None else Some(c) }

  function Unseen(rows: seq<Row>): Row -> bool {
    (r: Row) => forall q :: q in rows ==> RowKey(q) != RowKey(r)
  }

  function Join(h: Held, page: Page): Held {
    h.(rows := h.rows + Filter(page.rows, Unseen(h.rows)), chips := page.chips,
       nextCursor := WireCursor(page.nextCursor))
  }

  function Succeed(s: State, n: nat, page: Page): State
    requires n in s.flight
  {
    var q, t := s.flight[n], Landed(s, n);
    if !Counts(s, q) then t
    else match q
      case First(_, scope, _, _) =>
        t.(held := Held(Some(scope.owner), scope.category, page.rows, page.chips, WireCursor(page.nextCursor), true),
           moreFailed := false, status := Ready)
      case More(_, _, _) => t.(held := Join(s.held, page))
  }

  function Fail(s: State, n: nat, kind: Failure): State
    requires n in s.flight
  {
    var q, t := s.flight[n], Landed(s, n);
    if !Counts(s, q) then t
    else match q
      case First(_, scope, _, _) =>
        if s.held.loaded && s.held.owner == Some(scope.owner) then t else t.(failure := kind, status := Offline)
      case More(_, _, _) => t.(moreFailed := true)
  }

  function CursorOf(q: Request): string { if q.First? then "" else q.cursor }
  function LimitOf(q: Request): nat { if q.First? then q.limit else PAGE_SIZE }

  /** The server answers request n while the list it was asked for is `rows`. */
  function Answer(s: State, n: nat, rows: seq<Row>, chips: seq<string>): State
    requires n in s.flight
  {
    match PageOf(rows, chips, CursorOf(s.flight[n]), LimitOf(s.flight[n]))
    case Ok(page) => Succeed(s, n, page)
    case Err(_) => Fail(s, n, Generic)
  }

  // ---- runs ----

  datatype Step =
    | OpenFirst(user: Option<string>, category: Option<string>, mode: Mode)
    | OpenMore(user: Option<string>, category: Option<string>, auto: bool)
    | Answered(n: nat, rows: seq<Row>, chips: seq<string>)
    | Failed(n: nat, kind: Failure)
    | Mount
    | Unmount

  /** Every list the server may hold for a scope at the moments it answers, and the date each key is on. */
  datatype World = World(lists: map<Scope, set<seq<Row>>>, dayOf: string -> int)

  predicate Possible(w: World, s: State, step: Step) {
    match step
    case Answered(n, rows, _) => n in s.flight && s.flight[n].scope in w.lists && rows in w.lists[s.flight[n].scope]
    case Failed(n, _) => n in s.flight
    case _ => true
  }

  function Apply(w: World, s: State, step: Step): State {
    if !Possible(w, s, step) then s
    else match step
      case OpenFirst(user, category, mode) => AskFirst(s, user, category, mode)
      case OpenMore(user, category, auto) => AskMore(s, user, category, auto)
      case Answered(n, rows, chips) => Answer(s, n, rows, chips)
      case Failed(n, kind) => Fail(s, n, kind)
      case Mount => s.(mounted := true)
      case Unmount => s.(mounted := false)
  }

  function Run(w: World, s: State, steps: seq<Step>): State {
    if steps == [] then s else Apply(w, Run(w, s, steps[..|steps| - 1]), steps[|steps| - 1])
  }

  // ---- what every state keeps ----

  /** Each list has one row a date, newest first, and a key never moves to another date. */
  ghost predicate SoundLists(w: World, lists: set<seq<Row>>) {
    && (forall l :: l in lists ==> Listed(l))
    && (forall l, r :: l in lists && r in l ==> r.day == w.dayOf(RowKey(r)))
  }

  ghost predicate Sound(w: World) {
    forall scope :: scope in w.lists ==> SoundLists(w, w.lists[scope])
  }

  predicate IsCurrent(s: State, n: nat) { n in s.flight && s.flight[n].mine == s.seqNo }
  predicate IsCurrentFirst(s: State, n: nat) { IsCurrent(s, n) && s.flight[n].First? }
  predicate IsCurrentMore(s: State, n: nat) { IsCurrent(s, n) && s.flight[n].More? }

  ghost predicate FlagsExact(s: State) {
    && (forall n :: n in s.flight ==>
                      n < s.sent && s.flight[n].mine <= s.seqNo && 1 <= LimitOf(s.flight[n]) <= MAX_PAGE)
    && (forall n, m :: IsCurrent(s, n) && IsCurrent(s, m) ==> n == m)
    && (s.firstBusy <==> exists n :: IsCurrentFirst(s, n))
    && (s.moreBusy <==> exists n :: IsCurrentMore(s, n))
  }

  /** A next page that still counts was asked of the very list that is held. */
  ghost predicate MoreMatchesHeld(s: State) {
    forall n :: IsCurrentMore(s, n) ==>
                  Holds(s.held, s.flight[n].scope) && s.held.nextCursor == Some(s.flight[n].cursor)
  }

  ghost predicate HasKey(rows: seq<Row>, key: string) { exists r :: r in rows && RowKey(r) == key }

  ghost predicate Throughout(lists: set<seq<Row>>, key: string) { forall l :: l in lists ==> HasKey(l, key) }

  ghost predicate Among(lists: set<seq<Row>>, r: Row) { exists l :: l in lists && r in l }

  predicate Reached(after: Option<Day>, day: int) { after.Some? ==> day >= after.value }

  ghost predicate AmongDays(lists: set<seq<Row>>, edge: int) {
    (exists r :: Among(lists, r) && r.day == edge) && (exists r :: Among(lists, r) && r.day < edge)
  }

  /**
   The rows held down to the cursor's day: newest first, each once listed, and no row missing that
   was listed all along. A cursor stands on a listed day that has an older one below it.
   */
  ghost predicate HeldDownTo(w: World, lists: set<seq<Row>>, rows: seq<Row>, after: Option<Day>) {
    && Listed(rows)
    && (forall r :: r in rows ==> Among(lists, r) && Reached(after, r.day))
    && (forall key :: Throughout(lists, key) && Reached(after, w.dayOf(key)) ==> HasKey(rows, key))
    && (after.Some? ==> AmongDays(lists, after.value))
  }

  function ScopeOf(h: Held): Scope
    requires h.owner.Some?
  {
    Scope(h.owner.value, h.category)
  }

  ghost predicate HeldSound(w: World, h: Held) {
    h.loaded ==>
      && h.owner.Some? && ScopeOf(h) in w.lists
      && exists after ::
           HeldDownTo(w, w.lists[ScopeOf(h)], h.rows, after) && h.nextCursor == WireCursor(CursorAt(after))
  }

  ghost predicate Inv(w: World, s: State) {
    FlagsExact(s) && MoreMatchesHeld(s) && HeldSound(w, s.held)
  }

  // ---- each step keeps it ----

  lemma AskFirstKeeps(w: World, s: State, user: Option<string>, category: Option<string>, mode: Mode)
    requires Inv(w, s)
    ensures Inv(w, AskFirst(s, user, category, mode))
  {
    hide HeldDownTo;
    var t := AskFirst(s, user, category, mode);
    if user.Some? {
      assert IsCurrentFirst(t, s.sent);
      assert forall n :: IsCurrent(t, n) ==> n == s.sent;
    }
  }

  lemma NothingCurrent(s: State)
    requires FlagsExact(s) && !s.firstBusy && !s.moreBusy
    ensures forall n :: !IsCurrent(s, n)
  {
    forall n ensures !IsCurrent(s, n) {
      assert !IsCurrentFirst(s, n) && !IsCurrentMore(s, n);
    }
  }

  lemma AskMoreKeeps(w: World, s: State, user: Option<string>, category: Option<string>, auto: bool)
    requires Inv(w, s)
    ensures Inv(w, AskMore(s, user, category, auto))
  {
    hide HeldSound;
    var t := AskMore(s, user, category, auto);
    if t != s {
      NothingCurrent(s);
      var n := s.sent;
      assert t.held == s.held && t.flight.Keys == s.flight.Keys + {n};
      assert IsCurrentMore(t, n) && !IsCurrentFirst(t, n);
      forall m | IsCurrent(t, m) ensures m == n {
        assert m != n ==> IsCurrent(s, m);
      }
      assert forall m :: IsCurrentFirst(t, m) ==> m == n;
      assert forall m :: IsCurrentMore(t, m) ==> m == n;
    }
  }

  /** Landing a request clears its own flag and only that. */
  lemma LandedKeepsFlags(s: State, n: nat)
    requires FlagsExact(s) && n in s.flight
    ensures FlagsExact(Landed(s, n))
    ensures IsCurrent(s, n) ==> forall m :: !IsCurrent(Landed(s, n), m)
  {
    var t := Landed(s, n);
    assert forall m :: IsCurrent(t, m) <==> IsCurrent(s, m) && m != n;
    assert forall m :: IsCurrent(t, m) ==> t.flight[m] == s.flight[m];
    assert forall m :: IsCurrentFirst(t, m) <==> IsCurrentFirst(s, m) && m != n;
    assert forall m :: IsCurrentMore(t, m) <==> IsCurrentMore(s, m) && m != n;
    if IsCurrent(s, n) {
      assert IsCurrentFirst(s, n) || IsCurrentMore(s, n);
    }
  }

  /** The flags speak only of the requests in flight. */
  lemma SameFlight(s: State, t: State)
    requires t.flight == s.flight && t.sent == s.sent && t.seqNo == s.seqNo
    requires t.firstBusy == s.firstBusy && t.moreBusy == s.moreBusy
    ensures FlagsExact(s) <==> FlagsExact(t)
    ensures forall m :: IsCurrent(s, m) <==> IsCurrent(t, m)
    ensures forall m :: IsCurrentMore(s, m) <==> IsCurrentMore(t, m)
  {
    assert forall m :: IsCurrent(s, m) <==> IsCurrent(t, m);
    assert forall m :: IsCurrentFirst(s, m) <==> IsCurrentFirst(t, m);
    assert forall m :: IsCurrentMore(s, m) <==> IsCurrentMore(t, m);
  }

  lemma FailKeeps(w: World, s: State, n: nat, kind: Failure)
    requires Inv(w, s) && n in s.flight
    ensures Inv(w, Fail(s, n, kind))
  {
    hide HeldSound;
    LandedKeepsFlags(s, n);
    SameFlight(Landed(s, n), Fail(s, n, kind));
    assert forall m :: IsCurrentMore(Landed(s, n), m) ==> IsCurrentMore(s, m) && Landed(s, n).flight[m] == s.flight[m];
    assert HeldSound(w, s.held);
  }

  /** The page cut for a request, as the phone reads it. */
  ghost predicate PageFor(w: World, lists: set<seq<Row>>, list: seq<Row>, before: Option<Day>, page: Page,
                          after: Option<Day>) {
    && SoundLists(w, lists) && list in lists
    && PageIs(page, list, before, after)
    && (after.Some? ==> exists r :: r in list && r.day < after.value)
  }

  lemma PageRows(w: World, lists: set<seq<Row>>, list: seq<Row>, before: Option<Day>, page: Page, after: Option<Day>)
    requires PageFor(w, lists, list, before, page, after)
    ensures Listed(page.rows)
    ensures forall r :: r in page.rows ==> Among(lists, r) && Wanted(before, r.day) && Reached(after, r.day)
    ensures after.Some? ==> AmongDays(lists, after.value) && Wanted(before, after.value)
  {
    hide RowKey, CursorAt, Listed;
    forall r | r in page.rows ensures Among(lists, r) {
      assert r in list;
    }
    if after.Some? {
      var last := page.rows[|page.rows| - 1];
      assert last in page.rows && Among(lists, last);
      var older :| older in list && older.day < after.value;
      assert Among(lists, older);
    }
  }

  lemma PageHasKey(w: World, lists: set<seq<Row>>, list: seq<Row>, before: Option<Day>, page: Page, after: Option<Day>,
                   key: string)
    returns (r: Row)
    requires PageFor(w, lists, list, before, page, after)
    requires Throughout(lists, key) && Wanted(before, w.dayOf(key)) && Reached(after, w.dayOf(key))
    ensures r in page.rows && RowKey(r) == key
  {
    hide RowKey, CursorAt, Listed;
    assert HasKey(list, key);
    r :| r in list && RowKey(r) == key;
  }

  /** A first page is the newest part of the list it was cut from. */
  lemma FirstPageHeld(w: World, lists: set<seq<Row>>, list: seq<Row>, page: Page, after: Option<Day>)
    requires PageFor(w, lists, list, None, page, after)
    ensures HeldDownTo(w, lists, page.rows, after)
  {
    hide RowKey, CursorAt, Listed, PageFor, AmongDays;
    PageRows(w, lists, list, None, page, after);
    forall key | Throughout(lists, key) && Reached(after, w.dayOf(key)) ensures HasKey(page.rows, key) {
      var r := PageHasKey(w, lists, list, None, page, after, key);
    }
  }

  /** A next page continues what is held, even when the list changed since. */
  lemma NextPageHeld(w: World, lists: set<seq<Row>>, list: seq<Row>, rows: seq<Row>, before: Option<Day>, page: Page,
                     after: Option<Day>)
    requires before.Some? && HeldDownTo(w, lists, rows, before)
    requires PageFor(w, lists, list, before, page, after)
    ensures HeldDownTo(w, lists, rows + Filter(page.rows, Unseen(rows)), after)
  {
    hide RowKey, CursorAt, Listed, PageFor, AmongDays, Throughout;
    var unseen := Filter(page.rows, Unseen(rows));
    PageRows(w, lists, list, before, page, after);
    FilterKeepsListed(page.rows, Unseen(rows));
    ListedConcat(rows, unseen, before.value);
    forall key | Throughout(lists, key) && Reached(after, w.dayOf(key)) ensures HasKey(rows + unseen, key) {
      if HasKey(rows, key) {
        var r :| r in rows && RowKey(r) == key;
        assert r in rows + unseen;
      } else {
        var r := PageHasKey(w, lists, list, before, page, after, key);
        assert r in unseen;
        assert r in rows + unseen;
      }
    }
  }

  /** An answer that no longer counts changes nothing that is held or shown as held. */
  lemma StaleAnswerKeeps(w: World, s: State, n: nat, rows: seq<Row>, chips: seq<string>)
    requires Inv(w, s) && n in s.flight && !Counts(s, s.flight[n])
    ensures Inv(w, Answer(s, n, rows, chips))
    ensures Answer(s, n, rows, chips) == Landed(s, n)
    ensures Landed(s, n).held == s.held && Landed(s, n).status == s.status && Landed(s, n).moreFailed == s.moreFailed
    ensures s.flight[n].mine != s.seqNo ==>
              Landed(s, n).firstBusy == s.firstBusy && Landed(s, n).moreBusy == s.moreBusy
              && Landed(s, n).loadingMore == s.loadingMore
  {
    hide HeldSound, PageOf;
    LandedKeepsFlags(s, n);
    var t := Landed(s, n);
    assert Answer(s, n, rows, chips) == t;
    assert forall m :: IsCurrentMore(t, m) ==> IsCurrentMore(s, m) && t.flight[m] == s.flight[m];
    assert HeldSound(w, t.held);
  }

  lemma PageCursor(page: Page, rows: seq<Row>, before: Option<Day>, after: Option<Day>)
    requires PageIs(page, rows, before, after)
    ensures page.nextCursor == CursorAt(after)
  {
  }

  lemma CursorAtNone()
    ensures CursorAt(None) == ""
  {
  }

  lemma CurrentFirstKeeps(w: World, s: State, n: nat, rows: seq<Row>, chips: seq<string>)
    requires Sound(w) && Inv(w, s)
    requires n in s.flight && s.flight[n].scope in w.lists && rows in w.lists[s.flight[n].scope]
    requires Counts(s, s.flight[n]) && s.flight[n].First?
    ensures Inv(w, Answer(s, n, rows, chips))
  {
    hide HeldDownTo, PageOf, PageIs, CursorAt, RowKey;
    var q := s.flight[n];
    var lists := w.lists[q.scope];
    assert SoundLists(w, lists);
    CursorAtNone();
    var page, after := PageKeepsList(rows, chips, "", None, q.limit);
    FirstPageHeld(w, lists, rows, page, after);
    LandedKeepsFlags(s, n);
    var t, l := Answer(s, n, rows, chips), Landed(s, n);
    SameFlight(l, t);
    assert page.nextCursor == CursorAt(after) by {
      PageCursor(page, rows, None, after);
    }
    assert HeldDownTo(w, w.lists[ScopeOf(t.held)], t.held.rows, after);
  }

  lemma CurrentMoreKeeps(w: World, s: State, n: nat, rows: seq<Row>, chips: seq<string>)
    requires Sound(w) && Inv(w, s)
    requires n in s.flight && s.flight[n].scope in w.lists && rows in w.lists[s.flight[n].scope]
    requires Counts(s, s.flight[n]) && s.flight[n].More?
    ensures Inv(w, Answer(s, n, rows, chips))
  {
    hide HeldDownTo, PageOf, PageIs, CursorAt, RowKey;
    var q := s.flight[n];
    var lists := w.lists[q.scope];
    assert SoundLists(w, lists);
    CursorAtNone();
    assert IsCurrent(s, n);
    assert Holds(s.held, q.scope) && ScopeOf(s.held) == q.scope;
    var before :| HeldDownTo(w, lists, s.held.rows, before) && s.held.nextCursor == WireCursor(CursorAt(before));
    assert before.Some?;
    var page, after := PageKeepsList(rows, chips, q.cursor, before, PAGE_SIZE);
    NextPageHeld(w, lists, rows, s.held.rows, before, page, after);
    LandedKeepsFlags(s, n);
    var t, l := Answer(s, n, rows, chips), Landed(s, n);
    SameFlight(l, t);
    PageCursor(page, rows, before, after);
    assert HeldDownTo(w, w.lists[ScopeOf(t.held)], t.held.rows, after);
  }

  lemma AnswerKeeps(w: World, s: State, n: nat, rows: seq<Row>, chips: seq<string>)
    requires Sound(w) && Inv(w, s)
    requires n in s.flight && s.flight[n].scope in w.lists && rows in w.lists[s.flight[n].scope]
    ensures Inv(w, Answer(s, n, rows, chips))
  {
    hide HeldDownTo, PageOf, Answer, Sound;
    var q := s.flight[n];
    if !Counts(s, q) {
      StaleAnswerKeeps(w, s, n, rows, chips);
    } else if q.First? {
      CurrentFirstKeeps(w, s, n, rows, chips);
    } else {
      CurrentMoreKeeps(w, s, n, rows, chips);
    }
  }

  lemma MountKeeps(w: World, s: State, mounted: bool)
    requires Inv(w, s)
    ensures Inv(w, s.(mounted := mounted))
  {
    hide HeldSound;
    SameFlight(s, s.(mounted := mounted));
  }

  lemma ApplyKeeps(w: World, s: State, step: Step)
    requires Sound(w) && Inv(w, s)
    ensures Inv(w, Apply(w, s, step))
  {
    hide HeldSound, Answer, Fail, AskFirst, AskMore;
    if Possible(w, s, step) {
      match step
      case OpenFirst(user, category, mode) => AskFirstKeeps(w, s, user, category, mode);
      case OpenMore(user, category, auto) => AskMoreKeeps(w, s, user, category, auto);
      case Answered(n, rows, chips) => AnswerKeeps(w, s, n, rows, chips);
      case Failed(n, kind) => FailKeeps(w, s, n, kind);
      case Mount => MountKeeps(w, s, true);
      case Unmount => MountKeeps(w, s, false);
    }
  }

  lemma {:induction false} RunKeeps(w: World, s: State, steps: seq<Step>)
    requires Sound(w) && Inv(w, s)
    ensures Inv(w, Run(w, s, steps))
  {
    hide Inv, Apply;
    if steps == [] {
    } else {
      RunKeeps(w, s, steps[..|steps| - 1]);
      ApplyKeeps(w, Run(w, s, steps[..|steps| - 1]), steps[|steps| - 1]);
    }
  }

  lemma StartIsSound(w: World, user: Option<string>, category: Option<string>)
    ensures Inv(w, Start(user, category))
  {
  }
}
