/** What the diary's racing cache promises over every run. */
module DiaryCache {
  import opened Options
  import opened Sequences
  import opened Dates
  import opened DiaryRules
  import opened DiaryServer
  import opened DiaryPhone

  function RunFromStart(w: World, user: Option<string>, category: Option<string>, steps: seq<Step>): State {
    Run(w, Start(user, category), steps)
  }

  lemma RunIsSound(w: World, user: Option<string>, category: Option<string>, steps: seq<Step>)
    requires Sound(w)
    ensures Inv(w, RunFromStart(w, user, category, steps))
  {
    StartIsSound(w, user, category);
    RunKeeps(w, Start(user, category), steps);
  }

  // ---- an unchanging list ----

  /** The held rows are the first n of the list, and the cursor says where the n-th stands. */
  ghost predicate AgreesWith(h: Held, list: seq<Row>) {
    var n := |h.rows|;
    && n <= |list|
    && h.rows == list[..n]
    && (h.nextCursor.None? <==> n == |list|)
    && (h.nextCursor.Some? ==> n > 0 && h.nextCursor.value == CursorAt(Some(list[n - 1].day)))
  }

  lemma HeldIsReached(w: World, list: seq<Row>, rows: seq<Row>, after: Option<Day>)
    requires SoundLists(w, {list}) && HeldDownTo(w, {list}, rows, after)
    ensures forall r :: r in rows <==> r in list && Reached(after, r.day)
  {
    hide RowKey, CursorAt;
    assert list in {list};
    forall r | r in list && Reached(after, r.day) ensures r in rows {
      assert HasKey(list, RowKey(r));
      assert Throughout({list}, RowKey(r));
      var q :| q in rows && RowKey(q) == RowKey(r);
      assert Among({list}, q);
      assert q.day == r.day;
    }
  }

  /** The rows of a list from a listed edge up are a prefix that ends at the edge. */
  lemma RowsAboveEdge(list: seq<Row>, rows: seq<Row>, at: Row)
    requires Listed(list) && Listed(rows) && at in list
    requires forall r :: r in rows <==> r in list && r.day >= at.day
    ensures |rows| <= |list| && rows == list[..|rows|]
    ensures rows != [] && rows[|rows| - 1] == at
  {
    var k :| 0 <= k < |list| && list[k] == at;
    NewestAreAboveEdge(list, k + 1);
    SameRows(rows, list[..k + 1]);
  }

  lemma HeldIsPrefix(w: World, list: seq<Row>, rows: seq<Row>, after: Option<Day>)
    requires SoundLists(w, {list}) && HeldDownTo(w, {list}, rows, after)
    ensures |rows| <= |list| && rows == list[..|rows|]
    ensures after.None? <==> |rows| == |list|
    ensures after.Some? ==> rows != [] && list[|rows| - 1].day == after.value
  {
    hide RowKey, CursorAt, Throughout, HasKey, Listed;
    assert list in {list};
    HeldIsReached(w, list, rows, after);
    if after.None? {
      SameRows(rows, list);
    } else {
      var edge :| Among({list}, edge) && edge.day == after.value;
      RowsAboveEdge(list, rows, edge);
      var older :| Among({list}, older) && older.day < after.value;
      assert older !in rows && older in list;
    }
  }

  lemma HeldAgrees(w: World, h: Held, list: seq<Row>)
    requires Sound(w) && HeldSound(w, h) && h.loaded && w.lists[ScopeOf(h)] == {list}
    ensures AgreesWith(h, list)
  {
    hide RowKey, Throughout, HasKey, HeldDownTo, DayText, EncodeCursor;
    var after :| HeldDownTo(w, w.lists[ScopeOf(h)], h.rows, after) && h.nextCursor == WireCursor(CursorAt(after));
    assert SoundLists(w, {list});
    HeldIsPrefix(w, list, h.rows, after);
  }

  /** Under every interleaving of an unchanging list's requests, what is held is a prefix of it. */
  lemma CacheAgreesWithList(w: World, user: Option<string>, category: Option<string>, steps: seq<Step>, list: seq<Row>)
    requires Sound(w)
    ensures var h := RunFromStart(w, user, category, steps).held;
            h.loaded ==>
              h.owner.Some? && ScopeOf(h) in w.lists
              && (w.lists[ScopeOf(h)] == {list} ==> AgreesWith(h, list))
  {
    hide RowKey, CursorAt, Throughout, HasKey, HeldDownTo, RunFromStart;
    RunIsSound(w, user, category, steps);
    var h := RunFromStart(w, user, category, steps).held;
    if h.loaded && w.lists[ScopeOf(h)] == {list} {
      HeldAgrees(w, h, list);
    }
  }

  // ---- a changing list ----

  /** Whatever the server's lists do, no row is shown twice and the rows stay newest first. */
  lemma NeverDoubled(w: World, user: Option<string>, category: Option<string>, steps: seq<Step>)
    requires Sound(w)
    ensures var h := RunFromStart(w, user, category, steps).held;
            h.loaded ==> Listed(h.rows)
                         && forall i, j :: 0 <= i < j < |h.rows| ==> RowKey(h.rows[i]) != RowKey(h.rows[j])
  {
    hide RowKey, CursorAt, Throughout, HasKey, RunFromStart;
    RunIsSound(w, user, category, steps);
    var h := RunFromStart(w, user, category, steps).held;
    if h.loaded {
      var lists := w.lists[ScopeOf(h)];
      assert SoundLists(w, lists);
      forall r | r in h.rows ensures r.day == w.dayOf(RowKey(r)) {
        assert Among(lists, r);
      }
      forall i, j | 0 <= i < j < |h.rows| ensures RowKey(h.rows[i]) != RowKey(h.rows[j]) {
        assert h.rows[i] in h.rows && h.rows[j] in h.rows;
      }
    }
  }

  /** A row listed all along is held once its date is reached; without a cursor every one is. */
  lemma NothingMissed(w: World, user: Option<string>, category: Option<string>, steps: seq<Step>, key: string)
    requires Sound(w)
    ensures var h := RunFromStart(w, user, category, steps).held;
            h.loaded && h.owner.Some? && ScopeOf(h) in w.lists && Throughout(w.lists[ScopeOf(h)], key) ==>
              exists after: Option<Day> ::
                h.nextCursor == WireCursor(CursorAt(after)) && (Reached(after, w.dayOf(key)) ==> HasKey(h.rows, key))
  {
    hide RowKey, Throughout, HasKey, RunFromStart, DayText, EncodeCursor;
    RunIsSound(w, user, category, steps);
    var h := RunFromStart(w, user, category, steps).held;
    if h.loaded && Throughout(w.lists[ScopeOf(h)], key) {
      var after :| HeldDownTo(w, w.lists[ScopeOf(h)], h.rows, after) && h.nextCursor == WireCursor(CursorAt(after));
    }
  }

  // ---- the guards ----

  /** Each flag says exactly whether its kind of request is on its way and still counts. */
  lemma BusyFlagsAreExact(w: World, user: Option<string>, category: Option<string>, steps: seq<Step>)
    requires Sound(w)
    ensures var s := RunFromStart(w, user, category, steps);
            && (s.firstBusy <==> exists n :: IsCurrentFirst(s, n))
            && (s.moreBusy <==> exists n :: IsCurrentMore(s, n))
            && !(s.firstBusy && s.moreBusy)
            && (s.flight == map[] ==> !s.firstBusy && !s.moreBusy)
  {
    hide HeldSound, RunFromStart;
    RunIsSound(w, user, category, steps);
    var s := RunFromStart(w, user, category, steps);
    assert forall n, m :: IsCurrent(s, n) && IsCurrent(s, m) ==> n == m;
    assert forall n, m :: !(IsCurrentFirst(s, n) && IsCurrentMore(s, m));
  }

  // ---- a screen that is gone ----

  ghost predicate StillGone(s: State, t: State) { !t.mounted && t.held == s.held && t.failure == s.failure }

  lemma LandingWhileGone(s: State, n: nat)
    requires !s.mounted && n in s.flight
    ensures StillGone(s, Landed(s, n))
  {
  }

  lemma AskingWhileGone(s: State, user: Option<string>, category: Option<string>, mode: Mode, auto: bool)
    requires !s.mounted
    ensures StillGone(s, AskFirst(s, user, category, mode)) && StillGone(s, AskMore(s, user, category, auto))
  {
  }

  lemma StepWhileGone(w: World, s: State, step: Step)
    requires !s.mounted && step != Mount
    ensures StillGone(s, Apply(w, s, step))
  {
    hide PageOf, Join, Landed, AskFirst, AskMore;
    if Possible(w, s, step) {
      match step
      case OpenFirst(user, category, mode) => AskingWhileGone(s, user, category, mode, false);
      case OpenMore(user, category, auto) => AskingWhileGone(s, user, category, Quiet, auto);
      case Answered(n, rows, chips) => LandingWhileGone(s, n);
      case Failed(n, kind) => LandingWhileGone(s, n);
      case Unmount =>
    }
  }

  /** Until the screen is back nothing it holds or says of a failure changes, whatever is asked or answered. */
  lemma {:induction false} NothingChangesWhileGone(w: World, s: State, steps: seq<Step>)
    requires !s.mounted && Mount !in steps
    ensures StillGone(s, Run(w, s, steps))
  {
    hide Apply;
    if steps == [] {
    } else {
      var rest, last := steps[..|steps| - 1], steps[|steps| - 1];
      assert last in steps;
      NothingChangesWhileGone(w, s, rest);
      StepWhileGone(w, Run(w, s, rest), last);
    }
  }

  // ---- what spins ----

  predicate IsPull(s: State, n: nat) { n in s.flight && s.flight[n].First? && s.flight[n].mode == Pull }

  /**
   The spinners: the one under the list is the flag's, a failed next page is not loading, and a pull's
   is a pull's.
   */
  ghost predicate SpinnersFit(s: State) {
    && s.mounted
    && s.loadingMore == s.moreBusy
    && !(s.moreFailed && s.moreBusy)
    && (s.refreshing ==> exists n :: IsPull(s, n))
    && forall n :: n in s.flight ==> n < s.sent
  }

  lemma AskKeepsSpinners(s: State, user: Option<string>, category: Option<string>, mode: Mode, auto: bool)
    requires SpinnersFit(s)
    ensures SpinnersFit(AskFirst(s, user, category, mode)) && SpinnersFit(AskMore(s, user, category, auto))
  {
    var t, u := AskFirst(s, user, category, mode), AskMore(s, user, category, auto);
    if s.refreshing {
      var n :| IsPull(s, n);
      assert IsPull(t, n) && IsPull(u, n);
    }
    assert user.Some? && mode == Pull ==> IsPull(t, s.sent);
  }

  lemma LandedKeepsSpinners(s: State, n: nat)
    requires SpinnersFit(s) && FlagsExact(s) && n in s.flight
    ensures SpinnersFit(Landed(s, n))
    ensures Counts(s, s.flight[n]) ==> !Landed(s, n).moreBusy
  {
    var t := Landed(s, n);
    if t.refreshing {
      var m :| IsPull(s, m);
      assert m != n && IsPull(t, m);
    }
    if s.moreBusy {
      var m :| IsCurrentMore(s, m);
      assert IsCurrent(s, n) ==> n == m;
    }
  }

  /** What an answer changes beyond landing: what is held and said, and a next page that failed. */
  ghost predicate ShownAfter(s: State, n: nat, t: State)
    requires n in s.flight
  {
    var u := Landed(s, n);
    && t.refreshing == u.refreshing && t.loadingMore == u.loadingMore && t.mounted == u.mounted
    && t.seqNo == u.seqNo && t.moreBusy == u.moreBusy && t.flight == u.flight && t.sent == u.sent
    && (t.moreFailed ==> Landed(s, n).moreFailed || Counts(s, s.flight[n]))
  }

  lemma FailShows(s: State, n: nat, kind: Failure)
    requires n in s.flight
    ensures ShownAfter(s, n, Fail(s, n, kind))
  {
    hide Landed;
  }

  lemma SucceedShows(s: State, n: nat, page: Page)
    requires n in s.flight
    ensures ShownAfter(s, n, Succeed(s, n, page))
  {
    hide Landed, Join;
  }

  lemma AnswerShows(s: State, n: nat, rows: seq<Row>, chips: seq<string>)
    requires n in s.flight
    ensures ShownAfter(s, n, Answer(s, n, rows, chips))
  {
    hide Landed, PageOf, Succeed, Fail, ShownAfter;
    FailShows(s, n, Generic);
    var read := PageOf(rows, chips, CursorOf(s.flight[n]), LimitOf(s.flight[n]));
    if read.Ok? {
      SucceedShows(s, n, read.value);
    }
  }

  lemma MountedAlready(s: State)
    requires SpinnersFit(s)
    ensures s.(mounted := true) == s
  {
  }

  lemma LandedThenShown(s: State, n: nat, t: State)
    requires n in s.flight && SpinnersFit(s) && FlagsExact(s) && ShownAfter(s, n, t)
    ensures SpinnersFit(t)
  {
    hide Landed, FlagsExact;
    LandedKeepsSpinners(s, n);
    var u := Landed(s, n);
    if t.refreshing {
      var m :| IsPull(u, m);
      assert IsPull(t, m);
    }
  }

  lemma StepKeepsSpinners(w: World, s: State, step: Step)
    requires SpinnersFit(s) && FlagsExact(s) && step != Unmount
    ensures SpinnersFit(Apply(w, s, step))
  {
    hide SpinnersFit, FlagsExact, ShownAfter, Answer, Fail, AskFirst, AskMore, Landed;
    if Possible(w, s, step) {
      match step
      case OpenFirst(user, category, mode) => AskKeepsSpinners(s, user, category, mode, false);
      case OpenMore(user, category, auto) => AskKeepsSpinners(s, user, category, Quiet, auto);
      case Answered(n, rows, chips) =>
        AnswerShows(s, n, rows, chips);
        LandedThenShown(s, n, Answer(s, n, rows, chips));
      case Failed(n, kind) =>
        FailShows(s, n, kind);
        LandedThenShown(s, n, Fail(s, n, kind));
      case Mount => MountedAlready(s);
    }
  }

  lemma InvHasFlags(w: World, s: State)
    requires Inv(w, s)
    ensures FlagsExact(s)
  {
  }

  lemma NothingSpins(user: Option<string>, category: Option<string>)
    ensures SpinnersFit(Start(user, category))
  {
  }

  /** While the screen is there no spinner is ever left on: each stands for a request on its way. */
  lemma {:induction false} SpinnersNeverStick(w: World, user: Option<string>, category: Option<string>,
                                              steps: seq<Step>)
    requires Sound(w) && Unmount !in steps
    ensures SpinnersFit(RunFromStart(w, user, category, steps))
  {
    hide SpinnersFit, Apply, Inv;
    if steps == [] {
      NothingSpins(user, category);
    } else {
      var rest, last := steps[..|steps| - 1], steps[|steps| - 1];
      SpinnersNeverStick(w, user, category, rest);
      RunIsSound(w, user, category, rest);
      assert FlagsExact(RunFromStart(w, user, category, rest)) by {
        InvHasFlags(w, RunFromStart(w, user, category, rest));
      }
      StepKeepsSpinners(w, RunFromStart(w, user, category, rest), last);
    }
  }

  /** A next page that will be joined was asked with the cursor of the very list it will be joined to. */
  lemma NextPageFitsHeld(w: World, user: Option<string>, category: Option<string>, steps: seq<Step>, n: nat)
    requires Sound(w)
    ensures var s := RunFromStart(w, user, category, steps);
            IsCurrentMore(s, n) ==>
              Holds(s.held, s.flight[n].scope) && s.held.nextCursor == Some(s.flight[n].cursor)
  {
    hide HeldSound, FlagsExact, RunFromStart;
    RunIsSound(w, user, category, steps);
  }

  lemma HeldAgreesRows(w: World, h: Held, list: seq<Row>)
    requires Sound(w) && HeldSound(w, h) && h.loaded && w.lists[ScopeOf(h)] == {list}
    ensures |h.rows| <= |list| && h.rows == list[..|h.rows|]
  {
    hide CursorAt, HeldDownTo, RowKey;
    HeldAgrees(w, h, list);
  }

  lemma FirstRows(list: seq<Row>, page: Page, after: Option<Day>, limit: nat)
    requires Listed(list) && PageIs(page, list, None, after)
    requires (after.Some? ==> |page.rows| == limit) && |page.rows| <= limit
    ensures |page.rows| <= |list| && page.rows == list[..|page.rows|] && (|page.rows| == limit || |page.rows| == |list|)
  {
    hide CursorAt, Listed;
    if after.None? {
      SameRows(page.rows, list);
    } else {
      var last := page.rows[|page.rows| - 1];
      assert last in page.rows;
      RowsAboveEdge(list, page.rows, last);
    }
  }

  /** A quiet reload of at most 50 rows of an unchanging list keeps every row that was shown. */
  lemma QuietReloadKeepsPlace(w: World, s: State, scope: Scope, list: seq<Row>, chips: seq<string>)
    requires Sound(w) && Inv(w, s) && s.mounted
    requires Holds(s.held, scope) && scope in w.lists && w.lists[scope] == {list}
    ensures var asked := AskFirst(s, Some(scope.owner), scope.category, Quiet);
            var shown := Answer(asked, s.sent, list, chips).held.rows;
            |s.held.rows| <= MAX_PAGE ==> s.held.rows <= shown
  {
    hide RowKey, Throughout, HasKey, HeldDownTo, CursorAt, PageOf, FlagsExact, MoreMatchesHeld;
    var limit := FirstLimit(s.held, scope, Quiet);
    assert list in w.lists[scope] && SoundLists(w, w.lists[scope]);
    CursorAtNone();
    var page, after := PageKeepsList(list, chips, "", None, limit);
    HeldAgreesRows(w, s.held, list);
    FirstRows(list, page, after, limit);
    var asked := AskFirst(s, Some(scope.owner), scope.category, Quiet);
    assert asked.flight[s.sent].mine == asked.seqNo;
    assert Answer(asked, s.sent, list, chips).held.rows == page.rows;
    assert |s.held.rows| <= MAX_PAGE ==> |s.held.rows| <= limit;
  }

  // ---- asking and getting the next page ----

  predicate Sends(s: State, t: State) { t.sent == s.sent + 1 }

  lemma NoneCurrent(s: State)
    requires FlagsExact(s)
    ensures !s.firstBusy && !s.moreBusy <==> forall n :: n in s.flight ==> s.flight[n].mine != s.seqNo
  {
    if forall n :: n in s.flight ==> s.flight[n].mine != s.seqNo {
      assert forall n :: !IsCurrentFirst(s, n) && !IsCurrentMore(s, n);
    }
    if !s.firstBusy && !s.moreBusy {
      NothingCurrent(s);
      forall n | n in s.flight ensures s.flight[n].mine != s.seqNo {
        assert !IsCurrent(s, n);
      }
    }
  }

  /**
   In every run a next page is asked exactly when rows of this account and chip are shown, the server has
   more, nothing that still counts is on its way, and no failed next page waits for a tap; it is asked
   with the cursor held, and asking changes nothing else but the line under the list.
   */
  lemma MoreIsAskedExactly(w: World, user: Option<string>, category: Option<string>, steps: seq<Step>,
                           asker: Option<string>, chip: Option<string>, auto: bool)
    requires Sound(w)
    ensures var s := RunFromStart(w, user, category, steps);
            var t := Apply(w, s, OpenMore(asker, chip, auto));
            && (Sends(s, t) <==>
                && asker.Some? && s.held.loaded && s.held.owner == asker && s.held.category == chip
                && s.held.nextCursor.Some?
                && (forall n :: n in s.flight ==> s.flight[n].mine != s.seqNo)
                && !(auto && s.moreFailed))
            && (!Sends(s, t) ==> t == s)
            && (Sends(s, t) ==>
                t == s.(moreBusy := true, loadingMore := true, moreFailed := false, sent := s.sent + 1,
                        flight := s.flight[s.sent := More(s.seqNo, Scope(asker.value, chip), s.held.nextCursor.value)]))
  {
    hide HeldSound, FlagsExact, RunFromStart;
    RunIsSound(w, user, category, steps);
    NoneCurrent(RunFromStart(w, user, category, steps));
  }

  /** Every row of a next page that counts is held after it, below those that were, with its chips and cursor. */
  lemma NextPageIsJoined(s: State, n: nat, page: Page, r: Row, i: nat)
    requires n in s.flight && s.flight[n].More? && Counts(s, s.flight[n])
    ensures var h := Succeed(s, n, page).held;
            && s.held.rows <= h.rows
            && (r in page.rows ==> HasKey(h.rows, RowKey(r)))
            && (|s.held.rows| <= i < |h.rows| ==> h.rows[i] in page.rows && !HasKey(s.held.rows, RowKey(h.rows[i])))
            && h.chips == page.chips
            && h.nextCursor == (if page.nextCursor == "" then None else Some(page.nextCursor))
            && h.owner == s.held.owner && h.category == s.held.category && h.loaded == s.held.loaded
  {
    hide RowKey;
    var unseen := Filter(page.rows, Unseen(s.held.rows));
    var h := Succeed(s, n, page).held;
    assert h.rows == s.held.rows + unseen;
    if |s.held.rows| <= i < |h.rows| {
      assert h.rows[i] == unseen[i - |s.held.rows|];
      assert h.rows[i] in unseen;
    }
    if r in page.rows {
      if r in unseen {
        assert r in h.rows;
      } else {
        var q :| q in s.held.rows && RowKey(q) == RowKey(r);
        assert q in h.rows;
      }
    }
  }

  lemma PageIsFor(w: World, lists: set<seq<Row>>, list: seq<Row>, before: Option<Day>, page: Page, after: Option<Day>)
    requires PageFor(w, lists, list, before, page, after)
    ensures SoundLists(w, lists)
  {
  }

  lemma NextRowsAreNew(w: World, lists: set<seq<Row>>, list: seq<Row>, rows: seq<Row>, before: Option<Day>, page: Page,
                       after: Option<Day>)
    requires before.Some? && HeldDownTo(w, lists, rows, before) && PageFor(w, lists, list, before, page, after)
    ensures Filter(page.rows, Unseen(rows)) == page.rows
  {
    hide RowKey, CursorAt, Listed, AmongDays, Throughout, PageFor;
    PageRows(w, lists, list, before, page, after);
    assert SoundLists(w, lists) by {
      PageIsFor(w, lists, list, before, page, after);
    }
    forall r | r in page.rows ensures Unseen(rows)(r) {
      assert Among(lists, r);
      forall q | q in rows ensures RowKey(q) != RowKey(r) {
        assert Among(lists, q);
      }
    }
    FilterAll(page.rows, Unseen(rows));
  }

  lemma JoinedRows(w: World, s: State, n: nat, list: seq<Row>, chips: seq<string>) returns (k: nat)
    requires Sound(w) && Inv(w, s) && s.mounted && IsCurrentMore(s, n)
    requires s.flight[n].scope in w.lists && w.lists[s.flight[n].scope] == {list}
    ensures var h := Answer(s, n, list, chips).held;
            && k <= 20 && |h.rows| == |s.held.rows| + k && (h.nextCursor.Some? ==> k == 20)
            && h.chips == chips && h.loaded && h.owner == s.held.owner && h.category == s.held.category
  {
    hide HeldDownTo, PageOf, PageIs, CursorAt, RowKey, Filter, FlagsExact;
    var q := s.flight[n];
    var lists := w.lists[q.scope];
    assert SoundLists(w, lists) && Holds(s.held, q.scope) && ScopeOf(s.held) == q.scope;
    CursorAtNone();
    var before :| HeldDownTo(w, lists, s.held.rows, before) && s.held.nextCursor == WireCursor(CursorAt(before));
    assert before.Some?;
    var page, after := PageKeepsList(list, chips, q.cursor, before, PAGE_SIZE);
    assert list in lists;
    NextRowsAreNew(w, lists, list, s.held.rows, before, page, after);
    PageCursor(page, list, before, after);
    k := |page.rows|;
  }

  lemma AgreesIs(h: Held, list: seq<Row>)
    requires AgreesWith(h, list)
    ensures |h.rows| <= |list| && h.rows == list[..|h.rows|] && (h.nextCursor.None? <==> |h.rows| == |list|)
  {
  }

  /** Over an unchanging list a next page that counts takes what is held from n rows to n + 20, or to the whole list. */
  lemma NextPageExtends(w: World, s: State, n: nat, list: seq<Row>, chips: seq<string>)
    requires Sound(w) && Inv(w, s) && s.mounted && IsCurrentMore(s, n)
    requires s.flight[n].scope in w.lists && w.lists[s.flight[n].scope] == {list}
    ensures var (h, g) := (s.held, Apply(w, s, Answered(n, list, chips)).held);
            && |h.rows| < |list|
            && g.rows == list[..if |h.rows| + 20 < |list| then |h.rows| + 20 else |list|]
            && (g.nextCursor.None? <==> |h.rows| + 20 >= |list|) && g.chips == chips
  {
    hide HeldSound, FlagsExact, Answer, AgreesWith;
    assert list in w.lists[s.flight[n].scope];
    var k := JoinedRows(w, s, n, list, chips);
    AnswerKeeps(w, s, n, list, chips);
    var g := Answer(s, n, list, chips).held;
    HeldAgrees(w, s.held, list);
    HeldAgrees(w, g, list);
    AgreesIs(s.held, list);
    AgreesIs(g, list);
  }

  /** How many rows a first page asks for: 20, but a quiet reload of what is shown as many as are, from 20 to 50. */
  function RowsAsked(h: Held, scope: Scope, mode: Mode): nat {
    if mode == Quiet && h.loaded && h.owner == Some(scope.owner) && h.category == scope.category && |h.rows| > 20 then
      if |h.rows| > 50 then 50 else |h.rows|
    else 20
  }

  /** A first page of an unchanging list shows its first rows, whatever was shown; what was shown stays until then. */
  lemma FirstPageShows(w: World, s: State, scope: Scope, mode: Mode, list: seq<Row>, chips: seq<string>)
    requires Sound(w) && Inv(w, s) && s.mounted && scope in w.lists && w.lists[scope] == {list}
    ensures var asked := Apply(w, s, OpenFirst(Some(scope.owner), scope.category, mode));
            var t, limit := Apply(w, asked, Answered(s.sent, list, chips)), RowsAsked(s.held, scope, mode);
            && asked.held == s.held
            && t.held.owner == Some(scope.owner) && t.held.category == scope.category && t.held.loaded
            && t.held.rows == list[..if limit < |list| then limit else |list|]
            && (t.held.nextCursor.None? <==> limit >= |list|)
            && t.held.chips == chips && t.status == Ready && !t.moreFailed && t.flight == s.flight - {s.sent}
            && t.mounted && t.sent == s.sent + 1
  {
    hide HeldSound, FlagsExact, MoreMatchesHeld, AgreesWith, PageOf, CursorAt, PageIs;
    var limit := FirstLimit(s.held, scope, mode);
    var asked := AskFirst(s, Some(scope.owner), scope.category, mode);
    assert list in w.lists[scope] && SoundLists(w, w.lists[scope]);
    AskFirstKeeps(w, s, Some(scope.owner), scope.category, mode);
    AnswerKeeps(w, asked, s.sent, list, chips);
    CursorAtNone();
    var page, after := PageKeepsList(list, chips, "", None, limit);
    FirstRows(list, page, after, limit);
    var t := Answer(asked, s.sent, list, chips);
    assert asked.flight[s.sent].mine == asked.seqNo && asked.flight[s.sent].First?;
    assert t.held.rows == page.rows && t.held.chips == page.chips;
    assert t.flight == s.flight - {s.sent};
    HeldAgrees(w, t.held, list);
    AgreesIs(t.held, list);
  }

  // ---- scrolling to the end ----

  /** The first page, then k times the end of the list comes into view and the next page arrives. */
  function Scroll(scope: Scope, list: seq<Row>, chips: seq<string>, k: nat): seq<Step> {
    if k == 0 then [OpenFirst(Some(scope.owner), scope.category, Quiet), Answered(0, list, chips)]
    else
      Scroll(scope, list, chips, k - 1)
      + [OpenMore(Some(scope.owner), scope.category, true), Answered(k, list, chips)]
  }

  ghost predicate Scrolled(s: State, scope: Scope, list: seq<Row>, chips: seq<string>, k: nat) {
    && s.mounted && s.flight == map[] && !s.moreFailed && Holds(s.held, scope)
    && s.held.rows == list[..if 20 * (k + 1) < |list| then 20 * (k + 1) else |list|]
    && (s.held.nextCursor.None? <==> 20 * (k + 1) >= |list|) && s.held.chips == chips
    && (s.held.nextCursor.Some? ==> s.sent == k + 1)
  }

  lemma RunOfTwoMore(w: World, s: State, steps: seq<Step>, a: Step, b: Step)
    ensures Run(w, s, steps + [a, b]) == Apply(w, Apply(w, Run(w, s, steps), a), b)
  {
    hide Apply;
    var all := steps + [a, b];
    assert all[..|all| - 1] == steps + [a] && (steps + [a])[..|steps|] == steps;
  }

  lemma ScrollStarts(w: World, scope: Scope, list: seq<Row>, chips: seq<string>)
    requires Sound(w) && scope in w.lists && w.lists[scope] == {list}
    ensures Scrolled(RunFromStart(w, Some(scope.owner), scope.category, Scroll(scope, list, chips, 0)),
                     scope, list, chips, 0)
  {
    hide Apply, Inv;
    var s := Start(Some(scope.owner), scope.category);
    StartIsSound(w, Some(scope.owner), scope.category);
    FirstPageShows(w, s, scope, Quiet, list, chips);
    RunOfTwoMore(w, s, [], OpenFirst(Some(scope.owner), scope.category, Quiet), Answered(0, list, chips));
    assert [] + [OpenFirst(Some(scope.owner), scope.category, Quiet), Answered(0, list, chips)] ==
           Scroll(scope, list, chips, 0);
  }

  lemma AnswerFrame(s: State, n: nat, list: seq<Row>, chips: seq<string>)
    requires n in s.flight && IsCurrentMore(s, n) && s.mounted && !s.moreFailed
    requires Answer(s, n, list, chips).held.rows != s.held.rows
    ensures var t := Answer(s, n, list, chips);
            && t.flight == s.flight - {n} && t.mounted && t.sent == s.sent && !t.moreFailed
            && t.held.owner == s.held.owner && t.held.category == s.held.category && t.held.loaded == s.held.loaded
  {
  }

  lemma ScrollGoesOn(w: World, s: State, scope: Scope, list: seq<Row>, chips: seq<string>, k: nat)
    requires Sound(w) && Inv(w, s) && scope in w.lists && w.lists[scope] == {list} && Scrolled(s, scope, list, chips, k)
    ensures Scrolled(Apply(w, Apply(w, s, OpenMore(Some(scope.owner), scope.category, true)),
                            Answered(k + 1, list, chips)), scope, list, chips, k + 1)
  {
    hide HeldSound, Answer;
    if s.held.nextCursor.Some? {
      NoneCurrent(s);
      var asked := AskMore(s, Some(scope.owner), scope.category, true);
      var q := More(s.seqNo, scope, s.held.nextCursor.value);
      assert asked.flight == map[s.sent := q];
      AskMoreKeeps(w, s, Some(scope.owner), scope.category, true);
      NextPageExtends(w, asked, s.sent, list, chips);
      AnswerFrame(asked, s.sent, list, chips);
    }
  }

  /** Scrolling on shows 20 more rows a page, and ends with the whole list and no cursor. */
  lemma {:induction false} ScrollsToEnd(w: World, scope: Scope, list: seq<Row>, chips: seq<string>, k: nat)
    requires Sound(w) && scope in w.lists && w.lists[scope] == {list}
    ensures var h := RunFromStart(w, Some(scope.owner), scope.category, Scroll(scope, list, chips, k)).held;
            && h.rows == list[..if 20 * (k + 1) < |list| then 20 * (k + 1) else |list|]
            && (h.nextCursor.None? <==> 20 * (k + 1) >= |list|)
    ensures Scrolled(RunFromStart(w, Some(scope.owner), scope.category, Scroll(scope, list, chips, k)),
                     scope, list, chips, k)
  {
    hide Apply, Inv, Run;
    if k == 0 {
      ScrollStarts(w, scope, list, chips);
    } else {
      ScrollsToEnd(w, scope, list, chips, k - 1);
      RunIsSound(w, Some(scope.owner), scope.category, Scroll(scope, list, chips, k - 1));
      var s := RunFromStart(w, Some(scope.owner), scope.category, Scroll(scope, list, chips, k - 1));
      ScrollGoesOn(w, s, scope, list, chips, k - 1);
      RunOfTwoMore(w, Start(Some(scope.owner), scope.category), Scroll(scope, list, chips, k - 1),
                   OpenMore(Some(scope.owner), scope.category, true), Answered(k, list, chips));
    }
  }

  // ---- what is said of it ----

  /** The request a step answers or fails, if it is on its way. */
  function Lands(w: World, s: State, step: Step): Option<nat> {
    if !Possible(w, s, step) then None
    else match step
      case Answered(n, _, _) => Some(n)
      case Failed(n, _) => Some(n)
      case _ => None
  }

  /** A step lands the request it still counts for, a first page or a next one, well or not. */
  predicate Arrives(w: World, s: State, step: Step, first: bool, well: bool) {
    && Lands(w, s, step).Some?
    && var q := s.flight[Lands(w, s, step).value];
    && s.mounted && q.mine == s.seqNo && q.First? == first
    && well == (step.Answered? && PageOf(step.rows, step.chips, CursorOf(q), LimitOf(q)).Ok?)
  }

  predicate PullLands(w: World, s: State, step: Step) {
    Lands(w, s, step).Some? && s.mounted && IsPull(s, Lands(w, s, step).value)
  }

  predicate Begins(step: Step, mode: Mode) { step.OpenFirst? && step.user.Some? && step.mode == mode }

  /** Something of the person who asked the first page is shown. */
  predicate ShowsAsker(w: World, s: State, step: Step)
    requires Lands(w, s, step).Some?
  {
    s.held.loaded && s.held.owner == Some(s.flight[Lands(w, s, step).value].scope.owner)
  }

  predicate CountsFirst(s: State, n: nat)
    requires n in s.flight
  {
    s.mounted && s.flight[n].mine == s.seqNo && s.flight[n].First?
  }

  predicate ShowsOwner(s: State, n: nat)
    requires n in s.flight
  {
    s.held.loaded && s.held.owner == Some(s.flight[n].scope.owner)
  }

  lemma SucceedStatus(s: State, n: nat, page: Page)
    requires n in s.flight
    ensures var t := Succeed(s, n, page);
            t.status == (if CountsFirst(s, n) then Ready else s.status) && t.failure == s.failure
  {
    hide Join;
  }

  lemma FailStatus(s: State, n: nat, kind: Failure)
    requires n in s.flight
    ensures var t := Fail(s, n, kind);
            && t.status == (if CountsFirst(s, n) && !ShowsOwner(s, n) then Offline else s.status)
            && t.failure == (if CountsFirst(s, n) && !ShowsOwner(s, n) then kind else s.failure)
  {
  }

  lemma AnswerStatus(s: State, n: nat, rows: seq<Row>, chips: seq<string>)
    requires n in s.flight
    ensures var t := Answer(s, n, rows, chips);
            var well := PageOf(rows, chips, CursorOf(s.flight[n]), LimitOf(s.flight[n])).Ok?;
            var lost := CountsFirst(s, n) && !ShowsOwner(s, n) && !well;
            && t.status == (if CountsFirst(s, n) && well then Ready else if lost then Offline else s.status)
            && t.failure == (if lost then Generic else s.failure)
  {
    hide PageOf, Succeed, Fail, CountsFirst, ShowsOwner;
    FailStatus(s, n, Generic);
    var read := PageOf(rows, chips, CursorOf(s.flight[n]), LimitOf(s.flight[n]));
    if read.Ok? {
      SucceedStatus(s, n, read.value);
    }
  }

  lemma AskStatus(s: State, user: Option<string>, category: Option<string>, mode: Mode, auto: bool)
    ensures var t := AskFirst(s, user, category, mode);
            t.status == (if user.Some? && mode == Retry then Loading else s.status) && t.failure == s.failure
    ensures var t := AskMore(s, user, category, auto); t.status == s.status && t.failure == s.failure
  {
  }

  /**
   Of each step: the list is loading from a tap on Try again, ready from a first page that counts, and
   offline from one that fails with nothing of its person shown, and as it was else.
   */
  lemma StatusIsExact(w: World, s: State, step: Step)
    ensures var t := Apply(w, s, step);
            t.status == if Begins(step, Retry) then Loading
                        else if Arrives(w, s, step, true, true) then Ready
                        else if Arrives(w, s, step, true, false) && !ShowsAsker(w, s, step) then Offline
                        else s.status
    ensures var t := Apply(w, s, step);
            t.failure == if Arrives(w, s, step, true, false) && !ShowsAsker(w, s, step) then
                           (if step.Failed? then step.kind else Generic)
                         else s.failure
  {
    hide PageOf, Answer, Fail, AskFirst, AskMore, Counts;
    match step
    case OpenFirst(user, category, mode) => AskStatus(s, user, category, mode, false);
    case OpenMore(user, category, auto) => AskStatus(s, user, category, Quiet, auto);
    case Answered(n, rows, chips) =>
      if Possible(w, s, step) {
        AnswerStatus(s, n, rows, chips);
      }
    case Failed(n, kind) =>
      if Possible(w, s, step) {
        FailStatus(s, n, kind);
      }
    case _ =>
  }

  lemma LandedPull(s: State, n: nat)
    requires n in s.flight
    ensures Landed(s, n).refreshing == (s.refreshing && !(s.mounted && IsPull(s, n)))
  {
  }

  lemma AskPull(s: State, user: Option<string>, category: Option<string>, mode: Mode, auto: bool)
    ensures AskFirst(s, user, category, mode).refreshing == (s.refreshing || (user.Some? && mode == Pull))
    ensures AskMore(s, user, category, auto).refreshing == s.refreshing
  {
  }

  /** Of each step: the pull spinner goes up with a pull and down with any pull that lands. */
  lemma PullSpinnerIsExact(w: World, s: State, step: Step)
    ensures Apply(w, s, step).refreshing <==> (s.refreshing || Begins(step, Pull)) && !PullLands(w, s, step)
  {
    hide Answer, Fail, Landed, AskFirst, AskMore, IsPull;
    match step
    case OpenFirst(user, category, mode) => AskPull(s, user, category, mode, false);
    case OpenMore(user, category, auto) => AskPull(s, user, category, Quiet, auto);
    case Answered(n, rows, chips) =>
      if Possible(w, s, step) {
        AnswerShows(s, n, rows, chips);
        LandedPull(s, n);
      }
    case Failed(n, kind) =>
      if Possible(w, s, step) {
        FailShows(s, n, kind);
        LandedPull(s, n);
      }
    case _ =>
  }

  lemma SucceedLine(s: State, n: nat, page: Page)
    requires n in s.flight
    ensures Succeed(s, n, page).moreFailed == (s.moreFailed && !(Counts(s, s.flight[n]) && s.flight[n].First?))
  {
    hide Join;
  }

  lemma FailLine(s: State, n: nat, kind: Failure)
    requires n in s.flight
    ensures Fail(s, n, kind).moreFailed == (s.moreFailed || (Counts(s, s.flight[n]) && s.flight[n].More?))
  {
  }

  lemma AnswerLine(s: State, n: nat, rows: seq<Row>, chips: seq<string>)
    requires n in s.flight
    ensures var q := s.flight[n];
            Answer(s, n, rows, chips).moreFailed ==
            if PageOf(rows, chips, CursorOf(q), LimitOf(q)).Ok? then s.moreFailed && !(Counts(s, q) && q.First?)
            else s.moreFailed || (Counts(s, q) && q.More?)
  {
    hide PageOf, Succeed, Fail;
    FailLine(s, n, Generic);
    var read := PageOf(rows, chips, CursorOf(s.flight[n]), LimitOf(s.flight[n]));
    if read.Ok? {
      SucceedLine(s, n, read.value);
    }
  }

  lemma AskLine(s: State, user: Option<string>, category: Option<string>, mode: Mode, auto: bool)
    ensures AskFirst(s, user, category, mode).moreFailed == s.moreFailed
    ensures var t := AskMore(s, user, category, auto); t.moreFailed == (s.moreFailed && !Sends(s, t))
  {
  }

  /**
   Of each step: the line under the list says a next page failed from when it does until one is asked
   again or a first page arrives.
   */
  lemma MoreFailedIsExact(w: World, s: State, step: Step)
    ensures Apply(w, s, step).moreFailed <==>
            || (s.moreFailed && !Arrives(w, s, step, true, true) && !(step.OpenMore? && Sends(s, Apply(w, s, step))))
            || Arrives(w, s, step, false, false)
  {
    hide PageOf, Answer, Fail, AskFirst, AskMore;
    match step
    case OpenFirst(user, category, mode) => AskLine(s, user, category, mode, false);
    case OpenMore(user, category, auto) => AskLine(s, user, category, Quiet, auto);
    case Answered(n, rows, chips) =>
      if Possible(w, s, step) {
        AnswerLine(s, n, rows, chips);
      }
    case Failed(n, kind) =>
      if Possible(w, s, step) {
        FailLine(s, n, kind);
      }
    case _ =>
  }

  // ---- 'offline' only when nothing is on screen ----

  predicate Shows(s: State, user: string) { s.held.loaded && s.held.owner == Some(user) }

  ghost predicate OneAccount(steps: seq<Step>, user: string) {
    forall i :: 0 <= i < |steps| ==> (steps[i].OpenFirst? ==> steps[i].user.None? || steps[i].user == Some(user))
  }

  ghost predicate OnlyOf(s: State, user: string) {
    && (s.status == Offline ==> !Shows(s, user))
    && (forall n :: n in s.flight && s.flight[n].First? ==> s.flight[n].scope.owner == user)
  }

  lemma AskStaysOnlyOf(s: State, asker: Option<string>, category: Option<string>, mode: Mode, auto: bool, user: string)
    requires OnlyOf(s, user)
    ensures asker.None? || asker == Some(user) ==> OnlyOf(AskFirst(s, asker, category, mode), user)
    ensures OnlyOf(AskMore(s, asker, category, auto), user)
  {
  }

  lemma SucceedStaysOnlyOf(s: State, n: nat, page: Page, user: string)
    requires OnlyOf(s, user) && n in s.flight
    ensures OnlyOf(Succeed(s, n, page), user)
  {
    hide RowKey;
  }

  lemma FailStaysOnlyOf(s: State, n: nat, kind: Failure, user: string)
    requires OnlyOf(s, user) && n in s.flight
    ensures OnlyOf(Fail(s, n, kind), user)
  {
  }

  lemma MountStaysOnlyOf(s: State, user: string)
    requires OnlyOf(s, user)
    ensures OnlyOf(s.(mounted := true), user) && OnlyOf(s.(mounted := false), user)
  {
  }

  lemma StepStaysOnlyOf(w: World, s: State, step: Step, user: string)
    requires OnlyOf(s, user) && (step.OpenFirst? ==> step.user.None? || step.user == Some(user))
    ensures OnlyOf(Apply(w, s, step), user)
  {
    hide PageOf, OnlyOf, Succeed, Fail, AskFirst, AskMore;
    if Possible(w, s, step) {
      match step
      case OpenFirst(_, category, mode) => AskStaysOnlyOf(s, step.user, category, mode, true, user);
      case OpenMore(asker, category, auto) => AskStaysOnlyOf(s, asker, category, Quiet, auto, user);
      case Answered(n, rows, chips) =>
        match PageOf(rows, chips, CursorOf(s.flight[n]), LimitOf(s.flight[n])) {
          case Ok(page) => SucceedStaysOnlyOf(s, n, page, user);
          case Err(_) => FailStaysOnlyOf(s, n, Generic, user);
        }
      case Failed(n, kind) => FailStaysOnlyOf(s, n, kind, user);
      case _ => MountStaysOnlyOf(s, user);
    }
  }

  lemma StartIsOnlyOf(user: string, category: Option<string>)
    ensures OnlyOf(Start(Some(user), category), user)
  {
  }

  /** With one account the failure line never covers rows that are shown. */
  lemma {:induction false} OfflineShowsNothing(w: World, user: string, category: Option<string>, steps: seq<Step>)
    requires OneAccount(steps, user)
    ensures OnlyOf(RunFromStart(w, Some(user), category, steps), user)
  {
    hide Apply, OnlyOf;
    if steps == [] {
      StartIsOnlyOf(user, category);
    } else {
      var before := steps[..|steps| - 1];
      OfflineShowsNothing(w, user, category, before);
      StepStaysOnlyOf(w, RunFromStart(w, Some(user), category, before), steps[|steps| - 1], user);
    }
  }

  /** A first page that fails covers another account's rows, and only then. */
  lemma FailureCoversOthersRows(s: State, n: nat, kind: Failure, user: string)
    requires n in s.flight && s.flight[n].First? && Counts(s, s.flight[n]) && s.status != Offline
    ensures Fail(s, n, kind).status == Offline && Shows(Fail(s, n, kind), user)
            <==> Shows(s, user) && s.flight[n].scope.owner != user
  {
  }

  lemma RunOfFour(w: World, s: State, a: Step, b: Step, c: Step, d: Step)
    ensures Run(w, s, [a, b, c, d]) == Apply(w, Apply(w, Apply(w, Apply(w, s, a), b), c), d)
  {
    hide Apply;
    var steps := [a, b, c, d];
    assert steps[..3] == [a, b, c] && [a, b, c][..2] == [a, b] && [a, b][..1] == [a] && [a][..0] == [];
    assert Run(w, s, [a]) == Apply(w, s, a);
    assert Run(w, s, [a, b]) == Apply(w, Run(w, s, [a]), b);
    assert Run(w, s, [a, b, c]) == Apply(w, Run(w, s, [a, b]), c);
  }

  function OnlyAnns(row: Row): World { World(map[Scope("ann", None) := {[row]}], _ => row.day) }

  lemma AnnIsShown(row: Row)
    ensures var s := Apply(OnlyAnns(row), AskFirst(Start(Some("ann"), None), Some("ann"), None, Quiet),
                           Answered(0, [row], []));
            && s.held == Held(Some("ann"), None, [row], [], None, true)
            && s.status == Ready && s.mounted && s.seqNo == 1 && s.sent == 1
  {
    hide RowKey, Join;
    assert PageOf([row], [], "", PAGE_SIZE) == Ok(Page([row], "", []));
  }

  lemma BobsLoadFails(w: World, s: State)
    requires s.mounted && s.held.owner == Some("ann") && s.sent == 1
    ensures var t := Apply(w, AskFirst(s, Some("bob"), None, Quiet), Failed(1, Network));
            t.status == Offline && t.held == s.held
  {
    hide PageOf, Join;
  }

  /** With two accounts it can: the first one's rows, then the second one's failed load. */
  lemma OfflineOverRows(row: Row)
    ensures var steps := [OpenFirst(Some("ann"), None, Quiet), Answered(0, [row], []),
                          OpenFirst(Some("bob"), None, Quiet), Failed(1, Network)];
            var s := RunFromStart(OnlyAnns(row), Some("ann"), None, steps);
            s.status == Offline && Shows(s, "ann") && s.held.rows == [row]
  {
    hide Run, AskFirst, Succeed, Fail, Answer;
    var w, s0 := OnlyAnns(row), Start(Some("ann"), None);
    RunOfFour(w, s0, OpenFirst(Some("ann"), None, Quiet), Answered(0, [row], []),
              OpenFirst(Some("bob"), None, Quiet), Failed(1, Network));
    AnnIsShown(row);
    BobsLoadFails(w, Apply(w, AskFirst(s0, Some("ann"), None, Quiet), Answered(0, [row], [])));
  }
}
