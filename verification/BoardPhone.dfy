/**
 The Board on the phone: first pages that supersede one another and next pages joined to what is
 held. Nothing here stops a next page from being asked while a first page is on its way, so what is
 held is a prefix of the Board only in the runs where that does not happen.
 */
module BoardPhone {
  import opened Options
  import opened Sequences
  import opened BoardMerge
  import opened BoardPages

  const PAGE_DAYS := 5

  datatype Mode = Quiet | Pull | Retry
  datatype Status = Loading | Ready | Offline
  datatype Failure = Network | Generic

  datatype Held = Held(owner: Option<string>, board: Option<Page>)

  datatype Request =
    | First(mine: nat, owner: string, mode: Mode)
    | More(mine: nat, owner: string, before: int)

  datatype State = State(
    held: Held, status: Status, failure: Failure, refreshing: bool, loadingMore: bool, moreFailed: bool,
    seqNo: nat, moreBusy: bool, mounted: bool, flight: map<nat, Request>, sent: nat)

  function Start(user: Option<string>): State {
    State(Held(user, None), Loading, Network, false, false, false, 0, false, true, map[], 0)
  }

  function AskFirst(s: State, user: Option<string>, mode: Mode): State {
    if user.None? then s
    else
      s.(seqNo := s.seqNo + 1, moreBusy := false, loadingMore := false,
         refreshing := s.refreshing || mode == Pull,
         status := if mode == Retry then Loading else s.status,
         flight := s.flight[s.sent := First(s.seqNo + 1, user.value, mode)], sent := s.sent + 1)
  }

  function NextBefore(h: Held): Option<int> { if h.board.Some? then h.board.value.nextBefore else None }

  function AskMore(s: State, user: Option<string>): State {
    var before := NextBefore(s.held);
    if user.None? || before.None? || s.moreBusy || s.held.owner != user then s
    else
      s.(moreBusy := true, loadingMore := true, moreFailed := false,
         flight := s.flight[s.sent := More(s.seqNo, user.value, before.value)], sent := s.sent + 1)
  }

  predicate Counts(s: State, q: Request) { s.mounted && q.mine == s.seqNo }

  /** A next page joined to whatever is held when it arrives. */
  function Join(s: State, owner: string, page: Page): Held {
    if s.held.board.None? then s.held
    else Held(Some(owner), Some(Page(MergeDays(s.held.board.value.days, page.days), page.nextBefore)))
  }

  function Landed(s: State, n: nat): State
    requires n in s.flight
  {
    var q := s.flight[n];
    var current := q.mine == s.seqNo;
    var t := s.(flight := s.flight - {n});
    match q
    case First(_, _, mode) => t.(refreshing := s.refreshing && !(s.mounted && mode == Pull))
    case More(_, _, _) =>
      t.(moreBusy := s.moreBusy && !current, loadingMore := s.loadingMore && !(current && s.mounted))
  }

  function Succeed(s: State, n: nat, page: Page): State
    requires n in s.flight
  {
    var q, t := s.flight[n], Landed(s, n);
    if !Counts(s, q) then t
    else match q
      case First(_, owner, _) => t.(held := Held(Some(owner), Some(page)), moreFailed := false, status := Ready)
      case More(_, owner, _) => t.(held := Join(s, owner, page))
  }

  function Fail(s: State, n: nat, kind: Failure): State
    requires n in s.flight
  {
    var q, t := s.flight[n], Landed(s, n);
    if !Counts(s, q) then t
    else match q
      case First(_, owner, _) =>
        if s.held.board.Some? && s.held.owner == Some(owner) then t else t.(failure := kind, status := Offline)
      case More(_, _, _) => t.(moreFailed := true)
  }

  function ChangeAccount(s: State, user: Option<string>): State {
    if s.held.owner == user then s else s.(held := Held(user, None), status := Loading)
  }

  datatype Step =
    | OpenFirst(user: Option<string>, mode: Mode)
    | OpenMore(user: Option<string>)
    | Answered(n: nat, view: View)
    | Failed(n: nat, kind: Failure)
    | Account(user: Option<string>)
    | Mounted(now: bool)

  /** Every state each person's Board may be read in, at the moments it answers. */
  type World = map<string, set<View>>

  function BeforeOf(q: Request): Option<int> { if q.First? then None else Some(q.before) }

  predicate Possible(w: World, s: State, step: Step) {
    match step
    case Answered(n, view) => n in s.flight && s.flight[n].owner in w && view in w[s.flight[n].owner]
    case Failed(n, _) => n in s.flight
    case _ => true
  }

  function Apply(w: World, s: State, step: Step): State {
    if !Possible(w, s, step) then s
    else match step
      case OpenFirst(user, mode) => AskFirst(s, user, mode)
      case OpenMore(user) => AskMore(s, user)
      case Answered(n, view) => Succeed(s, n, PageOf(view, BeforeOf(s.flight[n]), PAGE_DAYS))
      case Failed(n, kind) => Fail(s, n, kind)
      case Account(user) => ChangeAccount(s, user)
      case Mounted(now) => s.(mounted := now)
  }

  function Run(w: World, s: State, steps: seq<Step>): State {
    if steps == [] then s else Apply(w, Run(w, s, steps[..|steps| - 1]), steps[|steps| - 1])
  }

  // ---- the busy flag, in every run ----

  predicate IsCurrent(s: State, n: nat) { n in s.flight && s.flight[n].mine == s.seqNo }
  predicate IsCurrentFirst(s: State, n: nat) { IsCurrent(s, n) && s.flight[n].First? }
  predicate IsCurrentMore(s: State, n: nat) { IsCurrent(s, n) && s.flight[n].More? }

  ghost predicate BusyExact(s: State) {
    && (forall n :: n in s.flight ==> n < s.sent && s.flight[n].mine <= s.seqNo)
    && (forall n, m :: IsCurrentMore(s, n) && IsCurrentMore(s, m) ==> n == m)
    && (s.moreBusy <==> exists n :: IsCurrentMore(s, n))
  }

  /** What an answer or a failure does to the requests themselves. */
  lemma AnswerFrame(s: State, n: nat, page: Page)
    requires n in s.flight
    ensures var t := Succeed(s, n, page);
            && t.flight == s.flight - {n} && t.sent == s.sent && t.seqNo == s.seqNo
            && t.moreBusy == Landed(s, n).moreBusy
            && (t.held == s.held || IsCurrent(s, n))
  {
    hide Join;
  }

  lemma FailureFrame(s: State, n: nat, kind: Failure)
    requires n in s.flight
    ensures var t := Fail(s, n, kind);
            && t.flight == s.flight - {n} && t.sent == s.sent && t.seqNo == s.seqNo
            && t.moreBusy == Landed(s, n).moreBusy
            && t.held == s.held
  {
  }

  lemma LandingKeepsBusy(s: State, n: nat, t: State)
    requires BusyExact(s) && n in s.flight
    requires t.flight == s.flight - {n} && t.sent == s.sent && t.seqNo == s.seqNo && t.moreBusy == Landed(s, n).moreBusy
    ensures BusyExact(t)
  {
    assert forall m :: IsCurrentMore(t, m) <==> IsCurrentMore(s, m) && m != n;
    if IsCurrentMore(s, n) {
      assert !t.moreBusy;
    } else if s.moreBusy {
      var k :| IsCurrentMore(s, k);
      assert IsCurrentMore(t, k);
    }
  }

  lemma AskFirstKeepsBusy(s: State, user: Option<string>, mode: Mode)
    requires BusyExact(s)
    ensures BusyExact(AskFirst(s, user, mode))
  {
    var t := AskFirst(s, user, mode);
    if user.Some? {
      assert forall n :: IsCurrent(t, n) ==> n == s.sent;
    }
  }

  lemma AskMoreKeepsBusy(s: State, user: Option<string>)
    requires BusyExact(s)
    ensures BusyExact(AskMore(s, user))
  {
    var t := AskMore(s, user);
    if t != s {
      assert IsCurrentMore(t, s.sent);
      forall n | IsCurrentMore(t, n) ensures n == s.sent {
        assert n != s.sent ==> IsCurrentMore(s, n);
      }
    }
  }

  lemma SameFlightKeepsBusy(s: State, t: State)
    requires BusyExact(s) && t.flight == s.flight && t.sent == s.sent && t.seqNo == s.seqNo && t.moreBusy == s.moreBusy
    ensures BusyExact(t)
  {
    assert forall n :: IsCurrentMore(t, n) <==> IsCurrentMore(s, n);
  }

  lemma StepKeepsBusy(w: World, s: State, step: Step)
    requires BusyExact(s)
    ensures BusyExact(Apply(w, s, step))
  {
    hide PageOf, AskFirst, AskMore, BusyExact, Succeed, Fail, Landed;
    if Possible(w, s, step) {
      match step
      case OpenFirst(user, mode) => AskFirstKeepsBusy(s, user, mode);
      case OpenMore(user) => AskMoreKeepsBusy(s, user);
      case Answered(n, view) =>
        AnswerFrame(s, n, PageOf(view, BeforeOf(s.flight[n]), PAGE_DAYS));
        LandingKeepsBusy(s, n, Apply(w, s, step));
      case Failed(n, kind) =>
        FailureFrame(s, n, kind);
        LandingKeepsBusy(s, n, Apply(w, s, step));
      case _ => SameFlightKeepsBusy(s, Apply(w, s, step));
    }
  }

  /** In every run, raced or not, the flag is up exactly while a next page that still counts is on its way. */
  lemma {:induction false} BusyIsExact(w: World, user: Option<string>, steps: seq<Step>)
    ensures BusyExact(Run(w, Start(user), steps))
  {
    hide Apply;
    if steps == [] {
    } else {
      BusyIsExact(w, user, steps[..|steps| - 1]);
      StepKeepsBusy(w, Run(w, Start(user), steps[..|steps| - 1]), steps[|steps| - 1]);
    }
  }

  predicate IsPull(s: State, n: nat) { n in s.flight && s.flight[n].First? && s.flight[n].mode == Pull }

  ghost predicate SpinnersFit(s: State) {
    && s.mounted
    && s.loadingMore == s.moreBusy
    && !(s.moreFailed && s.moreBusy)
    && (s.refreshing ==> exists n :: IsPull(s, n))
    && forall n :: n in s.flight ==> n < s.sent
  }

  lemma AskKeepsSpinners(s: State, user: Option<string>, mode: Mode)
    requires SpinnersFit(s)
    ensures SpinnersFit(AskFirst(s, user, mode)) && SpinnersFit(AskMore(s, user))
  {
    var t, u := AskFirst(s, user, mode), AskMore(s, user);
    if s.refreshing {
      var n :| IsPull(s, n);
      assert IsPull(t, n) && IsPull(u, n);
    }
    assert user.Some? && mode == Pull ==> IsPull(t, s.sent);
  }

  /** What an answer changes beyond landing: what is held and said, and a next page that failed. */
  ghost predicate ShownAfter(s: State, n: nat, t: State)
    requires n in s.flight
  {
    var u := Landed(s, n);
    && t.refreshing == u.refreshing && t.loadingMore == u.loadingMore && t.mounted == u.mounted
    && t.seqNo == u.seqNo && t.moreBusy == u.moreBusy && t.flight == u.flight && t.sent == u.sent
    && (t.moreFailed ==> s.moreFailed || IsCurrentMore(s, n))
  }

  lemma LandedKeepsFailed(s: State, n: nat)
    requires n in s.flight
    ensures Landed(s, n).moreFailed == s.moreFailed
  {
  }

  lemma FailShows(s: State, n: nat, kind: Failure)
    requires n in s.flight
    ensures ShownAfter(s, n, Fail(s, n, kind))
  {
    LandedKeepsFailed(s, n);
    hide Landed;
  }

  lemma SucceedShows(s: State, n: nat, page: Page)
    requires n in s.flight
    ensures ShownAfter(s, n, Succeed(s, n, page))
  {
    LandedKeepsFailed(s, n);
    hide Landed, Join;
  }

  lemma LandingKeepsSpinners(s: State, n: nat, t: State)
    requires SpinnersFit(s) && BusyExact(s) && n in s.flight && ShownAfter(s, n, t)
    ensures SpinnersFit(t)
  {
    if t.refreshing {
      var m :| IsPull(s, m);
      assert m != n && IsPull(t, m);
    }
    if s.moreBusy {
      var m :| IsCurrentMore(s, m);
      assert IsCurrentMore(s, n) ==> n == m;
    }
  }

  lemma AccountKeepsSpinners(s: State, user: Option<string>)
    requires SpinnersFit(s)
    ensures SpinnersFit(ChangeAccount(s, user))
  {
    var t := ChangeAccount(s, user);
    assert forall n :: IsPull(s, n) ==> IsPull(t, n);
  }

  lemma IsMounted(s: State)
    requires SpinnersFit(s)
    ensures s.(mounted := true) == s
  {
  }

  lemma StepKeepsSpinners(w: World, s: State, step: Step)
    requires SpinnersFit(s) && BusyExact(s) && step != Mounted(false)
    ensures SpinnersFit(Apply(w, s, step))
  {
    hide SpinnersFit, BusyExact, ShownAfter, PageOf, AskFirst, AskMore, Succeed, Fail, ChangeAccount;
    if Possible(w, s, step) {
      match step
      case OpenFirst(user, mode) => AskKeepsSpinners(s, user, mode);
      case OpenMore(user) => AskKeepsSpinners(s, user, Quiet);
      case Answered(n, view) =>
        SucceedShows(s, n, PageOf(view, BeforeOf(s.flight[n]), PAGE_DAYS));
        LandingKeepsSpinners(s, n, Apply(w, s, step));
      case Failed(n, kind) =>
        FailShows(s, n, kind);
        LandingKeepsSpinners(s, n, Apply(w, s, step));
      case Account(user) => AccountKeepsSpinners(s, user);
      case Mounted(now) => IsMounted(s);
    }
  }

  lemma NothingSpins(user: Option<string>)
    ensures SpinnersFit(Start(user))
  {
  }

  /** While the screen is there no spinner is ever left on: each stands for a request on its way. */
  lemma {:induction false} SpinnersNeverStick(w: World, user: Option<string>, steps: seq<Step>)
    requires Mounted(false) !in steps
    ensures SpinnersFit(Run(w, Start(user), steps))
  {
    hide SpinnersFit, Apply;
    if steps == [] {
      NothingSpins(user);
    } else {
      var rest, last := steps[..|steps| - 1], steps[|steps| - 1];
      SpinnersNeverStick(w, user, rest);
      BusyIsExact(w, user, rest);
      StepKeepsSpinners(w, Run(w, Start(user), rest), last);
    }
  }

  // ---- nothing twice, in every run ----

  /** Each state a Board is read in has no date and no entry twice. */
  ghost predicate ProperWorld(w: World) { forall u, v :: u in w && v in w[u] ==> ProperView(v) }

  ghost predicate HeldIsProper(h: Held) { h.board.Some? ==> Proper(h.board.value.days) }

  lemma JoinKeepsProper(s: State, owner: string, page: Page)
    requires HeldIsProper(s.held) && Proper(page.days)
    ensures HeldIsProper(Join(s, owner, page))
  {
    hide MergeDays, DistinctCards;
    if s.held.board.Some? {
      MergeKeepsProper(s.held.board.value.days, page.days);
    }
  }

  lemma StepKeepsProper(w: World, s: State, step: Step)
    requires ProperWorld(w) && HeldIsProper(s.held)
    ensures HeldIsProper(Apply(w, s, step).held)
  {
    hide PageOf, Join, Proper, ProperView;
    if step.Answered? && Possible(w, s, step) {
      var q := s.flight[step.n];
      var page := PageOf(step.view, BeforeOf(q), PAGE_DAYS);
      PageIsProper(step.view, BeforeOf(q), PAGE_DAYS);
      JoinKeepsProper(s, q.owner, page);
    }
  }

  /** Whatever the Boards do between answers and however requests race, no date and no entry of a day is held twice. */
  lemma {:induction false} NeverDoubled(w: World, user: Option<string>, steps: seq<Step>)
    requires ProperWorld(w)
    ensures HeldIsProper(Run(w, Start(user), steps).held)
  {
    hide Apply, ProperWorld, Proper;
    if steps == [] {
    } else {
      var rest := steps[..|steps| - 1];
      NeverDoubled(w, user, rest);
      StepKeepsProper(w, Run(w, Start(user), rest), steps[|steps| - 1]);
    }
  }

  // ---- offline ----

  /** The person is shown a Board. */
  predicate ShownTo(s: State, user: string) { s.held.board.Some? && s.held.owner == Some(user) }

  predicate ByOne(step: Step, user: string) {
    match step
    case OpenFirst(asker, _) => asker.None? || asker == Some(user)
    case OpenMore(asker) => asker.None? || asker == Some(user)
    case Account(asker) => asker.None? || asker == Some(user)
    case _ => true
  }

  ghost predicate OnlyOf(s: State, user: string) {
    && (s.held.board.Some? ==> s.held.owner == Some(user))
    && (s.status == Offline ==> s.held.board.None?)
    && (forall n :: n in s.flight ==> s.flight[n].owner == user)
  }

  lemma AskStaysOnlyOf(s: State, asker: Option<string>, mode: Mode, user: string)
    requires OnlyOf(s, user) && (asker.None? || asker == Some(user))
    ensures OnlyOf(AskFirst(s, asker, mode), user) && OnlyOf(AskMore(s, asker), user)
  {
  }

  lemma SucceedStaysOnlyOf(s: State, n: nat, page: Page, user: string)
    requires OnlyOf(s, user) && n in s.flight
    ensures OnlyOf(Succeed(s, n, page), user)
  {
    hide MergeDays;
  }

  lemma FailStaysOnlyOf(s: State, n: nat, kind: Failure, user: string)
    requires OnlyOf(s, user) && n in s.flight
    ensures OnlyOf(Fail(s, n, kind), user)
  {
  }

  lemma AccountStaysOnlyOf(s: State, asker: Option<string>, now: bool, user: string)
    requires OnlyOf(s, user)
    ensures OnlyOf(ChangeAccount(s, asker), user) && OnlyOf(s.(mounted := now), user)
  {
  }

  lemma StepStaysOnlyOf(w: World, s: State, step: Step, user: string)
    requires OnlyOf(s, user) && ByOne(step, user)
    ensures OnlyOf(Apply(w, s, step), user)
  {
    hide PageOf, OnlyOf, Succeed, Fail, AskFirst, AskMore, ChangeAccount;
    if Possible(w, s, step) {
      match step
      case OpenFirst(asker, mode) => AskStaysOnlyOf(s, asker, mode, user);
      case OpenMore(asker) => AskStaysOnlyOf(s, asker, Quiet, user);
      case Answered(n, view) => SucceedStaysOnlyOf(s, n, PageOf(view, BeforeOf(s.flight[n]), PAGE_DAYS), user);
      case Failed(n, kind) => FailStaysOnlyOf(s, n, kind, user);
      case Account(asker) => AccountStaysOnlyOf(s, asker, true, user);
      case Mounted(now) => AccountStaysOnlyOf(s, None, now, user);
    }
  }

  /** With one account, signed in or out, offline never stands over a Board. */
  lemma {:induction false} OfflineShowsNothing(w: World, user: string, steps: seq<Step>)
    requires forall step :: step in steps ==> ByOne(step, user)
    ensures var s := Run(w, Start(Some(user)), steps); s.status == Offline ==> s.held.board.None?
    ensures OnlyOf(Run(w, Start(Some(user)), steps), user)
  {
    hide Apply;
    if steps == [] {
    } else {
      var rest, last := steps[..|steps| - 1], steps[|steps| - 1];
      assert last in steps;
      OfflineShowsNothing(w, user, rest);
      StepStaysOnlyOf(w, Run(w, Start(Some(user)), rest), last, user);
    }
  }

  /** A first page that fails stands over a Board exactly when it was asked for another account. */
  lemma FailureCoversOthersBoard(s: State, n: nat, kind: Failure)
    requires n in s.flight && s.flight[n].First? && Counts(s, s.flight[n]) && s.status != Offline && s.held.board.Some?
    ensures Fail(s, n, kind).status == Offline <==> s.held.owner != Some(s.flight[n].owner)
  {
  }

  /** Ann's first page on its way as Bob signs in. */
  function BobSignsIn(): State {
    State(Held(Some("bob"), None), Loading, Network, false, false, false, 1, false, true,
          map[0 := First(1, "ann", Quiet)], 1)
  }

  lemma RunOfSix(w: World, s: State, steps: seq<Step>)
    requires |steps| == 6
    ensures Run(w, s, steps) ==
            Apply(w, Apply(w, Apply(w, Apply(w, Apply(w, Apply(w, s, steps[0]), steps[1]), steps[2]), steps[3]),
                           steps[4]),
                  steps[5])
  {
    hide Apply;
    assert steps[..5][..4] == steps[..4] && steps[..4][..3] == steps[..3];
    assert steps[..3][..2] == steps[..2] && steps[..2][..1] == steps[..1] && steps[..1][..0] == [];
    assert Run(w, s, steps[..1]) == Apply(w, s, steps[0]);
    assert Run(w, s, steps[..2]) == Apply(w, Run(w, s, steps[..1]), steps[1]);
    assert Run(w, s, steps[..3]) == Apply(w, Run(w, s, steps[..2]), steps[2]);
    assert Run(w, s, steps[..4]) == Apply(w, Run(w, s, steps[..3]), steps[3]);
    assert Run(w, s, steps[..5]) == Apply(w, Run(w, s, steps[..4]), steps[4]);
  }

  /** The person's Board does not change. */
  predicate Only(w: World, u: string, v: View) { u in w && w[u] == {v} }

  /** Ann's page arrives; Bob's load fails; Ann signs in again. */
  lemma OfflineOverBoard(w: World, v: View)
    requires Only(w, "ann", v)
    ensures var s := Run(w, Start(Some("ann")),
                         [OpenFirst(Some("ann"), Quiet), Account(Some("bob")), Answered(0, v),
                          OpenFirst(Some("bob"), Quiet), Failed(1, Network), Account(Some("ann"))]);
            s.status == Offline && ShownTo(s, "ann")
  {
    hide PageOf;
    var steps := [OpenFirst(Some("ann"), Quiet), Account(Some("bob")), Answered(0, v),
                  OpenFirst(Some("bob"), Quiet), Failed(1, Network), Account(Some("ann"))];
    RunOfSix(w, Start(Some("ann")), steps);
    assert v in w["ann"];
    var s2 := Apply(w, Apply(w, Start(Some("ann")), steps[0]), steps[1]);
    assert s2 == BobSignsIn();
    var s3 := Apply(w, s2, steps[2]);
    assert s3.held == Held(Some("ann"), Some(PageOf(v, None, PAGE_DAYS))) && s3.sent == 1;
    var s5 := Apply(w, Apply(w, s3, steps[3]), steps[4]);
    assert s5.status == Offline && s5.held == s3.held;
  }

  // ---- a prefix, when no next page is asked over a first page ----

  ghost predicate Sound(w: World) { forall u, v :: u in w && v in w[u] ==> Descending(v.posted) }

  function ListedDates(v: View): seq<int> { if v.follows then AllDates(v) else [] }

  /** The Board of the first n dates. */
  function FirstDays(v: View, n: nat): Page
    requires n <= |ListedDates(v)|
  {
    var dates := ListedDates(v);
    Page(DaysOf(dates[..n], v.cards, v.dayInPlay), if 0 < n < |dates| then Some(dates[n - 1]) else None)
  }

  ghost predicate Shows(v: View, page: Page, n: nat) {
    n <= |ListedDates(v)| && page == FirstDays(v, n) && (n == 0 ==> ListedDates(v) == [])
  }

  /** The page is the Board of some first dates, with the cursor where they end. */
  ghost predicate IsPrefixOf(page: Page, v: View) { exists n :: Shows(v, page, n) }

  ghost predicate HeldIsPrefix(w: World, h: Held) {
    h.board.Some? ==>
      h.owner.Some? && h.owner.value in w && forall v :: Only(w, h.owner.value, v) ==> IsPrefixOf(h.board.value, v)
  }

  /** A next page that still counts was asked of what is held, and no first page is on its way with it. */
  ghost predicate MoreMatchesHeld(s: State) {
    forall n :: IsCurrentMore(s, n) ==>
                  && (forall m :: !IsCurrentFirst(s, m))
                  && (s.held.board.Some? ==>
                        s.held.owner == Some(s.flight[n].owner) && NextBefore(s.held) == Some(s.flight[n].before))
  }

  /** The step asks no next page while a first page that still counts is on its way. */
  ghost predicate Calm(s: State, step: Step) {
    step.OpenMore? && AskMore(s, step.user) != s ==> forall n :: !IsCurrentFirst(s, n)
  }

  ghost predicate CalmRun(w: World, s: State, steps: seq<Step>) {
    steps != [] ==> CalmRun(w, s, steps[..|steps| - 1]) && Calm(Run(w, s, steps[..|steps| - 1]), steps[|steps| - 1])
  }

  lemma FirstDaysOfNone(v: View)
    requires !v.follows
    ensures FirstDays(v, 0) == Page([], None)
  {
  }

  lemma FirstPageShows(v: View)
    requires Descending(v.posted)
    ensures IsPrefixOf(PageOf(v, None, PAGE_DAYS), v)
  {
    hide DaysOf, AllDates;
    if v.follows {
      PageAfter(v, 0, PAGE_DAYS);
      var m := End(v, 0, PAGE_DAYS);
      assert AllDates(v)[0..m] == AllDates(v)[..m];
      assert Shows(v, PageOf(v, None, PAGE_DAYS), m);
    } else {
      FirstDaysOfNone(v);
      assert Shows(v, PageOf(v, None, PAGE_DAYS), 0);
    }
  }

  lemma NextPageShows(v: View, page: Page, n: nat)
    requires Descending(v.posted) && Shows(v, page, n) && page.nextBefore.Some?
    ensures var next := PageOf(v, page.nextBefore, PAGE_DAYS);
            Shows(v, Page(MergeDays(page.days, next.days), next.nextBefore), End(v, n, PAGE_DAYS))
  {
    hide DaysOf, MergeDays, PageOf, AllDates;
    assert page.nextBefore == After(v, n);
    PageAfter(v, n, PAGE_DAYS);
    FilterKeepsAll(v);
    JoinNext(AllDates(v), n, End(v, n, PAGE_DAYS), v.cards, v.dayInPlay);
  }

  lemma NextPageIsPrefix(v: View, page: Page)
    requires Descending(v.posted) && IsPrefixOf(page, v) && page.nextBefore.Some?
    ensures var next := PageOf(v, page.nextBefore, PAGE_DAYS);
            IsPrefixOf(Page(MergeDays(page.days, next.days), next.nextBefore), v)
  {
    hide Shows, PageOf, MergeDays;
    var k :| Shows(v, page, k);
    NextPageShows(v, page, k);
  }

  lemma AnswerKeepsPrefix(w: World, s: State, n: nat, view: View)
    requires Sound(w) && HeldIsPrefix(w, s.held) && MoreMatchesHeld(s) && Possible(w, s, Answered(n, view))
    ensures HeldIsPrefix(w, Apply(w, s, Answered(n, view)).held)
  {
    hide IsPrefixOf, PageOf, MergeDays;
    var q := s.flight[n];
    if Counts(s, q) && q.First? {
      FirstPageShows(view);
    } else if Counts(s, q) && s.held.board.Some? {
      assert IsCurrentMore(s, n);
      if Only(w, q.owner, view) {
        NextPageIsPrefix(view, s.held.board.value);
      }
    }
  }

  lemma SameFlightKeepsMatch(s: State, t: State)
    requires MoreMatchesHeld(s) && t.flight == s.flight && t.seqNo == s.seqNo
    requires t.held == s.held || t.held.board.None?
    ensures MoreMatchesHeld(t)
  {
    assert forall n :: IsCurrentMore(t, n) <==> IsCurrentMore(s, n);
    assert forall n :: IsCurrentFirst(t, n) <==> IsCurrentFirst(s, n);
  }

  lemma AskFirstKeepsMatch(s: State, user: Option<string>, mode: Mode)
    requires BusyExact(s) && MoreMatchesHeld(s)
    ensures MoreMatchesHeld(AskFirst(s, user, mode))
  {
    var t := AskFirst(s, user, mode);
    if user.Some? {
      assert forall n :: IsCurrent(t, n) ==> n == s.sent;
    }
  }

  lemma AskMoreKeepsMatch(s: State, user: Option<string>)
    requires BusyExact(s) && MoreMatchesHeld(s) && Calm(s, OpenMore(user))
    ensures MoreMatchesHeld(AskMore(s, user))
  {
    var t := AskMore(s, user);
    if t != s {
      forall n | IsCurrentMore(t, n) ensures n == s.sent {
        assert n != s.sent ==> IsCurrentMore(s, n);
      }
      assert forall n :: IsCurrentFirst(t, n) ==> IsCurrentFirst(s, n);
    }
  }

  lemma LandingKeepsMatch(s: State, n: nat, t: State)
    requires BusyExact(s) && MoreMatchesHeld(s) && n in s.flight
    requires t.flight == s.flight - {n} && t.seqNo == s.seqNo
    requires t.held == s.held || IsCurrent(s, n)
    ensures MoreMatchesHeld(t)
  {
    forall m | IsCurrentMore(t, m)
      ensures (forall k :: !IsCurrentFirst(t, k)) && t.held == s.held && IsCurrentMore(s, m)
    {
      assert IsCurrentMore(s, m);
      assert forall k :: IsCurrentFirst(t, k) ==> IsCurrentFirst(s, k);
      assert !IsCurrentFirst(s, n);
      assert IsCurrentMore(s, n) ==> n == m;
    }
  }

  lemma StepKeepsMatch(w: World, s: State, step: Step)
    requires BusyExact(s) && MoreMatchesHeld(s) && Calm(s, step)
    ensures MoreMatchesHeld(Apply(w, s, step))
  {
    hide PageOf, AskFirst, AskMore, MoreMatchesHeld, BusyExact, Calm, Succeed, Fail, Landed;
    if Possible(w, s, step) {
      match step
      case OpenFirst(user, mode) => AskFirstKeepsMatch(s, user, mode);
      case OpenMore(user) => AskMoreKeepsMatch(s, user);
      case Answered(n, view) =>
        AnswerFrame(s, n, PageOf(view, BeforeOf(s.flight[n]), PAGE_DAYS));
        LandingKeepsMatch(s, n, Apply(w, s, step));
      case Failed(n, kind) =>
        FailureFrame(s, n, kind);
        LandingKeepsMatch(s, n, Apply(w, s, step));
      case _ => SameFlightKeepsMatch(s, Apply(w, s, step));
    }
  }

  lemma NothingHeld(w: World, user: Option<string>)
    ensures HeldIsPrefix(w, Start(user).held) && MoreMatchesHeld(Start(user))
  {
  }

  lemma OthersKeepHeld(w: World, s: State, step: Step)
    requires !step.Answered? || !Possible(w, s, step)
    ensures Apply(w, s, step).held == s.held || Apply(w, s, step).held.board.None?
  {
  }

  lemma StepKeepsPrefix(w: World, s: State, step: Step)
    requires Sound(w) && HeldIsPrefix(w, s.held) && MoreMatchesHeld(s)
    ensures HeldIsPrefix(w, Apply(w, s, step).held)
  {
    if step.Answered? && Possible(w, s, step) {
      AnswerKeepsPrefix(w, s, step.n, step.view);
    } else {
      OthersKeepHeld(w, s, step);
    }
  }

  /** Over an unchanging Board, what is held is the Board of its first n dates in every calm run. */
  lemma {:induction false} HeldIsAlwaysPrefix(w: World, user: Option<string>, steps: seq<Step>)
    requires Sound(w) && CalmRun(w, Start(user), steps)
    ensures HeldIsPrefix(w, Run(w, Start(user), steps).held) && MoreMatchesHeld(Run(w, Start(user), steps))
  {
    hide Apply, HeldIsPrefix, MoreMatchesHeld;
    if steps == [] {
      NothingHeld(w, user);
    } else {
      var rest, last := steps[..|steps| - 1], steps[|steps| - 1];
      HeldIsAlwaysPrefix(w, user, rest);
      BusyIsExact(w, user, rest);
      StepKeepsMatch(w, Run(w, Start(user), rest), last);
      StepKeepsPrefix(w, Run(w, Start(user), rest), last);
    }
  }

  // ---- asking and getting the next page ----

  predicate Sends(s: State, t: State) { t.sent == s.sent + 1 }

  /**
   In every run a next page is asked exactly when a Board of this account with more to come is held and no
   next page that still counts is on its way; it is asked with the cursor held.
   */
  lemma MoreIsAskedExactly(w: World, user: Option<string>, steps: seq<Step>, asker: Option<string>)
    ensures var s := Run(w, Start(user), steps);
            var t := Apply(w, s, OpenMore(asker));
            && (Sends(s, t) <==>
                && asker.Some? && s.held.owner == asker && s.held.board.Some? && s.held.board.value.nextBefore.Some?
                && forall n :: n in s.flight && s.flight[n].mine == s.seqNo ==> s.flight[n].First?)
            && (!Sends(s, t) ==> t == s)
            && (Sends(s, t) ==>
                t == s.(moreBusy := true, loadingMore := true, moreFailed := false, sent := s.sent + 1,
                        flight := s.flight[s.sent := More(s.seqNo, asker.value, s.held.board.value.nextBefore.value)]))
  {
    hide Run;
    BusyIsExact(w, user, steps);
    var s := Run(w, Start(user), steps);
    if forall n :: n in s.flight && s.flight[n].mine == s.seqNo ==> s.flight[n].First? {
      assert forall n :: !IsCurrentMore(s, n);
    }
    if !s.moreBusy {
      forall n | n in s.flight && s.flight[n].mine == s.seqNo ensures s.flight[n].First? {
        assert !IsCurrentMore(s, n);
      }
    }
  }

  lemma FirstPageShowsDates(v: View)
    requires Descending(v.posted)
    ensures Shows(v, PageOf(v, None, PAGE_DAYS), if 5 < |ListedDates(v)| then 5 else |ListedDates(v)|)
  {
    hide DaysOf, AllDates;
    if v.follows {
      PageAfter(v, 0, PAGE_DAYS);
      var m := End(v, 0, PAGE_DAYS);
      assert AllDates(v)[0..m] == AllDates(v)[..m];
    } else {
      FirstDaysOfNone(v);
    }
  }

  /** A first page that counts shows the first five dates, or all of them, whatever was held. */
  lemma FirstPageIs(w: World, s: State, u: string, mode: Mode, v: View)
    requires Sound(w) && s.mounted && u in w && v in w[u]
    ensures var asked := Apply(w, s, OpenFirst(Some(u), mode));
            var t := Apply(w, asked, Answered(s.sent, v));
            && asked.held == s.held
            && t.held.owner == Some(u) && t.held.board.Some?
            && Shows(v, t.held.board.value, if 5 < |ListedDates(v)| then 5 else |ListedDates(v)|)
            && t.status == Ready && !t.moreFailed && t.mounted && t.sent == s.sent + 1 && !t.moreBusy
            && t.flight == s.flight - {s.sent}
  {
    hide PageOf, Shows;
    FirstPageShowsDates(v);
    var asked := Apply(w, s, OpenFirst(Some(u), mode));
    assert asked.flight[s.sent] == First(asked.seqNo, u, mode);
  }

  /** A next page that counts, asked where the held Board ends, takes it from n dates to n + 5, or to all. */
  lemma NextPageExtends(w: World, s: State, r: nat, v: View, n: nat)
    requires Sound(w) && s.mounted && IsCurrentMore(s, r) && s.flight[r].owner in w && v in w[s.flight[r].owner]
    requires s.held.board.Some? && Shows(v, s.held.board.value, n)
    requires s.held.board.value.nextBefore == Some(s.flight[r].before)
    ensures var t := Apply(w, s, Answered(r, v));
            && n < |ListedDates(v)|
            && t.held.owner == Some(s.flight[r].owner) && t.held.board.Some?
            && Shows(v, t.held.board.value, if n + 5 < |ListedDates(v)| then n + 5 else |ListedDates(v)|)
            && t.flight == s.flight - {r} && t.mounted && t.sent == s.sent && !t.moreBusy
  {
    hide PageOf, MergeDays;
    NextPageShows(v, s.held.board.value, n);
  }

  /** The first page, then k times the end of the list comes into view and the next page arrives. */
  function Scroll(u: string, v: View, k: nat): seq<Step> {
    if k == 0 then [OpenFirst(Some(u), Quiet), Answered(0, v)]
    else Scroll(u, v, k - 1) + [OpenMore(Some(u)), Answered(k, v)]
  }

  ghost predicate Scrolled(s: State, u: string, v: View, k: nat) {
    && s.mounted && s.flight == map[] && !s.moreBusy && s.held.owner == Some(u) && s.held.board.Some?
    && Shows(v, s.held.board.value, if 5 * (k + 1) < |ListedDates(v)| then 5 * (k + 1) else |ListedDates(v)|)
    && (s.held.board.value.nextBefore.Some? ==> s.sent == k + 1)
  }

  lemma ScrollStarts(w: World, u: string, v: View)
    requires Sound(w) && Only(w, u, v)
    ensures Scrolled(Run(w, Start(Some(u)), Scroll(u, v, 0)), u, v, 0)
  {
    hide Apply, Shows;
    assert v in w[u];
    FirstPageIs(w, Start(Some(u)), u, Quiet, v);
    var steps := Scroll(u, v, 0);
    assert steps[..1][..0] == [] && steps[..1][0] == steps[0];
    assert Run(w, Start(Some(u)), steps[..1]) == Apply(w, Start(Some(u)), steps[0]);
  }

  /** What is shown has no cursor exactly when it is all of it. */
  lemma ShowsEnds(v: View, page: Page, n: nat)
    requires Shows(v, page, n)
    ensures page.nextBefore.None? <==> n == |ListedDates(v)|
  {
  }

  lemma ScrollGoesOn(w: World, s: State, u: string, v: View, k: nat)
    requires Sound(w) && Only(w, u, v) && Scrolled(s, u, v, k)
    ensures Scrolled(Apply(w, Apply(w, s, OpenMore(Some(u))), Answered(k + 1, v)), u, v, k + 1)
  {
    hide Shows, PageOf, MergeDays;
    assert v in w[u];
    ShowsEnds(v, s.held.board.value, if 5 * (k + 1) < |ListedDates(v)| then 5 * (k + 1) else |ListedDates(v)|);
    if s.held.board.value.nextBefore.Some? {
      var asked := Apply(w, s, OpenMore(Some(u)));
      assert asked.flight == map[s.sent := More(s.seqNo, u, s.held.board.value.nextBefore.value)];
      NextPageExtends(w, asked, s.sent, v, 5 * (k + 1));
    }
  }

  lemma ShowsAll(v: View, page: Page)
    requires Shows(v, page, |ListedDates(v)|)
    ensures page == Page(Unpaged(v), None)
  {
    hide DaysOf, AllDates;
    var dates := ListedDates(v);
    assert dates[..|dates|] == dates;
    if !v.follows {
      FirstDaysOfNone(v);
    }
  }

  lemma ScrolledShows(s: State, u: string, v: View, k: nat)
    requires Scrolled(s, u, v, k) && 5 * (k + 1) >= |ListedDates(v)|
    ensures s.held.board.Some? && Shows(v, s.held.board.value, |ListedDates(v)|)
  {
  }

  lemma RunSnoc(w: World, s: State, steps: seq<Step>, n: nat)
    requires n < |steps|
    ensures Run(w, s, steps[..n + 1]) == Apply(w, Run(w, s, steps[..n]), steps[n])
  {
    hide Apply;
    assert steps[..n + 1][..n] == steps[..n];
  }

  /** Scrolling on shows five more dates a page, and ends with the whole Board and no cursor. */
  lemma {:induction false} ScrollsToEnd(w: World, u: string, v: View, k: nat)
    requires Sound(w) && Only(w, u, v)
    ensures var s := Run(w, Start(Some(u)), Scroll(u, v, k));
            Scrolled(s, u, v, k) && (5 * (k + 1) >= |ListedDates(v)| ==> s.held.board == Some(Page(Unpaged(v), None)))
  {
    hide Apply, Shows, Scrolled;
    if k == 0 {
      ScrollStarts(w, u, v);
    } else {
      ScrollsToEnd(w, u, v, k - 1);
      var steps, rest := Scroll(u, v, k), Scroll(u, v, k - 1);
      assert steps == rest + [OpenMore(Some(u)), Answered(k, v)];
      assert steps[..|rest| + 1][..|rest|] == rest && steps[..|rest| + 2] == steps;
      RunSnoc(w, Start(Some(u)), steps, |rest|);
      RunSnoc(w, Start(Some(u)), steps, |rest| + 1);
      ScrollGoesOn(w, Run(w, Start(Some(u)), rest), u, v, k - 1);
    }
    var s := Run(w, Start(Some(u)), Scroll(u, v, k));
    if 5 * (k + 1) >= |ListedDates(v)| {
      assert s.held.board.Some? && Shows(v, s.held.board.value, |ListedDates(v)|) by {
        ScrolledShows(s, u, v, k);
      }
      ShowsAll(v, s.held.board.value);
    }
  }

  // ---- what is said of it ----

  /** The request a step answers or fails, if it is on its way. */
  function Lands(w: World, s: State, step: Step): Option<nat> {
    if !Possible(w, s, step) then None
    else match step
      case Answered(n, _) => Some(n)
      case Failed(n, _) => Some(n)
      case _ => None
  }

  /** A step lands the request it still counts for, a first page or a next one, well or not. */
  predicate Arrives(w: World, s: State, step: Step, first: bool, well: bool) {
    && Lands(w, s, step).Some? && s.mounted && s.flight[Lands(w, s, step).value].mine == s.seqNo
    && s.flight[Lands(w, s, step).value].First? == first && step.Answered? == well
  }

  predicate PullLands(w: World, s: State, step: Step) {
    Lands(w, s, step).Some? && s.mounted && IsPull(s, Lands(w, s, step).value)
  }

  predicate Begins(step: Step, mode: Mode) { step.OpenFirst? && step.user.Some? && step.mode == mode }

  /** A Board of the person who asked the first page is held. */
  predicate ShowsAsker(w: World, s: State, step: Step)
    requires Lands(w, s, step).Some?
  {
    s.held.board.Some? && s.held.owner == Some(s.flight[Lands(w, s, step).value].owner)
  }

  predicate CountsFirst(s: State, n: nat)
    requires n in s.flight
  {
    s.mounted && s.flight[n].mine == s.seqNo && s.flight[n].First?
  }

  lemma SucceedStatus(s: State, n: nat, page: Page)
    requires n in s.flight
    ensures var t := Succeed(s, n, page);
            t.status == (if CountsFirst(s, n) then Ready else s.status) && t.failure == s.failure
  {
    hide Join;
  }

  lemma FailStatus(s: State, n: nat, kind: Failure)
    requires n in s.flight
    ensures var lost := CountsFirst(s, n) && !(s.held.board.Some? && s.held.owner == Some(s.flight[n].owner));
            var t := Fail(s, n, kind);
            t.status == (if lost then Offline else s.status) && t.failure == (if lost then kind else s.failure)
  {
  }

  lemma AskStatus(s: State, user: Option<string>, mode: Mode)
    ensures var t := AskFirst(s, user, mode);
            t.status == (if user.Some? && mode == Retry then Loading else s.status) && t.failure == s.failure
    ensures var t := AskMore(s, user); t.status == s.status && t.failure == s.failure
    ensures var t := ChangeAccount(s, user);
            t.status == (if s.held.owner != user then Loading else s.status) && t.failure == s.failure
  {
  }

  /**
   Of each step: the Board is loading from a tap on Try again or a change of account, ready from a first
   page that counts, and offline from one that fails with nothing of its person held, and as it was else.
   */
  lemma StatusIsExact(w: World, s: State, step: Step)
    ensures var t := Apply(w, s, step);
            t.status == if Begins(step, Retry) || (step.Account? && s.held.owner != step.user) then Loading
                        else if Arrives(w, s, step, true, true) then Ready
                        else if Arrives(w, s, step, true, false) && !ShowsAsker(w, s, step) then Offline
                        else s.status
    ensures Apply(w, s, step).failure ==
            if Arrives(w, s, step, true, false) && !ShowsAsker(w, s, step) then step.kind else s.failure
  {
    hide PageOf, Succeed, Fail, AskFirst, AskMore, ChangeAccount, Counts;
    match step
    case OpenFirst(user, mode) => AskStatus(s, user, mode);
    case OpenMore(user) => AskStatus(s, user, Quiet);
    case Account(user) => AskStatus(s, user, Quiet);
    case Answered(n, view) =>
      if Possible(w, s, step) {
        SucceedStatus(s, n, PageOf(view, BeforeOf(s.flight[n]), PAGE_DAYS));
      }
    case Failed(n, kind) =>
      if Possible(w, s, step) {
        FailStatus(s, n, kind);
      }
    case _ =>
  }

  lemma LandedPull(s: State, n: nat)
    requires n in s.flight
    ensures Landed(s, n).refreshing == (s.refreshing && !(s.mounted && IsPull(s, n)))
  {
  }

  lemma AskPull(s: State, user: Option<string>, mode: Mode)
    ensures AskFirst(s, user, mode).refreshing == (s.refreshing || (user.Some? && mode == Pull))
    ensures AskMore(s, user).refreshing == s.refreshing && ChangeAccount(s, user).refreshing == s.refreshing
  {
  }

  /** Of each step: the pull spinner goes up with a pull and down with any pull that lands. */
  lemma PullSpinnerIsExact(w: World, s: State, step: Step)
    ensures Apply(w, s, step).refreshing <==> (s.refreshing || Begins(step, Pull)) && !PullLands(w, s, step)
  {
    hide PageOf, Succeed, Fail, Landed, AskFirst, AskMore, IsPull, ChangeAccount;
    match step
    case OpenFirst(user, mode) => AskPull(s, user, mode);
    case OpenMore(user) => AskPull(s, user, Quiet);
    case Account(user) => AskPull(s, user, Quiet);
    case Answered(n, view) =>
      if Possible(w, s, step) {
        SucceedShows(s, n, PageOf(view, BeforeOf(s.flight[n]), PAGE_DAYS));
        LandedPull(s, n);
      }
    case Failed(n, kind) =>
      if Possible(w, s, step) {
        FailShows(s, n, kind);
        LandedPull(s, n);
      }
    case _ =>
  }

  lemma SucceedLine(s: State, n: nat, page: Page)
    requires n in s.flight
    ensures Succeed(s, n, page).moreFailed == (s.moreFailed && !(Counts(s, s.flight[n]) && s.flight[n].First?))
  {
    hide Join;
  }

  lemma FailLine(s: State, n: nat, kind: Failure)
    requires n in s.flight
    ensures Fail(s, n, kind).moreFailed == (s.moreFailed || (Counts(s, s.flight[n]) && s.flight[n].More?))
  {
  }

  lemma AskLine(s: State, user: Option<string>, mode: Mode)
    ensures AskFirst(s, user, mode).moreFailed == s.moreFailed && ChangeAccount(s, user).moreFailed == s.moreFailed
    ensures var t := AskMore(s, user); t.moreFailed == (s.moreFailed && !Sends(s, t))
  {
  }

  /**
   Of each step: the line under the Board says a next page failed from when it does until one is asked
   again or a first page arrives.
   */
  lemma MoreFailedIsExact(w: World, s: State, step: Step)
    ensures Apply(w, s, step).moreFailed <==>
            || (s.moreFailed && !Arrives(w, s, step, true, true) && !(step.OpenMore? && Sends(s, Apply(w, s, step))))
            || Arrives(w, s, step, false, false)
  {
    hide PageOf, Succeed, Fail, AskFirst, AskMore, ChangeAccount;
    match step
    case OpenFirst(user, mode) => AskLine(s, user, mode);
    case OpenMore(user) => AskLine(s, user, Quiet);
    case Account(user) => AskLine(s, user, Quiet);
    case Answered(n, view) =>
      if Possible(w, s, step) {
        SucceedLine(s, n, PageOf(view, BeforeOf(s.flight[n]), PAGE_DAYS));
      }
    case Failed(n, kind) =>
      if Possible(w, s, step) {
        FailLine(s, n, kind);
      }
    case _ =>
  }

  // ---- nothing missed, in every calm run ----

  ghost predicate HasCardOn(v: View, day: int, id: string) { exists c :: c in v.cards && c.day == day && c.id == id }

  /** Whenever the Board is read the date is listed on it and the card is on the date. */
  ghost predicate ListedThroughout(w: World, u: string, day: int, id: string) {
    u in w && forall v :: v in w[u] ==> day in ListedDates(v) && HasCardOn(v, day, id)
  }

  ghost predicate HoldsCard(days: seq<BoardDay>, day: int, id: string) {
    exists d :: d in days && d.day == day && HasCard(d.cards, id)
  }

  predicate ReachedBy(before: Option<int>, day: int) { before.Some? ==> day >= before.value }

  ghost predicate HoldsListed(w: World, h: Held) {
    h.board.Some? && h.owner.Some? ==>
      forall day, id :: ListedThroughout(w, h.owner.value, day, id) && ReachedBy(h.board.value.nextBefore, day) ==>
                          HoldsCard(h.board.value.days, day, id)
  }

  lemma {:induction false} DaysAreExact(dates: seq<int>, cards: seq<Card>, dayInPlay: int, d: BoardDay)
    ensures d in DaysOf(dates, cards, dayInPlay) <==> d.day in dates && [d] == DayWith(d.day, cards, dayInPlay)
  {
    hide Filter;
    if dates == [] {
    } else {
      DaysAreExact(dates[..|dates| - 1], cards, dayInPlay, d);
    }
  }

  lemma {:induction false} DayIsThere(dates: seq<int>, cards: seq<Card>, dayInPlay: int, day: int, c: Card)
    requires day in dates && c in cards && c.day == day
    ensures HoldsCard(DaysOf(dates, cards, dayInPlay), day, c.id)
  {
    var list := Filter(cards, OnDate(day));
    assert c in list;
    var d := BoardDay(day, LabelOf(day, dayInPlay), list);
    DaysAreExact(dates, cards, dayInPlay, d);
    assert HasCard(d.cards, c.id);
  }

  /** A page holds every card of every date from the one it was asked before down to its cursor. */
  lemma PageHoldsListed(v: View, before: Option<int>, day: int, id: string)
    requires Descending(v.posted) && day in ListedDates(v) && HasCardOn(v, day, id)
    requires before.Some? ==> day < before.value
    ensures var page := PageOf(v, before, PAGE_DAYS); ReachedBy(page.nextBefore, day) ==> HoldsCard(page.days, day, id)
  {
    hide DaysOf, HoldsCard;
    var dates := Filter(v.posted, Asked(v.dayInPlay, before));
    FilterKeepsDescending(v.posted, Asked(v.dayInPlay, before));
    var kept := Cut(Cut(dates, PAGE_DAYS + 1), PAGE_DAYS);
    var page := PageOf(v, before, PAGE_DAYS);
    assert day in dates;
    if ReachedBy(page.nextBefore, day) {
      var i :| 0 <= i < |dates| && dates[i] == day;
      assert i < |kept| && kept[i] == day;
      var c :| c in v.cards && c.day == day && c.id == id;
      DayIsThere(kept, v.cards, v.dayInPlay, day, c);
    }
  }

  lemma StillHasCard(cards: seq<Card>, more: seq<Card>, id: string)
    requires cards <= more && HasCard(cards, id)
    ensures HasCard(more, id)
  {
    var c :| c in cards && c.id == id;
    assert c in more;
  }

  lemma MergeHoldsMore(current: seq<BoardDay>, next: seq<BoardDay>, day: int, id: string)
    requires HoldsCard(current, day, id) || HoldsCard(next, day, id)
    ensures HoldsCard(MergeDays(current, next), day, id)
  {
    hide MergeDays, HasCard;
    var merged := MergeDays(current, next);
    if HoldsCard(current, day, id) {
      MergeKeepsShown(current, next);
      var d :| d in current && d.day == day && HasCard(d.cards, id);
      var i :| 0 <= i < |current| && current[i] == d;
      StillHasCard(d.cards, merged[i].cards, id);
      assert merged[i] in merged;
    } else {
      MergeAbsorbs(current, next);
      var d :| d in next && d.day == day && HasCard(d.cards, id);
      assert Absorbed(merged, d);
      assert merged[FindDay(merged, day)] in merged;
    }
  }

  lemma AnswerHoldsListed(w: World, s: State, n: nat, view: View)
    requires Sound(w) && HoldsListed(w, s.held) && MoreMatchesHeld(s) && Possible(w, s, Answered(n, view))
    ensures HoldsListed(w, Apply(w, s, Answered(n, view)).held)
  {
    hide PageOf, MergeDays, HoldsCard, HasCardOn, ListedDates;
    var q := s.flight[n];
    if Counts(s, q) && (q.First? || s.held.board.Some?) {
      var page, h := PageOf(view, BeforeOf(q), PAGE_DAYS), Apply(w, s, Answered(n, view)).held;
      assert q.More? ==> IsCurrentMore(s, n);
      forall day, id | ListedThroughout(w, q.owner, day, id) && ReachedBy(h.board.value.nextBefore, day)
        ensures HoldsCard(h.board.value.days, day, id)
      {
        if q.First? || day < q.before {
          PageHoldsListed(view, BeforeOf(q), day, id);
        }
        if q.More? {
          MergeHoldsMore(s.held.board.value.days, page.days, day, id);
        }
      }
    }
  }

  lemma SameOrNone(w: World, h: Held, g: Held)
    requires HoldsListed(w, h) && (g == h || g.board.None?)
    ensures HoldsListed(w, g)
  {
  }

  lemma NothingListed(w: World, user: Option<string>)
    ensures HoldsListed(w, Start(user).held)
  {
  }

  /** Boards may change: a card listed at every answer is held once its date is reached, in every calm run. */
  lemma {:induction false} NothingMissed(w: World, user: Option<string>, steps: seq<Step>)
    requires Sound(w) && CalmRun(w, Start(user), steps)
    ensures HoldsListed(w, Run(w, Start(user), steps).held)
  {
    hide Apply, HoldsListed, MoreMatchesHeld, Possible;
    if steps == [] {
      NothingListed(w, user);
    } else {
      var rest, last := steps[..|steps| - 1], steps[|steps| - 1];
      var s := Run(w, Start(user), rest);
      NothingMissed(w, user, rest);
      HeldIsAlwaysPrefix(w, user, rest);
      if last.Answered? && Possible(w, s, last) {
        AnswerHoldsListed(w, s, last.n, last.view);
      } else {
        OthersKeepHeld(w, s, last);
        SameOrNone(w, s.held, Apply(w, s, last).held);
      }
    }
  }

  // ---- when a next page was asked over a first page ----

  /** The days of the first n dates joined by the page after the first m, up to k. */
  function Joined(v: View, n: nat, m: nat, k: nat): seq<BoardDay>
    requires n <= |AllDates(v)| && m <= k <= |AllDates(v)|
  {
    MergeDays(DaysOf(AllDates(v)[..n], v.cards, v.dayInPlay), DaysOf(AllDates(v)[m..k], v.cards, v.dayInPlay))
  }

  ghost predicate IsFirstDays(v: View, days: seq<BoardDay>, j: nat) {
    j <= |AllDates(v)| && days == DaysOf(AllDates(v)[..j], v.cards, v.dayInPlay)
  }

  /** Days already held, from the same Board, are absorbed. */
  lemma OverlapIsAbsorbed(v: View, n: nat, m: nat, k: nat)
    requires Descending(AllDates(v)) && m <= k <= n <= |AllDates(v)|
    ensures Joined(v, n, m, k) == DaysOf(AllDates(v)[..n], v.cards, v.dayInPlay)
  {
    hide DaysOf, MergeDays, AllDates;
    var all := AllDates(v);
    var held, next := DaysOf(all[..n], v.cards, v.dayInPlay), DaysOf(all[m..k], v.cards, v.dayInPlay);
    forall d | d in next ensures Absorbed(held, d) {
      DaysAreExact(all[m..k], v.cards, v.dayInPlay, d);
      DaysAreExact(all[..n], v.cards, v.dayInPlay, d);
      DaysAreDistinct(all[..n], v.cards, v.dayInPlay);
      var i :| 0 <= i < |held| && held[i] == d;
      FoundIs(held, d.day, i);
    }
    MergeOfAbsorbed(held, next);
  }

  lemma OverlapJoins(v: View, n: nat, m: nat, k: nat)
    requires Descending(AllDates(v)) && m <= n <= |AllDates(v)| && m <= k <= |AllDates(v)|
    ensures IsFirstDays(v, Joined(v, n, m, k), if n < k then k else n)
  {
    hide DaysOf, MergeDays, AllDates;
    var all := AllDates(v);
    if k <= n {
      OverlapIsAbsorbed(v, n, m, k);
    } else {
      OverlapIsAbsorbed(v, n, m, n);
      assert all[m..k] == all[m..n] + all[n..k];
      DaysOfConcat(all[m..n], all[n..k], v.cards, v.dayInPlay);
      MergeConcat(DaysOf(all[..n], v.cards, v.dayInPlay), DaysOf(all[m..n], v.cards, v.dayInPlay),
                  DaysOf(all[n..k], v.cards, v.dayInPlay));
      JoinNext(all, n, k, v.cards, v.dayInPlay);
    }
  }

  lemma GapJoins(v: View, n: nat, m: nat, k: nat)
    requires Descending(AllDates(v)) && n <= m <= k <= |AllDates(v)|
    ensures var all := AllDates(v);
            Joined(v, n, m, k) == DaysOf(all[..n], v.cards, v.dayInPlay) + DaysOf(all[m..k], v.cards, v.dayInPlay)
  {
    hide DaysOf, MergeDays, AllDates;
    var all := AllDates(v);
    InDaysOf(all[..n], v.cards, v.dayInPlay);
    InDaysOf(all[m..k], v.cards, v.dayInPlay);
    DaysAreDistinct(all[m..k], v.cards, v.dayInPlay);
    MergeOfNewDays(DaysOf(all[..n], v.cards, v.dayInPlay), DaysOf(all[m..k], v.cards, v.dayInPlay));
  }

  /** The dates missed by a page asked after the first m, joined to the Board of the first n. */
  function Missed(v: View, n: nat, m: nat): seq<int>
    requires n <= |AllDates(v)| && m <= |AllDates(v)|
  {
    var all, k := AllDates(v), End(v, m, PAGE_DAYS);
    if n <= m then all[n..m] else if k < n then all[k..n] else []
  }

  lemma SplitDays(v: View, n: nat, m: nat)
    requires n <= m <= |AllDates(v)|
    ensures var all := AllDates(v);
            DaysOf(all[..m], v.cards, v.dayInPlay) ==
            DaysOf(all[..n], v.cards, v.dayInPlay) + DaysOf(all[n..m], v.cards, v.dayInPlay)
  {
    hide DaysOf, AllDates;
    assert AllDates(v)[..m] == AllDates(v)[..n] + AllDates(v)[n..m];
    DaysOfConcat(AllDates(v)[..n], AllDates(v)[n..m], v.cards, v.dayInPlay);
  }

  lemma SameMiddle<T>(a: seq<T>, b: seq<T>, c: seq<T>)
    ensures a + c == a + b + c <==> b == []
  {
    assert a + c == a + b + c ==> |a + c| == |a + b + c|;
    assert b == [] ==> a + b == a;
  }

  lemma NoDays(cards: seq<Card>, dayInPlay: int)
    ensures DaysOf([], cards, dayInPlay) == []
  {
  }

  lemma JoinedIsFirst(v: View, n: nat, m: nat)
    requires Descending(AllDates(v)) && n <= |AllDates(v)| && m <= |AllDates(v)|
    ensures var k := End(v, m, PAGE_DAYS);
            m <= k && (IsFirstDays(v, Joined(v, n, m, k), k) <==> DaysOf(Missed(v, n, m), v.cards, v.dayInPlay) == [])
  {
    hide DaysOf, MergeDays, AllDates, Joined;
    var all, k := AllDates(v), End(v, m, PAGE_DAYS);
    if n <= m {
      GapJoins(v, n, m, k);
      SplitDays(v, n, m);
      SplitDays(v, m, k);
      SameMiddle(DaysOf(all[..n], v.cards, v.dayInPlay), DaysOf(all[n..m], v.cards, v.dayInPlay),
                 DaysOf(all[m..k], v.cards, v.dayInPlay));
    } else {
      OverlapJoins(v, n, m, k);
      if k < n {
        SplitDays(v, k, n);
      } else {
        NoDays(v.cards, v.dayInPlay);
      }
    }
  }

  lemma CursorTells(v: View, page: Page, k: nat, j: nat)
    requires Descending(AllDates(v)) && v.follows && 0 < k <= |AllDates(v)|
    requires page.nextBefore == (if k < |AllDates(v)| then After(v, k) else None) && Shows(v, page, j)
    ensures j == k
  {
    hide DaysOf, AllDates;
  }

  /**
   A page asked after the first m dates and joined to the Board of the first n is a prefix again, its
   cursor included, exactly when the dates missed show no card: those between the two, or those the
   cursor falls back over.
   */
  lemma JoinIsPrefix(v: View, n: nat, m: nat)
    requires Descending(v.posted) && v.follows && 0 < n <= |AllDates(v)| && 0 < m < |AllDates(v)|
    ensures var next := PageOf(v, After(v, m), PAGE_DAYS);
            IsPrefixOf(Page(MergeDays(FirstDays(v, n).days, next.days), next.nextBefore), v) <==>
            DaysOf(Missed(v, n, m), v.cards, v.dayInPlay) == []
  {
    hide DaysOf, MergeDays, AllDates, PageOf, Missed;
    FilterKeepsAll(v);
    PageAfter(v, m, PAGE_DAYS);
    JoinedIsFirst(v, n, m);
    var k, next := End(v, m, PAGE_DAYS), PageOf(v, After(v, m), PAGE_DAYS);
    var page := Page(MergeDays(FirstDays(v, n).days, next.days), next.nextBefore);
    assert page.days == Joined(v, n, m, k);
    assert Shows(v, page, k) <==> IsFirstDays(v, page.days, k);
    forall j | Shows(v, page, j) ensures j == k {
      CursorTells(v, page, k, j);
    }
  }

  /** So of the hook: the answer to a next page keeps a prefix held exactly when the dates missed show no card. */
  lemma AnswerIsPrefix(w: World, s: State, r: nat, u: string, v: View, n: nat, m: nat)
    requires Only(w, u, v) && Descending(v.posted) && v.follows && 0 < n <= |AllDates(v)| && 0 < m < |AllDates(v)|
    requires s.held == Held(Some(u), Some(FirstDays(v, n)))
    requires r in s.flight && Counts(s, s.flight[r])
    requires s.flight[r].More? && s.flight[r].owner == u && Some(s.flight[r].before) == After(v, m)
    ensures HeldIsPrefix(w, Apply(w, s, Answered(r, v)).held) <==> DaysOf(Missed(v, n, m), v.cards, v.dayInPlay) == []
  {
    hide DaysOf, MergeDays, AllDates, PageOf, Missed, IsPrefixOf;
    JoinIsPrefix(v, n, m);
    assert v in w[u];
    var next := PageOf(v, After(v, m), PAGE_DAYS);
    assert Apply(w, s, Answered(r, v)).held ==
           Held(Some(u), Some(Page(MergeDays(FirstDays(v, n).days, next.days), next.nextBefore)));
  }

  /** Ten dates shown, then a next page asked over a reload that lands first. */
  function Overtaken(u: string, v: View): seq<Step> {
    [OpenFirst(Some(u), Quiet), Answered(0, v), OpenMore(Some(u)), Answered(1, v),
     OpenFirst(Some(u), Quiet), OpenMore(Some(u)), Answered(2, v), Answered(3, v)]
  }

  lemma AnswerIs(w: World, s: State, n: nat, u: string, v: View, at: nat)
    requires Only(w, u, v) && v.follows && Descending(v.posted) && at + PAGE_DAYS < |AllDates(v)|
    requires n in s.flight && s.flight[n].owner == u && BeforeOf(s.flight[n]) == After(v, at)
    ensures var all := AllDates(v);
            Apply(w, s, Answered(n, v)) == Succeed(s, n,
              Page(DaysOf(all[at..at + PAGE_DAYS], v.cards, v.dayInPlay), After(v, at + PAGE_DAYS)))
  {
    hide PageOf, DaysOf, AllDates, Succeed;
    PageAfter(v, at, PAGE_DAYS);
  }

  lemma RunOfNothing(w: World, s: State)
    ensures Run(w, s, []) == s
  {
  }

  lemma FirstTen(w: World, u: string, v: View)
    requires Only(w, u, v) && v.follows && Descending(v.posted) && |AllDates(v)| > 15
    ensures var s := Apply(w, Apply(w, Apply(w, Apply(w, Start(Some(u)), OpenFirst(Some(u), Quiet)), Answered(0, v)),
                                    OpenMore(Some(u))), Answered(1, v));
            && s.held == Held(Some(u), Some(Page(DaysOf(AllDates(v)[..10], v.cards, v.dayInPlay), After(v, 10))))
            && s.mounted && s.sent == 2 && s.flight == map[] && !s.moreBusy
  {
    hide PageOf, DaysOf, AllDates, MergeDays;
    var all := AllDates(v);
    FilterKeepsAll(v);
    var s1 := Apply(w, Start(Some(u)), OpenFirst(Some(u), Quiet));
    AnswerIs(w, s1, 0, u, v, 0);
    assert all[0..5] == all[..5];
    var s3 := Apply(w, Apply(w, s1, Answered(0, v)), OpenMore(Some(u)));
    AnswerIs(w, s3, 1, u, v, 5);
    JoinNext(all, 5, 10, v.cards, v.dayInPlay);
  }

  lemma Overtake(w: World, s: State, u: string, v: View)
    requires Only(w, u, v) && v.follows && Descending(v.posted) && |AllDates(v)| > 15
    requires s.held == Held(Some(u), Some(Page(DaysOf(AllDates(v)[..10], v.cards, v.dayInPlay), After(v, 10))))
    requires s.mounted && s.sent == 2 && s.flight == map[] && !s.moreBusy
    ensures Apply(w, Apply(w, Apply(w, Apply(w, s, OpenFirst(Some(u), Quiet)), OpenMore(Some(u))), Answered(2, v)),
                  Answered(3, v)).held ==
            Held(Some(u), Some(Page(Joined(v, 5, 10, 15), After(v, 15))))
  {
    hide PageOf, DaysOf, AllDates, MergeDays;
    var all := AllDates(v);
    var s2 := Apply(w, Apply(w, s, OpenFirst(Some(u), Quiet)), OpenMore(Some(u)));
    AnswerIs(w, s2, 2, u, v, 0);
    assert all[0..5] == all[..5];
    AnswerIs(w, Apply(w, s2, Answered(2, v)), 3, u, v, 10);
  }

  /** Then dates 6 to 10 are on neither page, whatever is on them. */
  lemma OvertakenPageLeavesGap(w: World, u: string, v: View)
    requires Only(w, u, v) && v.follows && Descending(v.posted) && |AllDates(v)| > 15
    ensures Run(w, Start(Some(u)), Overtaken(u, v)).held ==
            Held(Some(u), Some(Page(Joined(v, 5, 10, 15), After(v, 15))))
  {
    hide PageOf, DaysOf, AllDates, MergeDays, Apply, Run;
    var all, steps, s0 := AllDates(v), Overtaken(u, v), Start(Some(u));
    FilterKeepsAll(v);
    assert steps[..0] == [] && steps[..8] == steps;
    RunOfNothing(w, s0);
    RunSnoc(w, s0, steps, 0);
    RunSnoc(w, s0, steps, 1);
    RunSnoc(w, s0, steps, 2);
    RunSnoc(w, s0, steps, 3);
    var s4 := Run(w, s0, steps[..4]);
    assert s4.held == Held(Some(u), Some(Page(DaysOf(all[..10], v.cards, v.dayInPlay), After(v, 10)))) && s4.mounted
      && s4.sent == 2 && s4.flight == map[] && !s4.moreBusy by {
      FirstTen(w, u, v);
    }
    RunSnoc(w, s0, steps, 4);
    RunSnoc(w, s0, steps, 5);
    RunSnoc(w, s0, steps, 6);
    RunSnoc(w, s0, steps, 7);
    Overtake(w, s4, u, v);
  }

  /** What is held is then still a prefix exactly when those dates have no card to show. */
  lemma OvertakenIsPrefix(w: World, u: string, v: View)
    requires Only(w, u, v) && v.follows && Descending(v.posted) && |AllDates(v)| > 15
    ensures HeldIsPrefix(w, Run(w, Start(Some(u)), Overtaken(u, v)).held) <==>
            DaysOf(AllDates(v)[5..10], v.cards, v.dayInPlay) == []
  {
    hide PageOf, DaysOf, AllDates, MergeDays, Run, Overtaken;
    OvertakenPageLeavesGap(w, u, v);
    FilterKeepsAll(v);
    GapJoins(v, 5, 10, 15);
    var all, page := AllDates(v), Page(Joined(v, 5, 10, 15), After(v, 15));
    assert all[..15] == all[..5] + all[5..10] + all[10..15];
    DaysOfConcat(all[..5] + all[5..10], all[10..15], v.cards, v.dayInPlay);
    DaysOfConcat(all[..5], all[5..10], v.cards, v.dayInPlay);
    assert Shows(v, page, 15) <==> DaysOf(all[5..10], v.cards, v.dayInPlay) == [];
    forall n | Shows(v, page, n) ensures n == 15 {
      assert page.nextBefore == Some(all[14]);
      assert n > 0 && page.nextBefore == Some(all[n - 1]);
    }
  }

  // ---- the hook ----

  class BoardHook {
    var held: Held
    var status: Status
    var failure: Failure
    var refreshing: bool
    var loadingMore: bool
    var moreFailed: bool
    var seqNo: nat
    var moreBusy: bool
    var mounted: bool
    var flight: map<nat, Request>
    var sent: nat

    ghost function Now(): State
      reads this
    {
      State(held, status, failure, refreshing, loadingMore, moreFailed, seqNo, moreBusy, mounted, flight, sent)
    }

    constructor (user: Option<string>)
      ensures Now() == Start(user)
    {
      held, status, failure := Held(user, None), Loading, Network;
      refreshing, loadingMore, moreFailed := false, false, false;
      seqNo, moreBusy, mounted, flight, sent := 0, false, true, map[], 0;
    }

    method Send(q: Request)
      modifies `flight, `sent
      ensures flight == old(flight)[old(sent) := q] && sent == old(sent) + 1
    {
      flight := flight[sent := q];
      sent := sent + 1;
    }

    /** loadFirst up to its await. */
    method LoadFirst(user: Option<string>, mode: Mode)
      modifies this
      ensures Now() == AskFirst(old(Now()), user, mode)
    {
      if user.None? {
        return;
      }
      seqNo := seqNo + 1;
      moreBusy := false;
      loadingMore := false;
      if mode == Pull {
        refreshing := true;
      }
      if mode == Retry {
        status := Loading;
      }
      Send(First(seqNo, user.value, mode));
    }

    /** loadMore up to its await. */
    method LoadMore(user: Option<string>)
      modifies this
      ensures Now() == AskMore(old(Now()), user)
    {
      var shown := held;
      var before: Option<int> := None;
      if shown.board.Some? {
        before := shown.board.value.nextBefore;
      }
      if user.None? || before.None? || moreBusy || shown.owner != user {
        return;
      }
      moreBusy := true;
      loadingMore := true;
      moreFailed := false;
      Send(More(seqNo, user.value, before.value));
    }

    method FirstLands(n: nat, answer: Result<Page, Failure>)
      requires n in flight && flight[n].First?
      modifies this
      ensures Now() == if answer.Ok? then Succeed(old(Now()), n, answer.value) else Fail(old(Now()), n, answer.error)
    {
      var q := flight[n];
      flight := flight - {n};
      if mounted && q.mine == seqNo {
        match answer
        case Ok(page) =>
          held := Held(Some(q.owner), Some(page));
          moreFailed := false;
          status := Ready;
        case Err(kind) =>
          if !(held.board.Some? && held.owner == Some(q.owner)) {
            failure := kind;
            status := Offline;
          }
      }
      if mounted && q.mode == Pull {
        refreshing := false;
      }
    }

    method MoreLands(n: nat, answer: Result<Page, Failure>)
      requires n in flight && flight[n].More?
      modifies this
      ensures Now() == if answer.Ok? then Succeed(old(Now()), n, answer.value) else Fail(old(Now()), n, answer.error)
    {
      var q := flight[n];
      flight := flight - {n};
      if mounted && q.mine == seqNo {
        match answer
        case Ok(page) =>
          if held.board.Some? {
            var days := JoinDays(held.board.value.days, page.days);
            held := Held(Some(q.owner), Some(Page(days, page.nextBefore)));
          }
        case Err(_) =>
          moreFailed := true;
      }
      if q.mine == seqNo {
        moreBusy := false;
        if mounted {
          loadingMore := false;
        }
      }
    }
  }
}
