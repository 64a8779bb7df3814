/**
 Calls that wait for each other's rows. A call that is not answered is stuck exactly when its waits lead
 into a circle; without a log out everywhere there is no circle, and with one there can be.
 */
module RefreshWaits {
  import opened Options
  import opened RefreshTable
  import opened RefreshRuns
  import opened RefreshSessions

  // ---- waiting ----

  /** No two rows' ids sort alike. */
  ghost predicate Injective(ids: Ids) { forall i, j :: ids(i) == ids(j) ==> i == j }

  lemma {:induction false} LowestExists(ids: Ids, todo: set<nat>)
    requires todo != {}
    ensures exists row :: IsLowest(ids, todo, row)
    decreases |todo|
  {
    var x :| x in todo;
    if todo == {x} {
      assert IsLowest(ids, todo, x);
    } else {
      assert todo - {x} != {};
      LowestExists(ids, todo - {x});
      var y :| IsLowest(ids, todo - {x}, y);
      assert IsLowest(ids, todo, if ids(x) <= ids(y) then x else y);
    }
  }

  ghost function Lowest(ids: Ids, todo: set<nat>): (row: nat)
    requires todo != {}
    ensures IsLowest(ids, todo, row)
  {
    LowestExists(ids, todo);
    var row :| IsLowest(ids, todo, row);
    row
  }

  /** The row a call's next step takes, if it takes one. */
  ghost function Wants(s: State, k: nat): Option<nat>
    requires k in s.calls
  {
    var c := s.calls[k];
    if c.Client? then
      if c.phase.Checked? then Some(c.phase.id) else if c.phase.Walking? then Some(c.phase.end) else None
    else if IsTaking(c) && c.lot.todo != {} then Some(Lowest(s.ids, c.lot.todo))
    else None
  }

  ghost predicate WaitsFor(s: State, k: nat, j: nat) {
    k in s.calls && j in s.calls && j != k && Wants(s, k).Some? && Wants(s, k).value in HeldBy(s.calls[j])
  }

  /** The call that holds the row call k wants. */
  ghost function Holder(s: State, k: nat): (j: Option<nat>)
    ensures j.Some? ==> WaitsFor(s, k, j.value)
    ensures j.None? ==> forall j :: !WaitsFor(s, k, j)
  {
    if exists j :: WaitsFor(s, k, j) then
      var j :| WaitsFor(s, k, j);
      Some(j)
    else None
  }

  /** Some step of the call's own is possible now. */
  ghost predicate CanMove(s: State, k: nat) { exists step :: IsNextOf(s, step, k) }

  lemma OnlyLowest(ids: Ids, todo: set<nat>, row: nat)
    requires Injective(ids) && IsLowest(ids, todo, row)
    ensures Lowest(ids, todo) == row
  {
    assert ids(row) == ids(Lowest(ids, todo));
  }

  lemma NoHolder(s: State, k: nat)
    requires k in s.calls && Wants(s, k).Some?
    ensures Holder(s, k).None? <==> !LockedFor(s, k, Wants(s, k).value)
  {
    hide Wants, HeldBy;
    if LockedFor(s, k, Wants(s, k).value) {
      var j :| j in s.calls && j != k && Wants(s, k).value in HeldBy(s.calls[j]);
      assert WaitsFor(s, k, j);
    }
  }

  lemma MoverIsUnheld(s: State, k: nat, step: Step)
    requires Injective(s.ids) && k in s.calls && IsNextOf(s, step, k)
    ensures Holder(s, k).None?
  {
    hide LockedFor, HeldBy, Lowest;
    if Wants(s, k).Some? {
      NoHolder(s, k);
      if step.Takes? {
        OnlyLowest(s.ids, s.calls[k].lot.todo, step.row);
      }
    }
  }

  lemma UnheldMoves(cap: nat, s: State, k: nat)
    requires CallsFit(cap, s) && k in s.calls && Unanswered(s.calls[k]) && Holder(s, k).None?
    ensures CanMove(s, k)
  {
    hide LockedFor, HeldBy, Lowest, LotFits, Follow, Depth, End;
    var c := s.calls[k];
    assert CallFits(cap, s.rows, c);
    if Wants(s, k).Some? {
      NoHolder(s, k);
    }
    if c.Client? {
      var step := if c.phase.Checked? then RedeemRotates(k, [], 0) else if c.phase.Ending? then Looks(k) else Walks(k);
      assert IsNextOf(s, step, k);
    } else if IsTaking(c) && c.lot.todo != {} {
      assert IsNextOf(s, Takes(k, Lowest(s.ids, c.lot.todo)), k);
    } else if c.Everywhere? {
      assert IsNextOf(s, EverywhereSweeps(k), k);
    } else {
      var step := if c.change.First? then ReplaceHolds(k)
                  else if c.change.Holding? then ReplaceAgain(k)
                  else ReplaceCommits(k);
      assert IsNextOf(s, step, k);
    }
  }

  /** A call that is not answered can move exactly when no other call holds the row it wants. */
  lemma MovesExactly(cap: nat, s: State, k: nat)
    requires CallsFit(cap, s) && Injective(s.ids) && k in s.calls && Unanswered(s.calls[k])
    ensures CanMove(s, k) <==> Holder(s, k).None?
  {
    hide Holder, IsNextOf, CallsFit;
    if CanMove(s, k) {
      var step :| IsNextOf(s, step, k);
      MoverIsUnheld(s, k, step);
    } else if Holder(s, k).None? {
      UnheldMoves(cap, s, k);
    }
  }

  // ---- following the waits ----

  /** The call n waits on from k. */
  ghost function Reach(s: State, k: nat, n: nat): Option<nat>
    decreases n
  {
    if n == 0 then Some(k)
    else
      var j := Holder(s, k);
      if j.None? then None else Reach(s, j.value, n - 1)
  }

  lemma {:induction false} ReachSum(s: State, k: nat, m: nat, n: nat)
    requires Reach(s, k, m).Some?
    ensures Reach(s, k, m + n) == Reach(s, Reach(s, k, m).value, n)
    decreases m
  {
    hide Holder;
    if m == 0 {
    } else {
      ReachSum(s, Holder(s, k).value, m - 1, n);
    }
  }

  lemma ReachNext(s: State, k: nat, m: nat)
    requires Reach(s, k, m).Some?
    ensures Reach(s, k, m + 1) == Holder(s, Reach(s, k, m).value)
  {
    hide Holder;
    ReachSum(s, k, m, 1);
    var x := Reach(s, k, m).value;
    assert Reach(s, x, 1) == if Holder(s, x).None? then None else Reach(s, Holder(s, x).value, 0);
  }

  ghost predicate OnCircle(s: State, c: nat, n: nat) { n > 0 && Reach(s, c, n) == Some(c) }

  ghost predicate InCircle(s: State, c: nat) { exists n :: OnCircle(s, c, n) }

  /** Following the waits from k comes into a circle. */
  ghost predicate ReachesCircle(s: State, k: nat) {
    exists m :: Reach(s, k, m).Some? && InCircle(s, Reach(s, k, m).value)
  }

  /** Following the waits from k comes to a call that can move. */
  ghost predicate Freed(s: State, k: nat) { exists m :: Reach(s, k, m).Some? && CanMove(s, Reach(s, k, m).value) }

  lemma HolderIsUnanswered(s: State, k: nat)
    requires Holder(s, k).Some?
    ensures Holder(s, k).value in s.calls && Unanswered(s.calls[Holder(s, k).value])
  {
    assert WaitsFor(s, k, Holder(s, k).value);
  }

  ghost predicate Before(s: State, k: nat, n: nat, x: nat) { exists m :: 0 <= m < n && Reach(s, k, m) == Some(x) }

  lemma BeforeGoesOn(s: State, k: nat, n: nat, x: nat)
    requires Before(s, k, n, x) || Reach(s, k, n) == Some(x)
    ensures Before(s, k, n + 1, x)
  {
    hide Reach;
  }

  lemma {:induction false} Subset(a: set<nat>, b: set<nat>)
    requires a <= b
    ensures |a| <= |b|
    decreases |a|
  {
    if a == {} {
    } else {
      var x :| x in a;
      Subset(a - {x}, b - {x});
    }
  }

  lemma Smaller(a: set<nat>, b: set<nat>)
    requires a < b
    ensures |a| < |b|
  {
    var x :| x in b && x !in a;
    assert a <= b - {x};
    Subset(a, b - {x});
  }

  /** The path has seen those calls; what comes next is new, or closes a circle, or is the end. */
  lemma {:induction false} Walked(cap: nat, s: State, k: nat, n: nat, seen: set<nat>)
    requires CallsFit(cap, s) && Injective(s.ids) && Reach(s, k, n).Some?
    requires Reach(s, k, n).value in s.calls && Unanswered(s.calls[Reach(s, k, n).value])
    requires forall x :: x in seen ==> x in s.calls && Before(s, k, n, x)
    ensures Freed(s, k) || ReachesCircle(s, k)
    decreases |s.calls.Keys - seen|
  {
    hide Holder, Reach, CanMove, CallsFit, Unanswered;
    var x := Reach(s, k, n).value;
    if x in seen {
      var m :| 0 <= m < n && Reach(s, k, m) == Some(x);
      ReachSum(s, k, m, n - m);
      assert OnCircle(s, x, n - m);
    } else {
      MovesExactly(cap, s, x);
      if Holder(s, x).Some? {
        HolderIsUnanswered(s, x);
        ReachNext(s, k, n);
        assert s.calls.Keys - (seen + {x}) < s.calls.Keys - seen by {
          assert x in s.calls.Keys - seen;
        }
        Smaller(s.calls.Keys - (seen + {x}), s.calls.Keys - seen);
        forall y | y in seen + {x} ensures Before(s, k, n + 1, y) {
          BeforeGoesOn(s, k, n, y);
        }
        Walked(cap, s, k, n + 1, seen + {x});
      }
    }
  }

  /** A circle once reached is come round to again and again. */
  lemma {:induction false} RoundAgain(s: State, k: nat, m: nat, c: nat, n: nat, t: nat) returns (u: nat)
    requires Reach(s, k, m) == Some(c) && OnCircle(s, c, n)
    ensures u >= t && Reach(s, k, u) == Some(c)
    decreases t
  {
    hide Reach;
    if t == 0 {
      u := m;
    } else {
      var v := RoundAgain(s, k, m, c, n, t - 1);
      ReachSum(s, k, v, n);
      u := v + n;
    }
  }

  lemma ReachHasHolder(s: State, x: nat, n: nat)
    requires n > 0 && Reach(s, x, n).Some?
    ensures Holder(s, x).Some?
  {
  }

  lemma {:induction false} PathIsUnanswered(s: State, k: nat, n: nat)
    requires k in s.calls && Unanswered(s.calls[k]) && Reach(s, k, n).Some?
    ensures Reach(s, k, n).value in s.calls && Unanswered(s.calls[Reach(s, k, n).value])
    decreases n
  {
    hide Holder, Unanswered;
    if n == 0 {
    } else {
      HolderIsUnanswered(s, k);
      PathIsUnanswered(s, Holder(s, k).value, n - 1);
    }
  }

  lemma CircleIsStuck(cap: nat, s: State, k: nat, m: nat, c: nat, n: nat, t: nat)
    requires CallsFit(cap, s) && Injective(s.ids) && k in s.calls && Unanswered(s.calls[k])
    requires Reach(s, k, m) == Some(c) && OnCircle(s, c, n) && Reach(s, k, t).Some?
    ensures !CanMove(s, Reach(s, k, t).value)
  {
    hide Holder, CanMove, CallsFit, Unanswered, Reach;
    var u := RoundAgain(s, k, m, c, n, t + 1);
    var x := Reach(s, k, t).value;
    ReachSum(s, k, t, u - t);
    assert Holder(s, x).Some? by {
      ReachHasHolder(s, x, u - t);
    }
    PathIsUnanswered(s, k, t);
    MovesExactly(cap, s, x);
  }

  lemma ReachZero(s: State, k: nat)
    ensures Reach(s, k, 0) == Some(k)
  {
  }

  lemma StepKeepsIds(cap: nat, s: State, step: Step)
    ensures Apply(cap, s, step).ids == s.ids
  {
    hide Follow, Depth, FindHash, Insert, Sweep, Rotate, GetActive, RevokeRow;
  }

  lemma {:induction false} IdsStay(cap: nat, ids: Ids, steps: seq<Step>)
    ensures RunAll(cap, ids, steps).ids == ids
  {
    hide Apply;
    if steps == [] {
    } else {
      IdsStay(cap, ids, steps[..|steps| - 1]);
      StepKeepsIds(cap, RunAll(cap, ids, steps[..|steps| - 1]), steps[|steps| - 1]);
    }
  }

  /**
   In every run: the waits of a call that is not answered lead to one that can move exactly when they do
   not come into a circle.
   */
  lemma StuckExactly(cap: nat, ids: Ids, steps: seq<Step>, k: nat)
    requires Injective(ids) && k in RunAll(cap, ids, steps).calls && Unanswered(RunAll(cap, ids, steps).calls[k])
    ensures Freed(RunAll(cap, ids, steps), k) <==> !ReachesCircle(RunAll(cap, ids, steps), k)
  {
    hide Run, Reach, CanMove, Unanswered, OnCircle;
    var s := RunAll(cap, ids, steps);
    RunIsSound(cap, ids, steps);
    IdsStay(cap, ids, steps);
    assert Reach(s, k, 0) == Some(k) by {
      ReachZero(s, k);
    }
    if ReachesCircle(s, k) {
      var m :| Reach(s, k, m).Some? && InCircle(s, Reach(s, k, m).value);
      var c := Reach(s, k, m).value;
      var n :| OnCircle(s, c, n);
      forall t: nat | Reach(s, k, t).Some? ensures !CanMove(s, Reach(s, k, t).value) {
        CircleIsStuck(cap, s, k, m, c, n, t);
      }
    } else {
      Walked(cap, s, k, 0, {});
    }
  }

  // ---- who goes back in the order of ids ----

  /** The call holds a row whose id does not sort below that of the row it wants. */
  ghost predicate GoesBack(s: State, k: nat) {
    k in s.calls && Wants(s, k).Some? && exists h :: h in HeldBy(s.calls[k]) && s.ids(h) >= s.ids(Wants(s, k).value)
  }

  lemma {:induction false} PrefixReaches(s: State, c: nat, t: nat, n: nat)
    requires t <= n && Reach(s, c, n).Some?
    ensures Reach(s, c, t).Some?
    decreases t
  {
    hide Holder;
    if t == 0 {
    } else {
      PrefixReaches(s, Holder(s, c).value, t - 1, n - 1);
    }
  }

  /** Every call on a circle waits. */
  lemma CircleReaches(s: State, c: nat, n: nat, t: nat)
    requires OnCircle(s, c, n) && t <= n
    ensures Reach(s, c, t).Some?
    ensures var x := Reach(s, c, t).value; x in s.calls && Wants(s, x).Some? && Holder(s, x).Some?
  {
    hide Wants, HeldBy, Holder;
    PrefixReaches(s, c, t, n);
    var x := Reach(s, c, t).value;
    if t < n {
      ReachSum(s, c, t, n - t);
      ReachHasHolder(s, x, n - t);
    } else {
      ReachHasHolder(s, c, n);
    }
    assert WaitsFor(s, x, Holder(s, x).value);
  }

  /** Along a circle on which no call goes back, the rows wanted rise. */
  lemma {:induction false} WantsRise(s: State, c: nat, n: nat, t: nat)
    requires OnCircle(s, c, n) && 0 < t <= n
    requires forall m: nat | m <= n :: Reach(s, c, m).Some? ==> !GoesBack(s, Reach(s, c, m).value)
    ensures Reach(s, c, t).Some? && c in s.calls && Wants(s, c).Some?
    ensures var x := Reach(s, c, t).value;
            x in s.calls && Wants(s, x).Some? && s.ids(Wants(s, x).value) > s.ids(Wants(s, c).value)
    decreases t
  {
    hide Wants, HeldBy, Reach, Holder;
    CircleReaches(s, c, n, t - 1);
    CircleReaches(s, c, n, t);
    ReachNext(s, c, t - 1);
    ReachZero(s, c);
    var y, x := Reach(s, c, t - 1).value, Reach(s, c, t).value;
    assert WaitsFor(s, y, x);
    if t == 1 {
    } else {
      WantsRise(s, c, n, t - 1);
    }
    assert Wants(s, y).value in HeldBy(s.calls[x]);
    assert !GoesBack(s, x);
  }

  /** On every circle some call goes back in the order of ids. */
  lemma CircleGoesBack(s: State, c: nat)
    requires InCircle(s, c)
    ensures exists m :: Reach(s, c, m).Some? && GoesBack(s, Reach(s, c, m).value)
  {
    hide Wants, HeldBy, Reach, Holder, GoesBack;
    var n :| OnCircle(s, c, n);
    if forall m: nat | m <= n :: Reach(s, c, m).Some? ==> !GoesBack(s, Reach(s, c, m).value) {
      WantsRise(s, c, n, n);
    }
  }

  predicate Ordered(c: Call) { c.Everywhere? || (c.Replacing? && c.change.First?) }

  /** A revoke that began with no row held takes them in order. */
  ghost predicate InOrder(s: State) {
    forall k, h, t :: k in s.calls && Ordered(s.calls[k]) && h in s.calls[k].lot.held && t in s.calls[k].lot.todo ==>
                        s.ids(h) < s.ids(t)
  }

  predicate Took(s: State, step: Step, k: nat, lot: Lot) {
    && step.Takes? && step.call == k && Possible(s, step) && Ordered(s.calls[k])
    && lot == Lot(s.calls[k].lot.todo - {step.row}, s.calls[k].lot.held + {step.row}, s.calls[k].lot.limit)
  }

  /** A revoke in order has what it had, took the lowest row it had to take, or holds nothing yet. */
  lemma OrderedBefore(cap: nat, s: State, step: Step, k: nat)
    requires k in Apply(cap, s, step).calls && Ordered(Apply(cap, s, step).calls[k])
    ensures var lot := Apply(cap, s, step).calls[k].lot;
            || (k in s.calls && Ordered(s.calls[k]) && lot == s.calls[k].lot)
            || Took(s, step, k, lot) || lot.held == {}
  {
    hide Follow, Depth, FindHash, Insert, Sweep, Rotate, GetActive, RevokeRow, LiveOf, Changing, LockedFor, IsLowest;
    if Mover(s, step) != Some(k) {
      NotMoved(cap, s, step, k);
    }
  }

  lemma StepKeepsOrder(cap: nat, s: State, step: Step)
    requires Injective(s.ids) && InOrder(s)
    ensures InOrder(Apply(cap, s, step))
  {
    hide Apply;
    var t := Apply(cap, s, step);
    StepKeepsIds(cap, s, step);
    forall k, h, i | k in t.calls && Ordered(t.calls[k]) && h in t.calls[k].lot.held && i in t.calls[k].lot.todo
      ensures t.ids(h) < t.ids(i)
    {
      OrderedBefore(cap, s, step, k);
    }
  }

  lemma EmptyIsInOrder(ids: Ids)
    ensures InOrder(Empty(ids))
  {
  }

  lemma {:induction false} RunIsInOrder(cap: nat, ids: Ids, steps: seq<Step>)
    requires Injective(ids)
    ensures InOrder(RunAll(cap, ids, steps))
  {
    hide Apply, InOrder;
    if steps == [] {
      EmptyIsInOrder(ids);
    } else {
      var rest := steps[..|steps| - 1];
      RunIsInOrder(cap, ids, rest);
      IdsStay(cap, ids, rest);
      StepKeepsOrder(cap, RunAll(cap, ids, rest), steps[|steps| - 1]);
    }
  }

  /** In every run only a password change's second revoke, or a walk that held a token it passed, goes back. */
  lemma OnlyTheseGoBack(cap: nat, ids: Ids, steps: seq<Step>, k: nat)
    requires Injective(ids) && GoesBack(RunAll(cap, ids, steps), k)
    ensures var c := RunAll(cap, ids, steps).calls[k];
            (c.Replacing? && c.change.Again?) || (c.Client? && c.phase.Walking? && c.phase.passed != {})
  {
    hide Run, Lowest;
    RunIsInOrder(cap, ids, steps);
  }

  // ---- no circle without a log out everywhere ----

  predicate IsChange(s: State, k: nat) { k in s.calls && Unfinished(s.calls[k]) }

  ghost predicate OneChange(s: State) {
    forall j, k :: IsChange(s, j) && IsChange(s, k) && s.calls[j].user == s.calls[k].user ==> j == k
  }

  /** A step leaves no change unfinished that was not, but the one it starts. */
  lemma UnfinishedBefore(cap: nat, s: State, step: Step, k: nat)
    requires k in Apply(cap, s, step).calls && Unfinished(Apply(cap, s, step).calls[k])
    ensures (k in s.calls && Unfinished(s.calls[k]) && s.calls[k].user == Apply(cap, s, step).calls[k].user)
            || (step.ReplaceStarts? && k == s.started && !Changing(s, step.user)
                && Apply(cap, s, step).calls[k].user == step.user)
  {
    hide Follow, Depth, FindHash, Insert, Sweep, Rotate, GetActive, RevokeRow, Changing, LockedFor, LiveOf;
  }

  lemma StepKeepsOneChange(cap: nat, s: State, step: Step)
    requires OneChange(s)
    ensures OneChange(Apply(cap, s, step))
  {
    hide Apply;
    var t := Apply(cap, s, step);
    forall j, k | IsChange(t, j) && IsChange(t, k) && t.calls[j].user == t.calls[k].user ensures j == k {
      UnfinishedBefore(cap, s, step, j);
      UnfinishedBefore(cap, s, step, k);
      assert j in s.calls && Unfinished(s.calls[j]) ==> IsChange(s, j);
      assert k in s.calls && Unfinished(s.calls[k]) ==> IsChange(s, k);
    }
  }

  lemma {:induction false} ChangesFollowEachOther(cap: nat, ids: Ids, steps: seq<Step>)
    ensures OneChange(RunAll(cap, ids, steps))
  {
    hide Apply;
    if steps == [] {
    } else {
      ChangesFollowEachOther(cap, ids, steps[..|steps| - 1]);
      StepKeepsOneChange(cap, RunAll(cap, ids, steps[..|steps| - 1]), steps[|steps| - 1]);
    }
  }

  predicate IsSweep(s: State, k: nat) { k in s.calls && s.calls[k].Everywhere? }

  predicate IsWalk(s: State, k: nat) { k in s.calls && s.calls[k].Client? && s.calls[k].phase.Walking? }

  /** A walk waited for holds a token that was rotated, and wants a later one of the same person. */
  lemma WalkWantsLater(cap: nat, s: State, y: nat, x: nat)
    requires CallsFit(cap, s) && WaitsFor(s, y, x) && IsWalk(s, x)
    ensures Wants(s, x).Some? && Passes(s.rows, Wants(s, y).value, Wants(s, x).value)
  {
    hide Lowest, Follow, Depth, End;
    assert CallFits(cap, s.rows, s.calls[x]);
  }

  /** A call waited for is a walk, a log out everywhere, or a password change. */
  lemma HolderKinds(s: State, y: nat, x: nat)
    requires WaitsFor(s, y, x)
    ensures IsWalk(s, x) || IsSweep(s, x) || IsChange(s, x)
  {
    hide Wants;
  }

  lemma ChangeHoldsOld(cap: nat, s: State, y: nat, x: nat)
    requires CallsFit(cap, s) && WaitsFor(s, y, x) && IsChange(s, x)
    ensures var w := Wants(s, y).value;
            w < s.calls[x].lot.limit <= |s.rows| && s.rows[w].user == s.calls[x].user
  {
    hide Wants;
    assert CallFits(cap, s.rows, s.calls[x]);
    assert Wants(s, y).value in s.calls[x].lot.todo + s.calls[x].lot.held;
  }

  /** What a change wants is a live token, or one rotated since its revoke began. */
  lemma ChangeWantsFresh(cap: nat, s: State, d: nat)
    requires CallsFit(cap, s) && IsChange(s, d) && Wants(s, d).Some?
    ensures var w, lot := Wants(s, d).value, s.calls[d].lot;
            && w < |s.rows| && s.rows[w].user == s.calls[d].user
            && (s.rows[w].next.Some? ==> s.rows[w].next.value >= lot.limit)
  {
    assert CallFits(cap, s.rows, s.calls[d]);
  }

  /** From a change, through walks alone, every row wanted was stored after its revoke began. */
  lemma {:induction false} WalksFromChange(cap: nat, s: State, d: nat, n: nat, t: nat)
    requires CallsFit(cap, s) && OneChange(s) && IsChange(s, d) && OnCircle(s, d, n) && 0 < t <= n
    requires forall m: nat | m <= n :: Reach(s, d, m).Some? ==> !IsSweep(s, Reach(s, d, m).value)
    ensures Reach(s, d, t).Some? && IsWalk(s, Reach(s, d, t).value)
    ensures var w := Wants(s, Reach(s, d, t).value);
            w.Some? && s.calls[d].lot.limit <= w.value < |s.rows| && s.rows[w.value].user == s.calls[d].user
    decreases t
  {
    hide Wants, HeldBy, Reach, Holder, CallsFit;
    CircleReaches(s, d, n, t - 1);
    CircleReaches(s, d, n, t);
    ReachNext(s, d, t - 1);
    ReachZero(s, d);
    var y, x := Reach(s, d, t - 1).value, Reach(s, d, t).value;
    HolderKinds(s, y, x);
    if t == 1 {
      ChangeWantsFresh(cap, s, d);
    } else {
      WalksFromChange(cap, s, d, n, t - 1);
    }
    assert IsChange(s, x) && s.calls[x].user == s.calls[d].user ==> x == d;
    if IsChange(s, x) {
      ChangeHoldsOld(cap, s, y, x);
    } else {
      WalkWantsLater(cap, s, y, x);
    }
  }

  /** Through walks alone the rows wanted were stored later and later. */
  lemma {:induction false} WalksGoOn(cap: nat, s: State, c: nat, n: nat, t: nat)
    requires CallsFit(cap, s) && OnCircle(s, c, n) && 0 < t <= n
    requires forall m: nat | m <= n :: Reach(s, c, m).Some? ==> IsWalk(s, Reach(s, c, m).value)
    ensures c in s.calls && Wants(s, c).Some? && Reach(s, c, t).Some? && Reach(s, c, t).value in s.calls
    ensures var w := Wants(s, Reach(s, c, t).value); w.Some? && w.value > Wants(s, c).value
    decreases t
  {
    hide Wants, HeldBy, Reach, Holder, CallsFit;
    CircleReaches(s, c, n, t - 1);
    CircleReaches(s, c, n, t);
    ReachNext(s, c, t - 1);
    ReachZero(s, c);
    var y, x := Reach(s, c, t - 1).value, Reach(s, c, t).value;
    if t == 1 {
    } else {
      WalksGoOn(cap, s, c, n, t - 1);
    }
    WalkWantsLater(cap, s, y, x);
  }

  /** A circle is one from each of its calls. */
  lemma CircleFrom(s: State, c: nat, n: nat, m: nat)
    requires OnCircle(s, c, n) && Reach(s, c, m).Some?
    ensures OnCircle(s, Reach(s, c, m).value, n)
  {
    hide Reach;
    ReachSum(s, c, m, n);
    ReachSum(s, c, n, m);
  }

  lemma ChangeCircleHasSweep(cap: nat, s: State, d: nat, n: nat)
    requires CallsFit(cap, s) && OneChange(s) && IsChange(s, d) && OnCircle(s, d, n)
    ensures exists m :: Reach(s, d, m).Some? && IsSweep(s, Reach(s, d, m).value)
  {
    hide Wants, HeldBy, Reach, Holder, CallsFit;
    if forall m: nat | m <= n :: Reach(s, d, m).Some? ==> !IsSweep(s, Reach(s, d, m).value) {
      WalksFromChange(cap, s, d, n, n);
    }
  }

  /** A call on a circle is waited for. */
  lemma ReachHasWaiter(s: State, x: nat, n: nat)
    requires OnCircle(s, x, n)
    ensures IsWalk(s, x) || IsSweep(s, x) || IsChange(s, x)
  {
    hide Wants, HeldBy, Reach, Holder, IsWalk, IsSweep, IsChange;
    CircleReaches(s, x, n, n - 1);
    ReachNext(s, x, n - 1);
    HolderKinds(s, Reach(s, x, n - 1).value, x);
  }

  /** In every run each circle has a log out everywhere on it. */
  lemma EveryCircleHasSweep(cap: nat, ids: Ids, steps: seq<Step>, c: nat)
    requires InCircle(RunAll(cap, ids, steps), c)
    ensures var s := RunAll(cap, ids, steps); exists m :: Reach(s, c, m).Some? && IsSweep(s, Reach(s, c, m).value)
  {
    hide Run, Wants, HeldBy, Reach, Holder, OneChange;
    var s := RunAll(cap, ids, steps);
    RunIsSound(cap, ids, steps);
    ChangesFollowEachOther(cap, ids, steps);
    var n :| OnCircle(s, c, n);
    if d :| exists m :: Reach(s, c, m) == Some(d) && IsChange(s, d) {
      var m :| Reach(s, c, m) == Some(d) && IsChange(s, d);
      CircleFrom(s, c, n, m);
      ChangeCircleHasSweep(cap, s, d, n);
      var t :| Reach(s, d, t).Some? && IsSweep(s, Reach(s, d, t).value);
      ReachSum(s, c, m, t);
    } else if forall m: nat | m <= n :: Reach(s, c, m).Some? ==> IsWalk(s, Reach(s, c, m).value) {
      WalksGoOn(cap, s, c, n, n);
    } else {
      var m: nat :| m <= n && Reach(s, c, m).Some? && !IsWalk(s, Reach(s, c, m).value);
      var x := Reach(s, c, m).value;
      CircleFrom(s, c, n, m);
      ReachHasWaiter(s, x, n);
    }
  }

  lemma StepStartsNoSweep(cap: nat, s: State, step: Step)
    requires !step.EverywhereStarts? && forall k :: !IsSweep(s, k)
    ensures forall k :: !IsSweep(Apply(cap, s, step), k)
  {
    hide Follow, Depth, FindHash, Insert, Sweep, Rotate, GetActive, RevokeRow, LiveOf, Changing, LockedFor, IsLowest;
    forall k ensures !IsSweep(Apply(cap, s, step), k) {
      assert !IsSweep(s, k);
    }
  }

  lemma {:induction false} NoSweepStarted(cap: nat, ids: Ids, steps: seq<Step>)
    requires forall step :: step in steps ==> !step.EverywhereStarts?
    ensures forall k :: !IsSweep(RunAll(cap, ids, steps), k)
  {
    hide Apply;
    if steps == [] {
    } else {
      var rest, last := steps[..|steps| - 1], steps[|steps| - 1];
      assert last in steps;
      NoSweepStarted(cap, ids, rest);
      StepStartsNoSweep(cap, RunAll(cap, ids, rest), last);
    }
  }

  /** In a run without a log out everywhere, the waits of every call that is not answered lead to one that can move. */
  lemma CallsGetThrough(cap: nat, ids: Ids, steps: seq<Step>, k: nat)
    requires Injective(ids) && forall step :: step in steps ==> !step.EverywhereStarts?
    requires k in RunAll(cap, ids, steps).calls && Unanswered(RunAll(cap, ids, steps).calls[k])
    ensures Freed(RunAll(cap, ids, steps), k)
  {
    hide Run, Reach, Freed, IsSweep, Unanswered;
    var s := RunAll(cap, ids, steps);
    StuckExactly(cap, ids, steps, k);
    NoSweepStarted(cap, ids, steps);
    if ReachesCircle(s, k) {
      var m :| Reach(s, k, m).Some? && InCircle(s, Reach(s, k, m).value);
      EveryCircleHasSweep(cap, ids, steps, Reach(s, k, m).value);
    }
  }

  // ---- two circles ----

  lemma WaitsOnlyFor(cap: nat, s: State, k: nat, j: nat)
    requires Exclusive(s) && WaitsFor(s, k, j)
    ensures Holder(s, k) == Some(j)
  {
    hide Wants, HeldBy;
    assert WaitsFor(s, k, Holder(s, k).value);
  }

  lemma TwoAreCircle(cap: nat, s: State, k: nat, j: nat)
    requires Exclusive(s) && WaitsFor(s, k, j) && WaitsFor(s, j, k)
    ensures OnCircle(s, k, 2)
  {
    hide Holder, WaitsFor;
    WaitsOnlyFor(cap, s, k, j);
    WaitsOnlyFor(cap, s, j, k);
    ReachZero(s, k);
    ReachNext(s, k, 0);
    ReachNext(s, k, 1);
  }

  lemma ThreeAreCircle(cap: nat, s: State, k: nat, j: nat, i: nat)
    requires Exclusive(s) && WaitsFor(s, k, j) && WaitsFor(s, j, i) && WaitsFor(s, i, k)
    ensures OnCircle(s, k, 3)
  {
    hide Holder, WaitsFor;
    WaitsOnlyFor(cap, s, k, j);
    WaitsOnlyFor(cap, s, j, i);
    WaitsOnlyFor(cap, s, i, k);
    ReachZero(s, k);
    ReachNext(s, k, 0);
    ReachNext(s, k, 1);
    ReachNext(s, k, 2);
  }

  /** A change through its first revoke, a sign in, and a log out everywhere after it. */
  function ChangeThenSweep(ids: Ids, user: string, own: Digest, h0: Digest, h1: Digest): State {
    State(ids, [Newest(user, h0), Newest(user, h1)], 0,
          map[0 := Replacing(user, Some(own), 10, 1, Lot({}, {0}, 1), Holding(1)),
              1 := Everywhere(user, 2, Lot({0, 1}, {}, 2), Taking)], 2)
  }

  lemma ChangeFirst(cap: nat, ids: Ids, user: string, own: Digest, h0: Digest)
    ensures Three(cap, Empty(ids), Issue(user, h0, 10), ReplaceStarts(user, Some(own), 10), Takes(0, 0)) ==
            State(ids, [Newest(user, h0)], 0, map[0 := Replacing(user, Some(own), 10, 1, Lot({}, {0}, 1), First)], 1)
  {
    hide FindHash, LiveOf;
    Finds([], h0);
    var s1 := Apply(cap, Empty(ids), Issue(user, h0, 10));
    assert s1.rows == [Newest(user, h0)];
    LiveRows(s1.rows, user);
    assert LiveOf(s1.rows, user) - {} == {0};
    var s2 := Apply(cap, s1, ReplaceStarts(user, Some(own), 10));
    assert s2.calls == map[0 := Replacing(user, Some(own), 10, 1, Lot({0}, {}, 1), First)];
    var s3 := Apply(cap, s2, Takes(0, 0));
    assert s3.calls[0].lot == Lot({}, {0}, 1);
    assert s3.calls == map[0 := Replacing(user, Some(own), 10, 1, Lot({}, {0}, 1), First)];
  }

  lemma SweepSecond(cap: nat, ids: Ids, user: string, own: Digest, h0: Digest, h1: Digest)
    requires h0 != h1
    ensures Three(cap, State(ids, [Newest(user, h0)], 0,
                             map[0 := Replacing(user, Some(own), 10, 1, Lot({}, {0}, 1), First)], 1),
                  ReplaceHolds(0), Issue(user, h1, 10), EverywhereStarts(user)) ==
            ChangeThenSweep(ids, user, own, h0, h1)
  {
    hide FindHash, LiveOf;
    var s3 := State(ids, [Newest(user, h0)], 0, map[0 := Replacing(user, Some(own), 10, 1, Lot({}, {0}, 1), First)], 1);
    Finds(s3.rows, h1);
    var s5 := Apply(cap, Apply(cap, s3, ReplaceHolds(0)), Issue(user, h1, 10));
    assert s5.rows == [Newest(user, h0), Newest(user, h1)];
    LiveRows(s5.rows, user);
    assert LiveOf(s5.rows, user) - {} == {0, 1};
    var s6 := Apply(cap, s5, EverywhereStarts(user));
    assert s6.calls[1] == Everywhere(user, 2, Lot({0, 1}, {}, 2), Taking);
    assert s6.calls == ChangeThenSweep(ids, user, own, h0, h1).calls;
  }

  lemma EachHasOnes(cap: nat, ids: Ids, user: string, own: Digest, h0: Digest, h1: Digest)
    requires Injective(ids) && ids(1) < ids(0)
    ensures var s := Three(cap, ChangeThenSweep(ids, user, own, h0, h1), ReplaceAgain(0), Takes(1, 1), Ticks(1));
            WaitsFor(s, 0, 1) && WaitsFor(s, 1, 0)
  {
    hide LiveOf;
    var s6 := ChangeThenSweep(ids, user, own, h0, h1);
    LiveRows(s6.rows, user);
    var s7 := Apply(cap, s6, ReplaceAgain(0));
    assert s7.calls[0] == Replacing(user, Some(own), 10, 1, Lot({1}, {0}, 2), Again(1, 2));
    assert IsLowest(ids, {0, 1}, 1);
    var s8 := Apply(cap, s7, Takes(1, 1));
    assert s8.calls[1].lot == Lot({0}, {1}, 2) && s8.calls[0] == s7.calls[0];
    var s9 := Apply(cap, s8, Ticks(1));
    OnlyLowest(ids, {1}, 1);
    OnlyLowest(ids, {0}, 0);
  }

  lemma CircleIsUnanswered(s: State, k: nat, n: nat)
    requires OnCircle(s, k, n)
    ensures k in s.calls && Unanswered(s.calls[k])
  {
    hide Wants, HeldBy, Reach, Holder, Unanswered;
    CircleReaches(s, k, n, n - 1);
    ReachNext(s, k, n - 1);
    HolderIsUnanswered(s, Reach(s, k, n - 1).value);
  }

  lemma StuckAtOnce(cap: nat, ids: Ids, steps: seq<Step>, k: nat, n: nat)
    requires Injective(ids) && OnCircle(RunAll(cap, ids, steps), k, n)
    ensures InCircle(RunAll(cap, ids, steps), k) && !Freed(RunAll(cap, ids, steps), k)
  {
    hide Run, Reach, OnCircle, Freed, Holder, CanMove;
    var s := RunAll(cap, ids, steps);
    CircleIsUnanswered(s, k, n);
    StuckExactly(cap, ids, steps, k);
    ReachZero(s, k);
    assert InCircle(s, k);
  }

  lemma WaitersAreStuck(cap: nat, ids: Ids, steps: seq<Step>, k: nat, j: nat)
    requires Injective(ids) && WaitsFor(RunAll(cap, ids, steps), k, j) && WaitsFor(RunAll(cap, ids, steps), j, k)
    ensures InCircle(RunAll(cap, ids, steps), k) && !Freed(RunAll(cap, ids, steps), k)
  {
    hide Run, Reach, OnCircle, Freed, Holder, CanMove;
    var s := RunAll(cap, ids, steps);
    RunIsSound(cap, ids, steps);
    TwoAreCircle(cap, s, k, j);
    StuckAtOnce(cap, ids, steps, k, 2);
  }

  /**
   A run that ends in a circle: a password change holds the token its first revoke took; a sign in stores
   one whose id sorts below it; a log out everywhere takes the new one, and each now wants the other's.
   */
  lemma ChangeMeetsSweep(cap: nat, ids: Ids, user: string, own: Digest, h0: Digest, h1: Digest)
    requires Injective(ids) && ids(1) < ids(0) && h0 != h1
    ensures var s := RunAll(cap, ids, [Issue(user, h0, 10), ReplaceStarts(user, Some(own), 10), Takes(0, 0),
                                       ReplaceHolds(0), Issue(user, h1, 10), EverywhereStarts(user),
                                       ReplaceAgain(0), Takes(1, 1), Ticks(1)]);
            && WaitsFor(s, 0, 1) && WaitsFor(s, 1, 0) && InCircle(s, 0) && !Freed(s, 0) && !Freed(s, 1)
  {
    hide Run, Apply, WaitsFor, Reach, OnCircle, Freed, Holder, CanMove;
    var steps := [Issue(user, h0, 10), ReplaceStarts(user, Some(own), 10), Takes(0, 0),
                  ReplaceHolds(0), Issue(user, h1, 10), EverywhereStarts(user),
                  ReplaceAgain(0), Takes(1, 1), Ticks(1)];
    var s := RunAll(cap, ids, steps);
    RunOfTriples(cap, ids, steps);
    assert steps[..9] == steps;
    ChangeFirst(cap, ids, user, own, h0);
    SweepSecond(cap, ids, user, own, h0, h1);
    EachHasOnes(cap, ids, user, own, h0, h1);
    WaitersAreStuck(cap, ids, steps, 0, 1);
    WaitersAreStuck(cap, ids, steps, 1, 0);
  }

  /** A walk about to begin, a refresh of its token, and a first log out everywhere. */
  function WalkBegins(ids: Ids, user: string, h0: Digest, h1: Digest): State {
    State(ids, [Newest(user, h0), Newest(user, h1)], 0,
          map[0 := Client(h0, Some(0), true, Walking(0, 0, {})), 1 := Client(h0, Some(0), false, Checked(0)),
              2 := Everywhere(user, 2, Lot({0, 1}, {}, 2), Taking)], 3)
  }

  /** The token rotated and passed, and a second log out everywhere. */
  function WalkPasses(ids: Ids, user: string, h0: Digest, h1: Digest, h2: Digest): State {
    State(ids, [Rotated(user, h0, 2), Newest(user, h1), Newest(user, h2)], 0,
          map[0 := Client(h0, Some(0), true, Walking(2, 1, {0})), 1 := Client(h0, Some(0), false, Done(Redeemed(0, 2))),
              2 := Everywhere(user, 2, Lot({0, 1}, {}, 2), Taking),
              3 := Everywhere(user, 3, Lot({1, 2}, {}, 3), Taking)], 4)
  }

  lemma LogOutBegins(cap: nat, ids: Ids, user: string, h0: Digest, h1: Digest)
    requires h0 != h1
    ensures Three(cap, Empty(ids), Issue(user, h0, 10), Issue(user, h1, 10), RevokeStarts(h0)) ==
            State(ids, [Newest(user, h0), Newest(user, h1)], 0, map[0 := Client(h0, Some(0), true, Ending)], 1)
  {
    hide FindHash;
    Finds([], h0);
    var s1 := Apply(cap, Empty(ids), Issue(user, h0, 10));
    assert s1.rows == [Newest(user, h0)];
    Finds(s1.rows, h1);
    var s2 := Apply(cap, s1, Issue(user, h1, 10));
    assert s2.rows == [Newest(user, h0), Newest(user, h1)];
    Finds(s2.rows, h0);
  }

  lemma WalkBeginsHere(cap: nat, ids: Ids, user: string, h0: Digest, h1: Digest)
    requires h0 != h1
    ensures Three(cap, State(ids, [Newest(user, h0), Newest(user, h1)], 0,
                             map[0 := Client(h0, Some(0), true, Ending)], 1),
                  Looks(0), RedeemStarts(h0), EverywhereStarts(user)) == WalkBegins(ids, user, h0, h1)
  {
    hide FindHash, LiveOf;
    var s3 := State(ids, [Newest(user, h0), Newest(user, h1)], 0, map[0 := Client(h0, Some(0), true, Ending)], 1);
    Finds(s3.rows, h0);
    LiveRows(s3.rows, user);
    assert LiveOf(s3.rows, user) - {} == {0, 1};
    var s4 := Apply(cap, s3, Looks(0));
    assert s4.calls == map[0 := Client(h0, Some(0), true, Walking(0, 0, {}))];
    var s5 := Apply(cap, s4, RedeemStarts(h0));
    assert s5.calls[1] == Client(h0, Some(0), false, Checked(0));
    var s6 := Apply(cap, s5, EverywhereStarts(user));
    assert s6.calls[2] == Everywhere(user, 2, Lot({0, 1}, {}, 2), Taking);
    assert s6.calls == WalkBegins(ids, user, h0, h1).calls;
  }

  lemma LastTwoAreLive(user: string, h0: Digest, h1: Digest, h2: Digest)
    ensures LiveOf([Rotated(user, h0, 2), Newest(user, h1), Newest(user, h2)], user) == {1, 2}
  {
  }

  /** The token rotated and passed. */
  function Passed(ids: Ids, user: string, h0: Digest, h1: Digest, h2: Digest): State {
    State(ids, [Rotated(user, h0, 2), Newest(user, h1), Newest(user, h2)], 0,
          map[0 := Client(h0, Some(0), true, Walking(2, 1, {0})), 1 := Client(h0, Some(0), false, Done(Redeemed(0, 2))),
              2 := Everywhere(user, 2, Lot({0, 1}, {}, 2), Taking)], 3)
  }

  lemma RotatedAndPassed(cap: nat, ids: Ids, user: string, h0: Digest, h1: Digest, h2: Digest)
    requires h0 != h1 && h0 != h2 && h1 != h2 && cap > 0
    ensures Apply(cap, Apply(cap, WalkBegins(ids, user, h0, h1), RedeemRotates(1, h2, 10)), Walks(0)) ==
            Passed(ids, user, h0, h1, h2)
  {
    hide FindHash, LiveOf;
    var s6 := WalkBegins(ids, user, h0, h1);
    Finds(s6.rows, h2);
    var s7 := Apply(cap, s6, RedeemRotates(1, h2, 10));
    assert s7.rows == [Rotated(user, h0, 2), Newest(user, h1), Newest(user, h2)];
    assert s7.calls[1] == Client(h0, Some(0), false, Done(Redeemed(0, 2)));
    assert !LockedFor(s7, 0, 0) && {} + {0} == {0};
    var s8 := Apply(cap, s7, Walks(0));
    assert s8.calls[0] == Client(h0, Some(0), true, Walking(2, 1, {0})) && s8.rows == s7.rows;
    assert s8.calls == Passed(ids, user, h0, h1, h2).calls;
  }

  lemma SecondSweepBegins(cap: nat, ids: Ids, user: string, h0: Digest, h1: Digest, h2: Digest)
    ensures Apply(cap, Passed(ids, user, h0, h1, h2), EverywhereStarts(user)) == WalkPasses(ids, user, h0, h1, h2)
  {
    hide LiveOf;
    var s8 := Passed(ids, user, h0, h1, h2);
    LastTwoAreLive(user, h0, h1, h2);
    assert LiveOf(s8.rows, user) - {} == {1, 2};
    var s9 := Apply(cap, s8, EverywhereStarts(user));
    assert s9.calls[3] == Everywhere(user, 3, Lot({1, 2}, {}, 3), Taking);
    assert s9.calls == WalkPasses(ids, user, h0, h1, h2).calls;
  }

  lemma WalkPassesHere(cap: nat, ids: Ids, user: string, h0: Digest, h1: Digest, h2: Digest)
    requires h0 != h1 && h0 != h2 && h1 != h2 && cap > 0
    ensures Three(cap, WalkBegins(ids, user, h0, h1), RedeemRotates(1, h2, 10), Walks(0), EverywhereStarts(user)) ==
            WalkPasses(ids, user, h0, h1, h2)
  {
    hide LiveOf, Possible, DoWalk, DoRotate;
    RotatedAndPassed(cap, ids, user, h0, h1, h2);
    SecondSweepBegins(cap, ids, user, h0, h1, h2);
  }

  /** Each log out everywhere has taken its first row. */
  function EachTook(ids: Ids, user: string, h0: Digest, h1: Digest, h2: Digest): State {
    WalkPasses(ids, user, h0, h1, h2).(
    calls := map[0 := Client(h0, Some(0), true, Walking(2, 1, {0})),
                 1 := Client(h0, Some(0), false, Done(Redeemed(0, 2))),
                 2 := Everywhere(user, 2, Lot({0}, {1}, 2), Taking),
                 3 := Everywhere(user, 3, Lot({1}, {2}, 3), Taking)])
  }

  lemma EachTakes(cap: nat, ids: Ids, user: string, h0: Digest, h1: Digest, h2: Digest)
    requires ids(2) < ids(1) < ids(0)
    ensures Three(cap, WalkPasses(ids, user, h0, h1, h2), Takes(2, 1), Takes(3, 2), Ticks(1)) ==
            EachTook(ids, user, h0, h1, h2).(now := 1)
  {
    var s9 := WalkPasses(ids, user, h0, h1, h2);
    assert IsLowest(ids, {0, 1}, 1) && IsLowest(ids, {1, 2}, 2);
    assert {0, 1} - {1} == {0} && {1, 2} - {2} == {1} && {} + {1} == {1} && {} + {2} == {2};
    var s10 := Apply(cap, s9, Takes(2, 1));
    assert s10.calls == s9.calls[2 := Everywhere(user, 2, Lot({0}, {1}, 2), Taking)];
    var s11 := Apply(cap, s10, Takes(3, 2));
    assert s11.calls == EachTook(ids, user, h0, h1, h2).calls;
  }

  lemma EachHasNexts(cap: nat, ids: Ids, user: string, h0: Digest, h1: Digest, h2: Digest)
    requires Injective(ids) && ids(2) < ids(1) < ids(0)
    ensures var s := Three(cap, WalkPasses(ids, user, h0, h1, h2), Takes(2, 1), Takes(3, 2), Ticks(1));
            WaitsFor(s, 0, 3) && WaitsFor(s, 3, 2) && WaitsFor(s, 2, 0)
  {
    hide Three;
    EachTakes(cap, ids, user, h0, h1, h2);
    OnlyLowest(ids, {1}, 1);
    OnlyLowest(ids, {0}, 0);
  }

  /**
   Another such run, with no password change: a log out walks past a token that was rotated under it and
   holds it; of two log outs everywhere, one begun before the rotation and one after, the first wants the
   token passed, the second a token the first has, and the walk the second's.
   */
  lemma WalkMeetsSweeps(cap: nat, ids: Ids, user: string, h0: Digest, h1: Digest, h2: Digest)
    requires Injective(ids) && ids(2) < ids(1) < ids(0) && h0 != h1 && h0 != h2 && h1 != h2 && cap > 0
    ensures var s := RunAll(cap, ids, [Issue(user, h0, 10), Issue(user, h1, 10), RevokeStarts(h0),
                                       Looks(0), RedeemStarts(h0), EverywhereStarts(user),
                                       RedeemRotates(1, h2, 10), Walks(0), EverywhereStarts(user),
                                       Takes(2, 1), Takes(3, 2), Ticks(1)]);
            WaitsFor(s, 0, 3) && WaitsFor(s, 3, 2) && WaitsFor(s, 2, 0) && InCircle(s, 0) && !Freed(s, 0)
  {
    hide Run, Apply, WaitsFor, Reach, OnCircle, Freed, Holder, CanMove;
    var steps := [Issue(user, h0, 10), Issue(user, h1, 10), RevokeStarts(h0),
                  Looks(0), RedeemStarts(h0), EverywhereStarts(user),
                  RedeemRotates(1, h2, 10), Walks(0), EverywhereStarts(user),
                  Takes(2, 1), Takes(3, 2), Ticks(1)];
    var s := RunAll(cap, ids, steps);
    RunOfTriples(cap, ids, steps);
    assert steps[..12] == steps;
    LogOutBegins(cap, ids, user, h0, h1);
    WalkBeginsHere(cap, ids, user, h0, h1);
    WalkPassesHere(cap, ids, user, h0, h1, h2);
    EachHasNexts(cap, ids, user, h0, h1, h2);
    RunIsSound(cap, ids, steps);
    ThreeAreCircle(cap, s, 0, 3, 2);
    StuckAtOnce(cap, ids, steps, 0, 3);
  }
}
