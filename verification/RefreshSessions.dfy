/** What refresh tokens promise over every run of refreshes, log outs and sign ins. */
module RefreshSessions {
  import opened Base64
  import opened Numbers
  import opened Options
  import opened RefreshTable
  import opened RefreshRuns
  import RefreshService

  function RunAll(cap: nat, ids: Ids, steps: seq<Step>): State { Run(cap, Empty(ids), steps) }

  lemma RunIsSound(cap: nat, ids: Ids, steps: seq<Step>)
    ensures Inv(cap, RunAll(cap, ids, steps))
  {
    EmptyFits(cap, ids);
    RunKeeps(cap, Empty(ids), steps);
  }

  ghost predicate SameSession(rows: seq<Row>, i: nat, j: nat) {
    i < |rows| && j < |rows| && End(rows, i) == End(rows, j)
  }

  /** Rotation links form lines that never meet, each with at most one live token, its last. */
  lemma SessionsAreLines(cap: nat, ids: Ids, steps: seq<Step>, i: nat, j: nat)
    requires SameSession(RunAll(cap, ids, steps).rows, i, j)
    ensures var rows := RunAll(cap, ids, steps).rows;
            && (Live(rows, i) ==> i == End(rows, j))
            && (Live(rows, i) && Live(rows, j) ==> i == j)
            && (Depth(rows, i) >= Depth(rows, j) ==> Follow(rows, i, Depth(rows, i) - Depth(rows, j)) == j)
  {
    hide Run, Follow, Depth, End;
    RunIsSound(cap, ids, steps);
    var rows := RunAll(cap, ids, steps).rows;
    if Live(rows, i) {
      OneLiveToken(rows, j, i);
    }
    if Live(rows, j) {
      OneLiveToken(rows, i, j);
    }
    if Depth(rows, i) >= Depth(rows, j) {
      ChainIsLine(rows, i, j);
    }
  }

  /** No token is ever redeemed by two calls. */
  lemma NoTokenRedeemedTwice(cap: nat, ids: Ids, steps: seq<Step>, j: nat, k: nat, id: nat)
    requires var s := RunAll(cap, ids, steps);
             j in s.calls && k in s.calls && HasRedeemed(s.calls[j], id) && HasRedeemed(s.calls[k], id)
    ensures j == k
  {
    hide Run;
    RunIsSound(cap, ids, steps);
  }

  lemma {:induction false} RunConcat(cap: nat, s: State, a: seq<Step>, b: seq<Step>)
    ensures Run(cap, s, a + b) == Run(cap, Run(cap, s, a), b)
  {
    hide Apply;
    if b == [] {
      assert a + b == a;
    } else {
      assert (a + b)[..|a + b| - 1] == a + b[..|b| - 1];
      RunConcat(cap, s, a, b[..|b| - 1]);
    }
  }

  /** A session that is over stays over, whatever runs after it. */
  lemma OverForGood(cap: nat, ids: Ids, steps: seq<Step>, more: seq<Step>, i: nat)
    requires i < |RunAll(cap, ids, steps).rows| && Dead(RunAll(cap, ids, steps).rows, i)
    ensures var rows := RunAll(cap, ids, steps + more).rows;
            i < |rows| && Dead(rows, i) && End(rows, i) == End(RunAll(cap, ids, steps).rows, i)
  {
    hide Run, Dead, End;
    RunIsSound(cap, ids, steps);
    RunIsSound(cap, ids, steps + more);
    RunConcat(cap, Empty(ids), steps, more);
    RunKeeps(cap, RunAll(cap, ids, steps), more);
    DeadStays(RunAll(cap, ids, steps).rows, RunAll(cap, ids, steps + more).rows, i);
  }

  /** The call presented token i and came to an answer of the session's, not to a failure. */
  predicate Answered(s: State, k: nat, i: nat) {
    && At(s, k) && s.calls[k].token == Some(i) && s.calls[k].phase.Done?
    && s.calls[k].phase.outcome != Failed && s.calls[k].phase.outcome != Lapsed
  }

  predicate GotToken(s: State, k: nat) { At(s, k) && s.calls[k].phase.Done? && s.calls[k].phase.outcome.Redeemed? }

  /** A refused refresh or a log out leaves no live token in the session within the cap. */
  lemma RefusalEndsSession(cap: nat, ids: Ids, steps: seq<Step>, k: nat, i: nat)
    requires Answered(RunAll(cap, ids, steps), k, i) && !GotToken(RunAll(cap, ids, steps), k)
    ensures var rows := RunAll(cap, ids, steps).rows; i < |rows| && (Depth(rows, i) <= cap ==> Dead(rows, i))
  {
    hide Run, Depth, End;
    RunIsSound(cap, ids, steps);
    assert CallFits(cap, RunAll(cap, ids, steps).rows, RunAll(cap, ids, steps).calls[k]);
  }

  /** Of two refreshes of one token at most one gets a new token, and then the session is over. */
  lemma RacingRefreshes(cap: nat, ids: Ids, steps: seq<Step>, j: nat, k: nat, i: nat)
    requires j != k && Answered(RunAll(cap, ids, steps), j, i) && Answered(RunAll(cap, ids, steps), k, i)
    ensures var s := RunAll(cap, ids, steps);
            && !(GotToken(s, j) && GotToken(s, k))
            && i < |s.rows| && (Depth(s.rows, i) <= cap ==> Dead(s.rows, i))
  {
    hide Run, Depth, End;
    RunIsSound(cap, ids, steps);
    var s := RunAll(cap, ids, steps);
    assert CallFits(cap, s.rows, s.calls[j]) && CallFits(cap, s.rows, s.calls[k]);
    assert GotToken(s, j) ==> HasRedeemed(s.calls[j], i);
    assert GotToken(s, k) ==> HasRedeemed(s.calls[k], i);
    if GotToken(s, j) {
      RefusalEndsSession(cap, ids, steps, k, i);
    } else {
      RefusalEndsSession(cap, ids, steps, j, i);
    }
  }

  lemma LastIsAtEnd(rows: seq<Row>, e: nat)
    requires NextOf(rows, e).None?
    ensures Depth(rows, e) == 0
  {
  }

  /** The walk of a call touches only its own session, and nothing when its token is too old. */
  lemma WalkTouchesItsSession(cap: nat, ids: Ids, steps: seq<Step>, k: nat, i: nat, j: nat)
    requires var s := RunAll(cap, ids, steps);
             Possible(s, Walks(k)) && s.calls[k].token == Some(i) && j < |s.rows|
    ensures var (s, t) := (RunAll(cap, ids, steps), Apply(cap, RunAll(cap, ids, steps), Walks(k)));
            && |t.rows| == |s.rows|
            && (t.rows[j] != s.rows[j] ==> j == End(s.rows, i) && Depth(s.rows, i) <= cap && !Dead(s.rows, i))
  {
    hide Run, Depth, Follow;
    RunIsSound(cap, ids, steps);
    var s := RunAll(cap, ids, steps);
    assert CallFits(cap, s.rows, s.calls[k]);
    var end := s.calls[k].phase.end;
    FollowIs(s.rows, i, s.calls[k].phase.step);
    assert LinkFits(s.rows, end);
    if s.rows[end].next.None? {
      EndIsItself(s.rows, end);
      assert Depth(s.rows, end) == 0 by {
        LastIsAtEnd(s.rows, end);
      }
    }
  }

  // ---- what each step stores and changes ----

  /** The row a step stores, if it stores one: a sign in's, a refresh's, or the one a change ends with. */
  function NewRow(s: State, step: Step): Option<Row> {
    match step
    case Issue(user, hash, expires) => Some(Row(user, hash, expires, false, None))
    case RedeemRotates(call, hash, expires) =>
      if At(s, call) && s.calls[call].phase.Checked? && s.calls[call].phase.id < |s.rows| then
        Some(Row(s.rows[s.calls[call].phase.id].user, hash, expires, false, None))
      else None
    case ReplaceCommits(call) =>
      if Replaces(s, call) && s.calls[call].own.Some? then
        Some(Row(s.calls[call].user, s.calls[call].own.value, s.calls[call].expires, false, None))
      else None
    case _ => None
  }

  /** A step stores at most that row, at the end. */
  lemma StoresOnly(cap: nat, s: State, step: Step)
    requires Inv(cap, s)
    ensures var t := Apply(cap, s, step);
            || |t.rows| == |s.rows|
            || (|t.rows| == |s.rows| + 1 && NewRow(s, step) == Some(t.rows[|s.rows|]))
  {
    hide FindHash, Follow, Depth, End, WellLinked, RedeemedOnce, Exclusive, LotFits, LiveOf, Changing, LockedFor,
         IsLowest;
  }

  /** Which live tokens a step may revoke. */
  predicate Ends(s: State, step: Step, j: nat)
    requires j < |s.rows|
  {
    match step
    case RedeemRotates(call, _, _) => At(s, call) && s.calls[call].phase == Checked(j)
    case Walks(call) => At(s, call) && s.calls[call].phase.Walking? && s.calls[call].phase.end == j
    case EverywhereSweeps(call) => call in s.calls && s.calls[call].Everywhere? && s.rows[j].user == s.calls[call].user
    case ReplaceCommits(call) => Replaces(s, call) && s.rows[j].user == s.calls[call].user
    case _ => false
  }

  /**
   A row that a step changes was live and is revoked, and nothing else about it changes, but that the row
   a refresh rotated names the one it stored.
   */
  lemma ChangesOnly(cap: nat, s: State, step: Step, j: nat)
    requires Inv(cap, s) && j < |s.rows| && Apply(cap, s, step).rows[j] != s.rows[j]
    ensures Ends(s, step, j) && Live(s.rows, j)
    ensures Apply(cap, s, step).rows[j] ==
            s.rows[j].(revoked := true, next := if step.RedeemRotates? then Some(|s.rows|) else None)
  {
    hide FindHash, Follow, Depth, End, RedeemedOnce, Exclusive, LotFits, LiveOf, Changing, LockedFor, IsLowest;
    assert LinkFits(s.rows, j);
  }

  lemma RotationStores(cap: nat, s: State, k: nat, hash: Digest, expires: int)
    requires Inv(cap, s) && At(s, k) && s.calls[k].phase.Checked?
    ensures var t := Apply(cap, s, RedeemRotates(k, hash, expires));
            GotToken(t, k) ==>
              && t.calls[k].phase.outcome == Redeemed(s.calls[k].phase.id, |s.rows|)
              && |t.rows| == |s.rows| + 1
              && t.rows[|s.rows|] == Row(s.rows[s.calls[k].phase.id].user, hash, expires, false, None)
  {
    hide FindHash, Follow, Depth, End, WellLinked, RedeemedOnce, Exclusive, LotFits, LockedFor;
    assert CallFits(cap, s.rows, s.calls[k]);
  }

  lemma KeepsRow(a: seq<Row>, b: seq<Row>, i: nat)
    requires Evolves(a, b) && i < |a|
    ensures i < |b| && b[i].user == a[i].user && b[i].hash == a[i].hash && b[i].expires == a[i].expires
  {
    assert RowEvolves(a[i], b[i], |a|);
  }

  lemma CheckedIsThere(cap: nat, s: State, k: nat)
    requires Inv(cap, s) && At(s, k) && s.calls[k].phase.Checked?
    ensures s.calls[k].phase.id < |s.rows| && s.calls[k].token == Some(s.calls[k].phase.id)
  {
    assert CallFits(cap, s.rows, s.calls[k]);
  }

  lemma RunOfFew(cap: nat, s: State, steps: seq<Step>)
    ensures |steps| == 1 ==> Run(cap, s, steps) == Apply(cap, s, steps[0])
    ensures |steps| == 2 ==> Run(cap, s, steps) == Apply(cap, Apply(cap, s, steps[0]), steps[1])
    ensures |steps| == 3 ==> Run(cap, s, steps) == Apply(cap, Apply(cap, Apply(cap, s, steps[0]), steps[1]), steps[2])
  {
    hide Apply;
    if |steps| == 1 {
      assert steps[..0] == [];
    } else if |steps| == 2 || |steps| == 3 {
      RunOfFew(cap, s, steps[..|steps| - 1]);
    }
  }

  /**
   In every run: the token a refresh got belongs to the person whose token it presented and keeps the
   digest and the expiry that refresh gave it, whatever runs afterwards.
   */
  lemma GrantKeepsExpiry(cap: nat, ids: Ids, steps: seq<Step>, k: nat, hash: Digest, expires: int, more: seq<Step>)
    requires var s := RunAll(cap, ids, steps);
             && At(s, k) && s.calls[k].phase.Checked?
             && GotToken(RunAll(cap, ids, steps + [RedeemRotates(k, hash, expires)]), k)
    ensures var s, t, u := RunAll(cap, ids, steps), RunAll(cap, ids, steps + [RedeemRotates(k, hash, expires)]),
                           RunAll(cap, ids, steps + [RedeemRotates(k, hash, expires)] + more);
            var id, n := t.calls[k].phase.outcome.id, t.calls[k].phase.outcome.newId;
            && id < n < |u.rows| && s.calls[k].token == Some(id)
            && u.rows[n].user == u.rows[id].user && u.rows[n].hash == hash && u.rows[n].expires == expires
  {
    hide Run, Apply, Inv, Evolves;
    var upTo := steps + [RedeemRotates(k, hash, expires)];
    var s, t, u := RunAll(cap, ids, steps), RunAll(cap, ids, upTo), RunAll(cap, ids, upTo + more);
    RunIsSound(cap, ids, steps);
    RunIsSound(cap, ids, upTo);
    RunConcat(cap, Empty(ids), upTo, more);
    RunConcat(cap, Empty(ids), steps, [RedeemRotates(k, hash, expires)]);
    RunOfFew(cap, s, [RedeemRotates(k, hash, expires)]);
    RotationStores(cap, s, k, hash, expires);
    RunKeeps(cap, s, [RedeemRotates(k, hash, expires)]);
    RunKeeps(cap, t, more);
    CheckedIsThere(cap, s, k);
    KeepsRow(s.rows, t.rows, s.calls[k].phase.id);
    KeepsRow(t.rows, u.rows, s.calls[k].phase.id);
    KeepsRow(t.rows, u.rows, |s.rows|);
  }

  /** A log out everywhere leaves none of the tokens that were there when it began. */
  lemma EverywhereEnds(cap: nat, ids: Ids, steps: seq<Step>, k: nat, i: nat)
    requires var s := RunAll(cap, ids, steps);
             k in s.calls && s.calls[k].Everywhere? && s.calls[k].sweep.Through? && i < s.calls[k].upTo
    ensures var s := RunAll(cap, ids, steps);
            i < |s.rows| && (s.rows[i].user == s.calls[k].user ==> !Live(s.rows, i))
  {
    hide Run;
    RunIsSound(cap, ids, steps);
    var s := RunAll(cap, ids, steps);
    assert CallFits(cap, s.rows, s.calls[k]);
  }

  lemma {:induction false} EndAfterSweep(rows: seq<Row>, user: string, upTo: nat, i: nat)
    ensures End(Sweep(rows, user, upTo), i) == End(rows, i)
    decreases |rows| - i
  {
    assert NextOf(Sweep(rows, user, upTo), i) == NextOf(rows, i);
    if NextOf(rows, i).None? {
    } else {
      EndAfterSweep(rows, user, upTo, NextOf(rows, i).value);
    }
  }

  lemma {:induction false} EndHasUser(rows: seq<Row>, i: nat)
    requires WellLinked(rows) && i < |rows|
    ensures rows[End(rows, i)].user == rows[i].user
    decreases |rows| - i
  {
    assert LinkFits(rows, i);
    if NextOf(rows, i).None? {
    } else {
      EndHasUser(rows, NextOf(rows, i).value);
    }
  }

  /** It ends a session exactly when the session was over or was not rotated after it began. */
  lemma SweepEndsSession(rows: seq<Row>, user: string, upTo: nat, i: nat)
    requires WellLinked(rows) && i < |rows| && rows[i].user == user
    ensures Dead(Sweep(rows, user, upTo), i) <==> Dead(rows, i) || End(rows, i) < upTo
  {
    hide End;
    EndAfterSweep(rows, user, upTo, i);
    EndHasUser(rows, i);
    SweepLeaves(rows, user, upTo, End(rows, i));
  }

  // ---- password changes ----

  lemma SweepKeepsUsers(rows: seq<Row>, user: string, upTo: nat, i: nat)
    requires i < |rows|
    ensures Sweep(rows, user, upTo)[i].user == rows[i].user
  {
  }

  /** As a password change ends, the person's live tokens are its own and those stored since its second revoke began. */
  lemma ReplacingLeaves(rows: seq<Row>, user: string, seenTo: nat, hash: Digest, expires: int, i: nat)
    requires seenTo <= |rows| && Insert(Sweep(rows, user, seenTo), user, hash, expires).Ok?
    ensures var after := Insert(Sweep(rows, user, seenTo), user, hash, expires).value;
            i < |after| && after[i].user == user ==> (Live(after, i) <==> i == |rows| || (i >= seenTo && Live(rows, i)))
  {
    hide Sweep, FindHash;
    if i < |rows| {
      SweepLeaves(rows, user, seenTo, i);
      SweepKeepsUsers(rows, user, seenTo, i);
    }
  }

  lemma {:induction false} EndAfterInsert(rows: seq<Row>, last: Row, i: nat)
    requires WellLinked(rows) && i < |rows|
    ensures End(rows + [last], i) == End(rows, i)
    decreases |rows| - i
  {
    assert LinkFits(rows, i);
    assert NextOf(rows + [last], i) == NextOf(rows, i);
    if NextOf(rows, i).None? {
    } else {
      EndAfterInsert(rows, last, NextOf(rows, i).value);
    }
  }

  /** It ends a session exactly when the session was over or was not rotated since the second revoke began. */
  lemma ReplacingEndsSession(rows: seq<Row>, user: string, seenTo: nat, hash: Digest, expires: int, i: nat)
    requires WellLinked(rows) && i < |rows| && rows[i].user == user
    requires Insert(Sweep(rows, user, seenTo), user, hash, expires).Ok?
    ensures var after := Insert(Sweep(rows, user, seenTo), user, hash, expires).value;
            Dead(after, i) <==> Dead(rows, i) || End(rows, i) < seenTo
  {
    hide End, WellLinked, FindHash;
    var swept := Sweep(rows, user, seenTo);
    SweepKeeps(rows, user, seenTo);
    SweepEndsSession(rows, user, seenTo, i);
    EndAfterSweep(rows, user, seenTo, i);
    EndAfterInsert(swept, Row(user, hash, expires, false, None), i);
  }

  /** The token of the session that a change's first revoke met rotated, if the session outlived the change. */
  lemma {:induction false} RotatedPast(rows: seq<Row>, user: string, upTo: nat, mark: nat, seenTo: nat, i: nat)
    returns (n: nat)
    requires WellLinked(rows) && Stopped(rows, user, upTo, mark) && mark <= seenTo && Swept(rows, user, seenTo)
    requires i < upTo && rows[i].user == user && !Dead(rows, i)
    ensures SameSession(rows, i, n) && upTo <= n < mark && End(rows, i) >= seenTo
    decreases |rows| - i
  {
    assert LinkFits(rows, i);
    EndHasUser(rows, i);
    n := NextOf(rows, i).value;
    if n < upTo {
      n := RotatedPast(rows, user, upTo, mark, seenTo, n);
    }
  }

  /**
   In every run: a session from before a password change outlives it only if it was refreshed while
   the first revoke ran and again after the second began.
   */
  lemma SurvivorRefreshedTwice(cap: nat, ids: Ids, steps: seq<Step>, k: nat, i: nat) returns (n: nat)
    requires var s := RunAll(cap, ids, steps);
             && k in s.calls && s.calls[k].Replacing? && s.calls[k].change.Changed?
             && i < s.calls[k].upTo && i < |s.rows| && s.rows[i].user == s.calls[k].user && !Dead(s.rows, i)
    ensures var (s, c) := (RunAll(cap, ids, steps), RunAll(cap, ids, steps).calls[k]);
            SameSession(s.rows, i, n) && c.upTo <= n < c.change.mark && End(s.rows, i) >= c.change.seenTo
  {
    hide Run, Dead, End;
    RunIsSound(cap, ids, steps);
    var s := RunAll(cap, ids, steps);
    assert CallFits(cap, s.rows, s.calls[k]);
    n := RotatedPast(s.rows, s.calls[k].user, s.calls[k].upTo, s.calls[k].change.mark, s.calls[k].change.seenTo, i);
  }

  // ---- runs in which a session goes on ----

  lemma RunOfThree(cap: nat, s: State, steps: seq<Step>, n: nat)
    requires n + 3 <= |steps|
    ensures Run(cap, s, steps[..n + 3]) ==
            Apply(cap, Apply(cap, Apply(cap, Run(cap, s, steps[..n]), steps[n]), steps[n + 1]), steps[n + 2])
  {
    hide Run, Apply;
    assert steps[..n + 3] == steps[..n] + steps[n..n + 3];
    RunConcat(cap, s, steps[..n], steps[n..n + 3]);
    RunOfFew(cap, Run(cap, s, steps[..n]), steps[n..n + 3]);
  }

  function Three(cap: nat, s: State, a: Step, b: Step, c: Step): State {
    Apply(cap, Apply(cap, Apply(cap, s, a), b), c)
  }

  lemma RunOfTriples(cap: nat, ids: Ids, steps: seq<Step>)
    ensures |steps| >= 3 ==> RunAll(cap, ids, steps[..3]) == Three(cap, Empty(ids), steps[0], steps[1], steps[2])
    ensures |steps| >= 6 ==>
              RunAll(cap, ids, steps[..6]) == Three(cap, RunAll(cap, ids, steps[..3]), steps[3], steps[4], steps[5])
    ensures |steps| >= 9 ==>
              RunAll(cap, ids, steps[..9]) == Three(cap, RunAll(cap, ids, steps[..6]), steps[6], steps[7], steps[8])
    ensures |steps| >= 12 ==>
              RunAll(cap, ids, steps[..12]) == Three(cap, RunAll(cap, ids, steps[..9]), steps[9], steps[10], steps[11])
  {
    hide Run, Apply;
    var s := Empty(ids);
    if |steps| >= 3 {
      assert steps[..0] == [];
      RunOfFew(cap, s, steps[..3]);
    }
    if |steps| >= 6 {
      RunOfThree(cap, s, steps, 3);
    }
    if |steps| >= 9 {
      RunOfThree(cap, s, steps, 6);
    }
    if |steps| >= 12 {
      RunOfThree(cap, s, steps, 9);
    }
  }

  function Rotated(user: string, hash: Digest, to: nat): Row { Row(user, hash, 10, true, Some(to)) }

  function Newest(user: string, hash: Digest): Row { Row(user, hash, 10, false, None) }

  predicate OnlyAt(rows: seq<Row>, hash: Digest, i: nat) {
    i < |rows| && rows[i].hash == hash && forall j :: 0 <= j < |rows| && j != i ==> rows[j].hash != hash
  }

  /** Looking a digest up among rows that all differ. */
  lemma Finds(rows: seq<Row>, hash: Digest)
    ensures (forall r :: r in rows ==> r.hash != hash) ==> FindHash(rows, hash).None?
    ensures forall i: nat :: i < |rows| && OnlyAt(rows, hash, i) ==> FindHash(rows, hash) == Some(i)
  {
  }

  lemma LiveRows(rows: seq<Row>, user: string)
    ensures rows == [] ==> LiveOf(rows, user) == {}
    ensures |rows| == 1 && Live(rows, 0) && rows[0].user == user ==> LiveOf(rows, user) == {0}
    ensures |rows| == 2 && Live(rows, 1) && rows[1].user == user && rows[0].user == user ==>
              LiveOf(rows, user) == if Live(rows, 0) then {0, 1} else {1}
  {
  }

  /** A refresh under way as a log out everywhere begins. */
  function AsSweepBegins(ids: Ids, user: string, h0: Digest): State {
    State(ids, [Newest(user, h0)], 0,
          map[0 := Client(h0, Some(0), false, Checked(0)), 1 := Everywhere(user, 1, Lot({0}, {}, 1), Taking)], 2)
  }

  lemma SweepBegins(cap: nat, ids: Ids, user: string, h0: Digest)
    ensures Three(cap, Empty(ids), Issue(user, h0, 10), RedeemStarts(h0), EverywhereStarts(user)) ==
            AsSweepBegins(ids, user, h0)
  {
    hide FindHash, LiveOf;
    Finds([], h0);
    var s1 := Apply(cap, Empty(ids), Issue(user, h0, 10));
    assert s1.rows == [Newest(user, h0)];
    Finds(s1.rows, h0);
    LiveRows(s1.rows, user);
    var s2 := Apply(cap, s1, RedeemStarts(h0));
    assert s2.calls == map[0 := Client(h0, Some(0), false, Checked(0))] && s2.started == 1;
    assert LiveOf(s1.rows, user) - {} == {0};
    var s3 := Apply(cap, s2, EverywhereStarts(user));
    assert s3.calls[1] == Everywhere(user, 1, Lot({0}, {}, 1), Taking);
    assert s3.calls == AsSweepBegins(ids, user, h0).calls;
  }

  lemma SweepGoesOn(cap: nat, ids: Ids, user: string, h0: Digest, h1: Digest)
    requires h0 != h1
    ensures Three(cap, AsSweepBegins(ids, user, h0), RedeemRotates(0, h1, 10), Takes(1, 0), EverywhereSweeps(1)).rows ==
            [Rotated(user, h0, 1), Newest(user, h1)]
  {
    hide FindHash;
    var s3 := AsSweepBegins(ids, user, h0);
    Finds(s3.rows, h1);
    var s4 := Apply(cap, s3, RedeemRotates(0, h1, 10));
    assert s4.rows == [Rotated(user, h0, 1), Newest(user, h1)];
    var s5 := Apply(cap, s4, Takes(1, 0));
    assert s5.calls[1].lot.todo == {} && s5.rows == s4.rows;
    assert Sweep(s4.rows, user, 1) == s4.rows;
  }

  /** A session rotated during a log out everywhere goes on. */
  lemma EverywhereMissesRotation(cap: nat, ids: Ids, user: string, h0: Digest, h1: Digest)
    requires h0 != h1
    ensures var rows := RunAll(cap, ids, [Issue(user, h0, 10), RedeemStarts(h0), EverywhereStarts(user),
                                          RedeemRotates(0, h1, 10), Takes(1, 0), EverywhereSweeps(1)]).rows;
            |rows| == 2 && Live(rows, 1) && !Dead(rows, 0)
  {
    hide Run, Apply, FindHash;
    var steps := [Issue(user, h0, 10), RedeemStarts(h0), EverywhereStarts(user),
                  RedeemRotates(0, h1, 10), Takes(1, 0), EverywhereSweeps(1)];
    RunOfTriples(cap, ids, steps);
    assert steps[..6] == steps;
    SweepBegins(cap, ids, user, h0);
    SweepGoesOn(cap, ids, user, h0, h1);
    var rows := [Rotated(user, h0, 1), Newest(user, h1)];
    assert NextOf(rows, 0) == Some(1) && NextOf(rows, 1).None?;
    EndOfNext(rows, 0);
    EndIsItself(rows, 1);
  }

  datatype Digests = Digests(first: Digest, second: Digest, third: Digest, own: Digest)

  predicate Differ(h: Digests) {
    h.first != h.second && h.first != h.third && h.first != h.own && h.second != h.third && h.second != h.own
    && h.third != h.own
  }

  /** The session about to be refreshed as a change begins. */
  function AsChangeBegins(ids: Ids, user: string, h: Digests): State {
    State(ids, [Newest(user, h.first)], 0,
          map[0 := Client(h.first, Some(0), false, Checked(0)),
              1 := Replacing(user, Some(h.own), 10, 1, Lot({0}, {}, 1), First)], 2)
  }

  /** The session refreshed under the first revoke. */
  function AfterFirst(ids: Ids, user: string, h: Digests): State {
    State(ids, [Rotated(user, h.first, 1), Newest(user, h.second)], 0,
          map[0 := Client(h.first, Some(0), false, Done(Redeemed(0, 1))),
              1 := Replacing(user, Some(h.own), 10, 1, Lot({}, {0}, 1), Holding(2))], 2)
  }

  /** The session refreshed again under the second. */
  function AfterSecond(ids: Ids, user: string, h: Digests): State {
    State(ids, [Rotated(user, h.first, 1), Rotated(user, h.second, 2), Newest(user, h.third)], 0,
          map[0 := Client(h.first, Some(0), false, Done(Redeemed(0, 1))),
              1 := Replacing(user, Some(h.own), 10, 1, Lot({1}, {0}, 2), Again(2, 2)),
              2 := Client(h.second, Some(1), false, Done(Redeemed(1, 2)))], 3)
  }

  lemma BeginStage(cap: nat, ids: Ids, user: string, h: Digests)
    requires Differ(h)
    ensures Three(cap, Empty(ids), Issue(user, h.first, 10), RedeemStarts(h.first),
                  ReplaceStarts(user, Some(h.own), 10)) ==
            AsChangeBegins(ids, user, h)
  {
    hide FindHash, LiveOf;
    Finds([], h.first);
    var s1 := Apply(cap, Empty(ids), Issue(user, h.first, 10));
    assert s1.rows == [Newest(user, h.first)];
    Finds(s1.rows, h.first);
    LiveRows(s1.rows, user);
    var s2 := Apply(cap, s1, RedeemStarts(h.first));
    assert s2.calls == map[0 := Client(h.first, Some(0), false, Checked(0))] && s2.started == 1;
    assert LiveOf(s1.rows, user) - {} == {0};
    var s3 := Apply(cap, s2, ReplaceStarts(user, Some(h.own), 10));
    assert s3.calls[1] == Replacing(user, Some(h.own), 10, 1, Lot({0}, {}, 1), First);
    assert s3.calls == AsChangeBegins(ids, user, h).calls;
  }

  lemma FirstStage(cap: nat, ids: Ids, user: string, h: Digests)
    requires Differ(h)
    ensures Three(cap, AsChangeBegins(ids, user, h), RedeemRotates(0, h.second, 10), Takes(1, 0), ReplaceHolds(1)) ==
            AfterFirst(ids, user, h)
  {
    hide FindHash;
    var s3 := AsChangeBegins(ids, user, h);
    Finds(s3.rows, h.second);
    var s4 := Apply(cap, s3, RedeemRotates(0, h.second, 10));
    assert s4.rows == AfterFirst(ids, user, h).rows;
    var s5 := Apply(cap, s4, Takes(1, 0));
    assert s5.calls[1].lot == Lot({}, {0}, 1);
    var s6 := Apply(cap, s5, ReplaceHolds(1));
    assert s6.calls == AfterFirst(ids, user, h).calls;
  }

  lemma SecondStage(cap: nat, ids: Ids, user: string, h: Digests)
    requires Differ(h)
    ensures Three(cap, AfterFirst(ids, user, h), RedeemStarts(h.second), ReplaceAgain(1),
                  RedeemRotates(2, h.third, 10)) ==
            AfterSecond(ids, user, h)
  {
    hide FindHash, LiveOf;
    var s6 := AfterFirst(ids, user, h);
    Finds(s6.rows, h.second);
    Finds(s6.rows, h.third);
    LiveRows(s6.rows, user);
    var s8 := Apply(cap, Apply(cap, s6, RedeemStarts(h.second)), ReplaceAgain(1));
    assert s8.calls[1].lot == Lot({1}, {0}, 2) && s8.calls[2] == Client(h.second, Some(1), false, Checked(1));
    assert forall i :: i !in HeldBy(s8.calls[0]);
    var s9 := Apply(cap, s8, RedeemRotates(2, h.third, 10));
    assert s9.rows == AfterSecond(ids, user, h).rows && s9.calls == AfterSecond(ids, user, h).calls;
  }

  lemma ThirdStage(cap: nat, ids: Ids, user: string, h: Digests)
    requires Differ(h)
    ensures Apply(cap, Apply(cap, AfterSecond(ids, user, h), Takes(1, 1)), ReplaceCommits(1)).rows ==
            [Rotated(user, h.first, 1), Rotated(user, h.second, 2), Newest(user, h.third), Newest(user, h.own)]
  {
    hide FindHash;
    var s9 := AfterSecond(ids, user, h);
    Finds(s9.rows, h.own);
    var s10 := Apply(cap, s9, Takes(1, 1));
    assert s10.calls[1].lot.todo == {} && s10.rows == s9.rows;
    assert Sweep(s9.rows, user, 2) == s9.rows;
  }

  lemma TickKeepsRows(cap: nat, s: State)
    ensures Apply(cap, s, Ticks(1)).rows == s.rows
  {
  }

  lemma ReplacingRun(cap: nat, ids: Ids, user: string, h: Digests, steps: seq<Step>)
    requires Differ(h) && |steps| == 12
    requires steps[..6] == [Issue(user, h.first, 10), RedeemStarts(h.first), ReplaceStarts(user, Some(h.own), 10),
                            RedeemRotates(0, h.second, 10), Takes(1, 0), ReplaceHolds(1)]
    requires steps[6..] == [RedeemStarts(h.second), ReplaceAgain(1), RedeemRotates(2, h.third, 10),
                            Takes(1, 1), ReplaceCommits(1), Ticks(1)]
    ensures RunAll(cap, ids, steps).rows ==
            [Rotated(user, h.first, 1), Rotated(user, h.second, 2), Newest(user, h.third), Newest(user, h.own)]
  {
    hide Run, Apply;
    RunOfTriples(cap, ids, steps);
    assert steps[..12] == steps;
    assert forall i :: 0 <= i < 6 ==> steps[i] == steps[..6][i] && steps[i + 6] == steps[6..][i];
    BeginStage(cap, ids, user, h);
    FirstStage(cap, ids, user, h);
    SecondStage(cap, ids, user, h);
    ThirdStage(cap, ids, user, h);
    TickKeepsRows(cap, Apply(cap, Apply(cap, AfterSecond(ids, user, h), Takes(1, 1)), ReplaceCommits(1)));
  }

  /** A session refreshed during each of a password change's two revokes goes on beside the new one. */
  lemma ReplacingMissesTwoRotations(cap: nat, ids: Ids, user: string, h: Digests)
    requires Differ(h)
    ensures var rows := RunAll(cap, ids, [Issue(user, h.first, 10), RedeemStarts(h.first),
                                          ReplaceStarts(user, Some(h.own), 10),
                                          RedeemRotates(0, h.second, 10), Takes(1, 0), ReplaceHolds(1),
                                          RedeemStarts(h.second), ReplaceAgain(1), RedeemRotates(2, h.third, 10),
                                          Takes(1, 1), ReplaceCommits(1), Ticks(1)]).rows;
            |rows| == 4 && Live(rows, 2) && Live(rows, 3) && !Dead(rows, 0)
  {
    hide Run, FindHash;
    var steps := [Issue(user, h.first, 10), RedeemStarts(h.first), ReplaceStarts(user, Some(h.own), 10),
                  RedeemRotates(0, h.second, 10), Takes(1, 0), ReplaceHolds(1),
                  RedeemStarts(h.second), ReplaceAgain(1), RedeemRotates(2, h.third, 10),
                  Takes(1, 1), ReplaceCommits(1), Ticks(1)];
    ReplacingRun(cap, ids, user, h, steps);
    var rows := [Rotated(user, h.first, 1), Rotated(user, h.second, 2), Newest(user, h.third), Newest(user, h.own)];
    assert NextOf(rows, 0) == Some(1) && NextOf(rows, 1) == Some(2) && NextOf(rows, 2).None?;
    EndOfNext(rows, 0);
    EndOfNext(rows, 1);
    EndIsItself(rows, 2);
  }

  // ---- one call alone ----

  function OutcomeOf(id: nat, answer: Result<RefreshService.Grant, TokenError>): Outcome {
    match answer
    case Ok(grant) => Redeemed(id, grant.id)
    case Err(Invalid) => Refused
    case Err(Expired) => Lapsed
    case Err(Failure) => Failed
  }

  /** No call holds a row. */
  predicate NoneHeld(s: State) { forall k :: k in s.calls ==> HeldBy(s.calls[k]) == {} }

  lemma LookThenWalk(cap: nat, s: State, k: nat)
    requires WellLinked(s.rows) && NoneHeld(s) && At(s, k) && s.calls[k].phase == Ending
    ensures var t := Apply(cap, Apply(cap, s, Looks(k)), Walks(k));
            && t.rows == EndByHash(s.rows, s.calls[k].hash, cap).0
            && k in t.calls && t.calls[k] == s.calls[k].(phase := Ended(s.calls[k]))
  {
    hide Depth, End, Follow, FindHash;
    var at := FindHash(s.rows, s.calls[k].hash);
    if at.Some? {
      var i, step := at.value, Min(Depth(s.rows, at.value), cap);
      var end := Follow(s.rows, i, step);
      FollowIs(s.rows, i, step);
      assert LinkFits(s.rows, end);
      if s.rows[end].next.Some? {
        FollowMore(s.rows, i, step);
      } else {
        LastIsAtEnd(s.rows, end);
      }
    }
  }

  function FourSteps(cap: nat, s: State, a: Step, b: Step, c: Step, d: Step): State {
    Apply(cap, Apply(cap, Apply(cap, Apply(cap, s, a), b), c), d)
  }

  /** A refresh with no step of another call between its own is Redeem; steps that do not come up do nothing. */
  lemma AloneIsRedeem(cap: nat, s: State, sum: RefreshService.Sum, token: string, bytes: seq<Byte>, ttl: int)
    requires WellLinked(s.rows) && NoneHeld(s) && RefreshService.HashPresented(sum, token).Some?
    ensures var (hash, k) := (RefreshService.HashPresented(sum, token).value, s.started);
            var t := FourSteps(cap, s, RedeemStarts(hash), RedeemRotates(k, sum(bytes), s.now + ttl), Looks(k),
                               Walks(k));
            var (rows, answer) := RefreshService.Redeem(s.rows, s.rows, cap, sum, token, s.now, bytes, ttl);
            && t.rows == rows
            && k in t.calls && t.calls[k].Client?
            && (answer.Ok? ==> t.calls[k].token.Some?)
            && t.calls[k].phase == Done(OutcomeOf(if t.calls[k].token.Some? then t.calls[k].token.value else 0, answer))
  {
    hide Depth, End, Follow, FindHash, EndByHash, WellLinked, DoLook, DoWalk, RefreshService.HashPresented;
    var hash, k := RefreshService.HashPresented(sum, token).value, s.started;
    var started := Apply(cap, s, RedeemStarts(hash));
    var turned := Apply(cap, started, RedeemRotates(k, sum(bytes), s.now + ttl));
    if turned.calls[k].phase == Ending {
      LookThenWalk(cap, turned, k);
    }
  }

  /** A log out alone is Revoke. */
  lemma AloneIsRevoke(cap: nat, s: State, hash: Digest)
    requires WellLinked(s.rows) && NoneHeld(s)
    ensures var k := s.started;
            var t := Apply(cap, Apply(cap, Apply(cap, s, RevokeStarts(hash)), Looks(k)), Walks(k));
            t.rows == EndByHash(s.rows, hash, cap).0 && At(t, k) && t.calls[k].phase == Done(LoggedOut)
  {
    hide Depth, End, Follow, FindHash, EndByHash, WellLinked, DoLook, DoWalk;
    LookThenWalk(cap, Apply(cap, s, RevokeStarts(hash)), s.started);
  }

  /** A step of a revoke's or a change's own. */
  predicate OwnStep(step: Step, k: nat) {
    match step
    case Takes(call, _) => call == k
    case EverywhereSweeps(call) => call == k
    case ReplaceHolds(call) => call == k
    case ReplaceAgain(call) => call == k
    case ReplaceCommits(call) => call == k
    case Fails(call) => call == k
    case _ => false
  }

  /** What own steps make of a change begun in s: nothing to be seen before its end. */
  ghost predicate ReplacesAlone(s: State, t: State, k: nat, user: string, hash: Digest, expires: int) {
    && Replaces(t, k) && t.calls[k].user == user && t.calls[k].own == Some(hash) && t.calls[k].expires == expires
    && (t.calls[k].change.Again? ==> t.calls[k].change.seenTo == |s.rows|)
    && var replaced := RefreshService.ReplaceAll(user)(s.rows, hash, expires);
       if t.calls[k].change.Changed? then replaced.Ok? && t.rows == replaced.value else t.rows == s.rows
  }

  /**
   A password change alone, whatever its steps: once it has ended it revoked every token of the person
   and stored its own; before that, or undone, it did nothing.
   */
  lemma {:induction false} AloneIsReplace(cap: nat, s: State, user: string, hash: Digest, expires: int,
                                          steps: seq<Step>)
    requires s.started !in s.calls && !Changing(s, user) && forall step :: step in steps ==> OwnStep(step, s.started)
    ensures ReplacesAlone(s, Run(cap, Apply(cap, s, ReplaceStarts(user, Some(hash), expires)), steps), s.started,
                          user, hash, expires)
  {
    hide Sweep, FindHash, LiveOf, Changing, IsLowest, LockedFor;
    if steps == [] {
    } else {
      assert steps[|steps| - 1] in steps;
      AloneIsReplace(cap, s, user, hash, expires, steps[..|steps| - 1]);
    }
  }

  /** A log out everywhere alone is RevokeAll. */
  lemma {:induction false} AloneIsRevokeAll(cap: nat, s: State, user: string, steps: seq<Step>)
    requires s.started !in s.calls && forall step :: step in steps ==> OwnStep(step, s.started)
    ensures var t := Run(cap, Apply(cap, s, EverywhereStarts(user)), steps);
            && s.started in t.calls && t.calls[s.started].Everywhere?
            && t.calls[s.started].user == user && t.calls[s.started].upTo == |s.rows|
            && t.rows == if t.calls[s.started].sweep.Through? then Sweep(s.rows, user, |s.rows|) else s.rows
  {
    hide Sweep, FindHash, LiveOf, IsLowest, LockedFor;
    if steps == [] {
    } else {
      assert steps[|steps| - 1] in steps;
      AloneIsRevokeAll(cap, s, user, steps[..|steps| - 1]);
    }
  }
}
