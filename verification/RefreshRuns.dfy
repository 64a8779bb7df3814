/**
 Refreshes, log outs, sign ins and password changes at one table at once. Each call is a few separate
 repository steps, and any steps of other calls may come between them; a run is any list of steps. A
 statement over several rows takes them one by one in the order of their ids, and every row a call
 took stays locked until the call ends.
 */
module RefreshRuns {
  import opened Numbers
  import opened Options
  import opened RefreshTable

  datatype Outcome =
    | Redeemed(id: nat, newId: nat)
    | Refused
    | Lapsed
    | Failed
    | LoggedOut

  /** Where a call is: about to rotate, about to look the token up, walking its chain, or answered. */
  datatype Phase =
    | Checked(id: nat)
    | Ending
    | Walking(end: nat, step: nat, passed: set<nat>)
    | Done(outcome: Outcome)

  /** A revoke of a person's tokens: the rows it still has to take, those it took, and the table's size as it began. */
  datatype Lot = Lot(todo: set<nat>, held: set<nat>, limit: nat)

  datatype Sweeping = Taking | Through | Dropped

  /**
   Where a password change is: its first revoke taking rows, through with them, its second revoke
   taking the rows stored before seenTo, ended with the new token, or rolled back. The first revoke was
   through when the table had mark rows.
   */
  datatype Change =
    | First
    | Holding(mark: nat)
    | Again(mark: nat, seenTo: nat)
    | Changed(mark: nat, seenTo: nat, id: nat)
    | RolledBack

  /**
   token is the presented token's id when it was known as the call began; upTo the table's size then.
   A change stores a token of its own; an account being disabled, which takes the same steps, none.
   */
  datatype Call =
    | Client(hash: Digest, token: Option<nat>, logOut: bool, phase: Phase)
    | Everywhere(user: string, upTo: nat, lot: Lot, sweep: Sweeping)
    | Replacing(user: string, own: Option<Digest>, expires: int, upTo: nat, lot: Lot, change: Change)

  /** Where each row's id sorts: ids are random, and rows are numbered as they are stored. */
  type Ids = nat -> int

  datatype State = State(ids: Ids, rows: seq<Row>, now: int, calls: map<nat, Call>, started: nat)

  function Empty(ids: Ids): State { State(ids, [], 0, map[], 0) }

  datatype Step =
    | Issue(user: string, hash: Digest, expires: int)
    | RedeemStarts(hash: Digest)
    | RedeemRotates(call: nat, newHash: Digest, expires: int)
    | RevokeStarts(hash: Digest)
    | Looks(call: nat)
    | Walks(call: nat)
    | EverywhereStarts(user: string)
    | Takes(call: nat, row: nat)
    | EverywhereSweeps(call: nat)
    | ReplaceStarts(user: string, own: Option<Digest>, expires: int)
    | ReplaceHolds(call: nat)
    | ReplaceAgain(call: nat)
    | ReplaceCommits(call: nat)
    | Fails(call: nat)
    | Ticks(seconds: nat)

  function Begin(s: State, c: Call): State { s.(calls := s.calls[s.started := c], started := s.started + 1) }

  function Move(s: State, call: nat, phase: Phase): State
    requires call in s.calls && s.calls[call].Client?
  {
    s.(calls := s.calls[call := s.calls[call].(phase := phase)])
  }

  /** The answer when nothing live was left to end, and when it was ended. */
  function Ended(c: Call): Phase
    requires c.Client?
  {
    Done(if c.logOut then LoggedOut else Refused)
  }

  predicate At(s: State, call: nat) { call in s.calls && s.calls[call].Client? }

  // ---- rows that are taken ----

  predicate Unfinished(c: Call) { c.Replacing? && !c.change.Changed? && !c.change.RolledBack? }

  /** The rows a call holds: what it did to them shows to others when it ends. */
  function HeldBy(c: Call): set<nat> {
    match c
    case Client(_, _, _, phase) => if phase.Walking? then phase.passed else {}
    case Everywhere(_, _, lot, sweep) => if sweep.Taking? then lot.held else {}
    case Replacing(_, _, _, _, lot, _) => if Unfinished(c) then lot.held else {}
  }

  predicate LockedFor(s: State, call: nat, i: nat) {
    exists k :: k in s.calls && k != call && i in HeldBy(s.calls[k])
  }

  function LiveOf(rows: seq<Row>, user: string): set<nat> {
    set i: nat | i < |rows| && Live(rows, i) && rows[i].user == user
  }

  function NewLot(rows: seq<Row>, user: string, held: set<nat>): Lot { Lot(LiveOf(rows, user) - held, held, |rows|) }

  predicate IsLowest(ids: Ids, todo: set<nat>, row: nat) {
    row in todo && forall j :: j in todo ==> ids(row) <= ids(j)
  }

  /** A revoke is taking its rows. */
  predicate IsTaking(c: Call) {
    (c.Everywhere? && c.sweep.Taking?) || (c.Replacing? && (c.change.First? || c.change.Again?))
  }

  /** Two changes of one account follow each other: the first thing a change takes is the account's row. */
  predicate Changing(s: State, user: string) {
    exists k :: k in s.calls && Unfinished(s.calls[k]) && s.calls[k].user == user
  }

  predicate Replaces(s: State, call: nat) { call in s.calls && s.calls[call].Replacing? }

  predicate Unanswered(c: Call) {
    match c
    case Client(_, _, _, phase) => !phase.Done?
    case Everywhere(_, _, _, sweep) => sweep.Taking?
    case Replacing(_, _, _, _, _, _) => Unfinished(c)
  }

  predicate Possible(s: State, step: Step) {
    match step
    case RedeemRotates(call, _, _) =>
      At(s, call) && s.calls[call].phase.Checked? && !LockedFor(s, call, s.calls[call].phase.id)
    case Looks(call) => At(s, call) && s.calls[call].phase.Ending?
    case Walks(call) =>
      && At(s, call) && s.calls[call].phase.Walking? && s.calls[call].phase.end < |s.rows|
      && !LockedFor(s, call, s.calls[call].phase.end)
    case Fails(call) => call in s.calls && Unanswered(s.calls[call])
    case Takes(call, row) =>
      && call in s.calls && IsTaking(s.calls[call])
      && IsLowest(s.ids, s.calls[call].lot.todo, row) && !LockedFor(s, call, row)
    case EverywhereSweeps(call) =>
      call in s.calls && s.calls[call].Everywhere? && s.calls[call].sweep.Taking? && s.calls[call].lot.todo == {}
    case ReplaceStarts(user, _, _) => !Changing(s, user)
    case ReplaceHolds(call) => Replaces(s, call) && s.calls[call].change.First? && s.calls[call].lot.todo == {}
    case ReplaceAgain(call) => Replaces(s, call) && s.calls[call].change.Holding?
    case ReplaceCommits(call) => Replaces(s, call) && s.calls[call].change.Again? && s.calls[call].lot.todo == {}
    case _ => true
  }

  /** The row locked, or waited for and then locked, live or not. */
  function DoTake(s: State, call: nat, row: nat): State
    requires call in s.calls && IsTaking(s.calls[call])
  {
    var lot := s.calls[call].lot;
    var taken := Lot(lot.todo - {row}, lot.held + {row}, lot.limit);
    s.(calls := s.calls[call := s.calls[call].(lot := taken)])
  }

  function MoveChange(s: State, call: nat, change: Change): State
    requires Replaces(s, call)
  {
    s.(calls := s.calls[call := s.calls[call].(change := change)])
  }

  /** The second revoke sees the first one's rows revoked, and takes what else is live. */
  function DoAgain(s: State, call: nat): State
    requires Replaces(s, call) && s.calls[call].change.Holding?
  {
    var c := s.calls[call];
    s.(calls := s.calls[call := c.(change := Again(c.change.mark, |s.rows|),
                                   lot := NewLot(s.rows, c.user, c.lot.held))])
  }

  function StoreOwn(rows: seq<Row>, user: string, own: Option<Digest>, expires: int): Result<seq<Row>, TokenError> {
    if own.None? then Ok(rows) else Insert(rows, user, own.value, expires)
  }

  /** The commit: every row taken revoked and the new token stored beside them, or the whole change undone. */
  function DoCommit(s: State, call: nat): State
    requires Replaces(s, call) && s.calls[call].change.Again?
  {
    var c := s.calls[call];
    match StoreOwn(Sweep(s.rows, c.user, c.change.seenTo), c.user, c.own, c.expires)
    case Err(_) => MoveChange(s, call, RolledBack)
    case Ok(rows) => MoveChange(s, call, Changed(c.change.mark, c.change.seenTo, |s.rows|)).(rows := rows)
  }

  function DoFail(s: State, call: nat): State
    requires call in s.calls
  {
    if At(s, call) then Move(s, call, Done(Failed))
    else if Replaces(s, call) then MoveChange(s, call, RolledBack)
    else s.(calls := s.calls[call := s.calls[call].(sweep := Dropped)])
  }

  function StartRedeem(s: State, hash: Digest): State {
    var phase := match GetActive(s.rows, hash, s.now)
                 case Ok(id) => Checked(id)
                 case Err(e) => if e == Invalid then Ending else Done(if e == Expired then Lapsed else Failed);
    Begin(s, Client(hash, FindHash(s.rows, hash), false, phase))
  }

  function DoRotate(s: State, call: nat, newHash: Digest, expires: int): State
    requires At(s, call) && s.calls[call].phase.Checked?
  {
    var id := s.calls[call].phase.id;
    match Rotate(s.rows, id, newHash, expires)
    case Ok(rows) => Move(s, call, Done(Redeemed(id, |s.rows|))).(rows := rows)
    case Err(e) => Move(s, call, if e == Invalid then Ending else Done(Failed))
  }

  /** The end of the chain as one statement finds it, at most cap steps on. */
  function DoLook(cap: nat, s: State, call: nat): State
    requires At(s, call)
  {
    match FindHash(s.rows, s.calls[call].hash)
    case None => Move(s, call, Ended(s.calls[call]))
    case Some(i) =>
      var step := Min(Depth(s.rows, i), cap);
      Move(s, call, Walking(Follow(s.rows, i, step), step, {}))
  }

  /** Holding the row reached: held on and followed when it was rotated meanwhile, revoked when it is live. */
  function DoWalk(cap: nat, s: State, call: nat): State
    requires At(s, call) && s.calls[call].phase.Walking? && s.calls[call].phase.end < |s.rows|
  {
    var c := s.calls[call];
    var end, step := c.phase.end, c.phase.step;
    if s.rows[end].next.Some? then
      Move(s, call,
           if step + 1 <= cap then Walking(s.rows[end].next.value, step + 1, c.phase.passed + {end}) else Ended(c))
    else if s.rows[end].revoked then Move(s, call, Ended(c))
    else Move(s, call, Ended(c)).(rows := RevokeRow(s.rows, end))
  }

  function Stored(s: State, r: Result<seq<Row>, TokenError>): State {
    if r.Ok? then s.(rows := r.value) else s
  }

  function Apply(cap: nat, s: State, step: Step): State {
    if !Possible(s, step) then s
    else match step
      case Issue(user, hash, expires) => Stored(s, Insert(s.rows, user, hash, expires))
      case RedeemStarts(hash) => StartRedeem(s, hash)
      case RedeemRotates(call, newHash, expires) => DoRotate(s, call, newHash, expires)
      case RevokeStarts(hash) => Begin(s, Client(hash, FindHash(s.rows, hash), true, Ending))
      case Looks(call) => DoLook(cap, s, call)
      case Walks(call) => DoWalk(cap, s, call)
      case EverywhereStarts(user) => Begin(s, Everywhere(user, |s.rows|, NewLot(s.rows, user, {}), Taking))
      case Takes(call, row) => DoTake(s, call, row)
      case EverywhereSweeps(call) =>
        var c := s.calls[call];
        s.(rows := Sweep(s.rows, c.user, c.upTo), calls := s.calls[call := c.(sweep := Through)])
      case ReplaceStarts(user, own, expires) =>
        Begin(s, Replacing(user, own, expires, |s.rows|, NewLot(s.rows, user, {}), First))
      case ReplaceHolds(call) => MoveChange(s, call, Holding(|s.rows|))
      case ReplaceAgain(call) => DoAgain(s, call)
      case ReplaceCommits(call) => DoCommit(s, call)
      case Fails(call) => DoFail(s, call)
      case Ticks(seconds) => s.(now := s.now + seconds)
  }

  function Run(cap: nat, s: State, steps: seq<Step>): State {
    if steps == [] then s else Apply(cap, Run(cap, s, steps[..|steps| - 1]), steps[|steps| - 1])
  }

  // ---- what every run keeps ----

  /** The session of token i is over, or i is more than cap rotations old. */
  predicate OverOrOld(cap: nat, rows: seq<Row>, i: nat) { Dead(rows, i) || Depth(rows, i) > cap }

  /** Row i of the same person was rotated, to end or to one before it. */
  predicate Passes(rows: seq<Row>, i: nat, end: nat) {
    && i < |rows| && end < |rows| && rows[i].next.Some? && i < rows[i].next.value <= end
    && rows[i].user == rows[end].user
  }

  predicate PhaseFits(cap: nat, rows: seq<Row>, c: Call)
    requires c.Client?
  {
    match c.phase
    case Checked(id) => id < |rows| && c.token == Some(id)
    case Ending => true
    case Walking(end, step, passed) =>
      && end < |rows| && step <= cap
      && (forall i :: i in passed ==> Passes(rows, i, end))
      && (c.token.Some? ==> c.token.value < |rows| && step <= Depth(rows, c.token.value)
                            && end == Follow(rows, c.token.value, step))
    case Done(Redeemed(id, newId)) => c.token == Some(id) && id < |rows| && rows[id].next == Some(newId)
    case Done(Lapsed) => true
    case Done(Failed) => true
    case Done(_) => c.token.Some? ==> OverOrOld(cap, rows, c.token.value)
  }

  predicate Swept(rows: seq<Row>, user: string, upTo: nat) {
    upTo <= |rows| && forall i :: 0 <= i < upTo && rows[i].user == user ==> rows[i].revoked
  }

  /** No token of the person's from before upTo was rotated to one stored from mark on. */
  predicate Stopped(rows: seq<Row>, user: string, upTo: nat, mark: nat) {
    upTo <= mark <= |rows| &&
    forall i :: 0 <= i < upTo && rows[i].user == user && rows[i].next.Some? ==> rows[i].next.value < mark
  }

  /** What a revoke holds and has to take: the person's rows, and every live one that was there as it began. */
  predicate LotFits(rows: seq<Row>, user: string, lot: Lot) {
    && lot.limit <= |rows| && lot.todo !! lot.held
    && (forall i :: i in lot.todo + lot.held ==> i < lot.limit && rows[i].user == user)
    && (forall i :: i in lot.todo && rows[i].next.Some? ==> rows[i].next.value >= lot.limit)
    && (forall i: nat :: i < lot.limit && Live(rows, i) && rows[i].user == user ==> i in lot.todo || i in lot.held)
  }

  predicate HoldsLive(rows: seq<Row>, user: string, upTo: nat, held: set<nat>) {
    upTo <= |rows| && forall i: nat :: i < upTo && Live(rows, i) && rows[i].user == user ==> i in held
  }

  predicate ChangeFits(rows: seq<Row>, c: Call)
    requires c.Replacing?
  {
    match c.change
    case First => c.upTo == c.lot.limit && LotFits(rows, c.user, c.lot)
    case Holding(mark) =>
      && c.upTo == c.lot.limit && c.lot.todo == {} && LotFits(rows, c.user, c.lot)
      && Stopped(rows, c.user, c.upTo, mark) && HoldsLive(rows, c.user, c.upTo, c.lot.held)
    case Again(mark, seenTo) =>
      && seenTo == c.lot.limit && LotFits(rows, c.user, c.lot) && mark <= seenTo
      && Stopped(rows, c.user, c.upTo, mark) && HoldsLive(rows, c.user, c.upTo, c.lot.held)
    case Changed(mark, seenTo, id) =>
      && Stopped(rows, c.user, c.upTo, mark) && mark <= seenTo <= id <= |rows|
      && Swept(rows, c.user, seenTo) && (c.own.Some? ==> id < |rows| && rows[id].user == c.user)
    case RolledBack => true
  }

  predicate CallFits(cap: nat, rows: seq<Row>, c: Call) {
    match c
    case Client(_, _, _, _) =>
      && (c.token.Some? ==> c.token.value < |rows| && rows[c.token.value].hash == c.hash)
      && PhaseFits(cap, rows, c)
    case Everywhere(user, upTo, lot, sweep) =>
      && (sweep.Taking? ==> upTo == lot.limit && LotFits(rows, user, lot))
      && (sweep.Through? ==> Swept(rows, user, upTo))
    case Replacing(_, _, _, _, _, _) => ChangeFits(rows, c)
  }

  predicate HasRedeemed(c: Call, id: nat) {
    c.Client? && c.phase.Done? && c.phase.outcome.Redeemed? && c.phase.outcome.id == id
  }

  ghost predicate CallsFit(cap: nat, s: State) {
    forall k :: k in s.calls ==> k < s.started && CallFits(cap, s.rows, s.calls[k])
  }

  ghost predicate RedeemedOnce(s: State) {
    forall j, k, id ::
      j in s.calls && k in s.calls && HasRedeemed(s.calls[j], id) && HasRedeemed(s.calls[k], id) ==> j == k
  }

  /** No row is held by two calls. */
  ghost predicate Exclusive(s: State) {
    forall j, k, i :: j in s.calls && k in s.calls && i in HeldBy(s.calls[j]) && i in HeldBy(s.calls[k]) ==> j == k
  }

  ghost predicate Inv(cap: nat, s: State) {
    WellLinked(s.rows) && CallsFit(cap, s) && RedeemedOnce(s) && Exclusive(s)
  }

  /** The rows a call holds are as they were. */
  ghost predicate HeldRowsStay(a: seq<Row>, b: seq<Row>, c: Call) {
    |a| <= |b| && forall i :: i in HeldBy(c) && i < |a| ==> b[i] == a[i]
  }

  lemma SweptStays(a: seq<Row>, b: seq<Row>, user: string, upTo: nat)
    requires Evolves(a, b) && Swept(a, user, upTo)
    ensures Swept(b, user, upTo)
  {
    forall i | 0 <= i < upTo && b[i].user == user ensures b[i].revoked {
      assert RowEvolves(a[i], b[i], |a|);
    }
  }

  lemma LotStays(a: seq<Row>, b: seq<Row>, user: string, lot: Lot)
    requires Evolves(a, b) && LotFits(a, user, lot)
    ensures LotFits(b, user, lot)
  {
    forall i: nat | i < lot.limit ensures RowEvolves(a[i], b[i], |a|) {
    }
  }

  lemma ChangeStays(a: seq<Row>, b: seq<Row>, c: Call)
    requires WellLinked(a) && Evolves(a, b) && HeldRowsStay(a, b, c) && c.Replacing? && ChangeFits(a, c)
    ensures ChangeFits(b, c)
  {
    if Unfinished(c) {
      LotStays(a, b, c.user, c.lot);
    }
    if !c.change.First? && !c.change.RolledBack? {
      forall i: nat | i < c.upTo && b[i].user == c.user
        ensures b[i].next == a[i].next && (Live(b, i) ==> Live(a, i))
      {
        assert RowEvolves(a[i], b[i], |a|);
        assert i in HeldBy(c) || a[i].revoked;
      }
      if c.change.Changed? {
        SweptStays(a, b, c.user, c.change.seenTo);
        assert c.own.Some? ==> RowEvolves(a[c.change.id], b[c.change.id], |a|);
      }
    }
  }

  lemma PassedStay(a: seq<Row>, b: seq<Row>, passed: set<nat>, end: nat)
    requires Evolves(a, b)
    requires forall i :: i in passed ==> Passes(a, i, end)
    ensures forall i :: i in passed ==> Passes(b, i, end)
  {
    forall i | i in passed ensures Passes(b, i, end) {
      assert RowEvolves(a[i], b[i], |a|) && RowEvolves(a[end], b[end], |a|);
    }
  }

  /** A call that fits goes on fitting however the table evolves around the rows it holds. */
  lemma FitsStays(cap: nat, a: seq<Row>, b: seq<Row>, c: Call)
    requires WellLinked(a) && WellLinked(b) && Evolves(a, b) && HeldRowsStay(a, b, c) && CallFits(cap, a, c)
    ensures CallFits(cap, b, c)
  {
    hide WellLinked, Follow, Depth, End, Swept, ChangeFits, HeldRowsStay, LotFits;
    if c.Client? && c.phase.Walking? {
      PassedStay(a, b, c.phase.passed, c.phase.end);
    }
    if c.Replacing? {
      ChangeStays(a, b, c);
    } else if c.Everywhere? {
      if c.sweep.Through? {
        SweptStays(a, b, c.user, c.upTo);
      } else if c.sweep.Taking? {
        LotStays(a, b, c.user, c.lot);
      }
    } else if c.token.Some? {
      var i := c.token.value;
      assert RowEvolves(a[i], b[i], |a|);
      DepthGrows(a, b, i);
      if c.phase.Walking? {
        FollowStays(a, b, i, c.phase.step);
      }
      if Dead(a, i) {
        DeadStays(a, b, i);
      }
    }
  }

  lemma RowsEvolve(cap: nat, s: State, step: Step)
    requires WellLinked(s.rows)
    ensures WellLinked(Apply(cap, s, step).rows) && Evolves(s.rows, Apply(cap, s, step).rows)
  {
    hide WellLinked, Evolves, Follow, Depth;
    SameEvolves(s.rows);
    if Possible(s, step) {
      match step
      case Issue(user, hash, expires) =>
        if Insert(s.rows, user, hash, expires).Ok? {
          InsertKeeps(s.rows, user, hash, expires);
        }
      case RedeemRotates(call, newHash, expires) =>
        if Rotate(s.rows, s.calls[call].phase.id, newHash, expires).Ok? {
          RotateKeeps(s.rows, s.calls[call].phase.id, newHash, expires);
        }
      case Walks(call) => RevokeRowKeeps(s.rows, s.calls[call].phase.end);
      case EverywhereSweeps(call) => SweepKeeps(s.rows, s.calls[call].user, s.calls[call].upTo);
      case ReplaceCommits(call) =>
        var c := s.calls[call];
        var swept := Sweep(s.rows, c.user, c.change.seenTo);
        SweepKeeps(s.rows, c.user, c.change.seenTo);
        if c.own.Some? && Insert(swept, c.user, c.own.value, c.expires).Ok? {
          InsertKeeps(swept, c.user, c.own.value, c.expires);
          EvolvesAlong(s.rows, swept, Insert(swept, c.user, c.own.value, c.expires).value);
        }
      case _ =>
    }
  }

  /** The call a step moves or begins. */
  function Mover(s: State, step: Step): Option<nat> {
    match step
    case RedeemStarts(_) => Some(s.started)
    case RevokeStarts(_) => Some(s.started)
    case EverywhereStarts(_) => Some(s.started)
    case ReplaceStarts(_, _, _) => Some(s.started)
    case ReplaceHolds(call) => Some(call)
    case ReplaceAgain(call) => Some(call)
    case ReplaceCommits(call) => Some(call)
    case RedeemRotates(call, _, _) => Some(call)
    case Looks(call) => Some(call)
    case Walks(call) => Some(call)
    case Takes(call, _) => Some(call)
    case EverywhereSweeps(call) => Some(call)
    case Fails(call) => Some(call)
    case _ => None
  }

  lemma OthersStay(cap: nat, s: State, step: Step, k: nat)
    requires k in s.calls && Mover(s, step) != Some(k)
    ensures k in Apply(cap, s, step).calls && Apply(cap, s, step).calls[k] == s.calls[k]
  {
  }

  /** A sweep changes only rows its call holds. */
  lemma SweepTakesHeld(rows: seq<Row>, user: string, lot: Lot, i: nat)
    requires LotFits(rows, user, lot) && lot.todo == {} && i < |rows| && i !in lot.held
    ensures Sweep(rows, user, lot.limit)[i] == rows[i]
  {
  }

  lemma SweepLeavesHeld(cap: nat, s: State, call: nat, lot: Lot, user: string, k: nat, i: nat)
    requires Exclusive(s) && k in s.calls && call in s.calls && k != call && i in HeldBy(s.calls[k]) && i < |s.rows|
    requires HeldBy(s.calls[call]) == lot.held && lot.todo == {} && LotFits(s.rows, user, lot)
    ensures Sweep(s.rows, user, lot.limit)[i] == s.rows[i]
  {
    SweepTakesHeld(s.rows, user, lot, i);
  }

  lemma HeldRowStays(cap: nat, s: State, step: Step, k: nat, i: nat)
    requires CallsFit(cap, s) && Exclusive(s) && i < |s.rows|
    requires k in s.calls && (Mover(s, step) != Some(k) || !Possible(s, step)) && i in HeldBy(s.calls[k])
    ensures i < |Apply(cap, s, step).rows| && Apply(cap, s, step).rows[i] == s.rows[i]
  {
    hide Follow, Depth, FindHash, GetActive, LotFits, Sweep;
    if Possible(s, step) {
      assert Mover(s, step).Some? ==> LockedFor(s, Mover(s, step).value, i);
      if step.EverywhereSweeps? {
        var c := s.calls[step.call];
        assert CallFits(cap, s.rows, c);
        SweepLeavesHeld(cap, s, step.call, c.lot, c.user, k, i);
      } else if step.ReplaceCommits? {
        var c := s.calls[step.call];
        assert CallFits(cap, s.rows, c);
        SweepLeavesHeld(cap, s, step.call, c.lot, c.user, k, i);
      }
    }
  }

  lemma HeldStay(cap: nat, s: State, step: Step, k: nat)
    requires CallsFit(cap, s) && Exclusive(s) && Evolves(s.rows, Apply(cap, s, step).rows)
    requires k in s.calls && (Mover(s, step) != Some(k) || !Possible(s, step))
    ensures HeldRowsStay(s.rows, Apply(cap, s, step).rows, s.calls[k])
  {
    hide Apply, Possible, Mover, CallsFit, Exclusive;
    forall i | i in HeldBy(s.calls[k]) && i < |s.rows| ensures Apply(cap, s, step).rows[i] == s.rows[i] {
      HeldRowStays(cap, s, step, k, i);
    }
  }

  lemma CommitFits(cap: nat, s: State, call: nat)
    requires Inv(cap, s) && Possible(s, ReplaceCommits(call))
    ensures call in DoCommit(s, call).calls && CallFits(cap, DoCommit(s, call).rows, DoCommit(s, call).calls[call])
  {
    hide Follow, Depth, End, FindHash, WellLinked, Exclusive, RedeemedOnce;
    assert CallFits(cap, s.rows, s.calls[call]);
  }

  lemma NewLotFits(rows: seq<Row>, user: string, lot: Lot)
    requires WellLinked(rows)
    requires lot.held == {} || LotFits(rows, user, lot)
    ensures LotFits(rows, user, NewLot(rows, user, lot.held))
  {
    forall i: nat | Live(rows, i) ensures rows[i].next.None? {
      assert LinkFits(rows, i);
    }
  }

  lemma TakenFits(rows: seq<Row>, user: string, lot: Lot, row: nat)
    requires LotFits(rows, user, lot) && row in lot.todo
    ensures LotFits(rows, user, Lot(lot.todo - {row}, lot.held + {row}, lot.limit))
  {
  }

  lemma LinksAreInside(rows: seq<Row>)
    requires WellLinked(rows)
    ensures forall i: nat :: i < |rows| && rows[i].next.Some? ==> rows[i].next.value < |rows|
  {
    forall i: nat | i < |rows| && rows[i].next.Some? ensures rows[i].next.value < |rows| {
      assert LinkFits(rows, i);
    }
  }

  lemma NothingToTake(rows: seq<Row>, user: string, lot: Lot)
    requires LotFits(rows, user, lot) && lot.todo == {}
    ensures HoldsLive(rows, user, lot.limit, lot.held)
  {
  }

  lemma LotMovesFit(cap: nat, s: State, step: Step, call: nat)
    requires Inv(cap, s) && Possible(s, step)
    requires step == ReplaceHolds(call) || step == ReplaceAgain(call) || (step.Takes? && step.call == call)
    ensures var t := Apply(cap, s, step);
            t.rows == s.rows && call in t.calls && CallFits(cap, s.rows, t.calls[call])
  {
    hide LotFits, WellLinked, RedeemedOnce, Exclusive;
    var c := s.calls[call];
    assert CallFits(cap, s.rows, c);
    LinksAreInside(s.rows);
    if step.Takes? {
      TakenFits(s.rows, c.user, c.lot, step.row);
    } else if step.ReplaceAgain? {
      NewLotFits(s.rows, c.user, c.lot);
    } else {
      NothingToTake(s.rows, c.user, c.lot);
    }
  }

  lemma StartFits(cap: nat, s: State, step: Step)
    requires Inv(cap, s) && Possible(s, step) && (step.EverywhereStarts? || step.ReplaceStarts?)
    ensures var t := Apply(cap, s, step); s.started in t.calls && CallFits(cap, t.rows, t.calls[s.started])
  {
    hide LotFits, WellLinked, RedeemedOnce, Exclusive, Changing;
    NewLotFits(s.rows, step.user, Lot({}, {}, 0));
  }

  lemma LookFits(cap: nat, s: State, call: nat)
    requires Inv(cap, s) && Possible(s, Looks(call))
    ensures CallFits(cap, s.rows, DoLook(cap, s, call).calls[call])
  {
    hide Follow, Depth;
    assert CallFits(cap, s.rows, s.calls[call]);
    var c := s.calls[call];
    assert c.token.Some? ==> FindHash(s.rows, c.hash) == c.token;
  }

  lemma WalkFits(cap: nat, s: State, call: nat)
    requires Inv(cap, s) && Possible(s, Walks(call))
    ensures CallFits(cap, DoWalk(cap, s, call).rows, DoWalk(cap, s, call).calls[call])
  {
    hide Follow, Depth, End;
    var c := s.calls[call];
    assert CallFits(cap, s.rows, c);
    assert LinkFits(s.rows, c.phase.end);
    if c.token.Some? {
      var i, end, step := c.token.value, c.phase.end, c.phase.step;
      FollowIs(s.rows, i, step);
      if s.rows[end].next.Some? {
        FollowMore(s.rows, i, step);
      } else {
        EndIsItself(s.rows, end);
        assert !s.rows[end].revoked ==> End(RevokeRow(s.rows, end), i) == end by {
          EndAfterRevoke(s.rows, end, i);
        }
      }
    }
  }

  lemma LookMoves(cap: nat, s: State, call: nat)
    requires At(s, call)
    ensures call in DoLook(cap, s, call).calls && DoLook(cap, s, call).rows == s.rows
  {
  }

  lemma WalkMoves(cap: nat, s: State, call: nat)
    requires Possible(s, Walks(call))
    ensures call in DoWalk(cap, s, call).calls
  {
  }

  lemma RotateFits(cap: nat, s: State, call: nat, newHash: Digest, expires: int)
    requires Inv(cap, s) && Possible(s, RedeemRotates(call, newHash, expires))
    ensures var t := DoRotate(s, call, newHash, expires); call in t.calls && CallFits(cap, t.rows, t.calls[call])
  {
    hide Follow, Depth, End, WellLinked;
    assert CallFits(cap, s.rows, s.calls[call]);
  }

  lemma EverywhereFits(cap: nat, s: State, call: nat)
    requires Inv(cap, s) && Possible(s, EverywhereSweeps(call))
    ensures var t := Apply(cap, s, EverywhereSweeps(call)); call in t.calls && CallFits(cap, t.rows, t.calls[call])
  {
    hide WellLinked, RedeemedOnce, Exclusive;
    assert CallFits(cap, s.rows, s.calls[call]);
  }

  lemma MoverFits(cap: nat, s: State, step: Step, k: nat)
    requires Inv(cap, s) && Possible(s, step) && Mover(s, step) == Some(k)
    ensures k in Apply(cap, s, step).calls && CallFits(cap, Apply(cap, s, step).rows, Apply(cap, s, step).calls[k])
  {
    hide Follow, Depth, End, WellLinked, DoLook, DoWalk, DoCommit, DoAgain, DoTake, LockedFor, Changing, LotFits,
        Exclusive;
    assert k in s.calls ==> CallFits(cap, s.rows, s.calls[k]);
    match step
    case Looks(call) =>
      LookFits(cap, s, call);
      LookMoves(cap, s, call);
    case Walks(call) =>
      WalkFits(cap, s, call);
      WalkMoves(cap, s, call);
    case RedeemRotates(call, newHash, expires) => RotateFits(cap, s, call, newHash, expires);
    case EverywhereStarts(_) => StartFits(cap, s, step);
    case ReplaceStarts(_, _, _) => StartFits(cap, s, step);
    case EverywhereSweeps(call) => EverywhereFits(cap, s, call);
    case Takes(call, _) => LotMovesFit(cap, s, step, call);
    case ReplaceHolds(call) => LotMovesFit(cap, s, step, call);
    case ReplaceAgain(call) => LotMovesFit(cap, s, step, call);
    case ReplaceCommits(call) => CommitFits(cap, s, call);
    case _ =>
  }

  lemma NotMoved(cap: nat, s: State, step: Step, k: nat)
    requires k in Apply(cap, s, step).calls && (Mover(s, step) != Some(k) || !Possible(s, step))
    ensures k in s.calls && Apply(cap, s, step).calls[k] == s.calls[k]
  {
    hide Follow, Depth, FindHash, Insert, Sweep, Rotate, GetActive, RevokeRow;
  }

  lemma NewlyRedeemed(cap: nat, s: State, step: Step, k: nat, id: nat)
    requires k in Apply(cap, s, step).calls && HasRedeemed(Apply(cap, s, step).calls[k], id)
    requires !(k in s.calls && HasRedeemed(s.calls[k], id))
    ensures step.RedeemRotates? && k == step.call && Live(s.rows, id)
  {
    hide Follow, Depth, End, Insert, FindHash, Sweep, LockedFor, Changing, IsLowest, NewLot;
    if Mover(s, step) != Some(k) {
      NotMoved(cap, s, step, k);
    }
  }

  /** A redeemed token is not live. */
  lemma RedeemedIsRevoked(cap: nat, s: State, k: nat, id: nat)
    requires Inv(cap, s) && k in s.calls && HasRedeemed(s.calls[k], id)
    ensures !Live(s.rows, id)
  {
    hide Follow, Depth, End;
    assert CallFits(cap, s.rows, s.calls[k]);
    assert LinkFits(s.rows, id);
  }

  lemma InvIsOnce(cap: nat, s: State)
    requires Inv(cap, s)
    ensures RedeemedOnce(s)
  {
  }

  lemma NewOrOld(cap: nat, s: State, step: Step, k: nat, id: nat)
    requires Inv(cap, s) && k in Apply(cap, s, step).calls && HasRedeemed(Apply(cap, s, step).calls[k], id)
    ensures if k in s.calls && HasRedeemed(s.calls[k], id) then !Live(s.rows, id)
            else step.RedeemRotates? && k == step.call && Live(s.rows, id)
  {
    hide Apply, Inv, HasRedeemed;
    if k in s.calls && HasRedeemed(s.calls[k], id) {
      RedeemedIsRevoked(cap, s, k, id);
    } else {
      NewlyRedeemed(cap, s, step, k, id);
    }
  }

  /** A rotated token was live, so no call had redeemed it. */
  lemma StepRedeemsOnce(cap: nat, s: State, step: Step)
    requires Inv(cap, s)
    ensures RedeemedOnce(Apply(cap, s, step))
  {
    hide Apply, Inv, HasRedeemed;
    var t := Apply(cap, s, step);
    forall j, k, id: nat | j in t.calls && k in t.calls && HasRedeemed(t.calls[j], id) && HasRedeemed(t.calls[k], id)
      ensures j == k
    {
      InvIsOnce(cap, s);
      NewOrOld(cap, s, step, j, id);
      NewOrOld(cap, s, step, k, id);
    }
  }

  lemma CallsStarted(cap: nat, s: State, step: Step)
    requires forall k :: k in s.calls ==> k < s.started
    ensures forall k :: k in Apply(cap, s, step).calls ==> k < Apply(cap, s, step).started
  {
    hide Follow, Depth, FindHash, Insert, Sweep, Rotate, GetActive, RevokeRow;
  }

  lemma MoverHolds(cap: nat, s: State, step: Step, k: nat, i: nat)
    requires Mover(s, step) == Some(k) && Possible(s, step)
    requires k in Apply(cap, s, step).calls && i in HeldBy(Apply(cap, s, step).calls[k])
    ensures (k in s.calls && i in HeldBy(s.calls[k])) || !LockedFor(s, k, i)
  {
    hide Follow, Depth, FindHash, Insert, Sweep, Rotate, GetActive, RevokeRow, Changing, LockedFor, LiveOf, IsLowest;
  }

  /** A step adds no row to what a call holds but one that no other call holds. */
  lemma HeldGrows(cap: nat, s: State, step: Step, k: nat, i: nat)
    requires k in Apply(cap, s, step).calls && i in HeldBy(Apply(cap, s, step).calls[k])
    ensures (k in s.calls && i in HeldBy(s.calls[k])) || (Mover(s, step) == Some(k) && !LockedFor(s, k, i))
  {
    hide Apply, HeldBy, LockedFor, Mover;
    if Mover(s, step) != Some(k) || !Possible(s, step) {
      NotMoved(cap, s, step, k);
    } else {
      MoverHolds(cap, s, step, k, i);
    }
  }

  lemma InvIsExclusive(cap: nat, s: State)
    requires Inv(cap, s)
    ensures Exclusive(s)
  {
  }

  lemma StepKeepsExclusive(cap: nat, s: State, step: Step)
    requires Inv(cap, s)
    ensures Exclusive(Apply(cap, s, step))
  {
    hide Apply, Inv, HeldBy, Mover;
    var t := Apply(cap, s, step);
    forall j, k, i | j in t.calls && k in t.calls && i in HeldBy(t.calls[j]) && i in HeldBy(t.calls[k]) ensures j == k {
      assert j != k && k in s.calls && i in HeldBy(s.calls[k]) ==> LockedFor(s, j, i);
      assert j != k && j in s.calls && i in HeldBy(s.calls[j]) ==> LockedFor(s, k, i);
      HeldGrows(cap, s, step, j, i);
      HeldGrows(cap, s, step, k, i);
      InvIsExclusive(cap, s);
    }
  }

  lemma StepKeeps(cap: nat, s: State, step: Step)
    requires Inv(cap, s)
    ensures Inv(cap, Apply(cap, s, step)) && Evolves(s.rows, Apply(cap, s, step).rows)
  {
    hide Apply, WellLinked, Evolves, CallFits, RedeemedOnce, Mover, HeldRowsStay, Possible, Exclusive;
    var t := Apply(cap, s, step);
    RowsEvolve(cap, s, step);
    StepRedeemsOnce(cap, s, step);
    StepKeepsExclusive(cap, s, step);
    CallsStarted(cap, s, step);
    forall k | k in t.calls ensures CallFits(cap, t.rows, t.calls[k]) {
      if Mover(s, step) == Some(k) && Possible(s, step) {
        MoverFits(cap, s, step, k);
      } else {
        NotMoved(cap, s, step, k);
        HeldStay(cap, s, step, k);
        FitsStays(cap, s.rows, t.rows, s.calls[k]);
      }
    }
  }

  lemma EmptyFits(cap: nat, ids: Ids)
    ensures Inv(cap, Empty(ids))
  {
  }

  lemma {:induction false} RunKeeps(cap: nat, s: State, steps: seq<Step>)
    requires Inv(cap, s)
    ensures Inv(cap, Run(cap, s, steps)) && Evolves(s.rows, Run(cap, s, steps).rows)
  {
    hide Apply, Inv, Evolves;
    if steps == [] {
      SameEvolves(s.rows);
    } else {
      var rest := steps[..|steps| - 1];
      RunKeeps(cap, s, rest);
      StepKeeps(cap, Run(cap, s, rest), steps[|steps| - 1]);
      EvolvesAlong(s.rows, Run(cap, s, rest).rows, Run(cap, s, steps).rows);
    }
  }

  // ---- every call comes to an answer ----

  /** A password change takes its rows in two stages, with a step between them; every other call has one stage. */
  function Stage(c: Call): nat {
    if c.Replacing? && c.change.First? then 3 else if c.Replacing? && c.change.Holding? then 2 else 1
  }

  /** How many more steps of its own a call can take in its stage. */
  function StepsLeft(cap: nat, c: Call): nat {
    match c
    case Everywhere(_, _, lot, sweep) => if sweep.Taking? then |lot.todo| + 1 else 0
    case Replacing(_, _, _, _, lot, change) =>
      if change.First? || change.Again? then |lot.todo| + 1 else if change.Holding? then 1 else 0
    case Client(_, _, _, phase) =>
      match phase
      case Checked(_) => cap + 3
      case Ending => cap + 2
      case Walking(_, step, _) => if step <= cap then cap + 1 - step else 0
      case Done(_) => 0
  }

  /** Whether the step is the next one of call k. */
  predicate IsNextOf(s: State, step: Step, k: nat) {
    Possible(s, step) && match step
      case RedeemRotates(call, _, _) => call == k
      case Looks(call) => call == k
      case Walks(call) => call == k
      case Takes(call, _) => call == k
      case EverywhereSweeps(call) => call == k
      case ReplaceHolds(call) => call == k
      case ReplaceAgain(call) => call == k
      case ReplaceCommits(call) => call == k
      case _ => false
  }

  function OwnSteps(cap: nat, s: State, steps: seq<Step>, k: nat): nat {
    if steps == [] then 0
    else
      var rest, last := steps[..|steps| - 1], steps[|steps| - 1];
      OwnSteps(cap, s, rest, k) + if IsNextOf(Run(cap, s, rest), last, k) then 1 else 0
  }

  /** From c to d a call went on to a later stage, or took so many steps in the one it is in. */
  predicate Progresses(cap: nat, c: Call, d: Call, taken: nat) {
    Stage(d) <= Stage(c) && (Stage(d) == Stage(c) ==> StepsLeft(cap, d) + taken <= StepsLeft(cap, c))
  }

  lemma StaysUnlessMoved(cap: nat, s: State, step: Step, k: nat)
    requires k in s.calls && (Mover(s, step) != Some(k) || !Possible(s, step))
    ensures k in Apply(cap, s, step).calls && Apply(cap, s, step).calls[k] == s.calls[k]
  {
    hide Possible;
    if Possible(s, step) {
      OthersStay(cap, s, step, k);
    }
  }

  lemma OthersDoNotStep(cap: nat, s: State, step: Step, k: nat)
    requires k in s.calls && (Mover(s, step) != Some(k) || !Possible(s, step))
    ensures k in Apply(cap, s, step).calls && Apply(cap, s, step).calls[k] == s.calls[k] && !IsNextOf(s, step, k)
  {
    hide Apply;
    assert Possible(s, step) ==> Mover(s, step) != Some(k);
    StaysUnlessMoved(cap, s, step, k);
  }

  lemma InvIsFit(cap: nat, s: State)
    requires Inv(cap, s)
    ensures CallsFit(cap, s)
  {
  }

  lemma ClientProgresses(cap: nat, s: State, step: Step, k: nat)
    requires CallsFit(cap, s) && k in s.calls && Mover(s, step) == Some(k) && Possible(s, step) && s.calls[k].Client?
    ensures k in Apply(cap, s, step).calls
    ensures Progresses(cap, s.calls[k], Apply(cap, s, step).calls[k], if IsNextOf(s, step, k) then 1 else 0)
  {
    hide Follow, Depth, End, Insert, FindHash, Sweep, Rotate, GetActive, RevokeRow, LockedFor, Changing, NewLot;
    assert CallFits(cap, s.rows, s.calls[k]);
  }

  lemma RevokeProgresses(cap: nat, s: State, step: Step, k: nat)
    requires CallsFit(cap, s) && k in s.calls && Mover(s, step) == Some(k) && Possible(s, step) && !s.calls[k].Client?
    ensures k in Apply(cap, s, step).calls
    ensures Progresses(cap, s.calls[k], Apply(cap, s, step).calls[k], if IsNextOf(s, step, k) then 1 else 0)
  {
    hide Follow, Depth, End, Insert, FindHash, Sweep, Rotate, GetActive, RevokeRow, LockedFor, Changing, NewLot,
         LotFits;
    assert CallFits(cap, s.rows, s.calls[k]);
  }

  lemma StepProgresses(cap: nat, s: State, step: Step, k: nat)
    requires Inv(cap, s) && k in s.calls
    ensures k in Apply(cap, s, step).calls
    ensures Progresses(cap, s.calls[k], Apply(cap, s, step).calls[k], if IsNextOf(s, step, k) then 1 else 0)
  {
    hide Apply, Stage, StepsLeft, IsNextOf, Mover, Inv, Possible, CallsFit;
    if Mover(s, step) != Some(k) || !Possible(s, step) {
      OthersDoNotStep(cap, s, step, k);
    } else {
      assert CallsFit(cap, s) by {
        InvIsFit(cap, s);
      }
      if s.calls[k].Client? {
        ClientProgresses(cap, s, step, k);
      } else {
        RevokeProgresses(cap, s, step, k);
      }
    }
  }

  /**
   Whatever runs between them, a call takes a bounded number of its own steps in a stage and never goes
   back to one: a refresh or a log out cap + 3 in all, a revoke one for each row it has to take and one
   more.
   */
  lemma {:induction false} EveryCallFinishes(cap: nat, s: State, steps: seq<Step>, k: nat)
    requires Inv(cap, s) && k in s.calls
    ensures k in Run(cap, s, steps).calls
    ensures Progresses(cap, s.calls[k], Run(cap, s, steps).calls[k], OwnSteps(cap, s, steps, k))
  {
    hide Apply, Inv, StepsLeft, IsNextOf, Stage;
    if steps == [] {
    } else {
      var rest, last := steps[..|steps| - 1], steps[|steps| - 1];
      EveryCallFinishes(cap, s, rest, k);
      RunKeeps(cap, s, rest);
      StepProgresses(cap, Run(cap, s, rest), last, k);
    }
  }
}
