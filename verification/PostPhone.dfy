/**
 One post on the phone: loads that race, one comment at a time, and deletes, each patching the
 shown list instead of asking for it again.
 */
module PostPhone {
  import opened Options
  import opened Sequences
  import opened Threads

  /** Null comments or count are what a viewer who may not see comments is sent. */
  datatype Post = Post(comments: Option<seq<Comment>>, count: Option<nat>)

  function ListOf(p: Post): seq<Comment> { if p.comments.Some? then p.comments.value else [] }

  function CountOf(p: Post): nat { if p.count.Some? then p.count.value else |ListOf(p)| }

  /** The post page the server answers with for the comment rows the viewer may see. */
  function Served(rows: seq<Comment>): Post { Post(Some(Thread(rows)), Some(|Thread(rows)|)) }

  datatype Status = Loading | Ready | Offline | Absent
  datatype LoadError = NotFound | Network | Generic
  datatype CommentError = CommentsOff | ParentGone | Refused

  /** One tap on reply: tapping the same comment again is another choice. */
  datatype Choice = Choice(comment: Comment, tap: nat)

  datatype Call =
    | Read(mine: nat)
    | Send(parent: Option<Choice>)
    | Delete(id: string)

  datatype Screen = Screen(
    valid: bool, post: Option<Post>, status: Status, failure: LoadError, seqNo: nat, mounted: bool,
    commenting: bool, replyTo: Option<Choice>, taps: nat, flight: map<nat, Call>, sent: nat)

  function Start(valid: bool): Screen {
    Screen(valid, None, if valid then Loading else Absent, Network, 0, true, false, None, 0, map[], 0)
  }

  // ---- patching the list ----

  function WithComment(p: Post, saved: Comment): Post {
    Post(Some(Place(ListOf(p), saved)), Some(CountOf(p) + 1))
  }

  function AtLeastZero(n: int): nat { if n < 0 then 0 else n }

  function WithoutComment(p: Post, id: string): Post {
    var left := Remove(ListOf(p), id);
    Post(Some(left), Some(AtLeastZero(CountOf(p) - (|ListOf(p)| - |left|))))
  }

  // ---- steps ----

  function Load(s: Screen): Screen {
    if !s.valid then s.(post := None, status := Absent)
    else
      s.(seqNo := s.seqNo + 1, status := if s.post.None? then Loading else s.status,
         flight := s.flight[s.sent := Read(s.seqNo + 1)], sent := s.sent + 1)
  }

  function Loaded(s: Screen, n: nat, answer: Result<Post, LoadError>): Screen
    requires n in s.flight && s.flight[n].Read?
  {
    var t := s.(flight := s.flight - {n});
    if !s.mounted || s.flight[n].mine != s.seqNo then t
    else match answer
      case Ok(next) => t.(post := Some(next), status := Ready)
      case Err(e) =>
        if e == NotFound then t.(post := None, status := Absent)
        else if s.post.Some? then t
        else t.(failure := e, status := Offline)
  }

  function Comments(s: Screen, nothingToSend: bool): Screen {
    if nothingToSend || s.commenting || s.post.None? then s
    else s.(commenting := true, flight := s.flight[s.sent := Send(s.replyTo)], sent := s.sent + 1)
  }

  /** Reply mode ends only for the choice the comment was sent with. */
  function EndReply(s: Screen, parent: Option<Choice>): Option<Choice> {
    if s.mounted && s.replyTo == parent then None else s.replyTo
  }

  function Commented(s: Screen, n: nat, answer: Result<Comment, CommentError>): Screen
    requires n in s.flight && s.flight[n].Send?
  {
    var parent := s.flight[n].parent;
    var t := s.(flight := s.flight - {n}, commenting := false);
    match answer
    case Ok(saved) =>
      t.(post := if s.mounted && s.post.Some? then Some(WithComment(s.post.value, saved)) else s.post,
         replyTo := EndReply(s, parent))
    case Err(e) =>
      if e == CommentsOff then Load(t)
      else if parent.Some? && e == ParentGone then Load(t.(replyTo := EndReply(s, parent)))
      else t
  }

  function Deletes(s: Screen, id: string): Screen {
    s.(flight := s.flight[s.sent := Delete(id)], sent := s.sent + 1)
  }

  predicate Lists(list: seq<Comment>, id: string) { exists c :: c in list && c.id == id }

  function Deleted(s: Screen, n: nat, done: bool): Screen
    requires n in s.flight && s.flight[n].Delete?
  {
    var t := s.(flight := s.flight - {n});
    if !done || !s.mounted || s.post.None? then t
    else
      var next := WithoutComment(s.post.value, s.flight[n].id);
      var kept := s.replyTo.None? || Lists(ListOf(next), s.replyTo.value.comment.id);
      t.(post := Some(next), replyTo := if kept then s.replyTo else None)
  }

  datatype Step =
    | Focus
    | ReadAnswer(n: nat, answer: Result<Post, LoadError>)
    | SendTap(nothingToSend: bool)
    | SendAnswer(n: nat, reply: Result<Comment, CommentError>)
    | DeleteTap(id: string)
    | DeleteAnswer(n: nat, done: bool)
    | ReplyTap(comment: Comment)
    | CancelReply
    | Mounted(now: bool)

  predicate Possible(s: Screen, step: Step) {
    match step
    case ReadAnswer(n, _) => n in s.flight && s.flight[n].Read?
    case SendAnswer(n, _) => n in s.flight && s.flight[n].Send?
    case DeleteAnswer(n, _) => n in s.flight && s.flight[n].Delete?
    case _ => true
  }

  function Apply(s: Screen, step: Step): Screen {
    if !Possible(s, step) then s
    else match step
      case Focus => Load(s)
      case ReadAnswer(n, answer) => Loaded(s, n, answer)
      case SendTap(nothing) => Comments(s, nothing)
      case SendAnswer(n, reply) => Commented(s, n, reply)
      case DeleteTap(id) => Deletes(s, id)
      case DeleteAnswer(n, done) => Deleted(s, n, done)
      case ReplyTap(c) => s.(replyTo := Some(Choice(c, s.taps)), taps := s.taps + 1)
      case CancelReply => s.(replyTo := None)
      case Mounted(now) => s.(mounted := now)
  }

  function Run(s: Screen, steps: seq<Step>): Screen {
    if steps == [] then s else Apply(Run(s, steps[..|steps| - 1]), steps[|steps| - 1])
  }

  // ---- the count ----

  /** Whether a step replaces what is shown with an answer, rather than patching it. */
  predicate Replaces(s: Screen, step: Step) {
    Possible(s, step) && step.ReadAnswer? && s.mounted && s.flight[step.n].mine == s.seqNo &&
    (step.answer.Ok? || step.answer.error == NotFound)
  }

  /** How many shown comments the step saves again under the id they already have. */
  function SavedAgain(s: Screen, step: Step): nat {
    if Possible(s, step) && step.SendAnswer? && step.reply.Ok? && s.mounted && s.post.Some? then
      |ListOf(s.post.value)| - |Filter(ListOf(s.post.value), NotId(step.reply.value.id))|
    else 0
  }

  /** The comments saved again since the post shown was last answered. */
  function Drift(s: Screen, steps: seq<Step>): nat {
    if steps == [] then 0
    else
      var before, last := Run(s, steps[..|steps| - 1]), steps[|steps| - 1];
      if Replaces(before, last) then 0 else Drift(s, steps[..|steps| - 1]) + SavedAgain(before, last)
  }

  /** A served post counts exactly the comments it lists. */
  predicate Tallied(p: Post) { CountOf(p) == |ListOf(p)| }

  predicate TrueAnswers(steps: seq<Step>) {
    forall step :: step in steps && step.ReadAnswer? && step.answer.Ok? ==> Tallied(step.answer.value)
  }

  ghost predicate CountsWith(s: Screen, drift: nat) {
    s.post.Some? ==> CountOf(s.post.value) == |ListOf(s.post.value)| + drift
  }

  lemma PlaceLength(list: seq<Comment>, saved: Comment)
    ensures |Place(list, saved)| == |Filter(list, NotId(saved.id))| + 1
  {
  }

  lemma StepCounts(s: Screen, step: Step, drift: nat)
    requires CountsWith(s, drift)
    requires step.ReadAnswer? && step.answer.Ok? ==> Tallied(step.answer.value)
    ensures CountsWith(Apply(s, step), if Replaces(s, step) then 0 else drift + SavedAgain(s, step))
  {
    hide Filter, Place;
    if step.SendAnswer? && step.reply.Ok? && s.post.Some? {
      PlaceLength(ListOf(s.post.value), step.reply.value);
    }
  }

  lemma NothingShown(valid: bool)
    ensures CountsWith(Start(valid), 0)
  {
  }

  /** Over every run the count is off by exactly the comments saved again under an id already listed. */
  lemma {:induction false} CountIsListAndDrift(valid: bool, steps: seq<Step>)
    requires TrueAnswers(steps)
    ensures CountsWith(Run(Start(valid), steps), Drift(Start(valid), steps))
  {
    hide Apply, Replaces, SavedAgain, CountsWith;
    if steps == [] {
      NothingShown(valid);
    } else {
      var rest, last := steps[..|steps| - 1], steps[|steps| - 1];
      assert TrueAnswers(rest) && last in steps;
      CountIsListAndDrift(valid, rest);
      StepCounts(Run(Start(valid), rest), last, Drift(Start(valid), rest));
    }
  }

  /** Nothing of the id is filtered exactly when nothing has it. */
  lemma {:induction false} FilterDropsListed(list: seq<Comment>, id: string)
    ensures |Filter(list, NotId(id))| == |list| <==> !Lists(list, id)
  {
    if !Lists(list, id) {
      FilterAll(list, NotId(id));
    } else {
      var c :| c in list && c.id == id;
      var k :| 0 <= k < |list| && list[k] == c;
      assert list == list[..k] + ([c] + list[k + 1..]);
      FilterConcat(list[..k], [c] + list[k + 1..], NotId(id));
      FilterCons(c, list[k + 1..], NotId(id));
    }
  }

  /** A comment's answer keeps the count true exactly when the comment is not listed yet. */
  lemma AnswerKeepsCountTrue(p: Post, saved: Comment)
    requires Tallied(p)
    ensures Tallied(WithComment(p, saved)) <==> !Lists(ListOf(p), saved.id)
  {
    hide Filter, Place;
    PlaceLength(ListOf(p), saved);
    FilterDropsListed(ListOf(p), saved.id);
  }

  /** A delete's answer always keeps it true. */
  lemma DeleteKeepsCountTrue(p: Post, id: string)
    requires Tallied(p)
    ensures Tallied(WithoutComment(p, id))
  {
  }

  lemma SixSteps(s: Screen, steps: seq<Step>)
    requires |steps| == 6
    ensures Run(s, steps) ==
            Apply(Apply(Apply(Apply(Apply(Apply(s, steps[0]), steps[1]), steps[2]), steps[3]), steps[4]), steps[5])
  {
    hide Apply;
    assert steps[..5][..4] == steps[..4] && steps[..4][..3] == steps[..3];
    assert steps[..3][..2] == steps[..2] && steps[..2][..1] == steps[..1] && steps[..1][..0] == [];
    assert Run(s, steps[..1]) == Apply(s, steps[0]);
    assert Run(s, steps[..2]) == Apply(Run(s, steps[..1]), steps[1]);
    assert Run(s, steps[..3]) == Apply(Run(s, steps[..2]), steps[2]);
    assert Run(s, steps[..4]) == Apply(Run(s, steps[..3]), steps[3]);
    assert Run(s, steps[..5]) == Apply(Run(s, steps[..4]), steps[4]);
  }

  lemma OneComment(c: Comment)
    requires IsTop(c)
    ensures Thread([c]) == [c]
  {
    FilterAll([c], IsTop);
    FilterNone([c], RepliesTo(c.id));
    BlocksCons(c, [], [c]);
  }

  /** A reload that overtakes the comment's own answer leaves the count one too high. */
  lemma OvertakenAnswerMiscounts(c: Comment)
    requires IsTop(c)
    ensures var steps := [Focus, ReadAnswer(0, Ok(Served([]))), SendTap(false), Focus,
                          ReadAnswer(2, Ok(Served([c]))), SendAnswer(1, Ok(c))];
            var p := Run(Start(true), steps).post;
            TrueAnswers(steps) && p.Some? && ListOf(p.value) == [c] && CountOf(p.value) == 2
  {
    var s0 := Start(true);
    var steps := [Focus, ReadAnswer(0, Ok(Served([]))), SendTap(false), Focus,
                  ReadAnswer(2, Ok(Served([c]))), SendAnswer(1, Ok(c))];
    OneComment(c);
    var s1 := Apply(s0, steps[0]);
    var s2 := Apply(s1, steps[1]);
    var s3 := Apply(s2, steps[2]);
    var s4 := Apply(s3, steps[3]);
    var s5 := Apply(s4, steps[4]);
    assert s5.post == Some(Served([c]));
    assert Filter([c], NotId(c.id)) == [];
    var s6 := Apply(s5, steps[5]);
    SixSteps(s0, steps);
  }

  // ---- the patched list ----

  /** What this phone did to the post's comments, as the server did it. */
  datatype Edit = Added(saved: Comment) | Dropped(id: string)

  function EditRows(rows: seq<Comment>, edits: seq<Edit>): seq<Comment> {
    if edits == [] then rows
    else
      var before, last := EditRows(rows, edits[..|edits| - 1]), edits[|edits| - 1];
      if last.Added? then before + [last.saved] else Remove(before, last.id)
  }

  function EditPost(p: Post, edits: seq<Edit>): Post {
    if edits == [] then p
    else
      var before, last := EditPost(p, edits[..|edits| - 1]), edits[|edits| - 1];
      if last.Added? then WithComment(before, last.saved) else WithoutComment(before, last.id)
  }

  /** What the server only ever adds: a new id, and a reply under a comment that is there. */
  ghost predicate Fits(rows: seq<Comment>, saved: Comment) {
    IsNew(rows, saved.id) && saved.parent != Some(saved.id) && (IsTop(saved) || HasTop(rows, saved.parent.value))
  }

  ghost predicate AllFit(rows: seq<Comment>, edits: seq<Edit>) {
    forall k :: 0 <= k < |edits| && edits[k].Added? ==> Fits(EditRows(rows, edits[..k]), edits[k].saved)
  }

  lemma AddIsServed(rows: seq<Comment>, saved: Comment)
    requires DistinctIds(rows) && Fits(rows, saved)
    ensures DistinctIds(rows + [saved]) && WithComment(Served(rows), saved) == Served(rows + [saved])
  {
    hide Filter, Blocks, Place, Thread;
    PlaceIsRebuild(rows, saved);
    forall c | c in Thread(rows) ensures c.id != saved.id {
      InThreadList(rows, c);
    }
    FilterAll(Thread(rows), NotId(saved.id));
    PlaceLength(Thread(rows), saved);
  }

  lemma DropIsServed(rows: seq<Comment>, id: string)
    requires DistinctIds(rows)
    ensures DistinctIds(Remove(rows, id)) && WithoutComment(Served(rows), id) == Served(Remove(rows, id))
  {
    hide Filter, Blocks, Thread;
    RemoveCommutes(rows, id);
    FilterKeepsDistinct(rows, Survives(id));
  }

  /** Patching what is shown, answer by answer, is asking for the whole post again: list and count. */
  lemma {:induction false} PatchedIsServed(rows: seq<Comment>, edits: seq<Edit>)
    requires DistinctIds(rows) && AllFit(rows, edits)
    ensures DistinctIds(EditRows(rows, edits))
    ensures EditPost(Served(rows), edits) == Served(EditRows(rows, edits))
  {
    hide Filter, Blocks, Place, Thread, Remove;
    if edits == [] {
    } else {
      var rest, last := edits[..|edits| - 1], edits[|edits| - 1];
      forall k | 0 <= k < |rest| && rest[k].Added? ensures Fits(EditRows(rows, rest[..k]), rest[k].saved) {
        assert edits[k].Added? && edits[..k] == rest[..k];
      }
      PatchedIsServed(rows, rest);
      var before := EditRows(rows, rest);
      if last.Added? {
        AddIsServed(before, last.saved);
      } else {
        DropIsServed(before, last.id);
      }
    }
  }

  lemma NotServed(rows: seq<Comment>, saved: Comment, id: string)
    requires saved.id == id || saved.parent == Some(id)
    ensures saved !in Thread(Remove(rows, id))
  {
    InThreadList(Remove(rows, id), saved);
    assert !Survives(id)(saved);
  }

  lemma PlaceListsNoOther(rows: seq<Comment>, saved: Comment, id: string)
    requires saved.id != id
    ensures !Lists(Place(Thread(Remove(rows, id)), saved), id)
  {
    var list := Thread(Remove(rows, id));
    forall c | c in Place(list, saved) ensures c.id != id {
      assert c == saved || c in list;
      InThreadList(Remove(rows, id), c);
    }
  }

  lemma PlacedIsListed(list: seq<Comment>, saved: Comment)
    ensures saved in Place(list, saved)
  {
  }

  lemma StillFits(rows: seq<Comment>, saved: Comment, id: string)
    requires Fits(rows, saved) && saved.parent != Some(id)
    ensures Fits(Remove(rows, id), saved)
  {
    var left := Remove(rows, id);
    assert forall c :: c in left <==> c in rows && Survives(id)(c);
    if !IsTop(saved) {
      var t :| t in rows && IsTop(t) && t.id == saved.parent.value;
      assert t in left;
    }
  }

  /**
   A delete's answer that lands before the comment's leaves the same list and count exactly when the
   delete is of neither the new comment nor the one it answers. Otherwise the new comment stays, and
   when it is a reply nothing it answers is there.
   */
  lemma OrderOfAnswers(rows: seq<Comment>, saved: Comment, id: string)
    requires DistinctIds(rows) && Fits(rows, saved)
    ensures var late := WithComment(WithoutComment(Served(rows), id), saved);
            && (late == WithoutComment(WithComment(Served(rows), saved), id) <==>
                saved.id != id && saved.parent != Some(id))
            && saved in ListOf(late)
            && (saved.parent == Some(id) ==> !Lists(ListOf(late), id))
  {
    hide Filter, Blocks, Place, Thread, DistinctIds, IsNew, Lists;
    DropIsServed(rows, id);
    AddIsServed(rows, saved);
    DropIsServed(rows + [saved], id);
    var left := Remove(rows, id);
    var late := WithComment(Served(left), saved);
    PlacedIsListed(Thread(left), saved);
    if saved.id != id && saved.parent != Some(id) {
      StillFits(rows, saved, id);
      AddIsServed(left, saved);
      FilterSnoc(rows, saved, Survives(id));
    } else {
      NotServed(rows + [saved], saved, id);
      if saved.parent == Some(id) {
        PlaceListsNoOther(rows, saved, id);
      }
    }
  }

  lemma EditsOfOne(t: Comment, r: Comment)
    requires r.parent == Some(t.id)
    ensures EditRows([t], [Added(r), Dropped(t.id)]) == []
  {
    var edits := [Added(r), Dropped(t.id)];
    assert edits[..1] == [Added(r)] && edits[..1][..0] == [];
    assert EditRows([t], edits[..1]) == [t] + [r];
    FilterNone([t] + [r], Survives(t.id));
  }

  lemma LastStep(s: Screen, steps: seq<Step>)
    requires steps != []
    ensures Run(s, steps) == Apply(Run(s, steps[..|steps| - 1]), steps[|steps| - 1])
  {
  }

  /** The screen with one comment shown and a reply to it on its way. */
  function Replying(t: Comment): Screen {
    Screen(true, Some(Post(Some([t]), Some(1))), Ready, Network, 1, true, true, Some(Choice(t, 0)), 1,
           map[1 := Send(Some(Choice(t, 0)))], 2)
  }

  lemma ReplyStarts(t: Comment)
    requires IsTop(t)
    ensures Apply(Apply(Apply(Apply(Start(true), Focus), ReadAnswer(0, Ok(Served([t])))), ReplyTap(t)),
                  SendTap(false)) ==
            Replying(t)
  {
    hide Thread, Place, Filter;
    OneComment(t);
    var s2 := Apply(Apply(Start(true), Focus), ReadAnswer(0, Ok(Served([t]))));
    assert s2.post == Some(Post(Some([t]), Some(1))) && s2.flight == map[];
    var s4 := Apply(Apply(s2, ReplyTap(t)), SendTap(false));
    assert s4.flight == Replying(t).flight;
  }

  lemma DeleteOvertakes(t: Comment)
    requires IsTop(t)
    ensures var s := Apply(Apply(Replying(t), DeleteTap(t.id)), DeleteAnswer(2, true));
            s.post == Some(Post(Some([]), Some(0))) && s.mounted && 1 in s.flight && s.flight[1].Send?
  {
    FilterNone([t], Survives(t.id));
    assert WithoutComment(Replying(t).post.value, t.id) == Post(Some([]), Some(0));
  }

  /** A run in which it does: the reply is on the screen with nothing above it, and counted. */
  lemma OrphanedReply(t: Comment, r: Comment)
    requires IsTop(t) && r.parent == Some(t.id) && r.id != t.id
    ensures var steps := [Focus, ReadAnswer(0, Ok(Served([t]))), ReplyTap(t), SendTap(false), DeleteTap(t.id),
                          DeleteAnswer(2, true), SendAnswer(1, Ok(r))];
            var p := Run(Start(true), steps).post;
            && p == Some(Post(Some([r]), Some(1)))
            && Fits([t], r) && Served(EditRows([t], [Added(r), Dropped(t.id)])) == Served([])
  {
    hide Run, Thread, Filter;
    var steps := [Focus, ReadAnswer(0, Ok(Served([t]))), ReplyTap(t), SendTap(false), DeleteTap(t.id),
                  DeleteAnswer(2, true), SendAnswer(1, Ok(r))];
    ReplyStarts(t);
    DeleteOvertakes(t);
    SixSteps(Start(true), steps[..6]);
    assert steps[..6] == [Focus, ReadAnswer(0, Ok(Served([t]))), ReplyTap(t), SendTap(false), DeleteTap(t.id),
                          DeleteAnswer(2, true)];
    LastStep(Start(true), steps);
    FilterAll([], NotId(r.id));
    assert Place([], r) == [r];
    assert t in [t];
    EditsOfOne(t, r);
  }

  // ---- one at a time ----

  predicate IsSend(s: Screen, n: nat) { n in s.flight && s.flight[n].Send? }

  predicate Older(c: Option<Choice>, taps: nat) { c.Some? ==> c.value.tap < taps }

  /** The flag is up exactly while a comment is on its way, and never two are. */
  ghost predicate SendsExact(s: Screen) {
    && (forall n :: n in s.flight ==> n < s.sent)
    && (forall n, m :: IsSend(s, n) && IsSend(s, m) ==> n == m)
    && (s.commenting <==> exists n :: IsSend(s, n))
    && Older(s.replyTo, s.taps)
    && (forall n :: IsSend(s, n) ==> Older(s.flight[n].parent, s.taps))
  }

  lemma LoadKeepsSends(s: Screen)
    requires SendsExact(s)
    ensures SendsExact(Load(s))
  {
    var t := Load(s);
    assert forall n :: IsSend(t, n) <==> IsSend(s, n);
  }

  lemma AnswerKeepsSends(s: Screen, n: nat, reply: Result<Comment, CommentError>)
    requires SendsExact(s) && IsSend(s, n)
    ensures SendsExact(Commented(s, n, reply))
  {
    hide WithComment;
    var u := s.(flight := s.flight - {n}, commenting := false);
    var v := u.(replyTo := EndReply(s, s.flight[n].parent));
    var t := Commented(s, n, reply);
    forall m ensures !IsSend(u, m) && !IsSend(v, m) && !IsSend(t, m) {
      assert m in u.flight ==> m in s.flight && m != n && s.flight[m] == u.flight[m];
      assert IsSend(s, m) ==> m == n;
    }
  }

  lemma StepKeepsSends(s: Screen, step: Step)
    requires SendsExact(s)
    ensures SendsExact(Apply(s, step))
  {
    hide Place, Filter, Lists;
    var t := Apply(s, step);
    match step
    case Focus => LoadKeepsSends(s);
    case SendTap(nothing) =>
      if t != s {
        assert IsSend(t, s.sent);
        forall n | IsSend(t, n) ensures n == s.sent {
          assert n != s.sent ==> IsSend(s, n);
        }
      }
    case SendAnswer(n, reply) =>
      if Possible(s, step) {
        AnswerKeepsSends(s, n, reply);
      }
    case _ => assert forall n :: IsSend(t, n) <==> IsSend(s, n);
  }

  /** In every run at most one comment is on its way, and the flag says so. */
  lemma {:induction false} SendsAreExact(valid: bool, steps: seq<Step>)
    ensures SendsExact(Run(Start(valid), steps))
  {
    hide Apply;
    if steps == [] {
    } else {
      SendsAreExact(valid, steps[..|steps| - 1]);
      StepKeepsSends(Run(Start(valid), steps[..|steps| - 1]), steps[|steps| - 1]);
    }
  }

  /** A reply chosen while a comment is on its way outlives that comment's answer. */
  lemma LaterChoiceStays(valid: bool, steps: seq<Step>, c: Comment, n: nat, reply: Result<Comment, CommentError>)
    ensures var s := Run(Start(valid), steps);
            var t := Apply(s, ReplyTap(c));
            Apply(t, SendAnswer(n, reply)).replyTo == Some(Choice(c, s.taps))
  {
    hide Run, Place, Filter;
    SendsAreExact(valid, steps);
    var s := Run(Start(valid), steps);
    assert IsSend(s, n) ==> Older(s.flight[n].parent, s.taps);
  }

  // ---- what each answer shows ----

  /** A read that still counts lands. */
  predicate ReadLands(s: Screen, step: Step) {
    Possible(s, step) && step.ReadAnswer? && s.mounted && s.flight[step.n].mine == s.seqNo
  }

  /** A comment refused because comments are off, or because what it answers went away, reads the post again. */
  predicate Reads(s: Screen, step: Step) {
    Possible(s, step) && step.SendAnswer? && step.reply.Err? &&
    (step.reply.error == CommentsOff || (step.reply.error == ParentGone && s.flight[step.n].parent.Some?))
  }

  /**
   Of each step: the post shown is the one a read that counts brings, none when the read does not find it or
   its id is no id, and the patched one after a comment or a delete that was done; else it stays.
   */
  lemma PostIsExact(s: Screen, step: Step)
    ensures Apply(s, step).post ==
            if (step == Focus || Reads(s, step)) && !s.valid then None
            else if ReadLands(s, step) && step.answer.Ok? then Some(step.answer.value)
            else if ReadLands(s, step) && step.answer == Err(NotFound) then None
            else if !Possible(s, step) || !s.mounted || s.post.None? then s.post
            else if step.SendAnswer? && step.reply.Ok? then
              Some(Post(Some(Place(ListOf(s.post.value), step.reply.value)), Some(CountOf(s.post.value) + 1)))
            else if step.DeleteAnswer? && step.done then Some(WithoutComment(s.post.value, s.flight[step.n].id))
            else s.post
  {
    hide Place, Filter, Lists;
  }

  /** The count shown is the one sent, or the list's length when none was sent. */
  lemma CountIs(p: Post, list: seq<Comment>)
    requires p.comments == Some(list) || (p.comments.None? && list == [])
    ensures ListOf(p) == list && CountOf(p) == if p.count.Some? then p.count.value else |list|
  {
  }

  /** A delete takes out the comment and its replies and lowers the count by as many as were listed, to 0 at least. */
  lemma WithoutIs(p: Post, id: string, c: Comment)
    ensures var q := WithoutComment(p, id);
            && q.comments.Some? && q.count.Some?
            && (c in q.comments.value <==> c in ListOf(p) && c.id != id && c.parent != Some(id))
            && q.comments.value == Filter(ListOf(p), Survives(id))
            && var gone := |ListOf(p)| - |q.comments.value|;
               q.count.value == if CountOf(p) >= gone then CountOf(p) - gone else 0
  {
  }

  /**
   Of each step: the page is loading from a read with nothing shown, ready with one that counts, absent when
   it is not found, and offline when it fails with nothing shown; else it stays.
   */
  lemma StatusIsExact(s: Screen, step: Step)
    ensures var again := Reads(s, step);
            Apply(s, step).status ==
            if (step == Focus || again) && !s.valid then Absent
            else if (step == Focus || again) && Apply(s, step).post.None? then Loading
            else if ReadLands(s, step) && step.answer.Ok? then Ready
            else if ReadLands(s, step) && step.answer == Err(NotFound) then Absent
            else if ReadLands(s, step) && s.post.None? then Offline
            else s.status
    ensures Apply(s, step).failure ==
            if ReadLands(s, step) && step.answer.Err? && step.answer.error != NotFound && s.post.None? then
              step.answer.error
            else s.failure
  {
    hide Place, Filter, Lists;
  }

  /** The step asks the post again, under a new number. */
  predicate AsksPost(s: Screen, t: Screen) {
    t.seqNo == s.seqNo + 1 && t.sent == s.sent + 1 && s.sent in t.flight && t.flight[s.sent] == Read(t.seqNo)
  }

  /** The post is asked on focus and after such a refusal, and only then. */
  lemma ReadsExactly(s: Screen, step: Step)
    ensures AsksPost(s, Apply(s, step)) <==> s.valid && (step == Focus || Reads(s, step))
    ensures Apply(s, step).seqNo != s.seqNo ==> AsksPost(s, Apply(s, step))
  {
    hide Place, Filter, Lists;
  }

  /**
   In every run a tap on send sends exactly when there is something to send, a post is shown and no comment
   is on its way; it carries the reply chosen then.
   */
  lemma SendsExactly(valid: bool, steps: seq<Step>, nothing: bool)
    ensures var s := Run(Start(valid), steps);
            var t := Apply(s, SendTap(nothing));
            && (t.sent == s.sent + 1 <==>
                !nothing && s.post.Some? && forall n :: n in s.flight ==> !s.flight[n].Send?)
            && (t.sent != s.sent + 1 ==> t == s)
            && (t.sent == s.sent + 1 ==>
                t == s.(commenting := true, sent := s.sent + 1, flight := s.flight[s.sent := Send(s.replyTo)]))
  {
    hide Run;
    SendsAreExact(valid, steps);
    var s := Run(Start(valid), steps);
    if s.commenting {
      var n :| IsSend(s, n);
    } else {
      forall n | n in s.flight ensures !s.flight[n].Send? {
        assert !IsSend(s, n);
      }
    }
  }

  /** The choice a reply ends with: the same one, or none. */
  predicate SameOrNone(s: Screen, choice: Option<Choice>) { s.replyTo == choice || s.replyTo.None? }

  predicate Waits(s: Screen, n: nat, choice: Option<Choice>) {
    n in s.flight && s.flight[n] == Send(choice) && n < s.sent && SameOrNone(s, choice)
  }

  lemma LoadWaits(s: Screen, n: nat, choice: Option<Choice>)
    requires Waits(s, n, choice)
    ensures Waits(Load(s), n, choice)
  {
  }

  lemma CommentedWaits(s: Screen, m: nat, reply: Result<Comment, CommentError>, n: nat, choice: Option<Choice>)
    requires Waits(s, n, choice) && m in s.flight && s.flight[m].Send? && m != n
    ensures Waits(Commented(s, m, reply), n, choice)
  {
    hide WithComment;
  }

  lemma DeletedWaits(s: Screen, m: nat, done: bool, n: nat, choice: Option<Choice>)
    requires Waits(s, n, choice) && m in s.flight && s.flight[m].Delete?
    ensures Waits(Deleted(s, m, done), n, choice)
  {
    hide WithoutComment, Lists;
  }

  lemma StepWaits(s: Screen, step: Step, n: nat, choice: Option<Choice>)
    requires Waits(s, n, choice) && !step.ReplyTap? && !(step.SendAnswer? && step.n == n)
    ensures Waits(Apply(s, step), n, choice)
  {
    hide Load, Commented, Deleted;
    match step
    case Focus => LoadWaits(s, n, choice);
    case SendAnswer(m, reply) =>
      if Possible(s, step) {
        CommentedWaits(s, m, reply, n, choice);
      }
    case DeleteAnswer(m, done) =>
      if Possible(s, step) {
        DeletedWaits(s, m, done, n, choice);
      }
    case _ =>
  }

  lemma {:induction false} RunWaits(s: Screen, steps: seq<Step>, n: nat, choice: Option<Choice>)
    requires Waits(s, n, choice)
    requires forall step :: step in steps ==> !step.ReplyTap? && !(step.SendAnswer? && step.n == n)
    ensures Waits(Run(s, steps), n, choice)
  {
    hide Apply, Waits;
    if steps == [] {
    } else {
      var rest, last := steps[..|steps| - 1], steps[|steps| - 1];
      assert last in steps;
      RunWaits(s, rest, n, choice);
      StepWaits(Run(s, rest), last, n, choice);
    }
  }

  lemma AnswerEnds(s: Screen, n: nat, choice: Option<Choice>, saved: Comment)
    requires Waits(s, n, choice) && s.mounted
    ensures Apply(s, SendAnswer(n, Ok(saved))).replyTo.None?
  {
    hide Place, Filter, Lists, WithComment;
  }

  lemma TapWaits(s: Screen)
    requires s.post.Some? && !s.commenting
    ensures Waits(Apply(s, SendTap(false)), s.sent, s.replyTo)
  {
  }

  /**
   Once its comment is saved a reply is over: when no other was chosen since it was sent, whatever else
   happened, none is chosen after the answer.
   */
  lemma ReplyEnds(s: Screen, between: seq<Step>, saved: Comment)
    requires s.post.Some? && !s.commenting
    requires forall step :: step in between ==> !step.ReplyTap? && !(step.SendAnswer? && step.n == s.sent)
    requires Run(Apply(s, SendTap(false)), between).mounted
    ensures Apply(Run(Apply(s, SendTap(false)), between), SendAnswer(s.sent, Ok(saved))).replyTo.None?
  {
    hide Run, Apply;
    assert Waits(Apply(s, SendTap(false)), s.sent, s.replyTo) by {
      TapWaits(s);
    }
    RunWaits(Apply(s, SendTap(false)), between, s.sent, s.replyTo);
    AnswerEnds(Run(Apply(s, SendTap(false)), between), s.sent, s.replyTo, saved);
  }

  /** A comment of that id is listed that does not go with the deleted one. */
  ghost predicate StillThere(p: Post, deleted: string, id: string) {
    exists c :: c in ListOf(p) && c.id == id && c.id != deleted && c.parent != Some(deleted)
  }

  /**
   Of each step: the reply chosen is the one tapped, none after Cancel; it ends with the answer to the
   comment sent with it, saved or its own gone, and when its comment is deleted; else it stays.
   */
  lemma ReplyIsExact(s: Screen, step: Step)
    ensures Apply(s, step).replyTo ==
            if step.ReplyTap? then Some(Choice(step.comment, s.taps))
            else if step == CancelReply then None
            else if !Possible(s, step) || !s.mounted then s.replyTo
            else if step.SendAnswer? && (step.reply.Ok? || step.reply.error == ParentGone)
                    && s.replyTo == s.flight[step.n].parent then None
            else if step.DeleteAnswer? && step.done && s.post.Some? && s.replyTo.Some?
                    && !StillThere(s.post.value, s.flight[step.n].id, s.replyTo.value.comment.id) then None
            else s.replyTo
  {
    hide Place, Filter, WithComment;
    if step.DeleteAnswer? && Possible(s, step) && s.post.Some? {
      var id := s.flight[step.n].id;
      var left := ListOf(WithoutComment(s.post.value, id));
      forall c ensures c in left <==> c in ListOf(s.post.value) && c.id != id && c.parent != Some(id) {
        WithoutIs(s.post.value, id, c);
      }
      if s.replyTo.Some? && Lists(left, s.replyTo.value.comment.id) {
        var c :| c in left && c.id == s.replyTo.value.comment.id;
        assert c in ListOf(s.post.value);
      }
    }
  }

  // ---- the hook ----

  class PostHook {
    var valid: bool
    var post: Option<Post>
    var status: Status
    var failure: LoadError
    var seqNo: nat
    var mounted: bool
    var commenting: bool
    var replyTo: Option<Choice>
    var taps: nat
    var flight: map<nat, Call>
    var sent: nat

    ghost function Now(): Screen
      reads this
    {
      Screen(valid, post, status, failure, seqNo, mounted, commenting, replyTo, taps, flight, sent)
    }

    constructor (isId: bool)
      ensures Now() == Start(isId)
    {
      valid, post, failure := isId, None, Network;
      status := if isId then Loading else Absent;
      seqNo, mounted, commenting, replyTo, taps := 0, true, false, None, 0;
      flight, sent := map[], 0;
    }

    method Ask(call: Call)
      modifies `flight, `sent
      ensures flight == old(flight)[old(sent) := call] && sent == old(sent) + 1
    {
      flight := flight[sent := call];
      sent := sent + 1;
    }

    /** load up to its await. */
    method LoadPost()
      modifies this
      ensures Now() == Load(old(Now()))
    {
      if !valid {
        post := None;
        status := Absent;
        return;
      }
      seqNo := seqNo + 1;
      if post.None? {
        status := Loading;
      }
      Ask(Read(seqNo));
    }

    method PostLands(n: nat, answer: Result<Post, LoadError>)
      requires n in flight && flight[n].Read?
      modifies this
      ensures Now() == Loaded(old(Now()), n, answer)
    {
      var mine := flight[n].mine;
      flight := flight - {n};
      if !mounted || mine != seqNo {
        return;
      }
      match answer
      case Ok(next) =>
        post := Some(next);
        status := Ready;
      case Err(e) =>
        if e == NotFound {
          post := None;
          status := Absent;
          return;
        }
        if post.Some? {
          return;
        }
        failure := e;
        status := Offline;
    }

    /** comment up to its await. */
    method SendComment(nothingToSend: bool)
      modifies this
      ensures Now() == Comments(old(Now()), nothingToSend)
    {
      if nothingToSend || commenting || post.None? {
        return;
      }
      commenting := true;
      Ask(Send(replyTo));
    }

    /** comment after its await: the patch or the failure, then the finally block. */
    method CommentLands(n: nat, answer: Result<Comment, CommentError>)
      requires n in flight && flight[n].Send?
      modifies this
      ensures Now() == Commented(old(Now()), n, answer)
    {
      var parent := flight[n].parent;
      flight := flight - {n};
      commenting := false;
      match answer
      case Ok(saved) =>
        if mounted && post.Some? {
          var list := ListOf(post.value);
          var placed := PlaceComment(list, saved);
          var count := if post.value.count.Some? then post.value.count.value else |list|;
          post := Some(Post(Some(placed), Some(count + 1)));
        }
        if mounted && replyTo == parent {
          replyTo := None;
        }
      case Err(e) =>
        if e == CommentsOff {
          LoadPost();
        }
        if parent.Some? && e == ParentGone {
          if mounted && replyTo == parent {
            replyTo := None;
          }
          LoadPost();
        }
    }

    /** remove after its await. */
    method DeleteLands(n: nat, done: bool)
      requires n in flight && flight[n].Delete?
      modifies this
      ensures Now() == Deleted(old(Now()), n, done)
    {
      var id := flight[n].id;
      flight := flight - {n};
      if !done || !mounted || post.None? {
        return;
      }
      var list := ListOf(post.value);
      var left := Filter(list, Survives(id));
      if replyTo.Some? && !Lists(left, replyTo.value.comment.id) {
        replyTo := None;
      }
      var count := if post.value.count.Some? then post.value.count.value else |list|;
      post := Some(Post(Some(left), Some(AtLeastZero(count - (|list| - |left|)))));
    }
  }
}
