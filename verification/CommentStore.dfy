/**
 Comments on the server: adding one reads what the viewer sees, then inserts; deleting one reads it,
 then deletes it with its replies; and anyone may do anything in between, the post's owner deleting
 the post with its comments too.
 */
module CommentStore {
  import opened Options
  import opened Sequences
  import opened Threads
  import opened CommentText

  datatype CommentError = NotFound | CommentsOff | PhotoInvalid | Field(problem: FieldProblem)

  /** A comment that passed every check and is about to be inserted under `top`. */
  datatype Draft = Draft(entry: string, top: Option<string>, author: string, body: string, photo: Option<string>)

  /** A delete that was allowed and is about to be done. */
  datatype Leave = Leave(viewer: string, id: string)

  /**
   rows are in time order; used are the ids ever given out; owners are the posts and whose they are;
   files are the photos that posts use.
   */
  datatype Store = Store(rows: seq<Comment>, used: set<string>, owners: map<string, string>, files: set<string>,
                         drafts: map<nat, Draft>, leaves: map<nat, Leave>)

  function Seen(entry: string, shown: set<string>): Comment -> bool {
    (c: Comment) => c.entry == entry && c.id in shown
  }

  /** The comments of an entry a viewer may see, in page order. */
  function VisibleComments(rows: seq<Comment>, entry: string, shown: set<string>): seq<Comment> {
    Thread(Filter(rows, Seen(entry, shown)))
  }

  function FirstWithId(list: seq<Comment>, id: string): Option<Comment> {
    if list == [] then None else if list[0].id == id then Some(list[0]) else FirstWithId(list[1..], id)
  }

  /** The top-level comment a reply to `id` is stored under. */
  function ReplyParent(list: seq<Comment>, id: string): Option<string> {
    match FirstWithId(list, id)
    case None => None
    case Some(c) => Some(if c.parent.Some? then c.parent.value else c.id)
  }

  method FindReplyParent(rows: seq<Comment>, entry: string, shown: set<string>, id: string)
    returns (top: Option<string>)
    ensures top == ReplyParent(VisibleComments(rows, entry, shown), id)
  {
    var list := BuildThread(Filter(rows, Seen(entry, shown)));
    for i := 0 to |list|
      invariant FirstWithId(list, id) == FirstWithId(list[i..], id)
    {
      var c := list[i];
      if c.id == id {
        var found := c.id;
        if c.parent.Some? {
          found := c.parent.value;
        }
        return Some(found);
      }
      assert list[i..][1..] == list[i + 1..];
    }
    return None;
  }

  /** What AddComment is asked. */
  datatype Request = Request(entry: string, visible: bool, commentsOff: bool, canComment: bool,
                             author: string, text: string, photo: Option<string>, parent: Option<string>)

  /** AddComment up to its insert, in its order: the post, comments on, the parent, the text. */
  function CheckComment(rows: seq<Comment>, shown: set<string>, q: Request): Result<Draft, CommentError> {
    if !q.visible then Err(NotFound)
    else if q.commentsOff then Err(CommentsOff)
    else if !q.canComment then Err(NotFound)
    else
      var top := if q.parent.None? then None else ReplyParent(VisibleComments(rows, q.entry, shown), q.parent.value);
      if q.parent.Some? && top.None? then Err(NotFound)
      else
        match Clean(q.text, q.photo.Some?)
        case Err(p) => Err(Field(p))
        case Ok(body) => Ok(Draft(q.entry, top, q.author, body, q.photo))
  }

  predicate HasId(rows: seq<Comment>, id: string) { exists c :: c in rows && c.id == id }

  predicate HasPhoto(rows: seq<Comment>, photo: Option<string>) {
    photo.Some? && exists c :: c in rows && c.photo == photo
  }

  function NewComment(d: Draft, id: string): Comment { Comment(id, d.entry, d.top, d.author, d.body, d.photo) }

  /** The insert: a photo used by a post or by another comment is refused, then a post or parent that went away. */
  function InsertDraft(s: Store, d: Draft, id: string): Result<seq<Comment>, CommentError> {
    if d.photo.Some? && d.photo.value in s.files then Err(PhotoInvalid)
    else if HasPhoto(s.rows, d.photo) then Err(PhotoInvalid)
    else if d.entry !in s.owners || (d.top.Some? && !HasId(s.rows, d.top.value)) then Err(NotFound)
    else Ok(s.rows + [NewComment(d, id)])
  }

  predicate IsOwner(s: Store, entry: string, viewer: string) { entry in s.owners && s.owners[entry] == viewer }

  predicate MayDelete(s: Store, c: Comment, viewer: string) { c.author == viewer || IsOwner(s, c.entry, viewer) }

  function CheckDelete(s: Store, viewer: string, id: string): Result<Leave, CommentError> {
    var c := FirstWithId(s.rows, id);
    if c.Some? && MayDelete(s, c.value, viewer) then Ok(Leave(viewer, id)) else Err(NotFound)
  }

  // ---- runs ----

  datatype Step =
    | Check(call: nat, shown: set<string>, q: Request)
    | Insert(call: nat, id: string)
    | AskDelete(call: nat, viewer: string, id: string)
    | Delete(call: nat)
    | AdminDelete(id: string)
    | Publish(entry: string, owner: string)
    | Unpublish(entry: string)
    | Photos(files: set<string>)

  function Elsewhere(entry: string): Comment -> bool { (c: Comment) => c.entry != entry }

  function Apply(s: Store, step: Step): Store {
    match step
    case Check(call, shown, q) =>
      (match CheckComment(s.rows, shown, q)
       case Err(_) => s
       case Ok(d) => if call in s.drafts then s else s.(drafts := s.drafts[call := d]))
    case Insert(call, id) =>
      if call !in s.drafts || id in s.used then s
      else
        (match InsertDraft(s, s.drafts[call], id)
         case Err(_) => s.(drafts := s.drafts - {call})
         case Ok(rows) => s.(rows := rows, used := s.used + {id}, drafts := s.drafts - {call}))
    case AskDelete(call, viewer, id) =>
      (match CheckDelete(s, viewer, id)
       case Err(_) => s
       case Ok(leave) => if call in s.leaves then s else s.(leaves := s.leaves[call := leave]))
    case Delete(call) =>
      if call !in s.leaves then s
      else s.(rows := Remove(s.rows, s.leaves[call].id), leaves := s.leaves - {call})
    case AdminDelete(id) => s.(rows := Remove(s.rows, id))
    case Publish(entry, owner) => if entry in s.owners then s else s.(owners := s.owners[entry := owner])
    case Unpublish(entry) => s.(rows := Filter(s.rows, Elsewhere(entry)), owners := s.owners - {entry})
    case Photos(files) => s.(files := files)
  }

  function Run(s: Store, steps: seq<Step>): Store {
    if steps == [] then s else Apply(Run(s, steps[..|steps| - 1]), steps[|steps| - 1])
  }

  const EMPTY := Store([], {}, map[], {}, map[], map[])

  // ---- what every store keeps ----

  ghost predicate HasTopOn(rows: seq<Comment>, id: string, entry: string) {
    exists t :: t in rows && IsTop(t) && t.id == id && t.entry == entry
  }

  /** Every stored reply answers a stored top-level comment of the same post. */
  ghost predicate RepliesHaveTops(rows: seq<Comment>) {
    forall c :: c in rows && c.parent.Some? ==> HasTopOn(rows, c.parent.value, c.entry)
  }

  /** No two stored comments carry one photo. */
  ghost predicate PhotosDiffer(rows: seq<Comment>) {
    forall c, d :: c in rows && d in rows && c.photo.Some? && c.photo == d.photo ==> c == d
  }

  /** A draft's parent, while it is stored, is a top-level comment of the draft's post. */
  ghost predicate DraftFits(s: Store, d: Draft) {
    d.top.Some? ==>
      d.top.value in s.used
      && forall c :: c in s.rows && c.id == d.top.value ==> IsTop(c) && c.entry == d.entry
  }

  /** A delete about to be done is of a comment its viewer may delete, while it is stored. */
  ghost predicate LeaveFits(s: Store, l: Leave) {
    l.id in s.used && forall c :: c in s.rows && c.id == l.id ==> MayDelete(s, c, l.viewer)
  }

  ghost predicate Inv(s: Store) {
    && DistinctIds(s.rows)
    && (forall c :: c in s.rows ==> c.id in s.used && c.entry in s.owners)
    && RepliesHaveTops(s.rows)
    && PhotosDiffer(s.rows)
    && (forall k :: k in s.drafts ==> DraftFits(s, s.drafts[k]))
    && (forall k :: k in s.leaves ==> LeaveFits(s, s.leaves[k]))
  }

  lemma {:induction false} FirstWithIdIs(list: seq<Comment>, id: string)
    ensures var r := FirstWithId(list, id); r.Some? ==> r.value in list && r.value.id == id
  {
    if list == [] || list[0].id == id {
    } else {
      FirstWithIdIs(list[1..], id);
    }
  }

  lemma {:induction false} FirstOfDistinct(list: seq<Comment>, c: Comment)
    requires c in list && forall x, y :: x in list && y in list && x.id == y.id ==> x == y
    ensures FirstWithId(list, c.id) == Some(c)
  {
    if list[0].id == c.id {
    } else {
      assert forall x :: x in list[1..] ==> x in list;
      FirstOfDistinct(list[1..], c);
    }
  }

  lemma InSeen(rows: seq<Comment>, entry: string, shown: set<string>)
    ensures forall c :: c in Filter(rows, Seen(entry, shown)) <==> c in rows && c.entry == entry && c.id in shown
  {
  }

  lemma ShownIsStored(rows: seq<Comment>, entry: string, shown: set<string>, c: Comment)
    requires c in VisibleComments(rows, entry, shown)
    ensures c in rows && c.entry == entry && c.id in shown
  {
    InThreadList(Filter(rows, Seen(entry, shown)), c);
    InSeen(rows, entry, shown);
  }

  /**
   A reply goes under the comment it answers, or under that one's own when it is a reply; one not shown
   is not found.
   */
  lemma ReplyParentIs(rows: seq<Comment>, entry: string, shown: set<string>, id: string)
    requires DistinctIds(rows)
    ensures var list := VisibleComments(rows, entry, shown);
            && (ReplyParent(list, id).None? <==> forall c :: c in list ==> c.id != id)
            && forall c :: c in list && c.id == id ==> ReplyParent(list, id) == if IsTop(c) then Some(id) else c.parent
  {
    hide Thread, Filter, Seen;
    var list := VisibleComments(rows, entry, shown);
    FirstWithIdIs(list, id);
    forall x, y | x in list && y in list && x.id == y.id ensures x == y {
      ShownIsStored(rows, entry, shown, x);
      ShownIsStored(rows, entry, shown, y);
      SameIdSameComment(rows, x, y);
    }
    forall c | c in list && c.id == id ensures ReplyParent(list, id) == if IsTop(c) then Some(id) else c.parent {
      FirstOfDistinct(list, c);
    }
  }

  /** The parent chosen for a reply is a stored top-level comment of the same post. */
  lemma ReplyParentIsTop(rows: seq<Comment>, entry: string, shown: set<string>, id: string)
    ensures var p := ReplyParent(VisibleComments(rows, entry, shown), id); p.Some? ==> HasTopOn(rows, p.value, entry)
  {
    hide Filter, Thread;
    var seen := Filter(rows, Seen(entry, shown));
    var list := VisibleComments(rows, entry, shown);
    FirstWithIdIs(list, id);
    var r := FirstWithId(list, id);
    if r.Some? {
      InThreadList(seen, r.value);
      assert forall t :: t in seen ==> t in rows && t.entry == entry by {
        InSeen(rows, entry, shown);
      }
    }
  }

  lemma SameRowsSameLeaves(s: Store, t: Store)
    requires s.rows == t.rows && s.used == t.used && s.owners == t.owners
    ensures forall l :: LeaveFits(t, l) == LeaveFits(s, l)
  {
  }

  lemma CheckKeeps(s: Store, call: nat, shown: set<string>, q: Request)
    requires Inv(s)
    ensures Inv(Apply(s, Check(call, shown, q)))
  {
    hide VisibleComments, ReplyParent, Clean, RepliesHaveTops, PhotosDiffer, LeaveFits;
    assert forall l :: LeaveFits(Apply(s, Check(call, shown, q)), l) == LeaveFits(s, l) by {
      SameRowsSameLeaves(s, Apply(s, Check(call, shown, q)));
    }
    if q.parent.Some? {
      ReplyParentIsTop(s.rows, q.entry, shown, q.parent.value);
      var p := ReplyParent(VisibleComments(s.rows, q.entry, shown), q.parent.value);
      if p.Some? {
        var t :| t in s.rows && IsTop(t) && t.id == p.value && t.entry == q.entry;
        forall c | c in s.rows && c.id == p.value ensures c == t {
          SameIdSameComment(s.rows, c, t);
        }
      }
    }
  }

  lemma TopsWithNew(rows: seq<Comment>, c: Comment)
    requires RepliesHaveTops(rows) && (c.parent.Some? ==> HasTopOn(rows, c.parent.value, c.entry))
    ensures RepliesHaveTops(rows + [c])
  {
    forall r | r in rows + [c] && r.parent.Some? ensures HasTopOn(rows + [c], r.parent.value, r.entry) {
      assert HasTopOn(rows, r.parent.value, r.entry);
    }
  }

  lemma PhotosWithNew(rows: seq<Comment>, c: Comment)
    requires PhotosDiffer(rows) && !HasPhoto(rows, c.photo)
    ensures PhotosDiffer(rows + [c])
  {
  }

  lemma InsertKeeps(s: Store, call: nat, id: string)
    requires Inv(s)
    ensures Inv(Apply(s, Insert(call, id)))
  {
    hide RepliesHaveTops, PhotosDiffer, HasPhoto;
    var t := Apply(s, Insert(call, id));
    if t.rows != s.rows {
      var d := s.drafts[call];
      assert t.rows == s.rows + [NewComment(d, id)];
      assert d.top.Some? ==> HasId(s.rows, d.top.value);
      TopsWithNew(s.rows, NewComment(d, id));
      PhotosWithNew(s.rows, NewComment(d, id));
    }
  }

  lemma SameRowsSameDrafts(s: Store, t: Store)
    requires s.rows == t.rows && s.used == t.used
    ensures forall d :: DraftFits(t, d) == DraftFits(s, d)
  {
  }

  lemma AskDeleteKeeps(s: Store, call: nat, viewer: string, id: string)
    requires Inv(s)
    ensures Inv(Apply(s, AskDelete(call, viewer, id)))
  {
    hide RepliesHaveTops, PhotosDiffer, DraftFits, FirstWithId;
    FirstWithIdIs(s.rows, id);
    var c := FirstWithId(s.rows, id);
    if c.Some? {
      forall r | r in s.rows && r.id == id ensures r == c.value {
        SameIdSameComment(s.rows, r, c.value);
      }
    }
    var t := Apply(s, AskDelete(call, viewer, id));
    assert forall d :: DraftFits(t, d) == DraftFits(s, d) by {
      SameRowsSameDrafts(s, t);
    }
  }

  lemma InFilter(rows: seq<Comment>, p: Comment -> bool)
    ensures forall c :: c in Filter(rows, p) <==> c in rows && p(c)
  {
  }

  predicate Answers(c: Comment, top: Comment) { c.parent == Some(top.id) && c.entry == top.entry }

  /** Rows that are filtered keep what every store keeps when no reply outlives its top-level comment. */
  lemma FilteredKeeps(s: Store, t: Store, p: Comment -> bool)
    requires Inv(s) && t.rows == Filter(s.rows, p) && t.used == s.used && t.drafts == s.drafts
    requires forall k :: k in t.leaves ==> k in s.leaves && t.leaves[k] == s.leaves[k]
    requires forall c :: c in t.rows ==> c.entry in t.owners && t.owners[c.entry] == s.owners[c.entry]
    requires forall c, top :: c in s.rows && top in s.rows && p(c) && Answers(c, top) ==> p(top)
    ensures Inv(t)
  {
    hide Filter, DistinctIds;
    FilterKeepsDistinct(s.rows, p);
    assert forall c :: c in t.rows <==> c in s.rows && p(c) by {
      InFilter(s.rows, p);
    }
    forall c | c in t.rows && c.parent.Some? ensures HasTopOn(t.rows, c.parent.value, c.entry) {
      var top :| top in s.rows && IsTop(top) && top.id == c.parent.value && top.entry == c.entry;
      assert top in t.rows;
    }
  }

  lemma OwnersStay(s: Store)
    requires Inv(s)
    ensures forall c :: c in s.rows ==> c.entry in s.owners
  {
  }

  /**
   A reply that survives a delete answers a top-level comment that survives it: a top-level comment
   answers nothing.
   */
  lemma RepliesSurvive(s: Store, id: string)
    requires Inv(s)
    ensures forall c, top :: c in s.rows && top in s.rows && Survives(id)(c) && Answers(c, top) ==> Survives(id)(top)
  {
    forall c, top | c in s.rows && top in s.rows && Survives(id)(c) && Answers(c, top) ensures Survives(id)(top) {
      var t :| t in s.rows && IsTop(t) && t.id == c.parent.value && t.entry == c.entry;
      SameIdSameComment(s.rows, t, top);
    }
  }

  lemma InRemove(rows: seq<Comment>, id: string)
    ensures forall c :: c in Remove(rows, id) <==> c in rows && c.id != id && c.parent != Some(id)
  {
  }

  lemma DeleteKeeps(s: Store, call: nat)
    requires Inv(s)
    ensures Inv(Apply(s, Delete(call)))
  {
    hide Filter, Inv;
    if call in s.leaves {
      var id := s.leaves[call].id;
      RepliesSurvive(s, id);
      OwnersStay(s);
      InRemove(s.rows, id);
      FilteredKeeps(s, Apply(s, Delete(call)), Survives(id));
    }
  }

  lemma AdminDeleteKeeps(s: Store, id: string)
    requires Inv(s)
    ensures Inv(Apply(s, AdminDelete(id)))
  {
    hide Filter, Inv;
    RepliesSurvive(s, id);
    OwnersStay(s);
    InRemove(s.rows, id);
    FilteredKeeps(s, Apply(s, AdminDelete(id)), Survives(id));
  }

  lemma UnpublishKeeps(s: Store, entry: string)
    requires Inv(s)
    ensures Inv(Apply(s, Unpublish(entry)))
  {
    hide Filter, Inv;
    OwnersStay(s);
    InFilter(s.rows, Elsewhere(entry));
    FilteredKeeps(s, Apply(s, Unpublish(entry)), Elsewhere(entry));
  }

  lemma OthersKeep(s: Store, step: Step)
    requires Inv(s) && (step.Publish? || step.Photos?)
    ensures Inv(Apply(s, step))
  {
    hide RepliesHaveTops, PhotosDiffer, DistinctIds;
  }

  lemma EmptyIsSound()
    ensures Inv(EMPTY)
  {
  }

  /** Whatever adds and deletes interleave, no reply is ever left without its top-level comment. */
  lemma {:induction false} RepliesAlwaysHaveTops(steps: seq<Step>)
    ensures Inv(Run(EMPTY, steps)) && RepliesHaveTops(Run(EMPTY, steps).rows)
  {
    hide Apply, RepliesHaveTops;
    if steps == [] {
      EmptyIsSound();
    } else {
      var before, last := Run(EMPTY, steps[..|steps| - 1]), steps[|steps| - 1];
      RepliesAlwaysHaveTops(steps[..|steps| - 1]);
      match last
      case Check(call, shown, q) => CheckKeeps(before, call, shown, q);
      case Insert(call, id) => InsertKeeps(before, call, id);
      case AskDelete(call, viewer, id) => AskDeleteKeeps(before, call, viewer, id);
      case Delete(call) => DeleteKeeps(before, call);
      case AdminDelete(id) => AdminDeleteKeeps(before, id);
      case Unpublish(entry) => UnpublishKeeps(before, entry);
      case _ => OthersKeep(before, last);
    }
  }

  lemma ReplyHasTop(rows: seq<Comment>, c: Comment)
    requires RepliesHaveTops(rows) && c in rows && c.parent.Some?
    ensures HasTopOn(rows, c.parent.value, c.entry)
  {
  }

  /**
   A comment goes only with its post, by an admin, or in a delete its viewer may do: of itself, or of the
   comment it answers.
   */
  lemma OnlyAllowedDeletes(steps: seq<Step>, last: Step, c: Comment)
    requires c in Run(EMPTY, steps).rows && c !in Apply(Run(EMPTY, steps), last).rows
    ensures var s := Run(EMPTY, steps);
            || last == Unpublish(c.entry)
            || (last.AdminDelete? && (c.id == last.id || c.parent == Some(last.id)))
            || (last.Delete? && last.call in s.leaves
                && exists d :: d in s.rows && d.id == s.leaves[last.call].id
                               && MayDelete(s, d, s.leaves[last.call].viewer)
                               && (d == c || c.parent == Some(d.id)))
  {
    hide Run, Filter, RepliesHaveTops;
    RepliesAlwaysHaveTops(steps);
    var s := Run(EMPTY, steps);
    if last.Delete? && last.call in s.leaves {
      var id := s.leaves[last.call].id;
      InRemove(s.rows, id);
      assert LeaveFits(s, s.leaves[last.call]);
      if c.id != id {
        assert HasTopOn(s.rows, id, c.entry) by {
          ReplyHasTop(s.rows, c);
        }
        var d :| d in s.rows && IsTop(d) && d.id == id && d.entry == c.entry;
        assert MayDelete(s, d, s.leaves[last.call].viewer);
      }
    } else if last.AdminDelete? {
      InRemove(s.rows, last.id);
    } else if last.Unpublish? {
      InFilter(s.rows, Elsewhere(last.entry));
    }
  }

  function OnEntry(entry: string): Comment -> bool { (c: Comment) => c.entry == entry }

  lemma EntryIsOneLevel(rows: seq<Comment>, entry: string)
    requires RepliesHaveTops(rows)
    ensures OneLevel(Filter(rows, OnEntry(entry)))
  {
    var mine := Filter(rows, OnEntry(entry));
    forall c | c in mine && !IsTop(c) ensures HasTop(mine, c.parent.value) {
      var t :| t in rows && IsTop(t) && t.id == c.parent.value && t.entry == c.entry;
      assert t in mine;
    }
  }

  /** A viewer with no one blocked is shown every comment of the post, each once. */
  lemma UnblockedViewerSeesAll(steps: seq<Step>, entry: string, shown: set<string>)
    requires forall c :: c in Run(EMPTY, steps).rows ==> c.id in shown
    ensures var rows := Run(EMPTY, steps).rows;
            multiset(VisibleComments(rows, entry, shown)) == multiset(Filter(rows, OnEntry(entry)))
  {
    hide Filter, Run, Thread;
    RepliesAlwaysHaveTops(steps);
    var rows := Run(EMPTY, steps).rows;
    FilterAgree(rows, Seen(entry, shown), OnEntry(entry));
    FilterKeepsDistinct(rows, OnEntry(entry));
    EntryIsOneLevel(rows, entry);
    OneLevelDropsNothing(Filter(rows, OnEntry(entry)));
  }

  // ---- what is answered and stored, from the request ----

  /** The viewer is shown the comment on the post: it is there, and so is the one it answers. */
  ghost predicate Shown(rows: seq<Comment>, entry: string, shown: set<string>, c: Comment) {
    && c in rows && c.entry == entry && c.id in shown
    && (c.parent.Some? ==>
          exists t :: t in rows && t.entry == entry && t.id in shown && t.parent.None? && t.id == c.parent.value)
  }

  lemma ShownExactly(rows: seq<Comment>, entry: string, shown: set<string>, c: Comment)
    ensures c in VisibleComments(rows, entry, shown) <==> Shown(rows, entry, shown, c)
  {
    hide Filter, Thread;
    var seen := Filter(rows, Seen(entry, shown));
    InThreadList(seen, c);
    InSeen(rows, entry, shown);
    if c in seen && c.parent.Some? && HasTop(seen, c.parent.value) {
      var t :| t in seen && IsTop(t) && t.id == c.parent.value;
      assert t in rows;
    }
    if Shown(rows, entry, shown, c) && c.parent.Some? {
      var t :| t in rows && t.entry == entry && t.id in shown && t.parent.None? && t.id == c.parent.value;
      assert t in seen;
    }
  }

  /** The comment answered is one the viewer is shown. */
  ghost predicate IsAnswered(rows: seq<Comment>, shown: set<string>, q: Request, a: Comment) {
    q.parent == Some(a.id) && Shown(rows, q.entry, shown, a)
  }

  ghost predicate HasAnswered(rows: seq<Comment>, shown: set<string>, q: Request) {
    q.parent.None? || exists a :: IsAnswered(rows, shown, q, a)
  }

  lemma {:induction false} FirstWithIdExists(list: seq<Comment>, id: string)
    ensures FirstWithId(list, id).None? <==> forall c :: c in list ==> c.id != id
  {
    if list == [] {
    } else {
      FirstWithIdExists(list[1..], id);
    }
  }

  /** The top-level comment a request's draft is under. */
  ghost predicate IsTopFor(rows: seq<Comment>, shown: set<string>, q: Request, top: Option<string>) {
    if q.parent.None? then top.None?
    else exists a :: IsAnswered(rows, shown, q, a) && top == if a.parent.Some? then a.parent else Some(a.id)
  }

  lemma ParentIsFound(rows: seq<Comment>, shown: set<string>, q: Request)
    requires q.parent.Some?
    ensures var top := ReplyParent(VisibleComments(rows, q.entry, shown), q.parent.value);
            (top.Some? <==> HasAnswered(rows, shown, q)) && (top.Some? ==> IsTopFor(rows, shown, q, top))
  {
    hide VisibleComments, Shown;
    var list, id := VisibleComments(rows, q.entry, shown), q.parent.value;
    FirstWithIdExists(list, id);
    FirstWithIdIs(list, id);
    forall c ensures c in list <==> Shown(rows, q.entry, shown, c) {
      ShownExactly(rows, q.entry, shown, c);
    }
    var first := FirstWithId(list, id);
    if first.Some? {
      assert IsAnswered(rows, shown, q, first.value);
    }
  }

  lemma NoParent(rows: seq<Comment>, shown: set<string>, q: Request)
    requires q.parent.None?
    ensures IsTopFor(rows, shown, q, None)
  {
  }

  /** Each answer of the checks, exactly when it comes, and what a request that passes goes on with. */
  lemma CheckedExactly(rows: seq<Comment>, shown: set<string>, q: Request)
    ensures var r := CheckComment(rows, shown, q);
            && (r == Err(CommentsOff) <==> q.visible && q.commentsOff)
            && (r == Err(NotFound) <==>
                !q.visible || (!q.commentsOff && (!q.canComment || !HasAnswered(rows, shown, q))))
            && (forall p :: r == Err(Field(p)) <==>
                  && q.visible && !q.commentsOff && q.canComment && HasAnswered(rows, shown, q)
                  && Clean(q.text, q.photo.Some?) == Err(p))
            && r != Err(PhotoInvalid)
            && (r.Ok? ==> && r.value.entry == q.entry && r.value.author == q.author && r.value.photo == q.photo
                          && Clean(q.text, q.photo.Some?) == Ok(r.value.body)
                          && IsTopFor(rows, shown, q, r.value.top))
  {
    hide VisibleComments, ReplyParent, Clean, IsAnswered, IsTopFor;
    if q.parent.Some? {
      ParentIsFound(rows, shown, q);
    } else {
      NoParent(rows, shown, q);
    }
  }

  /** A photo the insert refuses: one a post uses, or another comment. */
  ghost predicate PhotoIsUsed(s: Store, photo: Option<string>) {
    photo.Some? && (photo.value in s.files || exists c :: c in s.rows && c.photo == photo)
  }

  /** The post, or the comment it is under, went away. */
  ghost predicate WentAway(s: Store, d: Draft) {
    d.entry !in s.owners || (d.top.Some? && forall c :: c in s.rows ==> c.id != d.top.value)
  }

  ghost predicate IsOf(c: Comment, id: string, d: Draft) {
    c.id == id && c.entry == d.entry && c.author == d.author && c.body == d.body && c.photo == d.photo
    && c.parent == d.top
  }

  /** Each answer of the insert, exactly when it comes, and the one row it stores. */
  lemma InsertedExactly(s: Store, d: Draft, id: string)
    ensures var r := InsertDraft(s, d, id);
            && (r == Err(PhotoInvalid) <==> PhotoIsUsed(s, d.photo))
            && (r == Err(NotFound) <==> !PhotoIsUsed(s, d.photo) && WentAway(s, d))
            && (r.Ok? <==> !PhotoIsUsed(s, d.photo) && !WentAway(s, d))
            && (r.Ok? ==> exists c :: IsOf(c, id, d) && r.value == s.rows + [c])
  {
    var r := InsertDraft(s, d, id);
    if r.Ok? {
      assert IsOf(r.value[|s.rows|], id, d) && r.value == s.rows + [r.value[|s.rows|]];
    }
  }

  lemma StepKeepsDraft(s: Store, step: Step, call: nat)
    requires call in s.drafts && !(step.Insert? && step.call == call)
    ensures call in Apply(s, step).drafts && Apply(s, step).drafts[call] == s.drafts[call]
  {
    hide Filter, CheckComment, InsertDraft, CheckDelete;
  }

  lemma {:induction false} DraftStays(s: Store, steps: seq<Step>, call: nat)
    requires call in s.drafts && forall step :: step in steps ==> !(step.Insert? && step.call == call)
    ensures call in Run(s, steps).drafts && Run(s, steps).drafts[call] == s.drafts[call]
  {
    hide Apply;
    if steps == [] {
    } else {
      var rest, last := steps[..|steps| - 1], steps[|steps| - 1];
      assert last in steps;
      DraftStays(s, rest, call);
      StepKeepsDraft(Run(s, rest), last, call);
    }
  }

  lemma PassedIs(s: Store, call: nat, shown: set<string>, q: Request)
    requires call !in s.drafts && call in Apply(s, Check(call, shown, q)).drafts
    ensures CheckComment(s.rows, shown, q) == Ok(Apply(s, Check(call, shown, q)).drafts[call])
  {
    hide CheckComment;
  }

  lemma StoredIs(s: Store, call: nat, id: string)
    requires call in s.drafts && Apply(s, Insert(call, id)).rows != s.rows
    ensures InsertDraft(s, s.drafts[call], id) == Ok(Apply(s, Insert(call, id)).rows)
  {
    hide InsertDraft;
  }

  /**
   Whatever comes between a request's checks and its insert, the comment stored is the request's: on its
   post, by its writer, saying its cleaned text, with its photo, under the comment it answers or under
   that one's own. It goes at the end, and nothing else in the table changes.
   */
  lemma StoredAsAsked(s: Store, call: nat, shown: set<string>, q: Request, between: seq<Step>, id: string)
    returns (c: Comment)
    requires call !in s.drafts && call in Apply(s, Check(call, shown, q)).drafts
    requires forall step :: step in between ==> !(step.Insert? && step.call == call)
    requires var t := Run(Apply(s, Check(call, shown, q)), between); Apply(t, Insert(call, id)).rows != t.rows
    ensures var t := Run(Apply(s, Check(call, shown, q)), between);
            Apply(t, Insert(call, id)).rows == t.rows + [c]
    ensures c.id == id && c.entry == q.entry && c.author == q.author && c.photo == q.photo
    ensures Clean(q.text, q.photo.Some?) == Ok(c.body) && IsTopFor(s.rows, shown, q, c.parent)
  {
    hide Apply, Run, CheckComment, InsertDraft, IsTopFor, Clean;
    var checked := Apply(s, Check(call, shown, q));
    var t := Run(checked, between);
    PassedIs(s, call, shown, q);
    CheckedExactly(s.rows, shown, q);
    DraftStays(checked, between, call);
    StoredIs(t, call, id);
    InsertedExactly(t, checked.drafts[call], id);
    c :| IsOf(c, id, checked.drafts[call]) && Apply(t, Insert(call, id)).rows == t.rows + [c];
  }

  /** A delete goes on exactly when the comment is there and its writer or the post's owner asks. */
  lemma DeleteAllowedExactly(s: Store, viewer: string, id: string)
    requires DistinctIds(s.rows)
    ensures CheckDelete(s, viewer, id).Ok? <==>
            exists c :: && c in s.rows && c.id == id
                        && (c.author == viewer || (c.entry in s.owners && s.owners[c.entry] == viewer))
  {
    FirstWithIdExists(s.rows, id);
    FirstWithIdIs(s.rows, id);
    forall c | c in s.rows && c.id == id ensures FirstWithId(s.rows, id) == Some(c) {
      SameIdSameComment(s.rows, c, FirstWithId(s.rows, id).value);
    }
  }

  lemma StepKeepsLeave(s: Store, step: Step, call: nat)
    requires call in s.leaves && !(step.Delete? && step.call == call)
    ensures call in Apply(s, step).leaves && Apply(s, step).leaves[call] == s.leaves[call]
  {
    hide Filter, CheckComment, InsertDraft, CheckDelete;
  }

  lemma {:induction false} LeaveStays(s: Store, steps: seq<Step>, call: nat)
    requires call in s.leaves && forall step :: step in steps ==> !(step.Delete? && step.call == call)
    ensures call in Run(s, steps).leaves && Run(s, steps).leaves[call] == s.leaves[call]
  {
    hide Apply;
    if steps == [] {
    } else {
      var rest, last := steps[..|steps| - 1], steps[|steps| - 1];
      assert last in steps;
      LeaveStays(s, rest, call);
      StepKeepsLeave(Run(s, rest), last, call);
    }
  }

  lemma AskedIs(s: Store, call: nat, viewer: string, id: string)
    requires call !in s.leaves && CheckDelete(s, viewer, id).Ok?
    ensures var t := Apply(s, AskDelete(call, viewer, id)); call in t.leaves && t.leaves[call].id == id
  {
    hide FirstWithId;
  }

  /**
   A delete that its writer or the post's owner asks for is done, whatever comes between: neither the
   comment nor a reply to it is left, and every other comment stays.
   */
  lemma AllowedDeleteIsDone(s: Store, call: nat, viewer: string, id: string, c: Comment, between: seq<Step>)
    requires DistinctIds(s.rows) && call !in s.leaves && c in s.rows && c.id == id
    requires c.author == viewer || (c.entry in s.owners && s.owners[c.entry] == viewer)
    requires forall step :: step in between ==> !(step.Delete? && step.call == call)
    ensures var t := Run(Apply(s, AskDelete(call, viewer, id)), between);
            forall x :: x in Apply(t, Delete(call)).rows <==> x in t.rows && x.id != id && x.parent != Some(id)
  {
    hide Run, CheckDelete, Filter;
    DeleteAllowedExactly(s, viewer, id);
    AskedIs(s, call, viewer, id);
    var asked := Apply(s, AskDelete(call, viewer, id));
    LeaveStays(asked, between, call);
    InRemove(Run(asked, between).rows, id);
  }

  // ---- the service over a table it updates in place ----

  class Comments {
    var rows: seq<Comment>
    var used: set<string>
    var owners: map<string, string>
    var files: set<string>
    var drafts: map<nat, Draft>
    var leaves: map<nat, Leave>

    ghost function Now(): Store
      reads this
    {
      Store(rows, used, owners, files, drafts, leaves)
    }

    constructor ()
      ensures Now() == EMPTY
    {
      rows, used, owners, files, drafts, leaves := [], {}, map[], {}, map[], map[];
    }

    /** AddComment up to its insert. */
    method BeginAdd(call: nat, shown: set<string>, q: Request) returns (error: Option<CommentError>)
      requires call !in drafts
      modifies `drafts
      ensures Now() == Apply(old(Now()), Check(call, shown, q))
      ensures error == (match CheckComment(old(rows), shown, q) case Err(e) => Some(e) case Ok(_) => None)
    {
      if !q.visible {
        return Some(NotFound);
      }
      if q.commentsOff {
        return Some(CommentsOff);
      }
      if !q.canComment {
        return Some(NotFound);
      }
      var top: Option<string> := None;
      if q.parent.Some? {
        top := FindReplyParent(rows, q.entry, shown, q.parent.value);
        if top.None? {
          return Some(NotFound);
        }
      }
      var clean := CleanComment(q.text, q.photo.Some?);
      if clean.Err? {
        return Some(Field(clean.error));
      }
      drafts := drafts[call := Draft(q.entry, top, q.author, clean.value, q.photo)];
      return None;
    }

    /** The insert, under an id never given out before: the photo's file, its unique index, then the keys. */
    method FinishAdd(call: nat, id: string) returns (error: Option<CommentError>)
      requires call in drafts && id !in used
      modifies this
      ensures Now() == Apply(old(Now()), Insert(call, id))
      ensures error == (match InsertDraft(old(Now()), old(drafts[call]), id) case Err(e) => Some(e) case Ok(_) => None)
      ensures error.None? ==> exists c :: IsOf(c, id, old(drafts[call])) && rows == old(rows) + [c]
    {
      var d := drafts[call];
      drafts := drafts - {call};
      if d.photo.Some? && d.photo.value in files {
        return Some(PhotoInvalid);
      }
      if d.photo.Some? && exists c :: c in rows && c.photo == d.photo {
        return Some(PhotoInvalid);
      }
      if d.entry !in owners || (d.top.Some? && !HasId(rows, d.top.value)) {
        return Some(NotFound);
      }
      rows := rows + [NewComment(d, id)];
      used := used + {id};
      return None;
    }

    /** DeleteComment up to its delete: by the comment's writer or the post's owner. */
    method BeginDelete(call: nat, viewer: string, id: string) returns (error: Option<CommentError>)
      requires call !in leaves
      modifies `leaves
      ensures Now() == Apply(old(Now()), AskDelete(call, viewer, id))
      ensures error == if CheckDelete(old(Now()), viewer, id).Ok? then None else Some(NotFound)
    {
      var c := FirstWithId(rows, id);
      if c.None? {
        return Some(NotFound);
      }
      var byOwner := c.value.entry in owners && owners[c.value.entry] == viewer;
      if !(c.value.author == viewer || byOwner) {
        return Some(NotFound);
      }
      leaves := leaves[call := Leave(viewer, id)];
      return None;
    }

    /** The delete: the comment and its replies go; one that went meanwhile is not found. */
    method FinishDelete(call: nat) returns (error: Option<CommentError>)
      requires call in leaves
      modifies `rows, `leaves
      ensures Now() == Apply(old(Now()), Delete(call))
      ensures error == if HasId(old(rows), old(leaves[call]).id) then None else Some(NotFound)
    {
      var id := leaves[call].id;
      var found := HasId(rows, id);
      rows := Filter(rows, Survives(id));
      leaves := leaves - {call};
      return if found then None else Some(NotFound);
    }
  }
}
