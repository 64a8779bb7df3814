/**
 A post's comments as one list: each top-level comment followed by its replies. The server builds
 the list from rows in time order; the phone patches it in place of asking again.
 */
module Threads {
  import opened Options
  import opened Sequences

  /** parent is the top-level comment of a reply, None for a top-level comment; photo is its file, if it has one. */
  datatype Comment = Comment(id: string, entry: string, parent: Option<string>, author: string, body: string,
                             photo: Option<string>)

  predicate IsTop(c: Comment) { c.parent.None? }

  function RepliesTo(id: string): Comment -> bool { (c: Comment) => c.parent == Some(id) }

  /** The comment `id` and its replies. */
  function InThread(id: string): Comment -> bool { (c: Comment) => c.id == id || c.parent == Some(id) }

  function Survives(id: string): Comment -> bool { (c: Comment) => c.id != id && c.parent != Some(id) }

  function Blocks(tops: seq<Comment>, rows: seq<Comment>): seq<Comment> {
    if tops == [] then []
    else [tops[0]] + Filter(rows, RepliesTo(tops[0].id)) + Blocks(tops[1..], rows)
  }

  function Thread(rows: seq<Comment>): seq<Comment> {
    Blocks(Filter(rows, IsTop), rows)
  }

  // ---- building it ----

  function RepliesIn(replies: map<string, seq<Comment>>, id: string): seq<Comment> {
    if id in replies then replies[id] else []
  }

  /** The first pass: which ids are top-level, and each comment's replies in order. */
  method Group(rows: seq<Comment>) returns (tops: map<string, bool>, replies: map<string, seq<Comment>>)
    ensures forall c :: c in rows && IsTop(c) ==> c.id in tops
    ensures forall id :: RepliesIn(replies, id) == Filter(rows, RepliesTo(id))
  {
    hide Filter;
    tops, replies := map[], map[];
    forall id ensures RepliesIn(replies, id) == Filter(rows[..0], RepliesTo(id)) {
      FilterAll(rows[..0], RepliesTo(id));
    }
    for i := 0 to |rows|
      invariant forall c :: c in rows[..i] && IsTop(c) ==> c.id in tops
      invariant forall id :: RepliesIn(replies, id) == Filter(rows[..i], RepliesTo(id))
    {
      var c := rows[i];
      ghost var before := replies;
      assert rows[..i + 1] == rows[..i] + [c];
      if c.parent.None? {
        tops := tops[c.id := true];
      } else {
        replies := replies[c.parent.value := RepliesIn(replies, c.parent.value) + [c]];
      }
      forall id ensures RepliesIn(replies, id) == Filter(rows[..i + 1], RepliesTo(id)) {
        FilterSnoc(rows[..i], c, RepliesTo(id));
        assert RepliesIn(before, id) == Filter(rows[..i], RepliesTo(id));
      }
    }
    assert rows[..|rows|] == rows;
  }

  lemma BlocksCons(t: Comment, tops: seq<Comment>, rows: seq<Comment>)
    ensures Blocks([t] + tops, rows) == [t] + Filter(rows, RepliesTo(t.id)) + Blocks(tops, rows)
  {
    assert ([t] + tops)[1..] == tops;
  }

  lemma NoBlocks(rows: seq<Comment>)
    ensures Blocks([], rows) == []
  {
  }

  lemma {:induction false} BlocksConcat(a: seq<Comment>, b: seq<Comment>, rows: seq<Comment>)
    ensures Blocks(a + b, rows) == Blocks(a, rows) + Blocks(b, rows)
  {
    hide Filter, Blocks;
    if a == [] {
      assert a + b == b;
      NoBlocks(rows);
    } else {
      var rest := a[1..];
      assert a == [a[0]] + rest && a + b == [a[0]] + (rest + b);
      BlocksConcat(rest, b, rows);
      BlocksCons(a[0], rest, rows);
      BlocksCons(a[0], rest + b, rows);
    }
  }

  lemma BlocksSnoc(tops: seq<Comment>, t: Comment, rows: seq<Comment>)
    ensures Blocks(tops + [t], rows) == Blocks(tops, rows) + [t] + Filter(rows, RepliesTo(t.id))
  {
    BlocksConcat(tops, [t], rows);
    assert Blocks([t], rows) == [t] + Filter(rows, RepliesTo(t.id));
  }

  method BuildThread(rows: seq<Comment>) returns (out: seq<Comment>)
    ensures out == Thread(rows)
  {
    hide Filter;
    var tops, replies := Group(rows);
    out := [];
    FilterAll(rows[..0], IsTop);
    for i := 0 to |rows|
      invariant out == Blocks(Filter(rows[..i], IsTop), rows)
    {
      var c := rows[i];
      assert rows[..i + 1] == rows[..i] + [c];
      FilterSnoc(rows[..i], c, IsTop);
      if !(c.parent.Some? || c.id !in tops) {
        out := out + [c];
        out := out + RepliesIn(replies, c.id);
        BlocksSnoc(Filter(rows[..i], IsTop), c, rows);
      } else {
        assert c in rows;
      }
    }
    assert rows[..|rows|] == rows;
  }

  // ---- blocks ----

  lemma {:induction false} BlocksAgree(tops: seq<Comment>, rows: seq<Comment>, rows': seq<Comment>)
    requires forall t :: t in tops ==> Filter(rows, RepliesTo(t.id)) == Filter(rows', RepliesTo(t.id))
    ensures Blocks(tops, rows) == Blocks(tops, rows')
  {
    if tops == [] {
    } else {
      BlocksAgree(tops[1..], rows, rows');
    }
  }

  lemma {:induction false} InBlocks(tops: seq<Comment>, rows: seq<Comment>, c: Comment)
    ensures c in Blocks(tops, rows) <==> c in tops || (c in rows && exists t :: t in tops && c.parent == Some(t.id))
  {
    if tops == [] {
    } else {
      InBlocks(tops[1..], rows, c);
      assert RepliesTo(tops[0].id)(c) <==> c.parent == Some(tops[0].id);
      assert tops == [tops[0]] + tops[1..];
    }
  }

  ghost predicate DistinctIds(rows: seq<Comment>) {
    forall i, j :: 0 <= i < j < |rows| ==> rows[i].id != rows[j].id
  }

  lemma SameIdSameComment(rows: seq<Comment>, a: Comment, b: Comment)
    requires DistinctIds(rows) && a in rows && b in rows && a.id == b.id
    ensures a == b
  {
  }

  lemma {:induction false} FilterKeepsDistinct(rows: seq<Comment>, p: Comment -> bool)
    requires DistinctIds(rows)
    ensures DistinctIds(Filter(rows, p))
  {
    if rows == [] {
    } else {
      var rest := Filter(rows[1..], p);
      FilterKeepsDistinct(rows[1..], p);
      forall c | c in rest ensures c.id != rows[0].id {
        assert c in rows[1..];
      }
    }
  }

  ghost predicate HasTop(rows: seq<Comment>, id: string) { exists t :: t in rows && IsTop(t) && t.id == id }

  /** What the thread shows: the top-level comments and the replies of one that is there. */
  lemma InThreadList(rows: seq<Comment>, c: Comment)
    ensures c in Thread(rows) <==> c in rows && (IsTop(c) || HasTop(rows, c.parent.value))
  {
    InBlocks(Filter(rows, IsTop), rows, c);
  }

  lemma OutsideThread(rows: seq<Comment>, a: seq<Comment>, b: seq<Comment>, t: Comment, c: Comment)
    requires DistinctIds(rows) && t in rows && IsTop(t)
    requires forall u :: u in a || u in b ==> u in rows && IsTop(u) && u.id != t.id
    requires c in Blocks(a, rows) || c in Blocks(b, rows)
    ensures !InThread(t.id)(c)
  {
    InBlocks(a, rows, c);
    InBlocks(b, rows, c);
    assert c in rows;
    if c.id == t.id {
      SameIdSameComment(rows, c, t);
    }
  }

  /** A comment's block stands alone: nothing of its thread before or after it. */
  lemma ThreadAround(rows: seq<Comment>, t: Comment) returns (a: seq<Comment>, b: seq<Comment>)
    requires DistinctIds(rows) && t in rows && IsTop(t)
    ensures Filter(rows, IsTop) == a + [t] + b
    ensures Thread(rows) == Blocks(a, rows) + ([t] + Filter(rows, RepliesTo(t.id))) + Blocks(b, rows)
    ensures forall c :: c in Blocks(a, rows) || c in Blocks(b, rows) ==> !InThread(t.id)(c)
    ensures forall u :: u in a || u in b ==> u in rows && u.id != t.id
  {
    var tops := Filter(rows, IsTop);
    FilterKeepsDistinct(rows, IsTop);
    var k :| 0 <= k < |tops| && tops[k] == t;
    a, b := tops[..k], tops[k + 1..];
    assert tops == a + [t] + b;
    BlocksConcat(a + [t], b, rows);
    BlocksConcat(a, [t], rows);
    assert Blocks([t], rows) == [t] + Filter(rows, RepliesTo(t.id));
    forall u | u in a || u in b ensures u in rows && u.id != t.id {
      assert u in tops;
    }
    forall c | c in Blocks(a, rows) || c in Blocks(b, rows) ensures !InThread(t.id)(c) {
      OutsideThread(rows, a, b, t, c);
    }
  }

  // ---- a stable grouping ----

  lemma {:induction false} TopsOfBlocks(tops: seq<Comment>, rows: seq<Comment>)
    requires forall t :: t in tops ==> IsTop(t)
    ensures Filter(Blocks(tops, rows), IsTop) == tops
  {
    if tops == [] {
    } else {
      var t, replies, rest := tops[0], Filter(rows, RepliesTo(tops[0].id)), Blocks(tops[1..], rows);
      TopsOfBlocks(tops[1..], rows);
      FilterNone(replies, IsTop);
      FilterConcat([t] + replies, rest, IsTop);
      FilterConcat([t], replies, IsTop);
    }
  }

  /** Threading keeps the top-level comments and their order. */
  lemma TopsOfThread(rows: seq<Comment>)
    ensures Filter(Thread(rows), IsTop) == Filter(rows, IsTop)
  {
    TopsOfBlocks(Filter(rows, IsTop), rows);
  }

  lemma {:induction false} RepliesOfReplies(rows: seq<Comment>, id: string)
    ensures Filter(Filter(rows, RepliesTo(id)), RepliesTo(id)) == Filter(rows, RepliesTo(id))
  {
    FilterAll(Filter(rows, RepliesTo(id)), RepliesTo(id));
  }

  /** Threading keeps each shown comment's replies and their order. */
  lemma RepliesOfThread(rows: seq<Comment>, t: Comment)
    requires DistinctIds(rows) && t in rows && IsTop(t)
    ensures Filter(Thread(rows), RepliesTo(t.id)) == Filter(rows, RepliesTo(t.id))
  {
    var p := RepliesTo(t.id);
    var a, b := ThreadAround(rows, t);
    var replies := Filter(rows, p);
    FilterConcat(Blocks(a, rows) + ([t] + replies), Blocks(b, rows), p);
    FilterConcat(Blocks(a, rows), [t] + replies, p);
    FilterConcat([t], replies, p);
    FilterNone(Blocks(a, rows), p);
    FilterNone(Blocks(b, rows), p);
    RepliesOfReplies(rows, t.id);
    assert !p(t);
  }

  lemma ThreadIsIdempotent(rows: seq<Comment>)
    requires DistinctIds(rows)
    ensures Thread(Thread(rows)) == Thread(rows)
  {
    TopsOfThread(rows);
    forall t | t in Filter(rows, IsTop)
      ensures Filter(Thread(rows), RepliesTo(t.id)) == Filter(rows, RepliesTo(t.id))
    {
      RepliesOfThread(rows, t);
    }
    BlocksAgree(Filter(rows, IsTop), Thread(rows), rows);
  }

  function ShownIn(ids: set<string>): Comment -> bool {
    (c: Comment) => IsTop(c) || c.parent.value in ids
  }

  function IdsOf(tops: seq<Comment>): set<string> { set c | c in tops :: c.id }

  function RepliesToAny(ids: set<string>): Comment -> bool {
    (c: Comment) => c.parent.Some? && c.parent.value in ids
  }

  lemma RestDiffers(tops: seq<Comment>)
    requires DistinctIds(tops) && tops != []
    ensures DistinctIds(tops[1..]) && forall u :: u in tops[1..] ==> u.id != tops[0].id
  {
    forall u | u in tops[1..] ensures u.id != tops[0].id {
      var i :| 0 <= i < |tops[1..]| && tops[1..][i] == u;
      assert tops[i + 1] == u;
    }
  }

  lemma {:induction false} BlocksAreAll(tops: seq<Comment>, rows: seq<Comment>)
    requires DistinctIds(tops)
    ensures multiset(Blocks(tops, rows)) == multiset(tops) + multiset(Filter(rows, RepliesToAny(IdsOf(tops))))
  {
    hide Filter;
    if tops == [] {
      FilterNone(rows, RepliesToAny({}));
      assert IdsOf(tops) == {};
    } else {
      var t, rest := tops[0], tops[1..];
      assert tops == [t] + rest;
      BlocksAreAll(rest, rows);
      RestDiffers(tops);
      var ids := IdsOf(rest);
      FilterSplit(rows, RepliesToAny(ids), RepliesTo(t.id), RepliesToAny(ids + {t.id}));
      assert IdsOf(tops) == ids + {t.id};
      assert multiset(Blocks(tops, rows)) ==
             multiset([t]) + multiset(Filter(rows, RepliesTo(t.id))) + multiset(Blocks(rest, rows));
    }
  }

  /** The thread is a permutation of the comments it shows: none lost, none twice. */
  lemma ThreadIsPermutation(rows: seq<Comment>)
    requires DistinctIds(rows)
    ensures multiset(Thread(rows)) == multiset(Filter(rows, ShownIn(IdsOf(Filter(rows, IsTop)))))
  {
    FilterKeepsDistinct(rows, IsTop);
    BlocksAreAll(Filter(rows, IsTop), rows);
    var ids := IdsOf(Filter(rows, IsTop));
    FilterSplit(rows, IsTop, RepliesToAny(ids), ShownIn(ids));
  }

  /** Every reply's parent is a top-level comment of the list. */
  ghost predicate OneLevel(rows: seq<Comment>) {
    forall c :: c in rows && !IsTop(c) ==> HasTop(rows, c.parent.value)
  }

  /** With no one blocked, threading drops nothing. */
  lemma OneLevelDropsNothing(rows: seq<Comment>)
    requires DistinctIds(rows) && OneLevel(rows)
    ensures multiset(Thread(rows)) == multiset(rows) && |Thread(rows)| == |rows|
  {
    ThreadIsPermutation(rows);
    var ids := IdsOf(Filter(rows, IsTop));
    forall c | c in rows ensures ShownIn(ids)(c) {
      if !IsTop(c) {
        var t :| t in rows && IsTop(t) && t.id == c.parent.value;
        assert t in Filter(rows, IsTop);
      }
    }
    FilterAll(rows, ShownIn(ids));
    assert |multiset(Thread(rows))| == |multiset(rows)|;
  }

  // ---- deleting ----

  function Remove(list: seq<Comment>, id: string): seq<Comment> { Filter(list, Survives(id)) }

  lemma {:induction false} RemoveFromBlocks(tops: seq<Comment>, rows: seq<Comment>, id: string)
    requires forall t :: t in tops ==> IsTop(t)
    ensures Remove(Blocks(tops, rows), id) == Blocks(Remove(tops, id), Remove(rows, id))
  {
    if tops == [] {
    } else {
      hide Filter;
      var p := Survives(id);
      var t, replies, rest := tops[0], Filter(rows, RepliesTo(tops[0].id)), Blocks(tops[1..], rows);
      assert tops == [t] + tops[1..];
      FilterCons(t, tops[1..], p);
      RemoveFromBlocks(tops[1..], rows, id);
      FilterConcat([t] + replies, rest, p);
      FilterCons(t, replies, p);
      assert Remove(Blocks(tops, rows), id) ==
             Filter([t] + replies, p) + Blocks(Remove(tops[1..], id), Remove(rows, id));
      if t.id == id {
        FilterNone(replies, p);
      } else {
        assert IsTop(t) && p(t);
        FilterCommutes(rows, RepliesTo(t.id), p);
        BlocksCons(t, Remove(tops[1..], id), Remove(rows, id));
      }
    }
  }

  /** Taking a comment and its replies out of the thread is threading the rows without them. */
  lemma RemoveCommutes(rows: seq<Comment>, id: string)
    ensures Remove(Thread(rows), id) == Thread(Remove(rows, id))
  {
    RemoveFromBlocks(Filter(rows, IsTop), rows, id);
    FilterCommutes(rows, IsTop, Survives(id));
  }

  // ---- placing a new comment ----

  function NotId(id: string): Comment -> bool { (c: Comment) => c.id != id }

  /** The last index whose comment satisfies p, or -1. */
  function LastIndex(list: seq<Comment>, p: Comment -> bool): (at: int)
    ensures -1 <= at < |list|
    ensures at >= 0 ==> p(list[at])
    ensures forall i :: at < i < |list| ==> !p(list[i])
  {
    if list == [] then -1
    else if p(list[|list| - 1]) then |list| - 1
    else LastIndex(list[..|list| - 1], p)
  }

  function Place(list: seq<Comment>, saved: Comment): seq<Comment> {
    var rest := Filter(list, NotId(saved.id));
    if saved.parent.None? then rest + [saved]
    else
      var at := LastIndex(rest, InThread(saved.parent.value));
      if at == -1 then rest + [saved] else rest[..at + 1] + [saved] + rest[at + 1..]
  }

  method PlaceComment(list: seq<Comment>, saved: Comment) returns (out: seq<Comment>)
    ensures out == Place(list, saved)
  {
    var rest := Filter(list, NotId(saved.id));
    if saved.parent.None? {
      return rest + [saved];
    }
    var top := saved.parent.value;
    var at := -1;
    for index := 0 to |rest|
      invariant at == LastIndex(rest[..index], InThread(top))
    {
      assert rest[..index + 1][..index] == rest[..index];
      var item := rest[index];
      if item.id == top || item.parent == Some(top) {
        at := index;
      }
    }
    assert rest[..|rest|] == rest;
    if at == -1 {
      return rest + [saved];
    }
    out := rest[..at + 1] + [saved] + rest[at + 1..];
  }

  lemma LastIndexIs(list: seq<Comment>, p: Comment -> bool, at: int)
    requires 0 <= at < |list| && p(list[at]) && forall i :: at < i < |list| ==> !p(list[i])
    ensures LastIndex(list, p) == at
  {
  }

  lemma WithoutPlaced(rest: seq<Comment>, saved: Comment, k: nat)
    requires k <= |rest| && forall c :: c in rest ==> c.id != saved.id
    ensures Filter(rest[..k] + [saved] + rest[k..], NotId(saved.id)) == rest
  {
    hide Filter;
    var p := NotId(saved.id);
    FilterAll(rest[..k], p);
    FilterAll(rest[k..], p);
    FilterConcat(rest[..k] + [saved], rest[k..], p);
    FilterSnoc(rest[..k], saved, p);
    assert rest == rest[..k] + rest[k..];
  }

  /** Placing the same comment again changes nothing, whatever the list. */
  lemma PlaceIsIdempotent(list: seq<Comment>, saved: Comment)
    ensures Place(Place(list, saved), saved) == Place(list, saved)
  {
    hide Filter, LastIndex;
    var rest := Filter(list, NotId(saved.id));
    var k :| 0 <= k <= |rest| && Place(list, saved) == rest[..k] + [saved] + rest[k..];
    WithoutPlaced(rest, saved, k);
  }

  /** The comment, or one it goes under: the comment p or a reply to it. */
  predicate IsUnder(c: Comment, p: string) { c.id == p || c.parent == Some(p) }

  lemma LastUnder(rest: seq<Comment>, p: string)
    ensures var at := LastIndex(rest, InThread(p));
            && (at >= 0 ==> IsUnder(rest[at], p) && forall i :: at < i < |rest| ==> !IsUnder(rest[i], p))
            && (at < 0 ==> forall c :: c in rest ==> !IsUnder(c, p))
  {
    hide LastIndex;
    var at := LastIndex(rest, InThread(p));
    assert at >= 0 ==> InThread(p)(rest[at]);
    forall i | at < i < |rest| ensures !IsUnder(rest[i], p) {
      assert !InThread(p)(rest[i]);
    }
  }

  ghost predicate HasUnder(rest: seq<Comment>, p: string) { exists c :: c in rest && IsUnder(c, p) }

  /**
   In whatever list, a new comment goes in once and moves nothing else: after the last of the comment it
   answers and that one's replies, and at the end when it answers none or nothing of it is listed.
   */
  lemma PlaceIs(list: seq<Comment>, saved: Comment) returns (rest: seq<Comment>, k: nat)
    ensures rest == Filter(list, NotId(saved.id))
    ensures k <= |rest| && Place(list, saved) == rest[..k] + [saved] + rest[k..]
    ensures saved.parent.None? || !HasUnder(rest, saved.parent.value) ==> k == |rest|
    ensures saved.parent.Some? && HasUnder(rest, saved.parent.value) ==>
              k > 0 && IsUnder(rest[k - 1], saved.parent.value)
              && forall i :: k <= i < |rest| ==> !IsUnder(rest[i], saved.parent.value)
  {
    hide LastIndex, Filter, InThread, NotId, IsUnder;
    rest := Filter(list, NotId(saved.id));
    k := |rest|;
    if saved.parent.Some? {
      LastUnder(rest, saved.parent.value);
      var at := LastIndex(rest, InThread(saved.parent.value));
      if at >= 0 {
        k := at + 1;
        assert rest[at] in rest;
      }
    }
  }

  /** An id no row has and no row answers. */
  ghost predicate IsNew(rows: seq<Comment>, id: string) {
    forall c :: c in rows ==> c.id != id && c.parent != Some(id)
  }

  /** The row added last is the last of the replies it belongs to. */
  lemma RepliesWithNew(rows: seq<Comment>, s: Comment, id: string)
    ensures Filter(rows + [s], RepliesTo(id)) == Filter(rows, RepliesTo(id)) + if s.parent == Some(id) then [s] else []
  {
    FilterSnoc(rows, s, RepliesTo(id));
  }

  lemma BlocksWithNew(tops: seq<Comment>, rows: seq<Comment>, s: Comment)
    requires forall t :: t in tops ==> s.parent != Some(t.id)
    ensures Blocks(tops, rows + [s]) == Blocks(tops, rows)
  {
    forall t | t in tops ensures Filter(rows + [s], RepliesTo(t.id)) == Filter(rows, RepliesTo(t.id)) {
      RepliesWithNew(rows, s, t.id);
    }
    BlocksAgree(tops, rows + [s], rows);
  }

  lemma PlaceTop(rows: seq<Comment>, s: Comment)
    requires IsNew(rows, s.id) && IsTop(s)
    ensures Thread(rows + [s]) == Thread(rows) + [s]
  {
    hide Filter, Blocks;
    var tops := Filter(rows, IsTop);
    FilterSnoc(rows, s, IsTop);
    BlocksSnoc(tops, s, rows + [s]);
    BlocksWithNew(tops, rows, s);
    RepliesWithNew(rows, s, s.id);
    FilterNone(rows, RepliesTo(s.id));
  }

  lemma ThreadWithReply(rows: seq<Comment>, s: Comment, t: Comment, a: seq<Comment>, b: seq<Comment>)
    requires Filter(rows, IsTop) == a + [t] + b && s.parent == Some(t.id)
    requires forall u :: u in a || u in b ==> u.id != t.id
    ensures Thread(rows + [s]) == Blocks(a, rows) + ([t] + Filter(rows, RepliesTo(t.id)) + [s]) + Blocks(b, rows)
  {
    hide Filter, Blocks;
    FilterSnoc(rows, s, IsTop);
    BlocksConcat(a + [t], b, rows + [s]);
    BlocksSnoc(a, t, rows + [s]);
    BlocksWithNew(a, rows, s);
    BlocksWithNew(b, rows, s);
    RepliesWithNew(rows, s, t.id);
  }

  lemma WithoutNew(rows: seq<Comment>, s: Comment)
    requires IsNew(rows, s.id)
    ensures Filter(Thread(rows), NotId(s.id)) == Thread(rows)
  {
    forall c | c in Thread(rows) ensures c.id != s.id {
      InThreadList(rows, c);
    }
    FilterAll(Thread(rows), NotId(s.id));
  }

  lemma LastOfBlock(before: seq<Comment>, block: seq<Comment>, after: seq<Comment>, p: Comment -> bool)
    requires block != [] && (forall c :: c in block ==> p(c)) && (forall c :: c in after ==> !p(c))
    ensures LastIndex(before + block + after, p) == |before| + |block| - 1
  {
    var list, at := before + block + after, |before| + |block| - 1;
    assert list[at] == block[|block| - 1];
    forall i | at < i < |list| ensures !p(list[i]) {
      assert list[i] == after[i - at - 1];
    }
    LastIndexIs(list, p, at);
  }

  lemma PlaceReply(rows: seq<Comment>, s: Comment, t: Comment)
    requires DistinctIds(rows) && IsNew(rows, s.id)
    requires t in rows && IsTop(t) && s.parent == Some(t.id)
    ensures Place(Thread(rows), s) == Thread(rows + [s])
  {
    hide Filter, Blocks, LastIndex, DistinctIds;
    var a, b := ThreadAround(rows, t);
    var before, block, after := Blocks(a, rows), [t] + Filter(rows, RepliesTo(t.id)), Blocks(b, rows);
    assert Thread(rows + [s]) == before + (block + [s]) + after by {
      ThreadWithReply(rows, s, t, a, b);
    }
    WithoutNew(rows, s);
    LastOfBlock(before, block, after, InThread(t.id));
    var list, at := before + block + after, |before| + |block| - 1;
    assert list[..at + 1] == before + block && list[at + 1..] == after;
  }

  /** Patching the shown list with a new comment is threading all the rows again exactly when its comment is there. */
  lemma PlaceIsRebuild(rows: seq<Comment>, s: Comment)
    requires DistinctIds(rows) && IsNew(rows, s.id)
    ensures Place(Thread(rows), s) == Thread(rows + [s]) <==> IsTop(s) || HasTop(rows, s.parent.value)
  {
    hide Filter, Blocks, LastIndex;
    WithoutNew(rows, s);
    if IsTop(s) {
      PlaceTop(rows, s);
    } else if HasTop(rows, s.parent.value) {
      var t :| t in rows && IsTop(t) && t.id == s.parent.value;
      PlaceReply(rows, s, t);
    } else {
      FilterSnoc(rows, s, IsTop);
      BlocksWithNew(Filter(rows, IsTop), rows, s);
      assert |Place(Thread(rows), s)| == |Thread(rows)| + 1;
    }
  }
}
