/**
 The diary's server: one page cut out of a person's date-ordered list with a keyset cursor, and
 the walk from page to page while the list may change between them.
 */
module DiaryServer {
  import opened Options
  import opened Sequences
  import opened Dates
  import opened DiaryRules

  /** One row a date: an entry, or a skipped day. */
  datatype Row =
    | EntryRow(id: string, day: Day, title: string, social: Option<int>)
    | SkippedRow(day: Day, category: string)

  ghost predicate Listed(rows: seq<Row>) {
    forall i, j :: 0 <= i < j < |rows| ==> rows[i].day > rows[j].day
  }

  // ---- the reader's contract ----

  predicate Wanted(before: Option<Day>, day: int) { before.Some? ==> day < before.value }

  function OlderThan(before: Day): Row -> bool { (r: Row) => r.day < before }

  function Older(rows: seq<Row>, before: Option<Day>): seq<Row> {
    if before.None? then rows else Filter(rows, OlderThan(before.value))
  }

  /** Up to limit rows, newest first, strictly before `before` when it is set. */
  function RowsOf(rows: seq<Row>, before: Option<Day>, limit: nat): seq<Row> {
    Cut(Older(rows, before), limit)
  }

  lemma ListedConcat(a: seq<Row>, b: seq<Row>, edge: int)
    requires Listed(a) && Listed(b)
    requires (forall r :: r in a ==> r.day >= edge) && (forall r :: r in b ==> r.day < edge)
    ensures Listed(a + b)
  {
    forall i, j | 0 <= i < j < |a + b| ensures (a + b)[i].day > (a + b)[j].day {
      if i < |a| <= j {
        assert a[i] in a && b[j - |a|] in b;
      }
    }
  }

  lemma {:induction false} FilterKeepsListed(rows: seq<Row>, p: Row -> bool)
    requires Listed(rows)
    ensures Listed(Filter(rows, p))
  {
    if rows == [] {
    } else {
      var rest := Filter(rows[1..], p);
      FilterKeepsListed(rows[1..], p);
      forall r | r in rest ensures r.day < rows[0].day {
        assert r in rows[1..];
      }
      if p(rows[0]) {
        assert Filter(rows, p) == [rows[0]] + rest;
        ListedConcat([rows[0]], rest, rows[0].day);
      }
    }
  }

  lemma OlderIsListed(rows: seq<Row>, before: Option<Day>)
    requires Listed(rows)
    ensures Listed(Older(rows, before))
    ensures forall r :: r in Older(rows, before) <==> r in rows && Wanted(before, r.day)
  {
    if before.Some? {
      FilterKeepsListed(rows, OlderThan(before.value));
    }
  }

  // ---- one page ----

  /** nextCursor is "" when the page is the last. */
  datatype Page = Page(rows: seq<Row>, nextCursor: string, chips: seq<string>)

  function CutPage(rows: seq<Row>, limit: nat, chips: seq<string>): Page
    requires limit > 0
  {
    if |rows| > limit then Page(rows[..limit], CursorAt(Some(rows[limit - 1].day)), chips)
    else Page(rows, "", chips)
  }

  /** The page that answers a request while the person's list is `rows`. */
  function PageOf(rows: seq<Row>, chips: seq<string>, cursor: string, limit: int): Result<Page, Problem> {
    match ReadCursor(cursor)
    case Err(e) => Err(e)
    case Ok(before) =>
      if limit < 1 || limit > MAX_LIMIT then Err(BadLimit)
      else Ok(CutPage(RowsOf(rows, before, limit + 1), limit, chips))
  }

  function Attach(r: Row, social: map<string, int>): Row {
    if r.EntryRow? && r.id in social then r.(social := Some(social[r.id])) else r
  }

  function AttachAll(rows: seq<Row>, social: map<string, int>): (out: seq<Row>)
    ensures |out| == |rows| && forall i :: 0 <= i < |rows| ==> out[i] == Attach(rows[i], social)
  {
    if rows == [] then [] else [Attach(rows[0], social)] + AttachAll(rows[1..], social)
  }

  lemma {:induction false} AttachThenFilter(rows: seq<Row>, social: map<string, int>, before: Day)
    ensures Filter(AttachAll(rows, social), OlderThan(before)) == AttachAll(Filter(rows, OlderThan(before)), social)
  {
    if rows == [] {
    } else {
      AttachThenFilter(rows[1..], social, before);
      assert AttachAll(rows, social)[1..] == AttachAll(rows[1..], social);
    }
  }

  lemma AttachThenRead(rows: seq<Row>, social: map<string, int>, before: Option<Day>, limit: nat)
    ensures RowsOf(AttachAll(rows, social), before, limit) == AttachAll(RowsOf(rows, before, limit), social)
  {
    if before.Some? {
      AttachThenFilter(rows, social, before.value);
    }
  }

  /** Reads the comments of the entries on the page and sets them row by row. */
  method SetSocial(read: seq<Row>, social: map<string, int>) returns (out: seq<Row>)
    ensures out == AttachAll(read, social)
    ensures |out| == |read| && forall i :: 0 <= i < |read| ==>
                                 if read[i].EntryRow? && read[i].id in social then
                                   out[i] == EntryRow(read[i].id, read[i].day, read[i].title, Some(social[read[i].id]))
                                 else out[i] == read[i]
  {
    var ids: seq<string> := [];
    for i := 0 to |read|
      invariant forall j :: 0 <= j < i && read[j].EntryRow? ==> read[j].id in ids
      invariant |ids| == 0 ==> forall j :: 0 <= j < i ==> read[j].SkippedRow?
    {
      if read[i].EntryRow? {
        ids := ids + [read[i].id];
      }
    }
    out := read;
    if |ids| > 0 {
      var found := map x | x in ids && x in social :: social[x];
      for i := 0 to |out|
        invariant |out| == |read|
        invariant forall j :: 0 <= j < |read| ==> out[j] == if j < i then Attach(read[j], social) else read[j]
      {
        if out[i].EntryRow? && out[i].id in found {
          assert out[i].id in ids;
          out := out[i := out[i].(social := Some(found[out[i].id]))];
        }
      }
    }
  }

  /** The comment counts are attached after the cut; the page is the one of the list that had them all along. */
  method ReadPage(rows: seq<Row>, social: map<string, int>, chips: seq<string>, cursor: string, limit: int)
    returns (r: Result<Page, Problem>)
    ensures r == PageOf(AttachAll(rows, social), chips, cursor, limit)
  {
    hide ReadCursor, CursorAt, Older;
    var decoded := ReadCursor(cursor);
    if decoded.Err? {
      return Err(decoded.error);
    }
    if limit < 1 || limit > MAX_LIMIT {
      return Err(BadLimit);
    }
    var before := decoded.value;
    var read := RowsOf(rows, before, limit + 1);
    AttachThenRead(rows, social, before, limit + 1);
    var nextCursor := "";
    if |read| > limit {
      read := read[..limit];
      nextCursor := CursorAt(Some(read[limit - 1].day));
    }
    var out := SetSocial(read, social);
    assert out == CutPage(RowsOf(AttachAll(rows, social), before, limit + 1), limit, chips).rows;
    r := Ok(Page(out, nextCursor, chips));
  }

  /**
   What a page owes the request: rows of the list, newest first, older than the cursor, and none
   passed over down to its own cursor.
   */
  ghost predicate PageIs(page: Page, rows: seq<Row>, before: Option<Day>, after: Option<Day>) {
    && page.nextCursor == CursorAt(after)
    && Listed(page.rows)
    && (forall r :: r in page.rows ==> r in rows && Wanted(before, r.day) && (after.Some? ==> r.day >= after.value))
    && (forall r :: r in rows && Wanted(before, r.day) && (after.Some? ==> r.day >= after.value) ==> r in page.rows)
    && (after.Some? ==> page.rows != [] && page.rows[|page.rows| - 1].day == after.value)
  }

  /** The newest rows of a list are those down to the last of them. */
  lemma NewestAreAboveEdge(older: seq<Row>, limit: nat)
    requires Listed(older) && 1 <= limit <= |older|
    ensures forall r :: r in older[..limit] <==> r in older && r.day >= older[limit - 1].day
  {
    forall r | r in older && r.day >= older[limit - 1].day ensures r in older[..limit] {
      var i :| 0 <= i < |older| && older[i] == r;
      assert i < limit && older[..limit][i] == r;
    }
  }

  lemma CutKeepsList(rows: seq<Row>, before: Option<Day>, limit: int, chips: seq<string>)
    returns (page: Page, after: Option<Day>)
    requires Listed(rows) && 1 <= limit
    ensures page == CutPage(RowsOf(rows, before, limit + 1), limit, chips)
    ensures PageIs(page, rows, before, after)
    ensures page.chips == chips && |page.rows| <= limit && (after.Some? ==> |page.rows| == limit)
    ensures after.Some? ==> exists r :: r in rows && r.day < after.value
  {
    hide CursorAt, Older;
    OlderIsListed(rows, before);
    var older := Older(rows, before);
    page := CutPage(Cut(older, limit + 1), limit, chips);
    if |older| > limit {
      after := Some(older[limit - 1].day);
      NewestAreAboveEdge(older, limit);
      assert Cut(older, limit + 1)[..limit] == older[..limit];
      assert older[limit] in older;
    } else {
      after := None;
    }
  }

  lemma PageKeepsList(rows: seq<Row>, chips: seq<string>, cursor: string, before: Option<Day>, limit: int)
    returns (page: Page, after: Option<Day>)
    requires Listed(rows) && cursor == CursorAt(before) && 1 <= limit <= MAX_LIMIT
    ensures PageOf(rows, chips, cursor, limit) == Ok(page)
    ensures PageIs(page, rows, before, after)
    ensures page.chips == chips && |page.rows| <= limit && (after.Some? ==> |page.rows| == limit)
    ensures after.Some? ==> exists r :: r in rows && r.day < after.value
  {
    hide CursorAt, ReadCursor, PageIs;
    CursorRoundTrip(before);
    page, after := CutKeepsList(rows, before, limit, chips);
  }

  /** A page is refused exactly for a cursor that is not read or a limit that is not 1 to 50, the cursor first. */
  lemma RefusedExactly(rows: seq<Row>, chips: seq<string>, cursor: string, limit: int)
    ensures PageOf(rows, chips, cursor, limit) == Err(BadCursor) <==> DecodeCursor(cursor).Err?
    ensures PageOf(rows, chips, cursor, limit) == Err(BadLimit) <==> DecodeCursor(cursor).Ok? && !(1 <= limit <= 50)
  {
  }

  /** A cursor that is read as a day pages as that day's own does. */
  lemma AnyCursorPages(rows: seq<Row>, chips: seq<string>, cursor: string, limit: int, before: Option<Day>)
    requires ReadCursor(cursor) == Ok(before)
    ensures PageOf(rows, chips, cursor, limit) == PageOf(rows, chips, CursorAt(before), limit)
  {
    hide CursorAt, ReadCursor, RowsOf, CutPage;
    CursorRoundTrip(before);
  }

  // ---- two newest-first lists with the same rows are the same list ----

  lemma {:induction false} IndexInLarger(p: seq<Row>, q: seq<Row>, j: nat, i: nat)
    requires Listed(p) && Listed(q) && (forall r :: r in p ==> r in q)
    requires j < |p| && i < |q| && p[j] == q[i]
    ensures j <= i
    decreases j
  {
    if j == 0 {
    } else {
      assert p[j - 1] in p;
      var k :| 0 <= k < |q| && q[k] == p[j - 1];
      IndexInLarger(p, q, j - 1, k);
      assert k < i;
    }
  }

  /** If p holds only rows of q, and every row of q[..n], then the two agree on their first n rows. */
  lemma SamePrefix(p: seq<Row>, q: seq<Row>, n: nat)
    requires Listed(p) && Listed(q) && n <= |q|
    requires forall r :: r in p ==> r in q
    requires forall i :: 0 <= i < n ==> q[i] in p
    ensures n <= |p| && p[..n] == q[..n]
  {
    forall i | 0 <= i < n ensures i < |p| && p[i] == q[i] {
      assert q[i] in p;
      var j :| 0 <= j < |p| && p[j] == q[i];
      IndexInLarger(p, q, j, i);
      IndexInLarger(q[..n], p, i, j);
    }
    if n > 0 {
      var last := n - 1;
      assert last < |p| && p[last] == q[last];
    }
  }

  lemma SameRows(p: seq<Row>, q: seq<Row>)
    requires Listed(p) && Listed(q) && forall r :: r in p <==> r in q
    ensures p == q
  {
    SamePrefix(p, q, |q|);
    SamePrefix(q, p, |p|);
  }

  // ---- the walk ----

  ghost predicate AllListed(lists: seq<seq<Row>>) { forall k :: 0 <= k < |lists| ==> Listed(lists[k]) }

  predicate GoodLimits(limits: seq<int>) { forall k :: 0 <= k < |limits| ==> 1 <= limits[k] <= MAX_LIMIT }

  /** The rows delivered from `cursor` on, page k answered while the list was lists[k]. */
  function Walk(lists: seq<seq<Row>>, limits: seq<int>, cursor: string): seq<Row>
    requires |lists| == |limits|
  {
    if lists == [] then []
    else
      match PageOf(lists[0], [], cursor, limits[0])
      case Err(_) => []
      case Ok(p) => p.rows + if p.nextCursor == "" then [] else Walk(lists[1..], limits[1..], p.nextCursor)
  }

  /** Whether the walk came to a last page. */
  predicate Finished(lists: seq<seq<Row>>, limits: seq<int>, cursor: string)
    requires |lists| == |limits|
  {
    lists != [] &&
    match PageOf(lists[0], [], cursor, limits[0])
    case Err(_) => false
    case Ok(p) => p.nextCursor == "" || Finished(lists[1..], limits[1..], p.nextCursor)
  }

  ghost predicate HasDay(rows: seq<Row>, day: int) { exists r :: r in rows && r.day == day }

  ghost predicate InSome(lists: seq<seq<Row>>, r: Row) { exists k :: 0 <= k < |lists| && r in lists[k] }

  ghost predicate InAll(lists: seq<seq<Row>>, day: int) { forall k :: 0 <= k < |lists| ==> HasDay(lists[k], day) }

  /** The first page of a walk and what follows it. */
  lemma WalkStep(lists: seq<seq<Row>>, limits: seq<int>, before: Option<Day>) returns (page: Page, after: Option<Day>)
    requires |lists| == |limits| && lists != [] && AllListed(lists) && GoodLimits(limits)
    ensures PageIs(page, lists[0], before, after)
    ensures Walk(lists, limits, CursorAt(before)) ==
            page.rows + if after.None? then [] else Walk(lists[1..], limits[1..], CursorAt(after))
    ensures Finished(lists, limits, CursorAt(before)) <==>
            (after.None? || Finished(lists[1..], limits[1..], CursorAt(after)))
  {
    hide ReadCursor;
    page, after := PageKeepsList(lists[0], [], CursorAt(before), before, limits[0]);
  }

  lemma WalkOfNothing(limits: seq<int>, cursor: string)
    requires limits == []
    ensures Walk([], limits, cursor) == []
  {
  }

  /** Whatever changes between pages, no date is delivered twice. */
  lemma {:induction false} WalkNeverRepeats(lists: seq<seq<Row>>, limits: seq<int>, before: Option<Day>)
    requires |lists| == |limits| && AllListed(lists) && GoodLimits(limits)
    ensures Listed(Walk(lists, limits, CursorAt(before)))
    ensures forall r :: r in Walk(lists, limits, CursorAt(before)) ==> Wanted(before, r.day)
  {
    hide CursorAt, PageOf, Walk, Finished;
    if lists == [] {
      WalkOfNothing(limits, CursorAt(before));
    } else {
      var page, after := WalkStep(lists, limits, before);
      if after.Some? {
        WalkNeverRepeats(lists[1..], limits[1..], after);
        assert page.rows[0] in page.rows;
        ListedConcat(page.rows, Walk(lists[1..], limits[1..], CursorAt(after)), after.value);
      }
    }
  }

  /** Every row delivered was on the list when its page was cut. */
  lemma {:induction false} WalkDeliversListed(lists: seq<seq<Row>>, limits: seq<int>, before: Option<Day>, r: Row)
    requires |lists| == |limits| && AllListed(lists) && GoodLimits(limits)
    requires r in Walk(lists, limits, CursorAt(before))
    ensures InSome(lists, r)
  {
    hide CursorAt, PageOf, Walk, Finished;
    if lists == [] {
      WalkOfNothing(limits, CursorAt(before));
    } else {
      var page, after := WalkStep(lists, limits, before);
      if r in page.rows {
        assert r in lists[0];
      } else {
        WalkDeliversListed(lists[1..], limits[1..], after, r);
        var k :| 0 <= k < |lists[1..]| && r in lists[1..][k];
        assert r in lists[k + 1];
      }
    }
  }

  /** A finished walk delivers every date that was listed all along. */
  lemma {:induction false} WalkMissesNothing(lists: seq<seq<Row>>, limits: seq<int>, before: Option<Day>, day: int)
    requires |lists| == |limits| && AllListed(lists) && GoodLimits(limits)
    requires Finished(lists, limits, CursorAt(before))
    requires Wanted(before, day) && InAll(lists, day)
    ensures HasDay(Walk(lists, limits, CursorAt(before)), day)
  {
    hide CursorAt, PageOf, Walk;
    var page, after := WalkStep(lists, limits, before);
    if Wanted(after, day) && after.Some? {
      assert forall k :: 0 <= k < |lists[1..]| ==> lists[1..][k] == lists[k + 1];
      WalkMissesNothing(lists[1..], limits[1..], after, day);
      var r :| r in Walk(lists[1..], limits[1..], CursorAt(after)) && r.day == day;
      assert r in Walk(lists, limits, CursorAt(before));
    } else {
      assert HasDay(lists[0], day);
      var r :| r in lists[0] && r.day == day;
      assert r in page.rows;
    }
  }

  /** On a list that does not change, the pages put together are the list. */
  lemma WalkIsWholeList(rows: seq<Row>, lists: seq<seq<Row>>, limits: seq<int>)
    requires |lists| == |limits| && GoodLimits(limits) && Listed(rows)
    requires forall k :: 0 <= k < |lists| ==> lists[k] == rows
    requires Finished(lists, limits, CursorAt(None))
    ensures Walk(lists, limits, CursorAt(None)) == rows
  {
    hide CursorAt, PageOf, Walk, Finished;
    WalkNeverRepeats(lists, limits, None);
    var walked := Walk(lists, limits, CursorAt(None));
    forall r | r in rows ensures r in walked {
      assert InAll(lists, r.day);
      WalkMissesNothing(lists, limits, None, r.day);
      var q :| q in walked && q.day == r.day;
      WalkDeliversListed(lists, limits, None, q);
    }
    forall r | r in walked ensures r in rows {
      WalkDeliversListed(lists, limits, None, r);
    }
    SameRows(walked, rows);
  }

  ghost function DaysLeft(before: Option<Day>): nat {
    (if before.None? then LAST_DAY + 1 else before.value) - FIRST_DAY
  }

  /** Every page moves the cursor to an older date, so a walk long enough finishes, whatever changes. */
  lemma {:induction false} WalkFinishes(lists: seq<seq<Row>>, limits: seq<int>, before: Option<Day>)
    requires |lists| == |limits| && AllListed(lists) && GoodLimits(limits)
    requires |lists| > DaysLeft(before)
    ensures Finished(lists, limits, CursorAt(before))
    decreases |lists|
  {
    hide CursorAt, PageOf, Walk, Finished;
    var page, after := WalkStep(lists, limits, before);
    if after.None? {
    } else {
      assert page.rows[|page.rows| - 1] in page.rows;
      WalkFinishes(lists[1..], limits[1..], after);
    }
  }
}
