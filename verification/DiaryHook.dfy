/** The diary hook itself: the refs and the callbacks that update them around each await. */
module DiaryHook {
  import opened Numbers
  import opened Options
  import opened Sequences
  import opened DiaryServer
  import opened DiaryPhone

  class Diary {
    var held: Held
    var status: Status
    var failure: Failure
    var refreshing: bool
    var loadingMore: bool
    var moreFailed: bool
    var seqNo: nat
    var firstBusy: bool
    var moreBusy: bool
    var mounted: bool
    var flight: map<nat, Request>
    var sent: nat

    ghost function Now(): State
      reads this
    {
      State(held, status, failure, refreshing, loadingMore, moreFailed, seqNo, firstBusy, moreBusy, mounted, flight,
            sent)
    }

    constructor (user: Option<string>, category: Option<string>)
      ensures Now() == Start(user, category)
    {
      held := Held(user, category, [], [], None, false);
      status, failure := Loading, Network;
      refreshing, loadingMore, moreFailed := false, false, false;
      seqNo, firstBusy, moreBusy := 0, false, false;
      mounted, flight, sent := true, map[], 0;
    }

    method Send(q: Request)
      modifies `flight, `sent
      ensures flight == old(flight)[old(sent) := q] && sent == old(sent) + 1
    {
      flight := flight[sent := q];
      sent := sent + 1;
    }

    /** loadFirst up to its await. */
    method LoadFirst(user: Option<string>, category: Option<string>, mode: Mode)
      modifies this
      ensures Now() == AskFirst(old(Now()), user, category, mode)
    {
      if user.None? {
        return;
      }
      seqNo := seqNo + 1;
      var mine := seqNo;
      firstBusy := true;
      moreBusy := false;
      loadingMore := false;
      if mode == Pull {
        refreshing := true;
      }
      if mode == Retry {
        status := Loading;
      }
      var shown := held;
      var keepPlace := mode == Quiet && shown.loaded && shown.owner == user && shown.category == category;
      var limit := if keepPlace then Min(MAX_PAGE, Max(PAGE_SIZE, |shown.rows|)) else PAGE_SIZE;
      Send(First(mine, Scope(user.value, category), limit, mode));
    }

    /** fetchMore up to its await. */
    method FetchMore(user: Option<string>, category: Option<string>, auto: bool)
      modifies this
      ensures Now() == AskMore(old(Now()), user, category, auto)
    {
      var now := held;
      if user.None? || moreBusy || firstBusy {
        return;
      }
      if !now.loaded || now.owner != user || now.category != category || now.nextCursor.None? {
        return;
      }
      if auto && moreFailed {
        return;
      }
      moreBusy := true;
      var mine := seqNo;
      loadingMore := true;
      moreFailed := false;
      Send(More(mine, Scope(user.value, category), now.nextCursor.value));
    }

    /** The finally block of loadFirst. */
    method EndFirst(q: Request)
      requires q.First?
      modifies `firstBusy, `refreshing
      ensures firstBusy == (old(firstBusy) && q.mine != seqNo)
      ensures refreshing == (old(refreshing) && !(mounted && q.mode == Pull))
    {
      if q.mine == seqNo {
        firstBusy := false;
      }
      if mounted && q.mode == Pull {
        refreshing := false;
      }
    }

    method FirstArrives(n: nat, page: Page)
      requires n in flight && flight[n].First?
      modifies this
      ensures Now() == Succeed(old(Now()), n, page)
    {
      hide RowKey, PageOf, Join, Unseen, Filter, WireCursor, FirstLimit;
      var q := flight[n];
      flight := flight - {n};
      if mounted && q.mine == seqNo {
        held := Held(Some(q.scope.owner), q.scope.category, page.rows, page.chips, WireCursor(page.nextCursor), true);
        moreFailed := false;
        status := Ready;
      }
      EndFirst(q);
    }

    method FirstFails(n: nat, kind: Failure)
      requires n in flight && flight[n].First?
      modifies this
      ensures Now() == Fail(old(Now()), n, kind)
    {
      hide RowKey, PageOf, Join, Unseen, Filter, WireCursor, FirstLimit;
      var q := flight[n];
      flight := flight - {n};
      if mounted && q.mine == seqNo {
        if !(held.loaded && held.owner == Some(q.scope.owner)) {
          failure := kind;
          status := Offline;
        }
      }
      EndFirst(q);
    }

    /** loadFirst after its await: the page, or the error caught, then the finally block. */
    method FirstLands(n: nat, answer: Result<Page, Failure>)
      requires n in flight && flight[n].First?
      modifies this
      ensures Now() == if answer.Ok? then Succeed(old(Now()), n, answer.value) else Fail(old(Now()), n, answer.error)
    {
      hide Succeed, Fail;
      match answer
      case Ok(page) => FirstArrives(n, page);
      case Err(kind) => FirstFails(n, kind);
    }

    /** fetchMore after its await. */
    method MoreLands(n: nat, answer: Result<Page, Failure>)
      requires n in flight && flight[n].More?
      modifies this
      ensures Now() == if answer.Ok? then Succeed(old(Now()), n, answer.value) else Fail(old(Now()), n, answer.error)
    {
      var q := flight[n];
      flight := flight - {n};
      if mounted && q.mine == seqNo {
        match answer
        case Ok(page) =>
          var unseen := NotShown(held.rows, page.rows);
          held := held.(rows := held.rows + unseen, chips := page.chips, nextCursor := WireCursor(page.nextCursor));
        case Err(_) =>
          moreFailed := true;
      }
      if q.mine == seqNo {
        moreBusy := false;
        if mounted {
          loadingMore := false;
        }
      }
    }

    /** The rows of a page that are not shown yet, by key. */
    static method NotShown(shown: seq<Row>, rows: seq<Row>) returns (unseen: seq<Row>)
      ensures unseen == Filter(rows, Unseen(shown))
    {
      hide RowKey;
      var seen := set r | r in shown :: RowKey(r);
      ghost var p := Unseen(shown);
      unseen := [];
      for i := 0 to |rows|
        invariant unseen == Filter(rows[..i], p)
      {
        assert rows[..i + 1] == rows[..i] + [rows[i]];
        FilterConcat(rows[..i], [rows[i]], p);
        if RowKey(rows[i]) !in seen {
          unseen := unseen + [rows[i]];
        }
      }
      assert rows[..|rows|] == rows;
    }

    method SetMounted(value: bool)
      modifies `mounted
      ensures Now() == old(Now()).(mounted := value)
    {
      mounted := value;
    }
  }
}
