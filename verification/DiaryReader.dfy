/**
 How the database reader meets the diary's contract: entries and skipped days are two lists, each
 read newest first and cut to the limit, then put together, sorted by date text and cut again.
 */
module DiaryReader {
  import opened Options
  import opened Sequences
  import opened Dates
  import opened DiaryServer

  predicate NewerText(a: Row, b: Row) { TextAfter(DayText(a.day), DayText(b.day)) }

  /** A stable sort: r came before every row of sorted, so it goes before its equals. */
  function Insert(r: Row, sorted: seq<Row>): (out: seq<Row>)
    ensures forall x :: x in out <==> x == r || x in sorted
  {
    if sorted == [] then [r]
    else if NewerText(sorted[0], r) then [sorted[0]] + Insert(r, sorted[1..])
    else [r] + sorted
  }

  function SortNewest(rows: seq<Row>): (out: seq<Row>)
    ensures forall x :: x in out <==> x in rows
  {
    if rows == [] then [] else Insert(rows[0], SortNewest(rows[1..]))
  }

  ghost predicate DistinctDays(rows: seq<Row>) {
    forall i, j :: 0 <= i < j < |rows| ==> rows[i].day != rows[j].day
  }

  lemma {:induction false} InsertKeepsListed(r: Row, sorted: seq<Row>)
    requires Listed(sorted) && forall x :: x in sorted ==> x.day != r.day
    ensures Listed(Insert(r, sorted))
  {
    hide DayText, TextAfter;
    if sorted == [] {
    } else {
      DayTextOrders(sorted[0].day, r.day);
      var head, rest := [sorted[0]], sorted[1..];
      if NewerText(sorted[0], r) {
        InsertKeepsListed(r, rest);
        ListedConcat(head, Insert(r, rest), sorted[0].day);
      } else {
        assert sorted[0] in sorted;
        forall x | x in sorted ensures x.day < r.day {
        }
        ListedConcat([r], sorted, r.day);
      }
    }
  }

  lemma {:induction false} SortIsListed(rows: seq<Row>)
    requires DistinctDays(rows)
    ensures Listed(SortNewest(rows))
  {
    if rows == [] {
    } else {
      SortIsListed(rows[1..]);
      InsertKeepsListed(rows[0], SortNewest(rows[1..]));
    }
  }

  /** Rows in both lists taken together, as one newest-first list. */
  ghost predicate IsWhole(whole: seq<Row>, entries: seq<Row>, skips: seq<Row>) {
    Listed(whole) && forall r :: r in whole <==> r in entries || r in skips
  }

  /** The newest n of a part reach at least as far back as the newest n of the whole. */
  lemma NewestOfPart(whole: seq<Row>, part: seq<Row>, n: nat, i: nat)
    requires Listed(whole) && Listed(part) && forall r :: r in part ==> r in whole
    requires i < n && i < |whole| && whole[i] in part
    ensures whole[i] in Cut(part, n)
  {
    var j :| 0 <= j < |part| && part[j] == whole[i];
    IndexInLarger(part, whole, j, i);
    assert Cut(part, n)[j] == whole[i];
  }

  lemma CutIsPrefix(rows: seq<Row>, n: nat)
    ensures forall r :: r in Cut(rows, n) ==> r in rows
    ensures Listed(rows) ==> Listed(Cut(rows, n))
  {
  }

  lemma BothDistinct(p: seq<Row>, q: seq<Row>, a: seq<Row>, b: seq<Row>)
    requires Listed(p) && Listed(q) && (forall r :: r in p ==> r in a) && (forall r :: r in q ==> r in b)
    requires forall r, s :: r in a && s in b ==> r.day != s.day
    ensures DistinctDays(p + q)
  {
    forall i, j | 0 <= i < j < |p + q| ensures (p + q)[i].day != (p + q)[j].day {
      if i < |p| <= j {
        assert p[i] in a && q[j - |p|] in b;
      }
    }
  }

  /** The two cut parts, sorted: rows of the whole, with the newest n all there. */
  lemma SortedParts(whole: seq<Row>, a: seq<Row>, b: seq<Row>, n: nat)
    requires IsWhole(whole, a, b) && Listed(a) && Listed(b)
    requires forall r, q :: r in a && q in b ==> r.day != q.day
    ensures var sorted := SortNewest(Cut(a, n) + Cut(b, n));
            && Listed(sorted)
            && (forall r :: r in sorted ==> r in whole)
            && (forall i :: 0 <= i < n && i < |whole| ==> whole[i] in sorted)
  {
    hide SortNewest, Cut;
    var p, q := Cut(a, n), Cut(b, n);
    CutIsPrefix(a, n);
    CutIsPrefix(b, n);
    BothDistinct(p, q, a, b);
    SortIsListed(p + q);
    forall i | 0 <= i < n && i < |whole| ensures whole[i] in SortNewest(p + q) {
      assert whole[i] in whole;
      if whole[i] in a {
        NewestOfPart(whole, a, n, i);
      } else {
        NewestOfPart(whole, b, n, i);
      }
    }
  }

  /** Cutting both parts first, then sorting and cutting, loses nothing of the newest n. */
  lemma CutBeforeSort(whole: seq<Row>, a: seq<Row>, b: seq<Row>, n: nat)
    requires IsWhole(whole, a, b) && Listed(a) && Listed(b)
    requires forall r, q :: r in a && q in b ==> r.day != q.day
    ensures Cut(SortNewest(Cut(a, n) + Cut(b, n)), n) == Cut(whole, n)
  {
    hide SortNewest, Listed;
    SortedParts(whole, a, b, n);
    var sorted := SortNewest(Cut(a, n) + Cut(b, n));
    SamePrefix(sorted, whole, if n < |whole| then n else |whole|);
    if |whole| <= n {
      SameRows(sorted, whole);
    }
  }

  /** What the reader returns is what its contract says, for All (skipped days too) and for one category. */
  method Rows(entries: seq<Row>, skips: seq<Row>, oneCategory: bool, before: Option<Day>, limit: nat,
              ghost whole: seq<Row>)
    returns (rows: seq<Row>)
    requires Listed(entries) && Listed(skips)
    requires forall r, q :: r in entries && q in skips ==> r.day != q.day
    requires IsWhole(whole, entries, if oneCategory then [] else skips)
    ensures rows == RowsOf(whole, before, limit)
  {
    rows := RowsOf(entries, before, limit);
    if oneCategory {
      SameRows(whole, entries);
    } else {
      OlderIsListed(entries, before);
      OlderIsListed(skips, before);
      OlderIsListed(whole, before);
      CutBeforeSort(Older(whole, before), Older(entries, before), Older(skips, before), limit);
      var skipped := RowsOf(skips, before, limit);
      rows := SortNewest(rows + skipped);
      if |rows| > limit {
        rows := rows[..limit];
      }
    }
  }
}
