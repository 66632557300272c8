/**
 * packages/dreamdex/src/indexer/outcome-balances.ts: the paged scan of an account's outcome balances. Fetching the
 * page at an offset yields its rows or fails; time-outs, timestamps and reason texts are left out.
 */
module OutcomeBalances {
  import opened Arithmetic
  import opened Ordering
  import opened Wrappers

  datatype Row = Row(id: string, account: string, outcomeIndex: nat, tokenId: nat, balance: nat, market: Option<string>)

  datatype Completeness = Complete | Partial | Failed

  datatype Failure = PageFailed(page: nat) | LimitReached(maxPages: nat)

  datatype Scan = Scan(
    completeness: Completeness, pageCount: nat, rowCount: nat, nextOffset: Option<nat>, positions: seq<Row>,
    failures: seq<Failure>)

  datatype RangeError = NotPositive(name: string)

  predicate HasId(rows: seq<Row>, id: string) {
    exists i :: 0 <= i < |rows| && rows[i].id == id
  }

  /** The first row of every id, in order of appearance. */
  function FirstById(rows: seq<Row>): seq<Row> {
    if rows == [] then []
    else
      var earlier, row := FirstById(rows[..|rows| - 1]), rows[|rows| - 1];
      if HasId(earlier, row.id) then earlier else earlier + [row]
  }

  predicate IdLeq(a: Row, b: Row) { Leq(a.id, b.id) }

  // ---- what the page loop reads ----

  /** Where a page begins. */
  function Offset(page: nat, pageSize: nat): nat {
    if page == 0 then 0 else Offset(page - 1, pageSize) + pageSize
  }

  lemma {:induction false} OffsetIsProduct(page: nat, pageSize: nat)
    ensures Offset(page, pageSize) == page * pageSize
  {
    if page > 0 {
      OffsetIsProduct(page - 1, pageSize);
      assert page * pageSize == (page - 1) * pageSize + pageSize;
    }
  }

  datatype Reading = Reading(pages: nat, rows: seq<Row>, exhausted: bool, failed: bool)

  /** From the offset on, at most `left` pages until one is short or fails. */
  function Read(fetch: nat -> Option<seq<Row>>, pageSize: nat, left: nat, offset: nat): Reading {
    if left == 0 then Reading(0, [], false, false)
    else
      match fetch(offset)
      case None => Reading(0, [], false, true)
      case Some(rows) =>
        if |rows| < pageSize then Reading(1, rows, true, false)
        else
          var rest := Read(fetch, pageSize, left - 1, offset + pageSize);
          Reading(1 + rest.pages, rows + rest.rows, rest.exhausted, rest.failed)
  }

  /** What was read before, followed by the rest. */
  function Before(pages: nat, rows: seq<Row>, rest: Reading): Reading {
    Reading(pages + rest.pages, rows + rest.rows, rest.exhausted, rest.failed)
  }

  /** The first pages are there and none of them is short. */
  ghost predicate FullPages(fetch: nat -> Option<seq<Row>>, pageSize: nat, pages: nat) {
    forall k :: 0 <= k < pages ==> FullPageAt(fetch, pageSize, k)
  }

  predicate FullPageAt(fetch: nat -> Option<seq<Row>>, pageSize: nat, k: nat) {
    fetch(Offset(k, pageSize)).Some? && |fetch(Offset(k, pageSize)).value| >= pageSize
  }

  /** The rows of the first pages. */
  function RowsOf(fetch: nat -> Option<seq<Row>>, pageSize: nat, pages: nat): seq<Row> {
    if pages == 0 then []
    else
      var earlier := RowsOf(fetch, pageSize, pages - 1);
      match fetch(Offset(pages - 1, pageSize)) case None => earlier case Some(rows) => earlier + rows
  }

  /** After full pages the reading goes on behind them. */
  lemma {:induction false} ReadsOn(fetch: nat -> Option<seq<Row>>, pageSize: nat, maxPages: nat, pages: nat)
    requires pages <= maxPages && FullPages(fetch, pageSize, pages)
    ensures Read(fetch, pageSize, maxPages, 0)
            == Before(pages, RowsOf(fetch, pageSize, pages),
                      Read(fetch, pageSize, maxPages - pages, Offset(pages, pageSize)))
  {
    if pages == 0 {
      var r := Read(fetch, pageSize, maxPages, 0);
      assert [] + r.rows == r.rows;
    } else {
      assert FullPageAt(fetch, pageSize, pages - 1);
      ReadsOn(fetch, pageSize, maxPages, pages - 1);
      var rows := fetch(Offset(pages - 1, pageSize)).value;
      var rest := Read(fetch, pageSize, maxPages - pages, Offset(pages, pageSize));
      var earlier := RowsOf(fetch, pageSize, pages - 1);
      assert earlier + (rows + rest.rows) == (earlier + rows) + rest.rows;
    }
  }

  lemma EndsAtLimit(fetch: nat -> Option<seq<Row>>, pageSize: nat, maxPages: nat)
    requires FullPages(fetch, pageSize, maxPages)
    ensures Read(fetch, pageSize, maxPages, 0) == Reading(maxPages, RowsOf(fetch, pageSize, maxPages), false, false)
  {
    ReadsOn(fetch, pageSize, maxPages, maxPages);
    var seen := RowsOf(fetch, pageSize, maxPages);
    assert seen + [] == seen;
  }

  lemma EndsInFailure(fetch: nat -> Option<seq<Row>>, pageSize: nat, maxPages: nat, page: nat)
    requires page < maxPages && FullPages(fetch, pageSize, page) && fetch(Offset(page, pageSize)).None?
    ensures Read(fetch, pageSize, maxPages, 0) == Reading(page, RowsOf(fetch, pageSize, page), false, true)
  {
    ReadsOn(fetch, pageSize, maxPages, page);
    var seen := RowsOf(fetch, pageSize, page);
    assert seen + [] == seen;
  }

  lemma EndsInShortPage(fetch: nat -> Option<seq<Row>>, pageSize: nat, maxPages: nat, page: nat)
    requires page < maxPages && FullPages(fetch, pageSize, page)
    requires fetch(Offset(page, pageSize)).Some? && |fetch(Offset(page, pageSize)).value| < pageSize
    ensures Read(fetch, pageSize, maxPages, 0) == Reading(page + 1, RowsOf(fetch, pageSize, page + 1), true, false)
  {
    ReadsOn(fetch, pageSize, maxPages, page);
  }

  method DiscoverOutcomeBalances(
    fetch: nat -> Option<seq<Row>>, pageSize: int, maxPages: int)
    returns (scan: Result<Scan, RangeError>)
    ensures scan.Err? <==> pageSize <= 0 || maxPages <= 0
    ensures scan.Ok? ==>
              var s, r := scan.value, Read(fetch, pageSize, maxPages, 0);
              && s.pageCount == r.pages && s.rowCount == |r.rows|
              && s.positions == SortBy(FirstById(r.rows), IdLeq)
              && s.completeness == (if r.exhausted then Complete else if s.positions != [] then Partial else Failed)
              && s.nextOffset == (if r.exhausted then None else Some(r.pages * pageSize))
              && s.failures
                 == (if r.exhausted then [] else if r.failed then [PageFailed(r.pages)] else [LimitReached(maxPages)])
  {
    if pageSize <= 0 {
      return Err(NotPositive("pageSize"));
    }
    if maxPages <= 0 {
      return Err(NotPositive("maxPages"));
    }
    var byId, pagesRead, rowsRead, nextOffset, exhausted, failures := ReadPages(fetch, pageSize, maxPages);
    OffsetIsProduct(pagesRead, pageSize);
    var positions := SortBy(byId, IdLeq);
    var completeness := if exhausted then Complete else if |positions| > 0 then Partial else Failed;
    if !exhausted && failures == [] {
      failures := failures + [LimitReached(maxPages)];
    }
    return Ok(Scan(completeness, pagesRead, rowsRead, nextOffset, positions, failures));
  }

  method ReadPages(fetch: nat -> Option<seq<Row>>, pageSize: nat, maxPages: nat)
    returns (byId: seq<Row>, pagesRead: nat, rowsRead: nat, nextOffset: Option<nat>, exhausted: bool,
             failures: seq<Failure>)
    ensures var r := Read(fetch, pageSize, maxPages, 0);
            && byId == FirstById(r.rows) && pagesRead == r.pages && rowsRead == |r.rows| && exhausted == r.exhausted
            && nextOffset == (if r.exhausted then None else Some(Offset(r.pages, pageSize)))
            && failures == if r.failed then [PageFailed(r.pages)] else []
    ensures exhausted ==> failures == []
  {
    byId, pagesRead, rowsRead := [], 0, 0;
    nextOffset, exhausted, failures := Some(0), false, [];
    var page := 0;
    while page < maxPages
      invariant page <= maxPages && pagesRead == page && !exhausted && failures == []
      invariant FullPages(fetch, pageSize, page) && nextOffset == Some(Offset(page, pageSize))
      invariant byId == FirstById(RowsOf(fetch, pageSize, page)) && rowsRead == |RowsOf(fetch, pageSize, page)|
    {
      var offset := Offset(page, pageSize);
      var fetched := fetch(offset);
      if fetched.None? {
        EndsInFailure(fetch, pageSize, maxPages, page);
        nextOffset := Some(offset);
        failures := failures + [PageFailed(page)];
        break;
      }
      var rows := fetched.value;
      pagesRead := pagesRead + 1;
      rowsRead := rowsRead + |rows|;
      byId := AddRows(byId, rows, RowsOf(fetch, pageSize, page));
      if |rows| < pageSize {
        EndsInShortPage(fetch, pageSize, maxPages, page);
        exhausted := true;
        nextOffset := None;
        break;
      }
      assert FullPageAt(fetch, pageSize, page);
      nextOffset := Some(offset + pageSize);
      page := page + 1;
    }
    if !exhausted && failures == [] {
      EndsAtLimit(fetch, pageSize, maxPages);
    }
  }

  /** `if (!byId.has(row.id)) byId.set(row.id, row)` for the rows of a page. */
  method AddRows(byId: seq<Row>, rows: seq<Row>, ghost seen: seq<Row>) returns (updated: seq<Row>)
    requires byId == FirstById(seen)
    ensures updated == FirstById(seen + rows)
  {
    updated := byId;
    assert seen + rows[..0] == seen;
    for i := 0 to |rows|
      invariant updated == FirstById(seen + rows[..i])
    {
      assert (seen + rows[..i + 1])[..|seen| + i] == seen + rows[..i];
      if !HasId(updated, rows[i].id) {
        updated := updated + [rows[i]];
      }
    }
    assert rows[..|rows|] == rows;
  }

  // ---- what the scan says about a fixed sequence of rows ----

  /** Row i is the first of its id. */
  ghost predicate IsFirst(rows: seq<Row>, i: nat) {
    i < |rows| && forall k :: 0 <= k < i ==> rows[k].id != rows[i].id
  }

  lemma {:induction false} KeptIsFirst(rows: seq<Row>, row: Row) returns (i: nat)
    requires row in FirstById(rows)
    ensures IsFirst(rows, i) && rows[i] == row
  {
    var n := |rows| - 1;
    var front := rows[..n];
    if row in FirstById(front) {
      i := KeptIsFirst(front, row);
    } else {
      i := n;
      forall k | 0 <= k < n ensures rows[k].id != rows[n].id {
        EveryIdKept(front, k);
      }
    }
  }

  lemma {:induction false} EveryIdKept(rows: seq<Row>, i: nat)
    requires i < |rows|
    ensures HasId(FirstById(rows), rows[i].id)
  {
    var n := |rows| - 1;
    var earlier, all := FirstById(rows[..n]), FirstById(rows);
    if i < n {
      EveryIdKept(rows[..n], i);
      var k :| 0 <= k < |earlier| && earlier[k].id == rows[i].id;
      assert all[k] == earlier[k];
    } else if !HasId(earlier, rows[n].id) {
      assert all[|earlier|] == rows[n];
    }
  }

  lemma {:induction false} FirstIsKept(rows: seq<Row>, i: nat)
    requires IsFirst(rows, i)
    ensures rows[i] in FirstById(rows)
  {
    var n := |rows| - 1;
    var front := rows[..n];
    if i < n {
      FirstIsKept(front, i);
    } else if HasId(FirstById(front), rows[n].id) {
      var k :| 0 <= k < |FirstById(front)| && FirstById(front)[k].id == rows[n].id;
      var j := KeptIsFirst(front, FirstById(front)[k]);
      assert false;
    }
  }

  function IdOf(row: Row): string { row.id }

  lemma {:induction false} FirstByIdDistinct(rows: seq<Row>)
    ensures Distinct(FirstById(rows), IdOf)
  {
    if rows != [] {
      FirstByIdDistinct(rows[..|rows| - 1]);
    }
  }

  /** Every id once, in ascending order. */
  ghost predicate Ascending(positions: seq<Row>) {
    forall i, j :: 0 <= i < j < |positions| ==>
                     Leq(positions[i].id, positions[j].id) && positions[i].id != positions[j].id
  }

  /** The positions are exactly the first row of every id read, in strictly ascending order of id. */
  lemma PositionsAreExact(rows: seq<Row>)
    ensures var positions := SortBy(FirstById(rows), IdLeq);
            && (forall row :: row in positions <==> exists i: nat :: IsFirst(rows, i) && rows[i] == row)
            && (forall i :: 0 <= i < |rows| ==> HasId(positions, rows[i].id))
            && Ascending(positions)
  {
    var first := FirstById(rows);
    var positions := SortBy(first, IdLeq);
    SortMultiset(first, IdLeq);
    SameElements(positions, first);
    forall row ensures row in positions <==> exists i: nat :: IsFirst(rows, i) && rows[i] == row {
      if row in positions {
        var i := KeptIsFirst(rows, row);
      }
      if i: nat :| IsFirst(rows, i) && rows[i] == row {
        FirstIsKept(rows, i);
      }
    }
    forall i | 0 <= i < |rows| ensures HasId(positions, rows[i].id) {
      EveryIdKept(rows, i);
      var k :| 0 <= k < |first| && first[k].id == rows[i].id;
      assert first[k] in positions;
    }
    FirstByIdDistinct(rows);
    SortDistinct(first, IdLeq, IdOf);
    IdsTotal();
    SortSorted(first, IdLeq);
    forall i, j | 0 <= i < j < |positions|
      ensures Leq(positions[i].id, positions[j].id) && positions[i].id != positions[j].id
    {
      assert IdLeq(positions[i], positions[j]) && IdOf(positions[i]) != IdOf(positions[j]);
    }
  }

  lemma IdsTotal()
    ensures TotalPreorder(IdLeq)
  {
    forall a: Row, b: Row ensures IdLeq(a, b) || IdLeq(b, a) {
      LeqTotal(a.id, b.id);
    }
    forall a: Row, b: Row, c: Row | IdLeq(a, b) && IdLeq(b, c) ensures IdLeq(a, c) {
      LeqTransitive(a.id, b.id, c.id);
    }
  }

  /** An indexer that serves slices of one fixed sequence, or fails. */
  function Table(rows: seq<Row>, pageSize: nat, fails: nat -> bool): nat -> Option<seq<Row>> {
    (offset: nat) => if fails(offset) then None
                     else if offset > |rows| then Some([])
                     else Some(rows[offset..Min(offset + pageSize, |rows|)])
  }

  lemma TablePage(rows: seq<Row>, pageSize: nat, fails: nat -> bool, offset: nat)
    requires pageSize > 0 && offset <= |rows| && !fails(offset)
    ensures Table(rows, pageSize, fails)(offset) == Some(rows[offset..Min(offset + pageSize, |rows|)])
    ensures |rows[offset..Min(offset + pageSize, |rows|)]| < pageSize <==> offset + pageSize > |rows|
  {}

  /** What is read from the offset on is the rows up to `end`, cut off at the last row. */
  ghost predicate ReadsUpTo(rows: seq<Row>, fails: nat -> bool, left: nat, offset: nat, r: Reading, end: nat)
    requires offset <= |rows| && offset <= end
  {
    && r.rows == rows[offset..Min(end, |rows|)]
    && (r.exhausted <==> end > |rows|)
    && (r.failed ==> r.pages < left && fails(end))
    && (!r.exhausted && !r.failed ==> r.pages == left)
  }

  lemma {:induction false} OffsetFromFirst(pages: nat, pageSize: nat)
    ensures Offset(pages + 1, pageSize) == pageSize + Offset(pages, pageSize)
  {
    if pages > 0 {
      OffsetFromFirst(pages - 1, pageSize);
    }
  }

  lemma OnePageMore(rows: seq<Row>, pageSize: nat, fails: nat -> bool, left: nat, offset: nat, rest: Reading, end: nat)
    requires left > 0 && offset + pageSize <= |rows| && offset + pageSize <= end
    requires ReadsUpTo(rows, fails, left - 1, offset + pageSize, rest, end)
    ensures ReadsUpTo(rows, fails, left, offset,
                      Reading(1 + rest.pages, rows[offset..offset + pageSize] + rest.rows, rest.exhausted, rest.failed),
                      end)
  {}

  lemma NoPageMore(rows: seq<Row>, pageSize: nat, fails: nat -> bool, left: nat, offset: nat)
    requires offset <= |rows| && (left == 0 || fails(offset))
    ensures ReadsUpTo(rows, fails, left, offset, Read(Table(rows, pageSize, fails), pageSize, left, offset), offset)
    ensures Read(Table(rows, pageSize, fails), pageSize, left, offset).pages == 0
  {
    assert rows[offset..offset] == [];
  }

  lemma FullPage(rows: seq<Row>, pageSize: nat, fails: nat -> bool, left: nat, offset: nat) returns (rest: Reading)
    requires offset + pageSize <= |rows| && left > 0 && !fails(offset)
    ensures rest == Read(Table(rows, pageSize, fails), pageSize, left - 1, offset + pageSize)
    ensures Read(Table(rows, pageSize, fails), pageSize, left, offset)
            == Reading(1 + rest.pages, rows[offset..offset + pageSize] + rest.rows, rest.exhausted, rest.failed)
  {
    rest := Read(Table(rows, pageSize, fails), pageSize, left - 1, offset + pageSize);
    assert Table(rows, pageSize, fails)(offset) == Some(rows[offset..offset + pageSize]);
  }

  lemma LastPage(rows: seq<Row>, pageSize: nat, fails: nat -> bool, left: nat, offset: nat)
    requires offset <= |rows| < offset + pageSize && left > 0 && !fails(offset)
    ensures Read(Table(rows, pageSize, fails), pageSize, left, offset) == Reading(1, rows[offset..], true, false)
    ensures ReadsUpTo(rows, fails, left, offset, Reading(1, rows[offset..], true, false), offset + pageSize)
  {
    TablePage(rows, pageSize, fails, offset);
  }

  /** All the pages read from an offset on, up to where they end. */
  ghost predicate ReadsPages(rows: seq<Row>, pageSize: nat, fails: nat -> bool, left: nat, offset: nat) {
    && offset <= |rows|
    && var r := Read(Table(rows, pageSize, fails), pageSize, left, offset);
       ReadsUpTo(rows, fails, left, offset, r, offset + Offset(r.pages, pageSize))
  }

  lemma FullPageReads(rows: seq<Row>, pageSize: nat, fails: nat -> bool, left: nat, offset: nat)
    requires offset + pageSize <= |rows| && left > 0 && !fails(offset)
    requires ReadsPages(rows, pageSize, fails, left - 1, offset + pageSize)
    ensures ReadsPages(rows, pageSize, fails, left, offset)
  {
    var rest := FullPage(rows, pageSize, fails, left, offset);
    OffsetFromFirst(rest.pages, pageSize);
    OnePageMore(rows, pageSize, fails, left, offset, rest, offset + pageSize + Offset(rest.pages, pageSize));
  }

  lemma {:induction false} ReadsPrefix(rows: seq<Row>, pageSize: nat, fails: nat -> bool, left: nat, offset: nat)
    requires pageSize > 0 && offset <= |rows|
    ensures ReadsPages(rows, pageSize, fails, left, offset)
    decreases left
  {
    if left == 0 || fails(offset) {
      NoPageMore(rows, pageSize, fails, left, offset);
    } else if offset + pageSize <= |rows| {
      ReadsPrefix(rows, pageSize, fails, left - 1, offset + pageSize);
      FullPageReads(rows, pageSize, fails, left, offset);
    } else {
      LastPage(rows, pageSize, fails, left, offset);
      OffsetFromFirst(0, pageSize);
    }
  }

  /** The rows in front of `next` were read and no others, and whether they are all. */
  ghost predicate Scanned(rows: seq<Row>, fails: nat -> bool, maxPages: nat, r: Reading, next: nat) {
    && r.rows == rows[..Min(next, |rows|)]
    && (r.exhausted <==> next > |rows|) && (r.exhausted ==> r.rows == rows)
    && (!r.exhausted ==> next <= |rows| && r.rows + rows[next..] == rows)
    && (r.failed ==> fails(next)) && (!r.exhausted && !r.failed ==> r.pages == maxPages)
  }

  lemma ReadsUpToIsScanned(rows: seq<Row>, fails: nat -> bool, maxPages: nat, r: Reading, next: nat)
    requires ReadsUpTo(rows, fails, maxPages, 0, r, next)
    ensures Scanned(rows, fails, maxPages, r, next)
  {
    assert rows[0..Min(next, |rows|)] == rows[..Min(next, |rows|)];
    if r.exhausted {
      assert rows[..|rows|] == rows;
    } else {
      assert rows[..next] + rows[next..] == rows;
    }
  }

  /**
   * Against a fixed sequence of rows, whichever pages fail: the scan has read exactly the first pages * pageSize
   * rows, or all of them; it is complete if and only if it asked past the last row, and then no row is missing;
   * otherwise the rows from the next offset on are exactly those it has not read.
   */
  lemma ScanIsExact(rows: seq<Row>, pageSize: nat, fails: nat -> bool, maxPages: nat)
    requires pageSize > 0 && maxPages > 0
    ensures var r := Read(Table(rows, pageSize, fails), pageSize, maxPages, 0);
            Scanned(rows, fails, maxPages, r, r.pages * pageSize)
  {
    var r := Read(Table(rows, pageSize, fails), pageSize, maxPages, 0);
    ReadsPrefix(rows, pageSize, fails, maxPages, 0);
    ReadsUpToIsScanned(rows, fails, maxPages, r, Offset(r.pages, pageSize));
    OffsetIsProduct(r.pages, pageSize);
  }
}
