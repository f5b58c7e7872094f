/** The file table of a project: the select-all and per-row check boxes,
    which replace a selection of ids held by the page, and the pagination
    footer (page count, "Showing a to b of n" and up to five page-number
    buttons). The document table repeats the same handlers and footer. */
module ProjectFilesList {
  import opened Common

  /** The selection the table receives: normally an array of ids; the
      handlers also cope with a value that is not an array. */
  datatype Selection = Ids(ids: seq<string>) | NotAnArray

  /** The selection as an array: a non-array counts as empty. */
  function SafeIds(s: Selection): seq<string> {
    match s
    case Ids(ids) => ids
    case NotAnArray => []
  }

  /** Every row id is in the list. */
  function AllIn(rows: seq<string>, ids: seq<string>): (r: bool)
    ensures r <==> forall i :: 0 <= i < |rows| ==> rows[i] in ids
  {
    if rows == [] then true else rows[0] in ids && AllIn(rows[1..], ids)
  }

  /** The header box is checked when there are rows and all are selected. */
  function HeaderChecked(rows: seq<string>, s: Selection): (r: bool)
    ensures r <==> |rows| > 0 && forall i :: 0 <= i < |rows| ==> rows[i] in SafeIds(s)
  {
    |rows| > 0 && AllIn(rows, SafeIds(s))
  }

  function RowChecked(id: string, s: Selection): bool {
    id in SafeIds(s)
  }

  /** The selection after the header box is toggled: all row ids, in row
      order, or nothing. */
  function HeaderToggled(rows: seq<string>, value: bool): Selection {
    if value then Ids(rows) else Ids([])
  }

  /** The selection after a row box is toggled: checking appends the id
      (even when present); unchecking removes every occurrence of it, and
      turns a non-array into an empty array. */
  function RowToggled(prev: Selection, id: string, value: bool): (r: Selection)
    ensures r.Ids?
  {
    if value then Ids(SafeIds(prev) + [id])
    else match prev
      case Ids(ids) => Ids(Filter(ids, (x: string) => x != id))
      case NotAnArray => Ids([])
  }

  /** Checking the header box checks it (when there are rows), and every row
      box with it; unchecking it unchecks every row box. */
  lemma HeaderToggleRoundTrip(rows: seq<string>, id: string)
    ensures |rows| > 0 ==> HeaderChecked(rows, HeaderToggled(rows, true))
    ensures id in rows <==> RowChecked(id, HeaderToggled(rows, true))
    ensures !HeaderChecked(rows, HeaderToggled(rows, false)) && !RowChecked(id, HeaderToggled(rows, false))
  {
  }

  /** Checking a row adds one occurrence of its id and nothing else;
      unchecking it removes all its occurrences and keeps every other id. */
  lemma {:induction false} RowToggleCounts(prev: Selection, id: string, x: string)
    ensures multiset(SafeIds(RowToggled(prev, id, true)))[x] ==
            multiset(SafeIds(prev))[x] + (if x == id then 1 else 0)
    ensures multiset(SafeIds(RowToggled(prev, id, false)))[x] ==
            if x == id then 0 else multiset(SafeIds(prev))[x]
    ensures RowChecked(id, RowToggled(prev, id, true)) && !RowChecked(id, RowToggled(prev, id, false))
  {
    if prev.Ids? {
      FilterCount(prev.ids, (y: string) => y != id, x);
      FilterMembers(prev.ids, (y: string) => y != id);
    }
  }

  /** The selection state held by the page, replaced by the handlers. */
  class SelectionState {
    var selected: Selection

    constructor (initial: Selection)
      ensures selected == initial
    {
      selected := initial;
    }

    /** The header box's handler. */
    method ToggleHeader(rows: seq<string>, value: bool)
      modifies this
      ensures selected == HeaderToggled(rows, value)
      ensures value && |rows| > 0 ==> HeaderChecked(rows, selected)
      ensures !value ==> SafeIds(selected) == []
    {
      selected := HeaderToggled(rows, value);
    }

    /** A row box's handler. */
    method ToggleRow(id: string, value: bool)
      modifies this
      ensures selected == RowToggled(old(selected), id, value)
      ensures RowChecked(id, selected) == value
    {
      RowToggleCounts(selected, id, id);
      selected := RowToggled(selected, id, value);
    }
  }

  // ---------------------------------------------------------------------
  // Pagination footer.

  /** The table's pagination state; it starts at the first page (index 0)
      with 25 rows per page. */
  datatype Pagination = Pagination(pageIndex: nat, pageSize: nat)

  const InitialPagination := Pagination(0, 25)

  /** Math.ceil(rows / pageSize). */
  function PageCount(rowCount: nat, pageSize: int): (r: nat)
    requires pageSize > 0
    ensures r * pageSize >= rowCount && (r == 0 || (r - 1) * pageSize < rowCount)
  {
    CeilDiv(rowCount, pageSize)
  }

  /** The first number of "Showing a to b of n". */
  function RangeStart(p: Pagination): (r: int)
    ensures r >= 1
  {
    p.pageIndex * p.pageSize + 1
  }

  /** The second number of "Showing a to b of n". */
  function RangeEnd(p: Pagination, total: nat): (r: int)
    ensures r <= total
  {
    Min((p.pageIndex + 1) * p.pageSize, total)
  }

  /** The range never passes the total; on an existing page it runs from
      the first to the last row of that page, so it counts exactly the rows
      the page holds; on an empty list it reads "1 to 0". */
  lemma {:induction false} RangeCountsPageRows<T>(p: Pagination, rows: seq<T>)
    requires p.pageSize > 0
    ensures RangeEnd(p, |rows|) <= |rows|
    ensures RangeStart(p) - 1 == PageStart(p.pageIndex + 1, p.pageSize)
    ensures p.pageIndex < PageCount(|rows|, p.pageSize) ==>
              1 <= RangeStart(p) <= RangeEnd(p, |rows|)
              && RangeEnd(p, |rows|) - RangeStart(p) + 1 == |Page(rows, p.pageIndex + 1, p.pageSize)|
    ensures |rows| == 0 ==> RangeStart(p) >= 1 && RangeEnd(p, |rows|) == 0
  {
    var n := |rows|;
    var start := PageStart(p.pageIndex + 1, p.pageSize);
    assert start == p.pageIndex * p.pageSize;
    assert start + p.pageSize == (p.pageIndex + 1) * p.pageSize;
    if p.pageIndex < PageCount(n, p.pageSize) {
      MulMono(p.pageIndex, PageCount(n, p.pageSize) - 1, p.pageSize);
    }
  }

  /** The number on button `index` (0 to 4) as the footer computes it:
      the first five pages near the start, the last five near the end, and
      otherwise two pages either side of the current one. */
  function PageNumber(pageIndex: nat, pageCount: nat, index: nat): int {
    if pageIndex < 2 then index + 1
    else if pageIndex > pageCount - 3 then pageCount - 4 + index
    else pageIndex - 1 + index
  }

  /** The numbers computed for the min(5, pageCount) buttons. */
  function WindowNumbers(pageIndex: nat, pageCount: nat): (r: seq<int>)
    ensures |r| == Min(5, pageCount)
    ensures forall k :: 0 <= k < |r| ==> r[k] == PageNumber(pageIndex, pageCount, k)
  {
    seq(Min(5, pageCount), k requires 0 <= k => PageNumber(pageIndex, pageCount, k))
  }

  /** The page buttons rendered, as written: a number is dropped only when
      it exceeds the page count. */
  function RenderedPages(pageIndex: nat, pageCount: nat): (r: seq<int>)
    ensures forall i :: 0 <= i < |r| ==> r[i] <= pageCount
  {
    Filter(WindowNumbers(pageIndex, pageCount), (n: int) => n <= pageCount)
  }

  /** At most min(5, pageCount) buttons, none past the last page. */
  lemma RenderedPagesBounded(pageIndex: nat, pageCount: nat)
    ensures |RenderedPages(pageIndex, pageCount)| <= Min(5, pageCount)
    ensures forall n :: n in RenderedPages(pageIndex, pageCount) ==> n <= pageCount
  {
    FilterMembers(WindowNumbers(pageIndex, pageCount), (n: int) => n <= pageCount);
  }

  /** Five consecutive page numbers, the first at least 1 and the last at
      most pageCount, one of them the current page. */
  ghost predicate GoodWindow(w: seq<int>, pageIndex: nat, pageCount: nat) {
    && |w| == Min(5, pageCount)
    && (forall k :: 0 <= k < |w| ==> 1 <= w[k] <= pageCount)
    && (forall k :: 0 < k < |w| ==> w[k] == w[k - 1] + 1)
    && pageIndex + 1 in w
  }

  /** With at least five pages, the buttons as written are five
      consecutive pages around the current one. */
  lemma {:induction false} FullWindowIsGood(pageIndex: nat, pageCount: nat)
    requires pageCount >= 5 && pageIndex < pageCount
    ensures RenderedPages(pageIndex, pageCount) == WindowNumbers(pageIndex, pageCount)
    ensures GoodWindow(RenderedPages(pageIndex, pageCount), pageIndex, pageCount)
  {
    var w := WindowNumbers(pageIndex, pageCount);
    FilterKeepsAll(w, (n: int) => n <= pageCount);
    var k := if pageIndex < 2 then pageIndex
             else if pageIndex > pageCount - 3 then pageIndex + 1 - (pageCount - 4)
             else 2;
    assert w[k] == pageIndex + 1;
  }

  /** As written, a short list shown at its third page or later gets
      buttons numbered 0 or below: page 3 of 3 shows -1, 0 and 1. */
  lemma {:induction false} ShortListShowsNonPositivePages()
    ensures RenderedPages(2, 3) == [-1, 0, 1]
  {
    var w := WindowNumbers(2, 3);
    assert w == [-1, 0, 1];
    FilterKeepsAll(w, (n: int) => n <= 3);
  }

  /** Whenever there are fewer than five pages and the current one is the
      third or later, the first button computed is a page below 1. */
  lemma ShortListWindowStartsBelowOne(pageIndex: nat, pageCount: nat)
    requires 1 <= pageCount < 5 && pageIndex >= 2
    ensures var w := WindowNumbers(pageIndex, pageCount);
            w[0] <= 0 && w[0] in RenderedPages(pageIndex, pageCount)
  {
    var w := WindowNumbers(pageIndex, pageCount);
    FilterMembers(w, (n: int) => n <= pageCount);
  }

  /** The evidently intended window: the same rule with the first number
      kept at 1 or above. */
  function CorrectedWindowStart(pageIndex: nat, pageCount: nat): int {
    if pageIndex < 2 then 1
    else if pageIndex > pageCount - 3 then (if pageCount - 4 < 1 then 1 else pageCount - 4)
    else pageIndex - 1
  }

  function CorrectedWindow(pageIndex: nat, pageCount: nat): (r: seq<int>)
    ensures |r| == Min(5, pageCount)
    ensures forall k :: 0 <= k < |r| ==> r[k] == CorrectedWindowStart(pageIndex, pageCount) + k
  {
    seq(Min(5, pageCount), k requires 0 <= k => CorrectedWindowStart(pageIndex, pageCount) + k)
  }

  /** The corrected window is always good for an existing page. */
  lemma {:induction false} CorrectedWindowIsGood(pageIndex: nat, pageCount: nat)
    requires pageIndex < pageCount
    ensures GoodWindow(CorrectedWindow(pageIndex, pageCount), pageIndex, pageCount)
  {
    var w := CorrectedWindow(pageIndex, pageCount);
    var start := CorrectedWindowStart(pageIndex, pageCount);
    assert w[pageIndex + 1 - start] == pageIndex + 1;
  }

  /** With five pages or more the correction changes nothing. */
  lemma CorrectedWindowAgrees(pageIndex: nat, pageCount: nat)
    requires pageCount >= 5 && pageIndex < pageCount
    ensures CorrectedWindow(pageIndex, pageCount) == RenderedPages(pageIndex, pageCount)
  {
    FullWindowIsGood(pageIndex, pageCount);
  }
}
