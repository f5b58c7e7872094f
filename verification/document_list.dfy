/** The document table: the request it sends for the current page and
    sort, what it reads back from the response, and its footer. Its check
    box handlers, range text and page buttons are the ones of the project
    file table. */
module DocumentList {
  import opened Common
  import opened ProjectFilesList
  import DocumentsService

  /** One entry of the table's sorting state: a column id and a
      descending flag; the entry has no `direction` property. */
  datatype SortEntry = SortEntry(id: string, desc: bool)

  /** The request as written: the sort column, or "name"; the sort order
      reads the entry's missing `direction` property, which is undefined,
      or "asc" when nothing is sorted. */
  function RequestAsWritten(p: Pagination, sorting: seq<SortEntry>, filterReview: bool)
    : (a: DocumentsService.FetchArgs)
    ensures a.page == Some(p.pageIndex + 1) && a.pageSize == Some(p.pageSize as int)
    ensures a.sortBy == Some(if |sorting| > 0 then sorting[0].id else "name")
    ensures a.sortOrder == (if |sorting| > 0 then None else Some("asc"))
    ensures a.filterReview == Some(filterReview)
  {
    DocumentsService.FetchArgs(
      Some(p.pageIndex + 1),
      Some(p.pageSize as int),
      Some(if |sorting| > 0 then sorting[0].id else "name"),
      if |sorting| > 0 then None else Some("asc"),
      Some(filterReview))
  }

  /** As written the service always receives the ascending order: a
      column sorted descending is still fetched ascending. */
  lemma {:induction false} DescendingIsNeverRequested(p: Pagination, sorting: seq<SortEntry>, filterReview: bool)
    ensures DocumentsService.WithDefaults(RequestAsWritten(p, sorting, filterReview)).sortOrder == "asc"
  {
  }

  /** The evidently intended request: the order follows the entry's
      descending flag. */
  function Request(p: Pagination, sorting: seq<SortEntry>, filterReview: bool)
    : (a: DocumentsService.FetchArgs)
    ensures a.page == Some(p.pageIndex + 1) && a.pageSize == Some(p.pageSize as int)
    ensures a.sortBy == Some(if |sorting| > 0 then sorting[0].id else "name")
    ensures a.filterReview == Some(filterReview)
  {
    RequestAsWritten(p, sorting, filterReview).(
      sortOrder := Some(if |sorting| > 0 && sorting[0].desc then "desc" else "asc"))
  }

  /** With the corrected request the service's order is "desc" exactly when
      the first sort entry is descending, and with nothing sorted the
      service sorts by name, ascending, on page pageIndex + 1. */
  lemma RequestFollowsSorting(p: Pagination, sorting: seq<SortEntry>, filterReview: bool)
    ensures var r := DocumentsService.WithDefaults(Request(p, sorting, filterReview));
            && (r.sortOrder == "desc" <==> |sorting| > 0 && sorting[0].desc)
            && (r.sortOrder == "asc" <==> !(|sorting| > 0 && sorting[0].desc))
            && (|sorting| == 0 ==> r.sortBy == "name" && r.sortOrder == "asc")
            && r.page == p.pageIndex + 1 && r.pageSize == p.pageSize && r.filterReview == filterReview
  {
  }

  /** A column sorted by name, descending, with the corrected request and
      a consistent string order, lists the names in descending order. */
  lemma DescendingNameSortIsHonoured(all: seq<DocumentsService.Document>, p: Pagination,
                                     sorting: seq<SortEntry>, filterReview: bool,
                                     lc: (string, string) -> int)
    requires |sorting| > 0 && sorting[0] == SortEntry("name", true)
    requires TotalPreorder(lc)
    ensures var s := DocumentsService.SortedDocuments(all, DocumentsService.WithDefaults(Request(p, sorting, filterReview)), lc);
            forall i, j :: 0 <= i < j < |s| ==> lc(s[j].name, s[i].name) <= 0
  {
    DocumentsService.NameSortOrder(all, DocumentsService.WithDefaults(Request(p, sorting, filterReview)), lc);
  }

  /** What the table reads from the query result: the rows, the page count
      and the total, each empty or 0 when the result or its meta is
      missing. */
  datatype View = View(data: seq<DocumentsService.Document>, pageCount: nat, totalCount: nat)

  function ViewOf(result: Option<DocumentsService.PaginatedResponse>): (v: View)
    ensures result.None? ==> v == View([], 0, 0)
    ensures result.Some? ==> v.data == result.value.data && v.pageCount == result.value.meta.pageCount
                             && v.totalCount == result.value.meta.total
  {
    match result
    case None => View([], 0, 0)
    case Some(r) => View(r.data, r.meta.pageCount, r.meta.total)
  }

  /** Without a result there are no page buttons and the range ends at 0. */
  lemma MissingResultShowsNoPages(p: Pagination)
    ensures RenderedPages(p.pageIndex, ViewOf(None).pageCount) == []
    ensures CorrectedWindow(p.pageIndex, ViewOf(None).pageCount) == []
    ensures RangeEnd(p, ViewOf(None).totalCount) == 0
  {
    assert WindowNumbers(p.pageIndex, 0) == [];
  }

  /** For the page the table asks for, the footer's range counts exactly
      the rows the service returns, and never passes the total. */
  lemma {:induction false} RangeMatchesFetchedPage(all: seq<DocumentsService.Document>, p: Pagination,
                                                   sorting: seq<SortEntry>, filterReview: bool,
                                                   lc: (string, string) -> int)
    requires p.pageSize > 0
    ensures var req := DocumentsService.WithDefaults(Request(p, sorting, filterReview));
            var v := ViewOf(Some(DocumentsService.FetchDocuments(all, req, lc)));
            && RangeEnd(p, v.totalCount) <= v.totalCount
            && (p.pageIndex < v.pageCount ==> RangeEnd(p, v.totalCount) - RangeStart(p) + 1 == |v.data|)
  {
    var req := DocumentsService.WithDefaults(Request(p, sorting, filterReview));
    var sorted := DocumentsService.SortedDocuments(all, req, lc);
    DocumentsService.PagesReassembleSortedList(all, req, lc);
    RangeCountsPageRows(p, sorted);
  }
}
