/** The mock documents query: the document list is filtered for review,
    sorted with a comparator chosen by the request, and cut into pages.
    The document list itself (a bundled data file) is a parameter, and so
    is the locale string comparison, taken as an arbitrary comparator. */
module DocumentsService {
  import opened Common

  datatype Document = Document(
    id: string,
    name: string,
    kind: Kind,
    formType: Option<string>,
    status: Option<FormStatus>,
    project: Option<string>,
    reviewed: Option<bool>)

  /** The request as the function receives it: any field may be undefined. */
  datatype FetchArgs = FetchArgs(
    page: Option<int>,
    pageSize: Option<int>,
    sortBy: Option<string>,
    sortOrder: Option<string>,
    filterReview: Option<bool>)

  /** The request after the parameter defaults are applied. */
  datatype Request = Request(page: int, pageSize: int, sortBy: string, sortOrder: string, filterReview: bool)

  datatype Meta = Meta(total: nat, pageCount: nat, page: int, pageSize: int)

  datatype PaginatedResponse = PaginatedResponse(data: seq<Document>, meta: Meta)

  /** Each undefined field takes its default: page 1, pageSize 25, sortBy
      "name", sortOrder "asc", no review filter. */
  function WithDefaults(a: FetchArgs): (r: Request)
    ensures r.page == (if a.page.Some? then a.page.value else 1)
    ensures r.pageSize == (if a.pageSize.Some? then a.pageSize.value else 25)
    ensures r.sortBy == (if a.sortBy.Some? then a.sortBy.value else "name")
    ensures r.sortOrder == (if a.sortOrder.Some? then a.sortOrder.value else "asc")
    ensures r.filterReview == (a.filterReview == Some(true))
  {
    Request(a.page.GetOr(1), a.pageSize.GetOr(25), a.sortBy.GetOr("name"),
            a.sortOrder.GetOr("asc"), a.filterReview.GetOr(false))
  }

  /** A file that has not been reviewed. */
  predicate NeedsReview(d: Document) {
    d.kind == FileKind && !IsTrue(d.reviewed)
  }

  /** The documents the query works on. */
  function Considered(all: seq<Document>, filterReview: bool): (r: seq<Document>)
    ensures filterReview ==> forall d :: d in r <==> d in all && NeedsReview(d)
    ensures filterReview ==> forall i :: 0 <= i < |r| ==> r[i].kind == FileKind && !IsTrue(r[i].reviewed)
    ensures !filterReview ==> r == all
  {
    if filterReview then
      FilterMembers(all, NeedsReview);
      Filter(all, NeedsReview)
    else all
  }

  /** Under the review filter each unreviewed file is considered as often
      as it occurs in the list, and nothing else is; so the total counts
      occurrences, not distinct documents. */
  lemma ConsideredCounts(all: seq<Document>, d: Document)
    ensures multiset(Considered(all, true))[d] == if NeedsReview(d) then multiset(all)[d] else 0
  {
    FilterCount(all, NeedsReview, d);
  }

  function KindText(k: Kind): string {
    match k
    case FileKind => "file"
    case FolderKind => "folder"
  }

  function StatusText(s: FormStatus): string {
    match s
    case FormCompleted => "Completed"
    case FormPending => "Pending"
    case FormNotStarted => "Not Started"
  }

  /** The document's property named `field` when it is a string; None when
      it is undefined or of another type. */
  function FieldText(d: Document, field: string): Option<string> {
    if field == "id" then Some(d.id)
    else if field == "name" then Some(d.name)
    else if field == "type" then Some(KindText(d.kind))
    else if field == "formType" then d.formType
    else if field == "status" then (if d.status.Some? then Some(StatusText(d.status.value)) else None)
    else if field == "project" then d.project
    else None
  }

  function ReviewRank(d: Document): int {
    if IsTrue(d.reviewed) then 1 else 0
  }

  /** The sort comparator's value for two documents. Sorting by "reviewed"
      compares the 0/1 review ranks; any other field compares the two
      strings with `lc` when both documents have it as a string, and calls
      them equal otherwise. Any order other than "asc" sorts descending. */
  function CompareDocuments(sortBy: string, sortOrder: string, lc: (string, string) -> int,
                            a: Document, b: Document): int
  {
    if sortBy == "reviewed" then
      (if sortOrder == "asc" then ReviewRank(a) - ReviewRank(b) else ReviewRank(b) - ReviewRank(a))
    else
      match (FieldText(a, sortBy), FieldText(b, sortBy))
      case (Some(x), Some(y)) => if sortOrder == "asc" then lc(x, y) else lc(y, x)
      case _ => 0
  }

  /** Any order other than "asc" compares the two documents the other way
      round, and a document without the field as a string ties with any
      other. */
  lemma ComparisonDirection(sortBy: string, sortOrder: string, lc: (string, string) -> int,
                            a: Document, b: Document)
    ensures sortOrder != "asc" ==>
      CompareDocuments(sortBy, sortOrder, lc, a, b) == CompareDocuments(sortBy, "asc", lc, b, a)
    ensures sortBy != "reviewed" && (FieldText(a, sortBy).None? || FieldText(b, sortBy).None?) ==>
      CompareDocuments(sortBy, sortOrder, lc, a, b) == 0
  {
  }

  function Comparator(sortBy: string, sortOrder: string, lc: (string, string) -> int)
    : (Document, Document) -> int
  {
    (a: Document, b: Document) => CompareDocuments(sortBy, sortOrder, lc, a, b)
  }

  function SortedDocuments(all: seq<Document>, req: Request, lc: (string, string) -> int): seq<Document> {
    Sort(Considered(all, req.filterReview), Comparator(req.sortBy, req.sortOrder, lc))
  }

  /** fetchDocuments without its simulated delay. */
  function FetchDocuments(all: seq<Document>, req: Request, lc: (string, string) -> int)
    : (r: PaginatedResponse)
    requires req.pageSize > 0
    ensures r.meta.total == |Considered(all, req.filterReview)|
    ensures r.meta.pageCount * req.pageSize >= r.meta.total
    ensures r.meta.pageCount == 0 || (r.meta.pageCount - 1) * req.pageSize < r.meta.total
    ensures r.meta.page == req.page && r.meta.pageSize == req.pageSize
    ensures |r.data| <= req.pageSize
    ensures req.page >= 1 ==>
      r.data == SortedDocuments(all, req, lc)[Min(PageStart(req.page, req.pageSize), r.meta.total)
                                             ..Min(PageStart(req.page, req.pageSize) + req.pageSize, r.meta.total)]
  {
    var sorted := SortedDocuments(all, req, lc);
    var total := |sorted|;
    PaginatedResponse(Page(sorted, req.page, req.pageSize),
                      Meta(total, CeilDiv(total, req.pageSize), req.page, req.pageSize))
  }

  /** The sorted list holds exactly the considered documents. */
  lemma SortIsPermutation(all: seq<Document>, req: Request, lc: (string, string) -> int)
    ensures multiset(SortedDocuments(all, req, lc)) == multiset(Considered(all, req.filterReview))
  {
  }

  /** The total depends only on the document list and the review filter,
      not on the page, the page size or the sort. */
  lemma TotalIgnoresPagingAndSort(all: seq<Document>, r1: Request, r2: Request,
                                  lc1: (string, string) -> int, lc2: (string, string) -> int)
    requires r1.pageSize > 0 && r2.pageSize > 0
    requires r1.filterReview == r2.filterReview
    ensures FetchDocuments(all, r1, lc1).meta.total == FetchDocuments(all, r2, lc2).meta.total
  {
  }

  /** A page past the last one is empty. */
  lemma PageBeyondCountIsEmpty(all: seq<Document>, req: Request, lc: (string, string) -> int)
    requires req.pageSize > 0
    requires req.page > FetchDocuments(all, req, lc).meta.pageCount
    ensures FetchDocuments(all, req, lc).data == []
  {
    PageBeyondLastIsEmpty(SortedDocuments(all, req, lc), req.page, req.pageSize);
  }

  /** Every page the query returns is the corresponding page of one sorted
      list, whatever the page number; and pages 1 to pageCount of that list,
      concatenated, give back the whole list. */
  lemma PagesReassembleSortedList(all: seq<Document>, req: Request, lc: (string, string) -> int)
    requires req.pageSize > 0
    ensures var sorted := SortedDocuments(all, req, lc);
            && (forall p :: FetchDocuments(all, req.(page := p), lc).data == Page(sorted, p, req.pageSize))
            && Pages(sorted, req.pageSize, FetchDocuments(all, req, lc).meta.pageCount) == sorted
  {
    var sorted := SortedDocuments(all, req, lc);
    forall p ensures FetchDocuments(all, req.(page := p), lc).data == Page(sorted, p, req.pageSize) {
      assert SortedDocuments(all, req.(page := p), lc) == sorted;
    }
    AllPagesGiveList(sorted, req.pageSize);
  }

  /** The "reviewed" comparator is consistent in either direction. */
  lemma ReviewComparatorConsistent(sortOrder: string, lc: (string, string) -> int)
    ensures TotalPreorder(Comparator("reviewed", sortOrder, lc))
  {
  }

  /** Sorting by "reviewed" ascending puts every unreviewed document before
      every reviewed one; any other order does the reverse. */
  lemma ReviewedSortOrder(all: seq<Document>, req: Request, lc: (string, string) -> int)
    requires req.sortBy == "reviewed"
    ensures var s := SortedDocuments(all, req, lc);
            forall i, j :: 0 <= i < j < |s| ==>
              if req.sortOrder == "asc" then (IsTrue(s[i].reviewed) ==> IsTrue(s[j].reviewed))
              else (IsTrue(s[j].reviewed) ==> IsTrue(s[i].reviewed))
  {
    var cmp := Comparator(req.sortBy, req.sortOrder, lc);
    var s := SortedDocuments(all, req, lc);
    assert SortedBy(s, cmp) by {
      ReviewComparatorConsistent(req.sortOrder, lc);
      SortSorted(Considered(all, req.filterReview), cmp);
    }
    forall i, j | 0 <= i < j < |s|
      ensures if req.sortOrder == "asc" then (IsTrue(s[i].reviewed) ==> IsTrue(s[j].reviewed))
              else (IsTrue(s[j].reviewed) ==> IsTrue(s[i].reviewed))
    {
      assert CompareDocuments(req.sortBy, req.sortOrder, lc, s[i], s[j]) <= 0;
    }
  }

  /** With a consistent string order, sorting by name (the default) orders
      the names: ascending for "asc", descending otherwise. */
  lemma NameSortOrder(all: seq<Document>, req: Request, lc: (string, string) -> int)
    requires req.sortBy == "name"
    requires TotalPreorder(lc)
    ensures var s := SortedDocuments(all, req, lc);
            forall i, j :: 0 <= i < j < |s| ==>
              if req.sortOrder == "asc" then lc(s[i].name, s[j].name) <= 0
              else lc(s[j].name, s[i].name) <= 0
  {
    var cmp := Comparator(req.sortBy, req.sortOrder, lc);
    assert TotalPreorder(cmp);
    SortSorted(Considered(all, req.filterReview), cmp);
  }
}
