/** The mock project-files query: a fixed list of ten entries whose ids
    are derived from the project id, a different fixed list of three
    entries inside any folder, and two views of the project list, the five
    most recently modified entries and the files still to be reviewed.
    Parsing a modification date into a time is a parameter. */
module ProjectFilesService {
  import opened Common

  datatype ProjectFile = ProjectFile(
    id: string,
    name: string,
    kind: Kind,
    formType: Option<string>,
    status: Option<FormStatus>,
    size: Option<string>,
    modifiedAt: string,
    reviewed: Option<bool>)

  /** The `filter` argument: "all" | "recent" | "review". */
  datatype FileFilter = AllFiles | RecentFiles | ReviewFiles

  function ProjectEntry(owner: string, suffix: string, name: string, formType: string,
                        status: FormStatus, size: string, modifiedAt: string, reviewed: bool): ProjectFile
  {
    ProjectFile(owner + suffix, name, FileKind, Some(formType), Some(status), Some(size), modifiedAt, Some(reviewed))
  }

  function FolderEntry(owner: string, suffix: string, name: string, modifiedAt: string): ProjectFile {
    ProjectFile(owner + suffix, name, FolderKind, None, None, None, modifiedAt, None)
  }

  /** The k-th of the ten entries of a project (counting from 0). */
  function DeclaredEntry(projectId: string, k: nat): ProjectFile
    requires k < 10
  {
    if k == 0 then ProjectEntry(projectId, "-file-1", "invoice_2023_01.pdf", "Invoice", FormCompleted, "1.2 MB", "2024-03-15T10:30:00Z", true)
    else if k == 1 then ProjectEntry(projectId, "-file-2", "invoice_2023_02.pdf", "Invoice", FormPending, "0.9 MB", "2024-03-10T14:45:00Z", false)
    else if k == 2 then FolderEntry(projectId, "-folder-1", "Financial Reports", "2024-03-05T09:15:00Z")
    else if k == 3 then ProjectEntry(projectId, "-file-4", "w2_2023_employee1.pdf", "W2", FormCompleted, "0.5 MB", "2024-03-02T11:20:00Z", true)
    else if k == 4 then ProjectEntry(projectId, "-file-5", "w2_2023_employee2.pdf", "W2", FormNotStarted, "0.5 MB", "2024-02-28T16:30:00Z", false)
    else if k == 5 then FolderEntry(projectId, "-folder-2", "Tax Documents", "2024-02-25T13:45:00Z")
    else if k == 6 then ProjectEntry(projectId, "-file-7", "receipt_q1_2023.pdf", "Receipt", FormCompleted, "0.3 MB", "2024-02-20T10:15:00Z", true)
    else if k == 7 then ProjectEntry(projectId, "-file-8", "receipt_q2_2023.pdf", "Receipt", FormPending, "0.4 MB", "2024-02-15T09:45:00Z", false)
    else if k == 8 then ProjectEntry(projectId, "-file-9", "contract_vendor1.pdf", "Contract", FormCompleted, "1.5 MB", "2024-02-10T14:20:00Z", true)
    else ProjectEntry(projectId, "-file-10", "contract_vendor2.pdf", "Contract", FormNotStarted, "1.3 MB", "2024-02-05T11:10:00Z", false)
  }

  /** The ten entries of a project, newest first. */
  function DeclaredFiles(projectId: string): (r: seq<ProjectFile>)
    ensures |r| == 10
  {
    seq(10, k requires 0 <= k < 10 => DeclaredEntry(projectId, k))
  }

  /** The three entries shown inside any folder. */
  function FolderFiles(folderId: string): (r: seq<ProjectFile>)
    ensures |r| == 3
  {
    [ ProjectEntry(folderId, "-file-1", "folder_file_1.pdf", "Invoice", FormCompleted, "0.8 MB", "2024-03-12T10:30:00Z", true),
      ProjectEntry(folderId, "-file-2", "folder_file_2.pdf", "W2", FormPending, "0.6 MB", "2024-03-08T14:45:00Z", false),
      FolderEntry(folderId, "-subfolder-1", "Subfolder", "2024-03-01T09:15:00Z") ]
  }

  /** A file (not a folder) that is not marked reviewed. */
  predicate NeedsReview(f: ProjectFile) {
    f.kind == FileKind && !IsTrue(f.reviewed)
  }

  /** The comparator of the "recent" view: the later modification first. */
  function NewestFirst(time: string -> int): (ProjectFile, ProjectFile) -> int {
    (a: ProjectFile, b: ProjectFile) => time(b.modifiedAt) - time(a.modifiedAt)
  }

  /** The "recent" view of a list: sorted newest first, then its first five. */
  function Recent(files: seq<ProjectFile>, time: string -> int): (r: seq<ProjectFile>)
    ensures |r| == Min(5, |files|)
    ensures multiset(r) <= multiset(files)
  {
    var sorted := Sort(files, NewestFirst(time));
    assert sorted == sorted[..Min(5, |files|)] + sorted[Min(5, |files|)..];
    Slice(sorted, 0, 5)
  }

  /** The "review" view of a list: its unreviewed files, in order. */
  function Review(files: seq<ProjectFile>): (r: seq<ProjectFile>)
    ensures forall f :: f in r <==> f in files && NeedsReview(f)
    ensures multiset(r) <= multiset(files)
  {
    FilterSubMultiset(files, NeedsReview);
    FilterMembers(files, NeedsReview);
    Filter(files, NeedsReview)
  }

  /** fetchProjectFiles without its simulated delay. A truthy folder id
      selects the folder's entries whatever the project and the filter. */
  function FetchProjectFiles(projectId: string, filter: FileFilter, folderId: Option<string>,
                             time: string -> int): (r: seq<ProjectFile>)
    ensures Truthy(folderId) ==> r == FolderFiles(folderId.value)
    ensures !Truthy(folderId) && filter == AllFiles ==> r == DeclaredFiles(projectId)
    ensures !Truthy(folderId) && filter == RecentFiles ==> r == Recent(DeclaredFiles(projectId), time)
    ensures !Truthy(folderId) && filter == ReviewFiles ==> r == Review(DeclaredFiles(projectId))
    ensures !Truthy(folderId) ==> multiset(r) <= multiset(DeclaredFiles(projectId))
  {
    if Truthy(folderId) then FolderFiles(folderId.value)
    else match filter
      case AllFiles => DeclaredFiles(projectId)
      case RecentFiles => Recent(DeclaredFiles(projectId), time)
      case ReviewFiles => Review(DeclaredFiles(projectId))
  }

  /** A filtered list holds no element more often than the list. */
  lemma {:induction false} FilterSubMultiset(s: seq<ProjectFile>, p: ProjectFile -> bool)
    ensures multiset(Filter(s, p)) <= multiset(s)
  {
    forall x ensures multiset(Filter(s, p))[x] <= multiset(s)[x] {
      FilterCount(s, p, x);
    }
  }

  /** The newest-first comparator orders any two entries consistently. */
  lemma NewestFirstConsistent(time: string -> int)
    ensures TotalPreorder(NewestFirst(time))
  {
  }

  /** The list sorted newest first is ordered by time. */
  lemma NewestFirstSorted(files: seq<ProjectFile>, time: string -> int)
    ensures var s := Sort(files, NewestFirst(time));
            forall i, j :: 0 <= i < j < |s| ==> time(s[j].modifiedAt) <= time(s[i].modifiedAt)
  {
    NewestFirstConsistent(time);
    SortSorted(files, NewestFirst(time));
  }

  lemma RecentIsSortedPrefix(files: seq<ProjectFile>, time: string -> int)
    ensures Recent(files, time) == Sort(files, NewestFirst(time))[..Min(5, |files|)]
  {
  }

  /** The "recent" view: at most five entries of the list, newest first,
      and no entry left out is newer than any entry kept. */
  lemma RecentIsNewest(files: seq<ProjectFile>, time: string -> int)
    ensures var r := Recent(files, time);
            && (forall i, j :: 0 <= i < j < |r| ==> time(r[j].modifiedAt) <= time(r[i].modifiedAt))
            && (forall x, y :: x in r && y in files && y !in r ==> time(y.modifiedAt) <= time(x.modifiedAt))
  {
    var sorted := Sort(files, NewestFirst(time));
    NewestFirstSorted(files, time);
    var n := Min(5, |files|);
    RecentIsSortedPrefix(files, time);
    forall x, y | x in sorted[..n] && y in files && y !in sorted[..n]
      ensures time(y.modifiedAt) <= time(x.modifiedAt)
    {
      var i :| 0 <= i < n && sorted[i] == x;
      var j := LaterIndex(sorted, n, y, files);
      assert time(sorted[j].modifiedAt) <= time(sorted[i].modifiedAt);
    }
  }

  /** Where an element of a permutation that is not in a prefix sits. */
  lemma LaterIndex(s: seq<ProjectFile>, n: nat, y: ProjectFile, t: seq<ProjectFile>) returns (j: nat)
    requires n <= |s| && multiset(s) == multiset(t) && y in t && y !in s[..n]
    ensures n <= j < |s| && s[j] == y
  {
    assert y in multiset(t);
    assert y in s;
    j :| 0 <= j < |s| && s[j] == y;
  }

  /** When the date parse keeps the list's newest-first order, the "recent"
      view is simply the first five entries, in list order. */
  lemma RecentOfOrderedList(files: seq<ProjectFile>, time: string -> int)
    requires forall i :: 0 <= i < |files| - 1 ==> time(files[i + 1].modifiedAt) <= time(files[i].modifiedAt)
    ensures Recent(files, time) == files[..Min(5, |files|)]
  {
    forall i, j | 0 <= i < j < |files| ensures time(files[j].modifiedAt) <= time(files[i].modifiedAt) {
      ChainDescends(files, time, i, j);
    }
    RecentIsSortedPrefix(files, time);
    assert SortedBy(files, NewestFirst(time));
    SortOfSorted(files, NewestFirst(time));
  }

  /** The entries of a project are listed newest first (by their ISO 8601
      modification times): when the date parse respects that order, the
      project's "recent" view is its first five entries. */
  lemma RecentProjectFilesAreFirstFive(projectId: string, time: string -> int)
    requires var f := DeclaredFiles(projectId);
             forall i :: 0 <= i < 9 ==> time(f[i + 1].modifiedAt) <= time(f[i].modifiedAt)
    ensures FetchProjectFiles(projectId, RecentFiles, None, time) == DeclaredFiles(projectId)[..5]
  {
    RecentOfTen(DeclaredFiles(projectId), time);
  }

  lemma RecentOfTen(f: seq<ProjectFile>, time: string -> int)
    requires |f| == 10
    requires forall i :: 0 <= i < 9 ==> time(f[i + 1].modifiedAt) <= time(f[i].modifiedAt)
    ensures Recent(f, time) == f[..5]
  {
    RecentOfOrderedList(f, time);
  }

  lemma {:induction false} ChainDescends(f: seq<ProjectFile>, time: string -> int, i: nat, j: nat)
    requires i <= j < |f|
    requires forall k :: 0 <= k < |f| - 1 ==> time(f[k + 1].modifiedAt) <= time(f[k].modifiedAt)
    ensures time(f[j].modifiedAt) <= time(f[i].modifiedAt)
    decreases j - i
  {
    if i < j {
      ChainDescends(f, time, i + 1, j);
    }
  }

  /** The "review" view keeps exactly the unreviewed files, in list order:
      the second, fifth, eighth and tenth entries. */
  lemma ReviewIsUnreviewedFiles(projectId: string)
    ensures var f := DeclaredFiles(projectId);
            Review(f) == [f[1], f[4], f[7], f[9]]
  {
    var f := DeclaredFiles(projectId);
    ReviewOfTen(f);
  }

  lemma {:induction false} ReviewOfTen(f: seq<ProjectFile>)
    requires |f| == 10
    requires NeedsReview(f[1]) && NeedsReview(f[4]) && NeedsReview(f[7]) && NeedsReview(f[9])
    requires !NeedsReview(f[0]) && !NeedsReview(f[2]) && !NeedsReview(f[3]) && !NeedsReview(f[5])
    requires !NeedsReview(f[6]) && !NeedsReview(f[8])
    ensures Review(f) == [f[1], f[4], f[7], f[9]]
  {
    var p := NeedsReview;
    var t1, t4, t7, t9 := Filter(f[1..], p), Filter(f[4..], p), Filter(f[7..], p), Filter(f[9..], p);
    assert t9 == [f[9]] by { KeptThenSkipped(f, 9, 10, p); assert f[10..] == []; }
    assert t7 == [f[7], f[9]] by { KeptThenSkipped(f, 7, 9, p); }
    assert t4 == [f[4], f[7], f[9]] by { KeptThenSkipped(f, 4, 7, p); }
    assert t1 == [f[1], f[4], f[7], f[9]] by { KeptThenSkipped(f, 1, 4, p); }
    assert f[0..] == f;
    FilterSkip(f, 0, p);
  }

  /** Filtering from an element the predicate rejects is filtering from the next one. */
  lemma FilterSkip(f: seq<ProjectFile>, k: nat, p: ProjectFile -> bool)
    requires k < |f| && !p(f[k])
    ensures Filter(f[k..], p) == Filter(f[k + 1..], p)
  {
    assert f[k..][1..] == f[k + 1..];
  }

  /** Filtering from a kept element followed by rejected ones up to m keeps
      that element in front of what is kept from m on. */
  lemma {:induction false} KeptThenSkipped(f: seq<ProjectFile>, k: nat, m: nat, p: ProjectFile -> bool)
    requires k < m <= |f| && p(f[k])
    requires forall i :: k < i < m ==> !p(f[i])
    ensures Filter(f[k..], p) == [f[k]] + Filter(f[m..], p)
    decreases m - k
  {
    assert f[k..][1..] == f[k + 1..];
    var i := k + 1;
    while i < m
      invariant k + 1 <= i <= m
      invariant Filter(f[k + 1..], p) == Filter(f[i..], p)
    {
      FilterSkip(f, i, p);
      i := i + 1;
    }
  }

  /** The ten entries of a project carry ten different ids, each the
      project id followed by a dash. */
  lemma DeclaredIdsDistinct(projectId: string)
    ensures var files := DeclaredFiles(projectId);
            && (forall i, j :: 0 <= i < j < 10 ==> files[i].id != files[j].id)
            && (forall i :: 0 <= i < 10 ==> files[i].id[..|projectId| + 1] == projectId + "-")
  {
    var files := DeclaredFiles(projectId);
    var suffixes := ["-file-1", "-file-2", "-folder-1", "-file-4", "-file-5",
                     "-folder-2", "-file-7", "-file-8", "-file-9", "-file-10"];
    forall i, j | 0 <= i < j < 10 ensures files[i].id != files[j].id {
      assert files[i].id == projectId + suffixes[i];
      assert files[j].id == projectId + suffixes[j];
      PrefixInjective(projectId, suffixes[i], suffixes[j]);
    }
    forall i | 0 <= i < 10 ensures files[i].id[..|projectId| + 1] == projectId + "-" {
      assert files[i].id == projectId + suffixes[i];
      assert suffixes[i][0] == '-';
    }
  }

  /** The three folder entries carry three different ids, each the folder
      id followed by a dash. */
  lemma FolderIdsDistinct(folderId: string)
    ensures var files := FolderFiles(folderId);
            && (forall i, j :: 0 <= i < j < 3 ==> files[i].id != files[j].id)
            && (forall i :: 0 <= i < 3 ==> files[i].id[..|folderId| + 1] == folderId + "-")
  {
    var files := FolderFiles(folderId);
    var suffixes := ["-file-1", "-file-2", "-subfolder-1"];
    forall i, j | 0 <= i < j < 3 ensures files[i].id != files[j].id {
      assert files[i].id == folderId + suffixes[i];
      assert files[j].id == folderId + suffixes[j];
      PrefixInjective(folderId, suffixes[i], suffixes[j]);
    }
    forall i | 0 <= i < 3 ensures files[i].id[..|folderId| + 1] == folderId + "-" {
      assert files[i].id == folderId + suffixes[i];
      assert suffixes[i][0] == '-';
    }
  }
}
