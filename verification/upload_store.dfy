/** The upload tracker: an ordered list of upload records plus three
    display fields of the status window, changed only through the store's
    actions. Records are addressed by id, and ids are NOT unique (two
    same-named files added in one call get the same id), so every action
    that takes an id acts on every record carrying it. */
module UploadStore {
  import opened Common

  datatype UploadStatus = Uploading | Processing | Completed | Failed

  /** The status window's tab: "all" | "completed" | "failed". */
  datatype Tab = AllTab | CompletedTab | FailedTab

  /** What a caller of addFiles supplies for one file: an UploadFile
      without id, timestamp, status and progress (an `error` given here is
      copied like the other fields). */
  datatype NewUpload = NewUpload(
    name: string,
    projectName: string,
    projectId: string,
    folderId: Option<string>,
    error: Option<string>)

  datatype UploadFile = UploadFile(
    id: string,
    name: string,
    projectName: string,
    projectId: string,
    folderId: Option<string>,
    timestamp: string,
    status: UploadStatus,
    progress: int,
    error: Option<string>)

  /** The record addFiles makes for one input at clock reading `now`
      (milliseconds) and locale time text `stamp`. */
  function MakeRecord(f: NewUpload, now: nat, stamp: string): UploadFile {
    UploadFile(TimestampedId(now, f.name), f.name, f.projectName, f.projectId,
               f.folderId, stamp, Uploading, 0, f.error)
  }

  /** The records addFiles makes, one per input, in input order. */
  function NewRecords(inputs: seq<NewUpload>, now: nat, stamp: string): (r: seq<UploadFile>)
    ensures |r| == |inputs|
    ensures forall i :: 0 <= i < |r| ==>
      && r[i].name == inputs[i].name
      && r[i].projectName == inputs[i].projectName
      && r[i].projectId == inputs[i].projectId
      && r[i].folderId == inputs[i].folderId
      && r[i].error == inputs[i].error
      && r[i].id == TimestampedId(now, inputs[i].name)
      && r[i].timestamp == stamp
      && r[i].status == Uploading
      && r[i].progress == 0
  {
    if inputs == [] then []
    else [MakeRecord(inputs[0], now, stamp)] + NewRecords(inputs[1..], now, stamp)
  }

  /** Two records made by one addFiles call share an id exactly when the
      files share a name. */
  lemma NewIdsCollideIffSameName(inputs: seq<NewUpload>, now: nat, stamp: string, i: nat, j: nat)
    requires i < |inputs| && j < |inputs|
    ensures var r := NewRecords(inputs, now, stamp);
            r[i].id == r[j].id <==> inputs[i].name == inputs[j].name
  {
    TimestampedIdInjective(now, inputs[i].name, inputs[j].name);
  }

  /** The list updateFileProgress builds: each record with the id gets the
      new progress, every other record is kept as it is. */
  function SetProgress(files: seq<UploadFile>, id: string, progress: int): (r: seq<UploadFile>)
    ensures |r| == |files|
    ensures forall i :: 0 <= i < |r| ==>
      r[i] == if files[i].id == id then files[i].(progress := progress) else files[i]
  {
    if files == [] then []
    else [if files[0].id == id then files[0].(progress := progress) else files[0]]
         + SetProgress(files[1..], id, progress)
  }

  /** The list updateFileStatus builds: each record with the id gets the new
      status, and the error too when the error is truthy (present and
      non-empty); every other record is kept as it is. */
  function SetStatus(files: seq<UploadFile>, id: string, status: UploadStatus, error: Option<string>)
    : (r: seq<UploadFile>)
    ensures |r| == |files|
    ensures forall i :: 0 <= i < |r| ==>
      r[i] == if files[i].id != id then files[i]
              else files[i].(status := status, error := if Truthy(error) then error else files[i].error)
  {
    if files == [] then []
    else [if files[0].id != id then files[0]
          else files[0].(status := status, error := if Truthy(error) then error else files[0].error)]
         + SetStatus(files[1..], id, status, error)
  }

  /** No record carries the id. */
  predicate Absent(files: seq<UploadFile>, id: string) {
    forall i :: 0 <= i < |files| ==> files[i].id != id
  }

  /** An unknown id changes nothing, for both update actions. */
  lemma UnknownIdIsNoOp(files: seq<UploadFile>, id: string, p: int, s: UploadStatus, e: Option<string>)
    requires Absent(files, id)
    ensures SetProgress(files, id, p) == files
    ensures SetStatus(files, id, s, e) == files
  {
  }

  /** A failure reported with a message, then a completion reported without
      one, leaves the record completed and still carrying the old message. */
  lemma StaleErrorIsKept(files: seq<UploadFile>, id: string, msg: string, i: nat)
    requires msg != ""
    requires i < |files| && files[i].id == id
    ensures var after := SetStatus(SetStatus(files, id, Failed, Some(msg)), id, Completed, None);
            after[i].status == Completed && after[i].error == Some(msg)
  {
  }

  function KeepUnlessId(id: string): UploadFile -> bool {
    (f: UploadFile) => f.id != id
  }

  function NotCompleted(f: UploadFile): bool {
    f.status != Completed
  }

  /** removeFile drops every record with the id and only those. */
  lemma RemoveDropsExactlyId(files: seq<UploadFile>, id: string)
    ensures forall f :: f in Filter(files, KeepUnlessId(id)) <==> f in files && f.id != id
    ensures |Filter(files, KeepUnlessId(id))| + |Filter(files, (f: UploadFile) => f.id == id)| == |files|
  {
    FilterMembers(files, KeepUnlessId(id));
    FilterSplit(files, (f: UploadFile) => f.id == id, KeepUnlessId(id));
  }

  /** clearCompleted applied twice is clearCompleted applied once. */
  lemma ClearCompletedIdempotent(files: seq<UploadFile>)
    ensures Filter(Filter(files, NotCompleted), NotCompleted) == Filter(files, NotCompleted)
  {
    FilterIdempotent(files, NotCompleted);
  }

  /** The example of a completed/uploading/completed/failed list: only the
      second and fourth records remain, in that order. */
  lemma {:induction false} ClearCompletedExample(a: UploadFile, b: UploadFile, c: UploadFile, d: UploadFile)
    requires a.status == Completed && c.status == Completed
    requires b.status == Uploading && d.status == Failed
    ensures Filter([a, b, c, d], NotCompleted) == [b, d]
  {
    assert [a, b, c, d] == [a] + [b] + [c] + [d];
    FilterConcat([a] + [b] + [c], [d], NotCompleted);
    FilterConcat([a] + [b], [c], NotCompleted);
    FilterConcat([a], [b], NotCompleted);
  }

  // ---------------------------------------------------------------------
  // The whole state as a value, and the persisted part of it.

  datatype UploadState = UploadState(
    files: seq<UploadFile>,
    showStatusWindow: bool,
    isMinimized: bool,
    activeTab: Tab)

  const InitialState := UploadState([], false, false, AllTab)

  /** What is saved: the state without showStatusWindow and isMinimized. */
  datatype PersistedState = PersistedState(files: seq<UploadFile>, activeTab: Tab)

  function Partialize(s: UploadState): (p: PersistedState)
    ensures p.files == s.files && p.activeTab == s.activeTab
  {
    PersistedState(s.files, s.activeTab)
  }

  /** Loading a snapshot: the saved fields over the initial state. */
  function Rehydrate(p: PersistedState): (s: UploadState)
    ensures s.files == p.files && s.activeTab == p.activeTab
    ensures !s.showStatusWindow && !s.isMinimized
  {
    InitialState.(files := p.files, activeTab := p.activeTab)
  }

  /** Saving then loading keeps the records and the tab and resets the two
      window flags to their defaults. */
  lemma PersistRoundTrip(s: UploadState)
    ensures Rehydrate(Partialize(s)) == s.(showStatusWindow := false, isMinimized := false)
    ensures Partialize(Rehydrate(Partialize(s))) == Partialize(s)
  {
  }

  class UploadTracker {
    var files: seq<UploadFile>
    var showStatusWindow: bool
    var isMinimized: bool
    var activeTab: Tab

    function State(): UploadState
      reads this
    {
      UploadState(files, showStatusWindow, isMinimized, activeTab)
    }

    constructor ()
      ensures State() == InitialState
    {
      files := [];
      showStatusWindow := false;
      isMinimized := false;
      activeTab := AllTab;
    }

    /** The snapshot the persistence layer writes. */
    function Persisted(): (p: PersistedState)
      reads this
      ensures p.files == files && p.activeTab == activeTab
    {
      Partialize(State())
    }

    /** addFiles: appends one new record per input after the existing ones,
        opens and expands the status window (also for an empty input), and
        returns the new records. */
    method AddFiles(inputs: seq<NewUpload>, now: nat, stamp: string) returns (added: seq<UploadFile>)
      modifies this
      ensures added == NewRecords(inputs, now, stamp)
      ensures files == old(files) + added
      ensures showStatusWindow && !isMinimized
      ensures activeTab == old(activeTab)
    {
      added := NewRecords(inputs, now, stamp);
      files := files + added;
      showStatusWindow := true;
      isMinimized := false;
    }

    /** updateFileProgress: every record with the id gets the progress, as
        given (no clamping); nothing else changes. */
    method UpdateFileProgress(id: string, progress: int)
      modifies this
      ensures |files| == |old(files)|
      ensures forall i :: 0 <= i < |files| ==>
        files[i] == if old(files)[i].id == id then old(files)[i].(progress := progress) else old(files)[i]
      ensures showStatusWindow == old(showStatusWindow) && isMinimized == old(isMinimized)
      ensures activeTab == old(activeTab)
    {
      files := SetProgress(files, id, progress);
    }

    /** updateFileStatus: every record with the id gets the status, and the
        error too when it is truthy; an earlier error is otherwise kept. */
    method UpdateFileStatus(id: string, status: UploadStatus, error: Option<string>)
      modifies this
      ensures |files| == |old(files)|
      ensures forall i :: 0 <= i < |files| ==>
        files[i] == if old(files)[i].id != id then old(files)[i]
                    else old(files)[i].(status := status,
                                        error := if Truthy(error) then error else old(files)[i].error)
      ensures showStatusWindow == old(showStatusWindow) && isMinimized == old(isMinimized)
      ensures activeTab == old(activeTab)
    {
      files := SetStatus(files, id, status, error);
    }

    /** removeFile: drops the records with the id, keeping the rest in order. */
    method RemoveFile(id: string)
      modifies this
      ensures files == Filter(old(files), KeepUnlessId(id))
      ensures forall f :: f in files <==> f in old(files) && f.id != id
      ensures showStatusWindow == old(showStatusWindow) && isMinimized == old(isMinimized)
      ensures activeTab == old(activeTab)
    {
      FilterMembers(files, KeepUnlessId(id));
      files := Filter(files, KeepUnlessId(id));
    }

    /** clearCompleted: keeps exactly the records whose status is not
        "completed", in order. */
    method ClearCompleted()
      modifies this
      ensures files == Filter(old(files), NotCompleted)
      ensures forall f :: f in files <==> f in old(files) && f.status != Completed
      ensures showStatusWindow == old(showStatusWindow) && isMinimized == old(isMinimized)
      ensures activeTab == old(activeTab)
    {
      FilterMembers(files, NotCompleted);
      files := Filter(files, NotCompleted);
    }

    method SetShowStatusWindow(show: bool)
      modifies this
      ensures State() == old(State()).(showStatusWindow := show)
    {
      showStatusWindow := show;
    }

    method SetMinimized(minimized: bool)
      modifies this
      ensures State() == old(State()).(isMinimized := minimized)
    {
      isMinimized := minimized;
    }

    method SetActiveTab(tab: Tab)
      modifies this
      ensures State() == old(State()).(activeTab := tab)
    {
      activeTab := tab;
    }
  }
}
