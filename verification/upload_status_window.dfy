/** The floating upload status window: what it derives from the upload
    tracker (the completed, failed and active records, the records of the
    chosen tab, whether anything is shown, the "N in progress" badge and
    the "Clear completed" button), the two effects that run whenever the
    records change, and its buttons, which call the tracker's setters. */
module UploadStatusWindow {
  import opened Common
  import opened UploadStore

  predicate IsCompleted(f: UploadFile) { f.status == Completed }
  predicate IsFailed(f: UploadFile) { f.status == Failed }
  predicate IsActive(f: UploadFile) { f.status == Uploading || f.status == Processing }

  function CompletedFiles(files: seq<UploadFile>): seq<UploadFile> { Filter(files, IsCompleted) }
  function FailedFiles(files: seq<UploadFile>): seq<UploadFile> { Filter(files, IsFailed) }
  function ActiveFiles(files: seq<UploadFile>): seq<UploadFile> { Filter(files, IsActive) }

  /** The three lists split the records: every record is in exactly one,
      so their sizes add up to the number of records. */
  lemma {:induction false} StatusListsPartition(files: seq<UploadFile>)
    ensures |CompletedFiles(files)| + |FailedFiles(files)| + |ActiveFiles(files)| == |files|
  {
    if files != [] {
      StatusListsPartition(files[1..]);
    }
  }

  /** The records the chosen tab lists. */
  function FilteredFiles(files: seq<UploadFile>, tab: Tab): seq<UploadFile> {
    match tab
    case CompletedTab => CompletedFiles(files)
    case FailedTab => FailedFiles(files)
    case AllTab => files
  }

  /** Whether a record belongs under a tab. */
  predicate OnTab(f: UploadFile, tab: Tab) {
    match tab
    case AllTab => true
    case CompletedTab => f.status == Completed
    case FailedTab => f.status == Failed
  }

  /** Each tab lists, in order, exactly the records that belong under it. */
  lemma TabListsItsRecords(files: seq<UploadFile>, tab: Tab)
    ensures FilteredFiles(files, tab) == Filter(files, (f: UploadFile) => OnTab(f, tab))
    ensures forall f :: f in FilteredFiles(files, tab) <==> f in files && OnTab(f, tab)
  {
    var p := (f: UploadFile) => OnTab(f, tab);
    FilterMembers(files, p);
    match tab
    case AllTab => FilterKeepsAll(files, p);
    case CompletedTab => FilterAgree(files, IsCompleted, p);
    case FailedTab => FilterAgree(files, IsFailed, p);
  }

  /** The window is drawn only when it is to be shown and has records. */
  predicate Renders(s: UploadState) {
    s.showStatusWindow && |s.files| > 0
  }

  /** The "N in progress" badge in the header of the drawn window: the
      number of active records, shown only when it is positive. */
  function Badge(s: UploadState): (b: Option<nat>)
    ensures b.Some? <==> Renders(s) && exists f :: f in s.files && IsActive(f)
    ensures b.Some? ==> b.value == |ActiveFiles(s.files)| && b.value > 0
  {
    FilterMembers(s.files, IsActive);
    var n := |ActiveFiles(s.files)|;
    if Renders(s) && n > 0 then
      assert ActiveFiles(s.files)[0] in ActiveFiles(s.files);
      Some(n)
    else None
  }

  /** "Clear completed" is offered in the expanded body of the drawn
      window, on the completed tab, when that tab lists something. */
  function ClearCompletedOffered(s: UploadState): (r: bool)
    ensures r <==> Renders(s) && !s.isMinimized && s.activeTab == CompletedTab
                   && exists f :: f in s.files && f.status == Completed
  {
    FilterMembers(s.files, IsCompleted);
    var n := |CompletedFiles(s.files)|;
    assert n > 0 ==> CompletedFiles(s.files)[0] in CompletedFiles(s.files);
    Renders(s) && !s.isMinimized && s.activeTab == CompletedTab && n > 0
  }

  /** The state after the two effects: an active record expands the
      window, and no records hide it. */
  function AfterEffects(s: UploadState): (t: UploadState)
    ensures t.files == s.files && t.activeTab == s.activeTab
    ensures t.isMinimized <==> s.isMinimized && forall f :: f in s.files ==> !IsActive(f)
    ensures t.showStatusWindow <==> s.showStatusWindow && |s.files| > 0
  {
    FilterMembers(s.files, IsActive);
    var s1 := if |ActiveFiles(s.files)| > 0 then s.(isMinimized := false) else s;
    assert |ActiveFiles(s.files)| > 0 ==> ActiveFiles(s.files)[0] in ActiveFiles(s.files);
    if |s1.files| == 0 then s1.(showStatusWindow := false) else s1
  }

  /** Running the effects again changes nothing, and after them the window
      is drawn exactly when it is to be shown. */
  lemma EffectsSettle(s: UploadState)
    ensures AfterEffects(AfterEffects(s)) == AfterEffects(s)
    ensures Renders(AfterEffects(s)) == AfterEffects(s).showStatusWindow
  {
  }

  /** Right after files are added (window shown and expanded, records
      present) the effects leave it drawn and expanded. */
  lemma AddedFilesAreShown(s: UploadState)
    requires s.showStatusWindow && !s.isMinimized && |s.files| > 0
    ensures Renders(AfterEffects(s)) && !AfterEffects(s).isMinimized
  {
  }

  /** The two effects, run against the tracker. */
  method ApplyEffects(store: UploadTracker)
    modifies store
    ensures store.State() == AfterEffects(old(store.State()))
  {
    if |ActiveFiles(store.files)| > 0 {
      store.SetMinimized(false);
    }
    if |store.files| == 0 {
      store.SetShowStatusWindow(false);
    }
  }

  /** The minimize/expand button flips the flag. */
  method ClickMinimize(store: UploadTracker)
    modifies store
    ensures store.State() == old(store.State()).(isMinimized := !old(store.isMinimized))
  {
    store.SetMinimized(!store.isMinimized);
  }

  /** The close button hides the window and keeps the records. */
  method ClickClose(store: UploadTracker)
    modifies store
    ensures store.State() == old(store.State()).(showStatusWindow := false)
    ensures !Renders(store.State())
  {
    store.SetShowStatusWindow(false);
  }

  /** The "Clear completed" button, clicked where it is offered: the tab
      then lists nothing. */
  method ClickClearCompleted(store: UploadTracker)
    requires ClearCompletedOffered(store.State())
    modifies store
    ensures store.State() == old(store.State()).(files := Filter(old(store.files), NotCompleted))
    ensures FilteredFiles(store.files, store.activeTab) == []
    ensures !ClearCompletedOffered(store.State())
  {
    store.ClearCompleted();
    FilterDropsAll(store.files, IsCompleted);
  }
}
