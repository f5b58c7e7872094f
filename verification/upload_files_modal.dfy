/** The upload dialog's file list: every selected file becomes an entry,
    marked pending or rejected by an allow-list of MIME types and a size
    bound; rejected entries stay in the list; the upload hands over only
    the pending files. The clock is a parameter: reading `clock(i)` is the
    one taken for the i-th file of a selection. */
module UploadFilesModal {
  import opened Common

  /** The accepted MIME types: PDF, Word, Excel, JPEG, PNG, GIF, TIFF,
      PowerPoint, plain text and RTF. */
  const AllowedFileTypes: seq<string> := [
    "application/pdf",
    "application/msword",
    "application/vnd.openxmlformats-officedocument.wordprocessingml.document",
    "application/vnd.ms-excel",
    "application/vnd.openxmlformats-officedocument.spreadsheetml.sheet",
    "image/jpeg",
    "image/png",
    "image/gif",
    "image/tiff",
    "application/vnd.ms-powerpoint",
    "application/vnd.openxmlformats-officedocument.presentationml.presentation",
    "text/plain",
    "application/rtf"]

  /** 500 MiB, in bytes. */
  const MaxFileSize: int := 500 * 1024 * 1024

  /** The name shown for each MIME type. */
  const FileTypeNames: map<string, string> := map[
    "application/pdf" := "PDF",
    "application/msword" := "Word",
    "application/vnd.openxmlformats-officedocument.wordprocessingml.document" := "Word",
    "application/vnd.ms-excel" := "Excel",
    "application/vnd.openxmlformats-officedocument.spreadsheetml.sheet" := "Excel",
    "image/jpeg" := "Image",
    "image/png" := "Image",
    "image/gif" := "Image",
    "image/tiff" := "Image",
    "application/vnd.ms-powerpoint" := "PowerPoint",
    "application/vnd.openxmlformats-officedocument.presentationml.presentation" := "PowerPoint",
    "text/plain" := "Text",
    "application/rtf" := "Rich Text"]

  const TypeNotAllowed: string := "File type not allowed"
  const TooLarge: string := "File exceeds 500MB limit"

  /** A browser File as the dialog sees it. */
  datatype SelectedFile = SelectedFile(name: string, mimeType: string, size: int)

  /** "pending" | "uploading" | "success" | "error" */
  datatype EntryStatus = EntryPending | EntryUploading | EntrySuccess | EntryError

  datatype ModalEntry = ModalEntry(file: SelectedFile, id: string, progress: int,
                                   status: EntryStatus, error: Option<string>)

  /** A file the dialog accepts: an allowed type and at most 500 MiB. */
  predicate Acceptable(f: SelectedFile) {
    f.mimeType in AllowedFileTypes && f.size <= MaxFileSize
  }

  /** The entry made for one file at clock reading `now`. The type check
      comes first, so a file of a wrong type is reported as such whatever
      its size. */
  function Classify(f: SelectedFile, now: nat): (e: ModalEntry)
    ensures e.file == f && e.id == TimestampedId(now, f.name) && e.progress == 0
    ensures e.status == EntryPending <==> Acceptable(f)
    ensures e.status == EntryPending || e.status == EntryError
    ensures e.error.None? <==> e.status == EntryPending
    ensures e.error == Some(TypeNotAllowed) <==> f.mimeType !in AllowedFileTypes
    ensures f.mimeType in AllowedFileTypes && f.size > MaxFileSize ==> e.error == Some(TooLarge)
  {
    var entry := ModalEntry(f, TimestampedId(now, f.name), 0, EntryPending, None);
    if f.mimeType !in AllowedFileTypes then entry.(status := EntryError, error := Some(TypeNotAllowed))
    else if f.size > MaxFileSize then entry.(status := EntryError, error := Some(TooLarge))
    else entry
  }

  /** The entries for a selection, the i-th made at reading clock(i). */
  function ClassifyAll(selected: seq<SelectedFile>, clock: nat -> nat): (r: seq<ModalEntry>)
    ensures |r| == |selected|
    ensures forall i :: 0 <= i < |r| ==> r[i] == Classify(selected[i], clock(i))
  {
    seq(|selected|, i requires 0 <= i < |selected| => Classify(selected[i], clock(i)))
  }

  /** The selection of one more file makes one more entry at the end. */
  lemma ClassifyAllSnoc(selected: seq<SelectedFile>, clock: nat -> nat, i: nat)
    requires i < |selected|
    ensures ClassifyAll(selected[..i + 1], clock) == ClassifyAll(selected[..i], clock) + [Classify(selected[i], clock(i))]
  {
  }

  predicate IsPending(e: ModalEntry) {
    e.status == EntryPending
  }

  /** The files of a list of entries, in list order. */
  function FilesOf(entries: seq<ModalEntry>): (r: seq<SelectedFile>)
    ensures |r| == |entries|
    ensures forall i :: 0 <= i < |r| ==> r[i] == entries[i].file
  {
    if entries == [] then [] else [entries[0].file] + FilesOf(entries[1..])
  }

  /** The files of the pending entries, in list order. */
  function PendingFiles(entries: seq<ModalEntry>): seq<SelectedFile> {
    FilesOf(Filter(entries, IsPending))
  }

  /** A file is handed over exactly when some pending entry holds it. */
  lemma PendingFilesMembers(entries: seq<ModalEntry>, f: SelectedFile)
    ensures f in PendingFiles(entries) <==> exists e :: e in entries && e.status == EntryPending && e.file == f
  {
    var pending := Filter(entries, IsPending);
    FilterMembers(entries, IsPending);
    if f in PendingFiles(entries) {
      var k :| 0 <= k < |pending| && FilesOf(pending)[k] == f;
      assert pending[k] in pending;
    }
    if exists e :: e in entries && e.status == EntryPending && e.file == f {
      var e :| e in entries && e.status == EntryPending && e.file == f;
      assert e in pending;
      var k :| 0 <= k < |pending| && pending[k] == e;
      assert FilesOf(pending)[k] == f;
    }
  }

  /** What the upload button does: a "no valid files" toast, or the files
      handed to the upload callback (after which the dialog closes). */
  datatype UploadOutcome = NoValidFilesToast | Upload(files: seq<SelectedFile>)

  /** uploadFiles: refuses an empty list and a list of errors only; hands
      over the pending files otherwise. */
  function UploadFiles(entries: seq<ModalEntry>): (o: UploadOutcome)
    ensures o.NoValidFilesToast? <==> forall i :: 0 <= i < |entries| ==> entries[i].status == EntryError
    ensures o.Upload? ==> o.files == PendingFiles(entries)
  {
    if |entries| == 0 || forall i :: 0 <= i < |entries| ==> entries[i].status == EntryError
    then NoValidFilesToast
    else Upload(PendingFiles(entries))
  }

  /** Every entry the dialog makes is pending or an error. */
  ghost predicate PendingOrError(entries: seq<ModalEntry>) {
    forall i :: 0 <= i < |entries| ==> entries[i].status == EntryPending || entries[i].status == EntryError
  }

  /** Appending the entries of a selection keeps every entry pending or
      an error. */
  lemma NewEntriesPendingOrError(entries: seq<ModalEntry>, selected: seq<SelectedFile>, clock: nat -> nat)
    requires PendingOrError(entries)
    ensures PendingOrError(entries + ClassifyAll(selected, clock))
  {
    var all := entries + ClassifyAll(selected, clock);
    forall i | 0 <= i < |all| ensures all[i].status == EntryPending || all[i].status == EntryError {
      if i >= |entries| {
        assert all[i] == Classify(selected[i - |entries|], clock(i - |entries|));
      }
    }
  }

  /** In a list the dialog made, an upload always hands over at least one
      file, and a list with a pending entry is always uploaded. */
  lemma {:induction false} UploadHandsOverPending(entries: seq<ModalEntry>)
    requires PendingOrError(entries)
    ensures UploadFiles(entries).Upload? <==> exists i :: 0 <= i < |entries| && entries[i].status == EntryPending
    ensures UploadFiles(entries).Upload? ==> |UploadFiles(entries).files| > 0
  {
    if UploadFiles(entries).Upload? {
      var i :| 0 <= i < |entries| && entries[i].status != EntryError;
      assert entries[i] in entries;
      PendingFilesMembers(entries, entries[i].file);
    }
  }

  /** Every accepted type has a display name. */
  lemma AllowedTypesHaveNames()
    ensures forall t :: t in AllowedFileTypes ==> t in FileTypeNames
    ensures forall t :: t in FileTypeNames ==> t in AllowedFileTypes
  {
  }

  class UploadFilesModal {
    var files: seq<ModalEntry>
    var isDragging: bool
    var isUploading: bool

    /** Every entry is pending or an error, and no upload is ever marked in
        progress (nothing in the dialog sets the flag). */
    ghost predicate Valid()
      reads this
    {
      PendingOrError(files) && !isUploading
    }

    constructor ()
      ensures Valid()
      ensures files == [] && !isDragging && !isUploading
    {
      files := [];
      isDragging := false;
      isUploading := false;
    }

    /** handleFileSelect: no selection changes nothing; otherwise one entry
        per file is appended, valid or not, and the error toast is shown
        exactly when some file was rejected. */
    method HandleFileSelect(selected: Option<seq<SelectedFile>>, clock: nat -> nat) returns (errorToast: bool)
      requires Valid()
      modifies this
      ensures Valid()
      ensures selected.None? ==> files == old(files) && !errorToast
      ensures selected.Some? ==> files == old(files) + ClassifyAll(selected.value, clock)
      ensures errorToast <==> selected.Some? && exists i :: 0 <= i < |selected.value| && !Acceptable(selected.value[i])
      ensures isDragging == old(isDragging) && isUploading == old(isUploading)
    {
      if selected.None? {
        return false;
      }
      var sel := selected.value;
      var newFiles: seq<ModalEntry> := [];
      var hasErrors := false;
      var i := 0;
      while i < |sel|
        invariant 0 <= i <= |sel|
        invariant newFiles == ClassifyAll(sel[..i], clock)
        invariant hasErrors <==> exists j :: 0 <= j < i && !Acceptable(sel[j])
        invariant unchanged(this)
      {
        var file := sel[i];
        var isValidType := file.mimeType in AllowedFileTypes;
        var isValidSize := file.size <= MaxFileSize;
        var entry := ModalEntry(file, TimestampedId(clock(i), file.name), 0, EntryPending, None);
        if !isValidType {
          entry := entry.(status := EntryError, error := Some(TypeNotAllowed));
          hasErrors := true;
        } else if !isValidSize {
          entry := entry.(status := EntryError, error := Some(TooLarge));
          hasErrors := true;
        }
        assert entry == Classify(sel[i], clock(i));
        assert hasErrors <==> exists j :: 0 <= j < i + 1 && !Acceptable(sel[j]) by {
          if !Acceptable(sel[i]) {
            assert hasErrors;
          }
        }
        ClassifyAllSnoc(sel, clock, i);
        newFiles := newFiles + [entry];
        i := i + 1;
      }
      assert sel[..i] == sel;
      NewEntriesPendingOrError(files, sel, clock);
      files := files + newFiles;
      errorToast := hasErrors;
    }

    /** removeFile: drops exactly the entries with the id, keeping the
        order of the rest. */
    method RemoveFile(id: string)
      requires Valid()
      modifies this
      ensures Valid()
      ensures files == Filter(old(files), (e: ModalEntry) => e.id != id)
      ensures forall e :: e in files <==> e in old(files) && e.id != id
      ensures isDragging == old(isDragging) && isUploading == old(isUploading)
    {
      FilterMembers(files, (e: ModalEntry) => e.id != id);
      files := Filter(files, (e: ModalEntry) => e.id != id);
    }

    /** handleClose: refused with a toast while an upload runs, which never
        happens in a valid dialog; otherwise the list is emptied. */
    method HandleClose() returns (refused: bool)
      requires Valid()
      modifies this
      ensures Valid()
      ensures !refused && files == []
      ensures isDragging == old(isDragging) && isUploading == old(isUploading)
    {
      if isUploading {
        refused := true;
        return;
      }
      files := [];
      refused := false;
    }

    method DragEnter()
      modifies this
      ensures isDragging
      ensures files == old(files) && isUploading == old(isUploading)
    {
      isDragging := true;
    }

    method DragLeave()
      modifies this
      ensures !isDragging
      ensures files == old(files) && isUploading == old(isUploading)
    {
      isDragging := false;
    }

    /** A drop ends the drag and selects the dropped files. */
    method Drop(dropped: seq<SelectedFile>, clock: nat -> nat) returns (errorToast: bool)
      requires Valid()
      modifies this
      ensures Valid()
      ensures !isDragging
      ensures files == old(files) + ClassifyAll(dropped, clock)
      ensures errorToast <==> exists i :: 0 <= i < |dropped| && !Acceptable(dropped[i])
    {
      isDragging := false;
      errorToast := HandleFileSelect(Some(dropped), clock);
    }
  }
}
