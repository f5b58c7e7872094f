# Upload tracker and document dashboard: a Dafny model

This project models the logic core of `my-app`, a dashboard of projects
and documents whose data are mock lists:

- The **upload tracker store** (`UploadStore`): an ordered list of upload
  records plus the status window's `showStatusWindow`, `isMinimized` and
  `activeTab`. It is a class whose methods replace those fields the way
  the store's actions do. The `partialize` projection of what is saved is
  modelled too.
- The **project/selection store** (`ProjectStore`): the projects with their
  documents, the selected project and the list of selected document ids.
- The **mock queries**. `DocumentsService` is the documents query: a review
  filter, a stable comparator sort, then a page slice and its `meta`.
  `ProjectFilesService` covers the project's ten fixed entries, the folder
  branch, the "recent" five and the "review" list.
- The **upload dialog** (`UploadFilesModal`): it classifies selected files
  against a MIME allow-list and a 500 MiB bound, keeps rejected files in
  its list, and chooses what to upload.
- The **table helpers** (`ProjectFilesList`, `DocumentList`): the check-box
  selection handlers, the page count, the "Showing a to b of n" range, the
  five-button page window, and the request the document table sends.
- The **status window** derivations and effects (`UploadStatusWindow`) and
  the **sidebar** route tests (`Sidebar`).

`Common` holds the shared list operations, each written to follow
JavaScript's:

- `Filter`;
- `Sort`, a stable insertion sort driven by an integer comparator;
- `Slice`, which follows `Array.prototype.slice`'s index rules;
- `CeilDiv` for `Math.ceil(n / d)`;
- `Page`/`Pages`, the pages of a list;
- the `${Date.now()}-${name}` id.

Inputs that come from outside are parameters:

- clock readings and locale time text;
- the JSON document list;
- `localeCompare`, as `lc`;
- date parsing, as `time`;
- the current path.

## Model

| member | source | states |
|---|---|---|
| UploadStore.UploadTracker.constructor | my-app/lib/store/upload-store.ts:38-42 | The tracker starts with no records, the window hidden and expanded, on the "all" tab. |
| UploadStore.UploadTracker.AddFiles | my-app/lib/store/upload-store.ts:44-60 | The new records (returned) are appended after all existing ones, one per input, in input order. The window is then shown and expanded, even for an empty input. The tab is unchanged. |
| UploadStore.NewRecords | my-app/lib/store/upload-store.ts:45-51 | One record per input. Each copies the input's fields and has id `now-name`, the locale stamp, status "uploading" and progress 0. |
| UploadStore.NewIdsCollideIffSameName | my-app/lib/store/upload-store.ts:47 | Two records made in one call share an id exactly when their file names are equal. |
| Common.TimestampedIdInjective | my-app/lib/store/upload-store.ts:47 | With the same clock reading, the ids are equal iff the names are. |
| UploadStore.UploadTracker.UpdateFileProgress | my-app/lib/store/upload-store.ts:62-66 | Every record with the id gets the given progress, unclamped. All other records and fields and the length are unchanged. |
| UploadStore.SetProgress | my-app/lib/store/upload-store.ts:64 | Pointwise: a record with the id gets the progress, any other is kept. |
| UploadStore.UploadTracker.UpdateFileStatus | my-app/lib/store/upload-store.ts:68-74 | Every record with the id gets the status. It gets the error only when the error is present and non-empty; otherwise the old error is kept. |
| UploadStore.SetStatus | my-app/lib/store/upload-store.ts:70-72 | Pointwise form of the status update, with the truthiness rule for the error. |
| UploadStore.UnknownIdIsNoOp | my-app/lib/store/upload-store.ts:62-74 | An id that no record carries leaves the list unchanged, for both updates. |
| UploadStore.StaleErrorIsKept | my-app/lib/store/upload-store.ts:71 | A failure with a message, then a completion without one, leaves the record completed but still carrying the old message. |
| UploadStore.UploadTracker.RemoveFile | my-app/lib/store/upload-store.ts:76-80 | The records with the id are dropped. Exactly the others remain, in order. |
| UploadStore.RemoveDropsExactlyId | my-app/lib/store/upload-store.ts:78 | The kept records are exactly those without the id. The kept and dropped counts add up to the length. |
| UploadStore.UploadTracker.ClearCompleted | my-app/lib/store/upload-store.ts:82-86 | Exactly the records not "completed" remain, in their original order. |
| UploadStore.ClearCompletedIdempotent | my-app/lib/store/upload-store.ts:84 | Clearing twice is clearing once. |
| UploadStore.ClearCompletedExample | my-app/lib/store/upload-store.ts:82-86 | From completed, uploading, completed, failed, only the second and fourth remain, in that order. |
| UploadStore.UploadTracker.SetShowStatusWindow | my-app/lib/store/upload-store.ts:88-90 | Only `showStatusWindow` changes. |
| UploadStore.UploadTracker.SetMinimized | my-app/lib/store/upload-store.ts:92-94 | Only `isMinimized` changes. |
| UploadStore.UploadTracker.SetActiveTab | my-app/lib/store/upload-store.ts:96-98 | Only `activeTab` changes. |
| UploadStore.Partialize | my-app/lib/store/upload-store.ts:102 | The saved snapshot keeps the records and the tab and drops the two window flags. |
| UploadStore.Rehydrate | my-app/lib/store/upload-store.ts:37-42 | Loading lays the saved fields over the initial state. |
| UploadStore.PersistRoundTrip | my-app/lib/store/upload-store.ts:102 | Save then load keeps records and tab and resets both flags. Saving again gives the same snapshot. |
| UploadStore.UploadTracker.Persisted | my-app/lib/store/upload-store.ts:102 | The tracker's snapshot holds its records and tab. |
| ProjectStore.ProjectStore.constructor | my-app/lib/store.ts:37-39 | No projects, no selected project, empty selection. |
| ProjectStore.ProjectStore.AddProject | my-app/lib/store.ts:40-43 | The project is appended and the other fields are unchanged. |
| ProjectStore.ProjectStore.AddDocument | my-app/lib/store.ts:44-49 | The document is appended to every project with the id. Other projects and the project order are unchanged. |
| ProjectStore.WithDocument | my-app/lib/store.ts:46-48 | Pointwise form of the addDocument update. |
| ProjectStore.WithDocumentUnknownId | my-app/lib/store.ts:44-49 | An unknown project id leaves the projects unchanged. |
| ProjectStore.ProjectStore.SelectProject | my-app/lib/store.ts:50 | Only the selected project changes. |
| ProjectStore.ProjectStore.SelectDocument | my-app/lib/store.ts:51-54 | The id is appended even when already selected, so the length grows by exactly one. |
| ProjectStore.ProjectStore.UnselectDocument | my-app/lib/store.ts:55-58 | Every occurrence of the id goes. The rest keep their order. |
| ProjectStore.UnselectRemovesAllOccurrences | my-app/lib/store.ts:57 | The id's count drops to 0 and every other id keeps its count. |
| ProjectStore.Unselected | my-app/lib/store.ts:57 | The selection without the id, in order. UnselectRemovesAllOccurrences gives its counts. |
| ProjectStore.FindProject | my-app/lib/store.ts:61 | Nothing iff no project has the id. Otherwise it returns the first project with the id. |
| ProjectStore.DocumentIds | my-app/lib/store.ts:64 | The document ids, in document order. |
| ProjectStore.ProjectStore.SelectAllDocuments | my-app/lib/store.ts:59-66 | The selection becomes the document ids of the first project with the id, or empty when there is none. |
| ProjectStore.AllDocumentsOf | my-app/lib/store.ts:59-66 | The first matching project's document ids, or empty. SelectAllUsesFirstMatch is its partner. |
| ProjectStore.SelectAllUsesFirstMatch | my-app/lib/store.ts:61-64 | When several projects share the id, the first one's documents are selected. |
| ProjectStore.ProjectStore.UnselectAllDocuments | my-app/lib/store.ts:67 | The selection is emptied and nothing else changes. |
| DocumentsService.WithDefaults | my-app/lib/documents-service.ts:24-29 | Each undefined argument takes its default: page 1, size 25, "name", "asc", no review filter. |
| DocumentsService.Considered | my-app/lib/documents-service.ts:44-46 | With the review filter, exactly the unreviewed files are considered. Without it, every document is. |
| DocumentsService.ConsideredCounts | my-app/lib/documents-service.ts:44-46 | Under the review filter each unreviewed file is kept as often as it occurs and nothing else is kept. So the total counts occurrences. |
| DocumentsService.SortIsPermutation | my-app/lib/documents-service.ts:49-70 | The sorted list is a permutation of the considered documents. |
| DocumentsService.CompareDocuments | my-app/lib/documents-service.ts:49-70 | The sort comparator: 0/1 review ranks for "reviewed"; otherwise `lc` on the two field strings, or a tie when either is missing. "asc" keeps the argument order and anything else swaps it. |
| DocumentsService.ComparisonDirection | my-app/lib/documents-service.ts:51-69 | Any order other than "asc" is the "asc" comparison with the arguments swapped. A document without the field as a string ties with any other. |
| DocumentsService.Comparator | my-app/lib/documents-service.ts:49 | The comparator as the function value handed to the sort. |
| DocumentsService.SortedDocuments | my-app/lib/documents-service.ts:44-70 | The considered documents in the comparator's stable order. Its properties are stated by SortIsPermutation, ReviewedSortOrder and NameSortOrder. |
| DocumentsService.ReviewComparatorConsistent | my-app/lib/documents-service.ts:51-55 | The "reviewed" comparator is a total preorder in either direction. |
| DocumentsService.ReviewedSortOrder | my-app/lib/documents-service.ts:51-55 | Sorting by "reviewed" with "asc" puts every unreviewed document before every reviewed one. Any other order does the reverse. |
| DocumentsService.NameSortOrder | my-app/lib/documents-service.ts:58-67 | With a consistent string order, sorting by name orders the names: ascending for "asc", descending otherwise. |
| Common.Sort | my-app/lib/documents-service.ts:49 | The sort keeps the length and the multiset of elements. |
| Common.Filter | my-app/lib/store/upload-store.ts:78 | `Array.filter`: never longer than the list, and every element kept satisfies the predicate. FilterMembers, FilterCount and FilterConcat state the rest. |
| Common.SortSorted | my-app/lib/documents-service.ts:49 | With a consistent comparator, the sort's result is ordered by it. |
| Common.SortOfSorted | my-app/lib/documents-service.ts:49 | A list already ordered by the comparator is left as it is (stability). |
| DocumentsService.FetchDocuments | my-app/lib/documents-service.ts:72-88 | `total` is the considered count and `pageCount` its ceiling over the page size. `page` and `pageSize` are echoed. `data` holds at most pageSize documents and is the sorted list's [(page−1)·size, page·size) window. |
| Common.CeilDiv | my-app/lib/documents-service.ts:74 | The least count of pages covering n: r·d ≥ n, (r−1)·d < n, and 0 only for n = 0. |
| Common.Slice | my-app/lib/documents-service.ts:77 | For 0 ≤ start ≤ end, the slice is the list between the clamped indices. |
| Common.Page | my-app/lib/documents-service.ts:75-77 | A page has at most pageSize elements and is the clamped window of its page number. |
| DocumentsService.TotalIgnoresPagingAndSort | my-app/lib/documents-service.ts:73 | The total depends only on the list and the review filter. |
| DocumentsService.PageBeyondCountIsEmpty | my-app/lib/documents-service.ts:75-77 | A page past pageCount is empty. |
| Common.PageBeyondLastIsEmpty | my-app/lib/documents-service.ts:75-77 | A page past the ceiling of the length over the page size is empty. |
| DocumentsService.PagesReassembleSortedList | my-app/lib/documents-service.ts:73-81 | Every page fetched is the same-numbered page of one sorted list. Pages 1 to pageCount, concatenated, give that whole list back. |
| Common.PagesArePrefix | my-app/lib/documents-service.ts:75-77 | Pages 1 to k, concatenated, are the first k·pageSize elements. |
| Common.AllPagesGiveList | my-app/lib/documents-service.ts:74-77 | All pages concatenated are the list. |
| ProjectFilesService.DeclaredFiles | my-app/lib/project-files-service.ts:22-115 | The ten declared entries, with ids built from the project id. |
| ProjectFilesService.DeclaredIdsDistinct | my-app/lib/project-files-service.ts:24-106 | The ten ids are pairwise different and each begins with the project id and a dash. |
| ProjectFilesService.FolderFiles | my-app/lib/project-files-service.ts:121-148 | The three folder entries, with ids built from the folder id. |
| ProjectFilesService.FolderIdsDistinct | my-app/lib/project-files-service.ts:121-148 | The three folder ids are pairwise different and each begins with the folder id and a dash. |
| ProjectFilesService.FetchProjectFiles | my-app/lib/project-files-service.ts:13-165 | A truthy folder id gives the folder entries whatever the filter. Otherwise "all" gives the declared list, and "recent" and "review" their views. Outside a folder every entry comes from the declared list. |
| ProjectFilesService.Recent | my-app/lib/project-files-service.ts:154-158 | At most five entries (min(5, n)), all from the list. |
| ProjectFilesService.NewestFirst | my-app/lib/project-files-service.ts:157 | The "recent" comparator: the later modification time sorts first. Its consistency is NewestFirstConsistent. |
| ProjectFilesService.RecentIsNewest | my-app/lib/project-files-service.ts:156-158 | The recent entries are in descending time. No entry left out is newer than any entry kept. |
| ProjectFilesService.NewestFirstConsistent | my-app/lib/project-files-service.ts:157 | The newest-first comparator is a total preorder. |
| ProjectFilesService.RecentOfOrderedList | my-app/lib/project-files-service.ts:156-158 | A list already newest-first gives its first five entries. |
| ProjectFilesService.RecentProjectFilesAreFirstFive | my-app/lib/project-files-service.ts:22-158 | When the date parse respects the declared newest-first order, "recent" is the first five declared entries. |
| ProjectFilesService.Review | my-app/lib/project-files-service.ts:159-161 | Exactly the files that are not reviewed, all from the list. |
| ProjectFilesService.ReviewIsUnreviewedFiles | my-app/lib/project-files-service.ts:22-115 | For the declared list, "review" is its second, fifth, eighth and tenth entries, in that order. |
| UploadFilesModal.Classify | my-app/components/upload-files-modal.tsx:96-116 | Pending iff the type is allowed and the size is at most 500·1024·1024; otherwise an error. The error is "File type not allowed" exactly when the type is not allowed, whatever the size. An allowed file that is too large gets "File exceeds 500MB limit". Progress 0, id `now-name`. |
| UploadFilesModal.ClassifyAll | my-app/components/upload-files-modal.tsx:94-119 | One entry per selected file, in order, the i-th classified at the i-th clock reading. |
| UploadFilesModal.UploadFilesModal.HandleFileSelect | my-app/components/upload-files-modal.tsx:88-130 | A missing selection changes nothing. Otherwise one classified entry per file is appended, valid or not, in order. The toast shows iff some file was rejected. |
| UploadFilesModal.UploadFilesModal.constructor | my-app/components/upload-files-modal.tsx:81-83 | The dialog starts with no entries, not dragging and not uploading. |
| UploadFilesModal.UploadFilesModal.RemoveFile | my-app/components/upload-files-modal.tsx:167-169 | Exactly the entries with the id are dropped, and the rest keep their order. |
| UploadFilesModal.UploadFiles | my-app/components/upload-files-modal.tsx:172-186 | The toast iff the list is empty or all errors. Otherwise the pending entries' files are handed over, in order. |
| UploadFilesModal.PendingFiles | my-app/components/upload-files-modal.tsx:182 | The files of the pending entries, in list order. PendingFilesMembers states its members. |
| UploadFilesModal.PendingFilesMembers | my-app/components/upload-files-modal.tsx:182 | A file is handed over iff some pending entry holds it. |
| UploadFilesModal.UploadHandsOverPending | my-app/components/upload-files-modal.tsx:173-184 | For lists the dialog builds, an upload happens iff some entry is pending, and it never hands over nothing. |
| UploadFilesModal.UploadFilesModal.HandleClose | my-app/components/upload-files-modal.tsx:189-200 | The upload-in-progress flag is never set, so closing always empties the list. |
| UploadFilesModal.UploadFilesModal.Drop | my-app/components/upload-files-modal.tsx:159-164 | A drop ends the drag and selects the dropped files. |
| UploadFilesModal.UploadFilesModal.DragEnter | my-app/components/upload-files-modal.tsx:142-146 | The drag flag is set and the list is unchanged. |
| UploadFilesModal.UploadFilesModal.DragLeave | my-app/components/upload-files-modal.tsx:148-152 | The drag flag is cleared and the list is unchanged. |
| UploadFilesModal.AllowedTypesHaveNames | my-app/components/upload-files-modal.tsx:18-52 | Every allowed type has a display name, and every named type is allowed. |
| ProjectFilesList.HeaderChecked | my-app/components/project-files-list.tsx:81 | Checked iff there is a row and every row id is selected. |
| ProjectFilesList.HeaderToggled | my-app/components/project-files-list.tsx:82-87 | The header handler's new selection: all row ids when checked, none when unchecked. HeaderToggleRoundTrip is its partner. |
| ProjectFilesList.SelectionState.constructor | my-app/components/project-files-list.tsx:55 | The selection starts as the value the list receives, array or not. |
| ProjectFilesList.HeaderToggleRoundTrip | my-app/components/project-files-list.tsx:82-87 | Checking selects exactly the rows, so the header and every row box read checked. Unchecking clears everything. |
| ProjectFilesList.SelectionState.ToggleHeader | my-app/components/project-files-list.tsx:82-87 | The selection becomes the row ids in row order, or empty. |
| ProjectFilesList.SelectionState.ToggleRow | my-app/components/project-files-list.tsx:98-103 | The row's box then reads as the value given. |
| ProjectFilesList.RowToggleCounts | my-app/components/project-files-list.tsx:98-103 | Checking adds one occurrence of the id, with no duplicate check. Unchecking removes all occurrences and keeps every other id. |
| ProjectFilesList.RowToggled | my-app/components/document-list.tsx:102-108 | The document table's row handler gives an array in all cases. |
| ProjectFilesList.PageCount | my-app/components/project-files-list.tsx:338 | ceil(rows / pageSize). |
| ProjectFilesList.RangeStart | my-app/components/project-files-list.tsx:444 | The first number of "Showing a to b of n": at least 1. |
| ProjectFilesList.RangeEnd | my-app/components/project-files-list.tsx:444 | The second number: never above the total. |
| ProjectFilesList.RangeCountsPageRows | my-app/components/project-files-list.tsx:444 | The range end never passes the total. On an existing page the range counts exactly that page's rows. An empty list reads "1 to 0". |
| ProjectFilesList.WindowNumbers | my-app/components/project-files-list.tsx:457-463 | min(5, pageCount) numbers, computed by the start/end/middle rule. |
| ProjectFilesList.PageNumber | my-app/components/project-files-list.tsx:458-463 | The number of button `index` by the start/end/middle rule, as written. |
| ProjectFilesList.RenderedPages | my-app/components/project-files-list.tsx:457-465 | The buttons rendered: the window numbers that are not above pageCount. |
| ProjectFilesList.RenderedPagesBounded | my-app/components/project-files-list.tsx:457-465 | At most min(5, pageCount) buttons, and none numbered above pageCount. |
| ProjectFilesList.FullWindowIsGood | my-app/components/project-files-list.tsx:457-465 | With at least five pages, there are five consecutive buttons in [1, pageCount] including the current page. |
| ProjectFilesList.ShortListShowsNonPositivePages | my-app/components/project-files-list.tsx:457-465 | On page 3 of 3 the buttons are -1, 0, 1. |
| ProjectFilesList.ShortListWindowStartsBelowOne | my-app/components/project-files-list.tsx:461-465 | With fewer than five pages, from the third page on a button numbered 0 or below is rendered. |
| ProjectFilesList.CorrectedWindow | my-app/components/project-files-list.tsx:457-465 | min(5, pageCount) consecutive numbers from the corrected start. |
| ProjectFilesList.CorrectedWindowIsGood | my-app/components/project-files-list.tsx:457-465 | For any existing page: min(5, pageCount) consecutive numbers in [1, pageCount] including the current page. |
| ProjectFilesList.CorrectedWindowAgrees | my-app/components/document-list.tsx:401-409 | With five pages or more, the corrected window is what the code renders. |
| DocumentList.RequestAsWritten | my-app/components/document-list.tsx:58-65 | The page is pageIndex + 1 and the size comes from state. The column is the first sort entry or "name". The order is undefined when sorting, else "asc". |
| DocumentList.DescendingIsNeverRequested | my-app/components/document-list.tsx:63 | As written, the service always sorts ascending. |
| DocumentList.Request | my-app/components/document-list.tsx:58-65 | The corrected request: the same page, size, column and filter. |
| DocumentList.RequestFollowsSorting | my-app/components/document-list.tsx:58-65 | The order is "desc" iff the first entry is descending. With no sorting it is "name"/"asc". Page and size come from state. |
| DocumentList.DescendingNameSortIsHonoured | my-app/components/document-list.tsx:62-63 | A descending name sort lists names in descending order. |
| DocumentList.ViewOf | my-app/components/document-list.tsx:71-73 | A missing result gives no rows, pageCount 0 and total 0. |
| DocumentList.MissingResultShowsNoPages | my-app/components/document-list.tsx:401-409 | Without a result there are no page buttons and the range ends at 0. |
| DocumentList.RangeMatchesFetchedPage | my-app/components/document-list.tsx:388 | The range never passes the total and counts exactly the rows the service returns for the page. |
| UploadStatusWindow.StatusListsPartition | my-app/components/upload-status-window.tsx:38-40 | The completed, failed and active counts add up to the number of records. |
| UploadStatusWindow.CompletedFiles | my-app/components/upload-status-window.tsx:38 | The completed records, in order. |
| UploadStatusWindow.FailedFiles | my-app/components/upload-status-window.tsx:39 | The failed records, in order. |
| UploadStatusWindow.ActiveFiles | my-app/components/upload-status-window.tsx:40 | The uploading or processing records, in order. |
| UploadStatusWindow.FilteredFiles | my-app/components/upload-status-window.tsx:42-51 | The records of the chosen tab. TabListsItsRecords states them. |
| UploadStatusWindow.Renders | my-app/components/upload-status-window.tsx:53 | The window is drawn iff it is to be shown and there are records. |
| UploadStatusWindow.TabListsItsRecords | my-app/components/upload-status-window.tsx:42-51 | Each tab lists, in order, exactly its records: "completed" the completed, "failed" the failed, "all" every record. |
| UploadStatusWindow.Badge | my-app/components/upload-status-window.tsx:53-76 | The badge in the drawn header shows iff the window is drawn and some record is uploading or processing. It then shows their count. |
| UploadStatusWindow.ClearCompletedOffered | my-app/components/upload-status-window.tsx:53-150 | Offered iff the window is drawn and expanded, the tab is "completed", and some record is completed. |
| UploadStatusWindow.AfterEffects | my-app/components/upload-status-window.tsx:25-36 | Minimized only if it was and nothing is active. Shown only if it was and there are records. Records and tab are unchanged. |
| UploadStatusWindow.EffectsSettle | my-app/components/upload-status-window.tsx:25-53 | The effects are idempotent. Afterwards the window is drawn exactly when it is to be shown. |
| UploadStatusWindow.AddedFilesAreShown | my-app/components/upload-status-window.tsx:25-53 | After files are added, the window is drawn and expanded. |
| UploadStatusWindow.ApplyEffects | my-app/components/upload-status-window.tsx:25-36 | The tracker's new state is the effects applied to the old. |
| UploadStatusWindow.ClickMinimize | my-app/components/upload-status-window.tsx:84 | The setter receives the negated flag. |
| UploadStatusWindow.ClickClose | my-app/components/upload-status-window.tsx:93 | The window is hidden and no longer drawn. The records are kept. |
| UploadStatusWindow.ClickClearCompleted | my-app/components/upload-status-window.tsx:144-150 | Only the records change: the completed ones are cleared. The window flags and the tab are unchanged, the tab lists nothing, and the button is no longer offered. |
| Sidebar.ProjectsSectionShape | my-app/components/sidebar.tsx:21 | In the projects section iff the path is "/projects" followed by nothing or by "/". "/projectsX" is not in it. |
| Sidebar.IsHome | my-app/components/sidebar.tsx:20 | The home link is highlighted exactly on "/". |
| Sidebar.IsProjects | my-app/components/sidebar.tsx:21 | The projects section: "/projects" or a path beginning with "/projects/". |
| Sidebar.AllProjectsHighlighted | my-app/components/sidebar.tsx:85 | "All projects" is highlighted in the projects section on exactly "/projects". |
| Sidebar.ProjectItemActive | my-app/components/sidebar.tsx:107 | A project entry is active exactly on "/projects/" followed by its id. |
| Sidebar.HighlightsAreExclusive | my-app/components/sidebar.tsx:20-21 | Home and projects are never both highlighted. "All projects" is highlighted iff the path is "/projects". |
| Sidebar.ActiveItemIsUnique | my-app/components/sidebar.tsx:107 | An active project item implies the projects section and no "All projects" highlight. Two active items have the same id. |

## Left out

- The simulated network delays, React rendering, animations, dialogs, toasts' texts and the query library's fetching and caching.
- The persistence layer's storage I/O. Only the `partialize` projection and loading over the initial state are modelled.
- The timer-driven upload simulation, `formatFileSize` (floating point) and `formatDate` (locale formatting).
- UploadStore.UploadTracker.AddFiles: one clock reading and one locale time text per call. The store reads the clock for each record, so ids of same-named files made in one call collide only when those readings agree.
- UploadStore.UploadTracker.UpdateFileProgress: progress is an integer. Fractional JavaScript numbers are not modelled.
- DocumentsService.FetchDocuments: requires a positive page size. With 0 the page count would be Infinity or NaN, which is not modelled. Callers pass 25.
- ProjectFilesList.PageCount: requires a positive page size, for the same reason.
- Common.Sort: for a comparator that is not a consistent order, `Array.prototype.sort`'s result is implementation-defined. The model fixes it to the stable insertion order.
- `localeCompare` is the parameter `lc` and the date parse is the parameter `time`. The bundled JSON document list is the parameter `all`.
- The rows of the tables' header handlers are a parameter: the table library's row model is not part of this model.
- The sidebar's project list query and the create-project dialog.

## Findings

| source | as written | input that shows it | evidently intended | confidence | as-written member | corrected member |
|---|---|---|---|---|---|---|
| my-app/components/project-files-list.tsx:457-465 | Near the end, the buttons start at pageCount − 4 and only numbers above pageCount are dropped. document-list.tsx:401-409 repeats this. | pageCount 3, pageIndex 2 (page 3 of 3) gives buttons −1, 0, 1 | buttons 1, 2, 3: the window starts at 1 or above | not executed | ProjectFilesList.ShortListShowsNonPositivePages | ProjectFilesList.CorrectedWindowIsGood |
| my-app/components/document-list.tsx:63 | sortOrder reads `sorting[0].direction`. A sort entry has `id` and `desc` and no `direction`, so the service receives undefined and uses "asc". | sorting [{id: "name", desc: true}] fetches names ascending | sortOrder "desc" when `desc` is true | not executed | DocumentList.DescendingIsNeverRequested | DocumentList.RequestFollowsSorting |
