# DropZone file manager: a Dafny model of its core

DropZone is a browser file manager. Files are dropped onto an upload area,
checked against a list of allowed types and a 10 MB size limit, uploaded
with a simulated progress bar and stored in an in-memory file store. Files
can be sorted into nested folders that are shown as a collapsible tree. The
home page sums up the stored files.

This project models the part of the program that holds its logic:

- the three in-memory stores (`fileService`, `uploadSessionService`,
  `folderService`). Each keeps a list of records and updates it in place.
  Here each is a class with a `seq` field:
  - `FileStore.FileService` and `SessionStore.UploadSessionService` keep
    untyped records, modelled as `map<string, Value>`. A JavaScript object
    spread is map union.
  - `FolderStore.FolderService` keeps typed `Folder` values.
- the folder operations that go beyond list handling:
  - the recursive cascade of `delete`;
  - `buildFolderTree` (module `FolderForest`);
  - `getFolderPath`.
- the upload component (`MainFeature.jsx`), as the class
  `UploadFlow.MainFeature`:
  - file validation and the valid/invalid partition (module
    `UploadValidation`);
  - the list of uploads in flight and how each step of an upload changes
    it;
  - storing a finished upload through the file store;
  - merging the results into the file list;
  - the folder filter and the delete handler.
- the folder tree panel (`FolderTree.jsx`), as `TreeView.FolderTreePanel`:
  - the nested tree the panel renders;
  - the initial set of expanded folders;
  - the toggle, which keeps the panel's set and the store's flags in step;
  - the rows `renderFolder` draws.
- the home page figures (`Home.jsx`), as `HomeStats.HomePage`: the file
  count, total size and uploads of today.

Folder ids are natural numbers. Folder hierarchies are assumed acyclic, and
the proofs express this with a ghost ranking `rank: nat -> nat`: a child
ranks strictly above its parent (`FolderModel.Ranked`).

Three sets describe a cascade:

- `Desc(fs, rank, a)`: the ids of the stored folders that reach `a` through
  parent links.
- `Subtree(fs, rank, a)`: `Desc` plus `a` itself.
- `Keep(fs, gone)`: the list `fs` with the folders whose ids are in `gone`
  filtered out, in order.

These inputs are passed in as parameters:

- generated ids (`Date.now()`, `Date.now() + Math.random()`);
- timestamps;
- object URLs;
- whether a date is today;
- whether an upload fails.

## Model

| member | source | states |
|---|---|---|
| Values.Spread | src/services/api/fileService.js:39 | `{ ...base, ...over }`: the keys of both, with every key of `over` taking its value from `over` and the rest from `base`. |
| RecordList.IndexOfId | src/services/api/fileService.js:36 | `findIndex` by `id`: -1 exactly when no record has the id, otherwise the first record with it. |
| RecordList.FindById | src/services/api/fileService.js:17-21 | `find` by `id`: `None` exactly when no record has the id, otherwise a stored record with that id. |
| RecordList.RemoveAt | src/services/api/fileService.js:48 | `splice(i, 1)` drops exactly position `i` and shifts the later records down by one. |
| RecordList.WithField | src/services/api/fileService.js:52-55 | `filter` on one field keeps exactly the records whose field equals the value. |
| RecordList.WithFieldConcat | src/services/api/fileService.js:52-55 | The field filter distributes over concatenation. |
| RecordList.AppendThenRemoveRestores | src/services/api/fileService.js:23-50 | Creating a record with a new id and then deleting that id gives back the original list. |
| RecordList.UpdateKeepsPosition | src/services/api/fileService.js:34-41 | An update that does not touch `id` leaves the updated record as the first match for its id. |
| FileStore.NewFile | src/services/api/fileService.js:23-32 | The stored record keeps every field of the input. It gains `id` and `uploadedAt` only where the input lacks them, and it has no other keys. |
| FileStore.FileService.constructor | src/services/api/fileService.js:4-6 | The store starts with the given records. |
| FileStore.FileService.GetAll | src/services/api/fileService.js:12-15 | Returns the stored list. |
| FileStore.FileService.GetById | src/services/api/fileService.js:17-21 | `None` exactly when no stored record has the id, otherwise the first record with it. |
| FileStore.FileService.Create | src/services/api/fileService.js:23-32 | Appends the completed record at the end and returns it. |
| FileStore.FileService.Update | src/services/api/fileService.js:34-41 | Fails with "File not found" and changes nothing when the id is absent. Otherwise it merges the update into the first match only and returns the merged record. |
| FileStore.FileService.Delete | src/services/api/fileService.js:43-50 | Fails with "File not found" and changes nothing when the id is absent. Otherwise it removes the first match only and returns it. |
| FileStore.FileService.GetByStatus | src/services/api/fileService.js:52-55 | Returns the stored records with that status, in storage order. |
| SessionStore.NewSession | src/services/api/uploadSessionService.js:23-33 | The session keeps every input field. It gains `id`, `startTime` and `completed: false` only where the input lacks them. |
| SessionStore.UploadSessionService.constructor | src/services/api/uploadSessionService.js:4-6 | The store starts with the given sessions. |
| SessionStore.UploadSessionService.GetAll | src/services/api/uploadSessionService.js:12-15 | Returns the stored list. |
| SessionStore.UploadSessionService.GetById | src/services/api/uploadSessionService.js:17-21 | `None` exactly when no session has the id, otherwise the first session with it. |
| SessionStore.UploadSessionService.Create | src/services/api/uploadSessionService.js:23-33 | Appends the completed session and returns it. |
| SessionStore.UploadSessionService.Update | src/services/api/uploadSessionService.js:35-42 | Fails with "Upload session not found" and changes nothing when the id is absent. Otherwise it merges into the first match only. |
| SessionStore.UploadSessionService.Delete | src/services/api/uploadSessionService.js:44-51 | Fails with "Upload session not found" and changes nothing when the id is absent. Otherwise it removes and returns the first match. |
| FolderModel.IndexOf | src/services/api/folderService.js:51 | -1 exactly when no folder has the id, otherwise the first folder with it. |
| FolderModel.Find | src/services/api/folderService.js:15-19 | `None` exactly when no folder has the id, otherwise a stored folder with that id. |
| FolderModel.FindAtIndex | src/services/api/folderService.js:15-19 | `find` and `findIndex` agree. |
| FolderModel.ChildrenOf | src/services/api/folderService.js:21-26 | Keeps exactly the folders with the given parent. |
| FolderModel.Keep | src/services/api/folderService.js:65-87 | Keeps exactly the folders whose ids are outside the removed set. |
| FolderModel.ChildrenCoverDesc | src/services/api/folderService.js:73-82 | The subtrees of a folder's direct children together make up exactly its descendants, so recursing into each child reaches every descendant. |
| FolderModel.SiblingsDisjoint | src/services/api/folderService.js:73-82 | No folder in the subtrees of the earlier children is, or descends to, a later child. Removing the earlier children's subtrees therefore leaves each later child and its subtree in place for its own turn. |
| FolderModel.NotOwnDescendant | src/services/api/folderService.js:73-82 | Under an acyclic hierarchy no folder is its own descendant, so the cascade never removes its own target early. |
| FolderModel.KeepKeep | src/services/api/folderService.js:73-82 | Two successive removals equal one removal of the union. |
| FolderModel.RemoveInKeep | src/services/api/folderService.js:79-80 | Splicing a folder at its current index in a filtered list equals filtering that folder out too. |
| FolderModel.DescKeep | src/services/api/folderService.js:73-82 | Removing folders that are not below `a` leaves `a`'s descendants unchanged. |
| FolderStore.Patched | src/services/api/folderService.js:56-60 | Each folder field the patch carries (`id`, `name`, `parentId`, `isExpanded`, `createdAt`) replaces the folder's. Every field the patch lacks is kept, and `updatedAt` is always `now`. |
| FolderStore.PatchKeepsPosition | src/services/api/folderService.js:49-63 | A patch without `id` leaves the updated folder the first match for its id. |
| FolderStore.StoredParent | src/services/api/folderService.js:40 | `parentId \|\| null`: the stored parent is null exactly when the argument is null or 0, and is the argument otherwise. |
| FolderStore.ToggleTwiceRestores | src/services/api/folderService.js:89-98 | Toggling a folder twice restores every field except `updatedAt`. |
| FolderStore.Toggled | src/services/api/folderService.js:89-98 | The store after a toggle: same length and the same ids, names and parents everywhere. Only the first match changes, with its flag negated and `updatedAt` set to now; an unknown id changes nothing. |
| FolderStore.ChainShape | src/services/api/folderService.js:127-139 | A folder's path ends with its own name and has at most rank + 1 entries. |
| FolderStore.Chain | src/services/api/folderService.js:131-136 | The names collected by the walk from a stored folder up its parents are never empty and end with the folder's own name. |
| FolderStore.PathNames | src/services/api/folderService.js:127-137 | The names for an id are empty exactly when no folder holds the id. Otherwise they end with the name of the first folder holding it. |
| FolderStore.ThreeLevelPath | src/services/api/folderService.js:127-139 | For a root `a`, a child `b` and a grandchild `c`, the path of `c` is "a / b / c". |
| FolderStore.PathNamesOf | src/services/api/folderService.js:127-139 | The path of a stored folder is its ancestor chain, root first. |
| FolderStore.ChainOfChild | src/services/api/folderService.js:131-136 | A child's path is its parent's path followed by its own name. |
| FolderStore.Join | src/services/api/folderService.js:138 | `join(sep)` gives "" for no parts and the part itself for one part. |
| FolderStore.FolderService.constructor | src/services/api/folderService.js:6-8 | The store starts with the given folders. |
| FolderStore.FolderService.GetAll | src/services/api/folderService.js:10-13 | Returns the stored list. |
| FolderStore.FolderService.GetById | src/services/api/folderService.js:15-19 | `None` exactly when no folder has the id, otherwise the first folder with it. |
| FolderStore.FolderService.GetByParentId | src/services/api/folderService.js:21-26 | Returns exactly the folders with that parent, in storage order. |
| FolderStore.FolderService.GetRootFolders | src/services/api/folderService.js:28-33 | Returns exactly the folders without a parent, in storage order. |
| FolderStore.FolderService.Create | src/services/api/folderService.js:35-47 | Appends a collapsed folder with the fresh id, the normalised parent and both timestamps set to now, and returns it. |
| FolderStore.FolderService.Update | src/services/api/folderService.js:49-63 | Fails with "Folder not found" and changes nothing when the id is absent. Otherwise it replaces the first match by the patched folder and returns it. |
| FolderStore.FolderService.ToggleExpanded | src/services/api/folderService.js:89-98 | Fails with "Folder not found" when the id is absent. Otherwise it flips `isExpanded` of the first match and sets its `updatedAt`, and leaves every other folder alone. |
| FolderStore.FolderService.DeleteChildFolders | src/services/api/folderService.js:73-82 | The recursive cascade removes exactly the stored descendants of the parent and keeps the rest in order. |
| FolderStore.FolderService.Delete | src/services/api/folderService.js:65-87 | Fails with "Folder not found" and changes nothing when the id is absent. Otherwise it removes exactly the folder and its descendants, keeps every other folder in order and returns `true` (corrected index; see Findings). |
| FolderStore.DeleteLeavesNoDangling | src/services/api/folderService.js:65-87 | After a delete no remaining folder has a removed folder as its parent. |
| FolderStore.StaleIndexCounterexample | src/services/api/folderService.js:67-85 | The source's delete, on the store [B (child of A), A, C], removes B and C and keeps A. The intended result keeps only C. |
| FolderStore.DeleteAsWritten | src/services/api/folderService.js:65-87 | The source's delete with the index taken before the cascade. It fails exactly when the id is absent. Otherwise the result holds only stored non-descendants and is at most one folder shorter than the store without descendants. |
| FolderStore.StaleIndexHarmlessWhenTargetFirst | src/services/api/folderService.js:67-85 | When no descendant is stored before the target, the source's delete gives the intended result. |
| FolderStore.FolderService.GetFolderTree | src/services/api/folderService.js:122-125 | Returns the forest built from the stored folders. |
| FolderStore.FolderService.GetFolderPath | src/services/api/folderService.js:127-139 | Walks parent links up from the folder and returns the names, root first, joined by " / ". The result is empty for an unknown id. |
| FolderForest.IdList | src/services/api/folderService.js:114-115 | The ids of a folder list, position by position. |
| FolderForest.LastIndexOf | src/services/api/folderService.js:106-108 | The last position holding the id, or -1 when there is none. |
| FolderForest.IdSet | src/services/api/folderService.js:106-108 | The ids that occur in the list, at most one per record. |
| FolderForest.IndexNodes | src/services/api/folderService.js:106-108 | The first pass holds a node for exactly the ids in the list. Each node holds the last record with that id and has no children yet. |
| FolderForest.LinkNodes | src/services/api/folderService.js:110-117 | The second pass makes each node's children the ids of the records naming it as parent, and the roots the ids of the parentless records, both in input order. |
| FolderForest.Place | src/services/api/folderService.js:111-116 | One record of the second pass extends exactly the child list of its parent, or the roots. |
| FolderForest.BuildFolderTree | src/services/api/folderService.js:100-120 | The result is the forest of the list: nodes, children and roots as the two passes define them. |
| FolderForest.PlacedRecord | src/services/api/folderService.js:106-108 | With unique ids every record is the node for its own id. |
| FolderForest.EveryResolvedRecordPlaced | src/services/api/folderService.js:111-116 | Every parentless record is a root, and every record whose parent exists sits under that parent. |
| FolderForest.OrphanDropped | src/services/api/folderService.js:114-116 | A record whose parent id matches no record is neither a root nor anyone's child. |
| FolderForest.NodesBounded | src/services/api/folderService.js:106-108 | The nodes are the distinct ids of the list, so there are at most as many as there are records. |
| FolderForest.ChildNamesParent | src/services/api/folderService.js:114-115 | Every listed child is a node that names its holder as its parent. |
| FolderForest.RootIsParentless | src/services/api/folderService.js:111-113 | Every root is a node without a parent. |
| FolderForest.PlacedAreNodes | src/services/api/folderService.js:111-116 | Roots and listed children are all nodes. |
| FolderForest.PlacedOnce | src/services/api/folderService.js:111-116 | With unique ids a folder sits under at most one parent, and then it is not also a root. |
| UploadValidation.ValidateFile | src/components/MainFeature.jsx:51-59 | No error exactly when the type is allowed and the size is at most 10 MB. The type error takes precedence over the size error. |
| UploadValidation.SizeLimitBoundary | src/components/MainFeature.jsx:25 | 10485760 bytes is accepted and 10485761 is not. An unlisted type is rejected for its type first. |
| UploadValidation.ValidFiles | src/components/MainFeature.jsx:65-72 | Exactly the files that pass validation. |
| UploadValidation.Rejected | src/components/MainFeature.jsx:65-72 | Exactly the files that fail validation. |
| UploadValidation.ErrorLinesMatchRejected | src/components/MainFeature.jsx:65-72 | There is one error line per rejected file, in order, each "name: error". |
| UploadValidation.ErrorLine | src/components/MainFeature.jsx:53-68 | A rejected file's line is its name, ": " and the type message for a disallowed type. For an allowed type that is too large, the size message takes its place. |
| UploadValidation.ErrorLines | src/components/MainFeature.jsx:65-72 | The collected error lines are never more than the files. |
| UploadValidation.PartitionCounts | src/components/MainFeature.jsx:65-72 | Valid and rejected files together account for every input file. |
| UploadValidation.ValidFilesConcat | src/components/MainFeature.jsx:65-72 | The partition distributes over concatenation of file lists. |
| UploadValidation.Partition | src/components/MainFeature.jsx:61-72 | The `forEach` loop yields exactly the valid files and the error lines. Their counts add up to the input count. |
| UploadValidation.FileIcon | src/components/MainFeature.jsx:165-171 | For any type: `image/…` shows "Image", `video/…` "Video", `audio/…` "Music" and exactly "application/pdf" "FileText". "File" is shown exactly for a missing type or any other type. |
| UploadValidation.ImageTypeIcons | src/components/MainFeature.jsx:165-171 | The four allowed image types show "Image". |
| UploadValidation.DocumentTypeIcons | src/components/MainFeature.jsx:165-171 | PDF shows "FileText". Text and Word documents show "File". |
| UploadValidation.MediaTypeIcons | src/components/MainFeature.jsx:165-171 | The allowed video types show "Video" and the allowed audio types show "Music". |
| UploadFlow.Pending | src/components/MainFeature.jsx:94-104 | A new entry is uploading, at progress 0, under its upload id. |
| UploadFlow.WithProgress | src/components/MainFeature.jsx:107-111 | The progress update keeps the list's length; its per-entry effect is `UploadFlow.WithProgressAt`. |
| UploadFlow.MarkedFailed | src/components/MainFeature.jsx:138-140 | Marking failed keeps the list's length; its per-entry effect is `UploadFlow.MarkedFailedAt`. |
| UploadFlow.WithoutUpload | src/components/MainFeature.jsx:134 | The removal never lengthens the list; which entries stay is `UploadFlow.WithoutUploadMembers`. |
| UploadFlow.WithProgressAt | src/components/MainFeature.jsx:107-111 | A progress step changes the progress of the entries with the id and nothing else. |
| UploadFlow.MarkedFailedAt | src/components/MainFeature.jsx:138-140 | A failure marks the entries with the id as failed and changes nothing else. |
| UploadFlow.WithoutUploadMembers | src/components/MainFeature.jsx:134 | Removing an upload keeps exactly the entries with other ids. |
| UploadFlow.StepLeavesOthers | src/components/MainFeature.jsx:104-140 | A step on one upload leaves the entries of every other upload as they were. |
| UploadFlow.StepsCommute | src/components/MainFeature.jsx:81-84 | Steps on two different uploads commute, unless both are appends. This means the sequential run stands for any interleaving of `Promise.all`. |
| UploadFlow.AppendCommutes | src/components/MainFeature.jsx:81-104 | Appending one upload commutes with a step on another. |
| UploadFlow.ProgressLastWins | src/components/MainFeature.jsx:115-118 | Two progress steps equal the later one. |
| UploadFlow.WithoutAbsent | src/components/MainFeature.jsx:134 | Removing an absent id changes nothing. |
| UploadFlow.FailedEntry | src/components/MainFeature.jsx:138-140 | A failed upload stays listed as failed, at progress 100. |
| UploadFlow.AfterUpload | src/components/MainFeature.jsx:93-143 | One upload adds at most one entry to the in-flight list, and a failed one always adds exactly one. |
| UploadFlow.AfterUploads | src/components/MainFeature.jsx:81-84 | A batch adds at most one entry per file; with fresh ids exactly the failures stay (`UploadFlow.BatchLeavesOnlyFailures`). |
| UploadFlow.SuccessfulUploadLeavesNoTrace | src/components/MainFeature.jsx:93-136 | A successful upload leaves the list as it found it. |
| UploadFlow.FailedUploadLeavesFailedEntry | src/components/MainFeature.jsx:93-143 | A failed upload leaves the list with one extra entry, marked failed. |
| UploadFlow.FailedEntriesAvoid | src/components/MainFeature.jsx:93-143 | The failures of a batch carry only that batch's upload ids. |
| UploadFlow.BatchLeavesOnlyFailures | src/components/MainFeature.jsx:81-84 | With fresh ids, a whole batch leaves the old list followed by one failed entry per failed upload. |
| UploadFlow.UploadRecord | src/components/MainFeature.jsx:121-129 | The record sent to the store carries the name, status "completed", progress 100 and the selected folder. |
| UploadFlow.UploadResult | src/components/MainFeature.jsx:131-143 | An upload yields nothing exactly when it fails. Otherwise it yields the stored record, in the selected folder, under its new id. |
| UploadFlow.UploadResults | src/components/MainFeature.jsx:81-84 | One result per valid file, position by position. |
| UploadFlow.Present | src/components/MainFeature.jsx:85 | `filter(f => f !== null)` keeps exactly the stored records. |
| UploadFlow.FilteredFiles | src/components/MainFeature.jsx:175-177 | With no folder selected, every file is shown. Otherwise exactly the files in the selected folder are shown. |
| UploadFlow.WithoutId | src/components/MainFeature.jsx:149 | Keeps exactly the files with another id. |
| UploadFlow.UploadedIsVisible | src/components/MainFeature.jsx:127-177 | A successful upload appears in the view of the folder that was selected when it started. |
| UploadFlow.DeletedNotShown | src/components/MainFeature.jsx:146-177 | After a delete no shown file has the deleted id, and every other file that was shown still is. |
| UploadFlow.ProgressValues | src/components/MainFeature.jsx:115-118 | The reported progress is 10·k at step k, for k from 0 to 10, so it runs 0, 10, ..., 100 and strictly increases. |
| UploadFlow.MainFeature.constructor | src/components/MainFeature.jsx:9-14 | The component starts with the given files, no uploads and no folder selected. |
| UploadFlow.MainFeature.SelectFolder | src/components/MainFeature.jsx:179-181 | Sets the selected folder and changes nothing else. |
| UploadFlow.MainFeature.SimulateProgress | src/components/MainFeature.jsx:115-118 | Reports progress 0 to 100 in steps of 10 and leaves the entry at 100. |
| UploadFlow.MainFeature.UploadFile | src/components/MainFeature.jsx:93-144 | Returns the stored record or nothing. The store gains exactly that record, and the in-flight list ends as the upload's outcome dictates. |
| UploadFlow.MainFeature.UploadAll | src/components/MainFeature.jsx:81-84 | Uploads every valid file. The store gains exactly the successful records, in order. |
| UploadFlow.MainFeature.HandleFiles | src/components/MainFeature.jsx:61-91 | Reports one error line per rejected file and uploads exactly the valid files. The file list and the store both gain the successful records, and the count is their number. |
| UploadFlow.MainFeature.HandleDeleteFile | src/components/MainFeature.jsx:146-155 | Succeeds exactly when the store holds the id. Then the store loses its first match and the list loses every file with that id. Otherwise nothing changes. |
| TreeView.NodeIds | src/services/api/folderService.js:111-113 | The ids of nested nodes, position by position. |
| TreeView.Nest | src/services/api/folderService.js:114-119 | The nested node of a folder holds that folder and one child per listed child id. |
| TreeView.NestAll | src/services/api/folderService.js:114-119 | The nested nodes hold the folders of their ids, in order. |
| TreeView.TreeOf | src/services/api/folderService.js:119 | The top level of the nested tree is exactly the roots, in order. |
| TreeView.NestedFoldersAreNodes | src/services/api/folderService.js:100-120 | Every folder in the nested tree is the node stored for its id. |
| TreeView.FlattenConcat | src/components/FolderTree.jsx:25-43 | The preorder walk distributes over concatenation. |
| TreeView.Flatten | src/components/FolderTree.jsx:25-43 | The preorder walk lists at least every top-level folder. |
| TreeView.AddExpandedChildren | src/components/FolderTree.jsx:30-39 | The recursive walk adds to the set exactly the expanded folders at any depth below. |
| TreeView.InitialExpanded | src/components/FolderTree.jsx:24-44 | The initial set is exactly the ids of the expanded folders in the tree. |
| TreeView.LoadedSetMatchesFlags | src/components/FolderTree.jsx:17-51 | After loading, a folder of the tree is in the expanded set exactly when its stored flag is set. |
| TreeView.Flip | src/components/FolderTree.jsx:55-60 | The clicked id changes membership and every other id keeps its membership. |
| TreeView.FlipTwice | src/components/FolderTree.jsx:53-68 | Two clicks restore the set. |
| TreeView.ToggleKeepsSync | src/components/FolderTree.jsx:53-68 | When the panel's set matches the stored flags, a toggle in both places keeps them matching. |
| TreeView.RowOf | src/components/FolderTree.jsx:74-130 | A row is indented by level × 16 + 8 pixels. It has a chevron and a count badge exactly when the folder has children, and the chevron points down exactly when the folder is expanded. It shows an open folder exactly when expanded with children, and is highlighted exactly when selected. |
| TreeView.Rows | src/components/FolderTree.jsx:74-146 | The rows of a level start with the first node's own row and number at least one per node. |
| TreeView.EveryNodeDrawn | src/components/FolderTree.jsx:140 | Every node of a level is drawn at that level, whatever is expanded. |
| TreeView.ChildAtNextLevel | src/components/FolderTree.jsx:132-140 | Under an expanded folder every child is drawn one level deeper, 16 pixels further in. |
| TreeView.RowIdsConcat | src/components/FolderTree.jsx:132-140 | Row ids distribute over concatenation. |
| TreeView.CollapsedRows | src/components/FolderTree.jsx:132-140 | With nothing expanded, only the top-level folders are drawn, in order. |
| TreeView.CollapsedIndent | src/components/FolderTree.jsx:87 | With nothing expanded, every row has the indentation of its level. |
| TreeView.RowsWithinTree | src/components/FolderTree.jsx:74-146 | There are never more rows than folders in the tree, and every row is a folder of the tree. |
| TreeView.ExpandedRows | src/components/FolderTree.jsx:132-140 | With every folder expanded, the rows are the whole tree in preorder. |
| TreeView.RowsMonotone | src/components/FolderTree.jsx:132-140 | Expanding more folders never draws fewer rows. |
| TreeView.FolderTreePanel.constructor | src/components/FolderTree.jsx:8-11 | The panel starts empty, loading, with no error and nothing expanded. |
| TreeView.FolderTreePanel.LoadFolders | src/components/FolderTree.jsx:17-51 | Shows the nested tree of the stored folders, expands exactly the flagged ones and stops loading. |
| TreeView.FolderTreePanel.ToggleFolder | src/components/FolderTree.jsx:53-68 | Flips the id in the panel's set and in the store. It reports a failure exactly when the store has no such folder, and touches nothing else. |
| TreeView.FolderTreePanel.VisibleRows | src/components/FolderTree.jsx:74-146 | The panel draws the rows of its tree at level 0 under its expanded set, at least one per top-level folder. |
| HomeStats.SizeOf | src/pages/Home.jsx:24 | `file.size \|\| 0`: a number counts as itself and a falsy size as 0. |
| HomeStats.TotalSize | src/pages/Home.jsx:24 | The `reduce` starts from 0, and one file totals its own size; additivity is `HomeStats.StatsConcat`. |
| HomeStats.TodayUploads | src/pages/Home.jsx:25-28 | There are never more uploads of today than files. |
| HomeStats.StatsOf | src/pages/Home.jsx:30-34 | The file count is the list length, and it bounds the uploads of today. |
| HomeStats.EmptyStats | src/pages/Home.jsx:10-14 | An empty list gives the initial figures 0, 0, 0. |
| HomeStats.TotalSizeSign | src/pages/Home.jsx:24 | Non-negative sizes give a non-negative total, and a positive size makes it positive. |
| HomeStats.StatsConcat | src/pages/Home.jsx:52-67 | Total size and uploads of today add up over concatenation, which is how an upload batch extends them. |
| HomeStats.StatsCons | src/pages/Home.jsx:24-28 | One more file adds its own size and, when it is from today, one upload. |
| HomeStats.StatsAfterDelete | src/pages/Home.jsx:52-67 | Deleting an id takes away exactly the files with that id, together with their sizes and uploads of today. |
| HomeStats.HomePage.constructor | src/pages/Home.jsx:7-14 | The page starts with no files, not loading, no error and zero figures. |
| HomeStats.HomePage.LoadFiles | src/pages/Home.jsx:17-42 | Shows every stored file with its figures and stops loading. |
| HomeStats.HomePage.HandleFilesUpdate | src/pages/Home.jsx:52-67 | The handed-back list replaces the shown one, and the figures are recomputed from it. |

## Left out

- **Timing**
  - Delays (`setTimeout`, the simulated latency of every store call) are not modelled. Each step is atomic.
  - `Promise.all` is run as a sequential loop. `UploadFlow.StepsCommute` and `UploadFlow.AppendCommutes` show that the in-flight list does not depend on how steps of different uploads interleave. The order in which concurrent `create` calls append to the store is fixed to file order.
- **Inputs given as parameters**
  - Generated ids, `Date.now()`, `Math.random()` and `URL.createObjectURL` are parameters.
  - Upload ids are natural numbers. The source's float sum `Date.now() + Math.random()` is only used to tell uploads apart.
  - Whether a date is today (`toDateString` comparison) is a parameter, `isToday`.
  - The mock data that seeds the stores is the constructors' argument.
- **Failures and error paths**
  - Only persisting can fail, through `Outcome.fails`. The simulated progress loop cannot fail.
  - The `catch` branches of `handleFiles`, `loadFolders` and `loadFiles` are not modelled. `getAll`, `getFolderTree` and `uploadFile` never throw in the source, so these branches are unreachable.
  - The `toggleFolder` catch only shows a toast. It is modelled as the `failed` result.
- **Copies and coercions**
  - The folder store's `getAll` returns a new array holding the stored folder objects themselves. `toggleExpanded` mutates the stored object in place, so an array returned earlier sees the flip. The model returns values and does not capture this aliasing; no caller relies on it. `getById` and the file and session stores return spread copies, which values model exactly.
  - `parseInt(id)` on folder ids is not modelled; ids are natural numbers throughout.
- HomeStats.SizeOf: a non-empty string size would be string-concatenated by `acc + file.size` in JavaScript. Here it counts as 0, and the model does not capture string totals.
- **Acyclicity and unique ids**
  - FolderStore.FolderService.Delete, FolderStore.FolderService.DeleteChildFolders, FolderStore.FolderService.GetFolderPath and TreeView.FolderTreePanel.LoadFolders require a ranking of the hierarchy (no cycles), and the first two also require unique folder ids.
  - Without unique ids or on a cycle, the source behaves differently in each place, and the model does not capture any of these cases:
    - `getFolderPath`'s `while` loop never ends once the walk enters a cycle.
    - The cascade in `delete` recurses without bound on a cycle below the target. It throws a stack-overflow `RangeError` before any splice, so the store is left unchanged.
    - With unique ids a cycle cannot be reached from the roots, so `loadFolders` is unaffected. With duplicate ids the nested objects can form a cycle, and its recursive walk overflows the same way; the `catch` then sets the panel's error.
  - `FolderForest.BuildFolderTree` itself needs neither.
- Folder deletion does not touch files that name a removed folder; the source does not either.
- **UI only**
  - Rendering details: CSS classes, animations, toasts, `formatFileSize`, `isImageFile`, the drag handlers and the sidebar toggle are presentation only.
  - `App.jsx` and `NotFound.jsx` only route and hold no logic. They are not part of this model.
- The nested tree the panel stores (`TreeView.FolderTreePanel.LoadFolders` sets `folderTree` to `TreeView.TreeOf`) is built as immutable `TreeNode` values. The source's `children` arrays are mutable objects shared with `folderMap`; nothing mutates them after the build.
- FolderStore.Patched, FolderStore.FolderService.Update: a patch carries only the `Folder` fields other than `updatedAt`. The source also copies any other key of `updates` into the stored object. Such extra keys are not modelled, and neither are values of the wrong type. An `updatedAt` in `updates` is overwritten by the source, as in the model.

## Findings

| source | as written | input that shows it | evidently intended | confidence | as-written member | corrected member |
|---|---|---|---|---|---|---|
| src/services/api/folderService.js:67-85 | `delete` takes the target's index before the cascade removes its descendants and splices that index afterwards. When a descendant is stored before the target, the index points one or more places past the target. | store [B (id 2, parent 1), A (id 1, root), C (id 3, root)], delete(1): B is removed, then index 1 removes C, leaving [A] | the folder and its descendants are removed and every other folder stays: [C] | not executed | FolderStore.StaleIndexCounterexample | FolderStore.FolderService.Delete |
