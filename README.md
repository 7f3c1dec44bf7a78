# TG-Drive core, modelled in Dafny

TG-Drive is a personal cloud drive. File bodies live as documents in a
Telegram chat. The server keeps the metadata: folders and files with an
owner, a name and an optional parent folder, in two MongoDB collections.
This project models the server's virtual filesystem over that store, plus
the pieces around it:

- **Store.** Each collection is a sequence of records (`Store.Db`). The
  store enforces distinct `_id`s and the compound unique index on
  (ownerId, parentFolderId, name), kept separately per kind.
- **Queries.** The chained filter builder (`Builders.QueryBuilder`) and the
  base repository (`Repositories.Repository`). Their meaning is given by
  `Query.Matches`, `Query.Select` and `Query.First`.
- **Folder and file operations.** Both parallel implementations are
  modelled over the same store:
  - the stricter facades (`FoldersFacade`, `FilesFacade`), which emit events;
  - the services the controllers actually call (`FoldersService`,
    `FilesService`).
  The operations are breadcrumb walks, renames with clash checks, moves with
  or without the cycle walk, the depth-first cascading delete, and the
  folder forest.
- **The folder hierarchy.** It is an owner-scoped parent map
  (`Hierarchy.ParentsOf`). `Hierarchy.Up` walks it and `Hierarchy.Acyclic`
  is its invariant. The upward loops terminate because a walk inside an
  acyclic map is shorter than the map (`Hierarchy.WalkBound`).
- **Events and cached clients.**
  - The two event-bus singletons (`Events.EventBus`, `Events.Buses`).
  - The Telegram client cache, one client per bot token
    (`Telegram.ClientCache`), over a Bot API whose replies are an oracle
    and whose requests are logged.
- **Credentials and auth.**
  - The credential envelopes of the three encryption strategies and the
    strategy context (`Crypto`, `Encryption`).
  - The refresh-token store, registration, login, logout and refresh
    (`Tokens`, `Accounts`, `AuthService`, `AuthFacade`).
  - The authentication middleware (`AuthMiddleware`).
- **Client helpers.**
  - The file-icon classifier (`FileIcons`).
  - The move dialog's descendant fixpoint, its disabled rule and its search
    filter (`MoveDialog`).

The outside world enters as parameters:

- **Ids and timestamps.** The ids of new records and the timestamps are
  arguments.
- **Telegram.** Its replies come from a `respond` function of the request
  and its position in the log.
- **Cryptography.** Ciphers, AEADs, bcrypt and JWT are records of functions.
  Their expected behaviour is stated as hypothesis predicates that the
  lemmas require: `Crypto.Inverts`, `Crypto.Sound`, `Crypto.Authentic`,
  `Accounts.HashSound`, `Tokens.Verifies` and `Tokens.Separates`.
- **Event handlers.** Whether a handler throws is a function `throws`.

Three behaviours of the code a reader may not expect, which the model
follows:

- **No configured strategy.** The configuration object has no
  `encryptionStrategy` field (server/src/config/env.config.ts:21-29), yet
  the middleware and the auth facade pass that field to the strategy
  factory at module load. As written, the factory receives `undefined`, so
  creating the context throws "Unknown encryption strategy: undefined".
  `Crypto.StrategyNamed(None)` returns that error. The rest of the model
  takes the encryption context (or its strategy) as a parameter. This
  stands for a deployment that does configure the name.
- **Two encryption schemes.** The live registration
  (server/src/services/auth.service.ts:18-19) encrypts with CryptoJS's
  passphrase AES, not with the strategy context the middleware decrypts
  with. See Findings.
- **Empty folder names.** The facades update records with
  `findByIdAndUpdate`, which runs no schema validators. So the facade
  rename stores an empty name, while the service's `save` refuses it. The
  facade's update also always sets a new update time, while `save` writes
  nothing when the name or parent it sets is the current one
  (`FolderRules.RenamesCompared`).

## Model

| member | source | states |
|---|---|---|
| ApiErrors.Make | server/src/exceptions/api.error.ts:5-9 | The error carries exactly the status, message and error list it is given |
| ApiErrors.BadRequest | server/src/exceptions/api.error.ts:11-13 | Status 400; the message and the errors are as given |
| ApiErrors.Unauthorized | server/src/exceptions/api.error.ts:14-16 | Status 401 with the fixed message "Admin is not authorized" and no errors |
| ApiErrors.Forbidden | server/src/exceptions/api.error.ts:17-19 | Status 403 with the given message |
| ApiErrors.NotFound | server/src/exceptions/api.error.ts:20-22 | Status 404; the message is the given one when present and non-empty, "Resource not found" otherwise |
| ApiErrors.NotFoundWith | server/src/exceptions/api.error.ts:20-22 | Status 404 with a given non-empty message |
| Models.KeyOf | server/src/models/folder.model.ts:17 | The index key is exactly the record's (ownerId, parentFolderId, name) |
| Models.ParentRef | server/src/facades/folders.facade.ts:15 | A null or empty parent argument becomes root (None); any other string is kept as the parent id |
| Models.NewFolder | server/src/models/folder.model.ts:9-15 | A new folder has the given id, owner and name, the parent mapped by ParentRef, and both timestamps equal to the creation time |
| Models.NewFile | server/src/models/file.model.ts:13-23 | A new file has the given id, owner, name, size, mime type and Telegram handles, the parent mapped by ParentRef, and both timestamps equal to the creation time |
| Dtos.ToFileDto | server/src/dtos/file.dto.ts:12-21 | The DTO copies id, owner, name, size, mime type and timestamps; its parent is null exactly when the record has none |
| Dtos.ToFolderDto | server/src/dtos/folder.dto.ts:11-18 | The DTO copies id, owner, name and timestamps; its parent is null exactly when the record has none |
| Dtos.FileDtoHidesOnlyRemoteHandles | server/src/dtos/file.dto.ts:3-11 | Two file records have equal DTOs iff they are equal apart from the Telegram message id and file id |
| Dtos.FolderDtoIsLossless | server/src/dtos/folder.dto.ts:3-9 | Two folder records have equal DTOs iff they are equal |
| Store.ErrorMessage | server/src/facades/files.facade.ts:42-45 | Every store error has a non-empty message, so an upload that fails in the store never falls back to the default text |
| Store.RemoveIds | server/src/repositories/base.repository.ts:39-41 | After deleting by id, a record remains iff it was there and its id was not deleted |
| Store.ReplaceId | server/src/repositories/base.repository.ts:43-45 | An update by id replaces every record with that id and keeps all other records in their positions |
| Store.ApplyPatch | server/src/repositories/base.repository.ts:43-45 | Only the patched fields (name and/or parent) change, plus the update time; id, owner, body and creation time stay |
| Store.RemoveIdsKeepsOk | server/src/models/folder.model.ts:17 | Deleting records keeps ids distinct and the unique index intact |
| Store.ReplaceKeepsOk | server/src/models/file.model.ts:25 | An update whose new key is free in the collection keeps the unique index intact |
| Store.AppendKeepsOk | server/src/models/folder.model.ts:17 | Inserting a record with a fresh id and a free key keeps the collection well formed |
| Store.Db.Create | server/src/models/folder.model.ts:9-17 | Insert fails with a validation error when a required field is missing; with a duplicate key when the id or index key is taken; otherwise it appends the record. The other collection is unchanged |
| Store.Db.FindOne | server/src/builders/query.builder.ts:55-57 | Returns the first record, in collection order, that matches the filter |
| Store.Db.Find | server/src/builders/query.builder.ts:51-53 | Returns the matching records in collection order |
| Store.Db.FindByIdAndUpdate | server/src/repositories/base.repository.ts:43-45 | No record with that id: null and no change. Otherwise the patched record replaces it if its key is free; if not, a duplicate-key error and no change |
| Store.Db.Save | server/src/services/folders.service.ts:49-51 | Saves a loaded record: validation, then document-not-found, each refusing with no change; a record with no changed field is answered as it is, with nothing written and the old update time; otherwise the unique index refuses a taken slot, or the record replaces its old version with a new update time |
| Store.StoredUnchanged | server/src/services/folders.service.ts:49-50 | With distinct ids, a record with a stored record's id is stored iff it equals it, and writing the stored record back changes nothing |
| Store.Db.DeleteById | server/src/facades/folders.facade.ts:140 | Exactly the records with that id go; the other collection is unchanged |
| Store.RecordById | server/src/repositories/base.repository.ts:16-18 | With distinct ids, an id lookup finds a record iff one has that id, and then finds that record |
| Store.IndexesAreSeparate | server/src/models/file.model.ts:25 | A folder and a file with the same owner, parent and name can both be stored: the two indexes do not see each other |
| Query.Select | server/src/builders/query.builder.ts:51-53 | Every selected record is in the collection and matches the filter |
| Query.First | server/src/builders/query.builder.ts:55-57 | A found record is in the collection and matches the filter |
| Query.SelectExactly | server/src/builders/query.builder.ts:51-53 | A record is selected iff it is in the collection and matches |
| Query.FirstIsHeadOfSelect | server/src/builders/query.builder.ts:55-57 | findOne answers the head of what find would answer, or null when that is empty |
| Query.FirstNoneIffNoMatch | server/src/builders/query.builder.ts:55-57 | findOne answers null iff no record matches |
| Query.EmptyFilterSelectsAll | server/src/builders/query.builder.ts:20 | A fresh builder's empty filter selects the whole collection |
| Query.IdFilterMeaning | server/src/repositories/base.repository.ts:39-41 | The `_id` filter matches exactly the records with that id, whoever owns them |
| Query.OwnerFilterMeaning | server/src/facades/folders.facade.ts:148-150 | The owner filter matches exactly the owner's records |
| Query.IdOwnerFilterMeaning | server/src/repositories/base.repository.ts:16-18 | findById's filter matches a record iff both its id and its owner agree |
| Query.ListingFilterMeaning | server/src/facades/folders.facade.ts:24-32 | The listing filter matches exactly the owner's records whose parent is the given folder, with null or empty meaning root |
| Query.CollisionFilterMeaning | server/src/repositories/base.repository.ts:26-34 | The clash filter matches a record iff owner, parent (falsy becomes null) and name agree and, when a non-empty id is excluded, the record's id differs |
| Query.CollisionFound | server/src/repositories/base.repository.ts:36 | checkNameCollision finds a record iff some record collides |
| Builders.QueryBuilder.constructor | server/src/builders/query.builder.ts:19-22 | A new builder has no filters and queries the given collection |
| Builders.QueryBuilder.ByOwner | server/src/builders/query.builder.ts:24-27 | Sets only the owner filter and returns the same builder |
| Builders.QueryBuilder.InFolder | server/src/builders/query.builder.ts:29-34 | Sets only the parent filter, to the id when non-empty and to null otherwise, and returns the same builder |
| Builders.QueryBuilder.WithName | server/src/builders/query.builder.ts:36-39 | Sets only the name filter and returns the same builder |
| Builders.QueryBuilder.ExcludeId | server/src/builders/query.builder.ts:41-44 | Sets only the `_id ≠ id` condition and returns the same builder |
| Builders.QueryBuilder.Where | server/src/builders/query.builder.ts:46-49 | Overwrites one field's condition and returns the same builder |
| Builders.QueryBuilder.FindMany | server/src/builders/query.builder.ts:51-53 | Answers exactly the records that match the accumulated filters |
| Builders.QueryBuilder.FindOne | server/src/builders/query.builder.ts:55-57 | Answers the first match, or null iff nothing matches |
| Builders.LastWriteWins | server/src/repositories/query.builder.ts:32-35 | A later write to a field replaces the earlier one, and other fields keep their conditions |
| Repositories.Repository.constructor | server/src/repositories/base.repository.ts:9-10 | A repository is bound to one collection of the store |
| Repositories.Repository.Create | server/src/repositories/base.repository.ts:12-14 | Same outcome as the store's insert on the repository's collection |
| Repositories.Repository.FindById | server/src/repositories/base.repository.ts:16-18 | Finds a record iff one has both the id and the owner |
| Repositories.Repository.CheckNameCollision | server/src/repositories/base.repository.ts:20-37 | Returns a colliding record iff one exists |
| Repositories.Repository.Delete | server/src/repositories/base.repository.ts:39-41 | Removes the records with that id, with no owner scoping |
| Repositories.Repository.Update | server/src/repositories/base.repository.ts:43-45 | Updates by id only, changing just the patched fields, under the unique index |
| Repositories.Repository.Find | server/src/repositories/base.repository.ts:47-49 | Answers the records matching the given query |
| Text.Split | client/src/utils/getFileIcon.ts:14 | `split` gives at least one piece and no piece contains the separator |
| Text.SplitJoin | client/src/utils/getFileIcon.ts:14 | Splitting the join of separator-free pieces gives back the pieces |
| Text.JoinSplit | client/src/utils/getFileIcon.ts:14 | Joining the pieces of a split gives back the string |
| Text.Lower | client/src/utils/getFileIcon.ts:14 | Lower-casing keeps the length and maps each ASCII capital to its small letter, leaving other characters alone |
| Text.LowerIdempotent | client/src/components/MoveDialog.tsx:132 | Lower-casing twice is lower-casing once |
| Text.SplitNoSeparator | client/src/utils/getFileIcon.ts:14 | A string without the separator splits into just itself |
| Text.SplitAfterPiece | client/src/utils/getFileIcon.ts:14 | A separator-free piece followed by the separator is the first field, and the rest splits on its own |
| Hierarchy.TableMeaning | server/src/facades/folders.facade.ts:38 | The owner's table has an id iff the owner has a folder with it, and maps it to that folder |
| Hierarchy.LookupAgrees | server/src/facades/folders.facade.ts:38 | `findOne({_id, ownerId})` answers exactly the table entry for that id |
| Hierarchy.ParentsAfterAppend | server/src/facades/folders.facade.ts:12-16 | Creating a folder adds exactly its own entry to the owner's parent map |
| Hierarchy.ParentsAfterReplace | server/src/facades/folders.facade.ts:105-107 | Updating a folder changes only its own parent entry |
| Hierarchy.WalkBound | server/src/facades/folders.facade.ts:37-45 | In an acyclic map, a walk that is still inside the map after j steps has j below the map's size, so the upward loops end |
| Hierarchy.ReparentKeepsAcyclic | server/src/facades/folders.facade.ts:105-107 | Re-parenting a folder onto a destination whose walk never reaches it keeps the map acyclic |
| Hierarchy.AddLeafKeepsAcyclic | server/src/facades/folders.facade.ts:11-21 | Adding a new folder that nothing points to keeps the map acyclic |
| Hierarchy.MoveRuleIsExact | server/src/facades/folders.facade.ts:93-103 | The map after a move is acyclic iff the destination's walk does not reach the moved folder |
| Hierarchy.SiblingsDisjoint | server/src/facades/folders.facade.ts:126-128 | In an acyclic map, the subtrees of two different children share no folder |
| Hierarchy.SubtreeSplit | server/src/facades/folders.facade.ts:120-140 | A folder's subtree is the folder itself plus its children's subtrees |
| Hierarchy.SubtreesOfMeaning | server/src/facades/folders.facade.ts:126-128 | The union of the first k children's subtrees holds exactly what one of them holds |
| Hierarchy.ChildSubtreeSmaller | server/src/facades/folders.facade.ts:126-128 | In an acyclic map a child's subtree lies strictly inside its parent's and does not hold the parent, so the recursive delete terminates |
| FolderWalks.CrumbsFromChain | server/src/facades/folders.facade.ts:37-45 | The walk's crumbs are the ancestors reached, in root-first order, and it stops silently at the first id not found |
| FolderWalks.BreadcrumbIsAncestorChain | server/src/facades/folders.facade.ts:34-46 | In an acyclic store, crumb i from the end is the i-th ancestor of the start, and the step after the last crumb leaves the store |
| FolderWalks.BreadcrumbEnds | server/src/facades/folders.facade.ts:34-46 | The path is non-empty iff the start folder is found; it then ends with the start, and is just the start when the start is at root |
| FolderWalks.BreadcrumbWalk | server/src/facades/folders.facade.ts:34-46 | The `while (currentId)` loop builds exactly the breadcrumb |
| FolderWalks.WalkMeets | server/src/facades/folders.facade.ts:94-103 | The cycle-check loop meets the folder iff the destination's upward walk reaches it |
| FolderForest.OpenEntries | server/src/facades/folders.facade.ts:156-158 | One entry per folder id, holding that folder, each with an empty child list |
| FolderForest.PlaceFolders | server/src/facades/folders.facade.ts:160-171 | The roots are the folders without a parent or with an unknown parent, and each child list is that parent's children, in collection order |
| FolderForest.BuildForest | server/src/facades/folders.facade.ts:152-173 | Entries for exactly the listed folders, roots and child lists as above |
| FolderForest.PlacedExactlyOnce | server/src/services/folders.service.ts:105-117 | Each folder occurs once among the roots if it is a root, and once under its parent otherwise, and nowhere else; orphans become roots |
| FolderRules.FacadeRenamed | server/src/facades/folders.facade.ts:57-78 | The facade rename fails, with the name-taken BadRequest, iff a file or another folder in the same parent has the name; otherwise only the name and update time change |
| FolderRules.ServiceRenamed | server/src/services/folders.service.ts:49-51 | The service rename changes only the name and update time; a rename to the current name (when it validates) answers the record unchanged; any failure is a store error |
| FolderRules.FolderClashIsIndexClash | server/src/facades/folders.facade.ts:64-70 | The facade's folder clash query finds a folder iff the store's unique index would refuse the renamed folder |
| FolderRules.RenamesCompared | server/src/services/folders.service.ts:44-52 | Every non-empty name the facade accepts, the service accepts: with the same record for a new name, and with the record untouched (old update time) for the current name; when the service accepts, the facade refuses iff a file in that parent has the name |
| FolderRules.ServiceMoveRefusal | server/src/services/folders.service.ts:61-63 | The service refuses a move iff the new parent is the folder itself, with "Cannot move folder into itself" |
| FolderRules.ServiceMoved | server/src/services/folders.service.ts:60-69 | A move into itself gives BadRequest; a move to the current parent (when it validates) answers the record unchanged; any other successful move changes only the parent and the update time |
| FolderRules.FacadeMoveRuleIsExact | server/src/facades/folders.facade.ts:89-103 | The facade's two refusals happen exactly when the move would break acyclicity |
| FolderRules.ServiceMoveCanCycle | server/src/services/folders.service.ts:60-69 | For a 2-folder chain, the service lets folder a move under its own child b, and the result is cyclic |
| FolderRules.ServiceMoveStoresCycle | server/src/services/folders.service.ts:60-69 | In a well-formed store with a above b, the service's move of a under b succeeds and leaves a cyclic parent map |
| FileRules.UploadError | server/src/facades/files.facade.ts:42-45 | A failed upload is BadRequest with the error's message, or "File upload failed" when that is empty |
| FileRules.UploadedRecord | server/src/facades/files.facade.ts:29-37 | The stored file carries the upload's name, size and mime type, the mapped parent, and the message id and file id Telegram returned |
| Cascade.ChildListing | server/src/facades/folders.facade.ts:121-124 | The subfolder query lists each child of the folder exactly once |
| Cascade.ChildrenCover | server/src/facades/folders.facade.ts:126-140 | The children's subtrees together with the folder itself are its whole subtree, and the folder is not in them |
| Cascade.ChildrenThenSelf | server/src/services/folders.service.ts:79-90 | The subtrees of the listed subfolders and the folder itself split its subtree into disjoint parts |
| Cascade.AcyclicAfterRemoval | server/src/facades/folders.facade.ts:140 | Deleting folders keeps the remaining parent map acyclic |
| Cascade.ParentsAfterRemoval | server/src/facades/folders.facade.ts:140 | Deleting folders takes exactly their entries out of the parent map |
| Cascade.ListedFiles | server/src/facades/folders.facade.ts:131-134 | The file query lists, once each, exactly the owner's files directly in the folder |
| Cascade.FilesUnderAfterRemoval | server/src/facades/folders.facade.ts:136-138 | The files of two disjoint sets of folders are disjoint, and deleting the files of one set leaves the files of the other unchanged |
| Cascade.RemovedChain | server/src/facades/folders.facade.ts:126-142 | Two deletion steps over disjoint folder sets make one deletion of their union |
| Cascade.RemoveIdsTwice | server/src/facades/folders.facade.ts:140 | Deleting one id set and then another is deleting their union |
| Cascade.TableAfterRemoval | server/src/facades/folders.facade.ts:140 | Deleting records takes exactly their ids out of the owner's table |
| Cascade.ChildVisit | server/src/facades/folders.facade.ts:126-128 | At each step of the subfolder loop, what is left after the earlier subtrees are deleted is still acyclic, and the next child is still there with its subtree untouched |
| Cascade.FileVisit | server/src/facades/folders.facade.ts:136-138 | At each step of the file loop, the next file is still stored and passes the ownership lookup, and deleting it extends what is gone by its id |
| FilesFacade.UploadFile | server/src/facades/files.facade.ts:12-46 | Sends one upload request. If it fails: BadRequest and no record. Otherwise the record is created with the returned handles and FILE_UPLOADED is emitted, unless the store refuses it (BadRequest with the store error's message) |
| FilesFacade.DownloadFile | server/src/facades/files.facade.ts:48-67 | NotFound unless the owner has the file; BadRequest without a Telegram file id; otherwise one getFile request, and on success the file, its link and a FILE_DOWNLOADED event |
| FilesFacade.FileForStream | server/src/facades/files.facade.ts:69-86 | The same two guards as download, then the file record |
| FilesFacade.RenameFile | server/src/facades/files.facade.ts:88-118 | NotFound; BadRequest when another file or any folder in the same parent has the name; otherwise only the name changes, FILE_RENAMED is emitted, and no record shares the new key |
| FilesFacade.MoveFile | server/src/facades/files.facade.ts:120-133 | NotFound for another owner's file; otherwise only the parent changes (no destination check), refused only by the store's index |
| FilesFacade.DeleteFile | server/src/facades/files.facade.ts:135-149 | NotFound; otherwise one delete request to Telegram whatever it answers, the record removed, FILE_DELETED emitted, the old record returned |
| FilesService.UploadFile | server/src/services/files.service.ts:12-45 | As the facade's upload, through the repository, without events |
| FilesService.DownloadFile | server/src/services/files.service.ts:47-64 | As the facade's download, without events |
| FilesService.FileForStream | server/src/services/files.service.ts:66-83 | The not-found and not-uploaded guards, then the file record |
| FilesService.RenameFile | server/src/services/files.service.ts:85-111 | NotFound; BadRequest when checkNameCollision finds another file or a folder in the same parent; otherwise only the name changes |
| FilesService.MoveFile | server/src/services/files.service.ts:113-123 | Ownership check, then only the parent changes, subject to the store's index |
| FilesService.DeleteFile | server/src/services/files.service.ts:125-136 | NotFound first; otherwise the remote delete request, then the record removed and the old record returned |
| FoldersFacade.CreateFolder | server/src/facades/folders.facade.ts:11-21 | Validation, then either a duplicate-key refusal or the store gains exactly the new folder (null or empty parent means root) and FOLDER_CREATED is emitted; the parent map gains exactly its entry |
| FoldersFacade.GetFolderContents | server/src/facades/folders.facade.ts:23-49 | Exactly the owner's folders and files in that parent, and, for a non-root parent, the breadcrumb; only a non-root listing requires an acyclic parent map |
| FoldersFacade.RenameFolder | server/src/facades/folders.facade.ts:51-81 | NotFound for a folder the owner lacks; otherwise FacadeRenamed's outcome, stored and emitted only on success; parents unchanged |
| FoldersFacade.MoveFolder | server/src/facades/folders.facade.ts:83-112 | NotFound; the into-itself and into-subfolder refusals; otherwise only the parent changes under the store's index and FOLDER_MOVED is emitted. The owner's folders stay acyclic on every path |
| FoldersFacade.DeleteFolder | server/src/facades/folders.facade.ts:114-145 | NotFound for a folder the owner lacks. Otherwise exactly the folders of its subtree and the files directly in them are removed, one FOLDER_DELETED or FILE_DELETED event each, ending with this folder's FOLDER_DELETED |
| FoldersFacade.DeleteChildren | server/src/facades/folders.facade.ts:126-128 | The loop over the subfolders erases the union of their subtrees |
| FoldersFacade.DeleteChild | server/src/facades/folders.facade.ts:127 | One recursive call extends the erased set by that child's subtree |
| FoldersFacade.DeleteHere | server/src/facades/folders.facade.ts:130-142 | The folder's own files, then the folder, erased, with FOLDER_DELETED last |
| FoldersFacade.DeleteFilesIn | server/src/facades/folders.facade.ts:130-138 | Exactly the owner's files directly in the folder are removed, each logged once |
| FoldersFacade.GetTree | server/src/facades/folders.facade.ts:147-174 | The forest of the owner's folders: one entry per folder, roots and child lists as FolderForest states |
| FoldersFacade.ErasedChain | server/src/facades/folders.facade.ts:126-142 | Two erasures over disjoint sets make one erasure of their union, logs included |
| FoldersFacade.ErasedNothing | server/src/facades/folders.facade.ts:114-145 | Erasing no folders leaves the store and the event log unchanged |
| FolderRules.DeletionLogsChain | server/src/facades/folders.facade.ts:126-142 | Two event logs of deletions over disjoint sets, one after the other, make the log of the combined deletions, still with one event per deleted id |
| FoldersService.CreateFolder | server/src/services/folders.service.ts:8-16 | Validation and the unique index only (no clash check of its own); on success exactly the new folder is added |
| FoldersService.GetFolderContents | server/src/services/folders.service.ts:18-42 | The same listing and breadcrumb as the facade, under the same requirement for non-root listings only |
| FoldersService.RenameFolder | server/src/services/folders.service.ts:44-52 | NotFound; otherwise ServiceRenamed's outcome via `save`, stored only on success (a same-name rename leaves the store as it was); parents unchanged |
| FoldersService.MoveFolder | server/src/services/folders.service.ts:54-70 | NotFound; only the into-itself refusal; otherwise ServiceMoved's outcome via `save`, and exactly the folder's parent entry becomes the new parent, with no cycle check |
| FoldersService.DeleteFolder | server/src/services/folders.service.ts:72-92 | NotFound; otherwise exactly the subtree's folders and the files directly in them are removed |
| FoldersService.DeleteChildren | server/src/services/folders.service.ts:79-82 | The loop removes the union of the subfolders' subtrees |
| FoldersService.DeleteChild | server/src/services/folders.service.ts:81 | One recursive call extends the removed set by that child's subtree |
| FoldersService.DeleteHere | server/src/services/folders.service.ts:84-90 | The folder's own files, then the folder, removed |
| FoldersService.DeleteFilesIn | server/src/services/folders.service.ts:85-88 | Exactly the owner's files directly in the folder are removed |
| FoldersService.GetTree | server/src/services/folders.service.ts:94-127 | The forest of the owner's folders, as the facade's |
| Events.Without | server/src/observers/files.observer.ts:42 | The filter keeps exactly the other handlers |
| Events.WithoutCounts | server/src/observers/files.observer.ts:37-44 | `off` removes every occurrence of the handler and keeps every other handler's multiplicity |
| Events.EventBus.constructor | server/src/observers/files.observer.ts:19-21 | A new bus has no listeners and has delivered nothing |
| Events.EventBus.Calls | server/src/observers/files.observer.ts:48-54 | One call per registered handler, in order, with the same event and data, each recording whether it threw |
| Events.EventBus.On | server/src/observers/files.observer.ts:30-35 | Appends the handler to its event's list (created if missing), keeping duplicates; other events unchanged |
| Events.EventBus.Off | server/src/observers/files.observer.ts:37-44 | No-op for an event without a list; otherwise that list loses the handler |
| Events.EventBus.Emit | server/src/observers/files.observer.ts:46-55 | Every handler of the event is called in order even when some throw; emit itself always returns |
| Events.Buses.constructor | server/src/observers/files.observer.ts:18 | Neither singleton exists yet |
| Events.Buses.FilesObserver | server/src/observers/files.observer.ts:23-28 | The first call creates an empty bus, and every later call returns that same bus |
| Events.Buses.EventManager | server/src/events/event.manager.ts:23-28 | The same lazy singleton, held separately |
| Events.StartUp | server/src/subscribers/logging.subscriber.ts:4-42 | If the logging subscriber is started (nothing in the server calls its `init`), then afterwards the event manager has one logging handler per event type, and the files observer that the facades emit on is a different bus with no listeners |
| Events.LoggedDistinct | server/src/subscribers/logging.subscriber.ts:7-41 | The subscriber's list of event types has no repeats |
| Telegram.ReadUpload | server/src/services/telegram.service.ts:44-58 | Upload fails on an exception of the HTTP call, on a non-ok reply (with its description), on an ok reply without `result` (the TypeError of destructuring undefined) and on a result without document, video or audio metadata; otherwise it answers the message id and that file id |
| Telegram.ReadLink | server/src/services/telegram.service.ts:66-71 | getFile succeeds iff the reply is ok and has a `result`; it fails with the HTTP call's exception, with the reply's description on a non-ok reply, and with the TypeError of reading `file_path` of undefined on a missing result; a file path gives the download URL for that token and path |
| Telegram.ReadDelete | server/src/services/telegram.service.ts:74-85 | deleteMessage answers true iff the reply is ok and never fails |
| Telegram.BotApi.Send | server/src/services/telegram.service.ts:38-42 | Each request is logged once and answered by the oracle at its position |
| Telegram.BotClient.constructor | server/src/services/telegram.service.ts:8-10 | A client is built with its bot token |
| Telegram.BotClient.UploadFile | server/src/services/telegram.service.ts:33-59 | One sendDocument request, read by ReadUpload |
| Telegram.BotClient.GetFileLink | server/src/services/telegram.service.ts:61-72 | One getFile request, read by ReadLink |
| Telegram.BotClient.DeleteMessage | server/src/services/telegram.service.ts:74-85 | One deleteMessage request, read by ReadDelete |
| Telegram.ClientCache.constructor | server/src/flyweights/telegram.flyweight.ts:5 | The cache starts empty, as the flyweight's map does and as the factory's static map does (server/src/factories/telegram.factory.ts:4) |
| Telegram.ClientCache.GetInstance | server/src/factories/telegram.factory.ts:6-11 | A known token gives the cached client and no change; a new token adds exactly one fresh client built with that token. Entries are never removed. The flyweight's getInstance (server/src/flyweights/telegram.flyweight.ts:7-12) has the same shape |
| Crypto.Hex | server/src/strategies/aes-cbc.strategy.ts:16 | Hex output has two hex digits per byte |
| Crypto.FromHex | server/src/strategies/aes-cbc.strategy.ts:9 | Hex parsing yields at most one byte per two characters |
| Crypto.HexHasNoColon | server/src/strategies/aes-cbc.strategy.ts:16 | Hex output never contains ':' |
| Crypto.FromHexHex | server/src/strategies/aes-cbc.strategy.ts:22 | Parsing the hex of some bytes gives back those bytes |
| Crypto.IvLength | server/src/strategies/aes-cbc.strategy.ts:6 | The IV is 16 bytes for CBC and 12 for GCM and ChaCha20 |
| Crypto.CbcEncrypt | server/src/strategies/aes-cbc.strategy.ts:8-17 | Encryption succeeds iff the cipher does; the envelope is hex IV, ':', hex ciphertext |
| Crypto.CbcDecrypt | server/src/strategies/aes-cbc.strategy.ts:19-29 | An envelope without ':' is malformed; any plaintext comes from the cipher's decryption |
| Crypto.AeadEncrypt | server/src/strategies/aes-gcm.strategy.ts:9-21 | Sealing succeeds iff the AEAD does |
| Crypto.AeadDecrypt | server/src/strategies/aes-gcm.strategy.ts:23-37 | An envelope with fewer than three fields is malformed; any plaintext comes from opening with the parsed IV, tag and ciphertext |
| Crypto.Encrypt | server/src/strategies/encryption.context.ts:15-17 | Every envelope from any strategy contains ':' |
| Crypto.Decrypt | server/src/strategies/encryption.context.ts:19-21 | Any strategy refuses a string with no ':' |
| Crypto.CbcLayout | server/src/strategies/aes-cbc.strategy.ts:16-20 | The CBC envelope splits into exactly the hex IV (32 characters) and the hex ciphertext |
| Crypto.AeadLayout | server/src/strategies/chacha20.strategy.ts:20-24 | The AEAD envelope splits into the hex nonce (24 characters), the hex tag (32 characters) and the hex ciphertext, in that order |
| Crypto.RoundTrip | server/src/strategies/aes-gcm.strategy.ts:9-37 | For every strategy, with sound primitives, decrypting an envelope gives back the plaintext |
| Crypto.TamperedTagRejected | server/src/strategies/aes-gcm.strategy.ts:31-34 | With an authentic AEAD, an envelope whose tag was replaced does not decrypt |
| Crypto.StrategyNamed | server/src/strategies/index.ts:15-21 | A context is made iff the name is "aes-cbc", "aes-gcm" or "chacha20"; any other name, including a missing one, gives "Unknown encryption strategy: " and the name |
| Crypto.NamesSelect | server/src/strategies/index.ts:9-13 | Each name selects its own strategy and no other name selects it |
| Encryption.EncryptionContext.constructor | server/src/strategies/encryption.context.ts:7-9 | The context holds the given strategy |
| Encryption.EncryptionContext.SetStrategy | server/src/strategies/encryption.context.ts:11-13 | Afterwards the context holds the new strategy, which later calls use |
| Encryption.EncryptionContext.Encrypt | server/src/strategies/encryption.context.ts:15-17 | The current strategy's envelope, which contains ':' |
| Encryption.EncryptionContext.Decrypt | server/src/strategies/encryption.context.ts:19-21 | The current strategy's decryption, which refuses a string with no ':' |
| Encryption.ContextRoundTrip | server/src/strategies/encryption.context.ts:15-21 | What the context encrypts, it decrypts back |
| Encryption.CreateEncryptionContext | server/src/strategies/index.ts:15-21 | A known name gives a fresh context with that strategy; an unknown one gives the factory's error |
| Tokens.GeneratedTokensValidate | server/src/services/token.service.ts:15-50 | Each generated token validates with its own secret, with the claims it was made from, and not with the other secret |
| Tokens.FirstWithToken | server/src/services/token.service.ts:52-54 | Finds the first record with that refresh token, or none iff none has it |
| Tokens.FirstOfUser | server/src/services/token.service.ts:57 | Finds a record of that user, or none iff the user has none |
| Tokens.SavedIsOnlyToken | server/src/services/token.service.ts:56-64 | After saving, the user's only record holds the new token, other users' records are unchanged, and each user still has at most one record |
| Tokens.WithoutTokenForgets | server/src/services/token.service.ts:66-68 | After removal no record holds the token, and every other record stays |
| Tokens.TokenStore.FindToken | server/src/services/token.service.ts:52-54 | The first record in collection order with exactly that token, or none iff none exists |
| Tokens.TokenStore.SaveToken | server/src/services/token.service.ts:56-64 | An empty token fails validation with no change; otherwise the store becomes the saved collection |
| Tokens.TokenStore.RemoveToken | server/src/services/token.service.ts:66-68 | The first record with that token goes (deleted count 1), or nothing (count 0) |
| Accounts.UserWithEmail | server/src/services/auth.service.ts:13 | Finds a user with that email, or none iff none has it |
| Accounts.UserWithId | server/src/services/auth.service.ts:62 | Finds a user with that id, or none iff none has it |
| Accounts.EmailFindsUser | server/src/models/user.model.ts:13 | With unique emails, an email lookup finds that very user |
| Accounts.IdFindsUser | server/src/models/user.model.ts:12-19 | With distinct ids, an id lookup finds that very user |
| Accounts.UserStore.FindByEmail | server/src/services/auth.service.ts:13 | `User.findOne({ email })` |
| Accounts.UserStore.FindById | server/src/middlewares/auth.middleware.ts:37 | `User.findById`, where a missing id finds nothing |
| Accounts.UserStore.Create | server/src/models/user.model.ts:12-19 | Required fields, then the id and the unique email index, each refusing with no change; on success the user is appended |
| Accounts.LoginAnswer | server/src/services/auth.service.ts:30-38 | Unknown email gives NotFound "User not found", a wrong password BadRequest "Invalid password"; success is the user with that email whose hash accepts the password |
| Accounts.RefreshAnswer | server/src/services/auth.service.ts:53-65 | An empty token, an invalid token or one not stored gives Unauthorized; a missing user gives NotFound; success is the user the token's claims name |
| Accounts.IssueTokens | server/src/services/auth.service.ts:39-45 | A token pair is issued for the user's claims and the refresh token is saved as the user's only one |
| Accounts.RegisteredUserLogsIn | server/src/services/auth.service.ts:30-46 | A stored user logs in with the password their hash was made from |
| Accounts.IssuedTokenRefreshes | server/src/services/auth.service.ts:53-72 | A freshly issued refresh token is accepted by refresh, for the same user |
| Accounts.LoggedOutTokenRefused | server/src/services/auth.service.ts:48-61 | After logout, refresh with that token gives Unauthorized |
| Accounts.IssuedTokenRotates | server/src/services/auth.service.ts:66-68 | After a new token is issued, the user's previous refresh token is refused |
| AuthService.Registration | server/src/services/auth.service.ts:12-28 | A taken email gives BadRequest with nothing written; otherwise the user is stored with the hashed password and CryptoJS-encrypted credentials, and tokens are issued |
| AuthService.Login | server/src/services/auth.service.ts:30-46 | LoginAnswer's error with the tokens unchanged, or tokens issued for the user |
| AuthService.Logout | server/src/services/auth.service.ts:48-51 | The token store loses the token, answering the deleted count |
| AuthService.Refresh | server/src/services/auth.service.ts:53-73 | RefreshAnswer's error with the tokens unchanged, or tokens issued for the user |
| AuthFacade.FacadeUser | server/src/facades/auth.facade.ts:19-22 | The stored user has the hashed password and both credentials encrypted by the configured strategy |
| AuthFacade.Registration | server/src/facades/auth.facade.ts:14-30 | A taken email gives BadRequest with nothing written; otherwise the strategy-encrypted user is stored and tokens are issued |
| AuthMiddleware.BearerFields | server/src/middlewares/auth.middleware.ts:25-26 | A "Bearer " header always splits into at least two fields, the first being "Bearer" |
| AuthMiddleware.BearerTokenWins | server/src/middlewares/auth.middleware.ts:25-29 | A "Bearer " header's token is used whatever the query parameter says |
| AuthMiddleware.QueryTokenFallback | server/src/middlewares/auth.middleware.ts:27-29 | Without a bearer header, the query parameter is the token, and without one the token is empty |
| AuthMiddleware.Verdict | server/src/middlewares/auth.middleware.ts:20-63 | An empty token gives Unauthorized. Success means the token validates, its user exists, and both credentials decrypt non-empty. Every failure is Unauthorized or one of the two credential BadRequests |
| AuthMiddleware.AuthRequest.constructor | server/src/middlewares/auth.middleware.ts:12-18 | A request starts with its header and query and no user or credentials |
| AuthMiddleware.Authenticate | server/src/middlewares/auth.middleware.ts:20-63 | On success the request gets the user and credentials and next() gets no error; on failure the request is untouched and next() gets the error |
| AuthMiddleware.ServiceUserLockedOut | server/src/middlewares/auth.middleware.ts:42-54 | A user stored by the service's registration, even with a valid token, is always refused with "Failed to decrypt Telegram credentials" |
| AuthMiddleware.FacadeUserAdmitted | server/src/middlewares/auth.middleware.ts:42-56 | A user stored by the facade's registration, with non-empty credentials and a valid token, is admitted with exactly those credentials |
| FileIcons.GetFileIcon | client/src/utils/getFileIcon.ts:13-67 | Extension-only icons come from the extension; any other icon is due to its extension list or mime rule; the default icon is given iff the extension is unlisted and the mime is no audio/video/image/pdf/text type |
| FileIcons.FirstMatchWins | client/src/utils/getFileIcon.ts:16-63 | The chosen category is the first in order that matches: no earlier one matches by extension or mime |
| FileIcons.ExtensionOfName | client/src/utils/getFileIcon.ts:14 | The extension is the lower-cased last '.'-piece, and the whole lower-cased name when there is no '.' |
| FileIcons.MediaMimeDecides | client/src/utils/getFileIcon.ts:16-53 | With an unlisted extension, an audio/, video/ or image/ mime, or application/pdf, selects its icon |
| FileIcons.SplitLastPiece | client/src/utils/getFileIcon.ts:14 | After the last separator, the final piece is what follows it |
| FileIcons.ListedExtensionGivesItsIcon | client/src/utils/getFileIcon.ts:16-63 | A listed extension, with no mime, gives its own category's icon |
| FileIcons.ListsDisjoint | client/src/utils/getFileIcon.ts:17-60 | No extension is in two lists, so the order matters only through the mime rules |
| MoveDialog.MapNodes | client/src/components/MoveDialog.tsx:80-87 | The recursive visit builds the index of the flattened tree in pre-order, later entries winning |
| MoveDialog.IndexedKeys | client/src/components/MoveDialog.tsx:80-87 | The map's keys are exactly the ids of the visited nodes |
| MoveDialog.FlattenHasSubtrees | client/src/components/MoveDialog.tsx:80-87 | Flattening visits every node and everything nested under it |
| MoveDialog.IndexedLast | client/src/components/MoveDialog.tsx:80-87 | A node that no later node shares an id with is the map's entry for that id |
| MoveDialog.Pass | client/src/components/MoveDialog.tsx:95-100 | A pass only adds ids of known nodes, each with a parent chain from the item; changed iff it added one; no change means the set is closed under children |
| MoveDialog.Fixpoint | client/src/components/MoveDialog.tsx:89-101 | The loop ends with exactly the ids that descend from the item (the item included) |
| MoveDialog.DescendantIds | client/src/components/MoveDialog.tsx:64-103 | For no item or a file, the empty set; for a folder, exactly its descendants in the indexed tree |
| MoveDialog.ItemIsDescendant | client/src/components/MoveDialog.tsx:89-90 | The item itself is always in the set |
| MoveDialog.DescendantsAreSubtree | client/src/components/MoveDialog.tsx:92-101 | In a tree with unique ids whose children point at their parent, the descendants are the node and the nodes nested below it |
| MoveDialog.Click | client/src/components/MoveDialog.tsx:144 | Clicking a disabled row keeps the selection; clicking another row selects it |
| MoveDialog.DisabledRows | client/src/components/MoveDialog.tsx:128-144 | While moving a folder, a row is disabled iff it descends from that folder, and such a row can never become selected by clicking; the folder's own row is disabled |
| MoveDialog.SomeMatchingIsFlatMatch | client/src/components/MoveDialog.tsx:134-138 | The recursive child search finds a match iff some node nested below matches |
| MoveDialog.ShownIffMatchBelow | client/src/components/MoveDialog.tsx:132-139 | A row is shown iff the query is empty, the row is the root, its name matches, or some node below matches, case-insensitively |

## Left out

- FolderWalks.BreadcrumbWalk: requires the owner's whole parent map to be acyclic, which is stronger than the source needs. The source loop never ends only when the upward chain from the start folder enters a cycle; a cycle elsewhere among the owner's folders does not affect it. The model describes neither that case nor a start folder whose chain is acyclic in a store that holds a cycle elsewhere.
- FolderWalks.WalkMeets: requires the owner's whole parent map to be acyclic. The source loop never ends only when the upward chain from the destination enters a cycle that does not contain the moved folder.
- FoldersFacade.GetFolderContents: for a non-root listing it requires the owner's parent map to be acyclic, for the breadcrumb walk. A root listing (parent null or empty) does not walk and needs nothing.
- FoldersService.GetFolderContents: for a non-root listing it requires acyclicity, for the same walk. The root listing needs nothing, even on a store the service's own moveFolder made cyclic.
- FoldersFacade.MoveFolder: requires an acyclic start state, for its cycle walk. The service move, which cannot rely on it, needs no such requirement.
- FoldersFacade.DeleteFolder: requires the owner's whole parent map to be acyclic, which is stronger than the source needs. The source recursion never ends only when the deleted folder lies on a cycle; a folder off every cycle has no cycle below it. Its ensures lists the FILE_DELETED events but not the Telegram delete requests the cascade sends.
- FoldersService.DeleteFolder: requires the owner's whole parent map to be acyclic, as the facade's delete does; the source recursion never ends only when the deleted folder lies on a cycle. Its ensures does not list the Telegram delete requests.
- Fresh ids: new record ids (ObjectIds) are parameters. A taken id is refused like a duplicate key.
- Invalid ObjectIds: a malformed id string makes Mongoose throw a cast error. The model treats every string as an id; the middleware's failed lookup is its one modelled case.
- Timestamps: createdAt and updatedAt are a `nat` clock given as a parameter.
- Telegram HTTP: the Bot API is an oracle of replies. `NetworkError` stands for any exception the HTTP call throws, including axios's rejection of a non-2xx reply. The `validateBot`, `sendTestMessage` and `getFileStream` calls and all streaming are not modelled.
- Telegram.ClientCache: one class stands for two caches, the facade's flyweight of `TelegramAdapter`s (server/src/flyweights/telegram.flyweight.ts:5-12) and the files service's static factory of `TelegramService`s (server/src/factories/telegram.factory.ts:4-11). The adapter's implementation is not part of this model; it is assumed to read replies as `TelegramService` does (Telegram.ReadUpload, Telegram.ReadLink, Telegram.ReadDelete).
- FilesFacade.FileForStream: the adapter's `getFileStream` request (server/src/facades/files.facade.ts:79-80) is not modelled, so neither is its failure; the model stops after the two guards and the client lookup, and answers the record without a stream.
- FilesService.FileForStream: `TelegramService` declares no `getFileStream`, so the service's stream path (server/src/services/files.service.ts:77) cannot succeed as written: it is a type error at build time and a TypeError after the guards at run time. The model stops at the guards and answers the record, as for the facade.
- Store.ErrorMessage: the messages "E11000 duplicate key error", "Validation failed" and "No document found" stand in for the MongoDB driver's and Mongoose's real texts (for example "File validation failed: name: Path `name` is required."). Only their non-emptiness is promised, which is what the upload's `||` fallback depends on; the exact text of an upload's BadRequest is not modelled.
- Cryptographic libraries: node crypto, CryptoJS, bcrypt and jsonwebtoken are abstract functions with hypothesis predicates, not their algorithms. JWT expiry is not modelled.
- UTF-8: plaintexts are strings passed to the cipher functions as they are. Encoding is inside the abstract cipher.
- Strategy names: a name such as "toString" would find an inherited property of the factory table in JavaScript. The model treats only the three names as known.
- utils/token.util is not part of this model. The auth facade and the middleware call it in place of the token service. The model uses the token service's functions (`Tokens`) for both.
- AuthFacade login, logout and refresh (server/src/facades/auth.facade.ts:32-77): they follow the same control flow as the service's, through utils/token.util. They are modelled once, by AuthService.Login, AuthService.Logout and AuthService.Refresh.
- Configuration and process plumbing: env.config, the Express controllers, the routers and server start-up are not modelled. The missing `encryptionStrategy` field is discussed above.
- Logging subscriber output: only which handlers it registers is modelled (Events.StartUp), not the console lines.
- Concurrency: requests are sequential, and each store call is atomic. Interleavings of concurrent async requests are not modelled.
- Text.Lower: ASCII only. JavaScript's `toLowerCase` also folds non-ASCII letters.
- Text: a Dafny `char` is a Unicode scalar value, while a JavaScript string is a sequence of UTF-16 code units. A character outside the Basic Multilingual Plane is one element here and two in JavaScript; `split` on '.' and the search's `includes` are not affected, but lengths differ.
- FileIcons.GetFileIcon: the extension lists are sets, since only membership is used.
- Map iteration order in the move dialog: a JavaScript Map iterates in insertion order. MoveDialog.Pass takes the remaining nodes in an arbitrary order, which covers that order.
- findDescendants (client/src/components/MoveDialog.tsx:68-77) is dead code and is not modelled.
- The rest of the client: React rendering, hooks, the API wrappers and the auth store are not modelled.

## Findings

| source | as written | input that shows it | evidently intended | confidence | as-written member | corrected member |
|---|---|---|---|---|---|---|
| server/src/services/folders.service.ts:60-69 | The service's moveFolder refuses only a move into the folder itself, so a folder can be moved under its own descendant and the stored parents form a cycle (the source comment at line 65 admits the missing check) | Folders a and b of one owner, b inside a; move a under b | Refuse any destination whose upward chain reaches the folder, as the facade does; every later breadcrumb walk and recursive delete then terminates | not executed | FolderRules.ServiceMoveStoresCycle | FolderRules.FacadeMoveRuleIsExact |
| server/src/services/auth.service.ts:18-19 | The live registration stores credentials made by CryptoJS's passphrase AES, whose Base64 output has no ':'. The middleware decrypts with the strategy context (server/src/middlewares/auth.middleware.ts:43-54), which needs ':'-separated fields, so every such user is refused | Any user registered through the service, presenting a valid access token, when a strategy is configured | Encrypt the credentials through the same strategy context the middleware decrypts with, as the auth facade does; such users are then admitted with their own credentials | not executed | AuthMiddleware.ServiceUserLockedOut | AuthMiddleware.FacadeUserAdmitted |
