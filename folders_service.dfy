// The folder operations the controllers call: record methods (`save`,
// `deleteOne`) on the loaded documents, no clash check of their own beyond
// the store's index, only the "into itself" move check, the recursive delete
// through the file service, and no events.
module FoldersService {
  import opened Wrappers
  import opened Models
  import opened Query
  import opened Store
  import opened ApiErrors
  import opened Outcomes
  import opened Telegram
  import opened Repositories
  import opened Hierarchy
  import opened FolderWalks
  import opened FolderForest
  import opened Cascade
  import opened FolderRules
  import FilesService

  /** `new Folder(...).save()`: validation, then the insert under the unique
    * indexes. */
  method CreateFolder(db: Db, name: string, parentFolderId: Option<string>, ownerId: Id, newId: Id, now: nat)
    returns (r: Outcome<Node>)
    requires db.Valid() && newId != ""
    modifies db
    ensures db.Valid() && db.files == old(db.files)
    ensures var n := NewFolder(newId, ownerId, name, parentFolderId, now);
      if !Validates(n) then r == Err(Db(ValidationFailed)) && db.folders == old(db.folders)
      else if newId in IdsOf(old(db.folders)) || KeyOf(n) in KeysOf(old(db.folders)) then
        r == Err(Db(DuplicateKey)) && db.folders == old(db.folders)
      else r == Ok(n) && db.folders == old(db.folders) + [n]
    ensures r.Ok? ==> ParentsOf(db.folders, ownerId) == old(ParentsOf(db.folders, ownerId))[newId := ParentRef(parentFolderId)]
  {
    var n := NewFolder(newId, ownerId, name, parentFolderId, now);
    var created := db.Create(Folders, n);
    if created.Err? {
      return Err(Db(created.error));
    }
    ParentsAfterAppend(old(db.folders), ownerId, n);
    r := Ok(n);
  }

  /** The listing query `{ ownerId, parentFolderId }` on both collections,
    * and the breadcrumb for a non-empty folder id. */
  method GetFolderContents(db: Db, parentId: Option<string>, ownerId: Id) returns (r: Contents)
    requires ParentRef(parentId).Some? ==> Acyclic(ParentsOf(db.folders, ownerId))
    ensures forall n :: n in r.folders <==> n in db.folders && n.ownerId == ownerId && n.parentFolderId == ParentRef(parentId)
    ensures forall n :: n in r.files <==> n in db.files && n.ownerId == ownerId && n.parentFolderId == ParentRef(parentId)
    ensures r.folders == Select(ListingFilter(ownerId, parentId), db.folders)
    ensures r.files == Select(ListingFilter(ownerId, parentId), db.files)
    ensures r.path == if ParentRef(parentId).Some? then Breadcrumb(db.folders, ownerId, parentId.value) else []
  {
    var query := ListingFilter(ownerId, parentId);
    var folders := db.Find(Folders, query);
    var files := db.Find(Files, query);
    forall n ensures (n in folders <==> n in db.folders && n.ownerId == ownerId && n.parentFolderId == ParentRef(parentId))
                  && (n in files <==> n in db.files && n.ownerId == ownerId && n.parentFolderId == ParentRef(parentId)) {
      ListingFilterMeaning(ownerId, parentId, n);
      SelectExactly(query, db.folders, n);
      SelectExactly(query, db.files, n);
    }
    var path := [];
    if parentId.Some? && parentId.value != "" {
      path := BreadcrumbWalk(db, ownerId, parentId.value);
    }
    r := Contents(folders, files, path);
  }

  /** Ownership, then `save()` with the new name: only validation and the
    * folders' unique index can refuse it. */
  method RenameFolder(db: Db, folderId: Id, name: string, ownerId: Id, now: nat) returns (r: Outcome<Node>)
    requires db.Valid()
    modifies db
    ensures db.Valid() && db.files == old(db.files)
    ensures match First(IdOwnerFilter(folderId, ownerId), old(db.folders))
      case None => r == Err(Api(NotFoundWith(FolderNotFoundMessage))) && db.folders == old(db.folders)
      case Some(n) =>
        && r == ServiceRenamed(old(db.folders), n, name, now)
        && (r.Err? ==> db.folders == old(db.folders))
        && (r.Ok? ==> db.folders == ReplaceId(old(db.folders), folderId, r.value))
    ensures ParentsOf(db.folders, ownerId) == old(ParentsOf(db.folders, ownerId))
  {
    var folder := db.FindOne(Folders, IdOwnerFilter(folderId, ownerId));
    if folder.None? {
      return Err(Api(NotFoundWith(FolderNotFoundMessage)));
    }
    var n := folder.value;
    FoundInParents(db.folders, ownerId, folderId);
    assert n.id in IdsOf(db.folders);
    StoredUnchanged(db.folders, n, n.(name := name));
    ParentsAfterReplace(db.folders, ownerId, folderId, n.(name := name, updatedAt := now));
    var saved := db.Save(Folders, n.(name := name), now);
    if saved.Err? {
      return Err(Db(saved.error));
    }
    r := Ok(saved.value);
  }

  /** Ownership, the "into itself" check, then `save()` with the new parent.
    * Nothing stops a move into the folder's own subtree
    * (FolderRules.ServiceMoveStoresCycle). */
  method MoveFolder(db: Db, folderId: Id, newParentId: Option<string>, ownerId: Id, now: nat) returns (r: Outcome<Node>)
    requires db.Valid()
    modifies db
    ensures db.Valid() && db.files == old(db.files)
    ensures match First(IdOwnerFilter(folderId, ownerId), old(db.folders))
      case None => r == Err(Api(NotFoundWith(FolderNotFoundMessage))) && db.folders == old(db.folders)
      case Some(n) =>
        && r == ServiceMoved(old(db.folders), n, newParentId, now)
        && (r.Err? ==> db.folders == old(db.folders))
        && (r.Ok? ==> db.folders == ReplaceId(old(db.folders), folderId, r.value)
                      && ParentsOf(db.folders, ownerId) == old(ParentsOf(db.folders, ownerId))[folderId := ParentRef(newParentId)])
  {
    var folder := db.FindOne(Folders, IdOwnerFilter(folderId, ownerId));
    if folder.None? {
      return Err(Api(NotFoundWith(FolderNotFoundMessage)));
    }
    var n := folder.value;
    FoundInParents(db.folders, ownerId, folderId);
    if newParentId == Some(folderId) {
      return Err(Api(BadRequest(IntoItselfMessage)));
    }
    assert n.id in IdsOf(db.folders);
    StoredUnchanged(db.folders, n, n.(parentFolderId := ParentRef(newParentId)));
    ghost var m := if ParentRef(newParentId) == n.parentFolderId then n
      else n.(parentFolderId := ParentRef(newParentId), updatedAt := now);
    ParentsAfterReplace(db.folders, ownerId, folderId, m);
    var saved := db.Save(Folders, n.(parentFolderId := ParentRef(newParentId)), now);
    if saved.Err? {
      return Err(Db(saved.error));
    }
    r := Ok(saved.value);
  }

  /** Ownership, then every subfolder's delete, depth first, then the
    * folder's own files through the file service, then the folder itself.
    * Afterwards the folder's subtree is gone, with every file of the owner's
    * inside it. The recursion ends only because the hierarchy is acyclic. */
  method DeleteFolder(files: Repository, cache: ClientCache, folderId: Id, ownerId: Id, creds: Credentials)
    returns (r: Outcome<string>)
    requires files.kind == Files && files.db.Valid() && cache.Valid() && Acyclic(ParentsOf(files.db.folders, ownerId))
    modifies files.db, cache`instances, cache.api
    decreases |Subtree(ParentsOf(files.db.folders, ownerId), folderId)|, 2
    ensures files.db.Valid() && cache.Valid()
    ensures folderId !in old(ParentsOf(files.db.folders, ownerId)) ==>
      && r == Err(Api(NotFoundWith(FolderNotFoundMessage)))
      && files.db.folders == old(files.db.folders) && files.db.files == old(files.db.files)
    ensures folderId in old(ParentsOf(files.db.folders, ownerId)) ==>
      && r == Ok(DeletedMessage)
      && Removed(old(files.db.folders), old(files.db.files), files.db.folders, files.db.files, ownerId,
                 Subtree(old(ParentsOf(files.db.folders, ownerId)), folderId))
  {
    var db := files.db;
    FoundInParents(db.folders, ownerId, folderId);
    var folder := db.FindOne(Folders, IdOwnerFilter(folderId, ownerId));
    if folder.None? {
      return Err(Api(NotFoundWith(FolderNotFoundMessage)));
    }
    assert folder.value in db.folders;
    ghost var pm := ParentsOf(db.folders, ownerId);
    ghost var F0, G0 := db.folders, db.files;
    var subfolders := db.Find(Folders, ListingFilter(ownerId, Some(folderId)));
    DeleteChildren(files, cache, folderId, subfolders, ownerId, creds);
    ghost var X := SubtreesOf(pm, IdList(subfolders), |subfolders|);
    ghost var F1, G1 := db.folders, db.files;
    DeleteHere(files, cache, folderId, ownerId, creds);
    r := Ok(DeletedMessage);
    ChildrenThenSelf(F0, G0, pm, folderId, ownerId, subfolders);
    RemovedChain(F0, G0, F1, G1, db.folders, db.files, ownerId, X, {folderId});
  }

  /** The loop over the subfolders: each one's delete, in listing order. */
  method DeleteChildren(files: Repository, cache: ClientCache, folderId: Id, subfolders: seq<Node>, ownerId: Id,
                        creds: Credentials)
    requires files.kind == Files && files.db.Valid() && cache.Valid()
    requires Acyclic(ParentsOf(files.db.folders, ownerId)) && folderId in ParentsOf(files.db.folders, ownerId) && folderId != ""
    requires subfolders == Select(ListingFilter(ownerId, Some(folderId)), files.db.folders)
    modifies files.db, cache`instances, cache.api
    decreases |Subtree(ParentsOf(files.db.folders, ownerId), folderId)|, 1
    ensures files.db.Valid() && cache.Valid()
    ensures Removed(old(files.db.folders), old(files.db.files), files.db.folders, files.db.files, ownerId,
                    SubtreesOf(old(ParentsOf(files.db.folders, ownerId)), IdList(subfolders), |subfolders|))
  {
    var db := files.db;
    ghost var pm := ParentsOf(db.folders, ownerId);
    ghost var F0, G0 := db.folders, db.files;
    ghost var kids := IdList(subfolders);
    RemovedNothing(F0, G0, ownerId);
    assert ChildList(F0, G0, pm, folderId, ownerId, subfolders);
    var i := 0;
    while i < |subfolders|
      invariant 0 <= i <= |subfolders|
      invariant db.Valid() && cache.Valid()
      invariant Removed(F0, G0, db.folders, db.files, ownerId, SubtreesOf(pm, kids, i))
    {
      DeleteChild(files, cache, folderId, subfolders, i, ownerId, creds, F0, G0, pm);
      i := i + 1;
    }
  }

  /** The body of the subfolder loop: the delete of the i-th subfolder,
    * which adds its subtree to what is gone. */
  method DeleteChild(files: Repository, cache: ClientCache, folderId: Id, subfolders: seq<Node>, i: nat,
                     ownerId: Id, creds: Credentials, ghost F0: seq<Node>, ghost G0: seq<Node>, ghost pm: ParentMap)
    requires files.kind == Files && files.db.Valid() && cache.Valid()
    requires ChildList(F0, G0, pm, folderId, ownerId, subfolders) && i < |subfolders|
    requires Removed(F0, G0, files.db.folders, files.db.files, ownerId, SubtreesOf(pm, IdList(subfolders), i))
    modifies files.db, cache`instances, cache.api
    decreases |Subtree(pm, folderId)|, 0
    ensures files.db.Valid() && cache.Valid()
    ensures Removed(F0, G0, files.db.folders, files.db.files, ownerId, SubtreesOf(pm, IdList(subfolders), i + 1))
  {
    ghost var kids := IdList(subfolders);
    ChildVisit(F0, G0, pm, folderId, ownerId, kids, i);
    ghost var F1, G1 := files.db.folders, files.db.files;
    var _ := DeleteFolder(files, cache, subfolders[i].id, ownerId, creds);
    RemovedChain(F0, G0, F1, G1, files.db.folders, files.db.files, ownerId, SubtreesOf(pm, kids, i), Subtree(pm, kids[i]));
  }

  /** The folder's own part of a delete: its files, then `folder.deleteOne()`. */
  method DeleteHere(files: Repository, cache: ClientCache, folderId: Id, ownerId: Id, creds: Credentials)
    requires files.kind == Files && files.db.Valid() && cache.Valid() && folderId != ""
    modifies files.db, cache`instances, cache.api
    ensures files.db.Valid() && cache.Valid()
    ensures Removed(old(files.db.folders), old(files.db.files), files.db.folders, files.db.files, ownerId, {folderId})
  {
    DeleteFilesIn(files, cache, folderId, ownerId, creds);
    files.db.DeleteById(Folders, folderId);
  }

  /** The loop over the files directly in the folder, each deleted through
    * the file service. */
  method DeleteFilesIn(files: Repository, cache: ClientCache, folderId: Id, ownerId: Id, creds: Credentials)
    requires files.kind == Files && files.db.Valid() && cache.Valid() && folderId != ""
    modifies files.db, cache`instances, cache.api
    ensures files.db.Valid() && cache.Valid() && files.db.folders == old(files.db.folders)
    ensures files.db.files == RemoveIds(old(files.db.files), FilesUnder(old(files.db.files), ownerId, {folderId}))
  {
    var db := files.db;
    ghost var G0 := db.files;
    var listed := db.Find(Files, ListingFilter(ownerId, Some(folderId)));
    ListedFiles(G0, ownerId, folderId);
    RemoveNothing(G0);
    var j := 0;
    while j < |listed|
      invariant 0 <= j <= |listed|
      invariant db.Valid() && cache.Valid() && db.folders == old(db.folders)
      invariant db.files == RemoveIds(G0, IdsUpTo(listed, j))
    {
      FileVisit(G0, ownerId, folderId, j);
      var _ := FilesService.DeleteFile(files, cache, listed[j].id, ownerId, creds);
      j := j + 1;
    }
  }

  /** `Folder.find({ ownerId })` arranged as a forest. */
  method GetTree(db: Db, ownerId: Id) returns (roots: seq<Id>, children: map<Id, seq<Id>>, entries: map<Id, Node>)
    ensures var folders := Select(OwnerFilter(ownerId), db.folders);
      && entries.Keys == IdsOf(folders) && children.Keys == IdsOf(folders)
      && (forall x :: x in entries ==> entries[x] in db.folders && entries[x].ownerId == ownerId && entries[x].id == x)
      && roots == TopIds(folders, IdsOf(folders), |folders|)
      && (forall p :: p in children ==> children[p] == ChildIds(folders, p, |folders|))
  {
    var folders := db.Find(Folders, OwnerFilter(ownerId));
    roots, children, entries := BuildForest(folders);
    forall x | x in entries ensures entries[x] in db.folders && entries[x].ownerId == ownerId {
      SelectExactly(OwnerFilter(ownerId), db.folders, entries[x]);
      OwnerFilterMeaning(ownerId, entries[x]);
    }
  }
}
