// The folder operations of the facade layer: ownership checks with
// `findOne({ _id, ownerId })`, clash checks across both collections, the
// upward walk that refuses a move into the folder's own subtree, the
// recursive delete through the file facade, and an event per change on the
// files observer.
module FoldersFacade {
  import opened Wrappers
  import opened Models
  import opened Query
  import opened Store
  import opened ApiErrors
  import opened Outcomes
  import opened Events
  import opened Telegram
  import opened Hierarchy
  import opened FolderWalks
  import opened FolderForest
  import opened Cascade
  import opened FolderRules
  import FilesFacade

  /** `Folder.create`: validation and the unique index decide; its errors
    * propagate. A created folder enters the owner's hierarchy with the
    * normalised parent. */
  method CreateFolder(db: Db, bus: EventBus, name: string, parentFolderId: Option<string>, ownerId: Id,
                      newId: Id, now: nat) returns (r: Outcome<Node>)
    requires db.Valid() && newId != ""
    modifies db, bus`deliveries, bus`emitted
    ensures db.Valid() && db.files == old(db.files)
    ensures var n := NewFolder(newId, ownerId, name, parentFolderId, now);
      if !Validates(n) then r == Err(Db(ValidationFailed)) && db.folders == old(db.folders) && bus.emitted == old(bus.emitted)
      else if newId in IdsOf(old(db.folders)) || KeyOf(n) in KeysOf(old(db.folders)) then
        r == Err(Db(DuplicateKey)) && db.folders == old(db.folders) && bus.emitted == old(bus.emitted)
      else
        && r == Ok(n) && db.folders == old(db.folders) + [n]
        && bus.emitted == old(bus.emitted) + [(FolderCreated, RecordData(Some(n)))]
    ensures r.Ok? ==> ParentsOf(db.folders, ownerId) == old(ParentsOf(db.folders, ownerId))[newId := ParentRef(parentFolderId)]
  {
    var n := NewFolder(newId, ownerId, name, parentFolderId, now);
    var created := db.Create(Folders, n);
    if created.Err? {
      return Err(Db(created.error));
    }
    ParentsAfterAppend(old(db.folders), ownerId, n);
    bus.Emit(FolderCreated, RecordData(Some(n)));
    r := Ok(n);
  }

  /** One folder's listing, both kinds, and for a non-empty folder id the
    * breadcrumb up to the root. */
  method GetFolderContents(db: Db, parentId: Option<string>, ownerId: Id) returns (r: Contents)
    requires ParentRef(parentId).Some? ==> Acyclic(ParentsOf(db.folders, ownerId))
    ensures r.folders == Select(ListingFilter(ownerId, parentId), db.folders)
    ensures r.files == Select(ListingFilter(ownerId, parentId), db.files)
    ensures forall n :: n in r.folders <==> n in db.folders && n.ownerId == ownerId && n.parentFolderId == ParentRef(parentId)
    ensures forall n :: n in r.files <==> n in db.files && n.ownerId == ownerId && n.parentFolderId == ParentRef(parentId)
    ensures r.path == if ParentRef(parentId).Some? then Breadcrumb(db.folders, ownerId, parentId.value) else []
  {
    var folders := db.Find(Folders, ListingFilter(ownerId, parentId));
    var files := db.Find(Files, ListingFilter(ownerId, parentId));
    forall n ensures (n in folders <==> n in db.folders && n.ownerId == ownerId && n.parentFolderId == ParentRef(parentId))
                  && (n in files <==> n in db.files && n.ownerId == ownerId && n.parentFolderId == ParentRef(parentId)) {
      ListingFilterMeaning(ownerId, parentId, n);
      SelectExactly(ListingFilter(ownerId, parentId), db.folders, n);
      SelectExactly(ListingFilter(ownerId, parentId), db.files, n);
    }
    var path := [];
    if parentId.Some? && parentId.value != "" {
      path := BreadcrumbWalk(db, ownerId, parentId.value);
    }
    r := Contents(folders, files, path);
  }

  /** Ownership, then the clash checks in both collections, then the update
    * of the name alone; the hierarchy does not change. */
  method RenameFolder(db: Db, bus: EventBus, folderId: Id, name: string, ownerId: Id, now: nat)
    returns (r: Outcome<Option<Node>>)
    requires db.Valid()
    modifies db, bus`deliveries, bus`emitted
    ensures db.Valid() && db.files == old(db.files)
    ensures match First(IdOwnerFilter(folderId, ownerId), old(db.folders))
      case None =>
        r == Err(Api(NotFoundWith(FolderNotFoundMessage))) && db.folders == old(db.folders) && bus.emitted == old(bus.emitted)
      case Some(n) =>
        && r == FacadeRenamed(db.files, old(db.folders), n, name, now)
        && (r.Err? ==> db.folders == old(db.folders) && bus.emitted == old(bus.emitted))
        && (r.Ok? ==> db.folders == ReplaceId(old(db.folders), folderId, r.value.value)
                      && bus.emitted == old(bus.emitted) + [(FolderRenamed, RecordData(r.value))])
    ensures ParentsOf(db.folders, ownerId) == old(ParentsOf(db.folders, ownerId))
  {
    var folder := db.FindOne(Folders, IdOwnerFilter(folderId, ownerId));
    if folder.None? {
      return Err(Api(NotFoundWith(FolderNotFoundMessage)));
    }
    var n := folder.value;
    FoundInParents(db.folders, ownerId, folderId);
    CollisionFound(ownerId, n.parentFolderId, name, None, db.files);
    CollisionFound(ownerId, n.parentFolderId, name, Some(folderId), db.folders);
    var collisionFile := db.FindOne(Files, CollisionFilter(ownerId, n.parentFolderId, name, None));
    var collisionFolder := db.FindOne(Folders, CollisionFilter(ownerId, n.parentFolderId, name, Some(folderId)));
    if collisionFile.Some? || collisionFolder.Some? {
      return Err(Api(BadRequest(NameTakenMessage)));
    }
    RecordById(db.folders, folderId);
    RenamesCompared(db.files, db.folders, n, name, now);
    ghost var m := ApplyPatch(n, Patch(Some(name), None), now);
    ParentsAfterReplace(db.folders, ownerId, folderId, m);
    // The slot is free, so the update cannot fail here.
    var updated := db.FindByIdAndUpdate(Folders, folderId, Patch(Some(name), None), now);
    bus.Emit(FolderRenamed, RecordData(updated.value));
    r := Ok(updated.value);
  }

  /** Ownership, the two move checks, then the update of the parent alone.
    * The owner's hierarchy stays free of cycles whatever the request. */
  method MoveFolder(db: Db, bus: EventBus, folderId: Id, newParentId: Option<string>, ownerId: Id, now: nat)
    returns (r: Outcome<Option<Node>>)
    requires db.Valid() && Acyclic(ParentsOf(db.folders, ownerId))
    modifies db, bus`deliveries, bus`emitted
    ensures db.Valid() && db.files == old(db.files)
    ensures match First(IdOwnerFilter(folderId, ownerId), old(db.folders))
      case None =>
        r == Err(Api(NotFoundWith(FolderNotFoundMessage))) && db.folders == old(db.folders) && bus.emitted == old(bus.emitted)
      case Some(n) =>
        var refusal := FacadeMoveRefusal(old(ParentsOf(db.folders, ownerId)), folderId, newParentId);
        var m := ApplyPatch(n, Patch(None, Some(ParentRef(newParentId))), now);
        if refusal.Some? then
          r == Err(Api(refusal.value)) && db.folders == old(db.folders) && bus.emitted == old(bus.emitted)
        else if SlotFree(old(db.folders), m) then
          && r == Ok(Some(m)) && db.folders == ReplaceId(old(db.folders), folderId, m)
          && bus.emitted == old(bus.emitted) + [(FolderMoved, RecordData(Some(m)))]
          && ParentsOf(db.folders, ownerId) == old(ParentsOf(db.folders, ownerId))[folderId := ParentRef(newParentId)]
        else
          r == Err(Db(DuplicateKey)) && db.folders == old(db.folders) && bus.emitted == old(bus.emitted)
    ensures Acyclic(ParentsOf(db.folders, ownerId))
  {
    var folder := db.FindOne(Folders, IdOwnerFilter(folderId, ownerId));
    if folder.None? {
      return Err(Api(NotFoundWith(FolderNotFoundMessage)));
    }
    var n := folder.value;
    FoundInParents(db.folders, ownerId, folderId);
    if newParentId == Some(folderId) {
      return Err(Api(BadRequest(IntoItselfMessage)));
    }
    if newParentId.Some? && newParentId.value != "" {
      var meets := WalkMeets(db, ownerId, newParentId.value, folderId);
      if meets {
        return Err(Api(BadRequest(IntoSubfolderMessage)));
      }
    }
    ghost var pm := ParentsOf(db.folders, ownerId);
    FacadeMoveRuleIsExact(pm, folderId, newParentId);
    RecordById(db.folders, folderId);
    ghost var m := ApplyPatch(n, Patch(None, Some(ParentRef(newParentId))), now);
    ParentsAfterReplace(db.folders, ownerId, folderId, m);
    var updated := db.FindByIdAndUpdate(Folders, folderId, Patch(None, Some(ParentRef(newParentId))), now);
    if updated.Err? {
      return Err(Db(updated.error));
    }
    bus.Emit(FolderMoved, RecordData(updated.value));
    r := Ok(updated.value);
  }

  /** Ownership, then every subfolder's delete, depth first, then the
    * folder's own files through the file facade, then the folder itself.
    * Afterwards the folder's subtree is gone, with every file of the owner's
    * inside it, and the observer has seen one deletion for each; the
    * folder's own deletion comes last. */
  method DeleteFolder(db: Db, bus: EventBus, cache: ClientCache, folderId: Id, ownerId: Id, creds: Credentials)
    returns (r: Outcome<string>)
    requires db.Valid() && cache.Valid() && Acyclic(ParentsOf(db.folders, ownerId))
    modifies db, bus`deliveries, bus`emitted, cache`instances, cache.api
    decreases |Subtree(ParentsOf(db.folders, ownerId), folderId)|, 2
    ensures db.Valid() && cache.Valid()
    ensures folderId !in old(ParentsOf(db.folders, ownerId)) ==>
      && r == Err(Api(NotFoundWith(FolderNotFoundMessage)))
      && db.folders == old(db.folders) && db.files == old(db.files) && bus.emitted == old(bus.emitted)
    ensures folderId in old(ParentsOf(db.folders, ownerId)) ==>
      && r == Ok(DeletedMessage)
      && Erased(old(db.folders), old(db.files), old(bus.emitted), db.folders, db.files, bus.emitted, ownerId,
                Subtree(old(ParentsOf(db.folders, ownerId)), folderId))
      && |bus.emitted| > 0 && bus.emitted[|bus.emitted| - 1] == (FolderDeleted, FolderRef(folderId, ownerId))
  {
    FoundInParents(db.folders, ownerId, folderId);
    var folder := db.FindOne(Folders, IdOwnerFilter(folderId, ownerId));
    if folder.None? {
      return Err(Api(NotFoundWith(FolderNotFoundMessage)));
    }
    assert folder.value in db.folders;
    ghost var pm := ParentsOf(db.folders, ownerId);
    ghost var F0, G0, E0 := db.folders, db.files, bus.emitted;
    var subfolders := db.Find(Folders, ListingFilter(ownerId, Some(folderId)));
    DeleteChildren(db, bus, cache, folderId, subfolders, ownerId, creds);
    ghost var X := SubtreesOf(pm, IdList(subfolders), |subfolders|);
    ghost var F1, G1, E1 := db.folders, db.files, bus.emitted;
    DeleteHere(db, bus, cache, folderId, ownerId, creds);
    r := Ok(DeletedMessage);
    ChildrenThenSelf(F0, G0, pm, folderId, ownerId, subfolders);
    ErasedChain(F0, G0, E0, F1, G1, E1, db.folders, db.files, bus.emitted, ownerId, X, {folderId});
  }

  /** A run of deletes: what `Removed` says of the store, and a log with
    * one event for each folder and file that went. */
  ghost predicate Erased(F0: seq<Node>, G0: seq<Node>, E0: seq<(EventType, EventData)>,
                         F: seq<Node>, G: seq<Node>, E: seq<(EventType, EventData)>, owner: Id, gone: set<Id>)
  {
    && Removed(F0, G0, F, G, owner, gone)
    && DeletionLog(E0, E, owner, gone, FilesUnder(G0, owner, gone))
  }

  lemma ErasedNothing(F: seq<Node>, G: seq<Node>, E: seq<(EventType, EventData)>, owner: Id)
    ensures Erased(F, G, E, F, G, E, owner, {})
  {
    RemovedNothing(F, G, owner);
    DeletionLogEmpty(E, owner);
  }

  /** Two runs of deletes over disjoint sets of folders make one. */
  lemma ErasedChain(F0: seq<Node>, G0: seq<Node>, E0: seq<(EventType, EventData)>,
                    F1: seq<Node>, G1: seq<Node>, E1: seq<(EventType, EventData)>,
                    F2: seq<Node>, G2: seq<Node>, E2: seq<(EventType, EventData)>, owner: Id, a: set<Id>, b: set<Id>)
    requires DistinctIds(G0) && a !! b
    requires Erased(F0, G0, E0, F1, G1, E1, owner, a) && Erased(F1, G1, E1, F2, G2, E2, owner, b)
    ensures Erased(F0, G0, E0, F2, G2, E2, owner, a + b)
  {
    RemovedChain(F0, G0, F1, G1, F2, G2, owner, a, b);
    FilesUnderAfterRemoval(G0, owner, a, b);
    FilesUnderUnion(G0, owner, a, b);
    DeletionLogsChain(E0, E1, E2, owner, a, FilesUnder(G0, owner, a), b, FilesUnder(G0, owner, b));
  }

  /** The loop over the subfolders: each one's delete, in listing order. */
  method DeleteChildren(db: Db, bus: EventBus, cache: ClientCache, folderId: Id, subfolders: seq<Node>, ownerId: Id,
                        creds: Credentials)
    requires db.Valid() && cache.Valid()
    requires Acyclic(ParentsOf(db.folders, ownerId)) && folderId in ParentsOf(db.folders, ownerId) && folderId != ""
    requires subfolders == Select(ListingFilter(ownerId, Some(folderId)), db.folders)
    modifies db, bus`deliveries, bus`emitted, cache`instances, cache.api
    decreases |Subtree(ParentsOf(db.folders, ownerId), folderId)|, 1
    ensures db.Valid() && cache.Valid()
    ensures Erased(old(db.folders), old(db.files), old(bus.emitted), db.folders, db.files, bus.emitted, ownerId,
                   SubtreesOf(old(ParentsOf(db.folders, ownerId)), IdList(subfolders), |subfolders|))
  {
    ghost var pm := ParentsOf(db.folders, ownerId);
    ghost var F0, G0, E0 := db.folders, db.files, bus.emitted;
    ghost var kids := IdList(subfolders);
    ErasedNothing(F0, G0, E0, ownerId);
    assert ChildList(F0, G0, pm, folderId, ownerId, subfolders);
    var i := 0;
    while i < |subfolders|
      invariant 0 <= i <= |subfolders|
      invariant db.Valid() && cache.Valid()
      invariant Erased(F0, G0, E0, db.folders, db.files, bus.emitted, ownerId, SubtreesOf(pm, kids, i))
    {
      DeleteChild(db, bus, cache, folderId, subfolders, i, ownerId, creds, F0, G0, E0, pm);
      i := i + 1;
    }
  }

  /** The body of the subfolder loop: the delete of the i-th subfolder,
    * which adds its subtree to what is gone. */
  method DeleteChild(db: Db, bus: EventBus, cache: ClientCache, folderId: Id, subfolders: seq<Node>, i: nat,
                     ownerId: Id, creds: Credentials, ghost F0: seq<Node>, ghost G0: seq<Node>,
                     ghost E0: seq<(EventType, EventData)>, ghost pm: ParentMap)
    requires db.Valid() && cache.Valid() && ChildList(F0, G0, pm, folderId, ownerId, subfolders) && i < |subfolders|
    requires Erased(F0, G0, E0, db.folders, db.files, bus.emitted, ownerId, SubtreesOf(pm, IdList(subfolders), i))
    modifies db, bus`deliveries, bus`emitted, cache`instances, cache.api
    decreases |Subtree(pm, folderId)|, 0
    ensures db.Valid() && cache.Valid()
    ensures Erased(F0, G0, E0, db.folders, db.files, bus.emitted, ownerId, SubtreesOf(pm, IdList(subfolders), i + 1))
  {
    ghost var kids := IdList(subfolders);
    ChildVisit(F0, G0, pm, folderId, ownerId, kids, i);
    ghost var F1, G1, E1 := db.folders, db.files, bus.emitted;
    var _ := DeleteFolder(db, bus, cache, subfolders[i].id, ownerId, creds);
    ErasedChain(F0, G0, E0, F1, G1, E1, db.folders, db.files, bus.emitted, ownerId,
      SubtreesOf(pm, kids, i), Subtree(pm, kids[i]));
  }

  /** The folder's own part of a delete: its files, then its record, then
    * its event. */
  method DeleteHere(db: Db, bus: EventBus, cache: ClientCache, folderId: Id, ownerId: Id, creds: Credentials)
    requires db.Valid() && cache.Valid() && folderId != ""
    modifies db, bus`deliveries, bus`emitted, cache`instances, cache.api
    ensures db.Valid() && cache.Valid()
    ensures Erased(old(db.folders), old(db.files), old(bus.emitted), db.folders, db.files, bus.emitted, ownerId, {folderId})
    ensures |bus.emitted| > 0 && bus.emitted[|bus.emitted| - 1] == (FolderDeleted, FolderRef(folderId, ownerId))
  {
    ghost var G0 := db.files;
    DeleteFilesIn(db, bus, cache, folderId, ownerId, creds);
    ghost var E1 := bus.emitted;
    db.DeleteById(Folders, folderId);
    bus.Emit(FolderDeleted, FolderRef(folderId, ownerId));
    DeletionLogOne(E1, (FolderDeleted, FolderRef(folderId, ownerId)), ownerId);
    DeletionLogsChain(old(bus.emitted), E1, bus.emitted, ownerId, {}, FilesUnder(G0, ownerId, {folderId}), {folderId}, {});
    assert {} + {folderId} == {folderId};
    assert FilesUnder(G0, ownerId, {folderId}) + {} == FilesUnder(G0, ownerId, {folderId});
  }

  /** The loop over the files directly in the folder, each deleted through
    * the file facade. */
  method DeleteFilesIn(db: Db, bus: EventBus, cache: ClientCache, folderId: Id, ownerId: Id, creds: Credentials)
    requires db.Valid() && cache.Valid() && folderId != ""
    modifies db, bus`deliveries, bus`emitted, cache`instances, cache.api
    ensures db.Valid() && cache.Valid() && db.folders == old(db.folders)
    ensures db.files == RemoveIds(old(db.files), FilesUnder(old(db.files), ownerId, {folderId}))
    ensures DeletionLog(old(bus.emitted), bus.emitted, ownerId, {}, FilesUnder(old(db.files), ownerId, {folderId}))
  {
    ghost var G0, E0 := db.files, bus.emitted;
    var files := db.Find(Files, ListingFilter(ownerId, Some(folderId)));
    ListedFiles(G0, ownerId, folderId);
    DeletionLogEmpty(E0, ownerId);
    RemoveNothing(G0);
    var j := 0;
    while j < |files|
      invariant 0 <= j <= |files|
      invariant db.Valid() && cache.Valid() && db.folders == old(db.folders)
      invariant db.files == RemoveIds(G0, IdsUpTo(files, j))
      invariant DeletionLog(E0, bus.emitted, ownerId, {}, IdsUpTo(files, j))
    {
      FileVisit(G0, ownerId, folderId, j);
      ghost var E1 := bus.emitted;
      var _ := FilesFacade.DeleteFile(db, bus, cache, files[j].id, ownerId, creds);
      DeletionLogOne(E1, (FileDeleted, FileRef(files[j].id, ownerId)), ownerId);
      DeletionLogsChain(E0, E1, bus.emitted, ownerId, {}, IdsUpTo(files, j), {}, {files[j].id});
      j := j + 1;
    }
  }

  /** All of the owner's folders, arranged as a forest. */
  method GetTree(db: Db, ownerId: Id) returns (roots: seq<Id>, children: map<Id, seq<Id>>, entries: map<Id, Node>)
    ensures var folders := Select(OwnerFilter(ownerId), db.folders);
      && entries.Keys == IdsOf(folders) && children.Keys == IdsOf(folders)
      && (forall x :: x in entries ==> entries[x] in db.folders && entries[x].ownerId == ownerId && entries[x].id == x)
      && roots == TopIds(folders, IdsOf(folders), |folders|)
      && (forall p :: p in children ==> children[p] == ChildIds(folders, p, |folders|))
  {
    var folders := db.Find(Folders, OwnerFilter(ownerId));
    roots, children, entries := BuildForest(folders);
    forall x | x in entries ensures entries[x] in db.folders && entries[x].ownerId == ownerId {
      SelectExactly(OwnerFilter(ownerId), db.folders, entries[x]);
      OwnerFilterMeaning(ownerId, entries[x]);
    }
  }
}
