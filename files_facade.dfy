// The file operations of the facade layer: each checks ownership with
// `findOne({ _id, ownerId })`, talks to the chat service through the cached
// client for the caller's bot token, writes the store and announces the
// change on the files observer.
module FilesFacade {
  import opened Wrappers
  import opened Models
  import opened Query
  import opened Store
  import opened ApiErrors
  import opened Outcomes
  import opened Events
  import opened Telegram
  import opened FileRules

  /** Upload to the chat first; only a successful upload creates the row.
    * Any failure, remote or in the store, becomes a 400 with its message. */
  method UploadFile(db: Db, bus: EventBus, cache: ClientCache, upload: Upload, ownerId: Id, creds: Credentials,
                    parentFolderId: Option<string>, newId: Id, now: nat) returns (r: Outcome<Node>)
    requires db.Valid() && cache.Valid() && newId != ""
    modifies db, bus`deliveries, bus`emitted, cache`instances, cache.api
    ensures db.Valid() && cache.Valid() && db.folders == old(db.folders)
    ensures cache.api.requests == old(cache.api.requests) + [UploadRequest(creds, upload)]
    ensures match ReadUpload(cache.api.respond(|old(cache.api.requests)|, UploadRequest(creds, upload)))
      case Err(m) => r == Err(Api(UploadError(m))) && db.files == old(db.files) && bus.emitted == old(bus.emitted)
      case Ok(sent) =>
        var n := UploadedRecord(newId, ownerId, upload, parentFolderId, sent, now);
        if Validates(n) && newId !in IdsOf(old(db.files)) && KeyOf(n) !in KeysOf(old(db.files)) then
          r == Ok(n) && db.files == old(db.files) + [n]
          && bus.emitted == old(bus.emitted) + [(FileUploaded, RecordData(Some(n)))]
        else
          r == Err(Api(UploadError(ErrorMessage(if Validates(n) then DuplicateKey else ValidationFailed))))
          && db.files == old(db.files) && bus.emitted == old(bus.emitted)
  {
    var client := cache.GetInstance(creds.botToken);
    var sent := client.UploadFile(creds.chatId, upload.originalName);
    if sent.Err? {
      return Err(Api(UploadError(sent.error)));
    }
    var n := UploadedRecord(newId, ownerId, upload, parentFolderId, sent.value, now);
    var created := db.Create(Files, n);
    if created.Err? {
      return Err(Api(UploadError(ErrorMessage(created.error))));
    }
    bus.Emit(FileUploaded, RecordData(Some(created.value)));
    r := Ok(created.value);
  }

  /** Ownership, then the remote file id, then the download link. */
  method DownloadFile(db: Db, bus: EventBus, cache: ClientCache, fileId: Id, ownerId: Id, creds: Credentials)
    returns (r: Outcome<(Node, string)>)
    requires db.Valid() && cache.Valid()
    modifies bus`deliveries, bus`emitted, cache`instances, cache.api
    ensures cache.Valid()
    ensures match First(IdOwnerFilter(fileId, ownerId), db.files)
      case None =>
        r == Err(Api(NotFoundWith(FileNotFoundMessage)))
        && bus.emitted == old(bus.emitted) && cache.api.requests == old(cache.api.requests)
      case Some(n) =>
        if MissingRemoteFile(n) then
          r == Err(Api(BadRequest(NotUploadedMessage)))
          && bus.emitted == old(bus.emitted) && cache.api.requests == old(cache.api.requests)
        else
          var q := GetFileRequest(creds.botToken, n.body.telegramFileId.value);
          && cache.api.requests == old(cache.api.requests) + [q]
          && match ReadLink(creds.botToken, cache.api.respond(|old(cache.api.requests)|, q))
            case Err(m) => r == Err(Remote(m)) && bus.emitted == old(bus.emitted)
            case Ok(link) => r == Ok((n, link)) && bus.emitted == old(bus.emitted) + [(FileDownloaded, FileRef(fileId, ownerId))]
  {
    var file := db.FindOne(Files, IdOwnerFilter(fileId, ownerId));
    if file.None? {
      return Err(Api(NotFoundWith(FileNotFoundMessage)));
    }
    var n := file.value;
    if MissingRemoteFile(n) {
      return Err(Api(BadRequest(NotUploadedMessage)));
    }
    var client := cache.GetInstance(creds.botToken);
    var link := client.GetFileLink(n.body.telegramFileId.value);
    if link.Err? {
      return Err(Remote(link.error));
    }
    bus.Emit(FileDownloaded, FileRef(fileId, ownerId));
    r := Ok((n, link.value));
  }

  /** The guards of the streaming download: ownership and the remote file
    * id. The stream itself is not modelled. */
  method FileForStream(db: Db, cache: ClientCache, fileId: Id, ownerId: Id, botToken: string) returns (r: Outcome<Node>)
    requires db.Valid() && cache.Valid()
    modifies cache`instances
    ensures cache.Valid()
    ensures match First(IdOwnerFilter(fileId, ownerId), db.files)
      case None => r == Err(Api(NotFoundWith(FileNotFoundMessage)))
      case Some(n) => if MissingRemoteFile(n) then r == Err(Api(BadRequest(NotUploadedMessage))) else r == Ok(n)
  {
    var file := db.FindOne(Files, IdOwnerFilter(fileId, ownerId));
    if file.None? {
      return Err(Api(NotFoundWith(FileNotFoundMessage)));
    }
    if MissingRemoteFile(file.value) {
      return Err(Api(BadRequest(NotUploadedMessage)));
    }
    var _ := cache.GetInstance(botToken);
    r := Ok(file.value);
  }

  /** Ownership, then the collision checks in both collections, then the
    * update of the name alone. */
  method RenameFile(db: Db, bus: EventBus, fileId: Id, name: string, ownerId: Id, now: nat) returns (r: Outcome<Option<Node>>)
    requires db.Valid()
    modifies db, bus`deliveries, bus`emitted
    ensures db.Valid() && db.folders == old(db.folders)
    ensures match First(IdOwnerFilter(fileId, ownerId), old(db.files))
      case None =>
        r == Err(Api(NotFoundWith(FileNotFoundMessage))) && db.files == old(db.files) && bus.emitted == old(bus.emitted)
      case Some(n) =>
        if FileNameTaken(old(db.files), db.folders, n, name) then
          r == Err(Api(BadRequest(NameTakenMessage))) && db.files == old(db.files) && bus.emitted == old(bus.emitted)
        else
          var m := ApplyPatch(n, Patch(Some(name), None), now);
          r == Ok(Some(m)) && db.files == ReplaceId(old(db.files), fileId, m)
          && bus.emitted == old(bus.emitted) + [(FileRenamed, RecordData(Some(m)))]
    ensures r.Ok? ==>
      && r.value.Some? && r.value.value.name == name
      && (forall x :: x in db.folders ==> KeyOf(x) != KeyOf(r.value.value))
      && (forall x :: x in db.files && x.id != fileId ==> KeyOf(x) != KeyOf(r.value.value))
  {
    var file := db.FindOne(Files, IdOwnerFilter(fileId, ownerId));
    if file.None? {
      return Err(Api(NotFoundWith(FileNotFoundMessage)));
    }
    var n := file.value;
    IdOwnerFilterMeaning(fileId, ownerId, n);
    CollisionFound(ownerId, n.parentFolderId, name, Some(fileId), db.files);
    CollisionFound(ownerId, n.parentFolderId, name, None, db.folders);
    var collisionFile := db.FindOne(Files, CollisionFilter(ownerId, n.parentFolderId, name, Some(fileId)));
    var collisionFolder := db.FindOne(Folders, CollisionFilter(ownerId, n.parentFolderId, name, None));
    if collisionFile.Some? || collisionFolder.Some? {
      return Err(Api(BadRequest(NameTakenMessage)));
    }
    RecordById(db.files, fileId);
    ghost var m := ApplyPatch(n, Patch(Some(name), None), now);
    assert SlotFree(db.files, m) by {
      forall x | x in db.files && x.id != m.id ensures KeyOf(x) != KeyOf(m) {
        assert !Collides(ownerId, n.parentFolderId, name, Some(fileId), x);
      }
    }
    // The slot is free, so the update cannot fail here.
    var updated := db.FindByIdAndUpdate(Files, fileId, Patch(Some(name), None), now);
    bus.Emit(FileRenamed, RecordData(updated.value));
    r := Ok(updated.value);
    forall x | x in db.folders ensures KeyOf(x) != KeyOf(m) {
      assert !Collides(ownerId, n.parentFolderId, name, None, x);
    }
  }

  /** Ownership only: the destination is neither checked for existence nor
    * for name clashes beyond the store's own index. */
  method MoveFile(db: Db, bus: EventBus, fileId: Id, parentFolderId: Option<string>, ownerId: Id, now: nat)
    returns (r: Outcome<Option<Node>>)
    requires db.Valid()
    modifies db, bus`deliveries, bus`emitted
    ensures db.Valid() && db.folders == old(db.folders)
    ensures match First(IdOwnerFilter(fileId, ownerId), old(db.files))
      case None =>
        r == Err(Api(NotFoundWith(FileNotFoundMessage))) && db.files == old(db.files) && bus.emitted == old(bus.emitted)
      case Some(n) =>
        var m := ApplyPatch(n, Patch(None, Some(ParentRef(parentFolderId))), now);
        if SlotFree(old(db.files), m) then
          r == Ok(Some(m)) && db.files == ReplaceId(old(db.files), fileId, m)
          && bus.emitted == old(bus.emitted) + [(FileMoved, RecordData(Some(m)))]
        else
          r == Err(Db(DuplicateKey)) && db.files == old(db.files) && bus.emitted == old(bus.emitted)
  {
    var file := db.FindOne(Files, IdOwnerFilter(fileId, ownerId));
    if file.None? {
      return Err(Api(NotFoundWith(FileNotFoundMessage)));
    }
    IdOwnerFilterMeaning(fileId, ownerId, file.value);
    RecordById(db.files, fileId);
    var updated := db.FindByIdAndUpdate(Files, fileId, Patch(None, Some(ParentRef(parentFolderId))), now);
    if updated.Err? {
      return Err(Db(updated.error));
    }
    bus.Emit(FileMoved, RecordData(updated.value));
    r := Ok(updated.value);
  }

  /** Ownership, then the remote delete (whose answer is ignored), then the
    * row; the record as it was before is returned. */
  method DeleteFile(db: Db, bus: EventBus, cache: ClientCache, fileId: Id, ownerId: Id, creds: Credentials)
    returns (r: Outcome<Node>)
    requires db.Valid() && cache.Valid()
    modifies db, bus`deliveries, bus`emitted, cache`instances, cache.api
    ensures db.Valid() && cache.Valid() && db.folders == old(db.folders)
    ensures match First(IdOwnerFilter(fileId, ownerId), old(db.files))
      case None =>
        r == Err(Api(NotFoundWith(FileNotFoundMessage))) && db.files == old(db.files)
        && bus.emitted == old(bus.emitted) && cache.api.requests == old(cache.api.requests)
      case Some(n) =>
        r == Ok(n) && db.files == RemoveIds(old(db.files), {fileId})
        && bus.emitted == old(bus.emitted) + [(FileDeleted, FileRef(fileId, ownerId))]
        && cache.api.requests == old(cache.api.requests) + [DeleteMessageRequest(creds.botToken, creds.chatId, n.body.telegramMessageId)]
  {
    var file := db.FindOne(Files, IdOwnerFilter(fileId, ownerId));
    if file.None? {
      return Err(Api(NotFoundWith(FileNotFoundMessage)));
    }
    var n := file.value;
    var client := cache.GetInstance(creds.botToken);
    var _ := client.DeleteMessage(creds.chatId, n.body.telegramMessageId);
    db.DeleteById(Files, fileId);
    bus.Emit(FileDeleted, FileRef(fileId, ownerId));
    r := Ok(n);
  }
}
