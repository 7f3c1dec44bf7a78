// The file operations the controllers call: the same steps as the facade,
// through the two repositories and the client factory, with no events.
module FilesService {
  import opened Wrappers
  import opened Models
  import opened Query
  import opened Store
  import opened ApiErrors
  import opened Outcomes
  import opened Telegram
  import opened Repositories
  import opened FileRules

  /** The repositories the service works through: one per collection, over
    * one store. */
  ghost predicate Wired(files: Repository, folders: Repository)
    reads files, folders
  {
    files.kind == Files && folders.kind == Folders && files.db == folders.db
  }

  method UploadFile(files: Repository, folders: Repository, cache: ClientCache, upload: Upload, ownerId: Id,
                    creds: Credentials, parentFolderId: Option<string>, newId: Id, now: nat) returns (r: Outcome<Node>)
    requires Wired(files, folders) && files.db.Valid() && cache.Valid() && newId != ""
    modifies files.db, cache`instances, cache.api
    ensures files.db.Valid() && cache.Valid() && files.db.folders == old(files.db.folders)
    ensures cache.api.requests == old(cache.api.requests) + [UploadRequest(creds, upload)]
    ensures match ReadUpload(cache.api.respond(|old(cache.api.requests)|, UploadRequest(creds, upload)))
      case Err(m) => r == Err(Api(UploadError(m))) && files.db.files == old(files.db.files)
      case Ok(sent) =>
        var n := UploadedRecord(newId, ownerId, upload, parentFolderId, sent, now);
        if Validates(n) && newId !in IdsOf(old(files.db.files)) && KeyOf(n) !in KeysOf(old(files.db.files)) then
          r == Ok(n) && files.db.files == old(files.db.files) + [n]
        else
          r == Err(Api(UploadError(ErrorMessage(if Validates(n) then DuplicateKey else ValidationFailed))))
          && files.db.files == old(files.db.files)
  {
    var client := cache.GetInstance(creds.botToken);
    var sent := client.UploadFile(creds.chatId, upload.originalName);
    if sent.Err? {
      return Err(Api(UploadError(sent.error)));
    }
    var created := files.Create(UploadedRecord(newId, ownerId, upload, parentFolderId, sent.value, now));
    if created.Err? {
      return Err(Api(UploadError(ErrorMessage(created.error))));
    }
    r := Ok(created.value);
  }

  method DownloadFile(files: Repository, cache: ClientCache, fileId: Id, ownerId: Id, creds: Credentials)
    returns (r: Outcome<(Node, string)>)
    requires files.kind == Files && files.db.Valid() && cache.Valid()
    modifies cache`instances, cache.api
    ensures cache.Valid()
    ensures match First(IdOwnerFilter(fileId, ownerId), files.db.files)
      case None => r == Err(Api(NotFoundWith(FileNotFoundMessage))) && cache.api.requests == old(cache.api.requests)
      case Some(n) =>
        if MissingRemoteFile(n) then
          r == Err(Api(BadRequest(NotUploadedMessage))) && cache.api.requests == old(cache.api.requests)
        else
          var q := GetFileRequest(creds.botToken, n.body.telegramFileId.value);
          && cache.api.requests == old(cache.api.requests) + [q]
          && match ReadLink(creds.botToken, cache.api.respond(|old(cache.api.requests)|, q))
            case Err(m) => r == Err(Remote(m))
            case Ok(link) => r == Ok((n, link))
  {
    var file := files.FindById(fileId, ownerId);
    if file.None? {
      return Err(Api(NotFoundWith(FileNotFoundMessage)));
    }
    var n := file.value;
    if MissingRemoteFile(n) {
      return Err(Api(BadRequest(NotUploadedMessage)));
    }
    var client := cache.GetInstance(creds.botToken);
    var link := client.GetFileLink(n.body.telegramFileId.value);
    if link.Err? {
      return Err(Remote(link.error));
    }
    r := Ok((n, link.value));
  }

  /** The guards of the streaming download; the stream is not modelled. */
  method FileForStream(files: Repository, cache: ClientCache, fileId: Id, ownerId: Id, botToken: string)
    returns (r: Outcome<Node>)
    requires files.kind == Files && files.db.Valid() && cache.Valid()
    modifies cache`instances
    ensures cache.Valid()
    ensures match First(IdOwnerFilter(fileId, ownerId), files.db.files)
      case None => r == Err(Api(NotFoundWith(FileNotFoundMessage)))
      case Some(n) => if MissingRemoteFile(n) then r == Err(Api(BadRequest(NotUploadedMessage))) else r == Ok(n)
  {
    var file := files.FindById(fileId, ownerId);
    if file.None? {
      return Err(Api(NotFoundWith(FileNotFoundMessage)));
    }
    if MissingRemoteFile(file.value) {
      return Err(Api(BadRequest(NotUploadedMessage)));
    }
    var _ := cache.GetInstance(botToken);
    r := Ok(file.value);
  }

  /** The same collision rule as the facade, through `checkNameCollision`. */
  method RenameFile(files: Repository, folders: Repository, fileId: Id, name: string, ownerId: Id, now: nat)
    returns (r: Outcome<Option<Node>>)
    requires Wired(files, folders) && files.db.Valid()
    modifies files.db
    ensures files.db.Valid() && files.db.folders == old(files.db.folders)
    ensures match First(IdOwnerFilter(fileId, ownerId), old(files.db.files))
      case None => r == Err(Api(NotFoundWith(FileNotFoundMessage))) && files.db.files == old(files.db.files)
      case Some(n) =>
        if FileNameTaken(old(files.db.files), files.db.folders, n, name) then
          r == Err(Api(BadRequest(NameTakenMessage))) && files.db.files == old(files.db.files)
        else
          var m := ApplyPatch(n, Patch(Some(name), None), now);
          r == Ok(Some(m)) && files.db.files == ReplaceId(old(files.db.files), fileId, m)
  {
    var file := files.FindById(fileId, ownerId);
    if file.None? {
      return Err(Api(NotFoundWith(FileNotFoundMessage)));
    }
    var n := file.value;
    var collisionFile := files.CheckNameCollision(ownerId, n.parentFolderId, name, Some(fileId));
    var collisionFolder := folders.CheckNameCollision(ownerId, n.parentFolderId, name, None);
    if collisionFile.Some? || collisionFolder.Some? {
      return Err(Api(BadRequest(NameTakenMessage)));
    }
    RecordById(files.db.files, fileId);
    ghost var m := ApplyPatch(n, Patch(Some(name), None), now);
    assert SlotFree(files.db.files, m) by {
      forall x | x in files.db.files && x.id != m.id ensures KeyOf(x) != KeyOf(m) {
        assert !Collides(ownerId, n.parentFolderId, name, Some(fileId), x);
      }
    }
    // The slot is free, so the update cannot fail here.
    var updated := files.Update(fileId, Patch(Some(name), None), now);
    r := Ok(updated.value);
  }

  /** Ownership only, then the parent alone changes. */
  method MoveFile(files: Repository, fileId: Id, parentFolderId: Option<string>, ownerId: Id, now: nat)
    returns (r: Outcome<Option<Node>>)
    requires files.kind == Files && files.db.Valid()
    modifies files.db
    ensures files.db.Valid() && files.db.folders == old(files.db.folders)
    ensures match First(IdOwnerFilter(fileId, ownerId), old(files.db.files))
      case None => r == Err(Api(NotFoundWith(FileNotFoundMessage))) && files.db.files == old(files.db.files)
      case Some(n) =>
        var m := ApplyPatch(n, Patch(None, Some(ParentRef(parentFolderId))), now);
        if SlotFree(old(files.db.files), m) then
          r == Ok(Some(m)) && files.db.files == ReplaceId(old(files.db.files), fileId, m)
        else
          r == Err(Db(DuplicateKey)) && files.db.files == old(files.db.files)
  {
    var file := files.FindById(fileId, ownerId);
    if file.None? {
      return Err(Api(NotFoundWith(FileNotFoundMessage)));
    }
    RecordById(files.db.files, fileId);
    var updated := files.Update(fileId, Patch(None, Some(ParentRef(parentFolderId))), now);
    if updated.Err? {
      return Err(Db(updated.error));
    }
    r := Ok(updated.value);
  }

  /** Ownership, the remote delete (answer ignored), then the row. */
  method DeleteFile(files: Repository, cache: ClientCache, fileId: Id, ownerId: Id, creds: Credentials)
    returns (r: Outcome<Node>)
    requires files.kind == Files && files.db.Valid() && cache.Valid()
    modifies files.db, cache`instances, cache.api
    ensures files.db.Valid() && cache.Valid() && files.db.folders == old(files.db.folders)
    ensures match First(IdOwnerFilter(fileId, ownerId), old(files.db.files))
      case None =>
        r == Err(Api(NotFoundWith(FileNotFoundMessage))) && files.db.files == old(files.db.files)
        && cache.api.requests == old(cache.api.requests)
      case Some(n) =>
        r == Ok(n) && files.db.files == RemoveIds(old(files.db.files), {fileId})
        && cache.api.requests == old(cache.api.requests) + [DeleteMessageRequest(creds.botToken, creds.chatId, n.body.telegramMessageId)]
  {
    var file := files.FindById(fileId, ownerId);
    if file.None? {
      return Err(Api(NotFoundWith(FileNotFoundMessage)));
    }
    var n := file.value;
    var client := cache.GetInstance(creds.botToken);
    var _ := client.DeleteMessage(creds.chatId, n.body.telegramMessageId);
    files.Delete(fileId);
    r := Ok(n);
  }
}
