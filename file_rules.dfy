// What the two implementations of the file operations share: their error
// messages, the upload's input and record, and the rename collision rule.
module FileRules {
  import opened Wrappers
  import opened Models
  import opened Query
  import opened ApiErrors
  import opened Telegram

  const FileNotFoundMessage := "File not found"
  const NotUploadedMessage := "File not uploaded to Telegram correctly"
  const NameTakenMessage := "A file or folder with this name already exists in this directory"
  const UploadFailedMessage := "File upload failed"

  /** The uploaded file as the multipart parser hands it over; its bytes go
    * to the chat service and are not modelled. */
  datatype Upload = Upload(originalName: string, size: int, mimeType: string)

  /** `ApiError.BadRequest(error.message || 'File upload failed')`. */
  function UploadError(message: string): (e: ApiError)
    ensures e.status == 400 && e.errors == []
    ensures message != "" ==> e.message == message
    ensures message == "" ==> e.message == UploadFailedMessage
  {
    BadRequest(if message != "" then message else UploadFailedMessage)
  }

  /** The record a successful upload stores: the returned message id and
    * file id become the remote handles. */
  function UploadedRecord(newId: Id, ownerId: Id, upload: Upload, parentFolderId: Option<string>,
                          sent: UploadResult, now: nat): (n: Node)
    ensures n.id == newId && n.ownerId == ownerId && n.name == upload.originalName
    ensures n.parentFolderId == ParentRef(parentFolderId)
    ensures n.body == FileBody(upload.size, upload.mimeType, sent.messageId, Some(sent.fileId))
  {
    NewFile(newId, ownerId, upload.originalName, parentFolderId, upload.size, upload.mimeType,
            sent.messageId, Some(sent.fileId), now)
  }

  /** The request an upload sends. */
  function UploadRequest(creds: Credentials, upload: Upload): Request
  {
    SendDocumentRequest(creds.botToken, creds.chatId, upload.originalName)
  }

  /** `!file.telegramFileId`: no remote file id, or an empty one. */
  predicate MissingRemoteFile(n: Node)
  {
    n.body.FileBody? && (n.body.telegramFileId.None? || n.body.telegramFileId.value == "")
  }

  /** Whether renaming file `n` to `name` clashes: another file in the same
    * folder, or any folder there, already has the name. */
  predicate FileNameTaken(files: seq<Node>, folders: seq<Node>, n: Node, name: string)
  {
    || (exists x :: x in files && Collides(n.ownerId, n.parentFolderId, name, Some(n.id), x))
    || (exists x :: x in folders && Collides(n.ownerId, n.parentFolderId, name, None, x))
  }
}
