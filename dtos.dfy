// The shapes in which records leave the server.
module Dtos {
  import opened Wrappers
  import opened Models

  datatype FileDto = FileDto(
    id: string, name: string, size: int, mimeType: string,
    parentFolderId: Option<string>, ownerId: string, createdAt: nat, updatedAt: nat)

  datatype FolderDto = FolderDto(
    id: string, name: string, parentFolderId: Option<string>, ownerId: string,
    createdAt: nat, updatedAt: nat)

  /** The string form of a stored parent reference: null stays null. */
  function ParentString(p: Option<Id>): Option<string>
  {
    if p.Some? && p.value != "" then Some(p.value) else None
  }

  /** id and owner as strings, name, size and type copied, parent as a
    * string or null, timestamps copied; the remote handles are not part of it. */
  function ToFileDto(n: Node): (d: FileDto)
    requires n.IsFile()
    ensures d.id == n.id && d.ownerId == n.ownerId && d.name == n.name
    ensures d.size == n.body.size && d.mimeType == n.body.mimeType
    ensures d.parentFolderId.None? <==> n.parentFolderId.None? || n.parentFolderId == Some("")
    ensures d.parentFolderId.Some? ==> d.parentFolderId == n.parentFolderId
    ensures d.createdAt == n.createdAt && d.updatedAt == n.updatedAt
  {
    FileDto(n.id, n.name, n.body.size, n.body.mimeType, ParentString(n.parentFolderId),
            n.ownerId, n.createdAt, n.updatedAt)
  }

  function ToFolderDto(n: Node): (d: FolderDto)
    requires n.IsFolder()
    ensures d.id == n.id && d.ownerId == n.ownerId && d.name == n.name
    ensures d.parentFolderId.None? <==> n.parentFolderId.None? || n.parentFolderId == Some("")
    ensures d.parentFolderId.Some? ==> d.parentFolderId == n.parentFolderId
    ensures d.createdAt == n.createdAt && d.updatedAt == n.updatedAt
  {
    FolderDto(n.id, n.name, ParentString(n.parentFolderId), n.ownerId, n.createdAt, n.updatedAt)
  }

  /** A file record with its remote handles blanked out. */
  function WithoutHandles(n: Node): Node
    requires n.IsFile()
  {
    n.(body := n.body.(telegramMessageId := 0, telegramFileId := None))
  }

  /** Two file records have the same DTO exactly when they differ at most in
    * the remote handles: the DTO exposes everything else and hides those. */
  lemma FileDtoHidesOnlyRemoteHandles(a: Node, b: Node)
    requires a.IsFile() && b.IsFile()
    requires a.parentFolderId != Some("") && b.parentFolderId != Some("")
    ensures ToFileDto(a) == ToFileDto(b) <==> WithoutHandles(a) == WithoutHandles(b)
  {
    if ToFileDto(a) == ToFileDto(b) {
      assert a.parentFolderId == b.parentFolderId;
    }
  }

  /** A folder DTO loses nothing: distinct folder records give distinct DTOs. */
  lemma FolderDtoIsLossless(a: Node, b: Node)
    requires a.IsFolder() && b.IsFolder()
    requires a.parentFolderId != Some("") && b.parentFolderId != Some("")
    ensures ToFolderDto(a) == ToFolderDto(b) <==> a == b
  {
    if ToFolderDto(a) == ToFolderDto(b) {
      assert a.parentFolderId == b.parentFolderId;
    }
  }
}
