// The two stored record kinds, folders and files, and the rules their
// schemas impose on a record before the store accepts it.
module Models {
  import opened Wrappers

  /** Record identifiers (ObjectIds) in their string form. */
  type Id = string

  /** What a file record carries beyond the fields common to both kinds:
    * the size and type, and the two handles into the remote chat. */
  datatype Body =
    | FolderBody
    | FileBody(size: int, mimeType: string, telegramMessageId: int, telegramFileId: Option<string>)

  /** A stored folder or file. `parentFolderId == None` is the root;
    * the timestamps are clock readings. */
  datatype Node = Node(
    id: Id,
    ownerId: Id,
    name: string,
    parentFolderId: Option<Id>,
    createdAt: nat,
    updatedAt: nat,
    body: Body)
  {
    predicate IsFolder() { body.FolderBody? }
    predicate IsFile() { body.FileBody? }
  }

  /** The fields of the compound unique index (ownerId, parentFolderId, name)
    * that both collections declare. */
  datatype IndexKey = IndexKey(ownerId: Id, parentFolderId: Option<Id>, name: string)

  function KeyOf(n: Node): (k: IndexKey)
    ensures k.ownerId == n.ownerId && k.parentFolderId == n.parentFolderId && k.name == n.name
  {
    IndexKey(n.ownerId, n.parentFolderId, n.name)
  }

  /** A parent id as callers pass it (`string | null`) turned into the stored
    * reference: null and the empty string both mean the root. */
  function ParentRef(p: Option<string>): (r: Option<Id>)
    ensures r.None? <==> p.None? || p.value == ""
    ensures r.Some? ==> r == p && r.value != ""
  {
    if p.Some? && p.value != "" then p else None
  }

  /** The schema's `required` rules: a required String field rejects the
    * empty string; numbers and the owner reference are always present here. */
  predicate Validates(n: Node)
  {
    && n.name != ""
    && (n.body.FileBody? ==> n.body.mimeType != "")
  }

  /** A folder as created: parent defaults to the root, both timestamps now. */
  function NewFolder(id: Id, ownerId: Id, name: string, parent: Option<string>, now: nat): (n: Node)
    ensures n.IsFolder() && n.id == id && n.ownerId == ownerId && n.name == name
    ensures n.parentFolderId == ParentRef(parent)
    ensures n.createdAt == now && n.updatedAt == now
  {
    Node(id, ownerId, name, ParentRef(parent), now, now, FolderBody)
  }

  /** A file row as created after a successful upload. */
  function NewFile(id: Id, ownerId: Id, name: string, parent: Option<string>, size: int, mimeType: string,
                   messageId: int, fileId: Option<string>, now: nat): (n: Node)
    ensures n.IsFile() && n.id == id && n.ownerId == ownerId && n.name == name
    ensures n.parentFolderId == ParentRef(parent)
    ensures n.body == FileBody(size, mimeType, messageId, fileId)
    ensures n.createdAt == now && n.updatedAt == now
  {
    Node(id, ownerId, name, ParentRef(parent), now, now, FileBody(size, mimeType, messageId, fileId))
  }
}
