// The repository layer the live services use: one instance per collection
// over the shared store.
module Repositories {
  import opened Wrappers
  import opened Models
  import opened Query
  import opened Store

  class Repository {
    const kind: Kind
    const db: Db

    constructor (kind: Kind, db: Db)
      ensures this.kind == kind && this.db == db
    {
      this.kind := kind;
      this.db := db;
    }

    method Create(n: Node) returns (r: Result<Node, StoreError>)
      requires db.Valid()
      requires n.id != "" && n.IsFolder() == (kind == Folders) && n.parentFolderId != Some("")
      modifies db
      ensures db.Valid()
      ensures !Validates(n) ==> r == Err(ValidationFailed)
      ensures Validates(n) && r.Err? ==> r == Err(DuplicateKey)
      ensures r.Ok? <==> Validates(n) && n.id !in IdsOf(old(db.Coll(kind))) && KeyOf(n) !in KeysOf(old(db.Coll(kind)))
      ensures r.Ok? ==> r.value == n && db.Coll(kind) == old(db.Coll(kind)) + [n]
      ensures r.Err? ==> db.Coll(kind) == old(db.Coll(kind))
      ensures kind == Folders ==> db.files == old(db.files)
      ensures kind == Files ==> db.folders == old(db.folders)
    {
      r := db.Create(kind, n);
    }

    /** Only a record with both this id and this owner. */
    method FindById(id: Id, ownerId: Id) returns (r: Option<Node>)
      ensures r == First(IdOwnerFilter(id, ownerId), db.Coll(kind))
      ensures r.Some? ==> r.value in db.Coll(kind) && r.value.id == id && r.value.ownerId == ownerId
      ensures r.None? <==> forall n :: n in db.Coll(kind) ==> !(n.id == id && n.ownerId == ownerId)
    {
      r := First(IdOwnerFilter(id, ownerId), db.Coll(kind));
      FirstNoneIffNoMatch(IdOwnerFilter(id, ownerId), db.Coll(kind));
      forall n | n in db.Coll(kind) { IdOwnerFilterMeaning(id, ownerId, n); }
      if r.Some? { IdOwnerFilterMeaning(id, ownerId, r.value); }
    }

    /** A record with this owner, parent (falsy meaning root) and name, other
      * than `excludeId` when that is given and non-empty. */
    method CheckNameCollision(ownerId: Id, parentFolderId: Option<string>, name: string, excludeId: Option<Id>)
      returns (r: Option<Node>)
      ensures r == First(CollisionFilter(ownerId, parentFolderId, name, excludeId), db.Coll(kind))
      ensures r.Some? ==> r.value in db.Coll(kind) && Collides(ownerId, parentFolderId, name, excludeId, r.value)
      ensures r.Some? <==> exists n :: n in db.Coll(kind) && Collides(ownerId, parentFolderId, name, excludeId, n)
    {
      var query := map["ownerId" := Eq(Str(ownerId)), "parentFolderId" := Eq(RefValue(ParentRef(parentFolderId))),
                       "name" := Eq(Str(name))];
      if excludeId.Some? && excludeId.value != "" {
        query := query["_id" := Ne(Str(excludeId.value))];
      }
      r := First(query, db.Coll(kind));
      CollisionFound(ownerId, parentFolderId, name, excludeId, db.Coll(kind));
      if r.Some? { CollisionFilterMeaning(ownerId, parentFolderId, name, excludeId, r.value); }
    }

    /** By id only, with no owner scoping. */
    method Delete(id: Id)
      requires db.Valid()
      modifies db
      ensures db.Valid()
      ensures db.Coll(kind) == RemoveIds(old(db.Coll(kind)), {id})
      ensures kind == Folders ==> db.files == old(db.files)
      ensures kind == Files ==> db.folders == old(db.folders)
    {
      db.DeleteById(kind, id);
    }

    /** By id only; fields the patch does not name keep their values. */
    method Update(id: Id, p: Patch, now: nat) returns (r: Result<Option<Node>, StoreError>)
      requires db.Valid()
      requires p.parent != Some(Some(""))
      modifies db
      ensures db.Valid()
      ensures match First(IdFilter(id), old(db.Coll(kind)))
        case None => r == Ok(None) && db.Coll(kind) == old(db.Coll(kind))
        case Some(d) =>
          var m := ApplyPatch(d, p, now);
          if SlotFree(old(db.Coll(kind)), m) then r == Ok(Some(m)) && db.Coll(kind) == ReplaceId(old(db.Coll(kind)), id, m)
          else r == Err(DuplicateKey) && db.Coll(kind) == old(db.Coll(kind))
      ensures kind == Folders ==> db.files == old(db.files)
      ensures kind == Files ==> db.folders == old(db.folders)
    {
      r := db.FindByIdAndUpdate(kind, id, p, now);
    }

    method Find(query: Filters) returns (r: seq<Node>)
      ensures r == Select(query, db.Coll(kind))
    {
      r := db.Find(kind, query);
    }
  }
}
