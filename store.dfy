// The document store behind both record kinds: two collections, each with a
// unique `_id` and the unique compound index (ownerId, parentFolderId, name).
module Store {
  import opened Wrappers
  import opened Models
  import opened Query

  datatype Kind = Folders | Files

  /** Store-level failures: E11000 on `_id` or on the compound index, a
    * schema validation failure, and `save()` of a document no longer stored. */
  datatype StoreError = DuplicateKey | ValidationFailed | DocumentNotFound

  /** The `message` of the exception each store error raises. The driver's
    * exact wording is not part of this model; each message is non-empty. */
  function ErrorMessage(e: StoreError): (m: string)
    ensures m != ""
  {
    match e
    case DuplicateKey => "E11000 duplicate key error"
    case ValidationFailed => "Validation failed"
    case DocumentNotFound => "No document found"
  }

  /** An update as `findByIdAndUpdate` receives it: the fields to set. */
  datatype Patch = Patch(name: Option<string>, parent: Option<Option<Id>>)

  function IdsOf(s: seq<Node>): set<Id>
  {
    set n | n in s :: n.id
  }

  function KeysOf(s: seq<Node>): set<IndexKey>
  {
    set n | n in s :: KeyOf(n)
  }

  predicate DistinctIds(s: seq<Node>)
  {
    forall i, j :: 0 <= i < j < |s| ==> s[i].id != s[j].id
  }

  predicate UniqueKeys(s: seq<Node>)
  {
    forall i, j :: 0 <= i < j < |s| ==> KeyOf(s[i]) != KeyOf(s[j])
  }

  predicate Shaped(s: seq<Node>, k: Kind)
  {
    forall n :: n in s ==> n.id != "" && n.IsFolder() == (k == Folders) && n.parentFolderId != Some("")
  }

  /** What the database guarantees of one collection at all times. */
  predicate CollectionOk(s: seq<Node>, k: Kind)
  {
    DistinctIds(s) && UniqueKeys(s) && Shaped(s, k)
  }

  /** Documents whose `_id` is in `ids` removed, the rest in order. */
  function RemoveIds(s: seq<Node>, ids: set<Id>): (r: seq<Node>)
    ensures forall n :: n in r <==> n in s && n.id !in ids
  {
    if s == [] then []
    else if s[0].id in ids then RemoveIds(s[1..], ids)
    else [s[0]] + RemoveIds(s[1..], ids)
  }

  /** The document with `_id == id` replaced by `n`. */
  function ReplaceId(s: seq<Node>, id: Id, n: Node): (r: seq<Node>)
    ensures |r| == |s|
    ensures forall i :: 0 <= i < |s| ==> r[i] == if s[i].id == id then n else s[i]
  {
    seq(|s|, i requires 0 <= i < |s| => if s[i].id == id then n else s[i])
  }

  function ApplyPatch(n: Node, p: Patch, now: nat): (m: Node)
    ensures m.id == n.id && m.ownerId == n.ownerId && m.body == n.body && m.createdAt == n.createdAt
    ensures m.name == (if p.name.Some? then p.name.value else n.name)
    ensures m.parentFolderId == (if p.parent.Some? then p.parent.value else n.parentFolderId)
    ensures m.updatedAt == now
  {
    n.(name := if p.name.Some? then p.name.value else n.name,
       parentFolderId := if p.parent.Some? then p.parent.value else n.parentFolderId,
       updatedAt := now)
  }

  /** Whether `n` may take the index slot it names, other than from a document
    * with its own id. */
  predicate SlotFree(s: seq<Node>, n: Node)
  {
    forall m :: m in s && m.id != n.id ==> KeyOf(m) != KeyOf(n)
  }

  lemma {:induction false} RemoveIdsKeepsOk(s: seq<Node>, k: Kind, ids: set<Id>)
    requires CollectionOk(s, k)
    ensures CollectionOk(RemoveIds(s, ids), k)
  {
    if s != [] {
      assert CollectionOk(s[1..], k);
      RemoveIdsKeepsOk(s[1..], k, ids);
      var t := RemoveIds(s[1..], ids);
      if s[0].id !in ids {
        var r := [s[0]] + t;
        forall i, j | 0 <= i < j < |r| ensures r[i].id != r[j].id && KeyOf(r[i]) != KeyOf(r[j]) {
          if i == 0 {
            assert r[j] in s[1..];
            var j' :| 0 <= j' < |s[1..]| && s[1..][j'] == r[j];
            assert s[j' + 1] == r[j];
          }
        }
      }
    }
  }

  lemma ReplaceKeepsOk(s: seq<Node>, k: Kind, n: Node)
    requires CollectionOk(s, k)
    requires n.id != "" && n.IsFolder() == (k == Folders) && n.parentFolderId != Some("")
    requires SlotFree(s, n)
    ensures CollectionOk(ReplaceId(s, n.id, n), k)
  {
    var r := ReplaceId(s, n.id, n);
    forall i, j | 0 <= i < j < |r| ensures r[i].id != r[j].id && KeyOf(r[i]) != KeyOf(r[j]) {
      assert s[i] in s && s[j] in s;
    }
    forall m | m in r ensures m.id != "" && m.IsFolder() == (k == Folders) && m.parentFolderId != Some("") {
      var i :| 0 <= i < |r| && r[i] == m;
      assert s[i] in s;
    }
  }

  lemma AppendKeepsOk(s: seq<Node>, k: Kind, n: Node)
    requires CollectionOk(s, k)
    requires n.id != "" && n.IsFolder() == (k == Folders) && n.parentFolderId != Some("")
    requires n.id !in IdsOf(s) && KeyOf(n) !in KeysOf(s)
    ensures CollectionOk(s + [n], k)
  {
    var r := s + [n];
    forall i, j | 0 <= i < j < |r| ensures r[i].id != r[j].id && KeyOf(r[i]) != KeyOf(r[j]) {
      if j == |s| { assert r[i] in s; }
    }
  }

  lemma ReplaceIdsUnchanged(s: seq<Node>, n: Node)
    requires n.id in IdsOf(s)
    ensures IdsOf(ReplaceId(s, n.id, n)) == IdsOf(s)
  {
    var r := ReplaceId(s, n.id, n);
    forall x | x in IdsOf(r) ensures x in IdsOf(s) {
      var m :| m in r && m.id == x;
      var i :| 0 <= i < |r| && r[i] == m;
      assert s[i] in s;
    }
    forall x | x in IdsOf(s) ensures x in IdsOf(r) {
      var m :| m in s && m.id == x;
      var i :| 0 <= i < |s| && s[i] == m;
      assert r[i] in r;
    }
  }

  /** Both collections in natural order. */
  class Db {
    var folders: seq<Node>
    var files: seq<Node>

    ghost predicate Valid()
      reads this
    {
      CollectionOk(folders, Folders) && CollectionOk(files, Files)
    }

    function Coll(k: Kind): seq<Node>
      reads this
    {
      if k == Folders then folders else files
    }

    constructor ()
      ensures Valid() && folders == [] && files == []
    {
      folders := [];
      files := [];
    }

    /** `Model.create(doc)`: validate against the schema, then insert, which
      * fails with a duplicate key on a taken `_id` or index slot. */
    method Create(k: Kind, n: Node) returns (r: Result<Node, StoreError>)
      requires Valid()
      requires n.id != "" && n.IsFolder() == (k == Folders) && n.parentFolderId != Some("")
      modifies this
      ensures Valid()
      ensures !Validates(n) ==> r == Err(ValidationFailed)
      ensures Validates(n) && r.Err? ==> r == Err(DuplicateKey)
      ensures r.Ok? <==> Validates(n) && n.id !in IdsOf(old(Coll(k))) && KeyOf(n) !in KeysOf(old(Coll(k)))
      ensures r.Ok? ==> r.value == n && Coll(k) == old(Coll(k)) + [n]
      ensures r.Err? ==> Coll(k) == old(Coll(k))
      ensures k == Folders ==> files == old(files)
      ensures k == Files ==> folders == old(folders)
    {
      if !Validates(n) {
        return Err(ValidationFailed);
      }
      if n.id in IdsOf(Coll(k)) || KeyOf(n) in KeysOf(Coll(k)) {
        return Err(DuplicateKey);
      }
      AppendKeepsOk(Coll(k), k, n);
      if k == Folders { folders := folders + [n]; } else { files := files + [n]; }
      r := Ok(n);
    }

    method FindOne(k: Kind, f: Filters) returns (r: Option<Node>)
      ensures r == First(f, Coll(k))
    {
      r := First(f, Coll(k));
    }

    method Find(k: Kind, f: Filters) returns (r: seq<Node>)
      ensures r == Select(f, Coll(k))
    {
      r := Select(f, Coll(k));
    }

    /** `findByIdAndUpdate(id, patch, { new: true })`: no schema validation,
      * but the unique index still applies. Returns the updated document, or
      * None when no document has that id. */
    method FindByIdAndUpdate(k: Kind, id: Id, p: Patch, now: nat) returns (r: Result<Option<Node>, StoreError>)
      requires Valid()
      requires p.parent != Some(Some(""))
      modifies this
      ensures Valid()
      ensures match First(IdFilter(id), old(Coll(k)))
        case None => r == Ok(None) && Coll(k) == old(Coll(k))
        case Some(d) =>
          var m := ApplyPatch(d, p, now);
          if SlotFree(old(Coll(k)), m) then r == Ok(Some(m)) && Coll(k) == ReplaceId(old(Coll(k)), id, m)
          else r == Err(DuplicateKey) && Coll(k) == old(Coll(k))
      ensures k == Folders ==> files == old(files)
      ensures k == Files ==> folders == old(folders)
    {
      var found := First(IdFilter(id), Coll(k));
      if found.None? {
        return Ok(None);
      }
      var d := found.value;
      IdFilterMeaning(id, d);
      var m := ApplyPatch(d, p, now);
      if !SlotFree(Coll(k), m) {
        return Err(DuplicateKey);
      }
      ReplaceKeepsOk(Coll(k), k, m);
      if k == Folders { folders := ReplaceId(folders, id, m); } else { files := ReplaceId(files, id, m); }
      r := Ok(Some(m));
    }

    /** `doc.save()` of a loaded document after changing its fields: schema
      * validation, then the write, which needs the document still stored and
      * its index slot free. A document none of whose paths changed is not
      * written: save() only checks that it is still stored, and the
      * timestamps hook leaves its update time alone. */
    method Save(k: Kind, n: Node, now: nat) returns (r: Result<Node, StoreError>)
      requires Valid()
      requires n.id != "" && n.IsFolder() == (k == Folders) && n.parentFolderId != Some("")
      modifies this
      ensures Valid()
      ensures var m := n.(updatedAt := now);
        if !Validates(n) then r == Err(ValidationFailed) && Coll(k) == old(Coll(k))
        else if n.id !in IdsOf(old(Coll(k))) then r == Err(DocumentNotFound) && Coll(k) == old(Coll(k))
        else if n in old(Coll(k)) then r == Ok(n) && Coll(k) == old(Coll(k))
        else if !SlotFree(old(Coll(k)), m) then r == Err(DuplicateKey) && Coll(k) == old(Coll(k))
        else r == Ok(m) && Coll(k) == ReplaceId(old(Coll(k)), n.id, m)
      ensures k == Folders ==> files == old(files)
      ensures k == Files ==> folders == old(folders)
    {
      var m := n.(updatedAt := now);
      if !Validates(n) {
        return Err(ValidationFailed);
      }
      if n.id !in IdsOf(Coll(k)) {
        return Err(DocumentNotFound);
      }
      if n in Coll(k) {
        return Ok(n);
      }
      if !SlotFree(Coll(k), m) {
        return Err(DuplicateKey);
      }
      ReplaceKeepsOk(Coll(k), k, m);
      if k == Folders { folders := ReplaceId(folders, n.id, m); } else { files := ReplaceId(files, n.id, m); }
      r := Ok(m);
    }

    /** `deleteOne({ _id: id })`; ids are unique, so this removes every
      * document with that id. */
    method DeleteById(k: Kind, id: Id)
      requires Valid()
      modifies this
      ensures Valid()
      ensures Coll(k) == RemoveIds(old(Coll(k)), {id})
      ensures k == Folders ==> files == old(files)
      ensures k == Files ==> folders == old(folders)
    {
      RemoveIdsKeepsOk(Coll(k), k, {id});
      if k == Folders { folders := RemoveIds(folders, {id}); } else { files := RemoveIds(files, {id}); }
    }
  }

  /** With distinct ids, the stored record is the only one with its id, so
    * writing it back over its id changes nothing. */
  lemma StoredUnchanged(s: seq<Node>, n: Node, m: Node)
    requires DistinctIds(s) && n in s && m.id == n.id
    ensures m in s <==> m == n
    ensures ReplaceId(s, n.id, n) == s
  {
    var i :| 0 <= i < |s| && s[i] == n;
    if m in s {
      var j :| 0 <= j < |s| && s[j] == m;
      assert !(i < j) && !(j < i);
    }
    var r := ReplaceId(s, n.id, n);
    forall k | 0 <= k < |s| ensures r[k] == s[k] {
      if s[k].id == n.id { assert !(i < k) && !(k < i); }
    }
  }

  /** With unique ids, the lookup by id finds the record with that id, and
    * nothing when no record has it. */
  lemma RecordById(s: seq<Node>, id: Id)
    requires DistinctIds(s)
    ensures First(IdFilter(id), s).Some? <==> id in IdsOf(s)
    ensures forall n :: n in s && n.id == id ==> First(IdFilter(id), s) == Some(n)
  {
    FirstNoneIffNoMatch(IdFilter(id), s);
    forall n | n in s ensures Matches(IdFilter(id), n) <==> n.id == id {
      IdFilterMeaning(id, n);
    }
    forall n | n in s && n.id == id ensures First(IdFilter(id), s) == Some(n) {
      var m := First(IdFilter(id), s).value;
      IdFilterMeaning(id, m);
      var i :| 0 <= i < |s| && s[i] == n;
      var j :| 0 <= j < |s| && s[j] == m;
      assert i == j;
    }
  }

  /** The two indexes are separate: a folder and a file may share owner,
    * parent and name. */
  lemma IndexesAreSeparate(owner: Id, name: string)
    requires name != ""
    ensures var d := Node("f1", owner, name, None, 0, 0, FolderBody);
      var f := Node("f2", owner, name, None, 0, 0, FileBody(1, "text/plain", 7, None));
      CollectionOk([d], Folders) && CollectionOk([f], Files) && KeyOf(d) == KeyOf(f)
  {
  }
}
