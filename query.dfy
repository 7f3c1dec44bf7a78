// The meaning of a filter document: which records `find` returns and which
// one `findOne` returns, over a collection kept in natural (insertion) order.
module Query {
  import opened Wrappers
  import opened Models

  /** The values the filters compare against. */
  datatype Value = Null | Str(s: string) | Num(n: int)

  /** `field: v` (equality) and `field: { $ne: v }`. */
  datatype Cond = Eq(v: Value) | Ne(v: Value)

  /** A filter document: one condition per field name. */
  type Filters = map<string, Cond>

  function RefValue(p: Option<Id>): Value
  {
    if p.Some? then Str(p.value) else Null
  }

  /** A record's value for a field name; a field it does not have reads as null. */
  function FieldValue(n: Node, field: string): Value
  {
    if field == "_id" then Str(n.id)
    else if field == "ownerId" then Str(n.ownerId)
    else if field == "name" then Str(n.name)
    else if field == "parentFolderId" then RefValue(n.parentFolderId)
    else if field == "createdAt" then Num(n.createdAt)
    else if field == "updatedAt" then Num(n.updatedAt)
    else match n.body
      case FolderBody => Null
      case FileBody(size, mimeType, messageId, fileId) =>
        if field == "size" then Num(size)
        else if field == "mimeType" then Str(mimeType)
        else if field == "telegramMessageId" then Num(messageId)
        else if field == "telegramFileId" then RefValue(fileId)
        else Null
  }

  predicate Holds(c: Cond, v: Value)
  {
    match c
    case Eq(x) => v == x
    case Ne(x) => v != x
  }

  /** A record matches when every field condition holds of it. */
  predicate Matches(f: Filters, n: Node)
  {
    forall field :: field in f ==> Holds(f[field], FieldValue(n, field))
  }

  /** `find(f)`: the matching records in collection order. */
  function Select(f: Filters, s: seq<Node>): (r: seq<Node>)
    ensures |r| <= |s|
    ensures forall x :: x in r ==> x in s && Matches(f, x)
  {
    if s == [] then []
    else if Matches(f, s[0]) then [s[0]] + Select(f, s[1..])
    else Select(f, s[1..])
  }

  /** `findOne(f)`: the first matching record, if any. */
  function First(f: Filters, s: seq<Node>): (r: Option<Node>)
    ensures r.Some? ==> r.value in s && Matches(f, r.value)
  {
    if s == [] then None
    else if Matches(f, s[0]) then Some(s[0])
    else First(f, s[1..])
  }

  /** find returns every matching record and nothing else. */
  lemma {:induction false} SelectExactly(f: Filters, s: seq<Node>, x: Node)
    ensures x in Select(f, s) <==> x in s && Matches(f, x)
  {
    if s != [] {
      SelectExactly(f, s[1..], x);
      assert s == [s[0]] + s[1..];
    }
  }

  /** findOne is the head of find, so it is None exactly when nothing matches. */
  lemma {:induction false} FirstIsHeadOfSelect(f: Filters, s: seq<Node>)
    ensures First(f, s) == if Select(f, s) == [] then None else Some(Select(f, s)[0])
  {
    if s != [] {
      FirstIsHeadOfSelect(f, s[1..]);
    }
  }

  lemma FirstNoneIffNoMatch(f: Filters, s: seq<Node>)
    ensures First(f, s).None? <==> forall x :: x in s ==> !Matches(f, x)
  {
    FirstIsHeadOfSelect(f, s);
    if First(f, s).None? {
      forall x | x in s ensures !Matches(f, x) { SelectExactly(f, s, x); }
    }
  }

  /** The empty filter document (a fresh builder) matches every record. */
  lemma {:induction false} EmptyFilterSelectsAll(s: seq<Node>)
    ensures Select(map[], s) == s
  {
    if s != [] {
      EmptyFilterSelectsAll(s[1..]);
      assert s == [s[0]] + s[1..];
    }
  }

  /** `{ _id: id }`, the lookup of `findByIdAndUpdate` and `deleteOne`. */
  function IdFilter(id: Id): Filters
  {
    map["_id" := Eq(Str(id))]
  }

  lemma IdFilterMeaning(id: Id, n: Node)
    ensures Matches(IdFilter(id), n) <==> n.id == id
  {
    assert FieldValue(n, "_id") == Str(n.id);
  }

  /** `{ ownerId }`, all of one user's records. */
  function OwnerFilter(ownerId: Id): Filters
  {
    map["ownerId" := Eq(Str(ownerId))]
  }

  lemma OwnerFilterMeaning(ownerId: Id, n: Node)
    ensures Matches(OwnerFilter(ownerId), n) <==> n.ownerId == ownerId
  {
    assert FieldValue(n, "ownerId") == Str(n.ownerId);
  }

  /** `findOne({ _id: id, ownerId })`, the lookup every ownership check does. */
  function IdOwnerFilter(id: Id, ownerId: Id): Filters
  {
    map["_id" := Eq(Str(id)), "ownerId" := Eq(Str(ownerId))]
  }

  lemma IdOwnerFilterMeaning(id: Id, ownerId: Id, n: Node)
    ensures Matches(IdOwnerFilter(id, ownerId), n) <==> n.id == id && n.ownerId == ownerId
  {
    var f := IdOwnerFilter(id, ownerId);
    if n.id == id && n.ownerId == ownerId {
      forall field | field in f ensures Holds(f[field], FieldValue(n, field)) { }
    } else {
      assert !Holds(f["_id"], FieldValue(n, "_id")) || !Holds(f["ownerId"], FieldValue(n, "ownerId"));
    }
  }

  /** `{ ownerId, parentFolderId: parent ? parent : null }`, one folder's listing. */
  function ListingFilter(ownerId: Id, parent: Option<string>): Filters
  {
    map["ownerId" := Eq(Str(ownerId)), "parentFolderId" := Eq(RefValue(ParentRef(parent)))]
  }

  lemma ListingFilterMeaning(ownerId: Id, parent: Option<string>, n: Node)
    ensures Matches(ListingFilter(ownerId, parent), n) <==>
      n.ownerId == ownerId && n.parentFolderId == ParentRef(parent)
  {
    var f := ListingFilter(ownerId, parent);
    if n.ownerId == ownerId && n.parentFolderId == ParentRef(parent) {
      forall field | field in f ensures Holds(f[field], FieldValue(n, field)) { }
    } else {
      assert !Holds(f["ownerId"], FieldValue(n, "ownerId")) || !Holds(f["parentFolderId"], FieldValue(n, "parentFolderId"));
    }
  }

  /** The name-collision query: same owner, same (normalised) parent, same
    * name, and, when an id to exclude is given and non-empty, another id. */
  function CollisionFilter(ownerId: Id, parent: Option<string>, name: string, excludeId: Option<Id>): Filters
  {
    var base := map["ownerId" := Eq(Str(ownerId)), "parentFolderId" := Eq(RefValue(ParentRef(parent))),
                     "name" := Eq(Str(name))];
    if excludeId.Some? && excludeId.value != "" then base["_id" := Ne(Str(excludeId.value))] else base
  }

  predicate Collides(ownerId: Id, parent: Option<string>, name: string, excludeId: Option<Id>, n: Node)
  {
    && n.ownerId == ownerId
    && n.parentFolderId == ParentRef(parent)
    && n.name == name
    && (excludeId.Some? && excludeId.value != "" ==> n.id != excludeId.value)
  }

  lemma CollisionFilterMeaning(ownerId: Id, parent: Option<string>, name: string, excludeId: Option<Id>, n: Node)
    ensures Matches(CollisionFilter(ownerId, parent, name, excludeId), n) <==> Collides(ownerId, parent, name, excludeId, n)
  {
    var f := CollisionFilter(ownerId, parent, name, excludeId);
    if Collides(ownerId, parent, name, excludeId, n) {
      forall field | field in f ensures Holds(f[field], FieldValue(n, field)) { }
    } else if excludeId.Some? && excludeId.value != "" && n.id == excludeId.value {
      assert !Holds(f["_id"], FieldValue(n, "_id"));
    } else {
      assert !Holds(f["ownerId"], FieldValue(n, "ownerId")) || !Holds(f["parentFolderId"], FieldValue(n, "parentFolderId"))
        || !Holds(f["name"], FieldValue(n, "name"));
    }
  }

  /** A collision query finds a record iff some record collides. */
  lemma CollisionFound(ownerId: Id, parent: Option<string>, name: string, excludeId: Option<Id>, s: seq<Node>)
    ensures First(CollisionFilter(ownerId, parent, name, excludeId), s).Some? <==>
      exists n :: n in s && Collides(ownerId, parent, name, excludeId, n)
  {
    var f := CollisionFilter(ownerId, parent, name, excludeId);
    FirstNoneIffNoMatch(f, s);
    forall n | n in s ensures Matches(f, n) <==> Collides(ownerId, parent, name, excludeId, n) {
      CollisionFilterMeaning(ownerId, parent, name, excludeId, n);
    }
  }
}
