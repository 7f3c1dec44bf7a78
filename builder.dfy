// The chainable query builder: each call sets one field of a filter
// document kept in the builder, and the finders run that document against
// one collection. The builder under repositories/ is the same class.
module Builders {
  import opened Wrappers
  import opened Models
  import opened Query
  import opened Store

  class QueryBuilder {
    const kind: Kind
    var filters: Filters

    constructor (kind: Kind)
      ensures this.kind == kind && filters == map[]
    {
      this.kind := kind;
      filters := map[];
    }

    method ByOwner(ownerId: Id) returns (self: QueryBuilder)
      modifies this
      ensures self == this
      ensures filters == old(filters)["ownerId" := Eq(Str(ownerId))]
    {
      filters := filters["ownerId" := Eq(Str(ownerId))];
      self := this;
    }

    /** A non-empty id filters on that parent; null and '' mean the root. */
    method InFolder(parentFolderId: Option<string>) returns (self: QueryBuilder)
      modifies this
      ensures self == this
      ensures filters == old(filters)["parentFolderId" := Eq(RefValue(ParentRef(parentFolderId)))]
    {
      filters := filters["parentFolderId" := Eq(RefValue(ParentRef(parentFolderId)))];
      self := this;
    }

    method WithName(name: string) returns (self: QueryBuilder)
      modifies this
      ensures self == this
      ensures filters == old(filters)["name" := Eq(Str(name))]
    {
      filters := filters["name" := Eq(Str(name))];
      self := this;
    }

    method ExcludeId(id: Id) returns (self: QueryBuilder)
      modifies this
      ensures self == this
      ensures filters == old(filters)["_id" := Ne(Str(id))]
    {
      filters := filters["_id" := Ne(Str(id))];
      self := this;
    }

    /** Overwrites one field's condition; the last call per field wins. */
    method Where(field: string, c: Cond) returns (self: QueryBuilder)
      modifies this
      ensures self == this
      ensures filters == old(filters)[field := c]
    {
      filters := filters[field := c];
      self := this;
    }

    method FindMany(db: Db) returns (r: seq<Node>)
      ensures r == Select(filters, db.Coll(kind))
      ensures forall n :: n in r <==> n in db.Coll(kind) && Matches(filters, n)
    {
      r := Select(filters, db.Coll(kind));
      forall n ensures n in r <==> n in db.Coll(kind) && Matches(filters, n) {
        SelectExactly(filters, db.Coll(kind), n);
      }
    }

    method FindOne(db: Db) returns (r: Option<Node>)
      ensures r == First(filters, db.Coll(kind))
      ensures r.None? <==> forall n :: n in db.Coll(kind) ==> !Matches(filters, n)
    {
      r := First(filters, db.Coll(kind));
      FirstNoneIffNoMatch(filters, db.Coll(kind));
    }
  }

  /** Setting a field twice keeps only the second condition, and leaves the
    * other fields as they were. */
  lemma LastWriteWins(f: Filters, field: string, c1: Cond, c2: Cond, other: string)
    requires other != field
    ensures f[field := c1][field := c2] == f[field := c2]
    ensures other in f ==> other in f[field := c2] && f[field := c2][other] == f[other]
  {
  }
}
