// The loops both folder implementations share: the breadcrumb walk of a
// folder listing, the upward walk of the stricter move, and the forest the
// folder tree is built as.
module FolderWalks {
  import opened Wrappers
  import opened Models
  import opened Query
  import opened Store
  import opened Hierarchy

  /** One breadcrumb entry: `{ _id, name }` of an ancestor. */
  datatype Crumb = Crumb(id: Id, name: string)

  /** The breadcrumb from x upwards, root-most first, following at most
    * `fuel` parent references and stopping at the root or at the first id
    * that is not one of the owner's folders. */
  function CrumbsFrom(t: map<Id, Node>, x: Option<Id>, fuel: nat): seq<Crumb>
    decreases fuel
  {
    if fuel == 0 || x.None? || x.value !in t then []
    else CrumbsFrom(t, t[x.value].parentFolderId, fuel - 1) + [Crumb(x.value, t[x.value].name)]
  }

  /** The breadcrumb of folder `start`; |pm| + 1 steps are always enough in
    * an acyclic hierarchy (WalkBound). */
  function Breadcrumb(s: seq<Node>, owner: Id, start: Id): seq<Crumb>
  {
    CrumbsFrom(Table(s, owner), Some(start), |ParentsOf(s, owner)| + 1)
  }

  /** The entries are the walk's folders up to the first one that is not the
    * owner's, read from the end; the walk is cut short only by the fuel. */
  lemma {:induction false} CrumbsFromChain(t: map<Id, Node>, pm: ParentMap, x: Option<Id>, fuel: nat)
    requires pm == map y | y in t :: t[y].parentFolderId
    ensures var c := CrumbsFrom(t, x, fuel);
      && |c| <= fuel
      && (forall i :: 0 <= i < |c| ==>
            InMap(pm, Up(pm, x, i)) && c[|c| - 1 - i] == Crumb(Up(pm, x, i).value, t[Up(pm, x, i).value].name))
      && (|c| < fuel ==> !InMap(pm, Up(pm, x, |c|)))
    decreases fuel
  {
    if fuel > 0 && x.Some? && x.value in t {
      var p := t[x.value].parentFolderId;
      CrumbsFromChain(t, pm, p, fuel - 1);
      var c' := CrumbsFrom(t, p, fuel - 1);
      var c := c' + [Crumb(x.value, t[x.value].name)];
      assert Up(pm, x, 1) == p;
      forall i | 0 <= i < |c|
        ensures InMap(pm, Up(pm, x, i)) && c[|c| - 1 - i] == Crumb(Up(pm, x, i).value, t[Up(pm, x, i).value].name)
      {
        if i > 0 { UpAdd(pm, x, 1, i - 1); }
      }
      UpAdd(pm, x, 1, |c'|);
    }
  }

  /** For an acyclic hierarchy the breadcrumb of `start` lists exactly its
    * chain of ancestors that are the owner's folders, root-most first, and
    * ends with `start`; the walk ended at the root or at a missing folder. */
  lemma BreadcrumbIsAncestorChain(s: seq<Node>, owner: Id, start: Id)
    requires Acyclic(ParentsOf(s, owner))
    ensures var c := Breadcrumb(s, owner, start); var pm := ParentsOf(s, owner);
      && (forall i :: 0 <= i < |c| ==>
            InMap(pm, Up(pm, Some(start), i))
            && c[|c| - 1 - i] == Crumb(Up(pm, Some(start), i).value, Table(s, owner)[Up(pm, Some(start), i).value].name))
      && !InMap(pm, Up(pm, Some(start), |c|))
  {
    var pm := ParentsOf(s, owner);
    CrumbsFromChain(Table(s, owner), pm, Some(start), |pm| + 1);
    WalkBound(pm, Some(start), |pm|);
  }

  /** An owned folder's breadcrumb ends with that folder; a root-level one
    * has only itself; an id that is not the owner's gives an empty path. */
  lemma BreadcrumbEnds(s: seq<Node>, owner: Id, start: Id)
    requires Acyclic(ParentsOf(s, owner))
    ensures var c := Breadcrumb(s, owner, start); var pm := ParentsOf(s, owner);
      && (start in pm <==> |c| > 0)
      && (start in pm ==> c[|c| - 1] == Crumb(start, Table(s, owner)[start].name))
      && (start in pm && pm[start].None? ==> c == [Crumb(start, Table(s, owner)[start].name)])
  {
    BreadcrumbIsAncestorChain(s, owner, start);
    var c := Breadcrumb(s, owner, start);
    var pm := ParentsOf(s, owner);
    assert Up(pm, Some(start), 0) == Some(start);
    assert start in pm && pm[start].None? ==> Up(pm, Some(start), 1) == None;
  }

  /** The breadcrumb loop: prepend each ancestor found, stop at the root or
    * at the first lookup that finds nothing. */
  method BreadcrumbWalk(db: Db, owner: Id, parentId: Id) returns (path: seq<Crumb>)
    requires Acyclic(ParentsOf(db.folders, owner))
    ensures path == Breadcrumb(db.folders, owner, parentId)
  {
    ghost var pm := ParentsOf(db.folders, owner);
    ghost var fuel := |pm| + 1;
    ghost var steps: nat := 0;
    path := [];
    var currentId: Option<Id> := Some(parentId);
    while currentId.Some?
      invariant currentId == Up(pm, Some(parentId), steps)
      invariant steps <= fuel
      invariant Breadcrumb(db.folders, owner, parentId) == CrumbsFrom(Table(db.folders, owner), currentId, fuel - steps) + path
      decreases fuel - steps
    {
      WalkBound(pm, Some(parentId), steps);
      if steps > 0 {
        DefinedBefore(pm, Some(parentId), steps, steps - 1);
        WalkBound(pm, Some(parentId), steps - 1);
      }
      LookupAgrees(db.folders, owner, currentId.value);
      var currentFolder := db.FindOne(Folders, IdOwnerFilter(currentId.value, owner));
      if currentFolder.Some? {
        path := [Crumb(currentFolder.value.id, currentFolder.value.name)] + path;
        currentId := currentFolder.value.parentFolderId;
      } else {
        currentId := None;
      }
      steps := steps + 1;
    }
  }

  /** The stricter move's upward walk from the destination: true as soon as
    * it meets the folder being moved, false once it reaches the root, an
    * unknown id or another owner's folder. */
  method WalkMeets(db: Db, owner: Id, from: Id, target: Id) returns (meets: bool)
    requires Acyclic(ParentsOf(db.folders, owner))
    ensures meets <==> Reaches(ParentsOf(db.folders, owner), Some(from), target)
  {
    ghost var pm := ParentsOf(db.folders, owner);
    ghost var steps: nat := 0;
    var currentParentId: Option<Id> := Some(from);
    while currentParentId.Some?
      invariant currentParentId == Up(pm, Some(from), steps)
      invariant steps <= |pm| + 1
      invariant forall i :: 0 <= i < steps ==> Up(pm, Some(from), i) != Some(target)
      decreases |pm| + 1 - steps
    {
      if currentParentId.value == target {
        return true;
      }
      WalkBound(pm, Some(from), steps);
      if steps > 0 {
        DefinedBefore(pm, Some(from), steps, steps - 1);
        WalkBound(pm, Some(from), steps - 1);
      }
      LookupAgrees(db.folders, owner, currentParentId.value);
      var parentFolder := db.FindOne(Folders, IdOwnerFilter(currentParentId.value, owner));
      currentParentId := if parentFolder.Some? && parentFolder.value.parentFolderId.Some?
        then parentFolder.value.parentFolderId else None;
      steps := steps + 1;
    }
    forall k: nat ensures Up(pm, Some(from), k) != Some(target) {
      if k >= steps {
        UpAdd(pm, Some(from), steps, k - steps);
        UpNoneStays(pm, k - steps);
      }
    }
    meets := false;
  }
}

module FolderForest {
  import opened Wrappers
  import opened Models
  import opened Store

  /** A folder is placed at the top level when it names no parent, or a
    * parent that is not among the folders being arranged. */
  predicate IsTop(ids: set<Id>, n: Node)
  {
    n.parentFolderId.None? || n.parentFolderId.value !in ids
  }

  /** The ids of the top-level folders among the first k, in collection order. */
  function TopIds(s: seq<Node>, ids: set<Id>, k: nat): seq<Id>
    requires k <= |s|
  {
    if k == 0 then []
    else TopIds(s, ids, k - 1) + (if IsTop(ids, s[k - 1]) then [s[k - 1].id] else [])
  }

  /** The ids of the folders among the first k naming p as parent, in
    * collection order. */
  function ChildIds(s: seq<Node>, p: Id, k: nat): seq<Id>
    requires k <= |s|
  {
    if k == 0 then []
    else ChildIds(s, p, k - 1) + (if s[k - 1].parentFolderId == Some(p) then [s[k - 1].id] else [])
  }

  /** First pass of the tree build: an entry and an empty child list for
    * every folder (a later folder with the same id replaces the entry). */
  method OpenEntries(folders: seq<Node>) returns (children: map<Id, seq<Id>>, entries: map<Id, Node>)
    ensures entries.Keys == IdsOf(folders) && children.Keys == IdsOf(folders)
    ensures forall x :: x in entries ==> entries[x] in folders && entries[x].id == x
    ensures forall p :: p in children ==> children[p] == []
  {
    entries := map[];
    children := map[];
    var i := 0;
    while i < |folders|
      invariant 0 <= i <= |folders|
      invariant entries.Keys == IdsOf(folders[..i]) && children.Keys == IdsOf(folders[..i])
      invariant forall x :: x in entries ==> entries[x] in folders && entries[x].id == x
      invariant forall p :: p in children ==> children[p] == []
    {
      assert folders[..i + 1] == folders[..i] + [folders[i]];
      entries := entries[folders[i].id := folders[i]];
      children := children[folders[i].id := []];
      i := i + 1;
    }
    assert folders[..i] == folders;
  }

  /** Second pass of the tree build: each folder is appended to its
    * parent's child list when the parent has an entry, and to the top level
    * otherwise. */
  method PlaceFolders(folders: seq<Node>, empty: map<Id, seq<Id>>) returns (roots: seq<Id>, children: map<Id, seq<Id>>)
    requires forall p :: p in empty ==> empty[p] == []
    ensures children.Keys == empty.Keys
    ensures roots == TopIds(folders, empty.Keys, |folders|)
    ensures forall p :: p in children ==> children[p] == ChildIds(folders, p, |folders|)
  {
    children := empty;
    roots := [];
    var i := 0;
    while i < |folders|
      invariant 0 <= i <= |folders|
      invariant children.Keys == empty.Keys
      invariant roots == TopIds(folders, empty.Keys, i)
      invariant forall p :: p in children ==> children[p] == ChildIds(folders, p, i)
    {
      var folder := folders[i];
      ghost var before := children;
      if folder.parentFolderId.Some? && folder.parentFolderId.value in children {
        var p := folder.parentFolderId.value;
        children := children[p := children[p] + [folder.id]];
        forall q | q in children ensures children[q] == ChildIds(folders, q, i + 1) {
          if q != p {
            assert children[q] == before[q];
            assert ChildIds(folders, q, i) + [] == ChildIds(folders, q, i);
          }
        }
      } else {
        roots := roots + [folder.id];
        forall q | q in children ensures children[q] == ChildIds(folders, q, i + 1) {
          assert folder.parentFolderId != Some(q);
          assert ChildIds(folders, q, i) + [] == ChildIds(folders, q, i);
        }
      }
      i := i + 1;
    }
  }

  /** The folder tree of a user's folders: entries by id, child lists and
    * the top level. */
  method BuildForest(folders: seq<Node>) returns (roots: seq<Id>, children: map<Id, seq<Id>>, entries: map<Id, Node>)
    ensures entries.Keys == IdsOf(folders) && children.Keys == IdsOf(folders)
    ensures forall x :: x in entries ==> entries[x] in folders && entries[x].id == x
    ensures roots == TopIds(folders, IdsOf(folders), |folders|)
    ensures forall p :: p in children ==> children[p] == ChildIds(folders, p, |folders|)
  {
    var empty;
    empty, entries := OpenEntries(folders);
    roots, children := PlaceFolders(folders, empty);
  }

  lemma CountAfter<T>(prev: seq<T>, last: seq<T>, x: T)
    ensures multiset(prev + last)[x] == multiset(prev)[x] + multiset(last)[x]
  {
  }

  /** No other position carries the id at position j. */
  ghost predicate OnlyAt(s: seq<Node>, j: nat)
    requires j < |s|
  {
    forall i :: 0 <= i < |s| && i != j ==> s[i].id != s[j].id
  }

  lemma DistinctOnlyAt(s: seq<Node>, j: nat)
    requires DistinctIds(s) && j < |s|
    ensures OnlyAt(s, j)
  {
    forall i | 0 <= i < |s| && i != j ensures s[i].id != s[j].id {
      if i > j {
        assert s[j].id != s[i].id;
      }
    }
  }

  lemma {:induction false} TopIdsCount(s: seq<Node>, ids: set<Id>, k: nat, j: nat)
    requires j < |s| && k <= |s| && OnlyAt(s, j)
    ensures multiset(TopIds(s, ids, k))[s[j].id] == if j < k && IsTop(ids, s[j]) then 1 else 0
  {
    if k > 0 {
      TopIdsCount(s, ids, k - 1, j);
      assert j != k - 1 ==> s[k - 1].id != s[j].id;
      TopIdsStep(s, ids, k, j);
    } else {
      assert TopIds(s, ids, k) == [];
    }
  }

  /** One more folder changes the count of an id only at that id's place. */
  lemma TopIdsStep(s: seq<Node>, ids: set<Id>, k: nat, j: nat)
    requires 0 < k <= |s| && j < |s| && (j != k - 1 ==> s[k - 1].id != s[j].id)
    requires multiset(TopIds(s, ids, k - 1))[s[j].id] == if j < k - 1 && IsTop(ids, s[j]) then 1 else 0
    ensures multiset(TopIds(s, ids, k))[s[j].id] == if j < k && IsTop(ids, s[j]) then 1 else 0
  {
    var last: seq<Id> := if IsTop(ids, s[k - 1]) then [s[k - 1].id] else [];
    var prev := TopIds(s, ids, k - 1);
    assert TopIds(s, ids, k) == prev + last;
    CountAfter(prev, last, s[j].id);
    if j != k - 1 {
      assert multiset(last)[s[j].id] == 0;
    } else if IsTop(ids, s[k - 1]) {
      assert last == [s[j].id];
    } else {
      assert last == [];
    }
  }

  lemma {:induction false} ChildIdsCount(s: seq<Node>, p: Id, k: nat, j: nat)
    requires j < |s| && k <= |s| && OnlyAt(s, j)
    ensures multiset(ChildIds(s, p, k))[s[j].id] == if j < k && s[j].parentFolderId == Some(p) then 1 else 0
  {
    if k > 0 {
      ChildIdsCount(s, p, k - 1, j);
      assert j != k - 1 ==> s[k - 1].id != s[j].id;
      ChildIdsStep(s, p, k, j);
    } else {
      assert ChildIds(s, p, k) == [];
    }
  }

  /** One more folder changes the count of an id only at that id's place. */
  lemma ChildIdsStep(s: seq<Node>, p: Id, k: nat, j: nat)
    requires 0 < k <= |s| && j < |s| && (j != k - 1 ==> s[k - 1].id != s[j].id)
    requires multiset(ChildIds(s, p, k - 1))[s[j].id] == if j < k - 1 && s[j].parentFolderId == Some(p) then 1 else 0
    ensures multiset(ChildIds(s, p, k))[s[j].id] == if j < k && s[j].parentFolderId == Some(p) then 1 else 0
  {
    var last: seq<Id> := if s[k - 1].parentFolderId == Some(p) then [s[k - 1].id] else [];
    var prev := ChildIds(s, p, k - 1);
    assert ChildIds(s, p, k) == prev + last;
    CountAfter(prev, last, s[j].id);
    if j != k - 1 {
      assert multiset(last)[s[j].id] == 0;
    } else if s[k - 1].parentFolderId == Some(p) {
      assert last == [s[j].id];
    } else {
      assert last == [];
    }
  }

  /** Every folder is placed exactly once: once under its parent when the
    * parent is among the folders, once at the top level otherwise (an
    * orphan becomes a root), and nowhere else. */
  lemma PlacedExactlyOnce(folders: seq<Node>, n: Node)
    requires DistinctIds(folders) && n in folders
    ensures var ids := IdsOf(folders);
      && multiset(TopIds(folders, ids, |folders|))[n.id] == (if IsTop(ids, n) then 1 else 0)
      && (forall p :: p in ids ==> multiset(ChildIds(folders, p, |folders|))[n.id] == if n.parentFolderId == Some(p) then 1 else 0)
  {
    var j :| 0 <= j < |folders| && folders[j] == n;
    DistinctOnlyAt(folders, j);
    TopIdsCount(folders, IdsOf(folders), |folders|, j);
    forall p | p in IdsOf(folders) ensures multiset(ChildIds(folders, p, |folders|))[n.id] == if n.parentFolderId == Some(p) then 1 else 0 {
      ChildIdsCount(folders, p, |folders|, j);
    }
  }
}
