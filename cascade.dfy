// What deleting a folder does to the store: its whole subtree of the owner's
// folders goes, and with it every file of the owner's inside one of those
// folders. The lemmas here carry the recursive deletion from one child to
// the next.
module Cascade {
  import opened Wrappers
  import opened Models
  import opened Query
  import opened Store
  import opened Hierarchy

  /** The ids of the owner's files whose parent is one of the folders in S. */
  function FilesUnder(s: seq<Node>, owner: Id, S: set<Id>): set<Id>
  {
    set m | m in s && m.ownerId == owner && m.parentFolderId.Some? && m.parentFolderId.value in S :: m.id
  }

  /** The ids of a list of records, in order. */
  function IdList(s: seq<Node>): (r: seq<Id>)
    ensures |r| == |s| && forall i :: 0 <= i < |s| ==> r[i] == s[i].id
  {
    seq(|s|, i requires 0 <= i < |s| => s[i].id)
  }

  lemma {:induction false} RemoveIdsTwice(s: seq<Node>, a: set<Id>, b: set<Id>)
    ensures RemoveIds(RemoveIds(s, a), b) == RemoveIds(s, a + b)
  {
    if s != [] {
      RemoveIdsTwice(s[1..], a, b);
      if s[0].id !in a {
        var r := [s[0]] + RemoveIds(s[1..], a);
        assert r[1..] == RemoveIds(s[1..], a);
      }
    }
  }

  lemma {:induction false} RemoveNothing(s: seq<Node>)
    ensures RemoveIds(s, {}) == s
  {
    if s != [] {
      RemoveNothing(s[1..]);
      assert s == [s[0]] + s[1..];
    }
  }

  /** Removing records removes exactly their ids from the owner's table. */
  lemma {:induction false} TableAfterRemoval(s: seq<Node>, owner: Id, x: set<Id>)
    ensures Table(RemoveIds(s, x), owner) == Table(s, owner) - x
  {
    if s != [] {
      TableAfterRemoval(s[1..], owner, x);
      if s[0].id !in x {
        var r := [s[0]] + RemoveIds(s[1..], x);
        assert r[1..] == RemoveIds(s[1..], x);
      }
    }
  }

  lemma ParentsAfterRemoval(s: seq<Node>, owner: Id, x: set<Id>)
    ensures ParentsOf(RemoveIds(s, x), owner) == ParentsOf(s, owner) - x
  {
    TableAfterRemoval(s, owner, x);
  }

  /** Removing folders cannot create a cycle. */
  lemma AcyclicAfterRemoval(pm: ParentMap, x: set<Id>)
    requires Acyclic(pm)
    ensures Acyclic(pm - x)
  {
    var sub := pm - x;
    forall y, k | y in sub && 0 < k ensures Up(sub, Some(y), k) != Some(y) {
      if Up(sub, Some(y), k).Some? {
        SubmapWalk(pm, sub, Some(y), k);
      }
    }
  }

  /** With unique ids, each of the owner's records is the table's entry
    * under its id. */
  lemma {:induction false} TableHolds(s: seq<Node>, owner: Id, n: Node)
    requires DistinctIds(s) && n in s && n.ownerId == owner
    ensures n.id in Table(s, owner) && Table(s, owner)[n.id] == n
  {
    if n != s[0] {
      assert DistinctIds(s[1..]);
      assert n in s[1..];
      var j :| 0 <= j < |s| && s[j] == n;
      TableHolds(s[1..], owner, n);
    }
  }

  /** With unique ids, the ownership check finds each stored record. */
  lemma OwnedLookup(s: seq<Node>, n: Node)
    requires DistinctIds(s) && n in s
    ensures First(IdOwnerFilter(n.id, n.ownerId), s) == Some(n)
  {
    TableHolds(s, n.ownerId, n);
    LookupAgrees(s, n.ownerId, n.id);
  }

  /** The ownership check finds a folder exactly when it is in the owner's
    * parent map. */
  lemma FoundInParents(s: seq<Node>, owner: Id, x: Id)
    ensures First(IdOwnerFilter(x, owner), s).Some? <==> x in ParentsOf(s, owner)
    ensures First(IdOwnerFilter(x, owner), s).Some? ==>
      && First(IdOwnerFilter(x, owner), s).value in s
      && First(IdOwnerFilter(x, owner), s).value.id == x
      && First(IdOwnerFilter(x, owner), s).value.ownerId == owner
      && ParentsOf(s, owner)[x] == First(IdOwnerFilter(x, owner), s).value.parentFolderId
  {
    LookupAgrees(s, owner, x);
    TableMeaning(s, owner, x);
  }

  lemma {:induction false} SelectKeepsDistinct(f: Filters, s: seq<Node>)
    requires DistinctIds(s)
    ensures DistinctIds(Select(f, s))
  {
    if s != [] {
      assert DistinctIds(s[1..]);
      SelectKeepsDistinct(f, s[1..]);
      if Matches(f, s[0]) {
        var t := Select(f, s[1..]);
        forall j | 0 <= j < |t| ensures s[0].id != t[j].id {
          assert t[j] in s[1..];
          var k :| 0 <= k < |s[1..]| && s[1..][k] == t[j];
          assert s[k + 1] == t[j];
        }
      }
    }
  }

  /** The subfolder listing of f is exactly f's children, each listed once. */
  lemma ChildListing(s: seq<Node>, owner: Id, f: Id)
    requires DistinctIds(s) && f != ""
    ensures var kids := IdList(Select(ListingFilter(owner, Some(f)), s));
      && (forall i, j :: 0 <= i < j < |kids| ==> kids[i] != kids[j])
      && (forall c :: c in ChildrenOf(ParentsOf(s, owner), f) <==> c in kids)
  {
    var sel := Select(ListingFilter(owner, Some(f)), s);
    var kids := IdList(sel);
    var pm := ParentsOf(s, owner);
    SelectKeepsDistinct(ListingFilter(owner, Some(f)), s);
    forall c | c in kids ensures c in ChildrenOf(pm, f) {
      var i :| 0 <= i < |kids| && kids[i] == c;
      ListingFilterMeaning(owner, Some(f), sel[i]);
      TableHolds(s, owner, sel[i]);
    }
    forall c | c in ChildrenOf(pm, f) ensures c in kids {
      var t := Table(s, owner);
      TableMeaning(s, owner, c);
      LookupAgrees(s, owner, c);
      var n := t[c];
      ListingFilterMeaning(owner, Some(f), n);
      SelectExactly(ListingFilter(owner, Some(f)), s, n);
      var i :| 0 <= i < |sel| && sel[i] == n;
      assert kids[i] == c;
    }
  }

  lemma FilesUnderUnion(s: seq<Node>, owner: Id, a: set<Id>, b: set<Id>)
    ensures FilesUnder(s, owner, a + b) == FilesUnder(s, owner, a) + FilesUnder(s, owner, b)
  {
  }

  /** Deleting the files under one set of folders leaves the files under a
    * disjoint set untouched. */
  lemma FilesUnderAfterRemoval(s: seq<Node>, owner: Id, a: set<Id>, b: set<Id>)
    requires DistinctIds(s) && a !! b
    ensures FilesUnder(s, owner, a) !! FilesUnder(s, owner, b)
    ensures FilesUnder(RemoveIds(s, FilesUnder(s, owner, a)), owner, b) == FilesUnder(s, owner, b)
  {
    var gone := FilesUnder(s, owner, a);
    var r := RemoveIds(s, gone);
    forall x | x in FilesUnder(s, owner, b) ensures x in FilesUnder(r, owner, b) {
      var m :| m in s && m.ownerId == owner && m.parentFolderId.Some? && m.parentFolderId.value in b && m.id == x;
      forall m' | m' in s && m'.id == m.id ensures m' == m {
        var i :| 0 <= i < |s| && s[i] == m;
        var j :| 0 <= j < |s| && s[j] == m';
        assert i == j;
      }
      assert m.id !in gone;
      assert m in r;
    }
  }

  /** The subtree of the next child is disjoint from those of the children
    * before it. */
  lemma LaterChildDisjoint(pm: ParentMap, f: Id, kids: seq<Id>, i: nat)
    requires Acyclic(pm) && f in pm && i < |kids|
    requires forall a, b :: 0 <= a < b < |kids| ==> kids[a] != kids[b]
    requires forall c :: c in kids ==> c in ChildrenOf(pm, f)
    ensures Subtree(pm, kids[i]) !! SubtreesOf(pm, kids, i)
  {
    var c := kids[i];
    forall x | x in Subtree(pm, c) ensures x !in SubtreesOf(pm, kids, i) {
      SubtreesOfMeaning(pm, kids, i, x);
      forall j | 0 <= j < i ensures x !in Subtree(pm, kids[j]) {
        SiblingsDisjoint(pm, f, c, kids[j]);
      }
    }
  }

  /** One step of the loop over f's children, with the subtrees of the
    * first i children already deleted: the next child is still there, its
    * subtree is untouched, and it is strictly smaller than f's. */
  lemma ChildStep(pm: ParentMap, f: Id, kids: seq<Id>, i: nat)
    requires Acyclic(pm) && f in pm && i < |kids|
    requires forall a, b :: 0 <= a < b < |kids| ==> kids[a] != kids[b]
    requires forall c :: c in kids ==> c in ChildrenOf(pm, f)
    ensures var done := SubtreesOf(pm, kids, i);
      && Subtree(pm, kids[i]) !! done
      && kids[i] in pm - done
      && Subtree(pm - done, kids[i]) == Subtree(pm, kids[i])
      && |Subtree(pm, kids[i])| < |Subtree(pm, f)|
  {
    var done := SubtreesOf(pm, kids, i);
    var c := kids[i];
    LaterChildDisjoint(pm, f, kids, i);
    assert c in ChildrenOf(pm, f);
    assert c in Subtree(pm, c) by { assert Up(pm, Some(c), 0) == Some(c); }
    SubtreeAfterRemoval(pm, done, c);
    ChildSubtreeSmaller(pm, f, c);
    assert f in Subtree(pm, f) by { assert Up(pm, Some(f), 0) == Some(f); }
    SmallerSet(Subtree(pm, c), Subtree(pm, f), f);
  }

  lemma SmallerSet(a: set<Id>, b: set<Id>, x: Id)
    requires a <= b && x in b && x !in a
    ensures |a| < |b|
  {
    assert b == a + (b - a);
    assert x in b - a;
  }

  /** Once every child's subtree is gone, what is left of f's subtree is f. */
  lemma ChildrenCover(pm: ParentMap, f: Id, kids: seq<Id>)
    requires Acyclic(pm) && f in pm
    requires forall c :: c in ChildrenOf(pm, f) <==> c in kids
    ensures Subtree(pm, f) == SubtreesOf(pm, kids, |kids|) + {f}
    ensures f !in SubtreesOf(pm, kids, |kids|)
  {
    forall x ensures x in Subtree(pm, f) <==> x in SubtreesOf(pm, kids, |kids|) || x == f {
      SubtreeSplit(pm, f, x);
      SubtreesOfMeaning(pm, kids, |kids|, x);
      if x in SubtreesOf(pm, kids, |kids|) {
        var j :| 0 <= j < |kids| && x in Subtree(pm, kids[j]);
        assert kids[j] in ChildrenOf(pm, f);
      }
    }
    SubtreesOfMeaning(pm, kids, |kids|, f);
    forall j | 0 <= j < |kids| ensures f !in Subtree(pm, kids[j]) {
      ChildSubtreeSmaller(pm, f, kids[j]);
    }
  }

  /** A run of deletes as the store sees it: the folders in `gone` have left
    * the folders, and the owner's files in those folders have left the files. */
  ghost predicate Removed(F0: seq<Node>, G0: seq<Node>, F: seq<Node>, G: seq<Node>, owner: Id, gone: set<Id>)
  {
    && F == RemoveIds(F0, gone)
    && G == RemoveIds(G0, FilesUnder(G0, owner, gone))
  }

  lemma RemovedNothing(F: seq<Node>, G: seq<Node>, owner: Id)
    ensures Removed(F, G, F, G, owner, {})
  {
    RemoveNothing(F);
    RemoveNothing(G);
    assert FilesUnder(G, owner, {}) == {};
  }

  /** Two runs of deletes over disjoint sets of folders make one. */
  lemma RemovedChain(F0: seq<Node>, G0: seq<Node>, F1: seq<Node>, G1: seq<Node>, F2: seq<Node>, G2: seq<Node>,
                     owner: Id, a: set<Id>, b: set<Id>)
    requires DistinctIds(G0) && a !! b
    requires Removed(F0, G0, F1, G1, owner, a) && Removed(F1, G1, F2, G2, owner, b)
    ensures Removed(F0, G0, F2, G2, owner, a + b)
  {
    RemoveIdsTwice(F0, a, b);
    FilesUnderAfterRemoval(G0, owner, a, b);
    RemoveIdsTwice(G0, FilesUnder(G0, owner, a), FilesUnder(G0, owner, b));
    FilesUnderUnion(G0, owner, a, b);
  }

  /** The subtrees of the listed subfolders and the folder itself make up
    * the folder's subtree, and do not overlap. */
  lemma ChildrenThenSelf(F0: seq<Node>, G0: seq<Node>, pm: ParentMap, f: Id, owner: Id, subfolders: seq<Node>)
    requires DistinctIds(F0) && pm == ParentsOf(F0, owner) && Acyclic(pm) && f in pm && f != ""
    requires subfolders == Select(ListingFilter(owner, Some(f)), F0)
    ensures var X := SubtreesOf(pm, IdList(subfolders), |subfolders|);
      Subtree(pm, f) == X + {f} && X !! {f}
  {
    FoundInParents(F0, owner, f);
    ChildListing(F0, owner, f);
    ChildrenCover(pm, f, IdList(subfolders));
  }

  /** What the subfolder loop knows of the state it started in: distinct
    * ids, the owner's acyclic hierarchy, and the listed subfolders. */
  ghost predicate ChildList(F0: seq<Node>, G0: seq<Node>, pm: ParentMap, folderId: Id, ownerId: Id, subfolders: seq<Node>)
  {
    && DistinctIds(F0) && DistinctIds(G0)
    && pm == ParentsOf(F0, ownerId) && Acyclic(pm) && folderId in pm && folderId != ""
    && subfolders == Select(ListingFilter(ownerId, Some(folderId)), F0)
  }

  /** One step of the subfolder loop: with the earlier subtrees removed the
    * hierarchy is what is left of it, the next child is still in it with its
    * subtree untouched and strictly smaller than the parent's. */
  lemma ChildVisit(F0: seq<Node>, G0: seq<Node>, pm: ParentMap, f: Id, owner: Id, kids: seq<Id>, i: nat)
    requires DistinctIds(F0) && f != ""
    requires pm == ParentsOf(F0, owner) && Acyclic(pm) && f in pm && i < |kids|
    requires kids == IdList(Select(ListingFilter(owner, Some(f)), F0))
    ensures var done := SubtreesOf(pm, kids, i);
      var S := Subtree(pm, kids[i]);
      && ParentsOf(RemoveIds(F0, done), owner) == pm - done
      && Acyclic(pm - done)
      && kids[i] in pm - done
      && Subtree(pm - done, kids[i]) == S
      && |S| < |Subtree(pm, f)|
      && done !! S
      && SubtreesOf(pm, kids, i + 1) == done + S
  {
    var done := SubtreesOf(pm, kids, i);
    FoundInParents(F0, owner, f);
    ChildListing(F0, owner, f);
    ChildStep(pm, f, kids, i);
    ParentsAfterRemoval(F0, owner, done);
    AcyclicAfterRemoval(pm, done);
  }

  /** The ids of the first k records. */
  function IdsUpTo(s: seq<Node>, k: nat): set<Id>
    requires k <= |s|
  {
    if k == 0 then {} else IdsUpTo(s, k - 1) + {s[k - 1].id}
  }

  lemma {:induction false} IdsUpToMeaning(s: seq<Node>, k: nat, x: Id)
    requires k <= |s|
    ensures x in IdsUpTo(s, k) <==> exists j :: 0 <= j < k && s[j].id == x
  {
    if k > 0 { IdsUpToMeaning(s, k - 1, x); }
  }

  /** The file listing of a folder holds exactly the owner's files in it. */
  lemma ListedFiles(s: seq<Node>, owner: Id, f: Id)
    requires DistinctIds(s) && f != ""
    ensures var files := Select(ListingFilter(owner, Some(f)), s);
      && DistinctIds(files)
      && IdsUpTo(files, |files|) == FilesUnder(s, owner, {f})
      && forall n :: n in files ==> n in s && n.ownerId == owner
  {
    var files := Select(ListingFilter(owner, Some(f)), s);
    SelectKeepsDistinct(ListingFilter(owner, Some(f)), s);
    forall n ensures n in files <==> n in s && n.ownerId == owner && n.parentFolderId == Some(f) {
      ListingFilterMeaning(owner, Some(f), n);
      SelectExactly(ListingFilter(owner, Some(f)), s, n);
    }
    forall x ensures x in IdsUpTo(files, |files|) <==> x in FilesUnder(s, owner, {f}) {
      IdsUpToMeaning(files, |files|, x);
      if x in FilesUnder(s, owner, {f}) {
        var m :| m in s && m.ownerId == owner && m.parentFolderId == Some(f) && m.id == x;
        var j :| 0 <= j < |files| && files[j] == m;
      }
    }
  }

  /** One step of the file loop: the next file is still stored and found by
    * the ownership check, and its delete adds its id to what is gone. */
  lemma FileVisit(G0: seq<Node>, owner: Id, f: Id, j: nat)
    requires CollectionOk(G0, Files) && f != ""
    requires j < |Select(ListingFilter(owner, Some(f)), G0)|
    ensures var files := Select(ListingFilter(owner, Some(f)), G0);
      var G := RemoveIds(G0, IdsUpTo(files, j));
      && CollectionOk(G, Files)
      && First(IdOwnerFilter(files[j].id, owner), G) == Some(files[j])
      && RemoveIds(G, {files[j].id}) == RemoveIds(G0, IdsUpTo(files, j + 1))
      && files[j].id !in IdsUpTo(files, j)
  {
    var files := Select(ListingFilter(owner, Some(f)), G0);
    ListedFiles(G0, owner, f);
    var n := files[j];
    assert n in files;
    RemoveIdsKeepsOk(G0, Files, IdsUpTo(files, j));
    var G := RemoveIds(G0, IdsUpTo(files, j));
    IdsUpToMeaning(files, j, n.id);
    assert n.id !in IdsUpTo(files, j);
    assert n in G;
    OwnedLookup(G, n);
    RemoveIdsTwice(G0, IdsUpTo(files, j), {n.id});
  }
}
