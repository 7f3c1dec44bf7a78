// The folder hierarchy one owner sees: for every folder id the parent it
// names, upward walks along those parent references, acyclicity, and the
// subtree a folder roots.
module Hierarchy {
  import opened Wrappers
  import opened Models
  import opened Query
  import opened Store

  /** Folder id to the parent it names (None for the root). */
  type ParentMap = map<Id, Option<Id>>

  /** The owner's folders by id. When two records share an id the first in
    * collection order wins, as `findOne` would pick it. */
  function Table(s: seq<Node>, owner: Id): map<Id, Node>
  {
    if s == [] then map[]
    else
      var m := Table(s[1..], owner);
      if s[0].ownerId == owner then m[s[0].id := s[0]] else m
  }

  /** The parent references of the owner's folders. */
  function ParentsOf(s: seq<Node>, owner: Id): ParentMap
  {
    var t := Table(s, owner);
    map x | x in t :: t[x].parentFolderId
  }

  /** The ownership lookup `findOne({ _id: x, ownerId })` finds a record
    * exactly when x is one of the owner's folders, and finds the table's. */
  lemma {:induction false} LookupAgrees(s: seq<Node>, owner: Id, x: Id)
    ensures First(IdOwnerFilter(x, owner), s) == if x in Table(s, owner) then Some(Table(s, owner)[x]) else None
    ensures x in Table(s, owner) ==> Table(s, owner)[x].id == x && Table(s, owner)[x].ownerId == owner
  {
    if s != [] {
      IdOwnerFilterMeaning(x, owner, s[0]);
      LookupAgrees(s[1..], owner, x);
    }
  }

  /** The table holds records of the collection, each under its own id. */
  lemma {:induction false} TableMeaning(s: seq<Node>, owner: Id, x: Id)
    ensures x in Table(s, owner) <==> exists n :: n in s && n.ownerId == owner && n.id == x
    ensures x in Table(s, owner) ==> Table(s, owner)[x] in s
  {
    if s != [] {
      TableMeaning(s[1..], owner, x);
      assert forall n :: n in s <==> n == s[0] || n in s[1..];
    }
  }

  /** Replacing the record with id x by one with the same id and owner
    * replaces the table's entry under x and nothing else. */
  lemma {:induction false} TableAfterReplace(s: seq<Node>, owner: Id, x: Id, m: Node)
    requires DistinctIds(s) && m.id == x && m.ownerId == owner
    requires exists n :: n in s && n.id == x && n.ownerId == owner
    ensures Table(ReplaceId(s, x, m), owner) == Table(s, owner)[x := m]
  {
    var r := ReplaceId(s, x, m);
    var n :| n in s && n.id == x && n.ownerId == owner;
    assert r[1..] == ReplaceId(s[1..], x, m);
    if s[0].id == x {
      assert s[0] == n by {
        var j :| 0 <= j < |s| && s[j] == n;
        assert j == 0;
      }
      TableWithout(s[1..], owner, x);
      TableWithout(r[1..], owner, x);
      assert Table(r[1..], owner) == Table(s[1..], owner) by {
        ReplaceAbsent(s[1..], x, m);
      }
    } else {
      assert n in s[1..] by {
        var j :| 0 <= j < |s| && s[j] == n;
        assert j > 0 && s[1..][j - 1] == n;
      }
      assert DistinctIds(s[1..]);
      TableAfterReplace(s[1..], owner, x, m);
    }
  }

  lemma {:induction false} TableWithout(s: seq<Node>, owner: Id, x: Id)
    requires forall n :: n in s ==> n.id != x
    ensures x !in Table(s, owner)
  {
    if s != [] {
      TableWithout(s[1..], owner, x);
      assert s[0] in s;
    }
  }

  lemma ReplaceAbsent(s: seq<Node>, x: Id, m: Node)
    requires forall n :: n in s ==> n.id != x
    ensures ReplaceId(s, x, m) == s
  {
  }

  /** Appending a record with a fresh id adds it to its owner's table. */
  lemma {:induction false} TableAfterAppend(s: seq<Node>, owner: Id, n: Node)
    requires n.id !in IdsOf(s)
    ensures Table(s + [n], owner) == if n.ownerId == owner then Table(s, owner)[n.id := n] else Table(s, owner)
  {
    if s == [] {
      assert [n][1..] == [];
    } else {
      assert (s + [n])[1..] == s[1..] + [n];
      assert s[0] in s;
      assert n.id !in IdsOf(s[1..]) by {
        forall m | m in s[1..] ensures m.id != n.id { assert m in s; }
      }
      TableAfterAppend(s[1..], owner, n);
    }
  }

  lemma ParentsAfterAppend(s: seq<Node>, owner: Id, n: Node)
    requires n.id !in IdsOf(s) && n.ownerId == owner
    ensures ParentsOf(s + [n], owner) == ParentsOf(s, owner)[n.id := n.parentFolderId]
  {
    TableAfterAppend(s, owner, n);
  }

  /** Re-parenting one of the owner's folders changes its entry in the
    * parent map and nothing else. */
  lemma ParentsAfterReplace(s: seq<Node>, owner: Id, x: Id, m: Node)
    requires DistinctIds(s) && m.id == x && m.ownerId == owner
    requires exists n :: n in s && n.id == x && n.ownerId == owner
    ensures ParentsOf(ReplaceId(s, x, m), owner) == ParentsOf(s, owner)[x := m.parentFolderId]
  {
    TableAfterReplace(s, owner, x, m);
  }

  /** One step up; the root and unknown ids step to None. */
  function Step(pm: ParentMap, x: Option<Id>): Option<Id>
  {
    if x.Some? && x.value in pm then pm[x.value] else None
  }

  /** k steps up from x. */
  function Up(pm: ParentMap, x: Option<Id>, k: nat): Option<Id>
    decreases k
  {
    if k == 0 then x else Step(pm, Up(pm, x, k - 1))
  }

  /** No folder is its own proper ancestor. */
  ghost predicate Acyclic(pm: ParentMap)
  {
    forall x, k {:trigger Up(pm, Some(x), k)} :: x in pm && 0 < k ==> Up(pm, Some(x), k) != Some(x)
  }

  /** Walking up from x passes through f (at step 0 when x is f). */
  ghost predicate Reaches(pm: ParentMap, x: Option<Id>, f: Id)
  {
    exists k: nat :: Up(pm, x, k) == Some(f)
  }

  /** The ids of f and of all its descendants. */
  ghost function Subtree(pm: ParentMap, f: Id): set<Id>
  {
    set x | x in pm && Reaches(pm, Some(x), f)
  }

  lemma {:induction false} UpAdd(pm: ParentMap, x: Option<Id>, a: nat, b: nat)
    ensures Up(pm, x, a + b) == Up(pm, Up(pm, x, a), b)
    decreases b
  {
    if b > 0 { UpAdd(pm, x, a, b - 1); }
  }

  lemma {:induction false} UpNoneStays(pm: ParentMap, k: nat)
    ensures Up(pm, None, k) == None
  {
    if k > 0 { UpNoneStays(pm, k - 1); }
  }

  /** A walk that is still at a folder after j steps was at a folder at
    * every earlier step. */
  lemma {:induction false} DefinedBefore(pm: ParentMap, x: Option<Id>, j: nat, i: nat)
    requires i < j && Up(pm, x, j).Some?
    ensures Up(pm, x, i).Some? && Up(pm, x, i).value in pm
    decreases j
  {
    if i < j - 1 {
      DefinedBefore(pm, x, j - 1, i);
    }
  }

  lemma {:induction false} DistinctBound(s: seq<Id>, keys: set<Id>)
    requires forall i, j :: 0 <= i < j < |s| ==> s[i] != s[j]
    requires forall i :: 0 <= i < |s| ==> s[i] in keys
    ensures |s| <= |keys|
  {
    if s != [] {
      DistinctBound(s[1..], keys - {s[0]});
    }
  }

  /** The walk is at one of the owner's folders. */
  predicate InMap(pm: ParentMap, x: Option<Id>)
  {
    x.Some? && x.value in pm
  }

  /** In an acyclic hierarchy a walk that is still at a folder after j steps
    * has visited j + 1 distinct folders, so j < |pm|: every upward walk
    * reaches the root or an unknown id within |pm| steps. */
  lemma WalkBound(pm: ParentMap, x: Option<Id>, j: nat)
    requires Acyclic(pm)
    ensures InMap(pm, Up(pm, x, j)) ==> j < |pm|
  {
    if InMap(pm, Up(pm, x, j)) {
      forall i | 0 <= i < j ensures Up(pm, x, i).Some? && Up(pm, x, i).value in pm {
        DefinedBefore(pm, x, j, i);
      }
      var w := seq(j + 1, i requires 0 <= i <= j => Up(pm, x, i).value);
      forall a, b | 0 <= a < b < |w| ensures w[a] != w[b] {
        UpAdd(pm, x, a, b - a);
        assert Up(pm, Some(w[a]), b - a) != Some(w[a]);
      }
      DistinctBound(w, pm.Keys);
    }
  }

  /** The first step at which a walk is at f. */
  lemma {:induction false} LeastHit(pm: ParentMap, x: Option<Id>, f: Id, k: nat) returns (m: nat)
    requires Up(pm, x, k) == Some(f)
    ensures m <= k && Up(pm, x, m) == Some(f)
    ensures forall i :: 0 <= i < m ==> Up(pm, x, i) != Some(f)
    decreases k
  {
    if i :| 0 <= i < k && Up(pm, x, i) == Some(f) {
      m := LeastHit(pm, x, f, i);
    } else {
      m := k;
    }
  }

  /** Two maps that differ at most at f give the same walk until it first
    * reaches f. */
  ghost predicate DifferAtMost(pm: ParentMap, pm2: ParentMap, f: Id)
  {
    forall y :: y != f ==> (y in pm <==> y in pm2) && (y in pm ==> pm[y] == pm2[y])
  }

  lemma {:induction false} AgreeUntilHit(pm: ParentMap, pm2: ParentMap, f: Id, x: Option<Id>, m: nat)
    requires DifferAtMost(pm, pm2, f)
    requires forall i :: 0 <= i < m ==> Up(pm, x, i) != Some(f)
    ensures Up(pm2, x, m) == Up(pm, x, m)
    decreases m
  {
    if m > 0 {
      AgreeUntilHit(pm, pm2, f, x, m - 1);
    }
  }

  /** After giving f the parent np, the walk up from np still never reaches
    * f, provided it did not before. */
  lemma {:induction false} NeverHits(pm: ParentMap, pm': ParentMap, f: Id, np: Option<Id>, j: nat)
    requires f in pm && pm' == pm[f := np] && !Reaches(pm, np, f)
    ensures Up(pm', np, j) != Some(f)
    decreases j
  {
    forall i | 0 <= i < j ensures Up(pm', np, i) != Some(f) {
      NeverHits(pm, pm', f, np, i);
    }
    AgreeUntilHit(pm', pm, f, np, j);
  }

  /** Giving folder f the new parent np keeps the hierarchy acyclic when the
    * walk up from np never reaches f (in particular np is not f itself). */
  lemma ReparentKeepsAcyclic(pm: ParentMap, f: Id, np: Option<Id>)
    requires Acyclic(pm) && f in pm
    requires !Reaches(pm, np, f)
    ensures Acyclic(pm[f := np])
  {
    var pm' := pm[f := np];
    forall x, k | x in pm' && 0 < k ensures Up(pm', Some(x), k) != Some(x) {
      if i :| 0 <= i < k && Up(pm', Some(x), i) == Some(f) {
        // a cycle through x would pass through f, and none passes through f
        UpAdd(pm', Some(x), i, k);
        UpAdd(pm', Some(x), k, i);
        UpAdd(pm', Some(f), 1, k - 1);
        NeverHits(pm, pm', f, np, k - 1);
      } else {
        AgreeUntilHit(pm', pm, f, Some(x), k);
      }
    }
  }

  /** A walk that never stands on x sees the same parents in pm and in
    * pm with a fresh x added, as long as no folder names x as its parent. */
  lemma {:induction false} FreshWalk(pm: ParentMap, x: Id, p: Option<Id>, v: Option<Id>, j: nat)
    requires x !in pm && v != Some(x)
    requires forall y :: y in pm ==> pm[y] != Some(x)
    ensures Up(pm[x := p], v, j) == Up(pm, v, j) && Up(pm, v, j) != Some(x)
    decreases j
  {
    if j > 0 { FreshWalk(pm, x, p, v, j - 1); }
  }

  /** Adding a folder under a fresh id nobody names as a parent keeps the
    * hierarchy free of cycles. */
  lemma AddLeafKeepsAcyclic(pm: ParentMap, x: Id, p: Option<Id>)
    requires Acyclic(pm) && x !in pm && p != Some(x)
    requires forall y :: y in pm ==> pm[y] != Some(x)
    ensures Acyclic(pm[x := p])
  {
    var pm' := pm[x := p];
    forall y, k | y in pm' && 0 < k ensures Up(pm', Some(y), k) != Some(y) {
      if y == x {
        UpAdd(pm', Some(y), 1, k - 1);
        FreshWalk(pm, x, p, p, k - 1);
      } else {
        FreshWalk(pm, x, p, Some(y), k);
      }
    }
  }

  /** The rule the stricter move applies, as a predicate: the destination is
    * the folder itself or has it among its ancestors. */
  ghost predicate MoveWouldCycle(pm: ParentMap, f: Id, np: Option<Id>)
  {
    np == Some(f) || Reaches(pm, np, f)
  }

  /** Reparenting f under np leaves the hierarchy acyclic exactly when the
    * move rule does not object. */
  lemma MoveRuleIsExact(pm: ParentMap, f: Id, np: Option<Id>)
    requires Acyclic(pm) && f in pm
    ensures Acyclic(pm[f := np]) <==> !MoveWouldCycle(pm, f, np)
  {
    if !MoveWouldCycle(pm, f, np) {
      ReparentKeepsAcyclic(pm, f, np);
    } else {
      var pm' := pm[f := np];
      var k: nat :| Up(pm, np, k) == Some(f);
      var m := LeastHit(pm, np, f, k);
      AgreeUntilHit(pm, pm', f, np, m);
      UpAdd(pm', Some(f), 1, m);
      assert Up(pm', Some(f), 1 + m) == Some(f);
    }
  }

  // ----- subtrees -----

  /** A walk that reaches f after k steps passes only through folders of
    * f's subtree on the way. */
  lemma OnTheWayInSubtree(pm: ParentMap, x: Id, f: Id, k: nat, i: nat)
    requires x in pm && Up(pm, Some(x), k) == Some(f) && i <= k
    ensures Up(pm, Some(x), i).Some?
    ensures i < k ==> Up(pm, Some(x), i).value in Subtree(pm, f)
  {
    if i < k {
      DefinedBefore(pm, Some(x), k, i);
      UpAdd(pm, Some(x), i, k - i);
      assert Up(pm, Up(pm, Some(x), i), k - i) == Some(f);
    }
  }

  /** A walk in a sub-map, while it reaches f, is a walk in the full map. */
  lemma {:induction false} SubmapWalk(pm: ParentMap, sub: ParentMap, x: Option<Id>, k: nat)
    requires forall y :: y in sub ==> y in pm && sub[y] == pm[y]
    requires Up(sub, x, k).Some?
    ensures Up(pm, x, k) == Up(sub, x, k)
    decreases k
  {
    if k > 0 {
      DefinedBefore(sub, x, k, k - 1);
      SubmapWalk(pm, sub, x, k - 1);
    }
  }

  /** Removing folders outside f's subtree leaves the subtree unchanged. */
  lemma SubtreeAfterRemoval(pm: ParentMap, removed: set<Id>, f: Id)
    requires Subtree(pm, f) !! removed
    ensures Subtree(pm - removed, f) == Subtree(pm, f)
  {
    var sub := pm - removed;
    forall x | x in Subtree(sub, f) ensures x in Subtree(pm, f) {
      var k: nat :| Up(sub, Some(x), k) == Some(f);
      SubmapWalk(pm, sub, Some(x), k);
    }
    forall x | x in Subtree(pm, f) ensures x in Subtree(sub, f) {
      var k: nat :| Up(pm, Some(x), k) == Some(f);
      var m := LeastHit(pm, Some(x), f, k);
      AgreeOnSubtreePath(pm, removed, x, f, m, m);
      assert Up(sub, Some(x), m) == Some(f);
    }
  }

  lemma {:induction false} AgreeOnSubtreePath(pm: ParentMap, removed: set<Id>, x: Id, f: Id, m: nat, i: nat)
    requires Subtree(pm, f) !! removed
    requires x in pm && Up(pm, Some(x), m) == Some(f) && i <= m
    ensures Up(pm - removed, Some(x), i) == Up(pm, Some(x), i)
    decreases i
  {
    if i > 0 {
      AgreeOnSubtreePath(pm, removed, x, f, m, i - 1);
      OnTheWayInSubtree(pm, x, f, m, i - 1);
    }
  }

  /** The children of f: the folders whose parent reference is f. */
  ghost function ChildrenOf(pm: ParentMap, f: Id): set<Id>
  {
    set c | c in pm && pm[c] == Some(f)
  }

  lemma ChildSubtreeInside(pm: ParentMap, f: Id, c: Id)
    requires c in ChildrenOf(pm, f)
    ensures Subtree(pm, c) <= Subtree(pm, f)
  {
    forall x | x in Subtree(pm, c) ensures x in Subtree(pm, f) {
      var k: nat :| Up(pm, Some(x), k) == Some(c);
      UpAdd(pm, Some(x), k, 1);
    }
  }

  /** A child's subtree is strictly smaller: it lies inside the parent's and
    * does not hold the parent. */
  lemma ChildSubtreeSmaller(pm: ParentMap, f: Id, c: Id)
    requires Acyclic(pm) && f in pm && c in ChildrenOf(pm, f)
    ensures Subtree(pm, c) < Subtree(pm, f)
    ensures f !in Subtree(pm, c)
  {
    ChildSubtreeInside(pm, f, c);
    forall k: nat ensures Up(pm, Some(f), k) != Some(c) {
      UpAdd(pm, Some(f), k, 1);
      assert Up(pm, Some(f), k + 1) != Some(f);
    }
    assert Reaches(pm, Some(f), f) by { assert Up(pm, Some(f), 0) == Some(f); }
    assert f in Subtree(pm, f);
  }

  lemma ChildNotBelowSibling(pm: ParentMap, f: Id, c1: Id, c2: Id, d: nat)
    requires Acyclic(pm) && f in pm
    requires c1 in ChildrenOf(pm, f) && c2 in ChildrenOf(pm, f) && c1 != c2
    ensures Up(pm, Some(c2), d) != Some(c1)
  {
    if d > 0 {
      UpAdd(pm, Some(c2), 1, d - 1);
      UpAdd(pm, Some(f), d - 1, 1);
      assert Up(pm, Some(f), d) != Some(f);
    }
  }

  /** The subtrees of two different children are disjoint. */
  lemma SiblingsDisjoint(pm: ParentMap, f: Id, c1: Id, c2: Id)
    requires Acyclic(pm) && f in pm
    requires c1 in ChildrenOf(pm, f) && c2 in ChildrenOf(pm, f) && c1 != c2
    ensures Subtree(pm, c1) !! Subtree(pm, c2)
  {
    forall x | x in Subtree(pm, c1) ensures x !in Subtree(pm, c2) {
      var k1: nat :| Up(pm, Some(x), k1) == Some(c1);
      forall k2: nat ensures Up(pm, Some(x), k2) != Some(c2) {
        if k2 <= k1 {
          UpAdd(pm, Some(x), k2, k1 - k2);
          ChildNotBelowSibling(pm, f, c1, c2, k1 - k2);
        } else {
          UpAdd(pm, Some(x), k1, k2 - k1);
          ChildNotBelowSibling(pm, f, c2, c1, k2 - k1);
        }
      }
    }
  }

  /** A subtree is its root (when it is a folder) together with the subtrees
    * of the root's children. */
  lemma SubtreeSplit(pm: ParentMap, f: Id, x: Id)
    ensures x in Subtree(pm, f) <==>
      (x == f && f in pm) || exists c :: c in ChildrenOf(pm, f) && x in Subtree(pm, c)
  {
    if x in Subtree(pm, f) && x != f {
      var k: nat :| Up(pm, Some(x), k) == Some(f);
      assert k > 0;
      DefinedBefore(pm, Some(x), k, k - 1);
      var y := Up(pm, Some(x), k - 1).value;
      assert y in ChildrenOf(pm, f);
      assert x in Subtree(pm, y);
    }
    if exists c :: c in ChildrenOf(pm, f) && x in Subtree(pm, c) {
      var c :| c in ChildrenOf(pm, f) && x in Subtree(pm, c);
      ChildSubtreeInside(pm, f, c);
    }
    if x == f && f in pm {
      assert Up(pm, Some(f), 0) == Some(f);
    }
  }

  /** The union of the subtrees of the first k folders of a list. */
  ghost function SubtreesOf(pm: ParentMap, roots: seq<Id>, k: nat): set<Id>
    requires k <= |roots|
  {
    if k == 0 then {} else SubtreesOf(pm, roots, k - 1) + Subtree(pm, roots[k - 1])
  }

  lemma {:induction false} SubtreesOfMeaning(pm: ParentMap, roots: seq<Id>, k: nat, x: Id)
    requires k <= |roots|
    ensures x in SubtreesOf(pm, roots, k) <==> exists j :: 0 <= j < k && x in Subtree(pm, roots[j])
  {
    if k > 0 {
      SubtreesOfMeaning(pm, roots, k - 1, x);
    }
  }
}
