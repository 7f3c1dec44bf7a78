// The client's move dialog: the set of folders a folder may not be moved
// into (itself and its descendants), which rows are disabled, and which rows
// the search shows.
module MoveDialog {
  import opened Wrappers
  import opened Text

  /** A folder of the tree the server's getTree answers. */
  datatype FolderNode = FolderNode(id: string, name: string, parentFolderId: Option<string>, children: seq<FolderNode>)

  datatype ItemKind = FileItem | FolderItem

  /** The file or folder being moved. */
  datatype Item = Item(kind: ItemKind, id: string, name: string)

  // ---------------------------------------------------------------------
  // mapNodes: every node of the nested tree, by id.

  /** The nodes in the order mapNodes visits them: each node, then its
    * children, then its later siblings. */
  function Flatten(nodes: seq<FolderNode>): seq<FolderNode>
    decreases nodes
  {
    if |nodes| == 0 then [] else [nodes[0]] + Flatten(nodes[0].children) + Flatten(nodes[1..])
  }

  lemma {:induction false} FlattenAppend(a: seq<FolderNode>, b: seq<FolderNode>)
    ensures Flatten(a + b) == Flatten(a) + Flatten(b)
    decreases |a|
  {
    if |a| == 0 {
      assert a + b == b;
    } else {
      assert (a + b)[0] == a[0];
      assert (a + b)[1..] == a[1..] + b;
      FlattenAppend(a[1..], b);
    }
  }

  /** Every node of the tree, and every node below it, is visited. */
  lemma {:induction false} FlattenHasSubtrees(nodes: seq<FolderNode>, i: nat)
    requires i < |nodes|
    ensures nodes[i] in Flatten(nodes)
    ensures forall d :: d in Flatten(nodes[i].children) ==> d in Flatten(nodes)
    decreases |nodes|
  {
    if i > 0 {
      FlattenHasSubtrees(nodes[1..], i - 1);
    }
  }

  /** The map after `set(n._id, n)` for each node in turn: a later node with
    * the same id replaces an earlier one. */
  function Indexed(m: map<string, FolderNode>, s: seq<FolderNode>): map<string, FolderNode>
    decreases |s|
  {
    if |s| == 0 then m else Indexed(m[s[0].id := s[0]], s[1..])
  }

  /** `allNodesMap` after `mapNodes(tree)`. */
  function Index(tree: seq<FolderNode>): map<string, FolderNode>
  {
    Indexed(map[], Flatten(tree))
  }

  lemma {:induction false} IndexedAppend(m: map<string, FolderNode>, a: seq<FolderNode>, b: seq<FolderNode>)
    ensures Indexed(m, a + b) == Indexed(Indexed(m, a), b)
    decreases |a|
  {
    if |a| > 0 {
      assert (a + b)[0] == a[0];
      assert (a + b)[1..] == a[1..] + b;
      IndexedAppend(m[a[0].id := a[0]], a[1..], b);
    } else {
      assert a + b == b;
    }
  }

  /** The map holds exactly the visited ids and the keys it started with. */
  lemma {:induction false} IndexedKeys(m: map<string, FolderNode>, s: seq<FolderNode>)
    ensures forall k :: k in Indexed(m, s) <==> k in m || exists i :: 0 <= i < |s| && s[i].id == k
    decreases |s|
  {
    if |s| > 0 {
      IndexedKeys(m[s[0].id := s[0]], s[1..]);
      forall k | k in m || exists i :: 0 <= i < |s| && s[i].id == k ensures k in Indexed(m, s) {
        if k !in m && k != s[0].id {
          var i :| 0 <= i < |s| && s[i].id == k;
          assert s[1..][i - 1].id == k;
        }
      }
      forall k | k in Indexed(m, s) && k !in m ensures exists i :: 0 <= i < |s| && s[i].id == k {
        if k != s[0].id {
          assert k !in m[s[0].id := s[0]];
          var i :| 0 <= i < |s[1..]| && s[1..][i].id == k;
          assert s[i + 1].id == k;
        }
      }
    }
  }

  /** Each entry is bound to a node with its id, one visited or one the map
    * started with. */
  lemma {:induction false} IndexedValues(m: map<string, FolderNode>, s: seq<FolderNode>)
    requires forall k :: k in m ==> m[k].id == k
    ensures forall k :: k in Indexed(m, s) ==> Indexed(m, s)[k].id == k && (Indexed(m, s)[k] in s || (k in m && Indexed(m, s)[k] == m[k]))
    decreases |s|
  {
    if |s| > 0 {
      var m' := m[s[0].id := s[0]];
      IndexedValues(m', s[1..]);
      forall k | k in Indexed(m, s)
        ensures Indexed(m, s)[k].id == k && (Indexed(m, s)[k] in s || (k in m && Indexed(m, s)[k] == m[k]))
      {
        var v := Indexed(m', s[1..])[k];
        assert v in s[1..] ==> v in s;
      }
    }
  }

  /** A node no later node shares an id with is the entry for its id. */
  lemma {:induction false} IndexedLast(m: map<string, FolderNode>, s: seq<FolderNode>, i: nat)
    requires i < |s| && forall j :: i < j < |s| ==> s[j].id != s[i].id
    ensures s[i].id in Indexed(m, s) && Indexed(m, s)[s[i].id] == s[i]
    decreases |s|
  {
    var m' := m[s[0].id := s[0]];
    if i > 0 {
      assert s[1..][i - 1] == s[i];
      forall j | i - 1 < j < |s[1..]| ensures s[1..][j].id != s[1..][i - 1].id {
        assert s[1..][j] == s[j + 1];
      }
      IndexedLast(m', s[1..], i - 1);
    } else {
      forall j | 0 <= j < |s[1..]| ensures s[1..][j].id != s[0].id {
        assert s[1..][j] == s[j + 1];
      }
      IndexedKeeps(m', s[1..], s[0].id);
    }
  }

  /** A key no later node carries keeps its entry. */
  lemma {:induction false} IndexedKeeps(m: map<string, FolderNode>, s: seq<FolderNode>, k: string)
    requires k in m && forall j :: 0 <= j < |s| ==> s[j].id != k
    ensures k in Indexed(m, s) && Indexed(m, s)[k] == m[k]
    decreases |s|
  {
    if |s| > 0 {
      IndexedKeeps(m[s[0].id := s[0]], s[1..], k);
    }
  }

  /** `mapNodes`: each node is set, then its children are mapped. */
  method MapNodes(nodes: seq<FolderNode>, m0: map<string, FolderNode>) returns (m: map<string, FolderNode>)
    ensures m == Indexed(m0, Flatten(nodes))
    decreases nodes
  {
    m := m0;
    for i := 0 to |nodes|
      invariant m == Indexed(m0, Flatten(nodes[..i]))
    {
      assert nodes[..i + 1] == nodes[..i] + [nodes[i]];
      FlattenAppend(nodes[..i], [nodes[i]]);
      assert Flatten([nodes[i]]) == [nodes[i]] + Flatten(nodes[i].children);
      IndexedAppend(m0, Flatten(nodes[..i]), [nodes[i]] + Flatten(nodes[i].children));
      IndexedAppend(Indexed(m0, Flatten(nodes[..i])), [nodes[i]], Flatten(nodes[i].children));
      m := m[nodes[i].id := nodes[i]];
      m := MapNodes(nodes[i].children, m);
    }
    assert nodes[..|nodes|] == nodes;
  }

  // ---------------------------------------------------------------------
  // The descendant fixpoint.

  /** The parent the loop tests: a `parentFolderId` that is present and
    * non-empty (JavaScript's truthiness). */
  function ParentOf(m: map<string, FolderNode>, id: string): Option<string>
    requires id in m
  {
    match m[id].parentFolderId
    case Some(p) => if p != "" then Some(p) else None
    case None => None
  }

  /** A chain of ids from `root` down the parent links, each id a key whose
    * parent is the previous id. */
  ghost predicate Chain(m: map<string, FolderNode>, root: string, c: seq<string>)
  {
    && |c| > 0 && c[0] == root
    && forall i :: 0 < i < |c| ==> c[i] in m && ParentOf(m, c[i]) == Some(c[i - 1])
  }

  /** `id` is `root` or lies below it: the reference definition of the set
    * the loop computes. */
  ghost predicate Descends(m: map<string, FolderNode>, root: string, id: string)
  {
    exists c :: Chain(m, root, c) && c[|c| - 1] == id
  }

  /** Every key whose parent is in the set is in the set. */
  ghost predicate Closed(m: map<string, FolderNode>, r: set<string>)
  {
    forall id :: id in m && ParentOf(m, id).Some? && ParentOf(m, id).value in r ==> id in r
  }

  /** Each member of the set has a recorded chain from the root. */
  ghost predicate Chained(m: map<string, FolderNode>, root: string, r: set<string>, chains: map<string, seq<string>>)
  {
    forall x :: x in r ==> x in chains && Chain(m, root, chains[x]) && chains[x][|chains[x]| - 1] == x
  }

  /** A set holding the root and closed under the links holds every id
    * along a chain from the root. */
  lemma {:induction false} ClosedHoldsChain(m: map<string, FolderNode>, root: string, r: set<string>, c: seq<string>)
    requires root in r && Closed(m, r) && Chain(m, root, c)
    ensures forall i :: 0 <= i < |c| ==> c[i] in r
  {
    var k := 0;
    while k < |c|
      invariant 0 <= k <= |c|
      invariant forall i :: 0 <= i < k ==> c[i] in r
    {
      if k > 0 {
        assert c[k] in m && ParentOf(m, c[k]) == Some(c[k - 1]);
      }
      k := k + 1;
    }
  }

  /** One pass of `for (const [id, node] of allNodesMap)`, in some order of
    * the keys: each node whose parent is already in the set and which is not
    * yet in it is added, and `changed` records whether any was. */
  method Pass(m: map<string, FolderNode>, root: string, r0: set<string>, ghost chains0: map<string, seq<string>>)
    returns (r: set<string>, changed: bool, ghost chains: map<string, seq<string>>)
    requires Chained(m, root, r0, chains0)
    ensures Chained(m, root, r, chains)
    ensures r0 <= r <= r0 + m.Keys
    ensures changed <==> r != r0
    ensures !changed ==> Closed(m, r)
  {
    r, changed, chains := r0, false, chains0;
    var todo := m.Keys;
    while todo != {}
      invariant todo <= m.Keys
      invariant Chained(m, root, r, chains)
      invariant r0 <= r <= r0 + m.Keys
      invariant changed <==> r != r0
      invariant !changed ==> forall id :: id in m && id !in todo && ParentOf(m, id).Some? && ParentOf(m, id).value in r ==> id in r
      decreases todo
    {
      var id :| id in todo;
      var node := m[id];
      if node.parentFolderId.Some? && node.parentFolderId.value != "" && node.parentFolderId.value in r && id !in r {
        var p := node.parentFolderId.value;
        ChainExtends(m, root, chains[p], id);
        chains := chains[id := chains[p] + [id]];
        r := r + {id};
        changed := true;
      }
      todo := todo - {id};
    }
  }

  /** A chain ending at a key's parent extends to that key. */
  lemma ChainExtends(m: map<string, FolderNode>, root: string, c: seq<string>, id: string)
    requires Chain(m, root, c) && id in m && ParentOf(m, id) == Some(c[|c| - 1])
    ensures Chain(m, root, c + [id])
  {
    var c' := c + [id];
    forall i | 0 < i < |c'| ensures c'[i] in m && ParentOf(m, c'[i]) == Some(c'[i - 1]) {
      if i < |c| {
        assert c'[i] == c[i] && c'[i - 1] == c[i - 1];
      }
    }
  }

  /** A proper superset inside the same bound leaves fewer ids outside. */
  lemma FewerLeft(u: set<string>, a: set<string>, b: set<string>)
    requires a <= b <= u && a != b
    ensures |u - b| < |u - a|
  {
    var x :| x in b && x !in a;
    var rest := (u - a) - {x};
    assert u - a == rest + {x};
    assert |u - a| == |rest| + 1;
    assert u - b <= rest;
    SubsetNoLarger(u - b, rest);
  }

  lemma {:induction false} SubsetNoLarger(a: set<string>, b: set<string>)
    requires a <= b
    ensures |a| <= |b|
    decreases |b|
  {
    if b != {} {
      var y :| y in b;
      SubsetNoLarger(a - {y}, b - {y});
    }
  }

  /** `while (changed)`: passes until one adds nothing; the answer is the
    * root and everything below it. */
  method Fixpoint(m: map<string, FolderNode>, root: string) returns (r: set<string>)
    ensures forall id :: id in r <==> Descends(m, root, id)
  {
    r := {root};
    ghost var chains := map[root := [root]];
    var changed := true;
    while changed
      invariant root in r && r <= {root} + m.Keys
      invariant Chained(m, root, r, chains)
      invariant !changed ==> Closed(m, r)
      decreases |({root} + m.Keys) - r| + (if changed then 1 else 0)
    {
      var r' := r;
      r, changed, chains := Pass(m, root, r, chains);
      if changed {
        FewerLeft({root} + m.Keys, r', r);
      }
    }
    forall id ensures id in r <==> Descends(m, root, id) {
      if id in r {
        assert Chain(m, root, chains[id]) && chains[id][|chains[id]| - 1] == id;
      }
      if Descends(m, root, id) {
        var c :| Chain(m, root, c) && c[|c| - 1] == id;
        ClosedHoldsChain(m, root, r, c);
      }
    }
  }

  /** `descendantIds`: empty unless a folder is being moved; otherwise the
    * folder and every folder below it by the parent links of the tree. */
  method DescendantIds(item: Option<Item>, tree: seq<FolderNode>) returns (ids: set<string>)
    ensures item.None? || item.value.kind == FileItem ==> ids == {}
    ensures item.Some? && item.value.kind == FolderItem ==>
      forall id :: id in ids <==> Descends(Index(tree), item.value.id, id)
  {
    if item.None? || item.value.kind != FolderItem {
      return {};
    }
    var allNodesMap := MapNodes(tree, map[]);
    ids := Fixpoint(allNodesMap, item.value.id);
  }

  /** The folder being moved is always in its own set. */
  lemma ItemIsDescendant(m: map<string, FolderNode>, root: string)
    ensures Descends(m, root, root)
  {
    assert Chain(m, root, [root]);
  }

  // ---------------------------------------------------------------------
  // The set on a tree as getTree builds it.

  /** No id occurs twice among the nodes. */
  ghost predicate UniqueIds(f: seq<FolderNode>)
  {
    forall i, j :: 0 <= i < |f| && 0 <= j < |f| && f[i].id == f[j].id ==> i == j
  }

  /** The nesting and the parent links agree: ids are non-empty, each child
    * names its parent, and a node naming another node of the tree as its
    * parent is one of that node's children. */
  ghost predicate LinkedTree(f: seq<FolderNode>)
  {
    && (forall x :: x in f ==> x.id != "")
    && (forall x, c :: x in f && c in x.children ==> c.parentFolderId == Some(x.id))
    && (forall x, y :: x in f && y in f && y.parentFolderId == Some(x.id) ==> y in x.children)
  }

  /** A node of the flattened forest is a top node or lies below one. */
  lemma {:induction false} FlattenMember(nodes: seq<FolderNode>, d: FolderNode)
    requires d in Flatten(nodes)
    ensures exists i :: 0 <= i < |nodes| && (d == nodes[i] || d in Flatten(nodes[i].children))
    decreases |nodes|
  {
    if d != nodes[0] && d !in Flatten(nodes[0].children) {
      FlattenMember(nodes[1..], d);
      var i :| 0 <= i < |nodes[1..]| && (d == nodes[1..][i] || d in Flatten(nodes[1..][i].children));
      assert nodes[1..][i] == nodes[i + 1];
    }
  }

  /** Below a visited node, every node is visited. */
  lemma {:induction false} FlattenClosed(nodes: seq<FolderNode>, x: FolderNode)
    requires x in Flatten(nodes)
    ensures forall d :: d in Flatten(x.children) ==> d in Flatten(nodes)
    decreases nodes
  {
    FlattenMember(nodes, x);
    var i :| 0 <= i < |nodes| && (x == nodes[i] || x in Flatten(nodes[i].children));
    FlattenHasSubtrees(nodes, i);
    if x != nodes[i] {
      FlattenClosed(nodes[i].children, x);
    }
  }

  /** On a linked tree with unique ids, the map binds each id to its node. */
  lemma IndexOfTree(tree: seq<FolderNode>, x: FolderNode)
    requires UniqueIds(Flatten(tree)) && x in Flatten(tree)
    ensures x.id in Index(tree) && Index(tree)[x.id] == x
  {
    var f := Flatten(tree);
    var i :| 0 <= i < |f| && f[i] == x;
    forall j | i < j < |f| ensures f[j].id != f[i].id {
    }
    IndexedLast(map[], f, i);
  }

  /** Every folder nested below a node descends from it. */
  lemma {:induction false} NestedDescends(tree: seq<FolderNode>, x: FolderNode, d: FolderNode)
    requires UniqueIds(Flatten(tree)) && LinkedTree(Flatten(tree)) && x in Flatten(tree)
    requires d in Flatten(x.children)
    ensures Descends(Index(tree), x.id, d.id)
    decreases x
  {
    var m := Index(tree);
    FlattenMember(x.children, d);
    var i :| 0 <= i < |x.children| && (d == x.children[i] || d in Flatten(x.children[i].children));
    var c := x.children[i];
    ChildLinked(tree, x, i);
    if d == c {
      assert Chain(m, x.id, [x.id, c.id]);
    } else {
      NestedDescends(tree, c, d);
      DescendsFromParent(m, x.id, c.id, d.id);
    }
  }

  /** A child of a node of the tree is in the tree, and the map links it to
    * that node. */
  lemma ChildLinked(tree: seq<FolderNode>, x: FolderNode, i: nat)
    requires UniqueIds(Flatten(tree)) && LinkedTree(Flatten(tree)) && x in Flatten(tree)
    requires i < |x.children|
    ensures x.children[i] in Flatten(tree)
    ensures x.children[i].id in Index(tree) && ParentOf(Index(tree), x.children[i].id) == Some(x.id)
  {
    FlattenHasSubtrees(x.children, i);
    FlattenClosed(tree, x);
    IndexOfTree(tree, x.children[i]);
  }

  /** What descends from a key descends from the key's parent. */
  lemma DescendsFromParent(m: map<string, FolderNode>, root: string, mid: string, id: string)
    requires Descends(m, mid, id) && mid in m && ParentOf(m, mid) == Some(root)
    ensures Descends(m, root, id)
  {
    var chain :| Chain(m, mid, chain) && chain[|chain| - 1] == id;
    var longer := [root] + chain;
    forall k | 0 < k < |longer| ensures longer[k] in m && ParentOf(m, longer[k]) == Some(longer[k - 1]) {
      assert longer[k] == chain[k - 1];
      if k > 1 {
        assert longer[k - 1] == chain[k - 2];
      }
    }
    assert longer[|longer| - 1] == id;
  }

  /** Every id along a chain from a node is the id of a folder nested below
    * it. */
  lemma ChainStaysBelow(tree: seq<FolderNode>, x: FolderNode, c: seq<string>)
    requires LinkedTree(Flatten(tree)) && x in Flatten(tree) && Chain(Index(tree), x.id, c)
    ensures forall i :: 0 < i < |c| ==> exists d :: d in Flatten(x.children) && d.id == c[i]
  {
    forall i | 0 < i < |c| ensures exists d :: d in Flatten(x.children) && d.id == c[i] {
      var d := NodeAt(tree, x, c, i);
      assert d in Flatten(x.children) && d.id == c[i];
    }
  }

  /** The folder below `x` whose id is the chain's `i`-th entry. */
  lemma NodeAt(tree: seq<FolderNode>, x: FolderNode, c: seq<string>, i: nat) returns (d: FolderNode)
    requires LinkedTree(Flatten(tree)) && x in Flatten(tree) && Chain(Index(tree), x.id, c)
    requires 0 < i < |c|
    ensures d in Flatten(x.children) && d.id == c[i]
  {
    BelowAt(tree, x, c, i);
    d :| d in Flatten(x.children) && d.id == c[i];
  }

  lemma {:induction false} BelowAt(tree: seq<FolderNode>, x: FolderNode, c: seq<string>, i: nat)
    requires LinkedTree(Flatten(tree)) && x in Flatten(tree) && Chain(Index(tree), x.id, c)
    requires 0 < i < |c|
    ensures exists d :: d in Flatten(x.children) && d.id == c[i]
  {
    assert c[i] in Index(tree) && ParentOf(Index(tree), c[i]) == Some(c[i - 1]);
    if i == 1 {
      StepBelow(tree, x, x, c[i]);
    } else {
      BelowAt(tree, x, c, i - 1);
      var z :| z in Flatten(x.children) && z.id == c[i - 1];
      StepBelow(tree, x, z, c[i]);
    }
  }

  /** A key whose parent is `x` or a folder below `x` is itself below `x`. */
  lemma StepBelow(tree: seq<FolderNode>, x: FolderNode, z: FolderNode, id: string)
    requires LinkedTree(Flatten(tree)) && x in Flatten(tree)
    requires z == x || z in Flatten(x.children)
    requires id in Index(tree) && ParentOf(Index(tree), id) == Some(z.id)
    ensures exists d :: d in Flatten(x.children) && d.id == id
  {
    var y := Index(tree)[id];
    IndexInTree(tree, id);
    FlattenClosed(tree, x);
    assert z in Flatten(tree);
    assert y in z.children;
    var j :| 0 <= j < |z.children| && z.children[j] == y;
    FlattenHasSubtrees(z.children, j);
    if z != x {
      FlattenClosed(x.children, z);
    }
  }

  /** Each entry of the map is a node of the tree with that id. */
  lemma IndexInTree(tree: seq<FolderNode>, id: string)
    requires id in Index(tree)
    ensures Index(tree)[id] in Flatten(tree) && Index(tree)[id].id == id
  {
    IndexedValues(map[], Flatten(tree));
  }

  /** On a tree as getTree builds it, the set for a folder of the tree is
    * that folder and exactly the folders nested below it. */
  lemma DescendantsAreSubtree(tree: seq<FolderNode>, x: FolderNode)
    requires UniqueIds(Flatten(tree)) && LinkedTree(Flatten(tree)) && x in Flatten(tree)
    ensures forall id :: Descends(Index(tree), x.id, id) <==>
      id == x.id || exists d :: d in Flatten(x.children) && d.id == id
  {
    forall id ensures Descends(Index(tree), x.id, id) <==> id == x.id || exists d :: d in Flatten(x.children) && d.id == id {
      if Descends(Index(tree), x.id, id) {
        var c :| Chain(Index(tree), x.id, c) && c[|c| - 1] == id;
        ChainStaysBelow(tree, x, c);
      }
      if id == x.id {
        ItemIsDescendant(Index(tree), x.id);
      } else if exists d :: d in Flatten(x.children) && d.id == id {
        var d :| d in Flatten(x.children) && d.id == id;
        NestedDescends(tree, x, d);
      }
    }
  }

  // ---------------------------------------------------------------------
  // Disabled rows.

  /** `isDisabled`: a folder is being moved and the row's id is present,
    * non-empty and in the set. */
  predicate IsDisabled(item: Option<Item>, nodeId: Option<string>, descendantIds: set<string>)
  {
    item.Some? && item.value.kind == FolderItem && nodeId.Some? && nodeId.value != "" && nodeId.value in descendantIds
  }

  /** A click on a row: a disabled row leaves the selection as it was. */
  function Click(selected: Option<string>, nodeId: Option<string>, disabled: bool): (r: Option<string>)
    ensures disabled ==> r == selected
    ensures !disabled ==> r == nodeId
  {
    if disabled then selected else nodeId
  }

  /** When a folder is moved, exactly the rows of the set are disabled, and
    * no click selects one of them; when a file is moved, nothing is. */
  lemma DisabledRows(item: Option<Item>, tree: seq<FolderNode>, ids: set<string>, selected: Option<string>, nodeId: string)
    requires item.None? || item.value.kind == FileItem ==> ids == {}
    requires item.Some? && item.value.kind == FolderItem ==>
      forall id :: id in ids <==> Descends(Index(tree), item.value.id, id)
    requires nodeId != ""
    ensures IsDisabled(item, Some(nodeId), ids) <==>
      item.Some? && item.value.kind == FolderItem && Descends(Index(tree), item.value.id, nodeId)
    ensures var disabled := IsDisabled(item, Some(nodeId), ids);
      var after := Click(selected, Some(nodeId), disabled);
      after == Some(nodeId) ==> selected == Some(nodeId) || !disabled
    ensures item.Some? && item.value.kind == FolderItem && item.value.id != "" ==>
      IsDisabled(item, Some(item.value.id), ids)
  {
    if item.Some? && item.value.kind == FolderItem {
      ItemIsDescendant(Index(tree), item.value.id);
    }
  }

  // ---------------------------------------------------------------------
  // The search filter.

  /** `name.toLowerCase().includes(query.toLowerCase())`. */
  predicate NameMatches(name: string, query: string)
  {
    Includes(Lower(name), Lower(query))
  }

  /** `hasMatchingChild`: the node's name matches, or one below it does. */
  predicate HasMatchingChild(n: FolderNode, query: string)
    decreases n, 1
  {
    NameMatches(n.name, query) || SomeMatching(n.children, query)
  }

  /** `nodes.some(hasMatchingChild)`. */
  predicate SomeMatching(nodes: seq<FolderNode>, query: string)
    decreases nodes, 0
  {
    |nodes| > 0 && (HasMatchingChild(nodes[0], query) || SomeMatching(nodes[1..], query))
  }

  /** Whether a row is rendered: an empty query shows everything; the root
    * row (no id) is always shown; any other row is shown when its name or
    * one below it matches. */
  predicate Shown(nodeId: Option<string>, name: string, children: seq<FolderNode>, query: string)
  {
    !(query != "" && nodeId.Some? && !NameMatches(name, query)) || SomeMatching(children, query)
  }

  /** `nodes.some(hasMatchingChild)` holds exactly when some node of the
    * flattened forest matches. */
  lemma {:induction false} SomeMatchingIsFlatMatch(nodes: seq<FolderNode>, query: string)
    ensures SomeMatching(nodes, query) <==> exists d :: d in Flatten(nodes) && NameMatches(d.name, query)
    decreases nodes
  {
    if |nodes| > 0 {
      SomeMatchingIsFlatMatch(nodes[0].children, query);
      SomeMatchingIsFlatMatch(nodes[1..], query);
      var f := Flatten(nodes);
      assert f == [nodes[0]] + Flatten(nodes[0].children) + Flatten(nodes[1..]);
      if exists d :: d in f && NameMatches(d.name, query) {
        var d :| d in f && NameMatches(d.name, query);
        assert d == nodes[0] || d in Flatten(nodes[0].children) || d in Flatten(nodes[1..]);
      }
    }
  }

  /** The search shows exactly: every row for an empty query, the root row
    * always, and any other row whose name, or the name of some folder
    * below it, contains the query ignoring case. */
  lemma ShownIffMatchBelow(nodeId: Option<string>, name: string, children: seq<FolderNode>, query: string)
    ensures Shown(nodeId, name, children, query) <==>
      || query == "" || nodeId.None? || NameMatches(name, query)
      || exists d :: d in Flatten(children) && NameMatches(d.name, query)
  {
    SomeMatchingIsFlatMatch(children, query);
  }
}
