// What the two implementations of the folder operations share: their
// messages and listing result, the rename collision rule, the move checks of
// each, and the record of a recursive delete on the files observer.
module FolderRules {
  import opened Wrappers
  import opened Models
  import opened Query
  import opened Store
  import opened ApiErrors
  import opened Outcomes
  import opened Events
  import opened Hierarchy
  import opened FolderWalks

  const FolderNotFoundMessage := "Folder not found"
  const NameTakenMessage := "A file or folder with this name already exists in this directory"
  const IntoItselfMessage := "Cannot move folder into itself"
  const IntoSubfolderMessage := "Cannot move folder into its own subfolder"
  const DeletedMessage := "Folder and contents deleted"

  /** `{ folders, files, path }` of a folder listing. */
  datatype Contents = Contents(folders: seq<Node>, files: seq<Node>, path: seq<Crumb>)

  /** Whether renaming folder `n` to `name` clashes: any file in the same
    * folder, or another folder there, already has the name. */
  predicate FolderNameTaken(files: seq<Node>, folders: seq<Node>, n: Node, name: string)
  {
    || (exists x :: x in files && Collides(n.ownerId, n.parentFolderId, name, None, x))
    || (exists x :: x in folders && Collides(n.ownerId, n.parentFolderId, name, Some(n.id), x))
  }

  /** What the facade's rename of the found folder `n` answers: the clash
    * error, or the record with the new name (the update runs no schema
    * validation, so an empty name is written as it is). */
  function FacadeRenamed(files: seq<Node>, folders: seq<Node>, n: Node, name: string, now: nat): (r: Outcome<Option<Node>>)
    ensures r.Err? <==> FolderNameTaken(files, folders, n, name)
    ensures r.Err? ==> r.error == Api(BadRequest(NameTakenMessage))
    ensures r.Ok? ==> r.value.Some? && r.value.value == n.(name := name, updatedAt := now)
  {
    if FolderNameTaken(files, folders, n, name) then Err(Api(BadRequest(NameTakenMessage)))
    else Ok(Some(ApplyPatch(n, Patch(Some(name), None), now)))
  }

  /** What the service's rename of the found folder `n` answers: `save()`
    * after setting the name, so validation and the unique index decide; the
    * same name modifies nothing, so the record stays as it was. */
  function ServiceRenamed(folders: seq<Node>, n: Node, name: string, now: nat): (r: Outcome<Node>)
    ensures r.Ok? ==> r.value == if name == n.name then n else n.(name := name, updatedAt := now)
    ensures name == n.name && Validates(n) ==> r == Ok(n)
    ensures r.Err? ==> r.error.Db?
  {
    var m := n.(name := name, updatedAt := now);
    if !Validates(n.(name := name)) then Err(Db(ValidationFailed))
    else if name == n.name then Ok(n)
    else if !SlotFree(folders, m) then Err(Db(DuplicateKey))
    else Ok(m)
  }

  /** Among stored folders, the folder half of the facade's clash check is
    * exactly the unique index's verdict on the renamed record. */
  lemma FolderClashIsIndexClash(folders: seq<Node>, n: Node, name: string, now: nat)
    requires CollectionOk(folders, Folders) && n in folders
    ensures (exists x :: x in folders && Collides(n.ownerId, n.parentFolderId, name, Some(n.id), x))
        <==> !SlotFree(folders, n.(name := name, updatedAt := now))
  {
    var m := n.(name := name, updatedAt := now);
    assert ParentRef(n.parentFolderId) == n.parentFolderId;
    if !SlotFree(folders, m) {
      var x :| x in folders && x.id != m.id && KeyOf(x) == KeyOf(m);
      assert Collides(n.ownerId, n.parentFolderId, name, Some(n.id), x);
    }
  }

  /** The two renames compared: whatever the facade writes under a non-empty
    * new name the service writes too, while under the current name the
    * facade still sets a new update time and the service writes nothing; of
    * the renames the service accepts the facade refuses exactly those where a
    * file already has the name. */
  lemma RenamesCompared(files: seq<Node>, folders: seq<Node>, n: Node, name: string, now: nat)
    requires CollectionOk(folders, Folders) && n in folders
    ensures FacadeRenamed(files, folders, n, name, now).Ok? && name != "" ==>
      ServiceRenamed(folders, n, name, now)
        == Ok(if name == n.name then n else FacadeRenamed(files, folders, n, name, now).value.value)
    ensures ServiceRenamed(folders, n, name, now).Ok? ==>
      (FacadeRenamed(files, folders, n, name, now).Err? <==>
        exists x :: x in files && Collides(n.ownerId, n.parentFolderId, name, None, x))
    ensures FacadeRenamed(files, folders, n, name, now).Ok? ==> SlotFree(folders, n.(name := name, updatedAt := now))
  {
    FolderClashIsIndexClash(folders, n, name, now);
    assert n.IsFolder();
  }

  /** The facade's checks before a move, in its order; None lets the move
    * through. The upward walk only runs for a non-empty destination. */
  ghost function FacadeMoveRefusal(pm: ParentMap, f: Id, newParentId: Option<string>): Option<ApiError>
  {
    if newParentId == Some(f) then Some(BadRequest(IntoItselfMessage))
    else if ParentRef(newParentId).Some? && Reaches(pm, ParentRef(newParentId), f) then Some(BadRequest(IntoSubfolderMessage))
    else None
  }

  /** The service's single check before a move. */
  function ServiceMoveRefusal(f: Id, newParentId: Option<string>): (e: Option<ApiError>)
    ensures e.Some? <==> newParentId == Some(f)
    ensures e.Some? ==> e.value.status == 400 && e.value.message == IntoItselfMessage
  {
    if newParentId == Some(f) then Some(BadRequest(IntoItselfMessage)) else None
  }

  /** What the service's move of the found folder `n` answers: its check,
    * then `save()` with the new parent, so validation and the unique index
    * decide; the current parent modifies nothing, so the record stays as it
    * was. */
  function ServiceMoved(folders: seq<Node>, n: Node, newParentId: Option<string>, now: nat): (r: Outcome<Node>)
    ensures newParentId == Some(n.id) ==> r == Err(Api(BadRequest(IntoItselfMessage)))
    ensures r.Ok? ==> (r.value == if ParentRef(newParentId) == n.parentFolderId then n
                                   else n.(parentFolderId := ParentRef(newParentId), updatedAt := now))
    ensures newParentId != Some(n.id) && ParentRef(newParentId) == n.parentFolderId && Validates(n) ==> r == Ok(n)
  {
    var refusal := ServiceMoveRefusal(n.id, newParentId);
    var m := n.(parentFolderId := ParentRef(newParentId), updatedAt := now);
    if refusal.Some? then Err(Api(refusal.value))
    else if !Validates(n) then Err(Db(ValidationFailed))
    else if ParentRef(newParentId) == n.parentFolderId then Ok(n)
    else if !SlotFree(folders, m) then Err(Db(DuplicateKey))
    else Ok(m)
  }

  /** The facade's checks let a move through exactly when the re-parented
    * hierarchy stays free of cycles. */
  lemma FacadeMoveRuleIsExact(pm: ParentMap, f: Id, newParentId: Option<string>)
    requires Acyclic(pm) && f in pm && f != ""
    ensures FacadeMoveRefusal(pm, f, newParentId).None? <==> Acyclic(pm[f := ParentRef(newParentId)])
  {
    var np := ParentRef(newParentId);
    MoveRuleIsExact(pm, f, np);
    if np.None? {
      forall k: nat ensures Up(pm, np, k) != Some(f) {
        UpNoneStays(pm, k);
      }
    }
  }

  /** The service's check is not enough: with `b` inside `a`, it lets `a`
    * move into `b`, and the hierarchy then has the cycle a -> b -> a. */
  lemma ServiceMoveCanCycle()
    ensures var pm := map["a" := None, "b" := Some("a")];
      && Acyclic(pm)
      && ServiceMoveRefusal("a", Some("b")).None?
      && !Acyclic(pm[("a") := ParentRef(Some("b"))])
  {
    var pm: ParentMap := map["a" := None, "b" := Some("a")];
    forall x, k | x in pm && 0 < k ensures Up(pm, Some(x), k) != Some(x) {
      if x == "a" {
        UpAdd(pm, Some(x), 1, k - 1);
        UpNoneStays(pm, k - 1);
      } else if k == 1 {
      } else {
        UpAdd(pm, Some(x), 2, k - 2);
        assert Up(pm, Some(x), 2) == None;
        UpNoneStays(pm, k - 2);
      }
    }
    var pm2 := pm["a" := ParentRef(Some("b"))];
    assert Up(pm2, Some("a"), 2) == Some("a");
  }

  /** The same on stored records: folder `b` inside folder `a`, the
    * service's move of `a` into `b` succeeds, and the owner's hierarchy
    * afterwards has a cycle. */
  lemma ServiceMoveStoresCycle()
    ensures var a := Node("a", "u", "A", None, 0, 0, FolderBody);
      var b := Node("b", "u", "B", Some("a"), 0, 0, FolderBody);
      var r := ServiceMoved([a, b], a, Some("b"), 1);
      && CollectionOk([a, b], Folders)
      && Acyclic(ParentsOf([a, b], "u"))
      && r.Ok?
      && !Acyclic(ParentsOf(ReplaceId([a, b], "a", r.value), "u"))
  {
    PairBeforeMove();
    PairAfterMove();
    ServiceMoveCanCycle();
  }

  /** Folder `b` inside folder `a`, as stored records. */
  lemma PairBeforeMove()
    ensures var a := Node("a", "u", "A", None, 0, 0, FolderBody);
      var b := Node("b", "u", "B", Some("a"), 0, 0, FolderBody);
      && CollectionOk([a, b], Folders)
      && ParentsOf([a, b], "u") == map["a" := None, "b" := Some("a")]
  {
    var a := Node("a", "u", "A", None, 0, 0, FolderBody);
    var b := Node("b", "u", "B", Some("a"), 0, 0, FolderBody);
    var s := [a, b];
    assert CollectionOk(s, Folders) by {
      forall i, j | 0 <= i < j < |s| ensures s[i].id != s[j].id && KeyOf(s[i]) != KeyOf(s[j]) {
        assert i == 0 && j == 1;
      }
    }
    assert s[1..] == [b] && [b][1..] == [];
    assert Table([b], "u") == map["b" := b];
    assert Table(s, "u") == map["b" := b]["a" := a];
  }

  /** The service's move of `a` into `b` succeeds and re-parents `a`. */
  lemma PairAfterMove()
    ensures var a := Node("a", "u", "A", None, 0, 0, FolderBody);
      var b := Node("b", "u", "B", Some("a"), 0, 0, FolderBody);
      var m := a.(parentFolderId := Some("b"), updatedAt := 1);
      && ServiceMoved([a, b], a, Some("b"), 1) == Ok(m)
      && ParentsOf(ReplaceId([a, b], "a", m), "u") == map["a" := None, "b" := Some("a")][("a") := Some("b")]
  {
    var a := Node("a", "u", "A", None, 0, 0, FolderBody);
    var b := Node("b", "u", "B", Some("a"), 0, 0, FolderBody);
    var s := [a, b];
    var m := a.(parentFolderId := Some("b"), updatedAt := 1);
    assert SlotFree(s, m) by {
      forall x | x in s && x.id != m.id ensures KeyOf(x) != KeyOf(m) {
        assert x == b;
      }
    }
    var s2 := ReplaceId(s, "a", m);
    assert s2 == [m, b];
    assert s2[1..] == [b] && [b][1..] == [];
    assert Table([b], "u") == map["b" := b];
    assert Table(s2, "u") == map["b" := b]["a" := m];
  }

  /** The events a recursive delete emits, as a set per kind. */
  function DeletedFolderIds(evs: seq<(EventType, EventData)>): set<Id>
  {
    set e | e in evs && e.0 == FolderDeleted && e.1.FolderRef? :: e.1.folderId
  }

  function DeletedFileIds(evs: seq<(EventType, EventData)>): set<Id>
  {
    set e | e in evs && e.0 == FileDeleted && e.1.FileRef? :: e.1.fileId
  }

  /** Every event is a folder or file deletion of the owner's. */
  predicate OnlyDeletions(evs: seq<(EventType, EventData)>, owner: Id)
  {
    forall e :: e in evs ==>
      || (e.0 == FolderDeleted && e.1.FolderRef? && e.1.ownerId == owner)
      || (e.0 == FileDeleted && e.1.FileRef? && e.1.ownerId == owner)
  }

  /** No event occurs twice. */
  predicate NoRepeats(evs: seq<(EventType, EventData)>)
  {
    forall i, j :: 0 <= i < j < |evs| ==> evs[i] != evs[j]
  }

  /** `later` extends `earlier` and what it adds deletes exactly these
    * folders and files, with no event repeated: since each event names
    * the deleted id, there is one event for each of them. */
  predicate DeletionLog(earlier: seq<(EventType, EventData)>, later: seq<(EventType, EventData)>, owner: Id,
                        folders: set<Id>, files: set<Id>)
  {
    && |earlier| <= |later| && later[..|earlier|] == earlier
    && OnlyDeletions(later[|earlier|..], owner)
    && DeletedFolderIds(later[|earlier|..]) == folders
    && DeletedFileIds(later[|earlier|..]) == files
    && NoRepeats(later[|earlier|..])
  }

  /** Two deletion logs one after the other, over disjoint sets, make one. */
  lemma DeletionLogsChain(a: seq<(EventType, EventData)>, b: seq<(EventType, EventData)>, c: seq<(EventType, EventData)>,
                          owner: Id, f1: set<Id>, g1: set<Id>, f2: set<Id>, g2: set<Id>)
    requires DeletionLog(a, b, owner, f1, g1) && DeletionLog(b, c, owner, f2, g2)
    requires f1 !! f2 && g1 !! g2
    ensures DeletionLog(a, c, owner, f1 + f2, g1 + g2)
  {
    assert c[..|a|] == b[..|a|];
    assert c[|a|..] == b[|a|..] + c[|b|..];
    var d, x, y := c[|a|..], b[|a|..], c[|b|..];
    forall e ensures e in d <==> e in x || e in y { }
    forall i, j | 0 <= i < j < |d| ensures d[i] != d[j] {
      if j < |x| {
        assert d[i] == x[i] && d[j] == x[j];
      } else if i >= |x| {
        assert d[i] == y[i - |x|] && d[j] == y[j - |x|];
      } else {
        var e, e' := x[i], y[j - |x|];
        assert e in x && e' in y && d[i] == e && d[j] == e';
        if e.0 == FolderDeleted {
          assert e.1.folderId in f1;
          if e'.0 == FolderDeleted { assert e'.1.folderId in f2; }
        } else {
          assert e.1.fileId in g1;
          if e'.0 == FileDeleted { assert e'.1.fileId in g2; }
        }
      }
    }
  }

  /** An emitted deletion event extends a log by itself. */
  lemma DeletionLogOne(a: seq<(EventType, EventData)>, e: (EventType, EventData), owner: Id)
    requires || (e.0 == FolderDeleted && e.1.FolderRef? && e.1.ownerId == owner)
             || (e.0 == FileDeleted && e.1.FileRef? && e.1.ownerId == owner)
    ensures DeletionLog(a, a + [e], owner,
      if e.0 == FolderDeleted then {e.1.folderId} else {},
      if e.0 == FileDeleted then {e.1.fileId} else {})
  {
    assert (a + [e])[|a|..] == [e];
  }

  lemma DeletionLogEmpty(a: seq<(EventType, EventData)>, owner: Id)
    ensures DeletionLog(a, a, owner, {}, {})
  {
    assert a[|a|..] == [];
  }
}
