/** Why a batch needs each of its locks, and what holding them keeps peers from doing
    (api/locking.py). */
module LockNeeds {
  import opened Collections
  import opened Model
  import opened ModelOps
  import opened Locking
  import opened LockScope
  import opened RequiredLocks
  import opened LeaseRuns
  import LockFootprints

  // ---- why a lock is needed ----------------------------------------------------------------

  /** A relationship op on a relationship that leaves the element. */
  predicate OnRelationshipFrom(m: Model, rel: Id, element: Id) {
    rel in m.relationships && m.relationships[rel].source == element
  }

  /** The op puts something into the container, or takes something out. */
  ghost predicate Moves(views: Views, op: Op, view: Id, folder: Id) {
    || op == Place(view, folder) || op == Remove(view, folder)
    || (op.MoveItem? && op.view == view && folder in {op.fromFolder, op.toFolder})
    || (op.MoveFolder? && op.view == view && folder == op.toParent)
    || (op.MoveFolder? && op.view == view && view in views && ParentAmong(VIEW_ROOT_ID, views[view].folders, op.id) == Some(folder))
  }

  /** An exclusive edit lock: the element or artifact itself, the element a relationship
      leaves, a folder's own name, a container, or the metamodel. */
  ghost predicate EditsAt(m: Model, views: Views, op: Op, r: Id) {
    match op
    case OnModel(UpdateElement(id, _)) => r == id
    case OnModel(UpdateRelationship(id, _)) => OnRelationshipFrom(m, id, r)
    case UpdateArtifact(id) => r == ARTIFACT_PREFIX + id
    case RenameFolder(_, id) => r == FOLDER_PREFIX + id
    case OnMetamodel => r == METAMODEL_RESOURCE
    case _ => exists view, folder :: Moves(views, op, view, folder) && r == ContainerResource(view, folder)
  }

  /** An exclusive delete lock: whatever goes, and the element a relationship leaves. */
  ghost predicate DeletesAt(mm: Metamodel, m: Model, views: Views, op: Op, r: Id) {
    match op
    case OnModel(DeleteElement(id)) => r in Subtree(mm, m, id)
    case OnModel(DeleteRelationship(id)) => OnRelationshipFrom(m, id, r)
    case DeleteArtifact(id) => r == ARTIFACT_PREFIX + id
    case DeleteFolder(view, id) => exists folder :: folder in FolderSubtree(Lookup(views, view), id) && r == FOLDER_PREFIX + folder
    case _ => false
  }

  /** The op asks for the lock. Only the far end of a new relationship is shared. */
  ghost predicate AsksFor(mm: Metamodel, m: Model, views: Views, op: Op, l: RequiredLock) {
    match l.intent
    case Edit => l.mode == Exclusive && EditsAt(m, views, op, l.resource)
    case Delete => l.mode == Exclusive && DeletesAt(mm, m, views, op, l.resource)
    case CreateChild => l.mode == Exclusive && op.CreateFolder? && l.resource == ContainerResource(op.view, op.parent)
    case Connect =>
      && op.OnModel? && op.op.CreateRelationship?
      && l.resource == match l.mode case Exclusive => op.op.source case Shared => op.op.target
  }

  /** The op gives a new thing this lock name. */
  predicate Creates(op: Op, r: Id) {
    || (op.OnModel? && (op.op.CreateElement? || op.op.CreateRelationship?) && op.op.tempId == r)
    || (op.CreateArtifact? && ARTIFACT_PREFIX + op.tempId == r)
    || (op.CreateFolder? && FOLDER_PREFIX + op.tempId == r)
  }

  lemma {:induction false} CreatedExactly(ops: seq<Op>, r: Id)
    ensures r in CreatedBy(ops) <==> exists op :: op in ops && Creates(op, r)
  {
    if ops != [] {
      var n := |ops| - 1;
      CreatedExactly(ops[..n], r);
      assert forall op :: op in ops <==> op in ops[..n] || op == ops[n];
      assert r in Created(ops[n]) <==> Creates(ops[n], r);
    }
  }

  lemma NeedsAsked(mm: Metamodel, m: Model, views: Views, op: Op, l: RequiredLock)
    ensures l in Needs(mm, m, views, op) <==> AsksFor(mm, m, views, op, l)
  {
    hide Subtree, ContainerResource, ParentAmong, FolderSubtree;
    match op
    case DeleteFolder(view, id) =>
      var folders := FolderSubtree(Lookup(views, view), id);
      FoldersNamed(folders, l.resource);
    case MoveFolder(view, id, to) =>
      ContainersMoved(views, op, l.resource);
    case MoveItem(view, source, to) =>
      ContainersMoved(views, op, l.resource);
    case Place(view, folder) => ContainersMoved(views, op, l.resource);
    case Remove(view, folder) => ContainersMoved(views, op, l.resource);
    case _ =>
  }

  lemma FoldersNamed(folders: seq<Id>, r: Id)
    ensures r in SetOf(FolderResources(folders)) <==> exists folder :: folder in folders && r == FOLDER_PREFIX + folder
  {
    var all := FolderResources(folders);
    if r in SetOf(all) {
      var i :| 0 <= i < |all| && all[i] == r;
      assert folders[i] in folders;
    }
    if folder :| folder in folders && r == FOLDER_PREFIX + folder {
      var i :| 0 <= i < |folders| && folders[i] == folder;
      assert all[i] == r;
    }
  }

  lemma ContainersMoved(views: Views, op: Op, r: Id)
    ensures op.Place? || op.Remove? ==>
      ((exists view, folder :: Moves(views, op, view, folder) && r == ContainerResource(view, folder)) <==> r == ContainerResource(op.view, op.folder))
    ensures op.MoveItem? ==>
      ((exists view, folder :: Moves(views, op, view, folder) && r == ContainerResource(view, folder))
       <==> r in {ContainerResource(op.view, op.fromFolder), ContainerResource(op.view, op.toFolder)})
    ensures op.MoveFolder? ==>
      ((exists view, folder :: Moves(views, op, view, folder) && r == ContainerResource(view, folder))
       <==> r in MoveFolderContainers(views, op.view, op.id, op.toParent))
  {
    hide ContainerResource, ParentAmong;
    match op
    case Place(view, folder) => assert Moves(views, op, view, folder);
    case Remove(view, folder) => assert Moves(views, op, view, folder);
    case MoveItem(view, source, to) => assert Moves(views, op, view, source) && Moves(views, op, view, to);
    case MoveFolder(view, id, to) =>
      assert Moves(views, op, view, to);
      if view in views && ParentAmong(VIEW_ROOT_ID, views[view].folders, id).Some? {
        assert Moves(views, op, view, ParentAmong(VIEW_ROOT_ID, views[view].folders, id).value);
      }
    case _ =>
  }

  ghost predicate DueAt(mm: Metamodel, m: Model, views: Views, ops: seq<Op>, i: nat, l: RequiredLock)
    requires i < |ops|
  {
    AsksFor(mm, m, views, ops[i], l) && forall j :: 0 <= j <= i ==> !Creates(ops[j], l.resource)
  }

  /** A batch needs exactly the locks that some op of it asks for, but for temporary ids
      and for what an op up to that one creates. */
  lemma {:induction false} RequiredExactly(mm: Metamodel, m: Model, views: Views, ops: seq<Op>, l: RequiredLock)
    ensures l in Required(mm, m, views, ops) <==> !IsReserved(l.resource) && exists i :: 0 <= i < |ops| && DueAt(mm, m, views, ops, i, l)
  {
    hide AsksFor, Creates, IsReserved, Needs, Created;
    if ops != [] {
      var n := |ops| - 1;
      RequiredExactly(mm, m, views, ops[..n], l);
      NeedsAsked(mm, m, views, ops[n], l);
      CreatedExactly(ops, l.resource);
      forall i | 0 <= i < n ensures DueAt(mm, m, views, ops[..n], i, l) <==> DueAt(mm, m, views, ops, i, l) {
        assert forall j :: 0 <= j <= i ==> ops[..n][j] == ops[j];
      }
      assert DueAt(mm, m, views, ops, n, l) <==> l in Needs(mm, m, views, ops[n]) && l.resource !in CreatedBy(ops);
    }
  }

  // ---- what holding them keeps peers from doing ---------------------------------------------

  /** While a batch that connects two existing elements passes the lock check, no peer's
      delete request that would take either end with it is granted, unless it steals. */
  lemma ConnectHoldsOffDelete(mm: Metamodel, m: Model, views: Views, t: Table, now: real, holder: Id, tokens: seq<string>, ops: seq<Op>,
      op: ModelOp, end: Id, peer: Id, targets: seq<Target>, reqs: seq<RequiredLock>, root: Id)
    requires LockFootprints.AllHeld(t, holder, tokens, Required(mm, m, views, ops), now)
    requires OnModel(op) in ops && op.CreateRelationship? && end in {op.source, op.target}
    requires !IsReserved(end) && forall o :: o in ops ==> !Creates(o, end)
    requires peer != holder && Target(root, Exclusive) in targets && IsModelResource(root) && end in Subtree(mm, m, root)
    requires SetOf(reqs) == Expansion(mm, m, views, targets, Delete)
    ensures Conflicts(t, peer, reqs, now) != []
  {
    hide Required, Needs, IsReserved, Subtree, Expansion, Conflicts, Creates, Live, Acquired;
    var l := RequiredLock(end, if end == op.source then Exclusive else Shared, Connect);
    var i :| 0 <= i < |ops| && ops[i] == OnModel(op);
    assert DueAt(mm, m, views, ops, i, l);
    RequiredExactly(mm, m, views, ops, l);
    HeldMeans(t, holder, tokens, l, now);
    var le :| le in On(t, end) && Passes(le, holder, tokens, l.mode, now);
    PinsBlockDelete(mm, m, views, targets, reqs, root, t, peer, end, le, now);
  }

  /** Two holders' batches that both pass the lock check do not change one artifact, one
      folder, one container or the metamodel between them, but for what they create. */
  lemma OneWriter(mm: Metamodel, m: Model, views: Views, t: Table, now: real,
      a: Id, aTokens: seq<string>, aOps: seq<Op>, b: Id, bTokens: seq<string>, bOps: seq<Op>, x: Op, y: Op, r: Id)
    requires Exclusion(t) && a != b
    requires LockFootprints.AllHeld(t, a, aTokens, Required(mm, m, views, aOps), now)
    requires LockFootprints.AllHeld(t, b, bTokens, Required(mm, m, views, bOps), now)
    requires x in aOps && y in bOps && !IsReserved(r) && forall op :: op in aOps + bOps ==> !Creates(op, r)
    ensures !(Uses(mm, m, views, x, r) && Uses(mm, m, views, y, r))
  {
    hide Required, Needs, IsReserved, Exclusion, LockFootprints.AllHeld, Creates, EditsAt, DeletesAt, LockFootprints.ExclusiveIds;
    CreatedExactly(aOps, r);
    CreatedExactly(bOps, r);
    LockFootprints.DisjointFootprints(mm, m, views, t, now, a, aTokens, aOps, b, bTokens, bOps, x, y, r);
    UsesExclusively(mm, m, views, x, r);
    UsesExclusively(mm, m, views, y, r);
  }

  ghost predicate Uses(mm: Metamodel, m: Model, views: Views, op: Op, r: Id) {
    || EditsAt(m, views, op, r) || DeletesAt(mm, m, views, op, r)
    || (op.CreateFolder? && r == ContainerResource(op.view, op.parent))
    || (op.OnModel? && op.op.CreateRelationship? && r == op.op.source)
  }

  lemma UsesExclusively(mm: Metamodel, m: Model, views: Views, op: Op, r: Id)
    ensures Uses(mm, m, views, op, r) ==> r in LockFootprints.ExclusiveIds(Needs(mm, m, views, op))
  {
    hide Needs, EditsAt, DeletesAt;
    forall intent: LockIntent ensures AsksFor(mm, m, views, op, RequiredLock(r, Exclusive, intent)) ==>
      r in LockFootprints.ExclusiveIds(Needs(mm, m, views, op))
    {
      NeedsAsked(mm, m, views, op, RequiredLock(r, Exclusive, intent));
    }
    assert EditsAt(m, views, op, r) ==> AsksFor(mm, m, views, op, RequiredLock(r, Exclusive, Edit));
    assert DeletesAt(mm, m, views, op, r) ==> AsksFor(mm, m, views, op, RequiredLock(r, Exclusive, Delete));
    assert op.CreateFolder? && r == ContainerResource(op.view, op.parent) ==> AsksFor(mm, m, views, op, RequiredLock(r, Exclusive, CreateChild));
    assert op.OnModel? && op.op.CreateRelationship? && r == op.op.source ==> AsksFor(mm, m, views, op, RequiredLock(r, Exclusive, Connect));
  }
}
