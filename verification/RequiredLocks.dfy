/** Lock requests and op batches turned into required locks (api/locking.py). */
module RequiredLocks {
  import opened Collections
  import opened Graph
  import opened Model
  import opened ModelOps
  import opened Locking
  import opened LockScope
  import LeaseRuns

  datatype Op =
    | OnModel(op: ModelOp)
    | CreateArtifact(tempId: Id)
    | UpdateArtifact(id: Id)
    | DeleteArtifact(id: Id)
    | CreateFolder(view: Id, tempId: Id, parent: Id)
    | RenameFolder(view: Id, id: Id)
    | MoveFolder(view: Id, id: Id, toParent: Id)
    | DeleteFolder(view: Id, id: Id)
    | Place(view: Id, folder: Id)
    | Remove(view: Id, folder: Id)
    | MoveItem(view: Id, fromFolder: Id, toFolder: Id)
    | OnMetamodel

  function Locks(ids: set<Id>, mode: LockMode, intent: LockIntent): set<RequiredLock> {
    set id | id in ids :: RequiredLock(id, mode, intent)
  }

  function FolderResources(ids: seq<Id>): seq<Id> {
    seq(|ids|, i requires 0 <= i < |ids| => FOLDER_PREFIX + ids[i])
  }

  // ---- a lock request ----------------------------------------------------------------------

  datatype Target = Target(resource: Id, mode: LockMode)

  /** Folder ids are unique across a project's views. */
  ghost predicate FoldersUnique(views: Views) {
    forall v, w, f :: Owns(views, v, f) && Owns(views, w, f) ==> v == w
  }

  ghost function Owner(views: Views, folder: Id): Option<View> {
    if v :| Owns(views, v, folder) then Some(views[v]) else None
  }

  /** An exclusive delete takes the whole subtree, anything else the resource itself. */
  ghost function TargetIds(mm: Metamodel, m: Model, views: Views, t: Target, intent: LockIntent): set<Id> {
    if intent != Delete || t.mode != Exclusive then {t.resource}
    else if IsModelResource(t.resource) then Subtree(mm, m, t.resource)
    else if FOLDER_PREFIX <= t.resource then
      var bare := t.resource[|FOLDER_PREFIX|..];
      SetOf(FolderResources(FolderSubtree(Owner(views, bare), bare)))
    else {t.resource}
  }

  ghost function Expansion(mm: Metamodel, m: Model, views: Views, targets: seq<Target>, intent: LockIntent): set<RequiredLock> {
    if targets == [] then {} else
    var t := targets[|targets| - 1];
    Expansion(mm, m, views, targets[..|targets| - 1], intent) + Locks(TargetIds(mm, m, views, t, intent), t.mode, intent)
  }

  function AddOnce(reqs: seq<RequiredLock>, l: RequiredLock): (more: seq<RequiredLock>)
    ensures SetOf(more) == SetOf(reqs) + {l}
    ensures Distinct(reqs) ==> Distinct(more)
  {
    assert SetOf(reqs + [l]) == SetOf(reqs) + {l};
    if l in reqs then reqs else reqs + [l]
  }

  method AddEach(reqs: seq<RequiredLock>, ids: seq<Id>, mode: LockMode, intent: LockIntent) returns (more: seq<RequiredLock>)
    requires Distinct(reqs)
    ensures Distinct(more) && SetOf(more) == SetOf(reqs) + Locks(SetOf(ids), mode, intent)
  {
    more := reqs;
    for i := 0 to |ids|
      invariant Distinct(more) && SetOf(more) == SetOf(reqs) + Locks(SetOf(ids[..i]), mode, intent)
    {
      assert SetOf(ids[..i + 1]) == SetOf(ids[..i]) + {ids[i]} by { assert ids[..i + 1] == ids[..i] + [ids[i]]; }
      more := AddOnce(more, RequiredLock(ids[i], mode, intent));
    }
    assert ids[..|ids|] == ids;
  }

  method MembersOf(mm: Metamodel, m: Model, views: Views, t: Target, intent: LockIntent) returns (ids: seq<Id>)
    requires FoldersUnique(views)
    ensures SetOf(ids) == TargetIds(mm, m, views, t, intent)
  {
    hide Subtree, PreorderAll, FirstWithId;
    if intent == Delete && t.mode == Exclusive {
      if IsModelResource(t.resource) {
        ids := ContainmentSubtree(mm, m, t.resource);
        return;
      }
      if FOLDER_PREFIX <= t.resource {
        var bare := t.resource[|FOLDER_PREFIX|..];
        var view := OwningView(views, bare);
        OwnerFound(views, bare, view);
        var folders := FolderSubtreeIds(view, bare);
        return FolderResources(folders);
      }
    }
    ids := [t.resource];
  }

  lemma OwnerFound(views: Views, folder: Id, r: Option<View>)
    requires FoldersUnique(views)
    requires r.Some? ==> exists v :: Owns(views, v, folder) && views[v] == r.value
    requires r.None? ==> forall v :: !Owns(views, v, folder)
    ensures r == Owner(views, folder)
  {
  }

  method ExpandTargets(mm: Metamodel, m: Model, views: Views, targets: seq<Target>, intent: LockIntent) returns (reqs: seq<RequiredLock>)
    requires FoldersUnique(views)
    ensures Distinct(reqs) && SetOf(reqs) == Expansion(mm, m, views, targets, intent)
  {
    hide TargetIds, Distinct, Locks;
    reqs := [];
    NoLocksYet();
    for i := 0 to |targets|
      invariant Distinct(reqs) && SetOf(reqs) == Expansion(mm, m, views, targets[..i], intent)
    {
      assert targets[..i + 1][..i] == targets[..i];
      var ids := MembersOf(mm, m, views, targets[i], intent);
      reqs := AddEach(reqs, ids, targets[i].mode, intent);
    }
    assert targets[..|targets|] == targets;
  }

  lemma NoLocksYet()
    ensures Distinct<RequiredLock>([]) && SetOf<RequiredLock>([]) == {}
  {
  }

  lemma {:induction false} ExpandedMember(mm: Metamodel, m: Model, views: Views, targets: seq<Target>, intent: LockIntent, t: Target, id: Id)
    requires t in targets && id in TargetIds(mm, m, views, t, intent)
    ensures RequiredLock(id, t.mode, intent) in Expansion(mm, m, views, targets, intent)
  {
    hide TargetIds;
    var n := |targets| - 1;
    if targets[n] != t {
      assert t in targets[..n];
      ExpandedMember(mm, m, views, targets[..n], intent, t, id);
    }
  }

  /** Pins block a subtree delete: while a peer holds any live lease, even a shared one,
      on any member of the subtree, a delete request on its root that does not steal is
      refused whole, grants nothing, and leaves every live lease as it was. */
  lemma PinsBlockDelete(mm: Metamodel, m: Model, views: Views, targets: seq<Target>, reqs: seq<RequiredLock>, root: Id, table: Table,
      holder: Id, member: Id, pin: Lease, now: real)
    requires Target(root, Exclusive) in targets && IsModelResource(root) && member in Subtree(mm, m, root)
    requires SetOf(reqs) == Expansion(mm, m, views, targets, Delete)
    requires pin in On(table, member) && pin.expiresAt > now && pin.holder != holder
    ensures Conflicts(table, holder, reqs, now) != []
    ensures forall ttl, token, email, rid ::
      Live(On(Acquired(table, holder, reqs, now, ttl, token, false, email), rid), now) == Live(On(table, rid), now)
  {
    hide Subtree, Expansion, Conflicts, Live, CompactAll, Grant, Evict;
    ExpandedMember(mm, m, views, targets, Delete, Target(root, Exclusive), member);
    var req := RequiredLock(member, Exclusive, Delete);
    assert req in SetOf(reqs) && LeaseRuns.InTheWay(table, holder, req, pin, now);
    LeaseRuns.RefusedIff(table, holder, reqs, now);
    forall rid ensures Live(On(CompactAll(table, reqs, now), rid), now) == Live(On(table, rid), now) {
      CompactionKeepsLive(table, reqs, now, rid);
    }
  }

  // ---- the locks of a batch --------------------------------------------------------------------

  function Created(op: Op): set<Id> {
    match op
    case OnModel(CreateElement(temp, _, _, _)) => {temp}
    case OnModel(CreateRelationship(temp, _, _, _, _, _)) => {temp}
    case CreateArtifact(temp) => {ARTIFACT_PREFIX + temp}
    case CreateFolder(_, temp, _) => {FOLDER_PREFIX + temp}
    case _ => {}
  }

  /** A relationship is locked through its source. */
  function SourceLock(m: Model, rel: Id, intent: LockIntent): set<RequiredLock> {
    if rel in m.relationships then {RequiredLock(m.relationships[rel].source, Exclusive, intent)} else {}
  }

  function MoveFolderContainers(views: Views, view: Id, folder: Id, toParent: Id): set<Id> {
    (if view !in views then {} else
     var parent := ParentAmong(VIEW_ROOT_ID, views[view].folders, folder);
     if parent.None? then {} else {ContainerResource(view, parent.value)})
    + {ContainerResource(view, toParent)}
  }

  /** What an op touches, judged on the model and the views before the batch. */
  ghost function Needs(mm: Metamodel, m: Model, views: Views, op: Op): set<RequiredLock> {
    match op
    case OnModel(CreateElement(_, _, _, _)) => {}
    case OnModel(CreateRelationship(_, _, source, target, _, _)) =>
      {RequiredLock(source, Exclusive, Connect), RequiredLock(target, Shared, Connect)}
    case OnModel(UpdateElement(id, _)) => {RequiredLock(id, Exclusive, Edit)}
    case OnModel(DeleteElement(id)) => Locks(Subtree(mm, m, id), Exclusive, Delete)
    case OnModel(UpdateRelationship(id, _)) => SourceLock(m, id, Edit)
    case OnModel(DeleteRelationship(id)) => SourceLock(m, id, Delete)
    case CreateArtifact(_) => {}
    case UpdateArtifact(id) => {RequiredLock(ARTIFACT_PREFIX + id, Exclusive, Edit)}
    case DeleteArtifact(id) => {RequiredLock(ARTIFACT_PREFIX + id, Exclusive, Delete)}
    case CreateFolder(view, _, parent) => {RequiredLock(ContainerResource(view, parent), Exclusive, CreateChild)}
    case RenameFolder(_, id) => {RequiredLock(FOLDER_PREFIX + id, Exclusive, Edit)}
    case MoveFolder(view, id, to) => Locks(MoveFolderContainers(views, view, id, to), Exclusive, Edit)
    case DeleteFolder(view, id) => Locks(SetOf(FolderResources(FolderSubtree(Lookup(views, view), id))), Exclusive, Delete)
    case Place(view, folder) => {RequiredLock(ContainerResource(view, folder), Exclusive, Edit)}
    case Remove(view, folder) => {RequiredLock(ContainerResource(view, folder), Exclusive, Edit)}
    case MoveItem(view, source, to) => Locks({ContainerResource(view, source), ContainerResource(view, to)}, Exclusive, Edit)
    case OnMetamodel => {RequiredLock(METAMODEL_RESOURCE, Exclusive, Edit)}
  }

  function CreatedBy(ops: seq<Op>): set<Id> {
    if ops == [] then {} else CreatedBy(ops[..|ops| - 1]) + Created(ops[|ops| - 1])
  }

  /** What the batch itself created is not shared yet. */
  function Due(locks: set<RequiredLock>, created: set<Id>): set<RequiredLock> {
    set l | l in locks && !IsReserved(l.resource) && l.resource !in created
  }

  ghost function Required(mm: Metamodel, m: Model, views: Views, ops: seq<Op>): set<RequiredLock> {
    if ops == [] then {} else
    Required(mm, m, views, ops[..|ops| - 1]) + Due(Needs(mm, m, views, ops[|ops| - 1]), CreatedBy(ops))
  }

  function AddDue(reqs: seq<RequiredLock>, created: set<Id>, l: RequiredLock): (more: seq<RequiredLock>)
    ensures SetOf(more) == SetOf(reqs) + Due({l}, created)
    ensures Distinct(reqs) ==> Distinct(more)
  {
    if IsReserved(l.resource) || l.resource in created then reqs else AddOnce(reqs, l)
  }

  method AddEachDue(reqs: seq<RequiredLock>, created: set<Id>, ids: seq<Id>, mode: LockMode, intent: LockIntent)
    returns (more: seq<RequiredLock>)
    requires Distinct(reqs)
    ensures Distinct(more) && SetOf(more) == SetOf(reqs) + Due(Locks(SetOf(ids), mode, intent), created)
  {
    hide IsReserved, Distinct, Due, Locks;
    more := reqs;
    NothingDue(mode, intent, created);
    for i := 0 to |ids|
      invariant Distinct(more) && SetOf(more) == SetOf(reqs) + Due(Locks(SetOf(ids[..i]), mode, intent), created)
    {
      DueNext(ids, i, mode, intent, created);
      more := AddDue(more, created, RequiredLock(ids[i], mode, intent));
    }
    assert ids[..|ids|] == ids;
  }

  lemma NothingDue(mode: LockMode, intent: LockIntent, created: set<Id>)
    ensures Due(Locks(SetOf([]), mode, intent), created) == {}
  {
  }

  lemma DueNext(ids: seq<Id>, i: nat, mode: LockMode, intent: LockIntent, created: set<Id>)
    requires i < |ids|
    ensures Due(Locks(SetOf(ids[..i + 1]), mode, intent), created) ==
      Due(Locks(SetOf(ids[..i]), mode, intent), created) + Due({RequiredLock(ids[i], mode, intent)}, created)
  {
    hide IsReserved;
    assert SetOf(ids[..i + 1]) == SetOf(ids[..i]) + {ids[i]} by { assert ids[..i + 1] == ids[..i] + [ids[i]]; }
  }

  method AddModelOp(mm: Metamodel, m: Model, op: ModelOp, reqs: seq<RequiredLock>, created: set<Id>) returns (more: seq<RequiredLock>)
    requires Distinct(reqs)
    ensures Distinct(more) && SetOf(more) == SetOf(reqs) + Due(Needs(mm, m, map[], OnModel(op)), created)
  {
    hide IsReserved, Distinct, Subtree;
    more := reqs;
    match op {
      case CreateElement(_, _, _, _) =>
      case CreateRelationship(_, _, source, target, _, _) =>
        more := AddDue(more, created, RequiredLock(source, Exclusive, Connect));
        more := AddDue(more, created, RequiredLock(target, Shared, Connect));
      case UpdateElement(id, _) => more := AddDue(more, created, RequiredLock(id, Exclusive, Edit));
      case DeleteElement(id) =>
        var members := ContainmentSubtree(mm, m, id);
        more := AddEachDue(more, created, members, Exclusive, Delete);
      case UpdateRelationship(id, _) =>
        if id in m.relationships {
          more := AddDue(more, created, RequiredLock(m.relationships[id].source, Exclusive, Edit));
        }
      case DeleteRelationship(id) =>
        if id in m.relationships {
          more := AddDue(more, created, RequiredLock(m.relationships[id].source, Exclusive, Delete));
        }
    }
  }

  method AddOtherOp(views: Views, op: Op, reqs: seq<RequiredLock>, created: set<Id>) returns (more: seq<RequiredLock>)
    requires Distinct(reqs) && !op.OnModel?
    ensures Distinct(more)
    ensures forall mm, m :: SetOf(more) == SetOf(reqs) + Due(Needs(mm, m, views, op), created)
  {
    hide IsReserved, Distinct, Subtree;
    more := reqs;
    match op {
      case CreateArtifact(_) =>
      case UpdateArtifact(id) => more := AddDue(more, created, RequiredLock(ARTIFACT_PREFIX + id, Exclusive, Edit));
      case DeleteArtifact(id) => more := AddDue(more, created, RequiredLock(ARTIFACT_PREFIX + id, Exclusive, Delete));
      case CreateFolder(view, _, parent) =>
        more := AddDue(more, created, RequiredLock(ContainerResource(view, parent), Exclusive, CreateChild));
      case RenameFolder(_, id) => more := AddDue(more, created, RequiredLock(FOLDER_PREFIX + id, Exclusive, Edit));
      case MoveFolder(view, id, to) =>
        if view in views {
          var parent := ParentAmong(VIEW_ROOT_ID, views[view].folders, id);
          if parent.Some? {
            more := AddDue(more, created, RequiredLock(ContainerResource(view, parent.value), Exclusive, Edit));
          }
        }
        more := AddDue(more, created, RequiredLock(ContainerResource(view, to), Exclusive, Edit));
      case DeleteFolder(view, id) =>
        var folders := FolderSubtreeIds(Lookup(views, view), id);
        more := AddEachDue(more, created, FolderResources(folders), Exclusive, Delete);
      case Place(view, folder) => more := AddDue(more, created, RequiredLock(ContainerResource(view, folder), Exclusive, Edit));
      case Remove(view, folder) => more := AddDue(more, created, RequiredLock(ContainerResource(view, folder), Exclusive, Edit));
      case MoveItem(view, source, to) =>
        more := AddDue(more, created, RequiredLock(ContainerResource(view, source), Exclusive, Edit));
        more := AddDue(more, created, RequiredLock(ContainerResource(view, to), Exclusive, Edit));
      case OnMetamodel => more := AddDue(more, created, RequiredLock(METAMODEL_RESOURCE, Exclusive, Edit));
    }
  }

  method RequiredLocksOf(mm: Metamodel, m: Model, views: Views, ops: seq<Op>) returns (reqs: seq<RequiredLock>)
    ensures Distinct(reqs) && SetOf(reqs) == Required(mm, m, views, ops)
  {
    hide Needs, Due, Created, Distinct;
    NoLocksYet();
    reqs := [];
    var created: set<Id> := {};
    for i := 0 to |ops|
      invariant Distinct(reqs) && SetOf(reqs) == Required(mm, m, views, ops[..i])
      invariant created == CreatedBy(ops[..i])
    {
      assert ops[..i + 1][..i] == ops[..i];
      created := created + Created(ops[i]);
      if ops[i].OnModel? {
        reqs := AddModelOp(mm, m, ops[i].op, reqs, created);
        ModelNeedsNoViews(mm, m, views, ops[i]);
      } else {
        reqs := AddOtherOp(views, ops[i], reqs, created);
      }
    }
    assert ops[..|ops|] == ops;
  }

  lemma ModelNeedsNoViews(mm: Metamodel, m: Model, views: Views, op: Op)
    requires op.OnModel?
    ensures Needs(mm, m, views, op) == Needs(mm, m, map[], op)
  {
  }
}
