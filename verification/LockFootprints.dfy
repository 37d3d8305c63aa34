/** What the locks of a batch protect: two holders' batches that both verify do not
    touch the same existing content (api/locking.py, api/routes/commits.py). */
module LockFootprints {
  import opened Collections
  import opened Graph
  import opened Model
  import opened ModelOps
  import opened Locking
  import opened LeaseRuns
  import opened RequiredLocks
  import opened LockScope
  import Invalidation

  // ---- declared footprints ---------------------------------------------------------------

  ghost function ExclusiveIds(locks: set<RequiredLock>): set<Id> {
    set l | l in locks && l.mode == Exclusive :: l.resource
  }

  lemma {:induction false} RequiredHas(mm: Metamodel, m: Model, views: Views, ops: seq<Op>, op: Op, l: RequiredLock)
    requires op in ops && l in Needs(mm, m, views, op) && !IsReserved(l.resource) && l.resource !in CreatedBy(ops)
    ensures l in Required(mm, m, views, ops)
  {
    hide Needs, IsReserved, Created;
    var n := |ops| - 1;
    if ops[n] != op {
      assert op in ops[..n];
      RequiredHas(mm, m, views, ops[..n], op, l);
    }
  }

  ghost predicate AllHeld(t: Table, holder: Id, tokens: seq<string>, locks: set<RequiredLock>, now: real) {
    forall l :: l in locks ==> Held(t, holder, tokens, l, now)
  }

  /** If two holders' batches both pass the lock check at one instant, no existing
      element, artifact or view container is used exclusively by an op of each: updated,
      deleted with its subtree, the source of a relationship, or edited as a container. */
  lemma DisjointFootprints(mm: Metamodel, m: Model, views: Views, t: Table, now: real,
      a: Id, aTokens: seq<string>, aOps: seq<Op>, b: Id, bTokens: seq<string>, bOps: seq<Op>, x: Op, y: Op, resource: Id)
    requires Exclusion(t) && a != b
    requires AllHeld(t, a, aTokens, Required(mm, m, views, aOps), now) && AllHeld(t, b, bTokens, Required(mm, m, views, bOps), now)
    requires x in aOps && y in bOps && !IsReserved(resource) && resource !in CreatedBy(aOps) && resource !in CreatedBy(bOps)
    ensures !(resource in ExclusiveIds(Needs(mm, m, views, x)) && resource in ExclusiveIds(Needs(mm, m, views, y)))
  {
    hide Needs, Required, IsReserved, Exclusion, Held;
    if resource in ExclusiveIds(Needs(mm, m, views, x)) && resource in ExclusiveIds(Needs(mm, m, views, y)) {
      var k :| k in Needs(mm, m, views, x) && k.mode == Exclusive && k.resource == resource;
      var l :| l in Needs(mm, m, views, y) && l.mode == Exclusive && l.resource == resource;
      RequiredHas(mm, m, views, aOps, x, k);
      RequiredHas(mm, m, views, bOps, y, l);
      HeldExcludes(t, a, aTokens, k, b, bTokens, l, now);
    }
  }

  // ---- real effects ------------------------------------------------------------------------

  function ModelPart(ops: seq<Op>): seq<ModelOp> {
    if ops == [] then [] else
    var last := ops[|ops| - 1];
    ModelPart(ops[..|ops| - 1]) + if last.OnModel? then [last.op] else []
  }

  lemma {:induction false} ModelPartOf(ops: seq<Op>)
    ensures forall op :: op in ModelPart(ops) ==> OnModel(op) in ops
  {
    if ops != [] {
      ModelPartOf(ops[..|ops| - 1]);
    }
  }

  /** The exclusive ids cover an op's declared needs on existing content. */
  ghost predicate Covered(mm: Metamodel, pre: Model, x: set<Id>, op: ModelOp) {
    match op
    case UpdateElement(id, _) => IsReserved(id) || id in x || id !in pre.elements
    case DeleteElement(id) => Subtree(mm, pre, id) * pre.elements.Keys <= x
    case UpdateRelationship(id, _) => id in pre.relationships ==> pre.relationships[id].source in x
    case DeleteRelationship(id) => id in pre.relationships ==> pre.relationships[id].source in x
    case _ => true
  }

  /** A relationship of the old model is accounted for by a lock on one of its ends. */
  ghost predicate EndLocked(pre: Model, x: set<Id>, rid: Id)
    requires rid in pre.relationships
  {
    pre.relationships[rid].source in x || pre.relationships[rid].target in x
  }

  ghost predicate Locked(pre: Model, x: set<Id>, id: Id) {
    (id in pre.elements ==> id in x) && (id in pre.relationships ==> EndLocked(pre, x, id))
  }

  predicate Touched(b: Batch, id: Id) {
    id in b.beforeEls || id in b.beforeRels
  }

  /** Everything the batch touched so far is locked, and temporary ids lead to touched ones. */
  ghost predicate Within(pre: Model, x: set<Id>, b: Batch) {
    && (forall id :: Touched(b, id) ==> Locked(pre, x, id))
    && (forall t :: t in b.ids ==> IsReserved(t) && Touched(b, b.ids[t]))
  }

  /** Along the run, every delete removes only existing elements that are locked. */
  ghost predicate DeletesLocked(mm: Metamodel, mint: Mint, pre: Model, x: set<Id>, b: Batch, ops: seq<ModelOp>)
    decreases |ops|
  {
    ops == [] ||
    (var first := ApplyOp(mm, mint, b, ops[0], false);
     && first.Done?
     && (ops[0].DeleteElement? ==> Doomed(mm, b.model, GetOr(b.ids, ops[0].id, ops[0].id)) * pre.elements.Keys <= x)
     && DeletesLocked(mm, mint, pre, x, first.batch, ops[1..]))
  }

  /** An untouched id is as it was; so an id that is free, or of the other kind, now but
      was not before is touched already. */
  lemma TouchedOrSame(pre: Model, b: Batch, id: Id)
    requires Invalidation.Tracked(pre, b) && !Touched(b, id)
    ensures Lookup(b.model.elements, id) == Lookup(pre.elements, id)
    ensures Lookup(b.model.relationships, id) == Lookup(pre.relationships, id)
  {
  }

  /** What one op touches that was untouched so far. */
  lemma StepTouches(mm: Metamodel, mint: Mint, pre: Model, x: set<Id>, b: Batch, op: ModelOp, id: Id)
    requires Within(pre, x, b) && Invalidation.Tracked(pre, b) && Intact(pre) && Intact(b.model) && Covered(mm, pre, x, op)
    requires ApplyOp(mm, mint, b, op, false).Done?
    requires op.DeleteElement? ==> Doomed(mm, b.model, GetOr(b.ids, op.id, op.id)) * pre.elements.Keys <= x
    requires Touched(ApplyOp(mm, mint, b, op, false).batch, id) && !Touched(b, id)
    ensures Locked(pre, x, id)
  {
    hide Invalidation.Tracks, IsReserved, InversePatch, MergePatch, RestoreElements, RestoreRelationships, Subtree, Known, ResolveProps;
    TouchedOrSame(pre, b, id);
    match op
    case CreateElement(_, _, _, _) => assert !InUse(b.model, id);
    case CreateRelationship(_, _, _, _, _, _) => assert !InUse(b.model, id);
    case UpdateElement(i, _) => assert id == GetOr(b.ids, i, i);
    case UpdateRelationship(i, _) => assert id == GetOr(b.ids, i, i);
    case DeleteRelationship(i) => assert id == GetOr(b.ids, i, i);
    case DeleteElement(i) =>
      var els := Doomed(mm, b.model, GetOr(b.ids, i, i));
      if id in IncidentIds(b.model, els) {
        assert Incident(pre.relationships[id], els);
      }
  }

  lemma StepBinds(mm: Metamodel, mint: Mint, b: Batch, op: ModelOp)
    requires forall t :: t in b.ids ==> IsReserved(t) && Touched(b, b.ids[t])
    requires ApplyOp(mm, mint, b, op, false).Done?
    ensures var o := ApplyOp(mm, mint, b, op, false).batch;
      forall t :: t in o.ids ==> IsReserved(t) && Touched(o, o.ids[t])
  {
    hide IsReserved, InversePatch, MergePatch, RestoreElements, RestoreRelationships, Subtree, Known, ResolveProps;
  }

  lemma StepWithin(mm: Metamodel, mint: Mint, pre: Model, x: set<Id>, b: Batch, op: ModelOp)
    requires Within(pre, x, b) && Invalidation.Tracked(pre, b) && Intact(pre) && Intact(b.model) && Covered(mm, pre, x, op)
    requires ApplyOp(mm, mint, b, op, false).Done?
    requires op.DeleteElement? ==> Doomed(mm, b.model, GetOr(b.ids, op.id, op.id)) * pre.elements.Keys <= x
    ensures Within(pre, x, ApplyOp(mm, mint, b, op, false).batch)
  {
    hide Invalidation.Tracked, ApplyOp, Touched, Locked, Covered, Doomed, IsReserved;
    StepBinds(mm, mint, b, op);
    var o := ApplyOp(mm, mint, b, op, false).batch;
    forall id | Touched(o, id) ensures Locked(pre, x, id) {
      if !Touched(b, id) {
        StepTouches(mm, mint, pre, x, b, op, id);
      }
    }
  }

  lemma {:induction false} RunWithin(mm: Metamodel, mint: Mint, pre: Model, x: set<Id>, b: Batch, ops: seq<ModelOp>)
    requires Within(pre, x, b) && Invalidation.Tracked(pre, b) && Intact(pre) && Intact(b.model) && PlainMint(mint)
    requires forall op :: op in ops ==> Covered(mm, pre, x, op)
    requires DeletesLocked(mm, mint, pre, x, b, ops) && ApplyAll(mm, mint, b, ops, false).Done?
    ensures Within(pre, x, ApplyAll(mm, mint, b, ops, false).batch)
    decreases |ops|
  {
    hide ApplyOp, Within, Invalidation.Tracked, Covered, Intact, Conforms, ModelNullFree, PlainMint, CreatesNoNull, Doomed;
    if ops != [] {
      var first := ApplyOp(mm, mint, b, ops[0], false).batch;
      StepWithin(mm, mint, pre, x, b, ops[0]);
      OpKeeps(mm, mint, b, ops[0], false);
      Invalidation.OpTracked(mm, mint, pre, b, ops[0], false);
      RunWithin(mm, mint, pre, x, first, ops[1..]);
    }
  }

  /** Nothing touched is forgotten. */
  lemma StepRemembers(mm: Metamodel, mint: Mint, b: Batch, op: ModelOp)
    requires ApplyOp(mm, mint, b, op, false).Done?
    ensures var o := ApplyOp(mm, mint, b, op, false).batch;
      && b.beforeEls.Keys <= o.beforeEls.Keys && b.canonical <= o.canonical
      && (op.DeleteElement? ==> Doomed(mm, b.model, GetOr(b.ids, op.id, op.id)) <= o.beforeEls.Keys)
  {
    hide IsReserved, InversePatch, MergePatch, RestoreElements, RestoreRelationships, Subtree, Known, ResolveProps;
  }

  lemma {:induction false} RunRemembers(mm: Metamodel, mint: Mint, b: Batch, ops: seq<ModelOp>)
    requires ApplyAll(mm, mint, b, ops, false).Done?
    ensures var o := ApplyAll(mm, mint, b, ops, false).batch; b.beforeEls.Keys <= o.beforeEls.Keys && b.canonical <= o.canonical
    decreases |ops|
  {
    hide ApplyOp, Doomed;
    if ops != [] {
      StepRemembers(mm, mint, b, ops[0]);
      RunRemembers(mm, mint, ApplyOp(mm, mint, b, ops[0], false).batch, ops[1..]);
    }
  }

  lemma {:induction false} DeletesLockedNeeded(mm: Metamodel, mint: Mint, pre: Model, x: set<Id>, b: Batch, ops: seq<ModelOp>)
    requires ApplyAll(mm, mint, b, ops, false).Done?
    requires ApplyAll(mm, mint, b, ops, false).batch.beforeEls.Keys * pre.elements.Keys <= x
    ensures DeletesLocked(mm, mint, pre, x, b, ops)
    decreases |ops|
  {
    hide ApplyOp, Doomed;
    if ops != [] {
      var first := ApplyOp(mm, mint, b, ops[0], false).batch;
      StepRemembers(mm, mint, b, ops[0]);
      RunRemembers(mm, mint, first, ops[1..]);
      DeletesLockedNeeded(mm, mint, pre, x, first, ops[1..]);
    }
  }

  lemma NeedsCover(mm: Metamodel, pre: Model, views: Views, ops: seq<Op>, op: ModelOp)
    requires Intact(pre) && OnModel(op) in ops && forall id :: id in pre.elements ==> id !in CreatedBy(ops)
    ensures Covered(mm, pre, ExclusiveIds(Required(mm, pre, views, ops)), op)
  {
    hide Required, CreatedBy, IsReserved, Subtree;
    var x := ExclusiveIds(Required(mm, pre, views, ops));
    forall l | l in Needs(mm, pre, views, OnModel(op)) && l.mode == Exclusive && l.resource in pre.elements ensures l.resource in x {
      RequiredHas(mm, pre, views, ops, OnModel(op), l);
    }
    match op
    case UpdateElement(id, _) => assert RequiredLock(id, Exclusive, Edit) in Needs(mm, pre, views, OnModel(op));
    case DeleteElement(id) =>
      forall e | e in Subtree(mm, pre, id) && e in pre.elements ensures e in x {
        assert RequiredLock(e, Exclusive, Delete) in Needs(mm, pre, views, OnModel(op));
      }
    case UpdateRelationship(id, _) =>
      if id in pre.relationships {
        assert RequiredLock(pre.relationships[id].source, Exclusive, Edit) in Needs(mm, pre, views, OnModel(op));
      }
    case DeleteRelationship(id) =>
      if id in pre.relationships {
        assert RequiredLock(pre.relationships[id].source, Exclusive, Delete) in Needs(mm, pre, views, OnModel(op));
      }
    case _ =>
  }

  /** The batch's ids are its own: it does not guess an existing one as one it creates. */
  ghost predicate OwnIds(pre: Model, ops: seq<Op>) {
    forall id :: id in pre.elements ==> id !in CreatedBy(ops)
  }

  /** The locks cover the effects: an accepted batch touches no existing element but
      those it locks exclusively if and only if none of its deletes, where it runs,
      removes one it has not locked. And then it changes no existing element but those,
      and no relationship but those locked at one end. */
  lemma EffectsAreLocked(mm: Metamodel, mint: Mint, pre: Model, views: Views, ops: seq<Op>)
    requires Intact(pre) && PlainMint(mint) && OwnIds(pre, ops)
    requires ApplyAll(mm, mint, StartBatch(pre), ModelPart(ops), false).Done?
    ensures var o := ApplyAll(mm, mint, StartBatch(pre), ModelPart(ops), false).batch;
      var x := ExclusiveIds(Required(mm, pre, views, ops));
      && (o.beforeEls.Keys * pre.elements.Keys <= x <==> DeletesLocked(mm, mint, pre, x, StartBatch(pre), ModelPart(ops)))
      && (DeletesLocked(mm, mint, pre, x, StartBatch(pre), ModelPart(ops)) ==>
           && (forall id :: id in pre.elements && Lookup(o.model.elements, id) != Lookup(pre.elements, id) ==> id in x)
           && (forall rid :: rid in pre.relationships && Lookup(o.model.relationships, rid) != Lookup(pre.relationships, rid) ==>
                EndLocked(pre, x, rid)))
  {
    hide ApplyAll, Required, Covered, ModelPart, DeletesLocked, Invalidation.Tracked, Intact, PlainMint;
    var x := ExclusiveIds(Required(mm, pre, views, ops));
    var o := ApplyAll(mm, mint, StartBatch(pre), ModelPart(ops), false).batch;
    ModelPartOf(ops);
    forall op | op in ModelPart(ops) ensures Covered(mm, pre, x, op) {
      NeedsCover(mm, pre, views, ops, op);
    }
    Invalidation.StartAccounted(pre);
    if o.beforeEls.Keys * pre.elements.Keys <= x {
      DeletesLockedNeeded(mm, mint, pre, x, StartBatch(pre), ModelPart(ops));
    }
    if DeletesLocked(mm, mint, pre, x, StartBatch(pre), ModelPart(ops)) {
      RunWithin(mm, mint, pre, x, StartBatch(pre), ModelPart(ops));
      forall id | id in o.beforeEls && id in pre.elements ensures id in x {
        assert Touched(o, id) && Locked(pre, x, id);
      }
      Invalidation.BatchAccounted(mm, mint, pre, StartBatch(pre), ModelPart(ops), false);
      forall id | !Touched(o, id)
        ensures Lookup(o.model.elements, id) == Lookup(pre.elements, id) && Lookup(o.model.relationships, id) == Lookup(pre.relationships, id)
      {
        TouchedOrSame(pre, o, id);
      }
    }
  }

  /** Two such batches of different holders, both verified, change no common element. */
  lemma DisjointEffects(mm: Metamodel, mint: Mint, pre: Model, views: Views, t: Table, now: real,
      a: Id, aTokens: seq<string>, aOps: seq<Op>, b: Id, bTokens: seq<string>, bOps: seq<Op>, id: Id)
    requires Exclusion(t) && a != b && Intact(pre) && PlainMint(mint) && id in pre.elements
    requires AllHeld(t, a, aTokens, Required(mm, pre, views, aOps), now) && AllHeld(t, b, bTokens, Required(mm, pre, views, bOps), now)
    requires OwnIds(pre, aOps) && OwnIds(pre, bOps)
    requires ApplyAll(mm, mint, StartBatch(pre), ModelPart(aOps), false).Done?
    requires ApplyAll(mm, mint, StartBatch(pre), ModelPart(bOps), false).Done?
    requires DeletesLocked(mm, mint, pre, ExclusiveIds(Required(mm, pre, views, aOps)), StartBatch(pre), ModelPart(aOps))
    requires DeletesLocked(mm, mint, pre, ExclusiveIds(Required(mm, pre, views, bOps)), StartBatch(pre), ModelPart(bOps))
    ensures || Lookup(ApplyAll(mm, mint, StartBatch(pre), ModelPart(aOps), false).batch.model.elements, id) == Lookup(pre.elements, id)
            || Lookup(ApplyAll(mm, mint, StartBatch(pre), ModelPart(bOps), false).batch.model.elements, id) == Lookup(pre.elements, id)
  {
    hide ApplyAll, Required, Intact, PlainMint, OwnIds, DeletesLocked, Exclusion, Held, ModelPart;
    EffectsAreLocked(mm, mint, pre, views, aOps);
    EffectsAreLocked(mm, mint, pre, views, bOps);
    var p, q := Required(mm, pre, views, aOps), Required(mm, pre, views, bOps);
    if id in ExclusiveIds(p) && id in ExclusiveIds(q) {
      var k :| k in p && k.mode == Exclusive && k.resource == id;
      var l :| l in q && l.mode == Exclusive && l.resource == id;
      HeldExcludes(t, a, aTokens, k, b, bTokens, l, now);
    }
  }

  /** A common relationship is not excluded: both batches change it only if one holder
      has its source and the other its target. */
  lemma SharedRelationshipIsSplit(mm: Metamodel, mint: Mint, pre: Model, views: Views, t: Table, now: real,
      a: Id, aTokens: seq<string>, aOps: seq<Op>, b: Id, bTokens: seq<string>, bOps: seq<Op>, rid: Id)
    requires Exclusion(t) && a != b && Intact(pre) && PlainMint(mint) && rid in pre.relationships
    requires AllHeld(t, a, aTokens, Required(mm, pre, views, aOps), now) && AllHeld(t, b, bTokens, Required(mm, pre, views, bOps), now)
    requires OwnIds(pre, aOps) && OwnIds(pre, bOps)
    requires ApplyAll(mm, mint, StartBatch(pre), ModelPart(aOps), false).Done?
    requires ApplyAll(mm, mint, StartBatch(pre), ModelPart(bOps), false).Done?
    requires DeletesLocked(mm, mint, pre, ExclusiveIds(Required(mm, pre, views, aOps)), StartBatch(pre), ModelPart(aOps))
    requires DeletesLocked(mm, mint, pre, ExclusiveIds(Required(mm, pre, views, bOps)), StartBatch(pre), ModelPart(bOps))
    requires Lookup(ApplyAll(mm, mint, StartBatch(pre), ModelPart(aOps), false).batch.model.relationships, rid) != Lookup(pre.relationships, rid)
    requires Lookup(ApplyAll(mm, mint, StartBatch(pre), ModelPart(bOps), false).batch.model.relationships, rid) != Lookup(pre.relationships, rid)
    ensures var x, y, r := ExclusiveIds(Required(mm, pre, views, aOps)), ExclusiveIds(Required(mm, pre, views, bOps)), pre.relationships[rid];
      && r.source != r.target
      && if r.source in x then r.source !in y && r.target !in x && r.target in y else r.target in x && r.target !in y && r.source in y
  {
    hide ApplyAll, Required, Intact, PlainMint, OwnIds, DeletesLocked, Exclusion, Held, ModelPart;
    EffectsAreLocked(mm, mint, pre, views, aOps);
    EffectsAreLocked(mm, mint, pre, views, bOps);
    var p, q := Required(mm, pre, views, aOps), Required(mm, pre, views, bOps);
    forall id | id in ExclusiveIds(p) ensures id !in ExclusiveIds(q) {
      if id in ExclusiveIds(q) {
        var k :| k in p && k.mode == Exclusive && k.resource == id;
        var l :| l in q && l.mode == Exclusive && l.resource == id;
        HeldExcludes(t, a, aTokens, k, b, bTokens, l, now);
      }
    }
    assert EndLocked(pre, ExclusiveIds(p), rid) && EndLocked(pre, ExclusiveIds(q), rid);
  }

  /** Such batches exist: deleting a relationship's target takes the relationship along
      under the target's locks, while patching it needs its source only. */
  lemma BothChangeOneRelationship(mm: Metamodel, mint: Mint, pre: Model, views: Views, rid: Id, patch: Props)
    requires Intact(pre) && rid in pre.relationships
    requires var r := pre.relationships[rid];
      && r.source !in Subtree(mm, pre, r.target)
      && patch.Keys <= mm.RelationshipProperties(r.typeName) && MergePatch(r.props, patch) != r.props
    ensures var r := pre.relationships[rid];
      var delete, update := DeleteElement(r.target), UpdateRelationship(rid, patch);
      var x, y := ExclusiveIds(Required(mm, pre, views, [OnModel(delete)])), ExclusiveIds(Required(mm, pre, views, [OnModel(update)]));
      var o, p := ApplyAll(mm, mint, StartBatch(pre), [delete], false), ApplyAll(mm, mint, StartBatch(pre), [update], false);
      && x !! y && x <= Subtree(mm, pre, r.target) && y <= {r.source}
      && o.Done? && rid !in o.batch.model.relationships
      && p.Done? && rid in p.batch.model.relationships && p.batch.model.relationships[rid] != r
  {
    hide Subtree, Required, ApplyAll, ApplyOp, IsReserved, MergePatch;
    var r := pre.relationships[rid];
    var delete, update := DeleteElement(r.target), UpdateRelationship(rid, patch);
    ApplySingle(mm, mint, StartBatch(pre), delete, false);
    ApplySingle(mm, mint, StartBatch(pre), update, false);
    TargetTakesAlong(mm, mint, pre, rid);
    PatchChanges(mm, mint, pre, rid, patch);
    SingleRequired(mm, pre, views, OnModel(delete));
    SingleRequired(mm, pre, views, OnModel(update));
  }

  lemma SingleRequired(mm: Metamodel, pre: Model, views: Views, op: Op)
    ensures Required(mm, pre, views, [op]) <= Needs(mm, pre, views, op)
  {
    hide Needs, CreatedBy, IsReserved;
    assert [op][..0] == [];
  }

  lemma TargetTakesAlong(mm: Metamodel, mint: Mint, pre: Model, rid: Id)
    requires Intact(pre) && rid in pre.relationships
    ensures var o := ApplyOp(mm, mint, StartBatch(pre), DeleteElement(pre.relationships[rid].target), false);
      o.Done? && rid !in o.batch.model.relationships
  {
    hide Subtree, RestoreElements, RestoreRelationships, NoteAll, IsReserved;
    OwnSubtree(mm, pre, pre.relationships[rid].target);
  }

  lemma PatchChanges(mm: Metamodel, mint: Mint, pre: Model, rid: Id, patch: Props)
    requires rid in pre.relationships && patch.Keys <= mm.RelationshipProperties(pre.relationships[rid].typeName)
    requires MergePatch(pre.relationships[rid].props, patch) != pre.relationships[rid].props
    ensures var o := ApplyOp(mm, mint, StartBatch(pre), UpdateRelationship(rid, patch), false);
      o.Done? && rid in o.batch.model.relationships && o.batch.model.relationships[rid] != pre.relationships[rid]
  {
    hide MergePatch, InversePatch, ResolveProps, Note;
    ResolvePropsEmpty(patch);
  }

  // ---- a guard on the batch itself ------------------------------------------------------------

  predicate Places(mm: Metamodel, op: ModelOp, p: Id, q: Id) {
    op.CreateRelationship? && mm.IsContainment(op.typeName) && op.source == p && op.target == q
  }

  /** The old containment edges and those the ops add. */
  function Grown(mm: Metamodel, pre: Model, canon: seq<ModelOp>): Graph {
    map p | p in Sources(pre) + (set op | op in canon && op.CreateRelationship? :: op.source)
      :: Children(mm, pre, p)
         + set op | op in canon && op.CreateRelationship? && mm.IsContainment(op.typeName) && op.source == p :: op.target
  }

  lemma GrownEdge(mm: Metamodel, pre: Model, canon: seq<ModelOp>, p: Id, q: Id)
    ensures q in Succ(Grown(mm, pre, canon), p) <==>
      || q in Succ(Containment(mm, pre), p)
      || exists op :: op in canon && Places(mm, op, p, q)
  {
    if op :| op in canon && Places(mm, op, p, q) {
      assert p in Grown(mm, pre, canon);
    }
  }

  /** Every delete reaches only locked elements through old and added containment. */
  ghost predicate Guarded(mm: Metamodel, pre: Model, x: set<Id>, canon: seq<ModelOp>) {
    forall op :: op in canon && op.DeleteElement? ==> ReachSet(Grown(mm, pre, canon), {op.id}) * pre.elements.Keys <= x
  }

  predicate Shows(op: ModelOp, rid: Id, r: Relationship) {
    op.CreateRelationship? && op.tempId == rid && op.typeName == r.typeName && op.source == r.source && op.target == r.target
  }

  /** Every relationship has the ends it had before or those the batch gave it. */
  ghost predicate Traced(pre: Model, b: Batch) {
    forall rid :: rid in b.model.relationships ==>
      || (rid in pre.relationships && Invalidation.EndsOf(pre.relationships[rid]) == Invalidation.EndsOf(b.model.relationships[rid]))
      || exists op :: op in b.canonical && Shows(op, rid, b.model.relationships[rid])
  }

  /** The canonical op of a step. */
  lemma StepCanonical(mm: Metamodel, mint: Mint, b: Batch, op: ModelOp) returns (c: ModelOp)
    requires ApplyOp(mm, mint, b, op, false).Done?
    ensures var o := ApplyOp(mm, mint, b, op, false).batch;
      && o.canonical == b.canonical + [c]
      && (op.DeleteElement? <==> c.DeleteElement?) && (op.DeleteRelationship? <==> c.DeleteRelationship?)
      && (op.CreateElement? <==> c.CreateElement?) && (op.CreateRelationship? <==> c.CreateRelationship?)
      && (op.DeleteElement? || op.DeleteRelationship? ==> c.id == GetOr(b.ids, op.id, op.id))
      && (op.DeleteElement? ==> c.id in b.model.elements)
      && (op.DeleteRelationship? ==> c.id in b.model.relationships)
      && (op.CreateElement? || op.CreateRelationship? ==> !InUse(b.model, c.tempId))
      && (op.CreateRelationship? ==> c.tempId in o.model.relationships && Shows(c, c.tempId, o.model.relationships[c.tempId]))
  {
    hide IsReserved, InversePatch, MergePatch, RestoreElements, RestoreRelationships, Subtree, Known, ResolveProps, Note, NoteAll;
    var o := ApplyOp(mm, mint, b, op, false).batch;
    c := o.canonical[|b.canonical|];
  }

  lemma StepTraced(mm: Metamodel, mint: Mint, pre: Model, b: Batch, op: ModelOp)
    requires Traced(pre, b) && ApplyOp(mm, mint, b, op, false).Done?
    ensures Traced(pre, ApplyOp(mm, mint, b, op, false).batch)
  {
    hide ApplyOp;
    var o := ApplyOp(mm, mint, b, op, false).batch;
    var c := StepCanonical(mm, mint, b, op);
    Invalidation.OpKeepsEntityShape(mm, mint, b, op, false);
    forall rid | rid in o.model.relationships
      ensures || (rid in pre.relationships && Invalidation.EndsOf(pre.relationships[rid]) == Invalidation.EndsOf(o.model.relationships[rid]))
              || exists op :: op in o.canonical && Shows(op, rid, o.model.relationships[rid])
    {
      if c.CreateRelationship? && c.tempId == rid {
        assert c in o.canonical && Shows(c, rid, o.model.relationships[rid]);
      } else if d :| d in b.canonical && Shows(d, rid, b.model.relationships[rid]) {
        assert d in o.canonical && Shows(d, rid, o.model.relationships[rid]);
      }
    }
  }

  /** A delete reaches nothing beyond what its guard looks at. */
  lemma DoomedWithinGuard(mm: Metamodel, pre: Model, b: Batch, canon: seq<ModelOp>, id: Id)
    requires Traced(pre, b) && b.canonical <= canon
    ensures Subtree(mm, b.model, id) <= ReachSet(Grown(mm, pre, canon), {id})
  {
    hide ReachSet, ReachableFrom, Containment, Succ, Grown;
    var g := Grown(mm, pre, canon);
    var all := ReachSet(g, {id});
    ReachSetExact(g, {id});
    ReachSetExact(Containment(mm, b.model), {id});
    forall p, q | p in all && q in Succ(Containment(mm, b.model), p) ensures q in all {
      EdgeIsGrown(mm, pre, b, canon, p, q);
    }
    ReachableStays(Containment(mm, b.model), all, {id});
  }

  lemma EdgeIsGrown(mm: Metamodel, pre: Model, b: Batch, canon: seq<ModelOp>, p: Id, q: Id)
    requires Traced(pre, b) && b.canonical <= canon && q in Succ(Containment(mm, b.model), p)
    ensures q in Succ(Grown(mm, pre, canon), p)
  {
    hide Containment, Succ, Grown;
    ContainmentEdge(mm, b.model, p, q);
    ContainmentEdge(mm, pre, p, q);
    GrownEdge(mm, pre, canon, p, q);
    var rid :| IsContained(mm, b.model, rid, p, q);
    if d :| d in b.canonical && Shows(d, rid, b.model.relationships[rid]) {
      assert d in canon && Places(mm, d, p, q);
    } else {
      assert IsContained(mm, pre, rid, p, q);
    }
  }

  lemma {:induction false} GuardedRun(mm: Metamodel, mint: Mint, pre: Model, x: set<Id>, b: Batch, ops: seq<ModelOp>)
    requires Traced(pre, b) && ApplyAll(mm, mint, b, ops, false).Done?
    requires Guarded(mm, pre, x, ApplyAll(mm, mint, b, ops, false).batch.canonical)
    ensures DeletesLocked(mm, mint, pre, x, b, ops)
    decreases |ops|
  {
    hide ApplyOp, Traced, ReachSet, Grown, Subtree;
    if ops != [] {
      var first := ApplyOp(mm, mint, b, ops[0], false).batch;
      var canon := ApplyAll(mm, mint, b, ops, false).batch.canonical;
      RunRemembers(mm, mint, first, ops[1..]);
      var c := StepCanonical(mm, mint, b, ops[0]);
      assert c == canon[|b.canonical|] && b.canonical <= canon;
      if c.DeleteElement? {
        DoomedWithinGuard(mm, pre, b, canon, c.id);
      }
      StepTraced(mm, mint, pre, b, ops[0]);
      GuardedRun(mm, mint, pre, x, first, ops[1..]);
    }
  }

  lemma StartTraced(pre: Model)
    ensures Traced(pre, StartBatch(pre))
  {
  }

  // ---- when the guard is exact -------------------------------------------------------------------

  /** Every created element has an id no element had before. */
  ghost predicate NeverRevives(pre: Model, canon: seq<ModelOp>) {
    forall i :: 0 <= i < |canon| && canon[i].CreateElement? ==>
      canon[i].tempId !in pre.elements && forall j :: 0 <= j < i && canon[j].CreateElement? ==> canon[j].tempId != canon[i].tempId
  }

  /** No relationship the batch deletes by its own id is a containment. */
  ghost predicate NeverDetaches(mm: Metamodel, pre: Model, canon: seq<ModelOp>) {
    forall op :: op in canon && op.DeleteRelationship? ==>
      && (op.id in pre.relationships ==> !mm.IsContainment(pre.relationships[op.id].typeName))
      && (forall c :: c in canon && c.CreateRelationship? && c.tempId == op.id ==> !mm.IsContainment(c.typeName))
  }

  /** A containment edge, old or added, is there or its child is gone. */
  ghost predicate EdgeStands(mm: Metamodel, b: Batch, p: Id, q: Id) {
    q in b.deletedEls || exists rid :: IsContained(mm, b.model, rid, p, q)
  }

  ghost predicate EdgesStand(mm: Metamodel, pre: Model, b: Batch) {
    && (forall rid :: rid in pre.relationships && mm.IsContainment(pre.relationships[rid].typeName) ==>
         EdgeStands(mm, b, pre.relationships[rid].source, pre.relationships[rid].target))
    && (forall op :: op in b.canonical && op.CreateRelationship? && mm.IsContainment(op.typeName) ==>
         EdgeStands(mm, b, op.source, op.target))
  }

  ghost predicate DeletesStay(b: Batch) {
    forall op :: op in b.canonical && op.DeleteElement? ==> op.id in b.deletedEls
  }

  /** An element that is or was there is an old one or one the batch created. */
  ghost predicate Introduced(pre: Model, b: Batch) {
    forall id :: id in b.model.elements || id in b.deletedEls ==>
      id in pre.elements || exists op :: op in b.canonical && op.CreateElement? && op.tempId == id
  }

  lemma EdgeStillStands(mm: Metamodel, mint: Mint, pre: Model, b: Batch, op: ModelOp, canon: seq<ModelOp>, p: Id, q: Id)
    requires Introduced(pre, b) && Traced(pre, b) && Intact(b.model) && Invalidation.Tracked(pre, b) && EdgeStands(mm, b, p, q)
    requires ApplyOp(mm, mint, b, op, false).Done? && ApplyOp(mm, mint, b, op, false).batch.canonical <= canon
    requires NeverRevives(pre, canon) && NeverDetaches(mm, pre, canon)
    ensures EdgeStands(mm, ApplyOp(mm, mint, b, op, false).batch, p, q)
  {
    hide ApplyOp, Intact, IsReserved, Invalidation.Tracked, Introduced, Traced, NeverRevives, NeverDetaches, IsContained;
    if q in b.deletedEls {
      StaysDeleted(mm, mint, pre, b, op, canon, q);
    } else {
      var rid :| IsContained(mm, b.model, rid, p, q);
      HeldEdgeStands(mm, mint, pre, b, op, canon, rid, p, q);
    }
  }

  lemma HeldEdgeStands(mm: Metamodel, mint: Mint, pre: Model, b: Batch, op: ModelOp, canon: seq<ModelOp>, rid: Id, p: Id, q: Id)
    requires Traced(pre, b) && Intact(b.model) && IsContained(mm, b.model, rid, p, q)
    requires ApplyOp(mm, mint, b, op, false).Done? && ApplyOp(mm, mint, b, op, false).batch.canonical <= canon
    requires NeverDetaches(mm, pre, canon)
    ensures EdgeStands(mm, ApplyOp(mm, mint, b, op, false).batch, p, q)
  {
    hide Intact, Traced, NeverDetaches, ApplyCreateElement, ApplyCreateRelationship, ApplyUpdateElement, ApplyUpdateRelationship,
      ApplyDeleteElement, ApplyDeleteRelationship;
    if op.DeleteElement? {
      DeleteCascades(mm, b, op, rid);
    } else {
      var c := StepCanonical(mm, mint, b, op);
      assert c == canon[|b.canonical|];
      if op.DeleteRelationship? {
        NotDetached(mm, pre, b, c, canon, rid);
      }
      StepKeepsRelationship(mm, mint, b, op, rid);
      assert IsContained(mm, ApplyOp(mm, mint, b, op, false).batch.model, rid, p, q);
    }
  }

  lemma NotDetached(mm: Metamodel, pre: Model, b: Batch, c: ModelOp, canon: seq<ModelOp>, rid: Id)
    requires Traced(pre, b) && NeverDetaches(mm, pre, canon) && b.canonical <= canon && c in canon && c.DeleteRelationship?
    requires rid in b.model.relationships && mm.IsContainment(b.model.relationships[rid].typeName)
    ensures c.id != rid
  {
    if d :| d in b.canonical && Shows(d, rid, b.model.relationships[rid]) {
      assert d in canon;
    }
  }

  lemma StepKeepsRelationship(mm: Metamodel, mint: Mint, b: Batch, op: ModelOp, rid: Id)
    requires rid in b.model.relationships && ApplyOp(mm, mint, b, op, false).Done? && !op.DeleteElement?
    requires op.DeleteRelationship? ==> GetOr(b.ids, op.id, op.id) != rid
    ensures var o := ApplyOp(mm, mint, b, op, false).batch.model;
      rid in o.relationships && Invalidation.EndsOf(o.relationships[rid]) == Invalidation.EndsOf(b.model.relationships[rid])
  {
    hide IsReserved, InversePatch, MergePatch, Known, ResolveProps, Note;
  }

  lemma DeleteCascades(mm: Metamodel, b: Batch, op: ModelOp, rid: Id)
    requires op.DeleteElement? && ApplyDeleteElement(mm, b, op).Done? && Intact(b.model) && rid in b.model.relationships
    requires mm.IsContainment(b.model.relationships[rid].typeName)
    ensures var o := ApplyDeleteElement(mm, b, op).batch; var r := b.model.relationships[rid];
      EdgeStands(mm, o, r.source, r.target)
  {
    hide ReachSet, ReachableFrom, Containment, Succ, RestoreElements, RestoreRelationships, NoteAll, IsReserved;
    var o, r := ApplyDeleteElement(mm, b, op).batch, b.model.relationships[rid];
    var id := GetOr(b.ids, op.id, op.id);
    ReachSetExact(Containment(mm, b.model), {id});
    assert IsContained(mm, b.model, rid, r.source, r.target);
    ContainmentEdge(mm, b.model, r.source, r.target);
    if !Incident(r, Doomed(mm, b.model, id)) {
      assert IsContained(mm, o.model, rid, r.source, r.target);
    }
  }

  lemma StaysDeleted(mm: Metamodel, mint: Mint, pre: Model, b: Batch, op: ModelOp, canon: seq<ModelOp>, q: Id)
    requires Introduced(pre, b) && Invalidation.Tracked(pre, b) && q in b.deletedEls
    requires ApplyOp(mm, mint, b, op, false).Done? && ApplyOp(mm, mint, b, op, false).batch.canonical <= canon && NeverRevives(pre, canon)
    ensures q in ApplyOp(mm, mint, b, op, false).batch.deletedEls
  {
    hide ApplyOp, Invalidation.Tracked;
    var c := StepCanonical(mm, mint, b, op);
    NotRevived(pre, b, c, canon, q);
    StepKeepsDeleted(mm, mint, pre, b, op, c, q);
  }

  lemma NotRevived(pre: Model, b: Batch, c: ModelOp, canon: seq<ModelOp>, q: Id)
    requires Introduced(pre, b) && q in b.deletedEls && b.canonical + [c] <= canon && NeverRevives(pre, canon)
    ensures !(c.CreateElement? && c.tempId == q)
  {
    var n := |b.canonical|;
    assert canon[n] == c;
    if c.CreateElement? {
      forall d | d in b.canonical && d.CreateElement? ensures d.tempId != c.tempId {
        var j :| 0 <= j < n && b.canonical[j] == d;
        assert canon[j] == d;
      }
    }
  }

  lemma StepKeepsDeleted(mm: Metamodel, mint: Mint, pre: Model, b: Batch, op: ModelOp, c: ModelOp, q: Id)
    requires Invalidation.Tracked(pre, b) && q in b.deletedEls && ApplyOp(mm, mint, b, op, false).Done?
    requires ApplyOp(mm, mint, b, op, false).batch.canonical == b.canonical + [c] && !(c.CreateElement? && c.tempId == q)
    ensures q in ApplyOp(mm, mint, b, op, false).batch.deletedEls
  {
    hide IsReserved, InversePatch, MergePatch, RestoreElements, RestoreRelationships, Subtree, Known, ResolveProps, Note, NoteAll;
    assert c == ApplyOp(mm, mint, b, op, false).batch.canonical[|b.canonical|];
  }

  lemma StepElements(mm: Metamodel, mint: Mint, b: Batch, op: ModelOp, c: ModelOp)
    requires ApplyOp(mm, mint, b, op, false).Done? && ApplyOp(mm, mint, b, op, false).batch.canonical == b.canonical + [c]
    ensures var o := ApplyOp(mm, mint, b, op, false).batch;
      forall id :: id in o.model.elements || id in o.deletedEls ==>
        id in b.model.elements || id in b.deletedEls || (c.CreateElement? && c.tempId == id)
  {
    hide IsReserved, InversePatch, MergePatch, RestoreElements, RestoreRelationships, Subtree, Known, ResolveProps, Note, NoteAll;
    assert c == ApplyOp(mm, mint, b, op, false).batch.canonical[|b.canonical|];
  }

  ghost predicate Settled(mm: Metamodel, pre: Model, b: Batch) {
    EdgesStand(mm, pre, b) && DeletesStay(b) && Introduced(pre, b)
  }

  lemma StepEdgesStand(mm: Metamodel, mint: Mint, pre: Model, b: Batch, op: ModelOp, canon: seq<ModelOp>)
    requires EdgesStand(mm, pre, b) && Introduced(pre, b) && Traced(pre, b) && Intact(b.model) && Invalidation.Tracked(pre, b)
    requires ApplyOp(mm, mint, b, op, false).Done? && ApplyOp(mm, mint, b, op, false).batch.canonical <= canon
    requires NeverRevives(pre, canon) && NeverDetaches(mm, pre, canon)
    ensures EdgesStand(mm, pre, ApplyOp(mm, mint, b, op, false).batch)
  {
    hide ApplyOp, Intact, Introduced, Traced, Invalidation.Tracked, NeverRevives, NeverDetaches, EdgeStands;
    var o := ApplyOp(mm, mint, b, op, false).batch;
    var c := StepCanonical(mm, mint, b, op);
    forall p, q | EdgeStands(mm, b, p, q) ensures EdgeStands(mm, o, p, q) {
      EdgeStillStands(mm, mint, pre, b, op, canon, p, q);
    }
    if c.CreateRelationship? && mm.IsContainment(c.typeName) {
      PlacedStands(mm, o, c);
    }
  }

  lemma StepDeletesStay(mm: Metamodel, mint: Mint, pre: Model, b: Batch, op: ModelOp, canon: seq<ModelOp>)
    requires DeletesStay(b) && Introduced(pre, b) && Invalidation.Tracked(pre, b)
    requires ApplyOp(mm, mint, b, op, false).Done? && ApplyOp(mm, mint, b, op, false).batch.canonical <= canon && NeverRevives(pre, canon)
    ensures DeletesStay(ApplyOp(mm, mint, b, op, false).batch)
  {
    hide Introduced, Invalidation.Tracked, NeverRevives, ApplyCreateElement, ApplyCreateRelationship, ApplyUpdateElement, ApplyUpdateRelationship,
      ApplyDeleteElement, ApplyDeleteRelationship;
    var o := ApplyOp(mm, mint, b, op, false).batch;
    var c := StepCanonical(mm, mint, b, op);
    forall d | d in o.canonical && d.DeleteElement? ensures d.id in o.deletedEls {
      if d in b.canonical {
        StaysDeleted(mm, mint, pre, b, op, canon, d.id);
      } else {
        DeletesItself(mm, b, op);
      }
    }
  }

  lemma StepIntroduced(mm: Metamodel, mint: Mint, pre: Model, b: Batch, op: ModelOp)
    requires Introduced(pre, b) && ApplyOp(mm, mint, b, op, false).Done?
    ensures Introduced(pre, ApplyOp(mm, mint, b, op, false).batch)
  {
    hide ApplyOp;
    var o := ApplyOp(mm, mint, b, op, false).batch;
    var c := StepCanonical(mm, mint, b, op);
    StepElements(mm, mint, b, op, c);
    assert c in o.canonical && forall d :: d in b.canonical ==> d in o.canonical;
  }

  lemma StepSettled(mm: Metamodel, mint: Mint, pre: Model, b: Batch, op: ModelOp, canon: seq<ModelOp>)
    requires Settled(mm, pre, b) && Traced(pre, b) && Intact(b.model) && Invalidation.Tracked(pre, b)
    requires ApplyOp(mm, mint, b, op, false).Done? && ApplyOp(mm, mint, b, op, false).batch.canonical <= canon
    requires NeverRevives(pre, canon) && NeverDetaches(mm, pre, canon)
    ensures Settled(mm, pre, ApplyOp(mm, mint, b, op, false).batch)
  {
    hide ApplyOp, EdgesStand, DeletesStay, Introduced, Intact, Traced, Invalidation.Tracked, NeverRevives, NeverDetaches;
    StepEdgesStand(mm, mint, pre, b, op, canon);
    StepDeletesStay(mm, mint, pre, b, op, canon);
    StepIntroduced(mm, mint, pre, b, op);
  }

  lemma DeletesItself(mm: Metamodel, b: Batch, op: ModelOp)
    requires op.DeleteElement? && ApplyDeleteElement(mm, b, op).Done?
    ensures GetOr(b.ids, op.id, op.id) in ApplyDeleteElement(mm, b, op).batch.deletedEls
  {
    hide Subtree, RestoreElements, RestoreRelationships, NoteAll;
    OwnSubtree(mm, b.model, GetOr(b.ids, op.id, op.id));
  }

  lemma PlacedStands(mm: Metamodel, o: Batch, c: ModelOp)
    requires c.CreateRelationship? && mm.IsContainment(c.typeName)
    requires c.tempId in o.model.relationships && Shows(c, c.tempId, o.model.relationships[c.tempId])
    ensures EdgeStands(mm, o, c.source, c.target)
  {
    assert IsContained(mm, o.model, c.tempId, c.source, c.target);
  }

  lemma {:induction false} RunSettled(mm: Metamodel, mint: Mint, pre: Model, b: Batch, ops: seq<ModelOp>)
    requires Settled(mm, pre, b) && Traced(pre, b) && Intact(b.model) && PlainMint(mint) && Invalidation.Tracked(pre, b)
    requires ApplyAll(mm, mint, b, ops, false).Done?
    requires var canon := ApplyAll(mm, mint, b, ops, false).batch.canonical; NeverRevives(pre, canon) && NeverDetaches(mm, pre, canon)
    ensures var o := ApplyAll(mm, mint, b, ops, false).batch; Settled(mm, pre, o) && Intact(o.model) && Invalidation.Tracked(pre, o)
    decreases |ops|
  {
    hide ApplyOp, Settled, Traced, Intact, PlainMint, Conforms, ModelNullFree, CreatesNoNull, Invalidation.Tracked, NeverRevives, NeverDetaches,
      Doomed;
    if ops != [] {
      var first := ApplyOp(mm, mint, b, ops[0], false).batch;
      RunRemembers(mm, mint, first, ops[1..]);
      StepSettled(mm, mint, pre, b, ops[0], ApplyAll(mm, mint, b, ops, false).batch.canonical);
      StepTraced(mm, mint, pre, b, ops[0]);
      OpKeeps(mm, mint, b, ops[0], false);
      Invalidation.OpTracked(mm, mint, pre, b, ops[0], false);
      RunSettled(mm, mint, pre, first, ops[1..]);
    }
  }

  /** What is deleted at the end is closed under old and added containment. */
  lemma DeletedClosed(mm: Metamodel, pre: Model, b: Batch, id: Id)
    requires Settled(mm, pre, b) && Intact(b.model) && Invalidation.Tracked(pre, b) && id in b.deletedEls
    ensures ReachSet(Grown(mm, pre, b.canonical), {id}) <= b.beforeEls.Keys
  {
    hide ReachSet, ReachableFrom, Containment, Succ, Grown, IsReserved;
    var g := Grown(mm, pre, b.canonical);
    ReachSetExact(g, {id});
    forall p, q | p in b.deletedEls && q in Succ(g, p) ensures q in b.deletedEls {
      GrownEdge(mm, pre, b.canonical, p, q);
      ContainmentEdge(mm, pre, p, q);
      assert EdgeStands(mm, b, p, q);
    }
    ReachableStays(g, b.deletedEls, {id});
  }

  lemma GuardNeeded(mm: Metamodel, mint: Mint, pre: Model, x: set<Id>, ops: seq<ModelOp>)
    requires Intact(pre) && PlainMint(mint) && ApplyAll(mm, mint, StartBatch(pre), ops, false).Done?
    requires var o := ApplyAll(mm, mint, StartBatch(pre), ops, false).batch;
      NeverRevives(pre, o.canonical) && NeverDetaches(mm, pre, o.canonical) && o.beforeEls.Keys * pre.elements.Keys <= x
    ensures Guarded(mm, pre, x, ApplyAll(mm, mint, StartBatch(pre), ops, false).batch.canonical)
  {
    hide ApplyAll, NeverRevives, NeverDetaches, Intact, PlainMint, Traced, Invalidation.Tracked, EdgeStands, ReachSet, Grown;
    var o := ApplyAll(mm, mint, StartBatch(pre), ops, false).batch;
    StartTraced(pre);
    StartSettled(mm, pre);
    Invalidation.StartAccounted(pre);
    RunSettled(mm, mint, pre, StartBatch(pre), ops);
    forall op | op in o.canonical && op.DeleteElement? ensures ReachSet(Grown(mm, pre, o.canonical), {op.id}) * pre.elements.Keys <= x {
      DeletedClosed(mm, pre, o, op.id);
    }
  }

  lemma StartSettled(mm: Metamodel, pre: Model)
    ensures Settled(mm, pre, StartBatch(pre))
  {
    forall rid | rid in pre.relationships && mm.IsContainment(pre.relationships[rid].typeName)
      ensures EdgeStands(mm, StartBatch(pre), pre.relationships[rid].source, pre.relationships[rid].target)
    {
      assert IsContained(mm, pre, rid, pre.relationships[rid].source, pre.relationships[rid].target);
    }
  }

  /** The guard reads only the old model and the batch's ops, their temporary ids
      resolved. A batch that meets it touches no
      existing element but those it locks exclusively; and a batch that detaches no
      containment and revives no id meets it whenever it touches no other. */
  lemma GuardIsExact(mm: Metamodel, mint: Mint, pre: Model, views: Views, ops: seq<Op>)
    requires Intact(pre) && PlainMint(mint) && OwnIds(pre, ops)
    requires ApplyAll(mm, mint, StartBatch(pre), ModelPart(ops), false).Done?
    ensures var o := ApplyAll(mm, mint, StartBatch(pre), ModelPart(ops), false).batch;
      var x := ExclusiveIds(Required(mm, pre, views, ops));
      && (Guarded(mm, pre, x, o.canonical) ==> DeletesLocked(mm, mint, pre, x, StartBatch(pre), ModelPart(ops)))
      && (Guarded(mm, pre, x, o.canonical) ==> o.beforeEls.Keys * pre.elements.Keys <= x)
      && (NeverRevives(pre, o.canonical) && NeverDetaches(mm, pre, o.canonical) ==>
           (Guarded(mm, pre, x, o.canonical) <==> o.beforeEls.Keys * pre.elements.Keys <= x))
  {
    hide ApplyAll, DeletesLocked, Guarded, NeverRevives, NeverDetaches, Intact, PlainMint, Traced, Required, ModelPart;
    var o := ApplyAll(mm, mint, StartBatch(pre), ModelPart(ops), false).batch;
    var x := ExclusiveIds(Required(mm, pre, views, ops));
    StartTraced(pre);
    EffectsAreLocked(mm, mint, pre, views, ops);
    if Guarded(mm, pre, x, o.canonical) {
      GuardedRun(mm, mint, pre, x, StartBatch(pre), ModelPart(ops));
    }
    if NeverRevives(pre, o.canonical) && NeverDetaches(mm, pre, o.canonical) && o.beforeEls.Keys * pre.elements.Keys <= x {
      GuardNeeded(mm, mint, pre, x, ModelPart(ops));
    }
  }

  // ---- batches that adopt no existing element --------------------------------------------------

  /** Every added containment leads to an element the batch brought in. */
  ghost predicate AdoptsNone(mm: Metamodel, pre: Model, canon: seq<ModelOp>) {
    forall op :: op in canon && op.CreateRelationship? && mm.IsContainment(op.typeName) ==> op.target !in pre.elements
  }

  /** A temporary id never leads to an old element that is still there. */
  ghost predicate BoundToNew(pre: Model, b: Batch) {
    forall t :: t in b.ids && b.ids[t] in pre.elements ==> b.ids[t] in b.deletedEls
  }

  ghost predicate DeletesCovered(mm: Metamodel, pre: Model, x: set<Id>, b: Batch) {
    forall c :: c in b.canonical && c.DeleteElement? && c.id in pre.elements ==> Subtree(mm, pre, c.id) * pre.elements.Keys <= x
  }

  lemma StepBoundToNew(mm: Metamodel, mint: Mint, pre: Model, b: Batch, op: ModelOp, c: ModelOp)
    requires BoundToNew(pre, b) && Invalidation.Tracked(pre, b) && ApplyOp(mm, mint, b, op, false).Done?
    requires ApplyOp(mm, mint, b, op, false).batch.canonical == b.canonical + [c] && (c.CreateElement? ==> c.tempId !in pre.elements)
    ensures BoundToNew(pre, ApplyOp(mm, mint, b, op, false).batch)
  {
    hide IsReserved, InversePatch, MergePatch, RestoreElements, RestoreRelationships, Subtree, Known, ResolveProps, Note, NoteAll;
    assert c == ApplyOp(mm, mint, b, op, false).batch.canonical[|b.canonical|];
  }

  lemma StepDeletesCovered(mm: Metamodel, mint: Mint, pre: Model, x: set<Id>, b: Batch, op: ModelOp)
    requires DeletesCovered(mm, pre, x, b) && BoundToNew(pre, b) && Invalidation.Tracked(pre, b) && Covered(mm, pre, x, op)
    requires ApplyOp(mm, mint, b, op, false).Done?
    ensures DeletesCovered(mm, pre, x, ApplyOp(mm, mint, b, op, false).batch)
  {
    hide ApplyOp, Subtree, IsReserved;
    var c := StepCanonical(mm, mint, b, op);
  }

  lemma {:induction false} RunDeletesCovered(mm: Metamodel, mint: Mint, pre: Model, x: set<Id>, b: Batch, ops: seq<ModelOp>)
    requires DeletesCovered(mm, pre, x, b) && BoundToNew(pre, b) && Invalidation.Tracked(pre, b) && ApplyAll(mm, mint, b, ops, false).Done?
    requires forall op :: op in ops ==> Covered(mm, pre, x, op)
    requires NeverRevives(pre, ApplyAll(mm, mint, b, ops, false).batch.canonical)
    ensures DeletesCovered(mm, pre, x, ApplyAll(mm, mint, b, ops, false).batch)
    decreases |ops|
  {
    hide ApplyOp, DeletesCovered, BoundToNew, Invalidation.Tracked, Covered, Doomed;
    if ops != [] {
      var first := ApplyOp(mm, mint, b, ops[0], false).batch;
      var canon := ApplyAll(mm, mint, b, ops, false).batch.canonical;
      RunRemembers(mm, mint, first, ops[1..]);
      var c := StepCanonical(mm, mint, b, ops[0]);
      assert canon[|b.canonical|] == c;
      StepDeletesCovered(mm, mint, pre, x, b, ops[0]);
      StepBoundToNew(mm, mint, pre, b, ops[0], c);
      Invalidation.OpTracked(mm, mint, pre, b, ops[0], false);
      RunDeletesCovered(mm, mint, pre, x, first, ops[1..]);
    }
  }

  /** Without adoption a delete reaches the old subtree and new elements only. */
  lemma GrownReach(mm: Metamodel, pre: Model, canon: seq<ModelOp>, id: Id)
    requires Intact(pre) && AdoptsNone(mm, pre, canon)
    ensures ReachSet(Grown(mm, pre, canon), {id}) * pre.elements.Keys <= if id in pre.elements then Subtree(mm, pre, id) else {}
  {
    hide ReachSet, ReachableFrom, Containment, Succ, Grown, IsReserved;
    var g := Grown(mm, pre, canon);
    var all, below := ReachSet(g, {id}), if id in pre.elements then Subtree(mm, pre, id) else {};
    ReachSetExact(g, {id});
    ReachSetExact(Containment(mm, pre), {id});
    var s := set q | q in all && (q in pre.elements ==> q in below);
    forall p, q | p in s && q in Succ(g, p) ensures q in s {
      GrownEdge(mm, pre, canon, p, q);
      ContainmentEdge(mm, pre, p, q);
    }
    ReachableStays(g, s, {id});
  }

  /** What the subtree locks of a delete are for: a batch that adopts no existing element
      and revives no id always meets the guard. */
  lemma PlainDeletesAreGuarded(mm: Metamodel, mint: Mint, pre: Model, views: Views, ops: seq<Op>)
    requires Intact(pre) && OwnIds(pre, ops) && ApplyAll(mm, mint, StartBatch(pre), ModelPart(ops), false).Done?
    requires var o := ApplyAll(mm, mint, StartBatch(pre), ModelPart(ops), false).batch;
      NeverRevives(pre, o.canonical) && AdoptsNone(mm, pre, o.canonical)
    ensures var o := ApplyAll(mm, mint, StartBatch(pre), ModelPart(ops), false).batch;
      Guarded(mm, pre, ExclusiveIds(Required(mm, pre, views, ops)), o.canonical)
  {
    hide ApplyAll, Required, Covered, ModelPart, Intact, NeverRevives, AdoptsNone, ReachSet, Grown, Subtree, Invalidation.Tracked;
    var x := ExclusiveIds(Required(mm, pre, views, ops));
    var o := ApplyAll(mm, mint, StartBatch(pre), ModelPart(ops), false).batch;
    ModelPartOf(ops);
    forall op | op in ModelPart(ops) ensures Covered(mm, pre, x, op) {
      NeedsCover(mm, pre, views, ops, op);
    }
    Invalidation.StartAccounted(pre);
    RunDeletesCovered(mm, mint, pre, x, StartBatch(pre), ModelPart(ops));
    forall c | c in o.canonical && c.DeleteElement? ensures ReachSet(Grown(mm, pre, o.canonical), {c.id}) * pre.elements.Keys <= x {
      GrownReach(mm, pre, o.canonical, c.id);
    }
  }

  // ---- adopting and deleting in one batch ------------------------------------------------------------

  /** The lock of an adopted element is a shared pin: a batch that puts an existing
      element into a container and then deletes the container deletes that element
      without ever having locked it exclusively. */
  lemma AdoptThenDelete(mm: Metamodel, mint: Mint, pre: Model, views: Views, kind: string, s: Id, t: Id)
    requires Sound(mm, pre) && mm.IsContainment(kind) && s in pre.elements && t in pre.elements
    requires t !in Subtree(mm, pre, s) && mint(0) !in pre.elements && mint(0) !in pre.relationships
    ensures var ops := [CreateRelationship(TEMP_ID_PREFIX, kind, s, t, map[], None), DeleteElement(s)];
      var o := ApplyAll(mm, mint, StartBatch(pre), ops, false);
      && o.Done? && t !in o.batch.model.elements
      && t !in ExclusiveIds(Required(mm, pre, views, [OnModel(ops[0]), OnModel(ops[1])]))
  {
    hide Subtree, Required, ApplyOp, Sound;
    var create, delete := CreateRelationship(TEMP_ID_PREFIX, kind, s, t, map[], None), DeleteElement(s);
    assert [create, delete][1..] == [delete];
    var b := ApplyOp(mm, mint, StartBatch(pre), create, false).batch;
    AdoptStep(mm, mint, pre, kind, s, t);
    ApplySingle(mm, mint, b, delete, false);
    DeleteStep(mm, mint, b, mint(0), s, t);
    OwnSubtree(mm, pre, s);
    NotExclusive(mm, pre, views, create, delete, s, t);
  }

  lemma OwnSubtree(mm: Metamodel, m: Model, s: Id)
    ensures s in Subtree(mm, m, s)
  {
    ReachSetExact(Containment(mm, m), {s});
  }

  lemma AdoptStep(mm: Metamodel, mint: Mint, pre: Model, kind: string, s: Id, t: Id)
    requires Sound(mm, pre) && mm.IsContainment(kind) && s in pre.elements && t in pre.elements
    requires mint(0) !in pre.elements && mint(0) !in pre.relationships
    ensures var o := ApplyOp(mm, mint, StartBatch(pre), CreateRelationship(TEMP_ID_PREFIX, kind, s, t, map[], None), false);
      && o.Done? && s !in o.batch.ids && o.batch.model.elements == pre.elements
      && IsContained(mm, o.batch.model, mint(0), s, t)
  {
    hide Conforms, ModelNullFree;
  }

  lemma DeleteStep(mm: Metamodel, mint: Mint, b: Batch, rid: Id, s: Id, t: Id)
    requires s !in b.ids && s in b.model.elements && t in b.model.elements && IsContained(mm, b.model, rid, s, t)
    ensures var o := ApplyOp(mm, mint, b, DeleteElement(s), false); o.Done? && t !in o.batch.model.elements
  {
    hide Subtree, RestoreElements, RestoreRelationships, NoteAll;
    ChildIsDoomed(mm, b.model, rid, s, t);
  }

  lemma ChildIsDoomed(mm: Metamodel, m: Model, rid: Id, s: Id, t: Id)
    requires IsContained(mm, m, rid, s, t)
    ensures t in Subtree(mm, m, s) && s in Subtree(mm, m, s)
  {
    ContainmentEdge(mm, m, s, t);
    ReachSetExact(Containment(mm, m), {s});
  }

  lemma NotExclusive(mm: Metamodel, pre: Model, views: Views, create: ModelOp, delete: ModelOp, s: Id, t: Id)
    requires create.CreateRelationship? && create.source == s && create.target == t && delete == DeleteElement(s)
    requires t !in Subtree(mm, pre, s) && s in Subtree(mm, pre, s)
    ensures t !in ExclusiveIds(Required(mm, pre, views, [OnModel(create), OnModel(delete)]))
  {
    hide Subtree, IsReserved, CreatedBy;
    var ops := [OnModel(create), OnModel(delete)];
    assert ops[..1] == [OnModel(create)] && ops[..1][..0] == [];
    assert Required(mm, pre, views, ops[..1]) == Due(Needs(mm, pre, views, ops[0]), CreatedBy(ops[..1]));
  }
}
