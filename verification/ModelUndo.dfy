/** Undoing a batch of model ops through its inverse units in restore mode
    (api/routes/ops.py): exactly when that works, and that it then gives the model back.
    A delete checks no schema and restore mode does, so what a schema no longer allows can
    be deleted but not recreated. */
module ModelUndo {
  import opened Collections
  import opened Json
  import opened Model
  import opened ModelOps

  ghost predicate AllFit(mm: Metamodel, ops: seq<ModelOp>) {
    forall op :: op in ops ==> CreateFits(mm, op)
  }

  /** `unit`, run in restore mode, gives `before`, unless something it recreates does not
      conform; then it is refused. */
  ghost predicate Undoes(mm: Metamodel, mint: Mint, c: Batch, unit: seq<ModelOp>, before: Model) {
    var o := ApplyAll(mm, mint, c, unit, true);
    && (o.Done? <==> AllFit(mm, unit))
    && (o.Done? ==> o.batch.ids == map[] && o.batch.model == before)
  }

  // ---- one recorded unit -------------------------------------------------------------

  /** One reinstated element. */
  lemma ReplayElement(mm: Metamodel, mint: Mint, c: Batch, id: Id, el: Element)
    requires c.ids == map[] && !InUse(c.model, id) && !IsReserved(id)
    ensures var o := ApplyOp(mm, mint, c, CreateElement(id, el.typeName, el.props, None), true);
      && (o.Done? <==> FitsElement(mm, el))
      && (o.Done? ==> o.batch.ids == map[] && o.batch.model == Model(c.model.elements[id := el], c.model.relationships))
  {
    ResolvePropsEmpty(el.props);
    if FitsElement(mm, el) {
      assert Known(el.props, mm.ElementProperties(el.typeName)) == el.props;
    }
  }

  lemma ReplayRelationship(mm: Metamodel, mint: Mint, c: Batch, id: Id, rel: Relationship)
    requires c.ids == map[] && !InUse(c.model, id) && !IsReserved(id)
    requires rel.source in c.model.elements && rel.target in c.model.elements
    ensures var o := ApplyOp(mm, mint, c, CreateRelationship(id, rel.typeName, rel.source, rel.target, rel.props, None), true);
      && (o.Done? <==> FitsRelationship(mm, rel))
      && (o.Done? ==> o.batch.ids == map[] && o.batch.model == Model(c.model.elements, c.model.relationships[id := rel]))
  {
    ResolvePropsEmpty(rel.props);
    if FitsRelationship(mm, rel) {
      assert Known(rel.props, mm.RelationshipProperties(rel.typeName)) == rel.props;
    }
  }

  lemma AllFitCons(mm: Metamodel, ops: seq<ModelOp>)
    requires ops != []
    ensures AllFit(mm, ops) <==> CreateFits(mm, ops[0]) && AllFit(mm, ops[1..])
  {
    assert forall op :: op in ops <==> op == ops[0] || op in ops[1..];
  }

  lemma AllFitConcat(mm: Metamodel, a: seq<ModelOp>, b: seq<ModelOp>)
    ensures AllFit(mm, a + b) <==> AllFit(mm, a) && AllFit(mm, b)
  {
    assert forall op :: op in a + b <==> op in a || op in b;
  }

  /** Reinstating elements in restore mode, in any order. */
  lemma {:induction false} ReplayElements(mm: Metamodel, mint: Mint, c: Batch, full: Model, els: seq<Id>)
    requires Distinct(els) && SetOf(els) <= full.elements.Keys
    requires c.ids == map[] && Intact(full)
    requires SetOf(els) !! (c.model.elements.Keys + c.model.relationships.Keys)
    ensures var o := ApplyAll(mm, mint, c, RestoreElements(full, els), true);
      && (o.Done? <==> AllFit(mm, RestoreElements(full, els)))
      && (o.Done? ==>
           && o.batch.ids == map[]
           && o.batch.model.relationships == c.model.relationships
           && o.batch.model.elements == c.model.elements + Pick(full.elements, SetOf(els)))
    decreases |els|
  {
    hide ApplyOp, AllFit, FitsElement, IsReserved;
    var ops := RestoreElements(full, els);
    if els == [] {
      NothingUnfit(mm);
      assert ops == [] && c.model.elements + Pick(full.elements, {}) == c.model.elements;
    } else {
      assert els[0] in SetOf(els);
      var el := full.elements[els[0]];
      ReplayElement(mm, mint, c, els[0], el);
      AllFitCons(mm, ops);
      var first := ApplyOp(mm, mint, c, ops[0], true);
      var rest := els[1..];
      SetOfCons(els);
      DistinctTail(els);
      PickOneMore(c.model.elements, full.elements, els[0], SetOf(rest));
      assert ops[1..] == RestoreElements(full, rest);
      if first.Done? {
        ReplayElements(mm, mint, first.batch, full, rest);
      }
    }
  }

  lemma NothingUnfit(mm: Metamodel)
    ensures AllFit(mm, [])
  {
  }

  lemma {:induction false} ReplayRelationships(mm: Metamodel, mint: Mint, c: Batch, full: Model, rels: seq<Id>)
    requires Distinct(rels) && SetOf(rels) <= full.relationships.Keys
    requires c.ids == map[] && Intact(full)
    requires c.model.elements == full.elements
    requires SetOf(rels) !! c.model.relationships.Keys
    ensures var o := ApplyAll(mm, mint, c, RestoreRelationships(full, rels), true);
      && (o.Done? <==> AllFit(mm, RestoreRelationships(full, rels)))
      && (o.Done? ==>
           && o.batch.ids == map[]
           && o.batch.model.elements == c.model.elements
           && o.batch.model.relationships == c.model.relationships + Pick(full.relationships, SetOf(rels)))
    decreases |rels|
  {
    hide ApplyOp, AllFit, FitsRelationship, IsReserved;
    var ops := RestoreRelationships(full, rels);
    if rels == [] {
      NothingUnfit(mm);
      assert ops == [] && c.model.relationships + Pick(full.relationships, {}) == c.model.relationships;
    } else {
      assert rels[0] in SetOf(rels);
      var rel := full.relationships[rels[0]];
      ReplayRelationship(mm, mint, c, rels[0], rel);
      AllFitCons(mm, ops);
      var first := ApplyOp(mm, mint, c, ops[0], true);
      var rest := rels[1..];
      SetOfCons(rels);
      DistinctTail(rels);
      PickOneMore(c.model.relationships, full.relationships, rels[0], SetOf(rest));
      assert ops[1..] == RestoreRelationships(full, rest);
      if first.Done? {
        ReplayRelationships(mm, mint, first.batch, full, rest);
      }
    }
  }

  lemma UndoDeleteElement(mm: Metamodel, mint: Mint, m: Model, els: set<Id>, rels: set<Id>, c: Batch)
    requires Intact(m) && els <= m.elements.Keys && rels <= m.relationships.Keys
    requires c.ids == map[] && c.model == Model(m.elements - els, m.relationships - rels)
    ensures Undoes(mm, mint, c, RestoreElements(m, Enumerate(els)) + RestoreRelationships(m, Enumerate(rels)), m)
  {
    hide ApplyOp, AllFit, IsReserved;
    assert m.elements.Keys !! m.relationships.Keys;
    var es, rs := Enumerate(els), Enumerate(rels);
    ReplayElements(mm, mint, c, m, es);
    PickBack(m.elements, els);
    PickBack(m.relationships, rels);
    ApplyAllConcat(mm, mint, c, RestoreElements(m, es), RestoreRelationships(m, rs), true);
    AllFitConcat(mm, RestoreElements(m, es), RestoreRelationships(m, rs));
    var mid := ApplyAll(mm, mint, c, RestoreElements(m, es), true);
    if mid.Done? {
      ReplayRelationships(mm, mint, mid.batch, m, rs);
    }
  }

  lemma UndoCreateElement(mm: Metamodel, mint: Mint, m: Model, id: Id, el: Element, c: Batch)
    requires Intact(m) && !InUse(m, id) && c.ids == map[]
    requires c.model == Model(m.elements[id := el], m.relationships)
    ensures Undoes(mm, mint, c, [DeleteElement(id)], m)
  {
    hide ApplyAll, ApplyDeleteElement, Subtree;
    ApplySingle(mm, mint, c, DeleteElement(id), true);
    DeleteLonely(mm, c, id);
    assert c.model.elements - {id} == m.elements;
  }

  lemma InversePatchKeys(props: Props, patch: Props)
    ensures InversePatch(props, patch).Keys == patch.Keys
  {
  }

  lemma UndoUpdateElement(mm: Metamodel, mint: Mint, m: Model, id: Id, patch: Props, c: Batch)
    requires id in m.elements && NullFree(m.elements[id].props) && c.ids == map[]
    requires patch.Keys <= mm.ElementProperties(m.elements[id].typeName)
    requires c.model == Model(
      m.elements[id := m.elements[id].(props := MergePatch(m.elements[id].props, patch))], m.relationships)
    ensures Undoes(mm, mint, c, [UpdateElement(id, InversePatch(m.elements[id].props, patch))], m)
  {
    hide ApplyAll, MergePatch, InversePatch, ResolveProps;
    var inverse := InversePatch(m.elements[id].props, patch);
    InversePatchUndoes(m.elements[id].props, patch);
    InversePatchKeys(m.elements[id].props, patch);
    ResolvePropsEmpty(inverse);
    ApplySingle(mm, mint, c, UpdateElement(id, inverse), true);
    assert c.model.elements[id := m.elements[id]] == m.elements;
  }

  lemma UndoCreateRelationship(mm: Metamodel, mint: Mint, m: Model, id: Id, rel: Relationship, c: Batch)
    requires id !in m.relationships && c.ids == map[]
    requires c.model == Model(m.elements, m.relationships[id := rel])
    ensures Undoes(mm, mint, c, [DeleteRelationship(id)], m)
  {
    hide ApplyAll;
    ApplySingle(mm, mint, c, DeleteRelationship(id), true);
    assert m.relationships[id := rel] - {id} == m.relationships;
  }

  lemma UndoDeleteRelationship(mm: Metamodel, mint: Mint, m: Model, id: Id, c: Batch)
    requires Intact(m) && id in m.relationships && c.ids == map[]
    requires c.model == Model(m.elements, m.relationships - {id})
    ensures var rel := m.relationships[id];
      Undoes(mm, mint, c, [CreateRelationship(id, rel.typeName, rel.source, rel.target, rel.props, None)], m)
  {
    hide ApplyAll, ApplyOp;
    var rel := m.relationships[id];
    ReplayRelationship(mm, mint, c, id, rel);
    ApplySingle(mm, mint, c, CreateRelationship(id, rel.typeName, rel.source, rel.target, rel.props, None), true);
    AllFitCons(mm, [CreateRelationship(id, rel.typeName, rel.source, rel.target, rel.props, None)]);
    NothingUnfit(mm);
    assert (m.relationships - {id})[id := rel] == m.relationships;
  }

  lemma UndoUpdateRelationship(mm: Metamodel, mint: Mint, m: Model, id: Id, patch: Props, c: Batch)
    requires id in m.relationships && NullFree(m.relationships[id].props) && c.ids == map[]
    requires patch.Keys <= mm.RelationshipProperties(m.relationships[id].typeName)
    requires c.model == Model(
      m.elements, m.relationships[id := m.relationships[id].(props := MergePatch(m.relationships[id].props, patch))])
    ensures Undoes(mm, mint, c, [UpdateRelationship(id, InversePatch(m.relationships[id].props, patch))], m)
  {
    hide ApplyAll, MergePatch, InversePatch, ResolveProps;
    var inverse := InversePatch(m.relationships[id].props, patch);
    InversePatchUndoes(m.relationships[id].props, patch);
    InversePatchKeys(m.relationships[id].props, patch);
    ResolvePropsEmpty(inverse);
    ApplySingle(mm, mint, c, UpdateRelationship(id, inverse), true);
    assert c.model.relationships[id := m.relationships[id]] == m.relationships;
  }

  /** The units one op records undo what it did, even when it failed half way. */
  lemma UndoOp(mm: Metamodel, mint: Mint, b: Batch, op: ModelOp, restore: bool, again: Mint, c: Batch) returns (unit: seq<seq<ModelOp>>)
    requires Whole(b.model)
    ensures ApplyOp(mm, mint, b, op, restore).batch.units == b.units + unit && |unit| <= 1
    ensures c.model == ApplyOp(mm, mint, b, op, restore).batch.model && c.ids == map[] ==> Undoes(mm, again, c, Unwind(unit), b.model)
  {
    hide Undoes, Whole;
    var o := ApplyOp(mm, mint, b, op, restore).batch;
    if o == b {
      unit := [];
      if c.model == o.model && c.ids == map[] {
        UndoNothing(mm, again, c);
      }
    } else {
      AddsUnit(mm, mint, b, op, restore);
      unit := [o.units[|b.units|]];
      assert o.units == b.units + unit;
      assert Unwind(unit[1..]) == [];
      assert Unwind(unit) == unit[0];
      if c.model == o.model && c.ids == map[] {
        UndoRecorded(mm, mint, b, op, restore, again, c);
      }
    }
  }

  lemma AddsUnit(mm: Metamodel, mint: Mint, b: Batch, op: ModelOp, restore: bool)
    requires ApplyOp(mm, mint, b, op, restore).batch != b
    ensures var o := ApplyOp(mm, mint, b, op, restore).batch; |o.units| == |b.units| + 1 && o.units[..|b.units|] == b.units
  {
    hide IsReserved, InversePatch, MergePatch, RestoreElements, RestoreRelationships, Subtree, Known, ResolveProps, Note, NoteAll;
  }

  lemma UndoRecorded(mm: Metamodel, mint: Mint, b: Batch, op: ModelOp, restore: bool, again: Mint, c: Batch)
    requires Whole(b.model)
    requires var o := ApplyOp(mm, mint, b, op, restore).batch; o != b && c.model == o.model && c.ids == map[]
    ensures var o := ApplyOp(mm, mint, b, op, restore).batch;
      |o.units| == |b.units| + 1 && Undoes(mm, again, c, o.units[|b.units|], b.model)
  {
    hide IsReserved, Undoes, InversePatch, MergePatch, RestoreElements, RestoreRelationships, Subtree, Known, ResolveProps, Note, NoteAll, NullFree,
      Intact;
    var m := b.model;
    match op
    case CreateElement(t, ty, props, hint) =>
      var id := FinalId(mint, b.minted, t, hint, restore).value;
      UndoCreateElement(mm, again, m, id, c.model.elements[id], c);
    case UpdateElement(i, patch) =>
      UndoUpdateElement(mm, again, m, GetOr(b.ids, i, i), ResolveProps(patch, b.ids), c);
    case DeleteElement(i) =>
      var els := Doomed(mm, m, GetOr(b.ids, i, i));
      UndoDeleteElement(mm, again, m, els, IncidentIds(m, els), c);
    case CreateRelationship(t, ty, s, g, props, hint) =>
      var id := FinalId(mint, b.minted, t, hint, restore).value;
      UndoCreateRelationship(mm, again, m, id, c.model.relationships[id], c);
    case UpdateRelationship(i, patch) =>
      UndoUpdateRelationship(mm, again, m, GetOr(b.ids, i, i), ResolveProps(patch, b.ids), c);
    case DeleteRelationship(i) =>
      UndoDeleteRelationship(mm, again, m, GetOr(b.ids, i, i), c);
  }

  // ---- a whole batch -------------------------------------------------------------------

  /** Undoing in two stages: the later units first, then the earlier ones. */
  lemma UndoInStages(mm: Metamodel, mint: Mint, c: Batch, later: seq<seq<ModelOp>>, earlier: seq<seq<ModelOp>>, mid: Model, before: Model)
    requires |earlier| <= 1
    requires Undoes(mm, mint, c, Unwind(later), mid)
    requires var o := ApplyAll(mm, mint, c, Unwind(later), true); o.Done? ==> Undoes(mm, mint, o.batch, Unwind(earlier), before)
    ensures Undoes(mm, mint, c, Unwind(earlier + later), before)
  {
    hide ApplyOp, AllFit;
    if earlier == [] {
      assert earlier + later == later;
      NothingUnfit(mm);
    } else {
      assert (earlier + later)[1..] == later && Unwind(earlier[1..]) == [];
      assert Unwind(earlier) == earlier[0];
      assert Unwind(earlier + later) == Unwind(later) + earlier[0];
      AllFitConcat(mm, Unwind(later), earlier[0]);
      ApplyAllConcat(mm, mint, c, Unwind(later), earlier[0], true);
    }
  }

  /** The inverse units of a batch, newest first: after success (undo) and after a failure
      at any op (rollback). */
  lemma {:induction false} UndoAll(mm: Metamodel, mint: Mint, b: Batch, ops: seq<ModelOp>, restore: bool, again: Mint, c: Batch)
    returns (units: seq<seq<ModelOp>>)
    requires Whole(b.model) && Wholesome(mint, ops)
    requires var o := ApplyAll(mm, mint, b, ops, restore).batch; c.model == o.model && c.ids == map[]
    ensures ApplyAll(mm, mint, b, ops, restore).batch.units == b.units + units
    ensures Undoes(mm, again, c, Unwind(units), b.model)
    ensures ApplyAll(mm, mint, b, ops, restore).Done? ==> Whole(ApplyAll(mm, mint, b, ops, restore).batch.model)
    decreases |ops|
  {
    hide ApplyOp, Whole, Undoes, Unwind;
    if ops == [] {
      units := [];
      UndoNothing(mm, again, c);
    } else {
      var first := ApplyOp(mm, mint, b, ops[0], restore);
      if first.Failed? {
        units := UndoOp(mm, mint, b, ops[0], restore, again, c);
      } else {
        OpKeepsWhole(mm, mint, b, ops[0], restore);
        var later := UndoAll(mm, mint, first.batch, ops[1..], restore, again, c);
        var mid := ApplyAll(mm, again, c, Unwind(later), true);
        UndoneState(mm, again, c, Unwind(later), first.batch.model);
        var earlier := UndoOp(mm, mint, b, ops[0], restore, again, mid.batch);
        units := earlier + later;
        UndoInStages(mm, again, c, later, earlier, first.batch.model, b.model);
      }
    }
  }

  lemma UndoNothing(mm: Metamodel, mint: Mint, c: Batch)
    requires c.ids == map[]
    ensures Undoes(mm, mint, c, Unwind([]), c.model)
  {
  }

  lemma UndoneState(mm: Metamodel, mint: Mint, c: Batch, unit: seq<ModelOp>, before: Model)
    requires Undoes(mm, mint, c, unit, before)
    ensures var o := ApplyAll(mm, mint, c, unit, true); o.Done? ==> o.batch.ids == map[] && o.batch.model == before
  {
  }

  // ---- which entities decide -------------------------------------------------------------

  /** The entities of `m` that the ops recreate conform. */
  ghost predicate RecreatesFitting(mm: Metamodel, m: Model, ops: seq<ModelOp>) {
    && (forall op :: op in ops && op.CreateElement? && op.tempId in m.elements ==> FitsElement(mm, m.elements[op.tempId]))
    && (forall op :: op in ops && op.CreateRelationship? && op.tempId in m.relationships ==>
         FitsRelationship(mm, m.relationships[op.tempId]))
  }

  /** Where an entity that does not conform can be: still in the model as one of the old
      ones, or in a unit that recreates it as it was. */
  ghost predicate UnfitElementsOld(mm: Metamodel, m: Model, b: Batch) {
    && (forall id :: id in b.model.elements ==> FitsElement(mm, b.model.elements[id]) || (id in m.elements && !FitsElement(mm, m.elements[id])))
    && (forall op :: op in Flatten(b.units) && op.CreateElement? && !CreateFits(mm, op) ==>
         op.tempId in m.elements && !FitsElement(mm, m.elements[op.tempId]))
    && (AllFit(mm, Flatten(b.units)) ==> forall id :: id in m.elements && !FitsElement(mm, m.elements[id]) ==>
         && id in b.model.elements && !FitsElement(mm, b.model.elements[id])
         && forall op :: op in Flatten(b.units) && op.CreateElement? ==> op.tempId != id)
  }

  ghost predicate UnfitRelationshipsOld(mm: Metamodel, m: Model, b: Batch) {
    && (forall id :: id in b.model.relationships ==>
         FitsRelationship(mm, b.model.relationships[id]) || (id in m.relationships && !FitsRelationship(mm, m.relationships[id])))
    && (forall op :: op in Flatten(b.units) && op.CreateRelationship? && !CreateFits(mm, op) ==>
         op.tempId in m.relationships && !FitsRelationship(mm, m.relationships[op.tempId]))
    && (AllFit(mm, Flatten(b.units)) ==> forall id :: id in m.relationships && !FitsRelationship(mm, m.relationships[id]) ==>
         && id in b.model.relationships && !FitsRelationship(mm, b.model.relationships[id])
         && forall op :: op in Flatten(b.units) && op.CreateRelationship? ==> op.tempId != id)
  }

  /** What one op does to conformance: it makes entities that conform, changes none that
      stay, and its unit recreates exactly those it removes. */
  ghost predicate StepsElements(mm: Metamodel, b: Batch, o: Batch, unit: seq<ModelOp>) {
    && (forall id :: id in o.model.elements ==>
         if id in b.model.elements then FitsElement(mm, o.model.elements[id]) == FitsElement(mm, b.model.elements[id])
         else FitsElement(mm, o.model.elements[id]))
    && (forall id :: id in b.model.elements && id !in o.model.elements ==>
         exists op :: op in unit && op.CreateElement? && op.tempId == id && CreateFits(mm, op) == FitsElement(mm, b.model.elements[id]))
    && (forall op :: op in unit && op.CreateElement? ==>
         op.tempId in b.model.elements && CreateFits(mm, op) == FitsElement(mm, b.model.elements[op.tempId]))
  }

  ghost predicate StepsRelationships(mm: Metamodel, b: Batch, o: Batch, unit: seq<ModelOp>) {
    && (forall id :: id in o.model.relationships ==>
         if id in b.model.relationships then FitsRelationship(mm, o.model.relationships[id]) == FitsRelationship(mm, b.model.relationships[id])
         else FitsRelationship(mm, o.model.relationships[id]))
    && (forall id :: id in b.model.relationships && id !in o.model.relationships ==>
         exists op :: op in unit && op.CreateRelationship? && op.tempId == id
           && CreateFits(mm, op) == FitsRelationship(mm, b.model.relationships[id]))
    && (forall op :: op in unit && op.CreateRelationship? ==>
         op.tempId in b.model.relationships && CreateFits(mm, op) == FitsRelationship(mm, b.model.relationships[op.tempId]))
  }

  lemma PatchedFits(names: set<string>, props: Props, patch: Props)
    requires patch.Keys <= names
    ensures MergePatch(props, patch).Keys <= names <==> props.Keys <= names
  {
    if MergePatch(props, patch).Keys <= names {
      forall k | k in props ensures k in names {
        assert k !in patch ==> k in MergePatch(props, patch);
      }
    }
  }

  lemma KnownFits(props: Props, names: set<string>)
    ensures Known(props, names).Keys <= names
  {
  }

  lemma RestoredIs(m: Model, els: seq<Id>, rels: seq<Id>)
    requires SetOf(els) <= m.elements.Keys && SetOf(rels) <= m.relationships.Keys
    ensures var unit := RestoreElements(m, els) + RestoreRelationships(m, rels);
      && (forall id :: id in SetOf(els) ==> CreateElement(id, m.elements[id].typeName, m.elements[id].props, None) in unit)
      && (forall id :: id in SetOf(rels) ==>
           var r := m.relationships[id]; CreateRelationship(id, r.typeName, r.source, r.target, r.props, None) in unit)
      && (forall op :: op in unit && op.CreateElement? ==>
           op.tempId in SetOf(els) && op == CreateElement(op.tempId, m.elements[op.tempId].typeName, m.elements[op.tempId].props, None))
      && (forall op :: op in unit && op.CreateRelationship? ==>
           op.tempId in SetOf(rels) &&
           var r := m.relationships[op.tempId]; op == CreateRelationship(op.tempId, r.typeName, r.source, r.target, r.props, None))
  {
    var a, z := RestoreElements(m, els), RestoreRelationships(m, rels);
    forall id | id in SetOf(els) ensures CreateElement(id, m.elements[id].typeName, m.elements[id].props, None) in a + z {
      var i :| 0 <= i < |els| && els[i] == id;
      assert (a + z)[i] == a[i];
    }
    forall id | id in SetOf(rels)
      ensures var r := m.relationships[id]; CreateRelationship(id, r.typeName, r.source, r.target, r.props, None) in a + z
    {
      var i :| 0 <= i < |rels| && rels[i] == id;
      assert (a + z)[|a| + i] == z[i];
    }
    assert forall i :: 0 <= i < |els| ==> els[i] in SetOf(els);
    assert forall i :: 0 <= i < |rels| ==> rels[i] in SetOf(rels);
  }

  /** A step that removes some entities and recreates exactly them as they were. */
  lemma RemovalSteps(mm: Metamodel, b: Batch, o: Batch, els: set<Id>, rels: set<Id>, unit: seq<ModelOp>)
    requires els <= b.model.elements.Keys && rels <= b.model.relationships.Keys
    requires o.model == Model(b.model.elements - els, b.model.relationships - rels)
    requires unit == RestoreElements(b.model, Enumerate(els)) + RestoreRelationships(b.model, Enumerate(rels))
    ensures StepsElements(mm, b, o, unit) && StepsRelationships(mm, b, o, unit)
  {
    hide RestoreElements, RestoreRelationships;
    RestoredIs(b.model, Enumerate(els), Enumerate(rels));
    RemovalStepsElements(mm, b, o, els, unit);
    RemovalStepsRelationships(mm, b, o, rels, unit);
  }

  lemma RemovalStepsElements(mm: Metamodel, b: Batch, o: Batch, els: set<Id>, unit: seq<ModelOp>)
    requires els <= b.model.elements.Keys && o.model.elements == b.model.elements - els
    requires forall id :: id in els ==> CreateElement(id, b.model.elements[id].typeName, b.model.elements[id].props, None) in unit
    requires forall op :: op in unit && op.CreateElement? ==>
      op.tempId in els && op == CreateElement(op.tempId, b.model.elements[op.tempId].typeName, b.model.elements[op.tempId].props, None)
    ensures StepsElements(mm, b, o, unit)
  {
    hide FitsElement;
    forall id | id in b.model.elements && id !in o.model.elements
      ensures exists op :: op in unit && op.CreateElement? && op.tempId == id && CreateFits(mm, op) == FitsElement(mm, b.model.elements[id])
    {
      var op := CreateElement(id, b.model.elements[id].typeName, b.model.elements[id].props, None);
      assert op in unit && CreateFits(mm, op) == FitsElement(mm, b.model.elements[id]);
    }
  }

  lemma RemovalStepsRelationships(mm: Metamodel, b: Batch, o: Batch, rels: set<Id>, unit: seq<ModelOp>)
    requires rels <= b.model.relationships.Keys && o.model.relationships == b.model.relationships - rels
    requires forall id :: id in rels ==>
      var r := b.model.relationships[id]; CreateRelationship(id, r.typeName, r.source, r.target, r.props, None) in unit
    requires forall op :: op in unit && op.CreateRelationship? ==>
      op.tempId in rels &&
      var r := b.model.relationships[op.tempId]; op == CreateRelationship(op.tempId, r.typeName, r.source, r.target, r.props, None)
    ensures StepsRelationships(mm, b, o, unit)
  {
    hide FitsRelationship;
    forall id | id in b.model.relationships && id !in o.model.relationships
      ensures exists op ::
        op in unit && op.CreateRelationship? && op.tempId == id && CreateFits(mm, op) == FitsRelationship(mm, b.model.relationships[id])
    {
      var r := b.model.relationships[id];
      var op := CreateRelationship(id, r.typeName, r.source, r.target, r.props, None);
      assert op in unit && CreateFits(mm, op) == FitsRelationship(mm, r);
    }
  }

  /** A step that sets one entity and recreates nothing. */
  lemma SetElementSteps(mm: Metamodel, b: Batch, o: Batch, id: Id, el: Element, unit: seq<ModelOp>)
    requires o.model == Model(b.model.elements[id := el], b.model.relationships)
    requires if id in b.model.elements then FitsElement(mm, el) == FitsElement(mm, b.model.elements[id]) else FitsElement(mm, el)
    requires forall op :: op in unit ==> !op.CreateElement? && !op.CreateRelationship?
    ensures StepsElements(mm, b, o, unit) && StepsRelationships(mm, b, o, unit)
  {
    hide FitsElement, FitsRelationship;
  }

  lemma SetRelationshipSteps(mm: Metamodel, b: Batch, o: Batch, id: Id, r: Relationship, unit: seq<ModelOp>)
    requires o.model == Model(b.model.elements, b.model.relationships[id := r])
    requires if id in b.model.relationships then FitsRelationship(mm, r) == FitsRelationship(mm, b.model.relationships[id])
      else FitsRelationship(mm, r)
    requires forall op :: op in unit ==> !op.CreateElement? && !op.CreateRelationship?
    ensures StepsElements(mm, b, o, unit) && StepsRelationships(mm, b, o, unit)
  {
    hide FitsElement, FitsRelationship;
  }

  ghost predicate Steps(mm: Metamodel, b: Batch, o: Batch) {
    && |o.units| == |b.units| + 1 && o.units[..|b.units|] == b.units
    && StepsElements(mm, b, o, o.units[|b.units|]) && StepsRelationships(mm, b, o, o.units[|b.units|])
  }

  lemma CreateSteps(mm: Metamodel, mint: Mint, b: Batch, op: ModelOp, restore: bool)
    requires op.CreateElement? || op.CreateRelationship?
    requires ApplyOp(mm, mint, b, op, restore).batch != b
    ensures Steps(mm, b, ApplyOp(mm, mint, b, op, restore).batch)
  {
    hide IsReserved, Known, ResolveProps, Note, StepsElements, StepsRelationships;
    var o, id := ApplyOp(mm, mint, b, op, restore).batch, FinalId(mint, b.minted, op.tempId, op.hint, restore).value;
    if op.CreateElement? {
      KnownFits(ResolveProps(op.props, b.ids), mm.ElementProperties(op.typeName));
      SetElementSteps(mm, b, o, id, o.model.elements[id], [DeleteElement(id)]);
    } else {
      KnownFits(ResolveProps(op.props, b.ids), mm.RelationshipProperties(op.typeName));
      SetRelationshipSteps(mm, b, o, id, o.model.relationships[id], [DeleteRelationship(id)]);
    }
  }

  lemma UpdateSteps(mm: Metamodel, mint: Mint, b: Batch, op: ModelOp, restore: bool)
    requires op.UpdateElement? || op.UpdateRelationship?
    requires ApplyOp(mm, mint, b, op, restore).Done?
    ensures Steps(mm, b, ApplyOp(mm, mint, b, op, restore).batch)
  {
    hide MergePatch, InversePatch, ResolveProps, Note, StepsElements, StepsRelationships;
    var o, id, patch := ApplyOp(mm, mint, b, op, restore).batch, GetOr(b.ids, op.id, op.id), ResolveProps(op.patch, b.ids);
    if op.UpdateElement? {
      var el := b.model.elements[id];
      PatchedFits(mm.ElementProperties(el.typeName), el.props, patch);
      SetElementSteps(mm, b, o, id, o.model.elements[id], [UpdateElement(id, InversePatch(el.props, patch))]);
    } else {
      var rel := b.model.relationships[id];
      PatchedFits(mm.RelationshipProperties(rel.typeName), rel.props, patch);
      SetRelationshipSteps(mm, b, o, id, o.model.relationships[id], [UpdateRelationship(id, InversePatch(rel.props, patch))]);
    }
  }

  lemma DeleteSteps(mm: Metamodel, mint: Mint, b: Batch, op: ModelOp, restore: bool)
    requires op.DeleteElement? || op.DeleteRelationship?
    requires ApplyOp(mm, mint, b, op, restore).Done?
    ensures Steps(mm, b, ApplyOp(mm, mint, b, op, restore).batch)
  {
    hide RestoreElements, RestoreRelationships, Subtree, NoteAll, Note, StepsElements, StepsRelationships;
    var o, id := ApplyOp(mm, mint, b, op, restore).batch, GetOr(b.ids, op.id, op.id);
    if op.DeleteElement? {
      var els := Doomed(mm, b.model, id);
      RemovalSteps(mm, b, o, els, IncidentIds(b.model, els), o.units[|b.units|]);
    } else {
      var r := b.model.relationships[id];
      var unit := [CreateRelationship(id, r.typeName, r.source, r.target, r.props, None)];
      assert o.model.elements == b.model.elements - {};
      RemovalStepsElements(mm, b, o, {}, unit);
      RemovalStepsRelationships(mm, b, o, {id}, unit);
    }
  }

  /** One step keeps both halves of the invariant. */
  lemma StepUnfitElements(mm: Metamodel, m: Model, b: Batch, o: Batch)
    requires UnfitElementsOld(mm, m, b) && Steps(mm, b, o)
    ensures UnfitElementsOld(mm, m, o)
  {
    hide FitsElement, FitsRelationship, StepsRelationships, CreateFits;
    FlattenSnoc(b.units, o.units[|b.units|]);
    assert o.units == b.units + [o.units[|b.units|]];
    var was, unit := Flatten(b.units), o.units[|b.units|];
    assert Flatten(o.units) == was + unit;
    AllFitConcat(mm, was, unit);
    assert forall op :: op in was + unit <==> op in was || op in unit;
  }

  lemma StepUnfitRelationships(mm: Metamodel, m: Model, b: Batch, o: Batch)
    requires UnfitRelationshipsOld(mm, m, b) && Steps(mm, b, o)
    ensures UnfitRelationshipsOld(mm, m, o)
  {
    hide FitsElement, FitsRelationship, StepsElements, CreateFits;
    FlattenSnoc(b.units, o.units[|b.units|]);
    assert o.units == b.units + [o.units[|b.units|]];
    var was, unit := Flatten(b.units), o.units[|b.units|];
    assert Flatten(o.units) == was + unit;
    AllFitConcat(mm, was, unit);
    assert forall op :: op in was + unit <==> op in was || op in unit;
  }

  lemma OpUnfitOld(mm: Metamodel, mint: Mint, m: Model, b: Batch, op: ModelOp, restore: bool)
    requires UnfitElementsOld(mm, m, b) && UnfitRelationshipsOld(mm, m, b)
    ensures var o := ApplyOp(mm, mint, b, op, restore).batch; UnfitElementsOld(mm, m, o) && UnfitRelationshipsOld(mm, m, o)
  {
    hide UnfitElementsOld, UnfitRelationshipsOld, Steps;
    var o := ApplyOp(mm, mint, b, op, restore).batch;
    if o != b {
      if op.CreateElement? || op.CreateRelationship? {
        CreateSteps(mm, mint, b, op, restore);
      } else if op.UpdateElement? || op.UpdateRelationship? {
        UpdateSteps(mm, mint, b, op, restore);
      } else {
        DeleteSteps(mm, mint, b, op, restore);
      }
      StepUnfitElements(mm, m, b, o);
      StepUnfitRelationships(mm, m, b, o);
    }
  }

  lemma {:induction false} RunUnfitOld(mm: Metamodel, mint: Mint, m: Model, b: Batch, ops: seq<ModelOp>, restore: bool)
    requires UnfitElementsOld(mm, m, b) && UnfitRelationshipsOld(mm, m, b)
    ensures var o := ApplyAll(mm, mint, b, ops, restore).batch; UnfitElementsOld(mm, m, o) && UnfitRelationshipsOld(mm, m, o)
    decreases |ops|
  {
    hide ApplyOp, UnfitElementsOld, UnfitRelationshipsOld;
    if ops != [] {
      var first := ApplyOp(mm, mint, b, ops[0], restore);
      OpUnfitOld(mm, mint, m, b, ops[0], restore);
      if first.Done? {
        RunUnfitOld(mm, mint, m, first.batch, ops[1..], restore);
      }
    }
  }

  /** What the units recreate all conforms exactly when the entities of the start do that
      they recreate: whatever else they recreate was made to the schema by the batch. */
  lemma FitsIffOldFit(mm: Metamodel, m: Model, b: Batch)
    requires UnfitElementsOld(mm, m, b) && UnfitRelationshipsOld(mm, m, b)
    ensures AllFit(mm, Flatten(b.units)) <==> RecreatesFitting(mm, m, Flatten(b.units))
  {
    hide FitsElement, FitsRelationship, Flatten;
    var ops := Flatten(b.units);
    if RecreatesFitting(mm, m, ops) {
      forall op | op in ops ensures CreateFits(mm, op) {
      }
    }
  }

  lemma {:induction false} UnwindHolds(units: seq<seq<ModelOp>>)
    ensures forall op :: op in Unwind(units) <==> op in Flatten(units)
  {
    if units != [] {
      UnwindHolds(units[1..]);
    }
  }

  lemma StartUnfitOld(mm: Metamodel, m: Model)
    ensures UnfitElementsOld(mm, m, StartBatch(m)) && UnfitRelationshipsOld(mm, m, StartBatch(m))
  {
  }

  /** A batch either lands or fails at some op, and then its inverse units are run: they
      are refused exactly when an entity of the start that they recreate does not conform,
      and otherwise leave the model as it was. So rollback of a failed batch and undo of
      one that landed, whatever ids are minted meanwhile. */
  lemma UndoIffFitting(mm: Metamodel, mint: Mint, m: Model, ops: seq<ModelOp>, restore: bool, again: Mint)
    requires Whole(m) && Wholesome(mint, ops)
    ensures var o := ApplyAll(mm, mint, StartBatch(m), ops, restore);
      var back := ApplyAll(mm, again, StartBatch(o.batch.model), InverseOps(o.batch), true);
      && (back.Done? <==> RecreatesFitting(mm, m, InverseOps(o.batch)))
      && (back.Done? ==> back.batch.model == m)
      && (o.Done? ==> Whole(o.batch.model))
  {
    hide ApplyAll, AllFit, RecreatesFitting, Whole, UnfitElementsOld, UnfitRelationshipsOld, Wholesome;
    var o := ApplyAll(mm, mint, StartBatch(m), ops, restore);
    var units := UndoAll(mm, mint, StartBatch(m), ops, restore, again, StartBatch(o.batch.model));
    assert o.batch.units == units;
    StartUnfitOld(mm, m);
    RunUnfitOld(mm, mint, m, StartBatch(m), ops, restore);
    FitsIffOldFit(mm, m, o.batch);
    UnwindHolds(units);
    SameOpsFit(mm, m, Unwind(units), Flatten(units));
  }

  lemma SameOpsFit(mm: Metamodel, m: Model, a: seq<ModelOp>, b: seq<ModelOp>)
    requires forall op :: op in a <==> op in b
    ensures AllFit(mm, a) == AllFit(mm, b) && RecreatesFitting(mm, m, a) == RecreatesFitting(mm, m, b)
  {
  }

  /** A batch on a conforming model is atomic: it lands, or rolling back leaves the model as
      it was; and what landed can always be undone. */
  lemma BatchAtomic(mm: Metamodel, mint: Mint, m: Model, ops: seq<ModelOp>, restore: bool, again: Mint)
    requires Sound(mm, m) && Wholesome(mint, ops)
    ensures var o := ApplyAll(mm, mint, StartBatch(m), ops, restore);
      var back := ApplyAll(mm, again, StartBatch(o.batch.model), InverseOps(o.batch), true);
      back.Done? && back.batch.model == m
  {
    hide ApplyAll, Intact, ModelNullFree, Wholesome;
    UndoIffFitting(mm, mint, m, ops, restore, again);
  }

  // ---- the smallest batch that cannot be undone ------------------------------------------------

  /** Deleting an element whose type the schema no longer has is accepted, and neither
      undo nor the rollback of a batch that fails after it can bring it back. The smallest
      model is one such element alone. */
  lemma LegacyDeleteStays(mm: Metamodel, mint: Mint, again: Mint, m: Model, x: Id)
    requires Whole(m) && PlainMint(mint)
    requires x in m.elements && IncidentIds(m, {x}) == {} && !mm.Instantiable(m.elements[x].typeName)
    ensures var landed := ApplyAll(mm, mint, StartBatch(m), [DeleteElement(x)], false);
      var failed := ApplyAll(mm, mint, StartBatch(m), [DeleteElement(x), DeleteElement(x)], false);
      && landed.Done? && failed.Failed?
      && ApplyAll(mm, again, StartBatch(landed.batch.model), InverseOps(landed.batch), true).Failed?
      && ApplyAll(mm, again, StartBatch(failed.batch.model), InverseOps(failed.batch), true).Failed?
  {
    hide ApplyAll, ApplyDeleteElement, IsReserved, Intact, ModelNullFree, RecreatesFitting;
    var d := DeleteElement(x);
    DeleteOnly(mm, m, x);
    var b := ApplyDeleteElement(mm, StartBatch(m), d).batch;
    ApplySingle(mm, mint, StartBatch(m), d, false);
    ApplyAllConcat(mm, mint, StartBatch(m), [d], [d], false);
    ApplySingle(mm, mint, b, d, false);
    DeleteMissing(mm, b, d);
    assert [d] + [d] == [d, d];
    UnwindHolds(b.units);
    RecreatesUnfit(mm, m, x, InverseOps(b));
    UndoIffFitting(mm, mint, m, [d], false, again);
    UndoIffFitting(mm, mint, m, [d, d], false, again);
  }

  lemma DeleteMissing(mm: Metamodel, b: Batch, op: ModelOp)
    requires op.DeleteElement? && b.ids == map[] && op.id !in b.model.elements
    ensures ApplyDeleteElement(mm, b, op) == Failed(b)
  {
    hide Subtree, NoteAll, RestoreElements, RestoreRelationships;
  }

  lemma RecreatesUnfit(mm: Metamodel, m: Model, x: Id, ops: seq<ModelOp>)
    requires x in m.elements && !FitsElement(mm, m.elements[x])
    requires exists op :: op in ops && op.CreateElement? && op.tempId == x
    ensures !RecreatesFitting(mm, m, ops)
  {
  }

  lemma DeleteOnly(mm: Metamodel, m: Model, x: Id)
    requires x in m.elements && IncidentIds(m, {x}) == {}
    ensures var o := ApplyDeleteElement(mm, StartBatch(m), DeleteElement(x));
      && o.Done? && o.batch.model == Model(m.elements - {x}, m.relationships) && o.batch.ids == map[]
      && exists op :: op in Flatten(o.batch.units) && op.CreateElement? && op.tempId == x
  {
    hide Subtree, RestoreElements, RestoreRelationships;
    DeleteLonely(mm, StartBatch(m), x);
    var o := ApplyDeleteElement(mm, StartBatch(m), DeleteElement(x)).batch;
    DeleteSteps(mm, n => "", StartBatch(m), DeleteElement(x), false);
    FlattenSingleton(o.units[0]);
    assert o.units == [o.units[0]];
  }
}
