/** The model-op protocol and its applier (api/routes/ops.py): each op mutates the
    model, records the inverse unit that undoes it, and notes which ids it changed
    or deleted and what they were before the batch. */
module ModelOps {
  import opened Collections
  import opened Json
  import opened Model

  datatype ModelOp =
    | CreateElement(tempId: Id, typeName: string, props: Props, hint: Option<Id>)
    | UpdateElement(id: Id, patch: Props)
    | DeleteElement(id: Id)
    | CreateRelationship(tempId: Id, typeName: string, source: Id, target: Id, props: Props, hint: Option<Id>)
    | UpdateRelationship(id: Id, patch: Props)
    | DeleteRelationship(id: Id)

  /** What one batch produced so far. `ids` resolves temporary ids; `before*` holds
      the state of a touched id at its first touch. */
  datatype Batch = Batch(
    model: Model,
    ids: map<Id, Id>,
    units: seq<seq<ModelOp>>,
    canonical: seq<ModelOp>,
    changedEls: set<Id>,
    deletedEls: set<Id>,
    changedRels: set<Id>,
    deletedRels: set<Id>,
    beforeEls: map<Id, Option<Element>>,
    beforeRels: map<Id, Option<Relationship>>,
    minted: nat)

  /** A failure carries the batch as far as it got: what a rollback starts from. */
  datatype Outcome = Done(batch: Batch) | Failed(batch: Batch)

  /** The id generator, one id per call. */
  type Mint = nat -> Id

  function StartBatch(m: Model): Batch {
    Batch(m, map[], [], [], {}, {}, {}, {}, map[], map[], 0)
  }

  function InverseOps(b: Batch): seq<ModelOp> {
    Unwind(b.units)
  }

  // ---- properties -------------------------------------------------------------

  function ResolveProps(props: Props, ids: map<Id, Id>): Props {
    map k | k in props :: ResolveValue(props[k], ids)
  }

  /** JSON merge patch, one level (section 2 of RFC 7396 without its recursion):
      null deletes a key, anything else replaces it. */
  function MergePatch(props: Props, patch: Props): Props {
    map k | k in props.Keys + patch.Keys && (k in patch ==> patch[k] != Null)
      :: if k in patch then patch[k] else props[k]
  }

  function InversePatch(props: Props, patch: Props): Props {
    map k | k in patch :: GetOr(props, k, Null)
  }

  /** The inverse patch undoes the patch exactly when no patched key held a null. */
  lemma InversePatchUndoes(props: Props, patch: Props)
    ensures MergePatch(MergePatch(props, patch), InversePatch(props, patch)) == props
       <==> forall k :: k in patch && k in props ==> props[k] != Null
  {
    var patched := MergePatch(props, patch);
    var back := MergePatch(patched, InversePatch(props, patch));
    assert forall k :: k in patch && k !in props ==> k !in back;
    assert forall k :: k !in patch ==> (k in back <==> k in props);
    if k :| k in patch && k in props && props[k] == Null {
      assert k !in back;
    } else {
      assert back.Keys == props.Keys;
    }
  }

  lemma ResolvePropsEmpty(props: Props)
    ensures ResolveProps(props, map[]) == props
  {
    forall k | k in props ensures ResolveValue(props[k], map[]) == props[k] {
      ResolveValueFixed(props[k], map[]);
    }
  }

  // ---- one op -----------------------------------------------------------------

  /** The final id of a created entity: minted, hinted, or (restore) reinstated. */
  function FinalId(mint: Mint, minted: nat, tempId: Id, hint: Option<Id>, restore: bool): Option<Id> {
    if IsReserved(tempId) then
      match hint
      case None => Some(mint(minted))
      case Some(id) => if IsReserved(id) then None else hint
    else if restore then Some(tempId) else None
  }

  predicate InUse(m: Model, id: Id) {
    id in m.elements || id in m.relationships
  }

  function Note<V>(before: map<Id, Option<V>>, id: Id, state: Option<V>): map<Id, Option<V>> {
    if id in before then before else before[id := state]
  }

  /** Bookkeeping shared by the two creates. */
  function BindId(b: Batch, tempId: Id, hint: Option<Id>, id: Id): Batch {
    b.(ids := if IsReserved(tempId) then b.ids[tempId := id] else b.ids,
       minted := if IsReserved(tempId) && hint.None? then b.minted + 1 else b.minted)
  }

  function Known(props: Props, names: set<string>): Props {
    map k | k in props && k in names :: props[k]
  }

  function ApplyCreateElement(mm: Metamodel, mint: Mint, b: Batch, op: ModelOp, restore: bool): Outcome
    requires op.CreateElement?
  {
    var props := ResolveProps(op.props, b.ids);
    match FinalId(mint, b.minted, op.tempId, op.hint, restore)
    case None => Failed(b)
    case Some(id) =>
      if !mm.Instantiable(op.typeName) || InUse(b.model, id) then Failed(b) else
      var names := mm.ElementProperties(op.typeName);
      var made := BindId(b, op.tempId, op.hint, id).(
        model := Model(b.model.elements[id := Element(op.typeName, Known(props, names))], b.model.relationships),
        units := b.units + [[DeleteElement(id)]],
        beforeEls := Note(b.beforeEls, id, None));
      if !(props.Keys <= names) then Failed(made) else
      Done(made.(
        canonical := b.canonical + [CreateElement(id, op.typeName, props, None)],
        changedEls := b.changedEls + {id},
        deletedEls := b.deletedEls - {id}))
  }

  function ApplyUpdateElement(mm: Metamodel, b: Batch, op: ModelOp): Outcome
    requires op.UpdateElement?
  {
    var id := GetOr(b.ids, op.id, op.id);
    if id !in b.model.elements then Failed(b) else
    var el := b.model.elements[id];
    var patch := ResolveProps(op.patch, b.ids);
    if !(patch.Keys <= mm.ElementProperties(el.typeName)) then Failed(b) else
    Done(b.(
      model := Model(b.model.elements[id := el.(props := MergePatch(el.props, patch))], b.model.relationships),
      units := b.units + [[UpdateElement(id, InversePatch(el.props, patch))]],
      canonical := b.canonical + [UpdateElement(id, patch)],
      changedEls := b.changedEls + {id},
      deletedEls := b.deletedEls - {id},
      beforeEls := Note(b.beforeEls, id, Some(el))))
  }

  ghost function RestoreElements(m: Model, els: seq<Id>): seq<ModelOp>
    requires SetOf(els) <= m.elements.Keys
  {
    seq(|els|, i requires 0 <= i < |els| =>
      assert els[i] in SetOf(els);
      CreateElement(els[i], m.elements[els[i]].typeName, m.elements[els[i]].props, None))
  }

  ghost function RestoreRelationships(m: Model, rels: seq<Id>): seq<ModelOp>
    requires SetOf(rels) <= m.relationships.Keys
  {
    seq(|rels|, i requires 0 <= i < |rels| =>
      assert rels[i] in SetOf(rels);
      var r := m.relationships[rels[i]];
      CreateRelationship(rels[i], r.typeName, r.source, r.target, r.props, None))
  }

  function NoteAll<V>(before: map<Id, Option<V>>, states: map<Id, V>, ids: set<Id>): map<Id, Option<V>> {
    map id | id in before.Keys + (ids * states.Keys)
      :: if id in before then before[id] else Lookup(states, id)
  }

  /** The elements a delete removes: the containment closure. */
  ghost function Doomed(mm: Metamodel, m: Model, id: Id): set<Id> {
    Subtree(mm, m, id) * m.elements.Keys
  }

  ghost function ApplyDeleteElement(mm: Metamodel, b: Batch, op: ModelOp): Outcome
    requires op.DeleteElement?
  {
    var id := GetOr(b.ids, op.id, op.id);
    if id !in b.model.elements then Failed(b) else
    var els := Doomed(mm, b.model, id);
    var rels := IncidentIds(b.model, els);
    Done(b.(
      model := Model(b.model.elements - els, b.model.relationships - rels),
      units := b.units + [RestoreElements(b.model, Enumerate(els)) + RestoreRelationships(b.model, Enumerate(rels))],
      canonical := b.canonical + [DeleteElement(id)],
      changedEls := b.changedEls - els,
      deletedEls := b.deletedEls + els,
      changedRels := b.changedRels - rels,
      deletedRels := b.deletedRels + rels,
      beforeEls := NoteAll(b.beforeEls, b.model.elements, els),
      beforeRels := NoteAll(b.beforeRels, b.model.relationships, rels)))
  }

  function ApplyCreateRelationship(mm: Metamodel, mint: Mint, b: Batch, op: ModelOp, restore: bool): Outcome
    requires op.CreateRelationship?
  {
    var source := GetOr(b.ids, op.source, op.source);
    var target := GetOr(b.ids, op.target, op.target);
    var props := ResolveProps(op.props, b.ids);
    match FinalId(mint, b.minted, op.tempId, op.hint, restore)
    case None => Failed(b)
    case Some(id) =>
      if || op.typeName !in mm.relationshipTypes
         || source !in b.model.elements
         || target !in b.model.elements
         || InUse(b.model, id)
      then Failed(b) else
      var names := mm.RelationshipProperties(op.typeName);
      var made := BindId(b, op.tempId, op.hint, id).(
        model := Model(b.model.elements,
          b.model.relationships[id := Relationship(op.typeName, source, target, Known(props, names))]),
        units := b.units + [[DeleteRelationship(id)]],
        beforeRels := Note(b.beforeRels, id, None));
      if !(props.Keys <= names) then Failed(made) else
      Done(made.(
        canonical := b.canonical + [CreateRelationship(id, op.typeName, source, target, props, None)],
        changedRels := b.changedRels + {id},
        deletedRels := b.deletedRels - {id}))
  }

  function ApplyUpdateRelationship(mm: Metamodel, b: Batch, op: ModelOp): Outcome
    requires op.UpdateRelationship?
  {
    var id := GetOr(b.ids, op.id, op.id);
    if id !in b.model.relationships then Failed(b) else
    var rel := b.model.relationships[id];
    var patch := ResolveProps(op.patch, b.ids);
    if !(patch.Keys <= mm.RelationshipProperties(rel.typeName)) then Failed(b) else
    Done(b.(
      model := Model(b.model.elements, b.model.relationships[id := rel.(props := MergePatch(rel.props, patch))]),
      units := b.units + [[UpdateRelationship(id, InversePatch(rel.props, patch))]],
      canonical := b.canonical + [UpdateRelationship(id, patch)],
      changedRels := b.changedRels + {id},
      deletedRels := b.deletedRels - {id},
      beforeRels := Note(b.beforeRels, id, Some(rel))))
  }

  function ApplyDeleteRelationship(b: Batch, op: ModelOp): Outcome
    requires op.DeleteRelationship?
  {
    var id := GetOr(b.ids, op.id, op.id);
    if id !in b.model.relationships then Failed(b) else
    var rel := b.model.relationships[id];
    Done(b.(
      model := Model(b.model.elements, b.model.relationships - {id}),
      units := b.units + [[CreateRelationship(id, rel.typeName, rel.source, rel.target, rel.props, None)]],
      canonical := b.canonical + [DeleteRelationship(id)],
      changedRels := b.changedRels - {id},
      deletedRels := b.deletedRels + {id},
      beforeRels := Note(b.beforeRels, id, Some(rel))))
  }

  ghost function ApplyOp(mm: Metamodel, mint: Mint, b: Batch, op: ModelOp, restore: bool): Outcome {
    match op
    case CreateElement(_, _, _, _) => ApplyCreateElement(mm, mint, b, op, restore)
    case UpdateElement(_, _) => ApplyUpdateElement(mm, b, op)
    case DeleteElement(_) => ApplyDeleteElement(mm, b, op)
    case CreateRelationship(_, _, _, _, _, _) => ApplyCreateRelationship(mm, mint, b, op, restore)
    case UpdateRelationship(_, _) => ApplyUpdateRelationship(mm, b, op)
    case DeleteRelationship(_) => ApplyDeleteRelationship(b, op)
  }

  ghost function ApplyAll(mm: Metamodel, mint: Mint, b: Batch, ops: seq<ModelOp>, restore: bool): Outcome
    decreases |ops|
  {
    if ops == [] then Done(b) else
    var first := ApplyOp(mm, mint, b, ops[0], restore);
    if first.Failed? then first else ApplyAll(mm, mint, first.batch, ops[1..], restore)
  }

  lemma {:induction false} ApplyAllConcat(mm: Metamodel, mint: Mint, b: Batch, ops: seq<ModelOp>, more: seq<ModelOp>, restore: bool)
    ensures ApplyAll(mm, mint, b, ops + more, restore) ==
            (var first := ApplyAll(mm, mint, b, ops, restore);
             if first.Failed? then first else ApplyAll(mm, mint, first.batch, more, restore))
    decreases |ops|
  {
    if ops == [] {
      assert ops + more == more;
    } else {
      var first := ApplyOp(mm, mint, b, ops[0], restore);
      assert (ops + more)[0] == ops[0] && (ops + more)[1..] == ops[1..] + more;
      if first.Done? {
        ApplyAllConcat(mm, mint, first.batch, ops[1..], more, restore);
      }
    }
  }

  lemma ApplySingle(mm: Metamodel, mint: Mint, b: Batch, op: ModelOp, restore: bool)
    ensures ApplyAll(mm, mint, b, [op], restore) == ApplyOp(mm, mint, b, op, restore)
  {
    assert [op][1..] == [];
  }

  /** What a create with a requested id does. */
  lemma CreateElementHinted(mm: Metamodel, mint: Mint, b: Batch, temp: Id, el: Element, id: Id)
    requires IsReserved(temp) && !IsReserved(id)
    requires mm.Instantiable(el.typeName) && el.props.Keys <= mm.ElementProperties(el.typeName)
    ensures var o := ApplyOp(mm, mint, b, CreateElement(temp, el.typeName, el.props, Some(id)), false);
      && (o.Done? <==> !InUse(b.model, id))
      && (o.Done? ==>
           && o.batch.model == Model(
                b.model.elements[id := el.(props := ResolveProps(el.props, b.ids))], b.model.relationships)
           && o.batch.ids == b.ids[temp := id]
           && o.batch.deletedEls == b.deletedEls - {id} && o.batch.deletedRels == b.deletedRels)
  {
    hide IsReserved, ResolveValue;
    var props := ResolveProps(el.props, b.ids);
    assert Known(props, mm.ElementProperties(el.typeName)) == props;
  }

  lemma CreateRelationshipHinted(mm: Metamodel, mint: Mint, b: Batch, temp: Id, source: Id, target: Id, r: Relationship, id: Id)
    requires IsReserved(temp) && !IsReserved(id)
    requires GetOr(b.ids, source, source) == r.source && GetOr(b.ids, target, target) == r.target
    requires r.source in b.model.elements && r.target in b.model.elements
    requires r.typeName in mm.relationshipTypes && r.props.Keys <= mm.RelationshipProperties(r.typeName)
    ensures var o := ApplyOp(mm, mint, b, CreateRelationship(temp, r.typeName, source, target, r.props, Some(id)), false);
      && (o.Done? <==> !InUse(b.model, id))
      && (o.Done? ==>
           && o.batch.model == Model(
                b.model.elements, b.model.relationships[id := r.(props := ResolveProps(r.props, b.ids))])
           && o.batch.ids == b.ids[temp := id]
           && o.batch.deletedEls == b.deletedEls && o.batch.deletedRels == b.deletedRels - {id})
  {
    hide IsReserved, ResolveValue;
    var props := ResolveProps(r.props, b.ids);
    assert Known(props, mm.RelationshipProperties(r.typeName)) == props;
  }

  // ---- soundness is kept --------------------------------------------------------

  /** No minted id looks like a temporary one. */
  ghost predicate PlainMint(mint: Mint) {
    forall n :: !IsReserved(mint(n))
  }

  ghost predicate CreatesNoNull(op: ModelOp) {
    op.CreateElement? || op.CreateRelationship? ==> NullFree(op.props)
  }

  /** What the op creates conforms to the metamodel. */
  ghost predicate CreateFits(mm: Metamodel, op: ModelOp) {
    && (op.CreateElement? ==> FitsElement(mm, Element(op.typeName, op.props)))
    && (op.CreateRelationship? ==> FitsRelationship(mm, Relationship(op.typeName, op.source, op.target, op.props)))
  }

  ghost predicate Wholesome(mint: Mint, ops: seq<ModelOp>) {
    && PlainMint(mint)
    && (forall op :: op in ops ==> CreatesNoNull(op))
  }

  lemma PatchedKeys(props: Props, patch: Props)
    ensures NullFree(props) ==> NullFree(MergePatch(props, patch))
    ensures MergePatch(props, patch).Keys <= props.Keys + patch.Keys
  {
  }

  /** Resolution makes no null and removes none. */
  lemma ResolvedNullFree(props: Props, ids: map<Id, Id>)
    ensures NullFree(ResolveProps(props, ids)) == NullFree(props)
  {
    if NullFree(ResolveProps(props, ids)) {
      forall k | k in props ensures props[k] != Null {
        assert ResolveProps(props, ids)[k] != Null;
      }
    }
  }

  /** What a step keeps of a model; `plain` says whether it wrote no null. */
  ghost predicate Keeps(mm: Metamodel, m: Model, m': Model, plain: bool) {
    && (Intact(m) ==> Intact(m'))
    && (Conforms(mm, m) ==> Conforms(mm, m'))
    && (ModelNullFree(m) ==> (ModelNullFree(m') <==> plain))
  }

  lemma KeepsWithElement(mm: Metamodel, m: Model, id: Id, el: Element)
    requires Intact(m) ==> !IsReserved(id) && id !in m.relationships
    requires Conforms(mm, m) ==> mm.Instantiable(el.typeName) && el.props.Keys <= mm.ElementProperties(el.typeName)
    ensures Keeps(mm, m, Model(m.elements[id := el], m.relationships), NullFree(el.props))
  {
    hide IsReserved;
    var m' := Model(m.elements[id := el], m.relationships);
    assert m'.elements[id] == el;
  }

  lemma KeepsWithRelationship(mm: Metamodel, m: Model, id: Id, rel: Relationship)
    requires Intact(m) ==> !IsReserved(id) && id !in m.elements
    requires rel.source in m.elements && rel.target in m.elements
    requires Conforms(mm, m) ==> rel.typeName in mm.relationshipTypes && rel.props.Keys <= mm.RelationshipProperties(rel.typeName)
    ensures Keeps(mm, m, Model(m.elements, m.relationships[id := rel]), NullFree(rel.props))
  {
    hide IsReserved;
    var m' := Model(m.elements, m.relationships[id := rel]);
    assert m'.relationships[id] == rel;
  }

  lemma KeepsWithout(mm: Metamodel, m: Model, els: set<Id>, rels: set<Id>)
    requires IncidentIds(m, els) <= rels
    ensures Keeps(mm, m, Model(m.elements - els, m.relationships - rels), true)
  {
    hide IsReserved;
    assert forall rid :: rid in m.relationships && rid !in rels ==> rid !in IncidentIds(m, els);
  }

  lemma CreateKeeps(mm: Metamodel, mint: Mint, b: Batch, op: ModelOp, restore: bool)
    requires PlainMint(mint) && (op.CreateElement? || op.CreateRelationship?)
    requires ApplyOp(mm, mint, b, op, restore).Done?
    ensures Keeps(mm, b.model, ApplyOp(mm, mint, b, op, restore).batch.model, CreatesNoNull(op))
  {
    hide Keeps, NullFree, ResolveProps;
    var id := FinalId(mint, b.minted, op.tempId, op.hint, restore).value;
    var props := ResolveProps(op.props, b.ids);
    ResolvedNullFree(op.props, b.ids);
    if op.CreateElement? {
      assert Known(props, mm.ElementProperties(op.typeName)) == props;
      KeepsWithElement(mm, b.model, id, Element(op.typeName, props));
    } else {
      assert Known(props, mm.RelationshipProperties(op.typeName)) == props;
      KeepsWithRelationship(mm, b.model, id,
        Relationship(op.typeName, GetOr(b.ids, op.source, op.source), GetOr(b.ids, op.target, op.target), props));
    }
  }

  lemma UpdateElementKeeps(mm: Metamodel, b: Batch, op: ModelOp)
    requires op.UpdateElement? && ApplyUpdateElement(mm, b, op).Done?
    ensures Keeps(mm, b.model, ApplyUpdateElement(mm, b, op).batch.model, true)
  {
    hide IsReserved, MergePatch, NullFree, ResolveProps;
    var id := GetOr(b.ids, op.id, op.id);
    var el := b.model.elements[id];
    var el' := el.(props := MergePatch(el.props, ResolveProps(op.patch, b.ids)));
    PatchedKeys(el.props, ResolveProps(op.patch, b.ids));
    KeepsWithElement(mm, b.model, id, el');
  }

  lemma UpdateRelationshipKeeps(mm: Metamodel, b: Batch, op: ModelOp)
    requires op.UpdateRelationship? && ApplyUpdateRelationship(mm, b, op).Done?
    ensures Keeps(mm, b.model, ApplyUpdateRelationship(mm, b, op).batch.model, true)
  {
    hide IsReserved, MergePatch, NullFree, ResolveProps;
    var id := GetOr(b.ids, op.id, op.id);
    var rel := b.model.relationships[id];
    PatchedKeys(rel.props, ResolveProps(op.patch, b.ids));
    var rel' := rel.(props := MergePatch(rel.props, ResolveProps(op.patch, b.ids)));
    var m' := ApplyUpdateRelationship(mm, b, op).batch.model;
    assert m'.relationships == b.model.relationships[id := rel'];
  }

  lemma DeleteKeeps(mm: Metamodel, b: Batch, op: ModelOp)
    requires op.DeleteElement? || op.DeleteRelationship?
    requires op.DeleteElement? ==> ApplyDeleteElement(mm, b, op).Done?
    requires op.DeleteRelationship? ==> ApplyDeleteRelationship(b, op).Done?
    ensures op.DeleteElement? ==> Keeps(mm, b.model, ApplyDeleteElement(mm, b, op).batch.model, true)
    ensures op.DeleteRelationship? ==> Keeps(mm, b.model, ApplyDeleteRelationship(b, op).batch.model, true)
  {
    hide Keeps, Subtree;
    var id := GetOr(b.ids, op.id, op.id);
    if op.DeleteElement? {
      var els := Doomed(mm, b.model, id);
      KeepsWithout(mm, b.model, els, IncidentIds(b.model, els));
    } else {
      KeepsWithout(mm, b.model, {}, {id});
      assert b.model.elements - {} == b.model.elements;
    }
  }

  /** Every accepted op keeps the model's references intact, its ids apart and its
      entities conforming, and brings a null in exactly when it creates one. */
  lemma OpKeeps(mm: Metamodel, mint: Mint, b: Batch, op: ModelOp, restore: bool)
    requires PlainMint(mint) && ApplyOp(mm, mint, b, op, restore).Done?
    ensures Keeps(mm, b.model, ApplyOp(mm, mint, b, op, restore).batch.model, CreatesNoNull(op))
  {
    hide Keeps, ApplyCreateElement, ApplyCreateRelationship, ApplyUpdateElement, ApplyUpdateRelationship, ApplyDeleteElement,
      ApplyDeleteRelationship;
    if op.CreateElement? || op.CreateRelationship? {
      CreateKeeps(mm, mint, b, op, restore);
    } else if op.UpdateElement? {
      UpdateElementKeeps(mm, b, op);
    } else if op.UpdateRelationship? {
      UpdateRelationshipKeeps(mm, b, op);
    } else {
      DeleteKeeps(mm, b, op);
    }
  }

  lemma OpKeepsWhole(mm: Metamodel, mint: Mint, b: Batch, op: ModelOp, restore: bool)
    requires Whole(b.model) && Wholesome(mint, [op])
    requires ApplyOp(mm, mint, b, op, restore).Done?
    ensures Whole(ApplyOp(mm, mint, b, op, restore).batch.model)
  {
    hide ApplyOp, Intact, Conforms, ModelNullFree, PlainMint, CreatesNoNull;
    assert op in [op];
    OpKeeps(mm, mint, b, op, restore);
  }

  /** Deleting an element no relationship touches removes that element alone. */
  lemma DeleteLonely(mm: Metamodel, c: Batch, id: Id)
    requires id in c.model.elements && IncidentIds(c.model, {id}) == {} && id !in c.ids
    ensures var o := ApplyDeleteElement(mm, c, DeleteElement(id));
      && o.Done? && o.batch.ids == c.ids
      && o.batch.deletedEls == c.deletedEls + {id} && o.batch.deletedRels == c.deletedRels
      && o.batch.model == Model(c.model.elements - {id}, c.model.relationships)
  {
    hide Subtree;
    LonelySubtree(mm, c.model, id);
    assert Doomed(mm, c.model, id) == {id};
    assert c.model.relationships - {} == c.model.relationships;
  }
}
