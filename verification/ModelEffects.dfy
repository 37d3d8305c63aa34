/** What each model op does, in terms of the entities, the schema's own tables and the
    positions of its values (api/routes/ops.py): when it is accepted, what it leaves, what
    a temporary id means to later ops, and that the journaled ops replay. */
module ModelEffects {
  import opened Collections
  import opened Json
  import opened Graph
  import opened Model
  import opened ModelOps

  /** What a reference means: the final id of a temporary one, else itself. */
  function Meant(ids: map<Id, Id>, ref: Id): Id {
    if ref in ids then ids[ref] else ref
  }

  function ElementNames(mm: Metamodel, ty: string): set<string> {
    if ty in mm.elementTypes then mm.elementTypes[ty].properties else {}
  }

  function RelationshipNames(mm: Metamodel, ty: string): set<string> {
    if ty in mm.relationshipTypes then mm.relationshipTypes[ty].properties else {}
  }

  /** A bag written as asked, its temporary ids replaced. */
  ghost predicate Written(asked: Props, got: Props, ids: map<Id, Id>) {
    got.Keys == asked.Keys && forall k :: k in asked ==> StandsInLists(asked[k], got[k], ids)
  }

  /** A bag patched as asked: null removes a key, another value sets it, the rest stay. */
  ghost predicate Patched(before: Props, patch: Props, after: Props, ids: map<Id, Id>) {
    && (forall k :: k in after <==> if k in patch then patch[k] != Null else k in before)
    && (forall k :: k in after ==> if k in patch then StandsInLists(patch[k], after[k], ids) else after[k] == before[k])
  }

  lemma ResolvedIsWritten(props: Props, ids: map<Id, Id>)
    ensures Written(props, ResolveProps(props, ids), ids)
  {
    forall k | k in props ensures StandsInLists(props[k], ResolveProps(props, ids)[k], ids) {
      ResolveValueStands(props[k], ids);
    }
  }

  lemma MergedIsPatched(before: Props, patch: Props, ids: map<Id, Id>)
    ensures Patched(before, patch, MergePatch(before, ResolveProps(patch, ids)), ids)
  {
    hide StandsInLists;
    var after := MergePatch(before, ResolveProps(patch, ids));
    ResolvedIsWritten(patch, ids);
    forall k | k in patch ensures (ResolveValue(patch[k], ids) == Null) == (patch[k] == Null) {
    }
  }

  lemma AllKnown(props: Props, names: set<string>)
    requires props.Keys <= names
    ensures Known(props, names) == props
  {
  }

  // ---- creates ------------------------------------------------------------------------

  /** The id a create with a temporary id asks for or is given. */
  function Given(mint: Mint, b: Batch, hint: Option<Id>): Id {
    if hint.Some? then hint.value else mint(b.minted)
  }

  /** A create with a temporary id, hinted or not: when it is accepted, the element it
      makes, and that the temporary id means it from then on. */
  lemma CreateElementDoes(mm: Metamodel, mint: Mint, b: Batch, temp: Id, ty: string, props: Props, hint: Option<Id>, restore: bool)
    requires IsReserved(temp)
    ensures var o, id := ApplyOp(mm, mint, b, CreateElement(temp, ty, props, hint), restore), Given(mint, b, hint);
      && (o.Done? <==>
           && (hint.Some? ==> !IsReserved(id)) && id !in b.model.elements && id !in b.model.relationships
           && ty in mm.elementTypes && !mm.elementTypes[ty].abstr && props.Keys <= mm.elementTypes[ty].properties)
      && (o.Done? ==>
           && id in o.batch.model.elements && o.batch.model == Model(b.model.elements[id := o.batch.model.elements[id]], b.model.relationships)
           && o.batch.model.elements[id].typeName == ty && Written(props, o.batch.model.elements[id].props, b.ids)
           && o.batch.ids == b.ids[temp := id]
           && o.batch.minted == (if hint.None? then b.minted + 1 else b.minted)
           && o.batch.canonical == b.canonical + [CreateElement(id, ty, o.batch.model.elements[id].props, None)])
  {
    hide IsReserved, ResolveProps, Written, Note;
    ResolvedIsWritten(props, b.ids);
    ResolvedKeys(props, b.ids);
    if ResolveProps(props, b.ids).Keys <= mm.ElementProperties(ty) {
      AllKnown(ResolveProps(props, b.ids), mm.ElementProperties(ty));
    }
  }

  lemma CreateRelationshipDoes(mm: Metamodel, mint: Mint, b: Batch, temp: Id, ty: string, source: Id, target: Id, props: Props,
      hint: Option<Id>, restore: bool)
    requires IsReserved(temp)
    ensures var o, id := ApplyOp(mm, mint, b, CreateRelationship(temp, ty, source, target, props, hint), restore), Given(mint, b, hint);
      && (o.Done? <==>
           && (hint.Some? ==> !IsReserved(id)) && id !in b.model.elements && id !in b.model.relationships
           && Meant(b.ids, source) in b.model.elements && Meant(b.ids, target) in b.model.elements
           && ty in mm.relationshipTypes && props.Keys <= mm.relationshipTypes[ty].properties)
      && (o.Done? ==>
           && id in o.batch.model.relationships
           && o.batch.model == Model(b.model.elements, b.model.relationships[id := o.batch.model.relationships[id]])
           && (var r := o.batch.model.relationships[id];
               && r.typeName == ty && r.source == Meant(b.ids, source) && r.target == Meant(b.ids, target)
               && Written(props, r.props, b.ids)
               && o.batch.canonical == b.canonical + [CreateRelationship(id, ty, r.source, r.target, r.props, None)])
           && o.batch.ids == b.ids[temp := id]
           && o.batch.minted == (if hint.None? then b.minted + 1 else b.minted))
  {
    hide IsReserved, ResolveProps, Written, Note;
    ResolvedIsWritten(props, b.ids);
    ResolvedKeys(props, b.ids);
    if ResolveProps(props, b.ids).Keys <= mm.RelationshipProperties(ty) {
      AllKnown(ResolveProps(props, b.ids), mm.RelationshipProperties(ty));
    }
  }

  lemma ResolvedKeys(props: Props, ids: map<Id, Id>)
    ensures ResolveProps(props, ids).Keys == props.Keys
  {
  }

  /** A create under a plain id is for restore mode only, and reinstates that very id. */
  lemma PlainCreateDoes(mm: Metamodel, mint: Mint, b: Batch, op: ModelOp, restore: bool)
    requires (op.CreateElement? || op.CreateRelationship?) && !IsReserved(op.tempId)
    ensures var o := ApplyOp(mm, mint, b, op, restore);
      && (!restore ==> o == Failed(b))
      && (o.Done? ==> o.batch.ids == b.ids && o.batch.minted == b.minted && !InUse(b.model, op.tempId) && InUse(o.batch.model, op.tempId))
  {
    hide IsReserved, ResolveProps, Known, Note;
  }

  // ---- updates and deletes -------------------------------------------------------------

  lemma UpdateElementDoes(mm: Metamodel, mint: Mint, b: Batch, ref: Id, patch: Props, restore: bool)
    ensures var o, id := ApplyOp(mm, mint, b, UpdateElement(ref, patch), restore), Meant(b.ids, ref);
      && (o.Done? <==> id in b.model.elements && patch.Keys <= ElementNames(mm, b.model.elements[id].typeName))
      && (o.Done? ==>
           && id in o.batch.model.elements && o.batch.model == Model(b.model.elements[id := o.batch.model.elements[id]], b.model.relationships)
           && o.batch.model.elements[id].typeName == b.model.elements[id].typeName
           && Patched(b.model.elements[id].props, patch, o.batch.model.elements[id].props, b.ids)
           && o.batch.ids == b.ids)
  {
    hide MergePatch, InversePatch, ResolveProps, Patched, Note;
    ResolvedKeys(patch, b.ids);
    var id := Meant(b.ids, ref);
    if id in b.model.elements {
      MergedIsPatched(b.model.elements[id].props, patch, b.ids);
    }
  }

  lemma UpdateRelationshipDoes(mm: Metamodel, mint: Mint, b: Batch, ref: Id, patch: Props, restore: bool)
    ensures var o, id := ApplyOp(mm, mint, b, UpdateRelationship(ref, patch), restore), Meant(b.ids, ref);
      && (o.Done? <==> id in b.model.relationships && patch.Keys <= RelationshipNames(mm, b.model.relationships[id].typeName))
      && (o.Done? ==>
           && id in o.batch.model.relationships
           && o.batch.model == Model(b.model.elements, b.model.relationships[id := o.batch.model.relationships[id]])
           && (var was, r := b.model.relationships[id], o.batch.model.relationships[id];
               r == was.(props := r.props) && Patched(was.props, patch, r.props, b.ids))
           && o.batch.ids == b.ids)
  {
    hide MergePatch, InversePatch, ResolveProps, Patched, Note;
    ResolvedKeys(patch, b.ids);
    var id := Meant(b.ids, ref);
    if id in b.model.relationships {
      MergedIsPatched(b.model.relationships[id].props, patch, b.ids);
    }
  }

  /** The ids are closed under containment, as the schema and the relationships have it. */
  ghost predicate HoldsContained(mm: Metamodel, m: Model, ids: set<Id>) {
    forall rid :: rid in m.relationships && Contains(mm, m.relationships[rid].typeName) && m.relationships[rid].source in ids ==>
      m.relationships[rid].target in ids
  }

  /** A delete takes the element and all it contains, no more, and the relationships that
      have an end among them, no more. */
  lemma DeleteElementDoes(mm: Metamodel, mint: Mint, b: Batch, ref: Id, restore: bool)
    requires Intact(b.model)
    ensures var o, id := ApplyOp(mm, mint, b, DeleteElement(ref), restore), Meant(b.ids, ref);
      && (o.Done? <==> id in b.model.elements)
      && (o.Done? ==>
           var gone := b.model.elements.Keys - o.batch.model.elements.Keys;
           && id in gone && HoldsContained(mm, b.model, gone)
           && (forall ids :: id in ids && HoldsContained(mm, b.model, ids) ==> gone <= ids)
           && (forall e :: e in o.batch.model.elements ==> e in b.model.elements && o.batch.model.elements[e] == b.model.elements[e])
           && (forall rid :: rid in o.batch.model.relationships <==>
                rid in b.model.relationships && b.model.relationships[rid].source !in gone && b.model.relationships[rid].target !in gone)
           && (forall rid :: rid in o.batch.model.relationships ==> o.batch.model.relationships[rid] == b.model.relationships[rid])
           && o.batch.ids == b.ids)
  {
    hide Subtree, RestoreElements, RestoreRelationships, NoteAll, IsReserved, HoldsContained;
    var id := Meant(b.ids, ref);
    if id in b.model.elements {
      var els := Doomed(mm, b.model, id);
      SubtreeHolds(mm, b.model, id);
      assert b.model.elements.Keys - (b.model.elements - els).Keys == els;
      forall ids | id in ids && HoldsContained(mm, b.model, ids) ensures els <= ids {
        SubtreeIsLeast(mm, b.model, id, ids);
      }
    }
  }

  lemma SubtreeHolds(mm: Metamodel, m: Model, root: Id)
    requires Intact(m) && root in m.elements
    ensures root in Doomed(mm, m, root) && HoldsContained(mm, m, Doomed(mm, m, root))
  {
    hide ReachSet, ReachableFrom, Containment, Succ, IsReserved;
    ReachSetExact(Containment(mm, m), {root});
    forall rid | rid in m.relationships && Contains(mm, m.relationships[rid].typeName) && m.relationships[rid].source in Doomed(mm, m, root)
      ensures m.relationships[rid].target in Doomed(mm, m, root)
    {
      var r := m.relationships[rid];
      assert IsContained(mm, m, rid, r.source, r.target);
      ContainmentEdge(mm, m, r.source, r.target);
    }
  }

  lemma SubtreeIsLeast(mm: Metamodel, m: Model, root: Id, ids: set<Id>)
    requires root in ids && HoldsContained(mm, m, ids)
    ensures Subtree(mm, m, root) <= ids
  {
    hide ReachSet, ReachableFrom, Containment, Succ;
    var g := Containment(mm, m);
    ReachSetExact(g, {root});
    forall p, q | p in ids && q in Succ(g, p) ensures q in ids {
      ContainmentEdge(mm, m, p, q);
      var rid :| IsContained(mm, m, rid, p, q);
    }
    ReachableStays(g, ids, {root});
  }

  lemma DeleteRelationshipDoes(mm: Metamodel, mint: Mint, b: Batch, ref: Id, restore: bool)
    ensures var o, id := ApplyOp(mm, mint, b, DeleteRelationship(ref), restore), Meant(b.ids, ref);
      && (o.Done? <==> id in b.model.relationships)
      && (o.Done? ==> o.batch.model == Model(b.model.elements, b.model.relationships - {id}) && o.batch.ids == b.ids)
  {
  }

  // ---- temporary ids over a batch -------------------------------------------------------

  /** A temporary id goes on meaning what it was bound to until an op creates under it
      again. */
  lemma {:induction false} BindingStays(mm: Metamodel, mint: Mint, b: Batch, ops: seq<ModelOp>, restore: bool, temp: Id)
    requires ApplyAll(mm, mint, b, ops, restore).Done?
    requires forall op :: op in ops && (op.CreateElement? || op.CreateRelationship?) ==> op.tempId != temp
    ensures Lookup(ApplyAll(mm, mint, b, ops, restore).batch.ids, temp) == Lookup(b.ids, temp)
    decreases |ops|
  {
    hide ApplyOp;
    if ops != [] {
      OneBindingStays(mm, mint, b, ops[0], restore, temp);
      BindingStays(mm, mint, ApplyOp(mm, mint, b, ops[0], restore).batch, ops[1..], restore, temp);
    }
  }

  lemma OneBindingStays(mm: Metamodel, mint: Mint, b: Batch, op: ModelOp, restore: bool, temp: Id)
    requires (op.CreateElement? || op.CreateRelationship?) ==> op.tempId != temp
    ensures Lookup(ApplyOp(mm, mint, b, op, restore).batch.ids, temp) == Lookup(b.ids, temp)
  {
    hide IsReserved, MergePatch, InversePatch, RestoreElements, RestoreRelationships, Subtree, Known, ResolveProps, Note, NoteAll;
  }

  /** The ordinary client batch: an element under a temporary id and a relationship from
      it, neither with an id asked for. It lands, and the relationship's source is the
      element just made. */
  lemma CreateThenConnect(mm: Metamodel, mint: Mint, m: Model, t: Id, u: Id, ty: string, kind: string, e: Id)
    requires IsReserved(t) && IsReserved(u) && Intact(m) && PlainMint(mint) && e in m.elements
    requires ty in mm.elementTypes && !mm.elementTypes[ty].abstr && kind in mm.relationshipTypes
    requires !InUse(m, mint(0)) && !InUse(m, mint(1)) && mint(0) != mint(1)
    ensures var ops := [CreateElement(t, ty, map[], None), CreateRelationship(u, kind, t, e, map[], None)];
      var o := ApplyAll(mm, mint, StartBatch(m), ops, false);
      && o.Done? && mint(0) in o.batch.model.elements && o.batch.model.elements[mint(0)].typeName == ty
      && o.batch.model.elements == m.elements[mint(0) := o.batch.model.elements[mint(0)]]
      && mint(1) in o.batch.model.relationships
      && (var r := o.batch.model.relationships[mint(1)]; r.typeName == kind && r.source == mint(0) && r.target == e)
      && o.batch.model.relationships == m.relationships[mint(1) := o.batch.model.relationships[mint(1)]]
  {
    hide ApplyOp, Written, IsReserved;
    var c, r := CreateElement(t, ty, map[], None), CreateRelationship(u, kind, t, e, map[], None);
    assert [c, r][1..] == [r];
    assert !IsReserved(e);
    CreateElementDoes(mm, mint, StartBatch(m), t, ty, map[], None, false);
    var b := ApplyOp(mm, mint, StartBatch(m), c, false).batch;
    CreateRelationshipDoes(mm, mint, b, u, kind, t, e, map[], None, false);
    ApplySingle(mm, mint, b, r, false);
  }

  // ---- the journal replays ---------------------------------------------------------------

  lemma ReplayStep(mm: Metamodel, mint: Mint, b: Batch, op: ModelOp, restore: bool, again: Mint, c: Batch)
    requires Intact(b.model) && PlainMint(mint) && ApplyOp(mm, mint, b, op, restore).Done?
    requires c.ids == map[] && c.model == b.model
    ensures var o := ApplyOp(mm, mint, b, op, restore).batch;
      && |o.canonical| == |b.canonical| + 1 && o.canonical[..|b.canonical|] == b.canonical
      && (var r := ApplyOp(mm, again, c, o.canonical[|b.canonical|], true); r.Done? && r.batch.ids == map[] && r.batch.model == o.model)
  {
    hide ModelOps.Note, NoteAll, MergePatch, InversePatch, RestoreElements, RestoreRelationships, Subtree, ResolveProps, Known, Conforms,
      ModelNullFree, CreatesNoNull, Intact;
    var o := ApplyOp(mm, mint, b, op, restore).batch;
    OpKeeps(mm, mint, b, op, restore);
    if op.CreateElement? || op.CreateRelationship? {
      PlainIds(b.model);
      PlainIds(o.model);
      ResolvePropsEmpty(ResolveProps(op.props, b.ids));
    } else if op.UpdateElement? || op.UpdateRelationship? {
      ResolvePropsEmpty(ResolveProps(op.patch, b.ids));
    }
  }

  lemma PlainIds(m: Model)
    requires Intact(m)
    ensures forall id :: InUse(m, id) ==> !IsReserved(id)
  {
    hide IsReserved;
  }

  /** Replaying the canonical ops of an accepted batch in restore mode, whatever ids are
      minted meanwhile, gives the very model the batch left. */
  lemma {:induction false} CanonicalReplays(mm: Metamodel, mint: Mint, b: Batch, ops: seq<ModelOp>, restore: bool, again: Mint, c: Batch)
    returns (more: seq<ModelOp>)
    requires Intact(b.model) && PlainMint(mint) && ApplyAll(mm, mint, b, ops, restore).Done?
    requires c.ids == map[] && c.model == b.model
    ensures var o := ApplyAll(mm, mint, b, ops, restore).batch;
      && o.canonical == b.canonical + more && |more| == |ops|
      && (var r := ApplyAll(mm, again, c, more, true); r.Done? && r.batch.ids == map[] && r.batch.model == o.model)
    decreases |ops|
  {
    hide ApplyOp, Intact, Conforms, ModelNullFree, PlainMint, CreatesNoNull;
    if ops == [] {
      more := [];
    } else {
      var first := ApplyOp(mm, mint, b, ops[0], restore).batch;
      ReplayStep(mm, mint, b, ops[0], restore, again, c);
      OpKeeps(mm, mint, b, ops[0], restore);
      var op := first.canonical[|b.canonical|];
      assert first.canonical == b.canonical + [op];
      var next := ApplyOp(mm, again, c, op, true).batch;
      var rest := CanonicalReplays(mm, mint, first, ops[1..], restore, again, next);
      more := [op] + rest;
      assert more[1..] == rest;
    }
  }

  lemma JournalReplays(mm: Metamodel, mint: Mint, m: Model, ops: seq<ModelOp>, restore: bool, again: Mint)
    requires Intact(m) && PlainMint(mint) && ApplyAll(mm, mint, StartBatch(m), ops, restore).Done?
    ensures var o := ApplyAll(mm, mint, StartBatch(m), ops, restore).batch;
      var r := ApplyAll(mm, again, StartBatch(m), o.canonical, true);
      r.Done? && r.batch.model == o.model
  {
    hide ApplyAll, Intact, PlainMint;
    var more := CanonicalReplays(mm, mint, StartBatch(m), ops, restore, again, StartBatch(m));
    assert [] + more == more;
  }
}
