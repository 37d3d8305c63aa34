/** Cell-cache invalidation (api/invalidation.py): what one applied batch wrote, in the
    vocabulary of what a script call reads (core/script/bridge.py). */
module Invalidation {
  import opened Collections
  import opened Model
  import opened ModelOps

  datatype ReadKey =
    | El(id: Id)
    | Out(id: Id)
    | In(id: Id)
    | ChildrenOf(id: Id)
    | ParentOf(id: Id)
    | Scan(stereotype: Option<string>)

  /** What a key reads. Hops give relationships; `children` and scans inline whole
      elements; `parent` gives ids only. Whether the queried element exists is what
      `El` answers. */
  datatype Answer =
    | TheElement(element: Option<Element>)
    | Links(links: map<Id, Relationship>)
    | Contents(children: map<Id, (Id, Option<Element>)>)
    | Containers(parents: map<Id, Id>)
    | Page(elements: map<Id, Element>)

  function ScanTypes(mm: Metamodel, ty: string): set<string> {
    {ty} + mm.ElementAncestors(ty)
  }

  function Read(mm: Metamodel, m: Model, k: ReadKey): Answer {
    match k
    case El(id) => TheElement(Lookup(m.elements, id))
    case Out(s) => Links(map rid | rid in m.relationships && m.relationships[rid].source == s :: m.relationships[rid])
    case In(t) => Links(map rid | rid in m.relationships && m.relationships[rid].target == t :: m.relationships[rid])
    case ChildrenOf(s) =>
      Contents(map rid | rid in m.relationships && m.relationships[rid].source == s && mm.IsContainment(m.relationships[rid].typeName)
        :: (m.relationships[rid].target, Lookup(m.elements, m.relationships[rid].target)))
    case ParentOf(t) =>
      Containers(map rid | rid in m.relationships && m.relationships[rid].target == t && mm.IsContainment(m.relationships[rid].typeName)
        :: m.relationships[rid].source)
    case Scan(ty) =>
      Page(map id | id in m.elements && (ty.None? || ty.value in ScanTypes(mm, m.elements[id].typeName)) :: m.elements[id])
  }

  // ---- the keys of one entity ---------------------------------------------------------

  function ScanKeys(mm: Metamodel, ty: string): set<ReadKey> {
    {Scan(None)} + set t | t in ScanTypes(mm, ty) :: Scan(Some(t))
  }

  function RelKeys(mm: Metamodel, ty: string, source: Id, target: Id): set<ReadKey> {
    {Out(source), In(target)} + if mm.IsContainment(ty) then {ChildrenOf(source), ParentOf(target)} else {}
  }

  /** Every containment parent, not just the first. */
  function ParentsOf(mm: Metamodel, m: Model, child: Id): set<Id> {
    set rid | rid in m.relationships && m.relationships[rid].target == child && mm.IsContainment(m.relationships[rid].typeName)
      :: m.relationships[rid].source
  }

  function ChangedElementKeys(mm: Metamodel, m: Model, id: Id): set<ReadKey> {
    {El(id)} + (set p | p in ParentsOf(mm, m, id) :: ChildrenOf(p))
    + if id in m.elements then ScanKeys(mm, m.elements[id].typeName) else {}
  }

  function DeletedElementKeys(mm: Metamodel, types: map<Id, string>, id: Id): set<ReadKey> {
    {El(id)} + if id in types then ScanKeys(mm, types[id]) else {}
  }

  datatype Ends = Ends(typeName: string, source: Id, target: Id)

  function EndsOf(r: Relationship): Ends {
    Ends(r.typeName, r.source, r.target)
  }

  function EndsKeys(mm: Metamodel, ends: map<Id, Ends>, id: Id): set<ReadKey> {
    if id in ends then RelKeys(mm, ends[id].typeName, ends[id].source, ends[id].target) else {}
  }

  function AllEnds(m: Model, rels: set<Id>): map<Id, Ends> {
    map rid | rid in rels && rid in m.relationships :: EndsOf(m.relationships[rid])
  }

  function TypesOf(m: Model, els: set<Id>): map<Id, string> {
    map id | id in els && id in m.elements :: m.elements[id].typeName
  }

  /** Types of the elements the inverse units would recreate; the latest unit wins. */
  function InverseTypes(ops: seq<ModelOp>): map<Id, string> {
    if ops == [] then map[] else
    var last := ops[|ops| - 1];
    var earlier := InverseTypes(ops[..|ops| - 1]);
    if last.CreateElement? then earlier[last.tempId := last.typeName] else earlier
  }

  function InverseEnds(ops: seq<ModelOp>): map<Id, Ends> {
    if ops == [] then map[] else
    var last := ops[|ops| - 1];
    var earlier := InverseEnds(ops[..|ops| - 1]);
    if last.CreateRelationship? then earlier[last.tempId := Ends(last.typeName, last.source, last.target)] else earlier
  }

  // ---- the translation ------------------------------------------------------------------

  predicate Knows(m: Model, res: Batch) {
    && res.changedEls <= m.elements.Keys
    && res.deletedEls <= InverseTypes(Flatten(res.units)).Keys
    && res.changedRels <= m.relationships.Keys
    && res.deletedRels <= InverseEnds(Flatten(res.units)).Keys
  }

  function KeysOver(f: Id -> set<ReadKey>, ids: set<Id>): set<ReadKey> {
    set id, k | id in ids && k in f(id) :: k
  }

  function ElementKeys(mm: Metamodel, res: Batch, types: map<Id, string>): set<ReadKey> {
    KeysOver(id => ChangedElementKeys(mm, res.model, id), res.changedEls)
    + KeysOver(id => DeletedElementKeys(mm, types, id), res.deletedEls)
  }

  function RelationshipKeys(mm: Metamodel, res: Batch, ends: map<Id, Ends>): set<ReadKey> {
    KeysOver(id => EndsKeys(mm, AllEnds(res.model, res.changedRels), id), res.changedRels)
    + KeysOver(id => EndsKeys(mm, ends, id), res.deletedRels)
  }

  function WrittenKeys(mm: Metamodel, res: Batch): set<ReadKey> {
    ElementKeys(mm, res, InverseTypes(Flatten(res.units))) + RelationshipKeys(mm, res, InverseEnds(Flatten(res.units)))
  }

  /** A scan key is added once per stereotype. */
  method AddScanKeys(mm: Metamodel, ty: string, touched: set<ReadKey>, seen: set<Option<string>>)
    returns (touched': set<ReadKey>, seen': set<Option<string>>)
    requires forall t :: t in seen <==> Scan(t) in touched
    ensures touched' == touched + ScanKeys(mm, ty)
    ensures forall t :: t in seen' <==> Scan(t) in touched'
  {
    touched', seen' := touched, seen;
    if None !in seen {
      touched', seen' := touched' + {Scan(None)}, seen' + {None};
    }
    var todo := ScanTypes(mm, ty);
    while todo != {}
      invariant todo <= ScanTypes(mm, ty)
      invariant touched' == touched + {Scan(None)} + set t | t in ScanTypes(mm, ty) && t !in todo :: Scan(Some(t))
      invariant forall t :: t in seen' <==> Scan(t) in touched'
    {
      var t :| t in todo;
      todo := todo - {t};
      if Some(t) !in seen' {
        touched', seen' := touched' + {Scan(Some(t))}, seen' + {Some(t)};
      }
    }
  }

  method RecoverMetadata(units: seq<seq<ModelOp>>) returns (types: map<Id, string>, ends: map<Id, Ends>)
    ensures types == InverseTypes(Flatten(units)) && ends == InverseEnds(Flatten(units))
  {
    types, ends := map[], map[];
    for i := 0 to |units|
      invariant types == InverseTypes(Flatten(units[..i])) && ends == InverseEnds(Flatten(units[..i]))
    {
      assert units[..i + 1] == units[..i] + [units[i]];
      FlattenSnoc(units[..i], units[i]);
      var unit := units[i];
      assert Flatten(units[..i]) + unit[..0] == Flatten(units[..i]);
      for j := 0 to |unit|
        invariant types == InverseTypes(Flatten(units[..i]) + unit[..j]) && ends == InverseEnds(Flatten(units[..i]) + unit[..j])
      {
        assert (Flatten(units[..i]) + unit[..j + 1])[..|Flatten(units[..i])| + j] == Flatten(units[..i]) + unit[..j];
        match unit[j] {
          case CreateElement(id, ty, _, _) => types := types[id := ty];
          case CreateRelationship(id, ty, source, target, _, _) => ends := ends[id := Ends(ty, source, target)];
          case _ =>
        }
      }
      assert unit[..|unit|] == unit;
    }
    assert units[..|units|] == units;
  }

  lemma KeysOverOneMore(f: Id -> set<ReadKey>, ids: set<Id>, id: Id)
    ensures KeysOver(f, ids + {id}) == KeysOver(f, ids) + f(id)
  {
  }

  /** The elements' keys; None when a changed or deleted element is unknown. */
  method TouchElements(mm: Metamodel, res: Batch, types: map<Id, string>) returns (r: Option<set<ReadKey>>)
    ensures r.Some? <==> res.changedEls <= res.model.elements.Keys && res.deletedEls <= types.Keys
    ensures r.Some? ==> r.value == ElementKeys(mm, res, types)
  {
    hide KeysOver, ScanKeys;
    var m := res.model;
    ghost var f, g := (id: Id) => ChangedElementKeys(mm, m, id), (id: Id) => DeletedElementKeys(mm, types, id);
    NoKeysYet(f);
    NoKeysYet(g);
    var touched: set<ReadKey>, seen: set<Option<string>> := {}, {};
    var todo := res.changedEls;
    assert res.changedEls - todo == {};
    while todo != {}
      invariant todo <= res.changedEls && res.changedEls - todo <= m.elements.Keys
      invariant touched == KeysOver(f, res.changedEls - todo)
      invariant forall t :: t in seen <==> Scan(t) in touched
    {
      var id :| id in todo;
      if id !in m.elements {
        return None;
      }
      KeysOverOneMore(f, res.changedEls - todo, id);
      assert res.changedEls - (todo - {id}) == (res.changedEls - todo) + {id};
      todo := todo - {id};
      touched := touched + {El(id)} + set p | p in ParentsOf(mm, m, id) :: ChildrenOf(p);
      touched, seen := AddScanKeys(mm, m.elements[id].typeName, touched, seen);
    }
    assert res.changedEls - todo == res.changedEls;
    todo := res.deletedEls;
    assert res.deletedEls - todo == {};
    while todo != {}
      invariant todo <= res.deletedEls && res.deletedEls - todo <= types.Keys
      invariant touched == KeysOver(f, res.changedEls) + KeysOver(g, res.deletedEls - todo)
      invariant forall t :: t in seen <==> Scan(t) in touched
    {
      var id :| id in todo;
      if id !in types {
        return None;
      }
      KeysOverOneMore(g, res.deletedEls - todo, id);
      assert res.deletedEls - (todo - {id}) == (res.deletedEls - todo) + {id};
      todo := todo - {id};
      touched := touched + {El(id)};
      touched, seen := AddScanKeys(mm, types[id], touched, seen);
    }
    assert res.deletedEls - todo == res.deletedEls;
    r := Some(touched);
  }

  method TouchRelationships(mm: Metamodel, res: Batch, ends: map<Id, Ends>) returns (r: Option<set<ReadKey>>)
    ensures r.Some? <==> res.changedRels <= res.model.relationships.Keys && res.deletedRels <= ends.Keys
    ensures r.Some? ==> r.value == RelationshipKeys(mm, res, ends)
  {
    hide KeysOver, RelKeys;
    var m := res.model;
    ghost var f, g := (id: Id) => EndsKeys(mm, AllEnds(m, res.changedRels), id), (id: Id) => EndsKeys(mm, ends, id);
    NoKeysYet(f);
    NoKeysYet(g);
    var touched: set<ReadKey> := {};
    var todo := res.changedRels;
    assert res.changedRels - todo == {};
    while todo != {}
      invariant todo <= res.changedRels && res.changedRels - todo <= m.relationships.Keys
      invariant touched == KeysOver(f, res.changedRels - todo)
    {
      var id :| id in todo;
      if id !in m.relationships {
        return None;
      }
      KeysOverOneMore(f, res.changedRels - todo, id);
      assert res.changedRels - (todo - {id}) == (res.changedRels - todo) + {id};
      todo := todo - {id};
      var rel := m.relationships[id];
      touched := touched + RelKeys(mm, rel.typeName, rel.source, rel.target);
    }
    assert res.changedRels - todo == res.changedRels;
    todo := res.deletedRels;
    assert res.deletedRels - todo == {};
    while todo != {}
      invariant todo <= res.deletedRels && res.deletedRels - todo <= ends.Keys
      invariant touched == KeysOver(f, res.changedRels) + KeysOver(g, res.deletedRels - todo)
    {
      var id :| id in todo;
      if id !in ends {
        return None;
      }
      KeysOverOneMore(g, res.deletedRels - todo, id);
      assert res.deletedRels - (todo - {id}) == (res.deletedRels - todo) + {id};
      todo := todo - {id};
      touched := touched + RelKeys(mm, ends[id].typeName, ends[id].source, ends[id].target);
    }
    assert res.deletedRels - todo == res.deletedRels;
    r := Some(touched);
  }

  /** None: something about the batch is unknown, drop every cached call. */
  method TouchedKeys(mm: Metamodel, res: Batch) returns (r: Option<set<ReadKey>>)
    ensures r == if Knows(res.model, res) then Some(WrittenKeys(mm, res)) else None
  {
    hide InverseTypes, InverseEnds, ElementKeys, RelationshipKeys;
    var types, ends := RecoverMetadata(res.units);
    var els := TouchElements(mm, res, types);
    if els.None? {
      return None;
    }
    var rels := TouchRelationships(mm, res, ends);
    if rels.None? {
      return None;
    }
    r := Some(els.value + rels.value);
  }

  lemma NoKeysYet(f: Id -> set<ReadKey>)
    ensures KeysOver(f, {}) == {}
  {
  }

  // ---- what a batch's bookkeeping knows ----------------------------------------------------

  /** Ids outside `before` are as they were; `before` holds the old state; the changed
      ids exist, the deleted ids do not. */
  ghost predicate Tracks<V(!new)>(was: map<Id, V>, now: map<Id, V>, before: map<Id, Option<V>>, changed: set<Id>, deleted: set<Id>) {
    && before.Keys == changed + deleted
    && changed <= now.Keys && deleted !! now.Keys
    && (forall id :: id in before ==> before[id] == Lookup(was, id))
    && (forall id :: id !in before ==> Lookup(now, id) == Lookup(was, id))
  }

  lemma TracksSet<V(!new)>(was: map<Id, V>, now: map<Id, V>, before: map<Id, Option<V>>, changed: set<Id>, deleted: set<Id>, id: Id, v: V)
    requires Tracks(was, now, before, changed, deleted)
    ensures Tracks(was, now[id := v], Note(before, id, Lookup(now, id)), changed + {id}, deleted - {id})
  {
  }

  lemma TracksRemove<V(!new)>(was: map<Id, V>, now: map<Id, V>, before: map<Id, Option<V>>, changed: set<Id>, deleted: set<Id>, gone: set<Id>)
    requires Tracks(was, now, before, changed, deleted) && gone <= now.Keys
    ensures Tracks(was, now - gone, NoteAll(before, now, gone), changed - gone, deleted + gone)
  {
  }

  lemma TracksRemoveOne<V(!new)>(was: map<Id, V>, now: map<Id, V>, before: map<Id, Option<V>>, changed: set<Id>, deleted: set<Id>, id: Id)
    requires Tracks(was, now, before, changed, deleted) && id in now
    ensures Tracks(was, now - {id}, Note(before, id, Some(now[id])), changed - {id}, deleted + {id})
  {
  }

  ghost predicate Tracked(pre: Model, b: Batch) {
    && Tracks(pre.elements, b.model.elements, b.beforeEls, b.changedEls, b.deletedEls)
    && Tracks(pre.relationships, b.model.relationships, b.beforeRels, b.changedRels, b.deletedRels)
  }

  lemma OpTracked(mm: Metamodel, mint: Mint, pre: Model, b: Batch, op: ModelOp, restore: bool)
    requires Tracked(pre, b) && ApplyOp(mm, mint, b, op, restore).Done?
    ensures Tracked(pre, ApplyOp(mm, mint, b, op, restore).batch)
  {
    hide Tracks, IsReserved, InversePatch, MergePatch, RestoreElements, RestoreRelationships, Subtree, Known, ResolveProps, Note, NoteAll;
    var m, o := b.model, ApplyOp(mm, mint, b, op, restore).batch;
    match op
    case CreateElement(t, ty, props, hint) =>
      var id := FinalId(mint, b.minted, t, hint, restore).value;
      TracksSet(pre.elements, m.elements, b.beforeEls, b.changedEls, b.deletedEls, id, o.model.elements[id]);
    case UpdateElement(i, patch) =>
      var id := GetOr(b.ids, i, i);
      TracksSet(pre.elements, m.elements, b.beforeEls, b.changedEls, b.deletedEls, id, o.model.elements[id]);
    case DeleteElement(i) =>
      var els := Doomed(mm, m, GetOr(b.ids, i, i));
      TracksRemove(pre.elements, m.elements, b.beforeEls, b.changedEls, b.deletedEls, els);
      TracksRemove(pre.relationships, m.relationships, b.beforeRels, b.changedRels, b.deletedRels, IncidentIds(m, els));
    case CreateRelationship(t, ty, s, g, props, hint) =>
      var id := FinalId(mint, b.minted, t, hint, restore).value;
      TracksSet(pre.relationships, m.relationships, b.beforeRels, b.changedRels, b.deletedRels, id, o.model.relationships[id]);
    case UpdateRelationship(i, patch) =>
      var id := GetOr(b.ids, i, i);
      TracksSet(pre.relationships, m.relationships, b.beforeRels, b.changedRels, b.deletedRels, id, o.model.relationships[id]);
    case DeleteRelationship(i) =>
      TracksRemoveOne(pre.relationships, m.relationships, b.beforeRels, b.changedRels, b.deletedRels, GetOr(b.ids, i, i));
  }

  // ---- the inverse units know every deleted entity ------------------------------------------

  lemma {:induction false} InverseConcat(a: seq<ModelOp>, b: seq<ModelOp>)
    ensures InverseTypes(a + b) == InverseTypes(a) + InverseTypes(b)
    ensures InverseEnds(a + b) == InverseEnds(a) + InverseEnds(b)
  {
    if b == [] {
      assert a + b == a;
    } else {
      assert (a + b)[..|a + b| - 1] == a + b[..|b| - 1];
      InverseConcat(a, b[..|b| - 1]);
    }
  }

  lemma {:induction false} RestoredTypes(m: Model, els: seq<Id>)
    requires SetOf(els) <= m.elements.Keys
    ensures InverseTypes(RestoreElements(m, els)) == TypesOf(m, SetOf(els))
    ensures InverseEnds(RestoreElements(m, els)) == map[]
  {
    if els != [] {
      var n := |els| - 1;
      assert RestoreElements(m, els)[..n] == RestoreElements(m, els[..n]);
      assert SetOf(els) == SetOf(els[..n]) + {els[n]} by { assert els == els[..n] + [els[n]]; }
      RestoredTypes(m, els[..n]);
    }
  }

  lemma {:induction false} RestoredEnds(m: Model, rels: seq<Id>)
    requires SetOf(rels) <= m.relationships.Keys
    ensures InverseEnds(RestoreRelationships(m, rels)) == AllEnds(m, SetOf(rels))
    ensures InverseTypes(RestoreRelationships(m, rels)) == map[]
  {
    if rels != [] {
      var n := |rels| - 1;
      assert RestoreRelationships(m, rels)[..n] == RestoreRelationships(m, rels[..n]);
      assert SetOf(rels) == SetOf(rels[..n]) + {rels[n]} by { assert rels == rels[..n] + [rels[n]]; }
      RestoredEnds(m, rels[..n]);
    }
  }

  lemma InverseSingle(op: ModelOp)
    ensures InverseTypes([op]) == if op.CreateElement? then map[op.tempId := op.typeName] else map[]
    ensures InverseEnds([op]) == if op.CreateRelationship? then map[op.tempId := Ends(op.typeName, op.source, op.target)] else map[]
  {
    assert [op][..0] == [];
  }

  /** What one op adds to the recovered metadata: the entities it removed. */
  lemma OpMetadata(mm: Metamodel, mint: Mint, b: Batch, op: ModelOp, restore: bool)
    requires ApplyOp(mm, mint, b, op, restore).Done?
    ensures RecordsRemoved(b, ApplyOp(mm, mint, b, op, restore).batch)
  {
    hide InverseTypes, InverseEnds, Flatten, IsReserved, InversePatch, MergePatch, Known, ResolveProps, Note, NoteAll, RestoreElements,
      RestoreRelationships, RecordsRemoved, TypesOf, AllEnds, ApplyDeleteElement;
    var m, o := b.model, ApplyOp(mm, mint, b, op, restore).batch;
    if op.DeleteElement? {
      DeleteElementMetadata(mm, b, op);
    } else {
      var gone := if op.DeleteRelationship? then {GetOr(b.ids, op.id, op.id)} else {};
      assert m.elements.Keys - o.model.elements.Keys == {} && m.relationships.Keys - o.model.relationships.Keys == gone;
      SingleUnitMetadata(b, o, gone);
    }
  }

  ghost predicate RecordsRemoved(b: Batch, o: Batch) {
    && InverseTypes(Flatten(o.units)) == InverseTypes(Flatten(b.units)) + TypesOf(b.model, b.model.elements.Keys - o.model.elements.Keys)
    && InverseEnds(Flatten(o.units)) ==
         InverseEnds(Flatten(b.units)) + AllEnds(b.model, b.model.relationships.Keys - o.model.relationships.Keys)
  }

  lemma SingleUnitMetadata(b: Batch, o: Batch, gone: set<Id>)
    requires |o.units| == |b.units| + 1 && o.units[..|b.units|] == b.units && |o.units[|b.units|]| == 1
    requires b.model.elements.Keys - o.model.elements.Keys == {} && b.model.relationships.Keys - o.model.relationships.Keys == gone
    requires var op := o.units[|b.units|][0];
      && !op.CreateElement?
      && if gone == {} then !op.CreateRelationship? else
         op.CreateRelationship? && gone == {op.tempId} && op.tempId in b.model.relationships
         && EndsOf(b.model.relationships[op.tempId]) == Ends(op.typeName, op.source, op.target)
    ensures RecordsRemoved(b, o)
  {
    hide InverseTypes, InverseEnds, Flatten;
    var unit := o.units[|b.units|];
    assert o.units == b.units + [unit] && unit == [unit[0]];
    FlattenSnoc(b.units, unit);
    InverseConcat(Flatten(b.units), unit);
    InverseSingle(unit[0]);
  }

  lemma DeleteElementMetadata(mm: Metamodel, b: Batch, op: ModelOp)
    requires op.DeleteElement? && ApplyDeleteElement(mm, b, op).Done?
    ensures RecordsRemoved(b, ApplyDeleteElement(mm, b, op).batch)
  {
    hide InverseTypes, InverseEnds, Flatten, RestoreElements, RestoreRelationships, Subtree, NoteAll, TypesOf, AllEnds;
    var m, o := b.model, ApplyDeleteElement(mm, b, op).batch;
    var els := Doomed(mm, m, GetOr(b.ids, op.id, op.id));
    var rels := IncidentIds(m, els);
    var a, z := RestoreElements(m, Enumerate(els)), RestoreRelationships(m, Enumerate(rels));
    FlattenSnoc(b.units, a + z);
    InverseConcat(Flatten(b.units), a + z);
    RestoredTypes(m, Enumerate(els));
    RestoredEnds(m, Enumerate(rels));
    InverseConcat(a, z);
    assert m.elements.Keys - o.model.elements.Keys == els && m.relationships.Keys - o.model.relationships.Keys == rels;
  }

  // ---- the frame theorem --------------------------------------------------------------------

  /** The batch invariant: bookkeeping is right and every deleted id has metadata. */
  ghost predicate Accounted(pre: Model, b: Batch) {
    && Tracked(pre, b)
    && b.deletedEls <= InverseTypes(Flatten(b.units)).Keys
    && b.deletedRels <= InverseEnds(Flatten(b.units)).Keys
  }

  lemma OpAccounted(mm: Metamodel, mint: Mint, pre: Model, b: Batch, op: ModelOp, restore: bool)
    requires Accounted(pre, b) && ApplyOp(mm, mint, b, op, restore).Done?
    ensures Accounted(pre, ApplyOp(mm, mint, b, op, restore).batch)
  {
    hide ApplyOp, InverseTypes, InverseEnds, Flatten;
    var o := ApplyOp(mm, mint, b, op, restore).batch;
    OpTracked(mm, mint, pre, b, op, restore);
    OpMetadata(mm, mint, b, op, restore);
    OpDeletes(mm, mint, b, op, restore);
  }

  /** Only ids that leave the model are marked deleted. */
  lemma OpDeletes(mm: Metamodel, mint: Mint, b: Batch, op: ModelOp, restore: bool)
    requires ApplyOp(mm, mint, b, op, restore).Done?
    ensures var o := ApplyOp(mm, mint, b, op, restore).batch;
      && o.deletedEls <= b.deletedEls + (b.model.elements.Keys - o.model.elements.Keys)
      && o.deletedRels <= b.deletedRels + (b.model.relationships.Keys - o.model.relationships.Keys)
  {
    hide IsReserved, InversePatch, MergePatch, RestoreElements, RestoreRelationships, Subtree, Known, ResolveProps, Note, NoteAll;
  }

  lemma {:induction false} BatchAccounted(mm: Metamodel, mint: Mint, pre: Model, b: Batch, ops: seq<ModelOp>, restore: bool)
    requires Intact(b.model) && PlainMint(mint) && Accounted(pre, b) && ApplyAll(mm, mint, b, ops, restore).Done?
    ensures var o := ApplyAll(mm, mint, b, ops, restore).batch; Accounted(pre, o) && Intact(o.model)
    decreases |ops|
  {
    hide ApplyOp, Accounted, Intact, PlainMint, Conforms, ModelNullFree, CreatesNoNull;
    if ops != [] {
      OpAccounted(mm, mint, pre, b, ops[0], restore);
      OpKeeps(mm, mint, b, ops[0], restore);
      BatchAccounted(mm, mint, pre, ApplyOp(mm, mint, b, ops[0], restore).batch, ops[1..], restore);
    }
  }

  /** Every key whose answer the batch changed is among the keys. */
  ghost predicate CoversChanges(mm: Metamodel, pre: Model, post: Model, keys: set<ReadKey>) {
    forall k :: Read(mm, pre, k) != Read(mm, post, k) ==> k in keys
  }

  /** The keys that led to a touched entity as it was before the batch. */
  ghost predicate CoversBefore(mm: Metamodel, b: Batch, keys: set<ReadKey>) {
    && (forall id :: id in b.beforeEls && b.beforeEls[id].Some? ==> ScanKeys(mm, b.beforeEls[id].value.typeName) <= keys)
    && (forall id :: id in b.beforeRels && b.beforeRels[id].Some? ==>
         var r := b.beforeRels[id].value; RelKeys(mm, r.typeName, r.source, r.target) <= keys)
  }

  /** What the emitted keys hold, whatever the batch. */
  ghost predicate Emits(mm: Metamodel, b: Batch, keys: set<ReadKey>) {
    && (forall id :: id in b.changedEls ==> ChangedElementKeys(mm, b.model, id) <= keys)
    && (forall id :: id in b.deletedEls ==> El(id) in keys)
    && (forall id :: id in b.changedRels && id in b.model.relationships ==>
         var r := b.model.relationships[id]; RelKeys(mm, r.typeName, r.source, r.target) <= keys)
  }

  lemma WrittenKeysEmits(mm: Metamodel, b: Batch)
    ensures Emits(mm, b, WrittenKeys(mm, b))
  {
    hide ChangedElementKeys, ScanKeys, RelKeys, InverseTypes, InverseEnds;
    var keys := WrittenKeys(mm, b);
    var f1, f2 := (id: Id) => ChangedElementKeys(mm, b.model, id), (id: Id) => DeletedElementKeys(mm, InverseTypes(Flatten(b.units)), id);
    var f3 := (id: Id) => EndsKeys(mm, AllEnds(b.model, b.changedRels), id);
    assert KeysOver(f1, b.changedEls) <= keys && KeysOver(f2, b.deletedEls) <= keys && KeysOver(f3, b.changedRels) <= keys;
    forall id | id in b.changedEls ensures ChangedElementKeys(mm, b.model, id) <= keys {
      assert forall k :: k in f1(id) ==> k in KeysOver(f1, b.changedEls);
    }
    forall id | id in b.deletedEls ensures El(id) in keys {
      assert El(id) in f2(id);
    }
    forall id | id in b.changedRels && id in b.model.relationships
      ensures var r := b.model.relationships[id]; RelKeys(mm, r.typeName, r.source, r.target) <= keys
    {
      assert forall k :: k in f3(id) ==> k in KeysOver(f3, b.changedRels);
    }
  }

  /** The key reads the relationship under this id. */
  ghost predicate Leads(mm: Metamodel, m: Model, rid: Id, k: ReadKey) {
    rid in m.relationships
    && k in RelKeys(mm, m.relationships[rid].typeName, m.relationships[rid].source, m.relationships[rid].target)
  }

  ghost predicate Scans(mm: Metamodel, m: Model, id: Id, k: ReadKey) {
    id in m.elements && k in ScanKeys(mm, m.elements[id].typeName)
  }

  /** A touched relationship puts every key that reads it, before or after, in the keys. */
  lemma TouchedRelationshipKeys(mm: Metamodel, pre: Model, b: Batch, keys: set<ReadKey>, rid: Id, k: ReadKey)
    requires Tracked(pre, b) && Emits(mm, b, keys) && CoversBefore(mm, b, keys) && rid in b.beforeRels
    requires Leads(mm, pre, rid, k) || Leads(mm, b.model, rid, k)
    ensures k in keys
  {
    hide RelKeys, ScanKeys, ChangedElementKeys;
  }

  lemma TouchedElementKeys(mm: Metamodel, pre: Model, b: Batch, keys: set<ReadKey>, id: Id, k: ReadKey)
    requires Tracked(pre, b) && Emits(mm, b, keys) && CoversBefore(mm, b, keys) && id in b.beforeEls
    requires k == El(id) || Scans(mm, pre, id, k) || Scans(mm, b.model, id, k)
    ensures k in keys
  {
    hide RelKeys, ScanKeys;
    assert id in b.changedEls ==> ChangedElementKeys(mm, b.model, id) <= keys;
  }

  lemma TouchedChildKeys(mm: Metamodel, pre: Model, b: Batch, keys: set<ReadKey>, rid: Id, s: Id)
    requires Tracked(pre, b) && Emits(mm, b, keys) && Intact(b.model)
    requires Leads(mm, b.model, rid, ChildrenOf(s)) && b.model.relationships[rid].target in b.beforeEls
    ensures ChildrenOf(s) in keys
  {
    hide ScanKeys, IsReserved, RelKeys, CoversBefore, ParentsOf;
    LeadsToParent(mm, b.model, rid, s);
    var t := b.model.relationships[rid].target;
    assert t in b.changedEls;
    assert ChildrenOf(s) in ChangedElementKeys(mm, b.model, t);
  }

  lemma LeadsToParent(mm: Metamodel, m: Model, rid: Id, s: Id)
    requires Leads(mm, m, rid, ChildrenOf(s))
    ensures s in ParentsOf(mm, m, m.relationships[rid].target)
  {
  }

  /** When a key reads a relationship. */
  predicate Matches(mm: Metamodel, r: Relationship, k: ReadKey) {
    match k
    case Out(s) => r.source == s
    case In(t) => r.target == t
    case ChildrenOf(s) => r.source == s && mm.IsContainment(r.typeName)
    case ParentOf(t) => r.target == t && mm.IsContainment(r.typeName)
    case _ => false
  }

  lemma LeadsMeans(mm: Metamodel, m: Model, k: ReadKey)
    ensures forall rid :: Leads(mm, m, rid, k) <==> rid in m.relationships && Matches(mm, m.relationships[rid], k)
  {
  }

  /** Two models give the same answer when they hold the same entities behind a key. */
  lemma SameLinks(mm: Metamodel, pre: Model, post: Model, k: ReadKey)
    requires k.Out? || k.In?
    requires forall rid :: Leads(mm, pre, rid, k) || Leads(mm, post, rid, k) ==>
      Lookup(pre.relationships, rid) == Lookup(post.relationships, rid)
    ensures Read(mm, pre, k) == Read(mm, post, k)
  {
    hide Leads;
    LeadsMeans(mm, pre, k);
    LeadsMeans(mm, post, k);
    var a, z := Read(mm, pre, k).links, Read(mm, post, k).links;
    forall rid ensures rid in a <==> rid in z {
      assert rid in a <==> Leads(mm, pre, rid, k);
      assert rid in z <==> Leads(mm, post, rid, k);
    }
    assert a == z;
  }

  lemma SameParents(mm: Metamodel, pre: Model, post: Model, t: Id)
    requires forall rid :: Leads(mm, pre, rid, ParentOf(t)) || Leads(mm, post, rid, ParentOf(t)) ==>
      Lookup(pre.relationships, rid) == Lookup(post.relationships, rid)
    ensures Read(mm, pre, ParentOf(t)) == Read(mm, post, ParentOf(t))
  {
    hide Leads;
    var k := ParentOf(t);
    LeadsMeans(mm, pre, k);
    LeadsMeans(mm, post, k);
    var a, z := Read(mm, pre, k).parents, Read(mm, post, k).parents;
    forall rid ensures rid in a <==> rid in z {
      assert rid in a <==> Leads(mm, pre, rid, k);
      assert rid in z <==> Leads(mm, post, rid, k);
    }
    assert a == z;
  }

  lemma SameChildren(mm: Metamodel, pre: Model, post: Model, s: Id)
    requires forall rid :: Leads(mm, pre, rid, ChildrenOf(s)) || Leads(mm, post, rid, ChildrenOf(s)) ==>
      Lookup(pre.relationships, rid) == Lookup(post.relationships, rid)
    requires forall rid :: Leads(mm, post, rid, ChildrenOf(s)) ==>
      Lookup(pre.elements, post.relationships[rid].target) == Lookup(post.elements, post.relationships[rid].target)
    ensures Read(mm, pre, ChildrenOf(s)) == Read(mm, post, ChildrenOf(s))
  {
    hide Leads;
    var k := ChildrenOf(s);
    LeadsMeans(mm, pre, k);
    LeadsMeans(mm, post, k);
    var a, z := Read(mm, pre, k).children, Read(mm, post, k).children;
    forall rid ensures rid in a <==> rid in z {
      assert rid in a <==> Leads(mm, pre, rid, k);
      assert rid in z <==> Leads(mm, post, rid, k);
    }
    forall rid | rid in a ensures a[rid] == z[rid] {
      assert Leads(mm, post, rid, k);
    }
    assert a == z;
  }

  lemma SamePages(mm: Metamodel, pre: Model, post: Model, k: ReadKey)
    requires k.Scan?
    requires forall id :: Scans(mm, pre, id, k) || Scans(mm, post, id, k) ==> Lookup(pre.elements, id) == Lookup(post.elements, id)
    ensures Read(mm, pre, k) == Read(mm, post, k)
  {
    hide Scans;
    ScansMeans(mm, pre, k);
    ScansMeans(mm, post, k);
    var a, z := Read(mm, pre, k).elements, Read(mm, post, k).elements;
    forall id ensures id in a <==> id in z {
      assert id in a <==> Scans(mm, pre, id, k);
      assert id in z <==> Scans(mm, post, id, k);
    }
    assert a == z;
  }

  lemma ScansMeans(mm: Metamodel, m: Model, k: ReadKey)
    requires k.Scan?
    ensures forall id :: Scans(mm, m, id, k) <==>
      id in m.elements && (k.stereotype.None? || k.stereotype.value in ScanTypes(mm, m.elements[id].typeName))
  {
  }

  lemma Untouched(mm: Metamodel, pre: Model, b: Batch, keys: set<ReadKey>, k: ReadKey)
    requires Tracked(pre, b) && Emits(mm, b, keys) && CoversBefore(mm, b, keys) && Intact(b.model) && k !in keys
    ensures Read(mm, pre, k) == Read(mm, b.model, k)
  {
    hide Emits, CoversBefore, Intact, RelKeys, Scans, Read;
    var post := b.model;
    if k.El? || k.Scan? {
      forall id | k == El(id) || Scans(mm, pre, id, k) || Scans(mm, post, id, k)
        ensures Lookup(pre.elements, id) == Lookup(post.elements, id)
      {
        if id in b.beforeEls {
          TouchedElementKeys(mm, pre, b, keys, id, k);
        }
      }
      if k.El? { SameElement(mm, pre, post, k); } else { SamePages(mm, pre, post, k); }
    } else {
      forall rid | Leads(mm, pre, rid, k) || Leads(mm, post, rid, k)
        ensures Lookup(pre.relationships, rid) == Lookup(post.relationships, rid)
      {
        if rid in b.beforeRels {
          TouchedRelationshipKeys(mm, pre, b, keys, rid, k);
        }
      }
      if k.ChildrenOf? {
        forall rid | Leads(mm, post, rid, k)
          ensures Lookup(pre.elements, post.relationships[rid].target) == Lookup(post.elements, post.relationships[rid].target)
        {
          if post.relationships[rid].target in b.beforeEls {
            TouchedChildKeys(mm, pre, b, keys, rid, k.id);
          }
        }
        SameChildren(mm, pre, post, k.id);
      } else if k.ParentOf? {
        SameParents(mm, pre, post, k.id);
      } else {
        SameLinks(mm, pre, post, k);
      }
    }
  }

  lemma SameElement(mm: Metamodel, pre: Model, post: Model, k: ReadKey)
    requires k.El? && Lookup(pre.elements, k.id) == Lookup(post.elements, k.id)
    ensures Read(mm, pre, k) == Read(mm, post, k)
  {
  }

  /** The two halves of the criterion. */
  lemma CoversBeforeSuffices(mm: Metamodel, pre: Model, b: Batch, keys: set<ReadKey>)
    requires Tracked(pre, b) && Emits(mm, b, keys) && Intact(pre) && Intact(b.model) && CoversBefore(mm, b, keys)
    ensures CoversChanges(mm, pre, b.model, keys)
  {
    hide Tracked, Emits, CoversBefore, Intact, Read;
    forall k | k !in keys ensures Read(mm, pre, k) == Read(mm, b.model, k) {
      Untouched(mm, pre, b, keys, k);
    }
  }

  /** Equal answers show an entity behind a key on both sides or on neither. */
  lemma AnswersShowElements(mm: Metamodel, pre: Model, post: Model, id: Id, k: ReadKey)
    requires Scans(mm, pre, id, k) && Read(mm, pre, k) == Read(mm, post, k)
    ensures Scans(mm, post, id, k)
  {
    hide ScanTypes;
    assert k.Scan? && id in Read(mm, pre, k).elements;
    assert id in Read(mm, post, k).elements;
  }

  lemma AnswersShowRelationships(mm: Metamodel, pre: Model, post: Model, rid: Id, k: ReadKey)
    requires Leads(mm, pre, rid, k) && Read(mm, pre, k) == Read(mm, post, k)
    ensures Leads(mm, post, rid, k)
  {
    match k
    case Out(s) => assert rid in Read(mm, pre, k).links;
    case In(t) => assert rid in Read(mm, pre, k).links;
    case ChildrenOf(s) => assert rid in Read(mm, pre, k).children;
    case ParentOf(t) => assert rid in Read(mm, pre, k).parents;
  }

  lemma ScanKeysNeeded(mm: Metamodel, pre: Model, b: Batch, keys: set<ReadKey>, id: Id, k: ReadKey)
    requires Tracked(pre, b) && Emits(mm, b, keys) && CoversChanges(mm, pre, b.model, keys)
    requires id in b.beforeEls && b.beforeEls[id].Some? && k in ScanKeys(mm, b.beforeEls[id].value.typeName)
    ensures k in keys
  {
    hide RelKeys, ScanKeys, Read;
    assert Scans(mm, pre, id, k);
    if Read(mm, pre, k) == Read(mm, b.model, k) {
      AnswersShowElements(mm, pre, b.model, id, k);
      assert id in b.changedEls;
      assert k in ChangedElementKeys(mm, b.model, id);
    }
  }

  lemma RelKeysNeeded(mm: Metamodel, pre: Model, b: Batch, keys: set<ReadKey>, id: Id, k: ReadKey)
    requires Tracked(pre, b) && Emits(mm, b, keys) && CoversChanges(mm, pre, b.model, keys)
    requires id in b.beforeRels && b.beforeRels[id].Some?
    requires var r := b.beforeRels[id].value; k in RelKeys(mm, r.typeName, r.source, r.target)
    ensures k in keys
  {
    hide ScanKeys, ChangedElementKeys, RelKeys, Read;
    assert Leads(mm, pre, id, k);
    if Read(mm, pre, k) == Read(mm, b.model, k) {
      AnswersShowRelationships(mm, pre, b.model, id, k);
      assert id in b.changedRels;
    }
  }

  // ---- what a caller can check before the call --------------------------------------------

  /** The type a touched element has after the batch, or had when last deleted. */
  function LastTypes(b: Batch): map<Id, string> {
    map id | id in b.beforeEls && (id in b.model.elements || id in InverseTypes(Flatten(b.units)))
      :: if id in b.model.elements then b.model.elements[id].typeName else InverseTypes(Flatten(b.units))[id]
  }

  function LastEnds(b: Batch): map<Id, Ends> {
    map rid | rid in b.beforeRels && (rid in b.model.relationships || rid in InverseEnds(Flatten(b.units)))
      :: if rid in b.model.relationships then EndsOf(b.model.relationships[rid]) else InverseEnds(Flatten(b.units))[rid]
  }

  ghost predicate LastFrom(b: Batch, s: Id) {
    exists rid :: rid in LastEnds(b) && LastEnds(b)[rid].source == s
  }

  ghost predicate LastTo(b: Batch, t: Id) {
    exists rid :: rid in LastEnds(b) && LastEnds(b)[rid].target == t
  }

  ghost predicate LastWithin(mm: Metamodel, b: Batch, t: Id) {
    exists rid :: rid in LastEnds(b) && LastEnds(b)[rid].target == t && mm.IsContainment(LastEnds(b)[rid].typeName)
  }

  /** The batch changed a child of this element. */
  ghost predicate HoldsChanged(mm: Metamodel, b: Batch, rid: Id, s: Id) {
    rid in b.model.relationships && b.model.relationships[rid].target in b.changedEls
    && IsContained(mm, b.model, rid, s, b.model.relationships[rid].target)
  }

  ghost predicate LastContains(mm: Metamodel, b: Batch, s: Id) {
    || (exists rid :: rid in LastEnds(b) && LastEnds(b)[rid].source == s && mm.IsContainment(LastEnds(b)[rid].typeName))
    || (exists rid :: HoldsChanged(mm, b, rid, s))
  }

  ghost predicate LastScanned(mm: Metamodel, b: Batch, stereotype: string) {
    exists id :: id in LastTypes(b) && stereotype in ScanTypes(mm, LastTypes(b)[id])
  }

  /** Ids that named a relationship of other ends before the batch. */
  ghost predicate Moved(b: Batch, rid: Id) {
    rid in b.beforeRels && b.beforeRels[rid].Some? && rid in LastEnds(b) && EndsOf(b.beforeRels[rid].value) != LastEnds(b)[rid]
  }

  ghost predicate Retyped(b: Batch, id: Id) {
    id in b.beforeEls && b.beforeEls[id].Some? && id in LastTypes(b) && b.beforeEls[id].value.typeName != LastTypes(b)[id]
  }

  /** Each end the relationship had before is the end of something else the batch touched. */
  ghost predicate MoveCovered(mm: Metamodel, b: Batch, rid: Id)
    requires Moved(b, rid)
  {
    var r := b.beforeRels[rid].value;
    && LastFrom(b, r.source) && LastTo(b, r.target)
    && (mm.IsContainment(r.typeName) ==> LastContains(mm, b, r.source) && LastWithin(mm, b, r.target))
  }

  /** Each scan its old type was in reads something else the batch touched. */
  ghost predicate RetypeCovered(mm: Metamodel, b: Batch, id: Id)
    requires Retyped(b, id)
  {
    forall t :: t in ScanTypes(mm, b.beforeEls[id].value.typeName) ==> LastScanned(mm, b, t)
  }

  ghost predicate RebornCovered(mm: Metamodel, b: Batch) {
    && (forall rid :: Moved(b, rid) ==> MoveCovered(mm, b, rid))
    && (forall id :: Retyped(b, id) ==> RetypeCovered(mm, b, id))
  }

  lemma WrittenBy(mm: Metamodel, b: Batch, k: ReadKey)
    ensures k in WrittenKeys(mm, b) <==>
      || (exists id :: id in b.changedEls && k in ChangedElementKeys(mm, b.model, id))
      || (exists id :: id in b.deletedEls && k in DeletedElementKeys(mm, InverseTypes(Flatten(b.units)), id))
      || (exists id :: id in b.changedRels && k in EndsKeys(mm, AllEnds(b.model, b.changedRels), id))
      || (exists id :: id in b.deletedRels && k in EndsKeys(mm, InverseEnds(Flatten(b.units)), id))
  {
    hide KeysOver, ChangedElementKeys, DeletedElementKeys, EndsKeys, AllEnds, InverseTypes, InverseEnds, Flatten;
    var types, ends := InverseTypes(Flatten(b.units)), InverseEnds(Flatten(b.units));
    KeyOver(id => ChangedElementKeys(mm, b.model, id), b.changedEls, k);
    KeyOver(id => DeletedElementKeys(mm, types, id), b.deletedEls, k);
    KeyOver(id => EndsKeys(mm, AllEnds(b.model, b.changedRels), id), b.changedRels, k);
    KeyOver(id => EndsKeys(mm, ends, id), b.deletedRels, k);
  }

  lemma KeyOver(f: Id -> set<ReadKey>, ids: set<Id>, k: ReadKey)
    ensures k in KeysOver(f, ids) <==> exists id :: id in ids && k in f(id)
  {
  }

  lemma RelWrittenBy(mm: Metamodel, pre: Model, b: Batch, k: ReadKey)
    requires Accounted(pre, b)
    ensures (exists rid :: rid in LastEnds(b) && k in RelKeys(mm, LastEnds(b)[rid].typeName, LastEnds(b)[rid].source, LastEnds(b)[rid].target))
      <==>
      || (exists id :: id in b.changedRels && k in EndsKeys(mm, AllEnds(b.model, b.changedRels), id))
      || (exists id :: id in b.deletedRels && k in EndsKeys(mm, InverseEnds(Flatten(b.units)), id))
  {
    hide RelKeys, InverseTypes, InverseEnds, Flatten;
    var last := LastEnds(b);
    if rid :| rid in last && k in RelKeys(mm, last[rid].typeName, last[rid].source, last[rid].target) {
      assert if rid in b.changedRels then k in EndsKeys(mm, AllEnds(b.model, b.changedRels), rid)
        else k in EndsKeys(mm, InverseEnds(Flatten(b.units)), rid);
    }
    if id :| id in b.changedRels && k in EndsKeys(mm, AllEnds(b.model, b.changedRels), id) {
      assert id in last;
    }
    if id :| id in b.deletedRels && k in EndsKeys(mm, InverseEnds(Flatten(b.units)), id) {
      assert id in last;
    }
  }

  ghost predicate Held(mm: Metamodel, b: Batch, k: ReadKey) {
    match k
    case Out(s) => LastFrom(b, s)
    case In(t) => LastTo(b, t)
    case ChildrenOf(s) => LastContains(mm, b, s)
    case ParentOf(t) => LastWithin(mm, b, t)
    case Scan(Some(t)) => LastScanned(mm, b, t)
    case Scan(None) => b.beforeEls != map[]
    case El(id) => id in b.beforeEls
  }

  /** Which keys an accepted batch emits, in its own terms. */
  lemma EmittedIffHeld(mm: Metamodel, pre: Model, b: Batch, k: ReadKey)
    requires Accounted(pre, b) && Intact(b.model)
    ensures k in WrittenKeys(mm, b) <==> Held(mm, b, k)
  {
    hide Accounted, WrittenKeys, EndsKeys, AllEnds, ChangedElementKeys, DeletedElementKeys, Held, InverseTypes, InverseEnds, Flatten, RelKeys;
    WrittenBy(mm, b, k);
    RelWrittenBy(mm, pre, b, k);
    ElementEmits(mm, pre, b, k);
    RelationshipEmits(mm, b, k);
  }

  ghost predicate HeldByElement(mm: Metamodel, b: Batch, k: ReadKey) {
    match k
    case El(id) => id in b.beforeEls
    case ChildrenOf(s) => exists rid :: HoldsChanged(mm, b, rid, s)
    case Scan(Some(t)) => LastScanned(mm, b, t)
    case Scan(None) => b.beforeEls != map[]
    case _ => false
  }

  lemma ElementEmits(mm: Metamodel, pre: Model, b: Batch, k: ReadKey)
    requires Accounted(pre, b)
    ensures HeldByElement(mm, b, k) <==>
      || (exists id :: id in b.changedEls && k in ChangedElementKeys(mm, b.model, id))
      || (exists id :: id in b.deletedEls && k in DeletedElementKeys(mm, InverseTypes(Flatten(b.units)), id))
  {
    hide InverseTypes, InverseEnds, Flatten, ScanTypes;
    var types := InverseTypes(Flatten(b.units));
    match k
    case El(id) =>
      assert id in b.changedEls ==> k in ChangedElementKeys(mm, b.model, id);
      assert id in b.deletedEls ==> k in DeletedElementKeys(mm, types, id);
    case ChildrenOf(s) => ChildEmits(mm, b, s);
    case Scan(None) => NoneEmits(mm, pre, b);
    case Scan(Some(t)) => ScanEmits(mm, pre, b, t);
    case _ =>
  }

  lemma ChildEmits(mm: Metamodel, b: Batch, s: Id)
    ensures HeldByElement(mm, b, ChildrenOf(s)) <==> exists id :: id in b.changedEls && ChildrenOf(s) in ChangedElementKeys(mm, b.model, id)
  {
    hide ScanTypes;
    if id :| id in b.changedEls && ChildrenOf(s) in ChangedElementKeys(mm, b.model, id) {
      assert s in ParentsOf(mm, b.model, id);
      var rid :| rid in b.model.relationships && b.model.relationships[rid].target == id
        && mm.IsContainment(b.model.relationships[rid].typeName) && b.model.relationships[rid].source == s;
      assert HoldsChanged(mm, b, rid, s);
    }
    if rid :| HoldsChanged(mm, b, rid, s) {
      assert ChildrenOf(s) in ChangedElementKeys(mm, b.model, b.model.relationships[rid].target);
    }
  }

  lemma NoneEmits(mm: Metamodel, pre: Model, b: Batch)
    requires Accounted(pre, b)
    ensures b.beforeEls != map[] <==>
      || (exists id :: id in b.changedEls && Scan(None) in ChangedElementKeys(mm, b.model, id))
      || (exists id :: id in b.deletedEls && Scan(None) in DeletedElementKeys(mm, InverseTypes(Flatten(b.units)), id))
  {
    hide InverseTypes, InverseEnds, Flatten, ScanTypes;
    if b.beforeEls != map[] {
      var id :| id in b.beforeEls;
      assert if id in b.changedEls then Scan(None) in ChangedElementKeys(mm, b.model, id)
        else Scan(None) in DeletedElementKeys(mm, InverseTypes(Flatten(b.units)), id);
    }
  }

  lemma ScanEmits(mm: Metamodel, pre: Model, b: Batch, t: string)
    requires Accounted(pre, b)
    ensures LastScanned(mm, b, t) <==>
      || (exists id :: id in b.changedEls && Scan(Some(t)) in ChangedElementKeys(mm, b.model, id))
      || (exists id :: id in b.deletedEls && Scan(Some(t)) in DeletedElementKeys(mm, InverseTypes(Flatten(b.units)), id))
  {
    hide InverseTypes, InverseEnds, Flatten, ScanTypes, ParentsOf;
    var types, last := InverseTypes(Flatten(b.units)), LastTypes(b);
    if id :| id in last && t in ScanTypes(mm, last[id]) {
      assert if id in b.changedEls then Scan(Some(t)) in ChangedElementKeys(mm, b.model, id)
        else Scan(Some(t)) in DeletedElementKeys(mm, types, id);
    }
    if id :| id in b.changedEls && Scan(Some(t)) in ChangedElementKeys(mm, b.model, id) {
      assert id in last;
    }
    if id :| id in b.deletedEls && Scan(Some(t)) in DeletedElementKeys(mm, types, id) {
      assert id in last;
    }
  }

  lemma RelationshipEmits(mm: Metamodel, b: Batch, k: ReadKey)
    ensures Held(mm, b, k) <==>
      || HeldByElement(mm, b, k)
      || exists rid :: rid in LastEnds(b) && k in RelKeys(mm, LastEnds(b)[rid].typeName, LastEnds(b)[rid].source, LastEnds(b)[rid].target)
  {
    hide LastEnds, ScanTypes;
    if rid :| rid in LastEnds(b) && k in RelKeys(mm, LastEnds(b)[rid].typeName, LastEnds(b)[rid].source, LastEnds(b)[rid].target) {
      assert Held(mm, b, k);
    }
    var last := LastEnds(b);
    if k.Out? && LastFrom(b, k.id) {
      var rid :| rid in last && last[rid].source == k.id;
      assert k in RelKeys(mm, last[rid].typeName, last[rid].source, last[rid].target);
    }
    if k.In? && LastTo(b, k.id) {
      var rid :| rid in last && last[rid].target == k.id;
      assert k in RelKeys(mm, last[rid].typeName, last[rid].source, last[rid].target);
    }
    if k.ParentOf? && LastWithin(mm, b, k.id) {
      var rid :| rid in last && last[rid].target == k.id && mm.IsContainment(last[rid].typeName);
      assert k in RelKeys(mm, last[rid].typeName, last[rid].source, last[rid].target);
    }
    if k.ChildrenOf? && LastContains(mm, b, k.id) && !HeldByElement(mm, b, k) {
      var rid :| rid in last && last[rid].source == k.id && mm.IsContainment(last[rid].typeName);
      assert k in RelKeys(mm, last[rid].typeName, last[rid].source, last[rid].target);
    }
  }

  ghost predicate LedBefore(mm: Metamodel, b: Batch, rid: Id, k: ReadKey) {
    rid in b.beforeRels && b.beforeRels[rid].Some?
    && (var r := b.beforeRels[rid].value; k in RelKeys(mm, r.typeName, r.source, r.target))
  }

  ghost predicate ScannedBefore(mm: Metamodel, b: Batch, id: Id, k: ReadKey) {
    id in b.beforeEls && b.beforeEls[id].Some? && k in ScanKeys(mm, b.beforeEls[id].value.typeName)
  }

  /** The keys of an entity that kept its type or ends are among those of its last state. */
  lemma UnmovedHeld(mm: Metamodel, pre: Model, b: Batch, k: ReadKey)
    requires Accounted(pre, b)
    ensures forall rid :: LedBefore(mm, b, rid, k) && !Moved(b, rid) ==> Held(mm, b, k)
    ensures forall id :: ScannedBefore(mm, b, id, k) && !Retyped(b, id) ==> Held(mm, b, k)
  {
    hide InverseTypes, InverseEnds, Flatten, ScanTypes, RelKeys;
    RelationshipEmits(mm, b, k);
    forall rid | LedBefore(mm, b, rid, k) && !Moved(b, rid) ensures Held(mm, b, k) {
      assert rid in LastEnds(b);
    }
    forall id | ScannedBefore(mm, b, id, k) && !Retyped(b, id) ensures Held(mm, b, k) {
      assert id in LastTypes(b);
    }
  }

  /** The keys of a recreated id's old state, one by one. */
  lemma MovedHeld(mm: Metamodel, b: Batch, rid: Id)
    requires Moved(b, rid)
    ensures (forall k :: LedBefore(mm, b, rid, k) ==> Held(mm, b, k)) <==> MoveCovered(mm, b, rid)
  {
    hide LastEnds, LastFrom, LastTo, LastContains, LastWithin;
    var r := b.beforeRels[rid].value;
    assert LedBefore(mm, b, rid, Out(r.source)) && LedBefore(mm, b, rid, In(r.target));
    assert mm.IsContainment(r.typeName) ==> LedBefore(mm, b, rid, ChildrenOf(r.source)) && LedBefore(mm, b, rid, ParentOf(r.target));
  }

  lemma RetypedHeld(mm: Metamodel, b: Batch, id: Id)
    requires Retyped(b, id)
    ensures (forall k :: ScannedBefore(mm, b, id, k) ==> Held(mm, b, k)) <==> RetypeCovered(mm, b, id)
  {
    hide LastTypes, LastScanned, ScanTypes;
    assert b.beforeEls != map[];
    forall t | t in ScanTypes(mm, b.beforeEls[id].value.typeName) ensures ScannedBefore(mm, b, id, Scan(Some(t))) {
    }
  }

  lemma CoversBeforeMeans(mm: Metamodel, b: Batch, keys: set<ReadKey>)
    ensures CoversBefore(mm, b, keys) <==>
      && (forall rid, k :: LedBefore(mm, b, rid, k) ==> k in keys)
      && (forall id, k :: ScannedBefore(mm, b, id, k) ==> k in keys)
  {
    hide RelKeys, ScanKeys;
    if CoversBefore(mm, b, keys) {
      forall rid, k | LedBefore(mm, b, rid, k) ensures k in keys {
      }
    }
    if (forall rid, k :: LedBefore(mm, b, rid, k) ==> k in keys) && (forall id, k :: ScannedBefore(mm, b, id, k) ==> k in keys) {
      forall id, k | id in b.beforeEls && b.beforeEls[id].Some? && k in ScanKeys(mm, b.beforeEls[id].value.typeName) ensures k in keys {
        assert ScannedBefore(mm, b, id, k);
      }
      forall rid | rid in b.beforeRels && b.beforeRels[rid].Some?
        ensures var r := b.beforeRels[rid].value; RelKeys(mm, r.typeName, r.source, r.target) <= keys
      {
        var r := b.beforeRels[rid].value;
        forall k | k in RelKeys(mm, r.typeName, r.source, r.target) ensures k in keys {
          assert LedBefore(mm, b, rid, k);
        }
      }
    }
  }

  lemma CoversBeforeIff(mm: Metamodel, pre: Model, b: Batch)
    requires Accounted(pre, b) && Intact(b.model)
    ensures CoversBefore(mm, b, WrittenKeys(mm, b)) <==> RebornCovered(mm, b)
  {
    hide Accounted, WrittenKeys, CoversBefore, Held, Moved, Retyped, MoveCovered, RetypeCovered, LedBefore, ScannedBefore, Intact;
    CoversBeforeMeans(mm, b, WrittenKeys(mm, b));
    forall k ensures k in WrittenKeys(mm, b) <==> Held(mm, b, k) {
      EmittedIffHeld(mm, pre, b, k);
    }
    if RebornCovered(mm, b) {
      forall rid, k | LedBefore(mm, b, rid, k) ensures Held(mm, b, k) {
        UnmovedHeld(mm, pre, b, k);
        if Moved(b, rid) { MovedHeld(mm, b, rid); }
      }
      forall id, k | ScannedBefore(mm, b, id, k) ensures Held(mm, b, k) {
        UnmovedHeld(mm, pre, b, k);
        if Retyped(b, id) { RetypedHeld(mm, b, id); }
      }
    }
    if CoversBefore(mm, b, WrittenKeys(mm, b)) {
      forall rid | Moved(b, rid) ensures MoveCovered(mm, b, rid) {
        MovedHeld(mm, b, rid);
      }
      forall id | Retyped(b, id) ensures RetypeCovered(mm, b, id) {
        RetypedHeld(mm, b, id);
      }
    }
  }

  /** Exactness: for a batch the applier accepted, the translation always answers, and
      it misses no changed answer exactly when every end that a recreated id has left,
      and every scan its old type was in, belongs to another touched entity. */
  lemma TouchedKeysSoundIff(mm: Metamodel, mint: Mint, pre: Model, ops: seq<ModelOp>, restore: bool)
    requires Intact(pre) && PlainMint(mint)
    requires ApplyAll(mm, mint, StartBatch(pre), ops, restore).Done?
    ensures var b := ApplyAll(mm, mint, StartBatch(pre), ops, restore).batch;
      && Knows(b.model, b)
      && (CoversChanges(mm, pre, b.model, WrittenKeys(mm, b)) <==> RebornCovered(mm, b))
  {
    hide ApplyAll, WrittenKeys, Emits, ScanKeys, RelKeys, InverseTypes, InverseEnds, Flatten, CoversChanges, RebornCovered;
    var b := ApplyAll(mm, mint, StartBatch(pre), ops, restore).batch;
    StartAccounted(pre);
    BatchAccounted(mm, mint, pre, StartBatch(pre), ops, restore);
    WrittenKeysEmits(mm, b);
    CoversBeforeIff(mm, pre, b);
    var keys := WrittenKeys(mm, b);
    if CoversBefore(mm, b, keys) {
      CoversBeforeSuffices(mm, pre, b, keys);
    }
    if CoversChanges(mm, pre, b.model, keys) {
      CoversBeforeNeeded(mm, pre, b, keys);
    }
  }

  lemma CoversBeforeNeeded(mm: Metamodel, pre: Model, b: Batch, keys: set<ReadKey>)
    requires Tracked(pre, b) && Emits(mm, b, keys) && CoversChanges(mm, pre, b.model, keys)
    ensures CoversBefore(mm, b, keys)
  {
    hide Tracked, Emits, CoversChanges, ScanKeys, RelKeys;
    forall id, k | id in b.beforeEls && b.beforeEls[id].Some? && k in ScanKeys(mm, b.beforeEls[id].value.typeName)
      ensures k in keys
    {
      ScanKeysNeeded(mm, pre, b, keys, id, k);
    }
    forall id, k | id in b.beforeRels && b.beforeRels[id].Some?
                && (var r := b.beforeRels[id].value; k in RelKeys(mm, r.typeName, r.source, r.target))
      ensures k in keys
    {
      RelKeysNeeded(mm, pre, b, keys, id, k);
    }
  }

  lemma StartAccounted(pre: Model)
    ensures Accounted(pre, StartBatch(pre))
  {
  }

  // ---- what the answers and the keys hold, by the metamodel itself --------------------------------

  /** What each key reads, entity by entity. */
  lemma ReadsExactly(mm: Metamodel, m: Model, id: Id, x: Id, stereotype: string)
    ensures Read(mm, m, El(x)) == TheElement(if x in m.elements then Some(m.elements[x]) else None)
    ensures var page := Read(mm, m, Scan(Some(stereotype))).elements;
      (id in page <==> id in m.elements && FallsUnder(mm, m.elements[id].typeName, stereotype)) && (id in page ==> page[id] == m.elements[id])
    ensures Read(mm, m, Scan(None)) == Page(m.elements)
    ensures var links := Read(mm, m, Out(x)).links;
      (id in links <==> id in m.relationships && m.relationships[id].source == x) && (id in links ==> links[id] == m.relationships[id])
    ensures var links := Read(mm, m, In(x)).links;
      (id in links <==> id in m.relationships && m.relationships[id].target == x) && (id in links ==> links[id] == m.relationships[id])
    ensures var children := Read(mm, m, ChildrenOf(x)).children;
      && (id in children <==> id in m.relationships && m.relationships[id].source == x && Contains(mm, m.relationships[id].typeName))
      && (id in children ==> var t := m.relationships[id].target;
            children[id] == (t, if t in m.elements then Some(m.elements[t]) else None))
    ensures var parents := Read(mm, m, ParentOf(x)).parents;
      && (id in parents <==> id in m.relationships && m.relationships[id].target == x && Contains(mm, m.relationships[id].typeName))
      && (id in parents ==> parents[id] == m.relationships[id].source)
  {
    assert Read(mm, m, Scan(None)).elements == m.elements;
  }

  ghost predicate Recreates(b: Batch, id: Id) {
    exists op :: op in b.canonical && op.CreateElement? && op.tempId == id
  }

  /** An old element that no op recreates keeps its type, in the model or in the metadata. */
  ghost predicate KeepsType(pre: Model, b: Batch, id: Id)
    requires id in pre.elements
  {
    var types := InverseTypes(Flatten(b.units));
    && (id in b.model.elements ==> b.model.elements[id].typeName == pre.elements[id].typeName)
    && (id in types ==> types[id] == pre.elements[id].typeName)
  }

  lemma {:induction false} BatchKeepsType(mm: Metamodel, mint: Mint, pre: Model, b: Batch, ops: seq<ModelOp>, restore: bool, id: Id)
    requires id in pre.elements && KeepsType(pre, b, id) && ApplyAll(mm, mint, b, ops, restore).Done?
    requires !Recreates(ApplyAll(mm, mint, b, ops, restore).batch, id)
    ensures KeepsType(pre, ApplyAll(mm, mint, b, ops, restore).batch, id)
    decreases |ops|
  {
    hide ApplyOp, InverseTypes, InverseEnds, Flatten;
    if ops != [] {
      var o := ApplyOp(mm, mint, b, ops[0], restore).batch;
      CanonicalGrows(mm, mint, o, ops[1..], restore);
      OpKeepsEntityShape(mm, mint, b, ops[0], restore);
      OpMetadata(mm, mint, b, ops[0], restore);
      assert o.canonical[|b.canonical|] in o.canonical;
      BatchKeepsType(mm, mint, pre, o, ops[1..], restore, id);
    }
  }

  lemma StartKeepsType(pre: Model, id: Id)
    requires id in pre.elements
    ensures KeepsType(pre, StartBatch(pre), id)
  {
  }

  lemma ScanEmitted(mm: Metamodel, pre: Model, b: Batch, id: Id, stereotype: string)
    requires Accounted(pre, b) && id in b.beforeEls
    requires id in b.changedEls ==> FallsUnder(mm, b.model.elements[id].typeName, stereotype)
    requires id in b.deletedEls ==> FallsUnder(mm, InverseTypes(Flatten(b.units))[id], stereotype)
    ensures El(id) in WrittenKeys(mm, b) && Scan(None) in WrittenKeys(mm, b) && Scan(Some(stereotype)) in WrittenKeys(mm, b)
  {
    hide WrittenKeys, InverseTypes, InverseEnds, Flatten;
    WrittenBy(mm, b, El(id));
    WrittenBy(mm, b, Scan(None));
    WrittenBy(mm, b, Scan(Some(stereotype)));
    var types := InverseTypes(Flatten(b.units));
    if id in b.changedEls {
      assert El(id) in ChangedElementKeys(mm, b.model, id) && Scan(None) in ChangedElementKeys(mm, b.model, id);
      assert Scan(Some(stereotype)) in ChangedElementKeys(mm, b.model, id);
    } else {
      assert El(id) in DeletedElementKeys(mm, types, id) && Scan(None) in DeletedElementKeys(mm, types, id);
      assert Scan(Some(stereotype)) in DeletedElementKeys(mm, types, id);
    }
  }

  /** A batch that changes, makes or deletes an element names it, the scan of everything
      and the scan of its type and of each of its ancestors: for one that is there
      afterwards, of the type it has then; for one that is gone, of the type it had. */
  lemma TouchedElementIsScanned(mm: Metamodel, mint: Mint, pre: Model, ops: seq<ModelOp>, restore: bool, id: Id, stereotype: string)
    requires Intact(pre) && PlainMint(mint) && ApplyAll(mm, mint, StartBatch(pre), ops, restore).Done?
    requires var b := ApplyAll(mm, mint, StartBatch(pre), ops, restore).batch;
      && Lookup(b.model.elements, id) != Lookup(pre.elements, id)
      && (if id in b.model.elements then FallsUnder(mm, b.model.elements[id].typeName, stereotype)
          else !Recreates(b, id) && FallsUnder(mm, pre.elements[id].typeName, stereotype))
    ensures var b := ApplyAll(mm, mint, StartBatch(pre), ops, restore).batch;
      El(id) in WrittenKeys(mm, b) && Scan(None) in WrittenKeys(mm, b) && Scan(Some(stereotype)) in WrittenKeys(mm, b)
  {
    hide ApplyAll, WrittenKeys, InverseTypes, InverseEnds, Flatten, FallsUnder, Recreates, Intact;
    var b := ApplyAll(mm, mint, StartBatch(pre), ops, restore).batch;
    StartAccounted(pre);
    BatchAccounted(mm, mint, pre, StartBatch(pre), ops, restore);
    if id !in b.model.elements {
      StartKeepsType(pre, id);
      BatchKeepsType(mm, mint, pre, StartBatch(pre), ops, restore, id);
    }
    ScanEmitted(mm, pre, b, id, stereotype);
  }

  // ---- batches that recreate no entity are always sound ---------------------------------------

  /** No create gives an id that named the same kind of entity before the batch. */
  ghost predicate NoRebirth(pre: Model, canonical: seq<ModelOp>) {
    forall op :: op in canonical ==>
      && (op.CreateElement? ==> op.tempId !in pre.elements)
      && (op.CreateRelationship? ==> op.tempId !in pre.relationships)
  }

  /** Every old entity still has its type and ends, in the model or in the metadata. */
  ghost predicate KeepsShape(pre: Model, b: Batch) {
    var types, ends := InverseTypes(Flatten(b.units)), InverseEnds(Flatten(b.units));
    && (forall id :: id in pre.elements ==>
         && (id in b.model.elements ==> b.model.elements[id].typeName == pre.elements[id].typeName)
         && (id in types ==> types[id] == pre.elements[id].typeName))
    && (forall id :: id in pre.relationships ==>
         && (id in b.model.relationships ==> EndsOf(b.model.relationships[id]) == EndsOf(pre.relationships[id]))
         && (id in ends ==> ends[id] == EndsOf(pre.relationships[id])))
  }

  /** An op keeps the type and ends of every entity it does not create. */
  lemma OpKeepsEntityShape(mm: Metamodel, mint: Mint, b: Batch, op: ModelOp, restore: bool)
    requires ApplyOp(mm, mint, b, op, restore).Done?
    ensures var o := ApplyOp(mm, mint, b, op, restore).batch;
      && |o.canonical| == |b.canonical| + 1 && o.canonical[..|b.canonical|] == b.canonical
      && (var c := o.canonical[|b.canonical|];
          && (forall id :: id in o.model.elements && !(c.CreateElement? && c.tempId == id) ==>
               id in b.model.elements && o.model.elements[id].typeName == b.model.elements[id].typeName)
          && (forall id :: id in o.model.relationships && !(c.CreateRelationship? && c.tempId == id) ==>
               id in b.model.relationships && EndsOf(o.model.relationships[id]) == EndsOf(b.model.relationships[id])))
  {
    hide IsReserved, InversePatch, MergePatch, RestoreElements, RestoreRelationships, Subtree, Known, ResolveProps, Note, NoteAll;
  }

  lemma OpKeepsShape(mm: Metamodel, mint: Mint, pre: Model, b: Batch, op: ModelOp, restore: bool)
    requires KeepsShape(pre, b) && ApplyOp(mm, mint, b, op, restore).Done?
    requires NoRebirth(pre, ApplyOp(mm, mint, b, op, restore).batch.canonical)
    ensures KeepsShape(pre, ApplyOp(mm, mint, b, op, restore).batch) && NoRebirth(pre, b.canonical)
  {
    hide ApplyOp, InverseTypes, InverseEnds, Flatten;
    var o := ApplyOp(mm, mint, b, op, restore).batch;
    OpKeepsEntityShape(mm, mint, b, op, restore);
    OpMetadata(mm, mint, b, op, restore);
    var c := o.canonical[|b.canonical|];
    assert c in o.canonical;
    assert forall x :: x in b.canonical ==> x in o.canonical[..|b.canonical|];
  }

  lemma {:induction false} CanonicalGrows(mm: Metamodel, mint: Mint, b: Batch, ops: seq<ModelOp>, restore: bool)
    requires ApplyAll(mm, mint, b, ops, restore).Done?
    ensures forall op :: op in b.canonical ==> op in ApplyAll(mm, mint, b, ops, restore).batch.canonical
    decreases |ops|
  {
    hide ApplyOp;
    if ops != [] {
      var o := ApplyOp(mm, mint, b, ops[0], restore).batch;
      OpKeepsEntityShape(mm, mint, b, ops[0], restore);
      assert forall op :: op in b.canonical ==> op in o.canonical[..|b.canonical|];
      CanonicalGrows(mm, mint, o, ops[1..], restore);
    }
  }

  lemma {:induction false} BatchKeepsShape(mm: Metamodel, mint: Mint, pre: Model, b: Batch, ops: seq<ModelOp>, restore: bool)
    requires KeepsShape(pre, b) && ApplyAll(mm, mint, b, ops, restore).Done?
    requires NoRebirth(pre, ApplyAll(mm, mint, b, ops, restore).batch.canonical)
    ensures KeepsShape(pre, ApplyAll(mm, mint, b, ops, restore).batch)
    decreases |ops|
  {
    hide ApplyOp, KeepsShape;
    if ops != [] {
      var o := ApplyOp(mm, mint, b, ops[0], restore).batch;
      CanonicalGrows(mm, mint, o, ops[1..], restore);
      OpKeepsShape(mm, mint, pre, b, ops[0], restore);
      BatchKeepsShape(mm, mint, pre, o, ops[1..], restore);
    }
  }

  lemma ShapeIsCovered(mm: Metamodel, pre: Model, b: Batch)
    requires Accounted(pre, b) && KeepsShape(pre, b)
    ensures RebornCovered(mm, b)
  {
    hide InverseTypes, InverseEnds, Flatten, MoveCovered, RetypeCovered;
    forall rid ensures !Moved(b, rid) {
      assert rid in b.beforeRels && b.beforeRels[rid].Some? ==> rid in pre.relationships;
    }
    forall id ensures !Retyped(b, id) {
      assert id in b.beforeEls && b.beforeEls[id].Some? ==> id in pre.elements;
    }
  }

  /** A batch that recreates no old id invalidates every answer it changed. */
  lemma NoRebirthIsSound(mm: Metamodel, mint: Mint, pre: Model, ops: seq<ModelOp>, restore: bool)
    requires Intact(pre) && PlainMint(mint)
    requires ApplyAll(mm, mint, StartBatch(pre), ops, restore).Done?
    requires NoRebirth(pre, ApplyAll(mm, mint, StartBatch(pre), ops, restore).batch.canonical)
    ensures var b := ApplyAll(mm, mint, StartBatch(pre), ops, restore).batch;
      Knows(b.model, b) && CoversChanges(mm, pre, b.model, WrittenKeys(mm, b))
  {
    hide ApplyAll, WrittenKeys, RebornCovered, CoversChanges, NoRebirth, KeepsShape;
    StartAccounted(pre);
    StartKeepsShape(pre);
    BatchAccounted(mm, mint, pre, StartBatch(pre), ops, restore);
    BatchKeepsShape(mm, mint, pre, StartBatch(pre), ops, restore);
    ShapeIsCovered(mm, pre, ApplyAll(mm, mint, StartBatch(pre), ops, restore).batch);
    TouchedKeysSoundIff(mm, mint, pre, ops, restore);
  }

  lemma StartKeepsShape(pre: Model)
    ensures KeepsShape(pre, StartBatch(pre))
  {
  }

  // ---- a rewire goes stale ---------------------------------------------------------------------

  /** Deleting a relationship and recreating it under its own id with another target, as
      the compiler does for every rewire, leaves the old target's incoming links stale. */
  lemma RewireGoesStale(mm: Metamodel, mint: Mint, pre: Model, rid: Id, temp: Id, target: Id)
    requires Sound(mm, pre) && rid in pre.relationships && target in pre.elements && target != pre.relationships[rid].target
    requires IsReserved(temp)
    ensures var r := pre.relationships[rid];
      var ops := [DeleteRelationship(rid), CreateRelationship(temp, r.typeName, r.source, target, r.props, Some(rid))];
      var o := ApplyAll(mm, mint, StartBatch(pre), ops, false);
      && o.Done? && o.batch.model == Model(pre.elements, pre.relationships[rid := r.(target := target)])
      && In(r.target) !in WrittenKeys(mm, o.batch)
      && Read(mm, pre, In(r.target)) != Read(mm, o.batch.model, In(r.target))
  {
    hide WrittenKeys, ApplyOp, Sound, Read, RelKeys;
    var r := pre.relationships[rid];
    var del, cre := DeleteRelationship(rid), CreateRelationship(temp, r.typeName, r.source, target, r.props, Some(rid));
    assert [del, cre][1..] == [cre];
    RewireBatch(mm, mint, pre, rid, temp, target);
    var b := ApplyOp(mm, mint, StartBatch(pre), del, false).batch;
    ApplySingle(mm, mint, b, cre, false);
    var o := ApplyOp(mm, mint, b, cre, false).batch;
    OnlyOneChanged(mm, o, rid);
    LinkMoved(mm, pre, o.model, rid, target);
  }

  lemma RewireBatch(mm: Metamodel, mint: Mint, pre: Model, rid: Id, temp: Id, target: Id)
    requires Sound(mm, pre) && rid in pre.relationships && target in pre.elements && IsReserved(temp)
    ensures var r := pre.relationships[rid];
      var first := ApplyOp(mm, mint, StartBatch(pre), DeleteRelationship(rid), false);
      first.Done? &&
      var o := ApplyOp(mm, mint, first.batch, CreateRelationship(temp, r.typeName, r.source, target, r.props, Some(rid)), false);
      && o.Done? && o.batch.model == Model(pre.elements, pre.relationships[rid := r.(target := target)])
      && o.batch.changedEls == {} && o.batch.deletedEls == {} && o.batch.changedRels == {rid} && o.batch.deletedRels == {}
  {
    hide ResolveProps, IsReserved, Known;
    assert !IsReserved(rid);
    var r := pre.relationships[rid];
    ResolvePropsEmpty(r.props);
    KnownIsAll(r.props, mm.RelationshipProperties(r.typeName));
    assert (pre.relationships - {rid})[rid := r.(target := target)] == pre.relationships[rid := r.(target := target)];
  }

  lemma KnownIsAll(props: Props, names: set<string>)
    requires props.Keys <= names
    ensures Known(props, names) == props
  {
  }

  lemma LinkMoved(mm: Metamodel, pre: Model, post: Model, rid: Id, target: Id)
    requires rid in pre.relationships && target != pre.relationships[rid].target
    requires post == Model(pre.elements, pre.relationships[rid := pre.relationships[rid].(target := target)])
    ensures var r := pre.relationships[rid];
      && In(r.target) !in RelKeys(mm, r.typeName, r.source, target)
      && Read(mm, pre, In(r.target)) != Read(mm, post, In(r.target))
  {
    var k := In(pre.relationships[rid].target);
    assert rid in Read(mm, pre, k).links && rid !in Read(mm, post, k).links;
  }

  lemma OnlyOneChanged(mm: Metamodel, b: Batch, rid: Id)
    requires b.changedEls == {} && b.deletedEls == {} && b.changedRels == {rid} && b.deletedRels == {} && rid in b.model.relationships
    ensures WrittenKeys(mm, b) ==
      var r := b.model.relationships[rid]; RelKeys(mm, r.typeName, r.source, r.target)
  {
    var f := (id: Id) => EndsKeys(mm, AllEnds(b.model, b.changedRels), id);
    assert KeysOver(f, b.changedRels) == f(rid);
  }
}
