/** Log compaction (api/changes.py): rewinding the retained log through its inverses
    recovers the base, and the classification is the diff from base to current. */
module Changes {
  import opened Collections
  import opened Json
  import opened Model
  import opened ModelOps
  import opened ChangeRequestOps
  import opened Session

  // ---- rewinding, as a function -----------------------------------------------------------

  /** One inverse op on the scratch state; None is the KeyError of patching an entity
      the scratch state does not hold. */
  function RewindOp(s: Model, op: ModelOp): Option<Model> {
    match op
    case CreateElement(id, ty, props, _) => Some(Model(s.elements[id := Element(ty, props)], s.relationships))
    case UpdateElement(id, patch) =>
      if id !in s.elements then None else
      Some(Model(s.elements[id := s.elements[id].(props := MergePatch(s.elements[id].props, patch))], s.relationships))
    case DeleteElement(id) => Some(Model(s.elements - {id}, s.relationships))
    case CreateRelationship(id, ty, source, target, props, _) =>
      Some(Model(s.elements, s.relationships[id := Relationship(ty, source, target, props)]))
    case UpdateRelationship(id, patch) =>
      if id !in s.relationships then None else
      Some(Model(s.elements,
        s.relationships[id := s.relationships[id].(props := MergePatch(s.relationships[id].props, patch))]))
    case DeleteRelationship(id) => Some(Model(s.elements, s.relationships - {id}))
  }

  function RewindAll(s: Model, ops: seq<ModelOp>): Option<Model>
    decreases |ops|
  {
    if ops == [] then Some(s) else
    var first := RewindOp(s, ops[0]);
    if first.None? then None else RewindAll(first.value, ops[1..])
  }

  /** Newest batch first. */
  function RewindLog(s: Model, log: seq<AppliedBatch>): Option<Model>
    decreases |log|
  {
    if log == [] then Some(s) else
    var later := RewindAll(s, ModelOpsOf(log[|log| - 1].inverse));
    if later.None? then None else RewindLog(later.value, log[..|log| - 1])
  }

  function TouchedElement(op: ModelOp): set<Id> {
    match op
    case CreateElement(id, _, _, _) => {id}
    case UpdateElement(id, _) => {id}
    case DeleteElement(id) => {id}
    case _ => {}
  }

  function TouchedRelationship(op: ModelOp): set<Id> {
    match op
    case CreateRelationship(id, _, _, _, _, _) => {id}
    case UpdateRelationship(id, _) => {id}
    case DeleteRelationship(id) => {id}
    case _ => {}
  }

  function TouchedEls(ops: seq<ModelOp>): set<Id> {
    set op, id | op in ops && id in TouchedElement(op) :: id
  }

  function TouchedRels(ops: seq<ModelOp>): set<Id> {
    set op, id | op in ops && id in TouchedRelationship(op) :: id
  }

  /** A model cut down to the touched ids. */
  function Cut(m: Model, els: set<Id>, rels: set<Id>): Model {
    Model(Pick(m.elements, els), Pick(m.relationships, rels))
  }

  // ---- rewinding undoes what the applier did ------------------------------------------------------

  lemma {:induction false} RewindConcat(s: Model, ops: seq<ModelOp>, more: seq<ModelOp>)
    ensures RewindAll(s, ops + more) ==
            (var first := RewindAll(s, ops); if first.None? then None else RewindAll(first.value, more))
    decreases |ops|
  {
    hide RewindOp;
    if ops == [] {
      assert ops + more == more;
    } else {
      assert (ops + more)[0] == ops[0] && (ops + more)[1..] == ops[1..] + more;
      var first := RewindOp(s, ops[0]);
      if first.Some? {
        RewindConcat(first.value, ops[1..], more);
      }
    }
  }

  lemma {:induction false} RewindElements(s: Model, full: Model, els: seq<Id>)
    requires Distinct(els) && SetOf(els) <= full.elements.Keys
    ensures RewindAll(s, RestoreElements(full, els)) ==
            Some(Model(s.elements + Pick(full.elements, SetOf(els)), s.relationships))
    decreases |els|
  {
    var ops := RestoreElements(full, els);
    if els == [] {
      assert ops == [] && s.elements + Pick(full.elements, {}) == s.elements;
    } else {
      SetOfCons(els);
      DistinctTail(els);
      var el := full.elements[els[0]];
      PickOneMore(s.elements, full.elements, els[0], SetOf(els[1..]));
      assert ops[1..] == RestoreElements(full, els[1..]);
      RewindElements(Model(s.elements[els[0] := el], s.relationships), full, els[1..]);
    }
  }

  lemma {:induction false} RewindRelationships(s: Model, full: Model, rels: seq<Id>)
    requires Distinct(rels) && SetOf(rels) <= full.relationships.Keys
    ensures RewindAll(s, RestoreRelationships(full, rels)) ==
            Some(Model(s.elements, s.relationships + Pick(full.relationships, SetOf(rels))))
    decreases |rels|
  {
    var ops := RestoreRelationships(full, rels);
    if rels == [] {
      assert ops == [] && s.relationships + Pick(full.relationships, {}) == s.relationships;
    } else {
      SetOfCons(rels);
      DistinctTail(rels);
      var rel := full.relationships[rels[0]];
      PickOneMore(s.relationships, full.relationships, rels[0], SetOf(rels[1..]));
      assert ops[1..] == RestoreRelationships(full, rels[1..]);
      RewindRelationships(Model(s.elements, s.relationships[rels[0] := rel]), full, rels[1..]);
    }
  }

  /** `after` rewinds to `before` on every pair of id sets that covers `unit`, and the
      two agree on every id `unit` does not touch. */
  ghost predicate Rewinds(after: Model, unit: seq<ModelOp>, before: Model) {
    && (forall els, rels :: TouchedEls(unit) <= els && TouchedRels(unit) <= rels ==>
         RewindAll(Cut(after, els, rels), unit) == Some(Cut(before, els, rels)))
    && (forall id :: id !in TouchedEls(unit) ==> Lookup(after.elements, id) == Lookup(before.elements, id))
    && (forall id :: id !in TouchedRels(unit) ==> Lookup(after.relationships, id) == Lookup(before.relationships, id))
  }

  lemma RewindSingle(s: Model, op: ModelOp)
    ensures RewindAll(s, [op]) == RewindOp(s, op)
    ensures TouchedEls([op]) == TouchedElement(op) && TouchedRels([op]) == TouchedRelationship(op)
  {
    assert [op][1..] == [];
  }

  lemma RewindsCreateElement(m: Model, id: Id, el: Element)
    requires id !in m.elements
    ensures Rewinds(Model(m.elements[id := el], m.relationships), [DeleteElement(id)], m)
  {
    var after := Model(m.elements[id := el], m.relationships);
    forall els: set<Id>, rels: set<Id> | TouchedEls([DeleteElement(id)]) <= els && TouchedRels([DeleteElement(id)]) <= rels
      ensures RewindAll(Cut(after, els, rels), [DeleteElement(id)]) == Some(Cut(m, els, rels))
    {
      RewindSingle(Cut(after, els, rels), DeleteElement(id));
      assert Pick(after.elements, els) - {id} == Pick(m.elements, els);
    }
    RewindSingle(m, DeleteElement(id));
  }

  lemma RewindsCreateRelationship(m: Model, id: Id, rel: Relationship)
    requires id !in m.relationships
    ensures Rewinds(Model(m.elements, m.relationships[id := rel]), [DeleteRelationship(id)], m)
  {
    var after := Model(m.elements, m.relationships[id := rel]);
    forall els: set<Id>, rels: set<Id> | TouchedEls([DeleteRelationship(id)]) <= els && TouchedRels([DeleteRelationship(id)]) <= rels
      ensures RewindAll(Cut(after, els, rels), [DeleteRelationship(id)]) == Some(Cut(m, els, rels))
    {
      RewindSingle(Cut(after, els, rels), DeleteRelationship(id));
      assert Pick(after.relationships, rels) - {id} == Pick(m.relationships, rels);
    }
    RewindSingle(m, DeleteRelationship(id));
  }

  lemma RewindsUpdateElement(m: Model, id: Id, patch: Props)
    requires id in m.elements && NullFree(m.elements[id].props)
    ensures var el := m.elements[id];
      Rewinds(Model(m.elements[id := el.(props := MergePatch(el.props, patch))], m.relationships),
        [UpdateElement(id, InversePatch(el.props, patch))], m)
  {
    var el := m.elements[id];
    var op := UpdateElement(id, InversePatch(el.props, patch));
    var patched := el.(props := MergePatch(el.props, patch));
    var after := Model(m.elements[id := patched], m.relationships);
    InversePatchUndoes(el.props, patch);
    RewindSingle(m, op);
    forall els: set<Id>, rels: set<Id> | TouchedEls([op]) <= els && TouchedRels([op]) <= rels
      ensures RewindAll(Cut(after, els, rels), [op]) == Some(Cut(m, els, rels))
    {
      RewindSingle(Cut(after, els, rels), op);
      assert id in els && Pick(after.elements, els)[id] == patched;
      assert Pick(after.elements, els)[id := el] == Pick(m.elements, els);
    }
  }

  lemma RewindsUpdateRelationship(m: Model, id: Id, patch: Props)
    requires id in m.relationships && NullFree(m.relationships[id].props)
    ensures var rel := m.relationships[id];
      Rewinds(Model(m.elements, m.relationships[id := rel.(props := MergePatch(rel.props, patch))]),
        [UpdateRelationship(id, InversePatch(rel.props, patch))], m)
  {
    var rel := m.relationships[id];
    var op := UpdateRelationship(id, InversePatch(rel.props, patch));
    var patched := rel.(props := MergePatch(rel.props, patch));
    var after := Model(m.elements, m.relationships[id := patched]);
    InversePatchUndoes(rel.props, patch);
    RewindSingle(m, op);
    forall els: set<Id>, rels: set<Id> | TouchedEls([op]) <= els && TouchedRels([op]) <= rels
      ensures RewindAll(Cut(after, els, rels), [op]) == Some(Cut(m, els, rels))
    {
      RewindSingle(Cut(after, els, rels), op);
      assert id in rels && Pick(after.relationships, rels)[id] == patched;
      assert Pick(after.relationships, rels)[id := rel] == Pick(m.relationships, rels);
    }
  }

  lemma RewindsDeleteRelationship(m: Model, id: Id)
    requires id in m.relationships
    ensures var rel := m.relationships[id];
      Rewinds(Model(m.elements, m.relationships - {id}),
        [CreateRelationship(id, rel.typeName, rel.source, rel.target, rel.props, None)], m)
  {
    var rel := m.relationships[id];
    var op := CreateRelationship(id, rel.typeName, rel.source, rel.target, rel.props, None);
    var after := Model(m.elements, m.relationships - {id});
    RewindSingle(m, op);
    forall els: set<Id>, rels: set<Id> | TouchedEls([op]) <= els && TouchedRels([op]) <= rels
      ensures RewindAll(Cut(after, els, rels), [op]) == Some(Cut(m, els, rels))
    {
      RewindSingle(Cut(after, els, rels), op);
      assert Pick(after.relationships, rels)[id := rel] == Pick(m.relationships, rels);
    }
  }

  lemma RestoreTouches(m: Model, es: seq<Id>, rs: seq<Id>)
    requires SetOf(es) <= m.elements.Keys && SetOf(rs) <= m.relationships.Keys
    ensures TouchedEls(RestoreElements(m, es) + RestoreRelationships(m, rs)) == SetOf(es)
    ensures TouchedRels(RestoreElements(m, es) + RestoreRelationships(m, rs)) == SetOf(rs)
  {
    var a, b := RestoreElements(m, es), RestoreRelationships(m, rs);
    forall id | id in SetOf(es) ensures id in TouchedEls(a + b) {
      var i :| 0 <= i < |es| && es[i] == id;
      assert (a + b)[i] == a[i] && id in TouchedElement(a[i]);
    }
    forall id | id in SetOf(rs) ensures id in TouchedRels(a + b) {
      var i :| 0 <= i < |rs| && rs[i] == id;
      assert (a + b)[|a| + i] == b[i] && id in TouchedRelationship(b[i]);
    }
    assert forall op :: op in a ==> op.CreateElement? && op.tempId in SetOf(es);
    assert forall op :: op in b ==> op.CreateRelationship? && op.tempId in SetOf(rs);
  }

  lemma CutWithout<V>(m: map<Id, V>, gone: set<Id>, keep: set<Id>)
    requires gone <= keep && gone <= m.Keys
    ensures Pick(m - gone, keep) + Pick(m, gone) == Pick(m, keep)
  {
  }

  lemma RewindsDeleteElement(m: Model, els: set<Id>, rels: set<Id>)
    requires els <= m.elements.Keys && rels <= m.relationships.Keys
    ensures Rewinds(Model(m.elements - els, m.relationships - rels),
      RestoreElements(m, Enumerate(els)) + RestoreRelationships(m, Enumerate(rels)), m)
  {
    var es, rs := Enumerate(els), Enumerate(rels);
    var a, b := RestoreElements(m, es), RestoreRelationships(m, rs);
    var after := Model(m.elements - els, m.relationships - rels);
    RestoreTouches(m, es, rs);
    forall keepEls: set<Id>, keepRels: set<Id> | TouchedEls(a + b) <= keepEls && TouchedRels(a + b) <= keepRels
      ensures RewindAll(Cut(after, keepEls, keepRels), a + b) == Some(Cut(m, keepEls, keepRels))
    {
      var s := Cut(after, keepEls, keepRels);
      RewindConcat(s, a, b);
      RewindElements(s, m, es);
      CutWithout(m.elements, els, keepEls);
      RewindRelationships(Model(Pick(m.elements, keepEls), s.relationships), m, rs);
      CutWithout(m.relationships, rels, keepRels);
    }
  }

  /** What one accepted op records rewinds what it did. */
  lemma RewindsOp(mm: Metamodel, mint: Mint, b: Batch, op: ModelOp, restore: bool)
    requires ModelNullFree(b.model) && ApplyOp(mm, mint, b, op, restore).Done?
    ensures var o := ApplyOp(mm, mint, b, op, restore).batch;
      |o.units| == |b.units| + 1 && o.units[..|b.units|] == b.units && Rewinds(o.model, o.units[|b.units|], b.model)
  {
    hide Rewinds, IsReserved, InversePatch, MergePatch, RestoreElements, RestoreRelationships, Subtree, Known, ResolveProps,
      NullFree;
    var m, o := b.model, ApplyOp(mm, mint, b, op, restore).batch;
    match op
    case CreateElement(t, ty, props, hint) =>
      var id := FinalId(mint, b.minted, t, hint, restore).value;
      RewindsCreateElement(m, id, o.model.elements[id]);
    case UpdateElement(i, patch) => RewindsUpdateElement(m, GetOr(b.ids, i, i), ResolveProps(patch, b.ids));
    case DeleteElement(i) =>
      var els := Doomed(mm, m, GetOr(b.ids, i, i));
      RewindsDeleteElement(m, els, IncidentIds(m, els));
    case CreateRelationship(t, ty, s, g, props, hint) =>
      var id := FinalId(mint, b.minted, t, hint, restore).value;
      RewindsCreateRelationship(m, id, o.model.relationships[id]);
    case UpdateRelationship(i, patch) => RewindsUpdateRelationship(m, GetOr(b.ids, i, i), ResolveProps(patch, b.ids));
    case DeleteRelationship(i) => RewindsDeleteRelationship(m, GetOr(b.ids, i, i));
  }

  lemma TouchedConcat(a: seq<ModelOp>, b: seq<ModelOp>)
    ensures TouchedEls(a + b) == TouchedEls(a) + TouchedEls(b)
    ensures TouchedRels(a + b) == TouchedRels(a) + TouchedRels(b)
  {
    assert forall op :: op in a + b <==> op in a || op in b;
  }

  lemma RewindsNothing(m: Model)
    ensures Rewinds(m, [], m)
  {
  }

  lemma RewindsInStages(after: Model, later: seq<ModelOp>, mid: Model, earlier: seq<ModelOp>, before: Model)
    requires Rewinds(after, later, mid) && Rewinds(mid, earlier, before)
    ensures Rewinds(after, later + earlier, before)
  {
    hide RewindAll, TouchedEls, TouchedRels, Cut;
    TouchedConcat(later, earlier);
    forall els: set<Id>, rels: set<Id> | TouchedEls(later + earlier) <= els && TouchedRels(later + earlier) <= rels
      ensures RewindAll(Cut(after, els, rels), later + earlier) == Some(Cut(before, els, rels))
    {
      RewindConcat(Cut(after, els, rels), later, earlier);
    }
  }

  /** An accepted batch's inverse ops rewind it. */
  lemma {:induction false} RewindsBatch(mm: Metamodel, mint: Mint, b: Batch, ops: seq<ModelOp>, restore: bool)
    returns (units: seq<seq<ModelOp>>)
    requires ModelNullFree(b.model) && Wholesome(mint, ops) && ApplyAll(mm, mint, b, ops, restore).Done?
    ensures var o := ApplyAll(mm, mint, b, ops, restore).batch;
      && o.units == b.units + units && Rewinds(o.model, Unwind(units), b.model)
      && ModelNullFree(o.model) && (Intact(b.model) ==> Intact(o.model))
    decreases |ops|
  {
    hide ApplyOp, Rewinds, Intact, Conforms, ModelNullFree, PlainMint, CreatesNoNull;
    if ops == [] {
      units := [];
      RewindsNothing(b.model);
    } else {
      var first := ApplyOp(mm, mint, b, ops[0], restore).batch;
      assert CreatesNoNull(ops[0]);
      OpKeeps(mm, mint, b, ops[0], restore);
      RewindsOp(mm, mint, b, ops[0], restore);
      var rest := RewindsBatch(mm, mint, first, ops[1..], restore);
      var unit := first.units[|b.units|];
      units := [unit] + rest;
      assert units[1..] == rest && first.units == b.units + [unit];
      var last := ApplyAll(mm, mint, b, ops, restore).batch;
      RewindsInStages(last.model, Unwind(rest), first.model, unit, b.model);
    }
  }

  // ---- whole logs -----------------------------------------------------------------------------------

  /** `entry` logs a batch the applier accepted on `before`, leaving `after`. */
  ghost predicate Logs(mm: Metamodel, mint: Mint, ops: seq<ModelOp>, restore: bool, before: Model, after: Model, entry: AppliedBatch) {
    var o := ApplyAll(mm, mint, StartBatch(before), ops, restore);
    && Wholesome(mint, ops) && o.Done? && o.batch.model == after
    && ModelOpsOf(entry.ops) == o.batch.canonical
    && ModelOpsOf(entry.inverse) == InverseOps(o.batch)
  }

  /** Under some metamodel: a rebind swaps it between batches and keeps the log. */
  ghost predicate Logged(before: Model, after: Model, entry: AppliedBatch) {
    exists mm, mint, ops, restore :: Logs(mm, mint, ops, restore, before, after, entry)
  }

  /** Consecutive states of one session, batch by batch. Nothing need conform. */
  ghost predicate History(states: seq<Model>, log: seq<AppliedBatch>) {
    && |states| == |log| + 1 && Whole(states[0])
    && forall i :: 0 <= i < |log| ==> Logged(states[i], states[i + 1], log[i])
  }

  function BatchEls(b: AppliedBatch): set<Id> {
    TouchedEls(ModelOpsOf(b.ops)) + TouchedEls(ModelOpsOf(b.inverse))
  }

  function BatchRels(b: AppliedBatch): set<Id> {
    TouchedRels(ModelOpsOf(b.ops)) + TouchedRels(ModelOpsOf(b.inverse))
  }

  function LogEls(log: seq<AppliedBatch>): set<Id> {
    set b, id | b in log && id in BatchEls(b) :: id
  }

  function LogRels(log: seq<AppliedBatch>): set<Id> {
    set b, id | b in log && id in BatchRels(b) :: id
  }

  lemma LoggedRewinds(before: Model, after: Model, entry: AppliedBatch)
    requires Whole(before) && Logged(before, after, entry)
    ensures Whole(after) && Rewinds(after, ModelOpsOf(entry.inverse), before)
  {
    hide ApplyAll, Intact, ModelNullFree, Rewinds, ModelOpsOf;
    var mm, mint, ops, restore :| Logs(mm, mint, ops, restore, before, after, entry);
    var units := RewindsBatch(mm, mint, StartBatch(before), ops, restore);
    assert ApplyAll(mm, mint, StartBatch(before), ops, restore).batch.units == units;
  }

  lemma HistoryFront(states: seq<Model>, log: seq<AppliedBatch>)
    requires History(states, log) && log != []
    ensures History(states[..|log|], log[..|log| - 1])
    ensures Logged(states[|log| - 1], states[|log|], log[|log| - 1])
  {
    hide Logged, Whole;
  }

  lemma {:induction false} HistoryWhole(states: seq<Model>, log: seq<AppliedBatch>)
    requires History(states, log)
    ensures Whole(states[|log|])
  {
    hide Logged, Whole;
    if log != [] {
      var n := |log| - 1;
      HistoryFront(states, log);
      HistoryWhole(states[..n + 1], log[..n]);
      LoggedRewinds(states[n], states[n + 1], log[n]);
    }
  }

  /** Rewinding a whole log never misses an entity and recovers, for the touched ids,
      the state before its first batch; every other id never changed. */
  lemma {:induction false} LogRewinds(states: seq<Model>, log: seq<AppliedBatch>, els: set<Id>, rels: set<Id>)
    requires History(states, log) && LogEls(log) <= els && LogRels(log) <= rels
    ensures RewindLog(Cut(states[|log|], els, rels), log) == Some(Cut(states[0], els, rels))
    ensures forall id :: id !in els ==> Lookup(states[|log|].elements, id) == Lookup(states[0].elements, id)
    ensures forall id :: id !in rels ==> Lookup(states[|log|].relationships, id) == Lookup(states[0].relationships, id)
  {
    hide Logged, Whole, TouchedEls, TouchedRels, Cut, ModelOpsOf, RewindAll, LogEls, LogRels;
    if log != [] {
      var n := |log| - 1;
      HistoryFront(states, log);
      HistoryWhole(states[..n + 1], log[..n]);
      LoggedRewinds(states[n], states[n + 1], log[n]);
      LogCovers(log);
      LogRewinds(states[..n + 1], log[..n], els, rels);
    }
  }

  lemma LogCovers(log: seq<AppliedBatch>)
    requires log != []
    ensures var n := |log| - 1;
      && TouchedEls(ModelOpsOf(log[n].inverse)) <= LogEls(log) && TouchedRels(ModelOpsOf(log[n].inverse)) <= LogRels(log)
      && LogEls(log[..n]) <= LogEls(log) && LogRels(log[..n]) <= LogRels(log)
  {
    var last := log[|log| - 1];
    assert last in log;
    assert forall id :: id in BatchEls(last) ==> id in LogEls(log);
    assert forall id :: id in BatchRels(last) ==> id in LogRels(log);
  }

  // ---- the engine as it runs ----------------------------------------------------------------------------

  /** The touched ids in first-touch order, each once. */
  method CollectTouched(log: seq<AppliedBatch>) returns (els: seq<Id>, rels: seq<Id>)
    ensures Distinct(els) && SetOf(els) == LogEls(log)
    ensures Distinct(rels) && SetOf(rels) == LogRels(log)
  {
    els, rels := [], [];
    for i := 0 to |log|
      invariant Distinct(els) && SetOf(els) == LogEls(log[..i])
      invariant Distinct(rels) && SetOf(rels) == LogRels(log[..i])
    {
      var entry := log[i];
      els, rels := Touch(ModelOpsOf(entry.ops), els, rels);
      els, rels := Touch(ModelOpsOf(entry.inverse), els, rels);
      LogGrows(log, i);
    }
    assert log[..|log|] == log;
  }

  lemma LogGrows(log: seq<AppliedBatch>, i: nat)
    requires i < |log|
    ensures LogEls(log[..i + 1]) == LogEls(log[..i]) + BatchEls(log[i])
    ensures LogRels(log[..i + 1]) == LogRels(log[..i]) + BatchRels(log[i])
  {
    hide BatchEls, BatchRels;
    assert log[..i + 1] == log[..i] + [log[i]];
    assert forall b :: b in log[..i + 1] <==> b in log[..i] || b == log[i];
    assert log[i] in log[..i + 1];
  }

  method Touch(ops: seq<ModelOp>, els: seq<Id>, rels: seq<Id>) returns (moreEls: seq<Id>, moreRels: seq<Id>)
    requires Distinct(els) && Distinct(rels)
    ensures Distinct(moreEls) && SetOf(moreEls) == SetOf(els) + TouchedEls(ops)
    ensures Distinct(moreRels) && SetOf(moreRels) == SetOf(rels) + TouchedRels(ops)
  {
    moreEls, moreRels := els, rels;
    for i := 0 to |ops|
      invariant Distinct(moreEls) && SetOf(moreEls) == SetOf(els) + TouchedEls(ops[..i])
      invariant Distinct(moreRels) && SetOf(moreRels) == SetOf(rels) + TouchedRels(ops[..i])
    {
      assert ops[..i + 1] == ops[..i] + [ops[i]];
      TouchedConcat(ops[..i], [ops[i]]);
      RewindSingle(Model(map[], map[]), ops[i]);
      match ops[i] {
        case CreateElement(id, _, _, _) => moreEls := AddOnce(moreEls, id);
        case UpdateElement(id, _) => moreEls := AddOnce(moreEls, id);
        case DeleteElement(id) => moreEls := AddOnce(moreEls, id);
        case CreateRelationship(id, _, _, _, _, _) => moreRels := AddOnce(moreRels, id);
        case UpdateRelationship(id, _) => moreRels := AddOnce(moreRels, id);
        case DeleteRelationship(id) => moreRels := AddOnce(moreRels, id);
      }
    }
    assert ops[..|ops|] == ops;
  }

  function AddOnce(ids: seq<Id>, id: Id): (more: seq<Id>)
    ensures SetOf(more) == SetOf(ids) + {id}
    ensures Distinct(ids) ==> Distinct(more)
  {
    assert SetOf(ids + [id]) == SetOf(ids) + {id};
    if id in ids then ids else ids + [id]
  }

  /** The merge patch, key by key. */
  method MergeInto(props: Props, patch: Props) returns (merged: Props)
    ensures merged == MergePatch(props, patch)
  {
    merged := props;
    var todo := patch.Keys;
    while todo != {}
      invariant todo <= patch.Keys
      invariant merged == MergePatch(props, map k | k in patch && k !in todo :: patch[k])
    {
      var k :| k in todo;
      todo := todo - {k};
      merged := if patch[k] == Null then merged - {k} else merged[k := patch[k]];
    }
    assert (map k | k in patch && k !in todo :: patch[k]) == patch;
  }

  /** The scratch entity states the engine steps backwards. */
  class Scratch {
    var elState: map<Id, Element>
    var relState: map<Id, Relationship>

    function State(): Model
      reads this
    {
      Model(elState, relState)
    }

    constructor (model: Model, els: seq<Id>, rels: seq<Id>)
      ensures State() == Cut(model, SetOf(els), SetOf(rels))
    {
      elState, relState := map[], map[];
      new;
      for i := 0 to |els|
        invariant elState == Pick(model.elements, SetOf(els[..i])) && relState == map[]
      {
        assert SetOf(els[..i + 1]) == SetOf(els[..i]) + {els[i]} by {
          assert els[..i + 1] == els[..i] + [els[i]];
        }
        if els[i] in model.elements {
          elState := elState[els[i] := model.elements[els[i]]];
        }
      }
      assert els[..|els|] == els;
      for i := 0 to |rels|
        invariant elState == Pick(model.elements, SetOf(els)) && relState == Pick(model.relationships, SetOf(rels[..i]))
      {
        assert SetOf(rels[..i + 1]) == SetOf(rels[..i]) + {rels[i]} by {
          assert rels[..i + 1] == rels[..i] + [rels[i]];
        }
        if rels[i] in model.relationships {
          relState := relState[rels[i] := model.relationships[rels[i]]];
        }
      }
      assert rels[..|rels|] == rels;
    }

    /** One inverse op; `ok` is false where the source raises KeyError. */
    method ApplyInverse(op: ModelOp) returns (ok: bool)
      modifies this
      ensures ok <==> RewindOp(old(State()), op).Some?
      ensures ok ==> State() == RewindOp(old(State()), op).value
      ensures !ok ==> State() == old(State())
    {
      ok := true;
      match op {
        case CreateElement(id, ty, props, _) => elState := elState[id := Element(ty, props)];
        case UpdateElement(id, patch) =>
          if id !in elState {
            return false;
          }
          var merged := MergeInto(elState[id].props, patch);
          elState := elState[id := elState[id].(props := merged)];
        case DeleteElement(id) => elState := elState - {id};
        case CreateRelationship(id, ty, source, target, props, _) =>
          relState := relState[id := Relationship(ty, source, target, props)];
        case UpdateRelationship(id, patch) =>
          if id !in relState {
            return false;
          }
          var merged := MergeInto(relState[id].props, patch);
          relState := relState[id := relState[id].(props := merged)];
        case DeleteRelationship(id) => relState := relState - {id};
      }
    }

    method RewindBatch(ops: seq<ModelOp>) returns (ok: bool)
      modifies this
      ensures ok <==> RewindAll(old(State()), ops).Some?
      ensures ok ==> State() == RewindAll(old(State()), ops).value
    {
      ghost var start := State();
      for i := 0 to |ops|
        invariant RewindAll(start, ops) == RewindAll(State(), ops[i..])
      {
        assert ops[i..][0] == ops[i] && ops[i..][1..] == ops[i + 1..];
        ok := ApplyInverse(ops[i]);
        if !ok {
          return false;
        }
      }
      ok := true;
    }

    /** Newest batch first, each through its inverse ops front to back. */
    method Rewind(log: seq<AppliedBatch>) returns (ok: bool)
      modifies this
      ensures ok <==> RewindLog(old(State()), log).Some?
      ensures ok ==> State() == RewindLog(old(State()), log).value
    {
      ghost var start := State();
      assert log[..|log|] == log;
      for i := |log| downto 0
        invariant RewindLog(start, log) == RewindLog(State(), log[..i])
      {
        assert log[..i + 1][..i] == log[..i];
        ok := RewindBatch(ModelOpsOf(log[i].inverse));
        if !ok {
          return false;
        }
      }
      ok := true;
    }
  }

  /** The touched ids that lie in a set, in first-touch order. */
  ghost function Chosen(touched: seq<Id>, s: set<Id>): seq<Id> {
    if touched == [] then [] else
    var last := touched[|touched| - 1];
    Chosen(touched[..|touched| - 1], s) + if last in s then [last] else []
  }

  lemma {:induction false} ChosenOnce(touched: seq<Id>, s: set<Id>)
    requires Distinct(touched)
    ensures Distinct(Chosen(touched, s))
    ensures forall id :: id in Chosen(touched, s) <==> id in touched && id in s
  {
    if touched != [] {
      ChosenOnce(touched[..|touched| - 1], s);
    }
  }

  ghost function Changed<V(!new)>(base: map<Id, V>, current: map<Id, V>): set<Id> {
    set id | id in base && id in current && base[id] != current[id]
  }

  ghost predicate Names<V>(list: seq<Named<V>>, ids: seq<Id>, states: map<Id, V>) {
    && |list| == |ids|
    && forall i :: 0 <= i < |list| ==> list[i].id == ids[i] && ids[i] in states && list[i].state == states[ids[i]]
  }

  ghost predicate NamesModified<V>(list: seq<Modified<V>>, ids: seq<Id>, base: map<Id, V>, current: map<Id, V>) {
    && |list| == |ids|
    && forall i :: 0 <= i < |list| ==> var x := list[i];
         x.id == ids[i] && x.id in base && x.id in current && x.before == base[x.id] && x.after == current[x.id]
  }

  lemma NamedOnce<V>(list: seq<Named<V>>, ids: seq<Id>, states: map<Id, V>)
    requires Names(list, ids, states) && Distinct(ids)
    ensures forall i, j :: 0 <= i < j < |list| ==> list[i].id != list[j].id
    ensures forall i :: 0 <= i < |list| ==> list[i].id in ids && list[i].id in states && list[i].state == states[list[i].id]
    ensures forall id :: id in ids ==> exists i :: 0 <= i < |list| && list[i].id == id
  {
    forall id | id in ids ensures exists i :: 0 <= i < |list| && list[i].id == id {
      var i :| 0 <= i < |ids| && ids[i] == id;
      assert list[i].id == id;
    }
  }

  lemma ModifiedOnce<V>(list: seq<Modified<V>>, ids: seq<Id>, base: map<Id, V>, current: map<Id, V>)
    requires NamesModified(list, ids, base, current) && Distinct(ids)
    ensures forall i, j :: 0 <= i < j < |list| ==> list[i].id != list[j].id
    ensures forall i :: 0 <= i < |list| ==> var x := list[i];
      x.id in ids && x.id in base && x.id in current && x.before == base[x.id] && x.after == current[x.id]
    ensures forall id :: id in ids ==> exists i :: 0 <= i < |list| && list[i].id == id
  {
    forall id | id in ids ensures exists i :: 0 <= i < |list| && list[i].id == id {
      var i :| 0 <= i < |ids| && ids[i] == id;
      assert list[i].id == id;
    }
  }

  lemma Classified<V(!new)>(touched: seq<Id>, base: map<Id, V>, current: map<Id, V>,
      added: seq<Named<V>>, modified: seq<Modified<V>>, deleted: seq<Named<V>>)
    requires Distinct(touched) && base.Keys <= SetOf(touched) && current.Keys <= SetOf(touched)
    requires Names(added, Chosen(touched, current.Keys - base.Keys), current)
    requires NamesModified(modified, Chosen(touched, Changed(base, current)), base, current)
    requires Names(deleted, Chosen(touched, base.Keys - current.Keys), base)
    ensures Diffs(base, current, added, modified, deleted)
  {
    hide Chosen, Distinct, Names, NamesModified;
    var a, m, d := Chosen(touched, current.Keys - base.Keys), Chosen(touched, Changed(base, current)),
      Chosen(touched, base.Keys - current.Keys);
    ChosenOnce(touched, current.Keys - base.Keys);
    ChosenOnce(touched, Changed(base, current));
    ChosenOnce(touched, base.Keys - current.Keys);
    NamedOnce(added, a, current);
    NamedOnce(deleted, d, base);
    ModifiedOnce(modified, m, base, current);
  }

  lemma NoneChosen(s: set<Id>)
    ensures Chosen([], s) == []
  {
  }

  lemma ChosenNext(touched: seq<Id>, i: nat, s: set<Id>)
    requires i < |touched|
    ensures Chosen(touched[..i + 1], s) == if touched[i] in s then Chosen(touched[..i], s) + [touched[i]] else Chosen(touched[..i], s)
  {
    assert touched[..i + 1][..i] == touched[..i];
  }

  lemma ChangedMeans<V(!new)>(base: map<Id, V>, current: map<Id, V>, id: Id)
    ensures id in Changed(base, current) <==> id in base && id in current && base[id] != current[id]
  {
  }

  lemma NothingNamed<V>(base: map<Id, V>, current: map<Id, V>)
    ensures Names([], [], base) && Names([], [], current) && NamesModified([], [], base, current)
  {
  }

  lemma NamedNext<V>(list: seq<Named<V>>, ids: seq<Id>, states: map<Id, V>, id: Id)
    requires Names(list, ids, states) && id in states
    ensures Names(list + [Named(id, states[id])], ids + [id], states)
  {
  }

  lemma ModifiedNext<V>(list: seq<Modified<V>>, ids: seq<Id>, base: map<Id, V>, current: map<Id, V>, id: Id)
    requires NamesModified(list, ids, base, current) && id in base && id in current
    ensures NamesModified(list + [Modified(id, base[id], current[id])], ids + [id], base, current)
  {
  }

  method Classify<V(==, !new)>(touched: seq<Id>, base: map<Id, V>, current: map<Id, V>)
    returns (added: seq<Named<V>>, modified: seq<Modified<V>>, deleted: seq<Named<V>>)
    requires Distinct(touched) && base.Keys <= SetOf(touched) && current.Keys <= SetOf(touched)
    ensures Diffs(base, current, added, modified, deleted)
  {
    hide Diffs, Chosen, Changed, Names, NamesModified;
    NothingNamed(base, current);
    NoneChosen(current.Keys - base.Keys);
    NoneChosen(Changed(base, current));
    NoneChosen(base.Keys - current.Keys);
    added, modified, deleted := [], [], [];
    for i := 0 to |touched|
      invariant Names(added, Chosen(touched[..i], current.Keys - base.Keys), current)
      invariant NamesModified(modified, Chosen(touched[..i], Changed(base, current)), base, current)
      invariant Names(deleted, Chosen(touched[..i], base.Keys - current.Keys), base)
    {
      var id := touched[i];
      ChosenNext(touched, i, current.Keys - base.Keys);
      ChosenNext(touched, i, Changed(base, current));
      ChosenNext(touched, i, base.Keys - current.Keys);
      ChangedMeans(base, current, id);
      if id !in base && id in current {
        NamedNext(added, Chosen(touched[..i], current.Keys - base.Keys), current, id);
        added := added + [Named(id, current[id])];
      } else if id in base && id !in current {
        NamedNext(deleted, Chosen(touched[..i], base.Keys - current.Keys), base, id);
        deleted := deleted + [Named(id, base[id])];
      } else if id in base && id in current && base[id] != current[id] {
        ModifiedNext(modified, Chosen(touched[..i], Changed(base, current)), base, current, id);
        modified := modified + [Modified(id, base[id], current[id])];
      }
    }
    assert touched[..|touched|] == touched;
    Classified(touched, base, current, added, modified, deleted);
  }

  // ---- rewinding stays inside the touched ids ----------------------------------------------

  lemma {:induction false} RewindStaysInside(s: Model, ops: seq<ModelOp>, els: set<Id>, rels: set<Id>)
    requires s.elements.Keys <= els && s.relationships.Keys <= rels
    requires TouchedEls(ops) <= els && TouchedRels(ops) <= rels
    ensures var r := RewindAll(s, ops);
      r.Some? ==> r.value.elements.Keys <= els && r.value.relationships.Keys <= rels
    decreases |ops|
  {
    if ops != [] {
      assert [ops[0]] + ops[1..] == ops;
      TouchedConcat([ops[0]], ops[1..]);
      RewindSingle(s, ops[0]);
      var first := RewindOp(s, ops[0]);
      if first.Some? {
        RewindStaysInside(first.value, ops[1..], els, rels);
      }
    }
  }

  lemma {:induction false} RewindLogStaysInside(s: Model, log: seq<AppliedBatch>, els: set<Id>, rels: set<Id>)
    requires s.elements.Keys <= els && s.relationships.Keys <= rels
    requires LogEls(log) <= els && LogRels(log) <= rels
    ensures var r := RewindLog(s, log);
      r.Some? ==> r.value.elements.Keys <= els && r.value.relationships.Keys <= rels
    decreases |log|
  {
    hide LogEls, LogRels, TouchedEls, TouchedRels;
    if log != [] {
      var n := |log| - 1;
      LogCovers(log);
      RewindStaysInside(s, ModelOpsOf(log[n].inverse), els, rels);
      var later := RewindAll(s, ModelOpsOf(log[n].inverse));
      if later.Some? {
        RewindLogStaysInside(later.value, log[..n], els, rels);
      }
    }
  }

  /** Collect, rewind, classify. None exactly where the rewind would raise. */
  method CompactChanges(model: Model, log: seq<AppliedBatch>) returns (r: Option<ChangeRequest>)
    ensures var current := Cut(model, LogEls(log), LogRels(log));
      var base := RewindLog(current, log);
      (r.None? <==> base.None?) && (r.Some? ==> IsDiff(base.value, current, r.value))
  {
    hide LogEls, LogRels, RewindLog, Diffs;
    var els, rels := CollectTouched(log);
    var scratch := new Scratch(model, els, rels);
    ghost var current := scratch.State();
    RewindLogStaysInside(current, log, SetOf(els), SetOf(rels));
    var ok := scratch.Rewind(log);
    if !ok {
      return None;
    }
    var ea, em, ed := Classify(els, scratch.elState, Pick(model.elements, SetOf(els)));
    var ra, rm, rd := Classify(rels, scratch.relState, Pick(model.relationships, SetOf(rels)));
    r := Some(ChangeRequest(ea, em, ed, ra, rm, rd));
  }
}
