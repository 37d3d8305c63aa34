/** Compaction end to end: the retained log is compacted, compiled and run again. */
module LogReplay {
  import opened Collections
  import opened Model
  import opened ModelOps
  import opened ModelUndo
  import opened ChangeRequestOps
  import opened CompilerCorrectness
  import opened Session
  import opened Changes

  /** Dropping the oldest batches leaves a history that starts just after them. */
  lemma RetainedHistory(states: seq<Model>, history: seq<AppliedBatch>, dropped: nat)
    requires History(states, history) && dropped <= |history|
    ensures History(states[dropped..], history[dropped..])
  {
    hide Logged, Whole;
    HistoryPrefix(states, history, dropped);
    HistoryWhole(states[..dropped + 1], history[..dropped]);
    var kept, log := states[dropped..], history[dropped..];
    forall i | 0 <= i < |log| ensures Logged(kept[i], kept[i + 1], log[i]) {
      assert Logged(states[dropped + i], states[dropped + i + 1], history[dropped + i]);
    }
  }

  lemma HistoryPrefix(states: seq<Model>, history: seq<AppliedBatch>, n: nat)
    requires History(states, history) && n <= |history|
    ensures History(states[..n + 1], history[..n])
  {
    hide Logged, Whole;
  }

  ghost predicate LoggedUnder(mm: Metamodel, before: Model, after: Model, entry: AppliedBatch) {
    exists mint, ops, restore :: Logs(mm, mint, ops, restore, before, after, entry)
  }

  /** Undo: popping the newest batch leaves a history. Its inverse ops run under the
      metamodel it ran under, since an undo across a rebind is refused; they are refused
      exactly when an entity they recreate does not conform, and otherwise take the model
      back to where the history ends, whatever ids are minted meanwhile. */
  lemma UndoPops(mm: Metamodel, again: Mint, states: seq<Model>, history: seq<AppliedBatch>)
    requires History(states, history) && history != []
    requires LoggedUnder(mm, states[|history| - 1], states[|history|], history[|history| - 1])
    ensures var n := |history| - 1;
      var inverse := ModelOpsOf(history[n].inverse);
      var back := ApplyAll(mm, again, StartBatch(states[n + 1]), inverse, true);
      && History(states[..n + 1], history[..n])
      && (back.Done? <==> RecreatesFitting(mm, states[n], inverse))
      && (back.Done? ==> back.batch.model == states[n])
  {
    hide Logs, Whole, RecreatesFitting, ModelOpsOf, ApplyAll;
    var n := |history| - 1;
    HistoryPrefix(states, history, n);
    HistoryWhole(states[..n + 1], history[..n]);
    var mint, ops, restore :| Logs(mm, mint, ops, restore, states[n], states[n + 1], history[n]);
    LoggedUndoes(mm, mint, ops, restore, states[n], states[n + 1], history[n], again);
  }

  lemma LoggedUndoes(mm: Metamodel, mint: Mint, ops: seq<ModelOp>, restore: bool, before: Model, after: Model, entry: AppliedBatch, again: Mint)
    requires Whole(before) && Logs(mm, mint, ops, restore, before, after, entry)
    ensures var inverse := ModelOpsOf(entry.inverse);
      var back := ApplyAll(mm, again, StartBatch(after), inverse, true);
      (back.Done? <==> RecreatesFitting(mm, before, inverse)) && (back.Done? ==> back.batch.model == before)
  {
    hide ApplyAll, Whole, RecreatesFitting, ModelOpsOf, Wholesome;
    UndoIffFitting(mm, mint, before, ops, restore, again);
  }

  /** The same ids are added, dropped and changed, with the same states. */
  ghost predicate SameChange<V(!new)>(base: map<Id, V>, other: map<Id, V>, base': map<Id, V>, other': map<Id, V>) {
    && (forall id :: id in other && id !in base ==> id in other' && id !in base' && other'[id] == other[id])
    && (forall id :: id in base && id !in other ==> id in base' && id !in other' && base'[id] == base[id])
    && (forall id :: id in base && id in other && base[id] != other[id] ==>
         id in base' && id in other' && base'[id] == base[id] && other'[id] == other[id])
  }

  lemma DifferAlike<V(!new)>(base: map<Id, V>, other: map<Id, V>, base': map<Id, V>, other': map<Id, V>,
      added: seq<Named<V>>, modified: seq<Modified<V>>, deleted: seq<Named<V>>)
    requires SameChange(base, other, base', other') && SameChange(base', other', base, other)
    requires Diffs(base, other, added, modified, deleted)
    ensures Diffs(base', other', added, modified, deleted)
  {
    assert forall i :: 0 <= i < |added| ==> added[i].id in other;
    assert forall i :: 0 <= i < |modified| ==> modified[i].id in other;
    assert forall i :: 0 <= i < |deleted| ==> deleted[i].id in base;
  }

  lemma CutKeepsChange<V(!new)>(base: map<Id, V>, other: map<Id, V>, ids: set<Id>)
    requires forall id :: id !in ids ==> Lookup(base, id) == Lookup(other, id)
    ensures SameChange(base, other, Pick(base, ids), Pick(other, ids)) && SameChange(Pick(base, ids), Pick(other, ids), base, other)
  {
    assert forall id :: id !in ids ==> (id in base <==> id in other) && (id in base ==> base[id] == other[id]);
  }

  lemma CutDiffersAlike(base: Model, other: Model, els: set<Id>, rels: set<Id>, cr: ChangeRequest)
    requires forall id :: id !in els ==> Lookup(base.elements, id) == Lookup(other.elements, id)
    requires forall id :: id !in rels ==> Lookup(base.relationships, id) == Lookup(other.relationships, id)
    ensures IsDiff(Cut(base, els, rels), Cut(other, els, rels), cr) <==> IsDiff(base, other, cr)
  {
    hide Diffs, SameChange, Pick;
    CutKeepsChange(base.elements, other.elements, els);
    CutKeepsChange(base.relationships, other.relationships, rels);
    var b, o := Cut(base, els, rels), Cut(other, els, rels);
    if IsDiff(b, o, cr) {
      DifferAlike(b.elements, o.elements, base.elements, other.elements, cr.elsAdded, cr.elsModified, cr.elsDeleted);
      DifferAlike(b.relationships, o.relationships, base.relationships, other.relationships, cr.relsAdded, cr.relsModified, cr.relsDeleted);
    }
    if IsDiff(base, other, cr) {
      DifferAlike(base.elements, other.elements, b.elements, o.elements, cr.elsAdded, cr.elsModified, cr.elsDeleted);
      DifferAlike(base.relationships, other.relationships, b.relationships, o.relationships, cr.relsAdded, cr.relsModified, cr.relsDeleted);
    }
  }

  /** What compaction classifies is the whole diff from the state before the first
      retained batch to the current model, and it never raises. */
  lemma CompactionIsWholeDiff(states: seq<Model>, log: seq<AppliedBatch>, cr: ChangeRequest)
    requires History(states, log)
    ensures var current := Cut(states[|log|], LogEls(log), LogRels(log));
      var base := RewindLog(current, log);
      base.Some? && (IsDiff(base.value, current, cr) <==> IsDiff(states[0], states[|log|], cr))
  {
    hide Logged, Whole, LogEls, LogRels, RewindLog, IsDiff, Cut;
    LogRewinds(states, log, LogEls(log), LogRels(log));
    CutDiffersAlike(states[0], states[|log|], LogEls(log), LogRels(log), cr);
  }

  ghost predicate Retyped(base: Model, other: Model) {
    exists id :: id in base.elements && id in other.elements && base.elements[id].typeName != other.elements[id].typeName
  }

  /** Compacting a session's retained log and compiling the result reproduces the log,
      whatever schemas its batches ran under: the compiler refuses exactly when an id came
      back under another element type; otherwise, run under any schema, the batch lands on
      the base exactly when no id changed kind and what it writes fits that schema, deletes
      exactly what the log deleted, and yields the current model exactly when no written
      property mentions a temporary id minted before it. */
  lemma CompactedLogReplays(mm: Metamodel, mint: Mint, session: Session, states: seq<Model>, cr: ChangeRequest)
    requires session.Valid() && History(states, session.history)
    requires var current := Cut(states[|session.history|], LogEls(session.opLog), LogRels(session.opLog));
      var base := RewindLog(current, session.opLog);
      base.Some? && IsDiff(base.value, current, cr)
    ensures var base, current := states[session.opLogDropped], states[|session.history|];
      && (Compile(cr).None? <==> Retyped(base, current))
      && (Compile(cr).Some? ==>
           var o := ApplyAll(mm, mint, StartBatch(base), Compile(cr).value, false);
           && (o.Done? <==> NoKindClash(base, current) && Fits(mm, cr))
           && (o.Done? ==>
                && o.batch.deletedEls == base.elements.Keys - current.elements.Keys
                && o.batch.deletedRels == base.relationships.Keys - current.relationships.Keys
                && (o.batch.model == current <==> CleanRequest(cr))))
  {
    hide Logged, IsDiff, Compile, ApplyAll, RewindLog, NoKindClash, CleanRequest, Fits, Whole, Cut, LogEls, LogRels;
    var n, kept := session.opLogDropped, states[session.opLogDropped..];
    RetainedHistory(states, session.history, n);
    HistoryWhole(kept, session.opLog);
    CompactionIsWholeDiff(kept, session.opLog, cr);
    RefusedIffRetyped(kept[0], kept[|session.opLog|], cr);
    if !Retyped(kept[0], kept[|session.opLog|]) {
      WholeIsIntact(kept[0]);
      WholeIsIntact(kept[|session.opLog|]);
      CompiledRequestLands(mm, mint, kept[0], kept[|session.opLog|], cr);
    }
  }

  lemma WholeIsIntact(m: Model)
    requires Whole(m)
    ensures Intact(m)
  {
  }

  // ---- a rebind in the log ----------------------------------------------------------------

  /** The smallest log that compacts but does not replay: one batch creates an element,
      the schema is then rebound to one it does not fit. The request describes the whole
      difference, and its batch is refused. */
  lemma RebindBreaksReplay(was: Metamodel, now: Metamodel, mint: Mint, base: Model, x: Id, el: Element)
    requires Whole(base) && !InUse(base, x) && !IsReserved(x) && PlainMint(mint)
    requires NullFree(el.props) && FitsElement(was, el) && !FitsElement(now, el)
    ensures var after := Model(base.elements[x := el], base.relationships);
      var entry := AppliedBatch([OnModel(CreateElement(x, el.typeName, el.props, None))], [OnModel(DeleteElement(x))]);
      var cr := ChangeRequest([Named(x, el)], [], [], [], [], []);
      && History([base, after], [entry]) && IsDiff(base, after, cr) && Compile(cr).Some?
      && ApplyAll(now, mint, StartBatch(base), Compile(cr).value, false).Failed?
  {
    hide Compile, ApplyAll, CleanRequest, IsReserved, Whole, Diffs, NoKindClash, FitsElement, NullFree, Logged;
    var after := Model(base.elements[x := el], base.relationships);
    var cr := ChangeRequest([Named(x, el)], [], [], [], [], []);
    CreateIsLogged(was, mint, base, x, el);
    OneAdded(base, after, x, el);
    RefusedIffRetyped(base, after, cr);
    assert !FitsElement(now, cr.elsAdded[0].state);
    AddedIsIntact(base, x, el);
    CompiledRequestLands(now, mint, base, after, cr);
  }

  lemma CreateIsLogged(mm: Metamodel, mint: Mint, base: Model, x: Id, el: Element)
    requires !InUse(base, x) && !IsReserved(x) && FitsElement(mm, el) && NullFree(el.props) && PlainMint(mint)
    ensures Logged(base, Model(base.elements[x := el], base.relationships),
      AppliedBatch([OnModel(CreateElement(x, el.typeName, el.props, None))], [OnModel(DeleteElement(x))]))
  {
    hide ApplyOp, ModelOpsOf, Unwind, NullFree;
    var op := CreateElement(TEMP_ID_PREFIX, el.typeName, el.props, Some(x));
    var entry := AppliedBatch([OnModel(CreateElement(x, el.typeName, el.props, None))], [OnModel(DeleteElement(x))]);
    ApplySingle(mm, mint, StartBatch(base), op, false);
    CreateOnce(mm, mint, base, x, el);
    OneOp(CreateElement(x, el.typeName, el.props, None));
    OneOp(DeleteElement(x));
    OneUnit(DeleteElement(x));
    assert Logs(mm, mint, [op], false, base, Model(base.elements[x := el], base.relationships), entry);
  }

  lemma CreateOnce(mm: Metamodel, mint: Mint, base: Model, x: Id, el: Element)
    requires !InUse(base, x) && !IsReserved(x) && FitsElement(mm, el)
    ensures var o := ApplyOp(mm, mint, StartBatch(base), CreateElement(TEMP_ID_PREFIX, el.typeName, el.props, Some(x)), false);
      && o.Done? && o.batch.model == Model(base.elements[x := el], base.relationships)
      && o.batch.canonical == [CreateElement(x, el.typeName, el.props, None)] && o.batch.units == [[DeleteElement(x)]]
  {
    hide ResolveProps, Note;
    ResolvePropsEmpty(el.props);
    assert Known(el.props, mm.ElementProperties(el.typeName)) == el.props;
  }

  lemma OneOp(op: ModelOp)
    ensures ModelOpsOf([OnModel(op)]) == [op]
  {
    assert [OnModel(op)][..0] == [];
    assert ModelOpsOf([]) == [];
  }

  lemma OneUnit(op: ModelOp)
    ensures Unwind([[op]]) == [op]
  {
    assert [[op]][1..] == [];
    assert Unwind<ModelOp>([]) == [];
  }

  lemma OneAdded(base: Model, after: Model, x: Id, el: Element)
    requires x !in base.elements && after == Model(base.elements[x := el], base.relationships)
    ensures IsDiff(base, after, ChangeRequest([Named(x, el)], [], [], [], [], []))
  {
    var added := [Named(x, el)];
    assert added[0].id == x;
  }

  lemma AddedIsIntact(base: Model, x: Id, el: Element)
    requires Whole(base) && !InUse(base, x) && !IsReserved(x)
    ensures Intact(base) && Intact(Model(base.elements[x := el], base.relationships))
  {
    hide IsReserved;
  }
}
