/** What the artifact applier's canonical and inverse ops are worth. */
module ArtifactUndo {
  import opened Collections
  import opened Json
  import opened Model
  import opened ArtifactStore

  /** The same rows but for the optimistic-concurrency counter, which restarts when a
      row is recreated. */
  ghost predicate SameRow(a: Row, b: Row) {
    a.project == b.project && a.kind == b.kind && a.name == b.name && a.payload == b.payload
  }

  ghost predicate SameRows(a: Rows, b: Rows) {
    a.Keys == b.Keys && forall id :: id in a ==> SameRow(a[id], b[id])
  }

  /** What a project's table always satisfies: unique names, no temporary id. */
  ghost predicate Clean(rows: Rows) {
    Unique(rows) && forall id :: id in rows ==> !IsReserved(id)
  }

  ghost predicate PlainMint(mint: Mint) {
    forall n :: !IsReserved(mint(n))
  }

  lemma CollidesAlike(a: Rows, b: Rows, id: Id, r: Row, s: Row)
    requires SameRows(a, b) && r.project == s.project && SlotOf(r) == SlotOf(s)
    ensures Collides(a, id, r) == Collides(b, id, s)
  {
    if Collides(a, id, r) {
      var o :| o != id && Holds(a, r.project, SlotOf(r), o);
      assert Holds(b, s.project, SlotOf(s), o);
    }
    if Collides(b, id, s) {
      var o :| o != id && Holds(b, s.project, SlotOf(s), o);
      assert Holds(a, r.project, SlotOf(r), o);
    }
  }

  /** The row under an id of a unique table collides with nothing. */
  lemma OwnRowFits(rows: Rows, id: Id, without: Rows)
    requires Unique(rows) && id in rows && forall o :: o in without && o != id ==> o in rows && SameRow(without[o], rows[o])
    ensures !Collides(without, id, rows[id])
  {
  }

  /** An accepted op leaves a clean table clean. */
  lemma OpKeepsClean(reg: Registry, mint: Mint, project: Id, b: ArtifactBatch, op: ArtifactOp, restore: bool)
    requires Clean(b.rows) && PlainMint(mint) && ApplyOp(reg, mint, project, b, op, restore).Accepted?
    ensures Clean(ApplyOp(reg, mint, project, b, op, restore).batch.rows)
  {
    hide IsReserved, Collides, Unique, CheckPayload, Owner;
    var o := ApplyOp(reg, mint, project, b, op, restore).batch;
    match op
    case CreateArtifact(t, kind, name, payload) =>
      var id := if IsReserved(t) then mint(b.minted) else t;
      UniqueWith(b.rows, id, o.rows[id]);
    case UpdateArtifact(id, newName, newPayload, rev) => UniqueWith(b.rows, id, o.rows[id]);
    case DeleteArtifact(id) => UniqueWithout(b.rows, id);
  }

  lemma UniqueWithout(rows: Rows, id: Id)
    requires Unique(rows)
    ensures Unique(rows - {id})
  {
  }

  // ---- one unit undoes one op -------------------------------------------------------------

  /** Running `unit` in restore mode on rows like `after` succeeds exactly when
      `possible`, and then gives rows like `before`. */
  ghost predicate Undoes(reg: Registry, mint: Mint, project: Id, after: Rows, unit: seq<ArtifactOp>, before: Rows, possible: bool) {
    forall c: ArtifactBatch :: c.ids == map[] && SameRows(c.rows, after) ==>
      var o := ApplyAll(reg, mint, project, c, unit, true);
      (o.Accepted? <==> possible) && (o.Accepted? ==> o.batch.ids == map[] && SameRows(o.batch.rows, before))
  }

  lemma UndoCreate(reg: Registry, mint: Mint, project: Id, rows: Rows, id: Id, row: Row)
    requires id !in rows && row.project == project
    ensures Undoes(reg, mint, project, rows[id := row], [DeleteArtifact(id)], rows, true)
  {
    forall c: ArtifactBatch | c.ids == map[] && SameRows(c.rows, rows[id := row])
      ensures var o := ApplyAll(reg, mint, project, c, [DeleteArtifact(id)], true);
        o.Accepted? && o.batch.ids == map[] && SameRows(o.batch.rows, rows)
    {
      hide ApplyAll;
      ApplySingle(reg, mint, project, c, DeleteArtifact(id), true);
    }
  }

  lemma UndoUpdate(reg: Registry, mint: Mint, project: Id, rows: Rows, id: Id, row: Row)
    requires Unique(rows) && id in rows && rows[id].project == project
    requires row.project == project && row.kind == rows[id].kind
    ensures var was := rows[id];
      Undoes(reg, mint, project, rows[id := row], [UpdateArtifact(id, Some(was.name), Some(was.payload), None)], rows, was.kind in reg.kinds)
  {
    var was := rows[id];
    var op := UpdateArtifact(id, Some(was.name), Some(was.payload), None);
    forall c: ArtifactBatch | c.ids == map[] && SameRows(c.rows, rows[id := row])
      ensures var o := ApplyAll(reg, mint, project, c, [op], true);
        (o.Accepted? <==> was.kind in reg.kinds) && (o.Accepted? ==> o.batch.ids == map[] && SameRows(o.batch.rows, rows))
    {
      hide ApplyAll, Collides, Unique, Owner;
      ApplySingle(reg, mint, project, c, op, true);
      ResolveJsonEmpty(was.payload);
      assert c.rows[id].kind == was.kind && c.rows[id].project == project;
      var back := Updated(c.rows[id], Some(was.name), Some(was.payload));
      OwnRowFits(rows, id, c.rows);
      CollidesAlike(c.rows, c.rows, id, back, was);
    }
  }

  lemma UndoDelete(reg: Registry, mint: Mint, project: Id, rows: Rows, id: Id)
    requires Unique(rows) && id in rows && rows[id].project == project && !IsReserved(id)
    ensures var was := rows[id];
      Undoes(reg, mint, project, rows - {id}, [CreateArtifact(id, was.kind, was.name, was.payload)], rows, was.kind in reg.kinds)
  {
    var was := rows[id];
    var op := CreateArtifact(id, was.kind, was.name, was.payload);
    forall c: ArtifactBatch | c.ids == map[] && SameRows(c.rows, rows - {id})
      ensures var o := ApplyAll(reg, mint, project, c, [op], true);
        (o.Accepted? <==> was.kind in reg.kinds) && (o.Accepted? ==> o.batch.ids == map[] && SameRows(o.batch.rows, rows))
    {
      hide ApplyAll, Collides, Unique, Owner, IsReserved;
      ApplySingle(reg, mint, project, c, op, true);
      ResolveJsonEmpty(was.payload);
      OwnRowFits(rows, id, c.rows);
      CollidesAlike(c.rows, c.rows, id, Row(project, was.kind, was.name, was.payload, 1), was);
    }
  }

  /** Only an update or a delete of a row of an unregistered kind cannot be undone. */
  ghost predicate Undoable(reg: Registry, rows: Rows, op: ArtifactOp) {
    (op.UpdateArtifact? || op.DeleteArtifact?) && op.id in rows ==> rows[op.id].kind in reg.kinds
  }

  lemma UndoOp(reg: Registry, mint: Mint, project: Id, b: ArtifactBatch, op: ArtifactOp, restore: bool)
    requires Clean(b.rows) && ApplyOp(reg, mint, project, b, op, restore).Accepted?
    ensures var o := ApplyOp(reg, mint, project, b, op, restore).batch;
      && |o.units| == |b.units| + 1 && o.units[..|b.units|] == b.units
      && Undoes(reg, mint, project, o.rows, o.units[|b.units|], b.rows, Undoable(reg, b.rows, op))
  {
    hide Undoes, IsReserved, Collides, Unique, CheckPayload, Owner;
    var o := ApplyOp(reg, mint, project, b, op, restore).batch;
    match op
    case CreateArtifact(t, kind, name, payload) =>
      var id := if IsReserved(t) then mint(b.minted) else t;
      UndoCreate(reg, mint, project, b.rows, id, o.rows[id]);
    case UpdateArtifact(id, newName, newPayload, rev) => UndoUpdate(reg, mint, project, b.rows, id, o.rows[id]);
    case DeleteArtifact(id) => UndoDelete(reg, mint, project, b.rows, id);
  }

  lemma UndoInStages(reg: Registry, mint: Mint, project: Id, after: Rows, later: seq<ArtifactOp>, mid: Rows, earlier: seq<ArtifactOp>,
      before: Rows, p: bool, q: bool)
    requires Undoes(reg, mint, project, after, later, mid, p) && Undoes(reg, mint, project, mid, earlier, before, q)
    ensures Undoes(reg, mint, project, after, later + earlier, before, p && q)
  {
    hide ApplyAll, SameRows;
    forall c: ArtifactBatch | c.ids == map[] && SameRows(c.rows, after)
      ensures var o := ApplyAll(reg, mint, project, c, later + earlier, true);
        (o.Accepted? <==> p && q) && (o.Accepted? ==> o.batch.ids == map[] && SameRows(o.batch.rows, before))
    {
      ApplyAllConcat(reg, mint, project, c, later, earlier, true);
    }
  }

  /** Every op is undoable where it runs. */
  ghost predicate AllUndoable(reg: Registry, mint: Mint, project: Id, b: ArtifactBatch, ops: seq<ArtifactOp>, restore: bool)
    decreases |ops|
  {
    ops == [] ||
    (var first := ApplyOp(reg, mint, project, b, ops[0], restore);
     Undoable(reg, b.rows, ops[0]) && (first.Accepted? ==> AllUndoable(reg, mint, project, first.batch, ops[1..], restore)))
  }

  lemma {:induction false} UndoAll(reg: Registry, mint: Mint, project: Id, b: ArtifactBatch, ops: seq<ArtifactOp>, restore: bool)
    returns (units: seq<seq<ArtifactOp>>)
    requires Clean(b.rows) && PlainMint(mint) && ApplyAll(reg, mint, project, b, ops, restore).Accepted?
    ensures var o := ApplyAll(reg, mint, project, b, ops, restore).batch;
      && o.units == b.units + units && Clean(o.rows)
      && Undoes(reg, mint, project, o.rows, Unwind(units), b.rows, AllUndoable(reg, mint, project, b, ops, restore))
    decreases |ops|
  {
    hide ApplyOp, Undoes, Clean, Undoable;
    if ops == [] {
      units := [];
      UndoNothing(reg, mint, project, b.rows);
    } else {
      var first := ApplyOp(reg, mint, project, b, ops[0], restore).batch;
      OpKeepsClean(reg, mint, project, b, ops[0], restore);
      UndoOp(reg, mint, project, b, ops[0], restore);
      var rest := UndoAll(reg, mint, project, first, ops[1..], restore);
      var unit := first.units[|b.units|];
      units := [unit] + rest;
      assert units[1..] == rest && first.units == b.units + [unit];
      var last := ApplyAll(reg, mint, project, b, ops, restore).batch;
      UndoInStages(reg, mint, project, last.rows, Unwind(rest), first.rows, unit, b.rows,
        AllUndoable(reg, mint, project, first, ops[1..], restore), Undoable(reg, b.rows, ops[0]));
    }
  }

  lemma UndoNothing(reg: Registry, mint: Mint, project: Id, rows: Rows)
    ensures Undoes(reg, mint, project, rows, [], rows, true)
  {
  }

  /** The caller's view of the same condition: the rows that exist before the batch. */
  ghost predicate KindsKnown(reg: Registry, rows: Rows, ops: seq<ArtifactOp>) {
    forall op :: op in ops ==> Undoable(reg, rows, op)
  }

  /** Kinds never change, and a row the batch creates has a registered kind. */
  ghost predicate KindsKept(reg: Registry, before: Rows, now: Rows) {
    forall id :: id in now ==> now[id].kind in reg.kinds || (id in before && now[id].kind == before[id].kind)
  }

  /** A kind the registry does not know stays on its row until the row is deleted. */
  ghost predicate UnknownKept(reg: Registry, before: Rows, now: Rows) {
    forall id :: id in before ==> before[id].kind in reg.kinds || (id in now && now[id].kind == before[id].kind)
  }

  lemma UndoableAlike(reg: Registry, mint: Mint, project: Id, start: Rows, b: ArtifactBatch, op: ArtifactOp, restore: bool)
    requires KindsKept(reg, start, b.rows) && UnknownKept(reg, start, b.rows)
    requires ApplyOp(reg, mint, project, b, op, restore).Accepted?
    ensures Undoable(reg, b.rows, op) <==> Undoable(reg, start, op)
    ensures var o := ApplyOp(reg, mint, project, b, op, restore).batch;
      Undoable(reg, start, op) ==> KindsKept(reg, start, o.rows) && UnknownKept(reg, start, o.rows)
  {
    hide IsReserved, Collides, Owner, Unique;
  }

  lemma {:induction false} AllUndoableAlike(reg: Registry, mint: Mint, project: Id, start: Rows, b: ArtifactBatch, ops: seq<ArtifactOp>,
      restore: bool)
    requires KindsKept(reg, start, b.rows) && UnknownKept(reg, start, b.rows)
    requires ApplyAll(reg, mint, project, b, ops, restore).Accepted?
    ensures AllUndoable(reg, mint, project, b, ops, restore) <==> KindsKnown(reg, start, ops)
    decreases |ops|
  {
    hide ApplyOp, Undoable, KindsKept, UnknownKept;
    if ops != [] {
      UndoableAlike(reg, mint, project, start, b, ops[0], restore);
      assert forall op :: op in ops <==> op == ops[0] || op in ops[1..];
      if Undoable(reg, start, ops[0]) {
        AllUndoableAlike(reg, mint, project, start, ApplyOp(reg, mint, project, b, ops[0], restore).batch, ops[1..], restore);
      }
    }
  }

  /** Undo: for an accepted batch, running the inverse ops in restore mode succeeds
      exactly when no updated or deleted row is of an unregistered kind, and then every
      name, kind and payload is back. */
  lemma InverseRestores(reg: Registry, mint: Mint, project: Id, rows: Rows, ids: map<Id, Id>, ops: seq<ArtifactOp>, restore: bool)
    requires Clean(rows) && PlainMint(mint)
    requires ApplyAll(reg, mint, project, StartBatch(rows, ids), ops, restore).Accepted?
    ensures var o := ApplyAll(reg, mint, project, StartBatch(rows, ids), ops, restore).batch;
      var undo := ApplyAll(reg, mint, project, StartBatch(o.rows, map[]), InverseOps(o), true);
      && Clean(o.rows)
      && (undo.Accepted? <==> KindsKnown(reg, rows, ops))
      && (undo.Accepted? ==> SameRows(undo.batch.rows, rows))
  {
    hide ApplyAll, KindsKnown, Clean, Undoable;
    var o := ApplyAll(reg, mint, project, StartBatch(rows, ids), ops, restore).batch;
    var units := UndoAll(reg, mint, project, StartBatch(rows, ids), ops, restore);
    assert o.units == units;
    AllUndoableAlike(reg, mint, project, rows, StartBatch(rows, ids), ops, restore);
  }

  /** The smallest batch that cannot be undone: renaming a row of an unregistered kind is
      accepted, since a rename checks no kind, and its inverse, which carries the payload
      along, is refused. */
  lemma LegacyRenameStays(reg: Registry, mint: Mint, project: Id, x: Id, kind: string, a: string, z: string, payload: Json)
    requires kind !in reg.kinds && a != z
    ensures var rows := map[x := Row(project, kind, a, payload, 1)];
      var o := ApplyAll(reg, mint, project, StartBatch(rows, map[]), [UpdateArtifact(x, Some(z), None, None)], false);
      && o.Accepted? && o.batch.rows == map[x := Row(project, kind, z, payload, 2)]
      && ApplyAll(reg, mint, project, StartBatch(o.batch.rows, map[]), InverseOps(o.batch), true) == Rejected(Unsupported)
  {
    var row := Row(project, kind, a, payload, 1);
    var rows := map[x := row];
    var rename := UpdateArtifact(x, Some(z), None, None);
    ApplySingle(reg, mint, project, StartBatch(rows, map[]), rename, false);
    var o := ApplyOp(reg, mint, project, StartBatch(rows, map[]), rename, false);
    assert o.Accepted? && o.batch.rows == map[x := Updated(row, Some(z), None)];
    var back := UpdateArtifact(x, Some(a), Some(payload), None);
    assert o.batch.units == [[back]] && [[back]][1..] == [];
    assert Unwind([[back]][1..]) == [] && Unwind([[back]]) == [] + [back];
    assert InverseOps(o.batch) == [back];
    ApplySingle(reg, mint, project, StartBatch(o.batch.rows, map[]), back, true);
  }

  // ---- replay ---------------------------------------------------------------------------

  lemma ReplayCreate(reg: Registry, mint: Mint, project: Id, b: ArtifactBatch, op: ArtifactOp, restore: bool, c: ArtifactBatch)
    requires Clean(b.rows) && PlainMint(mint) && op.CreateArtifact? && ApplyCreate(reg, mint, project, b, op, restore).Accepted?
    requires c.ids == map[] && SameRows(c.rows, b.rows)
    ensures var o := ApplyCreate(reg, mint, project, b, op, restore).batch;
      && |o.canonical| == |b.canonical| + 1 && o.canonical[..|b.canonical|] == b.canonical
      && (var k := o.canonical[|b.canonical|];
          k.CreateArtifact? &&
          var r := ApplyCreate(reg, mint, project, c, k, true);
          r.Accepted? && r.batch.ids == map[] && SameRows(r.batch.rows, o.rows))
  {
    hide IsReserved, Collides, Owner, Unique, ResolveJson;
    var o := ApplyCreate(reg, mint, project, b, op, restore).batch;
    var id := if IsReserved(op.tempId) then mint(b.minted) else op.tempId;
    ResolveJsonEmpty(o.canonical[|b.canonical|].payload);
    CollidesAlike(c.rows, b.rows, id, o.rows[id], o.rows[id]);
  }

  lemma ReplayUpdate(reg: Registry, mint: Mint, project: Id, b: ArtifactBatch, op: ArtifactOp, restore: bool, c: ArtifactBatch)
    requires op.UpdateArtifact? && ApplyUpdate(reg, project, b, op, restore).Accepted?
    requires c.ids == map[] && SameRows(c.rows, b.rows)
    ensures var o := ApplyUpdate(reg, project, b, op, restore).batch;
      && |o.canonical| == |b.canonical| + 1 && o.canonical[..|b.canonical|] == b.canonical
      && (var k := o.canonical[|b.canonical|];
          k.UpdateArtifact? &&
          var r := ApplyUpdate(reg, project, c, k, true);
          r.Accepted? && r.batch.ids == map[] && SameRows(r.batch.rows, o.rows))
  {
    hide Collides, Owner, Unique, ResolveJson;
    var o := ApplyUpdate(reg, project, b, op, restore).batch;
    var k := o.canonical[|b.canonical|];
    if k.newPayload.Some? { ResolveJsonEmpty(k.newPayload.value); }
    CollidesAlike(c.rows, b.rows, op.id, Updated(c.rows[op.id], k.newName, k.newPayload), o.rows[op.id]);
  }

  /** A canonical op, run in restore mode on the same rows, does what the op did. */
  lemma ReplayOp(reg: Registry, mint: Mint, project: Id, b: ArtifactBatch, op: ArtifactOp, restore: bool, c: ArtifactBatch)
    requires Clean(b.rows) && PlainMint(mint) && ApplyOp(reg, mint, project, b, op, restore).Accepted?
    requires c.ids == map[] && SameRows(c.rows, b.rows)
    ensures var o := ApplyOp(reg, mint, project, b, op, restore).batch;
      && |o.canonical| == |b.canonical| + 1 && o.canonical[..|b.canonical|] == b.canonical
      && (var r := ApplyOp(reg, mint, project, c, o.canonical[|b.canonical|], true);
          r.Accepted? && r.batch.ids == map[] && SameRows(r.batch.rows, o.rows))
  {
    hide ApplyCreate, ApplyUpdate, Clean, PlainMint;
    if op.CreateArtifact? {
      ReplayCreate(reg, mint, project, b, op, restore, c);
    } else if op.UpdateArtifact? {
      ReplayUpdate(reg, mint, project, b, op, restore, c);
    }
  }

  lemma {:induction false} ReplayAll(reg: Registry, mint: Mint, project: Id, b: ArtifactBatch, ops: seq<ArtifactOp>, restore: bool, c: ArtifactBatch)
    returns (canonical: seq<ArtifactOp>)
    requires Clean(b.rows) && PlainMint(mint) && ApplyAll(reg, mint, project, b, ops, restore).Accepted?
    requires c.ids == map[] && SameRows(c.rows, b.rows)
    ensures var o := ApplyAll(reg, mint, project, b, ops, restore).batch;
      && o.canonical == b.canonical + canonical
      && (var r := ApplyAll(reg, mint, project, c, canonical, true);
          r.Accepted? && SameRows(r.batch.rows, o.rows))
    decreases |ops|
  {
    hide ApplyOp, SameRows, Clean;
    if ops == [] {
      canonical := [];
    } else {
      var first := ApplyOp(reg, mint, project, b, ops[0], restore).batch;
      OpKeepsClean(reg, mint, project, b, ops[0], restore);
      ReplayOp(reg, mint, project, b, ops[0], restore, c);
      var k := first.canonical[|b.canonical|];
      var rest := ReplayAll(reg, mint, project, first, ops[1..], restore, ApplyOp(reg, mint, project, c, k, true).batch);
      canonical := [k] + rest;
      assert canonical[1..] == rest && first.canonical == b.canonical + [k];
    }
  }

  /** Replay: the canonical ops of an accepted batch, run in restore mode on the same
      rows, succeed and give the same rows. */
  lemma CanonicalReplays(reg: Registry, mint: Mint, project: Id, rows: Rows, ids: map<Id, Id>, ops: seq<ArtifactOp>, restore: bool)
    requires Clean(rows) && PlainMint(mint)
    requires ApplyAll(reg, mint, project, StartBatch(rows, ids), ops, restore).Accepted?
    ensures var o := ApplyAll(reg, mint, project, StartBatch(rows, ids), ops, restore).batch;
      var again := ApplyAll(reg, mint, project, StartBatch(rows, map[]), o.canonical, true);
      again.Accepted? && SameRows(again.batch.rows, o.rows)
  {
    hide ApplyAll, Clean;
    var canonical := ReplayAll(reg, mint, project, StartBatch(rows, ids), ops, restore, StartBatch(rows, map[]));
    assert ApplyAll(reg, mint, project, StartBatch(rows, ids), ops, restore).batch.canonical == canonical;
  }

  // ---- what a batch says it changed ---------------------------------------------------------

  function TouchedBy(op: ArtifactOp): Id {
    match op
    case CreateArtifact(id, _, _, _) => id
    case UpdateArtifact(id, _, _, _) => id
    case DeleteArtifact(id) => id
  }

  function Touched(ops: seq<ArtifactOp>): set<Id> {
    set op | op in ops :: TouchedBy(op)
  }

  lemma TouchedSnoc(ops: seq<ArtifactOp>, op: ArtifactOp)
    ensures Touched(ops + [op]) == Touched(ops) + {TouchedBy(op)}
  {
    assert forall x :: x in ops + [op] <==> x in ops || x == op;
  }

  /** Rows outside the touched ids are as they were; each touched id is either changed
      and present in this project, or gone. */
  ghost predicate Accounts(project: Id, start: Rows, rows: Rows, changed: set<Id>, touched: set<Id>) {
    && (forall id :: id !in touched ==> Lookup(rows, id) == Lookup(start, id))
    && (forall id :: id in touched ==>
         && (id in changed <==> id in rows)
         && (id in rows ==> rows[id].project == project)
         && (id in start ==> start[id].project == project))
    && changed <= touched
  }

  ghost predicate Reports(project: Id, start: Rows, b: ArtifactBatch) {
    Accounts(project, start, b.rows, b.changed, Touched(b.canonical))
  }

  /** One op writes or drops one row of the project and says which. */
  lemma OpEffect(reg: Registry, mint: Mint, project: Id, b: ArtifactBatch, op: ArtifactOp, restore: bool)
    requires ApplyOp(reg, mint, project, b, op, restore).Accepted?
    ensures var o := ApplyOp(reg, mint, project, b, op, restore).batch;
      && |o.canonical| == |b.canonical| + 1 && o.canonical[..|b.canonical|] == b.canonical
      && (var id := TouchedBy(o.canonical[|b.canonical|]);
          && (id in b.rows ==> b.rows[id].project == project)
          && if id in o.rows
             then o.rows == b.rows[id := o.rows[id]] && o.rows[id].project == project && o.changed == b.changed + {id}
             else o.rows == b.rows - {id} && o.changed == b.changed - {id})
  {
    hide IsReserved, Collides, Owner, Unique, CheckPayload;
  }

  lemma OpReports(reg: Registry, mint: Mint, project: Id, start: Rows, b: ArtifactBatch, op: ArtifactOp, restore: bool)
    requires Reports(project, start, b) && ApplyOp(reg, mint, project, b, op, restore).Accepted?
    ensures Reports(project, start, ApplyOp(reg, mint, project, b, op, restore).batch)
  {
    hide ApplyOp, TouchedBy, Touched;
    OpEffect(reg, mint, project, b, op, restore);
    var o := ApplyOp(reg, mint, project, b, op, restore).batch;
    var k := o.canonical[|b.canonical|];
    assert o.canonical == b.canonical + [k];
    TouchedSnoc(b.canonical, k);
  }

  lemma {:induction false} BatchReports(reg: Registry, mint: Mint, project: Id, start: Rows, b: ArtifactBatch, ops: seq<ArtifactOp>, restore: bool)
    requires Reports(project, start, b) && ApplyAll(reg, mint, project, b, ops, restore).Accepted?
    ensures Reports(project, start, ApplyAll(reg, mint, project, b, ops, restore).batch)
    decreases |ops|
  {
    hide ApplyOp, Reports;
    if ops != [] {
      OpReports(reg, mint, project, start, b, ops[0], restore);
      BatchReports(reg, mint, project, start, ApplyOp(reg, mint, project, b, ops[0], restore).batch, ops[1..], restore);
    }
  }

  /** The changed ids are exactly the touched rows that exist afterwards, all in the
      batch's project; no other row of any project moved. */
  lemma ChangedExist(reg: Registry, mint: Mint, project: Id, rows: Rows, ids: map<Id, Id>, ops: seq<ArtifactOp>, restore: bool)
    requires ApplyAll(reg, mint, project, StartBatch(rows, ids), ops, restore).Accepted?
    ensures var o := ApplyAll(reg, mint, project, StartBatch(rows, ids), ops, restore).batch;
      Reports(project, rows, o) && o.changed == Touched(o.canonical) * o.rows.Keys
  {
    hide ApplyAll;
    StartReports(project, rows, ids);
    BatchReports(reg, mint, project, rows, StartBatch(rows, ids), ops, restore);
  }

  lemma StartReports(project: Id, rows: Rows, ids: map<Id, Id>)
    ensures Reports(project, rows, StartBatch(rows, ids))
  {
  }
}
