/** The dry validator of artifact batches judges a batch as the applier does
    (api/artifact_ops.py). */
module ArtifactPreview {
  import opened Collections
  import opened Json
  import opened Model
  import opened ArtifactStore
  import opened ArtifactUndo

  // ---- the validator ---------------------------------------------------------------------

  datatype Verdict = Passes(holder: map<Slot, Option<Id>>) | Fails(why: Refusal)

  ghost function PreviewOp(reg: Registry, project: Id, rows: Rows, holder: map<Slot, Option<Id>>, op: ArtifactOp): Verdict {
    match op
    case CreateArtifact(temp, kind, name, payload) =>
      var c := CheckCreate(reg, project, rows, holder, op, map[], false);
      if c.Refused? then Fails(c.why) else Passes(holder[Slot(kind, name) := Some(temp)])
    case UpdateArtifact(id, newName, newPayload, rev) =>
      var c := CheckUpdate(reg, project, rows, holder, op, map[], false);
      if c.Refused? then Fails(c.why) else Passes(Rename(holder, rows[id], newName, id))
    case DeleteArtifact(id) =>
      if id !in rows || rows[id].project != project then Fails(Missing) else Passes(holder[SlotOf(rows[id]) := None])
  }

  ghost function PreviewAll(reg: Registry, project: Id, rows: Rows, holder: map<Slot, Option<Id>>, ops: seq<ArtifactOp>): Option<Refusal>
    decreases |ops|
  {
    if ops == [] then None else
    var first := PreviewOp(reg, project, rows, holder, ops[0]);
    if first.Fails? then Some(first.why) else PreviewAll(reg, project, rows, first.holder, ops[1..])
  }

  /** Nothing is written: the table is only read. */
  method ValidateArtifactOps(reg: Registry, db: ArtifactTable, project: Id, ops: seq<ArtifactOp>) returns (why: Option<Refusal>)
    requires db.Valid()
    ensures why == PreviewAll(reg, project, db.rows, map[], ops)
  {
    hide Owner;
    var tracker := new ClashTracker();
    for i := 0 to |ops|
      invariant fresh(tracker)
      invariant PreviewAll(reg, project, db.rows, map[], ops) == PreviewAll(reg, project, db.rows, tracker.holder, ops[i..])
    {
      assert ops[i..][0] == ops[i] && ops[i..][1..] == ops[i + 1..];
      var op := ops[i];
      match op {
        case CreateArtifact(temp, kind, name, _) =>
          var c := CheckCreateOp(reg, db, project, tracker, op, map[], false);
          if c.Refused? {
            return Some(c.why);
          }
          tracker.Claim(Slot(kind, name), temp);
        case UpdateArtifact(id, newName, _, _) =>
          var c := CheckUpdateOp(reg, db, project, tracker, op, map[], false);
          if c.Refused? {
            return Some(c.why);
          }
          var row := db.rows[id];
          if newName.Some? && newName.value != row.name {
            tracker.Free(SlotOf(row));
            tracker.Claim(Slot(row.kind, newName.value), id);
          }
        case DeleteArtifact(id) =>
          if id !in db.rows || db.rows[id].project != project {
            return Some(Missing);
          }
          tracker.Free(SlotOf(db.rows[id]));
      }
    }
    why := None;
  }

  // ---- the overlay is the name index --------------------------------------------------------

  lemma FindAfterWrite(rows: Rows, project: Id, id: Id, row: Row, slot: Slot)
    requires Unique(rows) && !Collides(rows, id, row) && row.project == project && (id in rows ==> rows[id].project == project)
    ensures Find(rows[id := row], project, slot) ==
      if slot == SlotOf(row) then Some(id) else if id in rows && slot == SlotOf(rows[id]) then None else Find(rows, project, slot)
  {
    hide Collides;
    UniqueWith(rows, id, row);
    var now := rows[id := row];
    hide Unique;
    FindSettles(rows, project, slot);
    FindSettles(now, project, slot);
    if slot == SlotOf(row) {
      assert Holds(now, project, slot, id);
    } else {
      assert forall o :: Holds(now, project, slot, o) <==> o != id && Holds(rows, project, slot, o);
      if id in rows && slot == SlotOf(rows[id]) {
        assert Holds(rows, project, slot, id);
      } else {
        assert !Holds(rows, project, slot, id);
      }
    }
  }

  lemma FindAfterDrop(rows: Rows, project: Id, id: Id, slot: Slot)
    requires Unique(rows) && id in rows && rows[id].project == project
    ensures Find(rows - {id}, project, slot) == if slot == SlotOf(rows[id]) then None else Find(rows, project, slot)
  {
    var now := rows - {id};
    UniqueWithout(rows, id);
    FindSettles(rows, project, slot);
    FindSettles(now, project, slot);
    hide Unique;
    assert forall o :: Holds(now, project, slot, o) <==> o != id && Holds(rows, project, slot, o);
    if slot == SlotOf(rows[id]) {
      assert Holds(rows, project, slot, id);
    } else {
      assert !Holds(rows, project, slot, id);
    }
  }

  /** In a unique table a name has one holder. */
  lemma FindSettles(rows: Rows, project: Id, slot: Slot)
    requires Unique(rows)
    ensures forall id :: Holds(rows, project, slot, id) ==> Find(rows, project, slot) == Some(id)
  {
  }

  lemma CollidesIsFind(rows: Rows, id: Id, row: Row)
    requires Unique(rows)
    ensures var h := Find(rows, row.project, SlotOf(row)); Collides(rows, id, row) <==> h.Some? && h.value != id
  {
    FindSettles(rows, row.project, SlotOf(row));
    hide Unique;
    var h := Find(rows, row.project, SlotOf(row));
    if h.Some? && h.value != id {
      assert Holds(rows, row.project, SlotOf(row), h.value);
    }
  }

  /** The overlay read through gives what the rows themselves say. */
  ghost predicate Indexed(project: Id, b: ArtifactBatch) {
    forall slot :: Owner(b.holder, b.rows, project, slot) == Find(b.rows, project, slot)
  }

  lemma OpIndexed(reg: Registry, mint: Mint, project: Id, b: ArtifactBatch, op: ArtifactOp, restore: bool)
    requires Unique(b.rows) && Indexed(project, b) && ApplyOp(reg, mint, project, b, op, restore).Accepted?
    ensures Indexed(project, ApplyOp(reg, mint, project, b, op, restore).batch)
  {
    hide IsReserved, Collides, CheckPayload, Find, Unique, Indexed, Clash;
    var o := ApplyOp(reg, mint, project, b, op, restore).batch;
    forall slot ensures Owner(o.holder, o.rows, project, slot) == Find(o.rows, project, slot) {
      IndexedAt(project, b, slot);
      match op
      case CreateArtifact(t, kind, name, payload) =>
        var id := if IsReserved(t) then mint(b.minted) else t;
        FindAfterWrite(b.rows, project, id, o.rows[id], slot);
      case UpdateArtifact(id, newName, newPayload, rev) =>
        FindAfterWrite(b.rows, project, id, o.rows[id], slot);
        FindIs(b.rows, project, SlotOf(b.rows[id]), id);
      case DeleteArtifact(id) => FindAfterDrop(b.rows, project, id, slot);
    }
    AllIndexed(project, o);
  }

  lemma IndexedAt(project: Id, b: ArtifactBatch, slot: Slot)
    requires Indexed(project, b)
    ensures Owner(b.holder, b.rows, project, slot) == Find(b.rows, project, slot)
  {
  }

  lemma AllIndexed(project: Id, b: ArtifactBatch)
    requires forall slot :: Owner(b.holder, b.rows, project, slot) == Find(b.rows, project, slot)
    ensures Indexed(project, b)
  {
  }

  /** Throughout any batch the applier's overlay is redundant: it says about every name
      what a lookup of the staged rows would say. */
  lemma {:induction false} OverlayIsIndex(reg: Registry, mint: Mint, project: Id, b: ArtifactBatch, ops: seq<ArtifactOp>, restore: bool)
    requires Clean(b.rows) && PlainMint(mint) && Indexed(project, b) && ApplyAll(reg, mint, project, b, ops, restore).Accepted?
    ensures Indexed(project, ApplyAll(reg, mint, project, b, ops, restore).batch)
    decreases |ops|
  {
    hide ApplyOp, Indexed;
    if ops != [] {
      assert Unique(b.rows);
      OpIndexed(reg, mint, project, b, ops[0], restore);
      OpKeepsClean(reg, mint, project, b, ops[0], restore);
      OverlayIsIndex(reg, mint, project, ApplyOp(reg, mint, project, b, ops[0], restore).batch, ops[1..], restore);
    }
  }

  // ---- the simulation --------------------------------------------------------------------

  predicate Names(op: ArtifactOp, id: Id) {
    (op.UpdateArtifact? || op.DeleteArtifact?) && op.id == id
  }

  /** What a later op may still say about an artifact an earlier one named: nothing after
      a delete, no revision after an update, neither a name nor a delete after a rename. */
  predicate MayFollow(first: ArtifactOp, later: ArtifactOp) {
    && first.UpdateArtifact?
    && (later.UpdateArtifact? ==> later.rev.None?)
    && (first.newName.Some? ==> later.UpdateArtifact? && later.newName.None?)
  }

  ghost predicate TouchesApart(ops: seq<ArtifactOp>) {
    forall i, j, id :: 0 <= i < j < |ops| && Names(ops[i], id) && Names(ops[j], id) ==> MayFollow(ops[i], ops[j])
  }

  /** Two states of the artifact an op names are alike in what the op reads of them. */
  predicate SeenAlike(op: ArtifactOp, a: Option<Row>, s: Option<Row>) {
    && (a.None? <==> s.None?)
    && (a.Some? ==>
         && a.value.project == s.value.project && a.value.kind == s.value.kind
         && (op.DeleteArtifact? || (op.UpdateArtifact? && op.newName.Some?) ==> a.value.name == s.value.name)
         && (op.UpdateArtifact? && op.rev.Some? ==> a.value.rev == s.value.rev))
  }

  /** Fresh ids are new, distinct and unguessed by the batch. */
  ghost predicate FreshMint(mint: Mint, from: nat, rows: Rows, ops: seq<ArtifactOp>) {
    && (forall n :: from <= n ==> mint(n) !in rows && !IsReserved(mint(n)))
    && (forall m, n :: from <= m < n ==> mint(m) != mint(n))
    && (forall n, op :: from <= n && op in ops ==> !Names(op, mint(n)))
  }

  /** Putting real ids for temporary ones does not change whether a payload is valid. */
  ghost predicate StablePayload(reg: Registry, kind: string, payload: Json) {
    forall ids: map<Id, Id> :: (forall t :: t in ids ==> IsReserved(t)) ==>
      reg.valid(kind, ResolveJson(payload, ids)) == reg.valid(kind, payload)
  }

  ghost predicate StableOp(reg: Registry, rows: Rows, op: ArtifactOp) {
    match op
    case CreateArtifact(_, kind, _, payload) => StablePayload(reg, kind, payload)
    case UpdateArtifact(id, _, payload, _) => payload.Some? && id in rows ==> StablePayload(reg, rows[id].kind, payload.value)
    case DeleteArtifact(_) => true
  }

  /** The preview's holder of a name and the applier's: a temporary id there stands for
      a new row here. */
  ghost predicate Agree(start: Rows, p: Option<Id>, a: Option<Id>) {
    && (p.None? <==> a.None?)
    && (p.Some? ==> if IsReserved(p.value) then a.value !in start else a == p)
  }

  ghost predicate HoldersAgree(project: Id, start: Rows, holder: map<Slot, Option<Id>>, rows: Rows) {
    forall slot :: Agree(start, Owner(holder, start, project, slot), Find(rows, project, slot))
  }

  lemma AgreeAt(project: Id, start: Rows, holder: map<Slot, Option<Id>>, rows: Rows, slot: Slot)
    requires HoldersAgree(project, start, holder, rows)
    ensures Agree(start, Owner(holder, start, project, slot), Find(rows, project, slot))
  {
  }

  lemma AgreeAll(project: Id, start: Rows, holder: map<Slot, Option<Id>>, rows: Rows)
    requires forall slot :: Agree(start, Owner(holder, start, project, slot), Find(rows, project, slot))
    ensures HoldersAgree(project, start, holder, rows)
  {
  }

  /** What relates the preview over the old rows to the applier over the staged ones,
      with `ops` still to come. */
  ghost predicate Simulates(mint: Mint, project: Id, start: Rows, holder: map<Slot, Option<Id>>, b: ArtifactBatch, ops: seq<ArtifactOp>) {
    && Clean(start) && Clean(b.rows) && Indexed(project, b)
    && HoldersAgree(project, start, holder, b.rows)
    && FreshMint(mint, b.minted, b.rows, ops)
    && (forall n :: b.minted <= n ==> mint(n) !in start)
    && (forall t :: t in b.ids ==> IsReserved(t))
    && (forall op, id :: op in ops && Names(op, id) ==> SeenAlike(op, Lookup(b.rows, id), Lookup(start, id)))
  }

  lemma SamePayloadVerdict(reg: Registry, kind: string, payload: Json, ids: map<Id, Id>)
    requires StablePayload(reg, kind, payload) && forall t :: t in ids ==> IsReserved(t)
    ensures var a, p := CheckPayload(reg, kind, payload, ids, false), CheckPayload(reg, kind, payload, map[], false);
      (a.Refused? <==> p.Refused?) && (a.Refused? ==> a == p) && (a.Payload? ==> a.payload.Some? && p.payload.Some?)
  {
    ResolveJsonEmpty(payload);
  }

  /** A create is judged alike, but for the applier's demand of a temporary id. */
  lemma CreateJudgedAlike(reg: Registry, mint: Mint, project: Id, start: Rows, holder: map<Slot, Option<Id>>, b: ArtifactBatch, op: ArtifactOp)
    requires Simulates(mint, project, start, holder, b, [op]) && op.CreateArtifact? && StableOp(reg, start, op)
    ensures var a, p := ApplyCreate(reg, mint, project, b, op, false), PreviewOp(reg, project, start, holder, op);
      && (p.Fails? ==> a == Rejected(p.why))
      && (p.Passes? ==> if IsReserved(op.tempId) then a.Accepted? else a == Rejected(NotTemporary))
  {
    hide IsReserved, Collides, CheckPayload, Find, Owner, Unique, Indexed, HoldersAgree, StablePayload;
    SamePayloadVerdict(reg, op.kind, op.payload, b.ids);
    var slot := Slot(op.kind, op.name);
    IndexedAt(project, b, slot);
    AgreeAt(project, start, holder, b.rows, slot);
    var c := CheckPayload(reg, op.kind, op.payload, b.ids, false);
    if c.Payload? {
      CollidesIsFind(b.rows, mint(b.minted), Row(project, op.kind, op.name, c.payload.value, 1));
    }
  }

  lemma UpdateJudgedAlike(reg: Registry, mint: Mint, project: Id, start: Rows, holder: map<Slot, Option<Id>>, b: ArtifactBatch, op: ArtifactOp)
    requires Simulates(mint, project, start, holder, b, [op]) && op.UpdateArtifact? && StableOp(reg, start, op)
    ensures var a, p := ApplyUpdate(reg, project, b, op, false), PreviewOp(reg, project, start, holder, op);
      (p.Fails? ==> a == Rejected(p.why)) && (p.Passes? ==> a.Accepted?)
  {
    hide IsReserved, Collides, CheckPayload, Find, Owner, Unique, Indexed, HoldersAgree, StablePayload;
    assert op in [op] && Names(op, op.id);
    if op.id in start && start[op.id].project == project {
      var row := b.rows[op.id];
      if op.newPayload.Some? {
        SamePayloadVerdict(reg, row.kind, op.newPayload.value, b.ids);
      }
      var slot := Slot(row.kind, op.newName.GetOr(row.name));
      IndexedAt(project, b, slot);
      AgreeAt(project, start, holder, b.rows, slot);
      FindIs(b.rows, project, SlotOf(row), op.id);
      var c := CheckUpdate(reg, project, b.rows, b.holder, op, b.ids, false);
      if c.Payload? {
        CollidesIsFind(b.rows, op.id, Updated(row, op.newName, c.payload));
      }
    }
  }

  /** Both sides move on together. */
  lemma StepAgrees(reg: Registry, mint: Mint, project: Id, start: Rows, holder: map<Slot, Option<Id>>, b: ArtifactBatch, op: ArtifactOp)
    requires Simulates(mint, project, start, holder, b, [op])
    requires op.CreateArtifact? ==> IsReserved(op.tempId)
    requires ApplyOp(reg, mint, project, b, op, false).Accepted? && PreviewOp(reg, project, start, holder, op).Passes?
    ensures HoldersAgree(project, start, PreviewOp(reg, project, start, holder, op).holder,
      ApplyOp(reg, mint, project, b, op, false).batch.rows)
  {
    hide IsReserved, Collides, CheckPayload, Find, Unique, Indexed, HoldersAgree, Clash;
    var o, h := ApplyOp(reg, mint, project, b, op, false).batch, PreviewOp(reg, project, start, holder, op).holder;
    forall slot ensures Agree(start, Owner(h, start, project, slot), Find(o.rows, project, slot)) {
      AgreeAt(project, start, holder, b.rows, slot);
      match op
      case CreateArtifact(t, kind, name, payload) =>
        var id := mint(b.minted);
        FindAfterWrite(b.rows, project, id, o.rows[id], slot);
      case UpdateArtifact(id, newName, newPayload, rev) =>
        assert op in [op] && Names(op, id);
        FindAfterWrite(b.rows, project, id, o.rows[id], slot);
        FindIs(b.rows, project, SlotOf(b.rows[id]), id);
      case DeleteArtifact(id) =>
        assert op in [op] && Names(op, id);
        FindAfterDrop(b.rows, project, id, slot);
    }
    AgreeAll(project, start, h, o.rows);
  }

  lemma StepSimulates(reg: Registry, mint: Mint, project: Id, start: Rows, holder: map<Slot, Option<Id>>, b: ArtifactBatch, ops: seq<ArtifactOp>)
    requires ops != [] && Simulates(mint, project, start, holder, b, ops) && TouchesApart(ops) && PlainMint(mint)
    requires ops[0].CreateArtifact? ==> IsReserved(ops[0].tempId)
    requires ApplyOp(reg, mint, project, b, ops[0], false).Accepted? && PreviewOp(reg, project, start, holder, ops[0]).Passes?
    ensures Simulates(mint, project, start, PreviewOp(reg, project, start, holder, ops[0]).holder,
      ApplyOp(reg, mint, project, b, ops[0], false).batch, ops[1..])
  {
    hide PreviewOp, Collides, Owner, CheckPayload, Find, Unique, Indexed, HoldersAgree, Clash, IsReserved;
    var o := ApplyOp(reg, mint, project, b, ops[0], false).batch;
    assert forall op :: op in ops[1..] ==> op in ops;
    FirstAlone(mint, project, start, holder, b, ops);
    StepAgrees(reg, mint, project, start, holder, b, ops[0]);
    OpIndexed(reg, mint, project, b, ops[0], false);
    OpKeepsClean(reg, mint, project, b, ops[0], false);
    forall op, id | op in ops[1..] && Names(op, id) ensures SeenAlike(op, Lookup(o.rows, id), Lookup(start, id)) {
      assert !Names(op, mint(b.minted));
      var j :| 0 <= j < |ops[1..]| && ops[1..][j] == op;
      StillSeenAlike(reg, mint, project, start, b, ops[0], op, id);
    }
  }

  lemma StillSeenAlike(reg: Registry, mint: Mint, project: Id, start: Rows, b: ArtifactBatch, first: ArtifactOp, op: ArtifactOp, id: Id)
    requires ApplyOp(reg, mint, project, b, first, false).Accepted? && (first.CreateArtifact? ==> IsReserved(first.tempId))
    requires Names(op, id) && !Names(op, mint(b.minted)) && SeenAlike(op, Lookup(b.rows, id), Lookup(start, id))
    requires Names(first, id) ==> MayFollow(first, op)
    ensures SeenAlike(op, Lookup(ApplyOp(reg, mint, project, b, first, false).batch.rows, id), Lookup(start, id))
  {
    hide IsReserved, Collides, CheckPayload, Clash, Find;
  }

  lemma FirstAlone(mint: Mint, project: Id, start: Rows, holder: map<Slot, Option<Id>>, b: ArtifactBatch, ops: seq<ArtifactOp>)
    requires ops != [] && Simulates(mint, project, start, holder, b, ops)
    ensures Simulates(mint, project, start, holder, b, [ops[0]])
  {
    hide IsReserved, Clean, Indexed, HoldersAgree;
    assert forall op :: op in [ops[0]] ==> op in ops;
  }

  ghost predicate AllTemporary(ops: seq<ArtifactOp>) {
    forall op :: op in ops && op.CreateArtifact? ==> IsReserved(op.tempId)
  }

  lemma {:induction false} Simulation(reg: Registry, mint: Mint, project: Id, start: Rows, holder: map<Slot, Option<Id>>, b: ArtifactBatch,
      ops: seq<ArtifactOp>)
    requires Simulates(mint, project, start, holder, b, ops) && TouchesApart(ops) && PlainMint(mint)
    requires forall op :: op in ops ==> StableOp(reg, start, op)
    ensures var a, p := ApplyAll(reg, mint, project, b, ops, false), PreviewAll(reg, project, start, holder, ops);
      && (a.Accepted? <==> p.None? && AllTemporary(ops))
      && (AllTemporary(ops) && p.Some? ==> a == Rejected(p.value))
    decreases |ops|
  {
    hide ApplyOp, PreviewOp, StableOp, Simulates, IsReserved;
    if ops != [] {
      var op, rest := ops[0], ops[1..];
      assert op in ops && forall x :: x in ops <==> x == op || x in rest;
      FirstAlone(mint, project, start, holder, b, ops);
      JudgedAlike(reg, mint, project, start, holder, b, op);
      var a, p := ApplyOp(reg, mint, project, b, op, false), PreviewOp(reg, project, start, holder, op);
      if a.Accepted? && p.Passes? {
        StepSimulates(reg, mint, project, start, holder, b, ops);
        Simulation(reg, mint, project, start, p.holder, a.batch, rest);
      }
    }
  }

  lemma JudgedAlike(reg: Registry, mint: Mint, project: Id, start: Rows, holder: map<Slot, Option<Id>>, b: ArtifactBatch, op: ArtifactOp)
    requires Simulates(mint, project, start, holder, b, [op]) && StableOp(reg, start, op)
    ensures var a, p := ApplyOp(reg, mint, project, b, op, false), PreviewOp(reg, project, start, holder, op);
      && (p.Fails? ==> a == Rejected(p.why))
      && (p.Passes? ==> if op.CreateArtifact? && !IsReserved(op.tempId) then a == Rejected(NotTemporary) else a.Accepted?)
  {
    hide ApplyCreate, ApplyUpdate, CheckCreate, CheckUpdate, StableOp, IsReserved, HoldersAgree, Indexed, Clean;
    if op.CreateArtifact? {
      CreateJudgedAlike(reg, mint, project, start, holder, b, op);
    } else if op.UpdateArtifact? {
      UpdateJudgedAlike(reg, mint, project, start, holder, b, op);
    } else {
      assert op in [op] && Names(op, op.id);
    }
  }

  /** Preview equals apply: a batch that does not come back to a name, a revision or a
      deleted artifact it has touched, with payloads whose validity survives id resolution, is accepted by the applier exactly
      when the preview passes it and every create carries a temporary id; and with
      temporary ids both give the same reason for a refusal. */
  lemma PreviewEqualsApply(reg: Registry, mint: Mint, project: Id, rows: Rows, ids: map<Id, Id>, ops: seq<ArtifactOp>)
    requires Clean(rows) && PlainMint(mint) && FreshMint(mint, 0, rows, ops)
    requires TouchesApart(ops) && (forall op :: op in ops ==> StableOp(reg, rows, op)) && (forall t :: t in ids ==> IsReserved(t))
    ensures var a, p := ApplyAll(reg, mint, project, StartBatch(rows, ids), ops, false), PreviewAll(reg, project, rows, map[], ops);
      && (a.Accepted? <==> p.None? && AllTemporary(ops))
      && (AllTemporary(ops) && p.Some? ==> a == Rejected(p.value))
  {
    hide StableOp, IsReserved, Unique, Find;
    forall slot ensures Agree(rows, Owner(map[], rows, project, slot), Find(rows, project, slot)) {
      var h := Find(rows, project, slot);
      assert h.Some? ==> h.value in rows;
    }
    AgreeAll(project, rows, map[], rows);
    Simulation(reg, mint, project, rows, map[], StartBatch(rows, ids), ops);
  }

  /** Naming one artifact twice is where they part: rename it, delete it, and create the
      name it had in between. The applier accepts, the preview finds the name taken. */
  lemma DoubleTouchDiffers(reg: Registry, mint: Mint, project: Id, x: Id, kind: string, a: string, z: string, payload: Json)
    requires kind in reg.kinds && reg.valid(kind, payload) && a != z && mint(0) != x
    ensures var rows := map[x := Row(project, kind, a, payload, 1)];
      var ops := [UpdateArtifact(x, Some(z), None, None), DeleteArtifact(x), CreateArtifact(TEMP_ID_PREFIX, kind, z, payload)];
      && ApplyAll(reg, mint, project, StartBatch(rows, map[]), ops, false).Accepted?
      && PreviewAll(reg, project, rows, map[], ops) == Some(NameTaken)
  {
    var row := Row(project, kind, a, payload, 1);
    var rows := map[x := row];
    var u, d, c := UpdateArtifact(x, Some(z), None, None), DeleteArtifact(x), CreateArtifact(TEMP_ID_PREFIX, kind, z, payload);
    var ops := [u, d, c];
    assert ops[1..] == [d, c] && [d, c][1..] == [c] && [c][1..] == [];
    ResolveJsonEmpty(payload);
    var b0 := StartBatch(rows, map[]);
    var o1 := ApplyOp(reg, mint, project, b0, u, false);
    assert o1.Accepted? && o1.batch.rows == map[x := Updated(row, Some(z), None)];
    var o2 := ApplyOp(reg, mint, project, o1.batch, d, false);
    assert o2.Accepted? && o2.batch.rows == map[];
    var o3 := ApplyOp(reg, mint, project, o2.batch, c, false);
    assert o3.Accepted?;
    assert ApplyAll(reg, mint, project, o2.batch, [c], false) == o3;
    assert ApplyAll(reg, mint, project, o1.batch, [d, c], false) == o3;
    var h1 := PreviewOp(reg, project, rows, map[], u);
    assert h1.Passes? && Slot(kind, z) in h1.holder && h1.holder[Slot(kind, z)] == Some(x);
    var h2 := PreviewOp(reg, project, rows, h1.holder, d);
    assert h2.Passes? && Owner(h2.holder, rows, project, Slot(kind, z)) == Some(x);
    assert PreviewOp(reg, project, rows, h2.holder, c) == Fails(NameTaken);
    assert PreviewAll(reg, project, rows, h2.holder, [c]) == Some(NameTaken);
    assert PreviewAll(reg, project, rows, h1.holder, [d, c]) == Some(NameTaken);
  }

  /** And the other difference: a create under a plain id passes the preview alone. */
  lemma PlainCreateDiffers(reg: Registry, mint: Mint, project: Id, id: Id, kind: string, name: string, payload: Json)
    requires kind in reg.kinds && reg.valid(kind, payload) && !IsReserved(id)
    ensures var ops := [CreateArtifact(id, kind, name, payload)];
      && PreviewAll(reg, project, map[], map[], ops).None?
      && ApplyAll(reg, mint, project, StartBatch(map[], map[]), ops, false) == Rejected(NotTemporary)
  {
    var c := CreateArtifact(id, kind, name, payload);
    ResolveJsonEmpty(payload);
    assert [c][1..] == [];
    assert PreviewOp(reg, project, map[], map[], c).Passes?;
    ApplySingle(reg, mint, project, StartBatch(map[], map[]), c, false);
  }
}
