/** What each artifact op does to the rows (api/artifact_ops.py), by the positions of its
    payload and the names in the table: every refusal in its order, and what is stored. */
module ArtifactEffects {
  import opened Collections
  import opened Json
  import opened Model
  import opened ArtifactStore
  import opened ArtifactUndo
  import opened ArtifactPreview

  predicate Named(rows: Rows, project: Id, kind: string, name: string, id: Id) {
    id in rows && rows[id].project == project && rows[id].kind == kind && rows[id].name == name
  }

  /** A row of the project other than `own` has this kind and name. */
  ghost predicate NameHeld(rows: Rows, project: Id, kind: string, name: string, own: Option<Id>) {
    exists other :: Some(other) != own && Named(rows, project, kind, name, other)
  }

  lemma HeldMeans(project: Id, b: ArtifactBatch, kind: string, name: string, own: Option<Id>)
    requires Unique(b.rows) && Indexed(project, b)
    ensures Clash(b.holder, b.rows, project, Slot(kind, name), own) <==> NameHeld(b.rows, project, kind, name, own)
  {
    hide Unique, Indexed;
    var slot := Slot(kind, name);
    IndexedAt(project, b, slot);
    if NameHeld(b.rows, project, kind, name, own) {
      var other :| Some(other) != own && Named(b.rows, project, kind, name, other);
      FindIs(b.rows, project, slot, other);
    }
    var h := Find(b.rows, project, slot);
    if h.Some? && h != own {
      assert Holds(b.rows, project, slot, h.value) && Named(b.rows, project, kind, name, h.value);
    }
  }

  lemma CollidesMeans(rows: Rows, id: Id, r: Row)
    ensures Collides(rows, id, r) <==> NameHeld(rows, r.project, r.kind, r.name, Some(id))
  {
    if other :| other != id && Holds(rows, r.project, SlotOf(r), other) {
      assert Some(other) != Some(id) && Named(rows, r.project, r.kind, r.name, other);
    }
    if other :| Some(other) != Some(id) && Named(rows, r.project, r.kind, r.name, other) {
      assert other != id && Holds(rows, r.project, SlotOf(r), other);
    }
  }

  /** What a payload becomes: its temporary ids replaced, then, but in restore mode,
      checked and derived. */
  ghost predicate Refuses(reg: Registry, kind: string, p: Json, restore: bool, why: Refusal) {
    if kind !in reg.kinds then why == Unsupported else !restore && !reg.valid(kind, p) && why == Invalid
  }

  function Stored(reg: Registry, kind: string, p: Json, restore: bool): Json {
    if restore then p else reg.derive(kind, p)
  }

  lemma CheckedMeans(reg: Registry, kind: string, payload: Json, ids: map<Id, Id>, restore: bool) returns (p: Json)
    ensures Stands(payload, p, ids)
    ensures var c := CheckPayload(reg, kind, payload, ids, restore);
      && (c.Refused? <==> exists why :: Refuses(reg, kind, p, restore, why))
      && (c.Refused? ==> Refuses(reg, kind, p, restore, c.why))
      && (c.Payload? ==> c.payload == Some(Stored(reg, kind, p, restore)))
  {
    p := ResolveJson(payload, ids);
    ResolveJsonStands(payload, ids);
    var c := CheckPayload(reg, kind, payload, ids, restore);
    assert c.Refused? ==> Refuses(reg, kind, p, restore, c.why);
  }

  /** An ordinary create, its refusals in order, and the row it stores under the id that
      its temporary id means from then on. */
  lemma CreateDoes(reg: Registry, mint: Mint, project: Id, b: ArtifactBatch, temp: Id, kind: string, name: string, payload: Json)
    returns (p: Json)
    requires Unique(b.rows) && Indexed(project, b)
    ensures Stands(payload, p, b.ids)
    ensures var o, id := ApplyOp(reg, mint, project, b, CreateArtifact(temp, kind, name, payload), false), mint(b.minted);
      if kind !in reg.kinds then o == Rejected(Unsupported)
      else if !reg.valid(kind, p) then o == Rejected(Invalid)
      else if NameHeld(b.rows, project, kind, name, None) then o == Rejected(NameTaken)
      else if !IsReserved(temp) then o == Rejected(NotTemporary)
      else if id in b.rows then o == Rejected(NameTaken)
      else
        && o.Accepted? && o.batch.rows == b.rows[id := Row(project, kind, name, reg.derive(kind, p), 1)]
        && o.batch.ids == b.ids[temp := id] && o.batch.minted == b.minted + 1
        && o.batch.canonical == b.canonical + [CreateArtifact(id, kind, name, reg.derive(kind, p))]
  {
    hide Unique, Indexed, Find, Owner, Clash, Collides, IsReserved, Stands, CheckPayload;
    p := CheckedMeans(reg, kind, payload, b.ids, false);
    HeldMeans(project, b, kind, name, None);
    CollidesMeans(b.rows, mint(b.minted), Row(project, kind, name, reg.derive(kind, p), 1));
    assert kind !in reg.kinds ==> Refuses(reg, kind, p, false, Unsupported);
    assert kind in reg.kinds && !reg.valid(kind, p) ==> Refuses(reg, kind, p, false, Invalid);
    NobodyElse(b.rows, project, kind, name, mint(b.minted));
  }

  lemma NobodyElse(rows: Rows, project: Id, kind: string, name: string, id: Id)
    ensures id !in rows ==> (NameHeld(rows, project, kind, name, Some(id)) <==> NameHeld(rows, project, kind, name, None))
  {
    if other :| Named(rows, project, kind, name, other) {
      assert Some(other) != None;
    }
  }

  /** An update, its refusals in order, and the row it leaves: what it does not mention
      stays, the payload included. */
  lemma UpdateDoes(reg: Registry, mint: Mint, project: Id, b: ArtifactBatch, id: Id, newName: Option<string>, newPayload: Option<Json>,
      rev: Option<nat>, restore: bool)
    returns (p: Json)
    requires Unique(b.rows) && Indexed(project, b)
    ensures newPayload.Some? ==> Stands(newPayload.value, p, b.ids)
    ensures var o := ApplyOp(reg, mint, project, b, UpdateArtifact(id, newName, newPayload, rev), restore);
      if id !in b.rows || b.rows[id].project != project then o == Rejected(Missing)
      else
        var was := b.rows[id];
        if rev.Some? && rev.value != was.rev then o == Rejected(Stale)
        else if newPayload.Some? && was.kind !in reg.kinds then o == Rejected(Unsupported)
        else if newPayload.Some? && !restore && !reg.valid(was.kind, p) then o == Rejected(Invalid)
        else if newName.Some? && newName.value != was.name && NameHeld(b.rows, project, was.kind, newName.value, Some(id)) then
          o == Rejected(NameTaken)
        else
          && o.Accepted? && o.batch.ids == b.ids
          && (var payload := if newPayload.None? then was.payload else if restore then p else reg.derive(was.kind, p);
              o.batch.rows == b.rows[id := Row(project, was.kind, if newName.Some? then newName.value else was.name, payload, was.rev + 1)])
  {
    hide Unique, Indexed, Find, Owner, Clash, Collides, Stands, CheckPayload;
    p := Null;
    if newPayload.Some? {
      p := CheckedMeans(reg, if id in b.rows then b.rows[id].kind else "", newPayload.value, b.ids, restore);
    }
    if id in b.rows && b.rows[id].project == project {
      var was := b.rows[id];
      assert was.kind !in reg.kinds ==> Refuses(reg, was.kind, p, restore, Unsupported);
      assert was.kind in reg.kinds && !restore && !reg.valid(was.kind, p) ==> Refuses(reg, was.kind, p, restore, Invalid);
      HeldMeans(project, b, was.kind, newName.GetOr(was.name), Some(id));
      var c := CheckUpdate(reg, project, b.rows, b.holder, UpdateArtifact(id, newName, newPayload, rev), b.ids, restore);
      if c.Payload? {
        CollidesMeans(b.rows, id, Updated(was, newName, c.payload));
      }
      OwnNameIsOwn(b.rows, id);
    }
  }

  lemma OwnNameIsOwn(rows: Rows, id: Id)
    requires Unique(rows) && id in rows
    ensures !NameHeld(rows, rows[id].project, rows[id].kind, rows[id].name, Some(id))
  {
  }

  lemma DeleteDoes(reg: Registry, mint: Mint, project: Id, b: ArtifactBatch, id: Id, restore: bool)
    ensures var o := ApplyOp(reg, mint, project, b, DeleteArtifact(id), restore);
      if id !in b.rows || b.rows[id].project != project then o == Rejected(Missing)
      else o.Accepted? && o.batch.rows == b.rows - {id} && o.batch.ids == b.ids
  {
  }

  /** A create in restore mode reinstates a row under its own id, its payload unchecked. */
  lemma RestoreDoes(reg: Registry, mint: Mint, project: Id, b: ArtifactBatch, id: Id, kind: string, name: string, payload: Json)
    returns (p: Json)
    requires !IsReserved(id)
    ensures Stands(payload, p, b.ids)
    ensures var o := ApplyOp(reg, mint, project, b, CreateArtifact(id, kind, name, payload), true);
      if kind !in reg.kinds then o == Rejected(Unsupported)
      else if id in b.rows then o == Rejected(IdTaken)
      else if NameHeld(b.rows, project, kind, name, Some(id)) then o == Rejected(NameTaken)
      else o.Accepted? && o.batch.rows == b.rows[id := Row(project, kind, name, p, 1)] && o.batch.ids == b.ids
  {
    hide Find, Owner, Clash, Collides, IsReserved, Stands, CheckPayload;
    p := CheckedMeans(reg, kind, payload, b.ids, true);
    CollidesMeans(b.rows, id, Row(project, kind, name, p, 1));
    assert kind !in reg.kinds ==> Refuses(reg, kind, p, true, Unsupported);
  }

  /** A temporary id goes on meaning its row until an op creates under it again. */
  lemma {:induction false} BindingStays(reg: Registry, mint: Mint, project: Id, b: ArtifactBatch, ops: seq<ArtifactOp>, restore: bool, temp: Id)
    requires ApplyAll(reg, mint, project, b, ops, restore).Accepted?
    requires forall op :: op in ops && op.CreateArtifact? ==> op.tempId != temp
    ensures Lookup(ApplyAll(reg, mint, project, b, ops, restore).batch.ids, temp) == Lookup(b.ids, temp)
    decreases |ops|
  {
    hide ApplyOp;
    if ops != [] {
      OneBindingStays(reg, mint, project, b, ops[0], restore, temp);
      BindingStays(reg, mint, project, ApplyOp(reg, mint, project, b, ops[0], restore).batch, ops[1..], restore, temp);
    }
  }

  lemma OneBindingStays(reg: Registry, mint: Mint, project: Id, b: ArtifactBatch, op: ArtifactOp, restore: bool, temp: Id)
    requires ApplyOp(reg, mint, project, b, op, restore).Accepted? && (op.CreateArtifact? ==> op.tempId != temp)
    ensures Lookup(ApplyOp(reg, mint, project, b, op, restore).batch.ids, temp) == Lookup(b.ids, temp)
  {
    hide IsReserved, Collides, CheckPayload, Clash;
  }

  /** Two artifacts made in one batch, the second naming the first by its temporary id:
      the second is stored with the first one's row id. */
  lemma SecondNamesFirst(reg: Registry, mint: Mint, project: Id, rows: Rows, t: Id, u: Id, kind: string, other: string, name: string,
      title: string, p: Json)
    requires Clean(rows) && PlainMint(mint) && IsReserved(t) && IsReserved(u) && t != u && Slot(kind, name) != Slot(other, title)
    requires kind in reg.kinds && other in reg.kinds && reg.valid(kind, p)
    requires mint(0) !in rows && mint(1) !in rows && mint(0) != mint(1)
    requires reg.valid(other, Obj([Field("ref", Str(mint(0)))]))
    requires !NameHeld(rows, project, kind, name, None) && !NameHeld(rows, project, other, title, None)
    ensures var ops := [CreateArtifact(t, kind, name, p), CreateArtifact(u, other, title, Obj([Field("ref", Str(t))]))];
      var o := ApplyAll(reg, mint, project, StartBatch(rows, map[]), ops, false);
      && o.Accepted? && mint(1) in o.batch.rows
      && o.batch.rows[mint(1)].payload == reg.derive(other, Obj([Field("ref", Str(mint(0)))]))
  {
    hide ApplyOp, IsReserved, Stands, Unique, Indexed, NameHeld, Find, Owner;
    var c, d := CreateArtifact(t, kind, name, p), CreateArtifact(u, other, title, Obj([Field("ref", Str(t))]));
    assert [c, d][1..] == [d];
    var b0 := StartBatch(rows, map[]);
    NothingStaged(project, rows);
    var q := CreateDoes(reg, mint, project, b0, t, kind, name, p);
    Unmapped(p, q);
    var b := ApplyOp(reg, mint, project, b0, c, false).batch;
    OpIndexed(reg, mint, project, b0, c, false);
    OpKeepsClean(reg, mint, project, b0, c, false);
    var r := CreateDoes(reg, mint, project, b, u, other, title, Obj([Field("ref", Str(t))]));
    RefReplaced(t, mint(0), r, b.ids);
    StillFree(rows, project, mint(0), b.rows[mint(0)], other, title);
    ApplySingle(reg, mint, project, b, d, false);
  }

  lemma NothingStaged(project: Id, rows: Rows)
    ensures Indexed(project, StartBatch(rows, map[]))
  {
    hide Find;
    AllIndexed(project, StartBatch(rows, map[]));
  }

  lemma Unmapped(p: Json, q: Json)
    requires Stands(p, q, map[])
    ensures q == p
  {
    ResolveJsonEmpty(p);
    ResolveJsonStands(p, map[]);
    StandsOnce(p, q, p, map[]);
  }

  lemma RefReplaced(t: Id, id: Id, r: Json, ids: map<Id, Id>)
    requires Stands(Obj([Field("ref", Str(t))]), r, ids) && t in ids && ids[t] == id
    ensures r == Obj([Field("ref", Str(id))])
  {
    var j := Obj([Field("ref", Str(t))]);
    assert Swapped(At(j, []), At(r, []), ids);
    assert [0][1..] == [] && At(j, [0]) == Some(Str(t));
    assert Swapped(At(j, [0]), At(r, [0]), ids);
    assert At(r, [0]) == Some(r.fields[0].value);
  }

  lemma StillFree(rows: Rows, project: Id, id: Id, row: Row, kind: string, name: string)
    requires !NameHeld(rows, project, kind, name, None) && Slot(row.kind, row.name) != Slot(kind, name)
    ensures !NameHeld(rows[id := row], project, kind, name, None)
  {
    var now := rows[id := row];
    forall other ensures !Named(now, project, kind, name, other) {
      assert Named(now, project, kind, name, other) && other != id ==> Some(other) != None && Named(rows, project, kind, name, other);
    }
  }
}
