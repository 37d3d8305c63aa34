/** Artifact rows (api/content.py) and the artifact-op applier that runs on them
    (api/artifact_ops.py). */
module ArtifactStore {
  import opened Collections
  import opened Json
  import opened Model

  /** One artifact. Its kind and project never change. `updated_by` and the timestamps
      are left out. */
  datatype Row = Row(project: Id, kind: string, name: string, payload: Json, rev: nat)

  type Rows = map<Id, Row>

  datatype ArtifactOp =
    | CreateArtifact(tempId: Id, kind: string, name: string, payload: Json)
    | UpdateArtifact(id: Id, newName: Option<string>, newPayload: Option<Json>, rev: Option<nat>)
    | DeleteArtifact(id: Id)

  datatype Refusal = Unsupported | Invalid | NameTaken | Missing | Stale | IdTaken | NotTemporary

  /** The registry of kinds: what a payload must satisfy and the derived fields the
      server recomputes on every write. */
  datatype Registry = Registry(kinds: set<string>, valid: (string, Json) -> bool, derive: (string, Json) -> Json)

  datatype Slot = Slot(kind: string, name: string)

  // ---- the row store ------------------------------------------------------------------

  /** UNIQUE (project, kind, name). */
  ghost predicate Unique(rows: Rows) {
    forall a, b :: a in rows && b in rows && rows[a].project == rows[b].project && SlotOf(rows[a]) == SlotOf(rows[b]) ==> a == b
  }

  function SlotOf(r: Row): Slot {
    Slot(r.kind, r.name)
  }

  predicate Holds(rows: Rows, project: Id, slot: Slot, id: Id) {
    id in rows && rows[id].project == project && SlotOf(rows[id]) == slot
  }

  /** Who holds a name; unique rows make the choice immaterial. */
  ghost function Find(rows: Rows, project: Id, slot: Slot): (r: Option<Id>)
    ensures r.Some? ==> Holds(rows, project, slot, r.value)
    ensures r.None? ==> forall id :: !Holds(rows, project, slot, id)
  {
    if exists id :: Holds(rows, project, slot, id) then
      var id :| Holds(rows, project, slot, id);
      Some(id)
    else None
  }

  lemma FindIs(rows: Rows, project: Id, slot: Slot, id: Id)
    requires Unique(rows) && Holds(rows, project, slot, id)
    ensures Find(rows, project, slot) == Some(id)
  {
  }

  /** Where a row's name would collide: some other row of its project holds it. */
  ghost predicate Collides(rows: Rows, id: Id, r: Row) {
    exists other :: other != id && Holds(rows, r.project, SlotOf(r), other)
  }

  lemma UniqueWith(rows: Rows, id: Id, r: Row)
    requires Unique(rows) && !Collides(rows, id, r)
    ensures Unique(rows[id := r])
  {
    var all := rows[id := r];
    forall a, b | a in all && b in all && all[a].project == all[b].project && SlotOf(all[a]) == SlotOf(all[b]) ensures a == b {
      if a == id && b != id {
        assert Holds(rows, r.project, SlotOf(r), b);
      } else if b == id && a != id {
        assert Holds(rows, r.project, SlotOf(r), a);
      }
    }
  }

  /** The table with its constraints, as the session's database handle sees it. */
  class ArtifactTable {
    var rows: Rows

    ghost predicate Valid()
      reads this
    {
      Unique(rows)
    }

    constructor (rows: Rows)
      requires Unique(rows)
      ensures Valid() && this.rows == rows
    {
      this.rows := rows;
    }

    method FindArtifact(project: Id, slot: Slot) returns (r: Option<Id>)
      requires Valid()
      ensures r == Find(rows, project, slot)
    {
      var todo := rows.Keys;
      while todo != {}
        invariant todo <= rows.Keys
        invariant forall id :: Holds(rows, project, slot, id) ==> id in todo
      {
        var id :| id in todo;
        if Holds(rows, project, slot, id) {
          FindIs(rows, project, slot, id);
          return Some(id);
        }
        todo := todo - {id};
      }
      r := None;
    }

    /** `ok` is false where the database raises IntegrityError. */
    method CreateArtifact(project: Id, kind: string, name: string, payload: Json, id: Id) returns (ok: bool)
      requires Valid()
      modifies this
      ensures Valid()
      ensures var row := Row(project, kind, name, payload, 1);
        && (ok <==> id !in old(rows) && !Collides(old(rows), id, row))
        && rows == if ok then old(rows)[id := row] else old(rows)
    {
      var row := Row(project, kind, name, payload, 1);
      var holder := FindArtifact(project, SlotOf(row));
      ok := id !in rows && holder.None?;
      if ok {
        UniqueWith(rows, id, row);
        rows := rows[id := row];
      }
    }

    method UpdateArtifact(id: Id, name: Option<string>, payload: Option<Json>) returns (ok: bool)
      requires Valid() && id in rows
      modifies this
      ensures Valid()
      ensures var row := Updated(old(rows)[id], name, payload);
        && (ok <==> !Collides(old(rows), id, row))
        && rows == if ok then old(rows)[id := row] else old(rows)
    {
      var row := Updated(rows[id], name, payload);
      var holder := FindArtifact(row.project, SlotOf(row));
      ok := holder.None? || holder.value == id;
      if ok {
        UniqueWith(rows, id, row);
        rows := rows[id := row];
      }
    }

    method DeleteArtifact(id: Id)
      requires Valid()
      modifies this
      ensures Valid() && rows == old(rows) - {id}
    {
      rows := rows - {id};
    }
  }

  function Updated(r: Row, name: Option<string>, payload: Option<Json>): Row {
    Row(r.project, r.kind, name.GetOr(r.name), payload.GetOr(r.payload), r.rev + 1)
  }

  // ---- the applier, as a function -------------------------------------------------------

  datatype ArtifactBatch = ArtifactBatch(
    rows: Rows,
    ids: map<Id, Id>,
    holder: map<Slot, Option<Id>>,
    canonical: seq<ArtifactOp>,
    units: seq<seq<ArtifactOp>>,
    changed: set<Id>,
    minted: nat)

  datatype Outcome = Accepted(batch: ArtifactBatch) | Rejected(why: Refusal)

  type Mint = nat -> Id

  function StartBatch(rows: Rows, ids: map<Id, Id>): ArtifactBatch {
    ArtifactBatch(rows, ids, map[], [], [], {}, 0)
  }

  function InverseOps(b: ArtifactBatch): seq<ArtifactOp> {
    Unwind(b.units)
  }

  /** The overlay first, the rows where it is silent. */
  ghost function Owner(holder: map<Slot, Option<Id>>, rows: Rows, project: Id, slot: Slot): Option<Id> {
    if slot in holder then holder[slot] else Find(rows, project, slot)
  }

  ghost predicate Clash(holder: map<Slot, Option<Id>>, rows: Rows, project: Id, slot: Slot, own: Option<Id>) {
    var h := Owner(holder, rows, project, slot);
    h.Some? && h != own
  }

  datatype Checked = Payload(payload: Option<Json>) | Refused(why: Refusal)

  function CheckPayload(reg: Registry, kind: string, payload: Json, ids: map<Id, Id>, restore: bool): Checked {
    var resolved := ResolveJson(payload, ids);
    if kind !in reg.kinds then Refused(Unsupported)
    else if restore then Payload(Some(resolved))
    else if !reg.valid(kind, resolved) then Refused(Invalid)
    else Payload(Some(reg.derive(kind, resolved)))
  }

  /** Shared by the applier and the preview. */
  ghost function CheckCreate(reg: Registry, project: Id, rows: Rows, holder: map<Slot, Option<Id>>, op: ArtifactOp, ids: map<Id, Id>,
      restore: bool): (r: Checked)
    requires op.CreateArtifact?
    ensures r.Payload? ==> r.payload.Some?
  {
    var c := CheckPayload(reg, op.kind, op.payload, ids, restore);
    if c.Refused? then c
    else if !restore && Clash(holder, rows, project, Slot(op.kind, op.name), None) then Refused(NameTaken)
    else c
  }

  ghost function CheckUpdate(reg: Registry, project: Id, rows: Rows, holder: map<Slot, Option<Id>>, op: ArtifactOp, ids: map<Id, Id>,
      restore: bool): (r: Checked)
    requires op.UpdateArtifact?
    ensures r.Payload? ==> op.id in rows
  {
    if op.id !in rows || rows[op.id].project != project then Refused(Missing) else
    var row := rows[op.id];
    if op.rev.Some? && op.rev.value != row.rev then Refused(Stale) else
    var c := if op.newPayload.Some? then CheckPayload(reg, row.kind, op.newPayload.value, ids, restore) else Payload(None);
    if c.Refused? then c
    else if op.newName.Some? && op.newName.value != row.name && !restore
         && Clash(holder, rows, project, Slot(row.kind, op.newName.value), Some(op.id))
    then Refused(NameTaken)
    else c
  }

  ghost function ApplyCreate(reg: Registry, mint: Mint, project: Id, b: ArtifactBatch, op: ArtifactOp, restore: bool): Outcome
    requires op.CreateArtifact?
  {
    var c := CheckCreate(reg, project, b.rows, b.holder, op, b.ids, restore);
    if c.Refused? then Rejected(c.why) else
    var temp := IsReserved(op.tempId);
    if !temp && !restore then Rejected(NotTemporary)
    else if !temp && op.tempId in b.rows then Rejected(IdTaken)
    else
      var id := if temp then mint(b.minted) else op.tempId;
      var row := Row(project, op.kind, op.name, c.payload.value, 1);
      if id in b.rows || Collides(b.rows, id, row) then Rejected(NameTaken) else
      Accepted(ArtifactBatch(
        b.rows[id := row],
        if temp then b.ids[op.tempId := id] else b.ids,
        b.holder[SlotOf(row) := Some(id)],
        b.canonical + [CreateArtifact(id, op.kind, op.name, c.payload.value)],
        b.units + [[DeleteArtifact(id)]],
        b.changed + {id},
        if temp then b.minted + 1 else b.minted))
  }

  ghost function ApplyUpdate(reg: Registry, project: Id, b: ArtifactBatch, op: ArtifactOp, restore: bool): Outcome
    requires op.UpdateArtifact?
  {
    var c := CheckUpdate(reg, project, b.rows, b.holder, op, b.ids, restore);
    if c.Refused? then Rejected(c.why) else
    var was := b.rows[op.id];
    var row := Updated(was, op.newName, c.payload);
    if Collides(b.rows, op.id, row) then Rejected(NameTaken) else
    Accepted(b.(
      rows := b.rows[op.id := row],
      holder := Rename(b.holder, was, op.newName, op.id),
      canonical := b.canonical + [UpdateArtifact(op.id, op.newName, c.payload, None)],
      units := b.units + [[UpdateArtifact(op.id, Some(was.name), Some(was.payload), None)]],
      changed := b.changed + {op.id}))
  }

  /** Free the old name and claim the new one, if there is a new one. */
  function Rename(holder: map<Slot, Option<Id>>, was: Row, name: Option<string>, id: Id): map<Slot, Option<Id>> {
    if name.Some? && name.value != was.name
    then holder[SlotOf(was) := None][Slot(was.kind, name.value) := Some(id)]
    else holder
  }

  ghost function ApplyDelete(project: Id, b: ArtifactBatch, op: ArtifactOp): Outcome
    requires op.DeleteArtifact?
  {
    if op.id !in b.rows || b.rows[op.id].project != project then Rejected(Missing) else
    var was := b.rows[op.id];
    Accepted(b.(
      rows := b.rows - {op.id},
      holder := b.holder[SlotOf(was) := None],
      canonical := b.canonical + [op],
      units := b.units + [[CreateArtifact(op.id, was.kind, was.name, was.payload)]],
      changed := b.changed - {op.id}))
  }

  ghost function ApplyOp(reg: Registry, mint: Mint, project: Id, b: ArtifactBatch, op: ArtifactOp, restore: bool): Outcome {
    match op
    case CreateArtifact(_, _, _, _) => ApplyCreate(reg, mint, project, b, op, restore)
    case UpdateArtifact(_, _, _, _) => ApplyUpdate(reg, project, b, op, restore)
    case DeleteArtifact(_) => ApplyDelete(project, b, op)
  }

  ghost function ApplyAll(reg: Registry, mint: Mint, project: Id, b: ArtifactBatch, ops: seq<ArtifactOp>, restore: bool): Outcome
    decreases |ops|
  {
    if ops == [] then Accepted(b) else
    var first := ApplyOp(reg, mint, project, b, ops[0], restore);
    if first.Rejected? then first else ApplyAll(reg, mint, project, first.batch, ops[1..], restore)
  }

  lemma {:induction false} ApplyAllConcat(reg: Registry, mint: Mint, project: Id, b: ArtifactBatch, ops: seq<ArtifactOp>,
      more: seq<ArtifactOp>, restore: bool)
    ensures ApplyAll(reg, mint, project, b, ops + more, restore) ==
            (var first := ApplyAll(reg, mint, project, b, ops, restore);
             if first.Rejected? then first else ApplyAll(reg, mint, project, first.batch, more, restore))
    decreases |ops|
  {
    hide ApplyOp;
    if ops == [] {
      assert ops + more == more;
    } else {
      var first := ApplyOp(reg, mint, project, b, ops[0], restore);
      assert (ops + more)[0] == ops[0] && (ops + more)[1..] == ops[1..] + more;
      if first.Accepted? {
        ApplyAllConcat(reg, mint, project, first.batch, ops[1..], more, restore);
      }
    }
  }

  lemma ApplySingle(reg: Registry, mint: Mint, project: Id, b: ArtifactBatch, op: ArtifactOp, restore: bool)
    ensures ApplyAll(reg, mint, project, b, [op], restore) == ApplyOp(reg, mint, project, b, op, restore)
  {
    hide ApplyOp;
    assert [op][1..] == [];
  }

  // ---- the applier as it runs ------------------------------------------------------------

  class ClashTracker {
    var holder: map<Slot, Option<Id>>

    constructor ()
      ensures holder == map[]
    {
      holder := map[];
    }

    method OwnerOf(db: ArtifactTable, project: Id, slot: Slot) returns (r: Option<Id>)
      requires db.Valid()
      ensures r == Owner(holder, db.rows, project, slot)
    {
      if slot in holder {
        return holder[slot];
      }
      r := db.FindArtifact(project, slot);
    }

    method Claim(slot: Slot, id: Id)
      modifies this
      ensures holder == old(holder)[slot := Some(id)]
    {
      holder := holder[slot := Some(id)];
    }

    method Free(slot: Slot)
      modifies this
      ensures holder == old(holder)[slot := None]
    {
      holder := holder[slot := None];
    }
  }

  method CheckCreateOp(reg: Registry, db: ArtifactTable, project: Id, tracker: ClashTracker, op: ArtifactOp, ids: map<Id, Id>, restore: bool)
    returns (r: Checked)
    requires op.CreateArtifact? && db.Valid()
    ensures r == CheckCreate(reg, project, db.rows, tracker.holder, op, ids, restore)
  {
    r := CheckPayload(reg, op.kind, op.payload, ids, restore);
    if r.Payload? && !restore {
      var holder := tracker.OwnerOf(db, project, Slot(op.kind, op.name));
      if holder.Some? {
        r := Refused(NameTaken);
      }
    }
  }

  method CheckUpdateOp(reg: Registry, db: ArtifactTable, project: Id, tracker: ClashTracker, op: ArtifactOp, ids: map<Id, Id>, restore: bool)
    returns (r: Checked)
    requires op.UpdateArtifact? && db.Valid()
    ensures r == CheckUpdate(reg, project, db.rows, tracker.holder, op, ids, restore)
  {
    if op.id !in db.rows || db.rows[op.id].project != project {
      return Refused(Missing);
    }
    var row := db.rows[op.id];
    if op.rev.Some? && op.rev.value != row.rev {
      return Refused(Stale);
    }
    r := Payload(None);
    if op.newPayload.Some? {
      r := CheckPayload(reg, row.kind, op.newPayload.value, ids, restore);
    }
    if r.Payload? && op.newName.Some? && op.newName.value != row.name && !restore {
      var holder := tracker.OwnerOf(db, project, Slot(row.kind, op.newName.value));
      if holder.Some? && holder.value != op.id {
        r := Refused(NameTaken);
      }
    }
  }

  /** Everything one batch produced, its rows being staged in the table. */
  class BatchResult {
    var ids: map<Id, Id>
    var canonical: seq<ArtifactOp>
    var units: seq<seq<ArtifactOp>>
    var changed: set<Id>
    var minted: nat
    const tracker: ClashTracker

    constructor (ids: map<Id, Id>)
      ensures fresh(tracker) && tracker.holder == map[]
      ensures this.ids == ids && canonical == [] && units == [] && changed == {} && minted == 0
    {
      this.ids, canonical, units, changed, minted := ids, [], [], {}, 0;
      tracker := new ClashTracker();
    }

    function State(db: ArtifactTable): ArtifactBatch
      reads this, tracker, db
    {
      ArtifactBatch(db.rows, ids, tracker.holder, canonical, units, changed, minted)
    }

    method Create(reg: Registry, mint: Mint, db: ArtifactTable, project: Id, op: ArtifactOp, restore: bool) returns (why: Option<Refusal>)
      requires db.Valid() && op.CreateArtifact?
      modifies this, tracker, db
      ensures db.Valid()
      ensures ApplyCreate(reg, mint, project, old(State(db)), op, restore) ==
        if why.None? then Accepted(State(db)) else Rejected(why.value)
    {
      var c := CheckCreateOp(reg, db, project, tracker, op, ids, restore);
      if c.Refused? {
        return Some(c.why);
      }
      var temp := IsReserved(op.tempId);
      var id := op.tempId;
      if temp {
        id := mint(minted);
      } else if !restore {
        return Some(NotTemporary);
      } else if id in db.rows {
        return Some(IdTaken);
      }
      var ok := db.CreateArtifact(project, op.kind, op.name, c.payload.value, id);
      if !ok {
        return Some(NameTaken);
      }
      if temp {
        ids, minted := ids[op.tempId := id], minted + 1;
      }
      tracker.Claim(Slot(op.kind, op.name), id);
      units := units + [[DeleteArtifact(id)]];
      canonical := canonical + [CreateArtifact(id, op.kind, op.name, c.payload.value)];
      changed := changed + {id};
      why := None;
    }

    method Update(reg: Registry, db: ArtifactTable, project: Id, op: ArtifactOp, restore: bool) returns (why: Option<Refusal>)
      requires db.Valid() && op.UpdateArtifact?
      modifies this, tracker, db
      ensures db.Valid()
      ensures ApplyUpdate(reg, project, old(State(db)), op, restore) ==
        if why.None? then Accepted(State(db)) else Rejected(why.value)
    {
      var c := CheckUpdateOp(reg, db, project, tracker, op, ids, restore);
      if c.Refused? {
        return Some(c.why);
      }
      var was := db.rows[op.id];
      var ok := db.UpdateArtifact(op.id, op.newName, c.payload);
      if !ok {
        return Some(NameTaken);
      }
      if op.newName.Some? && op.newName.value != was.name {
        tracker.Free(SlotOf(was));
        tracker.Claim(Slot(was.kind, op.newName.value), op.id);
      }
      units := units + [[UpdateArtifact(op.id, Some(was.name), Some(was.payload), None)]];
      canonical := canonical + [UpdateArtifact(op.id, op.newName, c.payload, None)];
      changed := changed + {op.id};
      why := None;
    }

    method Delete(db: ArtifactTable, project: Id, op: ArtifactOp) returns (why: Option<Refusal>)
      requires db.Valid() && op.DeleteArtifact?
      modifies this, tracker, db
      ensures db.Valid()
      ensures ApplyDelete(project, old(State(db)), op) == if why.None? then Accepted(State(db)) else Rejected(why.value)
    {
      if op.id !in db.rows || db.rows[op.id].project != project {
        return Some(Missing);
      }
      var was := db.rows[op.id];
      units := units + [[CreateArtifact(op.id, was.kind, was.name, was.payload)]];
      tracker.Free(SlotOf(was));
      db.DeleteArtifact(op.id);
      canonical := canonical + [op];
      changed := changed - {op.id};
      why := None;
    }
  }

  /** The batch runs op by op and stops at the first refusal; the caller rolls the
      staged rows back. */
  method ApplyArtifactOps(reg: Registry, mint: Mint, db: ArtifactTable, project: Id, ops: seq<ArtifactOp>, ids: map<Id, Id>, restore: bool)
    returns (res: BatchResult, why: Option<Refusal>)
    requires db.Valid()
    modifies db
    ensures db.Valid() && fresh(res) && fresh(res.tracker)
    ensures ApplyAll(reg, mint, project, StartBatch(old(db.rows), ids), ops, restore) ==
      if why.None? then Accepted(res.State(db)) else Rejected(why.value)
  {
    hide ApplyOp;
    ghost var start := StartBatch(db.rows, ids);
    res := new BatchResult(ids);
    for i := 0 to |ops|
      invariant db.Valid() && fresh(res) && fresh(res.tracker)
      invariant ApplyAll(reg, mint, project, start, ops, restore) == ApplyAll(reg, mint, project, res.State(db), ops[i..], restore)
    {
      assert ops[i..][0] == ops[i] && ops[i..][1..] == ops[i + 1..];
      ghost var before := res.State(db);
      var op := ops[i];
      match op {
        case CreateArtifact(_, _, _, _) => why := res.Create(reg, mint, db, project, op, restore);
        case UpdateArtifact(_, _, _, _) => why := res.Update(reg, db, project, op, restore);
        case DeleteArtifact(_) => why := res.Delete(db, project, op);
      }
      StepIs(reg, mint, project, before, op, restore);
      if why.Some? {
        return res, why;
      }
    }
    why := None;
  }

  lemma StepIs(reg: Registry, mint: Mint, project: Id, b: ArtifactBatch, op: ArtifactOp, restore: bool)
    ensures op.CreateArtifact? ==> ApplyOp(reg, mint, project, b, op, restore) == ApplyCreate(reg, mint, project, b, op, restore)
    ensures op.UpdateArtifact? ==> ApplyOp(reg, mint, project, b, op, restore) == ApplyUpdate(reg, project, b, op, restore)
    ensures op.DeleteArtifact? ==> ApplyOp(reg, mint, project, b, op, restore) == ApplyDelete(project, b, op)
  {
  }
}
