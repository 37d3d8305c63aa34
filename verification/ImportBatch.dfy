/** What becomes of an import batch, and of a bundle imported where it came from
    (api/artifact_bundle.py, api/artifact_ops.py). */
module ImportBatch {
  import opened Collections
  import opened Json
  import opened Model
  import opened ArtifactStore
  import opened ArtifactUndo
  import opened ArtifactPreview
  import opened ArtifactRefs
  import opened ArtifactClosure
  import opened ImportPlan

  // ---- the applier finds no clash ----------------------------------------------------------

  /** A batch of creates under names no row holds, no two alike. */
  ghost predicate FreshCreates(rows: Rows, project: Id, ops: seq<ArtifactOp>) {
    && (forall i :: 0 <= i < |ops| ==> ops[i].CreateArtifact? && Free(rows, project, Slot(ops[i].kind, ops[i].name)))
    && (forall i, j :: 0 <= i < j < |ops| ==> Slot(ops[i].kind, ops[i].name) != Slot(ops[j].kind, ops[j].name))
  }

  ghost predicate NewIds(mint: Mint, from: nat, rows: Rows) {
    && (forall n :: from <= n ==> mint(n) !in rows)
    && (forall m, n :: from <= m < n ==> mint(m) != mint(n))
  }

  /** One row more, under this id and name. */
  ghost predicate Adds(rows: Rows, now: Rows, id: Id, project: Id, slot: Slot) {
    exists row: Row :: row.project == project && SlotOf(row) == slot && now == rows[id := row]
  }

  lemma CreateFits(reg: Registry, mint: Mint, project: Id, b: ArtifactBatch, op: ArtifactOp)
    requires Unique(b.rows) && Indexed(project, b) && mint(b.minted) !in b.rows
    requires op.CreateArtifact? && Free(b.rows, project, Slot(op.kind, op.name))
    ensures var o := ApplyOp(reg, mint, project, b, op, false);
      && o != Rejected(NameTaken)
      && (o.Accepted? ==> o.batch.minted == b.minted + 1 && Adds(b.rows, o.batch.rows, mint(b.minted), project, Slot(op.kind, op.name)))
  {
    hide Indexed, Collides, IsReserved, Owner;
    IndexedAt(project, b, Slot(op.kind, op.name));
    assert Find(b.rows, project, Slot(op.kind, op.name)).None?;
    var c := CheckCreate(reg, project, b.rows, b.holder, op, b.ids, false);
    if c.Payload? {
      var row := Row(project, op.kind, op.name, c.payload.value, 1);
      CollidesIsFind(b.rows, mint(b.minted), row);
      assert IsReserved(op.tempId) ==> Adds(b.rows, b.rows[mint(b.minted) := row], mint(b.minted), project, Slot(op.kind, op.name));
    }
  }

  lemma StillFresh(mint: Mint, n: nat, rows: Rows, project: Id, ops: seq<ArtifactOp>, row: Row)
    requires ops != [] && FreshCreates(rows, project, ops) && NewIds(mint, n, rows) && row.project == project
    requires SlotOf(row) == Slot(ops[0].kind, ops[0].name)
    ensures FreshCreates(rows[mint(n) := row], project, ops[1..]) && NewIds(mint, n + 1, rows[mint(n) := row])
  {
    var now := rows[mint(n) := row];
    forall i | 0 <= i < |ops[1..]| ensures Free(now, project, Slot(ops[1..][i].kind, ops[1..][i].name)) {
      var s := Slot(ops[i + 1].kind, ops[i + 1].name);
      assert Free(rows, project, s) && s != SlotOf(row);
      forall id ensures !Holds(now, project, s, id) {
        assert !Holds(rows, project, s, id);
      }
    }
  }

  /** The applier's clash check passes on every such batch. */
  lemma {:induction false} CreatesNeverClash(reg: Registry, mint: Mint, project: Id, b: ArtifactBatch, ops: seq<ArtifactOp>)
    requires Clean(b.rows) && PlainMint(mint) && Indexed(project, b) && NewIds(mint, b.minted, b.rows)
    requires FreshCreates(b.rows, project, ops)
    ensures ApplyAll(reg, mint, project, b, ops, false) != Rejected(NameTaken)
    decreases |ops|
  {
    hide ApplyOp, Indexed, IsReserved, Free;
    if ops != [] {
      assert Unique(b.rows);
      CreateFits(reg, mint, project, b, ops[0]);
      var o := ApplyOp(reg, mint, project, b, ops[0], false);
      if o.Accepted? {
        var row: Row :| row.project == project && SlotOf(row) == Slot(ops[0].kind, ops[0].name) && o.batch.rows == b.rows[mint(b.minted) := row];
        StillFresh(mint, b.minted, b.rows, project, ops, row);
        OpIndexed(reg, mint, project, b, ops[0], false);
        OpKeepsClean(reg, mint, project, b, ops[0], false);
        CreatesNeverClash(reg, mint, project, o.batch, ops[1..]);
      }
    }
  }

  lemma AcceptedCreate(reg: Registry, mint: Mint, project: Id, b: ArtifactBatch, op: ArtifactOp)
    requires Indexed(project, b) && op.CreateArtifact? && ApplyOp(reg, mint, project, b, op, false).Accepted?
    ensures Free(b.rows, project, Slot(op.kind, op.name))
    ensures exists id :: id !in b.rows && Adds(b.rows, ApplyOp(reg, mint, project, b, op, false).batch.rows, id, project, Slot(op.kind, op.name))
  {
    hide Indexed, Collides, IsReserved, CheckPayload, Owner;
    IndexedAt(project, b, Slot(op.kind, op.name));
    assert Find(b.rows, project, Slot(op.kind, op.name)).None?;
    var now := ApplyOp(reg, mint, project, b, op, false).batch.rows;
    assert now == b.rows[mint(b.minted) := now[mint(b.minted)]];
  }

  lemma FreshBefore(rows: Rows, project: Id, ops: seq<ArtifactOp>, id: Id, row: Row)
    requires ops != [] && ops[0].CreateArtifact? && Free(rows, project, Slot(ops[0].kind, ops[0].name))
    requires row.project == project && SlotOf(row) == Slot(ops[0].kind, ops[0].name) && id !in rows
    requires FreshCreates(rows[id := row], project, ops[1..])
    ensures FreshCreates(rows, project, ops)
  {
    var now := rows[id := row];
    assert Holds(now, project, SlotOf(row), id);
    forall i | 0 < i < |ops|
      ensures ops[i].CreateArtifact? && Slot(ops[i].kind, ops[i].name) != SlotOf(row)
      ensures Free(rows, project, Slot(ops[i].kind, ops[i].name))
    {
      assert ops[1..][i - 1] == ops[i];
      var s := Slot(ops[i].kind, ops[i].name);
      assert Free(now, project, s);
      forall o ensures !Holds(rows, project, s, o) {
        assert !Holds(now, project, s, o);
      }
    }
    forall i, j | 0 < i < j < |ops| ensures Slot(ops[i].kind, ops[i].name) != Slot(ops[j].kind, ops[j].name) {
      assert ops[1..][i - 1] == ops[i] && ops[1..][j - 1] == ops[j];
    }
  }

  /** Conversely, a batch of creates the applier accepts is such a batch. */
  lemma {:induction false} AcceptedCreatesAreFresh(reg: Registry, mint: Mint, project: Id, b: ArtifactBatch, ops: seq<ArtifactOp>)
    requires Clean(b.rows) && PlainMint(mint) && Indexed(project, b) && forall i :: 0 <= i < |ops| ==> ops[i].CreateArtifact?
    requires ApplyAll(reg, mint, project, b, ops, false).Accepted?
    ensures FreshCreates(b.rows, project, ops)
    decreases |ops|
  {
    hide ApplyOp, Indexed, Free, FreshCreates;
    if ops == [] {
      NoCreates(b.rows, project);
    } else {
      assert Unique(b.rows);
      AcceptedCreate(reg, mint, project, b, ops[0]);
      var o := ApplyOp(reg, mint, project, b, ops[0], false).batch;
      OpIndexed(reg, mint, project, b, ops[0], false);
      OpKeepsClean(reg, mint, project, b, ops[0], false);
      AcceptedCreatesAreFresh(reg, mint, project, o, ops[1..]);
      var id :| id !in b.rows && Adds(b.rows, o.rows, id, project, Slot(ops[0].kind, ops[0].name));
      var row: Row :| row.project == project && SlotOf(row) == Slot(ops[0].kind, ops[0].name) && o.rows == b.rows[id := row];
      FreshBefore(b.rows, project, ops, id, row);
    }
  }

  lemma NoCreates(rows: Rows, project: Id)
    ensures FreshCreates(rows, project, [])
  {
  }

  lemma SafeNamesAreFresh(rows: Rows, project: Id, b: Built, payloads: map<Id, Json>)
    ensures FreshCreates(rows, project, OpsFor(b, payloads)) <==> SafeNames(rows, project, b.created, b.names)
    ensures forall i :: 0 <= i < |OpsFor(b, payloads)| ==> OpsFor(b, payloads)[i].CreateArtifact?
  {
    hide Free, Rewrite, RefMap;
    var ops := OpsFor(b, payloads);
    assert forall i :: 0 <= i < |ops| ==> ops[i].CreateArtifact? && Slot(ops[i].kind, ops[i].name) == OpSlot(b.created[i], b.names);
    if FreshCreates(rows, project, ops) {
      forall i | 0 <= i < |b.created| ensures Free(rows, project, OpSlot(b.created[i], b.names)) {
        assert Slot(ops[i].kind, ops[i].name) == OpSlot(b.created[i], b.names);
      }
      forall i, j | 0 <= i < j < |b.created| ensures OpSlot(b.created[i], b.names) != OpSlot(b.created[j], b.names) {
        assert Slot(ops[i].kind, ops[i].name) != Slot(ops[j].kind, ops[j].name);
      }
    }
  }

  /** An import batch built on a fresh plan: with distinct ids among its creates it never
      meets a taken name, with an id repeated within a kind it is never accepted, and in
      general it meets none if its names are safe and is refused if they are not. */
  lemma ImportClashesIff(h: Host, mint: Mint, project: Id, rows: Rows, ids: map<Id, Id>, arts: seq<BundleArtifact>,
      decisions: map<Id, Action>, copyNames: map<Id, string>)
    requires Clean(rows) && PlainMint(mint) && NewIds(mint, 0, rows)
    requires BuildFor(PlanFor(h, rows, project, arts), decisions, copyNames).Some?
    ensures var creates := CreatesOf(PlanFor(h, rows, project, arts).entries, decisions);
      var names := FinalNames(creates, decisions, copyNames);
      var b := BuildFor(PlanFor(h, rows, project, arts), decisions, copyNames).value;
      var o := ApplyAll(h.reg, mint, project, StartBatch(rows, ids), OpsFor(b, PayloadsOf(arts)), false);
      && (StraysFit(rows, project, creates, names, decisions, copyNames) ==> o != Rejected(NameTaken))
      && (!StraysFit(rows, project, creates, names, decisions, copyNames) ==> o.Rejected?)
      && (IdsDiffer(creates) ==> o != Rejected(NameTaken))
      && (KindRepeats(creates) ==> o.Rejected?)
  {
    hide PlanFor, BuildFor, PayloadsOf, RefMap, Rewrite, Unique, Find, CreatesOf, FinalNames, OpsFor, SafeNames, StraysFit, FreshCreates, ApplyAll,
      IdsDiffer, KindRepeats;
    var b := BuildFor(PlanFor(h, rows, project, arts), decisions, copyNames).value;
    var ops := OpsFor(b, PayloadsOf(arts));
    ImportNamesAreSafe(h, rows, project, arts, decisions, copyNames);
    SafeNamesAreFresh(rows, project, b, PayloadsOf(arts));
    AllIndexed(project, StartBatch(rows, ids));
    if FreshCreates(rows, project, ops) {
      CreatesNeverClash(h.reg, mint, project, StartBatch(rows, ids), ops);
    } else if ApplyAll(h.reg, mint, project, StartBatch(rows, ids), ops, false).Accepted? {
      AcceptedCreatesAreFresh(h.reg, mint, project, StartBatch(rows, ids), ops);
    }
  }

  /** One bundle id under two names in an empty project: both creates end up with the
      second name, and the applier refuses the batch. */
  lemma RepeatedIdIsRefused(h: Host, mint: Mint, project: Id, kind: string, a: string, z: string, p: Json, q: Json, id: Id)
    requires kind in h.known && kind in h.reg.kinds && h.reg.valid(kind, p) && h.reg.valid(kind, q)
    requires a != "" && z != "" && a != z && PlainMint(mint) && NewIds(mint, 0, map[])
    ensures var arts := [BundleArtifact(id, kind, a, p), BundleArtifact(id, kind, z, q)];
      var built := BuildFor(PlanFor(h, map[], project, arts), map[], map[]);
      && built.Some? && |built.value.created| == 2
      && OpSlot(built.value.created[0], built.value.names) == OpSlot(built.value.created[1], built.value.names) == Slot(kind, z)
      && ApplyAll(h.reg, mint, project, StartBatch(map[], map[]), OpsFor(built.value, PayloadsOf(arts)), false).Rejected?
  {
    hide PlanFor, PayloadsOf, OpsFor, BuildFor, CreatesOf, FinalNames, ApplyAll, Find, Unique;
    var arts := [BundleArtifact(id, kind, a, p), BundleArtifact(id, kind, z, q)];
    var e, f := PlanEntry(id, kind, a, Create, None, None), PlanEntry(id, kind, z, Create, None, None);
    TwoEntries(h, project, arts, e, f);
    TwoCreates(e, f);
    NoRowsAreClean();
    RefusedIffIllegal(h, map[], project, arts, map[]);
    ImportNamesAreSafe(h, map[], project, arts, map[], map[]);
    assert KindRepeats([e, f]) by { assert [e, f][0].bundleId == [e, f][1].bundleId; }
    ImportClashesIff(h, mint, project, map[], map[], arts, map[], map[]);
  }

  lemma NoRowsAreClean()
    ensures Clean(map[])
  {
  }

  lemma TwoCreates(e: PlanEntry, f: PlanEntry)
    requires e.action == f.action == Create && e.bundleId == f.bundleId
    ensures CreatesOf([e, f], map[]) == [e, f] && FinalNames([e, f], map[], map[]) == map[e.bundleId := f.name]
  {
    assert [e, f][..1] == [e] && [e][..0] == [];
    assert CreatesOf([e], map[]) == [e] && FinalNames([e], map[], map[]) == map[e.bundleId := e.name];
  }

  lemma TwoEntries(h: Host, project: Id, arts: seq<BundleArtifact>, e: PlanEntry, f: PlanEntry)
    requires |arts| == 2 && PlanSkip(h, arts[0]).None? && PlanSkip(h, arts[1]).None?
    requires Slot(arts[0].kind, arts[0].name) != Slot(arts[1].kind, arts[1].name)
    requires e == PlanEntry(arts[0].id, arts[0].kind, arts[0].name, Create, None, None)
    requires f == PlanEntry(arts[1].id, arts[1].kind, arts[1].name, Create, None, None)
    ensures PlanFor(h, map[], project, arts).entries == [e, f]
  {
    hide PlanSkip, SameContent, FreeName, InitiallyTaken, Tentative;
    assert arts[..1] == [arts[0]] && arts[..1][..0] == [];
    assert ValidArts(h, arts) == arts by {
      assert ValidArts(h, arts[..1]) == [arts[0]];
    }
    var start := Plan([], [], InitiallyTaken(map[], project, arts), {});
    var tentative := Tentative(map[], project, arts);
    assert PlanAll(h, map[], project, tentative, start, []) == start;
    var one := PlanAll(h, map[], project, tentative, start, arts[..1]);
    assert one == PlanStep(h, map[], project, tentative, start, arts[0]);
    assert one.entries == [e] && one.claimed == {Slot(arts[0].kind, arts[0].name)};
  }

  // ---- an unchanged bundle comes back as reuse ------------------------------------------------------

  /** Rows that went through a normal write: writable kind, a name, a valid payload that
      deriving again does not change. */
  ghost predicate Written(h: Host, rows: Rows, project: Id, id: Id) {
    && id in rows && rows[id].project == project && rows[id].kind in h.known && rows[id].kind in h.reg.kinds && rows[id].name != ""
    && h.reg.valid(rows[id].kind, rows[id].payload) && h.reg.derive(rows[id].kind, rows[id].payload) == rows[id].payload
  }

  lemma {:induction false} AllValid(h: Host, rows: Rows, project: Id, ids: seq<Id>)
    requires forall i :: 0 <= i < |ids| ==> Written(h, rows, project, ids[i])
    ensures (forall i :: 0 <= i < |ids| ==> ids[i] in rows) && ValidArts(h, BundleOf(rows, ids)) == BundleOf(rows, ids)
  {
    if ids != [] {
      var n := |ids| - 1;
      AllValid(h, rows, project, ids[..n]);
      assert BundleOf(rows, ids)[..n] == BundleOf(rows, ids[..n]);
      assert BundleOf(rows, ids) == BundleOf(rows, ids[..n]) + [BundleOf(rows, ids)[n]];
    }
  }

  lemma {:induction false} TentativeIsIdentity(rows: Rows, project: Id, arts: seq<BundleArtifact>)
    requires Unique(rows) && forall a :: a in arts ==> Holds(rows, project, Slot(a.kind, a.name), a.id)
    ensures forall id :: id in Tentative(rows, project, arts) ==> Tentative(rows, project, arts)[id] == id
  {
    hide Unique, Holds, Find;
    if arts != [] {
      var n := |arts| - 1;
      TentativeIsIdentity(rows, project, arts[..n]);
      assert arts[n] in arts;
      FindIs(rows, project, Slot(arts[n].kind, arts[n].name), arts[n].id);
    }
  }

  ghost predicate ReusesItself(entries: seq<PlanEntry>, ids: seq<Id>) {
    |entries| == |ids| && forall i :: 0 <= i < |ids| ==>
      entries[i].bundleId == ids[i] && entries[i].action == Reuse && entries[i].existing == Some(ids[i])
  }

  lemma StepReuses(h: Host, rows: Rows, project: Id, tentative: map<Id, Id>, p: Plan, a: BundleArtifact)
    requires Unique(rows) && Written(h, rows, project, a.id) && forall id :: id in tentative ==> tentative[id] == id
    requires a == BundleArtifact(a.id, rows[a.id].kind, rows[a.id].name, rows[a.id].payload)
    ensures var q := PlanStep(h, rows, project, tentative, p, a);
      && q.duplicates == p.duplicates && |q.entries| == |p.entries| + 1 && q.entries[..|p.entries|] == p.entries
      && (var e := q.entries[|p.entries|]; e.bundleId == a.id && e.action == Reuse && e.existing == Some(a.id))
  {
    hide Unique, FreeName, Rewrite, Refs, NamesOf;
    FindIs(rows, project, Slot(a.kind, a.name), a.id);
    RewriteIdentity(a.payload, tentative);
  }

  lemma {:induction false} PlanReuses(h: Host, rows: Rows, project: Id, tentative: map<Id, Id>, start: Plan, ids: seq<Id>)
    requires Unique(rows) && (forall i :: 0 <= i < |ids| ==> Written(h, rows, project, ids[i]))
    requires (forall id :: id in tentative ==> tentative[id] == id) && start.entries == [] && start.duplicates == []
    ensures forall i :: 0 <= i < |ids| ==> ids[i] in rows
    ensures var p := PlanAll(h, rows, project, tentative, start, BundleOf(rows, ids)); ReusesItself(p.entries, ids) && p.duplicates == []
  {
    hide Unique, Written, PlanStep;
    WrittenExist(h, rows, project, ids);
    if ids != [] {
      var n := |ids| - 1;
      PlanReuses(h, rows, project, tentative, start, ids[..n]);
      assert BundleOf(rows, ids)[..n] == BundleOf(rows, ids[..n]);
      StepReuses(h, rows, project, tentative, PlanAll(h, rows, project, tentative, start, BundleOf(rows, ids[..n])), BundleOf(rows, ids)[n]);
    }
  }

  lemma WrittenExist(h: Host, rows: Rows, project: Id, ids: seq<Id>)
    requires forall i :: 0 <= i < |ids| ==> Written(h, rows, project, ids[i])
    ensures forall i :: 0 <= i < |ids| ==> ids[i] in rows
  {
  }

  /** A bundle exported from a project and imported back unchanged proposes to reuse
      every artifact by its own row, and to create nothing. */
  lemma ReimportProposesReuse(h: Host, rows: Rows, project: Id, ids: seq<Id>)
    requires Unique(rows) && forall i :: 0 <= i < |ids| ==> Written(h, rows, project, ids[i])
    ensures forall i :: 0 <= i < |ids| ==> ids[i] in rows
    ensures var p := PlanFor(h, rows, project, BundleOf(rows, ids)); ReusesItself(p.entries, ids) && p.duplicates == []
  {
    hide PlanAll, Tentative, Unique, InitiallyTaken;
    AllValid(h, rows, project, ids);
    var arts := BundleOf(rows, ids);
    TentativeIsIdentity(rows, project, arts);
    PlanReuses(h, rows, project, Tentative(rows, project, arts), Plan([], [], InitiallyTaken(rows, project, arts), {}), ids);
  }
}
