/** A change request compiled into an op batch (api/change_request_ops.py), with the
    diff that produces it (core/model/change_request.py). */
module ChangeRequestOps {
  import opened Collections
  import opened Json
  import opened Model
  import opened ModelOps
  import Text

  datatype Named<V> = Named(id: Id, state: V)
  datatype Modified<V> = Modified(id: Id, before: V, after: V)

  type NamedElement = Named<Element>
  type NamedRelationship = Named<Relationship>
  type ModifiedElement = Modified<Element>
  type ModifiedRelationship = Modified<Relationship>

  datatype ChangeRequest = ChangeRequest(
    elsAdded: seq<NamedElement>,
    elsModified: seq<ModifiedElement>,
    elsDeleted: seq<NamedElement>,
    relsAdded: seq<NamedRelationship>,
    relsModified: seq<ModifiedRelationship>,
    relsDeleted: seq<NamedRelationship>)

  // ---- the diff -------------------------------------------------------------------

  /** Each list holds each id it should hold once, in any order. */
  ghost predicate Diffs<V>(base: map<Id, V>, other: map<Id, V>, added: seq<Named<V>>, modified: seq<Modified<V>>, deleted: seq<Named<V>>) {
    && (forall i :: 0 <= i < |added| ==> var id := added[i].id; id in other && id !in base && added[i].state == other[id])
    && (forall i :: 0 <= i < |modified| ==>
         var m := modified[i];
         m.id in base && m.id in other && m.before == base[m.id] && m.after == other[m.id] && m.before != m.after)
    && (forall i :: 0 <= i < |deleted| ==> var id := deleted[i].id; id in base && id !in other && deleted[i].state == base[id])
    && (forall id :: id in other && id !in base ==> exists i :: 0 <= i < |added| && added[i].id == id)
    && (forall id :: id in other && id in base && base[id] != other[id] ==> exists i :: 0 <= i < |modified| && modified[i].id == id)
    && (forall id :: id in base && id !in other ==> exists i :: 0 <= i < |deleted| && deleted[i].id == id)
    && (forall i, j :: 0 <= i < j < |added| ==> added[i].id != added[j].id)
    && (forall i, j :: 0 <= i < j < |modified| ==> modified[i].id != modified[j].id)
    && (forall i, j :: 0 <= i < j < |deleted| ==> deleted[i].id != deleted[j].id)
  }

  ghost predicate DiffsElements(base: map<Id, Element>, other: map<Id, Element>, cr: ChangeRequest) {
    Diffs(base, other, cr.elsAdded, cr.elsModified, cr.elsDeleted)
  }

  ghost predicate DiffsRelationships(base: map<Id, Relationship>, other: map<Id, Relationship>, cr: ChangeRequest) {
    Diffs(base, other, cr.relsAdded, cr.relsModified, cr.relsDeleted)
  }

  ghost predicate IsDiff(base: Model, other: Model, cr: ChangeRequest) {
    DiffsElements(base.elements, other.elements, cr) && DiffsRelationships(base.relationships, other.relationships, cr)
  }

  /** The entities `other` adds or changes, then those it drops, in whatever order
      they are walked. */
  method DiffStates<V(==)>(base: map<Id, V>, other: map<Id, V>)
    returns (added: seq<Named<V>>, modified: seq<Modified<V>>, deleted: seq<Named<V>>)
    ensures Diffs(base, other, added, modified, deleted)
  {
    added, modified := [], [];
    ghost var addedIds: seq<Id>, modifiedIds: seq<Id> := [], [];
    var todo := other.Keys;
    while todo != {}
      invariant todo <= other.Keys
      invariant |addedIds| == |added| && Distinct(addedIds)
      invariant forall i :: 0 <= i < |added| ==> added[i].id == addedIds[i]
      invariant forall i :: 0 <= i < |added| ==> added[i].id in other && added[i].state == other[added[i].id]
      invariant forall id :: id in addedIds <==> id in other && id !in todo && id !in base
      invariant |modifiedIds| == |modified| && Distinct(modifiedIds)
      invariant forall i :: 0 <= i < |modified| ==> modified[i].id == modifiedIds[i]
      invariant forall i :: 0 <= i < |modified| ==> var m := modified[i];
        m.id in base && m.id in other && m.before == base[m.id] && m.after == other[m.id] && m.before != m.after
      invariant forall id :: id in modifiedIds <==> id in other && id !in todo && id in base && base[id] != other[id]
    {
      var id :| id in todo;
      todo := todo - {id};
      if id !in base {
        added := added + [Named(id, other[id])];
        addedIds := addedIds + [id];
      } else if base[id] != other[id] {
        modified := modified + [Modified(id, base[id], other[id])];
        modifiedIds := modifiedIds + [id];
      }
    }
    deleted := DroppedStates(base, other);
  }

  method DroppedStates<V>(base: map<Id, V>, other: map<Id, V>) returns (deleted: seq<Named<V>>)
    ensures forall i :: 0 <= i < |deleted| ==>
      deleted[i].id in base && deleted[i].id !in other && deleted[i].state == base[deleted[i].id]
    ensures forall id :: id in base && id !in other ==> exists i :: 0 <= i < |deleted| && deleted[i].id == id
    ensures forall i, j :: 0 <= i < j < |deleted| ==> deleted[i].id != deleted[j].id
  {
    deleted := [];
    ghost var ids: seq<Id> := [];
    var todo := base.Keys;
    while todo != {}
      invariant todo <= base.Keys
      invariant |ids| == |deleted| && Distinct(ids)
      invariant forall i :: 0 <= i < |deleted| ==> deleted[i].id == ids[i]
      invariant forall i :: 0 <= i < |deleted| ==> deleted[i].id in base && deleted[i].state == base[deleted[i].id]
      invariant forall id :: id in ids <==> id in base && id !in todo && id !in other
    {
      var id :| id in todo;
      todo := todo - {id};
      if id !in other {
        deleted := deleted + [Named(id, base[id])];
        ids := ids + [id];
      }
    }
  }

  /** The change request that turns `base` into `other`. */
  method DiffModels(base: Model, other: Model) returns (cr: ChangeRequest)
    ensures IsDiff(base, other, cr)
  {
    var ea, em, ed := DiffStates(base.elements, other.elements);
    var ra, rm, rd := DiffStates(base.relationships, other.relationships);
    cr := ChangeRequest(ea, em, ed, ra, rm, rd);
  }

  // ---- the compiler -----------------------------------------------------------------

  /** The merge patch turning `before` into `after`: null deletes a key. */
  function DiffToMergePatch(before: Props, after: Props): Props {
    map k | k in before.Keys + after.Keys && !(k in before && k in after && before[k] == after[k])
      :: GetOr(after, k, Null)
  }

  predicate IsRewire(m: ModifiedRelationship) {
    m.before.source != m.after.source || m.before.target != m.after.target || m.before.typeName != m.after.typeName
  }

  function Temp(n: nat): Id {
    TEMP_ID_PREFIX + Text.Decimal(n)
  }

  function CreateEls(added: seq<NamedElement>): seq<ModelOp> {
    if added == [] then [] else
    var n := |added|;
    var e := added[n - 1];
    CreateEls(added[..n - 1]) + [CreateElement(Temp(n), e.state.typeName, e.state.props, Some(e.id))]
  }

  /** Element id -> its temporary id. */
  function TempOf(added: seq<NamedElement>): map<Id, Id> {
    if added == [] then map[] else
    var n := |added|;
    TempOf(added[..n - 1])[added[n - 1].id := Temp(n)]
  }

  function CreateRel(id: Id, r: Relationship, n: nat, temps: map<Id, Id>): ModelOp {
    CreateRelationship(Temp(n), r.typeName, GetOr(temps, r.source, r.source), GetOr(temps, r.target, r.target),
      r.props, Some(id))
  }

  /** `n` ids were minted before these. */
  function CreateRels(added: seq<NamedRelationship>, n: nat, temps: map<Id, Id>): seq<ModelOp> {
    if added == [] then [] else
    var last := |added| - 1;
    CreateRels(added[..last], n, temps) + [CreateRel(added[last].id, added[last].state, n + |added|, temps)]
  }

  function UpdateEls(modified: seq<ModifiedElement>): seq<ModelOp> {
    if modified == [] then [] else
    var last := |modified| - 1;
    var m := modified[last];
    var patch := DiffToMergePatch(m.before.props, m.after.props);
    UpdateEls(modified[..last]) + if patch == map[] then [] else [UpdateElement(m.id, patch)]
  }

  function UpdateRels(modified: seq<ModifiedRelationship>): seq<ModelOp> {
    if modified == [] then [] else
    var last := |modified| - 1;
    var m := modified[last];
    var patch := DiffToMergePatch(m.before.props, m.after.props);
    UpdateRels(modified[..last]) + if IsRewire(m) || patch == map[] then [] else [UpdateRelationship(m.id, patch)]
  }

  function DeleteRels(deleted: seq<NamedRelationship>): seq<ModelOp> {
    if deleted == [] then [] else
    var last := |deleted| - 1;
    DeleteRels(deleted[..last]) + [DeleteRelationship(deleted[last].id)]
  }

  function Rewires(modified: seq<ModifiedRelationship>): seq<ModifiedRelationship> {
    if modified == [] then [] else
    var last := |modified| - 1;
    Rewires(modified[..last]) + if IsRewire(modified[last]) then [modified[last]] else []
  }

  function RewireOps(rewires: seq<ModifiedRelationship>, n: nat, temps: map<Id, Id>): seq<ModelOp> {
    if rewires == [] then [] else
    var last := |rewires| - 1;
    RewireOps(rewires[..last], n, temps)
    + [DeleteRelationship(rewires[last].id), CreateRel(rewires[last].id, rewires[last].after, n + |rewires|, temps)]
  }

  function DeleteEls(deleted: seq<NamedElement>): seq<ModelOp> {
    if deleted == [] then [] else
    var last := |deleted| - 1;
    DeleteEls(deleted[..last]) + [DeleteElement(deleted[last].id)]
  }

  predicate Retypes(m: ModifiedElement) {
    m.before.typeName != m.after.typeName
  }

  /** The batch in its phase order; None when some element changes type. */
  function Compile(cr: ChangeRequest): Option<seq<ModelOp>> {
    if exists i :: 0 <= i < |cr.elsModified| && Retypes(cr.elsModified[i]) then None else
    var temps := TempOf(cr.elsAdded);
    Some(
      CreateEls(cr.elsAdded)
      + CreateRels(cr.relsAdded, |cr.elsAdded|, temps)
      + UpdateEls(cr.elsModified)
      + UpdateRels(cr.relsModified)
      + DeleteRels(cr.relsDeleted)
      + RewireOps(Rewires(cr.relsModified), |cr.elsAdded| + |cr.relsAdded|, temps)
      + DeleteEls(cr.elsDeleted))
  }

  // ---- the compiler as it runs: a guard pass, then growing lists and one counter ----

  /** The retype guard and the element patches in one pass. */
  method ElementPatches(modified: seq<ModifiedElement>) returns (supported: bool, patches: seq<ModelOp>)
    ensures supported <==> forall i :: 0 <= i < |modified| ==> !Retypes(modified[i])
    ensures supported ==> patches == UpdateEls(modified)
  {
    patches := [];
    for i := 0 to |modified|
      invariant patches == UpdateEls(modified[..i])
      invariant forall j :: 0 <= j < i ==> !Retypes(modified[j])
    {
      var m := modified[i];
      if m.before.typeName != m.after.typeName {
        assert Retypes(m);
        return false, patches;
      }
      assert modified[..i + 1][..i] == modified[..i];
      var patch := DiffToMergePatch(m.before.props, m.after.props);
      if patch != map[] {
        patches := patches + [UpdateElement(m.id, patch)];
      }
    }
    assert modified[..|modified|] == modified;
    supported := true;
  }

  method ElementCreates(added: seq<NamedElement>) returns (ops: seq<ModelOp>, temps: map<Id, Id>, counter: nat)
    ensures ops == CreateEls(added) && temps == TempOf(added) && counter == |added|
  {
    ops, temps, counter := [], map[], 0;
    for i := 0 to |added|
      invariant counter == i && temps == TempOf(added[..i]) && ops == CreateEls(added[..i])
    {
      assert added[..i + 1][..i] == added[..i];
      counter := counter + 1;
      var e := added[i];
      temps := temps[e.id := Temp(counter)];
      ops := ops + [CreateElement(temps[e.id], e.state.typeName, e.state.props, Some(e.id))];
    }
    assert added[..|added|] == added;
  }

  method RelationshipCreates(added: seq<NamedRelationship>, temps: map<Id, Id>, start: nat)
    returns (ops: seq<ModelOp>, counter: nat)
    ensures ops == CreateRels(added, start, temps) && counter == start + |added|
  {
    ops, counter := [], start;
    for i := 0 to |added|
      invariant counter == start + i && ops == CreateRels(added[..i], start, temps)
    {
      assert added[..i + 1][..i] == added[..i];
      counter := counter + 1;
      ops := ops + [CreateRel(added[i].id, added[i].state, counter, temps)];
    }
    assert added[..|added|] == added;
  }

  method RelationshipPatches(modified: seq<ModifiedRelationship>)
    returns (ops: seq<ModelOp>, rewires: seq<ModifiedRelationship>)
    ensures ops == UpdateRels(modified) && rewires == Rewires(modified)
  {
    ops, rewires := [], [];
    for i := 0 to |modified|
      invariant ops == UpdateRels(modified[..i]) && rewires == Rewires(modified[..i])
    {
      assert modified[..i + 1][..i] == modified[..i];
      var m := modified[i];
      if IsRewire(m) {
        rewires := rewires + [m];
      } else {
        var patch := DiffToMergePatch(m.before.props, m.after.props);
        if patch != map[] {
          ops := ops + [UpdateRelationship(m.id, patch)];
        }
      }
    }
    assert modified[..|modified|] == modified;
  }

  method RewirePairs(rewires: seq<ModifiedRelationship>, temps: map<Id, Id>, start: nat) returns (ops: seq<ModelOp>)
    ensures ops == RewireOps(rewires, start, temps)
  {
    ops := [];
    var counter := start;
    for i := 0 to |rewires|
      invariant counter == start + i && ops == RewireOps(rewires[..i], start, temps)
    {
      assert rewires[..i + 1][..i] == rewires[..i];
      ops := ops + [DeleteRelationship(rewires[i].id)];
      counter := counter + 1;
      ops := ops + [CreateRel(rewires[i].id, rewires[i].after, counter, temps)];
    }
    assert rewires[..|rewires|] == rewires;
  }

  method Deletes(rels: seq<NamedRelationship>, els: seq<NamedElement>) returns (relOps: seq<ModelOp>, elOps: seq<ModelOp>)
    ensures relOps == DeleteRels(rels) && elOps == DeleteEls(els)
  {
    relOps, elOps := [], [];
    for i := 0 to |rels|
      invariant relOps == DeleteRels(rels[..i])
    {
      assert rels[..i + 1][..i] == rels[..i];
      relOps := relOps + [DeleteRelationship(rels[i].id)];
    }
    assert rels[..|rels|] == rels;
    for i := 0 to |els|
      invariant elOps == DeleteEls(els[..i])
    {
      assert els[..i + 1][..i] == els[..i];
      elOps := elOps + [DeleteElement(els[i].id)];
    }
    assert els[..|els|] == els;
  }

  method OpsForChange(cr: ChangeRequest) returns (r: Option<seq<ModelOp>>)
    ensures r == Compile(cr)
  {
    var supported, elPatches := ElementPatches(cr.elsModified);
    if !supported {
      return None;
    }
    var ops, temps, counter := ElementCreates(cr.elsAdded);
    var relCreates: seq<ModelOp>;
    relCreates, counter := RelationshipCreates(cr.relsAdded, temps, counter);
    var relPatches, rewires := RelationshipPatches(cr.relsModified);
    var relDeletes, elDeletes := Deletes(cr.relsDeleted, cr.elsDeleted);
    var rewireOps := RewirePairs(rewires, temps, counter);
    r := Some(ops + relCreates + elPatches + relPatches + relDeletes + rewireOps + elDeletes);
  }

  // ---- merge patches -------------------------------------------------------------------

  /** The after bag holds no null that the before bag did not hold already. */
  ghost predicate SetsNoNull(before: Props, after: Props) {
    forall k :: k in after && after[k] == Null ==> k in before && before[k] == Null
  }

  /** The patch is minimal, and applying it gives `after` exactly when no key it sets
      is to hold a null. */
  lemma PatchTurnsBeforeIntoAfter(before: Props, after: Props)
    ensures MergePatch(before, DiffToMergePatch(before, after)) == after
       <==> SetsNoNull(before, after)
    ensures DiffToMergePatch(before, after) == map[] <==> before == after
  {
    var patch := DiffToMergePatch(before, after);
    var got := MergePatch(before, patch);
    if k :| k in after && after[k] == Null && !(k in before && before[k] == Null) {
      assert patch[k] == Null && k !in got;
    } else {
      assert got.Keys == after.Keys;
    }
    if patch == map[] {
      assert forall k :: k in before.Keys + after.Keys ==> k !in patch;
      assert before.Keys == after.Keys;
    }
  }

  /** A patch resolved through a map of temporary ids still gives `after` exactly when
      resolution leaves the patch alone and the patch sets no null. */
  lemma ResolvedPatch(before: Props, after: Props, ids: map<Id, Id>)
    ensures var patch := DiffToMergePatch(before, after);
      MergePatch(before, ResolveProps(patch, ids)) == after <==> ResolveProps(patch, ids) == patch && SetsNoNull(before, after)
  {
    var patch := DiffToMergePatch(before, after);
    var resolved := ResolveProps(patch, ids);
    var got := MergePatch(before, resolved);
    PatchTurnsBeforeIntoAfter(before, after);
    if got == after {
      forall k | k in patch ensures resolved[k] == patch[k] {
        if k in after {
          assert k in got && got[k] == resolved[k];
        } else {
          assert patch[k] == Null;
        }
      }
    }
  }
}
