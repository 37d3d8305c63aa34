/** Running a compiled change request on its base: when it lands, what it lands, and
    exactly when that is the model the request describes. */
module CompilerCorrectness {
  import opened Collections
  import opened Json
  import opened Model
  import opened ModelOps
  import opened ChangeRequestOps
  import Text

  // ---- temporary ids ------------------------------------------------------------------

  /** The id map after one create per listed final id. */
  function MintedIds(finals: seq<Id>): map<Id, Id> {
    if finals == [] then map[] else
    MintedIds(finals[..|finals| - 1])[Temp(|finals|) := finals[|finals| - 1]]
  }

  ghost predicate Unreserved(ids: seq<Id>) {
    forall id :: id in ids ==> !IsReserved(id)
  }

  lemma TempsDiffer(i: nat, j: nat)
    requires Temp(i) == Temp(j)
    ensures i == j
  {
    assert Temp(i)[|TEMP_ID_PREFIX|..] == Text.Decimal(i);
    assert Temp(j)[|TEMP_ID_PREFIX|..] == Text.Decimal(j);
    Text.DecimalInjective(i, j);
  }

  lemma TempReserved(n: nat)
    ensures IsReserved(Temp(n))
  {
  }

  lemma {:induction false} MintedExactly(finals: seq<Id>)
    ensures forall t :: t in MintedIds(finals) <==> exists j: nat :: 1 <= j <= |finals| && t == Temp(j)
    ensures forall j: nat :: 1 <= j <= |finals| ==> Temp(j) in MintedIds(finals) && MintedIds(finals)[Temp(j)] == finals[j - 1]
  {
    if finals != [] {
      var front := finals[..|finals| - 1];
      MintedExactly(front);
      forall j: nat | 1 <= j <= |front| ensures Temp(j) != Temp(|finals|) {
        if Temp(j) == Temp(|finals|) {
          TempsDiffer(j, |finals|);
        }
      }
    }
  }

  lemma MintedMissesPlainIds(finals: seq<Id>, id: Id)
    requires !IsReserved(id)
    ensures id !in MintedIds(finals)
  {
    MintedExactly(finals);
  }

  lemma MintedNone()
    ensures MintedIds([]) == map[]
  {
  }

  lemma MintedSnoc(finals: seq<Id>, id: Id)
    ensures MintedIds(finals + [id]) == MintedIds(finals)[Temp(|finals| + 1) := id]
  {
    assert (finals + [id])[..|finals|] == finals;
  }

  /** No value of the bag mentions one of the first `n` temporary ids. */
  ghost predicate Clean(props: Props, n: nat) {
    forall k, j: nat :: k in props && 1 <= j <= n ==> !Mentions(props[k], Temp(j))
  }

  /** The map sends exactly the first `n` temporary ids somewhere else. */
  ghost predicate Moves(ids: map<Id, Id>, n: nat) {
    && (forall s :: s in ids && ids[s] != s ==> exists j: nat :: 1 <= j <= n && s == Temp(j))
    && (forall j: nat :: 1 <= j <= n ==> Temp(j) in ids && ids[Temp(j)] != Temp(j))
  }

  lemma MintedMoves(finals: seq<Id>)
    requires Unreserved(finals)
    ensures Moves(MintedIds(finals), |finals|)
  {
    hide MintedIds, Temp, IsReserved;
    var ids := MintedIds(finals);
    MintedExactly(finals);
    forall s | s in ids ensures ids[s] != s {
      var j: nat :| 1 <= j <= |finals| && s == Temp(j);
      assert finals[j - 1] in finals;
      TempReserved(j);
    }
  }

  lemma CleanIffUntouched(props: Props, finals: seq<Id>)
    requires Unreserved(finals)
    ensures ResolveProps(props, MintedIds(finals)) == props <==> Clean(props, |finals|)
  {
    hide IsReserved, Unreserved, MintedIds, Temp, ResolveProps, Moves;
    var ids := MintedIds(finals);
    MintedMoves(finals);
    forall k | k in props
      ensures ResolveValue(props[k], ids) == props[k]
         <==> forall j: nat :: 1 <= j <= |finals| ==> !Mentions(props[k], Temp(j))
    {
      UntouchedValue(props[k], ids, |finals|);
    }
    ResolvedIsSame(props, ids);
  }

  lemma UntouchedValue(v: Json, ids: map<Id, Id>, n: nat)
    requires Moves(ids, n)
    ensures ResolveValue(v, ids) == v <==> forall j: nat :: 1 <= j <= n ==> !Mentions(v, Temp(j))
  {
    hide Temp;
    ResolveValueFixed(v, ids);
    if forall j: nat :: 1 <= j <= n ==> !Mentions(v, Temp(j)) {
      forall s | s in ids && ids[s] != s ensures !Mentions(v, s) {
        var j: nat :| 1 <= j <= n && s == Temp(j);
      }
    } else {
      var j: nat :| 1 <= j <= n && Mentions(v, Temp(j));
      assert Temp(j) in ids;
    }
  }

  lemma ResolvedIsSame(props: Props, ids: map<Id, Id>)
    ensures ResolveProps(props, ids) == props <==> forall k :: k in props ==> ResolveValue(props[k], ids) == props[k]
  {
  }

  /** Every temporary reference names an id minted so far. */
  ghost predicate TempsFit(temps: map<Id, Id>, finals: seq<Id>) {
    forall x :: x in temps ==> exists j: nat :: 1 <= j <= |finals| && temps[x] == Temp(j) && finals[j - 1] == x
  }

  lemma ReferenceResolves(temps: map<Id, Id>, finals: seq<Id>, x: Id)
    requires TempsFit(temps, finals) && !IsReserved(x)
    ensures var t := GetOr(temps, x, x); GetOr(MintedIds(finals), t, t) == x
  {
    MintedExactly(finals);
    if x !in temps {
      MintedMissesPlainIds(finals, x);
    }
  }

  function ElementIds(added: seq<NamedElement>): (ids: seq<Id>)
    ensures |ids| == |added|
  {
    seq(|added|, i requires 0 <= i < |added| => added[i].id)
  }

  function RelationshipIds(added: seq<NamedRelationship>): (ids: seq<Id>)
    ensures |ids| == |added|
  {
    seq(|added|, i requires 0 <= i < |added| => added[i].id)
  }

  function RewireIds(rewires: seq<ModifiedRelationship>): (ids: seq<Id>)
    ensures |ids| == |rewires|
  {
    seq(|rewires|, i requires 0 <= i < |rewires| => rewires[i].id)
  }

  lemma {:induction false} TempOfFits(added: seq<NamedElement>)
    requires forall i, j :: 0 <= i < j < |added| ==> added[i].id != added[j].id
    ensures TempsFit(TempOf(added), ElementIds(added))
  {
    hide Temp, ElementIds, TempsFit;
    if added == [] {
      NoTempsFit();
    } else {
      var n := |added|;
      var front := added[..n - 1];
      TempOfFits(front);
      ElementIdsSnoc(added);
      OneMoreTempFits(TempOf(front), ElementIds(front), added[n - 1].id);
    }
  }

  lemma NoTempsFit()
    ensures TempsFit(map[], ElementIds([]))
  {
  }

  lemma OneMoreTempFits(temps: map<Id, Id>, finals: seq<Id>, id: Id)
    requires TempsFit(temps, finals)
    ensures TempsFit(temps[id := Temp(|finals| + 1)], finals + [id])
  {
    hide Temp;
    TempsFitLonger(temps, finals, [id]);
    assert (finals + [id])[|finals|] == id;
  }

  lemma TempsFitLonger(temps: map<Id, Id>, finals: seq<Id>, more: seq<Id>)
    requires TempsFit(temps, finals)
    ensures TempsFit(temps, finals + more)
  {
    forall x | x in temps
      ensures exists j: nat :: 1 <= j <= |finals + more| && temps[x] == Temp(j) && (finals + more)[j - 1] == x
    {
      var j: nat :| 1 <= j <= |finals| && temps[x] == Temp(j) && finals[j - 1] == x;
      assert (finals + more)[j - 1] == x;
    }
  }

  lemma UpdateOfSum<V>(a: map<Id, V>, b: map<Id, V>, id: Id, v: V)
    ensures (a + b)[id := v] == a + b[id := v]
  {
  }

  lemma SumWithNone<V>(a: map<Id, V>)
    ensures a + map[] == a
  {
  }

  // ---- where a batch stands -------------------------------------------------------------

  ghost predicate At(b: Batch, m: Model, finals: seq<Id>, deadEls: set<Id>, deadRels: set<Id>) {
    b.model == m && b.ids == MintedIds(finals) && b.deletedEls == deadEls && b.deletedRels == deadRels
  }

  ghost predicate EndsAt(o: Outcome, m: Model, finals: seq<Id>, deadEls: set<Id>, deadRels: set<Id>) {
    o.Done? && At(o.batch, m, finals, deadEls, deadRels)
  }

  // ---- phase 1: element creates -----------------------------------------------------------

  /** What the element creates put in the model: each bag resolved through the ids
      minted before it. */
  function Landed(added: seq<NamedElement>): map<Id, Element> {
    if added == [] then map[] else
    var front := added[..|added| - 1];
    var e := added[|added| - 1];
    Landed(front)[e.id := Element(e.state.typeName, ResolveProps(e.state.props, MintedIds(ElementIds(front))))]
  }

  ghost predicate CanCreate(mm: Metamodel, m: Model, e: NamedElement) {
    && !IsReserved(e.id) && e.id !in m.elements
    && mm.Instantiable(e.state.typeName) && e.state.props.Keys <= mm.ElementProperties(e.state.typeName)
  }

  lemma LandElement(mm: Metamodel, mint: Mint, b: Batch, m: Model, finals: seq<Id>, e: NamedElement)
    requires At(b, m, finals, {}, {}) && CanCreate(mm, m, e)
    ensures var op := CreateElement(Temp(|finals| + 1), e.state.typeName, e.state.props, Some(e.id));
      var o := ApplyOp(mm, mint, b, op, false);
      var el := Element(e.state.typeName, ResolveProps(e.state.props, MintedIds(finals)));
      && (o.Done? <==> e.id !in m.relationships)
      && (o.Done? ==> EndsAt(o, Model(m.elements[e.id := el], m.relationships), finals + [e.id], {}, {}))
  {
    MintedSnoc(finals, e.id);
    TempReserved(|finals| + 1);
    hide MintedIds, Temp, ResolveProps, IsReserved, ApplyOp;
    CreateElementHinted(mm, mint, b, Temp(|finals| + 1), e.state, e.id);
  }

  ghost predicate Creatable(mm: Metamodel, m: Model, added: seq<NamedElement>) {
    && (forall i :: 0 <= i < |added| ==> CanCreate(mm, m, added[i]))
    && (forall i, j :: 0 <= i < j < |added| ==> added[i].id != added[j].id)
  }

  lemma ElementIdsSnoc(added: seq<NamedElement>)
    requires added != []
    ensures var front, last := added[..|added| - 1], added[|added| - 1].id;
      ElementIds(added) == ElementIds(front) + [last] && SetOf(ElementIds(added)) == SetOf(ElementIds(front)) + {last}
  {
    assert ElementIds(added) == ElementIds(added[..|added| - 1]) + [added[|added| - 1].id];
  }

  lemma {:induction false} LandedKeys(added: seq<NamedElement>)
    ensures Landed(added).Keys == SetOf(ElementIds(added))
  {
    if added != [] {
      LandedKeys(added[..|added| - 1]);
      ElementIdsSnoc(added);
    }
  }

  lemma CreatableStep(mm: Metamodel, m: Model, added: seq<NamedElement>)
    requires added != [] && Creatable(mm, m, added)
    ensures var front := added[..|added| - 1];
      && Creatable(mm, m, front)
      && CanCreate(mm, Model(m.elements + Landed(front), m.relationships), added[|added| - 1])
  {
    hide Landed, IsReserved, CanCreate, ElementIds;
    var n := |added| - 1;
    LandedKeys(added[..n]);
    LastIsNew(added);
    StillCreatable(mm, m, Landed(added[..n]), added[n]);
  }

  lemma LastIsNew(added: seq<NamedElement>)
    requires added != [] && forall i, j :: 0 <= i < j < |added| ==> added[i].id != added[j].id
    ensures added[|added| - 1].id !in SetOf(ElementIds(added[..|added| - 1]))
  {
  }

  lemma StillCreatable(mm: Metamodel, m: Model, more: map<Id, Element>, e: NamedElement)
    requires CanCreate(mm, m, e) && e.id !in more
    ensures CanCreate(mm, Model(m.elements + more, m.relationships), e)
  {
    hide IsReserved;
  }

  /** The element creates all land unless one wants the id of a relationship. */
  lemma {:induction false} LandElements(mm: Metamodel, mint: Mint, base: Model, added: seq<NamedElement>)
    requires Creatable(mm, base, added)
    ensures var o := ApplyAll(mm, mint, StartBatch(base), CreateEls(added), false);
      && (o.Done? <==> SetOf(ElementIds(added)) !! base.relationships.Keys)
      && (o.Done? ==> EndsAt(o, Model(base.elements + Landed(added), base.relationships), ElementIds(added), {}, {}))
  {
    hide ApplyOp, MintedIds, ResolveProps, Creatable, CanCreate, Temp;
    if added == [] {
      SumWithNone(base.elements);
      MintedNone();
      assert ElementIds(added) == [];
    } else {
      var n := |added|;
      var front, e := added[..n - 1], added[n - 1];
      CreatableStep(mm, base, added);
      LandElements(mm, mint, base, front);
      ElementIdsSnoc(added);
      var op := CreateElement(Temp(n), e.state.typeName, e.state.props, Some(e.id));
      ApplyAllConcat(mm, mint, StartBatch(base), CreateEls(front), [op], false);
      var first := ApplyAll(mm, mint, StartBatch(base), CreateEls(front), false);
      if first.Done? {
        var m := Model(base.elements + Landed(front), base.relationships);
        ApplySingle(mm, mint, first.batch, op, false);
        LandElement(mm, mint, first.batch, m, ElementIds(front), e);
        var el := Element(e.state.typeName, ResolveProps(e.state.props, MintedIds(ElementIds(front))));
        UpdateOfSum(base.elements, Landed(front), e.id, el);
      }
    }
  }

  // ---- phase 2: relationship creates ---------------------------------------------------------

  function LandedRels(added: seq<NamedRelationship>, finals: seq<Id>): map<Id, Relationship> {
    if added == [] then map[] else
    var front := added[..|added| - 1];
    var r := added[|added| - 1];
    LandedRels(front, finals)[r.id :=
      r.state.(props := ResolveProps(r.state.props, MintedIds(finals + RelationshipIds(front))))]
  }

  ghost predicate CanConnect(mm: Metamodel, m: Model, id: Id, r: Relationship) {
    && !IsReserved(id) && id !in m.relationships
    && !IsReserved(r.source) && !IsReserved(r.target)
    && r.source in m.elements && r.target in m.elements
    && r.typeName in mm.relationshipTypes && r.props.Keys <= mm.RelationshipProperties(r.typeName)
  }

  lemma LandRelationship(mm: Metamodel, mint: Mint, b: Batch, m: Model, finals: seq<Id>, temps: map<Id, Id>,
      id: Id, r: Relationship, deadEls: set<Id>, deadRels: set<Id>)
    requires At(b, m, finals, deadEls, deadRels) && CanConnect(mm, m, id, r) && TempsFit(temps, finals)
    ensures var o := ApplyOp(mm, mint, b, CreateRel(id, r, |finals| + 1, temps), false);
      var landed := r.(props := ResolveProps(r.props, MintedIds(finals)));
      && (o.Done? <==> id !in m.elements)
      && (o.Done? ==> EndsAt(o, Model(m.elements, m.relationships[id := landed]), finals + [id], deadEls, deadRels - {id}))
  {
    ReferenceResolves(temps, finals, r.source);
    ReferenceResolves(temps, finals, r.target);
    MintedSnoc(finals, id);
    TempReserved(|finals| + 1);
    hide MintedIds, Temp, ResolveProps, IsReserved, TempsFit, ApplyOp;
    CreateRelationshipHinted(mm, mint, b, Temp(|finals| + 1),
      GetOr(temps, r.source, r.source), GetOr(temps, r.target, r.target), r, id);
  }

  ghost predicate Connectable(mm: Metamodel, m: Model, added: seq<NamedRelationship>) {
    && (forall i :: 0 <= i < |added| ==> CanConnect(mm, m, added[i].id, added[i].state))
    && (forall i, j :: 0 <= i < j < |added| ==> added[i].id != added[j].id)
  }

  lemma RelationshipIdsSnoc(added: seq<NamedRelationship>)
    requires added != []
    ensures var front, last := added[..|added| - 1], added[|added| - 1].id;
      RelationshipIds(added) == RelationshipIds(front) + [last]
      && SetOf(RelationshipIds(added)) == SetOf(RelationshipIds(front)) + {last}
  {
    assert RelationshipIds(added) == RelationshipIds(added[..|added| - 1]) + [added[|added| - 1].id];
  }

  lemma NoRelationshipIds(finals: seq<Id>)
    ensures finals + RelationshipIds([]) == finals && SetOf(RelationshipIds([])) == {}
  {
  }

  lemma {:induction false} LandedRelsKeys(added: seq<NamedRelationship>, finals: seq<Id>)
    ensures LandedRels(added, finals).Keys == SetOf(RelationshipIds(added))
  {
    if added != [] {
      LandedRelsKeys(added[..|added| - 1], finals);
      RelationshipIdsSnoc(added);
    }
  }

  lemma ConnectableStep(mm: Metamodel, m: Model, added: seq<NamedRelationship>, finals: seq<Id>)
    requires added != [] && Connectable(mm, m, added)
    ensures var front, r := added[..|added| - 1], added[|added| - 1];
      && Connectable(mm, m, front)
      && CanConnect(mm, Model(m.elements, m.relationships + LandedRels(front, finals)), r.id, r.state)
  {
    var front, r := added[..|added| - 1], added[|added| - 1];
    LandedRelsKeys(front, finals);
    assert r.id !in LandedRels(front, finals) by {
      assert forall id :: id in RelationshipIds(front) ==> exists i :: 0 <= i < |front| && added[i].id == id;
    }
    hide LandedRels, IsReserved, RelationshipIds;
  }

  /** The relationship creates all land unless one wants the id of an element. */
  lemma {:induction false} LandRelationships(mm: Metamodel, mint: Mint, b: Batch, m: Model, finals: seq<Id>, temps: map<Id, Id>,
      added: seq<NamedRelationship>)
    requires At(b, m, finals, {}, {}) && TempsFit(temps, finals) && Connectable(mm, m, added)
    ensures var o := ApplyAll(mm, mint, b, CreateRels(added, |finals|, temps), false);
      && (o.Done? <==> SetOf(RelationshipIds(added)) !! m.elements.Keys)
      && (o.Done? ==> EndsAt(o, Model(m.elements, m.relationships + LandedRels(added, finals)),
                        finals + RelationshipIds(added), {}, {}))
  {
    hide ApplyOp, MintedIds, ResolveProps, TempsFit, CreateRel, Connectable, CanConnect, RelationshipIds;
    if added == [] {
      SumWithNone(m.relationships);
      NoRelationshipIds(finals);
    } else {
      var n := |added|;
      var front, r := added[..n - 1], added[n - 1];
      ConnectableStep(mm, m, added, finals);
      LandRelationships(mm, mint, b, m, finals, temps, front);
      RelationshipIdsSnoc(added);
      var op := CreateRel(r.id, r.state, |finals| + n, temps);
      ApplyAllConcat(mm, mint, b, CreateRels(front, |finals|, temps), [op], false);
      var first := ApplyAll(mm, mint, b, CreateRels(front, |finals|, temps), false);
      if first.Done? {
        var now := finals + RelationshipIds(front);
        var mid := Model(m.elements, m.relationships + LandedRels(front, finals));
        TempsFitLonger(temps, finals, RelationshipIds(front));
        ApplySingle(mm, mint, first.batch, op, false);
        LandRelationship(mm, mint, first.batch, mid, now, temps, r.id, r.state, {}, {});
        assert now + [r.id] == finals + RelationshipIds(added);
        var landed := r.state.(props := ResolveProps(r.state.props, MintedIds(now)));
        UpdateOfSum(m.relationships, LandedRels(front, finals), r.id, landed);
      }
    }
  }

  // ---- phases 3 and 4: updates ------------------------------------------------------------------

  function PatchedBag(before: Props, after: Props, finals: seq<Id>): Props {
    MergePatch(before, ResolveProps(DiffToMergePatch(before, after), MintedIds(finals)))
  }

  function PatchedEls(modified: seq<ModifiedElement>, finals: seq<Id>): map<Id, Element> {
    if modified == [] then map[] else
    var m := modified[|modified| - 1];
    PatchedEls(modified[..|modified| - 1], finals)[m.id :=
      m.before.(props := PatchedBag(m.before.props, m.after.props, finals))]
  }

  function PatchedRels(modified: seq<ModifiedRelationship>, finals: seq<Id>): map<Id, Relationship> {
    if modified == [] then map[] else
    var m := modified[|modified| - 1];
    var front := PatchedRels(modified[..|modified| - 1], finals);
    if IsRewire(m) then front else front[m.id := m.before.(props := PatchedBag(m.before.props, m.after.props, finals))]
  }

  ghost predicate CanPatch(names: set<string>, before: Props, after: Props) {
    DiffToMergePatch(before, after).Keys <= names
  }

  lemma EmptyPatchIsNothing(before: Props, after: Props, finals: seq<Id>)
    requires DiffToMergePatch(before, after) == map[]
    ensures PatchedBag(before, after, finals) == before
  {
  }

  lemma PatchElement(mm: Metamodel, mint: Mint, b: Batch, m: Model, finals: seq<Id>, x: ModifiedElement)
    requires At(b, m, finals, {}, {}) && CanPatchElement(mm, m, x)
    ensures var op := UpdateElement(x.id, DiffToMergePatch(x.before.props, x.after.props));
      var el := x.before.(props := PatchedBag(x.before.props, x.after.props, finals));
      EndsAt(ApplyOp(mm, mint, b, op, false), Model(m.elements[x.id := el], m.relationships), finals, {}, {})
  {
    MintedMissesPlainIds(finals, x.id);
    hide MintedIds, MergePatch;
  }

  ghost predicate CanPatchElement(mm: Metamodel, m: Model, x: ModifiedElement) {
    && !IsReserved(x.id) && x.id in m.elements && m.elements[x.id] == x.before
    && CanPatch(mm.ElementProperties(x.before.typeName), x.before.props, x.after.props)
  }

  ghost predicate PatchableEls(mm: Metamodel, m: Model, modified: seq<ModifiedElement>) {
    && (forall i :: 0 <= i < |modified| ==> CanPatchElement(mm, m, modified[i]))
    && (forall i, j :: 0 <= i < j < |modified| ==> modified[i].id != modified[j].id)
  }

  lemma {:induction false} PatchedElsKeys(modified: seq<ModifiedElement>, finals: seq<Id>)
    ensures forall id :: id in PatchedEls(modified, finals) <==> exists i :: 0 <= i < |modified| && modified[i].id == id
  {
    hide PatchedBag;
    if modified != [] {
      var last := |modified| - 1;
      PatchedElsKeys(modified[..last], finals);
      assert forall i :: 0 <= i < last ==> modified[..last][i] == modified[i];
      assert modified[last].id in PatchedEls(modified, finals);
    }
  }

  lemma PatchableElsStep(mm: Metamodel, m: Model, modified: seq<ModifiedElement>, finals: seq<Id>)
    requires modified != [] && PatchableEls(mm, m, modified)
    ensures var front := modified[..|modified| - 1];
      && PatchableEls(mm, m, front)
      && CanPatchElement(mm, Model(m.elements + PatchedEls(front, finals), m.relationships), modified[|modified| - 1])
  {
    var front := modified[..|modified| - 1];
    PatchedElsKeys(front, finals);
    hide PatchedEls, IsReserved, CanPatch;
    assert forall i :: 0 <= i < |front| ==> front[i] == modified[i];
  }

  lemma {:induction false} PatchElements(mm: Metamodel, mint: Mint, b: Batch, m: Model, finals: seq<Id>, modified: seq<ModifiedElement>)
    requires At(b, m, finals, {}, {}) && PatchableEls(mm, m, modified)
    ensures EndsAt(ApplyAll(mm, mint, b, UpdateEls(modified), false),
      Model(m.elements + PatchedEls(modified, finals), m.relationships), finals, {}, {})
  {
    hide ApplyOp, PatchedBag, MintedIds, DiffToMergePatch, PatchableEls, CanPatchElement;
    if modified == [] {
      SumWithNone(m.elements);
    } else {
      var front, x := modified[..|modified| - 1], modified[|modified| - 1];
      PatchableElsStep(mm, m, modified, finals);
      PatchElements(mm, mint, b, m, finals, front);
      var patch := DiffToMergePatch(x.before.props, x.after.props);
      var mid := Model(m.elements + PatchedEls(front, finals), m.relationships);
      var el := x.before.(props := PatchedBag(x.before.props, x.after.props, finals));
      UpdateOfSum(m.elements, PatchedEls(front, finals), x.id, el);
      if patch == map[] {
        assert UpdateEls(modified) == UpdateEls(front);
        assert mid.elements[x.id := el] == mid.elements by {
          ElementAtHand(mm, mid, x);
          EmptyPatchIsNothing(x.before.props, x.after.props, finals);
        }
      } else {
        var op := UpdateElement(x.id, patch);
        ApplyAllConcat(mm, mint, b, UpdateEls(front), [op], false);
        var first := ApplyAll(mm, mint, b, UpdateEls(front), false);
        ApplySingle(mm, mint, first.batch, op, false);
        PatchElement(mm, mint, first.batch, mid, finals, x);
      }
    }
  }

  lemma ElementAtHand(mm: Metamodel, m: Model, x: ModifiedElement)
    requires CanPatchElement(mm, m, x)
    ensures x.id in m.elements && m.elements[x.id] == x.before
  {
  }

  lemma PatchRelationship(mm: Metamodel, mint: Mint, b: Batch, m: Model, finals: seq<Id>, x: ModifiedRelationship)
    requires At(b, m, finals, {}, {}) && CanPatchRelationship(mm, m, x) && !IsRewire(x)
    ensures var op := UpdateRelationship(x.id, DiffToMergePatch(x.before.props, x.after.props));
      var rel := x.before.(props := PatchedBag(x.before.props, x.after.props, finals));
      EndsAt(ApplyOp(mm, mint, b, op, false), Model(m.elements, m.relationships[x.id := rel]), finals, {}, {})
  {
    MintedMissesPlainIds(finals, x.id);
    hide MintedIds, MergePatch;
  }

  ghost predicate CanPatchRelationship(mm: Metamodel, m: Model, x: ModifiedRelationship) {
    && !IsReserved(x.id) && x.id in m.relationships && m.relationships[x.id] == x.before
    && (!IsRewire(x) ==> CanPatch(mm.RelationshipProperties(x.before.typeName), x.before.props, x.after.props))
  }

  ghost predicate PatchableRels(mm: Metamodel, m: Model, modified: seq<ModifiedRelationship>) {
    && (forall i :: 0 <= i < |modified| ==> CanPatchRelationship(mm, m, modified[i]))
    && (forall i, j :: 0 <= i < j < |modified| ==> modified[i].id != modified[j].id)
  }

  lemma {:induction false} PatchedRelsKeys(modified: seq<ModifiedRelationship>, finals: seq<Id>)
    ensures forall id :: id in PatchedRels(modified, finals) <==>
      (exists i :: 0 <= i < |modified| && modified[i].id == id && !IsRewire(modified[i]))
  {
    hide PatchedBag, IsRewire;
    if modified != [] {
      var last := |modified| - 1;
      PatchedRelsKeys(modified[..last], finals);
      assert forall i :: 0 <= i < last ==> modified[..last][i] == modified[i];
      assert !IsRewire(modified[last]) ==> modified[last].id in PatchedRels(modified, finals);
    }
  }

  lemma PatchableRelsStep(mm: Metamodel, m: Model, modified: seq<ModifiedRelationship>, finals: seq<Id>)
    requires modified != [] && PatchableRels(mm, m, modified)
    ensures var front := modified[..|modified| - 1];
      && PatchableRels(mm, m, front)
      && CanPatchRelationship(mm, Model(m.elements, m.relationships + PatchedRels(front, finals)), modified[|modified| - 1])
  {
    var front := modified[..|modified| - 1];
    PatchedRelsKeys(front, finals);
    hide PatchedRels, IsReserved, CanPatch, IsRewire;
    assert forall i :: 0 <= i < |front| ==> front[i] == modified[i];
  }

  lemma {:induction false} PatchRelationships(mm: Metamodel, mint: Mint, b: Batch, m: Model, finals: seq<Id>, modified: seq<ModifiedRelationship>)
    requires At(b, m, finals, {}, {}) && PatchableRels(mm, m, modified)
    ensures EndsAt(ApplyAll(mm, mint, b, UpdateRels(modified), false),
      Model(m.elements, m.relationships + PatchedRels(modified, finals)), finals, {}, {})
  {
    hide ApplyOp, PatchedBag, MintedIds, DiffToMergePatch, PatchableRels, CanPatchRelationship, IsRewire;
    if modified == [] {
      SumWithNone(m.relationships);
    } else {
      var front, x := modified[..|modified| - 1], modified[|modified| - 1];
      PatchableRelsStep(mm, m, modified, finals);
      PatchRelationships(mm, mint, b, m, finals, front);
      if !IsRewire(x) {
        var patch := DiffToMergePatch(x.before.props, x.after.props);
        var mid := Model(m.elements, m.relationships + PatchedRels(front, finals));
        var rel := x.before.(props := PatchedBag(x.before.props, x.after.props, finals));
        UpdateOfSum(m.relationships, PatchedRels(front, finals), x.id, rel);
        if patch == map[] {
          assert UpdateRels(modified) == UpdateRels(front);
          assert mid.relationships[x.id := rel] == mid.relationships by {
            RelationshipAtHand(mm, mid, x);
            EmptyPatchIsNothing(x.before.props, x.after.props, finals);
          }
        } else {
          var op := UpdateRelationship(x.id, patch);
          ApplyAllConcat(mm, mint, b, UpdateRels(front), [op], false);
          var first := ApplyAll(mm, mint, b, UpdateRels(front), false);
          ApplySingle(mm, mint, first.batch, op, false);
          PatchRelationship(mm, mint, first.batch, mid, finals, x);
        }
      }
    }
  }

  lemma RelationshipAtHand(mm: Metamodel, m: Model, x: ModifiedRelationship)
    requires CanPatchRelationship(mm, m, x)
    ensures x.id in m.relationships && m.relationships[x.id] == x.before
  {
  }

  // ---- phase 5: relationship deletes, then rewires --------------------------------------------------

  lemma {:induction false} DropRelationships(mm: Metamodel, mint: Mint, b: Batch, m: Model, finals: seq<Id>, deleted: seq<NamedRelationship>)
    requires At(b, m, finals, {}, {})
    requires forall i :: 0 <= i < |deleted| ==> !IsReserved(deleted[i].id) && deleted[i].id in m.relationships
    requires forall i, j :: 0 <= i < j < |deleted| ==> deleted[i].id != deleted[j].id
    ensures var ids := SetOf(RelationshipIds(deleted));
      EndsAt(ApplyAll(mm, mint, b, DeleteRels(deleted), false), Model(m.elements, m.relationships - ids), finals, {}, ids)
  {
    if deleted == [] {
      assert m.relationships - SetOf(RelationshipIds(deleted)) == m.relationships;
    } else {
      var front, r := deleted[..|deleted| - 1], deleted[|deleted| - 1];
      DropRelationships(mm, mint, b, m, finals, front);
      var op := DeleteRelationship(r.id);
      ApplyAllConcat(mm, mint, b, DeleteRels(front), [op], false);
      var first := ApplyAll(mm, mint, b, DeleteRels(front), false);
      ApplySingle(mm, mint, first.batch, op, false);
      MintedMissesPlainIds(finals, r.id);
      var ids := SetOf(RelationshipIds(front));
      assert RelationshipIds(deleted) == RelationshipIds(front) + [r.id];
      assert SetOf(RelationshipIds(deleted)) == ids + {r.id};
      assert m.relationships - ids - {r.id} == m.relationships - (ids + {r.id});
      assert r.id in (m.relationships - ids);
    }
  }

  function RewiredRels(rewires: seq<ModifiedRelationship>, finals: seq<Id>): map<Id, Relationship> {
    if rewires == [] then map[] else
    var front := rewires[..|rewires| - 1];
    var x := rewires[|rewires| - 1];
    RewiredRels(front, finals)[x.id :=
      x.after.(props := ResolveProps(x.after.props, MintedIds(finals + RewireIds(front))))]
  }

  ghost predicate CanRewire(mm: Metamodel, m: Model, x: ModifiedRelationship, dead: set<Id>) {
    && x.id in m.relationships && x.id !in m.elements && x.id !in dead
    && CanConnect(mm, Model(m.elements, m.relationships - {x.id}), x.id, x.after)
  }

  ghost predicate Rewirable(mm: Metamodel, m: Model, rewires: seq<ModifiedRelationship>, dead: set<Id>) {
    && (forall i :: 0 <= i < |rewires| ==> CanRewire(mm, m, rewires[i], dead))
    && (forall i, j :: 0 <= i < j < |rewires| ==> rewires[i].id != rewires[j].id)
  }

  lemma RewireOne(mm: Metamodel, mint: Mint, b: Batch, m: Model, finals: seq<Id>, temps: map<Id, Id>, x: ModifiedRelationship, dead: set<Id>)
    requires At(b, m, finals, {}, dead) && TempsFit(temps, finals) && CanRewire(mm, m, x, dead)
    ensures var ops := [DeleteRelationship(x.id), CreateRel(x.id, x.after, |finals| + 1, temps)];
      var landed := x.after.(props := ResolveProps(x.after.props, MintedIds(finals)));
      EndsAt(ApplyAll(mm, mint, b, ops, false), Model(m.elements, m.relationships[x.id := landed]), finals + [x.id], {}, dead)
  {
    var d, c := DeleteRelationship(x.id), CreateRel(x.id, x.after, |finals| + 1, temps);
    var gone := Model(m.elements, m.relationships - {x.id});
    MintedMissesPlainIds(finals, x.id);
    ApplyAllConcat(mm, mint, b, [d], [c], false);
    ApplySingle(mm, mint, b, d, false);
    var first := ApplyOp(mm, mint, b, d, false);
    assert EndsAt(first, gone, finals, {}, dead + {x.id});
    hide ApplyOp, MintedIds, CreateRel;
    ApplySingle(mm, mint, first.batch, c, false);
    LandRelationship(mm, mint, first.batch, gone, finals, temps, x.id, x.after, {}, dead + {x.id});
    var landed := x.after.(props := ResolveProps(x.after.props, MintedIds(finals)));
    assert gone.relationships[x.id := landed] == m.relationships[x.id := landed];
    assert dead + {x.id} - {x.id} == dead;
    assert [d] + [c] == [d, c];
  }

  lemma RewireIdsSnoc(rewires: seq<ModifiedRelationship>)
    requires rewires != []
    ensures var front, last := rewires[..|rewires| - 1], rewires[|rewires| - 1].id;
      RewireIds(rewires) == RewireIds(front) + [last] && SetOf(RewireIds(rewires)) == SetOf(RewireIds(front)) + {last}
  {
    assert RewireIds(rewires) == RewireIds(rewires[..|rewires| - 1]) + [rewires[|rewires| - 1].id];
  }

  lemma {:induction false} RewiredRelsKeys(rewires: seq<ModifiedRelationship>, finals: seq<Id>)
    ensures RewiredRels(rewires, finals).Keys == SetOf(RewireIds(rewires))
  {
    if rewires != [] {
      RewiredRelsKeys(rewires[..|rewires| - 1], finals);
      RewireIdsSnoc(rewires);
    }
  }

  lemma RewirableStep(mm: Metamodel, m: Model, rewires: seq<ModifiedRelationship>, finals: seq<Id>, dead: set<Id>)
    requires rewires != [] && Rewirable(mm, m, rewires, dead)
    ensures var front, x := rewires[..|rewires| - 1], rewires[|rewires| - 1];
      && Rewirable(mm, m, front, dead)
      && CanRewire(mm, Model(m.elements, m.relationships + RewiredRels(front, finals)), x, dead)
  {
    hide RewiredRels, IsReserved;
  }

  lemma {:induction false} RewireAll(mm: Metamodel, mint: Mint, b: Batch, m: Model, finals: seq<Id>, temps: map<Id, Id>,
      rewires: seq<ModifiedRelationship>, dead: set<Id>)
    requires At(b, m, finals, {}, dead) && TempsFit(temps, finals) && Rewirable(mm, m, rewires, dead)
    ensures EndsAt(ApplyAll(mm, mint, b, RewireOps(rewires, |finals|, temps), false),
      Model(m.elements, m.relationships + RewiredRels(rewires, finals)), finals + RewireIds(rewires), {}, dead)
  {
    hide ApplyOp, MintedIds, ResolveProps, TempsFit, Rewirable, CanRewire, CreateRel;
    if rewires == [] {
      SumWithNone(m.relationships);
      assert finals + RewireIds([]) == finals;
    } else {
      var front, x := rewires[..|rewires| - 1], rewires[|rewires| - 1];
      RewirableStep(mm, m, rewires, finals, dead);
      RewireAll(mm, mint, b, m, finals, temps, front, dead);
      RewireIdsSnoc(rewires);
      var now := finals + RewireIds(front);
      var mid := Model(m.elements, m.relationships + RewiredRels(front, finals));
      var ops := [DeleteRelationship(x.id), CreateRel(x.id, x.after, |finals| + |rewires|, temps)];
      ApplyAllConcat(mm, mint, b, RewireOps(front, |finals|, temps), ops, false);
      var first := ApplyAll(mm, mint, b, RewireOps(front, |finals|, temps), false);
      TempsFitLonger(temps, finals, RewireIds(front));
      RewireOne(mm, mint, first.batch, mid, now, temps, x, dead);
      assert now + [x.id] == finals + RewireIds(rewires);
      var landed := x.after.(props := ResolveProps(x.after.props, MintedIds(now)));
      UpdateOfSum(m.relationships, RewiredRels(front, finals), x.id, landed);
    }
  }

  // ---- phase 6: element deletes -------------------------------------------------------------------------

  /** With no relationship left on them, the deleted elements take nothing along. */
  lemma {:induction false} DropElements(mm: Metamodel, mint: Mint, b: Batch, m: Model, finals: seq<Id>,
      deleted: seq<NamedElement>, dead: set<Id>)
    requires At(b, m, finals, {}, dead)
    requires forall i :: 0 <= i < |deleted| ==>
      !IsReserved(deleted[i].id) && deleted[i].id in m.elements && IncidentIds(m, {deleted[i].id}) == {}
    requires forall i, j :: 0 <= i < j < |deleted| ==> deleted[i].id != deleted[j].id
    ensures var ids := SetOf(ElementIds(deleted));
      EndsAt(ApplyAll(mm, mint, b, DeleteEls(deleted), false), Model(m.elements - ids, m.relationships), finals, ids, dead)
  {
    hide MintedIds, ApplyDeleteElement;
    if deleted == [] {
      assert m.elements - SetOf(ElementIds(deleted)) == m.elements;
    } else {
      var front, e := deleted[..|deleted| - 1], deleted[|deleted| - 1];
      DropElements(mm, mint, b, m, finals, front, dead);
      var op := DeleteElement(e.id);
      ApplyAllConcat(mm, mint, b, DeleteEls(front), [op], false);
      var first := ApplyAll(mm, mint, b, DeleteEls(front), false);
      ApplySingle(mm, mint, first.batch, op, false);
      MintedMissesPlainIds(finals, e.id);
      var ids := SetOf(ElementIds(front));
      assert ElementIds(deleted) == ElementIds(front) + [e.id];
      assert SetOf(ElementIds(deleted)) == ids + {e.id};
      assert m.elements - ids - {e.id} == m.elements - (ids + {e.id});
      assert IncidentIds(first.batch.model, {e.id}) == IncidentIds(m, {e.id});
      assert e.id in first.batch.model.elements;
      DeleteLonely(mm, first.batch, e.id);
    }
  }

  // ---- the whole batch ------------------------------------------------------------------------------------

  /** What the request writes conforms to the metamodel. */
  ghost predicate FitsElements(mm: Metamodel, cr: ChangeRequest) {
    && (forall i :: 0 <= i < |cr.elsAdded| ==> FitsElement(mm, cr.elsAdded[i].state))
    && (forall i :: 0 <= i < |cr.elsModified| ==>
         var x := cr.elsModified[i]; CanPatch(mm.ElementProperties(x.before.typeName), x.before.props, x.after.props))
  }

  ghost predicate FitsRelationships(mm: Metamodel, cr: ChangeRequest) {
    && (forall i :: 0 <= i < |cr.relsAdded| ==> FitsRelationship(mm, cr.relsAdded[i].state))
    && (forall i :: 0 <= i < |cr.relsModified| ==>
         var x := cr.relsModified[i];
         if IsRewire(x) then FitsRelationship(mm, x.after)
         else CanPatch(mm.RelationshipProperties(x.before.typeName), x.before.props, x.after.props))
  }

  ghost predicate Fits(mm: Metamodel, cr: ChangeRequest) {
    FitsElements(mm, cr) && FitsRelationships(mm, cr)
  }

  /** A request between two models, no element changing type, that fits the metamodel. */
  ghost predicate Setting(mm: Metamodel, base: Model, other: Model, cr: ChangeRequest) {
    && Intact(base) && Intact(other) && IsDiff(base, other, cr) && Fits(mm, cr)
    && (forall id :: id in base.elements && id in other.elements ==>
         base.elements[id].typeName == other.elements[id].typeName)
  }

  /** No id names an element on one side and a relationship on the other. */
  ghost predicate NoKindClash(base: Model, other: Model) {
    base.relationships.Keys !! other.elements.Keys && base.elements.Keys !! other.relationships.Keys
  }

  lemma {:induction false} RewiresExactly(modified: seq<ModifiedRelationship>)
    requires forall i, j :: 0 <= i < j < |modified| ==> modified[i].id != modified[j].id
    ensures forall i :: 0 <= i < |Rewires(modified)| ==> IsRewire(Rewires(modified)[i]) && Rewires(modified)[i] in modified
    ensures forall i :: 0 <= i < |modified| && IsRewire(modified[i]) ==> modified[i] in Rewires(modified)
    ensures forall i, j :: 0 <= i < j < |Rewires(modified)| ==> Rewires(modified)[i].id != Rewires(modified)[j].id
  {
    hide IsRewire, Rewires;
    if modified != [] {
      var last := |modified| - 1;
      RewiresExactly(modified[..last]);
      RewiresSnoc(modified);
      var front := Rewires(modified[..last]);
      forall i | 0 <= i < |front| ensures front[i] in modified && front[i].id != modified[last].id {
        assert front[i] in modified[..last];
        var k :| 0 <= k < |modified[..last]| && modified[..last][k] == front[i];
        assert modified[k].id != modified[last].id;
      }
    } else {
      NoRewires();
    }
  }

  lemma NoRewires()
    ensures Rewires([]) == []
  {
  }

  lemma RewiresSnoc(modified: seq<ModifiedRelationship>)
    requires modified != []
    ensures var last := modified[|modified| - 1];
      Rewires(modified) == Rewires(modified[..|modified| - 1]) + if IsRewire(last) then [last] else []
  {
  }

  // The model after each phase.
  function AfterCreates(base: Model, cr: ChangeRequest): Model {
    Model(base.elements + Landed(cr.elsAdded),
      base.relationships + LandedRels(cr.relsAdded, ElementIds(cr.elsAdded)))
  }

  function CreatedIds(cr: ChangeRequest): seq<Id> {
    ElementIds(cr.elsAdded) + RelationshipIds(cr.relsAdded)
  }

  function AfterUpdates(base: Model, cr: ChangeRequest): Model {
    var m := AfterCreates(base, cr);
    Model(m.elements + PatchedEls(cr.elsModified, CreatedIds(cr)), m.relationships + PatchedRels(cr.relsModified, CreatedIds(cr)))
  }

  function AfterRewires(base: Model, cr: ChangeRequest): Model {
    var m := AfterUpdates(base, cr);
    Model(m.elements,
      m.relationships - SetOf(RelationshipIds(cr.relsDeleted)) + RewiredRels(Rewires(cr.relsModified), CreatedIds(cr)))
  }

  function Final(base: Model, cr: ChangeRequest): Model {
    var m := AfterRewires(base, cr);
    Model(m.elements - SetOf(ElementIds(cr.elsDeleted)), m.relationships)
  }

  lemma ListedElements(base: Model, other: Model, cr: ChangeRequest)
    requires IsDiff(base, other, cr)
    ensures SetOf(ElementIds(cr.elsAdded)) == other.elements.Keys - base.elements.Keys
    ensures SetOf(ElementIds(cr.elsDeleted)) == base.elements.Keys - other.elements.Keys
  {
    forall id | id in other.elements.Keys - base.elements.Keys ensures id in ElementIds(cr.elsAdded) {
      var i :| 0 <= i < |cr.elsAdded| && cr.elsAdded[i].id == id;
      assert ElementIds(cr.elsAdded)[i] == id;
    }
    forall id | id in base.elements.Keys - other.elements.Keys ensures id in ElementIds(cr.elsDeleted) {
      var i :| 0 <= i < |cr.elsDeleted| && cr.elsDeleted[i].id == id;
      assert ElementIds(cr.elsDeleted)[i] == id;
    }
  }

  lemma ListedRelationships(base: Model, other: Model, cr: ChangeRequest)
    requires IsDiff(base, other, cr)
    ensures SetOf(RelationshipIds(cr.relsAdded)) == other.relationships.Keys - base.relationships.Keys
    ensures SetOf(RelationshipIds(cr.relsDeleted)) == base.relationships.Keys - other.relationships.Keys
  {
    forall id | id in other.relationships.Keys - base.relationships.Keys ensures id in RelationshipIds(cr.relsAdded) {
      var i :| 0 <= i < |cr.relsAdded| && cr.relsAdded[i].id == id;
      assert RelationshipIds(cr.relsAdded)[i] == id;
    }
    forall id | id in base.relationships.Keys - other.relationships.Keys ensures id in RelationshipIds(cr.relsDeleted) {
      var i :| 0 <= i < |cr.relsDeleted| && cr.relsDeleted[i].id == id;
      assert RelationshipIds(cr.relsDeleted)[i] == id;
    }
  }

  // What each phase needs from the setting.

  lemma NeedsCreatable(mm: Metamodel, base: Model, other: Model, cr: ChangeRequest)
    requires Setting(mm, base, other, cr)
    ensures Creatable(mm, base, cr.elsAdded)
  {
    hide IsReserved, DiffsRelationships;
  }

  lemma AfterElementCreates(mm: Metamodel, base: Model, other: Model, cr: ChangeRequest)
    requires Setting(mm, base, other, cr)
    ensures (base.elements + Landed(cr.elsAdded)).Keys == base.elements.Keys + other.elements.Keys
    ensures forall id :: id in base.elements ==> id !in Landed(cr.elsAdded)
  {
    ListedElements(base, other, cr);
    LandedKeys(cr.elsAdded);
    hide Setting, Landed, ElementIds;
  }

  lemma NeedsConnectable(mm: Metamodel, base: Model, other: Model, cr: ChangeRequest)
    requires Setting(mm, base, other, cr)
    ensures Connectable(mm, Model(base.elements + Landed(cr.elsAdded), base.relationships), cr.relsAdded)
  {
    AfterElementCreates(mm, base, other, cr);
    forall i | 0 <= i < |cr.relsAdded|
      ensures CanConnect(mm, Model(base.elements + Landed(cr.elsAdded), base.relationships),
        cr.relsAdded[i].id, cr.relsAdded[i].state)
    {
      var id := cr.relsAdded[i].id;
      assert id in other.relationships && id !in base.relationships && cr.relsAdded[i].state == other.relationships[id];
      assert other.relationships[id].source in other.elements && other.relationships[id].target in other.elements;
      hide IsReserved, Landed, IsDiff;
    }
  }

  lemma NeedsPatchableEls(mm: Metamodel, base: Model, other: Model, cr: ChangeRequest)
    requires Setting(mm, base, other, cr)
    ensures PatchableEls(mm, AfterCreates(base, cr), cr.elsModified)
  {
    AfterElementCreates(mm, base, other, cr);
    hide IsReserved, Landed, LandedRels, ElementIds, DiffsRelationships;
  }

  lemma NeedsPatchableRels(mm: Metamodel, base: Model, other: Model, cr: ChangeRequest, els: map<Id, Element>)
    requires Setting(mm, base, other, cr)
    ensures PatchableRels(mm, Model(els, AfterCreates(base, cr).relationships), cr.relsModified)
  {
    ListedRelationships(base, other, cr);
    LandedRelsKeys(cr.relsAdded, ElementIds(cr.elsAdded));
    hide IsReserved, Landed, LandedRels, ElementIds, RelationshipIds, DiffsElements;
  }

  lemma SettingDiff(mm: Metamodel, base: Model, other: Model, cr: ChangeRequest)
    requires Setting(mm, base, other, cr)
    ensures IsDiff(base, other, cr)
  {
  }

  lemma ModifiedIds(base: Model, other: Model, cr: ChangeRequest)
    requires IsDiff(base, other, cr)
    ensures forall i :: 0 <= i < |cr.elsModified| ==> cr.elsModified[i].id in base.elements
    ensures forall i :: 0 <= i < |cr.relsModified| ==> cr.relsModified[i].id in base.relationships
  {
  }

  lemma UpdatedElementKeys(mm: Metamodel, base: Model, other: Model, cr: ChangeRequest)
    requires Setting(mm, base, other, cr)
    ensures AfterUpdates(base, cr).elements.Keys == base.elements.Keys + other.elements.Keys
  {
    hide Setting, Landed, PatchedEls, CreatedIds, IsDiff;
    SettingDiff(mm, base, other, cr);
    AfterElementCreates(mm, base, other, cr);
    PatchedElsKeys(cr.elsModified, CreatedIds(cr));
    ModifiedIds(base, other, cr);
    assert PatchedEls(cr.elsModified, CreatedIds(cr)).Keys <= base.elements.Keys;
  }

  lemma UpdatedRelationshipKeys(mm: Metamodel, base: Model, other: Model, cr: ChangeRequest)
    requires Setting(mm, base, other, cr)
    ensures AfterUpdates(base, cr).relationships.Keys == base.relationships.Keys + other.relationships.Keys
  {
    hide Setting, LandedRels, PatchedRels, CreatedIds, ElementIds, RelationshipIds, IsRewire, IsDiff;
    SettingDiff(mm, base, other, cr);
    ListedRelationships(base, other, cr);
    LandedRelsKeys(cr.relsAdded, ElementIds(cr.elsAdded));
    PatchedRelsKeys(cr.relsModified, CreatedIds(cr));
    ModifiedIds(base, other, cr);
    assert PatchedRels(cr.relsModified, CreatedIds(cr)).Keys <= base.relationships.Keys;
  }

  lemma NeedsRewirable(mm: Metamodel, base: Model, other: Model, cr: ChangeRequest, m: Model, dead: set<Id>)
    requires Setting(mm, base, other, cr) && NoKindClash(base, other)
    requires m.elements.Keys == base.elements.Keys + other.elements.Keys
    requires m.relationships.Keys == other.relationships.Keys && dead == base.relationships.Keys - other.relationships.Keys
    ensures Rewirable(mm, m, Rewires(cr.relsModified), dead)
  {
    hide Setting, NoKindClash, CanRewire, Rewires, IsRewire, Intact, Fits, IsDiff;
    SettingParts(mm, base, other, cr);
    ModifiedOnce(base, other, cr);
    RewiresExactly(cr.relsModified);
    forall i | 0 <= i < |Rewires(cr.relsModified)| ensures CanRewire(mm, m, Rewires(cr.relsModified)[i], dead) {
      CanRewireOne(mm, base, other, cr, m, dead, Rewires(cr.relsModified)[i]);
    }
  }

  lemma CanRewireOne(mm: Metamodel, base: Model, other: Model, cr: ChangeRequest, m: Model, dead: set<Id>, x: ModifiedRelationship)
    requires Setting(mm, base, other, cr) && NoKindClash(base, other) && x in cr.relsModified && IsRewire(x)
    requires m.elements.Keys == base.elements.Keys + other.elements.Keys
    requires m.relationships.Keys == other.relationships.Keys && dead == base.relationships.Keys - other.relationships.Keys
    ensures CanRewire(mm, m, x, dead)
  {
    hide Setting, NoKindClash, IsReserved, Intact, IsDiff, IsRewire;
    SettingParts(mm, base, other, cr);
    var j :| 0 <= j < |cr.relsModified| && cr.relsModified[j] == x;
    ModifiedRelationshipFacts(mm, base, other, cr, j);
    IntactRelationship(other, x.id);
    NoClashAt(base, other, x.id);
  }

  lemma SettingParts(mm: Metamodel, base: Model, other: Model, cr: ChangeRequest)
    requires Setting(mm, base, other, cr)
    ensures Intact(base) && Intact(other) && IsDiff(base, other, cr) && Fits(mm, cr)
  {
  }

  lemma ModifiedOnce(base: Model, other: Model, cr: ChangeRequest)
    requires IsDiff(base, other, cr)
    ensures forall i, j :: 0 <= i < j < |cr.relsModified| ==> cr.relsModified[i].id != cr.relsModified[j].id
  {
  }

  lemma IntactRelationship(m: Model, id: Id)
    requires Intact(m) && id in m.relationships
    ensures var r := m.relationships[id];
      && id !in m.elements && !IsReserved(id) && !IsReserved(r.source) && !IsReserved(r.target)
      && r.source in m.elements && r.target in m.elements
  {
    hide IsReserved;
  }

  lemma NoClashAt(base: Model, other: Model, id: Id)
    requires NoKindClash(base, other) && id in base.relationships && id in other.relationships
    ensures id !in base.elements && id !in other.elements
  {
  }

  // ---- running the phases ---------------------------------------------------------------------------------------

  lemma RunCreates(mm: Metamodel, mint: Mint, base: Model, other: Model, cr: ChangeRequest)
    requires Setting(mm, base, other, cr)
    ensures var temps, n := TempOf(cr.elsAdded), |cr.elsAdded|;
      var o := ApplyAll(mm, mint, StartBatch(base), CreateEls(cr.elsAdded) + CreateRels(cr.relsAdded, n, temps), false);
      && (o.Done? <==> NoKindClash(base, other))
      && (o.Done? ==> EndsAt(o, AfterCreates(base, cr), CreatedIds(cr), {}, {}))
    ensures TempsFit(TempOf(cr.elsAdded), ElementIds(cr.elsAdded))
  {
    assert forall i, j :: 0 <= i < j < |cr.elsAdded| ==> cr.elsAdded[i].id != cr.elsAdded[j].id;
    assert base.relationships.Keys !! base.elements.Keys && other.relationships.Keys !! other.elements.Keys;
    TempOfFits(cr.elsAdded);
    ListedElements(base, other, cr);
    ListedRelationships(base, other, cr);
    NeedsCreatable(mm, base, other, cr);
    NeedsConnectable(mm, base, other, cr);
    AfterElementCreates(mm, base, other, cr);
    hide *;
    CombineCreates(mm, mint, base, other, cr);
  }

  lemma CombineCreates(mm: Metamodel, mint: Mint, base: Model, other: Model, cr: ChangeRequest)
    requires base.relationships.Keys !! base.elements.Keys && other.relationships.Keys !! other.elements.Keys
    requires TempsFit(TempOf(cr.elsAdded), ElementIds(cr.elsAdded))
    requires SetOf(ElementIds(cr.elsAdded)) == other.elements.Keys - base.elements.Keys
    requires SetOf(RelationshipIds(cr.relsAdded)) == other.relationships.Keys - base.relationships.Keys
    requires (base.elements + Landed(cr.elsAdded)).Keys == base.elements.Keys + other.elements.Keys
    requires Creatable(mm, base, cr.elsAdded)
    requires Connectable(mm, Model(base.elements + Landed(cr.elsAdded), base.relationships), cr.relsAdded)
    ensures var temps, n := TempOf(cr.elsAdded), |cr.elsAdded|;
      var o := ApplyAll(mm, mint, StartBatch(base), CreateEls(cr.elsAdded) + CreateRels(cr.relsAdded, n, temps), false);
      && (o.Done? <==> NoKindClash(base, other))
      && (o.Done? ==> EndsAt(o, AfterCreates(base, cr), CreatedIds(cr), {}, {}))
  {
    hide ApplyAll, TempsFit, TempOf, MintedIds, ElementIds, RelationshipIds, Landed, LandedRels, Creatable, Connectable, SetOf,
      CreateEls, CreateRels;
    var temps, finals := TempOf(cr.elsAdded), ElementIds(cr.elsAdded);
    LandElements(mm, mint, base, cr.elsAdded);
    ApplyAllConcat(mm, mint, StartBatch(base), CreateEls(cr.elsAdded), CreateRels(cr.relsAdded, |finals|, temps), false);
    var first := ApplyAll(mm, mint, StartBatch(base), CreateEls(cr.elsAdded), false);
    if first.Done? {
      LandRelationships(mm, mint, first.batch, Model(base.elements + Landed(cr.elsAdded), base.relationships),
        finals, temps, cr.relsAdded);
    }
  }

  lemma RunUpdates(mm: Metamodel, mint: Mint, b: Batch, base: Model, other: Model, cr: ChangeRequest)
    requires Setting(mm, base, other, cr)
    requires At(b, AfterCreates(base, cr), CreatedIds(cr), {}, {})
    ensures EndsAt(ApplyAll(mm, mint, b, UpdateEls(cr.elsModified) + UpdateRels(cr.relsModified), false),
      AfterUpdates(base, cr), CreatedIds(cr), {}, {})
  {
    var m, ids := AfterCreates(base, cr), CreatedIds(cr);
    var mid := Model(m.elements + PatchedEls(cr.elsModified, ids), m.relationships);
    NeedsPatchableEls(mm, base, other, cr);
    NeedsPatchableRels(mm, base, other, cr, mid.elements);
    hide ApplyAll, MintedIds, CreatedIds, AfterCreates, Setting, PatchableEls, PatchableRels, UpdateEls, UpdateRels,
      PatchedEls, PatchedRels;
    PatchElements(mm, mint, b, m, ids, cr.elsModified);
    ApplyAllConcat(mm, mint, b, UpdateEls(cr.elsModified), UpdateRels(cr.relsModified), false);
    var first := ApplyAll(mm, mint, b, UpdateEls(cr.elsModified), false);
    PatchRelationships(mm, mint, first.batch, mid, ids, cr.relsModified);
  }

  lemma RunDeletesAndRewires(mm: Metamodel, mint: Mint, b: Batch, base: Model, other: Model, cr: ChangeRequest)
    requires Setting(mm, base, other, cr) && NoKindClash(base, other)
    requires At(b, AfterUpdates(base, cr), CreatedIds(cr), {}, {})
    requires TempsFit(TempOf(cr.elsAdded), ElementIds(cr.elsAdded))
    ensures var rewires, temps := Rewires(cr.relsModified), TempOf(cr.elsAdded);
      EndsAt(ApplyAll(mm, mint, b, DeleteRels(cr.relsDeleted) + RewireOps(rewires, |CreatedIds(cr)|, temps), false),
        AfterRewires(base, cr), CreatedIds(cr) + RewireIds(rewires), {}, base.relationships.Keys - other.relationships.Keys)
  {
    hide ApplyAll, MintedIds, AfterUpdates, Rewires, RelationshipIds, ElementIds, TempsFit, TempOf, Setting, Rewirable,
      DeleteRels, RewireOps, RewiredRels, IsReserved, IsDiff;
    SettingDiff(mm, base, other, cr);
    var m, ids, temps := AfterUpdates(base, cr), CreatedIds(cr), TempOf(cr.elsAdded);
    var rewires := Rewires(cr.relsModified);
    var dead := SetOf(RelationshipIds(cr.relsDeleted));
    UpdatedElementKeys(mm, base, other, cr);
    UpdatedRelationshipKeys(mm, base, other, cr);
    ListedRelationships(base, other, cr);
    TempsFitLonger(temps, ElementIds(cr.elsAdded), RelationshipIds(cr.relsAdded));
    NeedsRewirable(mm, base, other, cr, Model(m.elements, m.relationships - dead), dead);
    NeedsDroppable(mm, base, other, cr);
    CombineDeletes(mm, mint, b, m, ids, temps, cr.relsDeleted, rewires);
  }

  lemma CombineDeletes(mm: Metamodel, mint: Mint, b: Batch, m: Model, ids: seq<Id>, temps: map<Id, Id>,
      deleted: seq<NamedRelationship>, rewires: seq<ModifiedRelationship>)
    requires At(b, m, ids, {}, {}) && TempsFit(temps, ids)
    requires forall i :: 0 <= i < |deleted| ==> !IsReserved(deleted[i].id) && deleted[i].id in m.relationships
    requires forall i, j :: 0 <= i < j < |deleted| ==> deleted[i].id != deleted[j].id
    requires var dead := SetOf(RelationshipIds(deleted));
      Rewirable(mm, Model(m.elements, m.relationships - dead), rewires, dead)
    ensures var dead := SetOf(RelationshipIds(deleted));
      EndsAt(ApplyAll(mm, mint, b, DeleteRels(deleted) + RewireOps(rewires, |ids|, temps), false),
        Model(m.elements, m.relationships - dead + RewiredRels(rewires, ids)), ids + RewireIds(rewires), {}, dead)
  {
    hide ApplyAll, MintedIds, RelationshipIds, TempsFit, Rewirable, DeleteRels, RewireOps, RewiredRels, RewireIds, IsReserved;
    var dead := SetOf(RelationshipIds(deleted));
    DropRelationships(mm, mint, b, m, ids, deleted);
    ApplyAllConcat(mm, mint, b, DeleteRels(deleted), RewireOps(rewires, |ids|, temps), false);
    var first := ApplyAll(mm, mint, b, DeleteRels(deleted), false);
    RewireAll(mm, mint, first.batch, Model(m.elements, m.relationships - dead), ids, temps, rewires, dead);
  }

  lemma NeedsDroppable(mm: Metamodel, base: Model, other: Model, cr: ChangeRequest)
    requires Setting(mm, base, other, cr)
    ensures forall i :: 0 <= i < |cr.relsDeleted| ==>
      !IsReserved(cr.relsDeleted[i].id) && cr.relsDeleted[i].id in AfterUpdates(base, cr).relationships
    ensures forall i, j :: 0 <= i < j < |cr.relsDeleted| ==> cr.relsDeleted[i].id != cr.relsDeleted[j].id
  {
    UpdatedRelationshipKeys(mm, base, other, cr);
    hide IsReserved, AfterUpdates, DiffsElements;
  }

  // ---- what each id ends up holding --------------------------------------------------------------------------------

  lemma {:induction false} LandedAt(added: seq<NamedElement>, i: nat)
    requires i < |added| && forall j, k :: 0 <= j < k < |added| ==> added[j].id != added[k].id
    ensures added[i].id in Landed(added)
    ensures Landed(added)[added[i].id] ==
            added[i].state.(props := ResolveProps(added[i].state.props, MintedIds(ElementIds(added[..i]))))
  {
    hide MintedIds, ResolveProps;
    var last := |added| - 1;
    if i < last {
      assert added[..last][..i] == added[..i];
      LandedAt(added[..last], i);
    }
  }

  lemma {:induction false} LandedRelAt(added: seq<NamedRelationship>, finals: seq<Id>, i: nat)
    requires i < |added| && forall j, k :: 0 <= j < k < |added| ==> added[j].id != added[k].id
    ensures added[i].id in LandedRels(added, finals)
    ensures LandedRels(added, finals)[added[i].id] ==
            added[i].state.(props := ResolveProps(added[i].state.props, MintedIds(finals + RelationshipIds(added[..i]))))
  {
    hide MintedIds, ResolveProps;
    var last := |added| - 1;
    if i < last {
      assert added[..last][..i] == added[..i];
      LandedRelAt(added[..last], finals, i);
    }
  }

  lemma {:induction false} PatchedAt(modified: seq<ModifiedElement>, finals: seq<Id>, i: nat)
    requires i < |modified| && forall j, k :: 0 <= j < k < |modified| ==> modified[j].id != modified[k].id
    ensures modified[i].id in PatchedEls(modified, finals)
    ensures PatchedEls(modified, finals)[modified[i].id] ==
            modified[i].before.(props := PatchedBag(modified[i].before.props, modified[i].after.props, finals))
  {
    hide PatchedBag;
    if i < |modified| - 1 {
      PatchedAt(modified[..|modified| - 1], finals, i);
    }
  }

  lemma {:induction false} PatchedRelAt(modified: seq<ModifiedRelationship>, finals: seq<Id>, i: nat)
    requires i < |modified| && !IsRewire(modified[i])
    requires forall j, k :: 0 <= j < k < |modified| ==> modified[j].id != modified[k].id
    ensures modified[i].id in PatchedRels(modified, finals)
    ensures PatchedRels(modified, finals)[modified[i].id] ==
            modified[i].before.(props := PatchedBag(modified[i].before.props, modified[i].after.props, finals))
  {
    hide PatchedBag, IsRewire;
    if i < |modified| - 1 {
      PatchedRelAt(modified[..|modified| - 1], finals, i);
    }
  }

  lemma {:induction false} RewiredAt(rewires: seq<ModifiedRelationship>, finals: seq<Id>, i: nat)
    requires i < |rewires| && forall j, k :: 0 <= j < k < |rewires| ==> rewires[j].id != rewires[k].id
    ensures rewires[i].id in RewiredRels(rewires, finals)
    ensures RewiredRels(rewires, finals)[rewires[i].id] ==
            rewires[i].after.(props := ResolveProps(rewires[i].after.props, MintedIds(finals + RewireIds(rewires[..i]))))
  {
    hide MintedIds, ResolveProps;
    var last := |rewires| - 1;
    if i < last {
      assert rewires[..last][..i] == rewires[..i];
      RewiredAt(rewires[..last], finals, i);
    }
  }

  lemma KeysOfElementPhases(mm: Metamodel, base: Model, other: Model, cr: ChangeRequest)
    requires Setting(mm, base, other, cr)
    ensures Landed(cr.elsAdded).Keys == other.elements.Keys - base.elements.Keys
    ensures forall id :: id in PatchedEls(cr.elsModified, CreatedIds(cr)) <==>
      id in base.elements && id in other.elements && base.elements[id] != other.elements[id]
  {
    hide Setting, Landed, PatchedEls, CreatedIds, ElementIds, DiffsRelationships;
    SettingDiff(mm, base, other, cr);
    ListedElements(base, other, cr);
    LandedKeys(cr.elsAdded);
    PatchedElsKeys(cr.elsModified, CreatedIds(cr));
  }

  /** An element the request leaves alone is left alone. */
  lemma KeptElement(mm: Metamodel, base: Model, other: Model, cr: ChangeRequest, id: Id)
    requires Setting(mm, base, other, cr) && id in base.elements && id in other.elements
    requires base.elements[id] == other.elements[id]
    ensures id in AfterUpdates(base, cr).elements && AfterUpdates(base, cr).elements[id] == other.elements[id]
  {
    hide Setting, Landed, PatchedEls, CreatedIds;
    KeysOfElementPhases(mm, base, other, cr);
  }

  lemma AddedElement(mm: Metamodel, base: Model, other: Model, cr: ChangeRequest, i: nat)
    requires Setting(mm, base, other, cr) && i < |cr.elsAdded|
    ensures var e, els := cr.elsAdded[i], AfterUpdates(base, cr).elements;
      && e.id in els && e.id in other.elements && e.state == other.elements[e.id]
      && els[e.id] == e.state.(props := ResolveProps(e.state.props, MintedIds(ElementIds(cr.elsAdded[..i]))))
      && (els[e.id] == other.elements[e.id] <==> Clean(e.state.props, i))
  {
    hide Landed, PatchedEls, CreatedIds, ResolveProps, Clean, MintedIds, ElementIds, IsReserved, DiffsRelationships, Fits;
    KeysOfElementPhases(mm, base, other, cr);
    LandedAt(cr.elsAdded, i);
    AddedIdsUnreserved(mm, base, other, cr, i);
    CleanIffUntouched(cr.elsAdded[i].state.props, ElementIds(cr.elsAdded[..i]));
  }

  lemma AddedIdsUnreserved(mm: Metamodel, base: Model, other: Model, cr: ChangeRequest, i: nat)
    requires Setting(mm, base, other, cr) && i <= |cr.elsAdded|
    ensures Unreserved(ElementIds(cr.elsAdded[..i]))
  {
    hide IsReserved, DiffsRelationships;
    forall id | id in ElementIds(cr.elsAdded[..i]) ensures !IsReserved(id) {
      var j :| 0 <= j < i && cr.elsAdded[j].id == id;
    }
  }

  lemma CreatedIdsUnreserved(mm: Metamodel, base: Model, other: Model, cr: ChangeRequest, i: nat)
    requires Setting(mm, base, other, cr) && i <= |cr.relsAdded|
    ensures Unreserved(ElementIds(cr.elsAdded) + RelationshipIds(cr.relsAdded[..i]))
  {
    hide IsReserved, Setting, RelationshipIds, ElementIds;
    AddedIdsUnreserved(mm, base, other, cr, |cr.elsAdded|);
    assert cr.elsAdded[..|cr.elsAdded|] == cr.elsAdded;
    AddedRelationshipIdsUnreserved(mm, base, other, cr, i);
  }

  lemma AddedRelationshipIdsUnreserved(mm: Metamodel, base: Model, other: Model, cr: ChangeRequest, i: nat)
    requires Setting(mm, base, other, cr) && i <= |cr.relsAdded|
    ensures Unreserved(RelationshipIds(cr.relsAdded[..i]))
  {
    hide IsReserved, Setting, IsDiff, Intact, Fits;
    SettingParts(mm, base, other, cr);
    forall id | id in RelationshipIds(cr.relsAdded[..i]) ensures !IsReserved(id) {
      var j :| 0 <= j < i && cr.relsAdded[j].id == id;
      AddedRelationshipFacts(mm, base, other, cr, j);
      IntactRelationship(other, id);
    }
  }

  lemma AllCreatedUnreserved(mm: Metamodel, base: Model, other: Model, cr: ChangeRequest)
    requires Setting(mm, base, other, cr)
    ensures Unreserved(CreatedIds(cr)) && |CreatedIds(cr)| == |cr.elsAdded| + |cr.relsAdded|
  {
    hide Setting;
    CreatedIdsUnreserved(mm, base, other, cr, |cr.relsAdded|);
    assert cr.relsAdded[..|cr.relsAdded|] == cr.relsAdded;
  }

  /** The patch mentions no temporary id minted so far and sets no null. */
  ghost predicate CleanPatch(before: Props, after: Props, n: nat) {
    Clean(DiffToMergePatch(before, after), n) && SetsNoNull(before, after)
  }

  lemma PatchIsRightIffClean(before: Props, after: Props, finals: seq<Id>)
    requires Unreserved(finals)
    ensures PatchedBag(before, after, finals) == after <==> CleanPatch(before, after, |finals|)
  {
    hide MintedIds, Clean, MergePatch, ResolveProps, DiffToMergePatch, SetsNoNull;
    ResolvedPatch(before, after, MintedIds(finals));
    CleanIffUntouched(DiffToMergePatch(before, after), finals);
  }

  lemma UpdatedElement(mm: Metamodel, base: Model, other: Model, cr: ChangeRequest, i: nat)
    requires Setting(mm, base, other, cr) && i < |cr.elsModified|
    ensures var x, els := cr.elsModified[i], AfterUpdates(base, cr).elements;
      && x.id in els && x.id in other.elements
      && els[x.id].typeName == other.elements[x.id].typeName
      && (els[x.id] == other.elements[x.id] <==>
           CleanPatch(x.before.props, x.after.props, |cr.elsAdded| + |cr.relsAdded|))
  {
    hide Landed, PatchedEls, CreatedIds, Clean, CleanPatch, PatchedBag, IsReserved, DiffsRelationships, Fits;
    PatchedAt(cr.elsModified, CreatedIds(cr), i);
    AllCreatedUnreserved(mm, base, other, cr);
    var x := cr.elsModified[i];
    assert x.before == base.elements[x.id] && x.after == other.elements[x.id];
    PatchIsRightIffClean(x.before.props, x.after.props, CreatedIds(cr));
  }

  lemma KeysOfRelationshipPhases(mm: Metamodel, base: Model, other: Model, cr: ChangeRequest)
    requires Setting(mm, base, other, cr)
    ensures LandedRels(cr.relsAdded, ElementIds(cr.elsAdded)).Keys == other.relationships.Keys - base.relationships.Keys
    ensures SetOf(RelationshipIds(cr.relsDeleted)) == base.relationships.Keys - other.relationships.Keys
    ensures forall id :: id in PatchedRels(cr.relsModified, CreatedIds(cr)) ==>
      id in base.relationships && id in other.relationships && base.relationships[id] != other.relationships[id]
    ensures forall i :: 0 <= i < |cr.relsModified| && !IsRewire(cr.relsModified[i]) ==>
      cr.relsModified[i].id !in RewiredRels(Rewires(cr.relsModified), CreatedIds(cr))
    ensures forall id :: id in RewiredRels(Rewires(cr.relsModified), CreatedIds(cr)) ==>
      id in base.relationships && id in other.relationships && base.relationships[id] != other.relationships[id]
  {
    hide LandedRels, PatchedRels, RewiredRels, CreatedIds, ElementIds, RelationshipIds, IsRewire, DiffsElements, Intact, Fits,
      Rewires, IsReserved;
    ListedRelationships(base, other, cr);
    LandedRelsKeys(cr.relsAdded, ElementIds(cr.elsAdded));
    PatchedRelsKeys(cr.relsModified, CreatedIds(cr));
    RewiresExactly(cr.relsModified);
    RewiredRelsKeys(Rewires(cr.relsModified), CreatedIds(cr));
    forall id | id in RewiredRels(Rewires(cr.relsModified), CreatedIds(cr))
      ensures exists i :: 0 <= i < |cr.relsModified| && cr.relsModified[i].id == id && IsRewire(cr.relsModified[i])
    {
      RewireListed(Rewires(cr.relsModified), id);
    }
  }

  lemma RewireListed(rewires: seq<ModifiedRelationship>, id: Id)
    ensures id in SetOf(RewireIds(rewires)) <==> exists i :: 0 <= i < |rewires| && rewires[i].id == id
  {
    forall i | 0 <= i < |rewires| && rewires[i].id == id ensures id in RewireIds(rewires) {
      assert RewireIds(rewires)[i] == id;
    }
  }

  lemma FinalRelationshipKeys(mm: Metamodel, base: Model, other: Model, cr: ChangeRequest)
    requires Setting(mm, base, other, cr)
    ensures AfterRewires(base, cr).relationships.Keys == other.relationships.Keys
  {
    hide Setting, LandedRels, PatchedRels, RewiredRels, CreatedIds, ElementIds, RelationshipIds, IsRewire, AfterUpdates;
    KeysOfRelationshipPhases(mm, base, other, cr);
    UpdatedRelationshipKeys(mm, base, other, cr);
  }

  lemma KeptRelationship(mm: Metamodel, base: Model, other: Model, cr: ChangeRequest, id: Id)
    requires Setting(mm, base, other, cr) && id in base.relationships && id in other.relationships
    requires base.relationships[id] == other.relationships[id]
    ensures var rels := AfterRewires(base, cr).relationships; id in rels && rels[id] == other.relationships[id]
  {
    hide Setting, LandedRels, PatchedRels, RewiredRels, CreatedIds, ElementIds, RelationshipIds, IsRewire, Rewires;
    KeysOfRelationshipPhases(mm, base, other, cr);
  }

  lemma AddedRelationshipFacts(mm: Metamodel, base: Model, other: Model, cr: ChangeRequest, i: nat)
    requires Setting(mm, base, other, cr) && i < |cr.relsAdded|
    ensures var r := cr.relsAdded[i];
      r.id in other.relationships && r.id !in base.relationships && r.state == other.relationships[r.id]
    ensures forall j, k :: 0 <= j < k < |cr.relsAdded| ==> cr.relsAdded[j].id != cr.relsAdded[k].id
  {
    hide DiffsElements, Intact, Fits;
  }

  lemma ModifiedRelationshipFacts(mm: Metamodel, base: Model, other: Model, cr: ChangeRequest, i: nat)
    requires Setting(mm, base, other, cr) && i < |cr.relsModified|
    ensures var x := cr.relsModified[i];
      && x.id in base.relationships && x.id in other.relationships
      && x.before == base.relationships[x.id] && x.after == other.relationships[x.id]
    ensures forall j, k :: 0 <= j < k < |cr.relsModified| ==> cr.relsModified[j].id != cr.relsModified[k].id
  {
    hide DiffsElements, Intact, Fits;
  }

  lemma AddedRelationship(mm: Metamodel, base: Model, other: Model, cr: ChangeRequest, i: nat)
    requires Setting(mm, base, other, cr) && i < |cr.relsAdded|
    ensures var r, rels := cr.relsAdded[i], AfterRewires(base, cr).relationships;
      && r.id in rels && r.id in other.relationships && r.state == other.relationships[r.id]
      && rels[r.id] == r.state.(props := rels[r.id].props)
      && (rels[r.id] == other.relationships[r.id] <==> Clean(r.state.props, |cr.elsAdded| + i))
  {
    hide LandedRels, PatchedRels, RewiredRels, CreatedIds, ElementIds, RelationshipIds, IsRewire, Rewires, ResolveProps, MintedIds,
      Clean, Setting;
    KeysOfRelationshipPhases(mm, base, other, cr);
    AddedRelationshipFacts(mm, base, other, cr, i);
    LandedRelAt(cr.relsAdded, ElementIds(cr.elsAdded), i);
    CreatedIdsUnreserved(mm, base, other, cr, i);
    CleanIffUntouched(cr.relsAdded[i].state.props, ElementIds(cr.elsAdded) + RelationshipIds(cr.relsAdded[..i]));
  }

  lemma UpdatedRelationship(mm: Metamodel, base: Model, other: Model, cr: ChangeRequest, i: nat)
    requires Setting(mm, base, other, cr) && i < |cr.relsModified| && !IsRewire(cr.relsModified[i])
    ensures var x, rels := cr.relsModified[i], AfterRewires(base, cr).relationships;
      && x.id in rels && x.id in other.relationships
      && rels[x.id] == other.relationships[x.id].(props := rels[x.id].props)
      && (rels[x.id] == other.relationships[x.id] <==>
           CleanPatch(x.before.props, x.after.props, |cr.elsAdded| + |cr.relsAdded|))
  {
    hide LandedRels, PatchedRels, RewiredRels, CreatedIds, ElementIds, RelationshipIds, Rewires, PatchedBag, DiffToMergePatch,
      Clean, Setting;
    KeysOfRelationshipPhases(mm, base, other, cr);
    ModifiedRelationshipFacts(mm, base, other, cr, i);
    PatchedRelAt(cr.relsModified, CreatedIds(cr), i);
    AllCreatedUnreserved(mm, base, other, cr);
    var x := cr.relsModified[i];
    PatchIsRightIffClean(x.before.props, x.after.props, CreatedIds(cr));
  }

  lemma RewireIdsUnreserved(mm: Metamodel, base: Model, other: Model, cr: ChangeRequest, i: nat)
    requires Setting(mm, base, other, cr) && i <= |Rewires(cr.relsModified)|
    ensures Unreserved(CreatedIds(cr) + RewireIds(Rewires(cr.relsModified)[..i]))
  {
    hide IsReserved, DiffsElements, Rewires, CreatedIds, Fits, IsRewire;
    var rewires := Rewires(cr.relsModified);
    AllCreatedUnreserved(mm, base, other, cr);
    RewiresExactly(cr.relsModified);
    forall id | id in RewireIds(rewires[..i]) ensures !IsReserved(id) {
      var j :| 0 <= j < i && rewires[j].id == id;
      assert rewires[j] in cr.relsModified;
    }
  }

  lemma RewiredRelationship(mm: Metamodel, base: Model, other: Model, cr: ChangeRequest, i: nat)
    requires Setting(mm, base, other, cr) && i < |Rewires(cr.relsModified)|
    ensures var x, rels := Rewires(cr.relsModified)[i], AfterRewires(base, cr).relationships;
      && x.id in rels && x.id in other.relationships
      && rels[x.id] == other.relationships[x.id].(props := rels[x.id].props)
      && (rels[x.id] == other.relationships[x.id] <==> Clean(x.after.props, |cr.elsAdded| + |cr.relsAdded| + i))
  {
    hide LandedRels, PatchedRels, RewiredRels, CreatedIds, ElementIds, RelationshipIds, Rewires, ResolveProps, MintedIds, IsRewire,
      Clean, IsReserved, DiffsElements, Intact, Fits, AfterUpdates;
    var rewires := Rewires(cr.relsModified);
    RewiresExactly(cr.relsModified);
    assert rewires[i] in cr.relsModified;
    RewiredAt(rewires, CreatedIds(cr), i);
    AllCreatedUnreserved(mm, base, other, cr);
    RewireIdsUnreserved(mm, base, other, cr, i);
    CleanIffUntouched(rewires[i].after.props, CreatedIds(cr) + RewireIds(rewires[..i]));
  }

  /** No property the request writes mentions a temporary id minted before the write:
      the batch mints tmp_1, tmp_2, ... in the order of its creates. */
  ghost predicate CleanElements(cr: ChangeRequest) {
    && (forall i :: 0 <= i < |cr.elsAdded| ==> Clean(cr.elsAdded[i].state.props, i))
    && (forall i :: 0 <= i < |cr.elsModified| ==>
         var x := cr.elsModified[i];
         CleanPatch(x.before.props, x.after.props, |cr.elsAdded| + |cr.relsAdded|))
  }

  ghost predicate CleanRelationships(cr: ChangeRequest) {
    && (forall i :: 0 <= i < |cr.relsAdded| ==> Clean(cr.relsAdded[i].state.props, |cr.elsAdded| + i))
    && (forall i :: 0 <= i < |cr.relsModified| && !IsRewire(cr.relsModified[i]) ==>
         var x := cr.relsModified[i];
         CleanPatch(x.before.props, x.after.props, |cr.elsAdded| + |cr.relsAdded|))
    && (forall i :: 0 <= i < |Rewires(cr.relsModified)| ==>
         Clean(Rewires(cr.relsModified)[i].after.props, |cr.elsAdded| + |cr.relsAdded| + i))
  }

  ghost predicate CleanRequest(cr: ChangeRequest) {
    CleanElements(cr) && CleanRelationships(cr)
  }

  lemma ElementCases(mm: Metamodel, base: Model, other: Model, cr: ChangeRequest, id: Id)
    requires Setting(mm, base, other, cr) && id in other.elements
    ensures || (exists i :: 0 <= i < |cr.elsAdded| && cr.elsAdded[i].id == id)
            || (exists i :: 0 <= i < |cr.elsModified| && cr.elsModified[i].id == id)
            || (id in base.elements && base.elements[id] == other.elements[id])
  {
    hide DiffsRelationships, Intact, Fits;
  }

  lemma ElementsRight(mm: Metamodel, base: Model, other: Model, cr: ChangeRequest)
    requires Setting(mm, base, other, cr)
    ensures Final(base, cr).elements == other.elements <==> CleanElements(cr)
    ensures Final(base, cr).elements.Keys == other.elements.Keys
  {
    hide Setting, AfterUpdates, ElementIds, Clean, CleanPatch, IsDiff, Rewires, RewiredRels;
    var els, got := AfterUpdates(base, cr).elements, Final(base, cr).elements;
    UpdatedElementKeys(mm, base, other, cr);
    SettingDiff(mm, base, other, cr);
    ListedElements(base, other, cr);
    assert got.Keys == other.elements.Keys && forall id :: id in got ==> got[id] == els[id];
    forall i | 0 <= i < |cr.elsAdded|
      ensures cr.elsAdded[i].id in got
      ensures got[cr.elsAdded[i].id] == other.elements[cr.elsAdded[i].id] <==> Clean(cr.elsAdded[i].state.props, i)
    {
      AddedElement(mm, base, other, cr, i);
    }
    forall i | 0 <= i < |cr.elsModified|
      ensures cr.elsModified[i].id in got
      ensures got[cr.elsModified[i].id] == other.elements[cr.elsModified[i].id]
         <==> CleanPatch(cr.elsModified[i].before.props, cr.elsModified[i].after.props, |cr.elsAdded| + |cr.relsAdded|)
    {
      UpdatedElement(mm, base, other, cr, i);
    }
    if CleanElements(cr) {
      forall id | id in other.elements ensures got[id] == other.elements[id] {
        ElementCases(mm, base, other, cr, id);
        if id in base.elements && base.elements[id] == other.elements[id] {
          KeptElement(mm, base, other, cr, id);
        }
      }
    }
  }

  lemma RelationshipCases(mm: Metamodel, base: Model, other: Model, cr: ChangeRequest, id: Id)
    requires Setting(mm, base, other, cr) && id in other.relationships
    ensures || (exists i :: 0 <= i < |cr.relsAdded| && cr.relsAdded[i].id == id)
            || (exists i :: 0 <= i < |cr.relsModified| && cr.relsModified[i].id == id && !IsRewire(cr.relsModified[i]))
            || (exists i :: 0 <= i < |Rewires(cr.relsModified)| && Rewires(cr.relsModified)[i].id == id)
            || (id in base.relationships && base.relationships[id] == other.relationships[id])
  {
    hide DiffsElements, Intact, Fits, Rewires, IsRewire;
    RewiresExactly(cr.relsModified);
    if i :| 0 <= i < |cr.relsModified| && cr.relsModified[i].id == id {
      if IsRewire(cr.relsModified[i]) {
        assert cr.relsModified[i] in Rewires(cr.relsModified);
        var j :| 0 <= j < |Rewires(cr.relsModified)| && Rewires(cr.relsModified)[j] == cr.relsModified[i];
        assert Rewires(cr.relsModified)[j].id == id;
      }
    }
  }

  lemma RelationshipsRight(mm: Metamodel, base: Model, other: Model, cr: ChangeRequest)
    requires Setting(mm, base, other, cr)
    ensures Final(base, cr).relationships == other.relationships <==> CleanRelationships(cr)
  {
    hide Setting, AfterRewires, Clean, CleanPatch, Rewires, IsRewire;
    var got := AfterRewires(base, cr).relationships;
    FinalRelationshipKeys(mm, base, other, cr);
    forall i | 0 <= i < |cr.relsAdded|
      ensures cr.relsAdded[i].id in got
      ensures got[cr.relsAdded[i].id] == other.relationships[cr.relsAdded[i].id]
         <==> Clean(cr.relsAdded[i].state.props, |cr.elsAdded| + i)
    {
      AddedRelationship(mm, base, other, cr, i);
    }
    forall i | 0 <= i < |cr.relsModified| && !IsRewire(cr.relsModified[i])
      ensures cr.relsModified[i].id in got
      ensures got[cr.relsModified[i].id] == other.relationships[cr.relsModified[i].id]
         <==> CleanPatch(cr.relsModified[i].before.props, cr.relsModified[i].after.props, |cr.elsAdded| + |cr.relsAdded|)
    {
      UpdatedRelationship(mm, base, other, cr, i);
    }
    forall i | 0 <= i < |Rewires(cr.relsModified)|
      ensures Rewires(cr.relsModified)[i].id in got
      ensures got[Rewires(cr.relsModified)[i].id] == other.relationships[Rewires(cr.relsModified)[i].id]
         <==> Clean(Rewires(cr.relsModified)[i].after.props, |cr.elsAdded| + |cr.relsAdded| + i)
    {
      RewiredRelationship(mm, base, other, cr, i);
    }
    if CleanRelationships(cr) {
      forall id | id in other.relationships ensures got[id] == other.relationships[id] {
        RelationshipCases(mm, base, other, cr, id);
        if id in base.relationships && base.relationships[id] == other.relationships[id] {
          KeptRelationship(mm, base, other, cr, id);
        }
      }
    }
  }

  /** Whatever its bags, a relationship that lands has the endpoints it should have. */
  lemma FinalEndpoints(mm: Metamodel, base: Model, other: Model, cr: ChangeRequest, id: Id)
    requires Setting(mm, base, other, cr) && id in other.relationships
    ensures var rels := AfterRewires(base, cr).relationships;
      id in rels && rels[id] == other.relationships[id].(props := rels[id].props)
  {
    hide Setting, AfterRewires, Clean, CleanPatch, Rewires, IsRewire;
    RelationshipCases(mm, base, other, cr, id);
    if id in base.relationships && base.relationships[id] == other.relationships[id] {
      KeptRelationship(mm, base, other, cr, id);
    } else if i :| 0 <= i < |cr.relsAdded| && cr.relsAdded[i].id == id {
      AddedRelationship(mm, base, other, cr, i);
    } else if i :| 0 <= i < |cr.relsModified| && cr.relsModified[i].id == id && !IsRewire(cr.relsModified[i]) {
      UpdatedRelationship(mm, base, other, cr, i);
    } else {
      var i :| 0 <= i < |Rewires(cr.relsModified)| && Rewires(cr.relsModified)[i].id == id;
      RewiredRelationship(mm, base, other, cr, i);
    }
  }

  lemma NothingIncident(mm: Metamodel, base: Model, other: Model, cr: ChangeRequest, id: Id)
    requires Setting(mm, base, other, cr) && id !in other.elements
    ensures IncidentIds(AfterRewires(base, cr), {id}) == {}
  {
    hide AfterRewires, IsDiff, Fits, IsReserved;
    FinalRelationshipKeys(mm, base, other, cr);
    forall rid | rid in AfterRewires(base, cr).relationships
      ensures !Incident(AfterRewires(base, cr).relationships[rid], {id})
    {
      FinalEndpoints(mm, base, other, cr, rid);
    }
  }

  lemma RunElementDeletes(mm: Metamodel, mint: Mint, b: Batch, base: Model, other: Model, cr: ChangeRequest, ids: seq<Id>, dead: set<Id>)
    requires Setting(mm, base, other, cr)
    requires At(b, AfterRewires(base, cr), ids, {}, dead)
    ensures EndsAt(ApplyAll(mm, mint, b, DeleteEls(cr.elsDeleted), false), Final(base, cr), ids,
      base.elements.Keys - other.elements.Keys, dead)
  {
    hide ApplyAll, AfterRewires, MintedIds, Setting, ElementIds, IsDiff, DeleteEls, IsReserved;
    SettingDiff(mm, base, other, cr);
    ListedElements(base, other, cr);
    DeletedElements(mm, base, other, cr);
    forall i | 0 <= i < |cr.elsDeleted| ensures IncidentIds(AfterRewires(base, cr), {cr.elsDeleted[i].id}) == {} {
      NothingIncident(mm, base, other, cr, cr.elsDeleted[i].id);
    }
    DropElements(mm, mint, b, AfterRewires(base, cr), ids, cr.elsDeleted, dead);
  }

  lemma DeletedElements(mm: Metamodel, base: Model, other: Model, cr: ChangeRequest)
    requires Setting(mm, base, other, cr)
    ensures forall i :: 0 <= i < |cr.elsDeleted| ==>
      && !IsReserved(cr.elsDeleted[i].id) && cr.elsDeleted[i].id !in other.elements
      && cr.elsDeleted[i].id in AfterRewires(base, cr).elements
    ensures forall i, j :: 0 <= i < j < |cr.elsDeleted| ==> cr.elsDeleted[i].id != cr.elsDeleted[j].id
  {
    hide AfterUpdates, DiffsRelationships, IsReserved, Fits, Rewires, RewiredRels, RelationshipIds, CreatedIds;
    UpdatedElementKeys(mm, base, other, cr);
  }

  // ---- the theorem ---------------------------------------------------------------------------------------------------

  /** The compiler refuses exactly the requests that change an element's type. */
  lemma RefusedIffRetyped(base: Model, other: Model, cr: ChangeRequest)
    requires IsDiff(base, other, cr)
    ensures Compile(cr).None? <==>
      exists id :: id in base.elements && id in other.elements && base.elements[id].typeName != other.elements[id].typeName
  {
    hide DiffsRelationships, CreateEls, CreateRels, UpdateEls, UpdateRels, DeleteRels, DeleteEls, RewireOps, Rewires, TempOf;
    forall id | id in base.elements && id in other.elements && base.elements[id].typeName != other.elements[id].typeName
      ensures exists i :: 0 <= i < |cr.elsModified| && Retypes(cr.elsModified[i])
    {
      var i :| 0 <= i < |cr.elsModified| && cr.elsModified[i].id == id;
      assert Retypes(cr.elsModified[i]);
    }
  }

  /** The batch as the phases ran it. */
  lemma RunRequest(mm: Metamodel, mint: Mint, base: Model, other: Model, cr: ChangeRequest)
    requires Setting(mm, base, other, cr) && Compile(cr).Some?
    ensures var o := ApplyAll(mm, mint, StartBatch(base), Compile(cr).value, false);
      && (o.Done? <==> NoKindClash(base, other))
      && (o.Done? ==> EndsAt(o, Final(base, cr), CreatedIds(cr) + RewireIds(Rewires(cr.relsModified)),
           base.elements.Keys - other.elements.Keys, base.relationships.Keys - other.relationships.Keys))
  {
    hide ApplyAll, MintedIds, Setting, CreateEls, CreateRels, UpdateEls, UpdateRels, DeleteRels, DeleteEls, RewireOps, Rewires, TempOf,
      AfterCreates, AfterUpdates, AfterRewires, Final, CreatedIds, TempsFit, RewireIds, ElementIds;
    var temps, n := TempOf(cr.elsAdded), |cr.elsAdded| + |cr.relsAdded|;
    var creates := CreateEls(cr.elsAdded) + CreateRels(cr.relsAdded, |cr.elsAdded|, temps);
    var updates := UpdateEls(cr.elsModified) + UpdateRels(cr.relsModified);
    var moves := DeleteRels(cr.relsDeleted) + RewireOps(Rewires(cr.relsModified), n, temps);
    var deletes := DeleteEls(cr.elsDeleted);
    assert Compile(cr).value == creates + (updates + (moves + deletes));
    AllCreatedUnreserved(mm, base, other, cr);
    ApplyAllConcat(mm, mint, StartBatch(base), creates, updates + (moves + deletes), false);
    RunCreates(mm, mint, base, other, cr);
    var b1 := ApplyAll(mm, mint, StartBatch(base), creates, false);
    if b1.Done? {
      ApplyAllConcat(mm, mint, b1.batch, updates, moves + deletes, false);
      RunUpdates(mm, mint, b1.batch, base, other, cr);
      var b2 := ApplyAll(mm, mint, b1.batch, updates, false);
      ApplyAllConcat(mm, mint, b2.batch, moves, deletes, false);
      RunDeletesAndRewires(mm, mint, b2.batch, base, other, cr);
      var b3 := ApplyAll(mm, mint, b2.batch, moves, false);
      RunElementDeletes(mm, mint, b3.batch, base, other, cr,
        CreatedIds(cr) + RewireIds(Rewires(cr.relsModified)), base.relationships.Keys - other.relationships.Keys);
    }
  }

  /** Compiling the difference of two models and running it on the first: the batch
      lands exactly when no id names an element on one side and a relationship on the
      other and what it writes fits the metamodel; a batch that lands removes exactly the
      entities the request deletes, so no delete cascades past a named id; and it yields
      the second model exactly when no written property mentions a temporary id already
      minted and no patch sets a null. */
  lemma CompiledRequestLands(mm: Metamodel, mint: Mint, base: Model, other: Model, cr: ChangeRequest)
    requires Intact(base) && Intact(other) && IsDiff(base, other, cr) && Compile(cr).Some?
    ensures var o := ApplyAll(mm, mint, StartBatch(base), Compile(cr).value, false);
      && (o.Done? <==> NoKindClash(base, other) && Fits(mm, cr))
      && (o.Done? ==>
           && o.batch.deletedEls == base.elements.Keys - other.elements.Keys
           && o.batch.deletedRels == base.relationships.Keys - other.relationships.Keys
           && o.batch.model.elements.Keys == other.elements.Keys
           && (o.batch.model == other <==> CleanRequest(cr)))
  {
    hide ApplyAll, MintedIds, Final, Compile, CleanElements, CleanRelationships, IsDiff, CreatedIds, RewireIds, Rewires, Fits, Intact;
    RefusedIffRetyped(base, other, cr);
    if Fits(mm, cr) {
      RunRequest(mm, mint, base, other, cr);
      ElementsRight(mm, base, other, cr);
      RelationshipsRight(mm, base, other, cr);
    } else if ApplyAll(mm, mint, StartBatch(base), Compile(cr).value, false).Done? {
      LandedFits(mm, mint, base, other, cr);
    }
  }

  // ---- a batch that lands fits ------------------------------------------------------------------------------

  ghost predicate PatchFits(mm: Metamodel, base: Model, op: ModelOp) {
    && (op.UpdateElement? && op.id in base.elements ==> op.patch.Keys <= mm.ElementProperties(base.elements[op.id].typeName))
    && (op.UpdateRelationship? && op.id in base.relationships ==>
         op.patch.Keys <= mm.RelationshipProperties(base.relationships[op.id].typeName))
  }

  /** The old entities are there with their types, and only temporary ids are renamed. */
  ghost predicate HoldsBase(base: Model, b: Batch) {
    && (forall t :: t in b.ids ==> IsReserved(t))
    && (forall id :: id in base.elements ==> id in b.model.elements && b.model.elements[id].typeName == base.elements[id].typeName)
    && (forall id :: id in base.relationships ==>
         id in b.model.relationships && b.model.relationships[id].typeName == base.relationships[id].typeName)
  }

  lemma AcceptedCreateFits(mm: Metamodel, mint: Mint, b: Batch, op: ModelOp)
    requires ApplyOp(mm, mint, b, op, false).Done?
    ensures CreateFits(mm, op)
  {
    hide IsReserved, MergePatch, InversePatch, RestoreElements, RestoreRelationships, Subtree, Known, Note, NoteAll;
  }

  lemma AcceptedPatchFits(mm: Metamodel, mint: Mint, base: Model, b: Batch, op: ModelOp)
    requires Intact(base) && HoldsBase(base, b) && ApplyOp(mm, mint, b, op, false).Done?
    ensures PatchFits(mm, base, op)
  {
    hide IsReserved, MergePatch, InversePatch, RestoreElements, RestoreRelationships, Subtree, Known, Note, NoteAll;
  }

  lemma BaseStillHeld(mm: Metamodel, mint: Mint, base: Model, b: Batch, op: ModelOp)
    requires HoldsBase(base, b) && ApplyOp(mm, mint, b, op, false).Done? && !op.DeleteElement? && !op.DeleteRelationship?
    ensures HoldsBase(base, ApplyOp(mm, mint, b, op, false).batch)
  {
    hide IsReserved, MergePatch, InversePatch, RestoreElements, RestoreRelationships, Subtree, Known, Note, NoteAll, ResolveProps;
  }

  lemma {:induction false} AcceptedCreatesFit(mm: Metamodel, mint: Mint, b: Batch, ops: seq<ModelOp>)
    requires ApplyAll(mm, mint, b, ops, false).Done?
    ensures forall op :: op in ops ==> CreateFits(mm, op)
    decreases |ops|
  {
    hide ApplyOp, CreateFits, PatchFits, HoldsBase, Intact;
    if ops != [] {
      AcceptedCreateFits(mm, mint, b, ops[0]);
      AcceptedCreatesFit(mm, mint, ApplyOp(mm, mint, b, ops[0], false).batch, ops[1..]);
      assert forall op :: op in ops ==> op == ops[0] || op in ops[1..];
    }
  }

  lemma {:induction false} AcceptedPatchesFit(mm: Metamodel, mint: Mint, base: Model, b: Batch, ops: seq<ModelOp>)
    requires Intact(base) && HoldsBase(base, b) && ApplyAll(mm, mint, b, ops, false).Done?
    requires forall op :: op in ops ==> !op.DeleteElement? && !op.DeleteRelationship?
    ensures forall op :: op in ops ==> PatchFits(mm, base, op)
    decreases |ops|
  {
    hide ApplyOp, CreateFits, PatchFits, HoldsBase, Intact;
    if ops != [] {
      AcceptedPatchFits(mm, mint, base, b, ops[0]);
      BaseStillHeld(mm, mint, base, b, ops[0]);
      AcceptedPatchesFit(mm, mint, base, ApplyOp(mm, mint, b, ops[0], false).batch, ops[1..]);
      assert forall op :: op in ops ==> op == ops[0] || op in ops[1..];
    }
  }

  lemma {:induction false} CreateElsHave(added: seq<NamedElement>)
    ensures forall i :: 0 <= i < |added| ==>
      CreateElement(Temp(i + 1), added[i].state.typeName, added[i].state.props, Some(added[i].id)) in CreateEls(added)
    ensures forall op :: op in CreateEls(added) ==> op.CreateElement?
  {
    hide Temp;
    if added != [] {
      CreateElsHave(added[..|added| - 1]);
      assert forall i :: 0 <= i < |added| - 1 ==> added[..|added| - 1][i] == added[i];
    }
  }

  lemma {:induction false} CreateRelsHave(added: seq<NamedRelationship>, n: nat, temps: map<Id, Id>)
    ensures forall i :: 0 <= i < |added| ==> CreateRel(added[i].id, added[i].state, n + i + 1, temps) in CreateRels(added, n, temps)
    ensures forall op :: op in CreateRels(added, n, temps) ==> op.CreateRelationship?
  {
    if added != [] {
      CreateRelsHave(added[..|added| - 1], n, temps);
      assert forall i :: 0 <= i < |added| - 1 ==> added[..|added| - 1][i] == added[i];
    }
  }

  lemma {:induction false} UpdateElsHave(modified: seq<ModifiedElement>)
    ensures forall i :: 0 <= i < |modified| ==>
      var patch := DiffToMergePatch(modified[i].before.props, modified[i].after.props);
      patch == map[] || UpdateElement(modified[i].id, patch) in UpdateEls(modified)
    ensures forall op :: op in UpdateEls(modified) ==> op.UpdateElement?
  {
    hide DiffToMergePatch;
    if modified != [] {
      UpdateElsHave(modified[..|modified| - 1]);
      assert forall i :: 0 <= i < |modified| - 1 ==> modified[..|modified| - 1][i] == modified[i];
    }
  }

  lemma {:induction false} UpdateRelsHave(modified: seq<ModifiedRelationship>)
    ensures forall i :: 0 <= i < |modified| && !IsRewire(modified[i]) ==>
      var patch := DiffToMergePatch(modified[i].before.props, modified[i].after.props);
      patch == map[] || UpdateRelationship(modified[i].id, patch) in UpdateRels(modified)
    ensures forall op :: op in UpdateRels(modified) ==> op.UpdateRelationship?
  {
    hide DiffToMergePatch, IsRewire;
    if modified != [] {
      UpdateRelsHave(modified[..|modified| - 1]);
      assert forall i :: 0 <= i < |modified| - 1 ==> modified[..|modified| - 1][i] == modified[i];
    }
  }

  lemma {:induction false} RewireOpsHave(rewires: seq<ModifiedRelationship>, n: nat, temps: map<Id, Id>)
    ensures forall i :: 0 <= i < |rewires| ==> CreateRel(rewires[i].id, rewires[i].after, n + i + 1, temps) in RewireOps(rewires, n, temps)
  {
    if rewires != [] {
      RewireOpsHave(rewires[..|rewires| - 1], n, temps);
      assert forall i :: 0 <= i < |rewires| - 1 ==> rewires[..|rewires| - 1][i] == rewires[i];
    }
  }

  lemma LandedElementsFit(mm: Metamodel, base: Model, other: Model, cr: ChangeRequest, ops: seq<ModelOp>)
    requires IsDiff(base, other, cr)
    requires forall op :: op in ops ==> CreateFits(mm, op) && PatchFits(mm, base, op)
    requires forall op :: op in CreateEls(cr.elsAdded) || op in UpdateEls(cr.elsModified) ==> op in ops
    ensures FitsElements(mm, cr)
  {
    hide DiffsRelationships, DiffToMergePatch, Temp;
    CreateElsHave(cr.elsAdded);
    UpdateElsHave(cr.elsModified);
    forall i | 0 <= i < |cr.elsAdded| ensures FitsElement(mm, cr.elsAdded[i].state) {
      assert CreateFits(mm, CreateElement(Temp(i + 1), cr.elsAdded[i].state.typeName, cr.elsAdded[i].state.props, Some(cr.elsAdded[i].id)));
    }
    forall i | 0 <= i < |cr.elsModified|
      ensures var x := cr.elsModified[i]; CanPatch(mm.ElementProperties(x.before.typeName), x.before.props, x.after.props)
    {
      var x := cr.elsModified[i];
      var patch := DiffToMergePatch(x.before.props, x.after.props);
      assert patch == map[] || PatchFits(mm, base, UpdateElement(x.id, patch));
    }
  }

  lemma LandedRewireFits(mm: Metamodel, cr: ChangeRequest, x: ModifiedRelationship)
    requires x in Rewires(cr.relsModified)
    requires forall op :: op in RewireOps(Rewires(cr.relsModified), |cr.elsAdded| + |cr.relsAdded|, TempOf(cr.elsAdded)) ==> CreateFits(mm, op)
    ensures FitsRelationship(mm, x.after)
  {
    hide Temp, TempOf, RewireOps, Rewires;
    var n, temps := |cr.elsAdded| + |cr.relsAdded|, TempOf(cr.elsAdded);
    RewireOpsHave(Rewires(cr.relsModified), n, temps);
    var j :| 0 <= j < |Rewires(cr.relsModified)| && Rewires(cr.relsModified)[j] == x;
    assert CreateFits(mm, CreateRel(x.id, x.after, n + j + 1, temps));
  }

  lemma {:induction false} RewireIn(modified: seq<ModifiedRelationship>, i: nat)
    requires i < |modified| && IsRewire(modified[i])
    ensures modified[i] in Rewires(modified)
  {
    hide IsRewire;
    if i < |modified| - 1 {
      assert modified[..|modified| - 1][i] == modified[i];
      RewireIn(modified[..|modified| - 1], i);
    }
  }

  lemma LandedRelationshipsFit(mm: Metamodel, base: Model, other: Model, cr: ChangeRequest, ops: seq<ModelOp>)
    requires DiffsRelationships(base.relationships, other.relationships, cr)
    requires forall op :: op in ops ==> CreateFits(mm, op) && PatchFits(mm, base, op)
    requires forall op :: op in RewireOps(Rewires(cr.relsModified), |cr.elsAdded| + |cr.relsAdded|, TempOf(cr.elsAdded)) ==> CreateFits(mm, op)
    requires forall op :: op in CreateRels(cr.relsAdded, |cr.elsAdded|, TempOf(cr.elsAdded)) || op in UpdateRels(cr.relsModified) ==> op in ops
    ensures FitsRelationships(mm, cr)
  {
    hide DiffToMergePatch, Temp, TempOf, IsRewire, RewireOps, Rewires, CreateRels, UpdateRels;
    var temps := TempOf(cr.elsAdded);
    CreateRelsHave(cr.relsAdded, |cr.elsAdded|, temps);
    UpdateRelsHave(cr.relsModified);
    forall i | 0 <= i < |cr.relsAdded| ensures FitsRelationship(mm, cr.relsAdded[i].state) {
      assert CreateFits(mm, CreateRel(cr.relsAdded[i].id, cr.relsAdded[i].state, |cr.elsAdded| + i + 1, temps));
    }
    forall i | 0 <= i < |cr.relsModified|
      ensures var x := cr.relsModified[i];
        if IsRewire(x) then FitsRelationship(mm, x.after)
        else CanPatch(mm.RelationshipProperties(x.before.typeName), x.before.props, x.after.props)
    {
      var x := cr.relsModified[i];
      if IsRewire(x) {
        RewireIn(cr.relsModified, i);
        LandedRewireFits(mm, cr, x);
      } else {
        var patch := DiffToMergePatch(x.before.props, x.after.props);
        assert patch == map[] || PatchFits(mm, base, UpdateRelationship(x.id, patch));
      }
    }
  }

  lemma LandedFits(mm: Metamodel, mint: Mint, base: Model, other: Model, cr: ChangeRequest)
    requires Intact(base) && IsDiff(base, other, cr) && Compile(cr).Some?
    requires ApplyAll(mm, mint, StartBatch(base), Compile(cr).value, false).Done?
    ensures Fits(mm, cr)
  {
    hide ApplyAll, DiffsElements, DiffsRelationships, Intact, CreateEls, CreateRels, UpdateEls, UpdateRels, DeleteRels, DeleteEls, RewireOps, Rewires, TempOf,
      CreateFits, PatchFits, FitsElements, FitsRelationships;
    var temps := TempOf(cr.elsAdded);
    var ops := CreateEls(cr.elsAdded) + CreateRels(cr.relsAdded, |cr.elsAdded|, temps) + UpdateEls(cr.elsModified) + UpdateRels(cr.relsModified);
    var rewired := RewireOps(Rewires(cr.relsModified), |cr.elsAdded| + |cr.relsAdded|, temps);
    var rest := DeleteRels(cr.relsDeleted) + rewired + DeleteEls(cr.elsDeleted);
    assert Compile(cr).value == ops + rest;
    ApplyAllConcat(mm, mint, StartBatch(base), ops, rest, false);
    CreateElsHave(cr.elsAdded);
    CreateRelsHave(cr.relsAdded, |cr.elsAdded|, temps);
    UpdateElsHave(cr.elsModified);
    UpdateRelsHave(cr.relsModified);
    AcceptedCreatesFit(mm, mint, StartBatch(base), Compile(cr).value);
    AcceptedPatchesFit(mm, mint, base, StartBatch(base), ops);
    assert forall op :: op in ops || op in rewired ==> op in Compile(cr).value;
    LandedElementsFit(mm, base, other, cr, ops);
    LandedRelationshipsFit(mm, base, other, cr, ops);
  }

  /** Between two models that conform, every request fits. */
  lemma ConformingFits(mm: Metamodel, base: Model, other: Model, cr: ChangeRequest)
    requires Conforms(mm, base) && Conforms(mm, other) && IsDiff(base, other, cr) && Compile(cr).Some?
    ensures Fits(mm, cr)
  {
    hide Compile, FitsElements, FitsRelationships, Conforms, DiffsElements, DiffsRelationships;
    RefusedIffRetyped(base, other, cr);
    ElementsConform(mm, base, other, cr);
    RelationshipsConform(mm, base, other, cr);
  }

  lemma ElementsConform(mm: Metamodel, base: Model, other: Model, cr: ChangeRequest)
    requires Conforms(mm, base) && Conforms(mm, other) && DiffsElements(base.elements, other.elements, cr)
    requires forall id :: id in base.elements && id in other.elements ==> base.elements[id].typeName == other.elements[id].typeName
    ensures FitsElements(mm, cr)
  {
    forall i | 0 <= i < |cr.elsModified|
      ensures var x := cr.elsModified[i]; CanPatch(mm.ElementProperties(x.before.typeName), x.before.props, x.after.props)
    {
      var x := cr.elsModified[i];
      assert x.before == base.elements[x.id] && x.after == other.elements[x.id];
    }
  }

  lemma RelationshipsConform(mm: Metamodel, base: Model, other: Model, cr: ChangeRequest)
    requires Conforms(mm, base) && Conforms(mm, other) && DiffsRelationships(base.relationships, other.relationships, cr)
    ensures FitsRelationships(mm, cr)
  {
    forall i | 0 <= i < |cr.relsModified|
      ensures var x := cr.relsModified[i];
        if IsRewire(x) then FitsRelationship(mm, x.after)
        else CanPatch(mm.RelationshipProperties(x.before.typeName), x.before.props, x.after.props)
    {
      var x := cr.relsModified[i];
      assert x.before == base.relationships[x.id] && x.after == other.relationships[x.id];
    }
  }

  // ---- when bags are clean, and when one is not -------------------------------------------------------------------------

  ghost predicate MentionsNoReserved(props: Props) {
    forall k, s :: k in props && IsReserved(s) ==> !Mentions(props[k], s)
  }

  /** Models without nulls whose property strings never look like temporary ids are
      always clean. */
  lemma PlainModelsAreClean(base: Model, other: Model, cr: ChangeRequest)
    requires IsDiff(base, other, cr) && ModelNullFree(other)
    requires forall id :: id in other.elements ==> MentionsNoReserved(other.elements[id].props)
    requires forall id :: id in other.relationships ==> MentionsNoReserved(other.relationships[id].props)
    ensures CleanRequest(cr)
  {
    hide CleanElements, CleanRelationships, MentionsNoReserved, NullFree;
    PlainElementsAreClean(base, other, cr);
    PlainRelationshipsAreClean(base, other, cr);
  }

  lemma PlainElementsAreClean(base: Model, other: Model, cr: ChangeRequest)
    requires DiffsElements(base.elements, other.elements, cr)
    requires forall id :: id in other.elements ==> MentionsNoReserved(other.elements[id].props) && NullFree(other.elements[id].props)
    ensures CleanElements(cr)
  {
    hide Clean, CleanPatch, MentionsNoReserved, NullFree;
    forall i | 0 <= i < |cr.elsAdded| ensures Clean(cr.elsAdded[i].state.props, i) {
      PlainIsClean(cr.elsAdded[i].state.props, i);
    }
    forall i | 0 <= i < |cr.elsModified|
      ensures CleanPatch(cr.elsModified[i].before.props, cr.elsModified[i].after.props, |cr.elsAdded| + |cr.relsAdded|)
    {
      PlainPatch(cr.elsModified[i].before.props, cr.elsModified[i].after.props, |cr.elsAdded| + |cr.relsAdded|);
    }
  }

  lemma PlainRelationshipsAreClean(base: Model, other: Model, cr: ChangeRequest)
    requires DiffsRelationships(base.relationships, other.relationships, cr)
    requires forall id :: id in other.relationships ==>
      MentionsNoReserved(other.relationships[id].props) && NullFree(other.relationships[id].props)
    ensures CleanRelationships(cr)
  {
    hide Rewires, IsRewire, Clean, CleanPatch, MentionsNoReserved, NullFree;
    forall i | 0 <= i < |cr.relsAdded| ensures Clean(cr.relsAdded[i].state.props, |cr.elsAdded| + i) {
      PlainIsClean(cr.relsAdded[i].state.props, |cr.elsAdded| + i);
    }
    forall i | 0 <= i < |cr.relsModified|
      ensures CleanPatch(cr.relsModified[i].before.props, cr.relsModified[i].after.props, |cr.elsAdded| + |cr.relsAdded|)
    {
      PlainPatch(cr.relsModified[i].before.props, cr.relsModified[i].after.props, |cr.elsAdded| + |cr.relsAdded|);
    }
    RewiresExactly(cr.relsModified);
    forall i | 0 <= i < |Rewires(cr.relsModified)|
      ensures Clean(Rewires(cr.relsModified)[i].after.props, |cr.elsAdded| + |cr.relsAdded| + i)
    {
      assert Rewires(cr.relsModified)[i] in cr.relsModified;
      PlainIsClean(Rewires(cr.relsModified)[i].after.props, |cr.elsAdded| + |cr.relsAdded| + i);
    }
  }

  lemma PlainIsClean(props: Props, n: nat)
    requires MentionsNoReserved(props)
    ensures Clean(props, n)
  {
    forall k, j: nat | k in props && 1 <= j <= n ensures !Mentions(props[k], Temp(j)) {
      TempReserved(j);
    }
  }

  lemma PlainPatch(before: Props, after: Props, n: nat)
    requires MentionsNoReserved(after) && NullFree(after)
    ensures CleanPatch(before, after, n)
  {
    var patch := DiffToMergePatch(before, after);
    forall k, j: nat | k in patch && 1 <= j <= n ensures !Mentions(patch[k], Temp(j)) {
      TempReserved(j);
      assert patch[k] == (if k in after then after[k] else Null);
    }
  }

  /** The smallest requests that go wrong: two new elements, the second with a note
      that reads "tmp_1". The batch lands, but the note is rewritten to the first
      element's id. */
  lemma NoteReadingTmp1(mint: Mint, a: Id, b: Id)
    requires a != b && !IsReserved(a) && !IsReserved(b)
    ensures var mm := Metamodel(map["T" := ElementType(false, {"T"}, {"note"})], map[]);
      var base, other := Model(map[], map[]), TwoElements(a, b);
      var cr := ChangeRequest([Named(a, other.elements[a]), Named(b, other.elements[b])], [], [], [], [], []);
      && Setting(mm, base, other, cr) && Compile(cr).Some?
      && var o := ApplyAll(mm, mint, StartBatch(base), Compile(cr).value, false);
        o.Done? && o.batch.model != other
  {
    hide ApplyAll, Compile, MintedIds, Setting, Temp, CleanRelationships;
    var mm := Metamodel(map["T" := ElementType(false, {"T"}, {"note"})], map[]);
    var base, other := Model(map[], map[]), TwoElements(a, b);
    var cr := ChangeRequest([Named(a, other.elements[a]), Named(b, other.elements[b])], [], [], [], [], []);
    TwoElementsSetting(mm, a, b);
    SettingParts(mm, base, other, cr);
    RefusedIffRetyped(base, other, cr);
    CompiledRequestLands(mm, mint, base, other, cr);
    var note := cr.elsAdded[1].state.props;
    assert "note" in note && Mentions(note["note"], Temp(1));
    assert !Clean(note, 1);
  }

  function TwoElements(a: Id, b: Id): Model {
    Model(map[a := Element("T", map[]), b := Element("T", map["note" := Str(Temp(1))])], map[])
  }

  lemma TwoElementsSetting(mm: Metamodel, a: Id, b: Id)
    requires a != b && !IsReserved(a) && !IsReserved(b)
    requires mm == Metamodel(map["T" := ElementType(false, {"T"}, {"note"})], map[])
    ensures var base, other := Model(map[], map[]), TwoElements(a, b);
      var cr := ChangeRequest([Named(a, other.elements[a]), Named(b, other.elements[b])], [], [], [], [], []);
      Setting(mm, base, other, cr)
  {
    hide IsReserved, Temp;
    var other := TwoElements(a, b);
    var cr := ChangeRequest([Named(a, other.elements[a]), Named(b, other.elements[b])], [], [], [], [], []);
    assert cr.elsAdded[0].id == a && cr.elsAdded[1].id == b;
  }

  /** The smallest request that moves an id across kinds: the relationship `x` goes, an
      element `x` comes. It fits the metamodel, yet its batch is refused, since elements
      are created before relationships are deleted. */
  lemma KindMoveIsRefused(mint: Mint, a: Id, x: Id)
    requires a != x && !IsReserved(a) && !IsReserved(x)
    ensures var mm := Metamodel(map["T" := ElementType(false, {"T"}, {})], map["R" := RelationshipType(false, {})]);
      var el, rel := Element("T", map[]), Relationship("R", a, a, map[]);
      var base, other := Model(map[a := el], map[x := rel]), Model(map[a := el, x := el], map[]);
      var cr := ChangeRequest([Named(x, el)], [], [], [], [], [Named(x, rel)]);
      && Intact(base) && Intact(other) && IsDiff(base, other, cr) && Compile(cr).Some? && Fits(mm, cr)
      && ApplyAll(mm, mint, StartBatch(base), Compile(cr).value, false).Failed?
  {
    hide ApplyAll, Compile, IsReserved, CleanRequest;
    var mm := Metamodel(map["T" := ElementType(false, {"T"}, {})], map["R" := RelationshipType(false, {})]);
    var el, rel := Element("T", map[]), Relationship("R", a, a, map[]);
    var base, other := Model(map[a := el], map[x := rel]), Model(map[a := el, x := el], map[]);
    var cr := ChangeRequest([Named(x, el)], [], [], [], [], [Named(x, rel)]);
    assert cr.elsAdded[0].id == x && cr.relsDeleted[0].id == x;
    RefusedIffRetyped(base, other, cr);
    assert x in base.relationships.Keys && x in other.elements.Keys;
    CompiledRequestLands(mm, mint, base, other, cr);
  }
}
