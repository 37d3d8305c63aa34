/** What an import plan says of each artifact, and when the user's answers to it are
    refused, in terms of the rows and the bundle (api/artifact_bundle.py). */
module ImportEffects {
  import opened Collections
  import opened Json
  import opened ArtifactStore
  import opened ArtifactRefs
  import opened ArtifactClosure
  import opened ImportPlan
  import Text

  predicate HeldBy(rows: Rows, project: Id, kind: string, name: string, id: Id) {
    id in rows && rows[id].project == project && rows[id].kind == kind && rows[id].name == name
  }

  ghost predicate Held(rows: Rows, project: Id, kind: string, name: string) {
    exists id :: HeldBy(rows, project, kind, name, id)
  }

  lemma FoundIsHeld(rows: Rows, project: Id, kind: string, name: string)
    ensures var found := Find(rows, project, Slot(kind, name));
      (found.Some? <==> Held(rows, project, kind, name)) && (found.Some? ==> HeldBy(rows, project, kind, name, found.value))
  {
    forall id ensures Holds(rows, project, Slot(kind, name), id) <==> HeldBy(rows, project, kind, name, id) {
    }
  }

  // ---- which artifacts are planned -------------------------------------------------------------

  /** Those that are named, of a known and writable kind, and valid. */
  lemma {:induction false} PlannedAre(h: Host, arts: seq<BundleArtifact>)
    ensures forall a :: a in ValidArts(h, arts) <==> a in arts && Fit(h.reg, h.known, a, false)
  {
    ValidExactly(h, arts);
    forall a ensures PlanSkip(h, a).None? <==> Fit(h.reg, h.known, a, false) {
    }
  }

  // ---- what an entry says ------------------------------------------------------------------------

  /** A row, a bundled artifact or an earlier proposal goes by the name. */
  ghost predicate InUse(rows: Rows, project: Id, valid: seq<BundleArtifact>, earlier: seq<PlanEntry>, kind: string, name: string) {
    || Held(rows, project, kind, name)
    || (exists a :: a in valid && a.kind == kind && a.name == name)
    || exists e :: e in earlier && e.kind == kind && e.copyName == Some(name)
  }

  /** The smallest number from 2 on whose suffix is not in use. */
  ghost predicate Proposes(rows: Rows, project: Id, valid: seq<BundleArtifact>, earlier: seq<PlanEntry>, e: PlanEntry, n: nat) {
    && n >= 2 && e.copyName == Some(e.name + " (" + Text.Decimal(n) + ")")
    && !InUse(rows, project, valid, earlier, e.kind, e.name + " (" + Text.Decimal(n) + ")")
    && forall m: nat :: 2 <= m < n ==> InUse(rows, project, valid, earlier, e.kind, e.name + " (" + Text.Decimal(m) + ")")
  }

  ghost predicate ClashesAt(rows: Rows, project: Id, valid: seq<BundleArtifact>, ref: Id, i: nat) {
    i < |valid| && valid[i].id == ref && Held(rows, project, valid[i].kind, valid[i].name)
  }

  ghost predicate LastClash(rows: Rows, project: Id, valid: seq<BundleArtifact>, ref: Id, i: nat) {
    ClashesAt(rows, project, valid, ref, i) && forall j: nat :: i < j ==> !ClashesAt(rows, project, valid, ref, j)
  }

  /** The row that a reference to a clashing sibling would go to if all were reused. */
  ghost predicate WouldBe(rows: Rows, project: Id, valid: seq<BundleArtifact>, ref: Id, to: Id) {
    || (exists i: nat :: LastClash(rows, project, valid, ref, i) && HeldBy(rows, project, valid[i].kind, valid[i].name, to))
    || (to == ref && forall i: nat :: !ClashesAt(rows, project, valid, ref, i))
  }

  /** The payload as it would be stored if every clashing sibling were reused. */
  ghost predicate Pointed(rows: Rows, project: Id, valid: seq<BundleArtifact>, p: Json, x: Json) {
    forall path ::
      if RefPosition(p, path) && At(p, path).Some? && At(p, path).value.Str?
      then At(x, path).Some? && At(x, path).value.Str? && WouldBe(rows, project, valid, At(p, path).value.s, At(x, path).value.s)
      else Swapped(At(p, path), At(x, path), map[])
  }

  ghost predicate SameAs(h: Host, rows: Rows, project: Id, valid: seq<BundleArtifact>, a: BundleArtifact, id: Id, same: bool) {
    && id in rows
    && exists x ::
      Pointed(rows, project, valid, h.reg.derive(a.kind, a.payload), x) && same == (h.canonical(x) == h.canonical(h.reg.derive(a.kind, rows[id].payload)))
  }

  /** A name no row holds is a create. Else the entry names the row, proposes the next
      free suffix, and proposes to reuse the row exactly if it has the same content. */
  ghost predicate EntryFor(h: Host, rows: Rows, project: Id, valid: seq<BundleArtifact>, earlier: seq<PlanEntry>, a: BundleArtifact, e: PlanEntry) {
    && e.bundleId == a.id && e.kind == a.kind && e.name == a.name
    && if !Held(rows, project, a.kind, a.name) then e.action == Create && e.existing == None && e.copyName == None else
      && e.existing.Some? && HeldBy(rows, project, a.kind, a.name, e.existing.value)
      && (exists n :: Proposes(rows, project, valid, earlier, e, n))
      && e.action != Create && SameAs(h, rows, project, valid, a, e.existing.value, e.action == Reuse)
  }

  lemma {:induction false} TentativeIs(rows: Rows, project: Id, valid: seq<BundleArtifact>, ref: Id)
    ensures WouldBe(rows, project, valid, ref, GetOr(Tentative(rows, project, valid), ref, ref))
    ensures ref in Tentative(rows, project, valid) <==> exists i: nat :: ClashesAt(rows, project, valid, ref, i)
  {
    hide Held, HeldBy, Find;
    if valid != [] {
      var n := |valid| - 1;
      var a, front := valid[n], valid[..n];
      TentativeIs(rows, project, front, ref);
      FoundIsHeld(rows, project, a.kind, a.name);
      var here := a.id == ref && Held(rows, project, a.kind, a.name);
      forall i: nat ensures ClashesAt(rows, project, valid, ref, i) <==> ClashesAt(rows, project, front, ref, i) || (i == n && here) {
      }
      if here {
        assert LastClash(rows, project, valid, ref, n);
      } else if ref in Tentative(rows, project, front) {
        var to := Tentative(rows, project, front)[ref];
        var i: nat :| LastClash(rows, project, front, ref, i) && HeldBy(rows, project, front[i].kind, front[i].name, to);
        assert LastClash(rows, project, valid, ref, i) && valid[i] == front[i];
      }
    }
  }

  lemma RewrittenIsPointed(rows: Rows, project: Id, valid: seq<BundleArtifact>, p: Json)
    ensures Pointed(rows, project, valid, p, Rewrite(p, Tentative(rows, project, valid)))
  {
    hide WouldBe, Tentative, Rewrite;
    var ids := Tentative(rows, project, valid);
    forall path
      ensures var x := Rewrite(p, ids);
        if RefPosition(p, path) && At(p, path).Some? && At(p, path).value.Str?
        then At(x, path).Some? && At(x, path).value.Str? && WouldBe(rows, project, valid, At(p, path).value.s, At(x, path).value.s)
        else Swapped(At(p, path), At(x, path), map[])
    {
      RewriteAt(p, ids, path);
      if RefPosition(p, path) && At(p, path).Some? && At(p, path).value.Str? {
        TentativeIs(rows, project, valid, At(p, path).value.s);
      }
    }
  }

  /** Which artifact made an entry, and the plan it was added to. */
  lemma {:induction false} EntryMade(h: Host, rows: Rows, project: Id, tentative: map<Id, Id>, start: Plan, arts: seq<BundleArtifact>, k: nat) returns (i: nat)
    requires start.entries == [] && k < |PlanAll(h, rows, project, tentative, start, arts).entries|
    ensures i < |arts|
    ensures var all, before := PlanAll(h, rows, project, tentative, start, arts), PlanAll(h, rows, project, tentative, start, arts[..i]);
      && before.entries == all.entries[..k]
      && PlanStep(h, rows, project, tentative, before, arts[i]).entries == before.entries + [all.entries[k]]
  {
    hide Find, FreeName, SameContent, NamesOf;
    var n := |arts| - 1;
    var front := PlanAll(h, rows, project, tentative, start, arts[..n]);
    if k < |front.entries| {
      i := EntryMade(h, rows, project, tentative, start, arts[..n], k);
      assert arts[..n][..i] == arts[..i];
    } else {
      i := n;
    }
  }

  lemma {:induction false} TakenAre(h: Host, rows: Rows, project: Id, tentative: map<Id, Id>, start: Plan, arts: seq<BundleArtifact>)
    requires start.entries == []
    ensures var p := PlanAll(h, rows, project, tentative, start, arts);
      forall s :: s in p.taken <==> s in start.taken || exists e :: e in p.entries && e.kind == s.kind && e.copyName == Some(s.name)
  {
    hide Find, FreeName, SameContent, NamesOf;
    if arts != [] {
      var n := |arts| - 1;
      TakenAre(h, rows, project, tentative, start, arts[..n]);
      var p, next := PlanAll(h, rows, project, tentative, start, arts[..n]), PlanAll(h, rows, project, tentative, start, arts);
      if |next.entries| > |p.entries| {
        var e := next.entries[|p.entries|];
        assert forall x :: x in next.entries <==> x in p.entries || x == e;
      }
    }
  }

  lemma UsedNames(h: Host, rows: Rows, project: Id, valid: seq<BundleArtifact>, p: Plan, kind: string, name: string)
    requires kind in KindsOf(valid)
    requires forall s :: s in p.taken <==>
      s in InitiallyTaken(rows, project, valid) || exists e :: e in p.entries && e.kind == s.kind && e.copyName == Some(s.name)
    ensures name in NamesOf(p.taken, kind) <==> InUse(rows, project, valid, p.entries, kind, name)
  {
    NamesOfExactly(p.taken, kind);
    assert Slot(kind, name) in p.taken <==>
      Slot(kind, name) in InitiallyTaken(rows, project, valid) || exists e :: e in p.entries && e.kind == kind && e.copyName == Some(name);
    assert Slot(kind, name) in SlotsOf(valid) <==> exists a :: a in valid && a.kind == kind && a.name == name;
    RowNames(rows, project, valid, kind, name);
  }

  lemma RowNames(rows: Rows, project: Id, valid: seq<BundleArtifact>, kind: string, name: string)
    requires kind in KindsOf(valid)
    ensures Slot(kind, name) in InitiallyTaken(rows, project, valid) <==> Slot(kind, name) in SlotsOf(valid) || Held(rows, project, kind, name)
  {
    if Held(rows, project, kind, name) {
      var id :| HeldBy(rows, project, kind, name, id);
      assert SlotOf(rows[id]) == Slot(kind, name);
    }
    forall id | id in rows && rows[id].project == project && SlotOf(rows[id]) == Slot(kind, name) ensures Held(rows, project, kind, name) {
      assert HeldBy(rows, project, kind, name, id);
    }
  }

  /** Each entry of a plan is that of one bundled artifact, in bundle order. */
  lemma PlanEntryIs(h: Host, rows: Rows, project: Id, arts: seq<BundleArtifact>, k: nat) returns (i: nat)
    requires k < |PlanFor(h, rows, project, arts).entries|
    ensures var valid, all := ValidArts(h, arts), PlanFor(h, rows, project, arts).entries;
      i < |valid| && EntryFor(h, rows, project, valid, all[..k], valid[i], all[k])
  {
    hide Find, FreeName, Held, HeldBy, InUse, InitiallyTaken, Pointed, ValidArts, Rewrite, NamesOf, Tentative, PlanStep, Proposes;
    var valid := ValidArts(h, arts);
    var tentative, start := Tentative(rows, project, valid), Plan([], [], InitiallyTaken(rows, project, valid), {});
    i := EntryMade(h, rows, project, tentative, start, valid, k);
    TakenAre(h, rows, project, tentative, start, valid[..i]);
    StepMakes(h, rows, project, valid, PlanAll(h, rows, project, tentative, start, valid[..i]), valid[i], PlanFor(h, rows, project, arts).entries[k]);
  }

  lemma StepMakes(h: Host, rows: Rows, project: Id, valid: seq<BundleArtifact>, p: Plan, a: BundleArtifact, e: PlanEntry)
    requires a in valid && PlanStep(h, rows, project, Tentative(rows, project, valid), p, a).entries == p.entries + [e]
    requires forall s :: s in p.taken <==>
      s in InitiallyTaken(rows, project, valid) || exists e :: e in p.entries && e.kind == s.kind && e.copyName == Some(s.name)
    ensures EntryFor(h, rows, project, valid, p.entries, a, e)
  {
    hide Find, FreeName, Held, HeldBy, InUse, InitiallyTaken, Pointed, Rewrite, NamesOf, Tentative, Proposes, SameContent;
    FoundIsHeld(rows, project, a.kind, a.name);
    var found := Find(rows, project, Slot(a.kind, a.name));
    if found.Some? {
      assert e == (p.entries + [e])[|p.entries|];
      CopyIsProposed(h, rows, project, valid, p, a, e);
      ContentCompared(h, rows, project, valid, a, found.value);
    } else {
      assert |PlanStep(h, rows, project, Tentative(rows, project, valid), p, a).entries| == |p.entries| + 1;
    }
  }

  lemma ContentCompared(h: Host, rows: Rows, project: Id, valid: seq<BundleArtifact>, a: BundleArtifact, id: Id)
    requires id in rows
    ensures SameAs(h, rows, project, valid, a, id, SameContent(h, a, rows[id], Tentative(rows, project, valid)))
  {
    hide Pointed, Rewrite, Tentative;
    RewrittenIsPointed(rows, project, valid, h.reg.derive(a.kind, a.payload));
  }

  lemma CopyIsProposed(h: Host, rows: Rows, project: Id, valid: seq<BundleArtifact>, p: Plan, a: BundleArtifact, e: PlanEntry)
    requires a in valid && e.kind == a.kind && e.name == a.name
    requires e.copyName == Some(FreeName(NamesOf(p.taken, a.kind), a.name))
    requires forall s :: s in p.taken <==>
      s in InitiallyTaken(rows, project, valid) || exists e :: e in p.entries && e.kind == s.kind && e.copyName == Some(s.name)
    ensures exists n :: Proposes(rows, project, valid, p.entries, e, n)
  {
    hide InUse, InitiallyTaken, NamesOf;
    var taken := NamesOf(p.taken, a.kind);
    forall name ensures name in taken <==> InUse(rows, project, valid, p.entries, a.kind, name) {
      UsedNames(h, rows, project, valid, p, a.kind, name);
    }
    var n := FreeNumber(taken, a.name);
    forall m: nat | 2 <= m < n ensures InUse(rows, project, valid, p.entries, e.kind, e.name + " (" + Text.Decimal(m) + ")") {
      assert Suffixed(a.name, m) in taken;
    }
    assert Suffixed(a.name, n) !in taken;
    assert Proposes(rows, project, valid, p.entries, e, n);
  }

  predicate SameName(a: BundleArtifact, c: BundleArtifact) {
    a.kind == c.kind && a.name == c.name
  }

  predicate EntryOf(e: PlanEntry, a: BundleArtifact) {
    e.bundleId == a.id && e.kind == a.kind && e.name == a.name
  }

  /** A new name that an earlier artifact of the bundle has too. */
  ghost predicate Twin(rows: Rows, project: Id, arts: seq<BundleArtifact>, i: nat)
    requires i < |arts|
  {
    !Held(rows, project, arts[i].kind, arts[i].name) && exists j :: 0 <= j < i && SameName(arts[j], arts[i])
  }

  lemma {:induction false} ClaimedAre(h: Host, rows: Rows, project: Id, tentative: map<Id, Id>, start: Plan, arts: seq<BundleArtifact>)
    requires start.claimed == {}
    ensures forall s :: s in PlanAll(h, rows, project, tentative, start, arts).claimed <==>
      !Held(rows, project, s.kind, s.name) && exists a :: a in arts && a.kind == s.kind && a.name == s.name
  {
    hide Find, FreeName, SameContent, NamesOf, Held;
    if arts != [] {
      var n := |arts| - 1;
      ClaimedAre(h, rows, project, tentative, start, arts[..n]);
      FoundIsHeld(rows, project, arts[n].kind, arts[n].name);
      assert forall a :: a in arts <==> a in arts[..n] || a == arts[n];
    }
  }

  /** A bundled artifact has an entry, or is reported as the twin of an earlier one. */
  lemma {:induction false} EachPlanned(h: Host, rows: Rows, project: Id, tentative: map<Id, Id>, start: Plan, arts: seq<BundleArtifact>, i: nat)
    requires start.claimed == {} && i < |arts|
    ensures var p := PlanAll(h, rows, project, tentative, start, arts);
      if Twin(rows, project, arts, i) then arts[i].id in p.duplicates else exists e :: e in p.entries && EntryOf(e, arts[i])
  {
    hide Find, FreeName, SameContent, NamesOf, Held;
    var n := |arts| - 1;
    var front := PlanAll(h, rows, project, tentative, start, arts[..n]);
    var p := PlanAll(h, rows, project, tentative, start, arts);
    assert front.duplicates <= p.duplicates && front.entries <= p.entries;
    if i < n {
      EachPlanned(h, rows, project, tentative, start, arts[..n], i);
      assert Twin(rows, project, arts, i) <==> Twin(rows, project, arts[..n], i) by {
        assert forall j :: 0 <= j <= i ==> arts[..n][j] == arts[j];
      }
    } else {
      ClaimedAre(h, rows, project, tentative, start, arts[..n]);
      FoundIsHeld(rows, project, arts[n].kind, arts[n].name);
      var s := Slot(arts[n].kind, arts[n].name);
      assert s in front.claimed <==> Twin(rows, project, arts, n) by {
        if a :| a in arts[..n] && a.kind == s.kind && a.name == s.name {
          var j :| 0 <= j < n && arts[..n][j] == a;
          assert SameName(arts[j], arts[n]);
        }
      }
      if !Twin(rows, project, arts, n) {
        assert EntryOf(p.entries[|p.entries| - 1], arts[n]);
      }
    }
  }

  lemma EveryArtifactIsPlanned(h: Host, rows: Rows, project: Id, arts: seq<BundleArtifact>, i: nat)
    requires i < |ValidArts(h, arts)|
    ensures var valid, p := ValidArts(h, arts), PlanFor(h, rows, project, arts);
      if Twin(rows, project, valid, i) then valid[i].id in p.duplicates else exists e :: e in p.entries && EntryOf(e, valid[i])
  {
    hide PlanAll, Twin, EntryOf;
    var valid := ValidArts(h, arts);
    EachPlanned(h, rows, project, Tentative(rows, project, valid), Plan([], [], InitiallyTaken(rows, project, valid), {}), valid, i);
  }

  // ---- the user's answers --------------------------------------------------------------------------

  function Answer(e: PlanEntry, decisions: map<Id, Action>): Action {
    if e.bundleId in decisions then decisions[e.bundleId] else e.action
  }

  /** A create goes by its own name; a copy by the typed name, else the one proposed,
      else its own. */
  predicate GoesBy(e: PlanEntry, decisions: map<Id, Action>, copyNames: map<Id, string>, name: string) {
    if Answer(e, decisions) == Create then name == e.name
    else if e.bundleId in copyNames && copyNames[e.bundleId] != "" then name == copyNames[e.bundleId]
    else if e.copyName.Some? && e.copyName.value != "" then name == e.copyName.value
    else name == e.name
  }

  /** The name is the entry's own to take, or nothing in sight goes by it, and no earlier
      entry has taken it. */
  ghost predicate Fits(rows: Rows, project: Id, valid: seq<BundleArtifact>, entries: seq<PlanEntry>, k: nat, decisions: map<Id, Action>,
      copyNames: map<Id, string>, name: string)
    requires k < |entries|
  {
    var e := entries[k];
    && (InUse(rows, project, valid, entries, e.kind, name) ==> if e.copyName.Some? then name == e.copyName.value else name == e.name)
    && forall j :: 0 <= j < k && Answer(entries[j], decisions) != Reuse && entries[j].kind == e.kind ==>
         !GoesBy(entries[j], decisions, copyNames, name)
  }

  /** The plan can do as answered: there is a row to reuse, a create was planned as one,
      and the new name fits. */
  ghost predicate Honored(rows: Rows, project: Id, valid: seq<BundleArtifact>, entries: seq<PlanEntry>, k: nat, decisions: map<Id, Action>,
      copyNames: map<Id, string>)
    requires k < |entries|
  {
    var answer := Answer(entries[k], decisions);
    if answer == Reuse then entries[k].existing.Some? else
    && (answer == Create ==> entries[k].action == Create)
    && forall name :: GoesBy(entries[k], decisions, copyNames, name) ==> Fits(rows, project, valid, entries, k, decisions, copyNames, name)
  }

  lemma NameIsGoneBy(e: PlanEntry, decisions: map<Id, Action>, copyNames: map<Id, string>)
    ensures forall name :: GoesBy(e, decisions, copyNames, name) <==> name == NameFor(e, decisions, copyNames)
  {
  }

  lemma {:induction false} UsedAre(pool: set<Slot>, decisions: map<Id, Action>, copyNames: map<Id, string>, entries: seq<PlanEntry>)
    requires BuildAll(pool, decisions, copyNames, entries).Some?
    ensures forall s :: s in BuildAll(pool, decisions, copyNames, entries).value.used <==>
      exists j :: 0 <= j < |entries| && Answer(entries[j], decisions) != Reuse && entries[j].kind == s.kind
        && GoesBy(entries[j], decisions, copyNames, s.name)
  {
    hide BuildStep, GoesBy, NameFor;
    if entries != [] {
      var n := |entries| - 1;
      UsedAre(pool, decisions, copyNames, entries[..n]);
      StepUses(pool, decisions, copyNames, BuildAll(pool, decisions, copyNames, entries[..n]).value, entries[n]);
      NameIsGoneBy(entries[n], decisions, copyNames);
      assert forall j :: 0 <= j < n ==> entries[..n][j] == entries[j];
    }
  }

  /** One entry is built exactly when its answer is legal and its name neither pooled,
      but as its own, nor used. */
  lemma StepUses(pool: set<Slot>, decisions: map<Id, Action>, copyNames: map<Id, string>, b: Built, e: PlanEntry)
    ensures var next, name := BuildStep(pool, decisions, copyNames, b, e), NameFor(e, decisions, copyNames);
      if Answer(e, decisions) == Reuse then (next.Some? <==> e.existing.Some?) && (next.Some? ==> next.value.used == b.used) else
      && (next.Some? <==>
           (Answer(e, decisions) == Create ==> e.action == Create) && (Slot(e.kind, name) in pool ==> Slot(e.kind, name) == Reserved(e))
           && Slot(e.kind, name) !in b.used)
      && (next.Some? ==> next.value.used == b.used + {Slot(e.kind, name)})
  {
  }

  lemma {:induction false} BuildsIffHonored(rows: Rows, project: Id, valid: seq<BundleArtifact>, pool: set<Slot>, decisions: map<Id, Action>,
      copyNames: map<Id, string>, entries: seq<PlanEntry>, n: nat)
    requires n <= |entries|
    requires forall k, name :: 0 <= k < |entries| ==>
      (Slot(entries[k].kind, name) in pool <==> InUse(rows, project, valid, entries, entries[k].kind, name))
    ensures BuildAll(pool, decisions, copyNames, entries[..n]).Some? <==>
      forall k :: 0 <= k < n ==> Honored(rows, project, valid, entries, k, decisions, copyNames)
  {
    hide BuildStep, InUse, GoesBy, NameFor, Answer, Honored;
    if n > 0 {
      BuildsIffHonored(rows, project, valid, pool, decisions, copyNames, entries, n - 1);
      assert entries[..n][..n - 1] == entries[..n - 1];
      var before := BuildAll(pool, decisions, copyNames, entries[..n - 1]);
      if before.Some? {
        UsedAre(pool, decisions, copyNames, entries[..n - 1]);
        assert forall j :: 0 <= j < n - 1 ==> entries[..n - 1][j] == entries[j];
        StepIffHonored(rows, project, valid, pool, decisions, copyNames, before.value, entries, n - 1);
      }
    }
  }

  lemma StepIffHonored(rows: Rows, project: Id, valid: seq<BundleArtifact>, pool: set<Slot>, decisions: map<Id, Action>,
      copyNames: map<Id, string>, b: Built, entries: seq<PlanEntry>, k: nat)
    requires k < |entries|
    requires forall name :: Slot(entries[k].kind, name) in pool <==> InUse(rows, project, valid, entries, entries[k].kind, name)
    requires forall s :: s in b.used <==>
      exists j :: 0 <= j < k && Answer(entries[j], decisions) != Reuse && entries[j].kind == s.kind
        && GoesBy(entries[j], decisions, copyNames, s.name)
    ensures BuildStep(pool, decisions, copyNames, b, entries[k]).Some? <==>
      Honored(rows, project, valid, entries, k, decisions, copyNames)
  {
    hide BuildStep, InUse, GoesBy, NameFor, Answer;
    var e := entries[k];
    var name := NameFor(e, decisions, copyNames);
    StepUses(pool, decisions, copyNames, b, e);
    NameIsGoneBy(e, decisions, copyNames);
    assert Slot(e.kind, name) in b.used <==>
      exists j :: 0 <= j < k && Answer(entries[j], decisions) != Reuse && entries[j].kind == e.kind && GoesBy(entries[j], decisions, copyNames, name);
    assert Slot(e.kind, name) == Reserved(e) <==> if e.copyName.Some? then name == e.copyName.value else name == e.name;
    assert Fits(rows, project, valid, entries, k, decisions, copyNames, name) <==>
      (Slot(e.kind, name) in pool ==> Slot(e.kind, name) == Reserved(e)) && Slot(e.kind, name) !in b.used;
    assert (forall other :: GoesBy(e, decisions, copyNames, other) ==> Fits(rows, project, valid, entries, k, decisions, copyNames, other)) <==>
      Fits(rows, project, valid, entries, k, decisions, copyNames, name);
  }

  lemma PoolIsInUse(h: Host, rows: Rows, project: Id, arts: seq<BundleArtifact>, k: nat, name: string)
    requires k < |PlanFor(h, rows, project, arts).entries|
    ensures var p := PlanFor(h, rows, project, arts); var kind := p.entries[k].kind;
      Slot(kind, name) in Pool(p) <==> InUse(rows, project, ValidArts(h, arts), p.entries, kind, name)
  {
    hide InitiallyTaken, ValidArts, PlanStep, Held, SameAs, Proposes, Tentative;
    var valid, p := ValidArts(h, arts), PlanFor(h, rows, project, arts);
    var start := Plan([], [], InitiallyTaken(rows, project, valid), {});
    TakenAre(h, rows, project, Tentative(rows, project, valid), start, valid);
    var i := PlanEntryIs(h, rows, project, arts, k);
    assert valid[i] in valid && p.entries[k].kind in KindsOf(valid);
    UsedNames(h, rows, project, valid, p, p.entries[k].kind, name);
    NamesOfExactly(p.taken, p.entries[k].kind);
    forall e | e in p.entries && Slot(e.kind, e.name) == Slot(p.entries[k].kind, name) ensures exists a :: a in valid && a.kind == e.kind && a.name == name {
      var l :| 0 <= l < |p.entries| && p.entries[l] == e;
      var j := PlanEntryIs(h, rows, project, arts, l);
      assert valid[j] in valid;
    }
  }

  /** With any answers and typed names, a fresh plan is refused exactly when an answer is
      for an artifact it has no entry for, or cannot be honored. */
  lemma RefusedIffNotHonored(h: Host, rows: Rows, project: Id, arts: seq<BundleArtifact>, valid: seq<BundleArtifact>, p: Plan,
      decisions: map<Id, Action>, copyNames: map<Id, string>)
    requires p == PlanFor(h, rows, project, arts) && valid == ValidArts(h, arts)
    ensures BuildFor(p, decisions, copyNames).Some? <==>
      && (forall id :: id in decisions ==> exists i :: 0 <= i < |p.entries| && p.entries[i].bundleId == id)
      && (forall k :: 0 <= k < |p.entries| ==> Honored(rows, project, valid, p.entries, k, decisions, copyNames))
  {
    hide PlanFor, ValidArts, InUse, Honored, BuildAll, Pool;
    forall k, name | 0 <= k < |p.entries|
      ensures Slot(p.entries[k].kind, name) in Pool(p) <==> InUse(rows, project, valid, p.entries, p.entries[k].kind, name)
    {
      PoolIsInUse(h, rows, project, arts, k, name);
    }
    BuildsIffHonored(rows, project, valid, Pool(p), decisions, copyNames, p.entries, |p.entries|);
    assert p.entries[..|p.entries|] == p.entries;
  }

  lemma {:induction false} CreatesAre(entries: seq<PlanEntry>, decisions: map<Id, Action>)
    ensures forall e :: e in CreatesOf(entries, decisions) <==> e in entries && Answer(e, decisions) != Reuse
  {
    if entries != [] {
      var n := |entries| - 1;
      CreatesAre(entries[..n], decisions);
      assert forall e :: e in entries <==> e in entries[..n] || e == entries[n];
    }
  }

  ghost predicate LastWith(creates: seq<PlanEntry>, id: Id, j: nat) {
    j < |creates| && creates[j].bundleId == id && forall k :: j < k < |creates| ==> creates[k].bundleId != id
  }

  lemma {:induction false} LastNames(creates: seq<PlanEntry>, decisions: map<Id, Action>, copyNames: map<Id, string>, i: nat) returns (j: nat)
    requires i < |creates|
    ensures LastWith(creates, creates[i].bundleId, j)
    ensures GoesBy(creates[j], decisions, copyNames, GetOr(FinalNames(creates, decisions, copyNames), creates[i].bundleId, ""))
    ensures creates[i].bundleId in FinalNames(creates, decisions, copyNames)
  {
    hide NameFor, GoesBy;
    var n := |creates| - 1;
    NameIsGoneBy(creates[n], decisions, copyNames);
    if creates[n].bundleId == creates[i].bundleId {
      j := n;
    } else {
      j := LastNames(creates[..n], decisions, copyNames, i);
      assert forall k :: 0 <= k < n ==> creates[..n][k] == creates[k];
    }
  }

  /** Each op of an import makes an entry that was not answered with reuse, under the name
      of the last such entry of its bundle id. */
  lemma ImportOpIsNamed(h: Host, rows: Rows, project: Id, arts: seq<BundleArtifact>, decisions: map<Id, Action>, copyNames: map<Id, string>, i: nat)
      returns (j: nat)
    requires BuildFor(PlanFor(h, rows, project, arts), decisions, copyNames).Some?
    requires i < |BuildFor(PlanFor(h, rows, project, arts), decisions, copyNames).value.created|
    ensures var p := PlanFor(h, rows, project, arts);
      var b := BuildFor(p, decisions, copyNames).value;
      && (forall e :: e in b.created <==> e in p.entries && Answer(e, decisions) != Reuse)
      && LastWith(b.created, b.created[i].bundleId, j)
      && GoesBy(b.created[j], decisions, copyNames, OpsFor(b, PayloadsOf(arts))[i].name)
  {
    hide PlanFor, BuildAll, Pool, PayloadsOf, Rewrite, RefMap, GoesBy, FinalNames, CreatesOf;
    var p := PlanFor(h, rows, project, arts);
    BuildsTheseCreates(Pool(p), decisions, copyNames, p.entries);
    CreatesAre(p.entries, decisions);
    j := LastNames(CreatesOf(p.entries, decisions), decisions, copyNames, i);
  }
}
