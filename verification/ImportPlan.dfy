/** Planning an artifact import and turning the plan and the user's decisions into one
    batch of creates (api/artifact_bundle.py). */
module ImportPlan {
  import opened Collections
  import opened Json
  import opened Model
  import opened ArtifactStore
  import opened ArtifactRefs
  import opened ArtifactClosure
  import Text

  // ---- copy names -----------------------------------------------------------------------

  function Suffixed(base: string, n: nat): string {
    base + " (" + Text.Decimal(n) + ")"
  }

  lemma SuffixedInjective(base: string, m: nat, n: nat)
    requires Suffixed(base, m) == Suffixed(base, n)
    ensures m == n
  {
    var p := base + " (";
    assert Suffixed(base, m)[|p|..] == Text.Decimal(m) + ")" && Suffixed(base, n)[|p|..] == Text.Decimal(n) + ")";
    var a, b := Text.Decimal(m) + ")", Text.Decimal(n) + ")";
    assert a[..|a| - 1] == Text.Decimal(m) && b[..|b| - 1] == Text.Decimal(n);
    Text.DecimalInjective(m, n);
  }

  ghost predicate IsFirstFree(taken: set<string>, base: string, n: nat) {
    n >= 2 && Suffixed(base, n) !in taken && forall k: nat :: 2 <= k < n ==> Suffixed(base, k) in taken
  }

  /** A set of `m` names cannot hold more than `m` suffixes of one base. */
  lemma {:induction false} SuffixesBounded(taken: set<string>, base: string, n: nat)
    requires n >= 2 && forall k: nat :: 2 <= k < n ==> Suffixed(base, k) in taken
    ensures n - 2 <= |taken|
  {
    if n > 2 {
      var last := Suffixed(base, n - 1);
      forall k: nat | 2 <= k < n - 1 ensures Suffixed(base, k) in taken - {last} {
        if Suffixed(base, k) == last {
          SuffixedInjective(base, k, n - 1);
        }
      }
      SuffixesBounded(taken - {last}, base, n - 1);
    }
  }

  /** The first free name; the search ends by the pigeonhole principle. */
  method DedupeName(taken: set<string>, base: string) returns (name: string)
    ensures exists n: nat :: IsFirstFree(taken, base, n) && name == Suffixed(base, n)
    ensures name == FreeName(taken, base)
  {
    var n: nat := 2;
    while Suffixed(base, n) in taken
      invariant n >= 2 && forall k: nat :: 2 <= k < n ==> Suffixed(base, k) in taken
      decreases |taken| + 2 - n
    {
      SuffixesBounded(taken, base, n + 1);
      n := n + 1;
    }
    name := Suffixed(base, n);
    assert IsFirstFree(taken, base, n);
    FirstFreeUnique(taken, base, n, FreeNumber(taken, base));
  }

  lemma FirstFreeUnique(taken: set<string>, base: string, m: nat, n: nat)
    requires IsFirstFree(taken, base, m) && IsFirstFree(taken, base, n)
    ensures m == n
  {
  }

  lemma {:induction false} SomeFree(taken: set<string>, base: string, n: nat)
    requires n >= 2 && (forall k: nat :: 2 <= k < n ==> Suffixed(base, k) in taken)
    ensures exists m: nat :: IsFirstFree(taken, base, m)
    decreases |taken| + 2 - n
  {
    if Suffixed(base, n) in taken {
      SuffixesBounded(taken, base, n + 1);
      SomeFree(taken, base, n + 1);
    } else {
      assert IsFirstFree(taken, base, n);
    }
  }

  ghost function FreeNumber(taken: set<string>, base: string): (n: nat)
    ensures IsFirstFree(taken, base, n)
  {
    SomeFree(taken, base, 2);
    var n: nat :| IsFirstFree(taken, base, n);
    n
  }

  ghost function FreeName(taken: set<string>, base: string): (name: string)
    ensures name !in taken
  {
    Suffixed(base, FreeNumber(taken, base))
  }

  // ---- the plan -----------------------------------------------------------------------------

  datatype Action = Create | Reuse | Copy

  /** `copyName` is set on every entry that clashes with a row, whatever its action. */
  datatype PlanEntry = PlanEntry(bundleId: Id, kind: string, name: string, action: Action, existing: Option<Id>, copyName: Option<string>)

  /** What the host decides: the writable kinds and their checks, the known kinds, and
      the canonical text of a payload. */
  datatype Host = Host(reg: Registry, known: set<string>, canonical: Json -> string)

  /** The names a new row cannot take, with the entries and the duplicates so far. */
  datatype Plan = Plan(entries: seq<PlanEntry>, duplicates: seq<Id>, taken: set<Slot>, claimed: set<Slot>)

  function NamesOf(taken: set<Slot>, kind: string): set<string> {
    set s | s in taken && s.kind == kind :: s.name
  }

  /** The planner looks at the name before the kind. */
  function PlanSkip(h: Host, a: BundleArtifact): Option<SkipReason> {
    if a.name == "" then Some(EmptyName) else SkipFor(h.reg, h.known, a, false)
  }

  function ValidArts(h: Host, arts: seq<BundleArtifact>): seq<BundleArtifact> {
    if arts == [] then [] else
    var last := arts[|arts| - 1];
    ValidArts(h, arts[..|arts| - 1]) + if PlanSkip(h, last).None? then [last] else []
  }

  /** Reuse targets of every clash, so that references between bundle siblings compare equal. */
  ghost function Tentative(rows: Rows, project: Id, arts: seq<BundleArtifact>): map<Id, Id> {
    if arts == [] then map[] else
    var a := arts[|arts| - 1];
    var found := Find(rows, project, Slot(a.kind, a.name));
    var before := Tentative(rows, project, arts[..|arts| - 1]);
    if found.Some? then before[a.id := found.value] else before
  }

  function SlotsOf(arts: seq<BundleArtifact>): set<Slot> {
    set a | a in arts :: Slot(a.kind, a.name)
  }

  function KindsOf(arts: seq<BundleArtifact>): set<string> {
    set a | a in arts :: a.kind
  }

  /** Rows of the bundle's kinds and every bundle-side name. */
  function InitiallyTaken(rows: Rows, project: Id, arts: seq<BundleArtifact>): set<Slot> {
    SlotsOf(arts) + set id | id in rows && rows[id].project == project && rows[id].kind in KindsOf(arts) :: SlotOf(rows[id])
  }

  predicate SameContent(h: Host, a: BundleArtifact, row: Row, tentative: map<Id, Id>) {
    h.canonical(Rewrite(h.reg.derive(a.kind, a.payload), tentative)) == h.canonical(h.reg.derive(a.kind, row.payload))
  }

  ghost function PlanStep(h: Host, rows: Rows, project: Id, tentative: map<Id, Id>, p: Plan, a: BundleArtifact): Plan {
    var found := Find(rows, project, Slot(a.kind, a.name));
    if found.None? then
      if Slot(a.kind, a.name) in p.claimed then p.(duplicates := p.duplicates + [a.id])
      else p.(entries := p.entries + [PlanEntry(a.id, a.kind, a.name, Create, None, None)],
              claimed := p.claimed + {Slot(a.kind, a.name)})
    else
      var copy := FreeName(NamesOf(p.taken, a.kind), a.name);
      var action := if SameContent(h, a, rows[found.value], tentative) then Reuse else Copy;
      p.(entries := p.entries + [PlanEntry(a.id, a.kind, a.name, action, found, Some(copy))],
         taken := p.taken + {Slot(a.kind, copy)})
  }

  ghost function PlanAll(h: Host, rows: Rows, project: Id, tentative: map<Id, Id>, start: Plan, arts: seq<BundleArtifact>): Plan {
    if arts == [] then start else
    PlanStep(h, rows, project, tentative, PlanAll(h, rows, project, tentative, start, arts[..|arts| - 1]), arts[|arts| - 1])
  }

  ghost function PlanFor(h: Host, rows: Rows, project: Id, arts: seq<BundleArtifact>): Plan {
    var valid := ValidArts(h, arts);
    PlanAll(h, rows, project, Tentative(rows, project, valid), Plan([], [], InitiallyTaken(rows, project, valid), {}), valid)
  }

  /** The writable artifacts with their reuse targets; the others are reported. */
  method Screen(h: Host, db: ArtifactTable, project: Id, arts: seq<BundleArtifact>)
    returns (valid: seq<BundleArtifact>, tentative: map<Id, Id>, skipped: seq<(Id, SkipReason)>)
    requires db.Valid()
    ensures valid == ValidArts(h, arts) && tentative == Tentative(db.rows, project, valid) && |valid| + |skipped| == |arts|
  {
    hide Find, PlanSkip;
    valid, tentative, skipped := [], map[], [];
    for i := 0 to |arts|
      invariant valid == ValidArts(h, arts[..i]) && tentative == Tentative(db.rows, project, valid)
      invariant |valid| + |skipped| == i
    {
      assert arts[..i + 1][..i] == arts[..i];
      var a := arts[i];
      var reason := PlanSkip(h, a);
      if reason.Some? {
        skipped := skipped + [(a.id, reason.value)];
        continue;
      }
      assert (valid + [a])[..|valid|] == valid;
      valid := valid + [a];
      var found := db.FindArtifact(project, Slot(a.kind, a.name));
      if found.Some? {
        tentative := tentative[a.id := found.value];
      }
    }
    assert arts[..|arts|] == arts;
  }

  /** One artifact's entry, or its report as a duplicate. */
  method PlanOne(h: Host, db: ArtifactTable, project: Id, tentative: map<Id, Id>, plan: Plan, a: BundleArtifact) returns (next: Plan)
    requires db.Valid()
    ensures next == PlanStep(h, db.rows, project, tentative, plan, a)
    ensures |next.entries| + |next.duplicates| == |plan.entries| + |plan.duplicates| + 1
  {
    hide SameContent, NamesOf;
    var found := db.FindArtifact(project, Slot(a.kind, a.name));
    if found.None? {
      if Slot(a.kind, a.name) in plan.claimed {
        return plan.(duplicates := plan.duplicates + [a.id]);
      }
      return plan.(entries := plan.entries + [PlanEntry(a.id, a.kind, a.name, Create, None, None)],
                   claimed := plan.claimed + {Slot(a.kind, a.name)});
    }
    var copy := DedupeName(NamesOf(plan.taken, a.kind), a.name);
    var action := if SameContent(h, a, db.rows[found.value], tentative) then Reuse else Copy;
    next := plan.(entries := plan.entries + [PlanEntry(a.id, a.kind, a.name, action, found, Some(copy))],
                  taken := plan.taken + {Slot(a.kind, copy)});
  }

  method DerivePlan(h: Host, db: ArtifactTable, project: Id, arts: seq<BundleArtifact>)
    returns (plan: Plan, skipped: seq<(Id, SkipReason)>)
    requires db.Valid()
    ensures plan == PlanFor(h, db.rows, project, arts)
    ensures |plan.entries| + |plan.duplicates| + |skipped| == |arts|
  {
    hide PlanStep, InitiallyTaken, ValidArts, Tentative;
    var valid, tentative;
    valid, tentative, skipped := Screen(h, db, project, arts);
    plan := Plan([], [], InitiallyTaken(db.rows, project, valid), {});
    ghost var start := plan;
    for i := 0 to |valid|
      invariant plan == PlanAll(h, db.rows, project, tentative, start, valid[..i])
      invariant |plan.entries| + |plan.duplicates| == i
    {
      assert valid[..i + 1][..i] == valid[..i];
      plan := PlanOne(h, db, project, tentative, plan, valid[i]);
    }
    assert valid[..|valid|] == valid;
  }

  // ---- what a plan promises -----------------------------------------------------------------------

  ghost predicate Free(rows: Rows, project: Id, slot: Slot) {
    forall id :: !Holds(rows, project, slot, id)
  }

  /** A create entry's own name is free; a clash entry's copy name is. */
  function Reserved(e: PlanEntry): Slot {
    Slot(e.kind, if e.copyName.Some? then e.copyName.value else e.name)
  }

  ghost predicate EntryOk(rows: Rows, project: Id, own: set<Slot>, taken: set<Slot>, e: PlanEntry) {
    && e.name != "" && Slot(e.kind, e.name) in own
    && (e.action == Create <==> e.existing.None?) && (e.action == Create <==> e.copyName.None?)
    && (e.existing.Some? ==> Holds(rows, project, Slot(e.kind, e.name), e.existing.value))
    && Free(rows, project, Reserved(e)) && Reserved(e) in taken
    && (e.copyName.Some? ==> Reserved(e) !in own && e.copyName.value != "")
  }

  /** Every row of a planned kind is among the taken names. */
  ghost predicate RowsTaken(rows: Rows, project: Id, kinds: set<string>, taken: set<Slot>) {
    forall s, id :: Holds(rows, project, s, id) && s.kind in kinds ==> s in taken
  }

  /** `own` are the bundle-side names, `kinds` their kinds. */
  ghost predicate PlanOk(rows: Rows, project: Id, own: set<Slot>, kinds: set<string>, p: Plan) {
    && own <= p.taken && RowsTaken(rows, project, kinds, p.taken) && (forall s :: s in own ==> s.kind in kinds)
    && (forall i :: 0 <= i < |p.entries| ==> EntryOk(rows, project, own, p.taken, p.entries[i]))
    && (forall i, j :: 0 <= i < j < |p.entries| ==> Reserved(p.entries[i]) != Reserved(p.entries[j]))
    && (forall i :: 0 <= i < |p.entries| && p.entries[i].action == Create ==> Reserved(p.entries[i]) in p.claimed)
  }

  lemma CreateEntryOk(rows: Rows, project: Id, own: set<Slot>, kinds: set<string>, p: Plan, a: BundleArtifact)
    requires PlanOk(rows, project, own, kinds, p) && Slot(a.kind, a.name) in own && a.name != ""
    requires Find(rows, project, Slot(a.kind, a.name)).None? && Slot(a.kind, a.name) !in p.claimed
    ensures PlanOk(rows, project, own, kinds, p.(entries := p.entries + [PlanEntry(a.id, a.kind, a.name, Create, None, None)],
      claimed := p.claimed + {Slot(a.kind, a.name)}))
  {
    hide RowsTaken;
    var e := PlanEntry(a.id, a.kind, a.name, Create, None, None);
    assert EntryOk(rows, project, own, p.taken, e);
    forall i | 0 <= i < |p.entries| ensures Reserved(p.entries[i]) != Reserved(e) {
      assert EntryOk(rows, project, own, p.taken, p.entries[i]);
    }
  }

  lemma FreeNameIsFree(rows: Rows, project: Id, own: set<Slot>, kinds: set<string>, p: Plan, kind: string, name: string)
    requires PlanOk(rows, project, own, kinds, p) && kind in kinds
    ensures var copy := FreeName(NamesOf(p.taken, kind), name);
      copy != "" && Slot(kind, copy) !in p.taken && Free(rows, project, Slot(kind, copy))
  {
    var copy := FreeName(NamesOf(p.taken, kind), name);
    NamesOfExactly(p.taken, kind);
  }

  lemma NamesOfExactly(taken: set<Slot>, kind: string)
    ensures forall name :: name in NamesOf(taken, kind) <==> Slot(kind, name) in taken
  {
    assert forall s :: s in taken && s.kind == kind ==> s == Slot(kind, s.name);
  }

  lemma ClashEntryOk(rows: Rows, project: Id, own: set<Slot>, kinds: set<string>, p: Plan, a: BundleArtifact, action: Action, copy: string)
    requires PlanOk(rows, project, own, kinds, p) && Slot(a.kind, a.name) in own && a.name != ""
    requires Find(rows, project, Slot(a.kind, a.name)).Some? && action != Create
    requires copy != "" && Slot(a.kind, copy) !in p.taken && Free(rows, project, Slot(a.kind, copy))
    ensures PlanOk(rows, project, own, kinds, p.(
      entries := p.entries + [PlanEntry(a.id, a.kind, a.name, action, Find(rows, project, Slot(a.kind, a.name)), Some(copy))],
      taken := p.taken + {Slot(a.kind, copy)}))
  {
    hide Free, Holds;
    var found := Find(rows, project, Slot(a.kind, a.name));
    var e := PlanEntry(a.id, a.kind, a.name, action, found, Some(copy));
    var taken := p.taken + {Slot(a.kind, copy)};
    assert EntryOk(rows, project, own, taken, e);
    forall i | 0 <= i < |p.entries| ensures EntryOk(rows, project, own, taken, p.entries[i]) && Reserved(p.entries[i]) != Reserved(e) {
      assert EntryOk(rows, project, own, p.taken, p.entries[i]);
    }
  }

  lemma {:induction false} PlanAllOk(h: Host, rows: Rows, project: Id, tentative: map<Id, Id>, start: Plan, own: set<Slot>, kinds: set<string>,
      arts: seq<BundleArtifact>)
    requires PlanOk(rows, project, own, kinds, start)
    requires forall a :: a in arts ==> Slot(a.kind, a.name) in own && a.name != ""
    ensures PlanOk(rows, project, own, kinds, PlanAll(h, rows, project, tentative, start, arts))
  {
    hide PlanOk, Find, FreeName, SameContent;
    if arts != [] {
      var n := |arts| - 1;
      var a, p := arts[n], PlanAll(h, rows, project, tentative, start, arts[..n]);
      PlanAllOk(h, rows, project, tentative, start, own, kinds, arts[..n]);
      var found := Find(rows, project, Slot(a.kind, a.name));
      if found.None? {
        if Slot(a.kind, a.name) !in p.claimed {
          CreateEntryOk(rows, project, own, kinds, p, a);
        }
        DuplicatesFree(rows, project, own, kinds, p, a.id);
      } else {
        KindIsOwn(rows, project, own, kinds, p, Slot(a.kind, a.name));
        FreeNameIsFree(rows, project, own, kinds, p, a.kind, a.name);
        ClashEntryOk(rows, project, own, kinds, p, a, if SameContent(h, a, rows[found.value], tentative) then Reuse else Copy,
          FreeName(NamesOf(p.taken, a.kind), a.name));
      }
    }
  }

  lemma KindIsOwn(rows: Rows, project: Id, own: set<Slot>, kinds: set<string>, p: Plan, s: Slot)
    requires PlanOk(rows, project, own, kinds, p) && s in own
    ensures s.kind in kinds
  {
  }

  lemma DuplicatesFree(rows: Rows, project: Id, own: set<Slot>, kinds: set<string>, p: Plan, id: Id)
    requires PlanOk(rows, project, own, kinds, p)
    ensures PlanOk(rows, project, own, kinds, p.(duplicates := p.duplicates + [id]))
  {
  }

  lemma {:induction false} ValidExactly(h: Host, arts: seq<BundleArtifact>)
    ensures forall a :: a in ValidArts(h, arts) <==> a in arts && PlanSkip(h, a).None?
  {
    hide PlanSkip;
    if arts != [] {
      ValidExactly(h, arts[..|arts| - 1]);
      assert forall a :: a in arts <==> a in arts[..|arts| - 1] || a == arts[|arts| - 1];
    }
  }

  /** A derived plan reserves, for each entry, a name that no row holds and no other
      entry has: the bundle's own for a create, a new one for a clash. */
  lemma DerivedPlanOk(h: Host, rows: Rows, project: Id, arts: seq<BundleArtifact>)
    ensures var valid := ValidArts(h, arts);
      PlanOk(rows, project, SlotsOf(valid), KindsOf(valid), PlanFor(h, rows, project, arts))
  {
    hide Find, FreeName, SameContent;
    var valid := ValidArts(h, arts);
    ValidExactly(h, arts);
    StartOk(rows, project, valid);
    assert forall a :: a in valid ==> a.name != "";
    hide PlanOk;
    PlanAllOk(h, rows, project, Tentative(rows, project, valid), Plan([], [], InitiallyTaken(rows, project, valid), {}), SlotsOf(valid),
      KindsOf(valid), valid);
  }

  lemma StartOk(rows: Rows, project: Id, valid: seq<BundleArtifact>)
    ensures PlanOk(rows, project, SlotsOf(valid), KindsOf(valid), Plan([], [], InitiallyTaken(rows, project, valid), {}))
  {
  }

  // ---- the batch -----------------------------------------------------------------------------------

  /** The slots claimed, the entries to create, the final name of each bundle id (a later
      claim under the same id overwrites it), and the reuses, so far. */
  datatype Built = Built(used: set<Slot>, created: seq<PlanEntry>, names: map<Id, string>, reused: seq<(Id, Id)>)

  function Pool(p: Plan): set<Slot> {
    p.taken + (set e | e in p.entries :: Slot(e.kind, e.name)) + set e | e in p.entries && e.copyName.Some? :: Slot(e.kind, e.copyName.value)
  }

  function Claim(pool: set<Slot>, b: Built, e: PlanEntry, name: string): Option<Built> {
    var slot := Slot(e.kind, name);
    if (slot in pool && slot != Reserved(e)) || slot in b.used then None
    else Some(b.(used := b.used + {slot}, created := b.created + [e], names := b.names[e.bundleId := name]))
  }

  function CopyNameFor(e: PlanEntry, copyNames: map<Id, string>): string {
    var asked := GetOr(copyNames, e.bundleId, "");
    if asked != "" then asked
    else if e.copyName.GetOr("") != "" then e.copyName.value
    else e.name
  }

  function BuildStep(pool: set<Slot>, decisions: map<Id, Action>, copyNames: map<Id, string>, b: Built, e: PlanEntry): Option<Built> {
    match GetOr(decisions, e.bundleId, e.action)
    case Reuse => if e.existing.None? then None else Some(b.(reused := b.reused + [(e.bundleId, e.existing.value)]))
    case Create => if e.action != Create then None else Claim(pool, b, e, e.name)
    case Copy => Claim(pool, b, e, CopyNameFor(e, copyNames))
  }

  function BuildAll(pool: set<Slot>, decisions: map<Id, Action>, copyNames: map<Id, string>, entries: seq<PlanEntry>): Option<Built> {
    if entries == [] then Some(Built({}, [], map[], [])) else
    var before := BuildAll(pool, decisions, copyNames, entries[..|entries| - 1]);
    if before.None? then None else BuildStep(pool, decisions, copyNames, before.value, entries[|entries| - 1])
  }

  predicate KnowsAll(p: Plan, decisions: map<Id, Action>) {
    forall id :: id in decisions ==> exists i :: 0 <= i < |p.entries| && p.entries[i].bundleId == id
  }

  /** None where the source raises StalePlanError. */
  function BuildFor(p: Plan, decisions: map<Id, Action>, copyNames: map<Id, string>): Option<Built> {
    if !KnowsAll(p, decisions) then None else BuildAll(Pool(p), decisions, copyNames, p.entries)
  }

  function PayloadsOf(arts: seq<BundleArtifact>): map<Id, Json> {
    if arts == [] then map[] else PayloadsOf(arts[..|arts| - 1])[arts[|arts| - 1].id := arts[|arts| - 1].payload]
  }

  function RefMap(b: Built): map<Id, Id> {
    ReuseMap(b.reused) + CreateMap(b.created)
  }

  function ReuseMap(reused: seq<(Id, Id)>): map<Id, Id> {
    if reused == [] then map[] else ReuseMap(reused[..|reused| - 1])[reused[|reused| - 1].0 := reused[|reused| - 1].1]
  }

  function CreateMap(created: seq<PlanEntry>): map<Id, Id> {
    if created == [] then map[] else
    var id := created[|created| - 1].bundleId;
    CreateMap(created[..|created| - 1])[id := TEMP_ID_PREFIX + id]
  }

  function OpFor(e: PlanEntry, names: map<Id, string>, payloads: map<Id, Json>, refs: map<Id, Id>): ArtifactOp {
    CreateArtifact(TEMP_ID_PREFIX + e.bundleId, e.kind, GetOr(names, e.bundleId, ""),
      Rewrite(GetOr(payloads, e.bundleId, Null), refs))
  }

  function OpsFor(b: Built, payloads: map<Id, Json>): seq<ArtifactOp> {
    seq(|b.created|, i requires 0 <= i < |b.created| => OpFor(b.created[i], b.names, payloads, RefMap(b)))
  }

  method BuildImportOps(p: Plan, arts: seq<BundleArtifact>, decisions: map<Id, Action>, copyNames: map<Id, string>)
    returns (r: Option<(seq<ArtifactOp>, seq<(Id, Id)>)>)
    ensures r.None? <==> BuildFor(p, decisions, copyNames).None?
    ensures r.Some? ==> var b := BuildFor(p, decisions, copyNames).value;
      r.value == (OpsFor(b, PayloadsOf(arts)), b.reused)
  {
    hide BuildStep, Rewrite;
    var todo := decisions.Keys;
    while todo != {}
      invariant todo <= decisions.Keys
      invariant forall id :: id in decisions && id !in todo ==> exists i :: 0 <= i < |p.entries| && p.entries[i].bundleId == id
    {
      var id :| id in todo;
      todo := todo - {id};
      if forall i :: 0 <= i < |p.entries| ==> p.entries[i].bundleId != id {
        return None;
      }
    }
    var pool := Pool(p);
    var b := Built({}, [], map[], []);
    for i := 0 to |p.entries|
      invariant BuildAll(pool, decisions, copyNames, p.entries[..i]) == Some(b)
    {
      assert p.entries[..i + 1][..i] == p.entries[..i];
      var step := BuildStep(pool, decisions, copyNames, b, p.entries[i]);
      if step.None? {
        Refused(pool, decisions, copyNames, p.entries, i);
        return None;
      }
      b := step.value;
    }
    assert p.entries[..|p.entries|] == p.entries;
    var payloads: map<Id, Json> := map[];
    for i := 0 to |arts|
      invariant payloads == PayloadsOf(arts[..i])
    {
      assert arts[..i + 1][..i] == arts[..i];
      payloads := payloads[arts[i].id := arts[i].payload];
    }
    assert arts[..|arts|] == arts;
    var refs := RefMap(b);
    var ops: seq<ArtifactOp> := [];
    for i := 0 to |b.created|
      invariant |ops| == i && forall j :: 0 <= j < i ==> ops[j] == OpFor(b.created[j], b.names, payloads, refs)
    {
      ops := ops + [OpFor(b.created[i], b.names, payloads, refs)];
    }
    assert ops == OpsFor(b, payloads);
    r := Some((ops, b.reused));
  }

  lemma {:induction false} Refused(pool: set<Slot>, decisions: map<Id, Action>, copyNames: map<Id, string>, entries: seq<PlanEntry>, i: nat)
    requires i < |entries| && BuildAll(pool, decisions, copyNames, entries[..i + 1]).None?
    ensures BuildAll(pool, decisions, copyNames, entries).None?
  {
    hide BuildStep;
    if i + 1 == |entries| {
      assert entries[..i + 1] == entries;
    } else {
      assert entries[..|entries| - 1][..i + 1] == entries[..i + 1];
      Refused(pool, decisions, copyNames, entries[..|entries| - 1], i);
    }
  }

  // ---- what the ops refer to ---------------------------------------------------------------------

  /** The payload of the bundle's last artifact with this id. */
  predicate PayloadIs(arts: seq<BundleArtifact>, id: Id, payload: Json) {
    exists k :: 0 <= k < |arts| && arts[k].id == id && arts[k].payload == payload && forall l :: k < l < |arts| ==> arts[l].id != id
  }

  lemma {:induction false} PayloadsAre(arts: seq<BundleArtifact>, id: Id)
    ensures id in PayloadsOf(arts) <==> exists k :: 0 <= k < |arts| && arts[k].id == id
    ensures id in PayloadsOf(arts) ==> PayloadIs(arts, id, PayloadsOf(arts)[id])
  {
    if arts != [] {
      var n := |arts| - 1;
      PayloadsAre(arts[..n], id);
      if arts[n].id == id {
        assert PayloadIs(arts, id, arts[n].payload);
      } else if id in PayloadsOf(arts[..n]) {
        var k :| 0 <= k < n && arts[..n][k].id == id && arts[..n][k].payload == PayloadsOf(arts[..n])[id]
          && forall l :: k < l < n ==> arts[..n][l].id != id;
        assert arts[k].id == id && forall l :: k < l < |arts| ==> arts[l].id != id;
      }
    }
  }

  /** What a bundle reference becomes: the temporary id of what is created, else the row
      reused, else itself. */
  ghost predicate PointsTo(b: Built, ref: Id, to: Id) {
    if exists i :: 0 <= i < |b.created| && b.created[i].bundleId == ref then to == "tmp_" + ref
    else if exists i :: 0 <= i < |b.reused| && b.reused[i].0 == ref then
      exists i :: 0 <= i < |b.reused| && b.reused[i] == (ref, to) && forall l :: i < l < |b.reused| ==> b.reused[l].0 != ref
    else to == ref
  }

  lemma {:induction false} CreateMapIs(created: seq<PlanEntry>, ref: Id)
    ensures ref in CreateMap(created) <==> exists i :: 0 <= i < |created| && created[i].bundleId == ref
    ensures ref in CreateMap(created) ==> CreateMap(created)[ref] == "tmp_" + ref
  {
    if created != [] {
      CreateMapIs(created[..|created| - 1], ref);
    }
  }

  lemma {:induction false} ReuseMapIs(reused: seq<(Id, Id)>, ref: Id)
    ensures ref in ReuseMap(reused) <==> exists i :: 0 <= i < |reused| && reused[i].0 == ref
    ensures ref in ReuseMap(reused) ==>
      exists i :: 0 <= i < |reused| && reused[i] == (ref, ReuseMap(reused)[ref]) && forall l :: i < l < |reused| ==> reused[l].0 != ref
  {
    if reused != [] {
      var n := |reused| - 1;
      ReuseMapIs(reused[..n], ref);
      if reused[n].0 == ref {
        assert reused[n] == (ref, ReuseMap(reused)[ref]);
      } else if ref in ReuseMap(reused[..n]) {
        var i :| 0 <= i < n && reused[..n][i] == (ref, ReuseMap(reused[..n])[ref]) && forall l :: i < l < n ==> reused[..n][l].0 != ref;
        assert reused[i] == (ref, ReuseMap(reused)[ref]) && forall l :: i < l < |reused| ==> reused[l].0 != ref;
      }
    }
  }

  lemma RefMapPoints(b: Built, ref: Id)
    ensures PointsTo(b, ref, GetOr(RefMap(b), ref, ref))
  {
    CreateMapIs(b.created, ref);
    ReuseMapIs(b.reused, ref);
  }

  /** Each op of an import creates the artifact of its entry under its own temporary id,
      and refers to exactly what the bundle's payload referred to: created siblings by
      their temporary ids, reused ones by their rows, strangers as they were. */
  lemma ImportOpRefers(b: Built, arts: seq<BundleArtifact>, i: nat) returns (payload: Json)
    requires i < |b.created| && exists k :: 0 <= k < |arts| && arts[k].id == b.created[i].bundleId
    ensures PayloadIs(arts, b.created[i].bundleId, payload)
    ensures var op := OpsFor(b, PayloadsOf(arts))[i];
      && op.CreateArtifact? && op.tempId == "tmp_" + b.created[i].bundleId && op.kind == b.created[i].kind
      && (forall ref :: ref in Refs(payload) ==> exists to :: to in Refs(op.payload) && PointsTo(b, ref, to))
      && (forall to :: to in Refs(op.payload) ==> exists ref :: ref in Refs(payload) && PointsTo(b, ref, to))
      && (forall path :: !RefPosition(payload, path) ==> Swapped(At(payload, path), At(op.payload, path), map[]))
  {
    hide Refs, Rewrite, PointsTo, RefMap, PayloadIs, RefPosition;
    var id := b.created[i].bundleId;
    PayloadsAre(arts, id);
    payload := PayloadsOf(arts)[id];
    RefsOfRewritten(payload, RefMap(b));
    var op := OpsFor(b, PayloadsOf(arts))[i];
    assert op.payload == Rewrite(payload, RefMap(b));
    forall ref | ref in Refs(payload) ensures exists to :: to in Refs(op.payload) && PointsTo(b, ref, to) {
      RefMapPoints(b, ref);
      assert GetOr(RefMap(b), ref, ref) in Image(RefMap(b), Refs(payload));
    }
    forall to | to in Refs(op.payload) ensures exists ref :: ref in Refs(payload) && PointsTo(b, ref, to) {
      var ref :| ref in Refs(payload) && to == GetOr(RefMap(b), ref, ref);
      RefMapPoints(b, ref);
    }
    forall path | !RefPosition(payload, path) ensures Swapped(At(payload, path), At(op.payload, path), map[]) {
      RewriteAt(payload, RefMap(b), path);
    }
  }

  ghost predicate Reused(decisions: map<Id, Action>, e: PlanEntry, pair: (Id, Id)) {
    (if e.bundleId in decisions then decisions[e.bundleId] else e.action) == Reuse && pair == (e.bundleId, e.existing.GetOr(""))
  }

  /** The reuses are the entries decided so, with the rows they clash with. */
  lemma {:induction false} ReusesAreDecided(pool: set<Slot>, decisions: map<Id, Action>, copyNames: map<Id, string>, entries: seq<PlanEntry>)
    requires BuildAll(pool, decisions, copyNames, entries).Some?
    ensures var b := BuildAll(pool, decisions, copyNames, entries).value;
      && (forall pair :: pair in b.reused ==> exists e :: e in entries && e.existing.Some? && Reused(decisions, e, pair))
      && (forall e :: e in entries && (if e.bundleId in decisions then decisions[e.bundleId] else e.action) == Reuse ==>
           e.existing.Some? && (e.bundleId, e.existing.value) in b.reused)
  {
    hide Claim, CopyNameFor;
    if entries != [] {
      var n := |entries| - 1;
      ReusesAreDecided(pool, decisions, copyNames, entries[..n]);
      ReuseStep(pool, decisions, copyNames, BuildAll(pool, decisions, copyNames, entries[..n]).value, entries[n]);
      assert forall e :: e in entries <==> e in entries[..n] || e == entries[n];
    }
  }

  lemma ReuseStep(pool: set<Slot>, decisions: map<Id, Action>, copyNames: map<Id, string>, b: Built, e: PlanEntry)
    requires BuildStep(pool, decisions, copyNames, b, e).Some?
    ensures var next := BuildStep(pool, decisions, copyNames, b, e).value;
      if (if e.bundleId in decisions then decisions[e.bundleId] else e.action) == Reuse then
        e.existing.Some? && next.reused == b.reused + [(e.bundleId, e.existing.value)]
      else next.reused == b.reused
  {
  }

  // ---- name safety ---------------------------------------------------------------------------------

  /** The name an entry claims when it is created. */
  function NameFor(e: PlanEntry, decisions: map<Id, Action>, copyNames: map<Id, string>): string {
    if GetOr(decisions, e.bundleId, e.action) == Create then e.name else CopyNameFor(e, copyNames)
  }

  /** The entries to create, and the name each bundle id ends up with, from the plan and
      the user's answers alone. */
  function CreatesOf(entries: seq<PlanEntry>, decisions: map<Id, Action>): seq<PlanEntry> {
    if entries == [] then [] else
    var e := entries[|entries| - 1];
    CreatesOf(entries[..|entries| - 1], decisions) + if GetOr(decisions, e.bundleId, e.action) == Reuse then [] else [e]
  }

  function FinalNames(creates: seq<PlanEntry>, decisions: map<Id, Action>, copyNames: map<Id, string>): map<Id, string> {
    if creates == [] then map[] else
    var e := creates[|creates| - 1];
    FinalNames(creates[..|creates| - 1], decisions, copyNames)[e.bundleId := NameFor(e, decisions, copyNames)]
  }

  lemma {:induction false} BuildsTheseCreates(pool: set<Slot>, decisions: map<Id, Action>, copyNames: map<Id, string>, entries: seq<PlanEntry>)
    requires BuildAll(pool, decisions, copyNames, entries).Some?
    ensures var b := BuildAll(pool, decisions, copyNames, entries).value;
      b.created == CreatesOf(entries, decisions) && b.names == FinalNames(b.created, decisions, copyNames)
  {
    hide BuildStep, NameFor;
    if entries != [] {
      var front, e := CreatesOf(entries[..|entries| - 1], decisions), entries[|entries| - 1];
      BuildsTheseCreates(pool, decisions, copyNames, entries[..|entries| - 1]);
      StepBuilds(pool, decisions, copyNames, BuildAll(pool, decisions, copyNames, entries[..|entries| - 1]).value, e);
      assert (front + [e])[..|front|] == front;
    }
  }

  lemma StepBuilds(pool: set<Slot>, decisions: map<Id, Action>, copyNames: map<Id, string>, b: Built, e: PlanEntry)
    requires BuildStep(pool, decisions, copyNames, b, e).Some?
    ensures var next := BuildStep(pool, decisions, copyNames, b, e).value;
      if GetOr(decisions, e.bundleId, e.action) == Reuse then next.created == b.created && next.names == b.names
      else next.created == b.created + [e] && next.names == b.names[e.bundleId := NameFor(e, decisions, copyNames)]
  {
  }

  function Claimed(e: PlanEntry, decisions: map<Id, Action>, copyNames: map<Id, string>): Slot {
    Slot(e.kind, NameFor(e, decisions, copyNames))
  }

  /** The claims themselves never collide. */
  ghost predicate SafeClaims(rows: Rows, project: Id, b: Built, decisions: map<Id, Action>, copyNames: map<Id, string>) {
    && (forall i :: 0 <= i < |b.created| ==>
         Free(rows, project, Claimed(b.created[i], decisions, copyNames)) && Claimed(b.created[i], decisions, copyNames) in b.used)
    && (forall i, j :: 0 <= i < j < |b.created| ==>
         Claimed(b.created[i], decisions, copyNames) != Claimed(b.created[j], decisions, copyNames))
  }

  lemma ClaimIsSafe(rows: Rows, project: Id, own: set<Slot>, kinds: set<string>, p: Plan, b: Built, e: PlanEntry,
      decisions: map<Id, Action>, copyNames: map<Id, string>)
    requires PlanOk(rows, project, own, kinds, p) && SafeClaims(rows, project, b, decisions, copyNames) && e in p.entries
    requires Claim(Pool(p), b, e, NameFor(e, decisions, copyNames)).Some?
    ensures SafeClaims(rows, project, Claim(Pool(p), b, e, NameFor(e, decisions, copyNames)).value, decisions, copyNames)
  {
    hide Free, Holds, Claim, NameFor;
    var i :| 0 <= i < |p.entries| && p.entries[i] == e;
    assert EntryOk(rows, project, own, p.taken, e);
    NotTakenIsFree(rows, project, kinds, p.taken, Claimed(e, decisions, copyNames));
    ClaimedBy(Pool(p), b, e, NameFor(e, decisions, copyNames));
  }

  lemma ClaimedBy(pool: set<Slot>, b: Built, e: PlanEntry, name: string)
    requires Claim(pool, b, e, name).Some?
    ensures var slot := Slot(e.kind, name);
      && slot !in b.used && (slot !in pool || slot == Reserved(e))
      && Claim(pool, b, e, name).value ==
           b.(used := b.used + {slot}, created := b.created + [e], names := b.names[e.bundleId := name])
  {
  }

  lemma NotTakenIsFree(rows: Rows, project: Id, kinds: set<string>, taken: set<Slot>, s: Slot)
    requires RowsTaken(rows, project, kinds, taken) && s.kind in kinds
    ensures s !in taken ==> Free(rows, project, s)
  {
  }

  lemma {:induction false} ClaimsAreSafe(rows: Rows, project: Id, own: set<Slot>, kinds: set<string>, p: Plan, decisions: map<Id, Action>,
      copyNames: map<Id, string>, entries: seq<PlanEntry>)
    requires PlanOk(rows, project, own, kinds, p) && forall e :: e in entries ==> e in p.entries
    requires BuildAll(Pool(p), decisions, copyNames, entries).Some?
    ensures SafeClaims(rows, project, BuildAll(Pool(p), decisions, copyNames, entries).value, decisions, copyNames)
  {
    hide PlanOk, Claim, Pool, CopyNameFor, Claimed;
    if entries != [] {
      var n := |entries| - 1;
      ClaimsAreSafe(rows, project, own, kinds, p, decisions, copyNames, entries[..n]);
      var b, e := BuildAll(Pool(p), decisions, copyNames, entries[..n]).value, entries[n];
      if GetOr(decisions, e.bundleId, e.action) != Reuse {
        ClaimIsSafe(rows, project, own, kinds, p, b, e, decisions, copyNames);
      }
    }
  }

  /** The slot of the op made from an entry: its kind with the final name of its id. */
  function OpSlot(e: PlanEntry, names: map<Id, string>): Slot {
    Slot(e.kind, GetOr(names, e.bundleId, ""))
  }

  /** The names of the ops are new to the project and differ from each other. */
  ghost predicate SafeNames(rows: Rows, project: Id, creates: seq<PlanEntry>, names: map<Id, string>) {
    && (forall i :: 0 <= i < |creates| ==> Free(rows, project, OpSlot(creates[i], names)))
    && (forall i, j :: 0 <= i < j < |creates| ==> OpSlot(creates[i], names) != OpSlot(creates[j], names))
  }

  ghost predicate IdsDiffer(creates: seq<PlanEntry>) {
    forall i, j :: 0 <= i < j < |creates| ==> creates[i].bundleId != creates[j].bundleId
  }

  /** Two creates of one kind share a bundle id. */
  ghost predicate KindRepeats(creates: seq<PlanEntry>) {
    exists i, j :: 0 <= i < j < |creates| && creates[i].bundleId == creates[j].bundleId && creates[i].kind == creates[j].kind
  }

  /** An entry whose name a later claim under its id replaced: the op made from it goes
      by a name nobody claimed for its kind. */
  predicate Overwritten(e: PlanEntry, names: map<Id, string>, decisions: map<Id, Action>, copyNames: map<Id, string>) {
    GetOr(names, e.bundleId, "") != NameFor(e, decisions, copyNames)
  }

  /** Every overwritten entry's stray name happens to be free and its own. */
  ghost predicate StraysFit(rows: Rows, project: Id, creates: seq<PlanEntry>, names: map<Id, string>, decisions: map<Id, Action>,
      copyNames: map<Id, string>) {
    forall i :: 0 <= i < |creates| && Overwritten(creates[i], names, decisions, copyNames) ==>
      && Free(rows, project, OpSlot(creates[i], names))
      && forall j :: 0 <= j < |creates| && j != i ==> OpSlot(creates[j], names) != OpSlot(creates[i], names)
  }

  lemma {:induction false} NamesOfDistinct(creates: seq<PlanEntry>, decisions: map<Id, Action>, copyNames: map<Id, string>)
    requires IdsDiffer(creates)
    ensures forall i :: 0 <= i < |creates| ==> !Overwritten(creates[i], FinalNames(creates, decisions, copyNames), decisions, copyNames)
  {
    hide NameFor;
    if creates != [] {
      NamesOfDistinct(creates[..|creates| - 1], decisions, copyNames);
    }
  }

  /** Name safety, exactly: whatever the decisions and the names the user typed, the ops
      built on a fresh plan go by names no row holds and no two share if and only if the
      same is true of the entries whose bundle id a later create repeats. With distinct
      ids there are none; with an id repeated within a kind it always fails. */
  lemma ImportNamesAreSafe(h: Host, rows: Rows, project: Id, arts: seq<BundleArtifact>, decisions: map<Id, Action>, copyNames: map<Id, string>)
    requires BuildFor(PlanFor(h, rows, project, arts), decisions, copyNames).Some?
    ensures var creates := CreatesOf(PlanFor(h, rows, project, arts).entries, decisions);
      var names := FinalNames(creates, decisions, copyNames);
      var b := BuildFor(PlanFor(h, rows, project, arts), decisions, copyNames).value;
      && b.created == creates && b.names == names
      && (SafeNames(rows, project, creates, names) <==> StraysFit(rows, project, creates, names, decisions, copyNames))
      && (IdsDiffer(creates) ==> SafeNames(rows, project, creates, names))
      && (KindRepeats(creates) ==> !SafeNames(rows, project, creates, names))
  {
    hide PlanFor, PlanOk, BuildAll, Pool, CreatesOf, FinalNames, Free, NameFor;
    DerivedPlanOk(h, rows, project, arts);
    var p, valid := PlanFor(h, rows, project, arts), ValidArts(h, arts);
    ClaimsAreSafe(rows, project, SlotsOf(valid), KindsOf(valid), p, decisions, copyNames, p.entries);
    BuildsTheseCreates(Pool(p), decisions, copyNames, p.entries);
    var creates := CreatesOf(p.entries, decisions);
    if IdsDiffer(creates) {
      NamesOfDistinct(creates, decisions, copyNames);
    }
    var names := FinalNames(creates, decisions, copyNames);
    if StraysFit(rows, project, creates, names, decisions, copyNames) {
      forall i, j | 0 <= i < j < |creates| ensures OpSlot(creates[i], names) != OpSlot(creates[j], names) {
        assert Claimed(creates[i], decisions, copyNames) != Claimed(creates[j], decisions, copyNames);
      }
    }
  }

  // ---- when it raises ----------------------------------------------------------------------------------

  /** A decision the plan can honor. */
  predicate Legal(e: PlanEntry, decisions: map<Id, Action>) {
    match GetOr(decisions, e.bundleId, e.action)
    case Reuse => e.existing.Some?
    case Create => e.action == Create
    case Copy => true
  }

  /** Without typed names each entry claims the name reserved for it. */
  lemma {:induction false} BuildsIffLegal(rows: Rows, project: Id, own: set<Slot>, kinds: set<string>, p: Plan, decisions: map<Id, Action>, n: nat)
    requires PlanOk(rows, project, own, kinds, p) && n <= |p.entries|
    ensures var r := BuildAll(Pool(p), decisions, map[], p.entries[..n]);
      && (r.Some? <==> forall i :: 0 <= i < n ==> Legal(p.entries[i], decisions))
      && (r.Some? ==> forall s :: s in r.value.used ==> exists i :: 0 <= i < n && s == Reserved(p.entries[i]))
  {
    hide PlanOk, BuildStep, Reserved, Legal, Pool;
    if n > 0 {
      BuildsIffLegal(rows, project, own, kinds, p, decisions, n - 1);
      assert p.entries[..n][..n - 1] == p.entries[..n - 1];
      var before := BuildAll(Pool(p), decisions, map[], p.entries[..n - 1]);
      if before.Some? {
        ReservedDiffer(rows, project, own, kinds, p, n - 1);
        LegalStep(rows, project, own, kinds, p, decisions, before.value, n - 1);
      }
    }
  }

  lemma ReservedDiffer(rows: Rows, project: Id, own: set<Slot>, kinds: set<string>, p: Plan, k: nat)
    requires PlanOk(rows, project, own, kinds, p) && k < |p.entries|
    ensures forall i :: 0 <= i < k ==> Reserved(p.entries[i]) != Reserved(p.entries[k])
  {
    hide EntryOk, RowsTaken, Reserved;
  }

  lemma LegalStep(rows: Rows, project: Id, own: set<Slot>, kinds: set<string>, p: Plan, decisions: map<Id, Action>, b: Built, k: nat)
    requires PlanOk(rows, project, own, kinds, p) && k < |p.entries| && Reserved(p.entries[k]) !in b.used
    ensures var e := p.entries[k];
      var r := BuildStep(Pool(p), decisions, map[], b, e);
      (r.Some? <==> Legal(e, decisions)) && (r.Some? ==> r.value.used <= b.used + {Reserved(e)})
  {
    hide Pool, Free, Holds, RowsTaken;
    var e := p.entries[k];
    assert EntryOk(rows, project, own, p.taken, e);
    assert e.action == Create ==> Slot(e.kind, e.name) == Reserved(e);
    assert Slot(e.kind, CopyNameFor(e, map[])) == Reserved(e);
  }

  /** With no typed names a fresh plan is refused exactly when some decision is illegal:
      for an artifact it has no entry for, a reuse with nothing to reuse, or a create
      whose name is taken. */
  lemma RefusedIffIllegal(h: Host, rows: Rows, project: Id, arts: seq<BundleArtifact>, decisions: map<Id, Action>)
    ensures var p := PlanFor(h, rows, project, arts);
      BuildFor(p, decisions, map[]).Some? <==>
        KnowsAll(p, decisions) && forall i :: 0 <= i < |p.entries| ==> Legal(p.entries[i], decisions)
  {
    hide PlanFor, PlanOk, BuildAll, Pool, Legal;
    DerivedPlanOk(h, rows, project, arts);
    var p, valid := PlanFor(h, rows, project, arts), ValidArts(h, arts);
    BuildsIffLegal(rows, project, SlotsOf(valid), KindsOf(valid), p, decisions, |p.entries|);
    assert p.entries[..|p.entries|] == p.entries;
  }
}
