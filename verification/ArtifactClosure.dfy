/** Exporting a closed set of artifacts (api/artifact_bundle.py) and importing it under
    fresh ids (api/importer.py). */
module ArtifactClosure {
  import opened Collections
  import opened Graph
  import opened Json
  import opened Model
  import opened ArtifactStore
  import opened ArtifactRefs

  predicate InProject(rows: Rows, project: Id, id: Id) {
    id in rows && rows[id].project == project
  }

  /** A row of another project has no successors: it is as good as missing. */
  function References(rows: Rows, project: Id): Graph {
    map id | id in rows && InProject(rows, project, id) :: Refs(rows[id].payload)
  }

  /** First occurrences, in order. */
  function Dedupe(ids: seq<Id>): (r: seq<Id>)
    ensures SetOf(r) == SetOf(ids) && Distinct(r)
  {
    if ids == [] then [] else
    var n := |ids| - 1;
    var rest := Dedupe(ids[..n]);
    assert SetOf(ids) == SetOf(ids[..n]) + {ids[n]} by { assert ids == ids[..n] + [ids[n]]; }
    assert SetOf(rest + [ids[n]]) == SetOf(rest) + {ids[n]};
    if ids[n] in rest then rest else rest + [ids[n]]
  }

  function Present(rows: Rows, project: Id, ids: set<Id>): set<Id> {
    set id | id in ids && InProject(rows, project, id)
  }

  function Missing(rows: Rows, project: Id, ids: set<Id>): set<Id> {
    set id | id in ids && !InProject(rows, project, id)
  }

  lemma SplitOneMore(rows: Rows, project: Id, ids: set<Id>, id: Id)
    ensures Present(rows, project, {}) == {} && Missing(rows, project, {}) == {}
    ensures Present(rows, project, ids + {id}) == Present(rows, project, ids) + if InProject(rows, project, id) then {id} else {}
    ensures Missing(rows, project, ids + {id}) == Missing(rows, project, ids) + if InProject(rows, project, id) then {} else {id}
    ensures id !in ids ==> id !in Present(rows, project, ids)
  {
  }

  /** Mid-search: `done` has left the queue, and every successor of it was admitted. */
  ghost predicate Exploring(rows: Rows, project: Id, roots: set<Id>, found: seq<Id>, dangling: set<Id>, seen: set<Id>, done: set<Id>) {
    var g := References(rows, project);
    && roots <= seen <= ReachSet(g, roots) && done <= seen
    && Distinct(found) && SetOf(found) == Present(rows, project, done) && dangling == Missing(rows, project, done)
    && forall a :: a in done ==> Succ(g, a) <= seen
  }

  lemma SearchStarts(rows: Rows, project: Id, roots: set<Id>)
    ensures Exploring(rows, project, roots, [], {}, roots, {})
  {
    hide References, ReachSet, ReachableFrom;
    ReachSetExact(References(rows, project), roots);
  }

  lemma MissingStep(rows: Rows, project: Id, roots: set<Id>, found: seq<Id>, dangling: set<Id>, seen: set<Id>, done: set<Id>, id: Id)
    requires Exploring(rows, project, roots, found, dangling, seen, done) && id in seen && !InProject(rows, project, id)
    ensures Exploring(rows, project, roots, found, dangling + {id}, seen, done + {id})
  {
    hide References, ReachSet, Succ, Distinct, Present, Missing;
    SplitOneMore(rows, project, done, id);
    RowDeps(rows, project, id);
  }

  lemma FoundStep(rows: Rows, project: Id, roots: set<Id>, found: seq<Id>, dangling: set<Id>, seen: set<Id>, done: set<Id>, id: Id)
    requires Exploring(rows, project, roots, found, dangling, seen, done) && id in seen && id !in done && InProject(rows, project, id)
    ensures Exploring(rows, project, roots, found + [id], dangling, seen + Refs(rows[id].payload), done + {id})
  {
    hide References, ReachSet, Succ, Distinct, Present, Missing, Refs;
    SplitOneMore(rows, project, done, id);
    RowDeps(rows, project, id);
    SnocDistinct(found, id);
    ReachedStays(References(rows, project), roots, id);
  }

  lemma SearchEnds(rows: Rows, project: Id, roots: set<Id>, found: seq<Id>, dangling: set<Id>, done: set<Id>)
    requires Exploring(rows, project, roots, found, dangling, done, done)
    ensures done == ReachSet(References(rows, project), roots)
    ensures Distinct(found) && SetOf(found) == Present(rows, project, done) && dangling == Missing(rows, project, done)
  {
    hide References, ReachSet, ReachableFrom;
    ReachSetExact(References(rows, project), roots);
    ClosedReachableIsReachSet(References(rows, project), roots, done);
  }

  lemma SeenBounded(rows: Rows, project: Id, roots: set<Id>, found: seq<Id>, dangling: set<Id>, seen: set<Id>, done: set<Id>)
    requires Exploring(rows, project, roots, found, dangling, seen, done)
    ensures seen <= ReachSet(References(rows, project), roots)
  {
  }

  /** Breadth first: `seen` admits an id to the queue once. */
  method ComputeClosure(db: ArtifactTable, project: Id, roots: seq<Id>) returns (found: seq<Id>, dangling: set<Id>)
    ensures var reached := ReachSet(References(db.rows, project), SetOf(roots));
      && Distinct(found)
      && SetOf(found) == Present(db.rows, project, reached)
      && dangling == Missing(db.rows, project, reached)
  {
    hide Exploring, References, ReachSet, Frontier, Refs;
    ghost var reached := ReachSet(References(db.rows, project), SetOf(roots));
    found, dangling := [], {};
    var queue := Dedupe(roots);
    var seen := SetOf(queue);
    ghost var done: set<Id> := {};
    SearchStarts(db.rows, project, seen);
    FirstFrontier(queue);
    while queue != []
      invariant Frontier(queue, seen, done)
      invariant Exploring(db.rows, project, SetOf(roots), found, dangling, seen, done)
      decreases |reached - done|
    {
      SeenBounded(db.rows, project, SetOf(roots), found, dangling, seen, done);
      var id := queue[0];
      NextInQueue(queue, seen, done);
      queue := queue[1..];
      SubsetShrinks(reached - (done + {id}), reached - done, id);
      if !InProject(db.rows, project, id) {
        MissingStep(db.rows, project, SetOf(roots), found, dangling, seen, done, id);
        dangling, done := dangling + {id}, done + {id};
        continue;
      }
      FoundStep(db.rows, project, SetOf(roots), found, dangling, seen, done, id);
      found, done := found + [id], done + {id};
      queue, seen := Admit(Refs(db.rows[id].payload), queue, seen, done);
    }
    EmptyFrontier(seen, done);
    SearchEnds(db.rows, project, SetOf(roots), found, dangling, done);
  }

  /** The queue holds, once each, what was admitted and is not done. */
  ghost predicate Frontier(queue: seq<Id>, seen: set<Id>, done: set<Id>) {
    Distinct(queue) && seen == done + SetOf(queue) && done !! SetOf(queue)
  }

  lemma FirstFrontier(queue: seq<Id>)
    requires Distinct(queue)
    ensures Frontier(queue, SetOf(queue), {})
  {
  }

  lemma NextInQueue(queue: seq<Id>, seen: set<Id>, done: set<Id>)
    requires queue != [] && Frontier(queue, seen, done)
    ensures queue[0] in seen && queue[0] !in done && Frontier(queue[1..], seen, done + {queue[0]})
  {
    SetOfCons(queue);
    DistinctTail(queue);
  }

  lemma EmptyFrontier(seen: set<Id>, done: set<Id>)
    requires Frontier([], seen, done)
    ensures seen == done
  {
  }

  lemma SubsetShrinks(a: set<Id>, b: set<Id>, x: Id)
    requires a <= b && x in b && x !in a
    ensures |a| < |b|
  {
    SubsetCardinality(a, b - {x});
  }

  lemma SnocDistinct(s: seq<Id>, x: Id)
    requires Distinct(s) && x !in SetOf(s)
    ensures Distinct(s + [x]) && SetOf(s + [x]) == SetOf(s) + {x}
  {
  }

  lemma RowDeps(rows: Rows, project: Id, id: Id)
    ensures Succ(References(rows, project), id) == if InProject(rows, project, id) then Refs(rows[id].payload) else {}
  {
  }

  lemma ReachedStays(g: Graph, roots: set<Id>, id: Id)
    requires id in ReachSet(g, roots)
    ensures Succ(g, id) <= ReachSet(g, roots)
  {
    ReachSetExact(g, roots);
  }

  /** Queue the ids not admitted before, in whatever order. */
  method Admit(deps: set<Id>, queue: seq<Id>, seen: set<Id>, ghost done: set<Id>) returns (queue': seq<Id>, seen': set<Id>)
    requires Frontier(queue, seen, done)
    ensures seen' == seen + deps && Frontier(queue', seen', done)
  {
    hide Distinct;
    queue', seen' := queue, seen;
    var todo := deps;
    while todo != {}
      invariant todo <= deps && seen' == seen + (deps - todo)
      invariant Frontier(queue', seen', done)
    {
      var dep :| dep in todo;
      if dep !in seen' {
        SnocDistinct(queue', dep);
        seen', queue' := seen' + {dep}, queue' + [dep];
      }
      todo := todo - {dep};
    }
  }

  /** A row of the project, referring to these at its payload's reference positions. */
  ghost predicate RefersTo(rows: Rows, project: Id, a: Id, b: Id) {
    a in rows && rows[a].project == project && exists path :: RefersAt(rows[a].payload, b, path)
  }

  /** What the search gives: the smallest set that holds the roots and whatever a project
      row in it refers to, split into the project's rows and the rest. */
  lemma ClosureIs(rows: Rows, project: Id, roots: set<Id>, found: set<Id>, dangling: set<Id>)
    requires var reached := ReachSet(References(rows, project), roots);
      found == Present(rows, project, reached) && dangling == Missing(rows, project, reached)
    ensures roots <= found + dangling
    ensures forall a, b :: a in found && RefersTo(rows, project, a, b) ==> b in found + dangling
    ensures forall a :: a in found ==> a in rows && rows[a].project == project
    ensures forall a :: a in dangling ==> !(a in rows && rows[a].project == project)
    ensures forall s: set<Id> ::
      roots <= s && (forall a, b :: a in s && RefersTo(rows, project, a, b) ==> b in s) ==> found + dangling <= s
  {
    hide ReachSet, Refs, References;
    var g := References(rows, project);
    ReachSetExact(g, roots);
    forall a, b ensures b in Succ(g, a) <==> RefersTo(rows, project, a, b) {
      RowDeps(rows, project, a);
      if a in rows {
        RefsAre(rows[a].payload, b);
      }
    }
    assert found + dangling == ReachSet(g, roots);
    forall s: set<Id> | roots <= s && (forall a, b :: a in s && RefersTo(rows, project, a, b) ==> b in s) ensures found + dangling <= s {
      assert Closed(g, s);
      ReachableStays(g, s, roots);
    }
  }

  // ---- import under fresh ids ---------------------------------------------------------------

  datatype BundleArtifact = BundleArtifact(id: Id, kind: string, name: string, payload: Json)

  function BundleOf(rows: Rows, ids: seq<Id>): seq<BundleArtifact>
    requires forall i :: 0 <= i < |ids| ==> ids[i] in rows
  {
    seq(|ids|, i requires 0 <= i < |ids| =>
      BundleArtifact(ids[i], rows[ids[i]].kind, rows[ids[i]].name, rows[ids[i]].payload))
  }

  datatype SkipReason = EmptyName | UnknownKind | UnregisteredKind | InvalidPayload | DuplicateName

  /** Why an artifact cannot land, a duplicate name apart; a trusted bundle is taken as
      it is but for a kind the database cannot hold. */
  function SkipFor(reg: Registry, known: set<string>, a: BundleArtifact, trusted: bool): Option<SkipReason> {
    if a.kind !in known then Some(UnknownKind)
    else if trusted then None
    else if a.name == "" then Some(EmptyName)
    else if a.kind !in reg.kinds then Some(UnregisteredKind)
    else if !reg.valid(a.kind, a.payload) then Some(InvalidPayload)
    else None
  }

  function LandedPayload(reg: Registry, a: BundleArtifact, trusted: bool): Json {
    if trusted then a.payload else reg.derive(a.kind, a.payload)
  }

  ghost predicate NamesDistinct(arts: seq<BundleArtifact>) {
    forall i, j :: 0 <= i < j < |arts| ==> Slot(arts[i].kind, arts[i].name) != Slot(arts[j].kind, arts[j].name)
  }

  ghost predicate IdsDistinct(arts: seq<BundleArtifact>) {
    forall i, j :: 0 <= i < j < |arts| ==> arts[i].id != arts[j].id
  }

  /** The landed artifact is one of the bundle's, with its payload as a write stores it. */
  ghost predicate LandsFrom(reg: Registry, known: set<string>, arts: seq<BundleArtifact>, trusted: bool, a: BundleArtifact) {
    exists b :: b in arts && SkipFor(reg, known, b, trusted).None? && a == b.(payload := LandedPayload(reg, b, trusted))
  }

  lemma LandsLater(reg: Registry, known: set<string>, arts: seq<BundleArtifact>, trusted: bool, i: nat)
    requires i < |arts|
    ensures forall a :: LandsFrom(reg, known, arts[..i], trusted, a) ==> LandsFrom(reg, known, arts[..i + 1], trusted, a)
    ensures IdsDistinct(arts) ==> forall a :: LandsFrom(reg, known, arts[..i], trusted, a) ==> a.id != arts[i].id
    ensures SkipFor(reg, known, arts[i], trusted).None? ==>
      LandsFrom(reg, known, arts[..i + 1], trusted, arts[i].(payload := LandedPayload(reg, arts[i], trusted)))
  {
    hide SkipFor, LandedPayload;
    assert arts[..i + 1] == arts[..i] + [arts[i]];
    assert arts[i] in arts[..i + 1];
  }

  /** The artifacts with their payloads as they are stored. */
  function LandedArts(reg: Registry, arts: seq<BundleArtifact>, trusted: bool): seq<BundleArtifact> {
    seq(|arts|, i requires 0 <= i < |arts| => arts[i].(payload := LandedPayload(reg, arts[i], trusted)))
  }

  ghost predicate AllLand(reg: Registry, known: set<string>, arts: seq<BundleArtifact>, trusted: bool) {
    forall a :: a in arts ==> SkipFor(reg, known, a, trusted).None?
  }

  /** It can land: a kind the database holds, and unless trusted a name, a writable kind
      and a valid payload. */
  predicate Fit(reg: Registry, known: set<string>, a: BundleArtifact, trusted: bool) {
    a.kind in known && (trusted || (a.name != "" && a.kind in reg.kinds && reg.valid(a.kind, a.payload)))
  }

  /** It lands: no earlier one that can has its name. */
  ghost predicate Lands(reg: Registry, known: set<string>, arts: seq<BundleArtifact>, trusted: bool, i: nat)
    requires i < |arts|
  {
    Fit(reg, known, arts[i], trusted) && !exists j :: 0 <= j < i && Precedes(reg, known, arts[j], arts[i], trusted)
  }

  predicate Precedes(reg: Registry, known: set<string>, b: BundleArtifact, a: BundleArtifact, trusted: bool) {
    Fit(reg, known, b, trusted) && b.kind == a.kind && b.name == a.name
  }

  predicate Explains(reg: Registry, known: set<string>, a: BundleArtifact, trusted: bool, reason: SkipReason) {
    match reason
    case UnknownKind => a.kind !in known
    case EmptyName => a.kind in known && !trusted && a.name == ""
    case UnregisteredKind => a.kind in known && !trusted && a.name != "" && a.kind !in reg.kinds
    case InvalidPayload => a.kind in known && !trusted && a.name != "" && a.kind in reg.kinds && !reg.valid(a.kind, a.payload)
    case DuplicateName => Fit(reg, known, a, trusted)
  }

  /** It is among the landed, its payload derived unless trusted, or among the skipped
      with the first reason that applies. */
  ghost predicate Screened(reg: Registry, known: set<string>, arts: seq<BundleArtifact>, trusted: bool, i: nat, landable: seq<BundleArtifact>,
      skipped: seq<(Id, SkipReason)>)
    requires i < |arts|
  {
    var a := arts[i];
    if Lands(reg, known, arts, trusted, i) then BundleArtifact(a.id, a.kind, a.name, if trusted then a.payload else reg.derive(a.kind, a.payload)) in landable
    else exists reason :: Explains(reg, known, a, trusted, reason) && (a.id, reason) in skipped
  }

  ghost predicate AllScreened(reg: Registry, known: set<string>, arts: seq<BundleArtifact>, trusted: bool, n: nat, landable: seq<BundleArtifact>,
      skipped: seq<(Id, SkipReason)>)
    requires n <= |arts|
  {
    forall i :: 0 <= i < n ==> Screened(reg, known, arts, trusted, i, landable, skipped)
  }

  /** The names of the first `n` that can land. */
  ghost predicate ClaimedBy(reg: Registry, known: set<string>, arts: seq<BundleArtifact>, trusted: bool, n: nat, claimed: set<Slot>)
    requires n <= |arts|
  {
    forall s :: s in claimed <==> exists j :: 0 <= j < n && Fit(reg, known, arts[j], trusted) && s == Slot(arts[j].kind, arts[j].name)
  }

  lemma ClaimedOnlyNames(reg: Registry, known: set<string>, arts: seq<BundleArtifact>, trusted: bool, n: nat, claimed: set<Slot>)
    requires n <= |arts| && ClaimedBy(reg, known, arts, trusted, n, claimed)
    ensures forall s :: s in claimed ==> exists j :: 0 <= j < n && s == Slot(arts[j].kind, arts[j].name)
  {
  }

  /** Every artifact lands or is reported; the landed ones have distinct names. */
  method LandableArtifacts(reg: Registry, known: set<string>, arts: seq<BundleArtifact>, trusted: bool)
    returns (landable: seq<BundleArtifact>, skipped: seq<(Id, SkipReason)>)
    ensures |landable| + |skipped| == |arts| && NamesDistinct(landable)
    ensures AllScreened(reg, known, arts, trusted, |arts|, landable, skipped)
    ensures forall a :: a in landable ==> LandsFrom(reg, known, arts, trusted, a)
    ensures IdsDistinct(arts) ==> IdsDistinct(landable)
    ensures NamesDistinct(arts) && AllLand(reg, known, arts, trusted) ==> landable == LandedArts(reg, arts, trusted) && skipped == []
  {
    hide LandsFrom, AllScreened, ClaimedBy, SkipFor, LandedPayload;
    landable, skipped := [], [];
    NothingScreened(reg, known, arts, trusted);
    var claimed: set<Slot> := {};
    for i := 0 to |arts|
      invariant |landable| + |skipped| == i
      invariant forall j :: 0 <= j < |landable| ==> Slot(landable[j].kind, landable[j].name) in claimed
      invariant ClaimedBy(reg, known, arts, trusted, i, claimed)
      invariant AllScreened(reg, known, arts, trusted, i, landable, skipped)
      invariant NamesDistinct(landable)
      invariant forall a :: a in landable ==> LandsFrom(reg, known, arts[..i], trusted, a)
      invariant IdsDistinct(arts) ==> IdsDistinct(landable)
      invariant NamesDistinct(arts) && AllLand(reg, known, arts, trusted) ==>
        landable == LandedArts(reg, arts[..i], trusted) && skipped == []
    {
      var a := arts[i];
      assert arts[..i + 1] == arts[..i] + [a] && a in arts;
      LandsLater(reg, known, arts, trusted, i);
      assert forall j :: 0 <= j < |landable| ==> landable[j] in landable;
      var reason := SkipFor(reg, known, a, trusted);
      ScreenNext(reg, known, arts, trusted, i, landable, skipped, claimed);
      ClaimedOnlyNames(reg, known, arts, trusted, i, claimed);
      if reason.Some? {
        skipped := skipped + [(a.id, reason.value)];
        continue;
      }
      if Slot(a.kind, a.name) in claimed {
        skipped := skipped + [(a.id, DuplicateName)];
        continue;
      }
      claimed := claimed + {Slot(a.kind, a.name)};
      landable := landable + [a.(payload := LandedPayload(reg, a, trusted))];
    }
    assert arts[..|arts|] == arts;
  }

  lemma NothingScreened(reg: Registry, known: set<string>, arts: seq<BundleArtifact>, trusted: bool)
    ensures AllScreened(reg, known, arts, trusted, 0, [], []) && ClaimedBy(reg, known, arts, trusted, 0, {})
  {
  }

  lemma ScreenNext(reg: Registry, known: set<string>, arts: seq<BundleArtifact>, trusted: bool, i: nat, landable: seq<BundleArtifact>,
      skipped: seq<(Id, SkipReason)>, claimed: set<Slot>)
    requires i < |arts| && ClaimedBy(reg, known, arts, trusted, i, claimed) && AllScreened(reg, known, arts, trusted, i, landable, skipped)
    ensures var a, reason := arts[i], SkipFor(reg, known, arts[i], trusted);
      if reason.Some? then
        && AllScreened(reg, known, arts, trusted, i + 1, landable, skipped + [(a.id, reason.value)])
        && ClaimedBy(reg, known, arts, trusted, i + 1, claimed)
      else if Slot(a.kind, a.name) in claimed then
        && AllScreened(reg, known, arts, trusted, i + 1, landable, skipped + [(a.id, DuplicateName)])
        && ClaimedBy(reg, known, arts, trusted, i + 1, claimed)
      else
        && AllScreened(reg, known, arts, trusted, i + 1, landable + [a.(payload := LandedPayload(reg, a, trusted))], skipped)
        && ClaimedBy(reg, known, arts, trusted, i + 1, claimed + {Slot(a.kind, a.name)})
  {
    hide Screened, SkipFor, Fit;
    var a, reason := arts[i], SkipFor(reg, known, arts[i], trusted);
    ScreenOne(reg, known, arts, trusted, i, landable, skipped, claimed);
    ScreenedStays(reg, known, arts, trusted, i, landable, skipped, a.(payload := LandedPayload(reg, a, trusted)), (a.id, reason.GetOr(DuplicateName)));
  }

  lemma ScreenedStays(reg: Registry, known: set<string>, arts: seq<BundleArtifact>, trusted: bool, n: nat, landable: seq<BundleArtifact>,
      skipped: seq<(Id, SkipReason)>, x: BundleArtifact, y: (Id, SkipReason))
    requires n <= |arts| && AllScreened(reg, known, arts, trusted, n, landable, skipped)
    ensures AllScreened(reg, known, arts, trusted, n, landable + [x], skipped) && AllScreened(reg, known, arts, trusted, n, landable, skipped + [y])
  {
    hide Lands, Explains;
    forall i | 0 <= i < n
      ensures Screened(reg, known, arts, trusted, i, landable + [x], skipped) && Screened(reg, known, arts, trusted, i, landable, skipped + [y])
    {
      assert Screened(reg, known, arts, trusted, i, landable, skipped);
      if !Lands(reg, known, arts, trusted, i) {
        var reason :| Explains(reg, known, arts[i], trusted, reason) && (arts[i].id, reason) in skipped;
        assert (arts[i].id, reason) in skipped + [y];
      }
    }
  }

  lemma ScreenOne(reg: Registry, known: set<string>, arts: seq<BundleArtifact>, trusted: bool, i: nat, landable: seq<BundleArtifact>,
      skipped: seq<(Id, SkipReason)>, claimed: set<Slot>)
    requires i < |arts| && ClaimedBy(reg, known, arts, trusted, i, claimed)
    ensures var a, reason := arts[i], SkipFor(reg, known, arts[i], trusted);
      && (reason.None? <==> Fit(reg, known, a, trusted))
      && if reason.Some? then Screened(reg, known, arts, trusted, i, landable, skipped + [(a.id, reason.value)])
         else if Slot(a.kind, a.name) in claimed then Screened(reg, known, arts, trusted, i, landable, skipped + [(a.id, DuplicateName)])
         else Screened(reg, known, arts, trusted, i, landable + [a.(payload := LandedPayload(reg, a, trusted))], skipped)
  {
    var a := arts[i];
    if j :| 0 <= j < i && Precedes(reg, known, arts[j], a, trusted) {
      assert Slot(arts[j].kind, arts[j].name) in claimed;
    }
    if Slot(a.kind, a.name) in claimed {
      var j :| 0 <= j < i && Fit(reg, known, arts[j], trusted) && Slot(a.kind, a.name) == Slot(arts[j].kind, arts[j].name);
      assert Precedes(reg, known, arts[j], a, trusted);
    }
    var reason := SkipFor(reg, known, a, trusted).GetOr(DuplicateName);
    assert (a.id, reason) in skipped + [(a.id, reason)];
  }

  /** Every bundle id among the landed artifacts gets a fresh id, all of them before any
      row is written; a repeated one keeps the last. */
  function IdMap(arts: seq<BundleArtifact>, mint: Mint): map<Id, Id> {
    if arts == [] then map[] else
    var n := |arts| - 1;
    IdMap(arts[..n], mint)[arts[n].id := mint(n)]
  }

  function RowOf(a: BundleArtifact, ids: map<Id, Id>, project: Id): Row {
    Row(project, a.kind, a.name, Rewrite(a.payload, ids), 1)
  }

  function ImportedRows(arts: seq<BundleArtifact>, ids: map<Id, Id>, project: Id): Rows {
    if arts == [] then map[] else
    var a := arts[|arts| - 1];
    ImportedRows(arts[..|arts| - 1], ids, project)[GetOr(ids, a.id, a.id) := RowOf(a, ids, project)]
  }

  ghost predicate FreshIds(mint: Mint, rows: Rows) {
    && (forall n :: mint(n) !in rows)
    && (forall m, n :: mint(m) == mint(n) ==> m == n)
  }

  lemma {:induction false} IdMapExactly(arts: seq<BundleArtifact>, mint: Mint)
    ensures forall i :: 0 <= i < |arts| ==> arts[i].id in IdMap(arts, mint)
    ensures forall id :: id in IdMap(arts, mint) ==> exists k: nat :: k < |arts| && arts[k].id == id && IdMap(arts, mint)[id] == mint(k)
  {
    if arts != [] {
      var n := |arts| - 1;
      IdMapExactly(arts[..n], mint);
      forall id | id in IdMap(arts, mint) ensures exists k: nat :: k < |arts| && arts[k].id == id && IdMap(arts, mint)[id] == mint(k) {
        if id == arts[n].id {
          assert IdMap(arts, mint)[id] == mint(n);
        } else {
          var k: nat :| k < n && arts[..n][k].id == id && IdMap(arts[..n], mint)[id] == mint(k);
          assert arts[k].id == id;
        }
      }
    }
  }

  /** Different bundle ids get different fresh ids. */
  lemma IdMapInjective(arts: seq<BundleArtifact>, mint: Mint, rows: Rows)
    requires FreshIds(mint, rows)
    ensures var ids := IdMap(arts, mint);
      && (forall a, b :: a in ids && b in ids && ids[a] == ids[b] ==> a == b)
      && (forall a :: a in ids ==> ids[a] !in rows)
  {
    hide IdMap;
    IdMapExactly(arts, mint);
  }

  /** The row id belongs to one of the artifacts. */
  ghost predicate Imports(arts: seq<BundleArtifact>, ids: map<Id, Id>, row: Id) {
    exists a :: a in arts && a.id in ids && ids[a.id] == row
  }

  /** The rows of artifacts with distinct ids, under an injective map. */
  lemma {:induction false} ImportedExactly(arts: seq<BundleArtifact>, ids: map<Id, Id>, project: Id)
    requires IdsDistinct(arts) && (forall i :: 0 <= i < |arts| ==> arts[i].id in ids)
    requires forall a, b :: a in ids && b in ids && ids[a] == ids[b] ==> a == b
    ensures var rows := ImportedRows(arts, ids, project);
      && (forall a :: a in arts ==> ids[a.id] in rows && rows[ids[a.id]] == RowOf(a, ids, project))
      && (forall id :: id in rows ==> Imports(arts, ids, id))
  {
    hide RowOf, Imports;
    if arts != [] {
      var n := |arts| - 1;
      var a := arts[n];
      ImportedExactly(arts[..n], ids, project);
      ImportsSnoc(arts, ids);
      forall b | b in arts[..n] ensures ids[b.id] != ids[a.id] {
        var k :| 0 <= k < n && arts[..n][k] == b;
        assert arts[k].id != arts[n].id;
      }
      assert forall b :: b in arts ==> b in arts[..n] || b == a;
    }
  }

  lemma ImportsSnoc(arts: seq<BundleArtifact>, ids: map<Id, Id>)
    requires arts != [] && arts[|arts| - 1].id in ids
    ensures forall id :: Imports(arts[..|arts| - 1], ids, id) ==> Imports(arts, ids, id)
    ensures Imports(arts, ids, ids[arts[|arts| - 1].id])
  {
  }

  lemma ImportedSnoc(arts: seq<BundleArtifact>, ids: map<Id, Id>, project: Id, i: nat)
    requires i < |arts| && arts[i].id in ids
    ensures ImportedRows(arts[..i + 1], ids, project) == ImportedRows(arts[..i], ids, project)[ids[arts[i].id] := RowOf(arts[i], ids, project)]
  {
    hide RowOf;
    assert arts[..i + 1][..i] == arts[..i];
  }

  /** The next insert finds its name free, and its id taken exactly if an earlier artifact
      had the same bundle id. */
  lemma NextRowFits(arts: seq<BundleArtifact>, mint: Mint, project: Id, rows: Rows, i: nat)
    requires i < |arts| && NamesDistinct(arts) && IdsDistinct(arts[..i]) && FreshIds(mint, rows)
    requires forall id :: id in rows ==> rows[id].project != project
    ensures var ids := IdMap(arts, mint);
      var now := rows + ImportedRows(arts[..i], ids, project);
      && arts[i].id in ids
      && (ids[arts[i].id] in now <==> !IdsDistinct(arts[..i + 1]))
      && !Collides(now, ids[arts[i].id], RowOf(arts[i], ids, project))
      && now[ids[arts[i].id] := RowOf(arts[i], ids, project)] == rows + ImportedRows(arts[..i + 1], ids, project)
  {
    hide IdMap, ImportedRows, Collides, RowOf, Imports, NamesDistinct, IdsDistinct;
    var ids := IdMap(arts, mint);
    IdMapExactly(arts, mint);
    IdMapInjective(arts, mint, rows);
    ImportedExactly(arts[..i], ids, project);
    ImportedSnoc(arts, ids, project, i);
    RepeatedIffImported(arts, ids, i);
    assert forall k :: 0 <= k < i ==> arts[..i][k] == arts[k];
    assert Imports(arts[..i], ids, ids[arts[i].id]) <==> ids[arts[i].id] in ImportedRows(arts[..i], ids, project) by {
      ImportedHas(arts[..i], ids, project, ids[arts[i].id]);
    }
    NameIsFree(arts, ids, project, rows, i);
  }

  lemma ImportedHas(arts: seq<BundleArtifact>, ids: map<Id, Id>, project: Id, id: Id)
    requires forall a :: a in arts && a.id in ids ==> ids[a.id] in ImportedRows(arts, ids, project)
    ensures Imports(arts, ids, id) ==> id in ImportedRows(arts, ids, project)
  {
  }

  lemma RepeatedIffImported(arts: seq<BundleArtifact>, ids: map<Id, Id>, i: nat)
    requires i < |arts| && IdsDistinct(arts[..i]) && forall k :: 0 <= k < |arts| ==> arts[k].id in ids
    requires forall a, b :: a in ids && b in ids && ids[a] == ids[b] ==> a == b
    ensures Imports(arts[..i], ids, ids[arts[i].id]) <==> !IdsDistinct(arts[..i + 1])
  {
    var more := arts[..i + 1];
    assert forall k :: 0 <= k < i ==> arts[..i][k] == more[k];
    if Imports(arts[..i], ids, ids[arts[i].id]) {
      var k :| 0 <= k < i && ids[arts[..i][k].id] == ids[arts[i].id];
      assert more[k].id == more[i].id;
    }
  }

  lemma SlotsImported(arts: seq<BundleArtifact>, ids: map<Id, Id>, project: Id)
    requires IdsDistinct(arts) && (forall k :: 0 <= k < |arts| ==> arts[k].id in ids)
    requires forall a, b :: a in ids && b in ids && ids[a] == ids[b] ==> a == b
    ensures forall id :: id in ImportedRows(arts, ids, project) ==>
      exists a :: a in arts && SlotOf(ImportedRows(arts, ids, project)[id]) == Slot(a.kind, a.name)
  {
    hide ImportedRows, Rewrite;
    ImportedExactly(arts, ids, project);
  }

  lemma NameIsFree(arts: seq<BundleArtifact>, ids: map<Id, Id>, project: Id, rows: Rows, i: nat)
    requires i < |arts| && NamesDistinct(arts) && forall id :: id in rows ==> rows[id].project != project
    requires IdsDistinct(arts[..i]) && (forall k :: 0 <= k < |arts| ==> arts[k].id in ids)
    requires forall a, b :: a in ids && b in ids && ids[a] == ids[b] ==> a == b
    ensures forall id :: !Collides(rows + ImportedRows(arts[..i], ids, project), id, RowOf(arts[i], ids, project))
  {
    hide Rewrite, ImportedRows;
    var imported := ImportedRows(arts[..i], ids, project);
    SlotsImported(arts[..i], ids, project);
    forall other ensures !Holds(rows + imported, project, Slot(arts[i].kind, arts[i].name), other) {
      if other in imported {
        var a :| a in arts[..i] && SlotOf(imported[other]) == Slot(a.kind, a.name);
        var k :| 0 <= k < i && arts[..i][k] == a;
        assert Slot(arts[k].kind, arts[k].name) != Slot(arts[i].kind, arts[i].name);
      }
    }
  }

  /** The inserts of a project import. `ok` is false where one raises IntegrityError:
      exactly when two landed artifacts share a bundle id, and so a row id. */
  method ImportArtifacts(db: ArtifactTable, project: Id, landable: seq<BundleArtifact>, mint: Mint) returns (ids: map<Id, Id>, ok: bool)
    requires db.Valid() && NamesDistinct(landable) && FreshIds(mint, db.rows)
    requires forall id :: id in db.rows ==> db.rows[id].project != project
    modifies db
    ensures db.Valid() && ids == IdMap(landable, mint)
    ensures ok <==> IdsDistinct(landable)
    ensures ok ==> db.rows == old(db.rows) + ImportedRows(landable, ids, project)
  {
    hide IdMap, ImportedRows, NamesDistinct, IdsDistinct, FreshIds, Unique;
    ids := MintIds(landable, mint);
    ok := InsertAll(db, project, landable, ids, mint);
  }

  /** One new id per bundle id; a repeated one keeps the last. */
  method MintIds(landable: seq<BundleArtifact>, mint: Mint) returns (ids: map<Id, Id>)
    ensures ids == IdMap(landable, mint)
  {
    ids := map[];
    for i := 0 to |landable|
      invariant ids == IdMap(landable[..i], mint)
    {
      assert landable[..i + 1][..i] == landable[..i];
      ids := ids[landable[i].id := mint(i)];
    }
    assert landable[..|landable|] == landable;
  }

  method InsertAll(db: ArtifactTable, project: Id, landable: seq<BundleArtifact>, ids: map<Id, Id>, mint: Mint) returns (ok: bool)
    requires db.Valid() && NamesDistinct(landable) && FreshIds(mint, db.rows) && ids == IdMap(landable, mint)
    requires forall id :: id in db.rows ==> db.rows[id].project != project
    modifies db
    ensures db.Valid()
    ensures ok <==> IdsDistinct(landable)
    ensures ok ==> db.rows == old(db.rows) + ImportedRows(landable, ids, project)
  {
    hide Rewrite, Collides, Unique, IdMap, ImportedRows, NamesDistinct, IdsDistinct, FreshIds;
    NothingImported(db.rows, ids, project);
    assert landable[..0] == [];
    for i := 0 to |landable|
      invariant db.rows == old(db.rows) + ImportedRows(landable[..i], ids, project) && db.Valid()
      invariant IdsDistinct(landable[..i])
    {
      NextRowFits(landable, mint, project, old(db.rows), i);
      var a := landable[i];
      ok := db.CreateArtifact(project, a.kind, a.name, Rewrite(a.payload, ids), ids[a.id]);
      if !ok {
        RepeatStays(landable, i + 1);
        return;
      }
    }
    assert landable[..|landable|] == landable;
    ok := true;
  }

  lemma NothingImported(rows: Rows, ids: map<Id, Id>, project: Id)
    ensures rows + ImportedRows([], ids, project) == rows && IdsDistinct([])
  {
  }

  lemma RepeatStays(arts: seq<BundleArtifact>, n: nat)
    requires n <= |arts| && !IdsDistinct(arts[..n])
    ensures !IdsDistinct(arts)
  {
    var i, j :| 0 <= i < j < n && arts[..n][i].id == arts[..n][j].id;
    assert arts[i].id == arts[j].id;
  }

  /** The artifact half of a project import. A bundle whose ids are distinct always goes
      in; one that lands whole and repeats an id never does. */
  method ImportBundle(reg: Registry, known: set<string>, db: ArtifactTable, project: Id, arts: seq<BundleArtifact>, trusted: bool, mint: Mint)
    returns (skipped: seq<(Id, SkipReason)>, ok: bool)
    requires db.Valid() && FreshIds(mint, db.rows) && forall id :: id in db.rows ==> db.rows[id].project != project
    modifies db
    ensures db.Valid()
    ensures IdsDistinct(arts) ==> ok
    ensures NamesDistinct(arts) && AllLand(reg, known, arts, trusted) ==> (ok <==> IdsDistinct(arts))
    ensures NamesDistinct(arts) && AllLand(reg, known, arts, trusted) && ok ==>
      var landed := LandedArts(reg, arts, trusted); db.rows == old(db.rows) + ImportedRows(landed, IdMap(landed, mint), project)
  {
    hide SkipFor, LandedPayload, ImportedRows, IdMap;
    var landable;
    landable, skipped := LandableArtifacts(reg, known, arts, trusted);
    LandedIds(reg, arts, trusted);
    var ids;
    ids, ok := ImportArtifacts(db, project, landable, mint);
  }

  lemma LandedIds(reg: Registry, arts: seq<BundleArtifact>, trusted: bool)
    ensures IdsDistinct(LandedArts(reg, arts, trusted)) <==> IdsDistinct(arts)
  {
    var landed := LandedArts(reg, arts, trusted);
    assert forall i :: 0 <= i < |arts| ==> landed[i].id == arts[i].id;
  }

  /** The smallest bundle that does not go in: one id under two names. Both land, and
      both inserts go for the one row id. */
  lemma RepeatedIdDoesNotGoIn(reg: Registry, known: set<string>, id: Id, kind: string, a: string, z: string, p: Json, q: Json, mint: Mint)
    requires kind in known && kind in reg.kinds && reg.valid(kind, p) && reg.valid(kind, q) && a != "" && z != "" && a != z
    ensures var arts := [BundleArtifact(id, kind, a, p), BundleArtifact(id, kind, z, q)];
      && NamesDistinct(arts) && AllLand(reg, known, arts, false) && !IdsDistinct(arts)
      && IdMap(LandedArts(reg, arts, false), mint) == map[id := mint(1)]
  {
    var arts := [BundleArtifact(id, kind, a, p), BundleArtifact(id, kind, z, q)];
    assert arts[0].id == arts[1].id;
    var landed := LandedArts(reg, arts, false);
    assert IdMap(landed[..1][..0], mint) == map[];
    assert IdMap(landed[..1], mint) == map[id := mint(0)];
    assert landed[1].id == id;
  }

  /** Importing a closed bundle with no dangling reference, its stored payloads keeping
      their references, gives the same graph under new ids: one new row per old row, of
      the same kind and name, and a new row refers to exactly the new rows of what its
      original referred to. A trusted bundle is stored verbatim and always qualifies. */
  lemma ImportIsIsomorphic(reg: Registry, rows: Rows, project: Id, roots: seq<Id>, found: seq<Id>, trusted: bool, mint: Mint, target: Id)
    requires var reached := ReachSet(References(rows, project), SetOf(roots));
      Distinct(found) && SetOf(found) == Present(rows, project, reached) && Missing(rows, project, reached) == {}
    requires FreshIds(mint, rows) && forall i :: 0 <= i < |found| ==> found[i] in rows
    requires trusted || forall i :: 0 <= i < |found| ==>
      Refs(reg.derive(rows[found[i]].kind, rows[found[i]].payload)) == Refs(rows[found[i]].payload)
    ensures var landed := LandedArts(reg, BundleOf(rows, found), trusted);
      var ids := IdMap(landed, mint);
      var made := ImportedRows(landed, ids, target);
      && ids.Keys == SetOf(found) && (forall a, b :: a in ids && b in ids && ids[a] == ids[b] ==> a == b)
      && (forall a :: a in ids ==> ids[a] in made && made[ids[a]].kind == rows[a].kind && made[ids[a]].name == rows[a].name)
      && (forall id :: id in made ==> exists a :: a in ids && ids[a] == id)
      && (forall a :: a in ids ==> Refs(made[ids[a]].payload) == set b | b in Refs(rows[a].payload) && b in ids :: ids[b])
      && (forall a :: a in ids ==> Refs(rows[a].payload) <= ids.Keys)
      && (forall a :: a in ids ==> made[ids[a]].project == target && Repointed(reg, rows[a], trusted, ids, made[ids[a]].payload))
  {
    hide Refs, Rewrite, ReachSet, References, LandedArts, BundleOf, IdMap, ImportedRows, Present, Missing;
    var landed := LandedArts(reg, BundleOf(rows, found), trusted);
    var ids := IdMap(landed, mint);
    var made := ImportedRows(landed, ids, target);
    BundleRows(reg, rows, found, trusted, mint, target);
    forall a | a in ids
      ensures ids[a] in made && made[ids[a]].kind == rows[a].kind && made[ids[a]].name == rows[a].name
      ensures Refs(rows[a].payload) <= ids.Keys
      ensures Refs(made[ids[a]].payload) == set b | b in Refs(rows[a].payload) && b in ids :: ids[b]
      ensures made[ids[a]].project == target && Repointed(reg, rows[a], trusted, ids, made[ids[a]].payload)
    {
      RefsStayInside(rows, project, SetOf(roots), found, a);
      var stored := StoredPayload(reg, rows[a], trusted);
      RefsOfRewritten(stored, ids);
      forall path ensures Swapped(At(stored, path), At(Rewrite(stored, ids), path), if RefPosition(stored, path) then ids else map[]) {
        RewriteAt(stored, ids, path);
      }
      assert Refs(stored) == Refs(rows[a].payload) by {
        var i :| 0 <= i < |found| && found[i] == a;
      }
      ImageIsMapped(ids, Refs(rows[a].payload));
    }
  }

  /** The payload as bundled, derived unless trusted, with nothing changed but the ids at
      its reference positions. */
  ghost predicate Repointed(reg: Registry, r: Row, trusted: bool, ids: map<Id, Id>, got: Json) {
    var p := if trusted then r.payload else reg.derive(r.kind, r.payload);
    forall path :: Swapped(At(p, path), At(got, path), if RefPosition(p, path) then ids else map[])
  }

  function StoredPayload(reg: Registry, r: Row, trusted: bool): Json {
    if trusted then r.payload else reg.derive(r.kind, r.payload)
  }

  function StoredRow(reg: Registry, r: Row, trusted: bool, ids: map<Id, Id>, target: Id): Row {
    Row(target, r.kind, r.name, Rewrite(StoredPayload(reg, r, trusted), ids), 1)
  }

  /** The rows an imported export makes, one per exported row. */
  lemma BundleRows(reg: Registry, rows: Rows, found: seq<Id>, trusted: bool, mint: Mint, target: Id)
    requires Distinct(found) && FreshIds(mint, rows) && forall i :: 0 <= i < |found| ==> found[i] in rows
    ensures var landed := LandedArts(reg, BundleOf(rows, found), trusted);
      var ids := IdMap(landed, mint);
      var made := ImportedRows(landed, ids, target);
      && ids.Keys == SetOf(found) && (forall a, b :: a in ids && b in ids && ids[a] == ids[b] ==> a == b)
      && (forall a :: a in ids ==> a in rows && ids[a] in made && made[ids[a]] == StoredRow(reg, rows[a], trusted, ids, target))
      && (forall id :: id in made ==> exists a :: a in ids && ids[a] == id)
  {
    hide IdMap, ImportedRows, RowOf, StoredRow, LandedArts, BundleOf, Imports;
    var landed := LandedArts(reg, BundleOf(rows, found), trusted);
    var ids := IdMap(landed, mint);
    LandedExactly(reg, rows, found, trusted, ids, target);
    IdMapExactly(landed, mint);
    IdMapInjective(landed, mint, rows);
    ImportedExactly(landed, ids, target);
    forall a | a in ids
      ensures a in rows && ids[a] in ImportedRows(landed, ids, target)
      ensures ImportedRows(landed, ids, target)[ids[a]] == StoredRow(reg, rows[a], trusted, ids, target)
    {
      var k: nat :| k < |landed| && landed[k].id == a && ids[a] == mint(k);
      assert landed[k] in landed;
    }
    forall id | id in ImportedRows(landed, ids, target) ensures exists a :: a in ids && ids[a] == id {
      ImportedId(landed, ids, id);
    }
  }

  lemma ImportedId(arts: seq<BundleArtifact>, ids: map<Id, Id>, id: Id)
    requires Imports(arts, ids, id)
    ensures exists a :: a in ids && ids[a] == id
  {
  }

  lemma LandedExactly(reg: Registry, rows: Rows, found: seq<Id>, trusted: bool, ids: map<Id, Id>, target: Id)
    requires Distinct(found) && forall i :: 0 <= i < |found| ==> found[i] in rows
    ensures var landed := LandedArts(reg, BundleOf(rows, found), trusted);
      && |landed| == |found| && IdsDistinct(landed)
      && forall i :: 0 <= i < |found| ==>
           landed[i].id == found[i] && RowOf(landed[i], ids, target) == StoredRow(reg, rows[found[i]], trusted, ids, target)
  {
    hide Rewrite;
  }

  lemma ImageIsMapped(ids: map<Id, Id>, refs: set<Id>)
    requires refs <= ids.Keys
    ensures Image(ids, refs) == set b | b in refs && b in ids :: ids[b]
  {
  }

  lemma RefsStayInside(rows: Rows, project: Id, roots: set<Id>, found: seq<Id>, a: Id)
    requires var reached := ReachSet(References(rows, project), roots);
      SetOf(found) == Present(rows, project, reached) && Missing(rows, project, reached) == {}
    requires a in SetOf(found)
    ensures a in rows && Refs(rows[a].payload) <= SetOf(found)
  {
    hide ReachSet, References, Refs;
    RowDeps(rows, project, a);
    ReachedStays(References(rows, project), roots, a);
    var reached := ReachSet(References(rows, project), roots);
    assert forall id :: id in reached && !InProject(rows, project, id) ==> id in Missing(rows, project, reached);
  }
}
