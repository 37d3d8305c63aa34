/** The chunked validation sweep racing commits (api/validation_sweep.py,
    core/validation/state.py, api/routes/commits.py). */
module ValidationSweep {
  import opened Collections
  import opened Model

  // ---- the issue store --------------------------------------------------------------------

  datatype Issue = Issue(owner: Id, code: string)

  type Store = map<Id, seq<Issue>>

  function OwnedBy(issues: seq<Issue>, id: Id): seq<Issue> {
    if issues == [] then [] else
    var last := issues[|issues| - 1];
    OwnedBy(issues[..|issues| - 1], id) + if last.owner == id then [last] else []
  }

  function IssuesOf(store: Store, id: Id): seq<Issue> {
    GetOr(store, id, [])
  }

  class ValidationState {
    var issuesByOwner: Store

    constructor ()
      ensures issuesByOwner == map[]
    {
      issuesByOwner := map[];
    }

    /** A full run replaces everything. */
    method SetFull(issues: seq<Issue>)
      modifies this
      ensures forall id :: IssuesOf(issuesByOwner, id) == OwnedBy(issues, id)
    {
      issuesByOwner := map[];
      Insert(issues);
    }

    /** Drop what the dirty ids own, insert the scoped run's issues. */
    method Replace(dirty: seq<Id>, issues: seq<Issue>)
      modifies this
      ensures forall id :: IssuesOf(issuesByOwner, id) == (if id in dirty then [] else IssuesOf(old(issuesByOwner), id)) + OwnedBy(issues, id)
    {
      for i := 0 to |dirty|
        invariant forall id :: IssuesOf(issuesByOwner, id) == if id in dirty[..i] then [] else IssuesOf(old(issuesByOwner), id)
      {
        assert dirty[..i + 1] == dirty[..i] + [dirty[i]];
        issuesByOwner := issuesByOwner - {dirty[i]};
      }
      assert dirty[..|dirty|] == dirty;
      Insert(issues);
    }

    method Insert(issues: seq<Issue>)
      modifies this
      ensures forall id :: IssuesOf(issuesByOwner, id) == IssuesOf(old(issuesByOwner), id) + OwnedBy(issues, id)
    {
      for i := 0 to |issues|
        invariant forall id :: IssuesOf(issuesByOwner, id) == IssuesOf(old(issuesByOwner), id) + OwnedBy(issues[..i], id)
      {
        assert issues[..i + 1][..i] == issues[..i];
        var o := issues[i].owner;
        issuesByOwner := issuesByOwner[o := GetOr(issuesByOwner, o, []) + [issues[i]]];
      }
      assert issues[..|issues|] == issues;
    }
  }

  // ---- verdicts ------------------------------------------------------------------------------

  /** Compiled rule sets; each compilation is a new object, told apart by its tag. */
  datatype Rules = Rules(tag: nat, source: string)

  /** What validating one entity alone reports on it. */
  type Validator = (string, Model, Id) -> seq<Issue>

  predicate Exists(m: Model, id: Id) {
    id in m.elements || id in m.relationships
  }

  /** A scoped run skips entities that are gone. */
  ghost predicate SkipsMissing(v: Validator) {
    forall source, m, id :: !Exists(m, id) ==> v(source, m, id) == []
  }

  function Spliced(store: Store, ids: set<Id>, v: Validator, source: string, m: Model): Store {
    map id | id in store.Keys + ids :: if id in ids then v(source, m, id) else store[id]
  }

  // ---- the race ---------------------------------------------------------------------------------

  /** A commit in progress: what it will restore if it is refused, and every entity that
      has differed meanwhile. */
  datatype Txn = Txn(model: Model, rules: Rules, touched: set<Id>)

  datatype Phase =
    | Starting
    | HasElements(els: seq<Id>)
    | HasIds(all: seq<Id>)
    | HasRules(all: seq<Id>, compiled: Rules)
    | Running(all: seq<Id>, compiled: Rules, pipeline: Rules, pos: nat)
    | Completed
    | Aborted

  /** `during` says the sweep read something while the open commit was in progress;
      `tainted`, that such a commit was then rolled back. `spliced` are the ids whose
      issues were ever written, `missed` the settled ones that the sweep's id list
      lacked, and `misruled` those whose latest verdict came from other rules. */
  datatype World = World(
    model: Model,
    rules: Rules,
    nextTag: nat,
    store: Store,
    txn: Option<Txn>,
    phase: Phase,
    replaced: bool,
    during: bool,
    tainted: bool,
    spliced: set<Id>,
    missed: set<Id>,
    misruled: set<Id>)

  /** Commits hold the write mutex from `Begin` to `Accept` or `Refuse`; a chunk needs
      it; the sweep's reads before its first chunk do not take it. */
  datatype Act =
    | Begin
    | Apply(model: Model, swap: Option<string>)
    | Accept(dirty: set<Id>)
    | Refuse
    | ReadElements(els: seq<Id>)
    | ReadRelationships(rels: seq<Id>)
    | ReadRules
    | BuildPipeline
    | Chunk
    | Finish
    | Cancel
    | Install(model: Model, source: string)

  const CHUNK_SIZE: nat := 2000

  /** The state a refusal would return to, or else the current one. */
  function Settled(w: World): (Model, Rules) {
    if w.txn.Some? then (w.txn.value.model, w.txn.value.rules) else (w.model, w.rules)
  }

  function Differing(a: Model, b: Model): set<Id> {
    set id | id in a.elements.Keys + b.elements.Keys + a.relationships.Keys + b.relationships.Keys
          && (Lookup(a.elements, id) != Lookup(b.elements, id) || Lookup(a.relationships, id) != Lookup(b.relationships, id))
  }

  ghost predicate Enabled(v: Validator, w: World, a: Act) {
    match a
    case Begin => w.txn.None?
    case Apply(_, _) => w.txn.Some?
    case Accept(dirty) =>
      // the commit's dirty set covers what it touched and every changed verdict
      w.txn.Some? && w.txn.value.touched <= dirty
      && forall id :: id !in dirty ==>
           v(w.rules.source, w.model, id) == v(w.txn.value.rules.source, w.txn.value.model, id)
    case Refuse => w.txn.Some?
    case ReadElements(els) => w.phase.Starting? && SetOf(els) == w.model.elements.Keys
    case ReadRelationships(rels) => w.phase.HasElements? && SetOf(rels) == w.model.relationships.Keys
    case ReadRules => w.phase.HasIds?
    case BuildPipeline => w.phase.HasRules?
    case Chunk => w.txn.None? && w.phase.Running? && w.phase.pos < |w.phase.all|
    case Finish => w.phase.Running? && w.phase.pos >= |w.phase.all|
    case Cancel => true
    case Install(_, _) => w.txn.None?
  }

  function Noted(w: World, phase: Phase): World {
    w.(phase := phase, during := w.during || w.txn.Some?)
  }

  function NextPos(all: seq<Id>, pos: nat): nat {
    if pos + CHUNK_SIZE < |all| then pos + CHUNK_SIZE else |all|
  }

  /** The ids of a chunk on which the pipeline's rules and the session's disagree. */
  function Misruled(v: Validator, m: Model, rules: Rules, pipeline: Rules, ids: set<Id>): set<Id> {
    set id | id in ids && v(pipeline.source, m, id) != v(rules.source, m, id)
  }

  ghost function Next(v: Validator, w: World, a: Act): World
    requires Enabled(v, w, a)
  {
    match a
    case Begin => w.(txn := Some(Txn(w.model, w.rules, {})), during := false)
    case Apply(m, swap) =>
      var t := w.txn.value;
      w.(model := m,
         txn := Some(t.(touched := t.touched + Differing(t.model, m))),
         rules := if swap.Some? then Rules(w.nextTag, swap.value) else w.rules,
         nextTag := if swap.Some? then w.nextTag + 1 else w.nextTag)
    case Accept(dirty) =>
      w.(store := Spliced(w.store, dirty, v, w.rules.source, w.model), txn := None, during := false,
         spliced := w.spliced + dirty, misruled := w.misruled - dirty)
    case Refuse =>
      w.(model := w.txn.value.model, rules := w.txn.value.rules, txn := None, during := false, tainted := w.tainted || w.during)
    case ReadElements(els) =>
      Noted(w, HasElements(els)).(missed := w.missed + (Settled(w).0.elements.Keys - SetOf(els)))
    case ReadRelationships(rels) =>
      Noted(w, HasIds(w.phase.els + rels)).(missed := w.missed + (Settled(w).0.relationships.Keys - SetOf(rels)))
    case ReadRules => Noted(w, HasRules(w.phase.all, w.rules))
    case BuildPipeline => Noted(w, Running(w.phase.all, w.phase.compiled, w.rules, 0))
    case Chunk =>
      if w.replaced then w.(phase := Aborted) else
      var p := w.phase;
      var pipeline := if w.rules != p.compiled then w.rules else p.pipeline;
      var chunk := p.all[p.pos..NextPos(p.all, p.pos)];
      w.(store := Spliced(w.store, SetOf(chunk), v, pipeline.source, w.model),
         spliced := w.spliced + SetOf(chunk),
         misruled := (w.misruled - SetOf(chunk)) + Misruled(v, w.model, w.rules, pipeline, SetOf(chunk)),
         phase := Running(p.all, w.rules, pipeline, NextPos(p.all, p.pos)))
    case Finish => w.(phase := Completed)
    case Cancel => w.(phase := Aborted)
    case Install(m, source) =>
      w.(model := m, rules := Rules(w.nextTag, source), nextTag := w.nextTag + 1, store := map[], replaced := true)
  }

  ghost predicate Right(v: Validator, w: World, id: Id) {
    IssuesOf(w.store, id) == v(Settled(w).1.source, Settled(w).0, id)
  }

  /** The ids the sweep will still validate; relationships are not read yet at first. */
  ghost predicate Ahead(phase: Phase, m: Model, id: Id) {
    match phase
    case Starting => Exists(m, id)
    case HasElements(els) => id in els || id in m.relationships
    case HasIds(all) => id in all
    case HasRules(all, _) => id in all
    case Running(all, _, _, pos) => pos <= |all| && id in all[pos..]
    case Completed => false
    case Aborted => true
  }

  /** Touched by the commit the sweep is reading through, which will splice them. */
  ghost predicate Owed(w: World, id: Id) {
    w.txn.Some? && w.during && id in w.txn.value.touched
  }

  ghost predicate SweepInv(v: Validator, w: World) {
    && (forall id :: Right(v, w, id) || (IssuesOf(w.store, id) == [] && (Ahead(w.phase, Settled(w).0, id) || Owed(w, id))))
    && (w.phase.Running? ==> w.phase.compiled != w.rules || w.phase.pipeline == w.phase.compiled)
    && (w.phase.Running? && w.txn.Some? && !w.during ==> w.phase.compiled != w.txn.value.rules || w.phase.pipeline == w.phase.compiled)
    && (w.phase.HasRules? ==> w.phase.compiled.tag < w.nextTag)
    && (w.phase.Running? ==> w.phase.compiled.tag < w.nextTag && w.phase.pipeline.tag < w.nextTag)
  }

  /** The invariant of everything that is not the sweep's own progress. */
  ghost predicate Inv(v: Validator, w: World) {
    && w.rules.tag < w.nextTag
    && (w.txn.Some? ==> w.txn.value.rules.tag < w.nextTag && Differing(w.txn.value.model, w.model) <= w.txn.value.touched)
    && (w.txn.None? ==> !w.during)
    && (!w.replaced && !w.tainted && !w.phase.Aborted? ==> SweepInv(v, w))
  }

  lemma UntouchedSame(w: World, id: Id)
    requires w.txn.Some? && Differing(w.txn.value.model, w.model) <= w.txn.value.touched && id !in w.txn.value.touched
    ensures Lookup(w.model.elements, id) == Lookup(w.txn.value.model.elements, id)
    ensures Lookup(w.model.relationships, id) == Lookup(w.txn.value.model.relationships, id)
    ensures Exists(w.model, id) == Exists(w.txn.value.model, id)
  {
    assert id !in Differing(w.txn.value.model, w.model);
  }

  lemma AcceptStep(v: Validator, w: World, dirty: set<Id>)
    requires Inv(v, w) && Enabled(v, w, Accept(dirty)) && !w.replaced && !w.tainted && !w.phase.Aborted?
    ensures SweepInv(v, Next(v, w, Accept(dirty)))
  {
    hide Differing;
    var w' := Next(v, w, Accept(dirty));
    forall id ensures Right(v, w', id) || (IssuesOf(w'.store, id) == [] && Ahead(w'.phase, Settled(w').0, id)) {
      if id !in dirty {
        UntouchedSame(w, id);
        assert Right(v, w, id) || (IssuesOf(w.store, id) == [] && Ahead(w.phase, Settled(w).0, id));
      }
    }
  }

  lemma ReadStep(v: Validator, w: World, a: Act)
    requires SkipsMissing(v) && Inv(v, w) && Enabled(v, w, a) && !w.replaced && !w.tainted && !w.phase.Aborted?
    requires a.ReadElements? || a.ReadRelationships? || a.ReadRules? || a.BuildPipeline?
    ensures SweepInv(v, Next(v, w, a))
  {
    hide Differing, Right;
    var w' := Next(v, w, a);
    forall id ensures Right(v, w', id) || (IssuesOf(w'.store, id) == [] && (Ahead(w'.phase, Settled(w').0, id) || Owed(w', id))) {
      assert Right(v, w, id) || (IssuesOf(w.store, id) == [] && (Ahead(w.phase, Settled(w).0, id) || Owed(w, id)));
      SameRight(v, w, w', id);
      if w.txn.Some? && id !in w.txn.value.touched {
        UntouchedSame(w, id);
      }
      if a.ReadElements? {
        assert id in w.model.elements ==> id in SetOf(a.els);
      } else if a.ReadRelationships? {
        assert id in w.model.relationships ==> id in SetOf(a.rels);
      } else if a.BuildPipeline? {
        assert w.phase.all[0..] == w.phase.all;
      }
    }
  }

  lemma SameRight(v: Validator, w: World, w': World, id: Id)
    requires w'.store == w.store && Settled(w') == Settled(w)
    ensures Right(v, w', id) == Right(v, w, id)
  {
  }

  lemma ChunkStep(v: Validator, w: World)
    requires Inv(v, w) && Enabled(v, w, Chunk) && !w.replaced && !w.tainted && !w.phase.Aborted?
    ensures SweepInv(v, Next(v, w, Chunk))
  {
    hide Differing;
    var p, w' := w.phase, Next(v, w, Chunk);
    var next := NextPos(p.all, p.pos);
    forall id ensures Right(v, w', id) || (IssuesOf(w'.store, id) == [] && Ahead(w'.phase, Settled(w').0, id)) {
      if id !in SetOf(p.all[p.pos..next]) {
        assert Right(v, w, id) || (IssuesOf(w.store, id) == [] && Ahead(w.phase, Settled(w).0, id));
        if p.pos <= |p.all| {
          assert p.all[p.pos..] == p.all[p.pos..next] + p.all[next..];
        }
      }
    }
  }

  lemma QuietStep(v: Validator, w: World, a: Act)
    requires Inv(v, w) && Enabled(v, w, a) && !w.replaced && !w.tainted && !w.phase.Aborted?
    requires a.Begin? || a.Apply? || a.Finish? || (a.Refuse? && !w.during)
    ensures SweepInv(v, Next(v, w, a))
  {
    hide Differing, Right;
    var w' := Next(v, w, a);
    forall id ensures Right(v, w', id) || (IssuesOf(w'.store, id) == [] && (Ahead(w'.phase, Settled(w').0, id) || Owed(w', id))) {
      assert Right(v, w, id) || (IssuesOf(w.store, id) == [] && (Ahead(w.phase, Settled(w).0, id) || Owed(w, id)));
      SameRight(v, w, w', id);
    }
  }

  lemma StepKeepsInv(v: Validator, w: World, a: Act)
    requires SkipsMissing(v) && Inv(v, w) && Enabled(v, w, a)
    ensures Inv(v, Next(v, w, a))
  {
    var w' := Next(v, w, a);
    ApplyCovers(v, w, a);
    if !w'.replaced && !w'.tainted && !w'.phase.Aborted? {
      hide SweepInv, Differing;
      if a.Accept? {
        AcceptStep(v, w, a.dirty);
      } else if a.Chunk? {
        ChunkStep(v, w);
      } else if a.ReadElements? || a.ReadRelationships? || a.ReadRules? || a.BuildPipeline? {
        ReadStep(v, w, a);
      } else {
        QuietStep(v, w, a);
      }
    }
  }

  lemma ApplyCovers(v: Validator, w: World, a: Act)
    requires Inv(v, w) && Enabled(v, w, a)
    ensures var w' := Next(v, w, a);
      w'.txn.Some? ==> Differing(w'.txn.value.model, w'.model) <= w'.txn.value.touched && w'.txn.value.rules.tag < w'.nextTag
  {
    hide SweepInv;
    if a.Begin? {
      assert Differing(w.model, w.model) == {};
    }
  }

  /** A run from a freshly loaded model, its store empty and its sweep about to start. */
  ghost predicate Trace(v: Validator, model: Model, source: string, states: seq<World>, acts: seq<Act>) {
    && |states| == |acts| + 1
    && states[0] == World(model, Rules(0, source), 1, map[], None, Starting, false, false, false, {}, {}, {})
    && forall n :: 0 <= n < |acts| ==> Enabled(v, states[n], acts[n]) && states[n + 1] == Next(v, states[n], acts[n])
  }

  lemma {:induction false} TraceInv(v: Validator, model: Model, source: string, states: seq<World>, acts: seq<Act>, n: nat)
    requires SkipsMissing(v) && Trace(v, model, source, states, acts) && n < |states|
    ensures Inv(v, states[n])
  {
    hide Inv, Next, Enabled;
    if n == 0 {
      StartInv(v, states[0]);
    } else {
      TraceInv(v, model, source, states, acts, n - 1);
      assert Enabled(v, states[n - 1], acts[n - 1]);
      StepKeepsInv(v, states[n - 1], acts[n - 1]);
    }
  }

  lemma StartInv(v: Validator, w: World)
    requires SkipsMissing(v) && w.store == map[] && w.txn.None? && w.phase.Starting? && w.rules.tag < w.nextTag && !w.during
    ensures Inv(v, w)
  {
  }

  /** A sweep that completes, its model not replaced, and that read nothing through a
      commit later refused, leaves every entity's stored issues equal to a fresh
      validation under the current rules, whatever the order of chunks, edits, deletes
      and rule swaps; and so it stays after every later commit. */
  lemma CompletedSweepIsFull(v: Validator, model: Model, source: string, states: seq<World>, acts: seq<Act>, n: nat)
    requires SkipsMissing(v) && Trace(v, model, source, states, acts) && n < |states|
    requires var w := states[n]; w.phase.Completed? && !w.replaced && !w.tainted && w.txn.None?
    ensures var w := states[n]; forall id :: IssuesOf(w.store, id) == v(w.rules.source, w.model, id)
  {
    hide Enabled, Next;
    TraceInv(v, model, source, states, acts, n);
    assert forall id :: Right(v, states[n], id);
  }

  // ---- exactly when a completed sweep is full ------------------------------------------------

  /** Unwritten ids own no issues, and are clean, still to come or missed; written ones
      have the right issues unless the wrong rules judged them. */
  ghost predicate Exact(v: Validator, w: World) {
    && (forall id :: id !in w.spliced ==> id !in w.misruled && IssuesOf(w.store, id) == [])
    && (forall id :: id in w.spliced ==> (Right(v, w, id) <==> id !in w.misruled))
    && (forall id :: id !in w.spliced ==>
         v(Settled(w).1.source, Settled(w).0, id) == [] || Ahead(w.phase, Settled(w).0, id) || id in w.missed)
  }

  ghost predicate ExactUnlessGone(v: Validator, w: World) {
    && (w.txn.Some? ==> Differing(w.txn.value.model, w.model) <= w.txn.value.touched)
    && (!w.replaced && !w.phase.Aborted? ==> Exact(v, w))
  }

  lemma AcceptExact(v: Validator, w: World, dirty: set<Id>)
    requires ExactUnlessGone(v, w) && Enabled(v, w, Accept(dirty)) && !w.replaced && !w.phase.Aborted?
    ensures Exact(v, Next(v, w, Accept(dirty)))
  {
    hide Differing;
    var w' := Next(v, w, Accept(dirty));
    forall id | id !in dirty
      ensures Right(v, w', id) == Right(v, w, id) && IssuesOf(w'.store, id) == IssuesOf(w.store, id)
      ensures Ahead(w'.phase, Settled(w').0, id) == Ahead(w.phase, Settled(w).0, id)
    {
      UntouchedSame(w, id);
    }
  }

  lemma ReadExact(v: Validator, w: World, a: Act)
    requires ExactUnlessGone(v, w) && Enabled(v, w, a) && !w.replaced && !w.phase.Aborted?
    requires a.ReadElements? || a.ReadRelationships? || a.ReadRules? || a.BuildPipeline?
    ensures Exact(v, Next(v, w, a))
  {
    hide Differing, Right;
    var w' := Next(v, w, a);
    forall id ensures Right(v, w', id) == Right(v, w, id) {
      SameRight(v, w, w', id);
    }
    forall id | Ahead(w.phase, Settled(w).0, id) ensures Ahead(w'.phase, Settled(w').0, id) || id in w'.missed {
      if a.BuildPipeline? {
        assert w.phase.all[0..] == w.phase.all;
      }
    }
  }

  /** What a chunk does to one id. */
  lemma ChunkEffect(v: Validator, w: World, id: Id)
    requires Enabled(v, w, Chunk) && !w.replaced
    ensures var p, w' := w.phase, Next(v, w, Chunk); var chunk := SetOf(p.all[p.pos..NextPos(p.all, p.pos)]);
      && w'.phase.Running? && w'.phase.all == p.all && w'.phase.pos == NextPos(p.all, p.pos) && w'.missed == w.missed
      && (id in w'.spliced <==> id in w.spliced || id in chunk)
      && (id in chunk ==> (Right(v, w', id) <==> id !in w'.misruled))
      && (id !in chunk ==> IssuesOf(w'.store, id) == IssuesOf(w.store, id) && (id in w'.misruled <==> id in w.misruled))
      && (id !in chunk ==> (Right(v, w', id) <==> Right(v, w, id)))
  {
    hide NextPos;
  }

  lemma ChunkExact(v: Validator, w: World)
    requires ExactUnlessGone(v, w) && Enabled(v, w, Chunk) && !w.replaced && !w.phase.Aborted?
    ensures Exact(v, Next(v, w, Chunk))
  {
    hide Differing, Next, Right;
    var p, w' := w.phase, Next(v, w, Chunk);
    forall id
      ensures id !in w'.spliced ==> id !in w'.misruled && IssuesOf(w'.store, id) == []
      ensures id in w'.spliced ==> (Right(v, w', id) <==> id !in w'.misruled)
      ensures id !in w'.spliced ==>
        v(Settled(w').1.source, Settled(w').0, id) == [] || Ahead(w'.phase, Settled(w').0, id) || id in w'.missed
    {
      ChunkEffect(v, w, id);
      ChunkSettles(v, w);
      assert p.all[p.pos..] == p.all[p.pos..NextPos(p.all, p.pos)] + p.all[NextPos(p.all, p.pos)..];
    }
  }

  lemma ChunkSettles(v: Validator, w: World)
    requires Enabled(v, w, Chunk)
    ensures Settled(Next(v, w, Chunk)) == Settled(w)
  {
  }

  lemma QuietExact(v: Validator, w: World, a: Act)
    requires ExactUnlessGone(v, w) && Enabled(v, w, a) && !w.replaced && !w.phase.Aborted?
    requires a.Begin? || a.Apply? || a.Finish? || a.Refuse?
    ensures Exact(v, Next(v, w, a))
  {
    hide Differing, Right;
    var w' := Next(v, w, a);
    forall id ensures Right(v, w', id) == Right(v, w, id) {
      SameRight(v, w, w', id);
    }
  }

  lemma StepExact(v: Validator, w: World, a: Act)
    requires ExactUnlessGone(v, w) && Enabled(v, w, a)
    ensures ExactUnlessGone(v, Next(v, w, a))
  {
    var w' := Next(v, w, a);
    if a.Begin? {
      assert Differing(w.model, w.model) == {};
    }
    if !w'.replaced && !w'.phase.Aborted? {
      hide Exact, Differing;
      if a.Accept? {
        AcceptExact(v, w, a.dirty);
      } else if a.Chunk? {
        ChunkExact(v, w);
      } else if a.ReadElements? || a.ReadRelationships? || a.ReadRules? || a.BuildPipeline? {
        ReadExact(v, w, a);
      } else {
        QuietExact(v, w, a);
      }
    }
  }

  lemma {:induction false} TraceExact(v: Validator, model: Model, source: string, states: seq<World>, acts: seq<Act>, n: nat)
    requires SkipsMissing(v) && Trace(v, model, source, states, acts) && n < |states|
    ensures ExactUnlessGone(v, states[n])
  {
    hide ExactUnlessGone, Next, Enabled;
    if n == 0 {
      StartExact(v, states[0]);
    } else {
      TraceExact(v, model, source, states, acts, n - 1);
      assert Enabled(v, states[n - 1], acts[n - 1]);
      StepExact(v, states[n - 1], acts[n - 1]);
    }
  }

  lemma StartExact(v: Validator, w: World)
    requires SkipsMissing(v) && w.store == map[] && w.txn.None? && w.phase.Starting? && w.spliced == {} && w.misruled == {}
    ensures ExactUnlessGone(v, w)
  {
  }

  // ---- the same, read off the run ---------------------------------------------------------------

  /** The sweep reads a list of ids without this one, which the session holds and will go
      on holding if the commit in progress is refused. */
  ghost predicate Misses(w: World, a: Act, id: Id) {
    || (a.ReadElements? && id in Settled(w).0.elements && id !in a.els)
    || (a.ReadRelationships? && id in Settled(w).0.relationships && id !in a.rels)
  }

  ghost predicate InChunk(w: World, id: Id) {
    w.phase.Running? && w.phase.pos <= |w.phase.all| && id in w.phase.all[w.phase.pos..NextPos(w.phase.all, w.phase.pos)]
  }

  /** A commit or a chunk writes the id's issues. */
  ghost predicate Writes(w: World, a: Act, id: Id) {
    (a.Accept? && id in a.dirty) || (a.Chunk? && !w.replaced && InChunk(w, id))
  }

  /** A chunk whose pipeline was built under other rules than the session's, though the
      rules it compares with are the session's, judges the id differently. */
  ghost predicate Misjudges(v: Validator, w: World, a: Act, id: Id) {
    a.Chunk? && !w.replaced && InChunk(w, id) && w.phase.compiled == w.rules
    && v(w.phase.pipeline.source, w.model, id) != v(w.rules.source, w.model, id)
  }

  ghost predicate MissedBy(states: seq<World>, acts: seq<Act>, n: nat, id: Id)
    requires n <= |acts| && |states| == |acts| + 1
  {
    exists k: nat :: k < n && Misses(states[k], acts[k], id)
  }

  ghost predicate WrittenSince(states: seq<World>, acts: seq<Act>, from: nat, n: nat, id: Id)
    requires n <= |acts| && |states| == |acts| + 1
  {
    exists k: nat :: from <= k < n && Writes(states[k], acts[k], id)
  }

  ghost predicate LastMisjudged(v: Validator, states: seq<World>, acts: seq<Act>, n: nat, id: Id)
    requires n <= |acts| && |states| == |acts| + 1
  {
    exists k: nat :: k < n && Misjudges(v, states[k], acts[k], id) && !WrittenSince(states, acts, k + 1, n, id)
  }

  /** What one step adds to the record of an id. */
  lemma StepRecords(v: Validator, w: World, a: Act, id: Id)
    requires Enabled(v, w, a)
    ensures var w' := Next(v, w, a);
      && (id in w'.missed <==> id in w.missed || Misses(w, a, id))
      && (id in w'.spliced <==> id in w.spliced || Writes(w, a, id))
      && (id in w'.misruled <==> Misjudges(v, w, a, id) || (id in w.misruled && !Writes(w, a, id)))
  {
    hide Differing;
  }

  lemma {:induction false} TraceRecords(v: Validator, model: Model, source: string, states: seq<World>, acts: seq<Act>, n: nat, id: Id)
    requires Trace(v, model, source, states, acts) && n <= |acts|
    ensures id in states[n].missed <==> MissedBy(states, acts, n, id)
    ensures id in states[n].spliced <==> WrittenSince(states, acts, 0, n, id)
    ensures id in states[n].misruled <==> LastMisjudged(v, states, acts, n, id)
  {
    hide Next, Enabled, Misses, Writes, Misjudges;
    if n > 0 {
      TraceRecords(v, model, source, states, acts, n - 1, id);
      assert Enabled(v, states[n - 1], acts[n - 1]) && states[n] == Next(v, states[n - 1], acts[n - 1]);
      StepRecords(v, states[n - 1], acts[n - 1], id);
      MisjudgedNext(v, states, acts, n, id);
    }
  }

  lemma MisjudgedNext(v: Validator, states: seq<World>, acts: seq<Act>, n: nat, id: Id)
    requires 0 < n <= |acts| && |states| == |acts| + 1
    ensures LastMisjudged(v, states, acts, n, id) <==>
      || Misjudges(v, states[n - 1], acts[n - 1], id)
      || (LastMisjudged(v, states, acts, n - 1, id) && !Writes(states[n - 1], acts[n - 1], id))
  {
    hide Writes, Misjudges;
    if k: nat :| k < n - 1 && Misjudges(v, states[k], acts[k], id) && !WrittenSince(states, acts, k + 1, n - 1, id) {
      assert Writes(states[n - 1], acts[n - 1], id) || !WrittenSince(states, acts, k + 1, n, id);
    }
    if k: nat :| k < n && Misjudges(v, states[k], acts[k], id) && !WrittenSince(states, acts, k + 1, n, id) {
      if k < n - 1 {
        assert !WrittenSince(states, acts, k + 1, n - 1, id);
        assert !Writes(states[n - 1], acts[n - 1], id);
      }
    }
    if Misjudges(v, states[n - 1], acts[n - 1], id) {
      assert !WrittenSince(states, acts, n, n, id);
    }
  }

  /** Exactness: a completed, unreplaced sweep has left every entity's stored issues equal
      to a fresh validation if and only if each id that a list it read lacked is clean or
      was written by a commit or a chunk, and each id that a pipeline built under other
      rules misjudged was written again since. */
  lemma SweepFullIff(v: Validator, model: Model, source: string, states: seq<World>, acts: seq<Act>, n: nat)
    requires SkipsMissing(v) && Trace(v, model, source, states, acts) && n <= |acts|
    requires var w := states[n]; w.phase.Completed? && !w.replaced && w.txn.None?
    ensures var w := states[n];
      (forall id :: IssuesOf(w.store, id) == v(w.rules.source, w.model, id)) <==>
      && (forall id :: MissedBy(states, acts, n, id) && v(w.rules.source, w.model, id) != [] ==> WrittenSince(states, acts, 0, n, id))
      && (forall id :: !LastMisjudged(v, states, acts, n, id))
  {
    hide Enabled, Next, Differing, MissedBy, WrittenSince, LastMisjudged;
    TraceExact(v, model, source, states, acts, n);
    var w := states[n];
    assert Exact(v, w);
    forall id
      ensures id in w.missed <==> MissedBy(states, acts, n, id)
      ensures id in w.spliced <==> WrittenSince(states, acts, 0, n, id)
      ensures id in w.misruled <==> LastMisjudged(v, states, acts, n, id)
    {
      TraceRecords(v, model, source, states, acts, n, id);
    }
    if forall id :: IssuesOf(w.store, id) == v(w.rules.source, w.model, id) {
      forall id ensures id !in w.misruled && Right(v, w, id) {
        assert Right(v, w, id);
      }
    }
  }

  /** The sweep's first reads take no lock: one that reads the element ids while a commit
      that will be refused has an element deleted never validates that element. */
  lemma RefusedDeleteIsMissed(v: Validator, id: Id, e: Element, source: string) returns (states: seq<World>, acts: seq<Act>)
    requires v(source, Model(map[id := e], map[]), id) != []
    ensures Trace(v, Model(map[id := e], map[]), source, states, acts)
    ensures var w := states[|acts|];
      w.phase.Completed? && !w.replaced && w.txn.None? && w.model == Model(map[id := e], map[])
      && IssuesOf(w.store, id) != v(w.rules.source, w.model, id)
  {
    var s1, a1 := RefusedStart(v, id, e, source);
    var w4 := s1[4];
    var w5 := Next(v, w4, ReadRelationships([]));
    var w6 := Next(v, w5, ReadRules);
    var w7 := Next(v, w6, BuildPipeline);
    var w8 := Next(v, w7, Finish);
    states, acts := s1 + [w5, w6, w7, w8], a1 + [ReadRelationships([]), ReadRules, BuildPipeline, Finish];
  }

  lemma RefusedStart(v: Validator, id: Id, e: Element, source: string) returns (states: seq<World>, acts: seq<Act>)
    ensures Trace(v, Model(map[id := e], map[]), source, states, acts) && |acts| == 4
    ensures states[4] == World(Model(map[id := e], map[]), Rules(0, source), 1, map[], None, HasElements([]), false, false, true, {}, {id}, {})
  {
    var m := Model(map[id := e], map[]);
    var w0 := World(m, Rules(0, source), 1, map[], None, Starting, false, false, false, {}, {}, {});
    var w1 := Next(v, w0, Begin);
    var w2 := Next(v, w1, Apply(Model(map[], map[]), None));
    var w3 := Next(v, w2, ReadElements([]));
    var w4 := Next(v, w3, Refuse);
    states, acts := [w0, w1, w2, w3, w4], [Begin, Apply(Model(map[], map[]), None), ReadElements([]), Refuse];
  }

  /** The rules and the pipeline are read without the mutex too: a pipeline built while a
      commit that will be refused has the rules swapped goes on judging by them. */
  lemma RefusedRulesAreUsed(v: Validator, id: Id, e: Element, source: string, refused: string) returns (states: seq<World>, acts: seq<Act>)
    requires v(refused, Model(map[id := e], map[]), id) != v(source, Model(map[id := e], map[]), id)
    ensures Trace(v, Model(map[id := e], map[]), source, states, acts)
    ensures var w := states[|acts|];
      w.phase.Completed? && !w.replaced && w.txn.None? && w.model == Model(map[id := e], map[]) && w.rules == Rules(0, source)
      && IssuesOf(w.store, id) == v(refused, w.model, id)
  {
    var s, a := RefusedSwap(v, id, e, source, refused);
    var w7 := Next(v, s[7], Chunk);
    var w8 := Next(v, w7, Finish);
    states, acts := s + [w7, w8], a + [Chunk, Finish];
    assert [id][0..1] == [id];
  }

  lemma RefusedSwap(v: Validator, id: Id, e: Element, source: string, refused: string) returns (states: seq<World>, acts: seq<Act>)
    ensures Trace(v, Model(map[id := e], map[]), source, states, acts) && |acts| == 7
    ensures states[7] ==
      World(Model(map[id := e], map[]), Rules(0, source), 2, map[], None, Running([id], Rules(0, source), Rules(1, refused), 0), false, false, true, {}, {}, {})
  {
    var m := Model(map[id := e], map[]);
    var w0 := World(m, Rules(0, source), 1, map[], None, Starting, false, false, false, {}, {}, {});
    var w1 := Next(v, w0, ReadElements([id]));
    var w2 := Next(v, w1, ReadRelationships([]));
    var w3 := Next(v, w2, ReadRules);
    var w4 := Next(v, w3, Begin);
    var w5 := Next(v, w4, Apply(m, Some(refused)));
    var w6 := Next(v, w5, BuildPipeline);
    var w7 := Next(v, w6, Refuse);
    assert [id] + [] == [id];
    states := [w0, w1, w2, w3, w4, w5, w6, w7];
    acts := [ReadElements([id]), ReadRelationships([]), ReadRules, Begin, Apply(m, Some(refused)), BuildPipeline, Refuse];
  }

  // ---- the sweep gets there ---------------------------------------------------------------------

  function Stage(p: Phase): nat {
    match p
    case Starting => 0
    case HasElements(_) => 1
    case HasIds(_) => 2
    case HasRules(_, _) => 3
    case Running(_, _, _, _) => 4
    case Completed => 5
    case Aborted => 6
  }

  /** One stage on, or further through the same ids. A sweep completes only after the last. */
  predicate Nearer(p: Phase, q: Phase) {
    || (p.Running? && q.Running? && q.all == p.all && p.pos < q.pos <= |p.all|)
    || (Stage(q) == Stage(p) + 1 && Stage(q) <= 5 && (q.Running? ==> q.pos == 0) && (q.Completed? ==> p.pos >= |p.all|))
  }

  predicate Sweeps(a: Act) {
    a.ReadElements? || a.ReadRelationships? || a.ReadRules? || a.BuildPipeline? || a.Chunk? || a.Finish?
  }

  /** Each of the sweep's own steps brings it nearer to completion, unless the model was
      replaced, and nothing else but a cancel moves it. */
  lemma SweepMovesOn(v: Validator, w: World, a: Act)
    requires Enabled(v, w, a)
    ensures Sweeps(a) && !(w.replaced && a.Chunk?) ==> Nearer(w.phase, Next(v, w, a).phase)
    ensures (w.replaced && a.Chunk?) || a.Cancel? ==> Next(v, w, a).phase.Aborted?
    ensures !Sweeps(a) && !a.Cancel? ==> Next(v, w, a).phase == w.phase
  {
  }

  /** And while no commit is open, a sweep that has not ended has such a step to take. */
  lemma SweepCanMove(v: Validator, w: World) returns (a: Act)
    requires w.txn.None? && !w.phase.Completed? && !w.phase.Aborted?
    ensures Sweeps(a) && Enabled(v, w, a)
  {
    match w.phase
    case Starting => a := ReadElements(Enumerate(w.model.elements.Keys));
    case HasElements(_) => a := ReadRelationships(Enumerate(w.model.relationships.Keys));
    case HasIds(_) => a := ReadRules;
    case HasRules(_, _) => a := BuildPipeline;
    case Running(all, _, _, pos) => a := if pos < |all| then Chunk else Finish;
  }
}
