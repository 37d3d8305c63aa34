/** The chunked background build of the search index (api/search_index_build.py), racing
    edits, resets and model replacement. */
module SearchIndexBuild {
  import opened Collections
  import opened Json
  import opened Model
  import opened SearchIndex

  const CHUNK_SIZE: nat := 1000

  /** The synchronous mode: chunk by chunk, then ready. */
  method RunSync(index: IndexSet, ids: seq<Id>)
    requires index.Valid() && SetOf(ids) == index.elements.Keys
    modifies index
    ensures index.Valid() && index.ready && index.elements == old(index.elements)
    ensures index.trigramsOf == FullBuild(index.host, index.elements)
  {
    hide ElementTrigrams, WithChunk;
    var start := 0;
    ghost var first := index.trigramsOf;
    while start < |ids|
      invariant start <= |ids|
      invariant index.Valid() && index.elements == old(index.elements)
      invariant SetOf(ids[..start]) <= index.trigramsOf.Keys
    {
      var end := if start + CHUNK_SIZE < |ids| then start + CHUNK_SIZE else |ids|;
      ChunkExactly(index.host, index.elements, index.trigramsOf, ids[start..end]);
      assert ids[..end] == ids[..start] + ids[start..end];
      forall id | id in SetOf(ids[..end]) ensures id in SetOf(ids[..start]) || id in SetOf(ids[start..end]) {
      }
      index.IndexSearchChunk(ids[start..end]);
      start := end;
    }
    assert ids[..start] == ids;
    index.MarkSearchReady();
  }

  // ---- the races ------------------------------------------------------------------------------

  /** A model's index as the mutex holder sees it; its postings invert its entries. */
  datatype Index = Index(elements: map<Id, Element>, entries: Entries, ready: bool, gen: nat)

  /** A build thread: the ids and the generation it read together at its start, and how
      far it is. `live` is false once it has returned. */
  datatype Builder = Builder(model: nat, ids: seq<Id>, gen: nat, pos: nat, live: bool)

  /** Every model the session ever held, the current one, and the build threads. */
  datatype World = World(models: seq<Index>, current: nat, builders: map<nat, Builder>)

  /** Each act is one critical section under the write mutex, but for `Start`, which
      reads the id list and the generation without it. */
  datatype Act =
    | Create(id: Id, e: Element)
    | Delete(id: Id)
    | Change(id: Id, prop: string, v: Option<Json>)
    | Reset(loaded: map<Id, Element>)
    | Reindex
    | Install(loaded: map<Id, Element>)
    | SwitchBack(model: nat)
    | Start(builder: nat, ids: seq<Id>)
    | Chunk(builder: nat)
    | Finish(builder: nat)
    | Cancel(builder: nat)

  ghost predicate Enabled(w: World, a: Act)
    requires w.current < |w.models|
  {
    match a
    case Create(id, _) => id !in w.models[w.current].elements
    case Delete(id) => id in w.models[w.current].elements
    case Change(id, _, _) => id in w.models[w.current].elements
    case SwitchBack(m) => m < |w.models|
    case Start(b, ids) => b !in w.builders && SetOf(ids) == w.models[w.current].elements.Keys
    case Chunk(b) => b in w.builders && w.builders[b].live && w.builders[b].pos < |w.builders[b].ids| && w.builders[b].model < |w.models|
    case Finish(b) => b in w.builders && w.builders[b].live && w.builders[b].pos == |w.builders[b].ids| && w.builders[b].model < |w.models|
    case Cancel(b) => b in w.builders
    case _ => true
  }

  function Edit(w: World, i: Index): World
    requires w.current < |w.models|
  {
    w.(models := w.models[w.current := i])
  }

  /** The build goes on only on the model and the generation it started on. */
  predicate Continues(w: World, b: Builder)
    requires b.model < |w.models|
  {
    w.current == b.model && w.models[b.model].gen == b.gen
  }

  function NextPos(b: Builder): nat {
    if b.pos + CHUNK_SIZE < |b.ids| then b.pos + CHUNK_SIZE else |b.ids|
  }

  ghost function Next(h: Host, w: World, a: Act): World
    requires w.current < |w.models| && Enabled(w, a)
  {
    var i := w.models[w.current];
    match a
    case Create(id, e) => Edit(w, i.(elements := i.elements[id := e], entries := i.entries[id := ElementTrigrams(h, id, e)]))
    case Delete(id) => Edit(w, i.(elements := i.elements - {id}, entries := i.entries - {id}))
    case Change(id, prop, v) =>
      var e := i.elements[id].(props := SetProp(i.elements[id].props, prop, v));
      Edit(w, i.(elements := i.elements[id := e], entries := Reindexed(h, i.entries, i.ready, id, e)))
    case Reset(loaded) => Edit(w, Index(loaded, map[], false, i.gen + 1))
    case Reindex => w
    case Install(loaded) => World(w.models + [Index(loaded, map[], false, 1)], |w.models|, w.builders)
    case SwitchBack(m) => w.(current := m)
    case Start(b, ids) => w.(builders := w.builders[b := Builder(w.current, ids, i.gen, 0, !i.ready)])
    case Chunk(k) =>
      var b := w.builders[k];
      if !Continues(w, b) then w.(builders := w.builders[k := b.(live := false)]) else
      var chunk := b.ids[b.pos..NextPos(b)];
      Edit(w, i.(entries := WithChunk(h, i.elements, i.entries, chunk))).(builders := w.builders[k := b.(pos := NextPos(b))])
    case Finish(k) =>
      var b := w.builders[k];
      var ended := w.(builders := w.builders[k := b.(live := false)]);
      if Continues(w, b) then Edit(ended, i.(ready := true)) else ended
    case Cancel(k) => w.(builders := w.builders[k := w.builders[k].(live := false)])
  }

  /** Every element without an entry is still ahead of the build. */
  ghost predicate Covers(i: Index, b: Builder) {
    b.pos <= |b.ids| && (b.gen == i.gen ==> forall id :: id in i.elements && id !in i.entries ==> id in b.ids[b.pos..])
  }

  ghost predicate Good(h: Host, w: World) {
    && w.current < |w.models|
    && (forall m :: 0 <= m < |w.models| ==> Accurate(h, w.models[m].elements, w.models[m].entries, w.models[m].ready))
    && (forall k :: k in w.builders ==>
         w.builders[k].model < |w.models| && w.builders[k].gen <= w.models[w.builders[k].model].gen
         && Covers(w.models[w.builders[k].model], w.builders[k]))
  }

  lemma EditKeepsGood(h: Host, w: World, i: Index)
    requires Good(h, w) && Accurate(h, i.elements, i.entries, i.ready) && w.models[w.current].gen <= i.gen
    requires forall k :: k in w.builders && w.builders[k].model == w.current ==> Covers(i, w.builders[k])
    ensures Good(h, Edit(w, i))
  {
    hide Accurate, Covers;
  }

  lemma CoversAfter(was: Index, i: Index, b: Builder)
    requires Covers(was, b) && i.gen == was.gen
    requires forall id :: id in i.elements && id !in i.entries ==> id in was.elements && id !in was.entries
    ensures Covers(i, b)
  {
  }

  lemma FullEntries(h: Host, i: Index)
    requires Accurate(h, i.elements, i.entries, i.ready) && forall id :: id in i.elements ==> id in i.entries
    ensures Accurate(h, i.elements, i.entries, true)
  {
    hide ElementTrigrams;
  }

  lemma EditStep(h: Host, w: World, a: Act)
    requires Good(h, w) && Enabled(w, a) && (a.Create? || a.Delete? || a.Change? || a.Reset?)
    ensures Good(h, Next(h, w, a))
  {
    hide Accurate, Covers, ElementTrigrams;
    var was, i := w.models[w.current], Next(h, w, a).models[w.current];
    match a {
      case Create(id, e) => AccurateWith(h, was.elements, was.entries, was.ready, id, e);
      case Delete(id) => AccurateWithout(h, was.elements, was.entries, was.ready, id);
      case Change(id, prop, v) => AccurateWith(h, was.elements, was.entries, was.ready, id, i.elements[id]);
      case Reset(loaded) => NothingIndexed(h, loaded);
    }
    forall k | k in w.builders && w.builders[k].model == w.current ensures Covers(i, w.builders[k]) {
      if a.Reset? {
        OldGeneration(was, i, w.builders[k]);
      } else {
        CoversAfter(was, i, w.builders[k]);
      }
    }
    EditKeepsGood(h, w, i);
  }

  lemma NothingIndexed(h: Host, loaded: map<Id, Element>)
    ensures Accurate(h, loaded, map[], false)
  {
  }

  lemma OldGeneration(was: Index, i: Index, b: Builder)
    requires Covers(was, b) && b.gen <= was.gen < i.gen
    ensures Covers(i, b)
  {
  }

  lemma BuilderMoves(h: Host, w: World, k: nat, b: Builder)
    requires Good(h, w) && b.model < |w.models| && b.gen <= w.models[b.model].gen && Covers(w.models[b.model], b)
    ensures Good(h, w.(builders := w.builders[k := b]))
  {
    hide Accurate, Covers;
  }

  lemma ChunkStep(h: Host, w: World, k: nat)
    requires Good(h, w) && Enabled(w, Chunk(k)) && Continues(w, w.builders[k])
    ensures Good(h, Next(h, w, Chunk(k)))
  {
    hide ElementTrigrams, WithChunk, Good;
    GoodParts(h, w, k);
    var b, was, i := w.builders[k], w.models[w.current], Next(h, w, Chunk(k)).models[w.current];
    var chunk := b.ids[b.pos..NextPos(b)];
    ChunkExactly(h, was.elements, was.entries, chunk);
    assert Accurate(h, i.elements, i.entries, i.ready);
    ChunkCovers(w, was, i, b, chunk);
    hide Accurate, Covers;
    forall j | j in w.builders && w.builders[j].model == w.current ensures Covers(i, w.builders[j]) {
      GoodParts(h, w, j);
      CoversAfter(was, i, w.builders[j]);
    }
    GoodEdit(h, w, i);
    BuilderMoves(h, Edit(w, i), k, b.(pos := NextPos(b)));
  }

  lemma GoodParts(h: Host, w: World, k: nat)
    requires Good(h, w) && k in w.builders
    ensures w.current < |w.models| && w.builders[k].model < |w.models| && w.builders[k].gen <= w.models[w.builders[k].model].gen
    ensures Covers(w.models[w.builders[k].model], w.builders[k])
    ensures Accurate(h, w.models[w.current].elements, w.models[w.current].entries, w.models[w.current].ready)
  {
    hide Covers, Accurate;
  }

  lemma GoodEdit(h: Host, w: World, i: Index)
    requires Good(h, w) && w.current < |w.models| && Accurate(h, i.elements, i.entries, i.ready) && w.models[w.current].gen <= i.gen
    requires forall k :: k in w.builders && w.builders[k].model == w.current ==> Covers(i, w.builders[k])
    ensures Good(h, Edit(w, i))
  {
    hide Accurate, Covers;
  }

  /** The chunk just indexed leaves only later ids unindexed. */
  lemma ChunkCovers(w: World, was: Index, i: Index, b: Builder, chunk: seq<Id>)
    requires Covers(was, b) && b.pos <= |b.ids| && chunk == b.ids[b.pos..NextPos(b)] && i.elements == was.elements && i.gen == was.gen
    requires forall id :: id in i.entries <==> id in was.entries || (id in SetOf(chunk) && id in was.elements)
    ensures Covers(i, b.(pos := NextPos(b)))
  {
    assert b.ids[b.pos..] == chunk + b.ids[NextPos(b)..];
  }

  lemma FinishStep(h: Host, w: World, k: nat)
    requires Good(h, w) && Enabled(w, Finish(k)) && Continues(w, w.builders[k])
    ensures Good(h, Next(h, w, Finish(k)))
  {
    var b, i := w.builders[k], w.models[w.current];
    assert b.ids[b.pos..] == [];
    FullEntries(h, i);
    hide Accurate, Covers;
    BuilderMoves(h, w, k, b.(live := false));
    var ended := w.(builders := w.builders[k := b.(live := false)]);
    EditKeepsGood(h, ended, i.(ready := true));
  }

  lemma OtherStep(h: Host, w: World, a: Act)
    requires Good(h, w) && Enabled(w, a)
    requires a.Reindex? || a.Install? || a.SwitchBack? || a.Start? || a.Cancel? || ((a.Chunk? || a.Finish?) && !Continues(w, w.builders[a.builder]))
    ensures Good(h, Next(h, w, a))
  {
    match a
    case Install(loaded) =>
      hide Covers;
      NothingIndexed(h, loaded);
    case Start(k, ids) =>
      var i := w.models[w.current];
      var b := Builder(w.current, ids, i.gen, 0, !i.ready);
      assert forall id :: id in i.elements ==> id in SetOf(ids);
      assert ids[0..] == ids && Covers(i, b);
      BuilderMoves(h, w, k, b);
    case Cancel(k) => BuilderMoves(h, w, k, w.builders[k].(live := false));
    case Chunk(k) => BuilderMoves(h, w, k, w.builders[k].(live := false));
    case Finish(k) => BuilderMoves(h, w, k, w.builders[k].(live := false));
    case _ =>
  }

  lemma StepKeepsGood(h: Host, w: World, a: Act)
    requires Good(h, w) && Enabled(w, a)
    ensures Good(h, Next(h, w, a))
  {
    hide Accurate, Covers, Next;
    if a.Create? || a.Delete? || a.Change? || a.Reset? {
      EditStep(h, w, a);
    } else if a.Chunk? && Continues(w, w.builders[a.builder]) {
      ChunkStep(h, w, a.builder);
    } else if a.Finish? && Continues(w, w.builders[a.builder]) {
      FinishStep(h, w, a.builder);
    } else {
      OtherStep(h, w, a);
    }
  }

  /** States of a run from one freshly loaded model. */
  ghost predicate Trace(h: Host, loaded: map<Id, Element>, states: seq<World>, acts: seq<Act>) {
    && |states| == |acts| + 1 && states[0] == World([Index(loaded, map[], false, 1)], 0, map[])
    && forall n :: 0 <= n < |acts| ==>
         states[n].current < |states[n].models| && Enabled(states[n], acts[n]) && states[n + 1] == Next(h, states[n], acts[n])
  }

  /** However edits, resets, model swaps and any number of builds interleave, an index
      that says it is ready is the synchronous full build of its model at that moment:
      it is marked ready only then, and stays so until the next reset. */
  lemma {:induction false} ReadyMeansFull(h: Host, loaded: map<Id, Element>, states: seq<World>, acts: seq<Act>, n: nat)
    requires Trace(h, loaded, states, acts) && n < |states|
    ensures Good(h, states[n])
    ensures forall m :: 0 <= m < |states[n].models| && states[n].models[m].ready ==>
      states[n].models[m].entries == FullBuild(h, states[n].models[m].elements)
  {
    hide Next, Enabled, Covers;
    if n == 0 {
      NothingIndexed(h, loaded);
    } else {
      ReadyMeansFull(h, loaded, states, acts, n - 1);
      assert Enabled(states[n - 1], acts[n - 1]);
      StepKeepsGood(h, states[n - 1], acts[n - 1]);
    }
  }

  /** A build keeps the model, the generation and the ids of its start. */
  lemma {:induction false} BuilderRemembers(h: Host, loaded: map<Id, Element>, states: seq<World>, acts: seq<Act>, j: nat, n: nat)
    requires Trace(h, loaded, states, acts) && j < n <= |acts| && acts[j].Start?
    ensures var k := acts[j].builder;
      && k in states[n].builders
      && states[n].builders[k].model == states[j].current && states[n].builders[k].ids == acts[j].ids
      && states[j].current < |states[j].models| && states[n].builders[k].gen == states[j].models[states[j].current].gen
  {
    hide ElementTrigrams, WithChunk;
    assert states[n - 1].current < |states[n - 1].models| && Enabled(states[n - 1], acts[n - 1]);
    if j < n - 1 {
      BuilderRemembers(h, loaded, states, acts, j, n - 1);
    }
  }

  /** The other direction: a build that comes to its end, not cancelled, while the session
      holds the model it started on in the generation it started on leaves that index
      ready, and so complete; on any other model or generation it changes no index. */
  lemma FinishedBuildIsReady(h: Host, loaded: map<Id, Element>, states: seq<World>, acts: seq<Act>, j: nat, n: nat)
    requires Trace(h, loaded, states, acts) && j < n < |acts| && acts[j].Start? && acts[n] == Finish(acts[j].builder)
    ensures states[j].current < |states[j].models| && states[n].current < |states[n].models| && states[n + 1].current == states[n].current
    ensures var was, now := states[n].models[states[n].current], states[n + 1].models;
      if states[n].current == states[j].current && was.gen == states[j].models[states[j].current].gen then
        && now == states[n].models[states[n].current := was.(ready := true)]
        && was.entries == FullBuild(h, was.elements)
      else now == states[n].models
  {
    hide FullBuild, ElementTrigrams;
    BuilderRemembers(h, loaded, states, acts, j, n);
    assert Enabled(states[n], acts[n]) && Enabled(states[j], acts[j]);
    ReadyMeansFull(h, loaded, states, acts, n + 1);
    var m := states[n].current;
    if states[n + 1].models[m].ready {
      assert states[n + 1].models[m].entries == FullBuild(h, states[n + 1].models[m].elements);
    }
  }

  /** And nothing but the finish of such a build makes an index ready. */
  lemma OnlyFinishMakesReady(h: Host, loaded: map<Id, Element>, states: seq<World>, acts: seq<Act>, n: nat, m: nat)
    requires Trace(h, loaded, states, acts) && n < |acts| && m < |states[n].models| && !states[n].models[m].ready
    requires m < |states[n + 1].models| && states[n + 1].models[m].ready
    ensures acts[n].Finish? && m == states[n].current && states[n + 1].models[m].elements == states[n].models[m].elements
  {
    hide ElementTrigrams, WithChunk;
    assert states[n].current < |states[n].models| && Enabled(states[n], acts[n]);
  }

  /** At `l` the session holds the model and the generation it held at `j`. */
  predicate SameIndex(states: seq<World>, j: nat, l: nat)
    requires j < |states| && l < |states|
  {
    var m := states[j].current;
    states[l].current == m && m < |states[j].models| && m < |states[l].models| && states[l].models[m].gen == states[j].models[m].gen
  }

  /** A build started on an index that is not ready is never stuck: until it finishes or is
      cancelled it can take its next step, and each chunk on its model and generation
      brings it further. */
  lemma {:induction false} BuildGoesOn(h: Host, loaded: map<Id, Element>, states: seq<World>, acts: seq<Act>, j: nat, n: nat)
    requires Trace(h, loaded, states, acts) && j < n <= |acts| && acts[j].Start?
    requires states[j].current < |states[j].models| && !states[j].models[states[j].current].ready
    requires forall l :: j < l < n ==> acts[l] != Finish(acts[j].builder) && acts[l] != Cancel(acts[j].builder)
    requires forall l :: j < l < n && acts[l] == Chunk(acts[j].builder) ==> SameIndex(states, j, l)
    ensures var k := acts[j].builder;
      && k in states[n].builders && states[n].builders[k].live && states[n].builders[k].pos <= |states[n].builders[k].ids|
      && states[n].current < |states[n].models| && (Enabled(states[n], Chunk(k)) || Enabled(states[n], Finish(k)))
      && (j < n - 1 && acts[n - 1] == Chunk(k) ==>
           k in states[n - 1].builders && states[n - 1].builders[k].pos < states[n].builders[k].pos)
  {
    hide Next, Good;
    var k := acts[j].builder;
    BuilderRemembers(h, loaded, states, acts, j, n);
    InRange(h, loaded, states, acts, n);
    assert states[n - 1].current < |states[n - 1].models| && Enabled(states[n - 1], acts[n - 1]);
    if j < n - 1 {
      BuilderRemembers(h, loaded, states, acts, j, n - 1);
      BuildGoesOn(h, loaded, states, acts, j, n - 1);
      InRange(h, loaded, states, acts, n - 1);
      assert acts[n - 1] == Chunk(k) ==> SameIndex(states, j, n - 1);
      StepGoesOn(h, states[n - 1], acts[n - 1], k);
    } else {
      StartsLive(h, states[j], acts[j]);
    }
  }

  lemma StartsLive(h: Host, w: World, a: Act)
    requires w.current < |w.models| && a.Start? && Enabled(w, a) && !w.models[w.current].ready
    ensures var b := Next(h, w, a).builders[a.builder]; b.live && b.pos == 0
  {
  }

  lemma StepGoesOn(h: Host, w: World, a: Act, k: nat)
    requires w.current < |w.models| && Enabled(w, a) && a != Finish(k) && a != Cancel(k)
    requires k in w.builders && w.builders[k].live && w.builders[k].pos <= |w.builders[k].ids|
    requires w.builders[k].model < |w.models| && (a == Chunk(k) ==> Continues(w, w.builders[k]))
    ensures var now := Next(h, w, a).builders;
      && k in now && now[k].live && now[k].pos <= |now[k].ids| && (a == Chunk(k) ==> w.builders[k].pos < now[k].pos)
  {
    hide ElementTrigrams, WithChunk;
  }

  lemma {:induction false} InRange(h: Host, loaded: map<Id, Element>, states: seq<World>, acts: seq<Act>, n: nat)
    requires Trace(h, loaded, states, acts) && n <= |acts|
    ensures states[n].current < |states[n].models|
    ensures forall j :: 0 <= j <= n ==> |states[j].models| <= |states[n].models|
  {
    hide ElementTrigrams, WithChunk;
    if n > 0 {
      InRange(h, loaded, states, acts, n - 1);
      assert Enabled(states[n - 1], acts[n - 1]);
    }
  }
}
