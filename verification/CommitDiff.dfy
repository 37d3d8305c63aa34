/** What an artifact commit did, read off the journal alone (api/commit_diff.py). */
module CommitDiff {
  import opened Collections
  import opened Json
  import opened Model
  import opened ArtifactStore
  import opened ArtifactUndo

  datatype State = State(name: string, payload: Json)

  /** Id -> its state, None for "did not exist". */
  type States = map<Id, Option<State>>

  function StateOf(rows: Rows, id: Id): Option<State> {
    if id in rows then Some(State(rows[id].name, rows[id].payload)) else None
  }

  /** Each inverse op says what its artifact was; a later one overwrites. */
  function StepBack(before: States, op: ArtifactOp): States {
    match op
    case CreateArtifact(id, _, name, payload) => before[id := Some(State(name, payload))]
    case UpdateArtifact(id, name, payload, _) => before[id := Some(State(name.GetOr(""), payload.GetOr(Obj([]))))]
    case DeleteArtifact(id) => before[id := None]
  }

  function Before(inverse: seq<ArtifactOp>): States {
    if inverse == [] then map[] else StepBack(Before(inverse[..|inverse| - 1]), inverse[|inverse| - 1])
  }

  function StepForward(after: States, op: ArtifactOp): States {
    match op
    case CreateArtifact(id, _, name, payload) => after[id := Some(State(name, payload))]
    case UpdateArtifact(id, name, payload, _) =>
      var prev := GetOr(after, id, None).GetOr(State("", Obj([])));
      after[id := Some(State(name.GetOr(prev.name), payload.GetOr(prev.payload)))]
    case DeleteArtifact(id) => after[id := None]
  }

  function After(before: States, forward: seq<ArtifactOp>): States {
    if forward == [] then before else StepForward(After(before, forward[..|forward| - 1]), forward[|forward| - 1])
  }

  method ArtifactStates(forward: seq<ArtifactOp>, inverse: seq<ArtifactOp>) returns (before: States, after: States)
    ensures before == Before(inverse) && after == After(Before(inverse), forward)
  {
    before := map[];
    for i := 0 to |inverse|
      invariant before == Before(inverse[..i])
    {
      assert inverse[..i + 1][..i] == inverse[..i];
      match inverse[i] {
        case CreateArtifact(id, _, name, payload) => before := before[id := Some(State(name, payload))];
        case UpdateArtifact(id, name, payload, _) => before := before[id := Some(State(name.GetOr(""), payload.GetOr(Obj([]))))];
        case DeleteArtifact(id) => before := before[id := None];
      }
    }
    assert inverse[..|inverse|] == inverse;
    after := before;
    for i := 0 to |forward|
      invariant after == After(before, forward[..i])
    {
      assert forward[..i + 1][..i] == forward[..i];
      match forward[i] {
        case CreateArtifact(id, _, name, payload) => after := after[id := Some(State(name, payload))];
        case UpdateArtifact(id, name, payload, _) =>
          var prev := State("", Obj([]));
          if id in after && after[id].Some? {
            prev := after[id].value;
          }
          after := after[id := Some(State(name.GetOr(prev.name), payload.GetOr(prev.payload)))];
        case DeleteArtifact(id) => after := after[id := None];
      }
    }
    assert forward[..|forward|] == forward;
  }

  // ---- they are the true states ---------------------------------------------------------

  lemma {:induction false} BeforeConcat(a: seq<ArtifactOp>, b: seq<ArtifactOp>)
    ensures Before(a + b) == Before(a) + Before(b)
  {
    if b == [] {
      assert a + b == a;
    } else {
      assert (a + b)[..|a + b| - 1] == a + b[..|b| - 1];
      BeforeConcat(a, b[..|b| - 1]);
    }
  }

  lemma {:induction false} AfterConcat(m: States, a: seq<ArtifactOp>, b: seq<ArtifactOp>)
    ensures After(m, a + b) == After(After(m, a), b)
  {
    if b == [] {
      assert a + b == a;
    } else {
      assert (a + b)[..|a + b| - 1] == a + b[..|b| - 1];
      AfterConcat(m, a, b[..|b| - 1]);
    }
  }

  /** One op's journal entries: its inverse states the row before, its canonical op
      the row after, and no other row moved. */
  lemma OpStates(reg: Registry, mint: Mint, project: Id, b: ArtifactBatch, op: ArtifactOp, restore: bool)
    requires ApplyOp(reg, mint, project, b, op, restore).Accepted?
    ensures var o := ApplyOp(reg, mint, project, b, op, restore).batch;
      && |o.canonical| == |b.canonical| + 1 && o.canonical[..|b.canonical|] == b.canonical
      && |o.units| == |b.units| + 1 && o.units[..|b.units|] == b.units
      && (var k, id := o.canonical[|b.canonical|], TouchedBy(o.canonical[|b.canonical|]);
          && Before(o.units[|b.units|]) == map[id := StateOf(b.rows, id)]
          && (forall other :: other != id ==> StateOf(o.rows, other) == StateOf(b.rows, other))
          && (forall m: States :: id in m && m[id] == StateOf(b.rows, id) ==> StepForward(m, k) == m[id := StateOf(o.rows, id)]))
  {
    hide IsReserved, Collides, Owner, Unique, CheckPayload;
    var o := ApplyOp(reg, mint, project, b, op, restore).batch;
    var unit := o.units[|b.units|];
    assert |unit| == 1 && unit[..0] == [];
    assert Before(unit) == StepBack(map[], unit[0]);
  }

  /** The true states of some ids. */
  ghost function Truth(rows: Rows, ids: set<Id>): States {
    map id | id in ids :: StateOf(rows, id)
  }

  lemma TruthStepBack(before: Rows, mid: Rows, id: Id, later: set<Id>)
    requires forall other :: other != id ==> StateOf(mid, other) == StateOf(before, other)
    ensures Truth(mid, later) + map[id := StateOf(before, id)] == Truth(before, {id} + later)
  {
  }

  lemma TruthStepForward(before: Rows, mid: Rows, id: Id, later: set<Id>)
    requires forall other :: other != id ==> StateOf(mid, other) == StateOf(before, other)
    ensures Truth(before, {id} + later)[id := StateOf(mid, id)] == Truth(mid, {id} + later)
  {
  }

  lemma {:induction false} BatchStates(reg: Registry, mint: Mint, project: Id, b: ArtifactBatch, ops: seq<ArtifactOp>, restore: bool)
    returns (canonical: seq<ArtifactOp>, units: seq<seq<ArtifactOp>>)
    requires ApplyAll(reg, mint, project, b, ops, restore).Accepted?
    ensures var o := ApplyAll(reg, mint, project, b, ops, restore).batch;
      && o.canonical == b.canonical + canonical && o.units == b.units + units
      && Before(Unwind(units)) == Truth(b.rows, Touched(canonical))
      && (forall ids: set<Id> :: Touched(canonical) <= ids ==> After(Truth(b.rows, ids), canonical) == Truth(o.rows, ids))
      && (forall id :: id !in Touched(canonical) ==> StateOf(o.rows, id) == StateOf(b.rows, id))
    decreases |ops|
  {
    hide ApplyOp, StateOf, StepForward, TouchedBy, Truth, Before, After, Touched;
    if ops == [] {
      canonical, units := [], [];
      NothingTouched(b.rows);
    } else {
      var first := ApplyOp(reg, mint, project, b, ops[0], restore).batch;
      OpStates(reg, mint, project, b, ops[0], restore);
      var rest, later := BatchStates(reg, mint, project, first, ops[1..], restore);
      var k, unit := first.canonical[|b.canonical|], first.units[|b.units|];
      canonical, units := [k] + rest, [unit] + later;
      assert units[1..] == later && first.canonical == b.canonical + [k] && first.units == b.units + [unit];
      TouchedCons(k, rest);
      BeforeConcat(Unwind(later), unit);
      TruthStepBack(b.rows, first.rows, TouchedBy(k), Touched(rest));
      var o := ApplyAll(reg, mint, project, b, ops, restore).batch;
      forall ids: set<Id> | Touched(canonical) <= ids ensures After(Truth(b.rows, ids), canonical) == Truth(o.rows, ids) {
        AfterFirst(b.rows, first.rows, k, rest, ids);
      }
    }
  }

  lemma NothingTouched(rows: Rows)
    ensures Touched([]) == {} && Before([]) == Truth(rows, {}) && forall ids :: After(Truth(rows, ids), []) == Truth(rows, ids)
  {
  }

  lemma AfterFirst(before: Rows, mid: Rows, k: ArtifactOp, rest: seq<ArtifactOp>, ids: set<Id>)
    requires forall other :: other != TouchedBy(k) ==> StateOf(mid, other) == StateOf(before, other)
    requires forall m: States :: TouchedBy(k) in m && m[TouchedBy(k)] == StateOf(before, TouchedBy(k)) ==>
      StepForward(m, k) == m[TouchedBy(k) := StateOf(mid, TouchedBy(k))]
    requires TouchedBy(k) in ids
    ensures After(Truth(before, ids), [k] + rest) == After(Truth(mid, ids), rest)
  {
    hide StepForward, StateOf, TouchedBy;
    AfterConcat(Truth(before, ids), [k], rest);
    AfterSingle(Truth(before, ids), k);
    TruthStepForward(before, mid, TouchedBy(k), ids);
    assert {TouchedBy(k)} + ids == ids;
  }

  lemma TouchedCons(k: ArtifactOp, rest: seq<ArtifactOp>)
    ensures Touched([k] + rest) == {TouchedBy(k)} + Touched(rest)
  {
    assert forall x :: x in [k] + rest <==> x == k || x in rest;
  }

  lemma AfterSingle(m: States, k: ArtifactOp)
    ensures After(m, [k]) == StepForward(m, k)
  {
    assert [k][..0] == [];
  }

  /** The journal alone gives, for exactly the artifacts an accepted batch touched, their
      true states before and after, however often each was touched. */
  lemma JournalTellsTheTruth(reg: Registry, mint: Mint, project: Id, rows: Rows, ids: map<Id, Id>, ops: seq<ArtifactOp>, restore: bool)
    requires ApplyAll(reg, mint, project, StartBatch(rows, ids), ops, restore).Accepted?
    ensures var o := ApplyAll(reg, mint, project, StartBatch(rows, ids), ops, restore).batch;
      var touched := Touched(o.canonical);
      && Before(InverseOps(o)) == Truth(rows, touched)
      && After(Before(InverseOps(o)), o.canonical) == Truth(o.rows, touched)
      && (forall id :: id !in touched ==> StateOf(o.rows, id) == StateOf(rows, id))
  {
    hide ApplyAll, StateOf;
    var canonical, units := BatchStates(reg, mint, project, StartBatch(rows, ids), ops, restore);
    var o := ApplyAll(reg, mint, project, StartBatch(rows, ids), ops, restore).batch;
    assert o.canonical == canonical && o.units == units;
  }

  // ---- the diff of a commit ---------------------------------------------------------------

  datatype Entry = Entry(id: Id, before: Option<State>, after: Option<State>)

  datatype ArtifactDiffs = ArtifactDiffs(added: seq<Entry>, deleted: seq<Entry>, modified: seq<Entry>)

  /** The list holds each id of the set once, with its states on both sides. */
  ghost predicate Reports(list: seq<Entry>, ids: set<Id>, before: Rows, after: Rows) {
    && (forall i, j :: 0 <= i < j < |list| ==> list[i].id != list[j].id)
    && (forall i :: 0 <= i < |list| ==>
         list[i].id in ids && list[i].before == StateOf(before, list[i].id) && list[i].after == StateOf(after, list[i].id))
    && (forall id :: id in ids ==> exists i :: 0 <= i < |list| && list[i].id == id)
  }

  function Appeared(before: Rows, after: Rows): set<Id> {
    after.Keys - before.Keys
  }

  function Changed(before: Rows, after: Rows): set<Id> {
    set id | id in before && id in after && StateOf(before, id) != StateOf(after, id)
  }

  lemma ReportsOneMore(list: seq<Entry>, ids: set<Id>, before: Rows, after: Rows, id: Id)
    requires Reports(list, ids, before, after) && id !in ids
    ensures Reports(list + [Entry(id, StateOf(before, id), StateOf(after, id))], ids + {id}, before, after)
  {
    hide StateOf;
    var more := list + [Entry(id, StateOf(before, id), StateOf(after, id))];
    forall x | x in ids + {id} ensures exists i :: 0 <= i < |more| && more[i].id == x {
      if x == id {
        assert more[|list|].id == id;
      } else {
        var i :| 0 <= i < |list| && list[i].id == x;
        assert more[i].id == x;
      }
    }
  }

  lemma NothingReported(before: Rows, after: Rows)
    ensures Reports([], {}, before, after)
  {
  }

  /** From the true states of the ids that may have moved, the diff of the two tables. */
  method DiffStates(before: States, after: States, ghost was: Rows, ghost now: Rows) returns (d: ArtifactDiffs)
    requires before.Keys == after.Keys && before == Truth(was, before.Keys) && after == Truth(now, before.Keys)
    requires forall id :: id !in before ==> StateOf(now, id) == StateOf(was, id)
    ensures Reports(d.added, Appeared(was, now), was, now)
    ensures Reports(d.deleted, Appeared(now, was), was, now)
    ensures Reports(d.modified, Changed(was, now), was, now)
  {
    hide Reports, StateOf, Appeared, Changed;
    d := ArtifactDiffs([], [], []);
    var todo := before.Keys;
    NothingReported(was, now);
    assert Appeared(was, now) * {} == {} && Appeared(now, was) * {} == {} && Changed(was, now) * {} == {} && before.Keys - todo == {};
    while todo != {}
      invariant todo <= before.Keys
      invariant Reports(d.added, Appeared(was, now) * (before.Keys - todo), was, now)
      invariant Reports(d.deleted, Appeared(now, was) * (before.Keys - todo), was, now)
      invariant Reports(d.modified, Changed(was, now) * (before.Keys - todo), was, now)
    {
      var id :| id in todo;
      ghost var seen := before.Keys - todo;
      todo := todo - {id};
      assert before.Keys - todo == seen + {id};
      var b, a := before[id], after[id];
      assert b == StateOf(was, id) && a == StateOf(now, id);
      Membership(was, now, id);
      SplitOneMore(Appeared(was, now), seen, id);
      SplitOneMore(Appeared(now, was), seen, id);
      SplitOneMore(Changed(was, now), seen, id);
      if b.None? && a.None? {
        continue;
      }
      if b.None? {
        ReportsOneMore(d.added, Appeared(was, now) * seen, was, now, id);
        d := d.(added := d.added + [Entry(id, b, a)]);
      } else if a.None? {
        ReportsOneMore(d.deleted, Appeared(now, was) * seen, was, now, id);
        d := d.(deleted := d.deleted + [Entry(id, b, a)]);
      } else if b != a {
        ReportsOneMore(d.modified, Changed(was, now) * seen, was, now, id);
        d := d.(modified := d.modified + [Entry(id, b, a)]);
      }
    }
    Untouched(before.Keys, was, now);
    assert before.Keys - todo == before.Keys;
  }

  lemma Membership(was: Rows, now: Rows, id: Id)
    ensures var b, a := StateOf(was, id), StateOf(now, id);
      && (id in Appeared(was, now) <==> b.None? && a.Some?) && (id in Appeared(now, was) <==> b.Some? && a.None?)
      && (id in Changed(was, now) <==> b.Some? && a.Some? && b != a)
  {
  }

  lemma SplitOneMore(s: set<Id>, seen: set<Id>, id: Id)
    ensures id in s ==> s * (seen + {id}) == s * seen + {id}
    ensures id !in s ==> s * (seen + {id}) == s * seen
  {
  }

  lemma Untouched(touched: set<Id>, was: Rows, now: Rows)
    requires forall id :: id !in touched ==> StateOf(now, id) == StateOf(was, id)
    ensures Appeared(was, now) * touched == Appeared(was, now) && Appeared(now, was) * touched == Appeared(now, was)
    ensures Changed(was, now) * touched == Changed(was, now)
  {
    forall id | id !in touched ensures (id in was <==> id in now) && id !in Changed(was, now) {
      assert StateOf(now, id) == StateOf(was, id);
    }
  }

  /** The artifact half of a commit's diff: computed from its journal entry alone, it is
      the diff of the tables before and after the batch. */
  method DiffCommit(reg: Registry, mint: Mint, project: Id, forward: seq<ArtifactOp>, inverse: seq<ArtifactOp>, ghost rows: Rows,
      ghost ids: map<Id, Id>, ghost ops: seq<ArtifactOp>, ghost restore: bool) returns (d: ArtifactDiffs)
    requires ApplyAll(reg, mint, project, StartBatch(rows, ids), ops, restore).Accepted?
    requires var o := ApplyAll(reg, mint, project, StartBatch(rows, ids), ops, restore).batch;
      forward == o.canonical && inverse == InverseOps(o)
    ensures var now := ApplyAll(reg, mint, project, StartBatch(rows, ids), ops, restore).batch.rows;
      && Reports(d.added, Appeared(rows, now), rows, now) && Reports(d.deleted, Appeared(now, rows), rows, now)
      && Reports(d.modified, Changed(rows, now), rows, now)
  {
    hide ApplyAll, Reports, Before, After, StateOf;
    JournalTellsTheTruth(reg, mint, project, rows, ids, ops, restore);
    var before, after := ArtifactStates(forward, inverse);
    d := DiffStates(before, after, rows, ApplyAll(reg, mint, project, StartBatch(rows, ids), ops, restore).batch.rows);
  }
}
