/** The background script sweep (api/script_sweep.py): the work list, the workers
    draining one queue, and the order of the two locks around them. */
module ScriptSweep {
  import opened Collections

  // ---- the work list --------------------------------------------------------------------

  /** A snippet's code, its root elements, the digest of its resolved inputs. */
  datatype Item = Item(code: string, roots: seq<Id>, inputs: string)

  /** What one cell resolves to: nothing to call (arity mismatch, no roots, a failed
      input), or one call. */
  datatype Cell = Nothing | Call(item: Item)

  /** The calls of a prefix of the cells, row by row. */
  ghost function CallsOf(cells: seq<Cell>): set<Item> {
    set c | c in cells && c.Call? :: c.item
  }

  lemma CallsOfSnoc(cells: seq<Cell>, c: Cell)
    ensures CallsOf(cells + [c]) == CallsOf(cells) + if c.Call? then {c.item} else {}
  {
    assert forall x :: x in cells + [c] <==> x in cells || x == c;
  }

  /** Every cell is either one distinct call or already done. */
  method Enumerate(cells: seq<Cell>) returns (items: seq<Item>, done: nat)
    ensures Distinct(items) && SetOf(items) == CallsOf(cells)
    ensures done + |items| == |cells|
  {
    items, done := [], 0;
    for i := 0 to |cells|
      invariant Distinct(items) && SetOf(items) == CallsOf(cells[..i])
      invariant done + |items| == i
    {
      assert cells[..i + 1] == cells[..i] + [cells[i]];
      CallsOfSnoc(cells[..i], cells[i]);
      match cells[i] {
        case Nothing => done := done + 1;
        case Call(item) =>
          if item in items {
            done := done + 1;
          } else {
            assert SetOf(items + [item]) == SetOf(items) + {item};
            items := items + [item];
          }
      }
    }
    assert cells[..|cells|] == cells;
  }

  // ---- the drain ---------------------------------------------------------------------------

  datatype JobState = Running | Succeeded | Failed(message: string) | Cancelled

  datatype Outcome = Timeout | Unavailable | Settled

  /** Where a worker is. An item is the index of its place in the work list. `Ready`
      is the top of the loop; `Picked` has popped; `Cleared` saw the job running;
      `Aborting` and `Expired` saw the cancel flag or the spent budget; `Calling` has
      called the snippet and holds its outcome. */
  datatype Phase =
    | Ready
    | Picked(item: nat)
    | Cleared(item: nat)
    | Aborting(item: nat)
    | Expired(item: nat)
    | Calling(item: nat, outcome: Outcome)
    | Exited

  /** `next` is the head of the queue. `called` and `recalled` are the items called at
      least once and more than once; `finished`, those counted as done. */
  datatype World = World(
    items: nat,
    next: nat,
    workers: seq<Phase>,
    state: JobState,
    done: nat,
    timeouts: nat,
    unavailables: nat,
    called: set<nat>,
    recalled: set<nat>,
    finished: set<nat>)

  datatype Act =
    | Pop(worker: nat)
    | See(worker: nat)
    | Probe(worker: nat, aborted: bool, exhausted: bool)
    | CallSnippet(worker: nat, outcome: Outcome)
    | Count(worker: nat)
    | GiveUp(worker: nat)
    | Crash(worker: nat)
    | Join

  ghost predicate Enabled(w: World, a: Act) {
    match a
    case Pop(i) => i < |w.workers| && w.workers[i].Ready?
    case See(i) => i < |w.workers| && w.workers[i].Picked?
    case Probe(i, aborted, exhausted) => i < |w.workers| && w.workers[i].Cleared? && (aborted || exhausted)
    case CallSnippet(i, _) => i < |w.workers| && w.workers[i].Cleared?
    case Count(i) => i < |w.workers| && w.workers[i].Calling?
    case GiveUp(i) => i < |w.workers| && (w.workers[i].Aborting? || w.workers[i].Expired?)
    case Crash(i) => i < |w.workers| && !w.workers[i].Exited?
    case Join => forall i :: 0 <= i < |w.workers| ==> w.workers[i].Exited?
  }

  /** The first terminal state wins. */
  function End(w: World, s: JobState): World {
    if w.state.Running? then w.(state := s) else w
  }

  function Move(w: World, i: nat, p: Phase): World
    requires i < |w.workers|
  {
    w.(workers := w.workers[i := p])
  }

  ghost function CountOutcome(w: World, i: nat, threshold: nat): World
    requires i < |w.workers| && w.workers[i].Calling?
  {
    var item, outcome := w.workers[i].item, w.workers[i].outcome;
    var counted := match outcome
      case Timeout => w.(timeouts := w.timeouts + 1, unavailables := 0)
      case Unavailable => w.(unavailables := w.unavailables + 1, timeouts := 0)
      case Settled => w.(timeouts := 0, unavailables := 0);
    if outcome.Timeout? && counted.timeouts >= threshold then Move(End(counted, Failed("consecutive timeouts")), i, Exited)
    else if outcome.Unavailable? && counted.unavailables >= threshold then Move(End(counted, Failed("runner unavailable")), i, Exited)
    else Move(counted.(done := counted.done + 1, finished := counted.finished + {item}), i, Ready)
  }

  ghost function Next(w: World, a: Act, threshold: nat): World
    requires Enabled(w, a)
  {
    match a
    case Pop(i) => if w.next >= w.items then Move(w, i, Exited) else Move(w, i, Picked(w.next)).(next := w.next + 1)
    case See(i) => if w.state.Running? then Move(w, i, Cleared(w.workers[i].item)) else Move(w, i, Exited)
    case Probe(i, aborted, _) => Move(w, i, if aborted then Aborting(w.workers[i].item) else Expired(w.workers[i].item))
    case CallSnippet(i, outcome) =>
      var item := w.workers[i].item;
      Move(w, i, Calling(item, outcome)).(
        called := w.called + {item}, recalled := if item in w.called then w.recalled + {item} else w.recalled)
    case Count(i) => CountOutcome(w, i, threshold)
    case GiveUp(i) => Move(End(w, if w.workers[i].Aborting? then Cancelled else Failed("ceiling exceeded")), i, Exited)
    case Crash(i) => Move(End(w, Failed("internal sweep error")), i, Exited)
    case Join => End(w, Succeeded)
  }

  /** No step of the drain overwrites a terminal state. */
  lemma TerminalStateStays(w: World, a: Act, threshold: nat)
    requires Enabled(w, a)
    requires !w.state.Running?
    ensures Next(w, a, threshold).state == w.state
  {
  }

  // ---- what success means -------------------------------------------------------------------

  function ItemOf(p: Phase): Option<nat> {
    match p
    case Picked(i) => Some(i)
    case Cleared(i) => Some(i)
    case Aborting(i) => Some(i)
    case Expired(i) => Some(i)
    case Calling(i, _) => Some(i)
    case _ => None
  }

  /** An item in hand has left the queue, is not done, and was called if and only if its
      outcome is in hand. */
  ghost predicate InHand(w: World, p: Phase) {
    ItemOf(p).Some? ==>
      var item := ItemOf(p).value; item < w.next && item !in w.finished && (item in w.called <==> p.Calling?)
  }

  ghost predicate Apart(p: Phase, q: Phase) {
    ItemOf(p).Some? ==> ItemOf(p) != ItemOf(q)
  }

  ghost predicate Held(workers: seq<Phase>, item: nat) {
    exists i :: 0 <= i < |workers| && ItemOf(workers[i]) == Some(item)
  }

  ghost predicate Counted(w: World, cells: nat) {
    && w.next <= w.items && w.recalled == {} && w.finished <= w.called
    && (forall item :: item in w.called ==> item < w.next)
    && w.done + w.items == cells + |w.finished|
  }

  ghost predicate Workers(w: World) {
    && (forall i :: 0 <= i < |w.workers| ==> InHand(w, w.workers[i]))
    && (forall i, j :: 0 <= i < |w.workers| && 0 <= j < |w.workers| && i != j ==> Apart(w.workers[i], w.workers[j]))
  }

  /** While the job runs no item is lost, and a worker leaves only an empty queue. */
  ghost predicate NothingLost(w: World) {
    && (forall item: nat :: item < w.next && item !in w.finished ==> Held(w.workers, item))
    && (forall i :: 0 <= i < |w.workers| && w.workers[i].Exited? ==> w.next == w.items)
  }

  /** `cells` counts every cell of the table, `w.done` the ones that need no more work. */
  ghost predicate Inv(w: World, cells: nat) {
    && w.workers != [] && Counted(w, cells) && Workers(w)
    && (w.state.Running? ==> NothingLost(w))
    && (w.state.Succeeded? ==> forall item: nat :: item < w.items ==> item in w.finished)
  }

  lemma StillHeld(was: seq<Phase>, i: nat, p: Phase, item: nat)
    requires i < |was| && Held(was, item) && (ItemOf(was[i]) == Some(item) ==> ItemOf(p) == Some(item))
    ensures Held(was[i := p], item)
  {
    var j :| 0 <= j < |was| && ItemOf(was[j]) == Some(item);
    assert ItemOf(was[i := p][j]) == Some(item);
  }

  /** A worker moves on with the item it had, or leaves a job that has ended. */
  lemma MoveKeeps(w: World, cells: nat, i: nat, p: Phase)
    requires Inv(w, cells) && i < |w.workers|
    requires ItemOf(p).Some? ==> ItemOf(p) == ItemOf(w.workers[i]) && p.Calling? == w.workers[i].Calling?
    requires w.state.Running? ==> ItemOf(p) == ItemOf(w.workers[i]) && !p.Exited?
    ensures Inv(Move(w, i, p), cells)
  {
    hide Held;
    var w' := Move(w, i, p);
    forall item: nat | w.state.Running? && item < w.next && item !in w.finished ensures Held(w'.workers, item) {
      StillHeld(w.workers, i, p, item);
    }
  }

  lemma EndKeeps(w: World, cells: nat, s: JobState)
    requires Inv(w, cells) && !s.Running? && !s.Succeeded?
    ensures Inv(End(w, s), cells)
  {
    hide Held, Apart;
  }

  lemma PopStep(w: World, cells: nat, i: nat, threshold: nat)
    requires Inv(w, cells) && Enabled(w, Pop(i))
    ensures Inv(Next(w, Pop(i), threshold), cells)
  {
    hide Held;
    var w' := Next(w, Pop(i), threshold);
    forall item: nat | item < w'.next && item !in w.finished && w.state.Running? ensures Held(w'.workers, item) {
      if item < w.next {
        StillHeld(w.workers, i, w'.workers[i], item);
      } else {
        InHandHeld(w'.workers, i, item);
      }
    }
  }

  lemma InHandHeld(workers: seq<Phase>, i: nat, item: nat)
    requires i < |workers| && ItemOf(workers[i]) == Some(item)
    ensures Held(workers, item)
  {
  }

  lemma CallStep(w: World, cells: nat, i: nat, outcome: Outcome, threshold: nat)
    requires Inv(w, cells) && Enabled(w, CallSnippet(i, outcome))
    ensures Inv(Next(w, CallSnippet(i, outcome), threshold), cells)
  {
    hide Held;
    var item := w.workers[i].item;
    assert InHand(w, w.workers[i]) && item !in w.called;
    var w' := Next(w, CallSnippet(i, outcome), threshold);
    forall j | 0 <= j < |w.workers| ensures InHand(w', w'.workers[j]) {
      assert InHand(w, w.workers[j]) && (j != i ==> Apart(w.workers[j], w.workers[i]));
    }
    forall k: nat | k < w.next && k !in w.finished && w.state.Running? ensures Held(w'.workers, k) {
      StillHeld(w.workers, i, w'.workers[i], k);
    }
  }

  /** One more item counted as done. */
  lemma FinishStep(w: World, cells: nat, i: nat)
    requires Inv(w, cells) && i < |w.workers| && w.workers[i].Calling?
    ensures var w' := Move(w.(done := w.done + 1, finished := w.finished + {w.workers[i].item}), i, Ready); Inv(w', cells)
  {
    hide Held;
    var item := w.workers[i].item;
    assert InHand(w, w.workers[i]) && item in w.called && item !in w.finished;
    var w' := Move(w.(done := w.done + 1, finished := w.finished + {item}), i, Ready);
    forall j | 0 <= j < |w.workers| ensures InHand(w', w'.workers[j]) {
      assert InHand(w, w.workers[j]) && (j != i ==> Apart(w.workers[j], w.workers[i]));
    }
    forall k: nat | k < w.next && k !in w'.finished && w.state.Running? ensures Held(w'.workers, k) {
      StillHeld(w.workers, i, Ready, k);
    }
  }

  lemma CountersFree(w: World, cells: nat, timeouts: nat, unavailables: nat)
    requires Inv(w, cells)
    ensures Inv(w.(timeouts := timeouts, unavailables := unavailables), cells)
  {
    hide Held, Apart;
  }

  lemma CountStep(w: World, cells: nat, i: nat, threshold: nat)
    requires Inv(w, cells) && Enabled(w, Count(i))
    ensures Inv(Next(w, Count(i), threshold), cells)
  {
    hide Inv;
    var w' := Next(w, Count(i), threshold);
    var counted := w.(timeouts := w'.timeouts, unavailables := w'.unavailables);
    CountersFree(w, cells, w'.timeouts, w'.unavailables);
    if w'.workers[i].Exited? {
      var ended := End(counted, w'.state);
      EndKeeps(counted, cells, if w.state.Running? then w'.state else Cancelled);
      MoveKeeps(End(counted, if w.state.Running? then w'.state else Cancelled), cells, i, Exited);
    } else {
      FinishStep(counted, cells, i);
    }
  }

  lemma JoinStep(w: World, cells: nat, threshold: nat)
    requires Inv(w, cells) && Enabled(w, Join)
    ensures Inv(Next(w, Join, threshold), cells)
  {
    if w.state.Running? {
      assert w.workers[0].Exited?;
      forall item: nat | item < w.items ensures item in w.finished {
        assert item in w.finished || Held(w.workers, item);
      }
    }
  }

  lemma StepKeepsInv(w: World, cells: nat, a: Act, threshold: nat)
    requires Inv(w, cells) && Enabled(w, a)
    ensures Inv(Next(w, a, threshold), cells)
  {
    hide Inv, CountOutcome;
    match a
    case Pop(i) => PopStep(w, cells, i, threshold);
    case See(i) => MoveKeeps(w, cells, i, Next(w, a, threshold).workers[i]);
    case Probe(i, _, _) => MoveKeeps(w, cells, i, Next(w, a, threshold).workers[i]);
    case CallSnippet(i, outcome) => CallStep(w, cells, i, outcome, threshold);
    case Count(i) => CountStep(w, cells, i, threshold);
    case GiveUp(i) =>
      var s := if w.workers[i].Aborting? then Cancelled else Failed("ceiling exceeded");
      EndKeeps(w, cells, s);
      MoveKeeps(End(w, s), cells, i, Exited);
    case Crash(i) =>
      EndKeeps(w, cells, Failed("internal sweep error"));
      MoveKeeps(End(w, Failed("internal sweep error")), cells, i, Exited);
    case Join => JoinStep(w, cells, threshold);
  }

  // ---- runs ---------------------------------------------------------------------------------------

  /** The drain begins: `done` cells need no call, the rest are the distinct items. */
  ghost predicate Begins(w: World, cells: nat) {
    && w.workers != [] && (forall i :: 0 <= i < |w.workers| ==> w.workers[i] == Ready)
    && w.state.Running? && w.next == 0 && w.done + w.items == cells
    && w.timeouts == 0 && w.unavailables == 0 && w.called == {} && w.recalled == {} && w.finished == {}
  }

  ghost predicate Trace(states: seq<World>, acts: seq<Act>, cells: nat, threshold: nat) {
    && |states| == |acts| + 1 && Begins(states[0], cells)
    && forall n :: 0 <= n < |acts| ==> Enabled(states[n], acts[n]) && states[n + 1] == Next(states[n], acts[n], threshold)
  }

  lemma BeginsInv(w: World, cells: nat)
    requires Begins(w, cells)
    ensures Inv(w, cells)
  {
  }

  lemma {:induction false} TraceInv(states: seq<World>, acts: seq<Act>, cells: nat, threshold: nat, n: nat)
    requires Trace(states, acts, cells, threshold) && n < |states|
    ensures Inv(states[n], cells)
  {
    hide Inv, Enabled, Next, Begins;
    if n == 0 {
      BeginsInv(states[0], cells);
    } else {
      TraceInv(states, acts, cells, threshold, n - 1);
      assert Enabled(states[n - 1], acts[n - 1]);
      StepKeepsInv(states[n - 1], cells, acts[n - 1], threshold);
    }
  }

  /** Under every interleaving, a job ends done only if every queued item was called
      exactly once and counted, so that `done` is the number of cells. */
  lemma SuccessMeansAllOnce(states: seq<World>, acts: seq<Act>, cells: nat, threshold: nat, n: nat)
    requires Trace(states, acts, cells, threshold) && n < |states| && states[n].state.Succeeded?
    ensures var w := states[n];
      && (forall item: nat :: item < w.items ==> item in w.called && item !in w.recalled)
      && w.done == cells
  {
    TraceInv(states, acts, cells, threshold, n);
    hide Held, Apart, InHand;
    var w := states[n];
    FirstN(w.finished, w.items);
  }

  lemma {:induction false} FirstN(s: set<nat>, n: nat)
    requires (forall k: nat :: k < n ==> k in s) && (forall k :: k in s ==> k < n)
    ensures |s| == n
  {
    if n == 0 {
      assert s == {};
    } else {
      FirstN(s - {n - 1}, n - 1);
      assert s == (s - {n - 1}) + {n - 1};
    }
  }

  /** Along a run the first terminal state is final. */
  lemma {:induction false} FirstTerminalWins(states: seq<World>, acts: seq<Act>, cells: nat, threshold: nat, j: nat, n: nat)
    requires Trace(states, acts, cells, threshold) && j <= n < |states| && !states[j].state.Running?
    ensures states[n].state == states[j].state
    decreases n
  {
    hide Enabled, Next, Begins;
    if j < n {
      FirstTerminalWins(states, acts, cells, threshold, j, n - 1);
      assert Enabled(states[n - 1], acts[n - 1]);
      TerminalStateStays(states[n - 1], acts[n - 1], threshold);
    }
  }

  // ---- why a job ended ---------------------------------------------------------------------------------

  /** Calls with this outcome that were counted in a row, none of another outcome between. */
  ghost function Streak(states: seq<World>, acts: seq<Act>, n: nat, o: Outcome): nat
    requires n <= |acts| && |states| == |acts| + 1
  {
    if n == 0 then 0
    else if acts[n - 1].Count? && acts[n - 1].worker < |states[n - 1].workers| && states[n - 1].workers[acts[n - 1].worker].Calling? then
      if states[n - 1].workers[acts[n - 1].worker].outcome == o then Streak(states, acts, n - 1, o) + 1 else 0
    else Streak(states, acts, n - 1, o)
  }

  ghost predicate Probed(acts: seq<Act>, n: nat, worker: nat, aborted: bool)
    requires n <= |acts|
  {
    exists j: nat :: j < n && acts[j].Probe? && acts[j].worker == worker && acts[j].aborted == aborted && (aborted || acts[j].exhausted)
  }

  ghost predicate Counts(w: World, a: Act, o: Outcome) {
    a.Count? && a.worker < |w.workers| && w.workers[a.worker].Calling? && w.workers[a.worker].outcome == o
  }

  /** What the step at `n` must be for a running job to end in this state. */
  ghost predicate Cause(states: seq<World>, acts: seq<Act>, n: nat, threshold: nat, s: JobState)
    requires n < |acts| && |states| == |acts| + 1
  {
    match s
    case Running => false
    case Succeeded => acts[n].Join?
    case Cancelled => acts[n].GiveUp? && acts[n].worker < |states[n].workers| && states[n].workers[acts[n].worker].Aborting?
      && Probed(acts, n, acts[n].worker, true)
    case Failed(message) =>
      || (message == "ceiling exceeded" && acts[n].GiveUp? && acts[n].worker < |states[n].workers|
            && states[n].workers[acts[n].worker].Expired? && Probed(acts, n, acts[n].worker, false))
      || (message == "internal sweep error" && acts[n].Crash?)
      || (message == "consecutive timeouts" && Counts(states[n], acts[n], Timeout) && Streak(states, acts, n + 1, Timeout) >= threshold)
      || (message == "runner unavailable" && Counts(states[n], acts[n], Unavailable)
            && Streak(states, acts, n + 1, Unavailable) >= threshold)
  }

  /** The counters are the streaks. */
  lemma {:induction false} CountersAreStreaks(states: seq<World>, acts: seq<Act>, cells: nat, threshold: nat, n: nat)
    requires Trace(states, acts, cells, threshold) && n <= |acts|
    ensures states[n].timeouts == Streak(states, acts, n, Timeout) && states[n].unavailables == Streak(states, acts, n, Unavailable)
  {
    if n > 0 {
      CountersAreStreaks(states, acts, cells, threshold, n - 1);
      assert Enabled(states[n - 1], acts[n - 1]);
    }
  }

  /** A worker that stands before giving up has probed and seen why. */
  lemma {:induction false} GivingUpWasProbed(states: seq<World>, acts: seq<Act>, cells: nat, threshold: nat, n: nat, i: nat)
    requires Trace(states, acts, cells, threshold) && n <= |acts| && i < |states[n].workers|
    ensures states[n].workers[i].Aborting? ==> Probed(acts, n, i, true)
    ensures states[n].workers[i].Expired? ==> Probed(acts, n, i, false)
  {
    if n > 0 {
      assert Enabled(states[n - 1], acts[n - 1]);
      assert |states[n].workers| == |states[n - 1].workers|;
      GivingUpWasProbed(states, acts, cells, threshold, n - 1, i);
    }
  }

  /** A running job ends in a state exactly when the step is that state's cause: a join
      ends it done, and an aborted probe, a spent budget, a crash, or `threshold` timeouts
      or unavailable runners counted in a row end it otherwise. */
  lemma EndsExactlyByCause(states: seq<World>, acts: seq<Act>, cells: nat, threshold: nat, n: nat, s: JobState)
    requires Trace(states, acts, cells, threshold) && n < |acts| && states[n].state.Running? && !s.Running?
    ensures states[n + 1].state == s <==> Cause(states, acts, n, threshold, s)
  {
    hide Streak, Probed;
    assert Enabled(states[n], acts[n]);
    CountersAreStreaks(states, acts, cells, threshold, n);
    StreakNext(states, acts, n);
    if acts[n].GiveUp? {
      GivingUpWasProbed(states, acts, cells, threshold, n, acts[n].worker);
    }
  }

  lemma StreakNext(states: seq<World>, acts: seq<Act>, n: nat)
    requires n < |acts| && |states| == |acts| + 1
    ensures forall o :: Counts(states[n], acts[n], o) ==> Streak(states, acts, n + 1, o) == Streak(states, acts, n, o) + 1
  {
  }

  /** Every job that has ended did so once, by a cause of the state it is in. */
  lemma {:induction false} EndedByCause(states: seq<World>, acts: seq<Act>, cells: nat, threshold: nat, n: nat) returns (k: nat)
    requires Trace(states, acts, cells, threshold) && n <= |acts| && !states[n].state.Running?
    ensures k < n && states[k].state.Running? && states[k + 1].state == states[n].state
    ensures Cause(states, acts, k, threshold, states[n].state)
  {
    hide Cause, Enabled, Next;
    assert n > 0;
    if states[n - 1].state.Running? {
      k := n - 1;
      EndsExactlyByCause(states, acts, cells, threshold, k, states[n].state);
    } else {
      FirstTerminalWins(states, acts, cells, threshold, n - 1, n);
      k := EndedByCause(states, acts, cells, threshold, n - 1);
    }
  }

  /** So a sweep in which no worker gave up or crashed and neither outcome ran up to the
      threshold ends done at its join, every cell counted. */
  lemma CleanSweepSucceeds(states: seq<World>, acts: seq<Act>, cells: nat, threshold: nat, n: nat)
    requires Trace(states, acts, cells, threshold) && n < |acts| && acts[n].Join?
    requires forall k :: 0 <= k < n ==> !acts[k].GiveUp? && !acts[k].Crash? && !acts[k].Join?
    requires forall k: nat :: k <= n ==> Streak(states, acts, k, Timeout) < threshold && Streak(states, acts, k, Unavailable) < threshold
    ensures states[n + 1].state.Succeeded? && states[n + 1].done == cells
  {
    hide Enabled, Next, Streak;
    if !states[n].state.Running? {
      var k := EndedByCause(states, acts, cells, threshold, n);
      assert false;
    } else {
      EndsExactlyByCause(states, acts, cells, threshold, n, Succeeded);
      SuccessMeansAllOnce(states, acts, cells, threshold, n + 1);
    }
  }

  // ---- a table whose calls all time out ----------------------------------------------------------------

  /** Workers past the running check whose call is not counted yet. */
  function Busy(workers: seq<Phase>): nat {
    if workers == [] then 0 else
    Busy(workers[..|workers| - 1]) + if workers[|workers| - 1].Cleared? || workers[|workers| - 1].Calling? then 1 else 0
  }

  predicate IsBusy(p: Phase) {
    p.Cleared? || p.Calling?
  }

  lemma {:induction false} BusyUpdate(workers: seq<Phase>, i: nat, p: Phase)
    requires i < |workers|
    ensures Busy(workers[i := p]) + (if IsBusy(workers[i]) then 1 else 0) == Busy(workers) + if IsBusy(p) then 1 else 0
  {
    var n := |workers| - 1;
    if i == n {
      assert workers[i := p][..n] == workers[..n];
    } else {
      assert workers[i := p][..n] == workers[..n][i := p];
      BusyUpdate(workers[..n], i, p);
    }
  }

  lemma {:induction false} BusyBound(workers: seq<Phase>)
    ensures Busy(workers) <= |workers|
  {
    if workers != [] {
      BusyBound(workers[..|workers| - 1]);
    }
  }

  function Waiting(workers: seq<Phase>): nat {
    if workers == [] then 0 else
    Waiting(workers[..|workers| - 1]) + if workers[|workers| - 1].Calling? then 1 else 0
  }

  lemma {:induction false} WaitingUpdate(workers: seq<Phase>, i: nat, p: Phase)
    requires i < |workers|
    ensures Waiting(workers[i := p]) + (if workers[i].Calling? then 1 else 0) == Waiting(workers) + if p.Calling? then 1 else 0
  {
    var n := |workers| - 1;
    if i == n {
      assert workers[i := p][..n] == workers[..n];
    } else {
      assert workers[i := p][..n] == workers[..n][i := p];
      WaitingUpdate(workers[..n], i, p);
    }
  }

  lemma {:induction false} WaitingWithinBusy(workers: seq<Phase>)
    ensures Waiting(workers) <= Busy(workers)
  {
    if workers != [] {
      WaitingWithinBusy(workers[..|workers| - 1]);
    }
  }

  /** Every call so far timed out. `calls` of them were made: counted, in some worker's
      hand, or lost with a worker that crashed. A running job is below the threshold. */
  ghost predicate AllTimedOut(w: World, threshold: nat, calls: nat, lost: nat) {
    && calls == w.timeouts + Waiting(w.workers) + lost
    && (w.state.Running? ==> w.timeouts < threshold && lost == 0)
    && w.timeouts + Busy(w.workers) + lost <= threshold + |w.workers| - 1
    && forall i :: 0 <= i < |w.workers| && w.workers[i].Calling? ==> w.workers[i].outcome == Timeout
  }

  lemma TimeoutStep(w: World, a: Act, threshold: nat, calls: nat, lost: nat) returns (lost': nat)
    requires AllTimedOut(w, threshold, calls, lost) && Enabled(w, a) && (a.CallSnippet? ==> a.outcome == Timeout)
    ensures AllTimedOut(Next(w, a, threshold), threshold, if a.CallSnippet? then calls + 1 else calls, lost')
    ensures |Next(w, a, threshold).workers| == |w.workers|
  {
    lost' := lost;
    if !a.Join? {
      var p := Next(w, a, threshold).workers[a.worker];
      BusyUpdate(w.workers, a.worker, p);
      WaitingUpdate(w.workers, a.worker, p);
      BusyBound(Next(w, a, threshold).workers);
      if a.Crash? && w.workers[a.worker].Calling? {
        lost' := lost + 1;
      }
    }
  }

  function CallCount(acts: seq<Act>): nat {
    if acts == [] then 0 else CallCount(acts[..|acts| - 1]) + if acts[|acts| - 1].CallSnippet? then 1 else 0
  }

  lemma {:induction false} TraceTimesOut(states: seq<World>, acts: seq<Act>, cells: nat, threshold: nat, n: nat) returns (lost: nat)
    requires Trace(states, acts, cells, threshold) && n < |states| && threshold > 0
    requires forall k :: 0 <= k < |acts| && acts[k].CallSnippet? ==> acts[k].outcome == Timeout
    ensures AllTimedOut(states[n], threshold, CallCount(acts[..n]), lost) && |states[n].workers| == |states[0].workers|
  {
    hide Enabled, Next, AllTimedOut;
    if n == 0 {
      lost := 0;
      NothingCalledYet(states[0], cells, threshold);
    } else {
      var before := TraceTimesOut(states, acts, cells, threshold, n - 1);
      assert Enabled(states[n - 1], acts[n - 1]);
      assert acts[..n][..n - 1] == acts[..n - 1];
      lost := TimeoutStep(states[n - 1], acts[n - 1], threshold, CallCount(acts[..n - 1]), before);
    }
  }

  lemma NothingCalledYet(w: World, cells: nat, threshold: nat)
    requires Begins(w, cells) && threshold > 0
    ensures AllTimedOut(w, threshold, 0, 0)
  {
    AllReady(w.workers);
    assert |w.workers| > 0;
  }

  lemma {:induction false} AllReady(workers: seq<Phase>)
    requires forall i :: 0 <= i < |workers| ==> workers[i] == Ready
    ensures Busy(workers) == 0 && Waiting(workers) == 0
  {
    if workers != [] {
      AllReady(workers[..|workers| - 1]);
    }
  }

  /** A table whose calls all time out costs at most `threshold + workers - 1` calls,
      however the workers interleave. */
  lemma TimeoutsBounded(states: seq<World>, acts: seq<Act>, cells: nat, threshold: nat)
    requires Trace(states, acts, cells, threshold) && threshold > 0
    requires forall k :: 0 <= k < |acts| && acts[k].CallSnippet? ==> acts[k].outcome == Timeout
    ensures CallCount(acts) <= threshold + |states[0].workers| - 1
  {
    var n := |acts|;
    var lost := TraceTimesOut(states, acts, cells, threshold, n);
    assert acts[..n] == acts;
    WaitingWithinBusy(states[n].workers);
  }

  // ---- the drain ends -----------------------------------------------------------------------------

  function Rank(p: Phase): nat {
    match p
    case Exited => 0
    case Ready => 1
    case Calling(_, _) => 2
    case Aborting(_) => 2
    case Expired(_) => 2
    case Cleared(_) => 3
    case Picked(_) => 4
  }

  function Ranks(workers: seq<Phase>): nat {
    if workers == [] then 0 else Ranks(workers[..|workers| - 1]) + Rank(workers[|workers| - 1])
  }

  lemma {:induction false} RanksUpdate(workers: seq<Phase>, i: nat, p: Phase)
    requires i < |workers|
    ensures Ranks(workers[i := p]) + Rank(workers[i]) == Ranks(workers) + Rank(p)
  {
    var n := |workers| - 1;
    if i == n {
      assert workers[i := p][..n] == workers[..n];
    } else {
      assert workers[i := p][..n] == workers[..n][i := p];
      RanksUpdate(workers[..n], i, p);
    }
  }

  lemma {:induction false} RanksReady(workers: seq<Phase>)
    requires forall i :: 0 <= i < |workers| ==> workers[i].Ready?
    ensures Ranks(workers) == |workers|
  {
    if workers != [] {
      RanksReady(workers[..|workers| - 1]);
    }
  }

  /** What is left to do: each step of a worker takes some of it. */
  function ToDo(w: World): int {
    4 * (w.items - w.next) + Ranks(w.workers)
  }

  lemma StepTakes(w: World, a: Act, threshold: nat)
    requires Enabled(w, a) && !a.Join? && w.next <= w.items
    ensures var now := Next(w, a, threshold); ToDo(now) < ToDo(w) && now.next <= now.items == w.items
  {
    hide Ranks;
    var now := Next(w, a, threshold);
    RanksUpdate(w.workers, a.worker, now.workers[a.worker]);
    assert now.workers == w.workers[a.worker := now.workers[a.worker]];
  }

  /** The workers take at most four steps an item and one each: no drain runs on. */
  lemma {:induction false} DrainEnds(states: seq<World>, acts: seq<Act>, cells: nat, threshold: nat, n: nat)
    requires Trace(states, acts, cells, threshold) && n <= |acts| && forall k :: 0 <= k < n ==> !acts[k].Join?
    ensures states[n].next <= states[n].items == states[0].items
    ensures n + ToDo(states[n]) <= 4 * states[0].items + |states[0].workers|
  {
    hide Enabled, Next, Ranks;
    if n == 0 {
      RanksReady(states[0].workers);
    } else {
      DrainEnds(states, acts, cells, threshold, n - 1);
      assert Enabled(states[n - 1], acts[n - 1]);
      StepTakes(states[n - 1], acts[n - 1], threshold);
    }
  }

  /** And until the workers are joined something can happen: a worker that has not left
      has a step to take, and the join waits for the last of them. */
  lemma DrainCanStep(w: World) returns (a: Act)
    ensures Enabled(w, a)
    ensures a.Join? <==> forall i :: 0 <= i < |w.workers| ==> w.workers[i].Exited?
  {
    if i: nat :| i < |w.workers| && !w.workers[i].Exited? {
      var p := w.workers[i];
      a := if p.Ready? then Pop(i)
        else if p.Picked? then See(i)
        else if p.Cleared? then CallSnippet(i, Settled)
        else if p.Calling? then Count(i)
        else GiveUp(i);
    } else {
      a := Join;
    }
  }

  // ---- the two locks ------------------------------------------------------------------------------------

  /** A job thread queues for its session's run lock, then for a process-wide slot. */
  datatype Step = Queued(session: Id) | Locked(session: Id) | Working(session: Id) | Over

  function SlotsUsed(jobs: seq<Step>): nat {
    if jobs == [] then 0 else SlotsUsed(jobs[..|jobs| - 1]) + if jobs[|jobs| - 1].Working? then 1 else 0
  }

  predicate HoldsRunLock(j: Step, session: Id) {
    (j.Locked? || j.Working?) && j.session == session
  }

  ghost predicate RunLockFree(jobs: seq<Step>, session: Id) {
    forall i :: 0 <= i < |jobs| ==> !HoldsRunLock(jobs[i], session)
  }

  /** What a job thread can do next: nothing while it waits for a lock. */
  ghost predicate CanStep(jobs: seq<Step>, slots: nat, i: nat) {
    i < |jobs| &&
    match jobs[i]
    case Queued(s) => RunLockFree(jobs, s)
    case Locked(_) => SlotsUsed(jobs) < slots
    case Working(_) => true
    case Over => false
  }

  function Stepped(j: Step): Step {
    match j
    case Queued(s) => Locked(s)
    case Locked(s) => Working(s)
    case _ => Over
  }

  ghost predicate LocksHeld(jobs: seq<Step>, slots: nat) {
    && SlotsUsed(jobs) <= slots
    && forall i, j, s :: 0 <= i < |jobs| && 0 <= j < |jobs| && HoldsRunLock(jobs[i], s) && HoldsRunLock(jobs[j], s) ==> i == j
  }

  lemma {:induction false} SlotsUpdate(jobs: seq<Step>, i: nat, j: Step)
    requires i < |jobs|
    ensures SlotsUsed(jobs[i := j]) + (if jobs[i].Working? then 1 else 0) == SlotsUsed(jobs) + if j.Working? then 1 else 0
  {
    var n := |jobs| - 1;
    if i == n {
      assert jobs[i := j][..n] == jobs[..n];
    } else {
      assert jobs[i := j][..n] == jobs[..n][i := j];
      SlotsUpdate(jobs[..n], i, j);
    }
  }

  lemma StepKeepsLocks(jobs: seq<Step>, slots: nat, i: nat)
    requires LocksHeld(jobs, slots) && CanStep(jobs, slots, i)
    ensures LocksHeld(jobs[i := Stepped(jobs[i])], slots)
  {
    SlotsUpdate(jobs, i, Stepped(jobs[i]));
  }

  /** A run of any number of job threads, all waiting at first, in any order. */
  ghost predicate JobTrace(states: seq<seq<Step>>, picks: seq<nat>, slots: nat) {
    && |states| == |picks| + 1
    && (forall i :: 0 <= i < |states[0]| ==> states[0][i].Queued?)
    && forall n :: 0 <= n < |picks| ==>
         CanStep(states[n], slots, picks[n]) && states[n + 1] == states[n][picks[n] := Stepped(states[n][picks[n]])]
  }

  /** Throughout any run no more slots are in use than there are, and a session has at
      most one sweep past its run lock, so a session holds at most one slot. */
  lemma {:induction false} LocksKept(states: seq<seq<Step>>, picks: seq<nat>, slots: nat, n: nat)
    requires JobTrace(states, picks, slots) && n < |states|
    ensures LocksHeld(states[n], slots)
  {
    hide CanStep;
    if n == 0 {
      NoSlotUsed(states[0]);
    } else {
      LocksKept(states, picks, slots, n - 1);
      assert CanStep(states[n - 1], slots, picks[n - 1]);
      StepKeepsLocks(states[n - 1], slots, picks[n - 1]);
    }
  }

  lemma {:induction false} NoSlotUsed(jobs: seq<Step>)
    requires forall i :: 0 <= i < |jobs| ==> !jobs[i].Working?
    ensures SlotsUsed(jobs) == 0
  {
    if jobs != [] {
      NoSlotUsed(jobs[..|jobs| - 1]);
    }
  }

  /** No deadlock: while a job is unfinished, some job can step. */
  lemma SomeJobSteps(states: seq<seq<Step>>, picks: seq<nat>, slots: nat, n: nat, k: nat) returns (i: nat)
    requires JobTrace(states, picks, slots) && n < |states| && slots > 0 && k < |states[n]| && !states[n][k].Over?
    ensures CanStep(states[n], slots, i)
  {
    LocksKept(states, picks, slots, n);
    var jobs := states[n];
    if w :| 0 <= w < |jobs| && jobs[w].Working? {
      i := w;
    } else {
      NoSlotUsed(jobs);
      if l :| 0 <= l < |jobs| && jobs[l].Locked? {
        i := l;
      } else {
        i := k;
      }
    }
  }

  function StepsLeft(j: Step): nat {
    match j
    case Queued(_) => 3
    case Locked(_) => 2
    case Working(_) => 1
    case Over => 0
  }

  function AllStepsLeft(jobs: seq<Step>): nat {
    if jobs == [] then 0 else AllStepsLeft(jobs[..|jobs| - 1]) + StepsLeft(jobs[|jobs| - 1])
  }

  lemma {:induction false} StepsUpdate(jobs: seq<Step>, i: nat, j: Step)
    requires i < |jobs|
    ensures AllStepsLeft(jobs[i := j]) + StepsLeft(jobs[i]) == AllStepsLeft(jobs) + StepsLeft(j)
  {
    var n := |jobs| - 1;
    if i == n {
      assert jobs[i := j][..n] == jobs[..n];
    } else {
      assert jobs[i := j][..n] == jobs[..n][i := j];
      StepsUpdate(jobs[..n], i, j);
    }
  }

  lemma {:induction false} AllQueued(jobs: seq<Step>)
    requires forall i :: 0 <= i < |jobs| ==> jobs[i].Queued?
    ensures AllStepsLeft(jobs) == 3 * |jobs|
  {
    if jobs != [] {
      AllQueued(jobs[..|jobs| - 1]);
    }
  }

  /** Every job is over after three steps of its own, so with `SomeJobSteps` all of them
      get through. */
  lemma {:induction false} JobsEnd(states: seq<seq<Step>>, picks: seq<nat>, slots: nat, n: nat)
    requires JobTrace(states, picks, slots) && n < |states|
    ensures |states[n]| == |states[0]| && n + AllStepsLeft(states[n]) == 3 * |states[0]|
  {
    hide Stepped, RunLockFree, SlotsUsed;
    if n == 0 {
      AllQueued(states[0]);
    } else {
      JobsEnd(states, picks, slots, n - 1);
      var i := picks[n - 1];
      assert CanStep(states[n - 1], slots, i) && states[n - 1 + 1] == states[n - 1][i := Stepped(states[n - 1][i])];
      StepOnce(states[n - 1], slots, i);
    }
  }

  lemma StepOnce(jobs: seq<Step>, slots: nat, i: nat)
    requires CanStep(jobs, slots, i)
    ensures AllStepsLeft(jobs[i := Stepped(jobs[i])]) + 1 == AllStepsLeft(jobs)
  {
    StepsUpdate(jobs, i, Stepped(jobs[i]));
  }
}
