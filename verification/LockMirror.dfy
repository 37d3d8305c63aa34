/** The lease mirror (api/lock_mirror.py): the write-through and restore as they run,
    and the order in which racing write-throughs land. */
module LockMirror {
  import opened Collections
  import opened Locking
  import opened LeaseRuns

  class MemoryLeaseMirror {
    var sets: map<Id, seq<MirroredLease>>

    constructor ()
      ensures sets == map[]
    {
      sets := map[];
    }

    method Write(project: Id, leases: seq<MirroredLease>)
      modifies this
      ensures GetOr(sets, project, []) == leases
      ensures forall p :: p != project ==> Lookup(sets, p) == Lookup(old(sets), p)
    {
      if leases != [] {
        sets := sets[project := leases];
      } else {
        sets := sets - {project};
      }
    }

    method Load(project: Id) returns (leases: seq<MirroredLease>)
      ensures leases == GetOr(sets, project, [])
    {
      leases := GetOr(sets, project, []);
    }
  }

  method MirrorLeases(leases: seq<Lease>, monoNow: real, wallNow: real) returns (out: seq<MirroredLease>)
    ensures out == ToMirrored(leases, monoNow, wallNow)
  {
    out := [];
    for i := 0 to |leases|
      invariant out == ToMirrored(leases[..i], monoNow, wallNow)
    {
      assert leases[..i + 1][..i] == leases[..i];
      var remaining := leases[i].expiresAt - monoNow;
      if remaining <= 0.0 {
        continue;
      }
      var le := leases[i];
      out := out + [MirroredLease(le.resource, le.mode, le.holder, le.token, le.intent, wallNow + remaining, le.email)];
    }
    assert leases[..|leases|] == leases;
  }

  method UnmirrorLeases(mirrored: seq<MirroredLease>, monoNow: real, wallNow: real, cap: Option<real>) returns (out: seq<Lease>)
    ensures out == ToLeases(mirrored, monoNow, wallNow, cap)
  {
    out := [];
    for i := 0 to |mirrored|
      invariant out == ToLeases(mirrored[..i], monoNow, wallNow, cap)
    {
      assert mirrored[..i + 1][..i] == mirrored[..i];
      var m := mirrored[i];
      var remaining := m.expiresAtEpoch - wallNow;
      if remaining <= 0.0 {
        continue;
      }
      if cap.Some? && cap.value > 0.0 && cap.value < remaining {
        remaining := cap.value;
      }
      out := out + [Lease(m.resource, m.mode, m.holder, m.token, m.intent, monoNow + remaining, m.email)];
    }
    assert mirrored[..|mirrored|] == mirrored;
  }

  method MirrorSessionLeases(project: Id, table: LockTable, mirror: MemoryLeaseMirror, monoNow: real, wallNow: real)
    modifies mirror
    ensures forall m :: m in GetOr(mirror.sets, project, []) <==>
      exists rid, le :: rid in table.byResource && le in table.byResource[rid] && le.expiresAt > monoNow
        && m == MirrorOne(le, monoNow, wallNow)
    ensures forall p :: p != project ==> Lookup(mirror.sets, p) == Lookup(old(mirror.sets), p)
  {
    var leases := table.ActiveLeases(monoNow);
    var payload := MirrorLeases(leases, monoNow, wallNow);
    MirroredExactly(leases, monoNow, wallNow);
    mirror.Write(project, payload);
  }

  /** Restoring seeds a table that has served no request yet. */
  method RestoreLeases(project: Id, table: LockTable, mirror: MemoryLeaseMirror, monoNow: real, wallNow: real, cap: Option<real>)
    modifies table
    ensures table.byResource == Seeded(old(table.byResource), ToLeases(GetOr(mirror.sets, project, []), monoNow, wallNow, cap))
  {
    var mirrored := mirror.Load(project);
    if mirrored == [] {
      return;
    }
    var leases := UnmirrorLeases(mirrored, monoNow, wallNow, cap);
    table.Seed(leases);
  }

  // ---- racing write-throughs --------------------------------------------------------------------

  /** Where a thread is: it owes a write-through after each of its mutations. `Entered`
      holds the mirror mutex with its clock sampled; `Snapped` holds its snapshot too. */
  datatype Phase =
    | Idle
    | Owing
    | Entered(mono: real)
    | Snapped(mono: real, active: seq<Lease>, rev: nat)

  /** `tables[r]` is the table right after mutation `r`; `table` is the table now, which
      may have lost expired leases since. */
  datatype State = State(
    clock: real,
    table: Table,
    tables: seq<Table>,
    threads: map<Id, Phase>,
    mirror: seq<MirroredLease>,
    mirrorRev: nat)

  datatype Act =
    | Mutate(thread: Id, table: Table)
    | Compaction(table: Table)
    | Enter(thread: Id)
    | Snapshot(thread: Id, active: seq<Lease>)
    | Write(thread: Id)
    | Tick(to: real)

  predicate HoldsMutex(p: Phase) {
    p.Entered? || p.Snapped?
  }

  /** From a moment on, two tables have the same live leases. */
  ghost predicate SameLive(a: Table, b: Table, from: real) {
    forall rid, le: Lease :: le.expiresAt > from ==> (le in On(a, rid) <==> le in On(b, rid))
  }

  ghost predicate Lists(active: seq<Lease>, t: Table, now: real) {
    forall le :: le in active <==> exists rid :: rid in t && le in t[rid] && le.expiresAt > now
  }

  function Latest(s: State): nat
    requires s.tables != []
  {
    |s.tables| - 1
  }

  ghost predicate Enabled(s: State, a: Act) {
    match a
    case Mutate(i, _) => i in s.threads && s.threads[i] == Idle
    case Compaction(t) => SameLive(t, s.table, s.clock) && Within(t, s.table)
    case Enter(i) => i in s.threads && s.threads[i] == Owing && forall j :: j in s.threads ==> !HoldsMutex(s.threads[j])
    case Snapshot(i, active) => i in s.threads && s.threads[i].Entered? && Lists(active, s.table, s.threads[i].mono)
    case Write(i) => i in s.threads && s.threads[i].Snapped?
    case Tick(to) => s.clock <= to
  }

  /** The wall clock runs a constant ahead of the monotonic one while the process lives. */
  ghost function Next(s: State, a: Act, offset: real): State
    requires s.tables != [] && Enabled(s, a)
  {
    match a
    case Mutate(i, t) => s.(table := t, tables := s.tables + [t], threads := s.threads[i := Owing])
    case Compaction(t) => s.(table := t)
    case Enter(i) => s.(threads := s.threads[i := Entered(s.clock)])
    case Snapshot(i, active) => s.(threads := s.threads[i := Snapped(s.threads[i].mono, active, Latest(s))])
    case Write(i) =>
      var p := s.threads[i];
      s.(mirror := ToMirrored(p.active, p.mono, s.clock + offset), mirrorRev := p.rev, threads := s.threads[i := Idle])
    case Tick(to) => s.(clock := to)
  }

  /** What a snapshot taken for mutation `rev` holds: every lease of that table still
      live now, and none that was not in that table. */
  ghost predicate SnapshotOf(active: seq<Lease>, t: Table, now: real) {
    && (forall rid, le :: le in On(t, rid) && le.expiresAt > now ==> le in active)
    && (forall le :: le in active ==> exists rid :: le in On(t, rid))
  }

  predicate Matches(m: MirroredLease, le: Lease) {
    m.resource == le.resource && m.mode == le.mode && m.holder == le.holder && m.token == le.token && m.intent == le.intent
  }

  /** The mirror in the same sense; a mirrored expiry is never early. */
  ghost predicate MirrorOf(mirror: seq<MirroredLease>, t: Table, now: real, offset: real) {
    && (forall rid, le :: le in On(t, rid) && le.expiresAt > now ==>
         exists m :: m in mirror && Matches(m, le) && m.expiresAtEpoch >= le.expiresAt + offset)
    && (forall m :: m in mirror ==> StandsFor(m, t))
  }

  /** The mirrored lease is some lease of the table. */
  ghost predicate StandsFor(m: MirroredLease, t: Table) {
    exists rid, le :: le in On(t, rid) && Matches(m, le)
  }

  ghost predicate Inv(s: State, offset: real) {
    && s.tables != [] && s.mirrorRev < |s.tables|
    && SameLive(s.table, s.tables[Latest(s)], s.clock) && Within(s.table, s.tables[Latest(s)])
    && MirrorOf(s.mirror, s.tables[s.mirrorRev], s.clock, offset)
    && (forall i, j :: i in s.threads && j in s.threads && HoldsMutex(s.threads[i]) && HoldsMutex(s.threads[j]) ==> i == j)
    && (forall i :: i in s.threads && s.threads[i].Entered? ==> s.threads[i].mono <= s.clock)
    && (forall i :: i in s.threads && s.threads[i].Snapped? ==>
         var p := s.threads[i];
         p.mono <= s.clock && s.mirrorRev <= p.rev < |s.tables| && SnapshotOf(p.active, s.tables[p.rev], s.clock)
         && forall le :: le in p.active ==> le.expiresAt > p.mono)
    && (s.mirrorRev == Latest(s)
        || exists i :: i in s.threads && Owes(s.threads[i], Latest(s)))
  }

  /** The thread will still write a snapshot at least as new as `latest`. */
  predicate Owes(p: Phase, latest: nat) {
    p.Owing? || p.Entered? || (p.Snapped? && p.rev == latest)
  }

  lemma WritingSnapshot(p: Phase, t: Table, clock: real, offset: real)
    requires p.Snapped? && p.mono <= clock && SnapshotOf(p.active, t, clock)
    requires forall le :: le in p.active ==> le.expiresAt > p.mono
    ensures MirrorOf(ToMirrored(p.active, p.mono, clock + offset), t, clock, offset)
  {
    MirroredExactly(p.active, p.mono, clock + offset);
    var mirror := ToMirrored(p.active, p.mono, clock + offset);
    forall rid, le | le in On(t, rid) && le.expiresAt > clock
      ensures exists m :: m in mirror && Matches(m, le) && m.expiresAtEpoch >= le.expiresAt + offset
    {
      var m := MirrorOne(le, p.mono, clock + offset);
      assert m in mirror && Matches(m, le);
    }
    forall m | m in mirror ensures StandsFor(m, t) {
      var le :| le in p.active && m == MirrorOne(le, p.mono, clock + offset);
      var rid :| le in On(t, rid);
      assert Matches(m, le);
    }
  }

  lemma SnapshotTaken(active: seq<Lease>, table: Table, latest: Table, mono: real, clock: real)
    requires Lists(active, table, mono) && mono <= clock && SameLive(table, latest, clock) && Within(table, latest)
    ensures SnapshotOf(active, latest, clock) && forall le :: le in active ==> le.expiresAt > mono
  {
    forall rid, le | le in On(latest, rid) && le.expiresAt > clock ensures le in active {
      assert le in On(table, rid);
    }
    forall le | le in active ensures exists rid :: le in On(latest, rid) {
      var rid :| rid in table && le in table[rid];
      assert le in On(latest, rid);
    }
  }

  /** Time only makes the snapshot's duty lighter. */
  lemma TickKeeps(s: State, to: real, offset: real)
    requires Inv(s, offset) && s.clock <= to
    ensures Inv(s.(clock := to), offset)
  {
    hide Within, ToMirrored, Matches;
    MirrorLater(s.mirror, s.tables[s.mirrorRev], s.clock, to, offset);
    hide MirrorOf;
    assert SameLive(s.table, s.tables[Latest(s)], to);
  }

  lemma MirrorLater(mirror: seq<MirroredLease>, t: Table, now: real, later: real, offset: real)
    requires MirrorOf(mirror, t, now, offset) && now <= later
    ensures MirrorOf(mirror, t, later, offset)
  {
    hide Matches;
  }

  lemma SameTable(t: Table, from: real)
    ensures SameLive(t, t, from) && Within(t, t)
  {
  }

  lemma CompactedAgain(c: Table, t: Table, latest: Table, from: real)
    requires SameLive(c, t, from) && SameLive(t, latest, from) && Within(c, t) && Within(t, latest)
    ensures SameLive(c, latest, from) && Within(c, latest)
  {
  }

  /** A step keeps the invariant, and never moves the mirror back. */
  lemma StepForward(s: State, a: Act, offset: real)
    requires Inv(s, offset) && Enabled(s, a)
    ensures Inv(Next(s, a, offset), offset) && s.mirrorRev <= Next(s, a, offset).mirrorRev
  {
    hide ToMirrored, MirrorOf, SnapshotOf, SameLive, Within, Lists;
    var s' := Next(s, a, offset);
    match a
    case Mutate(i, t) =>
      SameTable(t, s.clock);
      assert Owes(s'.threads[i], Latest(s'));
    case Compaction(t) => CompactedAgain(t, s.table, s.tables[Latest(s)], s.clock);
    case Enter(i) => assert Owes(s'.threads[i], Latest(s'));
    case Snapshot(i, active) =>
      SnapshotTaken(active, s.table, s.tables[Latest(s)], s.threads[i].mono, s.clock);
      assert Owes(s'.threads[i], Latest(s'));
    case Write(i) =>
      var p := s.threads[i];
      WritingSnapshot(p, s.tables[p.rev], s.clock, offset);
      if p.rev != Latest(s) {
        var j :| j in s.threads && Owes(s.threads[j], Latest(s));
        assert j in s'.threads && Owes(s'.threads[j], Latest(s'));
      }
    case Tick(to) => TickKeeps(s, to, offset);
  }

  // ---- whole runs ----------------------------------------------------------------------------------

  /** Freshly hydrated: nobody owes a write-through and the mirror matches the table. */
  ghost predicate Hydrated(s: State, offset: real) {
    && s.tables == [s.table] && s.mirrorRev == 0
    && (forall i :: i in s.threads ==> s.threads[i] == Idle)
    && MirrorOf(s.mirror, s.table, s.clock, offset)
  }

  /** States of a run, one per act. */
  ghost predicate Trace(states: seq<State>, acts: seq<Act>, offset: real) {
    && |states| == |acts| + 1 && Hydrated(states[0], offset)
    && forall i :: 0 <= i < |acts| ==>
         states[i].tables != [] && Enabled(states[i], acts[i]) && states[i + 1] == Next(states[i], acts[i], offset)
  }

  lemma HydratedIsInv(s: State, offset: real)
    requires Hydrated(s, offset)
    ensures Inv(s, offset)
  {
    hide MirrorOf, SameLive, Within;
    SameTable(s.table, s.clock);
  }

  lemma {:induction false} TraceKeepsInv(states: seq<State>, acts: seq<Act>, offset: real, k: nat)
    requires Trace(states, acts, offset) && k < |states|
    ensures Inv(states[k], offset)
  {
    hide Inv, Next, Enabled, Hydrated;
    if k == 0 {
      HydratedIsInv(states[0], offset);
    } else {
      TraceKeepsInv(states, acts, offset, k - 1);
      assert Enabled(states[k - 1], acts[k - 1]);
      StepForward(states[k - 1], acts[k - 1], offset);
    }
  }

  /** Whatever the interleaving, the mirror only moves forward. */
  lemma {:induction false} MirrorOnlyForward(states: seq<State>, acts: seq<Act>, offset: real, j: nat, k: nat)
    requires Trace(states, acts, offset) && j <= k < |states|
    ensures states[j].mirrorRev <= states[k].mirrorRev
    decreases k
  {
    hide Inv, Next, Enabled, Hydrated;
    if j < k {
      MirrorOnlyForward(states, acts, offset, j, k - 1);
      TraceKeepsInv(states, acts, offset, k - 1);
      assert Enabled(states[k - 1], acts[k - 1]);
      StepForward(states[k - 1], acts[k - 1], offset);
    }
  }

  /** When no write-through is pending the mirror holds every live lease, none expiring
      early, and nothing the latest mutation had released. */
  lemma QuietMirrorIsCurrent(states: seq<State>, acts: seq<Act>, offset: real, k: nat)
    requires Trace(states, acts, offset) && k < |states|
    requires forall i :: i in states[k].threads ==> states[k].threads[i] == Idle
    ensures var s := states[k];
      && s.tables != []
      && (forall rid, le :: le in On(s.table, rid) && le.expiresAt > s.clock ==>
           exists m :: m in s.mirror && Matches(m, le) && m.expiresAtEpoch >= le.expiresAt + offset)
      && (forall m :: m in s.mirror ==> StandsFor(m, s.tables[|s.tables| - 1]))
  {
    hide Next, Enabled, Hydrated, Matches, StandsFor;
    TraceKeepsInv(states, acts, offset, k);
    var s := states[k];
    assert s.mirrorRev == Latest(s);
    assert forall rid, le: Lease :: le.expiresAt > s.clock ==> (le in On(s.table, rid) <==> le in On(s.tables[Latest(s)], rid));
  }

  /** A write-through that is owed, the mutex being free, can run to its end; then the
      thread owes nothing and the mirror is the latest mutation's. */
  lemma OwedIsWritten(s: State, i: Id, offset: real) returns (active: seq<Lease>)
    requires s.tables != [] && i in s.threads && s.threads[i] == Owing && forall j :: j in s.threads ==> !HoldsMutex(s.threads[j])
    ensures Enabled(s, Enter(i))
    ensures var entered := Next(s, Enter(i), offset); Enabled(entered, Snapshot(i, active))
    ensures var snapped := Next(Next(s, Enter(i), offset), Snapshot(i, active), offset); Enabled(snapped, Write(i))
    ensures var done := Next(Next(Next(s, Enter(i), offset), Snapshot(i, active), offset), Write(i), offset);
      && done.threads == s.threads[i := Idle] && done.mirrorRev == |s.tables| - 1
      && done.table == s.table && done.tables == s.tables && done.clock == s.clock
      && done.mirror == ToMirrored(active, s.clock, s.clock + offset)
      && Lists(active, s.table, s.clock)
  {
    hide ToMirrored;
    active := Enumerate(set rid, le | rid in s.table && le in s.table[rid] && le.expiresAt > s.clock :: le);
    assert forall le :: le in active <==> le in SetOf(active);
    var entered := Next(s, Enter(i), offset);
    assert entered.threads[i] == Entered(s.clock) && entered.table == s.table;
  }
}
