/** The lease protocol over whole runs, restarts included (api/locking.py,
    api/lock_mirror.py). */
module LeaseRuns {
  import opened Collections
  import opened Locking

  // ---- the mirror's wire form ------------------------------------------------------------

  /** A lease with its expiry on the wall clock. */
  datatype MirroredLease = MirroredLease(resource: Id, mode: LockMode, holder: Id, token: string, intent: LockIntent,
    expiresAtEpoch: real, email: string)

  function MirrorOne(le: Lease, monoNow: real, wallNow: real): MirroredLease {
    MirroredLease(le.resource, le.mode, le.holder, le.token, le.intent, wallNow + (le.expiresAt - monoNow), le.email)
  }

  /** Expired leases are dropped. */
  function ToMirrored(leases: seq<Lease>, monoNow: real, wallNow: real): seq<MirroredLease> {
    if leases == [] then [] else
    var last := leases[|leases| - 1];
    ToMirrored(leases[..|leases| - 1], monoNow, wallNow)
    + if last.expiresAt - monoNow <= 0.0 then [] else [MirrorOne(last, monoNow, wallNow)]
  }

  /** A positive cap bounds the remaining lifetime. */
  function Capped(remaining: real, cap: Option<real>): real {
    if cap.Some? && cap.value > 0.0 && remaining > cap.value then cap.value else remaining
  }

  function RestoreOne(m: MirroredLease, monoNow: real, wallNow: real, cap: Option<real>): Lease {
    Lease(m.resource, m.mode, m.holder, m.token, m.intent, monoNow + Capped(m.expiresAtEpoch - wallNow, cap), m.email)
  }

  function ToLeases(mirrored: seq<MirroredLease>, monoNow: real, wallNow: real, cap: Option<real>): seq<Lease> {
    if mirrored == [] then [] else
    var last := mirrored[|mirrored| - 1];
    ToLeases(mirrored[..|mirrored| - 1], monoNow, wallNow, cap)
    + if last.expiresAtEpoch - wallNow <= 0.0 then [] else [RestoreOne(last, monoNow, wallNow, cap)]
  }

  lemma {:induction false} MirroredExactly(leases: seq<Lease>, monoNow: real, wallNow: real)
    ensures forall m :: m in ToMirrored(leases, monoNow, wallNow) <==>
      exists le :: le in leases && le.expiresAt > monoNow && m == MirrorOne(le, monoNow, wallNow)
  {
    if leases != [] {
      var n := |leases| - 1;
      MirroredExactly(leases[..n], monoNow, wallNow);
      assert forall le :: le in leases <==> le in leases[..n] || le == leases[n];
    }
  }

  lemma {:induction false} LeasesExactly(mirrored: seq<MirroredLease>, monoNow: real, wallNow: real, cap: Option<real>)
    ensures forall le :: le in ToLeases(mirrored, monoNow, wallNow, cap) <==>
      exists m :: m in mirrored && m.expiresAtEpoch > wallNow && le == RestoreOne(m, monoNow, wallNow, cap)
  {
    if mirrored != [] {
      var n := |mirrored| - 1;
      LeasesExactly(mirrored[..n], monoNow, wallNow, cap);
      assert forall m :: m in mirrored <==> m in mirrored[..n] || m == mirrored[n];
    }
  }

  /** A crash and a restart: exactly the leases that outlive the elapsed wall time come
      back, with their own tokens, shortened by that time and by the cap. */
  lemma RestoredExactly(leases: seq<Lease>, mono0: real, wall0: real, mono1: real, wall1: real, cap: Option<real>, back: Lease)
    ensures back in ToLeases(ToMirrored(leases, mono0, wall0), mono1, wall1, cap) <==>
      exists le :: le in leases && le.expiresAt > mono0 && le.expiresAt - mono0 > wall1 - wall0
        && back == le.(expiresAt := mono1 + Capped(le.expiresAt - mono0 - (wall1 - wall0), cap))
  {
    MirroredExactly(leases, mono0, wall0);
    var mirrored := ToMirrored(leases, mono0, wall0);
    LeasesExactly(mirrored, mono1, wall1, cap);
    forall le | le in leases && le.expiresAt > mono0 && le.expiresAt - mono0 > wall1 - wall0
                && back == le.(expiresAt := mono1 + Capped(le.expiresAt - mono0 - (wall1 - wall0), cap))
      ensures back in ToLeases(mirrored, mono1, wall1, cap)
    {
      var m := MirrorOne(le, mono0, wall0);
      assert m in mirrored && back == RestoreOne(m, mono1, wall1, cap);
    }
  }

  /** Under any clocks, a restored lease is live and stays within a positive cap. */
  lemma RestoredWithinCap(mirrored: seq<MirroredLease>, monoNow: real, wallNow: real, cap: Option<real>)
    ensures forall le :: le in ToLeases(mirrored, monoNow, wallNow, cap) ==>
      le.expiresAt > monoNow && (cap.Some? && cap.value > 0.0 ==> le.expiresAt <= monoNow + cap.value)
  {
    LeasesExactly(mirrored, monoNow, wallNow, cap);
  }

  // ---- the invariant -----------------------------------------------------------------------

  /** All exclusive leases of a list have one holder. */
  ghost predicate OneHolder(leases: seq<Lease>) {
    forall a, b :: a in leases && b in leases && a.mode == Exclusive && b.mode == Exclusive ==> a.holder == b.holder
  }

  /** Live or expired: the table never holds two exclusive holders of one resource, so
      no assumption about clocks is needed. */
  ghost predicate Exclusion(t: Table) {
    forall rid :: rid in t ==> OneHolder(t[rid])
  }

  /** A lease lies under its own resource. */
  ghost predicate Keyed(t: Table) {
    forall rid, le :: rid in t && le in t[rid] ==> le.resource == rid
  }

  ghost predicate Within(t: Table, big: Table) {
    forall rid, le :: rid in t && le in t[rid] ==> rid in big && le in big[rid]
  }

  lemma WithinKeeps(t: Table, big: Table)
    requires Exclusion(big) && Keyed(big) && Within(t, big)
    ensures Exclusion(t) && Keyed(t)
  {
  }

  lemma {:induction false} CompactWithin(t: Table, reqs: seq<RequiredLock>, now: real)
    ensures Within(CompactAll(t, reqs, now), t)
  {
    if reqs != [] {
      CompactWithin(t, reqs[..|reqs| - 1], now);
    }
  }

  lemma {:induction false} EvictWithin(t: Table, conflicts: seq<LockConflict>, holder: Id)
    ensures Within(Evict(t, conflicts, holder), t)
  {
    if conflicts != [] {
      EvictWithin(t, conflicts[..|conflicts| - 1], holder);
    }
  }

  lemma {:induction false} EvictedAreOwn(t: Table, conflicts: seq<LockConflict>, holder: Id, rid: Id)
    requires exists c :: c in conflicts && c.resource == rid
    ensures forall le :: le in On(Evict(t, conflicts, holder), rid) ==> le.holder == holder
  {
    var n := |conflicts| - 1;
    if conflicts[n].resource != rid {
      EvictedAreOwn(t, conflicts[..n], holder, rid);
    }
  }

  lemma {:induction false} ConflictsExactly(t: Table, holder: Id, reqs: seq<RequiredLock>, now: real)
    ensures forall req, le :: req in reqs && le in On(t, req.resource) && le.expiresAt > now && Blocks(le, req, holder) ==>
      exists c :: c in Conflicts(t, holder, reqs, now) && c.resource == req.resource
    ensures forall c :: c in Conflicts(t, holder, reqs, now) ==>
      exists req, le :: req in reqs && le in On(t, req.resource) && le.expiresAt > now && Blocks(le, req, holder) && c == ConflictOf(le, req)
  {
    if reqs != [] {
      var n := |reqs| - 1;
      ConflictsExactly(t, holder, reqs[..n], now);
      var c := FirstConflict(Live(On(t, reqs[n].resource), now), reqs[n], holder);
      assert c.Some? ==> c.value in Conflicts(t, holder, reqs, now);
    }
  }

  /** A lease of the resource that a peer holds and that has not expired. */
  predicate PeerLive(t: Table, holder: Id, resource: Id, le: Lease, now: real) {
    resource in t && le in t[resource] && le.holder != holder && le.expiresAt > now
  }

  /** What stops a request: it is exclusive, and means to delete or meets an exclusive
      lease. */
  predicate InTheWay(t: Table, holder: Id, req: RequiredLock, le: Lease, now: real) {
    req.mode == Exclusive && PeerLive(t, holder, req.resource, le, now) && (req.intent == Delete || le.mode == Exclusive)
  }

  /** A request that does not steal is refused exactly when it asks for something
      exclusive to delete where a peer has any live lease, or for something exclusive
      where a peer has a live exclusive one; the conflicts name such leases. */
  lemma RefusedIff(t: Table, holder: Id, reqs: seq<RequiredLock>, now: real)
    ensures Conflicts(t, holder, reqs, now) != [] <==>
      exists req, le :: req in reqs && InTheWay(t, holder, req, le, now)
    ensures forall c :: c in Conflicts(t, holder, reqs, now) ==>
      exists req, le :: req in reqs && InTheWay(t, holder, req, le, now)
        && c.resource == req.resource && c.heldBy == le.holder && c.heldMode == le.mode && c.email == le.email
  {
    hide Conflicts;
    ConflictsExactly(t, holder, reqs, now);
    forall req, le | req in reqs && le in On(t, req.resource) && le.expiresAt > now && Blocks(le, req, holder)
      ensures InTheWay(t, holder, req, le, now)
    {
    }
    var all := Conflicts(t, holder, reqs, now);
    if all != [] {
      assert all[0] in all;
    }
    if req, le :| req in reqs && InTheWay(t, holder, req, le, now) {
      assert le in On(t, req.resource) && Blocks(le, req, holder);
    }
  }

  /** Peers' shared pins do not stop an exclusive edit, connect or create-child: it is
      granted, stealing or not, and every live lease of anyone stays. */
  lemma PinsCoexist(t: Table, holder: Id, reqs: seq<RequiredLock>, now: real, ttl: real, token: string, steal: bool, email: string)
    requires forall req :: req in reqs && req.mode == Exclusive ==> req.intent != Delete
    requires forall req, le :: req in reqs && req.mode == Exclusive && PeerLive(t, holder, req.resource, le, now) ==> le.mode == Shared
    ensures Conflicts(t, holder, reqs, now) == []
    ensures var t' := Acquired(t, holder, reqs, now, ttl, token, steal, email);
      && (forall rid, le :: rid in t && le in t[rid] && le.expiresAt > now ==> rid in t' && le in t'[rid])
      && (forall req :: req in reqs ==>
           req.resource in t' && Lease(req.resource, req.mode, holder, token, req.intent, now + ttl, email) in t'[req.resource])
  {
    hide CompactAll, Grant, Live;
    RefusedIff(t, holder, reqs, now);
    var compact := CompactAll(t, reqs, now);
    forall rid, le | rid in t && le in t[rid] && le.expiresAt > now ensures le in On(compact, rid) {
      CompactionKeepsLive(t, reqs, now, rid);
      assert le in Live(On(t, rid), now) && le in Live(On(compact, rid), now);
    }
    GrantAdds(compact, reqs, holder, token, now + ttl, email);
  }

  /** A grant adds the requested leases and drops none. */
  lemma {:induction false} GrantAdds(t: Table, reqs: seq<RequiredLock>, holder: Id, token: string, expiresAt: real, email: string)
    ensures var t' := Grant(t, reqs, holder, token, expiresAt, email);
      && (forall rid, le :: le in On(t, rid) ==> rid in t' && le in t'[rid])
      && (forall req :: req in reqs ==>
           req.resource in t' && Lease(req.resource, req.mode, holder, token, req.intent, expiresAt, email) in t'[req.resource])
  {
    if reqs != [] {
      var n := |reqs| - 1;
      GrantAdds(t, reqs[..n], holder, token, expiresAt, email);
      assert forall req :: req in reqs ==> req in reqs[..n] || req == reqs[n];
    }
  }

  /** A refused request leaves every live lease, and only live leases, as they were. */
  lemma RefusalChangesNothing(t: Table, holder: Id, reqs: seq<RequiredLock>, now: real, ttl: real, token: string, email: string)
    requires Conflicts(t, holder, reqs, now) != []
    ensures var t' := Acquired(t, holder, reqs, now, ttl, token, false, email);
      && Within(t', t)
      && forall rid :: Live(On(t', rid), now) == Live(On(t, rid), now)
  {
    CompactWithin(t, reqs, now);
    forall rid ensures Live(On(CompactAll(t, reqs, now), rid), now) == Live(On(t, rid), now) {
      CompactionKeepsLive(t, reqs, now, rid);
    }
  }

  /** No other holder has an exclusive lease where an exclusive one is asked for. */
  ghost predicate Cleared(t: Table, holder: Id, reqs: seq<RequiredLock>) {
    forall req, le :: req in reqs && req.mode == Exclusive && le in On(t, req.resource) && le.mode == Exclusive ==> le.holder == holder
  }

  lemma {:induction false} CompactedAreLive(t: Table, reqs: seq<RequiredLock>, now: real)
    ensures forall req, le :: req in reqs && le in On(CompactAll(t, reqs, now), req.resource) ==>
      le.expiresAt > now && le in On(t, req.resource)
  {
    if reqs != [] {
      var n := |reqs| - 1;
      var before := CompactAll(t, reqs[..n], now);
      CompactedAreLive(t, reqs[..n], now);
      CompactWithin(t, reqs[..n], now);
      forall req, le | req in reqs && le in On(CompactAll(t, reqs, now), req.resource)
        ensures le.expiresAt > now && le in On(t, req.resource)
      {
        if req.resource == reqs[n].resource {
          assert le in Live(On(before, req.resource), now);
        } else {
          assert le in On(before, req.resource);
          assert req in reqs[..n];
        }
      }
    }
  }

  lemma ClearedBeforeGrant(t: Table, holder: Id, reqs: seq<RequiredLock>, now: real, steal: bool)
    requires Conflicts(t, holder, reqs, now) == [] || steal
    ensures Cleared(Evict(CompactAll(t, reqs, now), Conflicts(t, holder, reqs, now), holder), holder, reqs)
  {
    hide CompactAll, Evict, Conflicts, FirstConflict, Blocks;
    var all, compact := Conflicts(t, holder, reqs, now), CompactAll(t, reqs, now);
    forall req, le | req in reqs && req.mode == Exclusive && le in On(Evict(compact, all, holder), req.resource) && le.mode == Exclusive
      ensures le.holder == holder
    {
      if exists c :: c in all && c.resource == req.resource {
        EvictedAreOwn(compact, all, holder, req.resource);
      } else {
        EvictWithin(compact, all, holder);
        CompactedAreLive(t, reqs, now);
        NoConflictNoBlock(t, holder, reqs, now, req, le);
      }
    }
  }

  lemma NoConflictNoBlock(t: Table, holder: Id, reqs: seq<RequiredLock>, now: real, req: RequiredLock, le: Lease)
    requires req in reqs && req.mode == Exclusive && forall c :: c in Conflicts(t, holder, reqs, now) ==> c.resource != req.resource
    requires le in On(t, req.resource) && le.expiresAt > now && le.mode == Exclusive
    ensures le.holder == holder
  {
    hide Conflicts;
    ConflictsExactly(t, holder, reqs, now);
  }

  lemma GrantOne(t: Table, req: RequiredLock, lease: Lease)
    requires Exclusion(t) && Keyed(t) && lease.resource == req.resource && lease.mode == req.mode
    requires req.mode == Exclusive ==> forall le :: le in On(t, req.resource) && le.mode == Exclusive ==> le.holder == lease.holder
    ensures var t' := t[req.resource := On(t, req.resource) + [lease]]; Exclusion(t') && Keyed(t')
  {
  }

  lemma {:induction false} GrantKeeps(t: Table, reqs: seq<RequiredLock>, all: seq<RequiredLock>, holder: Id, token: string, expiresAt: real,
      email: string)
    requires Exclusion(t) && Keyed(t) && Cleared(t, holder, all) && reqs <= all
    ensures var t' := Grant(t, reqs, holder, token, expiresAt, email); Exclusion(t') && Keyed(t') && Cleared(t', holder, all)
  {
    hide Exclusion, Keyed;
    if reqs != [] {
      var n := |reqs| - 1;
      assert reqs[..n] <= all && reqs[n] in all;
      GrantKeeps(t, reqs[..n], all, holder, token, expiresAt, email);
      GrantOne(Grant(t, reqs[..n], holder, token, expiresAt, email), reqs[n], LeaseFor(reqs[n], holder, token, expiresAt, email));
    }
  }

  lemma AcquireKeeps(t: Table, holder: Id, reqs: seq<RequiredLock>, now: real, ttl: real, token: string, steal: bool, email: string)
    requires Exclusion(t) && Keyed(t)
    ensures var t' := Acquired(t, holder, reqs, now, ttl, token, steal, email); Exclusion(t') && Keyed(t')
  {
    hide CompactAll, Evict, Conflicts, Grant, Exclusion, Keyed, Within, Cleared;
    var all, compact := Conflicts(t, holder, reqs, now), CompactAll(t, reqs, now);
    CompactWithin(t, reqs, now);
    WithinKeeps(compact, t);
    if all == [] || steal {
      ClearedBeforeGrant(t, holder, reqs, now, steal);
      EvictWithin(compact, all, holder);
      WithinKeeps(Evict(compact, all, holder), compact);
      GrantKeeps(Evict(compact, all, holder), reqs, reqs, holder, token, now + ttl, email);
    }
  }

  lemma RenewKeeps(t: Table, holder: Id, token: string, now: real, ttl: real)
    requires Exclusion(t) && Keyed(t)
    ensures var t' := Renewed(t, holder, token, now, ttl); Exclusion(t') && Keyed(t')
  {
    var t' := Renewed(t, holder, token, now, ttl);
    forall rid, le: Lease | rid in t' && le in t'[rid]
      ensures exists was: Lease :: was in t[rid] && was.mode == le.mode && was.holder == le.holder && was.resource == le.resource
    {
      var i :| 0 <= i < |t'[rid]| && t'[rid][i] == le;
      assert t[rid][i] in t[rid];
    }
  }

  /** Renewing moves the expiry of the holder's live leases under the token and of no
      other lease: nothing expired comes back to life. */
  lemma RenewNeverRevives(t: Table, holder: Id, token: string, now: real, ttl: real, rid: Id, i: nat)
    requires rid in t && i < |t[rid]|
    ensures var was, after := t[rid][i], Renewed(t, holder, token, now, ttl)[rid][i];
      && (was.holder == holder && was.token == token && was.expiresAt > now ==> after == was.(expiresAt := now + ttl))
      && (was.holder != holder || was.token != token || was.expiresAt <= now ==> after == was)
      && (after.expiresAt > now ==> was.expiresAt > now)
  {
  }

  /** A release takes the holder's leases under the token and no other lease. */
  lemma ReleasedExactly(t: Table, holder: Id, token: string)
    ensures forall rid, le :: le in On(Released(t, holder, token), rid) <==> le in On(t, rid) && !(le.holder == holder && le.token == token)
  {
  }

  // ---- runs ------------------------------------------------------------------------------------

  datatype Event =
    | Acquire(holder: Id, reqs: seq<RequiredLock>, now: real, ttl: real, token: string, steal: bool, email: string)
    | Release(holder: Id, token: string)
    | Renew(holder: Id, token: string, now: real, ttl: real)
    | Verify(reqs: seq<RequiredLock>, now: real)
    | Sweep(now: real)
    | WriteThrough(active: seq<Lease>, monoNow: real, wallNow: real)
    | Restart(snapshot: nat, monoNow: real, wallNow: real, cap: Option<real>)
    | ColdStart

  /** The table and every set of leases the mirror ever held. */
  datatype World = World(table: Table, snapshots: seq<seq<MirroredLease>>)

  /** A write-through lists live leases; a restart reads some snapshot, the latest or not. */
  ghost predicate Possible(w: World, e: Event) {
    match e
    case WriteThrough(active, monoNow, _) => forall le :: le in active ==> IsLive(w.table, le, monoNow)
    case Restart(snapshot, _, _, _) => snapshot < |w.snapshots|
    case _ => true
  }

  function Step(w: World, e: Event): World {
    match e
    case Acquire(holder, reqs, now, ttl, token, steal, email) =>
      w.(table := Acquired(w.table, holder, reqs, now, ttl, token, steal, email))
    case Release(holder, token) => w.(table := Released(w.table, holder, token))
    case Renew(holder, token, now, ttl) => w.(table := Renewed(w.table, holder, token, now, ttl))
    case Verify(reqs, now) => w.(table := CompactAll(w.table, reqs, now))
    case Sweep(now) => w.(table := Swept(w.table, now))
    case WriteThrough(active, monoNow, wallNow) => w.(snapshots := w.snapshots + [ToMirrored(active, monoNow, wallNow)])
    case Restart(snapshot, monoNow, wallNow, cap) =>
      if snapshot < |w.snapshots| then w.(table := Seeded(map[], ToLeases(w.snapshots[snapshot], monoNow, wallNow, cap))) else w
    case ColdStart => w.(table := map[])
  }

  function Run(w: World, events: seq<Event>): World {
    if events == [] then w else Step(Run(w, events[..|events| - 1]), events[|events| - 1])
  }

  ghost predicate PossibleRun(w: World, events: seq<Event>) {
    events != [] ==>
      PossibleRun(w, events[..|events| - 1]) && Possible(Run(w, events[..|events| - 1]), events[|events| - 1])
  }

  ghost predicate SnapshotExclusion(s: seq<MirroredLease>) {
    forall a, b :: a in s && b in s && a.resource == b.resource && a.mode == Exclusive && b.mode == Exclusive ==> a.holder == b.holder
  }

  ghost predicate Safe(w: World) {
    Exclusion(w.table) && Keyed(w.table) && forall i :: 0 <= i < |w.snapshots| ==> SnapshotExclusion(w.snapshots[i])
  }

  ghost predicate ListExclusion(leases: seq<Lease>) {
    forall a, b :: a in leases && b in leases && a.resource == b.resource && a.mode == Exclusive && b.mode == Exclusive ==> a.holder == b.holder
  }

  lemma SnapshotIsExclusive(t: Table, active: seq<Lease>, monoNow: real, wallNow: real)
    requires Exclusion(t) && Keyed(t) && forall le :: le in active ==> IsLive(t, le, monoNow)
    ensures SnapshotExclusion(ToMirrored(active, monoNow, wallNow))
  {
    MirroredExactly(active, monoNow, wallNow);
    var s := ToMirrored(active, monoNow, wallNow);
    forall a, b | a in s && b in s && a.resource == b.resource && a.mode == Exclusive && b.mode == Exclusive ensures a.holder == b.holder {
      var x :| x in active && x.expiresAt > monoNow && a == MirrorOne(x, monoNow, wallNow);
      var y :| y in active && y.expiresAt > monoNow && b == MirrorOne(y, monoNow, wallNow);
      assert OneHolder(t[x.resource]);
    }
  }

  lemma RestoredIsExclusive(s: seq<MirroredLease>, monoNow: real, wallNow: real, cap: Option<real>)
    requires SnapshotExclusion(s)
    ensures ListExclusion(ToLeases(s, monoNow, wallNow, cap))
  {
    LeasesExactly(s, monoNow, wallNow, cap);
  }

  lemma {:induction false} SeedExactly(leases: seq<Lease>)
    ensures forall rid, le :: le in On(Seeded(map[], leases), rid) <==> le in leases && le.resource == rid
  {
    if leases != [] {
      var n := |leases| - 1;
      SeedExactly(leases[..n]);
      var before := Seeded(map[], leases[..n]);
      var last := leases[n];
      forall rid, le ensures le in On(Seeded(map[], leases), rid) <==> le in leases && le.resource == rid {
        assert le in leases <==> le in leases[..n] || le == last;
        assert On(Seeded(map[], leases), rid) == if rid == last.resource then On(before, rid) + [last] else On(before, rid);
      }
    }
  }

  lemma SeedKeeps(leases: seq<Lease>)
    requires ListExclusion(leases)
    ensures Exclusion(Seeded(map[], leases)) && Keyed(Seeded(map[], leases))
  {
    SeedExactly(leases);
    var t := Seeded(map[], leases);
    assert forall rid, le :: rid in t && le in t[rid] ==> le in On(t, rid);
  }

  lemma StepKeepsSafe(w: World, e: Event)
    requires Safe(w) && Possible(w, e)
    ensures Safe(Step(w, e))
  {
    hide Exclusion, Keyed, SnapshotExclusion, Acquired, CompactAll, Within, ToMirrored, ToLeases, Seeded;
    match e
    case Acquire(holder, reqs, now, ttl, token, steal, email) => AcquireKeeps(w.table, holder, reqs, now, ttl, token, steal, email);
    case Release(holder, token) =>
      ReleaseWithin(w.table, holder, token);
      WithinKeeps(Released(w.table, holder, token), w.table);
    case Renew(holder, token, now, ttl) => RenewKeeps(w.table, holder, token, now, ttl);
    case Verify(reqs, now) =>
      CompactWithin(w.table, reqs, now);
      WithinKeeps(CompactAll(w.table, reqs, now), w.table);
    case Sweep(now) =>
      SweepWithin(w.table, now);
      WithinKeeps(Swept(w.table, now), w.table);
    case WriteThrough(active, monoNow, wallNow) => SnapshotIsExclusive(w.table, active, monoNow, wallNow);
    case Restart(snapshot, monoNow, wallNow, cap) =>
      RestoredIsExclusive(w.snapshots[snapshot], monoNow, wallNow, cap);
      SeedKeeps(ToLeases(w.snapshots[snapshot], monoNow, wallNow, cap));
    case ColdStart => EmptyIsSafe();
  }

  lemma ReleaseWithin(t: Table, holder: Id, token: string)
    ensures Within(Released(t, holder, token), t)
  {
  }

  lemma SweepWithin(t: Table, now: real)
    ensures Within(Swept(t, now), t)
  {
  }

  lemma EmptyIsSafe()
    ensures Exclusion(map[]) && Keyed(map[])
  {
  }

  /** Mutual exclusion over whole runs: whatever is acquired, stolen, released, renewed,
      verified, swept, mirrored and restored, under any clocks, the exclusive leases on
      a resource have one holder at every moment. */
  lemma {:induction false} RunKeepsExclusion(events: seq<Event>)
    requires PossibleRun(World(map[], []), events)
    ensures Safe(Run(World(map[], []), events))
    ensures forall rid :: OneHolder(On(Run(World(map[], []), events).table, rid))
  {
    hide Step, Possible;
    EmptyIsSafe();
    if events != [] {
      RunKeepsExclusion(events[..|events| - 1]);
      StepKeepsSafe(Run(World(map[], []), events[..|events| - 1]), events[|events| - 1]);
    }
  }

  // ---- what holding a lock is worth -----------------------------------------------------------------

  /** A check passes on the holder's own live lease under one of the tokens, exclusive
      when the lock is. */
  lemma HeldMeans(t: Table, holder: Id, tokens: seq<string>, req: RequiredLock, now: real)
    ensures Held(t, holder, tokens, req, now) <==>
      exists le :: le in On(t, req.resource) && Passes(le, holder, tokens, req.mode, now)
  {
    forall le ensures Passes(le, holder, tokens, req.mode, now) <==> le.expiresAt > now && Covers(le, holder, tokens, req) {
    }
  }

  predicate Passes(le: Lease, holder: Id, tokens: seq<string>, mode: LockMode, now: real) {
    && le.expiresAt > now && le.holder == holder && le.token in tokens
    && (mode == Exclusive ==> le.mode == Exclusive)
  }

  /** Two holders cannot both hold an exclusive lock on one resource. */
  lemma HeldExcludes(t: Table, a: Id, aTokens: seq<string>, x: RequiredLock, b: Id, bTokens: seq<string>, y: RequiredLock, now: real)
    requires Exclusion(t) && x.resource == y.resource && x.mode == Exclusive && y.mode == Exclusive
    requires Held(t, a, aTokens, x, now) && Held(t, b, bTokens, y, now)
    ensures a == b
  {
  }

  lemma {:induction false} GrantAddsOwn(t: Table, reqs: seq<RequiredLock>, holder: Id, token: string, expiresAt: real, email: string)
    ensures forall rid, le :: le in On(Grant(t, reqs, holder, token, expiresAt, email), rid) ==> le in On(t, rid) || le.holder == holder
  {
    if reqs != [] {
      GrantAddsOwn(t, reqs[..|reqs| - 1], holder, token, expiresAt, email);
    }
  }

  lemma {:induction false} EvictSpares(t: Table, conflicts: seq<LockConflict>, holder: Id, rid: Id)
    requires forall c :: c in conflicts ==> c.resource != rid
    ensures On(Evict(t, conflicts, holder), rid) == On(t, rid)
  {
    if conflicts != [] {
      EvictSpares(t, conflicts[..|conflicts| - 1], holder, rid);
    }
  }

  /** A steal takes the contested resources whole and leaves every live lease on any
      other resource, a peer's pins included. */
  lemma StealTakesOnlyContested(t: Table, holder: Id, reqs: seq<RequiredLock>, now: real, ttl: real, token: string, email: string, rid: Id)
    ensures var after := On(Acquired(t, holder, reqs, now, ttl, token, true, email), rid);
      if exists c :: c in Conflicts(t, holder, reqs, now) && c.resource == rid
      then forall le :: le in after ==> le.holder == holder
      else forall le :: le in On(t, rid) && le.expiresAt > now ==> le in after
  {
    hide CompactAll, Evict, Conflicts, Grant;
    var all, compact := Conflicts(t, holder, reqs, now), CompactAll(t, reqs, now);
    GrantAddsOwn(Evict(compact, all, holder), reqs, holder, token, now + ttl, email);
    GrantAdds(Evict(compact, all, holder), reqs, holder, token, now + ttl, email);
    if exists c :: c in all && c.resource == rid {
      EvictedAreOwn(compact, all, holder, rid);
    } else {
      EvictSpares(compact, all, holder, rid);
      CompactionKeepsLive(t, reqs, now, rid);
      assert forall le :: le in On(t, rid) && le.expiresAt > now ==> le in Live(On(t, rid), now);
    }
  }

  /** What is granted verifies until it expires. */
  lemma AcquiredIsHeld(t: Table, holder: Id, reqs: seq<RequiredLock>, now: real, ttl: real, token: string, steal: bool, email: string,
      req: RequiredLock, at: real)
    requires Conflicts(t, holder, reqs, now) == [] || steal
    requires req in reqs && at < now + ttl
    ensures Held(Acquired(t, holder, reqs, now, ttl, token, steal, email), holder, [token], req, at)
  {
    var before := Evict(CompactAll(t, reqs, now), Conflicts(t, holder, reqs, now), holder);
    GrantAdds(before, reqs, holder, token, now + ttl, email);
    assert Covers(LeaseFor(req, holder, token, now + ttl, email), holder, [token], req);
  }
}
