/** The lease table (api/locking.py): shared and exclusive leases with a time to live,
    stealing, renewal and sweeping. A lease is a value here; its expiry is changed by
    replacing it. */
module Locking {
  import opened Collections

  datatype LockMode = Shared | Exclusive

  datatype LockIntent = Edit | Delete | Connect | CreateChild

  datatype RequiredLock = RequiredLock(resource: Id, mode: LockMode, intent: LockIntent)

  datatype Lease = Lease(resource: Id, mode: LockMode, holder: Id, token: string, intent: LockIntent, expiresAt: real, email: string)

  datatype LockConflict = LockConflict(resource: Id, heldBy: Id, heldMode: LockMode, email: string)

  type Table = map<Id, seq<Lease>>

  function On(t: Table, rid: Id): seq<Lease> {
    GetOr(t, rid, [])
  }

  /** The table without empty entries. */
  function Put(t: Table, rid: Id, leases: seq<Lease>): Table {
    if leases == [] then t - {rid} else t[rid := leases]
  }

  function Live(leases: seq<Lease>, now: real): (r: seq<Lease>)
    ensures forall le :: le in r <==> le in leases && le.expiresAt > now
  {
    if leases == [] then [] else
    var last := leases[|leases| - 1];
    var rest := Live(leases[..|leases| - 1], now);
    assert forall le :: le in leases <==> le in leases[..|leases| - 1] || le == last;
    if last.expiresAt > now then rest + [last] else rest
  }

  lemma {:induction false} LiveTwice(leases: seq<Lease>, now: real)
    ensures Live(Live(leases, now), now) == Live(leases, now)
  {
    if leases != [] {
      var last := leases[|leases| - 1];
      var rest := Live(leases[..|leases| - 1], now);
      LiveTwice(leases[..|leases| - 1], now);
      assert last.expiresAt > now ==> (rest + [last])[..|rest|] == rest;
    }
  }

  function Compact(t: Table, rid: Id, now: real): Table {
    Put(t, rid, Live(On(t, rid), now))
  }

  function CompactAll(t: Table, reqs: seq<RequiredLock>, now: real): Table {
    if reqs == [] then t else Compact(CompactAll(t, reqs[..|reqs| - 1], now), reqs[|reqs| - 1].resource, now)
  }

  // ---- the conflict matrix ----------------------------------------------------------------

  /** A peer's lease stands in the way of an exclusive request when the request means to
      delete or the lease is exclusive. */
  predicate Blocks(le: Lease, req: RequiredLock, holder: Id) {
    && le.holder != holder && req.mode == Exclusive
    && (req.intent == Delete || le.mode == Exclusive)
  }

  function ConflictOf(le: Lease, req: RequiredLock): LockConflict {
    LockConflict(req.resource, le.holder, le.mode, le.email)
  }

  /** The first blocking lease, in table order. */
  function FirstConflict(leases: seq<Lease>, req: RequiredLock, holder: Id): (r: Option<LockConflict>)
    ensures r.None? <==> forall le :: le in leases ==> !Blocks(le, req, holder)
    ensures r.Some? ==> exists le :: le in leases && Blocks(le, req, holder) && r.value == ConflictOf(le, req)
  {
    if leases == [] then None
    else if Blocks(leases[0], req, holder) then Some(ConflictOf(leases[0], req))
    else
      assert forall le :: le in leases <==> le == leases[0] || le in leases[1..];
      FirstConflict(leases[1..], req, holder)
  }

  function Conflicts(t: Table, holder: Id, reqs: seq<RequiredLock>, now: real): seq<LockConflict> {
    if reqs == [] then [] else
    var last := reqs[|reqs| - 1];
    var c := FirstConflict(Live(On(t, last.resource), now), last, holder);
    Conflicts(t, holder, reqs[..|reqs| - 1], now) + if c.Some? then [c.value] else []
  }

  // ---- the operations, as functions ----------------------------------------------------------

  function Own(leases: seq<Lease>, holder: Id): (r: seq<Lease>)
    ensures forall le :: le in r <==> le in leases && le.holder == holder
  {
    if leases == [] then [] else
    var last := leases[|leases| - 1];
    var rest := Own(leases[..|leases| - 1], holder);
    assert forall le :: le in leases <==> le in leases[..|leases| - 1] || le == last;
    if last.holder == holder then rest + [last] else rest
  }

  /** Stealing keeps only the thief's own leases on the contested resources. */
  function Evict(t: Table, conflicts: seq<LockConflict>, holder: Id): Table {
    if conflicts == [] then t else
    var rid := conflicts[|conflicts| - 1].resource;
    var before := Evict(t, conflicts[..|conflicts| - 1], holder);
    before[rid := Own(On(before, rid), holder)]
  }

  function Grant(t: Table, reqs: seq<RequiredLock>, holder: Id, token: string, expiresAt: real, email: string): Table {
    if reqs == [] then t else
    var req := reqs[|reqs| - 1];
    var before := Grant(t, reqs[..|reqs| - 1], holder, token, expiresAt, email);
    before[req.resource := On(before, req.resource) + [LeaseFor(req, holder, token, expiresAt, email)]]
  }

  function LeaseFor(req: RequiredLock, holder: Id, token: string, expiresAt: real, email: string): Lease {
    Lease(req.resource, req.mode, holder, token, req.intent, expiresAt, email)
  }

  function Acquired(t: Table, holder: Id, reqs: seq<RequiredLock>, now: real, ttl: real, token: string, steal: bool, email: string): Table {
    var conflicts := Conflicts(t, holder, reqs, now);
    var compact := CompactAll(t, reqs, now);
    if conflicts != [] && !steal then compact
    else Grant(Evict(compact, conflicts, holder), reqs, holder, token, now + ttl, email)
  }

  predicate Carries(le: Lease, holder: Id, token: string) {
    le.token == token && le.holder == holder
  }

  function Dropping(leases: seq<Lease>, holder: Id, token: string): (r: seq<Lease>)
    ensures forall le :: le in r <==> le in leases && !Carries(le, holder, token)
  {
    if leases == [] then [] else
    var last := leases[|leases| - 1];
    var rest := Dropping(leases[..|leases| - 1], holder, token);
    assert forall le :: le in leases <==> le in leases[..|leases| - 1] || le == last;
    if Carries(last, holder, token) then rest else rest + [last]
  }

  function Released(t: Table, holder: Id, token: string): Table {
    map rid | rid in t && Dropping(t[rid], holder, token) != [] :: Dropping(t[rid], holder, token)
  }

  function RenewOne(le: Lease, holder: Id, token: string, now: real, ttl: real): Lease {
    if Carries(le, holder, token) && le.expiresAt > now then le.(expiresAt := now + ttl) else le
  }

  function RenewEach(leases: seq<Lease>, holder: Id, token: string, now: real, ttl: real): seq<Lease> {
    seq(|leases|, i requires 0 <= i < |leases| => RenewOne(leases[i], holder, token, now, ttl))
  }

  function Renewed(t: Table, holder: Id, token: string, now: real, ttl: real): Table {
    map rid | rid in t :: RenewEach(t[rid], holder, token, now, ttl)
  }

  function Swept(t: Table, now: real): Table {
    map rid | rid in t && Live(t[rid], now) != [] :: Live(t[rid], now)
  }

  function Seeded(t: Table, leases: seq<Lease>): Table {
    if leases == [] then t else
    var last := leases[|leases| - 1];
    var before := Seeded(t, leases[..|leases| - 1]);
    before[last.resource := On(before, last.resource) + [last]]
  }

  /** A required lock is held by a live lease of the holder under one of the tokens. */
  predicate Covers(le: Lease, holder: Id, tokens: seq<string>, req: RequiredLock) {
    le.holder == holder && le.token in tokens && (req.mode == Shared || le.mode == Exclusive)
  }

  ghost predicate Held(t: Table, holder: Id, tokens: seq<string>, req: RequiredLock, now: real) {
    exists le :: le in On(t, req.resource) && le.expiresAt > now && Covers(le, holder, tokens, req)
  }

  ghost predicate IsLive(t: Table, le: Lease, now: real) {
    le in On(t, le.resource) && le.expiresAt > now
  }

  // ---- the table ---------------------------------------------------------------------------

  class LockTable {
    var byResource: Table

    constructor ()
      ensures byResource == map[]
    {
      byResource := map[];
    }

    method LiveOn(rid: Id, now: real) returns (leases: seq<Lease>)
      modifies this
      ensures leases == Live(On(old(byResource), rid), now)
      ensures byResource == Compact(old(byResource), rid, now)
    {
      leases := Live(On(byResource, rid), now);
      if leases != [] {
        byResource := byResource[rid := leases];
      } else {
        byResource := byResource - {rid};
      }
    }

    method Conflict(req: RequiredLock, holder: Id, now: real) returns (c: Option<LockConflict>)
      modifies this
      ensures c == FirstConflict(Live(On(old(byResource), req.resource), now), req, holder)
      ensures byResource == Compact(old(byResource), req.resource, now)
    {
      var leases := LiveOn(req.resource, now);
      for i := 0 to |leases|
        invariant FirstConflict(leases, req, holder) == FirstConflict(leases[i..], req, holder)
      {
        var le := leases[i];
        assert leases[i..][1..] == leases[i + 1..];
        if le.holder == holder {
          continue;
        }
        if req.mode == Shared {
          continue;
        }
        if req.intent == Delete {
          return Some(ConflictOf(le, req));
        }
        if le.mode == Exclusive {
          return Some(ConflictOf(le, req));
        }
      }
      c := None;
    }

    /** Every request is checked before anything is granted. */
    method FindConflicts(holder: Id, reqs: seq<RequiredLock>, now: real) returns (conflicts: seq<LockConflict>)
      modifies this
      ensures conflicts == Conflicts(old(byResource), holder, reqs, now)
      ensures byResource == CompactAll(old(byResource), reqs, now)
    {
      hide FirstConflict, Live, Compact;
      conflicts := [];
      for i := 0 to |reqs|
        invariant byResource == CompactAll(old(byResource), reqs[..i], now)
        invariant conflicts == Conflicts(old(byResource), holder, reqs[..i], now)
      {
        assert reqs[..i + 1][..i] == reqs[..i];
        CompactionKeepsLive(old(byResource), reqs[..i], now, reqs[i].resource);
        var c := Conflict(reqs[i], holder, now);
        if c.Some? {
          conflicts := conflicts + [c.value];
        }
      }
      assert reqs[..|reqs|] == reqs;
    }

    method EvictOthers(conflicts: seq<LockConflict>, holder: Id)
      modifies this
      ensures byResource == Evict(old(byResource), conflicts, holder)
    {
      for i := 0 to |conflicts|
        invariant byResource == Evict(old(byResource), conflicts[..i], holder)
      {
        assert conflicts[..i + 1][..i] == conflicts[..i];
        byResource := byResource[conflicts[i].resource := Own(On(byResource, conflicts[i].resource), holder)];
      }
      assert conflicts[..|conflicts|] == conflicts;
    }

    method GrantAll(reqs: seq<RequiredLock>, holder: Id, token: string, expiresAt: real, email: string) returns (granted: seq<Lease>)
      modifies this
      ensures byResource == Grant(old(byResource), reqs, holder, token, expiresAt, email)
      ensures |granted| == |reqs| && forall i :: 0 <= i < |reqs| ==> granted[i] == LeaseFor(reqs[i], holder, token, expiresAt, email)
    {
      granted := [];
      for i := 0 to |reqs|
        invariant |granted| == i
        invariant forall j :: 0 <= j < i ==> granted[j] == LeaseFor(reqs[j], holder, token, expiresAt, email)
        invariant byResource == Grant(old(byResource), reqs[..i], holder, token, expiresAt, email)
      {
        assert reqs[..i + 1][..i] == reqs[..i];
        var lease := LeaseFor(reqs[i], holder, token, expiresAt, email);
        byResource := byResource[reqs[i].resource := On(byResource, reqs[i].resource) + [lease]];
        granted := granted + [lease];
      }
      assert reqs[..|reqs|] == reqs;
    }

    /** A refusal grants nothing; stealing never refuses. `freshToken` is the token to
        use when the caller brings none. */
    method Acquire(holder: Id, reqs: seq<RequiredLock>, now: real, ttl: real, token: Option<string>, freshToken: string, steal: bool,
        email: string)
      returns (used: string, granted: seq<Lease>, conflicts: seq<LockConflict>)
      modifies this
      ensures var all := Conflicts(old(byResource), holder, reqs, now);
        if all != [] && !steal then used == "" && granted == [] && conflicts == all
        else
          && used == TokenFor(token, freshToken) && conflicts == [] && |granted| == |reqs|
          && forall i :: 0 <= i < |reqs| ==> granted[i] == LeaseFor(reqs[i], holder, used, now + ttl, email)
      ensures byResource == Acquired(old(byResource), holder, reqs, now, ttl, TokenFor(token, freshToken), steal, email)
    {
      hide Conflicts, CompactAll, Evict, Grant;
      conflicts := FindConflicts(holder, reqs, now);
      if conflicts != [] && !steal {
        return "", [], conflicts;
      }
      NoEviction(byResource, holder);
      if steal {
        EvictOthers(conflicts, holder);
      }
      used := TokenFor(token, freshToken);
      granted := GrantAll(reqs, holder, used, now + ttl, email);
      conflicts := [];
    }

    method Release(holder: Id, token: string) returns (released: seq<Lease>)
      modifies this
      ensures byResource == Released(old(byResource), holder, token)
      ensures forall le :: le in released <==>
        exists rid :: rid in old(byResource) && le in old(byResource)[rid] && Carries(le, holder, token)
    {
      released := [];
      var todo := byResource.Keys;
      while todo != {}
        invariant todo <= old(byResource).Keys
        invariant forall rid :: rid in todo ==> rid in byResource && byResource[rid] == old(byResource)[rid]
        invariant forall rid :: rid !in todo ==> (rid in byResource <==> rid in Released(old(byResource), holder, token))
        invariant forall rid :: rid !in todo && rid in byResource ==> byResource[rid] == Released(old(byResource), holder, token)[rid]
        invariant forall le :: le in released <==>
          exists rid :: rid in old(byResource) && rid !in todo && le in old(byResource)[rid] && Carries(le, holder, token)
      {
        var rid :| rid in todo;
        todo := todo - {rid};
        var keep, gone := Drop(byResource[rid], holder, token);
        released := released + gone;
        byResource := if keep != [] then byResource[rid := keep] else byResource - {rid};
      }
    }

    method Renew(holder: Id, token: string, now: real, ttl: real) returns (renewed: bool)
      modifies this
      ensures byResource == Renewed(old(byResource), holder, token, now, ttl)
      ensures renewed <==>
        exists rid, le :: rid in old(byResource) && le in old(byResource)[rid] && Carries(le, holder, token) && le.expiresAt > now
    {
      renewed := false;
      ghost var was := byResource;
      var todo := byResource.Keys;
      while todo != {}
        invariant todo <= was.Keys && byResource.Keys == was.Keys
        invariant forall rid :: rid in was ==>
          byResource[rid] == if rid in todo then was[rid] else RenewEach(was[rid], holder, token, now, ttl)
        invariant renewed <==>
          exists rid, le :: rid in was && rid !in todo && le in was[rid] && Carries(le, holder, token) && le.expiresAt > now
      {
        var rid :| rid in todo;
        todo := todo - {rid};
        var before, leases := byResource[rid], byResource[rid];
        ghost var had := renewed;
        for i := 0 to |before|
          invariant |leases| == |before|
          invariant forall j :: 0 <= j < i ==> leases[j] == RenewOne(before[j], holder, token, now, ttl)
          invariant forall j :: i <= j < |before| ==> leases[j] == before[j]
          invariant renewed <==> had || exists j :: 0 <= j < i && Carries(before[j], holder, token) && before[j].expiresAt > now
        {
          if Carries(leases[i], holder, token) && leases[i].expiresAt > now {
            leases := leases[i := leases[i].(expiresAt := now + ttl)];
            renewed := true;
          }
        }
        assert leases == RenewEach(was[rid], holder, token, now, ttl);
        byResource := byResource[rid := leases];
      }
    }

    /** The required locks that are not held; expired leases are compacted away. */
    method VerifyHeld(holder: Id, tokens: seq<string>, reqs: seq<RequiredLock>, now: real) returns (missing: seq<RequiredLock>)
      modifies this
      ensures forall req :: req in missing <==> req in reqs && !Held(old(byResource), holder, tokens, req, now)
      ensures byResource == CompactAll(old(byResource), reqs, now)
    {
      missing := [];
      for i := 0 to |reqs|
        invariant byResource == CompactAll(old(byResource), reqs[..i], now)
        invariant forall req :: req in missing <==> req in reqs[..i] && !Held(old(byResource), holder, tokens, req, now)
      {
        var req := reqs[i];
        assert reqs[..i + 1][..i] == reqs[..i];
        CompactionKeepsLive(old(byResource), reqs[..i], now, req.resource);
        var live := LiveOn(req.resource, now);
        var held := AnyCovers(live, holder, tokens, req);
        assert held <==> Held(old(byResource), holder, tokens, req, now);
        if !held {
          missing := missing + [req];
        }
      }
      assert reqs[..|reqs|] == reqs;
    }

    method SweepExpired(now: real) returns (expired: seq<Lease>)
      modifies this
      ensures byResource == Swept(old(byResource), now)
      ensures forall le :: le in expired <==> exists rid :: rid in old(byResource) && le in old(byResource)[rid] && le.expiresAt <= now
    {
      expired := [];
      var todo := byResource.Keys;
      while todo != {}
        invariant todo <= old(byResource).Keys
        invariant forall rid :: rid in todo ==> rid in byResource && byResource[rid] == old(byResource)[rid]
        invariant forall rid :: rid !in todo ==> (rid in byResource <==> rid in Swept(old(byResource), now))
        invariant forall rid :: rid !in todo && rid in byResource ==> byResource[rid] == Swept(old(byResource), now)[rid]
        invariant forall le :: le in expired <==>
          exists rid :: rid in old(byResource) && rid !in todo && le in old(byResource)[rid] && le.expiresAt <= now
      {
        var rid :| rid in todo;
        todo := todo - {rid};
        var keep, gone := SplitExpired(byResource[rid], now);
        expired := expired + gone;
        byResource := if keep != [] then byResource[rid := keep] else byResource - {rid};
      }
    }

    /** A pure read. */
    method ActiveLeases(now: real) returns (leases: seq<Lease>)
      ensures forall le :: le in leases <==> exists rid :: rid in byResource && le in byResource[rid] && le.expiresAt > now
    {
      leases := [];
      var todo := byResource.Keys;
      while todo != {}
        invariant todo <= byResource.Keys
        invariant forall le :: le in leases <==>
          exists rid :: rid in byResource && rid !in todo && le in byResource[rid] && le.expiresAt > now
      {
        var rid :| rid in todo;
        todo := todo - {rid};
        leases := leases + Live(byResource[rid], now);
      }
    }

    /** The peers editing any of the resources. */
    method PeerLeases(resources: set<Id>, holder: Id, now: real) returns (peers: seq<Lease>)
      ensures forall le :: le in peers <==>
        && le.resource in resources && le.holder != holder
        && exists rid :: rid in byResource && le in byResource[rid] && le.expiresAt > now
    {
      var active := ActiveLeases(now);
      peers := [];
      for i := 0 to |active|
        invariant forall le :: le in peers <==> le in active[..i] && le.resource in resources && le.holder != holder
      {
        assert active[..i + 1] == active[..i] + [active[i]];
        if active[i].resource in resources && active[i].holder != holder {
          peers := peers + [active[i]];
        }
      }
      assert active[..|active|] == active;
    }

    method Seed(leases: seq<Lease>)
      modifies this
      ensures byResource == Seeded(old(byResource), leases)
    {
      for i := 0 to |leases|
        invariant byResource == Seeded(old(byResource), leases[..i])
      {
        assert leases[..i + 1][..i] == leases[..i];
        byResource := byResource[leases[i].resource := On(byResource, leases[i].resource) + [leases[i]]];
      }
      assert leases[..|leases|] == leases;
    }
  }

  function TokenFor(token: Option<string>, freshToken: string): string {
    if token.GetOr("") != "" then token.value else freshToken
  }

  lemma NoEviction(t: Table, holder: Id)
    ensures Evict(t, [], holder) == t
  {
  }

  method Drop(leases: seq<Lease>, holder: Id, token: string) returns (keep: seq<Lease>, gone: seq<Lease>)
    ensures keep == Dropping(leases, holder, token)
    ensures forall le :: le in gone <==> le in leases && Carries(le, holder, token)
  {
    keep, gone := [], [];
    for i := 0 to |leases|
      invariant keep == Dropping(leases[..i], holder, token)
      invariant forall le :: le in gone <==> le in leases[..i] && Carries(le, holder, token)
    {
      assert leases[..i + 1][..i] == leases[..i];
      if Carries(leases[i], holder, token) {
        gone := gone + [leases[i]];
      } else {
        keep := keep + [leases[i]];
      }
    }
    assert leases[..|leases|] == leases;
  }

  method SplitExpired(leases: seq<Lease>, now: real) returns (keep: seq<Lease>, gone: seq<Lease>)
    ensures keep == Live(leases, now)
    ensures forall le :: le in gone <==> le in leases && le.expiresAt <= now
  {
    keep, gone := [], [];
    for i := 0 to |leases|
      invariant keep == Live(leases[..i], now)
      invariant forall le :: le in gone <==> le in leases[..i] && le.expiresAt <= now
    {
      assert leases[..i + 1][..i] == leases[..i];
      if leases[i].expiresAt > now {
        keep := keep + [leases[i]];
      } else {
        gone := gone + [leases[i]];
      }
    }
    assert leases[..|leases|] == leases;
  }

  method AnyCovers(live: seq<Lease>, holder: Id, tokens: seq<string>, req: RequiredLock) returns (held: bool)
    ensures held <==> exists le :: le in live && Covers(le, holder, tokens, req)
  {
    for j := 0 to |live|
      invariant forall k :: 0 <= k < j ==> !Covers(live[k], holder, tokens, req)
    {
      var le := live[j];
      if le.holder != holder || le.token !in tokens {
        continue;
      }
      if req.mode == Shared || le.mode == Exclusive {
        assert Covers(le, holder, tokens, req);
        return true;
      }
    }
    held := false;
  }

  /** Compaction drops expired leases only. */
  lemma {:induction false} CompactionKeepsLive(t: Table, reqs: seq<RequiredLock>, now: real, rid: Id)
    ensures Live(On(CompactAll(t, reqs, now), rid), now) == Live(On(t, rid), now)
  {
    if reqs != [] {
      CompactionKeepsLive(t, reqs[..|reqs| - 1], now, rid);
      LiveTwice(On(CompactAll(t, reqs[..|reqs| - 1], now), rid), now);
    }
  }
}
