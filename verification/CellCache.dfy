/** The script-cell cache (core/script/cell_cache.py, Session.evict_touched_caches):
    what a surviving entry is worth across commits. */
module CellCache {
  import opened Collections
  import opened Model
  import opened Invalidation

  /** Snippet, entry point, bound roots, digest of the column inputs. */
  datatype CellKey = CellKey(snippet: string, entry: string, roots: seq<Id>, inputs: string)

  /** A call either yields a value or fails, the failure being repeatable or not. */
  datatype CallResult = Value(text: string) | Error(kind: string)

  datatype Entry = Entry(result: CallResult, readSet: Option<set<ReadKey>>)

  const MAX_STORED_READS: nat := 128

  predicate Cacheable(r: CallResult) {
    r.Error? ==> r.kind in {"runtime", "syntax"}
  }

  /** A call is a function of the answers it read. */
  ghost predicate DependsOnlyOn(mm: Metamodel, eval: (CellKey, Model) -> CallResult, key: CellKey, m: Model, readSet: set<ReadKey>) {
    forall m' :: (forall k :: k in readSet ==> Read(mm, m', k) == Read(mm, m, k)) ==> eval(key, m') == eval(key, m)
  }

  /** The entry is what the call gives on `m`, and its reads explain it. */
  ghost predicate RightOn(mm: Metamodel, eval: (CellKey, Model) -> CallResult, key: CellKey, m: Model, e: Entry) {
    && e.result == eval(key, m)
    && (e.readSet.Some? ==> DependsOnlyOn(mm, eval, key, m, e.readSet.value))
  }

  /** An entry whose reads miss every changed answer is right after the commit too. */
  lemma SurvivorStaysRight(mm: Metamodel, eval: (CellKey, Model) -> CallResult, key: CellKey, pre: Model, post: Model, e: Entry,
      touched: set<ReadKey>)
    requires RightOn(mm, eval, key, pre, e) && CoversChanges(mm, pre, post, touched)
    requires e.readSet.Some? && e.readSet.value !! touched
    ensures RightOn(mm, eval, key, post, e)
  {
    hide Read;
    assert forall k :: k in e.readSet.value ==> Read(mm, post, k) == Read(mm, pre, k);
  }

  lemma StoredIsRight(mm: Metamodel, eval: (CellKey, Model) -> CallResult, key: CellKey, m: Model, result: CallResult, readSet: Option<set<ReadKey>>)
    requires RightOn(mm, eval, key, m, Entry(result, readSet))
    ensures RightOn(mm, eval, key, m, Entry(result, Storable(readSet)))
  {
    hide DependsOnlyOn;
  }

  lemma NothingKept()
    ensures Distinct<CellKey>([]) && SetOf<CellKey>([]) == {}
  {
  }

  class ScriptCellCache {
    const cap: nat
    var stamp: nat
    var entries: map<CellKey, Entry>
    /** Least recently used first. */
    var order: seq<CellKey>
    ghost const mm: Metamodel
    ghost const eval: (CellKey, Model) -> CallResult
    /** The model as of each revision. */
    ghost const modelAt: nat -> Model

    ghost predicate Valid()
      reads this
    {
      && Distinct(order) && SetOf(order) == entries.Keys && |order| <= cap
      && forall k :: k in entries ==> RightOn(mm, eval, k, modelAt(stamp), entries[k])
    }

    constructor (cap: nat, ghost mm: Metamodel, ghost eval: (CellKey, Model) -> CallResult, ghost modelAt: nat -> Model)
      ensures Valid() && this.cap == cap && this.mm == mm && this.eval == eval && this.modelAt == modelAt
    {
      this.cap := cap;
      stamp, entries, order := 0, map[], [];
      this.mm, this.eval, this.modelAt := mm, eval, modelAt;
    }

    /** A hit is always what running the call now would give. */
    method Get(key: CellKey, rev: nat) returns (hit: Option<CallResult>)
      requires Valid()
      modifies this
      ensures Valid() && stamp == old(stamp) && entries == old(entries)
      ensures hit.Some? <==> rev == stamp && key in entries
      ensures hit.Some? ==> hit.value == eval(key, modelAt(rev))
      ensures order == if hit.Some? then Without(old(order), key) + [key] else old(order)
    {
      if rev != stamp || key !in entries {
        return None;
      }
      hit := Some(entries[key].result);
      MovedToEnd(order, key);
      order := Without(order, key) + [key];
    }

    /** A result computed at `rev`. Stale writers and unrepeatable failures are dropped,
        newer writers clear. The entry becomes the most recent one, a large read set is
        stored as unknown, and the least recent ones beyond the cap go. */
    method Put(key: CellKey, result: CallResult, rev: nat, readSet: Option<set<ReadKey>>)
      requires Valid() && RightOn(mm, eval, key, modelAt(rev), Entry(result, readSet))
      modifies this
      ensures Valid()
      ensures var taken := rev >= old(stamp) && (result.Value? || result.kind == "runtime" || result.kind == "syntax");
        if !taken then entries == old(entries) && order == old(order) && stamp == old(stamp) else
        && stamp == rev
        && order == Newest(Without(if rev == old(stamp) then old(order) else [], key) + [key], cap)
        && forall k :: k in entries ==> if k == key then entries[k] == Entry(result, Storable(readSet)) else k in old(entries) && entries[k] == old(entries)[k]
    {
      hide Distinct, SetOf, RightOn, Without;
      if !Cacheable(result) {
        return;
      }
      StoredIsRight(mm, eval, key, modelAt(rev), result, readSet);
      var kept := Storable(readSet);
      if rev < stamp {
        return;
      }
      if rev > stamp {
        entries, order, stamp := map[], [], rev;
        NothingKept();
      }
      MovedToEnd(order, key);
      entries := entries[key := Entry(result, kept)];
      order := Without(order, key) + [key];
      Trim();
    }

    /** Drop the least recently used entries beyond the cap. */
    method Trim()
      requires Distinct(order) && SetOf(order) == entries.Keys
      modifies this
      ensures Distinct(order) && SetOf(order) == entries.Keys && |order| <= cap && stamp == old(stamp)
      ensures order == Newest(old(order), cap)
      ensures entries.Keys <= old(entries).Keys && forall k :: k in entries ==> entries[k] == old(entries)[k]
    {
      hide Distinct, SetOf;
      ghost var gone := 0;
      while |order| > cap
        invariant Distinct(order) && SetOf(order) == entries.Keys && stamp == old(stamp)
        invariant entries.Keys <= old(entries).Keys && forall k :: k in entries ==> entries[k] == old(entries)[k]
        invariant gone <= |old(order)| && order == old(order)[gone..] && (gone > 0 ==> |order| >= cap)
      {
        SetOfCons(order);
        DistinctTail(order);
        assert old(order)[gone..][1..] == old(order)[gone + 1..];
        entries, order, gone := entries - {order[0]}, order[1..], gone + 1;
      }
    }

    /** One commit took the model to `rev`. */
    method EvictTouched(touched: set<ReadKey>, rev: nat)
      requires Valid()
      requires rev == stamp + 1 ==> CoversChanges(mm, modelAt(stamp), modelAt(rev), touched)
      modifies this
      ensures Valid() && stamp == rev
      ensures entries == if rev == old(stamp) + 1
        then map k | k in old(entries) && old(entries)[k].readSet.Some? && old(entries)[k].readSet.value !! touched :: old(entries)[k]
        else map[]
      ensures rev == old(stamp) + 1 ==> order == Kept(old(order), entries.Keys)
    {
      if rev != stamp + 1 {
        entries, order, stamp := map[], [], rev;
        return;
      }
      var was := entries;
      forall k | k in was && was[k].readSet.Some? && was[k].readSet.value !! touched
        ensures RightOn(mm, eval, k, modelAt(rev), was[k])
      {
        SurvivorStaysRight(mm, eval, k, modelAt(stamp), modelAt(rev), was[k], touched);
      }
      stamp := rev;
      entries := map k | k in was && was[k].readSet.Some? && was[k].readSet.value !! touched :: was[k];
      order := Kept(order, entries.Keys);
    }

    /** Unknown writes: drop everything. */
    method ClearAndStamp(rev: nat)
      modifies this
      ensures Valid() && stamp == rev && entries == map[]
    {
      entries, order, stamp := map[], [], rev;
    }
  }

  /** An oversized read set is stored as unknown. */
  function Storable(readSet: Option<set<ReadKey>>): (r: Option<set<ReadKey>>)
    ensures r.Some? <==> readSet.Some? && |readSet.value| <= 128
    ensures r.Some? ==> r == readSet
  {
    if readSet.Some? && |readSet.value| > MAX_STORED_READS then None else readSet
  }

  function Newest(order: seq<CellKey>, n: nat): seq<CellKey> {
    if |order| <= n then order else order[|order| - n..]
  }

  function Without(order: seq<CellKey>, key: CellKey): seq<CellKey> {
    Kept(order, SetOf(order) - {key})
  }

  predicate Before(order: seq<CellKey>, a: CellKey, b: CellKey) {
    exists i, j | 0 <= i < j < |order| :: order[i] == a && order[j] == b
  }

  /** The given keys of an order, in that order. */
  function Kept(order: seq<CellKey>, keys: set<CellKey>): (r: seq<CellKey>)
    ensures SetOf(r) == SetOf(order) * keys && |r| <= |order|
    ensures Distinct(order) ==> Distinct(r)
  {
    if order == [] then [] else
    var n := |order| - 1;
    var rest := Kept(order[..n], keys);
    SetOfSnoc(order[..n], order[n]);
    assert order == order[..n] + [order[n]];
    if order[n] in keys then
      SetOfSnoc(rest, order[n]);
      rest + [order[n]]
    else rest
  }

  lemma SetOfSnoc(s: seq<CellKey>, x: CellKey)
    ensures SetOf(s + [x]) == SetOf(s) + {x}
    ensures Distinct(s) && x !in SetOf(s) ==> Distinct(s + [x])
    ensures Distinct(s + [x]) ==> Distinct(s) && x !in SetOf(s)
  {
    assert forall i :: 0 <= i < |s| ==> (s + [x])[i] == s[i];
    assert Distinct(s + [x]) ==> forall i :: 0 <= i < |s| ==> (s + [x])[i] != (s + [x])[|s|];
  }

  lemma BeforeStays(order: seq<CellKey>, x: CellKey, a: CellKey, b: CellKey)
    ensures Before(order, a, b) ==> Before(order + [x], a, b)
    ensures a in order ==> Before(order + [x], a, x)
  {
    if i, j :| 0 <= i < j < |order| && order[i] == a && order[j] == b {
      assert (order + [x])[i] == a && (order + [x])[j] == b;
    }
    if i :| 0 <= i < |order| && order[i] == a {
      assert (order + [x])[i] == a && (order + [x])[|order|] == x;
    }
  }

  lemma {:induction false} KeptInOrder(order: seq<CellKey>, keys: set<CellKey>, i: nat, j: nat)
    requires i < j < |Kept(order, keys)|
    ensures Before(order, Kept(order, keys)[i], Kept(order, keys)[j])
  {
    hide Before, Distinct;
    var n := |order| - 1;
    var rest, a, b := Kept(order[..n], keys), Kept(order, keys)[i], Kept(order, keys)[j];
    assert order == order[..n] + [order[n]];
    BeforeStays(order[..n], order[n], a, b);
    if j < |rest| {
      KeptInOrder(order[..n], keys, i, j);
    } else {
      assert a == rest[i] && a in SetOf(rest);
    }
  }

  lemma MovedToEnd(order: seq<CellKey>, key: CellKey)
    requires Distinct(order)
    ensures var r := Without(order, key) + [key];
      Distinct(r) && SetOf(r) == SetOf(order) + {key} && |r| <= |order| + 1 && (key in order ==> |r| == |order|)
  {
    hide Distinct;
    var w := Without(order, key);
    SetOfSnoc(w, key);
    DistinctCardinality(w);
    DistinctCardinality(order);
    if key in order {
      assert SetOf(w) == SetOf(order) - {key};
    }
  }

  lemma {:induction false} DistinctCardinality(s: seq<CellKey>)
    requires Distinct(s)
    ensures |SetOf(s)| == |s|
  {
    if s != [] {
      SetOfCons(s);
      DistinctTail(s);
      DistinctCardinality(s[1..]);
    }
  }
}
