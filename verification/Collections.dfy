/** Stock vocabulary shared by every module: optional values, duplicate-free
    sequences, filtering, flattening. */
module Collections {

  /** Names an entity, an artifact, a project or a user. */
  type Id = string

  datatype Option<+T> = None | Some(value: T)
  {
    function GetOr(default: T): T {
      match this
      case Some(v) => v
      case None => default
    }
  }

  function Lookup<K, V>(m: map<K, V>, k: K): Option<V> {
    if k in m then Some(m[k]) else None
  }

  function GetOr<K, V>(m: map<K, V>, k: K, default: V): V {
    if k in m then m[k] else default
  }

  /** The part of a map on some keys. */
  function Pick<K, V>(m: map<K, V>, ks: set<K>): map<K, V> {
    map k | k in ks && k in m :: m[k]
  }

  lemma PickOneMore<K, V>(base: map<K, V>, m: map<K, V>, k: K, ks: set<K>)
    requires k in m && k !in ks
    ensures base[k := m[k]] + Pick(m, ks) == base + Pick(m, {k} + ks)
  {
  }

  lemma PickBack<K, V>(m: map<K, V>, ks: set<K>)
    ensures (m - ks) + Pick(m, ks) == m
  {
  }

  ghost predicate Distinct<T>(s: seq<T>) {
    forall i, j :: 0 <= i < j < |s| ==> s[i] != s[j]
  }

  function SetOf<T>(s: seq<T>): set<T> {
    set x | x in s
  }

  lemma SetOfCons<T>(s: seq<T>)
    requires s != []
    ensures SetOf(s) == {s[0]} + SetOf(s[1..])
  {
    assert forall x <- s :: x == s[0] || x in s[1..];
  }

  lemma DistinctTail<T>(s: seq<T>)
    requires s != [] && Distinct(s)
    ensures Distinct(s[1..]) && s[0] !in SetOf(s[1..])
  {
  }

  /** Some enumeration of a finite set. Proofs may only use the contract, so they
      hold for every enumeration order. */
  ghost function Enumerate<T>(s: set<T>): (q: seq<T>)
    ensures Distinct(q)
    ensures SetOf(q) == s
  {
    if s == {} then [] else
    var x :| x in s;
    var rest := Enumerate(s - {x});
    assert forall y <- s :: y == x || y in SetOf(rest);
    assert SetOf([x] + rest) == {x} + SetOf(rest);
    [x] + rest
  }

  function Flatten<T>(ss: seq<seq<T>>): seq<T> {
    if ss == [] then [] else ss[0] + Flatten(ss[1..])
  }

  lemma {:induction false} FlattenAppend<T>(ss: seq<seq<T>>, ts: seq<seq<T>>)
    ensures Flatten(ss + ts) == Flatten(ss) + Flatten(ts)
  {
    if ss == [] {
      assert ss + ts == ts;
    } else {
      assert (ss + ts)[1..] == ss[1..] + ts;
      FlattenAppend(ss[1..], ts);
    }
  }

  lemma FlattenSingleton<T>(s: seq<T>)
    ensures Flatten([s]) == s
  {
    assert [s][1..] == [];
    assert Flatten([s][1..]) == [];
  }

  lemma FlattenSnoc<T>(ss: seq<seq<T>>, s: seq<T>)
    ensures Flatten(ss + [s]) == Flatten(ss) + s
  {
    FlattenAppend(ss, [s]);
    FlattenSingleton(s);
  }

  /** The units of a batch, last unit first, each unit in its own order. */
  function Unwind<T>(units: seq<seq<T>>): seq<T> {
    if units == [] then [] else Unwind(units[1..]) + units[0]
  }

  lemma {:induction false} UnwindSnoc<T>(units: seq<seq<T>>, u: seq<T>)
    ensures Unwind(units + [u]) == u + Unwind(units)
  {
    if units == [] {
      assert units + [u] == [u] + [];
      assert Unwind([u]) == u;
    } else {
      assert (units + [u])[1..] == units[1..] + [u];
      UnwindSnoc(units[1..], u);
    }
  }

  lemma SubsetCardinality<T>(a: set<T>, b: set<T>)
    requires a <= b
    ensures |a| <= |b|
  {
    assert b == a + (b - a);
  }

  /** A duplicate-free sequence over a set has at most the set's size. */
  lemma {:induction false} DistinctLength<T>(q: seq<T>, s: set<T>)
    requires Distinct(q) && forall x :: x in q ==> x in s
    ensures |q| <= |s|
  {
    if q != [] {
      var last := q[|q| - 1];
      var rest := q[..|q| - 1];
      assert last in s;
      DistinctLength(rest, s - {last});
    }
  }
}
