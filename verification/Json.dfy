/** JSON values as the journal, the artifact payloads and the writers see them.
    An object keeps its fields in insertion order. A number is its literal. */
module Json {
  import opened Collections

  predicate NumeralChar(c: char) {
    '0' <= c <= '9' || c in {'-', '+', '.', 'e', 'E'}
  }

  type Numeral = s: string | s != "" && forall i :: 0 <= i < |s| ==> NumeralChar(s[i]) witness "0"

  datatype Field = Field(key: string, value: Json)

  datatype Json =
    | Null
    | Bool(b: bool)
    | Num(literal: Numeral)
    | Str(s: string)
    | List(items: seq<Json>)
    | Obj(fields: seq<Field>)

  /** Replace every string that names an id of the map, at any depth. */
  function ResolveJson(j: Json, ids: map<string, string>): Json {
    match j
    case Str(s) => Str(GetOr(ids, s, s))
    case List(items) => List(seq(|items|, i requires 0 <= i < |items| => ResolveJson(items[i], ids)))
    case Obj(fields) =>
      Obj(seq(|fields|, i requires 0 <= i < |fields| =>
        Field(fields[i].key, ResolveJson(fields[i].value, ids))))
    case _ => j
  }

  /** The model applier's resolver: strings and lists only, objects untouched. */
  function ResolveValue(j: Json, ids: map<string, string>): Json {
    match j
    case Str(s) => Str(GetOr(ids, s, s))
    case List(items) => List(seq(|items|, i requires 0 <= i < |items| => ResolveValue(items[i], ids)))
    case _ => j
  }

  lemma {:induction false} ResolveJsonEmpty(j: Json)
    ensures ResolveJson(j, map[]) == j
  {
    match j
    case List(items) =>
      forall i | 0 <= i < |items| ensures ResolveJson(items[i], map[]) == items[i] {
        ResolveJsonEmpty(items[i]);
      }
    case Obj(fields) =>
      forall i | 0 <= i < |fields|
        ensures Field(fields[i].key, ResolveJson(fields[i].value, map[])) == fields[i]
      {
        ResolveJsonEmpty(fields[i].value);
      }
    case _ =>
  }

  /** The strings the model resolver looks up: the value itself and list items. */
  ghost predicate Mentions(j: Json, s: string) {
    match j
    case Str(t) => s == t
    case List(items) => exists i :: 0 <= i < |items| && Mentions(items[i], s)
    case _ => false
  }

  /** Resolution leaves a value alone exactly when it mentions no key that the
      map sends elsewhere. */
  lemma {:induction false} ResolveValueFixed(j: Json, ids: map<string, string>)
    ensures ResolveValue(j, ids) == j <==> forall s :: s in ids && ids[s] != s ==> !Mentions(j, s)
  {
    match j
    case List(items) =>
      forall i | 0 <= i < |items|
        ensures ResolveValue(items[i], ids) == items[i]
          <==> forall s :: s in ids && ids[s] != s ==> !Mentions(items[i], s)
      {
        ResolveValueFixed(items[i], ids);
      }
      var resolved := seq(|items|, i requires 0 <= i < |items| => ResolveValue(items[i], ids));
      assert ResolveValue(j, ids) == List(resolved);
      if resolved == items {
        forall s | s in ids && ids[s] != s ensures !Mentions(j, s) {
          forall i | 0 <= i < |items| ensures !Mentions(items[i], s) {
            assert resolved[i] == items[i];
          }
        }
      } else {
        var i :| 0 <= i < |items| && resolved[i] != items[i];
        var s :| s in ids && ids[s] != s && Mentions(items[i], s);
        assert Mentions(j, s);
      }
    case _ =>
  }

  // ---- values by position ------------------------------------------------------------

  /** The value at a position: an index into the list or the fields at each step. */
  function At(j: Json, path: seq<nat>): Option<Json>
    decreases |path|
  {
    if path == [] then Some(j) else
    match j
    case List(items) => if path[0] < |items| then At(items[path[0]], path[1..]) else None
    case Obj(fields) => if path[0] < |fields| then At(fields[path[0]].value, path[1..]) else None
    case _ => None
  }

  /** The same, not looking into objects. */
  function ListAt(j: Json, path: seq<nat>): Option<Json>
    decreases |path|
  {
    if path == [] then Some(j)
    else if j.List? && path[0] < |j.items| then ListAt(j.items[path[0]], path[1..])
    else None
  }

  /** `r` may stand where `j` stood: a string that is a key of the map has become its
      value, every other scalar is itself, a list is as long, an object has the same keys. */
  predicate Swapped(j: Option<Json>, r: Option<Json>, ids: map<string, string>) {
    match j
    case None => r == None
    case Some(Str(s)) => r == Some(Str(if s in ids then ids[s] else s))
    case Some(List(items)) => r.Some? && r.value.List? && |r.value.items| == |items|
    case Some(Obj(fields)) =>
      r.Some? && r.value.Obj? && |r.value.fields| == |fields|
      && forall i :: 0 <= i < |fields| ==> r.value.fields[i].key == fields[i].key
    case _ => r == j
  }

  /** The same value at every position, but for the strings the map replaces. */
  ghost predicate Stands(j: Json, r: Json, ids: map<string, string>) {
    forall path :: Swapped(At(j, path), At(r, path), ids)
  }

  /** The same for a resolver that leaves objects alone. */
  ghost predicate StandsInLists(j: Json, r: Json, ids: map<string, string>) {
    forall path :: var a, z := ListAt(j, path), ListAt(r, path);
      if a.Some? && a.value.Obj? then z == a else Swapped(a, z, ids)
  }

  lemma {:induction false} ResolveJsonStandsAt(j: Json, ids: map<string, string>, path: seq<nat>)
    ensures Swapped(At(j, path), At(ResolveJson(j, ids), path), ids)
    decreases |path|
  {
    if path != [] {
      match j
      case List(items) =>
        if path[0] < |items| {
          ResolveJsonStandsAt(items[path[0]], ids, path[1..]);
        }
      case Obj(fields) =>
        if path[0] < |fields| {
          ResolveJsonStandsAt(fields[path[0]].value, ids, path[1..]);
        }
      case _ =>
    }
  }

  lemma ResolveJsonStands(j: Json, ids: map<string, string>)
    ensures Stands(j, ResolveJson(j, ids), ids)
  {
    forall path ensures Swapped(At(j, path), At(ResolveJson(j, ids), path), ids) {
      ResolveJsonStandsAt(j, ids, path);
    }
  }

  lemma {:induction false} ResolveValueStandsAt(j: Json, ids: map<string, string>, path: seq<nat>)
    ensures var a, z := ListAt(j, path), ListAt(ResolveValue(j, ids), path);
      if a.Some? && a.value.Obj? then z == a else Swapped(a, z, ids)
    decreases |path|
  {
    if path != [] && j.List? && path[0] < |j.items| {
      ResolveValueStandsAt(j.items[path[0]], ids, path[1..]);
    }
  }

  lemma ResolveValueStands(j: Json, ids: map<string, string>)
    ensures StandsInLists(j, ResolveValue(j, ids), ids)
  {
    forall path
      ensures var a, z := ListAt(j, path), ListAt(ResolveValue(j, ids), path);
        if a.Some? && a.value.Obj? then z == a else Swapped(a, z, ids)
    {
      ResolveValueStandsAt(j, ids, path);
    }
  }

  /** Positions determine a value. */
  lemma {:induction false} StandsOnce(j: Json, r: Json, s: Json, ids: map<string, string>)
    requires Stands(j, r, ids) && Stands(j, s, ids)
    ensures r == s
    decreases j
  {
    assert Swapped(At(j, []), At(r, []), ids) && Swapped(At(j, []), At(s, []), ids);
    match j
    case List(items) =>
      forall i | 0 <= i < |items| ensures r.items[i] == s.items[i] {
        StandsBelow(j, r, ids, i);
        StandsBelow(j, s, ids, i);
        StandsOnce(items[i], r.items[i], s.items[i], ids);
      }
    case Obj(fields) =>
      forall i | 0 <= i < |fields| ensures r.fields[i] == s.fields[i] {
        StandsBelow(j, r, ids, i);
        StandsBelow(j, s, ids, i);
        StandsOnce(fields[i].value, r.fields[i].value, s.fields[i].value, ids);
      }
    case _ =>
  }

  lemma StandsBelow(j: Json, r: Json, ids: map<string, string>, i: nat)
    requires Stands(j, r, ids)
    ensures j.List? && i < |j.items| ==> r.List? && i < |r.items| && Stands(j.items[i], r.items[i], ids)
    ensures j.Obj? && i < |j.fields| ==> r.Obj? && i < |r.fields| && Stands(j.fields[i].value, r.fields[i].value, ids)
  {
    assert Swapped(At(j, []), At(r, []), ids);
    if (j.List? && i < |j.items|) || (j.Obj? && i < |j.fields|) {
      forall path
        ensures j.List? ==> Swapped(At(j.items[i], path), At(r.items[i], path), ids)
        ensures j.Obj? ==> Swapped(At(j.fields[i].value, path), At(r.fields[i].value, path), ids)
      {
        assert Swapped(At(j, [i] + path), At(r, [i] + path), ids);
        assert ([i] + path)[1..] == path;
      }
    }
  }
}
