/** References between artifacts (api/artifact_kinds.py): a string under the key "ref",
    at any depth of a payload. */
module ArtifactRefs {
  import opened Collections
  import opened Json

  const REF_KEY: string := "ref"

  function Refs(j: Json): set<Id> {
    match j
    case List(items) => set i, r | 0 <= i < |items| && r in Refs(items[i]) :: r
    case Obj(fields) => set i, r | 0 <= i < |fields| && r in FieldRefs(fields[i]) :: r
    case _ => {}
  }

  function FieldRefs(f: Field): set<Id> {
    if f.key == REF_KEY && f.value.Str? then {f.value.s} else Refs(f.value)
  }

  /** A copy with every known reference remapped; unknown ones pass through. */
  function Rewrite(j: Json, ids: map<Id, Id>): Json {
    match j
    case List(items) => List(seq(|items|, i requires 0 <= i < |items| => Rewrite(items[i], ids)))
    case Obj(fields) => Obj(seq(|fields|, i requires 0 <= i < |fields| => RewriteField(fields[i], ids)))
    case _ => j
  }

  function RewriteField(f: Field, ids: map<Id, Id>): Field {
    Field(f.key, if f.key == REF_KEY && f.value.Str? then Str(GetOr(ids, f.value.s, f.value.s)) else Rewrite(f.value, ids))
  }

  function Image(ids: map<Id, Id>, refs: set<Id>): set<Id> {
    set r | r in refs :: GetOr(ids, r, r)
  }

  /** The walk that collects them, adding to an output set. */
  method Walk(node: Json, out: set<Id>) returns (all: set<Id>)
    ensures all == out + Refs(node)
    decreases node
  {
    all := out;
    match node {
      case Obj(fields) =>
        for i := 0 to |fields|
          invariant forall r :: r in all <==> r in out || exists k :: 0 <= k < i && r in FieldRefs(fields[k])
        {
          ghost var had := all;
          if fields[i].key == REF_KEY && fields[i].value.Str? {
            all := all + {fields[i].value.s};
          } else {
            all := Walk(fields[i].value, all);
          }
          assert all == had + FieldRefs(fields[i]);
        }
      case List(items) =>
        for i := 0 to |items|
          invariant forall r :: r in all <==> r in out || exists k :: 0 <= k < i && r in Refs(items[k])
        {
          ghost var had := all;
          all := Walk(items[i], all);
          assert all == had + Refs(items[i]);
        }
      case _ =>
    }
  }

  /** The references of a rewritten payload are the mapped references, no more and no
      fewer. */
  lemma {:induction false} RefsOfRewritten(j: Json, ids: map<Id, Id>)
    ensures Refs(Rewrite(j, ids)) == Image(ids, Refs(j))
  {
    match j
    case List(items) =>
      forall i | 0 <= i < |items| ensures Refs(Rewrite(items[i], ids)) == Image(ids, Refs(items[i])) {
        RefsOfRewritten(items[i], ids);
      }
      ImageOfList(items, ids);
    case Obj(fields) =>
      forall i | 0 <= i < |fields| ensures FieldRefs(RewriteField(fields[i], ids)) == Image(ids, FieldRefs(fields[i])) {
        RefsOfRewritten(fields[i].value, ids);
      }
      ImageOfObj(fields, ids);
    case _ =>
  }

  lemma ImageOfList(items: seq<Json>, ids: map<Id, Id>)
    requires forall i :: 0 <= i < |items| ==> Refs(Rewrite(items[i], ids)) == Image(ids, Refs(items[i]))
    ensures Refs(Rewrite(List(items), ids)) == Image(ids, Refs(List(items)))
  {
    var rewritten := seq(|items|, i requires 0 <= i < |items| => Rewrite(items[i], ids));
    assert Rewrite(List(items), ids) == List(rewritten);
    forall x ensures x in Refs(List(rewritten)) <==> x in Image(ids, Refs(List(items))) {
      if x in Refs(List(rewritten)) {
        var i :| 0 <= i < |rewritten| && x in Refs(rewritten[i]);
        assert x in Image(ids, Refs(items[i]));
      }
      if x in Image(ids, Refs(List(items))) {
        var r :| r in Refs(List(items)) && x == GetOr(ids, r, r);
        var i :| 0 <= i < |items| && r in Refs(items[i]);
        assert x in Image(ids, Refs(items[i])) && x in Refs(rewritten[i]);
      }
    }
  }

  lemma ImageOfObj(fields: seq<Field>, ids: map<Id, Id>)
    requires forall i :: 0 <= i < |fields| ==> FieldRefs(RewriteField(fields[i], ids)) == Image(ids, FieldRefs(fields[i]))
    ensures Refs(Rewrite(Obj(fields), ids)) == Image(ids, Refs(Obj(fields)))
  {
    hide FieldRefs, RewriteField;
    var rewritten := seq(|fields|, i requires 0 <= i < |fields| => RewriteField(fields[i], ids));
    assert Rewrite(Obj(fields), ids) == Obj(rewritten);
    forall x ensures x in Refs(Obj(rewritten)) <==> x in Image(ids, Refs(Obj(fields))) {
      if x in Refs(Obj(rewritten)) {
        var i :| 0 <= i < |rewritten| && x in FieldRefs(rewritten[i]);
        assert x in Image(ids, FieldRefs(fields[i]));
      }
      if x in Image(ids, Refs(Obj(fields))) {
        var r :| r in Refs(Obj(fields)) && x == GetOr(ids, r, r);
        var i :| 0 <= i < |fields| && r in FieldRefs(fields[i]);
        assert x in Image(ids, FieldRefs(fields[i])) && x in FieldRefs(rewritten[i]);
      }
    }
  }

  /** A map that keeps every known id keeps every payload. */
  lemma {:induction false} RewriteIdentity(j: Json, ids: map<Id, Id>)
    requires forall r :: r in Refs(j) && r in ids ==> ids[r] == r
    ensures Rewrite(j, ids) == j
  {
    match j
    case List(items) =>
      forall i | 0 <= i < |items| ensures Rewrite(items[i], ids) == items[i] {
        assert forall r :: r in Refs(items[i]) ==> r in Refs(j);
        RewriteIdentity(items[i], ids);
      }
    case Obj(fields) =>
      forall i | 0 <= i < |fields| ensures RewriteField(fields[i], ids) == fields[i] {
        assert forall r :: r in FieldRefs(fields[i]) ==> r in Refs(j);
        if !(fields[i].key == REF_KEY && fields[i].value.Str?) {
          RewriteIdentity(fields[i].value, ids);
        }
      }
    case _ =>
  }

  // ---- by positions ------------------------------------------------------------------------

  /** The position is that of a string under the key "ref". */
  predicate RefPosition(j: Json, path: seq<nat>)
    decreases |path|
  {
    path != [] &&
    match j
    case List(items) => path[0] < |items| && RefPosition(items[path[0]], path[1..])
    case Obj(fields) =>
      path[0] < |fields|
      && if fields[path[0]].key == "ref" && fields[path[0]].value.Str? then |path| == 1 else RefPosition(fields[path[0]].value, path[1..])
    case _ => false
  }

  ghost predicate RefersAt(j: Json, ref: Id, path: seq<nat>) {
    RefPosition(j, path) && At(j, path) == Some(Str(ref))
  }

  /** A reference position with the string lies under the i-th item or field. */
  ghost predicate RefersUnder(j: Json, ref: Id, i: nat) {
    exists path :: path != [] && path[0] == i && RefersAt(j, ref, path)
  }

  /** The references of a payload are the strings at its reference positions. */
  lemma {:induction false} RefsAre(j: Json, ref: Id)
    ensures ref in Refs(j) <==> exists path :: RefersAt(j, ref, path)
    decreases j
  {
    hide RefersAt, FieldRefs;
    UnderSome(j, ref);
    match j
    case List(items) =>
      forall i: nat | i < |items| ensures ref in Refs(items[i]) <==> RefersUnder(j, ref, i) {
        RefsAre(items[i], ref);
        ItemRefs(items, ref, i);
      }
    case Obj(fields) =>
      forall i: nat | i < |fields| ensures ref in FieldRefs(fields[i]) <==> RefersUnder(j, ref, i) {
        RefsAre(fields[i].value, ref);
        FieldRefsAre(fields, ref, i);
      }
    case _ =>
  }

  lemma UnderSome(j: Json, ref: Id)
    ensures (exists path :: RefersAt(j, ref, path)) <==> exists i: nat :: RefersUnder(j, ref, i)
    ensures forall i: nat :: RefersUnder(j, ref, i) ==> (j.List? && i < |j.items|) || (j.Obj? && i < |j.fields|)
  {
    if path :| RefersAt(j, ref, path) {
      assert RefersUnder(j, ref, path[0]);
    }
  }

  lemma ItemRefs(items: seq<Json>, ref: Id, i: nat)
    requires i < |items|
    ensures (exists path :: RefersAt(items[i], ref, path)) <==> RefersUnder(List(items), ref, i)
  {
    if path :| RefersAt(items[i], ref, path) {
      assert ([i] + path)[1..] == path && RefersAt(List(items), ref, [i] + path);
    }
    if path :| path != [] && path[0] == i && RefersAt(List(items), ref, path) {
      assert RefersAt(items[i], ref, path[1..]);
    }
  }

  lemma FieldRefsAre(fields: seq<Field>, ref: Id, i: nat)
    requires i < |fields|
    requires ref in Refs(fields[i].value) <==> exists path :: RefersAt(fields[i].value, ref, path)
    ensures ref in FieldRefs(fields[i]) <==> RefersUnder(Obj(fields), ref, i)
  {
    hide Refs;
    var f, j := fields[i], Obj(fields);
    if f.key == "ref" && f.value.Str? {
      assert At(j, [i]) == Some(f.value) by { assert [i][1..] == []; }
      assert f.value.s == ref ==> RefersAt(j, ref, [i]);
      forall path: seq<nat> | path != [] && path[0] == i && RefersAt(j, ref, path) ensures f.value.s == ref {
        assert path == [i];
      }
    } else {
      if path :| RefersAt(f.value, ref, path) {
        assert ([i] + path)[1..] == path && RefersAt(j, ref, [i] + path);
      }
      if path :| path != [] && path[0] == i && RefersAt(j, ref, path) {
        assert RefersAt(f.value, ref, path[1..]);
      }
    }
  }

  /** Rewriting maps the strings at the reference positions and leaves every other
      position as it was. */
  lemma {:induction false} RewriteAt(j: Json, ids: map<Id, Id>, path: seq<nat>)
    ensures Swapped(At(j, path), At(Rewrite(j, ids), path), if RefPosition(j, path) then ids else map[])
    decreases |path|
  {
    if path != [] {
      match j
      case List(items) =>
        if path[0] < |items| {
          RewriteAt(items[path[0]], ids, path[1..]);
        }
      case Obj(fields) =>
        if path[0] < |fields| && !(fields[path[0]].key == "ref" && fields[path[0]].value.Str?) {
          RewriteAt(fields[path[0]].value, ids, path[1..]);
        } else if path[0] < |fields| && |path| > 1 {
          assert At(fields[path[0]].value, path[1..]) == None;
        }
      case _ =>
    }
  }
}
