/** The trigram search index and its mutation hooks (core/model/indexes.py,
    core/model/naming.py). */
module SearchIndex {
  import opened Collections
  import opened Json
  import opened Model

  type Trigram = string

  /** How the host lower-cases text and which property names an element. */
  datatype Host = Host(lower: string -> string, nameOf: Props -> Option<string>)

  predicate NameKey(h: Host, key: string) {
    h.lower(key) == "name"
  }

  /** A name comes out of a name-keyed property: its string, or an entry of its list. */
  ghost predicate Names(h: Host) {
    forall props: Props :: h.nameOf(props).Some? ==>
      exists k :: k in props && NameKey(h, k) &&
        (props[k] == Str(h.nameOf(props).value) || (props[k].List? && Str(h.nameOf(props).value) in props[k].items))
  }

  function Trigrams(s: string): set<Trigram> {
    set i | 0 <= i < |s| - 2 :: TrigramAt(s, i)
  }

  function TrigramAt(s: string, i: int): Trigram
    requires 0 <= i < |s| - 2
  {
    s[i..i + 3]
  }

  predicate OccursAt(q: string, s: string, i: nat) {
    i + |q| <= |s| && s[i..i + |q|] == q
  }

  /** `q` is a substring of `s`. */
  predicate Occurs(q: string, s: string) {
    exists i | 0 <= i <= |s| :: OccursAt(q, s, i)
  }

  /** A text's trigrams are its substrings of three characters. */
  lemma TrigramsAre(s: string, t: string)
    ensures t in Trigrams(s) <==> |t| == 3 && Occurs(t, s)
  {
    if |t| == 3 && Occurs(t, s) {
      var i: nat :| OccursAt(t, s, i);
      assert OccursAt(t, s, i) && TrigramAt(s, i) == t;
    }
    if t in Trigrams(s) {
      var i :| 0 <= i < |s| - 2 && t == TrigramAt(s, i);
      assert OccursAt(t, s, i);
    }
  }

  /** A substring's trigrams are the text's. */
  lemma OccurrenceHasTrigrams(q: string, s: string)
    requires Occurs(q, s)
    ensures Trigrams(q) <= Trigrams(s)
  {
    var i: nat :| OccursAt(q, s, i);
    assert OccursAt(q, s, i);
    forall t | t in Trigrams(q) ensures t in Trigrams(s) {
      var j :| 0 <= j < |q| - 2 && t == TrigramAt(q, j);
      SliceOfSlice(s, i, |q|, j);
      assert TrigramAt(s, i + j) == t;
    }
  }

  lemma SliceOfSlice(s: string, i: nat, n: nat, j: nat)
    requires i + n <= |s| && j + 3 <= n
    ensures s[i..i + n][j..j + 3] == s[i + j..i + j + 3]
  {
    var a, b := s[i..i + n][j..j + 3], s[i + j..i + j + 3];
    assert forall k :: 0 <= k < 3 ==> a[k] == b[k];
  }

  function TextTrigrams(h: Host, text: string): set<Trigram> {
    Trigrams(h.lower(text))
  }

  /** Ids, type names, top-level string properties and the resolved name. */
  function PropTrigrams(h: Host, props: Props): set<Trigram> {
    set k, t | k in props && props[k].Str? && t in TextTrigrams(h, props[k].s) :: t
  }

  function ElementTrigrams(h: Host, id: Id, e: Element): set<Trigram> {
    TextTrigrams(h, id) + TextTrigrams(h, e.typeName) + PropTrigrams(h, e.props)
    + if h.nameOf(e.props).Some? then TextTrigrams(h, h.nameOf(e.props).value) else {}
  }

  type Entries = map<Id, set<Trigram>>
  type Postings = map<Trigram, set<Id>>

  /** The postings are the entries inverted, without empty sets. */
  ghost predicate Inverts(postings: Postings, entries: Entries) {
    && (forall t, id :: t in postings && id in postings[t] ==> id in entries && t in entries[id])
    && (forall t, id :: id in entries && t in entries[id] ==> t in postings && id in postings[t])
    && (forall t :: t in postings ==> postings[t] != {})
  }

  /** What a synchronous build of the whole model gives. */
  function FullBuild(h: Host, elements: map<Id, Element>): Entries {
    map id | id in elements :: ElementTrigrams(h, id, elements[id])
  }

  /** Every entry is its element's; a ready index has them all. */
  ghost predicate Accurate(h: Host, elements: map<Id, Element>, entries: Entries, ready: bool) {
    && entries.Keys <= elements.Keys
    && (forall id :: id in entries ==> entries[id] == ElementTrigrams(h, id, elements[id]))
    && (ready ==> entries == FullBuild(h, elements))
  }

  // ---- posting maintenance --------------------------------------------------------------

  function AddPosting(postings: Postings, t: Trigram, id: Id): Postings {
    postings[t := GetOr(postings, t, {}) + {id}]
  }

  /** An emptied posting set is deleted. */
  function RemovePosting(postings: Postings, t: Trigram, id: Id): Postings {
    if t !in postings then postings
    else if postings[t] == {id} then postings - {t}
    else postings[t := postings[t] - {id}]
  }

  lemma AddInverts(postings: Postings, entries: Entries, t: Trigram, id: Id)
    requires Inverts(postings, entries)
    ensures Inverts(AddPosting(postings, t, id), entries[id := GetOr(entries, id, {}) + {t}])
  {
  }

  lemma RemoveInverts(postings: Postings, entries: Entries, t: Trigram, id: Id)
    requires Inverts(postings, entries) && id in entries
    ensures Inverts(RemovePosting(postings, t, id), entries[id := entries[id] - {t}])
  {
  }

  lemma EntryInverts(postings: Postings, entries: Entries, id: Id)
    requires Inverts(postings, entries) && (id in entries ==> entries[id] == {})
    ensures Inverts(postings, entries[id := {}]) && Inverts(postings, entries - {id})
  {
  }

  method RemovePostings(postings: Postings, gone: set<Trigram>, id: Id, ghost entries: Entries) returns (r: Postings)
    requires Inverts(postings, entries) && id in entries
    ensures Inverts(r, entries[id := entries[id] - gone])
  {
    hide Inverts, RemovePosting;
    r := postings;
    var todo := gone;
    ghost var now := entries;
    assert gone - todo == {} && entries[id] - {} == entries[id] && entries[id := entries[id]] == entries;
    while todo != {}
      invariant todo <= gone && now == entries[id := entries[id] - (gone - todo)] && Inverts(r, now)
    {
      var t :| t in todo;
      RemoveInverts(r, now, t, id);
      assert entries[id] - (gone - (todo - {t})) == (entries[id] - (gone - todo)) - {t};
      todo := todo - {t};
      now := now[id := now[id] - {t}];
      r := RemovePosting(r, t, id);
    }
    assert gone - todo == gone;
  }

  method AddPostings(postings: Postings, added: set<Trigram>, id: Id, ghost entries: Entries) returns (r: Postings)
    requires Inverts(postings, entries) && id in entries
    ensures Inverts(r, entries[id := entries[id] + added])
  {
    hide Inverts, AddPosting;
    r := postings;
    var todo := added;
    ghost var now := entries;
    assert added - todo == {} && entries[id] + {} == entries[id] && entries[id := entries[id]] == entries;
    while todo != {}
      invariant todo <= added && now == entries[id := entries[id] + (added - todo)] && Inverts(r, now)
    {
      var t :| t in todo;
      AddInverts(r, now, t, id);
      assert entries[id] + (added - (todo - {t})) == (entries[id] + (added - todo)) + {t};
      todo := todo - {t};
      now := now[id := now[id] + {t}];
      r := AddPosting(r, t, id);
    }
    assert added - todo == added;
  }

  // ---- the single-property diff ---------------------------------------------------------------

  predicate Plain(v: Option<Json>) {
    v.None? || v.value.Str?
  }

  predicate ListNamed(h: Host, props: Props) {
    exists k :: k in props && NameKey(h, k) && props[k].List?
  }

  function ValueTrigrams(h: Host, v: Option<Json>): set<Trigram> {
    if v.Some? && v.value.Str? && v.value.s != "" then TextTrigrams(h, v.value.s) else {}
  }

  /** Some searchable text other than property `prop` holds the trigram. */
  predicate HeldElsewhere(h: Host, id: Id, e: Element, prop: string, t: Trigram) {
    || t in TextTrigrams(h, id) || t in TextTrigrams(h, e.typeName)
    || exists k :: k in e.props && k != prop && e.props[k].Str? && t in TextTrigrams(h, e.props[k].s)
  }

  function SetProp(props: Props, prop: string, v: Option<Json>): Props {
    if v.Some? then props[prop := v.value] else props - {prop}
  }

  /** Dropping the old value's trigrams that no other text holds, and adding the new
      value's, is re-deriving the whole element. */
  lemma DiffIsRederivation(h: Host, id: Id, was: Element, prop: string, v: Option<Json>)
    requires Names(h) && h.lower("") == ""
    requires Plain(Lookup(was.props, prop)) && Plain(v) && !ListNamed(h, SetProp(was.props, prop, v))
    ensures var e := was.(props := SetProp(was.props, prop, v));
      var before, after := ValueTrigrams(h, Lookup(was.props, prop)), ValueTrigrams(h, v);
      var removed := set t | t in before - after && !HeldElsewhere(h, id, e, prop, t);
      ElementTrigrams(h, id, was) - removed + after == ElementTrigrams(h, id, e)
  {
    var e := was.(props := SetProp(was.props, prop, v));
    var before, after := ValueTrigrams(h, Lookup(was.props, prop)), ValueTrigrams(h, v);
    NameAmongStrings(h, was.props, SetProp(was.props, prop, v), prop);
    NameAmongStrings(h, e.props, e.props, prop);
    SplitTrigrams(h, id, was, prop);
    SplitTrigrams(h, id, e, prop);
    forall t ensures HeldElsewhere(h, id, was, prop, t) <==> HeldElsewhere(h, id, e, prop, t) {
      assert forall k :: k != prop ==> (k in was.props <==> k in e.props) && (k in e.props ==> e.props[k] == was.props[k]);
    }
    hide HeldElsewhere, ElementTrigrams, ValueTrigrams;
    var removed := set t | t in before - after && !HeldElsewhere(h, id, e, prop, t);
    forall t ensures t in ElementTrigrams(h, id, was) - removed + after <==> t in ElementTrigrams(h, id, e) {
    }
  }

  /** Without a list under a name key, the resolved name is one of the string values. */
  lemma NameAmongStrings(h: Host, props: Props, like: Props, prop: string)
    requires Names(h) && !ListNamed(h, like) && Plain(Lookup(props, prop))
    requires forall k :: k in props && k != prop ==> k in like && like[k] == props[k]
    ensures h.nameOf(props).Some? ==> TextTrigrams(h, h.nameOf(props).value) <= PropTrigrams(h, props)
  {
    if h.nameOf(props).Some? {
      var k :| k in props && NameKey(h, k) &&
        (props[k] == Str(h.nameOf(props).value) || (props[k].List? && Str(h.nameOf(props).value) in props[k].items));
      assert k != prop ==> k in like && like[k] == props[k];
    }
  }

  lemma SplitTrigrams(h: Host, id: Id, e: Element, prop: string)
    requires h.lower("") == ""
    requires h.nameOf(e.props).Some? ==> TextTrigrams(h, h.nameOf(e.props).value) <= PropTrigrams(h, e.props)
    requires Plain(Lookup(e.props, prop))
    ensures forall t :: t in ElementTrigrams(h, id, e) <==>
      HeldElsewhere(h, id, e, prop, t) || t in ValueTrigrams(h, Lookup(e.props, prop))
  {
  }

  lemma AccurateWith(h: Host, elements: map<Id, Element>, entries: Entries, ready: bool, id: Id, e: Element)
    requires Accurate(h, elements, entries, ready)
    ensures Accurate(h, elements[id := e], entries[id := ElementTrigrams(h, id, e)], ready)
    ensures id !in entries && !ready ==> Accurate(h, elements[id := e], entries, ready)
  {
    hide ElementTrigrams;
  }

  lemma AccurateWithout(h: Host, elements: map<Id, Element>, entries: Entries, ready: bool, id: Id)
    requires Accurate(h, elements, entries, ready)
    ensures Accurate(h, elements - {id}, entries - {id}, ready)
  {
    hide ElementTrigrams;
  }

  lemma AccurateEntry(h: Host, elements: map<Id, Element>, entries: Entries, ready: bool, id: Id)
    requires Accurate(h, elements, entries, ready) && id in elements
    ensures id in entries ==> entries[id] == ElementTrigrams(h, id, elements[id])
  {
    hide ElementTrigrams;
  }

  /** The entries after a property change: an element without an entry is left to the
      build, unless the index is ready. */
  function Reindexed(h: Host, entries: Entries, ready: bool, id: Id, e: Element): Entries {
    if id in entries || ready then entries[id := ElementTrigrams(h, id, e)] else entries
  }

  // ---- the index and its hooks -------------------------------------------------------------------

  /** The model's elements with the search half of its IndexSet. */
  class IndexSet {
    const host: Host
    var elements: map<Id, Element>
    var postings: Postings
    var trigramsOf: Entries
    var ready: bool
    var gen: nat

    ghost predicate Valid()
      reads this
    {
      && Names(host) && host.lower("") == ""
      && Inverts(postings, trigramsOf)
      && Accurate(host, elements, trigramsOf, ready)
    }

    /** An empty model's empty index is complete. */
    constructor (host: Host)
      requires Names(host) && host.lower("") == ""
      ensures Valid() && this.host == host && elements == map[] && ready && gen == 0
    {
      this.host := host;
      elements, postings, trigramsOf, ready, gen := map[], map[], map[], true, 0;
    }

    /** Diff-apply an element's trigrams; the entry is written even when empty. */
    method UpdateTrigrams(id: Id, trigrams: set<Trigram>)
      requires Inverts(postings, trigramsOf)
      modifies this`postings, this`trigramsOf
      ensures trigramsOf == old(trigramsOf)[id := trigrams] && Inverts(postings, trigramsOf)
    {
      hide Inverts;
      var was := GetOr(trigramsOf, id, {});
      if id !in trigramsOf {
        EntryInverts(postings, trigramsOf, id);
        trigramsOf := trigramsOf[id := {}];
      }
      ghost var entries := trigramsOf;
      postings := RemovePostings(postings, was - trigrams, id, entries);
      entries := entries[id := entries[id] - (was - trigrams)];
      postings := AddPostings(postings, trigrams - was, id, entries);
      assert entries[id] + (trigrams - was) == trigrams;
      assert entries[id := trigrams] == trigramsOf[id := trigrams];
      trigramsOf := trigramsOf[id := trigrams];
    }

    method OnElementCreated(id: Id, e: Element)
      requires Valid() && id !in elements
      modifies this
      ensures Valid() && elements == old(elements)[id := e] && ready == old(ready) && gen == old(gen)
      ensures trigramsOf == old(trigramsOf)[id := ElementTrigrams(host, id, e)]
    {
      hide ElementTrigrams, Inverts, Accurate;
      AccurateWith(host, elements, trigramsOf, ready, id, e);
      elements := elements[id := e];
      UpdateTrigrams(id, ElementTrigrams(host, id, e));
    }

    method OnElementDeleted(id: Id)
      requires Valid() && id in elements
      modifies this
      ensures Valid() && elements == old(elements) - {id} && ready == old(ready) && gen == old(gen)
      ensures trigramsOf == old(trigramsOf) - {id}
    {
      hide ElementTrigrams, Inverts, Accurate;
      AccurateWithout(host, elements, trigramsOf, ready, id);
      elements := elements - {id};
      UpdateTrigrams(id, {});
      EntryInverts(postings, trigramsOf, id);
      trigramsOf := trigramsOf - {id};
      assert trigramsOf == old(trigramsOf) - {id};
    }

    /** One property set or deleted. The element is re-derived when it has an entry or
        the index is ready, and otherwise left to the build; a plain string change is
        diffed instead, to the same effect. */
    method OnPropertyChanged(id: Id, prop: string, v: Option<Json>)
      requires Valid() && id in elements
      modifies this
      ensures Valid() && ready == old(ready) && gen == old(gen)
      ensures elements == old(elements)[id := old(elements)[id].(props := SetProp(old(elements)[id].props, prop, v))]
      ensures trigramsOf == Reindexed(host, old(trigramsOf), ready, id, elements[id])
    {
      hide ElementTrigrams, ListNamed, HeldElsewhere, ValueTrigrams, Inverts, Accurate;
      var was := elements[id];
      var e := was.(props := SetProp(was.props, prop, v));
      AccurateWith(host, elements, trigramsOf, ready, id, e);
      AccurateEntry(host, elements, trigramsOf, ready, id);
      elements := elements[id := e];
      if id !in trigramsOf {
        if ready {
          UpdateTrigrams(id, ElementTrigrams(host, id, e));
        }
        return;
      }
      if !Plain(Lookup(was.props, prop)) || !Plain(v) || ListNamed(host, e.props) {
        UpdateTrigrams(id, ElementTrigrams(host, id, e));
        return;
      }
      DiffIsRederivation(host, id, was, prop, v);
      var before, after := ValueTrigrams(host, Lookup(was.props, prop)), ValueTrigrams(host, v);
      var removed := set t | t in before - after && !HeldElsewhere(host, id, e, prop, t);
      var current := trigramsOf[id];
      var added := after - current;
      ghost var entries := trigramsOf;
      postings := RemovePostings(postings, removed, id, entries);
      entries := entries[id := entries[id] - removed];
      postings := AddPostings(postings, added, id, entries);
      assert current - removed + added == current - removed + after;
      assert entries[id := current - removed + added] == trigramsOf[id := current - removed + added];
      trigramsOf := trigramsOf[id := current - removed + added];
    }

    /** Bulk load or metamodel swap: unless told that the elements are unchanged, the
        search index is dropped and its generation moves on. */
    method Rebuild(loaded: map<Id, Element>, keepSearch: bool)
      requires Valid() && (keepSearch ==> loaded == elements)
      modifies this
      ensures Valid() && elements == loaded
      ensures keepSearch ==> trigramsOf == old(trigramsOf) && ready == old(ready) && gen == old(gen)
      ensures !keepSearch ==> trigramsOf == map[] && !ready && gen == old(gen) + 1
    {
      elements := loaded;
      if !keepSearch {
        postings, trigramsOf, ready, gen := map[], map[], false, gen + 1;
      }
    }

    /** Index the given elements that exist and have no entry, from their current text. */
    method IndexSearchChunk(ids: seq<Id>)
      requires Valid()
      modifies this
      ensures Valid() && elements == old(elements) && ready == old(ready) && gen == old(gen)
      ensures trigramsOf == WithChunk(host, elements, old(trigramsOf), ids)
    {
      hide ElementTrigrams, Inverts;
      for i := 0 to |ids|
        invariant Valid() && elements == old(elements) && ready == old(ready) && gen == old(gen)
        invariant trigramsOf == WithChunk(host, elements, old(trigramsOf), ids[..i])
      {
        assert ids[..i + 1][..i] == ids[..i];
        var id := ids[i];
        if id in trigramsOf || id !in elements {
          continue;
        }
        EntryInverts(postings, trigramsOf, id);
        var trigrams := ElementTrigrams(host, id, elements[id]);
        trigramsOf := trigramsOf[id := {}];
        postings := AddPostings(postings, trigrams, id, trigramsOf);
        assert {} + trigrams == trigrams;
        trigramsOf := trigramsOf[id := trigrams];
      }
      assert ids[..|ids|] == ids;
    }

    /** The elements that hold every trigram of the query: a superset of its hits. None
        when the index is not ready, the query is short, or its rarest trigram is so
        common that a scan is cheaper. */
    method SearchCandidates(q: string) returns (r: Option<set<Id>>)
      requires Valid()
      ensures r.None? <==>
        !ready || |q| < 3 || forall t :: t in Trigrams(q) ==> |Holding(host, elements, t)| >= FallbackSize(|elements|)
      ensures r.Some? ==> r.value == set id | id in elements && Trigrams(q) <= ElementTrigrams(host, id, elements[id])
    {
      hide ElementTrigrams, TrigramAt;
      if !ready || |q| < 3 {
        return None;
      }
      var found: seq<set<Id>> := [];
      var least := 0;
      for i := 0 to |q| - 2
        invariant |found| == i && forall j :: 0 <= j < i ==> found[j] == Holding(host, elements, TrigramAt(q, j))
        invariant 0 <= least && (least < i || i == 0 == least)
        invariant forall j :: 0 <= j < i ==> |found[least]| <= |found[j]|
      {
        var t := TrigramAt(q, i);
        PostingsHold(host, elements, trigramsOf, postings, t);
        if t !in postings {
          assert t in Trigrams(q) && Holding(host, elements, t) == {};
          return Some({});
        }
        found := found + [postings[t]];
        if |found[i]| < |found[least]| {
          least := i;
        }
      }
      if |found[least]| >= FallbackSize(|elements|) {
        return None;
      }
      assert TrigramAt(q, least) in Trigrams(q);
      var ids := found[least];
      for i := 0 to |found|
        invariant ids == set id | id in found[least] && forall j :: 0 <= j < i ==> id in found[j]
      {
        ids := ids * found[i];
        if ids == {} {
          break;
        }
      }
      r := Some(ids);
    }

    method MarkSearchReady()
      requires Valid() && trigramsOf.Keys == elements.Keys
      modifies this
      ensures Valid() && ready && elements == old(elements) && trigramsOf == old(trigramsOf) && gen == old(gen)
    {
      ready := true;
    }
  }

  // ---- the candidates of a query -----------------------------------------------------------------

  const FALLBACK_FLOOR: nat := 10_000
  const FALLBACK_FRACTION: nat := 4

  /** From this many holders on a trigram narrows too little. */
  function FallbackSize(elements: nat): nat {
    if elements / FALLBACK_FRACTION > FALLBACK_FLOOR then elements / FALLBACK_FRACTION else FALLBACK_FLOOR
  }

  function Holding(h: Host, elements: map<Id, Element>, t: Trigram): set<Id> {
    set id | id in elements && t in ElementTrigrams(h, id, elements[id])
  }

  lemma PostingsHold(h: Host, elements: map<Id, Element>, entries: Entries, postings: Postings, t: Trigram)
    requires Inverts(postings, entries) && Accurate(h, elements, entries, true)
    ensures GetOr(postings, t, {}) == Holding(h, elements, t)
  {
    hide ElementTrigrams;
  }

  function WithChunk(h: Host, elements: map<Id, Element>, entries: Entries, ids: seq<Id>): Entries {
    if ids == [] then entries else
    var id := ids[|ids| - 1];
    var before := WithChunk(h, elements, entries, ids[..|ids| - 1]);
    if id in before || id !in elements then before else before[id := ElementTrigrams(h, id, elements[id])]
  }

  lemma {:induction false} ChunkExactly(h: Host, elements: map<Id, Element>, entries: Entries, ids: seq<Id>)
    ensures WithChunk(h, elements, entries, ids) ==
      entries + map id | id in SetOf(ids) && id in elements && id !in entries :: ElementTrigrams(h, id, elements[id])
  {
    hide ElementTrigrams;
    if ids != [] {
      ChunkExactly(h, elements, entries, ids[..|ids| - 1]);
      assert SetOf(ids) == SetOf(ids[..|ids| - 1]) + {ids[|ids| - 1]} by { assert ids == ids[..|ids| - 1] + [ids[|ids| - 1]]; }
    }
  }
}
