/** The element search of a paged listing (api/routes/read.py): every hit is scored, and
    the trigram candidates stand in for the whole model. */
module ElementSearch {
  import opened Collections
  import opened Json
  import opened Model
  import opened SearchIndex

  predicate Alphanumeric(c: char) {
    'a' <= c <= 'z' || '0' <= c <= '9'
  }

  /** The text has the query as a word: nothing alphanumeric on either side. */
  predicate OccursAsWord(q: string, s: string) {
    exists i | 0 <= i <= |s| ::
      OccursAt(q, s, i) && (i == 0 || !Alphanumeric(s[i - 1])) && (i + |q| == |s| || !Alphanumeric(s[i + |q|]))
  }

  function NameScore(name: string, q: string): real {
    if name == q then 1000.0
    else if q <= name then 100.0
    else if Occurs(q, name) then if OccursAsWord(q, name) then 30.0 else 10.0
    else 0.0
  }

  /** The other properties whose text has the query. */
  function WeakHits(h: Host, props: Props, q: string): set<string> {
    set k | k in props && !NameKey(h, k) && props[k].Str? && Occurs(q, h.lower(props[k].s))
  }

  /** The resolved name's score, with a bias for shorter names. */
  function NamePart(h: Host, e: Element, q: string): real {
    if h.nameOf(e.props).None? then 0.0 else
    var name := h.lower(h.nameOf(e.props).value);
    var score := NameScore(name, q);
    if score > 0.0 && name != "" then score + |q| as real / |name| as real else 0.0
  }

  function IdPart(h: Host, id: Id, q: string): real {
    if h.lower(id) == q then 5.0 else if Occurs(q, h.lower(id)) then 2.0 else 0.0
  }

  function Score(h: Host, id: Id, e: Element, q: string): real {
    NamePart(h, e, q) + IdPart(h, id, q)
    + (if Occurs(q, h.lower(e.typeName)) then 1.0 else 0.0)
    + 0.5 * |WeakHits(h, e.props, q)| as real
  }

  /** Some text that the search reads has the query. */
  ghost predicate Mentions(h: Host, id: Id, e: Element, q: string) {
    || Occurs(q, h.lower(id)) || Occurs(q, h.lower(e.typeName))
    || (h.nameOf(e.props).Some? && Occurs(q, h.lower(h.nameOf(e.props).value)))
    || exists k :: k in e.props && !NameKey(h, k) && e.props[k].Str? && Occurs(q, h.lower(e.props[k].s))
  }

  /** An element is a hit exactly when some text of it has the query. */
  lemma HitIffMentioned(h: Host, id: Id, e: Element, q: string)
    requires q != ""
    ensures Score(h, id, e, q) > 0.0 <==> Mentions(h, id, e, q)
  {
    hide Occurs, NameScore, NameKey, NamePart, IdPart, WeakHits;
    NamePartPositive(h, e, q);
    IdPartPositive(h, id, q);
    WeakPositive(h, e.props, q);
  }

  lemma NamePartPositive(h: Host, e: Element, q: string)
    requires q != ""
    ensures NamePart(h, e, q) >= 0.0
    ensures NamePart(h, e, q) > 0.0 <==> h.nameOf(e.props).Some? && Occurs(q, h.lower(h.nameOf(e.props).value))
  {
    hide Occurs;
    if h.nameOf(e.props).Some? {
      NamedIffOccurs(h.lower(h.nameOf(e.props).value), q);
    }
  }

  lemma IdPartPositive(h: Host, id: Id, q: string)
    ensures IdPart(h, id, q) >= 0.0 && (IdPart(h, id, q) > 0.0 <==> Occurs(q, h.lower(id)))
  {
    hide Occurs;
    WholeOccurs(q);
  }

  lemma WeakPositive(h: Host, props: Props, q: string)
    ensures |WeakHits(h, props, q)| as real > 0.0 <==>
      exists k :: k in props && !NameKey(h, k) && props[k].Str? && Occurs(q, h.lower(props[k].s))
  {
    hide Occurs, NameKey;
    var weak := WeakHits(h, props, q);
    assert |weak| as real > 0.0 <==> weak != {};
    if weak != {} {
      var k :| k in weak;
    }
    if k :| k in props && !NameKey(h, k) && props[k].Str? && Occurs(q, h.lower(props[k].s)) {
      assert k in weak;
    }
  }

  lemma WholeOccurs(q: string)
    ensures Occurs(q, q)
  {
    assert OccursAt(q, q, 0);
  }

  lemma NamedIffOccurs(name: string, q: string)
    requires q != ""
    ensures NameScore(name, q) > 0.0 <==> Occurs(q, name)
    ensures Occurs(q, name) ==> name != ""
  {
    if q <= name {
      assert OccursAt(q, name, 0);
    }
  }

  /** A hit is among the candidates. */
  lemma HitsAreCandidates(h: Host, id: Id, e: Element, q: string)
    requires q != "" && Score(h, id, e, q) > 0.0
    ensures Trigrams(q) <= ElementTrigrams(h, id, e)
  {
    HitIffMentioned(h, id, e, q);
    hide Score;
    if Occurs(q, h.lower(id)) {
      OccurrenceHasTrigrams(q, h.lower(id));
    } else if Occurs(q, h.lower(e.typeName)) {
      OccurrenceHasTrigrams(q, h.lower(e.typeName));
    } else if h.nameOf(e.props).Some? && Occurs(q, h.lower(h.nameOf(e.props).value)) {
      OccurrenceHasTrigrams(q, h.lower(h.nameOf(e.props).value));
    } else {
      var k :| k in e.props && !NameKey(h, k) && e.props[k].Str? && Occurs(q, h.lower(e.props[k].s));
      OccurrenceHasTrigrams(q, h.lower(e.props[k].s));
      assert forall t :: t in TextTrigrams(h, e.props[k].s) ==> t in PropTrigrams(h, e.props);
    }
  }

  datatype Found = Found(score: real, id: Id)

  predicate Wanted(e: Element, ty: Option<string>) {
    ty.None? || e.typeName == ty.value
  }

  /** What a scan of the whole model finds. */
  function Hits(h: Host, elements: map<Id, Element>, q: string, ty: Option<string>): set<Found> {
    set id | id in elements && Wanted(elements[id], ty) && Score(h, id, elements[id], q) > 0.0
      :: Found(Score(h, id, elements[id], q), id)
  }

  /** The scan runs over the candidates when there are any, and finds each hit once. */
  method FindHits(index: IndexSet, q: string, ty: Option<string>) returns (hits: seq<Found>)
    requires index.Valid() && q != ""
    ensures Distinct(hits) && SetOf(hits) == Hits(index.host, index.elements, q, ty)
  {
    hide Score, ElementTrigrams, Trigrams, HitsAmong, Hits, Distinct, SetOf, FallbackSize, Holding;
    var candidates := index.SearchCandidates(q);
    var todo := candidates.GetOr(index.elements.Keys);
    hits := [];
    ghost var done: set<Id> := {};
    NothingFound(index.host, index.elements, q, ty);
    var h, elements := index.host, index.elements;
    while todo != {}
      invariant todo <= elements.Keys && Distinct(hits) && done !! todo
      invariant done + todo == candidates.GetOr(elements.Keys)
      invariant SetOf(hits) == HitsAmong(h, elements, q, ty, done)
    {
      var id :| id in todo;
      var e := elements[id];
      HitsNext(h, elements, q, ty, done, id);
      todo, done := todo - {id}, done + {id};
      var score := Score(h, id, e, q);
      if Wanted(e, ty) && score > 0.0 {
        FoundOneMore(hits, Found(score, id));
        hits := hits + [Found(score, id)];
      }
    }
    NoHitElsewhere(h, elements, q, ty, done);
  }

  lemma NothingFound(h: Host, elements: map<Id, Element>, q: string, ty: Option<string>)
    ensures Distinct<Found>([]) && SetOf<Found>([]) == {} == HitsAmong(h, elements, q, ty, {})
  {
  }

  lemma FoundOneMore(hits: seq<Found>, f: Found)
    requires Distinct(hits) && f !in SetOf(hits)
    ensures Distinct(hits + [f]) && SetOf(hits + [f]) == SetOf(hits) + {f}
  {
  }

  function HitsAmong(h: Host, elements: map<Id, Element>, q: string, ty: Option<string>, ids: set<Id>): set<Found> {
    set id | id in ids && id in elements && Wanted(elements[id], ty) && Score(h, id, elements[id], q) > 0.0
      :: Found(Score(h, id, elements[id], q), id)
  }

  lemma HitsNext(h: Host, elements: map<Id, Element>, q: string, ty: Option<string>, done: set<Id>, id: Id)
    requires id in elements && id !in done
    ensures var score, before := Score(h, id, elements[id], q), HitsAmong(h, elements, q, ty, done);
      && Found(score, id) !in before
      && HitsAmong(h, elements, q, ty, done + {id}) == before + if Wanted(elements[id], ty) && score > 0.0 then {Found(score, id)} else {}
  {
    hide Score;
  }

  lemma NoHitElsewhere(h: Host, elements: map<Id, Element>, q: string, ty: Option<string>, done: set<Id>)
    requires q != "" && forall id :: id in elements && Trigrams(q) <= ElementTrigrams(h, id, elements[id]) ==> id in done
    ensures HitsAmong(h, elements, q, ty, done) == Hits(h, elements, q, ty)
  {
    hide Score, ElementTrigrams;
    forall id | id in elements && Score(h, id, elements[id], q) > 0.0 ensures id in done {
      HitsAreCandidates(h, id, elements[id], q);
    }
  }

  // ---- the tiers of a name match ---------------------------------------------------------------

  function Tier(h: Host, e: Element, q: string): real {
    if h.nameOf(e.props).None? then 0.0 else NameScore(h.lower(h.nameOf(e.props).value), q)
  }

  /** The whole name beats a start of it, that a word in it, that any occurrence, that none. */
  lemma TiersInOrder(a: string, b: string, q: string)
    requires q != ""
    ensures a == q != b ==> NameScore(a, q) > NameScore(b, q)
    ensures q <= a && !(q <= b) ==> NameScore(a, q) > NameScore(b, q)
    ensures OccursAsWord(q, a) && !(q <= b) && !OccursAsWord(q, b) ==> NameScore(a, q) > NameScore(b, q)
    ensures Occurs(q, a) && !Occurs(q, b) ==> NameScore(a, q) > NameScore(b, q)
  {
    NamedIffOccurs(a, q);
    NamedIffOccurs(b, q);
    if OccursAsWord(q, a) {
      var i: nat :| i <= |a| && OccursAt(q, a, i);
      assert Occurs(q, a);
    }
  }

  lemma BiasIsSmall(h: Host, e: Element, q: string)
    requires q != ""
    ensures var bias := NamePart(h, e, q) - Tier(h, e, q);
      if Tier(h, e, q) > 0.0 then 0.0 < bias <= 1.0 else bias == 0.0
  {
    if h.nameOf(e.props).Some? {
      var name := h.lower(h.nameOf(e.props).value);
      NamedIffOccurs(name, q);
      if Occurs(q, name) {
        var i: nat :| OccursAt(q, name, i);
        assert OccursAt(q, name, i);
        Ratio(|q|, |name|);
      }
    }
  }

  lemma Ratio(a: nat, b: nat)
    requires 0 < a <= b
    ensures 0.0 < a as real / b as real <= 1.0
  {
  }

  /** A better name match ranks above a worse one, whatever else either matches, as long as
      the worse one has at most eight other matching properties. */
  lemma TiersHold(h: Host, i: Id, e: Element, j: Id, f: Element, q: string)
    requires q != "" && Tier(h, e, q) < Tier(h, f, q) && |WeakHits(h, e.props, q)| <= 8
    ensures Score(h, i, e, q) < Score(h, j, f, q)
  {
    hide WeakHits, Occurs, NamePart;
    BiasIsSmall(h, e, q);
    BiasIsSmall(h, f, q);
  }

  /** With nine, matches of the id and the type without a name match outrank a name that
      has the query inside. */
  lemma NineNotesOutrankAName(h: Host, i: Id, e: Element, j: Id, f: Element, q: string)
    requires q != "" && Tier(h, e, q) == 0.0 && h.lower(i) == q && h.lower(e.typeName) == q && |WeakHits(h, e.props, q)| >= 9
    requires h.nameOf(f.props).Some? && Tier(h, f, q) == 10.0 && |h.lower(h.nameOf(f.props).value)| > 2 * |q|
    requires !Occurs(q, h.lower(j)) && !Occurs(q, h.lower(f.typeName)) && WeakHits(h, f.props, q) == {}
    ensures Score(h, i, e, q) > Score(h, j, f, q)
  {
    hide WeakHits, OccursAsWord;
    WholeOccurs(q);
    BiasIsSmall(h, e, q);
    Halved(|q|, |h.lower(h.nameOf(f.props).value)|);
  }

  lemma Halved(a: nat, b: nat)
    requires 2 * a < b
    ensures a as real / b as real < 0.5
  {
    var x, d := a as real / b as real, b as real;
    assert x * d == a as real;
    if x >= 0.5 {
      Scaled(x, 0.5, d);
    }
  }

  lemma Scaled(x: real, y: real, d: real)
    requires x >= y && d > 0.0
    ensures x * d >= y * d
  {
  }

  /** The first has the worse name match and the better score. */
  predicate Outranks(h: Host, i: Id, e: Element, j: Id, f: Element, q: string) {
    Tier(h, e, q) < Tier(h, f, q) && Score(h, i, e, q) > Score(h, j, f, q)
  }

  /** Such elements exist: nine notes reading `abc` against a name `xabcxxx`. */
  lemma NotesOutrankAName()
    ensures exists i, e, j, f, q :: q != "" && Outranks(LiteralHost(), i, e, j, f, q)
  {
    hide Score, Tier, WeakHits, Occurs, NameScore;
    var keys := {"1", "2", "3", "4", "5", "6", "7", "8", "9"};
    Nine(keys);
    var e, f := Notes(keys, "abc"), Named("xabcxxx");
    NotesMatch(keys, "abc");
    NameMatches();
    NineNotesOutrankAName(LiteralHost(), "abc", e, "j", f, "abc");
    assert Outranks(LiteralHost(), "abc", e, "j", f, "abc");
  }

  function Notes(keys: set<string>, text: string): Element {
    Element(text, map k | k in keys :: Str(text))
  }

  function Named(name: string): Element {
    Element("T", map["name" := Str(name)])
  }

  lemma NameMatches()
    ensures var h, f := LiteralHost(), Named("xabcxxx");
      && h.nameOf(f.props) == Some("xabcxxx") && Tier(h, f, "abc") == 10.0 && WeakHits(h, f.props, "abc") == {}
      && !Occurs("abc", h.lower(f.typeName)) && !Occurs("abc", h.lower("j"))
  {
    hide NameScore;
    Inside();
    assert LiteralHost().lower("name") == "name";
  }

  lemma NotesMatch(keys: set<string>, text: string)
    requires forall k :: k in keys ==> k != "name"
    ensures WeakHits(LiteralHost(), Notes(keys, text).props, text) == keys && Tier(LiteralHost(), Notes(keys, text), text) == 0.0
  {
    WholeOccurs(text);
  }

  function LiteralHost(): Host {
    Host((s: string) => s, (props: Props) => if "name" in props && props["name"].Str? then Some(props["name"].s) else None)
  }

  lemma Inside()
    ensures NameScore("xabcxxx", "abc") == 10.0
  {
    var s := "xabcxxx";
    assert s[1..4] == "abc" && OccursAt("abc", s, 1);
    forall i: nat | OccursAt("abc", s, i) ensures i == 1 {
      assert OccursAt("abc", s, i) && s[i..i + 3][0] == s[i] == 'a';
    }
    assert Alphanumeric(s[0]);
  }

  lemma Nine(keys: set<string>)
    requires keys == {"1", "2", "3", "4", "5", "6", "7", "8", "9"}
    ensures |keys| == 9
  {
  }
}
