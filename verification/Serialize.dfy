/** The streaming model writers (api/serialize.py): entity-sized chunks whose join is the
    whole document. Strings are written unescaped but for the characters JSON forbids
    (section 7 of RFC 8259), so no written string holds a raw newline. */
module Serialize {
  import opened Json
  import Text

  // ---- text ----------------------------------------------------------------------------

  function Join(chunks: seq<string>): string {
    if chunks == [] then "" else Join(chunks[..|chunks| - 1]) + chunks[|chunks| - 1]
  }

  function Spaces(n: nat): string {
    if n == 0 then "" else Spaces(n - 1) + " "
  }

  lemma {:induction false} SpacesAdd(m: nat, n: nat)
    ensures Spaces(m) + Spaces(n) == Spaces(m + n)
  {
    if n > 0 {
      SpacesAdd(m, n - 1);
    }
  }

  /** Python's `text.replace("\n", "\n" + pad)`. */
  function Repad(text: string, pad: string): string {
    if text == "" then "" else
    Repad(text[..|text| - 1], pad) + RepadChar(text[|text| - 1], pad)
  }

  function RepadChar(c: char, pad: string): string {
    if c == '\n' then "\n" + pad else [c]
  }

  lemma {:induction false} RepadConcat(a: string, b: string, pad: string)
    ensures Repad(a + b, pad) == Repad(a, pad) + Repad(b, pad)
  {
    hide RepadChar;
    if b == "" {
      assert a + b == a;
    } else {
      var n := |b| - 1;
      assert (a + b)[..|a + b| - 1] == a + b[..n] && (a + b)[|a + b| - 1] == b[n];
      RepadConcat(a, b[..n], pad);
      Assoc(Repad(a, pad), Repad(b[..n], pad), RepadChar(b[n], pad));
    }
  }

  lemma Assoc(a: string, b: string, c: string)
    ensures a + b + c == a + (b + c)
  {
  }

  lemma {:induction false} RepadOneLine(text: string, pad: string)
    requires '\n' !in text
    ensures Repad(text, pad) == text
  {
    if text != "" {
      RepadOneLine(text[..|text| - 1], pad);
    }
  }

  lemma {:induction false} NoNewlineInSpaces(n: nat)
    ensures '\n' !in Spaces(n)
  {
    if n > 0 {
      NoNewlineInSpaces(n - 1);
    }
  }

  // ---- scalars ----------------------------------------------------------------------------

  function Hex(d: nat): char
    requires d < 16
  {
    if d < 10 then '0' + d as char else 'a' + (d - 10) as char
  }

  function EscapeChar(c: char): string {
    if c == '\U{0022}' then "\\\""
    else if c == '\U{005C}' then "\\\\"
    else if c == '\n' then "\\n"
    else if c == '\r' then "\\r"
    else if c == '\t' then "\\t"
    else if c == '\U{0008}' then "\\b"
    else if c == '\U{000C}' then "\\f"
    else if c < ' ' then "\\u00" + [Hex(c as nat / 16), Hex(c as nat % 16)]
    else [c]
  }

  function Escape(s: string): string {
    if s == "" then "" else Escape(s[..|s| - 1]) + EscapeChar(s[|s| - 1])
  }

  function Quote(s: string): string {
    "\"" + Escape(s) + "\""
  }

  lemma {:induction false} QuotedIsOneLine(s: string)
    ensures '\n' !in Escape(s) && '\n' !in Quote(s)
  {
    if s != "" {
      QuotedIsOneLine(s[..|s| - 1]);
    }
  }

  function Scalar(j: Json): string {
    match j
    case Null => "null"
    case Bool(b) => if b then "true" else "false"
    case Num(literal) => literal
    case Str(s) => Quote(s)
    case _ => ""
  }

  lemma ScalarIsOneLine(j: Json)
    ensures '\n' !in Scalar(j)
  {
    match j
    case Str(s) => QuotedIsOneLine(s);
    case Num(literal) => assert forall i :: 0 <= i < |literal| ==> NumeralChar(literal[i]);
    case _ =>
  }

  // ---- the two whole-document prints ------------------------------------------------------------

  const STEP: nat := 2

  /** Two-space indentation; `d` is the depth of the line the value starts on. */
  function Pretty(j: Json, d: nat): string
    decreases j, 1
  {
    match j
    case List(items) => if items == [] then "[]" else "[" + PrettyItems(items, d + 1) + "\n" + Spaces(STEP * d) + "]"
    case Obj(fields) => if fields == [] then "{}" else "{" + PrettyFields(fields, d + 1) + "\n" + Spaces(STEP * d) + "}"
    case _ => Scalar(j)
  }

  function PrettyItems(items: seq<Json>, d: nat): string
    decreases items, 0
  {
    if items == [] then "" else
    var n := |items| - 1;
    PrettyItems(items[..n], d) + (if n == 0 then "" else ",") + "\n" + Spaces(STEP * d) + Pretty(items[n], d)
  }

  function PrettyFields(fields: seq<Field>, d: nat): string
    decreases fields, 0
  {
    if fields == [] then "" else
    var n := |fields| - 1;
    PrettyFields(fields[..n], d) + (if n == 0 then "" else ",") + "\n" + Spaces(STEP * d)
    + Quote(fields[n].key) + ": " + Pretty(fields[n].value, d)
  }

  function Compact(j: Json): string
    decreases j, 1
  {
    match j
    case List(items) => "[" + CompactItems(items) + "]"
    case Obj(fields) => "{" + CompactFields(fields) + "}"
    case _ => Scalar(j)
  }

  function CompactItems(items: seq<Json>): string
    decreases items, 0
  {
    if items == [] then "" else
    var n := |items| - 1;
    CompactItems(items[..n]) + (if n == 0 then "" else ",") + Compact(items[n])
  }

  function CompactFields(fields: seq<Field>): string
    decreases fields, 0
  {
    if fields == [] then "" else
    var n := |fields| - 1;
    CompactFields(fields[..n]) + (if n == 0 then "" else ",") + Quote(fields[n].key) + ":" + Compact(fields[n].value)
  }

  // ---- re-padding is printing deeper ---------------------------------------------------------------

  lemma RepadLine(d: nat, k: nat)
    ensures Repad("\n" + Spaces(STEP * d), Spaces(STEP * k)) == "\n" + Spaces(STEP * (d + k))
  {
    hide Spaces, Repad;
    RepadSpaces(Spaces(STEP * d), Spaces(STEP * k), STEP * d);
    SpacesAdd(STEP * k, STEP * d);
  }

  lemma RepadSpaces(spaces: string, pad: string, n: nat)
    requires spaces == Spaces(n)
    ensures Repad("\n" + spaces, pad) == "\n" + (pad + spaces)
  {
    hide Spaces, Repad;
    RepadConcat("\n", spaces, pad);
    RepadNewline(pad);
    NoNewlineInSpaces(n);
    RepadOneLine(spaces, pad);
    Assoc("\n", pad, spaces);
  }

  lemma RepadNewline(pad: string)
    ensures Repad("\n", pad) == "\n" + pad
  {
    assert "\n"[..0] == "";
  }

  lemma RepadShort(text: string, k: nat)
    requires '\n' !in text
    ensures Repad(text, Spaces(STEP * k)) == text
  {
    RepadOneLine(text, Spaces(STEP * k));
  }

  lemma {:induction false} RepadIsDeeper(j: Json, d: nat, k: nat)
    ensures Repad(Pretty(j, d), Spaces(STEP * k)) == Pretty(j, d + k)
    decreases j, 1
  {
    hide Repad, Spaces, PrettyItems, PrettyFields;
    var pad := Spaces(STEP * k);
    match j
    case List(items) =>
      if items == [] {
        RepadShort("[]", k);
      } else {
        RepadItems(items, d + 1, k);
        RepadBody("[", PrettyItems(items, d + 1), "]", d, k);
      }
    case Obj(fields) =>
      if fields == [] {
        RepadShort("{}", k);
      } else {
        RepadFields(fields, d + 1, k);
        RepadBody("{", PrettyFields(fields, d + 1), "}", d, k);
      }
    case _ =>
      ScalarIsOneLine(j);
      RepadShort(Scalar(j), k);
  }

  lemma RepadBody(open: string, body: string, close: string, d: nat, k: nat)
    requires '\n' !in open && '\n' !in close
    ensures var pad := Spaces(STEP * k);
      Repad(open + body + "\n" + Spaces(STEP * d) + close, pad) == open + Repad(body, pad) + "\n" + Spaces(STEP * (d + k)) + close
  {
    hide Repad, Spaces;
    var pad, line := Spaces(STEP * k), "\n" + Spaces(STEP * d);
    RepadConcat(open, body, pad);
    RepadConcat(open + body, line, pad);
    RepadConcat(open + body + line, close, pad);
    RepadShort(open, k);
    RepadShort(close, k);
    RepadLine(d, k);
    assert open + body + "\n" + Spaces(STEP * d) + close == open + body + line + close;
  }

  lemma {:induction false} RepadItems(items: seq<Json>, d: nat, k: nat)
    ensures Repad(PrettyItems(items, d), Spaces(STEP * k)) == PrettyItems(items, d + k)
    decreases items, 0
  {
    hide Repad, Spaces, Pretty;
    if items == [] {
      RepadShort("", k);
    } else {
      var n, pad := |items| - 1, Spaces(STEP * k);
      var comma := if n == 0 then "" else ",";
      var line := "\n" + Spaces(STEP * d);
      RepadItems(items[..n], d, k);
      RepadIsDeeper(items[n], d, k);
      RepadThree(PrettyItems(items[..n], d), comma, line, Pretty(items[n], d), pad);
      RepadShort(comma, k);
      RepadLine(d, k);
      SplitField(PrettyItems(items[..n], d), comma, "\n", Spaces(STEP * d), "", "", Pretty(items[n], d));
      SplitField(PrettyItems(items[..n], d + k), comma, "\n", Spaces(STEP * (d + k)), "", "", Pretty(items[n], d + k));
    }
  }

  lemma RepadThree(a: string, b: string, c: string, e: string, pad: string)
    ensures Repad(a + b + c + e, pad) == Repad(a, pad) + Repad(b, pad) + Repad(c, pad) + Repad(e, pad)
  {
    RepadConcat(a + b + c, e, pad);
    RepadConcat(a + b, c, pad);
    RepadConcat(a, b, pad);
  }

  lemma {:induction false} RepadFields(fields: seq<Field>, d: nat, k: nat)
    ensures Repad(PrettyFields(fields, d), Spaces(STEP * k)) == PrettyFields(fields, d + k)
    decreases fields, 0
  {
    hide Repad, Spaces, Pretty, Quote;
    if fields == [] {
      RepadShort("", k);
    } else {
      var n, pad := |fields| - 1, Spaces(STEP * k);
      var comma := if n == 0 then "" else ",";
      var line, key := "\n" + Spaces(STEP * d), Quote(fields[n].key) + ": ";
      RepadFields(fields[..n], d, k);
      RepadIsDeeper(fields[n].value, d, k);
      RepadThree(PrettyFields(fields[..n], d), comma, line, key + Pretty(fields[n].value, d), pad);
      RepadConcat(key, Pretty(fields[n].value, d), pad);
      QuotedIsOneLine(fields[n].key);
      RepadShort(comma, k);
      RepadShort(key, k);
      RepadLine(d, k);
      SplitField(PrettyFields(fields[..n], d), comma, "\n", Spaces(STEP * d), Quote(fields[n].key), ": ", Pretty(fields[n].value, d));
      SplitField(PrettyFields(fields[..n], d + k), comma, "\n", Spaces(STEP * (d + k)), Quote(fields[n].key), ": ",
        Pretty(fields[n].value, d + k));
    }
  }

  lemma SplitField(before: string, comma: string, newline: string, spaces: string, key: string, colon: string, value: string)
    ensures before + comma + newline + spaces + key + colon + value == before + comma + (newline + spaces) + (key + colon + value)
    ensures before + comma + newline + spaces + value == before + comma + (newline + spaces) + value
  {
  }

  // ---- the indented writer -----------------------------------------------------------------------------

  /** The text up to the first entity, and a chunk: what separates an entity from what
      precedes it, then the entity re-padded. */
  function Head(key: string): string {
    Spaces(2) + ("\"" + key + "\"") + ": " + "["
  }

  function Chunk(head: string, entity: Json, first: bool): string {
    (if first then head else ",") + "\n" + Spaces(4) + Repad(Pretty(entity, 0), Spaces(4))
  }

  /** `"<key>": [...]` indented one level, one chunk per entity. */
  method EntityChunks(entities: seq<Json>, key: string) returns (chunks: seq<string>)
    ensures Join(chunks) == Spaces(2) + ("\"" + key + "\"") + ": " + Pretty(List(entities), 1)
  {
    hide Repad, Pretty, PrettyItems, Chunk, Head, Join;
    chunks := [];
    var first := true;
    NothingJoined();
    for i := 0 to |entities|
      invariant first <==> i == 0
      invariant Join(chunks) == if i == 0 then "" else Head(key) + PrettyItems(entities[..i], 2)
    {
      ChunkText(Head(key), entities, i);
      JoinSnoc(chunks, Chunk(Head(key), entities[i], first));
      chunks := chunks + [Chunk(Head(key), entities[i], first)];
      first := false;
    }
    assert entities[..|entities|] == entities;
    ListText(entities, key);
    var last := if first then Head(key) + "]" else "\n" + Spaces(2) + "]";
    JoinSnoc(chunks, last);
    chunks := chunks + [last];
  }

  lemma ChunkText(head: string, entities: seq<Json>, i: nat)
    requires i < |entities|
    ensures (if i == 0 then "" else head + PrettyItems(entities[..i], 2)) + Chunk(head, entities[i], i == 0)
         == head + PrettyItems(entities[..i + 1], 2)
  {
    hide Repad, Pretty, Spaces;
    assert entities[..i + 1][..i] == entities[..i];
    RepadIsDeeper(entities[i], 0, 2);
  }

  lemma ListText(entities: seq<Json>, key: string)
    ensures Spaces(2) + ("\"" + key + "\"") + ": " + Pretty(List(entities), 1) ==
      if entities == [] then Head(key) + "]" else (Head(key) + PrettyItems(entities, 2)) + ("\n" + Spaces(2) + "]")
  {
    hide Spaces, PrettyItems;
    var open := Spaces(2) + ("\"" + key + "\"") + ": ";
    if entities == [] {
      assert "[]" == "[" + "]";
      Regroup(open, "[", "]", "", "");
    } else {
      Regroup(open, "[", PrettyItems(entities, 2), "\n" + Spaces(2) + "]", "");
      assert Pretty(List(entities), 1) == "[" + PrettyItems(entities, 2) + ("\n" + Spaces(2) + "]") + "";
    }
  }

  lemma JoinSnoc(chunks: seq<string>, c: string)
    ensures Join(chunks + [c]) == Join(chunks) + c
  {
    assert (chunks + [c])[..|chunks|] == chunks;
  }

  lemma Brackets(newline: string, a: string, comma: string, b: string)
    ensures "{" + newline + a + (comma + newline) + b + (newline + "}") ==
      "{" + (newline + a + comma + newline + b) + newline + "" + "}"
  {
  }

  /** The save-file document of a model. */
  function Document(elements: seq<Json>, relationships: seq<Json>): Json {
    Obj([Field("elements", List(elements)), Field("relationships", List(relationships))])
  }

  method IterModelJson(elements: seq<Json>, relationships: seq<Json>) returns (chunks: seq<string>)
    ensures Join(chunks) == Pretty(Document(elements, relationships), 0)
  {
    hide Pretty, Join, Spaces, Document, Quote;
    var els := EntityChunks(elements, "elements");
    var rels := EntityChunks(relationships, "relationships");
    chunks := ["{" + "\n"] + els + ["," + "\n"] + rels + ["\n" + "}"];
    JoinParts("{" + "\n", els, "," + "\n", rels, "\n" + "}");
    PlainKeys();
    DocumentText(elements, relationships);
    Brackets("\n", Join(els), ",", Join(rels));
  }

  lemma {:induction false} JoinConcat(a: seq<string>, b: seq<string>)
    ensures Join(a + b) == Join(a) + Join(b)
  {
    if b == [] {
      assert a + b == a;
    } else {
      assert (a + b)[..|a + b| - 1] == a + b[..|b| - 1];
      JoinConcat(a, b[..|b| - 1]);
    }
  }

  lemma JoinParts(a: string, b: seq<string>, c: string, e: seq<string>, f: string)
    ensures Join([a] + b + [c] + e + [f]) == a + Join(b) + c + Join(e) + f
  {
    JoinConcat([a] + b + [c] + e, [f]);
    JoinConcat([a] + b + [c], e);
    JoinConcat([a] + b, [c]);
    JoinConcat([a], b);
    assert Join([a]) == a && Join([c]) == c && Join([f]) == f by {
      assert [a][..0] == [] && [c][..0] == [] && [f][..0] == [];
    }
  }

  predicate Lowercase(s: string) {
    forall i :: 0 <= i < |s| ==> 'a' <= s[i] <= 'z'
  }

  lemma PlainChar(c: char)
    requires 'a' <= c <= 'z'
    ensures EscapeChar(c) == [c]
  {
  }

  lemma {:induction false} PlainEscape(s: string)
    requires Lowercase(s)
    ensures Escape(s) == s
  {
    hide EscapeChar;
    if s != "" {
      PlainEscape(s[..|s| - 1]);
      PlainChar(s[|s| - 1]);
    }
  }

  /** Both entity lists' keys are written as they are. */
  lemma PlainKeys()
    ensures Quote("elements") == "\"" + "elements" + "\""
    ensures Quote("relationships") == "\"" + "relationships" + "\""
  {
    hide Escape;
    assert Lowercase("elements");
    assert Lowercase("relationships");
    PlainEscape("elements");
    PlainEscape("relationships");
  }

  /** One `"key": value` line, set off from what precedes it. */
  function Member(key: string, value: Json): string {
    Spaces(2) + Quote(key) + ": " + Pretty(value, 1)
  }

  lemma Regroup(before: string, a: string, b: string, c: string, e: string)
    ensures before + a + b + c + e == before + (a + b + c + e)
  {
  }

  lemma DocumentText(elements: seq<Json>, relationships: seq<Json>)
    ensures Pretty(Document(elements, relationships), 0) ==
      "{" + ("\n" + Member("elements", List(elements)) + "," + "\n" + Member("relationships", List(relationships))) + "\n" + "" + "}"
  {
    hide Spaces, Quote;
    ZeroSpaces();
    TwoFields("elements", List(elements), "relationships", List(relationships));
  }

  lemma ZeroSpaces()
    ensures Spaces(STEP * 0) == ""
  {
  }

  lemma TwoFields(k: string, a: Json, l: string, b: Json)
    ensures PrettyFields([Field(k, a), Field(l, b)], 1) == "\n" + Member(k, a) + "," + "\n" + Member(l, b)
  {
    hide Spaces, Quote, Pretty;
    var e, r := Field(k, a), Field(l, b);
    assert [e, r][..1] == [e] && [e][..0] == [];
    var first := "" + "" + "\n";
    assert PrettyFields([e], 1) == first + Spaces(2) + Quote(k) + ": " + Pretty(a, 1);
    Regroup(first, Spaces(2), Quote(k), ": ", Pretty(a, 1));
    var second := PrettyFields([e], 1) + "," + "\n";
    assert PrettyFields([e, r], 1) == second + Spaces(2) + Quote(l) + ": " + Pretty(b, 1);
    Regroup(second, Spaces(2), Quote(l), ": ", Pretty(b, 1));
    assert first == "\n";
  }

  // ---- the compact writer --------------------------------------------------------------------------------

  const SNAPSHOT_BATCH: nat := 2000

  function DumpBatch(batch: seq<Json>, first: bool): string {
    var text := Compact(List(batch));
    if first then text[1..|text| - 1] else "," + text[1..|text| - 1]
  }

  lemma DumpedItems(batch: seq<Json>, first: bool)
    ensures DumpBatch(batch, first) == (if first then "" else ",") + CompactItems(batch)
  {
    var text := Compact(List(batch));
    assert text == "[" + CompactItems(batch) + "]";
  }

  lemma CompactItemsSnoc(items: seq<Json>)
    requires items != []
    ensures var n := |items| - 1;
      CompactItems(items) == CompactItems(items[..n]) + (if n == 0 then "" else ",") + Compact(items[n])
    ensures CompactItems([]) == ""
  {
  }

  lemma {:induction false} CompactItemsConcat(a: seq<Json>, b: seq<Json>)
    ensures CompactItems(a + b) == CompactItems(a) + (if a == [] || b == [] then "" else ",") + CompactItems(b)
  {
    hide Compact, CompactItems;
    NoItems();
    if b == [] {
      assert a + b == a;
    } else {
      var n := |b| - 1;
      assert (a + b)[..|a + b| - 1] == a + b[..n] && (a + b)[|a + b| - 1] == b[n];
      CompactItemsConcat(a, b[..n]);
      CompactItemsSnoc(a + b);
      CompactItemsSnoc(b);
      Regroup(CompactItems(a) + (if a == [] then "" else ","), CompactItems(b[..n]), ",", Compact(b[n]), "");
    }
  }

  method CompactChunks(entities: seq<Json>, key: string) returns (chunks: seq<string>)
    ensures Join(chunks) == ("\"" + key + "\"") + ":" + Compact(List(entities))
  {
    hide Join, CompactItems, DumpBatch;
    var head := ("\"" + key + "\"") + ":" + "[";
    chunks := [head];
    JoinOne(head);
    NoItems();
    var batch: seq<Json> := [];
    var first := true;
    ghost var done: nat := 0;
    for i := 0 to |entities|
      invariant done <= i && batch == entities[done..i] && (first <==> done == 0)
      invariant |batch| < SNAPSHOT_BATCH
      invariant Join(chunks) == head + CompactItems(entities[..done])
    {
      batch := batch + [entities[i]];
      if |batch| >= SNAPSHOT_BATCH {
        DumpedItems(batch, first);
        CompactItemsConcat(entities[..done], batch);
        assert entities[..done] + batch == entities[..i + 1];
        JoinSnoc(chunks, DumpBatch(batch, first));
        chunks := chunks + [DumpBatch(batch, first)];
        first, batch, done := false, [], i + 1;
      }
    }
    assert entities[..done] + batch == entities;
    CompactItemsConcat(entities[..done], batch);
    if batch != [] {
      DumpedItems(batch, first);
      JoinSnoc(chunks, DumpBatch(batch, first));
      chunks := chunks + [DumpBatch(batch, first)];
    }
    JoinSnoc(chunks, "]");
    chunks := chunks + ["]"];
  }

  lemma JoinOne(c: string)
    ensures Join([c]) == c
  {
    assert [c][..0] == [];
  }

  lemma NoItems()
    ensures CompactItems([]) == ""
  {
  }

  method IterModelJsonCompact(elements: seq<Json>, relationships: seq<Json>) returns (chunks: seq<string>)
    ensures Join(chunks) == Compact(Document(elements, relationships))
  {
    hide Compact, Join, Document, Quote;
    var els := CompactChunks(elements, "elements");
    var rels := CompactChunks(relationships, "relationships");
    chunks := ["{"] + els + [","] + rels + ["}"];
    JoinParts("{", els, ",", rels, "}");
    PlainKeys();
    CompactDocument(elements, relationships);
    Regroup("{", Join(els), ",", Join(rels), "");
  }

  function CompactMember(key: string, value: Json): string {
    Quote(key) + ":" + Compact(value)
  }

  lemma CompactTwoFields(k: string, a: Json, l: string, b: Json)
    ensures CompactFields([Field(k, a), Field(l, b)]) == CompactMember(k, a) + "," + CompactMember(l, b)
  {
    hide Quote, Compact;
    var e, r := Field(k, a), Field(l, b);
    assert [e, r][..1] == [e] && [e][..0] == [];
    assert CompactFields([e]) == "" + "" + Quote(k) + ":" + Compact(a);
    assert CompactFields([e]) == CompactMember(k, a);
    assert CompactFields([e, r]) == CompactMember(k, a) + "," + Quote(l) + ":" + Compact(b);
    Regroup(CompactMember(k, a) + ",", Quote(l), ":", Compact(b), "");
  }

  lemma CompactDocument(elements: seq<Json>, relationships: seq<Json>)
    ensures Compact(Document(elements, relationships)) ==
      "{" + (CompactMember("elements", List(elements)) + "," + CompactMember("relationships", List(relationships))) + "}"
  {
    hide Quote, CompactMember;
    CompactTwoFields("elements", List(elements), "relationships", List(relationships));
  }

  // ---- re-chunking ------------------------------------------------------------------------------------------

  /** Chunks are only concatenated: the text stays, and every piece but the last is at
      least `minSize` long. */
  method IterBuffered(chunks: seq<string>, minSize: nat) returns (pieces: seq<string>)
    ensures Join(pieces) == Join(chunks)
    ensures forall i :: 0 <= i < |pieces| - 1 ==> |pieces[i]| >= minSize
  {
    hide Join;
    pieces := [];
    var buf: seq<string> := [];
    var buffered := 0;
    NothingJoined();
    for i := 0 to |chunks|
      invariant Join(pieces) + Join(buf) == Join(chunks[..i]) && buffered == |Join(buf)|
      invariant forall j :: 0 <= j < |pieces| ==> |pieces[j]| >= minSize
    {
      assert chunks[..i + 1] == chunks[..i] + [chunks[i]];
      JoinSnoc(chunks[..i], chunks[i]);
      JoinSnoc(buf, chunks[i]);
      buf := buf + [chunks[i]];
      buffered := buffered + |chunks[i]|;
      if buffered >= minSize {
        JoinSnoc(pieces, Join(buf));
        pieces := pieces + [Join(buf)];
        buf, buffered := [], 0;
      }
    }
    assert chunks[..|chunks|] == chunks;
    if buf != [] {
      JoinSnoc(pieces, Join(buf));
      pieces := pieces + [Join(buf)];
    }
  }

  lemma NothingJoined()
    ensures Join([]) == ""
  {
  }
}
