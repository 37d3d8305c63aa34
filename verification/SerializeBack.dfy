/** What api/serialize.py writes can be read: a reader of JSON text (RFC 8259) gives back
    the very value from its compact and from its indented print. */
module SerializeBack {
  import opened Collections
  import opened Json
  import opened Serialize

  // ---- the reader --------------------------------------------------------------------------

  predicate Blank(c: char) {
    c == ' ' || c == '\n' || c == '\t' || c == '\r'
  }

  function Skip(s: string): (r: string)
    ensures |r| <= |s| && (r != "" ==> !Blank(r[0]))
  {
    if s != "" && Blank(s[0]) then Skip(s[1..]) else s
  }

  function HexValue(c: char): Option<nat> {
    if '0' <= c <= '9' then Some((c - '0') as nat)
    else if 'a' <= c <= 'f' then Some((c - 'a') as nat + 10)
    else if 'A' <= c <= 'F' then Some((c - 'A') as nat + 10)
    else None
  }

  /** Four hexadecimal digits; a surrogate is no character. */
  function ReadHex(s: string): Option<char> {
    if |s| < 4 || exists i | 0 <= i < 4 :: HexValue(s[i]).None? then None else
    var code := ((HexValue(s[0]).value * 16 + HexValue(s[1]).value) * 16 + HexValue(s[2]).value) * 16 + HexValue(s[3]).value;
    if 0xD800 <= code < 0xE000 || code >= 0x1_0000 then None else Some(code as char)
  }

  /** The character of a two-character escape. */
  function Unescaped(c: char): Option<char> {
    if c in {'\U{0022}', '\U{005C}', '/'} then Some(c)
    else if c == 'b' then Some('\U{0008}')
    else if c == 'f' then Some('\U{000C}')
    else if c == 'n' then Some('\n')
    else if c == 'r' then Some('\r')
    else if c == 't' then Some('\t')
    else None
  }

  /** One character of a string, with what follows it. */
  function ReadChar(s: string): (r: Option<(char, string)>)
    ensures r.Some? ==> |r.value.1| < |s|
  {
    if s == "" || s[0] < ' ' || s[0] == '\U{0022}' then None
    else if s[0] != '\U{005C}' then Some((s[0], s[1..]))
    else if |s| < 2 then None
    else if s[1] == 'u' then
      var c := ReadHex(s[2..]);
      if c.None? then None else Some((c.value, s[6..]))
    else
      var c := Unescaped(s[1]);
      if c.None? then None else Some((c.value, s[2..]))
  }

  /** A string after its opening quote. */
  function ReadString(s: string): (r: Option<(string, string)>)
    ensures r.Some? ==> |r.value.1| < |s|
  {
    if s != "" && s[0] == '\U{0022}' then Some(("", s[1..])) else
    var c := ReadChar(s);
    if c.None? then None else
    var more := ReadString(c.value.1);
    if more.None? then None else Some(([c.value.0] + more.value.0, more.value.1))
  }

  /** How long a number at the start is. */
  function NumeralRun(s: string): (n: nat)
    ensures n <= |s| && forall i :: 0 <= i < n ==> NumeralChar(s[i])
  {
    if s == "" || !NumeralChar(s[0]) then 0 else 1 + NumeralRun(s[1..])
  }

  function ReadValue(s: string): (r: Option<(Json, string)>)
    ensures r.Some? ==> |r.value.1| < |s|
    decreases |s|, 1
  {
    ReadToken(Skip(s))
  }

  function ReadToken(t: string): (r: Option<(Json, string)>)
    ensures r.Some? ==> |r.value.1| < |t|
    decreases |t|, 0
  {
    if t == "" then None
    else if t[0] == '[' then
      var u := Skip(t[1..]);
      if u != "" && u[0] == ']' then Some((List([]), u[1..])) else
      var items := ReadItems(t[1..]);
      if items.None? then None else Some((List(items.value.0), items.value.1))
    else if t[0] == '{' then
      var u := Skip(t[1..]);
      if u != "" && u[0] == '}' then Some((Obj([]), u[1..])) else
      var fields := ReadFields(t[1..]);
      if fields.None? then None else Some((Obj(fields.value.0), fields.value.1))
    else if t[0] == '\U{0022}' then
      var text := ReadString(t[1..]);
      if text.None? then None else Some((Str(text.value.0), text.value.1))
    else if "null" <= t then Some((Null, t[4..]))
    else if "true" <= t then Some((Bool(true), t[4..]))
    else if "false" <= t then Some((Bool(false), t[5..]))
    else if NumeralRun(t) > 0 then Some((Num(t[..NumeralRun(t)]), t[NumeralRun(t)..]))
    else None
  }

  function ReadItems(s: string): (r: Option<(seq<Json>, string)>)
    ensures r.Some? ==> |r.value.1| < |s|
    decreases |s|, 2
  {
    var v := ReadValue(s);
    if v.None? then None else
    var t := Skip(v.value.1);
    if t != "" && t[0] == ']' then Some(([v.value.0], t[1..]))
    else if t != "" && t[0] == ',' then
      var more := ReadItems(t[1..]);
      if more.None? then None else Some(([v.value.0] + more.value.0, more.value.1))
    else None
  }

  function ReadFields(s: string): (r: Option<(seq<Field>, string)>)
    ensures r.Some? ==> |r.value.1| < |s|
    decreases |s|, 2
  {
    var f := ReadField(s);
    if f.None? then None else
    var t := Skip(f.value.1);
    if t != "" && t[0] == '}' then Some(([f.value.0], t[1..]))
    else if t != "" && t[0] == ',' then
      var more := ReadFields(t[1..]);
      if more.None? then None else Some(([f.value.0] + more.value.0, more.value.1))
    else None
  }

  function ReadField(s: string): (r: Option<(Field, string)>)
    ensures r.Some? ==> |r.value.1| < |s|
    decreases |s|, 1
  {
    var t := Skip(s);
    if t == "" || t[0] != '\U{0022}' then None else
    var key := ReadString(t[1..]);
    if key.None? then None else
    var u := Skip(key.value.1);
    if u == "" || u[0] != ':' then None else
    var v := ReadValue(u[1..]);
    if v.None? then None else Some((Field(key.value.0, v.value.0), v.value.1))
  }

  /** A whole document, nothing after it. */
  function ReadDocument(s: string): Option<Json> {
    var v := ReadValue(s);
    if v.Some? && Skip(v.value.1) == "" then Some(v.value.0) else None
  }

  // ---- text ------------------------------------------------------------------------------------

  /** What may follow a value: nothing that could belong to a number. */
  predicate Delimited(s: string) {
    s == "" || !NumeralChar(s[0])
  }

  predicate Blanks(s: string) {
    forall i :: 0 <= i < |s| ==> Blank(s[i])
  }

  lemma {:induction false} SkipBlanks(b: string, s: string)
    requires Blanks(b)
    ensures Skip(b + s) == Skip(s)
  {
    if b == "" {
      assert b + s == s;
    } else {
      assert (b + s)[0] == b[0] && (b + s)[1..] == b[1..] + s;
      SkipBlanks(b[1..], s);
    }
  }

  lemma {:induction false} SpacesAreBlank(n: nat)
    ensures Blanks(Spaces(n)) && Blanks("\n" + Spaces(n))
  {
    if n > 0 {
      SpacesAreBlank(n - 1);
    }
  }

  lemma Group(a: string, b: string, c: string, e: string)
    ensures a + b + c + e == a + (b + c + e) == a + (b + (c + e)) == (a + b) + (c + e)
  {
  }

  // ---- strings -----------------------------------------------------------------------------------

  lemma {:induction false} EscapeCons(c: char, s: string)
    ensures Escape([c] + s) == EscapeChar(c) + Escape(s)
  {
    hide EscapeChar;
    if s == "" {
      assert [c] + s == [c] && [c][..0] == "";
    } else {
      var n := |s| - 1;
      assert ([c] + s)[..|s|] == [c] + s[..n];
      EscapeCons(c, s[..n]);
      Assoc(EscapeChar(c), Escape(s[..n]), EscapeChar(s[n]));
    }
  }

  lemma HexRead(d: nat)
    requires d < 16
    ensures HexValue(Hex(d)) == Some(d)
  {
  }

  /** An escaped character is read back. */
  lemma CharBack(c: char, x: string)
    ensures ReadChar(EscapeChar(c) + x) == Some((c, x))
  {
    var e := EscapeChar(c);
    assert (e + x)[|e|..] == x && forall i :: 0 <= i < |e| ==> (e + x)[i] == e[i];
    if |e| == 6 {
      var h := (e + x)[2..];
      assert h[0] == '0' && h[1] == '0' && h[2] == e[4] && h[3] == e[5] && |h| >= 4;
      HexRead(c as nat / 16);
      HexRead(c as nat % 16);
      assert ReadHex(h) == Some(c);
    }
  }

  lemma EscapedStart(c: char, x: string)
    ensures EscapeChar(c) != "" && (EscapeChar(c) + x)[0] != '\U{0022}'
  {
  }

  /** A quoted string is read back up to its closing quote. */
  lemma {:induction false} StringBack(s: string, x: string)
    ensures ReadString(Escape(s) + ("\"" + x)) == Some((s, x))
  {
    hide EscapeChar, ReadChar;
    var end := "\"" + x;
    assert end[0] == '\U{0022}' && end[1..] == x;
    if s == "" {
      assert Escape(s) + end == end;
    } else {
      assert s == [s[0]] + s[1..];
      EscapeCons(s[0], s[1..]);
      var rest := Escape(s[1..]) + end;
      Assoc(EscapeChar(s[0]), Escape(s[1..]), end);
      EscapedStart(s[0], rest);
      CharBack(s[0], rest);
      StringBack(s[1..], x);
    }
  }

  lemma QuoteSplit(s: string, x: string)
    ensures Quote(s) + x == "\"" + (Escape(s) + ("\"" + x))
  {
    hide Escape;
    Group("\"", Escape(s), "\"", x);
  }

  // ---- scalars ------------------------------------------------------------------------------------

  lemma {:induction false} RunEnds(literal: string, x: string)
    requires (forall i :: 0 <= i < |literal| ==> NumeralChar(literal[i])) && Delimited(x)
    ensures NumeralRun(literal + x) == |literal|
  {
    if literal == "" {
      assert literal + x == x;
    } else {
      assert (literal + x)[0] == literal[0] && (literal + x)[1..] == literal[1..] + x;
      RunEnds(literal[1..], x);
    }
  }

  lemma ScalarBack(j: Json, x: string)
    requires !j.List? && !j.Obj? && Delimited(x)
    ensures Scalar(j) != "" && ReadToken(Scalar(j) + x) == Some((j, x))
  {
    hide Escape, ReadString, NumeralRun;
    var s := Scalar(j);
    match j
    case Str(text) =>
      QuoteSplit(text, x);
      StringBack(text, x);
      var t := Quote(text) + x;
      assert t[0] == '\U{0022}' && t[1..] == Escape(text) + ("\"" + x);
    case Num(literal) =>
      RunEnds(literal, x);
      var t := literal + x;
      assert t[0] == literal[0] && t[..|literal|] == literal && t[|literal|..] == x;
    case Null => WordStays(s, x);
    case Bool(_) => WordStays(s, x);
    case _ =>
  }

  lemma WordStays(word: string, x: string)
    requires word != ""
    ensures (word + x)[0] == word[0] && (word + x)[|word|..] == x && word <= word + x
  {
  }

  // ---- lists of texts --------------------------------------------------------------------------

  /** Texts one after another, `first` before the first, `sep` before every other. */
  function Listed(parts: seq<string>, first: string, sep: string): string {
    if parts == [] then "" else
    var n := |parts| - 1;
    Listed(parts[..n], first, sep) + (if n == 0 then first else sep) + parts[n]
  }

  function Rest(parts: seq<string>, sep: string): string {
    if parts == [] then "" else sep + (parts[0] + Rest(parts[1..], sep))
  }

  lemma {:induction false} RestSnoc(parts: seq<string>, sep: string, p: string)
    ensures Rest(parts + [p], sep) == Rest(parts, sep) + (sep + p)
  {
    if parts == [] {
      assert [p][1..] == [] && Rest([], sep) == "";
      assert Rest([p], sep) == sep + (p + "");
    } else {
      assert (parts + [p])[1..] == parts[1..] + [p];
      RestSnoc(parts[1..], sep, p);
      Assoc(parts[0], Rest(parts[1..], sep), sep + p);
      Assoc(sep, parts[0] + Rest(parts[1..], sep), sep + p);
    }
  }

  lemma ListedSnoc(parts: seq<string>, first: string, sep: string)
    requires parts != []
    ensures var n := |parts| - 1; Listed(parts, first, sep) == Listed(parts[..n], first, sep) + (if n == 0 then first else sep) + parts[n]
    ensures Listed([], first, sep) == ""
  {
  }

  lemma {:induction false} ListedStart(parts: seq<string>, first: string, sep: string)
    requires parts != []
    ensures Listed(parts, first, sep) == first + (parts[0] + Rest(parts[1..], sep))
  {
    hide Rest, Listed;
    var n := |parts| - 1;
    ListedSnoc(parts, first, sep);
    if n == 0 {
      NoRest(sep);
      assert parts[..0] == [] && parts[1..] == [];
    } else {
      ListedStart(parts[..n], first, sep);
      var middle := parts[..n][1..];
      assert parts[1..] == middle + [parts[n]] && parts[..n][0] == parts[0];
      RestSnoc(middle, sep, parts[n]);
      Append(first, parts[0], Rest(middle, sep), sep, parts[n]);
    }
  }

  lemma Append(a: string, b: string, c: string, e: string, f: string)
    ensures a + (b + c) + e + f == a + (b + (c + (e + f)))
  {
    Assoc(a + (b + c), e, f);
    Assoc(a, b + c, e + f);
    Assoc(b, c, e + f);
  }

  lemma NoRest(sep: string)
    ensures Rest([], sep) == ""
  {
  }

  /** Where the rest of a list ends: at its closing text, which a separator is not. */
  lemma RestStart(parts: seq<string>, sep: string, close: string)
    requires sep != "" && sep[0] == ',' && close != "" && close[0] != ',' && !NumeralChar(close[0])
    ensures Delimited(Rest(parts, sep) + close)
    ensures (Rest(parts, sep) + close)[0] == (if parts == [] then close[0] else ',')
  {
    if parts != [] {
      assert (sep + (parts[0] + Rest(parts[1..], sep)) + close)[0] == sep[0];
    }
  }

  lemma RestCons(p: seq<string>, sep: string, end: string)
    requires p != []
    ensures Rest(p, sep) + end == sep + (p[0] + (Rest(p[1..], sep) + end))
  {
    Assoc(sep, p[0] + Rest(p[1..], sep), end);
    Assoc(p[0], Rest(p[1..], sep), end);
  }

  lemma Unfold(open: string, first: string, p: string, rest: string, close: string, x: string)
    ensures open + (first + (p + rest)) + close + x == open + (first + (p + (rest + (close + x))))
  {
    Group(open, first + (p + rest), close, x);
    Assoc(first, p + rest, close + x);
    Assoc(p, rest, close + x);
  }

  // ---- the two prints ---------------------------------------------------------------------------

  function Items(items: seq<Json>, pretty: bool, d: nat): seq<string> {
    seq(|items|, i requires 0 <= i < |items| => if pretty then Pretty(items[i], d) else Compact(items[i]))
  }

  function Members(fields: seq<Field>, pretty: bool, d: nat): seq<string> {
    seq(|fields|, i requires 0 <= i < |fields| => Member(fields[i], pretty, d))
  }

  function Colon(pretty: bool): string {
    if pretty then ": " else ":"
  }

  function Member(f: Field, pretty: bool, d: nat): string {
    Quote(f.key) + (Colon(pretty) + Print(f.value, pretty, d))
  }

  function Print(j: Json, pretty: bool, d: nat): string {
    if pretty then Pretty(j, d) else Compact(j)
  }

  function First(pretty: bool, d: nat): string {
    if pretty then "\n" + Spaces(STEP * d) else ""
  }

  function Sep(pretty: bool, d: nat): string {
    if pretty then ",\n" + Spaces(STEP * d) else ","
  }

  function Close(pretty: bool, d: nat, bracket: string): string {
    if pretty then "\n" + Spaces(STEP * d) + bracket else bracket
  }

  lemma {:induction false} ItemsListed(items: seq<Json>, pretty: bool, d: nat)
    ensures (if pretty then PrettyItems(items, d) else CompactItems(items)) == Listed(Items(items, pretty, d), First(pretty, d), Sep(pretty, d))
  {
    hide PrettyItems, CompactItems, Listed, First, Sep;
    if items == [] {
      NoParts(pretty, d);
    } else {
      var n := |items| - 1;
      ItemsListed(items[..n], pretty, d);
      assert Items(items, pretty, d)[..n] == Items(items[..n], pretty, d);
      ListedSnoc(Items(items, pretty, d), First(pretty, d), Sep(pretty, d));
      ItemsSnoc(items, d);
      SepText(pretty, d, n);
      if pretty {
        Spread(PrettyItems(items[..n], d), Comma(n), "\n", Spaces(STEP * d), Pretty(items[n], d), "", "");
      }
    }
  }

  function Comma(n: nat): string {
    if n == 0 then "" else ","
  }

  lemma NoParts(pretty: bool, d: nat)
    ensures PrettyItems([], d) == CompactItems([]) == PrettyFields([], d) == CompactFields([]) == ""
    ensures Listed([], First(pretty, d), Sep(pretty, d)) == ""
  {
  }

  lemma ItemsSnoc(items: seq<Json>, d: nat)
    requires items != []
    ensures var n := |items| - 1;
      && PrettyItems(items, d) == PrettyItems(items[..n], d) + Comma(n) + "\n" + Spaces(STEP * d) + Pretty(items[n], d)
      && CompactItems(items) == CompactItems(items[..n]) + Comma(n) + Compact(items[n])
  {
    hide Pretty, Compact, Spaces;
  }

  lemma SepText(pretty: bool, d: nat, n: nat)
    ensures (if n == 0 then First(pretty, d) else Sep(pretty, d)) == if pretty then Comma(n) + ("\n" + Spaces(STEP * d)) else Comma(n)
  {
    hide Spaces;
    assert ",\n" + Spaces(STEP * d) == "," + ("\n" + Spaces(STEP * d));
    assert "" + ("\n" + Spaces(STEP * d)) == "\n" + Spaces(STEP * d);
  }

  lemma Spread(before: string, comma: string, newline: string, spaces: string, key: string, colon: string, value: string)
    ensures before + comma + newline + spaces + key + colon + value == before + (comma + (newline + spaces)) + (key + (colon + value))
    ensures before + comma + newline + spaces + key == before + (comma + (newline + spaces)) + key
    ensures before + comma + key + colon + value == before + comma + (key + (colon + value))
  {
    Group(before, comma, newline, spaces);
    Group(before + (comma + (newline + spaces)), key, colon, value);
    Group(before + comma, key, colon, value);
  }

  lemma {:induction false} MembersListed(fields: seq<Field>, pretty: bool, d: nat)
    ensures (if pretty then PrettyFields(fields, d) else CompactFields(fields)) ==
      Listed(Members(fields, pretty, d), First(pretty, d), Sep(pretty, d))
  {
    hide PrettyFields, CompactFields, Listed, First, Sep, Member;
    if fields == [] {
      NoParts(pretty, d);
    } else {
      var n := |fields| - 1;
      MembersListed(fields[..n], pretty, d);
      assert Members(fields, pretty, d)[..n] == Members(fields[..n], pretty, d);
      ListedSnoc(Members(fields, pretty, d), First(pretty, d), Sep(pretty, d));
      if pretty {
        PrettyFieldsSnoc(fields, d);
      } else {
        CompactFieldsSnoc(fields, d);
      }
    }
  }

  lemma PrettyFieldsSnoc(fields: seq<Field>, d: nat)
    requires fields != []
    ensures var n := |fields| - 1;
      PrettyFields(fields, d) == PrettyFields(fields[..n], d) + (if n == 0 then First(true, d) else Sep(true, d)) + Member(fields[n], true, d)
  {
    hide Pretty, Quote, Spaces, First, Sep;
    var n := |fields| - 1;
    SepText(true, d, n);
    Spread(PrettyFields(fields[..n], d), Comma(n), "\n", Spaces(STEP * d), Quote(fields[n].key), ": ", Pretty(fields[n].value, d));
  }

  lemma CompactFieldsSnoc(fields: seq<Field>, d: nat)
    requires fields != []
    ensures var n := |fields| - 1;
      CompactFields(fields) == CompactFields(fields[..n]) + (if n == 0 then First(false, d) else Sep(false, d)) + Member(fields[n], false, d)
  {
    hide Compact, Quote, Spaces, First, Sep;
    var n := |fields| - 1;
    SepText(false, d, n);
    Spread(CompactFields(fields[..n]), Comma(n), "", "", Quote(fields[n].key), ":", Compact(fields[n].value));
  }

  lemma PrintList(items: seq<Json>, pretty: bool, d: nat)
    requires items != []
    ensures Print(List(items), pretty, d) ==
      "[" + Listed(Items(items, pretty, d + 1), First(pretty, d + 1), Sep(pretty, d + 1)) + Close(pretty, d, "]")
  {
    hide PrettyItems, CompactItems, Spaces, Listed, Items;
    ItemsListed(items, pretty, d + 1);
    if pretty {
      Group("[", PrettyItems(items, d + 1), "\n", Spaces(STEP * d) + "]");
      Group("[" + PrettyItems(items, d + 1), "\n", Spaces(STEP * d), "]");
    }
  }

  lemma PrintObj(fields: seq<Field>, pretty: bool, d: nat)
    requires fields != []
    ensures Print(Obj(fields), pretty, d) ==
      "{" + Listed(Members(fields, pretty, d + 1), First(pretty, d + 1), Sep(pretty, d + 1)) + Close(pretty, d, "}")
  {
    hide PrettyFields, CompactFields, Spaces, Listed, Members;
    MembersListed(fields, pretty, d + 1);
    if pretty {
      Group("{", PrettyFields(fields, d + 1), "\n", Spaces(STEP * d) + "}");
      Group("{" + PrettyFields(fields, d + 1), "\n", Spaces(STEP * d), "}");
    }
  }

  lemma ScalarPrint(j: Json, pretty: bool, d: nat)
    requires !j.List? && !j.Obj?
    ensures Print(j, pretty, d) == Scalar(j)
  {
  }

  lemma EmptyPrints(pretty: bool, d: nat)
    ensures Print(List([]), pretty, d) == "[]" && Print(Obj([]), pretty, d) == "{}"
  {
  }

  // ---- reading them back --------------------------------------------------------------------------

  /** A text, whatever delimiter follows, is read as this value. */
  ghost predicate ReadsAs(p: string, j: Json) {
    && p != "" && !Blank(p[0]) && p[0] != ']'
    && forall x :: Delimited(x) ==> ReadToken(p + x) == Some((j, x))
  }

  lemma TokenIsValue(p: string, j: Json, b: string, x: string)
    requires ReadsAs(p, j) && Blanks(b) && Delimited(x)
    ensures ReadValue(b + (p + x)) == Some((j, x))
  {
    SkipBlanks(b, p + x);
    assert (p + x)[0] == p[0];
  }

  /** A separator is a comma and blanks, a closing text is blanks and a bracket. */
  predicate Layout(sep: string, close: string, bracket: char) {
    && sep != "" && sep[0] == ',' && Blanks(sep[1..])
    && close != "" && close[|close| - 1] == bracket && Blanks(close[..|close| - 1]) && bracket in {']', '}'}
  }

  lemma ClosedBy(sep: string, close: string, bracket: char, x: string)
    requires Layout(sep, close, bracket)
    ensures Skip(close + x) == [bracket] + x && close + x != "" && (close + x)[0] == close[0] && close[0] != ',' && !NumeralChar(close[0])
  {
    var b := close[..|close| - 1];
    assert close + x == b + ([bracket] + x);
    SkipBlanks(b, [bracket] + x);
    assert b == "" ==> close[0] == bracket;
    assert b != "" ==> close[0] == b[0];
  }

  lemma {:induction false} ItemsBack(items: seq<Json>, parts: seq<string>, b: string, sep: string, close: string, x: string)
    requires |parts| == |items| > 0 && (forall i :: 0 <= i < |items| ==> ReadsAs(parts[i], items[i]))
    requires Blanks(b) && Layout(sep, close, ']')
    ensures ReadItems(b + (parts[0] + (Rest(parts[1..], sep) + (close + x)))) == Some((items, x))
  {
    hide ReadsAs, Delimited, ReadValue, Skip, NumeralChar;
    var u := Rest(parts[1..], sep) + (close + x);
    ClosedBy(sep, close, ']', x);
    RestStart(parts[1..], sep, close + x);
    TokenIsValue(parts[0], items[0], b, u);
    if |items| == 1 {
      NoRest(sep);
      assert u == close + x;
      assert ("]" + x)[1..] == x;
      assert items == [items[0]];
    } else {
      RestCons(parts[1..], sep, close + x);
      var v := parts[1] + (Rest(parts[1..][1..], sep) + (close + x));
      CommaStays(sep, v);
      assert u == sep + v;
      ItemsBack(items[1..], parts[1..], sep[1..], sep, close, x);
      assert items == [items[0]] + items[1..];
    }
  }

  lemma CommaStays(sep: string, v: string)
    requires sep != "" && sep[0] == ','
    ensures Skip(sep + v) == sep + v && (sep + v)[0] == ',' && (sep + v)[1..] == sep[1..] + v
  {
  }

  /** A member, whatever delimiter and blanks around it, is read as this field. */
  ghost predicate ReadsAsField(p: string, f: Field) {
    && p != "" && p[0] == '\U{0022}'
    && forall b, x :: Blanks(b) && Delimited(x) ==> ReadField(b + (p + x)) == Some((f, x))
  }

  lemma {:induction false} FieldsBack(fields: seq<Field>, parts: seq<string>, b: string, sep: string, close: string, x: string)
    requires |parts| == |fields| > 0 && (forall i :: 0 <= i < |fields| ==> ReadsAsField(parts[i], fields[i]))
    requires Blanks(b) && Layout(sep, close, '}')
    ensures ReadFields(b + (parts[0] + (Rest(parts[1..], sep) + (close + x)))) == Some((fields, x))
  {
    hide Delimited, ReadField, Skip, NumeralChar;
    var u := Rest(parts[1..], sep) + (close + x);
    ClosedBy(sep, close, '}', x);
    RestStart(parts[1..], sep, close + x);
    assert ReadsAsField(parts[0], fields[0]);
    if |fields| == 1 {
      NoRest(sep);
      assert u == close + x;
      assert ("}" + x)[1..] == x;
      assert fields == [fields[0]];
    } else {
      RestCons(parts[1..], sep, close + x);
      var v := parts[1] + (Rest(parts[1..][1..], sep) + (close + x));
      CommaStays(sep, v);
      assert u == sep + v;
      FieldsBack(fields[1..], parts[1..], sep[1..], sep, close, x);
      assert fields == [fields[0]] + fields[1..];
    }
  }

  lemma MemberBack(f: Field, pretty: bool, d: nat)
    requires ReadsAs(Print(f.value, pretty, d), f.value)
    ensures ReadsAsField(Member(f, pretty, d), f)
  {
    hide Escape, Print, ReadsAs, ReadValue, ReadString;
    var p, v := Member(f, pretty, d), Print(f.value, pretty, d);
    assert p[0] == '\U{0022}';
    forall b, x | Blanks(b) && Delimited(x) ensures ReadField(b + (p + x)) == Some((f, x)) {
      var colon, after := Colon(pretty), v + x;
      Assoc(Quote(f.key), colon + v, x);
      Assoc(colon, v, x);
      QuoteSplit(f.key, colon + after);
      var t := Escape(f.key) + ("\"" + (colon + after));
      assert p + x == "\"" + t && (p + x)[1..] == t;
      SkipBlanks(b, p + x);
      StringBack(f.key, colon + after);
      var gap := if pretty then " " else "";
      assert colon + after == ":" + (gap + after) && (colon + after)[1..] == gap + after;
      TokenIsValue(v, f.value, gap, x);
    }
  }

  lemma Layouts(pretty: bool, d: nat, bracket: char)
    requires bracket == ']' || bracket == '}'
    ensures Blanks(First(pretty, d + 1)) && Layout(Sep(pretty, d + 1), Close(pretty, d, [bracket]), bracket)
  {
    hide Spaces;
    SpacesAreBlank(STEP * d);
    SpacesAreBlank(STEP * (d + 1));
    if pretty {
      assert Sep(pretty, d + 1)[1..] == "\n" + Spaces(STEP * (d + 1));
      var close := Close(pretty, d, [bracket]);
      assert close[..|close| - 1] == "\n" + Spaces(STEP * d);
    }
  }

  /** Each print, followed by anything that does not go on as a number, is read as its value. */
  lemma {:induction false} PrintBack(j: Json, pretty: bool, d: nat)
    ensures ReadsAs(Print(j, pretty, d), j)
    decreases j
  {
    hide Print, Scalar, ReadsAs, ReadsAsField;
    match j
    case List(items) =>
      forall i | 0 <= i < |items| ensures ReadsAs(Print(items[i], pretty, d + 1), items[i]) {
        PrintBack(items[i], pretty, d + 1);
      }
      ListBack(items, pretty, d);
    case Obj(fields) =>
      forall i | 0 <= i < |fields| ensures ReadsAsField(Member(fields[i], pretty, d + 1), fields[i]) {
        PrintBack(fields[i].value, pretty, d + 1);
        MemberBack(fields[i], pretty, d + 1);
      }
      ObjBack(fields, pretty, d);
    case _ =>
      ScalarPrint(j, pretty, d);
      ScalarReads(j);
  }

  lemma ScalarReads(j: Json)
    requires !j.List? && !j.Obj?
    ensures ReadsAs(Scalar(j), j)
  {
    hide ReadToken, Escape;
    forall x | Delimited(x) ensures ReadToken(Scalar(j) + x) == Some((j, x)) {
      ScalarBack(j, x);
    }
    assert j.Num? ==> NumeralChar(j.literal[0]);
  }

  lemma ListBack(items: seq<Json>, pretty: bool, d: nat)
    requires forall i :: 0 <= i < |items| ==> ReadsAs(Print(items[i], pretty, d + 1), items[i])
    ensures ReadsAs(Print(List(items), pretty, d), List(items))
  {
    hide Print, Listed, Close, First, Sep, Rest, Layout, Blanks, ReadItems, Delimited, Skip;
    var p, parts := Print(List(items), pretty, d), Items(items, pretty, d + 1);
    var first, sep, close := First(pretty, d + 1), Sep(pretty, d + 1), Close(pretty, d, "]");
    EmptyPrints(pretty, d);
    forall x | Delimited(x) ensures p != "" && p[0] == '[' && ReadToken(p + x) == Some((List(items), x)) {
      if items == [] {
        assert ("[]" + x)[1..] == "]" + x && ("]" + x)[1..] == x;
        BracketStays("]", x);
      } else {
        ItemTexts(items, pretty, d + 1);
        Layouts(pretty, d, ']');
        PrintList(items, pretty, d);
        ListedStart(parts, first, sep);
        Unfold("[", first, parts[0], Rest(parts[1..], sep), close, x);
        var u := parts[0] + (Rest(parts[1..], sep) + (close + x));
        assert ReadsAs(parts[0], items[0]);
        assert p + x == "[" + (first + u) && (p + x)[1..] == first + u && (p + x)[0] == '[';
        assert p != "" && p[0] == (p + x)[0];
        ItemsBack(items, parts, first, sep, close, x);
        SkipBlanks(first, u);
        BracketStays(parts[0], Rest(parts[1..], sep) + (close + x));
      }
    }
    assert Delimited("") by { NothingDelimits(); }
  }

  lemma BracketStays(p: string, x: string)
    requires p != "" && !Blank(p[0])
    ensures Skip(p + x) == p + x && (p + x)[0] == p[0]
  {
  }

  lemma NothingDelimits()
    ensures Delimited("")
  {
  }

  lemma ItemTexts(items: seq<Json>, pretty: bool, d: nat)
    ensures |Items(items, pretty, d)| == |items|
    ensures forall i :: 0 <= i < |items| ==> Items(items, pretty, d)[i] == Print(items[i], pretty, d)
  {
    hide Pretty, Compact;
  }

  lemma ObjBack(fields: seq<Field>, pretty: bool, d: nat)
    requires forall i :: 0 <= i < |fields| ==> ReadsAsField(Member(fields[i], pretty, d + 1), fields[i])
    ensures ReadsAs(Print(Obj(fields), pretty, d), Obj(fields))
  {
    hide Print, Listed, Close, First, Sep, Rest, Layout, Blanks, ReadFields, Delimited, Skip, Member;
    var p, parts := Print(Obj(fields), pretty, d), Members(fields, pretty, d + 1);
    var first, sep, close := First(pretty, d + 1), Sep(pretty, d + 1), Close(pretty, d, "}");
    EmptyPrints(pretty, d);
    forall x | Delimited(x) ensures p != "" && p[0] == '{' && ReadToken(p + x) == Some((Obj(fields), x)) {
      if fields == [] {
        assert ("{}" + x)[1..] == "}" + x && ("}" + x)[1..] == x;
        BracketStays("}", x);
      } else {
        Layouts(pretty, d, '}');
        PrintObj(fields, pretty, d);
        ListedStart(parts, first, sep);
        Unfold("{", first, parts[0], Rest(parts[1..], sep), close, x);
        var u := parts[0] + (Rest(parts[1..], sep) + (close + x));
        assert forall i :: 0 <= i < |fields| ==> ReadsAsField(parts[i], fields[i]);
        assert p + x == "{" + (first + u) && (p + x)[1..] == first + u && (p + x)[0] == '{';
        assert p != "" && p[0] == (p + x)[0];
        FieldsBack(fields, parts, first, sep, close, x);
        SkipBlanks(first, u);
        assert ReadsAsField(parts[0], fields[0]);
        BracketStays(parts[0], Rest(parts[1..], sep) + (close + x));
      }
    }
    assert Delimited("") by { NothingDelimits(); }
  }

  /** Both prints of a value are read back as that value. */
  lemma ReadBack(j: Json)
    ensures ReadDocument(Compact(j)) == Some(j)
    ensures ReadDocument(Pretty(j, 0)) == Some(j)
  {
    forall pretty: bool ensures ReadDocument(Print(j, pretty, 0)) == Some(j) {
      var p := Print(j, pretty, 0);
      PrintBack(j, pretty, 0);
      NothingDelimits();
      TokenIsValue(p, j, "", "");
      assert "" + (p + "") == p;
    }
    assert Print(j, false, 0) == Compact(j) && Print(j, true, 0) == Pretty(j, 0);
  }
}
