/**
 A reader of JSON text by its grammar (RFC 8259, sections 3 to 7, without white space), and that it reads back what
 `JSON.stringify` and `canonicalJson` print.
*/
module JsonReader {
  import opened CanonicalJson
  import opened Sequences
  import opened Sorting
  import opened Wrappers

  import StableJson

  // ----- string literals -----

  function HexValue(c: char): Option<nat> {
    if '0' <= c <= '9' then Some(c as nat - '0' as nat)
    else if 'a' <= c <= 'f' then Some(c as nat - 'a' as nat + 10)
    else if 'A' <= c <= 'F' then Some(c as nat - 'A' as nat + 10)
    else None
  }

  /** The character of four hexadecimal digits; surrogates are no characters of their own. */
  function HexChar(d: string): Option<char>
    requires |d| == 4
  {
    var a, b, e, f := HexValue(d[0]), HexValue(d[1]), HexValue(d[2]), HexValue(d[3]);
    if a.None? || b.None? || e.None? || f.None? then None
    else
      var code := ((a.value * 16 + b.value) * 16 + e.value) * 16 + f.value;
      if 0xD800 <= code < 0xE000 then None else if code < 0x1_0000 then Some(code as char) else None
  }

  /** What stands for itself after a backslash, or is short for a control character. */
  function Unescaped(c: char): Option<char> {
    if c == '"' || c == '\\' || c == '/' then Some(c)
    else if c == 'b' then Some(8 as char)
    else if c == 'f' then Some(12 as char)
    else if c == 'n' then Some(10 as char)
    else if c == 'r' then Some(13 as char)
    else if c == 't' then Some(9 as char)
    else None
  }

  /** One character of a literal and what follows it. */
  function ReadChar(t: string): (r: Option<(char, string)>)
    requires t != ""
    ensures r.Some? ==> |r.value.1| < |t|
  {
    if t[0] != '\\' then if t[0] as int < 32 then None else Some((t[0], t[1..]))
    else if |t| >= 6 && t[1] == 'u' then
      var c := HexChar(t[2..6]);
      if c.None? then None else Some((c.value, t[6..]))
    else if |t| >= 2 then
      var c := Unescaped(t[1]);
      if c.None? then None else Some((c.value, t[2..]))
    else None
  }

  /** A literal after its opening quote, and what follows it. */
  function ReadQuoted(t: string): (r: Option<(string, string)>)
    ensures r.Some? ==> |r.value.1| < |t|
    decreases |t|
  {
    if t == "" then None
    else if t[0] == '"' then Some(("", t[1..]))
    else
      var c := ReadChar(t);
      if c.None? then None
      else
        var rest := ReadQuoted(c.value.1);
        if rest.None? then None else Some(([c.value.0] + rest.value.0, rest.value.1))
  }

  // ----- values -----

  /** A value and what follows it. */
  function ReadValue(t: string): (r: Option<(Json, string)>)
    ensures r.Some? ==> |r.value.1| < |t|
    decreases |t|, 1
  {
    if t == "" then None
    else if t[0] == 'n' then if |t| >= 4 && t[..4] == "null" then Some((Null, t[4..])) else None
    else if t[0] == 't' then if |t| >= 4 && t[..4] == "true" then Some((Bool(true), t[4..])) else None
    else if t[0] == 'f' then if |t| >= 5 && t[..5] == "false" then Some((Bool(false), t[5..])) else None
    else if t[0] == '"' then
      var s := ReadQuoted(t[1..]);
      if s.None? then None else Some((Str(s.value.0), s.value.1))
    else if t[0] == '[' then
      if |t| >= 2 && t[1] == ']' then Some((Arr([]), t[2..]))
      else
        var items := ReadItems(t[1..]);
        if items.None? then None else Some((Arr(items.value.0), items.value.1))
    else if t[0] == '{' then
      if |t| >= 2 && t[1] == '}' then Some((Obj([]), t[2..]))
      else
        var entries := ReadEntries(t[1..]);
        if entries.None? then None else Some((Obj(entries.value.0), entries.value.1))
    else
      var n := NumberLength(t);
      NumberFits(t);
      if n == 0 then None else Some((Num(t[..n]), t[n..]))
  }

  lemma {:induction false} NumberFits(t: string)
    ensures NumberLength(t) <= |t|
  {
    if t != "" { NumberFits(t[1..]); }
  }

  /** The items of an array up to its closing bracket, at least one. */
  function ReadItems(t: string): (r: Option<(seq<Json>, string)>)
    ensures r.Some? ==> |r.value.1| < |t|
    decreases |t|, 2
  {
    var v := ReadValue(t);
    if v.None? || v.value.1 == "" then None
    else if v.value.1[0] == ']' then Some(([v.value.0], v.value.1[1..]))
    else if v.value.1[0] == ',' then
      var rest := ReadItems(v.value.1[1..]);
      if rest.None? then None else Some(([v.value.0] + rest.value.0, rest.value.1))
    else None
  }

  /** A key, a colon and a value. */
  function ReadEntry(t: string): (r: Option<(Entry<Json>, string)>)
    ensures r.Some? ==> |r.value.1| < |t|
    decreases |t|, 2
  {
    if t == "" || t[0] != '"' then None
    else
      var key := ReadQuoted(t[1..]);
      if key.None? || key.value.1 == "" || key.value.1[0] != ':' then None
      else
        var v := ReadValue(key.value.1[1..]);
        if v.None? then None else Some((Entry(key.value.0, v.value.0), v.value.1))
  }

  /** The entries of an object up to its closing brace, at least one. */
  function ReadEntries(t: string): (r: Option<(seq<Entry<Json>>, string)>)
    ensures r.Some? ==> |r.value.1| < |t|
    decreases |t|, 3
  {
    var e := ReadEntry(t);
    if e.None? || e.value.1 == "" then None
    else if e.value.1[0] == '}' then Some(([e.value.0], e.value.1[1..]))
    else if e.value.1[0] == ',' then
      var rest := ReadEntries(e.value.1[1..]);
      if rest.None? then None else Some(([e.value.0] + rest.value.0, rest.value.1))
    else None
  }

  // ----- what is printed is read back -----

  lemma HexDigitReads(n: nat)
    requires n < 16
    ensures HexValue(HexDigit(n)) == Some(n)
  {
  }

  /** An escaped character is read back. */
  lemma ReadsChar(c: char, x: string)
    ensures EscapeChar(c) + x != "" && (EscapeChar(c) + x)[0] != '"'
    ensures ReadChar(EscapeChar(c) + x) == Some((c, x))
  {
    var e := EscapeChar(c);
    var t := e + x;
    assert t[0] == e[0] && t[|e|..] == x;
    if e[0] == '\\' {
      assert t[1] == e[1];
      if e[1] == 'u' {
        assert t[2..6] == e[2..6];
        HexDigitReads(c as int / 16);
        HexDigitReads(c as int % 16);
        HexDigitReads(0);
      }
    }
  }

  /** A literal determines its string: the reader gives it back, with what follows. */
  lemma {:induction false} ReadsQuoted(s: string, x: string)
    ensures ReadQuoted(Quoted(s, x)) == Some((s, x))
  {
    QuotedHead(s, x);
    if s == "" {
      assert ("\"" + x)[1..] == x;
    } else {
      ReadsChar(s[0], Quoted(s[1..], x));
      ReadsQuoted(s[1..], x);
      assert [s[0]] + s[1..] == s;
    }
  }

  lemma ReadsWord(word: string, r: string)
    ensures (word + r)[..|word|] == word && (word + r)[|word|..] == r
  {
  }

  lemma ReadsNumber(t: string, r: string)
    requires NumberText(t) && Follows(r)
    ensures ReadValue(t + r) == Some((Num(t), r))
  {
    NumberEnds(t, r);
    ReadsWord(t, r);
    assert (t + r)[0] == t[0];
  }

  lemma ReadsString(s: string, r: string)
    ensures ReadValue(Quote(s) + r) == Some((Str(s), r))
  {
    QuoteThen(s, r);
    ReadsQuoted(s, r);
    assert ("\"" + Quoted(s, r))[1..] == Quoted(s, r);
  }

  lemma ReadsConstant(v: Json, r: string)
    requires v.Null? || v.Bool?
    ensures ReadValue(Text(v) + r) == Some((v, r))
  {
    ReadsWord(Text(v), r);
    assert (Text(v) + r)[0] == Text(v)[0];
  }

  /** The grammar reads back every printed value, with whatever may follow it. */
  lemma {:induction false} ReadsText(v: Json, r: string)
    requires WellFormed(v) && Follows(r)
    ensures ReadValue(Text(v) + r) == Some((v, r))
    decreases v
  {
    match v
    case Num(t) => ReadsNumber(t, r);
    case Str(s) => ReadsString(s, r);
    case Arr(items) =>
      ArrayThen(items, r);
      ItemsHead(items, r);
      var t := "[" + ItemsThen(items, r);
      assert t[1..] == ItemsThen(items, r) && t[1] == ItemsThen(items, r)[0];
      if items == [] { assert t[2..] == r; } else { ReadsItems(items, r); }
    case Obj(entries) =>
      ObjectThen(entries, r);
      EntriesHead(entries, r);
      var t := "{" + EntriesThen(entries, r);
      assert t[1..] == EntriesThen(entries, r) && t[1] == EntriesThen(entries, r)[0];
      if entries == [] { assert t[2..] == r; } else { ReadsEntries(entries, r); }
    case _ => ReadsConstant(v, r);
  }

  lemma LastItem(t: string, v: Json, r: string)
    requires ReadValue(t) == Some((v, "]" + r))
    ensures ReadItems(t) == Some(([v], r))
  {
    assert ("]" + r)[0] == ']' && ("]" + r)[1..] == r;
  }

  lemma NextItem(t: string, v: Json, rest: string, items: seq<Json>, r: string)
    requires ReadValue(t) == Some((v, "," + rest)) && ReadItems(rest) == Some((items, r))
    ensures ReadItems(t) == Some(([v] + items, r))
  {
    assert ("," + rest)[0] == ',' && ("," + rest)[1..] == rest;
  }

  lemma {:induction false} ReadsItems(items: seq<Json>, r: string)
    requires items != [] && forall i | 0 <= i < |items| :: WellFormed(items[i])
    ensures ReadItems(ItemsThen(items, r)) == Some((items, r))
    decreases items
  {
    var t := ItemsThen(items, r);
    ItemsHead(items, r);
    ReadsText(items[0], AfterItem(items[1..], r));
    if items[1..] == [] {
      LastItem(t, items[0], r);
      assert items == [items[0]];
    } else {
      ReadsItems(items[1..], r);
      NextItem(t, items[0], ItemsThen(items[1..], r), items[1..], r);
      assert [items[0]] + items[1..] == items;
    }
  }

  lemma {:induction false} ReadsEntry(e: Entry<Json>, after: string)
    requires WellFormed(e.value) && Follows(after)
    ensures ReadEntry(Quote(e.key) + (":" + (Text(e.value) + after))) == Some((e, after))
    decreases e, 0
  {
    var rest := ":" + (Text(e.value) + after);
    QuoteThen(e.key, rest);
    ReadsQuoted(e.key, rest);
    assert ("\"" + Quoted(e.key, rest))[1..] == Quoted(e.key, rest) && rest[1..] == Text(e.value) + after;
    ReadsText(e.value, after);
  }

  lemma LastEntry(t: string, e: Entry<Json>, r: string)
    requires ReadEntry(t) == Some((e, "}" + r))
    ensures ReadEntries(t) == Some(([e], r))
  {
    assert ("}" + r)[0] == '}' && ("}" + r)[1..] == r;
  }

  lemma NextEntry(t: string, e: Entry<Json>, rest: string, entries: seq<Entry<Json>>, r: string)
    requires ReadEntry(t) == Some((e, "," + rest)) && ReadEntries(rest) == Some((entries, r))
    ensures ReadEntries(t) == Some(([e] + entries, r))
  {
    assert ("," + rest)[0] == ',' && ("," + rest)[1..] == rest;
  }

  lemma {:induction false} ReadsEntries(entries: seq<Entry<Json>>, r: string)
    requires entries != [] && forall i | 0 <= i < |entries| :: WellFormed(entries[i].value)
    ensures ReadEntries(EntriesThen(entries, r)) == Some((entries, r))
    decreases entries
  {
    var t := EntriesThen(entries, r);
    EntriesHead(entries, r);
    ReadsEntry(entries[0], AfterEntry(entries[1..], r));
    if entries[1..] == [] {
      LastEntry(t, entries[0], r);
      assert entries == [entries[0]];
    } else {
      ReadsEntries(entries[1..], r);
      NextEntry(t, entries[0], EntriesThen(entries[1..], r), entries[1..], r);
      assert [entries[0]] + entries[1..] == entries;
    }
  }

  /** In every object, at any nesting, keys ascend. */
  ghost predicate Ascends(less: (string, string) -> bool, v: Json) {
    match v
    case Arr(items) => forall i | 0 <= i < |items| :: Ascends(less, items[i])
    case Obj(entries) => Sorted(less, entries) && forall i | 0 <= i < |entries| :: Ascends(less, entries[i].value)
    case _ => true
  }

  lemma {:induction false} ArrangeAscends(less: (string, string) -> bool, v: Json)
    requires StrictTotal(less) && WellFormed(v)
    ensures Ascends(less, Arrange(less, v))
    decreases v
  {
    match v
    case Arr(items) =>
      ArrangeItemsAt(less, items);
      forall i | 0 <= i < |items| ensures Ascends(less, Arrange(less, items[i])) {
        ArrangeAscends(less, items[i]);
      }
    case Obj(entries) =>
      var arranged := ArrangeEntries(less, entries);
      ArrangeEntriesAt(less, entries);
      ArrangeKeys(less, entries);
      SortSorts(less, arranged);
      SortPermutes(less, arranged);
      forall e | e in arranged ensures Ascends(less, e.value) {
        var i :| 0 <= i < |entries| && arranged[i] == e;
        ArrangeAscends(less, entries[i].value);
      }
      forall i | 0 <= i < |Sort(less, arranged)| ensures Ascends(less, Sort(less, arranged)[i].value) {
        assert Sort(less, arranged)[i] in multiset(Sort(less, arranged));
        assert Sort(less, arranged)[i] in arranged;
      }
    case _ =>
  }

  /**
   Canonical text is JSON, and reading it gives the value back up to the order of keys, with the keys of each object
   ascending.
  */
  lemma CanonicalReadsBack(less: (string, string) -> bool, v: Json)
    requires StrictTotal(less) && WellFormed(v)
    ensures var read := ReadValue(Canonical(less, v));
      read.Some? && read.value.1 == "" && WellFormed(read.value.0) && Same(v, read.value.0) && Ascends(less, read.value.0)
  {
    CanonicalArranges(less, v);
    ArrangeIsSame(less, v);
    ArrangeAscends(less, v);
    ReadsText(Arrange(less, v), "");
    assert Text(Arrange(less, v)) + "" == Text(Arrange(less, v));
  }

  /** So is the text that is hashed, in the order in which a rebuilt object lists its keys. */
  lemma StableReadsBack(less: (string, string) -> bool, v: Json)
    requires StrictTotal(less) && WellFormed(v)
    ensures var read := ReadValue(Text(StableJson.Stable(less, v)));
      read.Some? && read.value.1 == "" && WellFormed(read.value.0) && Same(v, read.value.0)
      && Ascends(StableJson.PropertyOrder(less), read.value.0)
  {
    var order := StableJson.PropertyOrder(less);
    StableJson.StableArranges(less, v);
    StableJson.PropertyOrderIsTotal(less);
    ArrangeIsSame(order, v);
    ArrangeAscends(order, v);
    ReadsText(Arrange(order, v), "");
    assert Text(Arrange(order, v)) + "" == Text(Arrange(order, v));
  }
}
