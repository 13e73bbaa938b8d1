/**
 `canonicalJson`, which prints a value with the keys of each object sorted, and `JSON.stringify`.
 A number is carried as its own printed text; an object's entries stand in their property order.
*/
module CanonicalJson {
  import opened Sequences
  import opened Sorting

  datatype Json =
    | Null
    | Bool(b: bool)
    | Num(text: string)
    | Str(s: string)
    | Arr(items: seq<Json>)
    | Obj(entries: seq<Entry<Json>>)

  predicate NumberChar(c: char) { '0' <= c <= '9' || c == '+' || c == '-' || c == '.' || c == 'e' || c == 'E' }

  predicate NumberText(t: string) { t != "" && forall i | 0 <= i < |t| :: NumberChar(t[i]) }

  /** Numbers are printable and an object has each key once. */
  predicate WellFormed(v: Json) {
    match v
    case Num(t) => NumberText(t)
    case Arr(items) => forall i | 0 <= i < |items| :: WellFormed(items[i])
    case Obj(entries) => Distinct(Keys(entries)) && forall i | 0 <= i < |entries| :: WellFormed(entries[i].value)
    case _ => true
  }

  // ----- JSON string literals -----

  function HexDigit(n: nat): char
    requires n < 16
  {
    if n < 10 then '0' + n as char else 'a' + (n - 10) as char
  }

  /** What `JSON.stringify` writes for one character inside a string. */
  function EscapeChar(c: char): string {
    if c == '"' then "\\\""
    else if c == '\\' then "\\\\"
    else if c == '\n' then "\\n"
    else if c == '\r' then "\\r"
    else if c == '\t' then "\\t"
    else if c as int == 8 then "\\b"
    else if c as int == 12 then "\\f"
    else if c as int < 32 then "\\u00" + [HexDigit(c as int / 16), HexDigit(c as int % 16)]
    else [c]
  }

  function Escape(s: string): string {
    if s == "" then "" else EscapeChar(s[0]) + Escape(s[1..])
  }

  function Quote(s: string): string { "\"" + Escape(s) + "\"" }

  // ----- sorting while printing, and sorting before -----

  function Join(texts: seq<string>): string {
    if texts == [] then "" else if |texts| == 1 then texts[0] else texts[0] + "," + Join(texts[1..])
  }

  function Properties(printed: seq<Entry<string>>): seq<string> {
    if printed == [] then [] else [Quote(printed[0].key) + ":" + printed[0].value] + Properties(printed[1..])
  }

  /** `canonicalJson`: sort the entries of every object while printing. */
  function Canonical(less: (string, string) -> bool, v: Json): string
    decreases v
  {
    match v
    case Null => "null"
    case Bool(b) => if b then "true" else "false"
    case Num(t) => t
    case Str(s) => Quote(s)
    case Arr(items) => "[" + Join(CanonicalItems(less, items)) + "]"
    case Obj(entries) => "{" + Join(Properties(Sort(less, CanonicalEntries(less, entries)))) + "}"
  }

  function CanonicalItems(less: (string, string) -> bool, items: seq<Json>): seq<string>
    decreases items
  {
    if items == [] then [] else [Canonical(less, items[0])] + CanonicalItems(less, items[1..])
  }

  function CanonicalEntries(less: (string, string) -> bool, entries: seq<Entry<Json>>): seq<Entry<string>>
    decreases entries
  {
    if entries == [] then []
    else [Entry(entries[0].key, Canonical(less, entries[0].value))] + CanonicalEntries(less, entries[1..])
  }

  /** The value with the entries of every object sorted. */
  function Arrange(less: (string, string) -> bool, v: Json): Json
    decreases v
  {
    match v
    case Arr(items) => Arr(ArrangeItems(less, items))
    case Obj(entries) => Obj(Sort(less, ArrangeEntries(less, entries)))
    case _ => v
  }

  function ArrangeItems(less: (string, string) -> bool, items: seq<Json>): seq<Json>
    decreases items
  {
    if items == [] then [] else [Arrange(less, items[0])] + ArrangeItems(less, items[1..])
  }

  function ArrangeEntries(less: (string, string) -> bool, entries: seq<Entry<Json>>): seq<Entry<Json>>
    decreases entries
  {
    if entries == [] then []
    else [Entry(entries[0].key, Arrange(less, entries[0].value))] + ArrangeEntries(less, entries[1..])
  }

  /** `JSON.stringify`: print the entries of every object in the order they are in. */
  function Text(v: Json): string
    decreases v
  {
    match v
    case Null => "null"
    case Bool(b) => if b then "true" else "false"
    case Num(t) => t
    case Str(s) => Quote(s)
    case Arr(items) => "[" + Join(TextItems(items)) + "]"
    case Obj(entries) => "{" + Join(Properties(TextEntries(entries))) + "}"
  }

  function TextItems(items: seq<Json>): seq<string>
    decreases items
  {
    if items == [] then [] else [Text(items[0])] + TextItems(items[1..])
  }

  function TextEntries(entries: seq<Entry<Json>>): seq<Entry<string>>
    decreases entries
  {
    if entries == [] then [] else [Entry(entries[0].key, Text(entries[0].value))] + TextEntries(entries[1..])
  }

  // ----- `canonicalJson` prints the arranged value -----

  lemma {:induction false} InsertCommutes(less: (string, string) -> bool, e: Entry<Json>, sorted: seq<Entry<Json>>)
    ensures TextEntries(Insert(less, e, sorted)) == Insert(less, Entry(e.key, Text(e.value)), TextEntries(sorted))
  {
    if sorted == [] {
      assert TextEntries([e]) == [Entry(e.key, Text(e.value))] + TextEntries([]);
    } else if less(sorted[0].key, e.key) {
      InsertCommutes(less, e, sorted[1..]);
      assert ([sorted[0]] + Insert(less, e, sorted[1..]))[1..] == Insert(less, e, sorted[1..]);
      assert TextEntries(sorted)[1..] == TextEntries(sorted[1..]);
    } else {
      assert ([e] + sorted)[1..] == sorted;
    }
  }

  lemma {:induction false} SortCommutes(less: (string, string) -> bool, entries: seq<Entry<Json>>)
    ensures TextEntries(Sort(less, entries)) == Sort(less, TextEntries(entries))
  {
    if entries != [] {
      SortCommutes(less, entries[1..]);
      InsertCommutes(less, entries[0], Sort(less, entries[1..]));
      assert TextEntries(entries)[1..] == TextEntries(entries[1..]);
    }
  }

  /** Sorting while printing prints the arranged value. */
  lemma {:induction false} CanonicalArranges(less: (string, string) -> bool, v: Json)
    ensures Canonical(less, v) == Text(Arrange(less, v))
    decreases v
  {
    match v
    case Arr(items) => ItemsAgree(less, items);
    case Obj(entries) =>
      EntriesAgree(less, entries);
      SortCommutes(less, ArrangeEntries(less, entries));
    case _ =>
  }

  lemma {:induction false} ItemsAgree(less: (string, string) -> bool, items: seq<Json>)
    ensures CanonicalItems(less, items) == TextItems(ArrangeItems(less, items))
    decreases items
  {
    if items != [] {
      CanonicalArranges(less, items[0]);
      ItemsAgree(less, items[1..]);
      assert ArrangeItems(less, items)[1..] == ArrangeItems(less, items[1..]);
    }
  }

  lemma {:induction false} EntriesAgree(less: (string, string) -> bool, entries: seq<Entry<Json>>)
    ensures CanonicalEntries(less, entries) == TextEntries(ArrangeEntries(less, entries))
    decreases entries
  {
    if entries != [] {
      CanonicalArranges(less, entries[0].value);
      EntriesAgree(less, entries[1..]);
      assert ArrangeEntries(less, entries)[1..] == ArrangeEntries(less, entries[1..]);
    }
  }

  // ----- printed text determines the value -----

  /** What may follow a printed value: nothing, or a separator. */
  predicate Follows(r: string) { r == "" || r[0] == ',' || r[0] == ']' || r[0] == '}' }

  lemma EscapeCharDecodes(c: char, x: string, d: char, y: string)
    requires EscapeChar(c) + x == EscapeChar(d) + y
    ensures c == d && x == y
  {
    var left, right := EscapeChar(c) + x, EscapeChar(d) + y;
    assert left[0] == EscapeChar(c)[0] && right[0] == EscapeChar(d)[0];
    if EscapeChar(c)[0] == '\\' {
      assert left[1] == EscapeChar(c)[1] && right[1] == EscapeChar(d)[1];
      if EscapeChar(c)[1] == 'u' {
        assert left[4] == EscapeChar(c)[4] && right[4] == EscapeChar(d)[4];
        assert left[5] == EscapeChar(c)[5] && right[5] == EscapeChar(d)[5];
      }
    }
    assert x == left[|EscapeChar(c)|..] && y == right[|EscapeChar(d)|..];
  }

  /** A string literal without its opening quote, with what follows it. */
  function Quoted(s: string, x: string): string { Escape(s) + ("\"" + x) }

  lemma Cancel(a: string, x: string, y: string)
    requires a + x == a + y
    ensures x == y
  {
    assert (a + x)[|a|..] == x && (a + y)[|a|..] == y;
  }

  lemma QuotedHead(s: string, x: string)
    ensures Quoted(s, x) != "" && (s == "" <==> Quoted(s, x)[0] == '"')
    ensures Quoted(s, x) == if s == "" then "\"" + x else EscapeChar(s[0]) + Quoted(s[1..], x)
  {
    if s == "" {
      assert Quoted(s, x) == "\"" + x;
    } else {
      Assoc(EscapeChar(s[0]), Escape(s[1..]), "\"" + x);
      assert EscapeChar(s[0])[0] != '"';
    }
  }

  lemma {:induction false} QuotedDecodes(s: string, x: string, t: string, y: string)
    requires Quoted(s, x) == Quoted(t, y)
    ensures s == t && x == y
  {
    QuotedHead(s, x);
    QuotedHead(t, y);
    if s == "" {
      Cancel("\"", x, y);
    } else {
      EscapeCharDecodes(s[0], Quoted(s[1..], x), t[0], Quoted(t[1..], y));
      QuotedDecodes(s[1..], x, t[1..], y);
      assert s == [s[0]] + s[1..] && t == [t[0]] + t[1..];
    }
  }

  lemma QuoteThen(s: string, x: string)
    ensures Quote(s) + x == "\"" + Quoted(s, x)
  {
    Assoc("\"" + Escape(s), "\"", x);
    Assoc("\"", Escape(s), "\"" + x);
  }

  lemma QuoteDecodes(s: string, x: string, t: string, y: string)
    requires Quote(s) + x == Quote(t) + y
    ensures s == t && x == y
  {
    QuoteThen(s, x);
    QuoteThen(t, y);
    Cancel("\"", Quoted(s, x), Quoted(t, y));
    QuotedDecodes(s, x, t, y);
  }

  /** How many number characters a text starts with. */
  function NumberLength(w: string): nat {
    if w == "" || !NumberChar(w[0]) then 0 else 1 + NumberLength(w[1..])
  }

  lemma {:induction false} NumberEnds(t: string, r: string)
    requires (forall i | 0 <= i < |t| :: NumberChar(t[i])) && Follows(r)
    ensures NumberLength(t + r) == |t|
  {
    if t == "" {
      assert t + r == r;
    } else {
      NumberEnds(t[1..], r);
      assert (t + r)[1..] == t[1..] + r;
    }
  }

  lemma NumberDecodes(t: string, r: string, u: string, s: string)
    requires NumberText(t) && NumberText(u) && Follows(r) && Follows(s) && t + r == u + s
    ensures t == u && r == s
  {
    NumberEnds(t, r);
    NumberEnds(u, s);
    assert t == (t + r)[..|t|] && u == (u + s)[..|u|];
    Cancel(t, r, s);
  }

  /** The first character of a printed value tells its kind and is no separator. */
  predicate StartsLike(v: Json, c: char) {
    match v
    case Null => c == 'n'
    case Bool(b) => if b then c == 't' else c == 'f'
    case Num(_) => NumberChar(c)
    case Str(_) => c == '"'
    case Arr(_) => c == '['
    case Obj(_) => c == '{'
  }

  lemma FirstChar(v: Json)
    requires WellFormed(v)
    ensures |Text(v)| > 0 && StartsLike(v, Text(v)[0]) && !Follows(Text(v))
  {
  }

  lemma SameKind(a: Json, r: string, b: Json, s: string)
    requires WellFormed(a) && WellFormed(b) && Text(a) + r == Text(b) + s
    ensures match a
      case Null => b.Null?
      case Bool(x) => b == Bool(x)
      case Num(_) => b.Num?
      case Str(_) => b.Str?
      case Arr(_) => b.Arr?
      case Obj(_) => b.Obj?
  {
    FirstChar(a);
    FirstChar(b);
    assert (Text(a) + r)[0] == Text(a)[0] && (Text(b) + s)[0] == Text(b)[0];
  }

  lemma {:induction false} TextDecodes(a: Json, r: string, b: Json, s: string)
    requires WellFormed(a) && WellFormed(b) && Follows(r) && Follows(s)
    requires Text(a) + r == Text(b) + s
    ensures a == b && r == s
    decreases a
  {
    SameKind(a, r, b, s);
    match a
    case Num(t) => NumberDecodes(t, r, b.text, s);
    case Str(t) => QuoteDecodes(t, r, b.s, s);
    case Arr(items) =>
      ArrayThen(items, r);
      ArrayThen(b.items, s);
      Cancel("[", ItemsThen(items, r), ItemsThen(b.items, s));
      ItemsDecode(items, r, b.items, s);
    case Obj(entries) =>
      ObjectThen(entries, r);
      ObjectThen(b.entries, s);
      Cancel("{", EntriesThen(entries, r), EntriesThen(b.entries, s));
      EntriesDecode(entries, r, b.entries, s);
    case _ => Cancel(Text(a), r, s);
  }

  /** An array's items and closing bracket, with what follows. */
  function ItemsThen(items: seq<Json>, r: string): string { Join(TextItems(items)) + ("]" + r) }

  /** What follows the first item: the closing bracket, or a comma and the other items. */
  function AfterItem(rest: seq<Json>, r: string): string {
    if rest == [] then "]" + r else "," + ItemsThen(rest, r)
  }

  lemma ArrayThen(items: seq<Json>, r: string)
    ensures Text(Arr(items)) + r == "[" + ItemsThen(items, r)
  {
    Assoc("[" + Join(TextItems(items)), "]", r);
    Assoc("[", Join(TextItems(items)), "]" + r);
  }

  lemma JoinThen(texts: seq<string>, r: string)
    requires |texts| > 1
    ensures Join(texts) + r == texts[0] + ("," + (Join(texts[1..]) + r))
  {
    Assoc(texts[0] + ",", Join(texts[1..]), r);
    Assoc(texts[0], ",", Join(texts[1..]) + r);
  }

  lemma ItemsHead(items: seq<Json>, r: string)
    requires forall i | 0 <= i < |items| :: WellFormed(items[i])
    ensures ItemsThen(items, r) != "" && (items == [] <==> ItemsThen(items, r)[0] == ']')
    ensures ItemsThen(items, r) == if items == [] then "]" + r else Text(items[0]) + AfterItem(items[1..], r)
  {
    var texts := TextItems(items);
    if items == [] {
      assert ItemsThen(items, r) == "]" + r;
    } else {
      assert texts[1..] == TextItems(items[1..]) && texts[0] == Text(items[0]);
      if |items| > 1 {
        assert TextItems(items[1..]) != [];
        JoinThen(texts, "]" + r);
      }
      FirstChar(items[0]);
    }
  }

  lemma AfterItemDecodes(xs: seq<Json>, r: string, ys: seq<Json>, s: string)
    requires AfterItem(xs, r) == AfterItem(ys, s)
    ensures (xs == [] && ys == []) || (xs != [] && ys != [])
    ensures if xs == [] then r == s else ItemsThen(xs, r) == ItemsThen(ys, s)
  {
    assert AfterItem(xs, r)[0] == ',' <==> xs != [];
    assert AfterItem(ys, s)[0] == ',' <==> ys != [];
    if xs == [] {
      Cancel("]", r, s);
    } else {
      Cancel(",", ItemsThen(xs, r), ItemsThen(ys, s));
    }
  }

  lemma {:induction false} ItemsDecode(xs: seq<Json>, r: string, ys: seq<Json>, s: string)
    requires forall i | 0 <= i < |xs| :: WellFormed(xs[i])
    requires forall i | 0 <= i < |ys| :: WellFormed(ys[i])
    requires ItemsThen(xs, r) == ItemsThen(ys, s)
    ensures xs == ys && r == s
    decreases xs
  {
    ItemsHead(xs, r);
    ItemsHead(ys, s);
    if xs == [] {
      Cancel("]", r, s);
    } else {
      TextDecodes(xs[0], AfterItem(xs[1..], r), ys[0], AfterItem(ys[1..], s));
      AfterItemDecodes(xs[1..], r, ys[1..], s);
      if xs[1..] != [] { ItemsDecode(xs[1..], r, ys[1..], s); }
      SameHeadAndTail(xs, ys);
    }
  }

  /** An object's entries and closing brace, with what follows. */
  function EntriesThen(entries: seq<Entry<Json>>, r: string): string {
    Join(Properties(TextEntries(entries))) + ("}" + r)
  }

  function AfterEntry(rest: seq<Entry<Json>>, r: string): string {
    if rest == [] then "}" + r else "," + EntriesThen(rest, r)
  }

  lemma ObjectThen(entries: seq<Entry<Json>>, r: string)
    ensures Text(Obj(entries)) + r == "{" + EntriesThen(entries, r)
  {
    Assoc("{" + Join(Properties(TextEntries(entries))), "}", r);
    Assoc("{", Join(Properties(TextEntries(entries))), "}" + r);
  }

  lemma PropertyThen(key: string, text: string, r: string)
    ensures Quote(key) + ":" + text + r == Quote(key) + (":" + (text + r))
  {
    Assoc(Quote(key) + ":", text, r);
    Assoc(Quote(key), ":", text + r);
  }

  lemma EntriesHead(entries: seq<Entry<Json>>, r: string)
    ensures EntriesThen(entries, r) != "" && (entries == [] <==> EntriesThen(entries, r)[0] == '}')
    ensures EntriesThen(entries, r) ==
      if entries == [] then "}" + r
      else Quote(entries[0].key) + (":" + (Text(entries[0].value) + AfterEntry(entries[1..], r)))
  {
    if entries == [] {
      assert EntriesThen(entries, r) == "}" + r;
    } else {
      var printed := TextEntries(entries);
      var texts := Properties(printed);
      assert printed[1..] == TextEntries(entries[1..]);
      assert texts[1..] == Properties(printed[1..]);
      assert texts[0] == Quote(entries[0].key) + ":" + Text(entries[0].value);
      PropertyThen(entries[0].key, Text(entries[0].value), AfterEntry(entries[1..], r));
      if |entries| > 1 {
        assert Properties(printed[1..]) != [];
        JoinThen(texts, "}" + r);
      }
      assert EntriesThen(entries, r) == texts[0] + AfterEntry(entries[1..], r);
    }
  }

  lemma AfterEntryDecodes(xs: seq<Entry<Json>>, r: string, ys: seq<Entry<Json>>, s: string)
    requires AfterEntry(xs, r) == AfterEntry(ys, s)
    ensures (xs == [] && ys == []) || (xs != [] && ys != [])
    ensures if xs == [] then r == s else EntriesThen(xs, r) == EntriesThen(ys, s)
  {
    assert AfterEntry(xs, r)[0] == ',' <==> xs != [];
    assert AfterEntry(ys, s)[0] == ',' <==> ys != [];
    if xs == [] {
      Cancel("}", r, s);
    } else {
      Cancel(",", EntriesThen(xs, r), EntriesThen(ys, s));
    }
  }

  lemma KeyDecodes(key: string, x: string, other: string, y: string)
    requires Quote(key) + (":" + x) == Quote(other) + (":" + y)
    ensures key == other && x == y
  {
    QuoteDecodes(key, ":" + x, other, ":" + y);
    Cancel(":", x, y);
  }

  lemma {:induction false} EntriesDecode(xs: seq<Entry<Json>>, r: string, ys: seq<Entry<Json>>, s: string)
    requires forall i | 0 <= i < |xs| :: WellFormed(xs[i].value)
    requires forall i | 0 <= i < |ys| :: WellFormed(ys[i].value)
    requires EntriesThen(xs, r) == EntriesThen(ys, s)
    ensures xs == ys && r == s
    decreases xs
  {
    EntriesHead(xs, r);
    EntriesHead(ys, s);
    if xs == [] {
      Cancel("}", r, s);
    } else {
      var p, q := AfterEntry(xs[1..], r), AfterEntry(ys[1..], s);
      KeyDecodes(xs[0].key, Text(xs[0].value) + p, ys[0].key, Text(ys[0].value) + q);
      TextDecodes(xs[0].value, p, ys[0].value, q);
      AfterEntryDecodes(xs[1..], r, ys[1..], s);
      if xs[1..] != [] { EntriesDecode(xs[1..], r, ys[1..], s); }
      SameHeadAndTail(xs, ys);
    }
  }

  // ----- equality up to the order of keys -----

  predicate Same(a: Json, b: Json)
    decreases a
  {
    match a
    case Arr(items) =>
      b.Arr? && |items| == |b.items| && forall i | 0 <= i < |items| :: Same(items[i], b.items[i])
    case Obj(entries) =>
      b.Obj? && |entries| == |b.entries| && forall i | 0 <= i < |entries| :: HasEntry(b.entries, entries[i])
    case _ => a == b
  }

  predicate HasEntry(entries: seq<Entry<Json>>, e: Entry<Json>)
    decreases e
  {
    exists j :: 0 <= j < |entries| && e.key == entries[j].key && Same(e.value, entries[j].value)
  }

  lemma {:induction false} ArrangeItemsAt(less: (string, string) -> bool, items: seq<Json>)
    ensures |ArrangeItems(less, items)| == |items|
    ensures forall i | 0 <= i < |items| :: ArrangeItems(less, items)[i] == Arrange(less, items[i])
    decreases |items|
  {
    if items != [] {
      ArrangeItemsAt(less, items[1..]);
    }
  }

  lemma {:induction false} ArrangeEntriesAt(less: (string, string) -> bool, entries: seq<Entry<Json>>)
    ensures |ArrangeEntries(less, entries)| == |entries|
    ensures forall i | 0 <= i < |entries| ::
      ArrangeEntries(less, entries)[i] == Entry(entries[i].key, Arrange(less, entries[i].value))
    decreases |entries|
  {
    if entries != [] {
      ArrangeEntriesAt(less, entries[1..]);
    }
  }

  lemma ArrangeKeys(less: (string, string) -> bool, entries: seq<Entry<Json>>)
    ensures Keys(ArrangeEntries(less, entries)) == Keys(entries)
  {
    ArrangeEntriesAt(less, entries);
  }

  /** Equal up to key order means equal after sorting. */
  lemma {:induction false} ArrangeBlind(less: (string, string) -> bool, a: Json, b: Json)
    requires StrictTotal(less) && WellFormed(a) && WellFormed(b)
    ensures Same(a, b) <==> Arrange(less, a) == Arrange(less, b)
    decreases a
  {
    match a
    case Arr(items) =>
      ArrangeItemsAt(less, items);
      if b.Arr? {
        ArrangeItemsAt(less, b.items);
        if |items| == |b.items| {
          forall i | 0 <= i < |items|
            ensures Same(items[i], b.items[i]) <==> ArrangeItems(less, items)[i] == ArrangeItems(less, b.items)[i]
          {
            ArrangeBlind(less, items[i], b.items[i]);
          }
        }
      }
    case Obj(entries) =>
      if b.Obj? {
        forall i, j | 0 <= i < |entries| && 0 <= j < |b.entries|
          ensures Same(entries[i].value, b.entries[j].value)
            <==> Arrange(less, entries[i].value) == Arrange(less, b.entries[j].value)
        {
          ArrangeBlind(less, entries[i].value, b.entries[j].value);
        }
        EntriesBlind(less, entries, b.entries);
      }
    case _ =>
  }

  lemma EntriesBlind(less: (string, string) -> bool, xs: seq<Entry<Json>>, ys: seq<Entry<Json>>)
    requires StrictTotal(less) && Distinct(Keys(xs)) && Distinct(Keys(ys))
    requires forall i, j | 0 <= i < |xs| && 0 <= j < |ys| ::
      Same(xs[i].value, ys[j].value) <==> Arrange(less, xs[i].value) == Arrange(less, ys[j].value)
    ensures Same(Obj(xs), Obj(ys)) <==> Sort(less, ArrangeEntries(less, xs)) == Sort(less, ArrangeEntries(less, ys))
  {
    var us, vs := ArrangeEntries(less, xs), ArrangeEntries(less, ys);
    ArrangeEntriesAt(less, xs);
    ArrangeEntriesAt(less, ys);
    ArrangeKeys(less, xs);
    ArrangeKeys(less, ys);
    SortForgetsOrder(less, us, vs);
    AllEntriesBlind(less, xs, us, ys, vs);
  }

  lemma AllEntriesBlind(less: (string, string) -> bool, xs: seq<Entry<Json>>, us: seq<Entry<Json>>,
                        ys: seq<Entry<Json>>, vs: seq<Entry<Json>>)
    requires |us| == |xs| && forall i | 0 <= i < |xs| :: us[i] == Entry(xs[i].key, Arrange(less, xs[i].value))
    requires |vs| == |ys| && forall j | 0 <= j < |ys| :: vs[j] == Entry(ys[j].key, Arrange(less, ys[j].value))
    requires forall i, j | 0 <= i < |xs| && 0 <= j < |ys| ::
      Same(xs[i].value, ys[j].value) <==> Arrange(less, xs[i].value) == Arrange(less, ys[j].value)
    ensures Same(Obj(xs), Obj(ys)) <==> |us| == |vs| && EachIn(us, vs)
  {
    forall i | 0 <= i < |xs| ensures HasEntry(ys, xs[i]) <==> us[i] in vs {
      EntryBlind(less, xs[i], us[i], ys, vs);
    }
  }

  lemma EntryBlind(less: (string, string) -> bool, x: Entry<Json>, u: Entry<Json>,
                   ys: seq<Entry<Json>>, vs: seq<Entry<Json>>)
    requires u == Entry(x.key, Arrange(less, x.value)) && |vs| == |ys|
    requires forall j | 0 <= j < |ys| :: vs[j] == Entry(ys[j].key, Arrange(less, ys[j].value))
    requires forall j | 0 <= j < |ys| ::
      Same(x.value, ys[j].value) <==> Arrange(less, x.value) == Arrange(less, ys[j].value)
    ensures HasEntry(ys, x) <==> u in vs
  {
    if HasEntry(ys, x) {
      var j :| 0 <= j < |ys| && x.key == ys[j].key && Same(x.value, ys[j].value);
      assert vs[j] == u;
    }
    if u in vs {
      var j :| 0 <= j < |vs| && vs[j] == u;
      assert x.key == ys[j].key && Same(x.value, ys[j].value);
    }
  }

  /** Sorting keeps a value well formed and changes nothing but the order of keys. */
  lemma {:induction false} ArrangeIsSame(less: (string, string) -> bool, v: Json)
    requires StrictTotal(less) && WellFormed(v)
    ensures WellFormed(Arrange(less, v)) && Same(v, Arrange(less, v))
    decreases v
  {
    match v
    case Arr(items) =>
      ArrangeItemsAt(less, items);
      forall i | 0 <= i < |items|
        ensures WellFormed(Arrange(less, items[i])) && Same(items[i], Arrange(less, items[i]))
      {
        ArrangeIsSame(less, items[i]);
      }
    case Obj(entries) =>
      forall i | 0 <= i < |entries|
        ensures WellFormed(Arrange(less, entries[i].value)) && Same(entries[i].value, Arrange(less, entries[i].value))
      {
        ArrangeIsSame(less, entries[i].value);
      }
      EntriesAreSame(less, entries);
    case _ =>
  }

  lemma EntriesAreSame(less: (string, string) -> bool, entries: seq<Entry<Json>>)
    requires StrictTotal(less) && Distinct(Keys(entries))
    requires forall i | 0 <= i < |entries| ::
      WellFormed(Arrange(less, entries[i].value)) && Same(entries[i].value, Arrange(less, entries[i].value))
    ensures WellFormed(Obj(Sort(less, ArrangeEntries(less, entries))))
    ensures Same(Obj(entries), Obj(Sort(less, ArrangeEntries(less, entries))))
  {
    var us := ArrangeEntries(less, entries);
    ArrangeEntriesAt(less, entries);
    ArrangeKeys(less, entries);
    SortedKeysDistinct(less, us);
    SortPermutes(less, us);
    PermutedWellFormed(us, Sort(less, us));
    forall i | 0 <= i < |entries| ensures HasEntry(Sort(less, us), entries[i]) {
      assert us[i] in multiset(us);
      PermutedHasEntry(us[i], Sort(less, us), entries[i]);
    }
  }

  lemma PermutedWellFormed(us: seq<Entry<Json>>, sorted: seq<Entry<Json>>)
    requires multiset(us) == multiset(sorted)
    requires forall i | 0 <= i < |us| :: WellFormed(us[i].value)
    ensures forall i | 0 <= i < |sorted| :: WellFormed(sorted[i].value)
  {
    forall i | 0 <= i < |sorted| ensures WellFormed(sorted[i].value) {
      assert sorted[i] in multiset(us);
      var k :| 0 <= k < |us| && us[k] == sorted[i];
    }
  }

  lemma PermutedHasEntry(u: Entry<Json>, sorted: seq<Entry<Json>>, e: Entry<Json>)
    requires u in multiset(sorted) && u.key == e.key && Same(e.value, u.value)
    ensures HasEntry(sorted, e)
  {
    var j :| 0 <= j < |sorted| && sorted[j] == u;
  }

  // ----- main results -----

  lemma TextsDiffer(a: Json, b: Json)
    requires WellFormed(a) && WellFormed(b)
    ensures Text(a) == Text(b) <==> a == b
  {
    if Text(a) == Text(b) {
      assert Text(a) + "" == Text(b) + "";
      TextDecodes(a, "", b, "");
    }
  }

  /** Canonical texts are equal just when the values are equal up to the order of object keys. */
  lemma CanonicalIffSame(less: (string, string) -> bool, a: Json, b: Json)
    requires StrictTotal(less) && WellFormed(a) && WellFormed(b)
    ensures Canonical(less, a) == Canonical(less, b) <==> Same(a, b)
  {
    CanonicalArranges(less, a);
    CanonicalArranges(less, b);
    ArrangeBlind(less, a, b);
    ArrangeIsSame(less, a);
    ArrangeIsSame(less, b);
    TextsDiffer(Arrange(less, a), Arrange(less, b));
  }
}
