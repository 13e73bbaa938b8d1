/**
 `stable`, which sorts the keys of each object and builds the object anew, and the text it is hashed by.
 A built object lists its array-index keys first, ascending, and the others as they were inserted
 (ECMA-262, OrdinaryOwnPropertyKeys).
*/
module StableJson {
  import opened CanonicalJson
  import opened Sequences
  import opened Sorting

  // ----- array-index keys -----

  predicate Digits(k: string) { forall i | 0 <= i < |k| :: '0' <= k[i] <= '9' }

  function Value(k: string): nat
    requires Digits(k)
  {
    if k == "" then 0 else 10 * Value(k[..|k| - 1]) + (k[|k| - 1] as int - '0' as int)
  }

  /** A canonical decimal numeral below 2^32 - 1. */
  predicate IndexKey(k: string) {
    k != "" && Digits(k) && (k == "0" || k[0] != '0') && Value(k) < 4294967295
  }

  lemma {:induction false} ValuePositive(k: string)
    requires k != "" && Digits(k) && k[0] != '0'
    ensures Value(k) > 0
  {
    if |k| > 1 { ValuePositive(k[..|k| - 1]); }
  }

  lemma {:induction false} ValueInjective(a: string, b: string)
    requires Digits(a) && Digits(b) && (a == "" || a[0] != '0') && (b == "" || b[0] != '0')
    requires Value(a) == Value(b)
    ensures a == b
  {
    if a != "" { ValuePositive(a); }
    if b != "" { ValuePositive(b); }
    if a != "" {
      var x, y := a[..|a| - 1], b[..|b| - 1];
      assert Value(x) == Value(y) && a[|a| - 1] == b[|b| - 1];
      ValueInjective(x, y);
      assert a == x + [a[|a| - 1]] && b == y + [b[|b| - 1]];
    }
  }

  /** Different index keys have different values. */
  lemma IndexKeysDiffer(a: string, b: string)
    requires IndexKey(a) && IndexKey(b) && a != b
    ensures Value(a) != Value(b)
  {
    if a[0] != '0' { ValuePositive(a); } else { assert a[..0] == "" && Value(a) == 0; }
    if b[0] != '0' { ValuePositive(b); } else { assert b[..0] == "" && Value(b) == 0; }
    if Value(a) == Value(b) && a[0] != '0' { ValueInjective(a, b); }
  }

  // ----- `stable` -----

  predicate IndexLess(a: string, b: string) { IndexKey(a) && IndexKey(b) && Value(a) < Value(b) }

  /** The entries with an index key, or those without one, in their order. */
  function Pick<T>(entries: seq<Entry<T>>, index: bool): seq<Entry<T>> {
    if entries == [] then []
    else if IndexKey(entries[0].key) == index then [entries[0]] + Pick(entries[1..], index)
    else Pick(entries[1..], index)
  }

  /** `Object.fromEntries`, for entries without a repeated key. */
  function FromEntries<T>(entries: seq<Entry<T>>): seq<Entry<T>> { Sort(IndexLess, Pick(entries, true)) + Pick(entries, false) }

  function Stable(less: (string, string) -> bool, v: Json): Json
    decreases v
  {
    match v
    case Arr(items) => Arr(StableItems(less, items))
    case Obj(entries) => Obj(FromEntries(Sort(less, StableEntries(less, entries))))
    case _ => v
  }

  function StableItems(less: (string, string) -> bool, items: seq<Json>): seq<Json>
    decreases items
  {
    if items == [] then [] else [Stable(less, items[0])] + StableItems(less, items[1..])
  }

  function StableEntries(less: (string, string) -> bool, entries: seq<Entry<Json>>): seq<Entry<Json>>
    decreases entries
  {
    if entries == [] then []
    else [Entry(entries[0].key, Stable(less, entries[0].value))] + StableEntries(less, entries[1..])
  }

  // ----- building an object anew is one more way of sorting -----

  /** Index keys first and ascending, the others by `less`. */
  function PropertyOrder(less: (string, string) -> bool): (string, string) -> bool {
    (a, b) => if IndexKey(a) then !IndexKey(b) || Value(a) < Value(b) else !IndexKey(b) && less(a, b)
  }

  lemma PropertyOrderIsTotal(less: (string, string) -> bool)
    requires StrictTotal(less)
    ensures StrictTotal(PropertyOrder(less))
  {
    var order := PropertyOrder(less);
    forall a, b | a != b ensures order(a, b) || order(b, a) {
      if IndexKey(a) && IndexKey(b) { IndexKeysDiffer(a, b); }
    }
  }

  lemma {:induction false} PickPermutes<T>(entries: seq<Entry<T>>)
    ensures multiset(Pick(entries, true)) + multiset(Pick(entries, false)) == multiset(entries)
  {
    if entries != [] {
      var x, yes, no := entries[0], Pick(entries[1..], true), Pick(entries[1..], false);
      PickPermutes(entries[1..]);
      HeadCounts(x, entries[1..]);
      HeadCounts(x, yes);
      HeadCounts(x, no);
      assert [x] + entries[1..] == entries;
      ShiftCounts(multiset(yes), multiset(no), x);
    }
  }

  lemma ShiftCounts<T>(a: multiset<T>, b: multiset<T>, x: T)
    ensures (multiset{x} + a) + b == multiset{x} + (a + b) == a + (multiset{x} + b)
  {
  }

  lemma {:induction false} PickAt<T>(entries: seq<Entry<T>>, index: bool, i: nat)
    requires i < |Pick(entries, index)|
    ensures Pick(entries, index)[i] in entries && IndexKey(Pick(entries, index)[i].key) == index
  {
    if IndexKey(entries[0].key) != index {
      PickAt(entries[1..], index, i);
    } else if i > 0 {
      PickAt(entries[1..], index, i - 1);
    }
  }

  lemma {:induction false} PickSorted<T>(less: (string, string) -> bool, entries: seq<Entry<T>>, index: bool)
    requires Sorted(less, entries)
    ensures Sorted(less, Pick(entries, index))
  {
    if entries != [] {
      SortedTail(less, entries);
      PickSorted(less, entries[1..], index);
      var rest := Pick(entries[1..], index);
      forall i | 0 <= i < |rest| ensures less(entries[0].key, rest[i].key) {
        PickAt(entries[1..], index, i);
        var k :| 0 <= k < |entries[1..]| && entries[1..][k] == rest[i];
        assert entries[k + 1] == rest[i];
      }
    }
  }

  lemma {:induction false} InsertAgrees<T>(
    f: (string, string) -> bool, g: (string, string) -> bool, e: Entry<T>, sorted: seq<Entry<T>>)
    requires forall i | 0 <= i < |sorted| :: f(sorted[i].key, e.key) == g(sorted[i].key, e.key)
    ensures Insert(f, e, sorted) == Insert(g, e, sorted)
  {
    if sorted != [] { InsertAgrees(f, g, e, sorted[1..]); }
  }

  /** Two comparisons that agree on the keys sort alike. */
  lemma {:induction false} SortAgrees<T>(f: (string, string) -> bool, g: (string, string) -> bool, entries: seq<Entry<T>>)
    requires forall a, b | a in entries && b in entries :: f(a.key, b.key) == g(a.key, b.key)
    ensures Sort(f, entries) == Sort(g, entries)
  {
    if entries != [] {
      SortAgrees(f, g, entries[1..]);
      var rest := Sort(f, entries[1..]);
      SortPermutes(f, entries[1..]);
      forall i | 0 <= i < |rest| ensures f(rest[i].key, entries[0].key) == g(rest[i].key, entries[0].key) {
        assert rest[i] in multiset(rest);
        assert rest[i] in entries[1..];
        assert rest[i] in entries && entries[0] in entries;
      }
      InsertAgrees(f, g, entries[0], rest);
    }
  }

  lemma {:induction false} PickDistinct<T>(entries: seq<Entry<T>>, index: bool)
    requires Distinct(Keys(entries))
    ensures Distinct(Keys(Pick(entries, index)))
  {
    if entries != [] {
      DistinctTail(entries);
      PickDistinct(entries[1..], index);
      var rest := Pick(entries[1..], index);
      forall i | 0 <= i < |rest| ensures rest[i].key != entries[0].key {
        PickAt(entries[1..], index, i);
        var k :| 0 <= k < |entries[1..]| && entries[1..][k] == rest[i];
        assert Keys(entries)[0] != Keys(entries)[k + 1];
      }
      if IndexKey(entries[0].key) == index { DistinctPush(entries[0], rest); }
    }
  }

  lemma DistinctPush<T>(e: Entry<T>, rest: seq<Entry<T>>)
    requires Distinct(Keys(rest)) && forall i | 0 <= i < |rest| :: rest[i].key != e.key
    ensures Distinct(Keys([e] + rest))
  {
    forall i, j | 0 <= i < j < |rest| + 1 ensures Keys([e] + rest)[i] != Keys([e] + rest)[j] {
      assert Keys([e] + rest)[j] == rest[j - 1].key == Keys(rest)[j - 1];
      if i > 0 { assert Keys([e] + rest)[i] == Keys(rest)[i - 1]; }
    }
  }

  lemma DistinctTail<T>(entries: seq<Entry<T>>)
    requires Distinct(Keys(entries)) && entries != []
    ensures Distinct(Keys(entries[1..]))
  {
    forall i, j | 0 <= i < j < |entries[1..]| ensures Keys(entries[1..])[i] != Keys(entries[1..])[j] {
      assert Keys(entries)[i + 1] != Keys(entries)[j + 1];
    }
  }

  lemma IndicesSorted<T>(less: (string, string) -> bool, entries: seq<Entry<T>>)
    requires StrictTotal(less) && Distinct(Keys(entries))
    ensures Sorted(PropertyOrder(less), Sort(IndexLess, Pick(entries, true)))
  {
    var order := PropertyOrder(less);
    PropertyOrderIsTotal(less);
    PickDistinct(entries, true);
    forall a, b | a in Pick(entries, true) && b in Pick(entries, true)
      ensures IndexLess(a.key, b.key) == order(a.key, b.key)
    {
      var i :| 0 <= i < |Pick(entries, true)| && Pick(entries, true)[i] == a;
      var j :| 0 <= j < |Pick(entries, true)| && Pick(entries, true)[j] == b;
      PickAt(entries, true, i);
      PickAt(entries, true, j);
    }
    SortAgrees(IndexLess, order, Pick(entries, true));
    SortSorts(order, Pick(entries, true));
  }

  /** Sorting and then building the object anew sorts the entries in property order. */
  lemma FromSorted<T>(less: (string, string) -> bool, entries: seq<Entry<T>>)
    requires StrictTotal(less) && Distinct(Keys(entries))
    ensures FromEntries(Sort(less, entries)) == Sort(PropertyOrder(less), entries)
  {
    var order := PropertyOrder(less);
    var sorted := Sort(less, entries);
    PropertyOrderIsTotal(less);
    SortPermutes(less, entries);
    SortPermutes(order, entries);
    SortSorts(less, entries);
    SortSorts(order, entries);
    SortedKeysDistinct(less, entries);
    IndicesSorted(less, sorted);
    PickSorted(less, sorted, false);
    PickPermutes(sorted);
    SortPermutes(IndexLess, Pick(sorted, true));
    forall i | 0 <= i < |Pick(sorted, true)| ensures IndexKey(Pick(sorted, true)[i].key) { PickAt(sorted, true, i); }
    forall i | 0 <= i < |Pick(sorted, false)| ensures !IndexKey(Pick(sorted, false)[i].key) { PickAt(sorted, false, i); }
    ConcatSorted(less, Sort(IndexLess, Pick(sorted, true)), Pick(sorted, true), Pick(sorted, false));
    SortedUnique(order, FromEntries(sorted), Sort(order, entries));
  }

  lemma ConcatSorted<T>(less: (string, string) -> bool, first: seq<Entry<T>>, same: seq<Entry<T>>, rest: seq<Entry<T>>)
    requires Sorted(PropertyOrder(less), first) && multiset(first) == multiset(same) && Sorted(less, rest)
    requires forall i | 0 <= i < |same| :: IndexKey(same[i].key)
    requires forall i | 0 <= i < |rest| :: !IndexKey(rest[i].key)
    ensures Sorted(PropertyOrder(less), first + rest)
  {
    forall i | 0 <= i < |first| ensures IndexKey(first[i].key) {
      assert first[i] in multiset(same);
      var k :| 0 <= k < |same| && same[k] == first[i];
    }
  }

  // ----- what `stable` keeps and forgets -----

  /** Under a strict order `stable` arranges every object in property order. */
  lemma {:induction false} StableArranges(less: (string, string) -> bool, v: Json)
    requires StrictTotal(less) && WellFormed(v)
    ensures Stable(less, v) == Arrange(PropertyOrder(less), v)
    decreases v
  {
    match v
    case Arr(items) => StableItemsArrange(less, items);
    case Obj(entries) =>
      StableEntriesArrange(less, entries);
      ArrangeKeys(PropertyOrder(less), entries);
      FromSorted(less, StableEntries(less, entries));
    case _ =>
  }

  lemma {:induction false} StableItemsArrange(less: (string, string) -> bool, items: seq<Json>)
    requires StrictTotal(less) && forall i | 0 <= i < |items| :: WellFormed(items[i])
    ensures StableItems(less, items) == ArrangeItems(PropertyOrder(less), items)
    decreases items
  {
    if items != [] {
      StableArranges(less, items[0]);
      StableItemsArrange(less, items[1..]);
    }
  }

  lemma {:induction false} StableEntriesArrange(less: (string, string) -> bool, entries: seq<Entry<Json>>)
    requires StrictTotal(less) && forall i | 0 <= i < |entries| :: WellFormed(entries[i].value)
    ensures StableEntries(less, entries) == ArrangeEntries(PropertyOrder(less), entries)
    decreases entries
  {
    if entries != [] {
      StableArranges(less, entries[0].value);
      StableEntriesArrange(less, entries[1..]);
    }
  }

  /** Two values become the same just when they are equal up to the order of keys. */
  lemma StableBlind(less: (string, string) -> bool, a: Json, b: Json)
    requires StrictTotal(less) && WellFormed(a) && WellFormed(b)
    ensures Same(a, b) <==> Stable(less, a) == Stable(less, b)
  {
    StableArranges(less, a);
    StableArranges(less, b);
    PropertyOrderIsTotal(less);
    ArrangeBlind(PropertyOrder(less), a, b);
  }

  /** `stable` keeps a value well formed and changes nothing but the order of keys. */
  lemma StableIsSame(less: (string, string) -> bool, v: Json)
    requires StrictTotal(less) && WellFormed(v)
    ensures WellFormed(Stable(less, v)) && Same(v, Stable(less, v))
  {
    StableArranges(less, v);
    PropertyOrderIsTotal(less);
    ArrangeIsSame(PropertyOrder(less), v);
  }

  lemma StableIdempotent(less: (string, string) -> bool, v: Json)
    requires StrictTotal(less) && WellFormed(v)
    ensures Stable(less, Stable(less, v)) == Stable(less, v)
  {
    StableIsSame(less, v);
    StableBlind(less, v, Stable(less, v));
  }

  /** The hashed text is equal just when the values are equal up to the order of keys. */
  lemma StableTextIffSame(less: (string, string) -> bool, a: Json, b: Json)
    requires StrictTotal(less) && WellFormed(a) && WellFormed(b)
    ensures Text(Stable(less, a)) == Text(Stable(less, b)) <==> Same(a, b)
  {
    StableBlind(less, a, b);
    StableIsSame(less, a);
    StableIsSame(less, b);
    TextsDiffer(Stable(less, a), Stable(less, b));
  }

  // ----- when the two printers agree -----

  /** Index keys come first and ascend. */
  predicate Leads(keys: seq<string>) {
    forall i, j | 0 <= i < j < |keys| && IndexKey(keys[j]) :: IndexLess(keys[i], keys[j])
  }

  /** In every object, sorting by `less` puts the index keys first and ascending. */
  predicate IndicesLead(less: (string, string) -> bool, v: Json)
    decreases v
  {
    match v
    case Arr(items) => forall i | 0 <= i < |items| :: IndicesLead(less, items[i])
    case Obj(entries) =>
      Leads(Keys(Sort(less, entries))) && forall i | 0 <= i < |entries| :: IndicesLead(less, entries[i].value)
    case _ => true
  }

  lemma {:induction false} InsertKeys<S, T>(
    less: (string, string) -> bool, e: Entry<S>, a: seq<Entry<S>>, f: Entry<T>, b: seq<Entry<T>>)
    requires e.key == f.key && Keys(a) == Keys(b)
    ensures Keys(Insert(less, e, a)) == Keys(Insert(less, f, b))
  {
    assert |a| == |Keys(a)| && |b| == |Keys(b)|;
    if a != [] {
      assert a[0].key == Keys(a)[0] && b[0].key == Keys(b)[0];
      KeysTail(a);
      KeysTail(b);
      if less(a[0].key, e.key) {
        InsertKeys(less, e, a[1..], f, b[1..]);
        KeysPush(a[0], Insert(less, e, a[1..]));
        KeysPush(b[0], Insert(less, f, b[1..]));
      } else {
        KeysPush(e, a);
        KeysPush(f, b);
      }
    }
  }

  lemma KeysTail<T>(a: seq<Entry<T>>)
    requires a != []
    ensures Keys(a[1..]) == Keys(a)[1..]
  {
  }

  lemma KeysPush<T>(e: Entry<T>, a: seq<Entry<T>>)
    ensures Keys([e] + a) == [e.key] + Keys(a)
  {
  }

  /** The order of sorted entries depends on their keys only. */
  lemma {:induction false} SortKeys<S, T>(less: (string, string) -> bool, a: seq<Entry<S>>, b: seq<Entry<T>>)
    requires Keys(a) == Keys(b)
    ensures Keys(Sort(less, a)) == Keys(Sort(less, b))
  {
    assert |a| == |Keys(a)| && |b| == |Keys(b)|;
    if a != [] {
      assert a[0].key == Keys(a)[0] && b[0].key == Keys(b)[0];
      KeysTail(a);
      KeysTail(b);
      SortKeys(less, a[1..], b[1..]);
      InsertKeys(less, a[0], Sort(less, a[1..]), b[0], Sort(less, b[1..]));
    }
  }

  lemma LeadsIffSorted<T>(less: (string, string) -> bool, sorted: seq<Entry<T>>)
    requires Sorted(less, sorted)
    ensures Leads(Keys(sorted)) <==> Sorted(PropertyOrder(less), sorted)
  {
    var keys := Keys(sorted);
    forall i, j | 0 <= i < j < |keys|
      ensures (IndexKey(keys[j]) ==> IndexLess(keys[i], keys[j])) <==> PropertyOrder(less)(sorted[i].key, sorted[j].key)
    {
      assert less(sorted[i].key, sorted[j].key);
    }
    if Leads(keys) {
      forall i, j | 0 <= i < j < |sorted| ensures PropertyOrder(less)(sorted[i].key, sorted[j].key) {
        assert IndexKey(keys[j]) ==> IndexLess(keys[i], keys[j]);
      }
    }
  }

  lemma {:induction false} ArrangementsAgree(less: (string, string) -> bool, v: Json)
    requires StrictTotal(less) && WellFormed(v)
    ensures Arrange(less, v) == Arrange(PropertyOrder(less), v) <==> IndicesLead(less, v)
    decreases v
  {
    var order := PropertyOrder(less);
    match v
    case Arr(items) =>
      ArrangeItemsAt(less, items);
      ArrangeItemsAt(order, items);
      forall i | 0 <= i < |items|
        ensures ArrangeItems(less, items)[i] == ArrangeItems(order, items)[i] <==> IndicesLead(less, items[i])
      {
        ArrangementsAgree(less, items[i]);
      }
    case Obj(entries) =>
      forall i | 0 <= i < |entries|
        ensures Arrange(less, entries[i].value) == Arrange(order, entries[i].value) <==> IndicesLead(less, entries[i].value)
      {
        ArrangementsAgree(less, entries[i].value);
      }
      EntriesAgree(less, entries);
    case _ =>
  }

  lemma EntriesAgree(less: (string, string) -> bool, entries: seq<Entry<Json>>)
    requires StrictTotal(less) && Distinct(Keys(entries))
    requires forall i | 0 <= i < |entries| ::
      Arrange(less, entries[i].value) == Arrange(PropertyOrder(less), entries[i].value) <==> IndicesLead(less, entries[i].value)
    ensures Sort(less, ArrangeEntries(less, entries)) == Sort(PropertyOrder(less), ArrangeEntries(PropertyOrder(less), entries))
      <==> Leads(Keys(Sort(less, entries))) && forall i | 0 <= i < |entries| :: IndicesLead(less, entries[i].value)
  {
    var order := PropertyOrder(less);
    var us, vs := ArrangeEntries(less, entries), ArrangeEntries(order, entries);
    ArrangeEntriesAt(less, entries);
    ArrangeEntriesAt(order, entries);
    ArrangeKeys(less, entries);
    ArrangeKeys(order, entries);
    SortKeys(less, us, entries);
    SortSorts(less, us);
    LeadsIffSorted(less, Sort(less, us));
    SortedTheSame(less, us, vs);
  }

  /** Sorting two lists with the same keys by two orders gives the same just when they are equal and the orders agree. */
  lemma SortedTheSame<T>(less: (string, string) -> bool, us: seq<Entry<T>>, vs: seq<Entry<T>>)
    requires StrictTotal(less) && Keys(us) == Keys(vs) && Distinct(Keys(us))
    ensures Sort(less, us) == Sort(PropertyOrder(less), vs) <==> us == vs && Sorted(PropertyOrder(less), Sort(less, us))
  {
    var order := PropertyOrder(less);
    PropertyOrderIsTotal(less);
    SortPermutes(less, us);
    SortPermutes(order, vs);
    SortSorts(order, vs);
    assert |us| == |Keys(us)| && |vs| == |Keys(vs)|;
    if Sort(less, us) == Sort(order, vs) {
      forall i | 0 <= i < |us| ensures us[i] == vs[i] {
        assert us[i] in multiset(vs);
        var j :| 0 <= j < |vs| && vs[j] == us[i];
        assert Keys(us)[i] == Keys(vs)[j];
        DistinctAt(Keys(us), i, j);
      }
    } else if us == vs && Sorted(order, Sort(less, us)) {
      SortedUnique(order, Sort(less, us), Sort(order, us));
    }
  }

  /**
   `canonicalJson` and `JSON.stringify` after `stable` print the same text if and only if, in every object, sorting
   already puts the index keys first and ascending.
  */
  lemma PrintersAgreeIff(less: (string, string) -> bool, v: Json)
    requires StrictTotal(less) && WellFormed(v)
    ensures Canonical(less, v) == Text(Stable(less, v)) <==> IndicesLead(less, v)
  {
    CanonicalArranges(less, v);
    StableArranges(less, v);
    PropertyOrderIsTotal(less);
    ArrangeIsSame(less, v);
    ArrangeIsSame(PropertyOrder(less), v);
    TextsDiffer(Arrange(less, v), Arrange(PropertyOrder(less), v));
    ArrangementsAgree(less, v);
  }

  lemma NineAndTen()
    ensures IndexKey("9") && IndexKey("10") && !IndexLess("10", "9")
  {
    assert "10"[..1] == "1" && "1"[..0] == "" && "9"[..0] == "";
    assert Value("9") == 9 && Value("1") == 1 && Value("10") == 10;
  }

  /** Of two keys, sorting puts the lesser first. */
  lemma SortsTwo<T>(less: (string, string) -> bool, e: Entry<T>, f: Entry<T>)
    requires less(f.key, e.key)
    ensures Sort(less, [e, f]) == [f, e]
  {
    assert [e, f][1..] == [f] && [f][1..] == [];
    calc {
      Sort(less, [e, f]);
      Insert(less, e, Sort(less, [f]));
      Insert(less, e, Insert(less, f, Sort(less, [])));
      Insert(less, e, [f]);
      [f] + Insert(less, e, [f][1..]);
      [f, e];
    }
  }

  /** With an order that puts "10" before "9", as collation by character does, the two texts differ. */
  lemma TenBeforeNine(less: (string, string) -> bool)
    requires StrictTotal(less) && less("10", "9")
    ensures var v := Obj([Entry("9", Null), Entry("10", Null)]);
      WellFormed(v) && Canonical(less, v) != Text(Stable(less, v))
  {
    var e, f := Entry("9", Null), Entry("10", Null);
    assert Keys([e, f]) == ["9", "10"] && Keys([f, e]) == ["10", "9"];
    SortsTwo(less, e, f);
    NineAndTen();
    assert Keys(Sort(less, [e, f]))[0] == "10" && Keys(Sort(less, [e, f]))[1] == "9";
    assert !Leads(Keys(Sort(less, [e, f])));
    PrintersAgreeIff(less, Obj([e, f]));
  }

  // ----- keys that the comparison finds equal -----

  lemma TwoUnordered<T>(less: (string, string) -> bool, e: Entry<T>, f: Entry<T>)
    requires !less(f.key, e.key)
    ensures Sort(less, [e, f]) == [e, f]
  {
    assert [e, f][1..] == [f] && [f][1..] == [];
    calc {
      Sort(less, [e, f]);
      Insert(less, e, Sort(less, [f]));
      Insert(less, e, Insert(less, f, Sort(less, [])));
      [e, f];
    }
  }

  lemma EqualKeysInCanonical(less: (string, string) -> bool, e: Entry<Json>, f: Entry<Json>)
    requires e.key != f.key && e.value == Null && f.value == Null && !less(e.key, f.key) && !less(f.key, e.key)
    ensures WellFormed(Obj([e, f])) && Canonical(less, Obj([e, f])) == Text(Obj([e, f]))
  {
    assert Keys([e, f]) == [e.key, f.key];
    TwoUnordered(less, e, f);
    UnchangedTwo(less, e, f);
    CanonicalArranges(less, Obj([e, f]));
  }

  lemma EqualKeysInStable(less: (string, string) -> bool, e: Entry<Json>, f: Entry<Json>)
    requires e.key != f.key && e.value == Null && f.value == Null && !less(e.key, f.key) && !less(f.key, e.key)
    ensures Stable(less, Obj([e, f])) ==
      if IndexKey(f.key) && (!IndexKey(e.key) || IndexLess(f.key, e.key)) then Obj([f, e]) else Obj([e, f])
  {
    TwoUnordered(less, e, f);
    UnchangedTwo(less, e, f);
    TwoRebuilt(e, f);
  }

  /**
   Without a strict order the text depends on the order of keys: two different keys that compare equal stay as they
   stood in `canonicalJson`, and in `stable` unless one of them is an index key.
  */
  lemma EqualKeysKeepTheirOrder(less: (string, string) -> bool, k: string, l: string)
    requires k != l && !less(k, l) && !less(l, k)
    ensures var a, b := Obj([Entry(k, Null), Entry(l, Null)]), Obj([Entry(l, Null), Entry(k, Null)]);
      && WellFormed(a) && WellFormed(b) && Same(a, b)
      && Canonical(less, a) != Canonical(less, b)
      && (Stable(less, a) != Stable(less, b) <==> !IndexKey(k) && !IndexKey(l))
  {
    var e, f := Entry(k, Null), Entry(l, Null);
    var xs, ys := [e, f], [f, e];
    assert xs[0] == ys[1] && xs[1] == ys[0];
    assert HasEntry(ys, xs[0]) && HasEntry(ys, xs[1]);
    EqualKeysInCanonical(less, e, f);
    EqualKeysInCanonical(less, f, e);
    TextsDiffer(Obj(xs), Obj(ys));
    EqualKeysInStable(less, e, f);
    EqualKeysInStable(less, f, e);
    if IndexKey(k) && IndexKey(l) { IndexKeysDiffer(k, l); }
  }

  lemma UnchangedTwo(less: (string, string) -> bool, e: Entry<Json>, f: Entry<Json>)
    requires e.value == Null && f.value == Null
    ensures ArrangeEntries(less, [e, f]) == [e, f] && StableEntries(less, [e, f]) == [e, f]
  {
    assert [e, f][1..] == [f] && [f][1..] == [];
    assert ArrangeEntries(less, [f]) == [f] && StableEntries(less, [f]) == [f];
  }

  lemma TwoRebuilt<T>(e: Entry<T>, f: Entry<T>)
    ensures FromEntries([e, f]) ==
      if IndexKey(f.key) && (!IndexKey(e.key) || IndexLess(f.key, e.key)) then [f, e] else [e, f]
  {
    assert [e, f][1..] == [f] && [f][1..] == [];
    assert Pick([f], true) == if IndexKey(f.key) then [f] else [];
    assert Pick([f], false) == if IndexKey(f.key) then [] else [f];
    if IndexKey(e.key) && IndexKey(f.key) {
      assert Pick([e, f], true) == [e, f] && Pick([e, f], false) == [];
      assert Sort(IndexLess, [f]) == [f];
      assert Sort(IndexLess, [e, f]) == Insert(IndexLess, e, [f]);
    } else if IndexKey(f.key) {
      assert Sort(IndexLess, [f]) == [f];
    } else if IndexKey(e.key) {
      assert [e][1..] == [];
      assert Sort(IndexLess, [e]) == [e];
    }
  }
}
