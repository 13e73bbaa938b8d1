/** Sorting entries by a string key, for a comparison of keys given as `less`. */
module Sorting {
  import opened Sequences

  datatype Entry<T> = Entry(key: string, value: T)

  function Keys<T>(entries: seq<Entry<T>>): seq<string> {
    seq(|entries|, i requires 0 <= i < |entries| => entries[i].key)
  }

  ghost predicate StrictTotal(less: (string, string) -> bool) {
    && (forall a, b :: less(a, b) ==> !less(b, a))
    && (forall a, b, c :: less(a, b) && less(b, c) ==> less(a, c))
    && (forall a, b :: a != b ==> less(a, b) || less(b, a))
  }

  function Insert<T>(less: (string, string) -> bool, e: Entry<T>, sorted: seq<Entry<T>>): seq<Entry<T>> {
    if sorted == [] then [e]
    else if less(sorted[0].key, e.key) then [sorted[0]] + Insert(less, e, sorted[1..])
    else [e] + sorted
  }

  function Sort<T>(less: (string, string) -> bool, entries: seq<Entry<T>>): seq<Entry<T>> {
    if entries == [] then [] else Insert(less, entries[0], Sort(less, entries[1..]))
  }

  ghost predicate Sorted<T>(less: (string, string) -> bool, entries: seq<Entry<T>>) {
    forall i, j | 0 <= i < j < |entries| :: less(entries[i].key, entries[j].key)
  }

  lemma {:induction false} InsertPermutes<T>(less: (string, string) -> bool, e: Entry<T>, sorted: seq<Entry<T>>)
    ensures multiset(Insert(less, e, sorted)) == multiset(sorted) + multiset{e}
  {
    if sorted != [] && less(sorted[0].key, e.key) {
      InsertPermutes(less, e, sorted[1..]);
      assert sorted == [sorted[0]] + sorted[1..];
    }
  }

  lemma {:induction false} SortPermutes<T>(less: (string, string) -> bool, entries: seq<Entry<T>>)
    ensures multiset(Sort(less, entries)) == multiset(entries) && |Sort(less, entries)| == |entries|
  {
    if entries != [] {
      SortPermutes(less, entries[1..]);
      InsertPermutes(less, entries[0], Sort(less, entries[1..]));
      assert entries == [entries[0]] + entries[1..];
    }
    assert |multiset(Sort(less, entries))| == |multiset(entries)|;
  }

  lemma {:induction false} InsertSorts<T>(less: (string, string) -> bool, e: Entry<T>, sorted: seq<Entry<T>>)
    requires StrictTotal(less) && Sorted(less, sorted)
    requires forall i | 0 <= i < |sorted| :: sorted[i].key != e.key
    ensures Sorted(less, Insert(less, e, sorted))
  {
    if sorted != [] && less(sorted[0].key, e.key) {
      InsertSorts(less, e, sorted[1..]);
      var rest := Insert(less, e, sorted[1..]);
      InsertPermutes(less, e, sorted[1..]);
      forall i | 0 <= i < |rest| ensures less(sorted[0].key, rest[i].key) {
        assert rest[i] in multiset(rest);
        if rest[i] != e {
          assert rest[i] in sorted[1..];
        }
      }
    }
  }

  lemma {:induction false} SortSorts<T>(less: (string, string) -> bool, entries: seq<Entry<T>>)
    requires StrictTotal(less) && Distinct(Keys(entries))
    ensures Sorted(less, Sort(less, entries))
  {
    if entries != [] {
      forall i, j | 0 <= i < j < |entries[1..]| ensures Keys(entries[1..])[i] != Keys(entries[1..])[j] {
        assert Keys(entries)[i + 1] != Keys(entries)[j + 1];
      }
      SortSorts(less, entries[1..]);
      var rest := Sort(less, entries[1..]);
      SortPermutes(less, entries[1..]);
      forall i | 0 <= i < |rest| ensures rest[i].key != entries[0].key {
        assert rest[i] in multiset(rest);
        assert rest[i] in entries[1..];
        var k :| 0 <= k < |entries[1..]| && entries[1..][k] == rest[i];
        assert Keys(entries)[0] != Keys(entries)[k + 1];
      }
      InsertSorts(less, entries[0], rest);
    }
  }

  lemma KeysDistinct<T>(entries: seq<Entry<T>>)
    requires Distinct(Keys(entries))
    ensures Distinct(entries)
  {
    forall i, j | 0 <= i < j < |entries| ensures entries[i] != entries[j] {
      assert Keys(entries)[i] != Keys(entries)[j];
    }
  }

  lemma SortedHead<T>(less: (string, string) -> bool, a: seq<Entry<T>>, b: seq<Entry<T>>)
    requires StrictTotal(less) && Sorted(less, a) && Sorted(less, b)
    requires a != [] && b != [] && a[0] in b && b[0] in a
    ensures a[0] == b[0]
  {
    var i :| 0 <= i < |b| && b[i] == a[0];
    var j :| 0 <= j < |a| && a[j] == b[0];
    if i > 0 && j > 0 {
      assert false;
    }
  }

  lemma TailCounts<T>(s: seq<T>)
    requires s != []
    ensures multiset(s[1..]) == multiset(s) - multiset{s[0]}
  {
    assert s == [s[0]] + s[1..];
  }

  lemma SameSize<T>(a: seq<T>, b: seq<T>)
    requires multiset(a) == multiset(b)
    ensures |a| == |b| && (a != [] ==> a[0] in b && b[0] in a)
  {
    assert |multiset(a)| == |a| && |multiset(b)| == |b|;
    if a != [] {
      assert a[0] in multiset(b) && b[0] in multiset(a);
    }
  }

  lemma SortedTail<T>(less: (string, string) -> bool, a: seq<Entry<T>>)
    requires Sorted(less, a) && a != []
    ensures Sorted(less, a[1..])
  {
  }

  /** Two sorted sequences with the same entries are the same sequence. */
  lemma {:induction false} SortedUnique<T>(less: (string, string) -> bool, a: seq<Entry<T>>, b: seq<Entry<T>>)
    requires StrictTotal(less) && Sorted(less, a) && Sorted(less, b) && multiset(a) == multiset(b)
    ensures a == b
  {
    SameSize(a, b);
    if a != [] {
      SortedHead(less, a, b);
      TailCounts(a);
      TailCounts(b);
      SortedTail(less, a);
      SortedTail(less, b);
      SortedUnique(less, a[1..], b[1..]);
      SameHeadAndTail(a, b);
    }
  }

  predicate EachIn<T(==)>(us: seq<T>, vs: seq<T>) { forall i | 0 <= i < |us| :: us[i] in vs }

  /** Sorting forgets the order of entries and nothing else. */
  lemma SortForgetsOrder<T>(less: (string, string) -> bool, us: seq<Entry<T>>, vs: seq<Entry<T>>)
    requires StrictTotal(less) && Distinct(Keys(us)) && Distinct(Keys(vs))
    ensures Sort(less, us) == Sort(less, vs) <==> |us| == |vs| && EachIn(us, vs)
  {
    SortPermutes(less, us);
    SortPermutes(less, vs);
    if Sort(less, us) == Sort(less, vs) {
      forall i | 0 <= i < |us| ensures us[i] in vs {
        assert us[i] in multiset(vs);
      }
    } else if |us| == |vs| && EachIn(us, vs) {
      KeysDistinct(us);
      Pigeonhole(us, vs);
      SortSorts(less, us);
      SortSorts(less, vs);
      SortedUnique(less, Sort(less, us), Sort(less, vs));
    }
  }

  lemma SortedKeysDistinct<T>(less: (string, string) -> bool, entries: seq<Entry<T>>)
    requires StrictTotal(less) && Distinct(Keys(entries))
    ensures Distinct(Keys(Sort(less, entries)))
  {
    var sorted := Sort(less, entries);
    SortSorts(less, entries);
    forall i, j | 0 <= i < j < |sorted| ensures Keys(sorted)[i] != Keys(sorted)[j] {
      assert less(sorted[i].key, sorted[j].key);
    }
  }
}
