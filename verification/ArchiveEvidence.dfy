/**
 The archive completeness check: `indexArchiveObjectEvidence` precomputes which paths the object
 keys hold, and `missingInventoryEntries` lists what is missing by looking them up.
*/
module ArchiveEvidence {
  import opened CanonicalJson
  import opened Paths
  import opened Sequences
  import opened Sorting
  import opened Wrappers

  datatype ArchivedObject = ArchivedObject(id: string, objectClass: string, key: string, versionId: string)

  datatype EvidenceIndex = EvidenceIndex(
    firstObjectId: map<string, string>, prefixes: set<string>,
    providerEvidence: set<string>, classAndDestination: set<string>)

  predicate NulFree(s: string) { forall i | 0 <= i < |s| :: s[i] != '\0' }

  /** Two strings with a NUL between them, as one key. */
  function Pair(left: string, right: string): string { left + ("\0" + right) }

  lemma PairInjective(a: string, x: string, b: string, y: string)
    requires NulFree(a) && NulFree(b) && Pair(a, x) == Pair(b, y)
    ensures a == b && x == y
  {
    assert Pair(a, x)[|a|] == '\0' && Pair(b, y)[|b|] == '\0';
    assert |a| == |b|;
    assert a == Pair(a, x)[..|a|] && b == Pair(b, y)[..|b|];
    assert x == Pair(a, x)[|a| + 1..] && y == Pair(b, y)[|b| + 1..];
  }

  function ProviderPath(stage: string, attempt: string): string {
    "/" + Glue(["pipeline", stage, "raw", attempt]) + "/"
  }

  // ----- what plain scans of the keys say -----

  ghost predicate SomeKeyUnder(objects: seq<ArchivedObject>, p: string) {
    exists o :: o in objects && p + "/" <= o.key
  }

  ghost predicate SomeKeyContains(objects: seq<ArchivedObject>, piece: string) {
    exists o :: o in objects && Contains(o.key, piece)
  }

  ghost predicate SomeKeyOfClassContains(objects: seq<ArchivedObject>, c: string, piece: string) {
    exists o :: o in objects && o.objectClass == c && Contains(o.key, piece)
  }

  /** The id of the first object of class `c` whose key lies under `p`. */
  function FirstUnder(objects: seq<ArchivedObject>, c: string, p: string): Option<string> {
    if objects == [] then None
    else if objects[0].objectClass == c && p + "/" <= objects[0].key then Some(objects[0].id)
    else FirstUnder(objects[1..], c, p)
  }

  lemma {:induction false} FirstUnderAppend(objects: seq<ArchivedObject>, o: ArchivedObject, c: string, p: string)
    ensures FirstUnder(objects + [o], c, p) ==
      if FirstUnder(objects, c, p).Some? then FirstUnder(objects, c, p)
      else if o.objectClass == c && p + "/" <= o.key then Some(o.id) else None
  {
    if objects != [] {
      FirstUnderAppend(objects[1..], o, c, p);
      assert (objects + [o])[1..] == objects[1..] + [o];
    }
  }

  // ----- what one key adds to the index -----

  function PrefixesTo(segments: seq<string>, n: nat): set<string>
    requires 1 <= n <= |segments|
  {
    if n == 1 then {} else PrefixesTo(segments, n - 1) + {Glue(segments[..n - 1])}
  }

  function SegmentsTo(segments: seq<string>, n: nat): set<string>
    requires 1 <= n <= |segments|
  {
    if n == 1 then {} else SegmentsTo(segments, n - 1) + {segments[n - 1]}
  }

  predicate EvidenceAt(segments: seq<string>, i: nat) {
    i + 4 < |segments| && segments[i] == "pipeline" && segments[i + 2] == "raw"
  }

  function EvidenceTo(segments: seq<string>, n: nat): set<string>
    requires 1 <= n <= |segments|
  {
    if n == 1 then {}
    else if EvidenceAt(segments, n - 1) then
      EvidenceTo(segments, n - 1) + {ProviderPath(segments[n], segments[n + 2])}
    else EvidenceTo(segments, n - 1)
  }

  lemma {:induction false} PrefixesToHolds(segments: seq<string>, n: nat, p: string)
    requires 1 <= n <= |segments|
    ensures p in PrefixesTo(segments, n) <==> exists i :: 1 <= i < n && Glue(segments[..i]) == p
  {
    if n > 1 {
      PrefixesToHolds(segments, n - 1, p);
      assert p in PrefixesTo(segments, n) <==> p in PrefixesTo(segments, n - 1) || p == Glue(segments[..n - 1]);
    }
  }

  lemma {:induction false} SegmentsToHolds(segments: seq<string>, n: nat, d: string)
    requires 1 <= n <= |segments|
    ensures d in SegmentsTo(segments, n) <==> exists i :: 1 <= i < n && segments[i] == d
  {
    if n > 1 {
      SegmentsToHolds(segments, n - 1, d);
    }
  }

  lemma {:induction false} EvidenceToHolds(segments: seq<string>, n: nat, e: string)
    requires 1 <= n <= |segments|
    ensures e in EvidenceTo(segments, n) <==>
      exists i :: 1 <= i < n && EvidenceAt(segments, i) && e == ProviderPath(segments[i + 1], segments[i + 3])
  {
    if n > 1 {
      EvidenceToHolds(segments, n - 1, e);
    }
  }

  /** A prefix is recorded exactly when the key lies under it. */
  lemma PrefixRecorded(key: string, p: string)
    ensures p in PrefixesTo(Split(key), |Split(key)|) <==> p + "/" <= key
  {
    var segments := Split(key);
    PrefixesToHolds(segments, |segments|, p);
    if p in PrefixesTo(segments, |segments|) {
      var i :| 1 <= i < |segments| && Glue(segments[..i]) == p;
      PrefixOfKey(key, i);
    }
    if p + "/" <= key {
      PrefixCut(key, p);
    }
  }

  /** A slash-free segment is recorded exactly when the key holds it between two slashes. */
  lemma SegmentRecorded(key: string, d: string)
    requires SlashFree(d) && |Split(key)| > 1
    ensures d in SegmentsTo(Split(key), |Split(key)| - 1) <==> Contains(key, "/" + d + "/")
  {
    var segments := Split(key);
    SegmentsToHolds(segments, |segments| - 1, d);
    SplitSlashFree(d);
    if d in SegmentsTo(segments, |segments| - 1) {
      var i :| 1 <= i < |segments| - 1 && segments[i] == d;
      SliceInKey(key, i, i + 1);
      assert segments[i..i + 1] == [d];
    }
    if Contains(key, "/" + d + "/") {
      var i := SliceOfContained(key, d);
      assert segments[i] == segments[i..i + 1][0];
    }
  }

  lemma ProviderPathInjective(s: string, a: string, t: string, b: string)
    requires SlashFree(s) && SlashFree(a) && SlashFree(t) && SlashFree(b) && ProviderPath(s, a) == ProviderPath(t, b)
    ensures s == t && a == b
  {
    var x, y := ["pipeline", s, "raw", a], ["pipeline", t, "raw", b];
    assert Glue(x) == ProviderPath(s, a)[1..|ProviderPath(s, a)| - 1];
    assert Glue(y) == ProviderPath(t, b)[1..|ProviderPath(t, b)| - 1];
    SplitGlue(x);
    SplitGlue(y);
    assert x[1] == y[1] && x[3] == y[3];
  }

  predicate FourAt(segments: seq<string>, i: nat, stage: string, attempt: string) {
    i + 4 < |segments| && segments[i..i + 4] == ["pipeline", stage, "raw", attempt]
  }

  lemma FourIsEvidence(segments: seq<string>, i: nat, stage: string, attempt: string)
    ensures FourAt(segments, i, stage, attempt)
      <==> EvidenceAt(segments, i) && segments[i + 1] == stage && segments[i + 3] == attempt
  {
    if i + 4 < |segments| {
      var four := segments[i..i + 4];
      assert four == [segments[i], segments[i + 1], segments[i + 2], segments[i + 3]];
    }
  }

  lemma ProviderPathInKey(key: string, stage: string, attempt: string)
    requires SlashFree(stage) && SlashFree(attempt)
    ensures Contains(key, ProviderPath(stage, attempt))
      <==> exists i: nat :: 1 <= i && FourAt(Split(key), i, stage, attempt)
  {
    var path := ["pipeline", stage, "raw", attempt];
    SplitGlue(path);
    if Contains(key, ProviderPath(stage, attempt)) {
      var i := SliceOfContained(key, Glue(path));
      assert FourAt(Split(key), i, stage, attempt);
    }
    if i: nat :| 1 <= i && FourAt(Split(key), i, stage, attempt) {
      SliceInKey(key, i, i + 4);
    }
  }

  /** A provider path is recorded exactly when the key contains it. */
  lemma EvidenceRecorded(key: string, stage: string, attempt: string)
    requires SlashFree(stage) && SlashFree(attempt) && |Split(key)| > 1
    ensures ProviderPath(stage, attempt) in EvidenceTo(Split(key), |Split(key)| - 1)
      <==> Contains(key, ProviderPath(stage, attempt))
  {
    var segments := Split(key);
    EvidenceToHolds(segments, |segments| - 1, ProviderPath(stage, attempt));
    ProviderPathInKey(key, stage, attempt);
    if ProviderPath(stage, attempt) in EvidenceTo(segments, |segments| - 1) {
      var i :| 1 <= i < |segments| - 1 && EvidenceAt(segments, i)
        && ProviderPath(stage, attempt) == ProviderPath(segments[i + 1], segments[i + 3]);
      SplitPieces(key);
      ProviderPathInjective(stage, attempt, segments[i + 1], segments[i + 3]);
      FourIsEvidence(segments, i, stage, attempt);
    }
    if i: nat :| 1 <= i && FourAt(segments, i, stage, attempt) {
      FourIsEvidence(segments, i, stage, attempt);
    }
  }

  // ----- building the index -----

  /** Each pair of `c` and a prefix that is new to the map gets `id`. */
  function AddFirst(m: map<string, string>, c: string, prefixes: set<string>, id: string): map<string, string> {
    map x | x in m.Keys + (set p | p in prefixes :: Pair(c, p)) :: if x in m then m[x] else id
  }

  function Inner(segments: seq<string>): nat { if |segments| > 1 then |segments| - 1 else 1 }

  function AddObject(index: EvidenceIndex, o: ArchivedObject): EvidenceIndex {
    var segments := Split(o.key);
    EvidenceIndex(
      AddFirst(index.firstObjectId, o.objectClass, PrefixesTo(segments, |segments|), o.id),
      index.prefixes + PrefixesTo(segments, |segments|),
      index.providerEvidence + EvidenceTo(segments, Inner(segments)),
      index.classAndDestination + set d | d in SegmentsTo(segments, Inner(segments)) :: Pair(o.objectClass, d))
  }

  lemma AddFirstStep(m: map<string, string>, c: string, prefixes: set<string>, p: string, id: string)
    ensures AddFirst(m, c, prefixes + {p}, id) ==
      var before := AddFirst(m, c, prefixes, id);
      if Pair(c, p) in before then before else before[Pair(c, p) := id]
  {
    assert (set q | q in prefixes + {p} :: Pair(c, q)) == (set q | q in prefixes :: Pair(c, q)) + {Pair(c, p)};
  }

  function SortKey(o: ArchivedObject): string { Pair(o.key, Pair(o.versionId, o.id)) }

  function Values<T>(entries: seq<Entry<T>>): seq<T> {
    if entries == [] then [] else [entries[0].value] + Values(entries[1..])
  }

  function Keyed(objects: seq<ArchivedObject>): seq<Entry<ArchivedObject>> {
    if objects == [] then [] else [Entry(SortKey(objects[0]), objects[0])] + Keyed(objects[1..])
  }

  /** The objects ordered by key, version and id. */
  function Ordered(less: (string, string) -> bool, objects: seq<ArchivedObject>): seq<ArchivedObject> {
    Values(Sort(less, Keyed(objects)))
  }

  lemma PrefixGrows(segments: seq<string>, i: nat)
    requires 1 <= i < |segments|
    ensures Glue(segments[..i + 1]) == Glue(segments[..i]) + ("/" + segments[i])
    ensures PrefixesTo(segments, i + 1) == PrefixesTo(segments, i) + {Glue(segments[..i])}
  {
    GlueAppend(segments[..i], [segments[i]]);
    assert segments[..i + 1] == segments[..i] + [segments[i]];
  }

  lemma PlacesGrow(c: string, segments: seq<string>, i: nat)
    requires 1 <= i < |segments|
    ensures (set d | d in SegmentsTo(segments, i + 1) :: Pair(c, d))
      == (set d | d in SegmentsTo(segments, i) :: Pair(c, d)) + {Pair(c, segments[i])}
  {
    assert SegmentsTo(segments, i + 1) == SegmentsTo(segments, i) + {segments[i]};
  }

  lemma IndexGrows(objects: seq<ArchivedObject>, k: nat)
    requires k < |objects|
    ensures IndexOf(objects[..k + 1]) == AddObject(IndexOf(objects[..k]), objects[k])
  {
    assert objects[..k + 1][..k] == objects[..k];
  }

  /** The loop over the prefixes of one object's key. */
  method AddPrefixes(o: ArchivedObject, segments: seq<string>, firstBefore: map<string, string>, before: set<string>)
    returns (first: map<string, string>, prefixes: set<string>)
    requires segments != []
    ensures prefixes == before + PrefixesTo(segments, |segments|)
    ensures first == AddFirst(firstBefore, o.objectClass, PrefixesTo(segments, |segments|), o.id)
  {
    first, prefixes := firstBefore, before;
    var prefix := segments[0];
    var i := 1;
    while i < |segments|
      invariant 1 <= i <= |segments|
      invariant prefix == Glue(segments[..i])
      invariant prefixes == before + PrefixesTo(segments, i)
      invariant first == AddFirst(firstBefore, o.objectClass, PrefixesTo(segments, i), o.id)
    {
      AddFirstStep(firstBefore, o.objectClass, PrefixesTo(segments, i), prefix, o.id);
      PrefixGrows(segments, i);
      prefixes := prefixes + {prefix};
      var classAndPrefix := Pair(o.objectClass, prefix);
      if classAndPrefix !in first { first := first[classAndPrefix := o.id]; }
      prefix := prefix + ("/" + segments[i]);
      i := i + 1;
    }
  }

  /** The loop over the inner segments of one object's key. */
  method AddPlaces(o: ArchivedObject, segments: seq<string>, evidenceBefore: set<string>, before: set<string>)
    returns (evidence: set<string>, places: set<string>)
    requires segments != []
    ensures evidence == evidenceBefore + EvidenceTo(segments, Inner(segments))
    ensures places == before + set d | d in SegmentsTo(segments, Inner(segments)) :: Pair(o.objectClass, d)
  {
    evidence, places := evidenceBefore, before;
    var i := 1;
    while i < |segments| - 1
      invariant 1 <= i <= Inner(segments)
      invariant evidence == evidenceBefore + EvidenceTo(segments, i)
      invariant places == before + set d | d in SegmentsTo(segments, i) :: Pair(o.objectClass, d)
    {
      PlacesGrow(o.objectClass, segments, i);
      places := places + {Pair(o.objectClass, segments[i])};
      if segments[i] == "pipeline" && i + 4 < |segments| && segments[i + 2] == "raw" {
        evidence := evidence + {ProviderPath(segments[i + 1], segments[i + 3])};
      }
      i := i + 1;
    }
  }

  method IndexEvidence(less: (string, string) -> bool, objects: seq<ArchivedObject>) returns (index: EvidenceIndex)
    ensures index == IndexOf(Ordered(less, objects))
  {
    index := EvidenceIndex(map[], {}, {}, {});
    var ordered := Ordered(less, objects);
    var k := 0;
    while k < |ordered|
      invariant 0 <= k <= |ordered|
      invariant index == IndexOf(ordered[..k])
    {
      IndexGrows(ordered, k);
      var o := ordered[k];
      var segments := Split(o.key);
      var first, prefixes := AddPrefixes(o, segments, index.firstObjectId, index.prefixes);
      var evidence, places := AddPlaces(o, segments, index.providerEvidence, index.classAndDestination);
      index := EvidenceIndex(first, prefixes, evidence, places);
      k := k + 1;
    }
    assert ordered[..k] == ordered;
  }

  function IndexOf(objects: seq<ArchivedObject>): EvidenceIndex {
    if objects == [] then EvidenceIndex(map[], {}, {}, {})
    else AddObject(IndexOf(objects[..|objects| - 1]), objects[|objects| - 1])
  }

  // ----- what the index means -----

  ghost predicate PlainClasses(objects: seq<ArchivedObject>) {
    forall o | o in objects :: NulFree(o.objectClass)
  }

  lemma {:induction false} PrefixMeans(objects: seq<ArchivedObject>, p: string)
    ensures p in IndexOf(objects).prefixes <==> SomeKeyUnder(objects, p)
  {
    if objects != [] {
      var init, o := objects[..|objects| - 1], objects[|objects| - 1];
      PrefixMeans(init, p);
      PrefixRecorded(o.key, p);
      assert objects == init + [o];
    }
  }

  lemma {:induction false} FirstIdMeans(objects: seq<ArchivedObject>, c: string, p: string)
    requires PlainClasses(objects) && NulFree(c)
    ensures Pair(c, p) in IndexOf(objects).firstObjectId <==> FirstUnder(objects, c, p).Some?
    ensures Pair(c, p) in IndexOf(objects).firstObjectId ==>
      FirstUnder(objects, c, p) == Some(IndexOf(objects).firstObjectId[Pair(c, p)])
  {
    if objects != [] {
      var init, o := objects[..|objects| - 1], objects[|objects| - 1];
      assert objects == init + [o] && o in objects;
      FirstIdMeans(init, c, p);
      FirstUnderAppend(init, o, c, p);
      PrefixRecorded(o.key, p);
      PairAdded(o.objectClass, PrefixesTo(Split(o.key), |Split(o.key)|), c, p);
    }
  }

  lemma PairAdded(c: string, rights: set<string>, d: string, p: string)
    requires NulFree(c) && NulFree(d)
    ensures Pair(d, p) in (set q | q in rights :: Pair(c, q)) <==> c == d && p in rights
  {
    if q :| q in rights && Pair(d, p) == Pair(c, q) {
      PairInjective(d, p, c, q);
    }
  }

  lemma {:induction false} PlaceMeans(objects: seq<ArchivedObject>, c: string, d: string)
    requires PlainClasses(objects) && NulFree(c) && SlashFree(d)
    ensures Pair(c, d) in IndexOf(objects).classAndDestination
      <==> SomeKeyOfClassContains(objects, c, "/" + d + "/")
  {
    if objects != [] {
      var init, o := objects[..|objects| - 1], objects[|objects| - 1];
      assert objects == init + [o] && o in objects;
      PlaceMeans(init, c, d);
      var segments := Split(o.key);
      PairAdded(o.objectClass, SegmentsTo(segments, Inner(segments)), c, d);
      if |segments| > 1 {
        SegmentRecorded(o.key, d);
      } else {
        OneSegment(o.key, d);
      }
    }
  }

  lemma {:induction false} EvidenceMeans(objects: seq<ArchivedObject>, stage: string, attempt: string)
    requires SlashFree(stage) && SlashFree(attempt)
    ensures ProviderPath(stage, attempt) in IndexOf(objects).providerEvidence
      <==> SomeKeyContains(objects, ProviderPath(stage, attempt))
  {
    if objects != [] {
      var init, o := objects[..|objects| - 1], objects[|objects| - 1];
      assert objects == init + [o] && o in objects;
      EvidenceMeans(init, stage, attempt);
      if |Split(o.key)| > 1 {
        EvidenceRecorded(o.key, stage, attempt);
      } else {
        OneSegment(o.key, Glue(["pipeline", stage, "raw", attempt]));
      }
    }
  }

  lemma OneSegment(key: string, m: string)
    requires |Split(key)| == 1
    ensures !Contains(key, "/" + m + "/")
  {
    if Contains(key, "/" + m + "/") {
      var i := SliceOfContained(key, m);
    }
  }
}
