/** The list of what an archive lacks, and what it means for that list to be empty. */
module MissingEvidence {
  import opened ArchiveEvidence
  import opened CanonicalJson
  import opened Paths
  import opened Sequences
  import opened Sorting
  import opened Wrappers

  datatype Expectation = Expectation(
    id: string, objectClass: string, causalKey: string,
    sampleStart: Option<int>, sampleEnd: Option<int>, fulfilledObjectId: Option<string>)

  datatype Attempt = Attempt(attemptId: string, stage: string)

  datatype Direction = Direction(translated: bool, destination: string, emittedOutput: int)

  datatype Snapshot<Gap> = Snapshot(
    roomClose: Json, workerTerminal: Json, egressResults: seq<Json>,
    providerAttempts: seq<Attempt>, providerGaps: seq<Gap>, directions: seq<Direction>,
    expectations: seq<Expectation>)

  datatype Missing<Gap> =
    | Unfulfilled(expected: Expectation)
    | Unverified(expected: Expectation)
    | ProviderFailed(gap: Gap)
    | UnexpectedUnverified(objectId: string)
    | RoomCloseMissing
    | WorkerTerminalMissing
    | ProviderObjectMissing(attempt: Attempt, evidence: string)
    | OutputMissing(objectClass: string, direction: Direction)
    | EgressTerminalMissing(index: nat)
    | EgressObjectMissing(index: nat)

  // ----- fields of stored JSON values -----

  /** The value of a field, if the value is an object that has it. */
  function Field(v: Json, name: string): Option<Json> {
    if v.Obj? then FieldOf(v.entries, name) else None
  }

  function FieldOf(entries: seq<Entry<Json>>, name: string): Option<Json> {
    if entries == [] then None
    else if entries[0].key == name then Some(entries[0].value)
    else FieldOf(entries[1..], name)
  }

  predicate TerminalMarker(v: Json) { Field(v, "terminal") == Some(Bool(true)) }

  // ----- the plain scan -----

  predicate Discoverable(e: Expectation) {
    e.objectClass == "room_composite" || e.objectClass == "participant_original"
  }

  /** The object that stands for an expectation. */
  function Resolve(ordered: seq<ArchivedObject>, e: Expectation): Option<string> {
    if e.fulfilledObjectId.Some? then e.fulfilledObjectId
    else if Discoverable(e) then FirstUnder(ordered, e.objectClass, e.causalKey)
    else None
  }

  function ExpectationGap<Gap>(resolved: Option<string>, invalid: seq<string>, e: Expectation): seq<Missing<Gap>> {
    match resolved
    case None => [Unfulfilled(e)]
    case Some(id) => if id in invalid then [Unverified(e)] else []
  }

  function ExpectationGaps<Gap>(ordered: seq<ArchivedObject>, invalid: seq<string>, es: seq<Expectation>)
    : seq<Missing<Gap>>
  {
    if es == [] then []
    else
      var e := es[|es| - 1];
      ExpectationGaps(ordered, invalid, es[..|es| - 1]) + ExpectationGap(Resolve(ordered, e), invalid, e)
  }

  function ProviderGaps<Gap>(gaps: seq<Gap>): seq<Missing<Gap>> {
    if gaps == [] then [] else ProviderGaps(gaps[..|gaps| - 1]) + [ProviderFailed(gaps[|gaps| - 1])]
  }

  ghost predicate Expected(ordered: seq<ArchivedObject>, es: seq<Expectation>, id: string) {
    exists e :: e in es && Resolve(ordered, e) == Some(id)
  }

  ghost function UnexpectedGaps<Gap>(ordered: seq<ArchivedObject>, es: seq<Expectation>, invalid: seq<string>)
    : seq<Missing<Gap>>
  {
    if invalid == [] then []
    else
      var id := invalid[|invalid| - 1];
      UnexpectedGaps(ordered, es, invalid[..|invalid| - 1]) +
      if Expected(ordered, es, id) then [] else [UnexpectedUnverified(id)]
  }

  ghost function EvidenceGap<Gap>(objects: seq<ArchivedObject>, a: Attempt, evidence: string): seq<Missing<Gap>> {
    if SomeKeyContains(objects, evidence) then [] else [ProviderObjectMissing(a, evidence)]
  }

  ghost function AttemptGap<Gap>(objects: seq<ArchivedObject>, a: Attempt): seq<Missing<Gap>> {
    EvidenceGap(objects, a, ProviderPath("terminal", a.attemptId))
    + EvidenceGap(objects, a, ProviderPath(a.stage, a.attemptId))
  }

  ghost function AttemptGaps<Gap>(objects: seq<ArchivedObject>, attempts: seq<Attempt>): seq<Missing<Gap>> {
    if attempts == [] then []
    else
      var a := attempts[|attempts| - 1];
      AttemptGaps(objects, attempts[..|attempts| - 1]) + AttemptGap(objects, a)
  }

  ghost function OutputGap<Gap>(objects: seq<ArchivedObject>, d: Direction, c: string): seq<Missing<Gap>> {
    if SomeKeyOfClassContains(objects, c, "/" + d.destination + "/") then [] else [OutputMissing(c, d)]
  }

  ghost function DirectionGap<Gap>(objects: seq<ArchivedObject>, d: Direction): seq<Missing<Gap>> {
    if !d.translated || d.emittedOutput == 0 then []
    else OutputGap(objects, d, "tts_output_pcm") + OutputGap(objects, d, "livekit_output_pcm")
  }

  ghost function DirectionGaps<Gap>(objects: seq<ArchivedObject>, ds: seq<Direction>): seq<Missing<Gap>> {
    if ds == [] then []
    else
      var d := ds[|ds| - 1];
      DirectionGaps(objects, ds[..|ds| - 1]) + DirectionGap(objects, d)
  }

  ghost predicate EgressObject(objects: seq<ArchivedObject>, result: Json) {
    match Field(result, "outputPrefix")
    case Some(Str(p)) => SomeKeyUnder(objects, p)
    case _ => false
  }

  ghost function EgressGaps<Gap>(objects: seq<ArchivedObject>, results: seq<Json>): seq<Missing<Gap>> {
    if results == [] then []
    else
      var result := results[|results| - 1];
      EgressGaps(objects, results[..|results| - 1]) +
      if !TerminalMarker(result) then [EgressTerminalMissing(|results| - 1)]
      else if !EgressObject(objects, result) then [EgressObjectMissing(|results| - 1)]
      else []
  }

  function TerminalGaps<Gap>(snapshot: Snapshot<Gap>): seq<Missing<Gap>> {
    (if TerminalMarker(snapshot.roomClose) then [] else [RoomCloseMissing])
    + (if TerminalMarker(snapshot.workerTerminal) then [] else [WorkerTerminalMissing])
  }

  /** What is missing, found by scanning every key for every need. */
  ghost function MissingByScan<Gap>(ordered: seq<ArchivedObject>, snapshot: Snapshot<Gap>, invalid: seq<string>)
    : seq<Missing<Gap>>
  {
    ExpectationGaps(ordered, invalid, snapshot.expectations)
    + ProviderGaps(snapshot.providerGaps)
    + UnexpectedGaps(ordered, snapshot.expectations, invalid)
    + TerminalGaps(snapshot)
    + AttemptGaps(ordered, snapshot.providerAttempts)
    + DirectionGaps(ordered, snapshot.directions)
    + EgressGaps(ordered, snapshot.egressResults)
  }

  // ----- what it means for nothing to be missing -----

  ghost predicate Fulfilled(objects: seq<ArchivedObject>, e: Expectation) {
    || e.fulfilledObjectId.Some?
    || ((e.objectClass == "room_composite" || e.objectClass == "participant_original")
        && exists o :: o in objects && o.objectClass == e.objectClass && e.causalKey + "/" <= o.key)
  }

  ghost predicate AttemptStored(objects: seq<ArchivedObject>, a: Attempt) {
    && SomeKeyContains(objects, ProviderPath("terminal", a.attemptId))
    && SomeKeyContains(objects, ProviderPath(a.stage, a.attemptId))
  }

  ghost predicate OutputStored(objects: seq<ArchivedObject>, d: Direction) {
    d.translated && d.emittedOutput != 0 ==>
      && SomeKeyOfClassContains(objects, "tts_output_pcm", "/" + d.destination + "/")
      && SomeKeyOfClassContains(objects, "livekit_output_pcm", "/" + d.destination + "/")
  }

  ghost predicate Complete<Gap>(objects: seq<ArchivedObject>, snapshot: Snapshot<Gap>) {
    && (forall e | e in snapshot.expectations :: Fulfilled(objects, e))
    && snapshot.providerGaps == []
    && TerminalMarker(snapshot.roomClose)
    && TerminalMarker(snapshot.workerTerminal)
    && (forall a | a in snapshot.providerAttempts :: AttemptStored(objects, a))
    && (forall d | d in snapshot.directions :: OutputStored(objects, d))
    && (forall r | r in snapshot.egressResults :: TerminalMarker(r) && EgressObject(objects, r))
  }

  lemma {:induction false} FirstUnderFinds(objects: seq<ArchivedObject>, c: string, p: string)
    ensures FirstUnder(objects, c, p).Some? <==> exists o :: o in objects && o.objectClass == c && p + "/" <= o.key
  {
    if objects != [] {
      FirstUnderFinds(objects[1..], c, p);
      assert objects == [objects[0]] + objects[1..];
    }
  }

  lemma ResolvedIffFulfilled(objects: seq<ArchivedObject>, e: Expectation)
    ensures Resolve(objects, e).Some? <==> Fulfilled(objects, e)
  {
    FirstUnderFinds(objects, e.objectClass, e.causalKey);
  }

  predicate Satisfied(objects: seq<ArchivedObject>, invalid: seq<string>, e: Expectation) {
    match Resolve(objects, e)
    case None => false
    case Some(id) => id !in invalid
  }

  lemma {:induction false} NoExpectationGaps<Gap>(objects: seq<ArchivedObject>, invalid: seq<string>, es: seq<Expectation>)
    ensures ExpectationGaps<Gap>(objects, invalid, es) == [] <==>
      forall e | e in es :: Satisfied(objects, invalid, e)
  {
    if es != [] {
      var init, e := es[..|es| - 1], es[|es| - 1];
      NoExpectationGaps<Gap>(objects, invalid, init);
      assert es == init + [e];
      assert ExpectationGap<Gap>(Resolve(objects, e), invalid, e) == [] <==> Satisfied(objects, invalid, e);
    }
  }

  lemma {:induction false} NoUnexpectedGaps<Gap>(objects: seq<ArchivedObject>, es: seq<Expectation>, invalid: seq<string>)
    ensures UnexpectedGaps<Gap>(objects, es, invalid) == [] <==> forall id | id in invalid :: Expected(objects, es, id)
  {
    if invalid != [] {
      var init, id := invalid[..|invalid| - 1], invalid[|invalid| - 1];
      NoUnexpectedGaps<Gap>(objects, es, init);
      assert invalid == init + [id];
    }
  }

  lemma {:induction false} NoAttemptGaps<Gap>(objects: seq<ArchivedObject>, attempts: seq<Attempt>)
    ensures AttemptGaps<Gap>(objects, attempts) == [] <==> forall a | a in attempts :: AttemptStored(objects, a)
  {
    if attempts != [] {
      var init, a := attempts[..|attempts| - 1], attempts[|attempts| - 1];
      NoAttemptGaps<Gap>(objects, init);
      assert attempts == init + [a];
      assert AttemptGap<Gap>(objects, a) == [] <==> AttemptStored(objects, a);
    }
  }

  lemma {:induction false} NoDirectionGaps<Gap>(objects: seq<ArchivedObject>, ds: seq<Direction>)
    ensures DirectionGaps<Gap>(objects, ds) == [] <==> forall d | d in ds :: OutputStored(objects, d)
  {
    if ds != [] {
      var init, d := ds[..|ds| - 1], ds[|ds| - 1];
      NoDirectionGaps<Gap>(objects, init);
      assert ds == init + [d];
      assert DirectionGap<Gap>(objects, d) == [] <==> OutputStored(objects, d);
    }
  }

  lemma {:induction false} NoEgressGaps<Gap>(objects: seq<ArchivedObject>, results: seq<Json>)
    ensures EgressGaps<Gap>(objects, results) == [] <==>
      forall r | r in results :: TerminalMarker(r) && EgressObject(objects, r)
  {
    if results != [] {
      var init, r := results[..|results| - 1], results[|results| - 1];
      NoEgressGaps<Gap>(objects, init);
      assert results == init + [r];
    }
  }

  /** An invalid object is reported whether or not an expectation stands for it. */
  lemma NoGapMeansNoneInvalid<Gap>(objects: seq<ArchivedObject>, invalid: seq<string>, es: seq<Expectation>)
    ensures ExpectationGaps<Gap>(objects, invalid, es) == [] && UnexpectedGaps<Gap>(objects, es, invalid) == []
      <==> invalid == [] && forall e | e in es :: Fulfilled(objects, e)
  {
    NoExpectationGaps<Gap>(objects, invalid, es);
    NoUnexpectedGaps<Gap>(objects, es, invalid);
    forall e ensures Resolve(objects, e).Some? <==> Fulfilled(objects, e) {
      ResolvedIffFulfilled(objects, e);
    }
    if invalid != [] && Expected(objects, es, invalid[0]) {
      var e :| e in es && Resolve(objects, e) == Some(invalid[0]);
      assert !Satisfied(objects, invalid, e);
    }
  }

  lemma NothingMissing<Gap>(objects: seq<ArchivedObject>, snapshot: Snapshot<Gap>, invalid: seq<string>)
    ensures MissingByScan(objects, snapshot, invalid) == [] <==> invalid == [] && Complete(objects, snapshot)
  {
    NoGapMeansNoneInvalid<Gap>(objects, invalid, snapshot.expectations);
    NoAttemptGaps<Gap>(objects, snapshot.providerAttempts);
    NoDirectionGaps<Gap>(objects, snapshot.directions);
    NoEgressGaps<Gap>(objects, snapshot.egressResults);
  }

  lemma {:induction false} OrderedSame(less: (string, string) -> bool, objects: seq<ArchivedObject>)
    ensures multiset(Ordered(less, objects)) == multiset(objects)
    ensures forall o :: o in Ordered(less, objects) <==> o in objects
  {
    SortPermutes(less, Keyed(objects));
    ValuesOfKeyed(objects);
    ValuesPermute(Sort(less, Keyed(objects)), Keyed(objects));
    forall o ensures o in Ordered(less, objects) <==> o in objects {
      assert o in multiset(Ordered(less, objects)) <==> o in multiset(objects);
    }
  }

  lemma {:induction false} ValuesOfKeyed(objects: seq<ArchivedObject>)
    ensures Values(Keyed(objects)) == objects
  {
    if objects != [] {
      ValuesOfKeyed(objects[1..]);
    }
  }

  lemma {:induction false} ValuesConcat<T>(a: seq<Entry<T>>, b: seq<Entry<T>>)
    ensures Values(a + b) == Values(a) + Values(b)
  {
    if a == [] {
      assert a + b == b;
    } else {
      assert (a + b)[1..] == a[1..] + b;
      ValuesConcat(a[1..], b);
    }
  }

  lemma ValuesRemove<T>(a: seq<Entry<T>>, i: nat)
    requires i < |a|
    ensures multiset(Values(a)) == multiset{a[i].value} + multiset(Values(a[..i] + a[i + 1..]))
  {
    var before, rest := a[..i], a[i + 1..];
    assert a == before + a[i..] && a[i..][1..] == rest;
    ValuesConcat(before, a[i..]);
    ValuesConcat(before, rest);
    HeadCounts(a[i].value, Values(rest));
  }

  lemma {:induction false} ValuesPermute<T>(a: seq<Entry<T>>, b: seq<Entry<T>>)
    requires multiset(a) == multiset(b)
    ensures multiset(Values(a)) == multiset(Values(b))
  {
    assert |multiset(a)| == |a| && |multiset(b)| == |b|;
    if a != [] {
      assert a[0] in multiset(b);
      var i :| 0 <= i < |b| && b[i] == a[0];
      var rest := b[..i] + b[i + 1..];
      assert b == b[..i] + [b[i]] + b[i + 1..];
      TailCounts(a);
      assert multiset(rest) == multiset(b) - multiset{b[i]};
      ValuesPermute(a[1..], rest);
      ValuesRemove(b, i);
    }
  }

  /** Reordering the objects changes nothing about completeness. */
  lemma CompleteAnyOrder<Gap>(a: seq<ArchivedObject>, b: seq<ArchivedObject>, snapshot: Snapshot<Gap>)
    requires forall o :: o in a <==> o in b
    ensures Complete(a, snapshot) <==> Complete(b, snapshot)
  {
    forall e ensures Fulfilled(a, e) <==> Fulfilled(b, e) { }
    forall x ensures AttemptStored(a, x) <==> AttemptStored(b, x) { }
    forall d ensures OutputStored(a, d) <==> OutputStored(b, d) { }
    forall r ensures EgressObject(a, r) <==> EgressObject(b, r) { }
  }

  lemma EmptyIffComplete<Gap>(
    less: (string, string) -> bool, objects: seq<ArchivedObject>, snapshot: Snapshot<Gap>, invalid: seq<string>)
    ensures MissingByScan(Ordered(less, objects), snapshot, invalid) == [] <==>
      invalid == [] && Complete(objects, snapshot)
  {
    OrderedSame(less, objects);
    NothingMissing(Ordered(less, objects), snapshot, invalid);
    CompleteAnyOrder(Ordered(less, objects), objects, snapshot);
  }

  // ----- the loops, over the index -----

  function Ids(es: seq<Expectation>): seq<string> {
    seq(|es|, i requires 0 <= i < |es| => es[i].id)
  }

  predicate PlainIds<Gap>(snapshot: Snapshot<Gap>) {
    && (forall a | a in snapshot.providerAttempts :: SlashFree(a.attemptId) && SlashFree(a.stage))
    && (forall d | d in snapshot.directions :: SlashFree(d.destination))
  }

  lemma DiscoverableIsPlain(e: Expectation)
    requires Discoverable(e)
    ensures NulFree(e.objectClass)
  {
  }

  method ResolveExpectation(ghost ordered: seq<ArchivedObject>, index: EvidenceIndex, e: Expectation)
    returns (objectId: Option<string>)
    requires index == IndexOf(ordered) && PlainClasses(ordered)
    ensures objectId == Resolve(ordered, e)
  {
    var discovered := None;
    if e.fulfilledObjectId.None? && Discoverable(e) {
      DiscoverableIsPlain(e);
      FirstIdMeans(ordered, e.objectClass, e.causalKey);
      var key := Pair(e.objectClass, e.causalKey);
      if key in index.firstObjectId { discovered := Some(index.firstObjectId[key]); }
    }
    objectId := if e.fulfilledObjectId.Some? then e.fulfilledObjectId else discovered;
  }

  method ResolveExpectations(ghost ordered: seq<ArchivedObject>, index: EvidenceIndex, es: seq<Expectation>)
    returns (resolved: map<string, Option<string>>)
    requires index == IndexOf(ordered) && PlainClasses(ordered) && Distinct(Ids(es))
    ensures forall e | e in es :: e.id in resolved && resolved[e.id] == Resolve(ordered, e)
    ensures forall id | id in resolved :: exists e :: e in es && e.id == id
  {
    resolved := map[];
    var i := 0;
    while i < |es|
      invariant 0 <= i <= |es|
      invariant forall k | 0 <= k < i :: es[k].id in resolved && resolved[es[k].id] == Resolve(ordered, es[k])
      invariant forall id | id in resolved :: exists e :: e in es && e.id == id
    {
      var e := es[i];
      forall k | 0 <= k < i ensures es[k].id != e.id {
        assert Ids(es)[k] != Ids(es)[i];
      }
      var objectId := ResolveExpectation(ordered, index, e);
      resolved := resolved[e.id := objectId];
      i := i + 1;
    }
  }

  lemma ExpectationGapsPush<Gap>(ordered: seq<ArchivedObject>, invalid: seq<string>, es: seq<Expectation>, e: Expectation)
    ensures ExpectationGaps<Gap>(ordered, invalid, es + [e]) ==
      ExpectationGaps(ordered, invalid, es) + ExpectationGap(Resolve(ordered, e), invalid, e)
  {
    assert (es + [e])[..|es|] == es;
  }

  lemma ExpectedPush(ordered: seq<ArchivedObject>, es: seq<Expectation>, e: Expectation, id: string)
    ensures Expected(ordered, es + [e], id) <==> Expected(ordered, es, id) || Resolve(ordered, e) == Some(id)
  {
    if Resolve(ordered, e) == Some(id) { assert e in es + [e]; }
    if Expected(ordered, es, id) {
      var x :| x in es && Resolve(ordered, x) == Some(id);
      assert x in es + [e];
    }
  }

  method ListExpectations<Gap>(
    ghost ordered: seq<ArchivedObject>, resolved: map<string, Option<string>>, invalid: seq<string>, es: seq<Expectation>)
    returns (missing: seq<Missing<Gap>>, expectedIds: set<string>)
    requires forall e | e in es :: e.id in resolved && resolved[e.id] == Resolve(ordered, e)
    ensures missing == ExpectationGaps(ordered, invalid, es)
    ensures forall id :: id in expectedIds <==> Expected(ordered, es, id)
  {
    missing, expectedIds := [], {};
    var i := 0;
    while i < |es|
      invariant 0 <= i <= |es|
      invariant missing == ExpectationGaps(ordered, invalid, es[..i])
      invariant forall id :: id in expectedIds <==> Expected(ordered, es[..i], id)
    {
      var e := es[i];
      assert es[..i + 1] == es[..i] + [e] && resolved[e.id] == Resolve(ordered, e);
      ExpectationGapsPush<Gap>(ordered, invalid, es[..i], e);
      forall id ensures Expected(ordered, es[..i + 1], id) <==> Expected(ordered, es[..i], id) || resolved[e.id] == Some(id) {
        ExpectedPush(ordered, es[..i], e, id);
      }
      missing := missing + ExpectationGap(resolved[e.id], invalid, e);
      if resolved[e.id].Some? { expectedIds := expectedIds + {resolved[e.id].value}; }
      i := i + 1;
    }
    assert es[..i] == es;
  }

  method ListUnexpected<Gap>(
    ghost ordered: seq<ArchivedObject>, es: seq<Expectation>, expectedIds: set<string>, invalid: seq<string>)
    returns (missing: seq<Missing<Gap>>)
    requires forall id :: id in expectedIds <==> Expected(ordered, es, id)
    ensures missing == UnexpectedGaps(ordered, es, invalid)
  {
    missing := [];
    var i := 0;
    while i < |invalid|
      invariant 0 <= i <= |invalid|
      invariant missing == UnexpectedGaps(ordered, es, invalid[..i])
    {
      assert invalid[..i + 1] == invalid[..i] + [invalid[i]];
      if invalid[i] !in expectedIds { missing := missing + [UnexpectedUnverified(invalid[i])]; }
      i := i + 1;
    }
    assert invalid[..i] == invalid;
  }

  method ListStage<Gap>(ghost ordered: seq<ArchivedObject>, index: EvidenceIndex, a: Attempt, stage: string)
    returns (missing: seq<Missing<Gap>>)
    requires index == IndexOf(ordered) && SlashFree(a.attemptId) && SlashFree(stage)
    ensures missing == EvidenceGap(ordered, a, ProviderPath(stage, a.attemptId))
  {
    EvidenceMeans(ordered, stage, a.attemptId);
    var evidence := ProviderPath(stage, a.attemptId);
    missing := if evidence in index.providerEvidence then [] else [ProviderObjectMissing(a, evidence)];
  }

  method ListAttempt<Gap>(ghost ordered: seq<ArchivedObject>, index: EvidenceIndex, a: Attempt)
    returns (missing: seq<Missing<Gap>>)
    requires index == IndexOf(ordered) && SlashFree(a.attemptId) && SlashFree(a.stage)
    ensures missing == AttemptGap(ordered, a)
  {
    missing := ListStage(ordered, index, a, "terminal");
    var ofStage := ListStage(ordered, index, a, a.stage);
    missing := missing + ofStage;
  }

  method ListAttempts<Gap>(ghost ordered: seq<ArchivedObject>, index: EvidenceIndex, attempts: seq<Attempt>)
    returns (missing: seq<Missing<Gap>>)
    requires index == IndexOf(ordered)
    requires forall a | a in attempts :: SlashFree(a.attemptId) && SlashFree(a.stage)
    ensures missing == AttemptGaps(ordered, attempts)
  {
    missing := [];
    var i := 0;
    while i < |attempts|
      invariant 0 <= i <= |attempts|
      invariant missing == AttemptGaps(ordered, attempts[..i])
    {
      var found := ListAttempt<Gap>(ordered, index, attempts[i]);
      assert attempts[..i + 1][..i] == attempts[..i];
      missing := missing + found;
      i := i + 1;
    }
    assert attempts[..i] == attempts;
  }

  method ListOutputs<Gap>(ghost ordered: seq<ArchivedObject>, index: EvidenceIndex, d: Direction)
    returns (missing: seq<Missing<Gap>>)
    requires index == IndexOf(ordered) && PlainClasses(ordered) && SlashFree(d.destination)
    ensures missing == OutputGap(ordered, d, "tts_output_pcm") + OutputGap(ordered, d, "livekit_output_pcm")
  {
    PlaceMeans(ordered, "tts_output_pcm", d.destination);
    PlaceMeans(ordered, "livekit_output_pcm", d.destination);
    missing := [];
    if Pair("tts_output_pcm", d.destination) !in index.classAndDestination {
      missing := missing + [OutputMissing("tts_output_pcm", d)];
    }
    if Pair("livekit_output_pcm", d.destination) !in index.classAndDestination {
      missing := missing + [OutputMissing("livekit_output_pcm", d)];
    }
  }

  method ListDirection<Gap>(ghost ordered: seq<ArchivedObject>, index: EvidenceIndex, d: Direction)
    returns (missing: seq<Missing<Gap>>)
    requires index == IndexOf(ordered) && PlainClasses(ordered) && SlashFree(d.destination)
    ensures missing == DirectionGap(ordered, d)
  {
    if !d.translated || d.emittedOutput == 0 { return []; }
    missing := ListOutputs(ordered, index, d);
  }

  lemma DirectionGapsPush<Gap>(objects: seq<ArchivedObject>, ds: seq<Direction>, d: Direction)
    ensures DirectionGaps<Gap>(objects, ds + [d]) == DirectionGaps(objects, ds) + DirectionGap(objects, d)
  {
    assert (ds + [d])[..|ds|] == ds;
  }

  method ListDirections<Gap>(ghost ordered: seq<ArchivedObject>, index: EvidenceIndex, ds: seq<Direction>)
    returns (missing: seq<Missing<Gap>>)
    requires index == IndexOf(ordered) && PlainClasses(ordered)
    requires forall d | d in ds :: SlashFree(d.destination)
    ensures missing == DirectionGaps(ordered, ds)
  {
    missing := [];
    var i := 0;
    while i < |ds|
      invariant 0 <= i <= |ds|
      invariant missing == DirectionGaps(ordered, ds[..i])
    {
      var d := ds[i];
      assert ds[..i + 1] == ds[..i] + [d];
      DirectionGapsPush<Gap>(ordered, ds[..i], d);
      var found := ListDirection<Gap>(ordered, index, d);
      missing := missing + found;
      i := i + 1;
    }
    assert ds[..i] == ds;
  }

  lemma EgressGapsPush<Gap>(objects: seq<ArchivedObject>, results: seq<Json>, result: Json)
    ensures EgressGaps<Gap>(objects, results + [result]) == EgressGaps(objects, results) +
      if !TerminalMarker(result) then [EgressTerminalMissing(|results|)]
      else if !EgressObject(objects, result) then [EgressObjectMissing(|results|)]
      else []
  {
    assert (results + [result])[..|results|] == results;
  }

  method FindOutput(ghost ordered: seq<ArchivedObject>, index: EvidenceIndex, result: Json) returns (found: bool)
    requires index == IndexOf(ordered)
    ensures found <==> EgressObject(ordered, result)
  {
    var outputPrefix := Field(result, "outputPrefix");
    if outputPrefix.None? || !outputPrefix.value.Str? { return false; }
    PrefixMeans(ordered, outputPrefix.value.s);
    return outputPrefix.value.s in index.prefixes;
  }

  method ListEgress<Gap>(ghost ordered: seq<ArchivedObject>, index: EvidenceIndex, results: seq<Json>)
    returns (missing: seq<Missing<Gap>>)
    requires index == IndexOf(ordered)
    ensures missing == EgressGaps(ordered, results)
  {
    missing := [];
    var i := 0;
    while i < |results|
      invariant 0 <= i <= |results|
      invariant missing == EgressGaps(ordered, results[..i])
    {
      var result := results[i];
      assert results[..i + 1] == results[..i] + [result];
      EgressGapsPush<Gap>(ordered, results[..i], result);
      if !TerminalMarker(result) {
        missing := missing + [EgressTerminalMissing(i)];
      } else {
        var found := FindOutput(ordered, index, result);
        if !found { missing := missing + [EgressObjectMissing(i)]; }
      }
      i := i + 1;
    }
    assert results[..i] == results;
  }

  /** `missingInventoryEntries`: looking up the index finds what a scan of every key finds. */
  method MissingEntries<Gap>(
    less: (string, string) -> bool, snapshot: Snapshot<Gap>, invalid: seq<string>, objects: seq<ArchivedObject>)
    returns (missing: seq<Missing<Gap>>)
    requires PlainClasses(objects) && PlainIds(snapshot) && Distinct(Ids(snapshot.expectations))
    ensures missing == MissingByScan(Ordered(less, objects), snapshot, invalid)
    ensures missing == [] <==> invalid == [] && Complete(objects, snapshot)
  {
    ghost var ordered := Ordered(less, objects);
    OrderedSame(less, objects);
    var index := IndexEvidence(less, objects);
    var resolved := ResolveExpectations(ordered, index, snapshot.expectations);
    var expectationGaps, expectedIds := ListExpectations(ordered, resolved, invalid, snapshot.expectations);
    var unexpected := ListUnexpected(ordered, snapshot.expectations, expectedIds, invalid);
    var attempts := ListAttempts(ordered, index, snapshot.providerAttempts);
    var directions := ListDirections(ordered, index, snapshot.directions);
    var egress := ListEgress(ordered, index, snapshot.egressResults);
    missing := expectationGaps + ProviderGaps(snapshot.providerGaps) + unexpected + TerminalGaps(snapshot)
      + attempts + directions + egress;
    EmptyIffComplete(less, objects, snapshot, invalid);
  }
}
