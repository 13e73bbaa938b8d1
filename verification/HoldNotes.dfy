/**
 What a worker notes of the storage calls it makes to turn a legal hold on or off, version by version, and what those
 notes say.
*/
module HoldNotes {
  import opened Sequences
  import opened Wrappers

  type Version = nat

  datatype Phase = Apply | Retry | Release | Compensate

  datatype Progress = Progress(version: Version, phase: Phase, ok: bool)

  /** `results.findLast` for one version. */
  function Latest(results: seq<Progress>, v: Version): Option<Progress> {
    if results == [] then None
    else if results[|results| - 1].version == v then Some(results[|results| - 1])
    else Latest(results[..|results| - 1], v)
  }

  lemma LatestPush(results: seq<Progress>, p: Progress)
    ensures forall v :: Latest(results + [p], v) == if p.version == v then Some(p) else Latest(results, v)
  {
    assert (results + [p])[..|results|] == results;
  }

  lemma {:induction false} LatestIsThere(results: seq<Progress>, v: Version)
    ensures Latest(results, v).Some? ==> Latest(results, v).value in results && Latest(results, v).value.version == v
  {
    if results != [] && results[|results| - 1].version != v {
      LatestIsThere(results[..|results| - 1], v);
    }
  }

  predicate ReleasedOk(results: seq<Progress>, v: Version) { Latest(results, v) == Some(Progress(v, Phase.Release, true)) }

  /** Progress that says of no version still held that it was turned off. */
  ghost predicate Truthful(results: seq<Progress>, held: set<Version>) { forall v | ReleasedOk(results, v) :: v !in held }

  /** Some entry says that the hold was turned on. */
  predicate Protected(results: seq<Progress>, v: Version) {
    Progress(v, Apply, true) in results || Progress(v, Retry, true) in results
  }

  lemma ProtectedStays(before: seq<Progress>, after: seq<Progress>, v: Version)
    requires before <= after && Protected(before, v)
    ensures Protected(after, v)
  {
    var p :| p in before && p.version == v && p.ok && (p.phase.Apply? || p.phase.Retry?);
    assert p in after;
  }

  // ----- which calls are made, and how storage answers them -----

  /** Whether the `k`-th of the calls to come goes through; `failures` says so of the first ones. */
  predicate Goes(failures: seq<bool>, k: nat) { k >= |failures| || !failures[k] }

  function Rest(failures: seq<bool>, n: nat): seq<bool> { if n <= |failures| then failures[n..] else [] }

  lemma RestNext(failures: seq<bool>, n: nat)
    ensures Rest(Rest(failures, n), 1) == Rest(failures, n + 1)
    ensures Goes(Rest(failures, n), 0) == Goes(failures, n)
  {
  }

  lemma RestRest(failures: seq<bool>, m: nat, n: nat)
    ensures Rest(Rest(failures, m), n) == Rest(failures, m + n)
  {
  }

  /** One call for each version, in order, and what is noted of it. */
  function Tries(phase: Phase, versions: seq<Version>, failures: seq<bool>): seq<Progress> {
    if versions == [] then []
    else
      var n := |versions| - 1;
      Tries(phase, versions[..n], failures) + [Progress(versions[n], phase, Goes(failures, n))]
  }

  lemma {:induction false} TriesAt(phase: Phase, versions: seq<Version>, failures: seq<bool>)
    ensures |Tries(phase, versions, failures)| == |versions|
    ensures forall k | 0 <= k < |versions| ::
      Tries(phase, versions, failures)[k] == Progress(versions[k], phase, Goes(failures, k))
  {
    if versions != [] {
      TriesAt(phase, versions[..|versions| - 1], failures);
    }
  }

  lemma TriesPush(phase: Phase, versions: seq<Version>, v: Version, failures: seq<bool>)
    ensures Tries(phase, versions + [v], failures)
      == Tries(phase, versions, failures) + [Progress(v, phase, Goes(failures, |versions|))]
  {
    assert (versions + [v])[..|versions|] == versions;
  }

  /** The first `i` of `versions` have been tried, one call each. */
  ghost predicate TriedTo(before: seq<Progress>, answers: seq<bool>, phase: Phase, versions: seq<Version>, i: nat,
                          results: seq<Progress>, failures: seq<bool>)
    requires i <= |versions|
  {
    results == before + Tries(phase, versions[..i], answers) && failures == Rest(answers, i)
  }

  lemma TriedNone(before: seq<Progress>, answers: seq<bool>, phase: Phase, versions: seq<Version>)
    ensures TriedTo(before, answers, phase, versions, 0, before, answers)
  {
    assert before + [] == before;
  }

  lemma TriedNext(before: seq<Progress>, answers: seq<bool>, phase: Phase, versions: seq<Version>, i: nat,
                  results: seq<Progress>, failures: seq<bool>)
    requires i < |versions| && TriedTo(before, answers, phase, versions, i, results, failures)
    ensures var entries := Tries(phase, [versions[i]], failures);
      |entries| == 1 && TriedTo(before, answers, phase, versions, i + 1, results + entries, Rest(failures, 1))
  {
    RestNext(answers, i);
    assert versions[..i + 1] == versions[..i] + [versions[i]] && [] + [versions[i]] == [versions[i]];
    TriesPush(phase, versions[..i], versions[i], answers);
    TriesPush(phase, [], versions[i], failures);
  }

  lemma TriedAll(before: seq<Progress>, answers: seq<bool>, phase: Phase, versions: seq<Version>, results: seq<Progress>, failures: seq<bool>)
    requires TriedTo(before, answers, phase, versions, |versions|, results, failures)
    ensures var entries := Tries(phase, versions, answers);
      results == before + entries && |entries| == |versions| && failures == Rest(answers, |entries|)
  {
    assert versions[..|versions|] == versions;
    TriesAt(phase, versions, answers);
  }

  /** The versions of a listing that are to be protected, given what is noted already and how the calls go. */
  function ToApply(results: seq<Progress>, versions: seq<Version>, failures: seq<bool>): seq<Version> {
    if versions == [] then []
    else
      var tried := ToApply(results, versions[..|versions| - 1], failures);
      var v := versions[|versions| - 1];
      if Protected(results + Tries(Apply, tried, failures), v) then tried else tried + [v]
  }

  /** The versions of those calls that failed. */
  function Refused(versions: seq<Version>, failures: seq<bool>): seq<Version> {
    if versions == [] then []
    else
      var n := |versions| - 1;
      Refused(versions[..n], failures) + if Goes(failures, n) then [] else [versions[n]]
  }

  /** Everything that is noted while a hold is applied to one listing. */
  function ApplyNotes(results: seq<Progress>, versions: seq<Version>, failures: seq<bool>): seq<Progress> {
    var first := ToApply(results, versions, failures);
    Tries(Apply, first, failures) + Tries(Retry, Refused(first, failures), Rest(failures, |first|))
  }

  lemma RefusedPush(versions: seq<Version>, v: Version, failures: seq<bool>)
    ensures Refused(versions + [v], failures) == Refused(versions, failures) + if Goes(failures, |versions|) then [] else [v]
  {
    assert (versions + [v])[..|versions|] == versions;
  }

  lemma {:induction false} RefusedWereTried(versions: seq<Version>, failures: seq<bool>)
    ensures |Refused(versions, failures)| <= |versions|
    ensures forall v | v in Refused(versions, failures) :: v in versions
    ensures Distinct(versions) ==> Distinct(Refused(versions, failures))
  {
    if versions != [] {
      var init, last := versions[..|versions| - 1], versions[|versions| - 1];
      assert versions == init + [last];
      RefusedWereTried(init, failures);
      RefusedPush(init, last, failures);
      if Distinct(versions) {
        assert Distinct(init) && last !in init;
      }
    }
  }

  lemma {:induction false} RefusedIffFailed(versions: seq<Version>, failures: seq<bool>, v: Version)
    ensures v in Refused(versions, failures) <==> Progress(v, Apply, false) in Tries(Apply, versions, failures)
  {
    if versions != [] {
      var init, last := versions[..|versions| - 1], versions[|versions| - 1];
      assert versions == init + [last];
      RefusedIffFailed(init, failures, v);
      RefusedPush(init, last, failures);
      TriesPush(Apply, init, last, failures);
    }
  }

  lemma TriesHave(phase: Phase, versions: seq<Version>, failures: seq<bool>, v: Version)
    ensures Progress(v, phase, true) in Tries(phase, versions, failures) || Progress(v, phase, false) in Tries(phase, versions, failures)
      <==> v in versions
    ensures forall p | p in Tries(phase, versions, failures) :: p.phase == phase && p.version in versions
  {
    var tries := Tries(phase, versions, failures);
    TriesAt(phase, versions, failures);
    if v in versions {
      var k :| 0 <= k < |versions| && versions[k] == v;
      assert tries[k] in tries;
    }
  }

  /** Of a listing without repetition, the versions that are not protected already are tried, each once. */
  lemma {:induction false} AppliedOnce(results: seq<Progress>, versions: seq<Version>, failures: seq<bool>)
    requires Distinct(versions)
    ensures Distinct(ToApply(results, versions, failures))
    ensures forall v :: v in ToApply(results, versions, failures) <==> v in versions && !Protected(results, v)
  {
    if versions != [] {
      var n := |versions| - 1;
      var init, v := versions[..n], versions[n];
      var tried := ToApply(results, init, failures);
      AppliedOnce(results, init, failures);
      assert versions == init + [v] && v !in init;
      TriesHave(Apply, tried, failures, v);
      var notes := Tries(Apply, tried, failures);
      assert Progress(v, Apply, true) in results + notes <==> Progress(v, Apply, true) in results;
      assert Progress(v, Retry, true) in results + notes <==> Progress(v, Retry, true) in results;
      assert Protected(results + notes, v) <==> Protected(results, v);
    }
  }

  /** Two calls at most for a version, the second if and only if the first failed. */
  lemma SecondIffFirstFailed(results: seq<Progress>, versions: seq<Version>, failures: seq<bool>, v: Version)
    requires Distinct(versions)
    ensures var first := ToApply(results, versions, failures);
      var notes, again := Tries(Apply, first, failures), Tries(Retry, Refused(first, failures), Rest(failures, |first|));
      && ApplyNotes(results, versions, failures) == notes + again
      && (v in versions && !Protected(results, v) <==> exists ok :: Progress(v, Apply, ok) in notes)
      && (Progress(v, Apply, false) in notes <==> exists ok :: Progress(v, Retry, ok) in again)
      && Distinct(first) && Distinct(Refused(first, failures))
  {
    var first := ToApply(results, versions, failures);
    AppliedOnce(results, versions, failures);
    RefusedWereTried(first, failures);
    RefusedIffFailed(first, failures, v);
    TriesHave(Apply, first, failures, v);
    TriesHave(Retry, Refused(first, failures), Rest(failures, |first|), v);
    var notes, again := Tries(Apply, first, failures), Tries(Retry, Refused(first, failures), Rest(failures, |first|));
    assert forall ok: bool :: Progress(v, Apply, ok) in notes ==> Progress(v, Apply, true) in notes || Progress(v, Apply, false) in notes;
    assert forall ok: bool :: Progress(v, Retry, ok) in again ==> Progress(v, Retry, true) in again || Progress(v, Retry, false) in again;
  }

  /** A first round over the versions `done` has tried `tried`, of which `failed` were refused. */
  ghost predicate Applied(before: seq<Progress>, answers: seq<bool>, done: seq<Version>, tried: seq<Version>,
                          failed: seq<Version>, results: seq<Progress>, failures: seq<bool>)
  {
    && tried == ToApply(before, done, answers) && failed == Refused(tried, answers)
    && results == before + Tries(Apply, tried, answers) && failures == Rest(answers, |tried|)
  }

  lemma AppliedSkips(before: seq<Progress>, answers: seq<bool>, done: seq<Version>, tried: seq<Version>,
                     failed: seq<Version>, results: seq<Progress>, failures: seq<bool>, v: Version)
    requires Applied(before, answers, done, tried, failed, results, failures) && Protected(results, v)
    ensures Applied(before, answers, done + [v], tried, failed, results, failures)
  {
    assert (done + [v])[..|done|] == done;
  }

  lemma AppliedTries(before: seq<Progress>, answers: seq<bool>, done: seq<Version>, tried: seq<Version>,
                     failed: seq<Version>, results: seq<Progress>, failures: seq<bool>, v: Version)
    requires Applied(before, answers, done, tried, failed, results, failures) && !Protected(results, v)
    ensures Applied(before, answers, done + [v], tried + [v], if Goes(failures, 0) then failed else failed + [v],
                    results + Tries(Apply, [v], failures), Rest(failures, 1))
  {
    assert (done + [v])[..|done|] == done && (tried + [v])[..|tried|] == tried && [] + [v] == [v];
    RestNext(answers, |tried|);
    TriesPush(Apply, tried, v, answers);
    TriesPush(Apply, [], v, failures);
  }

  /** Some version that was refused has no second call that went through. */
  ghost predicate HoldFails(results: seq<Progress>, versions: seq<Version>, failures: seq<bool>) {
    exists v :: v in Refused(ToApply(results, versions, failures), failures)
      && Progress(v, Retry, true) !in results + ApplyNotes(results, versions, failures)
  }

  lemma TryProtects(results: seq<Progress>, tried: seq<Version>, v: Version, failures: seq<bool>)
    ensures results + Tries(Apply, tried, failures) <= results + Tries(Apply, tried + [v], failures)
    ensures Protected(results + Tries(Apply, tried + [v], failures), v) || v in Refused(tried + [v], failures)
    ensures forall u | u in Refused(tried, failures) :: u in Refused(tried + [v], failures)
  {
    var p := Progress(v, Apply, Goes(failures, |tried|));
    TriesPush(Apply, tried, v, failures);
    assert (tried + [v])[..|tried|] == tried;
    assert p in results + Tries(Apply, tried + [v], failures);
  }

  lemma {:induction false} ProtectedOrRefused(results: seq<Progress>, versions: seq<Version>, failures: seq<bool>, v: Version)
    requires v in versions
    ensures var first := ToApply(results, versions, failures);
      Protected(results + Tries(Apply, first, failures), v) || v in Refused(first, failures)
  {
    var init, last := versions[..|versions| - 1], versions[|versions| - 1];
    var tried, first := ToApply(results, init, failures), ToApply(results, versions, failures);
    if v in init {
      ProtectedOrRefused(results, init, failures, v);
      if first != tried {
        TryProtects(results, tried, last, failures);
        if v !in Refused(tried, failures) {
          ProtectedStays(results + Tries(Apply, tried, failures), results + Tries(Apply, first, failures), v);
        }
      }
    } else {
      assert versions == init + [last] && v == last;
      if first != tried { TryProtects(results, tried, last, failures); }
    }
  }

  lemma OneTryEach(phase: Phase, versions: seq<Version>, failures: seq<bool>, v: Version)
    requires Distinct(versions)
    ensures !(Progress(v, phase, true) in Tries(phase, versions, failures) && Progress(v, phase, false) in Tries(phase, versions, failures))
  {
    var tries := Tries(phase, versions, failures);
    TriesAt(phase, versions, failures);
    forall i, j | 0 <= i < |tries| && 0 <= j < |tries| && tries[i].version == v && tries[j].version == v ensures i == j {
      DistinctAt(versions, i, j);
    }
  }

  /** A hold that does not fail protects every listed version; without a failing call it does not fail. */
  lemma HoldThatHolds(results: seq<Progress>, versions: seq<Version>, failures: seq<bool>, v: Version)
    requires !HoldFails(results, versions, failures) && v in versions
    ensures Protected(results + ApplyNotes(results, versions, failures), v)
  {
    var first := ToApply(results, versions, failures);
    var all := results + ApplyNotes(results, versions, failures);
    ProtectedOrRefused(results, versions, failures, v);
    if v !in Refused(first, failures) {
      assert results + Tries(Apply, first, failures) <= all;
      ProtectedStays(results + Tries(Apply, first, failures), all, v);
    }
  }

  lemma {:induction false} NoneRefused(versions: seq<Version>)
    ensures Refused(versions, []) == []
  {
    if versions != [] { NoneRefused(versions[..|versions| - 1]); }
  }

  /**
   Over a listing without repetition, a hold fails if and only if both calls for one version fail: one failed call
   for each version never fails it.
  */
  lemma HoldFailsIffBothFail(results: seq<Progress>, versions: seq<Version>, failures: seq<bool>)
    requires Distinct(versions)
    ensures var notes := ApplyNotes(results, versions, failures);
      HoldFails(results, versions, failures) <==>
        exists v :: Progress(v, Apply, false) in notes && Progress(v, Retry, false) in notes
  {
    var notes := ApplyNotes(results, versions, failures);
    forall v ensures v in Refused(ToApply(results, versions, failures), failures) && Progress(v, Retry, true) !in results + notes
      <==> Progress(v, Apply, false) in notes && Progress(v, Retry, false) in notes
    {
      BothFail(results, versions, failures, v);
    }
  }

  lemma BothFail(results: seq<Progress>, versions: seq<Version>, failures: seq<bool>, v: Version)
    requires Distinct(versions)
    ensures var notes := ApplyNotes(results, versions, failures);
      v in Refused(ToApply(results, versions, failures), failures) && Progress(v, Retry, true) !in results + notes
      <==> Progress(v, Apply, false) in notes && Progress(v, Retry, false) in notes
  {
    var first := ToApply(results, versions, failures);
    var refused, later := Refused(first, failures), Rest(failures, |first|);
    AppliedOnce(results, versions, failures);
    RefusedWereTried(first, failures);
    RefusedIffFailed(first, failures, v);
    TriesHave(Apply, first, failures, v);
    TriesHave(Retry, refused, later, v);
    OneTryEach(Retry, refused, later, v);
    assert v in refused ==> !Protected(results, v);
    assert !Protected(results, v) ==> Progress(v, Retry, true) !in results;
  }

  /** Add at the end, as a `Map` keeps its keys. */
  function AddTo(s: seq<Version>, v: Version): seq<Version> { if v in s then s else s + [v] }

  /** The first two answers hold the same versions. */
  predicate Repeats(answers: seq<seq<Version>>) {
    |answers| >= 2 && multiset(answers[0]) == multiset(answers[1])
  }

  lemma SameMembers(answers: seq<seq<Version>>, n: nat)
    ensures Repeats(answers) && n == 1 ==> forall v :: v in answers[1] <==> v in answers[0]
  {
    if Repeats(answers) {
      forall v ensures v in answers[1] <==> v in answers[0] {
        assert v in multiset(answers[1]) <==> v in multiset(answers[0]);
      }
    }
  }

  /** After `n` listings of `all`: the last one, and how many in a row held the same versions, up to two. */
  ghost predicate Scanned(all: seq<seq<Version>>, n: nat, previous: Option<multiset<Version>>, stableScans: nat) {
    && n <= |all| && stableScans <= 2
    && (n == 0 ==> previous == None && stableScans == 0)
    && (n > 0 ==> previous == Some(multiset(all[n - 1])))
    && (stableScans == 2 ==> n >= 2 && multiset(all[n - 2]) == multiset(all[n - 1]))
    && (Repeats(all) ==> n == stableScans)
  }

  predicate SomeReleaseFailed(results: seq<Progress>) { exists p :: p in results && p.phase.Release? && !p.ok }

  lemma FailureStays(before: seq<Progress>, after: seq<Progress>)
    requires before <= after && SomeReleaseFailed(before)
    ensures SomeReleaseFailed(after)
  {
    var p :| p in before && p.phase.Release? && !p.ok;
    assert p in after;
  }

  lemma ScannedOne(all: seq<seq<Version>>, n: nat, previous: Option<multiset<Version>>, stableScans: nat)
    requires Scanned(all, n, previous, stableScans) && n < |all| && stableScans < 2
    ensures var signature := multiset(all[n]);
      Scanned(all, n + 1, Some(signature), if previous == Some(signature) then stableScans + 1 else 1)
    ensures Union(all[..n + 1]) == Union(all[..n]) + Elements(all[n])
  {
    assert all[..n + 1][..n] == all[..n];
  }

  function Union(listings: seq<seq<Version>>): set<Version> {
    if listings == [] then {} else Union(listings[..|listings| - 1]) + Elements(listings[|listings| - 1])
  }

  /**
   What a run knows that started with the progress `earlier` of a former owner, over the versions `heldThen`: it has
   turned off `off`, and what it would put back, `released`, is that and listed versions of the earlier progress.
  */
  ghost predicate Tracks(earlier: seq<Progress>, heldThen: set<Version>, results: seq<Progress>, held: set<Version>,
                         released: seq<Version>, off: set<Version>, discovered: set<Version>)
  {
    && Distinct(released)
    && (forall v | v in released :: ReleasedOk(results, v))
    && (forall v | v in off :: v in released && v !in held)
    && (forall v | ReleasedOk(results, v) && v !in off :: ReleasedOk(earlier, v))
    && (Truthful(earlier, heldThen) ==> Truthful(results, held))
    && (forall v | ReleasedOk(earlier, v) :: ReleasedOk(results, v) && (v in released <==> v in discovered))
  }

  lemma TryKeepsTracks(earlier: seq<Progress>, heldThen: set<Version>, results: seq<Progress>, held: set<Version>,
                       released: seq<Version>, off: set<Version>, discovered: set<Version>, v: Version, ok: bool)
    requires Tracks(earlier, heldThen, results, held, released, off, discovered) && !ReleasedOk(results, v)
    ensures var noted := results + [Progress(v, Phase.Release, ok)];
      if ok then Tracks(earlier, heldThen, noted, held - {v}, AddTo(released, v), off + {v}, discovered)
      else Tracks(earlier, heldThen, noted, held, released, off, discovered)
  {
    LatestPush(results, Progress(v, Phase.Release, ok));
  }

  /** The notes of both rounds, and the calls they took. */
  lemma AllNoted(results: seq<Progress>, versions: seq<Version>, failures: seq<bool>)
    ensures var first := ToApply(results, versions, failures);
      var again := Refused(first, failures);
      && results + ApplyNotes(results, versions, failures)
         == results + Tries(Apply, first, failures) + Tries(Retry, again, Rest(failures, |first|))
      && |ApplyNotes(results, versions, failures)| == |first| + |again|
      && Rest(Rest(failures, |first|), |again|) == Rest(failures, |first| + |again|)
      && |Tries(Apply, first, failures)| == |first|
  {
    var first := ToApply(results, versions, failures);
    var again := Refused(first, failures);
    TriesAt(Apply, first, failures);
    TriesAt(Retry, again, Rest(failures, |first|));
    RestRest(failures, |first|, |again|);
    Assoc(results, Tries(Apply, first, failures), Tries(Retry, again, Rest(failures, |first|)));
  }

  ghost predicate StableBy(all: seq<seq<Version>>, n: nat, rest: seq<seq<Version>>, listed: set<Version>) {
    && 2 <= n <= |all| && rest == all[n..] && listed == Union(all[..n])
    && multiset(all[n - 2]) == multiset(all[n - 1])
  }

  /** Some number of listings were read, the last two the same, and `listed` is everything in them. */
  ghost predicate StableAfter(all: seq<seq<Version>>, rest: seq<seq<Version>>, listed: set<Version>) {
    exists n: nat :: StableBy(all, n, rest, listed)
  }
}
