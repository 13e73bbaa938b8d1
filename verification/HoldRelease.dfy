/**
 Turning a legal hold off on every stored version of an archive, and on again when that fails.
 The listings, the recorded versions, which storage calls fail, and what other transactions do
 between calls are scripts; a listing or a read of recorded versions beyond its script throws.
*/
module HoldRelease {
  import opened HoldNotes
  import opened HoldOperations
  import opened Lifecycle
  import opened Sequences
  import opened Wrappers

  datatype Disturbance = Disturbance(actions: seq<Action>, now: Time)

  /** How a release ends: put back, with some version lost or not; done; or thrown out of. */
  datatype Outcome = Reverted(lost: bool) | ReleasedAll | Aborted

  class HoldWorker {
    const rows: ArchiveRows
    const id: Id
    const owner: Id
    var held: set<Version>
    var results: seq<Progress>
    var released: seq<Version>
    var discovered: set<Version>
    var clock: Time
    var listings: seq<seq<Version>>
    var recordings: seq<seq<Version>>
    var failures: seq<bool>
    var script: seq<Disturbance>
    ghost var turnedOff: set<Version>
    ghost var earlier: seq<Progress>
    ghost var heldThen: set<Version>
    /** The last renewal was refused. */
    ghost var fenced: bool

    constructor (rows: ArchiveRows, id: Id, owner: Id, previous: seq<Progress>, held: set<Version>, listings: seq<seq<Version>>,
                 recordings: seq<seq<Version>>, failures: seq<bool>, script: seq<Disturbance>, now: Time)
      ensures this.rows == rows && this.id == id && this.owner == owner && this.held == held
      ensures this.listings == listings && this.recordings == recordings
      ensures this.failures == failures && this.script == script && clock == now
      ensures results == previous
    {
      this.rows, this.id, this.owner, this.held := rows, id, owner, held;
      this.listings, this.recordings, this.failures, this.script := listings, recordings, failures, script;
      results, released, discovered, clock, turnedOff, earlier, heldThen := previous, [], {}, now, {}, previous, held;
      fenced := false;
    }

    ghost predicate Releasing()
      reads this`results, this`released, this`held, this`turnedOff, this`earlier, this`heldThen, this`discovered
    {
      Tracks(earlier, heldThen, results, held, released, turnedOff, discovered) && LeavesUnlisted()
    }

    /** A version that only the earlier progress turned off is left as it was. */
    ghost predicate LeavesUnlisted()
      reads this`earlier, this`heldThen, this`held, this`discovered
    {
      forall v | ReleasedOk(earlier, v) && v !in discovered :: v in held <==> v in heldThen
    }

    /** Nobody else acts, and we own the operation. */
    ghost predicate Alone()
      reads this`script, rows
    {
      script == [] && rows.Contents().Owns(id, owner)
    }

    /** The hold is in the state our operation put it in. */
    ghost predicate In(state: HoldState)
      reads rows
    {
      id in rows.holds && rows.holds[id] == state
    }

    /** No call fails, and no release has failed. */
    ghost predicate Calm()
      reads this`failures, this`results
    {
      failures == [] && forall p | p in results && p.phase.Release? :: p.ok
    }

    lemma CalmReleases(v: Version)
      requires Calm() && Releasing() && Attempted(v)
      ensures ReleasedOk(results, v)
    {
      LatestIsThere(results, v);
    }

    predicate Attempted(v: Version)
      reads this`results
    {
      Latest(results, v).Some? && Latest(results, v).value.phase.Release?
    }

    /** The last that was done with a version was to turn its hold on again. */
    predicate PutOn(v: Version)
      reads this`results
    {
      Latest(results, v) == Some(Progress(v, Phase.Compensate, true))
    }

    /** The last entry is a release that succeeded; if the earlier progress was true, the hold is off. */
    ghost predicate Off(v: Version)
      reads this`results, this`held, this`earlier, this`heldThen
    {
      ReleasedOk(results, v) && (Truthful(earlier, heldThen) ==> v !in held)
    }

    /** A released version is on again if its last entry says so and, when the earlier progress was true, only then. */
    ghost predicate Compensated(v: Version)
      reads this`results, this`held, this`earlier, this`heldThen
    {
      && Latest(results, v).Some? && Latest(results, v).value.phase.Compensate?
      && (PutOn(v) ==> v in held)
      && (Truthful(earlier, heldThen) && !PutOn(v) ==> v !in held)
    }

    /** What is to be put back: what this run turned off, and listed versions that the earlier progress had. */
    ghost predicate OursOrEarlier()
      reads this`turnedOff, this`released, this`earlier, this`discovered
    {
      forall v :: v in released <==> v in turnedOff || (ReleasedOk(earlier, v) && v in discovered)
    }

    /** Every released version was tried, and `lost` says whether some could not be put back. */
    ghost predicate Restored(lost: bool)
      reads this`results, this`held, this`released, this`turnedOff, this`earlier, this`heldThen, this`discovered
    {
      && (forall v | v in released :: Compensated(v)) && (lost <==> exists v :: v in released && !PutOn(v))
      && OursOrEarlier() && LeavesUnlisted()
    }

    /** The hold is active again, or failed if a released version could not be put back; a release had failed. */
    ghost predicate PutBack(outcome: Outcome)
      reads this, rows
    {
      && outcome.Reverted? && rows.operation.None?
      && id in rows.holds && rows.holds[id] == (if outcome.lost then Failed else Active)
      && Restored(outcome.lost) && SomeReleaseFailed(results)
    }

    /** A storage call, which is never made after a renewal that was refused. */
    method SetHold(v: Version, on: bool) returns (ok: bool)
      requires !fenced
      modifies this`held, this`failures, this`turnedOff
      ensures held == if !ok then old(held) else if on then old(held) + {v} else old(held) - {v}
      ensures turnedOff == if ok && !on then old(turnedOff) + {v} else old(turnedOff)
      ensures ok == Goes(old(failures), 0) && failures == Rest(old(failures), 1)
    {
      ok := true;
      if failures != [] { ok, failures := !failures[0], failures[1..]; }
      if ok {
        held := if on then held + {v} else held - {v};
        if !on { turnedOff := turnedOff + {v}; }
      }
    }

    /** Others act before a transaction. */
    method Tick()
      modifies this`script, this`clock, rows
      ensures old(script) == [] ==> script == [] && rows.Contents() == old(rows.Contents())
    {
      if script != [] {
        rows.Restore(After(rows.Contents(), script[0].actions));
        clock, script := script[0].now, script[1..];
      }
    }

    method RenewLease() returns (renewed: bool)
      modifies this`fenced, this`script, this`clock, rows
      ensures renewed == rows.Contents().Owns(id, owner) && fenced == !renewed
      ensures renewed ==> rows.operation.value.leaseExpiresAt == clock + LEASE_MS
      ensures old(Alone()) ==> renewed && Alone() && rows.holds == old(rows.holds)
    {
      Tick();
      var result := rows.Renew(id, owner, clock);
      renewed := result.Success?;
      fenced := !renewed;
    }

    method Push(p: Progress)
      modifies this`results
      ensures results == old(results) + [p]
      ensures forall v :: Latest(results, v) == if p.version == v then Some(p) else Latest(old(results), v)
    {
      LatestPush(results, p);
      results := results + [p];
    }

    /** Nothing is listed or released by this run yet. */
    method Begin()
      modifies this`released, this`discovered, this`turnedOff, this`earlier, this`heldThen, this`fenced
      ensures !fenced && Releasing() && AllTried() && discovered == {} && earlier == results && heldThen == held
    {
      released, discovered, turnedOff, earlier, heldThen, fenced := [], {}, {}, results, held, false;
    }

    /** So many calls were made, answered in this way and noted in this order. */
    twostate predicate Noted(entries: seq<Progress>)
      reads this`results, this`failures
    {
      results == old(results) + entries && failures == Rest(old(failures), |entries|)
    }

    /** Turn one version off and note it. */
    method TryRelease(v: Version)
      requires Releasing() && !ReleasedOk(results, v)
      requires !fenced
      modifies this`held, this`failures, this`turnedOff, this`results, this`released
      ensures Noted(Tries(Phase.Release, [v], old(failures)))
      ensures Releasing() && Attempted(v)
      ensures forall w :: w != v ==> Latest(results, w) == Latest(old(results), w)
      ensures old(Calm()) ==> Calm()
    {
      var ok := SetHold(v, false);
      TryKeepsTracks(earlier, heldThen, results, old(held), released, old(turnedOff), discovered, v, ok);
      Push(Progress(v, Phase.Release, ok));
      if ok { released := AddTo(released, v); }
    }

    /** Turn one version off, note it, and renew the lease. */
    method ReleaseOne(v: Version) returns (renewed: bool)
      requires Releasing() && !ReleasedOk(results, v)
      requires !fenced
      modifies this`held, this`failures, this`turnedOff, this`results, this`released, this`fenced, this`script, this`clock, rows
      ensures renewed == !fenced
      ensures Noted(Tries(Phase.Release, [v], old(failures)))
      ensures Releasing() && Attempted(v)
      ensures forall w :: w != v ==> Latest(results, w) == Latest(old(results), w)
      ensures old(Alone()) ==> renewed && Alone() && rows.holds == old(rows.holds)
      ensures old(Calm()) ==> Calm()
    {
      TryRelease(v);
      renewed := RenewLease();
    }

    /** Every listed version has been tried, by this run or the one before. */
    predicate AllTried()
      reads this`discovered, this`results
    {
      forall v | v in discovered :: Attempted(v)
    }

    /** Release a listed version unless its last entry is a release already. */
    method ReleaseVersion(v: Version) returns (ok: bool)
      requires Releasing() && AllTried()
      requires !fenced
      modifies this`held, this`failures, this`turnedOff, this`results, this`released, this`fenced, this`script, this`clock,
        this`discovered, rows
      ensures ok == !fenced
      ensures Noted(if old(Attempted(v)) then [] else Tries(Phase.Release, [v], old(failures)))
      ensures Releasing() && AllTried() && discovered == old(discovered) + {v}
      ensures old(Alone()) ==> ok && Alone() && rows.holds == old(rows.holds)
      ensures old(Calm()) ==> Calm()
    {
      var latest := Latest(results, v);
      LatestIsThere(results, v);
      discovered := discovered + {v};
      ok := true;
      if latest.Some? && latest.value.phase.Release? {
        if latest.value.ok { released := AddTo(released, v); }
      } else {
        ok := ReleaseOne(v);
      }
    }

    /** Release each version of one listing that has not been tried. */
    method ReleaseListed(versions: seq<Version>) returns (ok: bool)
      requires Releasing() && AllTried()
      requires !fenced
      modifies this`held, this`failures, this`turnedOff, this`results, this`released, this`fenced, this`script, this`clock,
        this`discovered, rows
      ensures ok == !fenced
      ensures Releasing() && AllTried()
      ensures ok ==> discovered == old(discovered) + Elements(versions)
      ensures old(Alone()) ==> ok && Alone() && rows.holds == old(rows.holds)
      ensures old(Calm()) ==> Calm()
    {
      var i := 0;
      while i < |versions|
        invariant 0 <= i <= |versions|
        invariant !fenced && Releasing() && AllTried()
        invariant discovered == old(discovered) + Elements(versions[..i])
        invariant old(Alone()) ==> Alone() && rows.holds == old(rows.holds)
        invariant old(Calm()) ==> Calm()
      {
        assert Elements(versions[..i + 1]) == Elements(versions[..i]) + {versions[i]};
        ok := ReleaseVersion(versions[i]);
        if !ok { return; }
        i := i + 1;
      }
      assert versions[..i] == versions;
      return true;
    }

    /** Read one listing and release it; `scans` is how many in a row held the same versions. */
    method ScanOnce(previous: Option<multiset<Version>>, stableScans: nat, ghost all: seq<seq<Version>>, ghost n: nat)
      returns (signature: multiset<Version>, scans: nat, ok: bool)
      requires Scanned(all, n, previous, stableScans) && stableScans < 2 && n < |all| && listings == all[n..]
      requires Releasing() && AllTried() && discovered == Union(all[..n])
      requires !fenced
      modifies this`held, this`failures, this`turnedOff, this`results, this`released, this`fenced, this`script, this`clock,
        this`discovered, this`listings, rows
      ensures ok == !fenced
      ensures Scanned(all, n + 1, Some(signature), scans) && listings == all[n + 1..]
      ensures Releasing() && AllTried() && (ok ==> discovered == Union(all[..n + 1]))
      ensures old(Alone()) ==> ok && Alone() && rows.holds == old(rows.holds)
      ensures old(Calm()) ==> Calm()
    {
      ScannedOne(all, n, previous, stableScans);
      var versions := listings[0];
      listings := listings[1..];
      signature := multiset(versions);
      scans := if previous == Some(signature) then stableScans + 1 else 1;
      ok := ReleaseListed(versions);
    }

    /** List and release until two listings in a row hold the same versions. */
    method ReleaseUntilStable() returns (ok: bool)
      requires Releasing() && discovered == {}
      requires !fenced
      modifies this`held, this`failures, this`turnedOff, this`results, this`released, this`fenced, this`script, this`clock,
        this`discovered, this`listings, rows
      ensures ok ==> !fenced
      ensures Releasing()
      ensures ok ==> StableAfter(old(listings), listings, discovered) && AllTried()
      ensures old(Alone()) && Repeats(old(listings)) ==> ok && Alone() && rows.holds == old(rows.holds)
      ensures old(Calm()) ==> Calm()
    {
      ghost var all := listings;
      ghost var n := 0;
      var previous: Option<multiset<Version>> := None;
      var stableScans := 0;
      while stableScans < 2
        invariant Scanned(all, n, previous, stableScans) && listings == all[n..]
        invariant !fenced && Releasing() && AllTried() && discovered == Union(all[..n])
        invariant old(Alone()) ==> Alone() && rows.holds == old(rows.holds)
        invariant old(Calm()) ==> Calm()
        decreases |listings|
      {
        if listings == [] { return false; }
        var signature;
        signature, stableScans, ok := ScanOnce(previous, stableScans, all, n);
        if !ok { return false; }
        previous := Some(signature);
        n := n + 1;
      }
      assert StableBy(all, n, listings, discovered);
      return true;
    }

    /** Turn one released version on again, note it, and renew the lease. */
    method Compensate(v: Version) returns (renewed: bool)
      requires Truthful(earlier, heldThen) ==> v !in held
      requires !fenced
      modifies this`held, this`failures, this`turnedOff, this`results, this`fenced, this`script, this`clock, rows
      ensures renewed == !fenced
      ensures Noted(Tries(Phase.Compensate, [v], old(failures)))
      ensures Compensated(v) && turnedOff == old(turnedOff)
      ensures old(results) <= results && forall w | w != v :: Latest(results, w) == Latest(old(results), w)
      ensures forall w | w != v :: w in held <==> w in old(held)
      ensures old(Alone()) ==> renewed && Alone() && rows.holds == old(rows.holds)
    {
      var ok := SetHold(v, true);
      Push(Progress(v, Phase.Compensate, ok));
      renewed := RenewLease();
    }

    /** Turn every released version on again, one try each. */
    method CompensateEach() returns (renewed: bool)
      requires Distinct(released)
      requires Truthful(earlier, heldThen) ==> forall v | v in released :: v !in held
      requires !fenced
      modifies this`held, this`failures, this`turnedOff, this`results, this`fenced, this`script, this`clock, rows
      ensures renewed == !fenced
      ensures turnedOff == old(turnedOff) && old(results) <= results
      ensures forall v | v !in released :: v in held <==> v in old(held)
      ensures renewed ==> Noted(Tries(Phase.Compensate, released, old(failures)))
      ensures renewed ==> forall v | v in released :: Compensated(v)
      ensures old(Alone()) ==> renewed && Alone() && rows.holds == old(rows.holds)
    {
      TriedNone(results, failures, Phase.Compensate, released);
      var i := 0;
      while i < |released|
        invariant 0 <= i <= |released| && !fenced
        invariant turnedOff == old(turnedOff)
        invariant TriedTo(old(results), old(failures), Phase.Compensate, released, i, results, failures)
        invariant forall k | 0 <= k < i :: Compensated(released[k])
        invariant Truthful(earlier, heldThen) ==> forall k | i <= k < |released| :: released[k] !in held
        invariant forall v | v !in released :: v in held <==> v in old(held)
        invariant old(Alone()) ==> Alone() && rows.holds == old(rows.holds)
      {
        TriedNext(old(results), old(failures), Phase.Compensate, released, i, results, failures);
        renewed := Compensate(released[i]);
        if !renewed { return false; }
        i := i + 1;
      }
      TriedAll(old(results), old(failures), Phase.Compensate, released, results, failures);
      renewed := true;
    }

    /** Turn every released version on again; `lost` says whether some call failed. */
    method CompensateAll() returns (renewed: bool, lost: bool)
      requires Releasing()
      requires !fenced
      modifies this`held, this`failures, this`turnedOff, this`results, this`fenced, this`script, this`clock, rows
      ensures renewed == !fenced
      ensures OursOrEarlier() && LeavesUnlisted()
      ensures old(results) <= results
      ensures renewed ==> Restored(lost) && Noted(Tries(Phase.Compensate, released, old(failures)))
      ensures old(Alone()) ==> renewed && Alone() && rows.holds == old(rows.holds)
    {
      renewed := CompensateEach();
      lost := !renewed || exists v :: v in released && !PutOn(v);
    }

    /** Finish the release as failed: the hold goes back to active, or to failed when a version is lost. */
    method Revert() returns (outcome: Outcome)
      requires Releasing() && SomeReleaseFailed(results)
      requires !fenced
      modifies this`held, this`failures, this`turnedOff, this`results, this`fenced, this`script, this`clock, rows
      ensures LeavesUnlisted()
      ensures outcome.Aborted? || PutBack(outcome)
      ensures old(Alone() && In(HoldState.Releasing)) ==> outcome.Reverted?
    {
      var renewed, lost := CompensateAll();
      if !renewed { return Aborted; }
      FailureStays(old(results), results);
      Tick();
      var completed := rows.CompleteRelease(id, owner, true, lost);
      if completed.Failure? { return Aborted; }
      return Reverted(lost);
    }

    /** The recorded versions not yet turned off, each once. */
    method PendingOf(recorded: seq<Version>) returns (pending: seq<Version>)
      ensures Distinct(pending)
      ensures forall v :: v in pending <==> v in recorded && !ReleasedOk(results, v)
    {
      pending := [];
      var i := 0;
      while i < |recorded|
        invariant 0 <= i <= |recorded| && Distinct(pending)
        invariant forall v :: v in pending <==> v in recorded[..i] && !ReleasedOk(results, v)
      {
        var v := recorded[i];
        assert recorded[..i + 1] == recorded[..i] + [v];
        if !ReleasedOk(results, v) { pending := AddTo(pending, v); }
        i := i + 1;
      }
      assert recorded[..i] == recorded;
    }

    /** Turn the pending versions off, one try each. */
    method ReleasePending(pending: seq<Version>) returns (ok: bool)
      requires Releasing() && Distinct(pending) && forall v | v in pending :: !ReleasedOk(results, v)
      requires !fenced
      modifies this`held, this`failures, this`turnedOff, this`results, this`released, this`fenced, this`script, this`clock, rows
      ensures ok == !fenced
      ensures Releasing() && forall v | ReleasedOk(old(results), v) :: ReleasedOk(results, v)
      ensures ok ==> Noted(Tries(Phase.Release, pending, old(failures)))
      ensures ok ==> forall v | v in pending :: Attempted(v)
      ensures old(Alone()) ==> ok && Alone() && rows.holds == old(rows.holds)
      ensures old(Calm()) ==> Calm()
    {
      TriedNone(results, failures, Phase.Release, pending);
      var i := 0;
      while i < |pending|
        invariant 0 <= i <= |pending| && !fenced && Releasing()
        invariant TriedTo(old(results), old(failures), Phase.Release, pending, i, results, failures)
        invariant forall v | ReleasedOk(old(results), v) :: ReleasedOk(results, v)
        invariant forall k | i <= k < |pending| :: !ReleasedOk(results, pending[k])
        invariant forall k | 0 <= k < i :: Attempted(pending[k])
        invariant old(Alone()) ==> Alone() && rows.holds == old(rows.holds)
        invariant old(Calm()) ==> Calm()
      {
        TriedNext(old(results), old(failures), Phase.Release, pending, i, results, failures);
        var renewed := ReleaseOne(pending[i]);
        if !renewed { return false; }
        i := i + 1;
      }
      TriedAll(old(results), old(failures), Phase.Release, pending, results, failures);
      return true;
    }

    lemma CalmReleasesDiscovered()
      requires Calm() && Releasing() && AllTried()
      ensures AllDiscoveredOff()
    {
      forall v | v in discovered ensures ReleasedOk(results, v) { CalmReleases(v); }
    }

    lemma FailureNoted(v: Version)
      requires Releasing() && Attempted(v) && !ReleasedOk(results, v)
      ensures SomeReleaseFailed(results)
    {
      LatestIsThere(results, v);
    }

    /** Everything listed or last recorded was turned off, and the hold is released. */
    ghost predicate AllOff(listingsBefore: seq<seq<Version>>, recordingsBefore: seq<seq<Version>>)
      reads this, rows
    {
      && rows.operation.None? && (id in rows.holds ==> rows.holds[id].Released?)
      && StableAfter(listingsBefore, listings, discovered)
      && (forall v | v in discovered :: Off(v))
      && LastReadOff(recordingsBefore)
    }

    /** Of the recorded versions as they were last read, every one was turned off. */
    ghost predicate LastReadOff(recordingsBefore: seq<seq<Version>>)
      reads this
    {
      exists n :: 0 <= n < |recordingsBefore| && recordings == recordingsBefore[n + 1..]
        && forall v | v in recordingsBefore[n] :: Off(v)
    }

    /** Every version discovered so far is off. */
    ghost predicate AllDiscoveredOff()
      reads this
    {
      Releasing() && forall v | v in discovered :: ReleasedOk(results, v)
    }

    lemma CalmReleasesAll(versions: seq<Version>)
      requires Calm() && Releasing() && forall v | v in versions :: Attempted(v)
      ensures forall v | v in versions :: ReleasedOk(results, v)
    {
      forall v | v in versions ensures ReleasedOk(results, v) { CalmReleases(v); }
    }

    /** Turn the pending versions off, or put everything back when one fails. */
    method ReleaseOrRevert(pending: seq<Version>) returns (done: bool, outcome: Outcome)
      requires AllDiscoveredOff() && Distinct(pending) && forall v | v in pending :: !ReleasedOk(results, v)
      requires !fenced
      modifies this`held, this`failures, this`turnedOff, this`results, this`released, this`fenced, this`script, this`clock, rows
      ensures !done ==> !fenced
      ensures LeavesUnlisted() && !outcome.ReleasedAll?
      ensures !done ==> AllDiscoveredOff() && forall v | v in pending || ReleasedOk(old(results), v) :: ReleasedOk(results, v)
      ensures done && outcome.Reverted? ==> PutBack(outcome)
      ensures old(Alone() && In(HoldState.Releasing)) ==>
        if done then outcome.Reverted? else Alone() && In(HoldState.Releasing)
      ensures old(Calm()) ==> if done then outcome.Aborted? else Calm()
    {
      var ok := ReleasePending(pending);
      if !ok { return true, Aborted; }
      if Calm() { CalmReleasesAll(pending); }
      if exists v :: v in pending && !ReleasedOk(results, v) {
        ghost var v :| v in pending && !ReleasedOk(results, v);
        FailureNoted(v);
        outcome := Revert();
        return true, outcome;
      }
      return false, Aborted;
    }

    /** Finish a release that left nothing pending. */
    method CompleteReleased() returns (outcome: Outcome)
      modifies rows
      ensures !outcome.Reverted? && (outcome.Aborted? <==> !old(rows.Contents().Owns(id, owner)))
      ensures outcome.ReleasedAll? ==> rows.operation.None? && (id in rows.holds ==> rows.holds[id].Released?)
    {
      var completed := rows.CompleteRelease(id, owner, false, false);
      return if completed.Success? then ReleasedAll else Aborted;
    }

    /** One round of the pending loop, which may end it; `recorded` is what the transaction reads. */
    method FinishRound(recorded: seq<Version>) returns (done: bool, outcome: Outcome)
      requires AllDiscoveredOff()
      requires !fenced
      modifies this`held, this`failures, this`turnedOff, this`results, this`released, this`fenced, this`script, this`clock, rows
      ensures !done ==> !fenced
      ensures LeavesUnlisted()
      ensures !done ==> AllDiscoveredOff() && forall v | v in recorded :: ReleasedOk(results, v)
      ensures done && outcome.Reverted? ==> PutBack(outcome)
      ensures done && outcome.ReleasedAll? ==>
        && rows.operation.None? && (id in rows.holds ==> rows.holds[id].Released?)
        && AllDiscoveredOff() && forall v | v in recorded :: Off(v)
      ensures old(Alone() && In(HoldState.Releasing)) ==>
        if done then !outcome.Aborted? else Alone() && In(HoldState.Releasing)
      ensures old(Calm()) ==> if done then !outcome.Reverted? else Calm()
      ensures (forall v | v in recorded :: ReleasedOk(old(results), v)) ==> done
      ensures old(script) == [] && !old(rows.Contents().Owns(id, owner)) ==>
        done && outcome.Aborted? && results == old(results) && held == old(held)
    {
      Tick();
      var pending := PendingOf(recorded);
      if pending == [] {
        outcome := CompleteReleased();
        return true, outcome;
      }
      assert exists v :: v in recorded && !ReleasedOk(results, v) by { assert pending[0] in pending; }
      var renewed := rows.Renew(id, owner, clock);
      fenced := renewed.Failure?;
      if renewed.Failure? { return true, Aborted; }
      done, outcome := ReleaseOrRevert(pending);
    }

    /** `completeHoldRelease` until no recorded version is pending. */
    method FinishPending() returns (outcome: Outcome)
      requires AllDiscoveredOff()
      requires !fenced
      modifies this`held, this`failures, this`turnedOff, this`results, this`released, this`fenced, this`script, this`clock,
        this`recordings, rows
      ensures outcome.Reverted? ==> PutBack(outcome)
      ensures outcome.ReleasedAll? ==> rows.operation.None? && (id in rows.holds ==> rows.holds[id].Released?)
      ensures outcome.ReleasedAll? ==> forall v | v in discovered :: Off(v)
      ensures LeavesUnlisted()
      ensures outcome.ReleasedAll? ==> LastReadOff(old(recordings))
      ensures old(Alone() && In(HoldState.Releasing)) && Repeats(old(recordings)) ==> !outcome.Aborted?
      ensures old(Calm()) ==> !outcome.Reverted?
    {
      ghost var all := recordings;
      ghost var n := 0;
      while true
        invariant n <= |all| && recordings == all[n..] && !fenced && AllDiscoveredOff()
        invariant old(Alone() && In(HoldState.Releasing)) ==> Alone() && In(HoldState.Releasing)
        invariant old(Calm()) ==> Calm()
        invariant Repeats(all) ==> n <= 1 && (n == 1 ==> forall v | v in all[0] :: ReleasedOk(results, v))
        decreases |recordings|
      {
        if recordings == [] {
          Tick();
          return Aborted;
        }
        var recorded := recordings[0];
        recordings := recordings[1..];
        SameMembers(all, n);
        var done: bool;
        done, outcome := FinishRound(recorded);
        if done { return; }
        n := n + 1;
      }
    }

    /** After the listings: put back when a listed version is not off, otherwise go on with the recorded ones. */
    method Conclude() returns (outcome: Outcome)
      requires Releasing() && AllTried()
      requires !fenced
      modifies this`held, this`failures, this`turnedOff, this`results, this`released, this`fenced, this`script, this`clock,
        this`recordings, rows
      ensures outcome.Reverted? ==> PutBack(outcome)
      ensures outcome.ReleasedAll? ==> rows.operation.None? && (id in rows.holds ==> rows.holds[id].Released?)
      ensures outcome.ReleasedAll? ==> (forall v | v in discovered :: Off(v)) && LastReadOff(old(recordings))
      ensures LeavesUnlisted()
      ensures old(Alone() && In(HoldState.Releasing)) && Repeats(old(recordings)) ==> !outcome.Aborted?
      ensures old(Calm()) ==> !outcome.Reverted?
    {
      if Calm() { CalmReleasesDiscovered(); }
      if exists v :: v in discovered && !ReleasedOk(results, v) {
        ghost var v :| v in discovered && !ReleasedOk(results, v);
        FailureNoted(v);
        outcome := Revert();
      } else {
        outcome := FinishPending();
      }
    }

    /** `releaseHoldFromStorage`, from whatever progress a former owner recorded. */
    method ReleaseFromStorage() returns (outcome: Outcome)
      modifies this`held, this`failures, this`turnedOff, this`results, this`released, this`fenced, this`script, this`clock,
        this`discovered, this`listings, this`recordings, this`earlier, this`heldThen, rows
      ensures earlier == old(results) && heldThen == old(held)
      ensures outcome.Reverted? ==> PutBack(outcome)
      ensures outcome.ReleasedAll? ==> AllOff(old(listings), old(recordings))
      // however the run ends, it does not touch what only the earlier progress had turned off
      ensures LeavesUnlisted()
      // when nobody else acts, and listings and recorded versions repeat, the run is not thrown out of
      ensures old(Alone() && In(HoldState.Releasing)) && Repeats(old(listings)) && Repeats(old(recordings)) ==> !outcome.Aborted?
      // when no call fails and no release had failed, the hold is not put back
      ensures old(Calm()) ==> !outcome.Reverted?
    {
      Begin();
      var ok := ReleaseUntilStable();
      if !ok { return Aborted; }
      outcome := Conclude();
    }

    /** No version that the progress calls protected is without its hold. */
    ghost predicate ProtectedHeld()
      reads this`results, this`held
    {
      forall v | Protected(results, v) :: v in held
    }

    method PushProtects(p: Progress)
      modifies this`results
      ensures results == old(results) + [p]
      ensures forall v :: Protected(results, v) <==>
        Protected(old(results), v) || (p == Progress(v, p.phase, true) && (p.phase.Apply? || p.phase.Retry?))
    {
      forall v ensures Protected(results + [p], v) <==>
        Protected(results, v) || (p == Progress(v, p.phase, true) && (p.phase.Apply? || p.phase.Retry?))
      {
        var applied, retried := Progress(v, Apply, true), Progress(v, Retry, true);
        assert applied in results + [p] <==> applied in results || applied == p;
        assert retried in results + [p] <==> retried in results || retried == p;
      }
      results := results + [p];
    }

    /** Turn the hold on for one version, note it, and renew the lease. */
    method Protect(v: Version, phase: Phase) returns (ok: bool, renewed: bool)
      requires phase.Apply? || phase.Retry?
      requires !fenced
      modifies this`held, this`failures, this`turnedOff, this`results, this`fenced, this`script, this`clock, rows
      ensures renewed == !fenced
      ensures ok == Goes(old(failures), 0) && Noted(Tries(phase, [v], old(failures)))
      ensures old(ProtectedHeld()) ==> ProtectedHeld()
      ensures renewed == rows.Contents().Owns(id, owner)
      ensures old(Alone()) ==> renewed && Alone() && rows.holds == old(rows.holds)
    {
      ok := SetHold(v, true);
      PushProtects(Progress(v, phase, ok));
      TriesPush(phase, [], v, old(failures));
      assert [] + [v] == [v];
      renewed := RenewLease();
    }

    /** Try a listed version unless it is protected. */
    method ApplyOne(v: Version, failed: seq<Version>, ghost before: seq<Progress>, ghost answers: seq<bool>,
                    ghost done: seq<Version>, ghost tried: seq<Version>)
      returns (renewed: bool, nowFailed: seq<Version>, ghost nowTried: seq<Version>)
      requires Applied(before, answers, done, tried, failed, results, failures)
      requires !fenced
      modifies this`held, this`failures, this`turnedOff, this`results, this`fenced, this`script, this`clock, rows
      ensures renewed == !fenced
      ensures Applied(before, answers, done + [v], nowTried, nowFailed, results, failures)
      ensures old(ProtectedHeld()) ==> ProtectedHeld()
      ensures old(Alone()) ==> renewed && Alone() && rows.holds == old(rows.holds)
    {
      nowTried, nowFailed, renewed := tried, failed, true;
      if Protected(results, v) {
        AppliedSkips(before, answers, done, tried, failed, results, failures, v);
      } else {
        AppliedTries(before, answers, done, tried, failed, results, failures, v);
        var ok: bool;
        ok, renewed := Protect(v, Apply);
        if !ok { nowFailed := failed + [v]; }
        nowTried := tried + [v];
      }
    }

    /** Try each listed version that is not protected yet; `failed` are those whose call failed. */
    method ApplyListed(versions: seq<Version>) returns (renewed: bool, failed: seq<Version>)
      requires !fenced
      modifies this`held, this`failures, this`turnedOff, this`results, this`fenced, this`script, this`clock, rows
      ensures renewed == !fenced
      ensures renewed ==> Noted(Tries(Apply, ToApply(old(results), versions, old(failures)), old(failures)))
      ensures renewed ==> failed == Refused(ToApply(old(results), versions, old(failures)), old(failures))
      ensures old(ProtectedHeld()) ==> ProtectedHeld()
      ensures old(Alone()) ==> renewed && Alone() && rows.holds == old(rows.holds)
    {
      failed := [];
      ghost var tried: seq<Version> := [];
      assert results + [] == results;
      var i := 0;
      while i < |versions|
        invariant 0 <= i <= |versions| && !fenced
        invariant Applied(old(results), old(failures), versions[..i], tried, failed, results, failures)
        invariant old(ProtectedHeld()) ==> ProtectedHeld()
        invariant old(Alone()) ==> Alone() && rows.holds == old(rows.holds)
      {
        assert versions[..i + 1] == versions[..i] + [versions[i]];
        renewed, failed, tried := ApplyOne(versions[i], failed, old(results), old(failures), versions[..i], tried);
        if !renewed { return; }
        i := i + 1;
      }
      assert versions[..i] == versions;
      TriesAt(Apply, tried, old(failures));
      renewed := true;
    }

    /** A second try for each failed version. */
    method RetryAll(failed: seq<Version>) returns (renewed: bool)
      requires !fenced
      modifies this`held, this`failures, this`turnedOff, this`results, this`fenced, this`script, this`clock, rows
      ensures renewed == !fenced
      ensures renewed ==> Noted(Tries(Retry, failed, old(failures)))
      ensures old(ProtectedHeld()) ==> ProtectedHeld()
      ensures old(Alone()) ==> renewed && Alone() && rows.holds == old(rows.holds)
    {
      TriedNone(results, failures, Retry, failed);
      var i := 0;
      while i < |failed|
        invariant 0 <= i <= |failed| && !fenced
        invariant TriedTo(old(results), old(failures), Retry, failed, i, results, failures)
        invariant old(ProtectedHeld()) ==> ProtectedHeld()
        invariant old(Alone()) ==> Alone() && rows.holds == old(rows.holds)
      {
        TriedNext(old(results), old(failures), Retry, failed, i, results, failures);
        var _, renewedNow := Protect(failed[i], Retry);
        renewed := renewedNow;
        if !renewed { return false; }
        i := i + 1;
      }
      TriedAll(old(results), old(failures), Retry, failed, results, failures);
      renewed := true;
    }

    /** The two rounds over one listing. */
    method ApplyTwice(versions: seq<Version>) returns (renewed: bool, failed: bool)
      requires !fenced
      modifies this`held, this`failures, this`turnedOff, this`results, this`fenced, this`script, this`clock, rows
      ensures renewed == !fenced
      ensures renewed ==> Noted(ApplyNotes(old(results), versions, old(failures)))
      ensures renewed ==> (failed <==> HoldFails(old(results), versions, old(failures)))
      ensures old(ProtectedHeld()) ==> ProtectedHeld()
      ensures old(Alone()) ==> renewed && Alone() && rows.holds == old(rows.holds)
    {
      AllNoted(results, versions, failures);
      failed := false;
      var failedVersions: seq<Version>;
      renewed, failedVersions := ApplyListed(versions);
      if !renewed { return; }
      renewed := RetryAll(failedVersions);
      failed := exists v :: v in failedVersions && Progress(v, Retry, true) !in results;
    }

    /**
     `applyHoldToStorage`, from whatever progress a former owner recorded: none when thrown out of, otherwise whether
     the hold failed.  Each listed version not protected yet gets one call and, if that failed, a second.
    */
    method ApplyToStorage() returns (failed: Option<bool>)
      modifies this`held, this`failures, this`turnedOff, this`results, this`fenced, this`script, this`clock, this`listings, rows
      ensures failed.Some? ==> old(listings) != [] && Noted(ApplyNotes(old(results), old(listings)[0], old(failures)))
      ensures failed.Some? ==> (failed.value <==> HoldFails(old(results), old(listings)[0], old(failures)))
      ensures failed.Some? ==>
        rows.operation.None? && id in rows.holds && rows.holds[id] == if failed.value then Failed else Active
      ensures failed == Some(false) ==>
        forall v | v in old(listings)[0] :: Protected(results, v) && (old(ProtectedHeld()) ==> v in held)
      ensures old(Alone() && In(Applying)) && old(listings) != [] ==> failed.Some?
      ensures old(Calm()) ==> failed != Some(true)
    {
      if listings == [] { return None; }
      fenced := false;
      var versions := listings[0];
      listings := listings[1..];
      var renewed, anyFailed := ApplyTwice(versions);
      if !renewed { return None; }
      if !anyFailed {
        forall v | v in versions ensures Protected(results, v) { HoldThatHolds(old(results), versions, old(failures), v); }
      }
      if old(failures) == [] { NoneRefused(ToApply(old(results), versions, [])); }
      Tick();
      var completed := rows.CompleteAdd(id, owner, anyFailed);
      return if completed.Success? then Some(anyFailed) else None;
    }
  }
}
