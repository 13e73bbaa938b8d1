/**
 What each transaction on the holds of an archive answers in every state that a run can reach, and what it changes:
 storage is released for the last hold only, and a refusal changes nothing.
*/
module HoldOutcomes {
  import opened Lifecycle
  import opened Wrappers

  import opened HoldOperations

  /** No hold but `h` keeps the objects. */
  ghost predicate OnlyHold(r: Record, h: Id) { forall g | g in r.holds && g != h :: r.holds[g].Released? }

  ghost predicate ReleasingIsOnly(r: Record) { forall h | h in r.holds && r.holds[h].Releasing? :: OnlyHold(r, h) }

  lemma StepKeepsOnly(r: Record, a: Action)
    requires Valid(r) && ReleasingIsOnly(r)
    ensures ReleasingIsOnly(Step(r, a))
  {
    forall h, g | h in Step(r, a).holds && Step(r, a).holds[h].Releasing? && g in Step(r, a).holds && g != h
      ensures Step(r, a).holds[g].Released?
    {
      BesideReleasing(r, a, h, g);
    }
  }

  lemma BesideReleasing(r: Record, a: Action, h: Id, g: Id)
    requires Valid(r) && ReleasingIsOnly(r)
    requires h in Step(r, a).holds && Step(r, a).holds[h].Releasing? && g in Step(r, a).holds && g != h
    ensures Step(r, a).holds[g].Released?
  {
    if r.Busy(h) {
      assert r.operation.Some? && r.operation.value.id == h;
      assert OnlyHold(r, h);
    } else {
      assert a.ReleaseHold? && !r.OtherUnreleased(h) && g in r.holds;
      assert r.holds[g].Released? by { assert !r.Unreleased(g); }
    }
  }

  /** In every run, while the hold of an archive is turned off in storage, no other hold is unreleased. */
  lemma {:induction false} StorageIsReleasedForTheLast(run: seq<Action>)
    ensures Valid(After(Start(), run)) && ReleasingIsOnly(After(Start(), run))
  {
    RunKeepsValid(run);
    if run != [] {
      StorageIsReleasedForTheLast(run[..|run| - 1]);
      StepKeepsOnly(After(Start(), run[..|run| - 1]), run[|run| - 1]);
    }
  }

  /** The archive is settled and nobody works on its holds. */
  predicate Idle(r: Record) { (r.state.Complete? || r.state.Incomplete?) && r.operation.None? }

  lemma IdleHasNoneBusy(run: seq<Action>)
    ensures Idle(After(Start(), run)) ==> After(Start(), run).NoneBusy()
  {
    RunKeepsValid(run);
  }

  /** A release beside another unreleased hold is finished at once and touches nothing but that hold. */
  lemma ReleaseBesideAnother(run: seq<Action>, id: Id, other: Id, owner: Id, now: Time)
    requires var r := After(Start(), run);
      && Idle(r) && id != other && id in r.holds && other in r.holds
      && !r.holds[id].Released? && !r.holds[other].Released?
    ensures var r := After(Start(), run);
      ReleaseHoldOf(r, id, owner, now) == (r.(holds := r.holds[id := Released]), Success(true))
  {
    IdleHasNoneBusy(run);
    assert After(Start(), run).Unreleased(other);
  }

  /** A release asks for the storage to be released if and only if it is the last hold's and nobody is at work. */
  lemma ReleaseOpensIff(run: seq<Action>, id: Id, owner: Id, now: Time)
    ensures var r := After(Start(), run);
      var (s, answer) := ReleaseHoldOf(r, id, owner, now);
      && (answer == Success(false) <==> Idle(r) && id in r.holds && !r.holds[id].Released? && OnlyHold(r, id))
      && (answer == Success(false) ==>
            s == r.(operation := Some(Operation(id, owner, Kind.Release, now + 300_000)), holds := r.holds[id := Releasing]))
      && (answer.Success? <==> Idle(r) && id in r.holds && !r.holds[id].Released?)
      && (answer.Failure? ==> s == r)
  {
    IdleHasNoneBusy(run);
    var r := After(Start(), run);
    if OnlyHold(r, id) {
      assert !r.OtherUnreleased(id);
    } else if g :| g in r.holds && g != id && !r.holds[g].Released? {
      assert r.Unreleased(g);
    }
  }

  /** A hold is added if and only if the archive is settled, nobody works on its holds, and the id is new. */
  lemma AddOpensIff(run: seq<Action>, id: Id, owner: Id, now: Time)
    ensures var r := After(Start(), run);
      var (s, answer) := AddHoldTo(r, id, owner, now);
      && (answer.Success? <==> Idle(r) && id !in r.holds)
      && (answer.Success? ==>
            s == r.(operation := Some(Operation(id, owner, Kind.Add, now + 300_000)), holds := r.holds[id := Applying]))
      && (answer.Failure? ==> s == r)
  {
    IdleHasNoneBusy(run);
  }

  /** An operation is handed over if and only if its lease has run out, and only its owner and lease change. */
  lemma ClaimsIffStale(run: seq<Action>, owner: Id, now: Time)
    ensures var r := After(Start(), run);
      var (s, answer) := ClaimStaleOf(r, owner, now);
      && answer.Success?
      && (answer.value.Some? <==> r.operation.Some? && r.operation.value.leaseExpiresAt <= now)
      && s == (if answer.value.Some?
               then r.(operation := Some(r.operation.value.(owner := owner, leaseExpiresAt := now + 300_000))) else r)
      && (answer.value.Some? ==> answer.value == s.operation)
  {
    RunKeepsValid(run);
  }

  /** An application is completed by its owner only, exactly when it is the open operation. */
  lemma AddCompletesIff(run: seq<Action>, id: Id, owner: Id, failed: bool)
    ensures var r := After(Start(), run);
      var (s, answer) := CompleteAddOf(r, id, owner, failed);
      && (answer.Success? <==> r.operation.Some? && r.operation.value.id == id && r.operation.value.owner == owner
                               && r.operation.value.kind.Add?)
      && s == (if answer.Success?
               then r.(operation := None, holds := r.holds[id := if failed then Failed else Active]) else r)
  {
    RunKeepsValid(run);
  }

  /** A release that failed is completed by its owner only, exactly when it is the open operation. */
  lemma ReleaseCompletesIff(run: seq<Action>, id: Id, owner: Id, compensationFailed: bool)
    ensures var r := After(Start(), run);
      var (s, answer) := CompleteReleaseOf(r, id, owner, true, compensationFailed);
      && (answer.Success? <==> r.operation.Some? && r.operation.value.id == id && r.operation.value.owner == owner
                               && r.operation.value.kind.Release?)
      && s == (if answer.Success?
               then r.(operation := None, holds := r.holds[id := if compensationFailed then Failed else Active]) else r)
  {
    RunKeepsValid(run);
  }

  /** A release that went through ends with the hold released, for its owner only. */
  lemma ReleasedByOwner(run: seq<Action>, id: Id, owner: Id)
    ensures var r := After(Start(), run);
      var (s, answer) := CompleteReleaseOf(r, id, owner, false, false);
      && (answer.Success? <==> r.operation.Some? && r.operation.value.id == id && r.operation.value.owner == owner)
      && (if answer.Success? then s.operation.None? && id in s.holds && s == r.(operation := None, holds := r.holds[id := Released])
          else s == r)
  {
    RunKeepsValid(run);
  }

  /**
   A deletion is admitted if and only if the consultation has ended, the archive is settled, and every hold was
   released; it begins a new write epoch.  Asked for again while it is under way or done, it changes nothing.
  */
  lemma DeletionBeginsIff(run: seq<Action>)
    ensures var r := After(Start(), run);
      var (s, answer) := BeginDeleteOf(r);
      && (answer == Success(true) <==>
            r.ended && (r.state.Complete? || r.state.Incomplete?) && forall h | h in r.holds :: r.holds[h].Released?)
      && (answer == Success(true) ==> s == r.(state := Deleting, writeEpoch := r.writeEpoch + 1) && r.operation.None?)
      && (answer == Success(false) <==> r.state.Deleting? || r.state.Deleted?)
      && (answer != Success(true) ==> s == r)
  {
    RunKeepsValid(run);
    var r := After(Start(), run);
    if forall h | h in r.holds :: r.holds[h].Released? {
      assert r.NoneUnreleased();
      if r.operation.Some? { assert r.holds[r.operation.value.id].Released?; }
    } else if h :| h in r.holds && !r.holds[h].Released? {
      assert r.Unreleased(h);
    }
  }

  /** A deletion is completed if and only if it is the one under way, its writers are drained and both rows cleared. */
  lemma DeletionCompletesIff(r: Record, epoch: nat, drained: bool, participants: nat)
    ensures var (s, answer) := CompleteDeletionOf(r, epoch, drained, participants);
      && (answer == Success(true) <==> r.state.Deleting? && r.writeEpoch == epoch && drained && participants == 2)
      && s == (if answer == Success(true) then r.(state := Deleted, completedEpoch := Some(epoch)) else r)
  {
  }

  /** Why a hold is not added, not released, or a deletion not admitted. */
  lemma RefusedBecause(run: seq<Action>, id: Id, owner: Id, now: Time)
    ensures var r := After(Start(), run);
      var settled := r.state.Complete? || r.state.Incomplete?;
      && (AddHoldTo(r, id, owner, now).1 == Failure(InvalidArchiveState) <==> !settled)
      && (AddHoldTo(r, id, owner, now).1 == Failure(HoldOperationInProgress) <==> settled && r.operation.Some?)
      && (AddHoldTo(r, id, owner, now).1 == Failure(DuplicateHold) <==> Idle(r) && id in r.holds)
    ensures var r := After(Start(), run);
      var settled := r.state.Complete? || r.state.Incomplete?;
      var held := id in r.holds && !r.holds[id].Released?;
      && (ReleaseHoldOf(r, id, owner, now).1 == Failure(InvalidArchiveState) <==> !settled)
      && (ReleaseHoldOf(r, id, owner, now).1 == Failure(HoldNotFound) <==> settled && !held)
      && (ReleaseHoldOf(r, id, owner, now).1 == Failure(HoldOperationInProgress) <==> settled && held && r.operation.Some?)
    ensures var r := After(Start(), run);
      var settled := r.state.Complete? || r.state.Incomplete?;
      var gone := r.state.Deleting? || r.state.Deleted?;
      && (BeginDeleteOf(r).1 == Failure(ConsultationNotEnded) <==> !gone && !r.ended)
      && (BeginDeleteOf(r).1 == Failure(InvalidArchiveState) <==> !gone && r.ended && !settled)
      && (BeginDeleteOf(r).1 == Failure(ArchiveHeld) <==>
            r.ended && settled && exists h :: h in r.holds && !r.holds[h].Released?)
  {
    RunKeepsValid(run);
    var r := After(Start(), run);
    if h :| h in r.holds && !r.holds[h].Released? { assert r.Unreleased(h); }
  }

  /** Only the owner renews an operation, and only its lease moves. */
  lemma RenewsIffOwner(r: Record, id: Id, owner: Id, now: Time)
    ensures var (s, answer) := RenewOf(r, id, owner, now);
      && (answer == Success(true) <==> r.operation.Some? && r.operation.value.id == id && r.operation.value.owner == owner)
      && (answer == Success(true) || answer == Failure(HoldOperationFenced))
      && s == (if answer.Success? then r.(operation := Some(r.operation.value.(leaseExpiresAt := now + 300_000))) else r)
  {
  }

  /** A failed deletion leaves an incomplete archive, if and only if it is the one under way. */
  lemma DeletionFailsIff(r: Record, epoch: nat)
    ensures FailDeletionOf(r, epoch) == if r.state.Deleting? && r.writeEpoch == epoch then r.(state := Incomplete) else r
  {
  }
}
