/**
 Legal holds and deletion of one archive, as rows changed by transactions.  Each repository
 statement is one guarded update; each service transaction runs statements in order and restores
 the rows when it throws.
*/
module HoldOperations {
  import opened Lifecycle
  import opened Wrappers

  const LEASE_MS := 300_000

  datatype HoldState = Applying | Active | Releasing | Failed | Released

  datatype Kind = Add | Release

  datatype Operation = Operation(id: Id, owner: Id, kind: Kind, leaseExpiresAt: Time)

  datatype Error =
    | InvalidArchiveState
    | ConsultationNotEnded
    | HoldOperationInProgress
    | HoldOperationFenced
    | HoldOperationCorrupt
    | HoldNotFound
    | DuplicateHold
    | ArchiveHeld
    | ArchiveFenced

  datatype Record = Record(
    state: ArchiveState, ended: bool, writeEpoch: nat, completedEpoch: Option<nat>,
    operation: Option<Operation>, holds: map<Id, HoldState>)
  {
    predicate Holdable() { state.Complete? || state.Incomplete? }

    predicate Unreleased(h: Id) { h in holds && !holds[h].Released? }

    predicate Busy(h: Id) { h in holds && (holds[h].Applying? || holds[h].Releasing?) }

    predicate NoneBusy() { forall h | h in holds :: !Busy(h) }

    predicate NoneUnreleased() { forall h | h in holds :: !Unreleased(h) }

    predicate OtherUnreleased(h: Id) { exists g :: g in holds && g != h && Unreleased(g) }

    predicate Owns(id: Id, owner: Id) { operation.Some? && operation.value.id == id && operation.value.owner == owner }
  }

  // ----- what each transaction does to the rows, and what it answers -----

  function AddHoldTo(r: Record, id: Id, owner: Id, now: Time): (Record, Result<bool, Error>) {
    if !r.Holdable() then (r, Failure(InvalidArchiveState))
    else if r.operation.Some? || !r.NoneBusy() then (r, Failure(HoldOperationInProgress))
    else if id in r.holds then (r, Failure(DuplicateHold))
    else
      (r.(operation := Some(Operation(id, owner, Add, now + LEASE_MS)), holds := r.holds[id := Applying]),
       Success(false))
  }

  /** Success carries whether the release was finished at once, because another hold keeps the objects. */
  function ReleaseHoldOf(r: Record, id: Id, owner: Id, now: Time): (Record, Result<bool, Error>) {
    if !r.Holdable() then (r, Failure(InvalidArchiveState))
    else if !r.Unreleased(id) then (r, Failure(HoldNotFound))
    else if r.operation.Some? || !r.NoneBusy() then (r, Failure(HoldOperationInProgress))
    else if r.OtherUnreleased(id) then (r.(holds := r.holds[id := Released]), Success(true))
    else
      (r.(operation := Some(Operation(id, owner, Release, now + LEASE_MS)), holds := r.holds[id := Releasing]),
       Success(false))
  }

  /** Success carries the operation taken over, if one was stale. */
  function ClaimStaleOf(r: Record, owner: Id, now: Time): (Record, Result<Option<Operation>, Error>) {
    if r.operation.None? || r.operation.value.leaseExpiresAt > now then (r, Success(None))
    else if !r.Unreleased(r.operation.value.id) then (r, Failure(HoldOperationCorrupt))
    else
      var claimed := r.operation.value.(owner := owner, leaseExpiresAt := now + LEASE_MS);
      (r.(operation := Some(claimed)), Success(Some(claimed)))
  }

  function RenewOf(r: Record, id: Id, owner: Id, now: Time): (Record, Result<bool, Error>) {
    if !r.Owns(id, owner) then (r, Failure(HoldOperationFenced))
    else (r.(operation := Some(r.operation.value.(leaseExpiresAt := now + LEASE_MS))), Success(true))
  }

  function CompleteAddOf(r: Record, id: Id, owner: Id, failed: bool): (Record, Result<bool, Error>) {
    if !r.Owns(id, owner) || id !in r.holds || !r.holds[id].Applying? then (r, Failure(HoldOperationFenced))
    else (r.(operation := None, holds := r.holds[id := if failed then Failed else Active]), Success(true))
  }

  function CompleteReleaseOf(r: Record, id: Id, owner: Id, releaseFailed: bool, compensationFailed: bool)
    : (Record, Result<bool, Error>)
  {
    if !r.Owns(id, owner) then (r, Failure(HoldOperationFenced))
    else if releaseFailed then
      if id !in r.holds || !r.holds[id].Releasing? then (r, Failure(HoldOperationFenced))
      else (r.(operation := None, holds := r.holds[id := if compensationFailed then Failed else Active]), Success(true))
    else (r.(operation := None, holds := if id in r.holds then r.holds[id := Released] else r.holds), Success(true))
  }

  /** Success carries whether deletion was admitted by this call. */
  function BeginDeleteOf(r: Record): (Record, Result<bool, Error>) {
    if r.state.Deleting? || r.state.Deleted? then (r, Success(false))
    else if !r.ended then (r, Failure(ConsultationNotEnded))
    else if !r.Holdable() then (r, Failure(InvalidArchiveState))
    else if !r.NoneUnreleased() then (r, Failure(ArchiveHeld))
    else (r.(state := Deleting, writeEpoch := r.writeEpoch + 1), Success(true))
  }

  /** Success carries whether the archive was deleted; `participants` is how many rows were cleared. */
  function CompleteDeletionOf(r: Record, writeEpoch: nat, drained: bool, participants: nat)
    : (Record, Result<bool, Error>)
  {
    if r.writeEpoch != writeEpoch then (r, Failure(ArchiveFenced))
    else if !drained then (r, Success(false))
    else if !r.state.Deleting? || participants != 2 then (r, Failure(ArchiveFenced))
    else (r.(state := Deleted, completedEpoch := Some(writeEpoch)), Success(true))
  }

  function FailDeletionOf(r: Record, writeEpoch: nat): Record {
    if r.state.Deleting? && r.writeEpoch == writeEpoch then r.(state := Incomplete) else r
  }

  // ----- the statements and the transactions -----

  class ArchiveRows {
    var state: ArchiveState
    var ended: bool
    var writeEpoch: nat
    var completedEpoch: Option<nat>
    var operation: Option<Operation>
    var holds: map<Id, HoldState>

    function Contents(): Record
      reads this
    {
      Record(state, ended, writeEpoch, completedEpoch, operation, holds)
    }

    constructor (ended: bool, state: ArchiveState)
      ensures Contents() == Record(state, ended, 0, None, None, map[])
    {
      this.state, this.ended, writeEpoch, completedEpoch, operation, holds := state, ended, 0, None, None, map[];
    }

    method BeginOperation(id: Id, owner: Id, kind: Kind, now: Time) returns (began: bool)
      modifies this`operation
      ensures began == (old(operation).None? && old(Contents()).NoneBusy())
      ensures operation == if began then Some(Operation(id, owner, kind, now + LEASE_MS)) else old(operation)
    {
      began := operation.None? && forall h | h in holds :: !(holds[h].Applying? || holds[h].Releasing?);
      if began { operation := Some(Operation(id, owner, kind, now + LEASE_MS)); }
    }

    method InsertHold(id: Id) returns (inserted: bool)
      modifies this`holds
      ensures inserted == (id !in old(holds))
      ensures holds == if inserted then old(holds)[id := Applying] else old(holds)
    {
      inserted := id !in holds;
      if inserted { holds := holds[id := Applying]; }
    }

    method RemoveHold(id: Id)
      modifies this`holds
      ensures holds == if old(Contents()).Unreleased(id) then old(holds)[id := Released] else old(holds)
    {
      if id in holds && !holds[id].Released? { holds := holds[id := Released]; }
    }

    method TransitionHold(id: Id, from: HoldState, to: HoldState) returns (changed: bool)
      modifies this`holds
      ensures changed == (old(Contents()).Unreleased(id) && old(holds)[id] == from)
      ensures holds == if changed then old(holds)[id := to] else old(holds)
    {
      changed := id in holds && !holds[id].Released? && holds[id] == from;
      if changed { holds := holds[id := to]; }
    }

    method ClaimStaleOperation(owner: Id, now: Time) returns (claimed: Option<Operation>)
      modifies this`operation
      ensures claimed == if old(operation).Some? && old(operation).value.leaseExpiresAt <= now
        then Some(old(operation).value.(owner := owner, leaseExpiresAt := now + LEASE_MS)) else None
      ensures operation == if claimed.Some? then claimed else old(operation)
    {
      claimed := None;
      if operation.Some? && operation.value.leaseExpiresAt <= now {
        operation := Some(Operation(operation.value.id, owner, operation.value.kind, now + LEASE_MS));
        claimed := operation;
      }
    }

    method RenewOperation(id: Id, owner: Id, now: Time) returns (renewed: bool)
      modifies this`operation
      ensures renewed == old(Contents()).Owns(id, owner)
      ensures operation == if renewed then Some(old(operation).value.(leaseExpiresAt := now + LEASE_MS)) else old(operation)
    {
      renewed := operation.Some? && operation.value.id == id && operation.value.owner == owner;
      if renewed { operation := Some(operation.value.(leaseExpiresAt := now + LEASE_MS)); }
    }

    method CompleteOperation(id: Id, owner: Id) returns (completed: bool)
      modifies this`operation
      ensures completed == old(Contents()).Owns(id, owner)
      ensures operation == if completed then None else old(operation)
    {
      completed := operation.Some? && operation.value.id == id && operation.value.owner == owner;
      if completed { operation := None; }
    }

    /** Set every row, as the rollback of a transaction that throws does. */
    method Restore(was: Record)
      modifies this
      ensures Contents() == was
    {
      state, ended, writeEpoch, completedEpoch, operation, holds :=
        was.state, was.ended, was.writeEpoch, was.completedEpoch, was.operation, was.holds;
    }

    method AddHold(id: Id, owner: Id, now: Time) returns (result: Result<bool, Error>)
      modifies this
      ensures (Contents(), result) == AddHoldTo(old(Contents()), id, owner, now)
    {
      var was := Record(state, ended, writeEpoch, completedEpoch, operation, holds);
      if !state.Complete? && !state.Incomplete? { return Failure(InvalidArchiveState); }
      var began := BeginOperation(id, owner, Add, now);
      if !began { return Failure(HoldOperationInProgress); }
      var inserted := InsertHold(id);
      if !inserted {
        Restore(was);
        return Failure(DuplicateHold);
      }
      return Success(false);
    }

    method ReleaseHold(id: Id, owner: Id, now: Time) returns (result: Result<bool, Error>)
      modifies this
      ensures (Contents(), result) == ReleaseHoldOf(old(Contents()), id, owner, now)
    {
      var was := Record(state, ended, writeEpoch, completedEpoch, operation, holds);
      if !state.Complete? && !state.Incomplete? { return Failure(InvalidArchiveState); }
      if !was.Unreleased(id) { return Failure(HoldNotFound); }
      var began := BeginOperation(id, owner, Release, now);
      if !began { return Failure(HoldOperationInProgress); }
      if was.OtherUnreleased(id) {
        var completed := CompleteOperation(id, owner);
        assert completed;
        RemoveHold(id);
        return Success(true);
      }
      var changed := TransitionHold(id, was.holds[id], Releasing);
      assert changed;
      return Success(false);
    }

    method ClaimStale(owner: Id, now: Time) returns (result: Result<Option<Operation>, Error>)
      modifies this
      ensures (Contents(), result) == ClaimStaleOf(old(Contents()), owner, now)
    {
      var was := Record(state, ended, writeEpoch, completedEpoch, operation, holds);
      var claimed := ClaimStaleOperation(owner, now);
      if claimed.None? { return Success(None); }
      if !was.Unreleased(claimed.value.id) {
        Restore(was);
        return Failure(HoldOperationCorrupt);
      }
      return Success(claimed);
    }

    method Renew(id: Id, owner: Id, now: Time) returns (result: Result<bool, Error>)
      modifies this
      ensures (Contents(), result) == RenewOf(old(Contents()), id, owner, now)
    {
      var renewed := RenewOperation(id, owner, now);
      return if renewed then Success(true) else Failure(HoldOperationFenced);
    }

    method CompleteAdd(id: Id, owner: Id, failed: bool) returns (result: Result<bool, Error>)
      modifies this
      ensures (Contents(), result) == CompleteAddOf(old(Contents()), id, owner, failed)
    {
      var was := Record(state, ended, writeEpoch, completedEpoch, operation, holds);
      var completed := CompleteOperation(id, owner);
      if !completed { return Failure(HoldOperationFenced); }
      var changed := TransitionHold(id, Applying, if failed then Failed else Active);
      if !changed {
        Restore(was);
        return Failure(HoldOperationFenced);
      }
      return Success(true);
    }

    method CompleteRelease(id: Id, owner: Id, releaseFailed: bool, compensationFailed: bool)
      returns (result: Result<bool, Error>)
      modifies this
      ensures (Contents(), result) == CompleteReleaseOf(old(Contents()), id, owner, releaseFailed, compensationFailed)
    {
      var was := Record(state, ended, writeEpoch, completedEpoch, operation, holds);
      var completed := CompleteOperation(id, owner);
      if !completed { return Failure(HoldOperationFenced); }
      if releaseFailed {
        var changed := TransitionHold(id, Releasing, if compensationFailed then Failed else Active);
        if !changed {
          Restore(was);
          return Failure(HoldOperationFenced);
        }
        return Success(true);
      }
      RemoveHold(id);
      assert id in was.holds && was.holds[id].Released? ==> was.holds[id := Released] == was.holds;
      return Success(true);
    }

    method BeginDelete() returns (result: Result<bool, Error>)
      modifies this
      ensures (Contents(), result) == BeginDeleteOf(old(Contents()))
    {
      if state.Deleting? || state.Deleted? { return Success(false); }
      if !ended { return Failure(ConsultationNotEnded); }
      if !state.Complete? && !state.Incomplete? { return Failure(InvalidArchiveState); }
      if exists h :: h in holds && !holds[h].Released? { return Failure(ArchiveHeld); }
      writeEpoch := writeEpoch + 1;
      state := Deleting;
      return Success(true);
    }

    method CompleteDeletion(epoch: nat, drained: bool, participants: nat) returns (result: Result<bool, Error>)
      modifies this
      ensures (Contents(), result) == CompleteDeletionOf(old(Contents()), epoch, drained, participants)
    {
      var was := Record(state, ended, writeEpoch, completedEpoch, operation, holds);
      if writeEpoch != epoch { return Failure(ArchiveFenced); }
      if !drained { return Success(false); }
      var cleared := 0;
      if state.Deleting? {
        state, completedEpoch := Deleted, Some(epoch);
        cleared := participants;
      }
      if cleared != 2 {
        Restore(was);
        return Failure(ArchiveFenced);
      }
      return Success(true);
    }

    method FailDeletion(epoch: nat)
      modifies this
      ensures Contents() == FailDeletionOf(old(Contents()), epoch)
    {
      if !state.Deleting? || writeEpoch != epoch { return; }
      state := Incomplete;
    }
  }

  // ----- runs -----

  datatype Action =
    | AddHold(id: Id, owner: Id, now: Time)
    | ReleaseHold(id: Id, owner: Id, now: Time)
    | ClaimStale(owner: Id, now: Time)
    | Renew(id: Id, owner: Id, now: Time)
    | CompleteAdd(id: Id, owner: Id, failed: bool)
    | CompleteRelease(id: Id, owner: Id, releaseFailed: bool, compensationFailed: bool)
    | BeginDelete
    | CompleteDeletion(epoch: nat, drained: bool, participants: nat)
    | FailDeletion(epoch: nat)
    | FinishElsewhere(epoch: nat)
    | StartRecording
    | Reconcile
    | Finalize(complete: bool)
    | EndConsultation

  /** A new archive. */
  function Start(): Record { Record(Pending, false, 0, None, None, map[]) }

  function Step(r: Record, a: Action): Record {
    match a
    case AddHold(id, owner, now) => AddHoldTo(r, id, owner, now).0
    case ReleaseHold(id, owner, now) => ReleaseHoldOf(r, id, owner, now).0
    case ClaimStale(owner, now) => ClaimStaleOf(r, owner, now).0
    case Renew(id, owner, now) => RenewOf(r, id, owner, now).0
    case CompleteAdd(id, owner, failed) => CompleteAddOf(r, id, owner, failed).0
    case CompleteRelease(id, owner, rf, cf) => CompleteReleaseOf(r, id, owner, rf, cf).0
    case BeginDelete => BeginDeleteOf(r).0
    case CompleteDeletion(epoch, drained, participants) => CompleteDeletionOf(r, epoch, drained, participants).0
    case FailDeletion(epoch) => FailDeletionOf(r, epoch)
    case FinishElsewhere(epoch) =>
      if r.state.Deleting? && r.writeEpoch == epoch && r.ended then r.(state := Deleted) else r
    case StartRecording => if r.state.Pending? then r.(state := Recording) else r
    case Reconcile => if r.state.Pending? || r.state.Recording? then r.(state := Reconciling) else r
    case Finalize(complete) =>
      if r.state.Reconciling? then r.(state := if complete then Complete else Incomplete) else r
    case EndConsultation => r.(ended := true)
  }

  function After(r: Record, run: seq<Action>): Record {
    if run == [] then r else Step(After(r, run[..|run| - 1]), run[|run| - 1])
  }

  // ----- the operation and the holds agree -----

  ghost predicate OperationMatches(r: Record) {
    r.operation.Some? ==>
      var op := r.operation.value;
      op.id in r.holds && r.holds[op.id] == if op.kind.Add? then Applying else Releasing
  }

  ghost predicate BusyMatches(r: Record) {
    forall h | r.Busy(h) :: r.operation.Some? && r.operation.value.id == h
  }

  ghost predicate DeletionMatches(r: Record) {
    r.state.Deleting? || r.state.Deleted? ==> r.NoneUnreleased()
  }

  ghost predicate Valid(r: Record) { OperationMatches(r) && BusyMatches(r) && DeletionMatches(r) }

  lemma ValidHasNoOperationInDeletion(r: Record)
    requires Valid(r) && (r.state.Deleting? || r.state.Deleted?)
    ensures r.operation.None?
  {
    if r.operation.Some? {
      assert r.Unreleased(r.operation.value.id);
    }
  }

  lemma StepKeepsValid(r: Record, a: Action)
    requires Valid(r)
    ensures Valid(Step(r, a))
  {
    if r.state.Deleting? || r.state.Deleted? { ValidHasNoOperationInDeletion(r); }
    var s := Step(r, a);
    assert OperationMatches(s);
    forall h | s.Busy(h) ensures s.operation.Some? && s.operation.value.id == h {
      assert r.Busy(h) ==> r.operation.Some? && r.operation.value.id == h;
    }
    assert DeletionMatches(s);
  }

  lemma {:induction false} ContinueKeepsValid(r: Record, run: seq<Action>)
    requires Valid(r)
    ensures Valid(After(r, run))
  {
    if run != [] {
      ContinueKeepsValid(r, run[..|run| - 1]);
      StepKeepsValid(After(r, run[..|run| - 1]), run[|run| - 1]);
    }
  }

  lemma RunKeepsValid(run: seq<Action>)
    ensures Valid(After(Start(), run))
  {
    ContinueKeepsValid(Start(), run);
  }

  /** In every run the operation is hold `h` exactly when `h` is applying or releasing, of the kind it is doing. */
  lemma OperationIsTheBusyHold(run: seq<Action>, h: Id)
    ensures var r := After(Start(), run);
      && (r.operation.Some? && r.operation.value.id == h <==> r.Busy(h))
      && (r.Busy(h) ==> (r.holds[h].Applying? <==> r.operation.value.kind.Add?))
  {
    RunKeepsValid(run);
  }

  /** In every run an archive being deleted, or deleted, has no unreleased hold and no operation. */
  lemma DeletionExcludesHolds(run: seq<Action>)
    ensures var r := After(Start(), run);
      r.state.Deleting? || r.state.Deleted? ==> r.NoneUnreleased() && r.operation.None?
  {
    RunKeepsValid(run);
    var r := After(Start(), run);
    if r.state.Deleting? || r.state.Deleted? { ValidHasNoOperationInDeletion(r); }
  }

  /** A stale operation can always be taken over, and the owner of an operation can always finish it. */
  lemma OwnerCanFinish(run: seq<Action>, owner: Id, now: Time, failed: bool, compensationFailed: bool)
    ensures var r := After(Start(), run);
      && ClaimStaleOf(r, owner, now).1.Success?
      && (r.operation.Some? ==>
            var op := r.operation.value;
            if op.kind.Add? then CompleteAddOf(r, op.id, op.owner, failed).1 == Success(true)
            else CompleteReleaseOf(r, op.id, op.owner, failed, compensationFailed).1 == Success(true))
  {
    RunKeepsValid(run);
  }

  // ----- owners -----

  predicate Introduces(a: Action, owner: Id) {
    match a
    case AddHold(_, o, _) => o == owner
    case ReleaseHold(_, o, _) => o == owner
    case ClaimStale(o, _) => o == owner
    case _ => false
  }

  predicate NotOwner(r: Record, owner: Id) { r.operation.None? || r.operation.value.owner != owner }

  lemma {:induction false} OwnerStaysOut(r: Record, run: seq<Action>, owner: Id)
    requires NotOwner(r, owner) && forall i | 0 <= i < |run| :: !Introduces(run[i], owner)
    ensures NotOwner(After(r, run), owner)
  {
    if run != [] {
      OwnerStaysOut(r, run[..|run| - 1], owner);
    }
  }

  /**
   Once a stale operation is claimed by another owner, the old owner can neither renew it nor complete it,
   whatever happens later, as long as its id is not used again.
  */
  lemma StaleOwnerIsFenced(before: seq<Action>, owner: Id, now: Time, later: seq<Action>, id: Id, at: Time, f: bool, g: bool)
    requires var r := After(Start(), before);
      && r.operation.Some? && r.operation.value.leaseExpiresAt <= now && r.operation.value.owner != owner
      && forall i | 0 <= i < |later| :: !Introduces(later[i], r.operation.value.owner)
    ensures var stale := After(Start(), before).operation.value.owner;
      var s := After(Step(After(Start(), before), ClaimStale(owner, now)), later);
      && RenewOf(s, id, stale, at) == (s, Failure(HoldOperationFenced))
      && CompleteAddOf(s, id, stale, f) == (s, Failure(HoldOperationFenced))
      && CompleteReleaseOf(s, id, stale, f, g) == (s, Failure(HoldOperationFenced))
  {
    RunKeepsValid(before);
    var r := After(Start(), before);
    OwnerStaysOut(Step(r, ClaimStale(owner, now)), later, r.operation.value.owner);
  }

  // ----- each operation completes at most once -----

  datatype Event = Began(id: Id) | Completed(id: Id)

  function EventsOf(r: Record, a: Action): seq<Event> {
    match a
    case AddHold(id, owner, now) => if AddHoldTo(r, id, owner, now).1.Success? then [Began(id)] else []
    case ReleaseHold(id, owner, now) =>
      (match ReleaseHoldOf(r, id, owner, now).1
       case Failure(_) => []
       case Success(atOnce) => if atOnce then [Began(id), Completed(id)] else [Began(id)])
    case CompleteAdd(id, owner, f) => if CompleteAddOf(r, id, owner, f).1.Success? then [Completed(id)] else []
    case CompleteRelease(id, owner, f, g) =>
      if CompleteReleaseOf(r, id, owner, f, g).1.Success? then [Completed(id)] else []
    case _ => []
  }

  function Log(run: seq<Action>): seq<Event> {
    if run == [] then []
    else Log(run[..|run| - 1]) + EventsOf(After(Start(), run[..|run| - 1]), run[|run| - 1])
  }

  /** Beginnings and completions take turns, each completion ending the operation begun just before it. */
  ghost predicate TakesTurns(log: seq<Event>) {
    forall i | 0 <= i < |log| :: TurnAt(log, i)
  }

  predicate TurnAt(log: seq<Event>, i: nat)
    requires i < |log|
  {
    if i % 2 == 0 then log[i].Began? else log[i] == Completed(log[i - 1].id)
  }

  ghost predicate LogMatches(log: seq<Event>, r: Record) {
    if r.operation.Some? then |log| % 2 == 1 && log[|log| - 1] == Began(r.operation.value.id)
    else |log| % 2 == 0
  }

  /** What a step logs, by whether an operation is open before and after it. */
  ghost predicate EventsFit(r: Record, events: seq<Event>, s: Record) {
    || (events == [] && r.operation.Some? == s.operation.Some?
        && (r.operation.Some? ==> r.operation.value.id == s.operation.value.id))
    || (r.operation.None? && s.operation.Some? && events == [Began(s.operation.value.id)])
    || (r.operation.Some? && s.operation.None? && events == [Completed(r.operation.value.id)])
    || (r.operation.None? && s.operation.None? && |events| == 2 && events[0].Began?
        && events == [events[0], Completed(events[0].id)])
  }

  lemma StepFits(r: Record, a: Action)
    ensures EventsFit(r, EventsOf(r, a), Step(r, a))
  {
  }

  lemma LogExtends(log: seq<Event>, r: Record, events: seq<Event>, s: Record)
    requires TakesTurns(log) && LogMatches(log, r) && EventsFit(r, events, s)
    ensures TakesTurns(log + events) && LogMatches(log + events, s)
  {
    var all := log + events;
    forall i | 0 <= i < |all| ensures TurnAt(all, i) {
      if i < |log| {
        assert TurnAt(log, i) && all[i] == log[i] && (i > 0 ==> all[i - 1] == log[i - 1]);
      } else {
        assert all[i] == events[i - |log|] && (i > |log| ==> all[i - 1] == events[0]);
      }
    }
  }

  lemma {:induction false} EachOperationCompletesOnce(run: seq<Action>)
    ensures TakesTurns(Log(run)) && LogMatches(Log(run), After(Start(), run))
  {
    if run != [] {
      var before, a := run[..|run| - 1], run[|run| - 1];
      var r := After(Start(), before);
      EachOperationCompletesOnce(before);
      StepFits(r, a);
      LogExtends(Log(before), r, EventsOf(r, a), Step(r, a));
    }
  }

  // ----- what stays -----

  ghost predicate Stays(r: Record, s: Record) {
    && (forall h | h in r.holds && r.holds[h].Released? :: h in s.holds && s.holds[h].Released?)
    && (r.state.Deleted? ==> s.state.Deleted? && s.completedEpoch == r.completedEpoch)
    && r.writeEpoch <= s.writeEpoch
  }

  lemma StepStays(r: Record, a: Action)
    requires Valid(r)
    ensures Stays(r, Step(r, a))
  {
  }

  /** A released hold stays released, a deleted archive stays deleted, and the write epoch never falls. */
  lemma {:induction false} FinalStatesStay(r: Record, run: seq<Action>)
    requires Valid(r)
    ensures Stays(r, After(r, run))
  {
    if run != [] {
      FinalStatesStay(r, run[..|run| - 1]);
      ContinueKeepsValid(r, run[..|run| - 1]);
      StepStays(After(r, run[..|run| - 1]), run[|run| - 1]);
    }
  }
}
