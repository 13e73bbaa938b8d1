/**
 Consent and join: the consultation aggregate and its transitions, and the service that applies them.
 Joining checks the provider snapshot outside the transaction and compares its hash again inside.
*/
module Consultations {
  import opened Lifecycle
  import opened Wrappers

  type Selection = nat

  datatype Role = Employee | Customer

  datatype Consent = Consent(copyHash: string, snapshotHash: string, consentedAt: Time)

  datatype Slot = Slot(
    id: Id, role: Role, userId: Id, displayName: Option<string>, language: Option<string>, consent: Option<Consent>,
    publicationGranted: bool, egressId: Option<Id>)

  datatype Consultation = Consultation(
    id: Id, state: ConsultationState, archiveState: ArchiveState, first: Slot, second: Slot,
    selection: Option<Selection>, snapshotHash: Option<string>, generation: nat, roomName: Option<string>,
    workerIdentity: Option<Id>, readyDeadlineAt: Option<Time>, finalizeDeadlineAt: Option<Time>,
    admissionFencedAt: Option<Time>, updatedAt: Time)

  datatype Error =
    | NotFound
    | Forbidden
    | PreferencesLocked
    | InvalidPreferences
    | InvalidState
    | InvalidSnapshot
    | WaitingForPreferences
    | ConsentRequired
    | SnapshotChanged
    | SnapshotStale

  // ----- the aggregate -----

  predicate Space(c: char) { c == ' ' || '\t' <= c <= '\r' || c as int == 0xA0 || c as int == 0xFEFF }

  function TrimStart(s: string): string { if s != "" && Space(s[0]) then TrimStart(s[1..]) else s }

  function TrimEnd(s: string): string { if s != "" && Space(s[|s| - 1]) then TrimEnd(s[..|s| - 1]) else s }

  function Trim(s: string): string { TrimEnd(TrimStart(s)) }

  predicate HasParticipant(v: Consultation, participantId: Id) {
    v.first.id == participantId || v.second.id == participantId
  }

  function SlotForUser(v: Consultation, userId: Id): Result<Slot, Error> {
    if v.first.userId == userId then Success(v.first)
    else if v.second.userId == userId then Success(v.second)
    else Failure(NotFound)
  }

  function WithoutConsent(s: Slot): Slot { s.(consent := None) }

  function WithPreferences(v: Consultation, participantId: Id, displayName: string, language: string, now: Time)
    : Result<Consultation, Error>
  {
    var cleanName := Trim(displayName);
    if !v.state.Invited? then Failure(PreferencesLocked)
    else if cleanName == "" || |cleanName| > 120 || Trim(language) == "" then Failure(InvalidPreferences)
    else if !HasParticipant(v, participantId) then Failure(Forbidden)
    else
      var update := (s: Slot) =>
        if s.id == participantId then s.(displayName := Some(cleanName), language := Some(language), consent := None)
        else s.(consent := None);
      Success(v.(first := update(v.first), second := update(v.second), selection := None, snapshotHash := None,
                 updatedAt := now))
  }

  function WithProviderSelection(v: Consultation, selection: Selection, hash: string, now: Time)
    : Result<Consultation, Error>
  {
    if !v.state.Invited? then Failure(InvalidState)
    else if v.first.language.None? || v.second.language.None? then Failure(WaitingForPreferences)
    else if hash == "" then Failure(InvalidSnapshot)
    else
      Success(v.(selection := Some(selection), snapshotHash := Some(hash),
                 first := WithoutConsent(v.first), second := WithoutConsent(v.second), updatedAt := now))
  }

  function WithConsent(v: Consultation, participantId: Id, hash: string, copyHash: string, now: Time)
    : Result<Consultation, Error>
  {
    if !v.state.Invited? then Failure(InvalidState)
    else if v.snapshotHash.None? || v.snapshotHash.value == "" || v.snapshotHash.value != hash then
      Failure(SnapshotChanged)
    else if !HasParticipant(v, participantId) then Failure(Forbidden)
    else
      var update := (s: Slot) =>
        if s.id == participantId then s.(consent := Some(Consent(copyHash, hash, now))) else s;
      Success(v.(first := update(v.first), second := update(v.second), updatedAt := now))
  }

  /** Success when eligible, otherwise why not. */
  function JoinEligibility(v: Consultation): Result<bool, Error> {
    if v.first.language.None? || v.second.language.None? then Failure(WaitingForPreferences)
    else if v.snapshotHash.None? || v.snapshotHash.value == "" || v.selection.None? then Failure(WaitingForPreferences)
    else if v.first.consent.None? || v.second.consent.None? then Failure(ConsentRequired)
    else if v.first.consent.value.snapshotHash != v.snapshotHash.value
         || v.second.consent.value.snapshotHash != v.snapshotHash.value then Failure(SnapshotChanged)
    else Success(true)
  }

  function BeginProvisioning(v: Consultation, roomName: string, now: Time): Result<Consultation, Error> {
    if v.state.Ready? || v.state.Live? then Success(v)
    else if !v.state.Invited? then Failure(InvalidState)
    else match JoinEligibility(v)
      case Failure(error) => Failure(error)
      case Success(_) =>
        Success(v.(state := Ready, generation := v.generation + 1, roomName := Some(roomName),
                   readyDeadlineAt := Some(now + 300_000), updatedAt := now))
  }

  function GrantCapture(v: Consultation, participantId: Id, egressId: Id, now: Time): Result<Consultation, Error> {
    if !v.state.Ready? && !v.state.Live? then Failure(InvalidState)
    else if !HasParticipant(v, participantId) then Failure(Forbidden)
    else
      var update := (s: Slot) =>
        if s.id == participantId then s.(egressId := Some(egressId), publicationGranted := true) else s;
      Success(v.(first := update(v.first), second := update(v.second), state := Live, updatedAt := now))
  }

  function Reconciled(s: ArchiveState): ArchiveState { if s.Pending? || s.Recording? then Reconciling else s }

  function BeginFinalization(v: Consultation, now: Time): Result<Consultation, Error> {
    if v.state.Finalizing? || v.state.Ended? then Success(v)
    else if !v.state.Live? then Failure(InvalidState)
    else
      Success(v.(state := Finalizing, archiveState := Reconciled(v.archiveState),
                 finalizeDeadlineAt := Some(now + 900_000), updatedAt := now))
  }

  function BeginFencedRoomFinalization(v: Consultation, now: Time): Result<Consultation, Error> {
    if !v.state.Live? then Failure(InvalidState)
    else
      Success(v.(state := Finalizing, archiveState := Reconciling, generation := v.generation + 1,
                 finalizeDeadlineAt := Some(now + 900_000), updatedAt := now))
  }

  function CancelBeforeStart(v: Consultation, now: Time): Result<Consultation, Error> {
    if v.state.Cancelled? then Success(v)
    else if !v.state.Invited? && !v.state.Ready? then Failure(InvalidState)
    else
      Success(v.(state := Cancelled, generation := v.generation + 1,
                 admissionFencedAt := if v.admissionFencedAt.None? then Some(now) else v.admissionFencedAt,
                 updatedAt := now))
  }

  function FinishConsultation(v: Consultation, now: Time): Result<Consultation, Error> {
    if v.state.Ended? then Success(v)
    else if !v.state.Finalizing? then Failure(InvalidState)
    else Success(v.(state := Ended, updatedAt := now))
  }

  // ----- what holds of every consultation -----

  predicate ConsentedTo(s: Slot, hash: string) { s.consent.Some? && s.consent.value.snapshotHash == hash }

  predicate Agreed(v: Consultation) {
    && v.selection.Some? && v.snapshotHash.Some? && v.snapshotHash.value != ""
    && ConsentedTo(v.first, v.snapshotHash.value) && ConsentedTo(v.second, v.snapshotHash.value)
  }

  predicate Started(v: Consultation) { v.state.Ready? || v.state.Live? || v.state.Finalizing? || v.state.Ended? }

  predicate ConsentsCurrent(v: Consultation) {
    && (v.first.consent.Some? ==> v.snapshotHash == Some(v.first.consent.value.snapshotHash))
    && (v.second.consent.Some? ==> v.snapshotHash == Some(v.second.consent.value.snapshotHash))
    && (v.snapshotHash.Some? ==> v.snapshotHash.value != "" && v.selection.Some?)
    && (Started(v) ==> Agreed(v))
  }

  /** A consultation may be joined just when both languages are known and both sides agreed to the snapshot. */
  lemma EligibleIffAgreed(v: Consultation)
    ensures JoinEligibility(v).Success? <==> v.first.language.Some? && v.second.language.Some? && Agreed(v)
  {
  }

  /** Every transition of the aggregate keeps consents current. */
  lemma TransitionsKeepConsents(v: Consultation, p: Id, name: string, language: string, selection: Selection,
                                hash: string, now: Time, egressId: Id)
    requires ConsentsCurrent(v)
    ensures forall w | Success(w) == WithPreferences(v, p, name, language, now) :: ConsentsCurrent(w)
    ensures forall w | Success(w) == WithProviderSelection(v, selection, hash, now) :: ConsentsCurrent(w)
    ensures forall w | Success(w) == WithConsent(v, p, hash, name, now) :: ConsentsCurrent(w)
    ensures forall w | Success(w) == BeginProvisioning(v, name, now) :: ConsentsCurrent(w)
    ensures forall w | Success(w) == GrantCapture(v, p, egressId, now) :: ConsentsCurrent(w)
    ensures forall w | Success(w) == BeginFinalization(v, now) :: ConsentsCurrent(w)
    ensures forall w | Success(w) == BeginFencedRoomFinalization(v, now) :: ConsentsCurrent(w)
    ensures forall w | Success(w) == CancelBeforeStart(v, now) :: ConsentsCurrent(w)
    ensures forall w | Success(w) == FinishConsultation(v, now) :: ConsentsCurrent(w)
  {
    EligibleIffAgreed(v);
  }

  // ----- the service -----

  /** `ProvisioningRequested` also notes the selection and snapshot the consultation had then. */
  datatype Message =
    | ProvisioningRequested(generation: nat, selection: Selection, snapshot: string)
    | FinalizationRequested(generation: nat, shutdownAt: Time)
    | ConsultationCancelled(generation: nat, resourceGeneration: nat)

  /** `resolved` is the selection and hash the snapshot port answers, or its error. */
  function SetPreferencesIn(
    v: Consultation, userId: Id, displayName: string, language: string,
    resolved: Result<(Selection, string), Error>, now: Time): Result<Consultation, Error>
  {
    var slot :- SlotForUser(v, userId);
    var next :- WithPreferences(v, slot.id, displayName, language, now);
    if next.first.language.None? || next.second.language.None? then Success(next)
    else
      var answer :- resolved;
      WithProviderSelection(next, answer.0, answer.1, now)
  }

  function ConsentIn(v: Consultation, userId: Id, hash: string, copyHash: string, now: Time): Result<Consultation, Error> {
    var slot :- SlotForUser(v, userId);
    WithConsent(v, slot.id, hash, copyHash, now)
  }

  /** The part of `join` before the transaction; success is the snapshot hash it saw. */
  function PreflightOf(v: Consultation, userId: Id, healthy: bool): Result<Option<string>, Error> {
    var _ :- SlotForUser(v, userId);
    if v.state.Ready? || v.state.Live? then Success(v.snapshotHash)
    else if v.selection.None? || v.snapshotHash.None? || v.snapshotHash.value == "" then Failure(WaitingForPreferences)
    else if !healthy then Failure(SnapshotStale)
    else Success(v.snapshotHash)
  }

  /** The transaction of `join`: success carries the next value and whether it was newly planned. */
  function CommitJoinIn(v: Consultation, seen: Option<string>, roomName: string, workerId: Id, now: Time)
    : Result<(Consultation, bool), Error>
  {
    if v.state.Ready? || v.state.Live? then Success((v, false))
    else
      var _ :- JoinEligibility(v);
      if v.snapshotHash != seen then Failure(SnapshotChanged)
      else
        var next :- BeginProvisioning(v, roomName, now);
        Success((next.(workerIdentity := if v.workerIdentity.None? then Some(workerId) else v.workerIdentity), true))
  }

  function EndIn(v: Consultation, userId: Id, now: Time): Result<Consultation, Error> {
    var slot :- SlotForUser(v, userId);
    if !slot.role.Employee? then Failure(Forbidden) else BeginFinalization(v, now)
  }

  function CancelIn(v: Consultation, userId: Id, now: Time): Result<Consultation, Error> {
    var slot :- SlotForUser(v, userId);
    if !slot.role.Employee? then Failure(Forbidden) else CancelBeforeStart(v, now)
  }

  // ----- runs: any number of joins between their check and their transaction -----

  /** The worker epoch of a consultation, with the generation it was reserved for. */
  datatype WorkerEpoch = NoEpoch | OpenEpoch(generation: nat) | ClosedEpoch(generation: nat)

  datatype World = World(
    value: Consultation, outbox: seq<Message>, checked: set<Selection>, joins: map<Id, Option<string>>,
    worker: WorkerEpoch)

  datatype Action =
    | SetPreferences(userId: Id, displayName: string, language: string, resolved: Result<(Selection, string), Error>, now: Time)
    | GiveConsent(userId: Id, hash: string, copyHash: string, now: Time)
    | Preflight(join: Id, userId: Id, healthy: bool)
    | CommitJoin(join: Id, roomName: string, workerId: Id, now: Time)
    | End(userId: Id, now: Time)
    | Cancel(userId: Id, now: Time)
    | Grant(participantId: Id, egressId: Id, now: Time)
    | ReserveWorker
    | CloseWorker
    | FailWorker(now: Time)
    | AdmitFinalization(now: Time)
    | FenceRoom(now: Time)
    | FinishDrain(now: Time)
    | ForceFinish(now: Time)
    | Erase(now: Time)

  function Save(w: World, next: Result<Consultation, Error>): World {
    if next.Success? then w.(value := next.value) else w
  }

  /** The control worker's move to finalizing keeps a deadline that is already there. */
  function Finalized(v: Consultation, now: Time): Consultation {
    v.(state := Finalizing, archiveState := Reconciled(v.archiveState),
       finalizeDeadlineAt := if v.finalizeDeadlineAt.None? then Some(now + 900_000) else v.finalizeDeadlineAt,
       updatedAt := now)
  }

  /** `CloseWorker` is a clean completion or a supervisor's settlement, `FailWorker` a failure or an abandonment. */
  function Step(w: World, a: Action): World {
    match a
    case SetPreferences(userId, displayName, language, resolved, now) =>
      Save(w, SetPreferencesIn(w.value, userId, displayName, language, resolved, now))
    case GiveConsent(userId, hash, copyHash, now) => Save(w, ConsentIn(w.value, userId, hash, copyHash, now))
    case Preflight(join, userId, healthy) =>
      (match PreflightOf(w.value, userId, healthy)
       case Failure(_) => w
       case Success(seen) =>
         w.(joins := w.joins[join := seen],
            checked := if healthy && w.value.selection.Some? && !w.value.state.Ready? && !w.value.state.Live?
              then w.checked + {w.value.selection.value} else w.checked))
    case CommitJoin(join, roomName, workerId, now) =>
      if join !in w.joins then w
      else
        (match CommitJoinIn(w.value, w.joins[join], roomName, workerId, now)
         case Failure(_) => w
         case Success((next, planned)) =>
           if !planned then w
           else
             w.(value := next,
                outbox := w.outbox + [ProvisioningRequested(next.generation, next.selection.value, next.snapshotHash.value)]))
    case End(userId, now) =>
      (match EndIn(w.value, userId, now)
       case Failure(_) => w
       case Success(next) =>
         if w.value.state.Finalizing? || w.value.state.Ended? then w
         else w.(value := next, outbox := w.outbox + [FinalizationRequested(next.generation, now + 5_000)]))
    case Cancel(userId, now) =>
      (match CancelIn(w.value, userId, now)
       case Failure(_) => w
       case Success(next) =>
         if w.value.state.Cancelled? then w
         else w.(value := next, outbox := w.outbox + [ConsultationCancelled(next.generation, w.value.generation)]))
    case Grant(participantId, egressId, now) => Save(w, GrantCapture(w.value, participantId, egressId, now))
    case ReserveWorker =>
      if w.value.state.Ready? && w.worker.NoEpoch? then w.(worker := OpenEpoch(w.value.generation)) else w
    case CloseWorker => if w.worker.OpenEpoch? then w.(worker := ClosedEpoch(w.worker.generation)) else w
    case FailWorker(now) =>
      if w.worker == OpenEpoch(w.value.generation) && !w.value.state.Erased?
      then w.(value := Finalized(w.value, now).(generation := w.value.generation + 1),
              worker := ClosedEpoch(w.value.generation))
      else w
    case AdmitFinalization(now) =>
      if w.value.state.Ready? || w.value.state.Live? then w.(value := Finalized(w.value, now)) else w
    case FenceRoom(now) => Save(w, BeginFencedRoomFinalization(w.value, now))
    case FinishDrain(now) =>
      // ROOM_DELETE is claimed only when the worker epoch is closed, or was never reserved.
      if w.value.state.Finalizing? && !w.worker.OpenEpoch?
      then w.(value := w.value.(state := Ended, archiveState := Reconciled(w.value.archiveState), updatedAt := now))
      else w
    case ForceFinish(now) =>
      if w.value.state.Finalizing? && w.value.finalizeDeadlineAt.Some? && w.value.finalizeDeadlineAt.value <= now
      then Save(w, FinishConsultation(w.value, now)) else w
    case Erase(now) =>
      if !w.value.state.Ended? then w
      else
        var v := w.value.(state := Erased, selection := None, snapshotHash := None, roomName := None,
                          workerIdentity := None, updatedAt := now);
        w.(value := v.(first := v.first.(displayName := None, language := None, consent := None),
                       second := v.second.(displayName := None, language := None, consent := None)))
  }

  function After(w: World, run: seq<Action>): World {
    if run == [] then w else Step(After(w, run[..|run| - 1]), run[|run| - 1])
  }

  function NewSlot(id: Id, role: Role, userId: Id): Slot { Slot(id, role, userId, None, None, None, false, None) }

  /** What `create` stores. */
  function Created(id: Id, employee: Slot, customer: Slot, now: Time): World {
    World(Consultation(id, Invited, Pending, NewSlot(employee.id, Employee, employee.userId),
                       NewSlot(customer.id, Customer, customer.userId), None, None, 0, None, None, None, None, None, now),
          [], {}, map[], NoEpoch)
  }

  // ----- consents in every run -----

  /** The one worker epoch is of the generation in which the consultation was ready. */
  predicate WorkerCurrent(w: World) {
    && (w.value.state.Invited? ==> w.worker.NoEpoch?)
    && (!w.worker.NoEpoch? ==> w.worker.generation <= w.value.generation)
    && (!w.worker.NoEpoch? && w.value.state.Ready? ==> w.worker.generation == w.value.generation)
    && (w.worker == OpenEpoch(w.value.generation) ==> Started(w.value) || w.value.state.Erased?)
  }

  ghost predicate Sound(w: World) { ConsentsCurrent(w.value) && WorkerCurrent(w) }

  lemma EditKeepsSound(w: World, a: Action)
    requires Sound(w) && (a.SetPreferences? || a.GiveConsent?)
    ensures Sound(Step(w, a))
  {
  }

  lemma JoinKeepsSound(w: World, a: Action)
    requires Sound(w) && (a.Preflight? || a.CommitJoin?)
    ensures Sound(Step(w, a))
  {
    EligibleIffAgreed(w.value);
  }

  lemma CallKeepsSound(w: World, a: Action)
    requires Sound(w) && (a.End? || a.Cancel? || a.Grant?)
    ensures Sound(Step(w, a))
  {
  }

  lemma MoveKeepsSound(w: World, a: Action)
    requires Sound(w)
    requires a.ReserveWorker? || a.CloseWorker? || a.FailWorker? || a.AdmitFinalization? || a.FenceRoom?
      || a.FinishDrain? || a.ForceFinish? || a.Erase?
    ensures Sound(Step(w, a))
  {
  }

  lemma StepKeepsSound(w: World, a: Action)
    requires Sound(w)
    ensures Sound(Step(w, a))
  {
    match a
    case SetPreferences(_, _, _, _, _) => EditKeepsSound(w, a);
    case GiveConsent(_, _, _, _) => EditKeepsSound(w, a);
    case Preflight(_, _, _) => JoinKeepsSound(w, a);
    case CommitJoin(_, _, _, _) => JoinKeepsSound(w, a);
    case End(_, _) => CallKeepsSound(w, a);
    case Cancel(_, _) => CallKeepsSound(w, a);
    case Grant(_, _, _) => CallKeepsSound(w, a);
    case _ => MoveKeepsSound(w, a);
  }

  /**
   In every run each recorded consent names the current snapshot, and a ready, active, finalizing or ended
   consultation has the consent of both sides to that one snapshot.
  */
  lemma {:induction false} ConsentsInEveryRun(id: Id, employee: Slot, customer: Slot, now: Time, run: seq<Action>)
    ensures Sound(After(Created(id, employee, customer, now), run))
  {
    if run != [] {
      ConsentsInEveryRun(id, employee, customer, now, run[..|run| - 1]);
      StepKeepsSound(After(Created(id, employee, customer, now), run[..|run| - 1]), run[|run| - 1]);
    }
  }

  predicate Granted(v: Consultation) { v.first.publicationGranted || v.second.publicationGranted }

  predicate GrantHasEgress(s: Slot) { s.publicationGranted ==> s.egressId.Some? }

  /** Publication is granted only with a capture, and only after the start; until erasure both consents stand. */
  ghost predicate GrantsConsented(v: Consultation) {
    && GrantHasEgress(v.first) && GrantHasEgress(v.second)
    && (Granted(v) ==> v.state.Live? || v.state.Finalizing? || v.state.Ended? || v.state.Erased?)
    && (Granted(v) && !v.state.Erased? ==> Agreed(v))
  }

  lemma StepKeepsGrants(w: World, a: Action)
    requires Sound(w) && GrantsConsented(w.value)
    ensures GrantsConsented(Step(w, a).value)
  {
    StepKeepsSound(w, a);
  }

  /** In every run nobody may publish without a capture and the consent of both sides. */
  lemma {:induction false} GrantsInEveryRun(id: Id, employee: Slot, customer: Slot, now: Time, run: seq<Action>)
    ensures GrantsConsented(After(Created(id, employee, customer, now), run).value)
  {
    if run != [] {
      GrantsInEveryRun(id, employee, customer, now, run[..|run| - 1]);
      ConsentsInEveryRun(id, employee, customer, now, run[..|run| - 1]);
      StepKeepsGrants(After(Created(id, employee, customer, now), run[..|run| - 1]), run[|run| - 1]);
    }
  }

  // ----- which way states move -----

  function Rank(s: ConsultationState): nat {
    match s
    case Invited => 0
    case Ready => 1
    case Live => 2
    case Finalizing => 3
    case Ended => 4
    case Cancelled => 5
    case Erased => 6
  }

  /** The failure of a worker epoch still open takes an ended consultation back to finalizing. */
  predicate Reopens(w: World, a: Action) {
    a.FailWorker? && w.value.state.Ended? && w.worker == OpenEpoch(w.value.generation)
  }

  /** A step moves the state forward if and only if it is not that one; the generation never falls. */
  lemma ForwardIffNotReopened(w: World, a: Action)
    requires Sound(w)
    ensures Rank(w.value.state) <= Rank(Step(w, a).value.state) <==> !Reopens(w, a)
    ensures w.value.generation <= Step(w, a).value.generation
  {
  }

  predicate Unforced(run: seq<Action>) { forall i | 0 <= i < |run| :: !run[i].ForceFinish? }

  /** A consultation that was not ended by force is ended only after its worker epoch is closed. */
  predicate DrainedWhenEnded(w: World) { w.value.state.Ended? ==> !w.worker.OpenEpoch? }

  lemma StepDrains(w: World, a: Action)
    requires Sound(w) && DrainedWhenEnded(w) && !a.ForceFinish?
    ensures DrainedWhenEnded(Step(w, a))
  {
  }

  /** Unless a consultation is ended by force, it only moves forward. */
  lemma {:induction false} ForwardUnlessForced(w: World, run: seq<Action>, i: nat)
    requires Sound(w) && DrainedWhenEnded(w) && Unforced(run) && i <= |run|
    ensures Sound(After(w, run)) && DrainedWhenEnded(After(w, run))
    ensures Rank(After(w, run[..i]).value.state) <= Rank(After(w, run).value.state)
  {
    if run != [] {
      var init, a := run[..|run| - 1], run[|run| - 1];
      ForwardUnlessForced(w, init, if i < |run| then i else |init|);
      StepKeepsSound(After(w, init), a);
      StepDrains(After(w, init), a);
      ForwardIffNotReopened(After(w, init), a);
      assert i < |run| ==> init[..i] == run[..i];
    }
    assert i == |run| ==> run[..i] == run;
  }

  /** A cancelled consultation stays cancelled, and an erased one erased. */
  lemma {:induction false} ClosedForGood(w: World, run: seq<Action>)
    requires Sound(w) && (w.value.state.Cancelled? || w.value.state.Erased?)
    ensures Sound(After(w, run)) && After(w, run).value.state == w.value.state
  {
    if run != [] {
      ClosedForGood(w, run[..|run| - 1]);
      var before, a := After(w, run[..|run| - 1]), run[|run| - 1];
      StepKeepsSound(before, a);
      ForwardIffNotReopened(before, a);
    }
  }

  // ----- provisioning in every run -----

  function ProvisioningCount(outbox: seq<Message>): nat {
    if outbox == [] then 0
    else
      ProvisioningCount(outbox[..|outbox| - 1]) + if outbox[|outbox| - 1].ProvisioningRequested? then 1 else 0
  }

  ghost predicate Injective(hashOf: Selection -> string) { forall s, t :: hashOf(s) == hashOf(t) ==> s == t }

  /** The snapshot port answers a selection with its hash. */
  ghost predicate Resolves(a: Action, hashOf: Selection -> string) {
    a.SetPreferences? && a.resolved.Success? ==> a.resolved.value.1 == hashOf(a.resolved.value.0)
  }

  ghost predicate HashNamesSelection(w: World, hashOf: Selection -> string) {
    w.value.selection.Some? ==> w.value.snapshotHash == Some(hashOf(w.value.selection.value))
  }

  /** Before the start, every join in flight saw the hash of a selection whose check passed. */
  ghost predicate JoinsChecked(w: World, hashOf: Selection -> string) {
    w.value.state.Invited? ==>
      forall j | j in w.joins :: exists s | s in w.checked :: w.joins[j] == Some(hashOf(s))
  }

  ghost predicate RequestsChecked(w: World, hashOf: Selection -> string) {
    forall m | m in w.outbox && m.ProvisioningRequested? ::
      && m.selection in w.checked && m.snapshot == hashOf(m.selection)
      && (w.value.state.Erased? || w.value.selection == Some(m.selection))
  }

  ghost predicate RequestedOnce(w: World) {
    ProvisioningCount(w.outbox) <= if w.value.state.Invited? then 0 else 1
  }

  ghost predicate Planned(w: World, hashOf: Selection -> string) {
    HashNamesSelection(w, hashOf) && JoinsChecked(w, hashOf) && RequestsChecked(w, hashOf) && RequestedOnce(w)
  }

  lemma CountPush(outbox: seq<Message>, m: Message)
    ensures ProvisioningCount(outbox + [m]) == ProvisioningCount(outbox) + if m.ProvisioningRequested? then 1 else 0
  {
    assert (outbox + [m])[..|outbox|] == outbox;
  }

  lemma {:induction false} NoneCounted(outbox: seq<Message>)
    requires ProvisioningCount(outbox) == 0
    ensures forall m | m in outbox :: !m.ProvisioningRequested?
  {
    if outbox != [] {
      NoneCounted(outbox[..|outbox| - 1]);
    }
  }

  lemma CommitJoinKeepsPlanned(w: World, join: Id, roomName: string, workerId: Id, now: Time, hashOf: Selection -> string)
    requires Planned(w, hashOf) && Injective(hashOf)
    ensures Planned(Step(w, CommitJoin(join, roomName, workerId, now)), hashOf)
  {
    var after := Step(w, CommitJoin(join, roomName, workerId, now));
    if after != w {
      assert w.value.state.Invited?;
      NoneCounted(w.outbox);
      var s :| s in w.checked && w.joins[join] == Some(hashOf(s));
      assert hashOf(w.value.selection.value) == hashOf(s);
      CountPush(w.outbox, after.outbox[|w.outbox|]);
    }
  }

  lemma PreflightKeepsPlanned(w: World, join: Id, userId: Id, healthy: bool, hashOf: Selection -> string)
    requires Planned(w, hashOf)
    ensures Planned(Step(w, Preflight(join, userId, healthy)), hashOf)
  {
    var after := Step(w, Preflight(join, userId, healthy));
    if after != w && w.value.state.Invited? {
      var s := w.value.selection.value;
      assert s in after.checked && after.joins[join] == Some(hashOf(s));
      forall j | j in after.joins && j != join ensures exists s | s in after.checked :: after.joins[j] == Some(hashOf(s)) {
        var t :| t in w.checked && w.joins[j] == Some(hashOf(t));
        assert t in after.checked;
      }
    }
  }

  lemma EditKeepsPlanned(w: World, a: Action, hashOf: Selection -> string)
    requires Planned(w, hashOf) && Resolves(a, hashOf) && (a.SetPreferences? || a.GiveConsent?)
    ensures Planned(Step(w, a), hashOf)
  {
    var after := Step(w, a);
    if after != w {
      assert w.value.state.Invited? && after.value.state.Invited?;
      NoneCounted(w.outbox);
    }
  }

  /** One message more that asks for no provisioning, after the start or the cancellation. */
  ghost predicate OnlySays(w: World, after: World, m: Message) {
    && !m.ProvisioningRequested? && after.outbox == w.outbox + [m] && after.checked == w.checked && after.joins == w.joins
    && after.value.selection == w.value.selection && after.value.snapshotHash == w.value.snapshotHash
    && !after.value.state.Invited? && !w.value.state.Erased?
  }

  lemma OtherMessageKeepsPlanned(w: World, after: World, m: Message, hashOf: Selection -> string)
    requires Planned(w, hashOf) && OnlySays(w, after, m)
    ensures Planned(after, hashOf)
  {
    CountPush(w.outbox, m);
    forall r | r in after.outbox && r.ProvisioningRequested? ensures r in w.outbox {
      assert r != m;
    }
  }

  lemma EndOnlySays(w: World, userId: Id, now: Time)
    ensures var after := Step(w, End(userId, now));
      after == w || OnlySays(w, after, FinalizationRequested(after.value.generation, now + 5_000))
  {
  }

  lemma CancelOnlySays(w: World, userId: Id, now: Time)
    ensures var after := Step(w, Cancel(userId, now));
      after == w || OnlySays(w, after, ConsultationCancelled(after.value.generation, w.value.generation))
  {
  }

  lemma EndKeepsPlanned(w: World, userId: Id, now: Time, hashOf: Selection -> string)
    requires Planned(w, hashOf)
    ensures Planned(Step(w, End(userId, now)), hashOf)
  {
    var after := Step(w, End(userId, now));
    EndOnlySays(w, userId, now);
    if after != w {
      OtherMessageKeepsPlanned(w, after, FinalizationRequested(after.value.generation, now + 5_000), hashOf);
    }
  }

  lemma CancelKeepsPlanned(w: World, userId: Id, now: Time, hashOf: Selection -> string)
    requires Planned(w, hashOf)
    ensures Planned(Step(w, Cancel(userId, now)), hashOf)
  {
    var after := Step(w, Cancel(userId, now));
    CancelOnlySays(w, userId, now);
    if after != w {
      OtherMessageKeepsPlanned(w, after, ConsultationCancelled(after.value.generation, w.value.generation), hashOf);
    }
  }

  lemma WorkerKeepsPlanned(w: World, a: Action, hashOf: Selection -> string)
    requires Planned(w, hashOf) && WorkerCurrent(w)
    requires a.ReserveWorker? || a.CloseWorker? || a.FailWorker?
    ensures Planned(Step(w, a), hashOf)
  {
  }

  lemma GrantKeepsPlanned(w: World, a: Action, hashOf: Selection -> string)
    requires Planned(w, hashOf) && (a.Grant? || a.Erase?)
    ensures Planned(Step(w, a), hashOf)
  {
  }

  lemma MoveKeepsPlanned(w: World, a: Action, hashOf: Selection -> string)
    requires Planned(w, hashOf)
    requires a.AdmitFinalization? || a.FenceRoom? || a.FinishDrain? || a.ForceFinish?
    ensures Planned(Step(w, a), hashOf)
  {
  }

  /**
   In every run at most one provisioning request is issued, and only for a selection whose freshness check passed,
   which stays the consultation's selection until it is erased.
  */
  lemma {:induction false} ProvisioningInEveryRun(
    id: Id, employee: Slot, customer: Slot, now: Time, run: seq<Action>, hashOf: Selection -> string)
    requires Injective(hashOf) && forall i | 0 <= i < |run| :: Resolves(run[i], hashOf)
    ensures Planned(After(Created(id, employee, customer, now), run), hashOf)
  {
    if run != [] {
      var before, a := run[..|run| - 1], run[|run| - 1];
      ProvisioningInEveryRun(id, employee, customer, now, before, hashOf);
      ConsentsInEveryRun(id, employee, customer, now, before);
      var w := After(Created(id, employee, customer, now), before);
      if a.CommitJoin? {
        CommitJoinKeepsPlanned(w, a.join, a.roomName, a.workerId, a.now, hashOf);
      } else if a.Preflight? {
        PreflightKeepsPlanned(w, a.join, a.userId, a.healthy, hashOf);
      } else if a.SetPreferences? || a.GiveConsent? {
        EditKeepsPlanned(w, a, hashOf);
      } else if a.End? {
        EndKeepsPlanned(w, a.userId, a.now, hashOf);
      } else if a.Cancel? {
        CancelKeepsPlanned(w, a.userId, a.now, hashOf);
      } else if a.ReserveWorker? || a.CloseWorker? || a.FailWorker? {
        WorkerKeepsPlanned(w, a, hashOf);
      } else if a.Grant? || a.Erase? {
        GrantKeepsPlanned(w, a, hashOf);
      } else {
        MoveKeepsPlanned(w, a, hashOf);
      }
    }
  }

  /** Changing preferences takes back both consents, so a join must wait for two new ones. */
  lemma PreferencesTakeConsentBack(v: Consultation, userId: Id, name: string, language: string,
                                   resolved: Result<(Selection, string), Error>, now: Time)
    requires SetPreferencesIn(v, userId, name, language, resolved, now).Success?
    ensures var w := SetPreferencesIn(v, userId, name, language, resolved, now).value;
      w.first.consent == None && w.second.consent == None && JoinEligibility(w).Failure?
  {
  }

  // ----- the row a transaction locks -----

  class ConsultationRow {
    var value: Consultation
    var outbox: seq<Message>

    constructor (value: Consultation)
      ensures this.value == value && outbox == []
    {
      this.value, outbox := value, [];
    }

    method SetPreferences(userId: Id, displayName: string, language: string,
                          resolved: Result<(Selection, string), Error>, now: Time) returns (result: Result<Consultation, Error>)
      modifies this`value
      ensures result == SetPreferencesIn(old(value), userId, displayName, language, resolved, now)
      ensures value == if result.Success? then result.value else old(value)
    {
      var slot :- SlotForUser(value, userId);
      var next :- WithPreferences(value, slot.id, displayName, language, now);
      if next.first.language.Some? && next.second.language.Some? {
        var answer :- resolved;
        next :- WithProviderSelection(next, answer.0, answer.1, now);
      }
      value := next;
      return Success(next);
    }

    method GiveConsent(userId: Id, hash: string, copyHash: string, now: Time) returns (result: Result<Consultation, Error>)
      modifies this`value
      ensures result == ConsentIn(old(value), userId, hash, copyHash, now)
      ensures value == if result.Success? then result.value else old(value)
    {
      var slot :- SlotForUser(value, userId);
      var next :- WithConsent(value, slot.id, hash, copyHash, now);
      value := next;
      return Success(next);
    }

    /** The transaction of `join`, with the hash its preflight saw. */
    method CommitJoin(seen: Option<string>, roomName: string, workerId: Id, now: Time)
      returns (result: Result<(Consultation, bool), Error>)
      modifies this
      ensures result == CommitJoinIn(old(value), seen, roomName, workerId, now)
      ensures result.Success? && result.value.1 ==>
        && value == result.value.0 && value.selection.Some? && value.snapshotHash.Some?
        && outbox == old(outbox) + [ProvisioningRequested(value.generation, value.selection.value, value.snapshotHash.value)]
      ensures result.Failure? || !result.value.1 ==> value == old(value) && outbox == old(outbox)
    {
      if value.state.Ready? || value.state.Live? { return Success((value, false)); }
      var _ :- JoinEligibility(value);
      if value.snapshotHash != seen { return Failure(SnapshotChanged); }
      var next :- BeginProvisioning(value, roomName, now);
      next := next.(workerIdentity := if value.workerIdentity.None? then Some(workerId) else value.workerIdentity);
      value := next;
      outbox := outbox + [ProvisioningRequested(next.generation, next.selection.value, next.snapshotHash.value)];
      return Success((next, true));
    }

    method End(userId: Id, now: Time) returns (result: Result<Consultation, Error>)
      modifies this
      ensures result == EndIn(old(value), userId, now)
      ensures value == if result.Success? then result.value else old(value)
      ensures outbox == old(outbox) +
        if result.Success? && old(value).state.Live? then [FinalizationRequested(value.generation, now + 5_000)] else []
    {
      var slot :- SlotForUser(value, userId);
      if !slot.role.Employee? { return Failure(Forbidden); }
      if value.state.Finalizing? || value.state.Ended? { return Success(value); }
      var next :- BeginFinalization(value, now);
      value := next;
      outbox := outbox + [FinalizationRequested(next.generation, now + 5_000)];
      return Success(next);
    }

    method Cancel(userId: Id, now: Time) returns (result: Result<Consultation, Error>)
      modifies this
      ensures result == CancelIn(old(value), userId, now)
      ensures value == if result.Success? then result.value else old(value)
      ensures outbox == old(outbox) +
        if result.Success? && !old(value).state.Cancelled?
        then [ConsultationCancelled(value.generation, old(value).generation)] else []
    {
      var slot :- SlotForUser(value, userId);
      if !slot.role.Employee? { return Failure(Forbidden); }
      if value.state.Cancelled? { return Success(value); }
      var next :- CancelBeforeStart(value, now);
      outbox := outbox + [ConsultationCancelled(next.generation, value.generation)];
      value := next;
      return Success(next);
    }
  }
}
