/**
 Who did what: each consent, preference and grant of a slot comes from a call of its own user or for its own
 participant, and each call changes what it is for and nothing else.
*/
module ConsultationOutcomes {
  import opened Lifecycle
  import opened Wrappers

  import opened Consultations

  // ----- one call -----

  /** The two slots, with the one of `userId` first. */
  predicate Mine(v: Consultation, userId: Id, mine: Slot, other: Slot) {
    || (mine == v.first && other == v.second && v.first.userId == userId)
    || (mine == v.second && other == v.first && v.second.userId == userId && v.first.userId != userId)
  }

  function SlotOf(v: Consultation, first: bool): Slot { if first then v.first else v.second }

  predicate IsFirst(v: Consultation, userId: Id) { v.first.userId == userId }

  predicate TakesPart(v: Consultation, userId: Id) { v.first.userId == userId || v.second.userId == userId }

  /**
   A consent is saved if and only if the consultation waits for its start and its snapshot is the one consented to.
   It is recorded for the caller's own side; the other side and everything else stay as they are.
  */
  lemma ConsentOutcome(v: Consultation, userId: Id, hash: string, copyHash: string, now: Time)
    requires v.first.id != v.second.id
    ensures ConsentIn(v, userId, hash, copyHash, now).Success? <==>
      TakesPart(v, userId) && v.state.Invited? && v.snapshotHash == Some(hash) && hash != ""
    ensures ConsentIn(v, userId, hash, copyHash, now).Success? ==>
      var w := ConsentIn(v, userId, hash, copyHash, now).value;
      var f := IsFirst(v, userId);
      && SlotOf(w, f) == SlotOf(v, f).(consent := Some(Consent(copyHash, hash, now)))
      && SlotOf(w, !f) == SlotOf(v, !f)
      && w == v.(first := w.first, second := w.second, updatedAt := now)
  {
  }

  predicate GoodName(name: string) { Trim(name) != "" && |Trim(name)| <= 120 }

  /**
   Preferences are saved if and only if the consultation waits for its start, name and language are given and, once
   both languages are known, the selection is resolved.  They are the caller's own; both consents are taken back.
  */
  lemma PreferencesOutcome(v: Consultation, userId: Id, name: string, language: string,
                           resolved: Result<(Selection, string), Error>, now: Time)
    requires v.first.id != v.second.id
    ensures var f := IsFirst(v, userId);
      SetPreferencesIn(v, userId, name, language, resolved, now).Success? <==>
        && TakesPart(v, userId) && v.state.Invited? && GoodName(name) && Trim(language) != ""
        && (SlotOf(v, !f).language.Some? ==> resolved.Success? && resolved.value.1 != "")
    ensures SetPreferencesIn(v, userId, name, language, resolved, now).Success? ==>
      var w := SetPreferencesIn(v, userId, name, language, resolved, now).value;
      var f := IsFirst(v, userId);
      && SlotOf(w, f) == SlotOf(v, f).(displayName := Some(Trim(name)), language := Some(language), consent := None)
      && SlotOf(w, !f) == SlotOf(v, !f).(consent := None)
      && w.selection == (if SlotOf(v, !f).language.Some? then Some(resolved.value.0) else None)
      && w.snapshotHash == (if SlotOf(v, !f).language.Some? then Some(resolved.value.1) else None)
      && w == v.(first := w.first, second := w.second, selection := w.selection, snapshotHash := w.snapshotHash,
                 updatedAt := now)
  {
  }

  /** Capture is granted to one participant of a started consultation; the other side stays as it is. */
  lemma GrantOutcome(v: Consultation, participantId: Id, egressId: Id, now: Time)
    requires v.first.id != v.second.id
    ensures GrantCapture(v, participantId, egressId, now).Success? <==>
      (v.state.Ready? || v.state.Live?) && (v.first.id == participantId || v.second.id == participantId)
    ensures GrantCapture(v, participantId, egressId, now).Success? ==>
      var w := GrantCapture(v, participantId, egressId, now).value;
      var f := v.first.id == participantId;
      && SlotOf(w, f) == SlotOf(v, f).(egressId := Some(egressId), publicationGranted := true)
      && SlotOf(w, !f) == SlotOf(v, !f)
      && w == v.(first := w.first, second := w.second, state := Live, updatedAt := now)
  {
  }

  /**
   A join is planned if and only if the consultation waits for its start, both languages are known, both sides agreed
   to its snapshot, and that is the snapshot its check saw.  A started consultation is joined without a change.
  */
  lemma JoinOutcome(v: Consultation, seen: Option<string>, roomName: string, workerId: Id, now: Time)
    ensures var result := CommitJoinIn(v, seen, roomName, workerId, now);
      && (result.Success? && result.value.1 <==>
            v.state.Invited? && v.first.language.Some? && v.second.language.Some? && Agreed(v) && seen == v.snapshotHash)
      && (result.Success? && !result.value.1 <==> v.state.Ready? || v.state.Live?)
      && (result.Success? && !result.value.1 ==> result.value.0 == v)
      && (result.Success? && result.value.1 ==>
            result.value.0 == v.(
              state := Ready, generation := v.generation + 1, roomName := Some(roomName),
              readyDeadlineAt := Some(now + 300_000), updatedAt := now,
              workerIdentity := Some(if v.workerIdentity.Some? then v.workerIdentity.value else workerId)))
  {
    EligibleIffAgreed(v);
  }

  /** The check before a join fails for strangers, without a snapshot, and when the providers are not healthy. */
  lemma PreflightOutcome(v: Consultation, userId: Id, healthy: bool)
    requires ConsentsCurrent(v)
    ensures PreflightOf(v, userId, healthy).Success? <==>
      TakesPart(v, userId) && (v.state.Ready? || v.state.Live? || (v.snapshotHash.Some? && healthy))
    ensures PreflightOf(v, userId, healthy).Success? ==> PreflightOf(v, userId, healthy).value == v.snapshotHash
  {
  }

  predicate Employs(v: Consultation, userId: Id) {
    if v.first.userId == userId then v.first.role.Employee? else v.second.userId == userId && v.second.role.Employee?
  }

  /** Only the employee ends a consultation, and only an active one changes: it is finalizing for fifteen minutes. */
  lemma EndOutcome(v: Consultation, userId: Id, now: Time)
    ensures EndIn(v, userId, now).Success? <==>
      Employs(v, userId) && (v.state.Live? || v.state.Finalizing? || v.state.Ended?)
    ensures EndIn(v, userId, now).Success? ==>
      EndIn(v, userId, now).value ==
        if !v.state.Live? then v
        else v.(state := Finalizing, finalizeDeadlineAt := Some(now + 900_000), updatedAt := now,
                archiveState := if v.archiveState.Pending? || v.archiveState.Recording? then Reconciling else v.archiveState)
  {
  }

  /** Only the employee cancels, before the start, and a first fence of admissions keeps its time. */
  lemma CancelOutcome(v: Consultation, userId: Id, now: Time)
    ensures CancelIn(v, userId, now).Success? <==>
      Employs(v, userId) && (v.state.Invited? || v.state.Ready? || v.state.Cancelled?)
    ensures CancelIn(v, userId, now).Success? ==>
      CancelIn(v, userId, now).value ==
        if v.state.Cancelled? then v
        else v.(state := Cancelled, generation := v.generation + 1, updatedAt := now,
                admissionFencedAt := Some(if v.admissionFencedAt.Some? then v.admissionFencedAt.value else now))
  {
  }

  /** Why preferences or a consent are refused; an error of the provider snapshot is passed on. */
  lemma EditRefusedBecause(v: Consultation, userId: Id, name: string, language: string,
                           resolved: Result<(Selection, string), Error>, hash: string, copyHash: string, now: Time)
    requires v.first.id != v.second.id
    ensures var r := SetPreferencesIn(v, userId, name, language, resolved, now);
      && (!TakesPart(v, userId) ==> r == Failure(NotFound))
      && (TakesPart(v, userId) && !v.state.Invited? ==> r == Failure(PreferencesLocked))
      && (TakesPart(v, userId) && v.state.Invited? && !(GoodName(name) && Trim(language) != "") ==>
            r == Failure(InvalidPreferences))
      && (TakesPart(v, userId) && v.state.Invited? && GoodName(name) && Trim(language) != "" && r.Failure? ==>
            r == Failure(if resolved.Failure? then resolved.error else InvalidSnapshot))
    ensures var r := ConsentIn(v, userId, hash, copyHash, now);
      && (r == Failure(NotFound) <==> !TakesPart(v, userId))
      && (r == Failure(InvalidState) <==> TakesPart(v, userId) && !v.state.Invited?)
      && (r.Failure? ==> r.error.NotFound? || r.error.InvalidState? || r.error.SnapshotChanged?)
  {
  }

  /** Both know their languages and a snapshot has been taken for them. */
  predicate Chosen(v: Consultation) {
    v.first.language.Some? && v.second.language.Some? && v.selection.Some? && v.snapshotHash.Some?
  }

  predicate BothConsented(v: Consultation) { v.first.consent.Some? && v.second.consent.Some? }

  /** Why a join is refused, in every run: something is missing, the snapshot moved on, or the consultation is over. */
  lemma JoinRefusedBecause(id: Id, employee: Slot, customer: Slot, start: Time, run: seq<Action>,
                           seen: Option<string>, roomName: string, workerId: Id, now: Time)
    ensures var v := After(Created(id, employee, customer, start), run).value;
      var r := CommitJoinIn(v, seen, roomName, workerId, now);
      !v.state.Ready? && !v.state.Live? ==>
        && (r == Failure(WaitingForPreferences) <==> !Chosen(v))
        && (r == Failure(ConsentRequired) <==> Chosen(v) && !BothConsented(v))
        && (r == Failure(SnapshotChanged) <==> Chosen(v) && BothConsented(v) && seen != v.snapshotHash)
        && (r == Failure(InvalidState) <==>
              Chosen(v) && BothConsented(v) && seen == v.snapshotHash && !v.state.Invited?)
  {
    ConsentsInEveryRun(id, employee, customer, start, run);
  }

  /** Why the check before a join, an end or a cancellation is refused. */
  lemma CallRefusedBecause(v: Consultation, userId: Id, healthy: bool, now: Time)
    requires ConsentsCurrent(v)
    ensures var r := PreflightOf(v, userId, healthy);
      && (r == Failure(NotFound) <==> !TakesPart(v, userId))
      && (r == Failure(SnapshotStale) <==>
            TakesPart(v, userId) && !v.state.Ready? && !v.state.Live? && v.snapshotHash.Some? && !healthy)
      && (r.Failure? ==> r.error.NotFound? || r.error.SnapshotStale? || r.error.WaitingForPreferences?)
    ensures var e, c := EndIn(v, userId, now), CancelIn(v, userId, now);
      && (!TakesPart(v, userId) ==> e == Failure(NotFound) && c == Failure(NotFound))
      && (TakesPart(v, userId) && !Employs(v, userId) ==> e == Failure(Forbidden) && c == Failure(Forbidden))
      && (Employs(v, userId) && e.Failure? ==> e == Failure(InvalidState))
      && (Employs(v, userId) && c.Failure? ==> c == Failure(InvalidState))
  {
  }

  // ----- what the workers do -----

  /** Reconciliation begins where recording had not finished. */
  function ReconcilingFrom(s: ArchiveState): ArchiveState {
    match s
    case Pending => Reconciling
    case Recording => Reconciling
    case _ => s
  }

  /** The move to finalizing, fifteen minutes long unless a deadline was set before. */
  predicate Finalizes(v: Consultation, w: Consultation, generation: nat, now: Time) {
    w == v.(state := Finalizing, archiveState := ReconcilingFrom(v.archiveState), generation := generation,
            updatedAt := now,
            finalizeDeadlineAt := Some(match v.finalizeDeadlineAt case None => now + 900_000 case Some(at) => at))
  }

  /** The worker epoch of a ready consultation is reserved once, for its generation, and closed once. */
  lemma WorkerOutcome(w: World)
    ensures var after := Step(w, ReserveWorker);
      && after == w.(worker := after.worker)
      && (w.value.state.Ready? && w.worker.NoEpoch? ==> after.worker == OpenEpoch(w.value.generation))
      && (!(w.value.state.Ready? && w.worker.NoEpoch?) ==> after == w)
    ensures var after := Step(w, CloseWorker);
      && after == w.(worker := after.worker) && !after.worker.OpenEpoch?
      && (after.worker.NoEpoch? <==> w.worker.NoEpoch?)
      && (after.worker.ClosedEpoch? ==> after.worker.generation == w.worker.generation)
  {
  }

  predicate OpenNow(w: World) { w.worker == OpenEpoch(w.value.generation) && !w.value.state.Erased? }

  lemma FailureStep(w: World, now: Time)
    requires WorkerCurrent(w)
    ensures var after := Step(w, FailWorker(now));
      && (OpenNow(w) ==>
            && Started(w.value) && after == w.(value := after.value, worker := ClosedEpoch(w.value.generation))
            && Finalizes(w.value, after.value, w.value.generation + 1, now))
      && (!OpenNow(w) ==> after == w)
  {
  }

  /**
   In every run the failure of the worker epoch of the current generation closes it, fences that generation and moves
   the consultation to finalizing, also one that had ended; after that the failure of the epoch changes nothing.
  */
  lemma FailureOutcome(id: Id, employee: Slot, customer: Slot, start: Time, run: seq<Action>, now: Time, later: Time)
    ensures var w := After(Created(id, employee, customer, start), run);
      var after := Step(w, FailWorker(now));
      && (OpenNow(w) ==>
            && Started(w.value) && after == w.(value := after.value, worker := ClosedEpoch(w.value.generation))
            && Finalizes(w.value, after.value, w.value.generation + 1, now))
      && (!OpenNow(w) ==> after == w)
      && Step(after, FailWorker(later)) == after
  {
    var w := After(Created(id, employee, customer, start), run);
    ConsentsInEveryRun(id, employee, customer, start, run);
    FailureStep(w, now);
    StepKeepsSound(w, FailWorker(now));
    FailureStep(Step(w, FailWorker(now)), later);
  }

  /** A started consultation is finalized at most once, and a fence of its room also fences its generation. */
  lemma FinalizationOutcome(w: World, now: Time, later: Time)
    ensures var after := Step(w, AdmitFinalization(now));
      && (w.value.state.Ready? || w.value.state.Live? ==>
            && after == w.(value := after.value) && Finalizes(w.value, after.value, w.value.generation, now))
      && (!w.value.state.Ready? && !w.value.state.Live? ==> after == w)
      && Step(after, AdmitFinalization(later)) == after
    ensures var after := Step(w, FenceRoom(now));
      && (w.value.state.Live? ==>
            after == w.(value := w.value.(state := Finalizing, archiveState := Reconciling,
                                          generation := w.value.generation + 1,
                                          finalizeDeadlineAt := Some(now + 900_000), updatedAt := now)))
      && (!w.value.state.Live? ==> after == w)
      && Step(after, FenceRoom(later)) == after
  {
  }

  /** A finalizing consultation is ended by force when its deadline has come, and not before. */
  lemma ForcedEndIff(id: Id, employee: Slot, customer: Slot, start: Time, run: seq<Action>, now: Time)
    ensures var w := After(Created(id, employee, customer, start), run);
      Step(w, ForceFinish(now)) ==
        match w.value.finalizeDeadlineAt
        case None => w
        case Some(deadline) =>
          if w.value.state.Finalizing? && deadline <= now
          then w.(value := w.value.(state := Ended, updatedAt := now)) else w
    ensures var w := After(Created(id, employee, customer, start), run);
      w.value.state.Finalizing? ==>
        && w.value.finalizeDeadlineAt.Some?
        && (Step(w, ForceFinish(now)).value.state.Ended? <==> w.value.finalizeDeadlineAt.value <= now)
  {
    DeadlinesInEveryRun(id, employee, customer, start, run);
  }

  /** Erasing an ended consultation leaves who took part and when, and nothing either side said or chose. */
  lemma ErasureOutcome(w: World, now: Time)
    ensures var after := Step(w, Erase(now));
      && (!w.value.state.Ended? ==> after == w)
      && (w.value.state.Ended? ==>
            && after == w.(value := after.value) && after.value.state.Erased?
            && NothingSaid(after.value.first) && NothingSaid(after.value.second)
            && after.value.selection.None? && after.value.snapshotHash.None?
            && after.value.roomName.None? && after.value.workerIdentity.None?
            && SameRecord(w.value, after.value) && after.value.updatedAt == now)
  {
  }

  predicate NothingSaid(s: Slot) { s.displayName.None? && s.language.None? && s.consent.None? }

  /** The same people, roles, captures, generation, archive and deadlines. */
  predicate SameRecord(v: Consultation, w: Consultation) {
    && w.id == v.id && w.archiveState == v.archiveState && w.generation == v.generation
    && w.readyDeadlineAt == v.readyDeadlineAt && w.finalizeDeadlineAt == v.finalizeDeadlineAt
    && w.admissionFencedAt == v.admissionFencedAt
    && SameSide(v.first, w.first) && SameSide(v.second, w.second)
  }

  predicate SameSide(s: Slot, t: Slot) {
    && s.id == t.id && s.role == t.role && s.userId == t.userId
    && s.publicationGranted == t.publicationGranted && s.egressId == t.egressId
  }

  // ----- whole runs -----

  /** Step `i` of a run saves preferences. */
  ghost predicate SavesPreferences(start: World, run: seq<Action>, i: nat)
    requires i < |run|
  {
    var a := run[i];
    a.SetPreferences?
    && SetPreferencesIn(After(start, run[..i]).value, a.userId, a.displayName, a.language, a.resolved, a.now).Success?
  }

  /** Step `i` is the consent `c` of a user, saved, and no preferences were saved after it. */
  ghost predicate Consents(start: World, run: seq<Action>, i: nat, userId: Id, c: Consent)
    requires i < |run|
  {
    && run[i] == GiveConsent(userId, c.snapshotHash, c.copyHash, c.consentedAt)
    && ConsentIn(After(start, run[..i]).value, userId, c.snapshotHash, c.copyHash, c.consentedAt).Success?
    && forall j | i < j < |run| :: !SavesPreferences(start, run, j)
  }

  /** Step `i` saves the name and language of a slot for its user. */
  ghost predicate Prefers(start: World, run: seq<Action>, i: nat, s: Slot)
    requires i < |run|
  {
    && SavesPreferences(start, run, i) && run[i].userId == s.userId
    && s.displayName == Some(Trim(run[i].displayName)) && s.language == Some(run[i].language)
  }

  /** Step `i` grants a slot's participant its capture. */
  ghost predicate Grants(start: World, run: seq<Action>, i: nat, s: Slot)
    requires i < |run|
  {
    && run[i].Grant? && run[i].participantId == s.id && s.egressId == Some(run[i].egressId)
    && GrantCapture(After(start, run[..i]).value, s.id, run[i].egressId, run[i].now).Success?
  }

  /** Everything a slot says of its side was done by, or for, that side. */
  ghost predicate Warranted(start: World, run: seq<Action>, s: Slot) {
    && (s.consent.Some? ==> exists i :: 0 <= i < |run| && Consents(start, run, i, s.userId, s.consent.value))
    && (s.language.Some? || s.displayName.Some? ==> exists i :: 0 <= i < |run| && Prefers(start, run, i, s))
    && (s.publicationGranted || s.egressId.Some? ==> exists i :: 0 <= i < |run| && Grants(start, run, i, s))
  }

  lemma PrefixAt(start: World, run: seq<Action>, a: Action, i: nat)
    requires i < |run|
    ensures (run + [a])[..i] == run[..i] && (run + [a])[i] == run[i]
    ensures SavesPreferences(start, run + [a], i) <==> SavesPreferences(start, run, i)
  {
    assert (run + [a])[..i] == run[..i];
  }

  /** What a slot had before a step that keeps it is still warranted after it. */
  lemma ConsentStays(start: World, run: seq<Action>, a: Action, userId: Id, c: Consent)
    requires exists i :: 0 <= i < |run| && Consents(start, run, i, userId, c)
    requires !SavesPreferences(start, run + [a], |run|)
    ensures exists i :: 0 <= i < |run + [a]| && Consents(start, run + [a], i, userId, c)
  {
    var i :| 0 <= i < |run| && Consents(start, run, i, userId, c);
    PrefixAt(start, run, a, i);
    forall j | i < j < |run + [a]| ensures !SavesPreferences(start, run + [a], j) {
      if j < |run| { PrefixAt(start, run, a, j); }
    }
    assert Consents(start, run + [a], i, userId, c);
  }

  lemma PreferenceStays(start: World, run: seq<Action>, a: Action, s: Slot, t: Slot)
    requires exists i :: 0 <= i < |run| && Prefers(start, run, i, s)
    requires s.userId == t.userId && s.displayName == t.displayName && s.language == t.language
    ensures exists i :: 0 <= i < |run + [a]| && Prefers(start, run + [a], i, t)
  {
    var i :| 0 <= i < |run| && Prefers(start, run, i, s);
    PrefixAt(start, run, a, i);
    assert Prefers(start, run + [a], i, t);
  }

  lemma GrantStays(start: World, run: seq<Action>, a: Action, s: Slot, t: Slot)
    requires exists i :: 0 <= i < |run| && Grants(start, run, i, s)
    requires s.id == t.id && s.egressId == t.egressId
    ensures exists i :: 0 <= i < |run + [a]| && Grants(start, run + [a], i, t)
  {
    var i :| 0 <= i < |run| && Grants(start, run, i, s);
    PrefixAt(start, run, a, i);
    assert Grants(start, run + [a], i, t);
  }

  /** How a step may change a slot `s` into `t`. */
  ghost predicate SlotMoves(start: World, run: seq<Action>, a: Action, s: Slot, t: Slot) {
    && t.id == s.id && t.userId == s.userId
    && (t.consent.Some? ==>
          || Consents(start, run + [a], |run|, t.userId, t.consent.value)
          || (t.consent == s.consent && !SavesPreferences(start, run + [a], |run|)))
    && (t.language.Some? || t.displayName.Some? ==>
          Prefers(start, run + [a], |run|, t) || (t.language == s.language && t.displayName == s.displayName))
    && (t.publicationGranted || t.egressId.Some? ==>
          || Grants(start, run + [a], |run|, t)
          || (t.egressId == s.egressId && t.publicationGranted == s.publicationGranted))
  }

  lemma MovesWarranted(start: World, run: seq<Action>, a: Action, s: Slot, t: Slot)
    requires Warranted(start, run, s) && SlotMoves(start, run, a, s, t)
    ensures Warranted(start, run + [a], t)
  {
    if t.consent.Some? && !Consents(start, run + [a], |run|, t.userId, t.consent.value) {
      ConsentStays(start, run, a, t.userId, t.consent.value);
    }
    if (t.language.Some? || t.displayName.Some?) && !Prefers(start, run + [a], |run|, t) {
      PreferenceStays(start, run, a, s, t);
    }
    if (t.publicationGranted || t.egressId.Some?) && !Grants(start, run + [a], |run|, t) {
      GrantStays(start, run, a, s, t);
    }
  }

  predicate Apart(v: Consultation) { v.first.id != v.second.id }

  /** What the two slots are after one step more. */
  ghost predicate BothMove(start: World, run: seq<Action>, a: Action, v: Consultation, w: Consultation) {
    SlotMoves(start, run, a, v.first, w.first) && SlotMoves(start, run, a, v.second, w.second)
  }

  lemma PreferencesMove(start: World, run: seq<Action>, a: Action)
    requires Apart(After(start, run).value) && a.SetPreferences?
    ensures BothMove(start, run, a, After(start, run).value, After(start, run + [a]).value)
  {
    assert (run + [a])[..|run|] == run;
    PreferencesOutcome(After(start, run).value, a.userId, a.displayName, a.language, a.resolved, a.now);
  }

  lemma ConsentMoves(start: World, run: seq<Action>, a: Action)
    requires Apart(After(start, run).value) && a.GiveConsent?
    ensures BothMove(start, run, a, After(start, run).value, After(start, run + [a]).value)
  {
    assert (run + [a])[..|run|] == run;
    ConsentOutcome(After(start, run).value, a.userId, a.hash, a.copyHash, a.now);
  }

  lemma GrantMoves(start: World, run: seq<Action>, a: Action)
    requires Apart(After(start, run).value) && a.Grant?
    ensures BothMove(start, run, a, After(start, run).value, After(start, run + [a]).value)
  {
    assert (run + [a])[..|run|] == run;
    GrantOutcome(After(start, run).value, a.participantId, a.egressId, a.now);
  }

  lemma CallMoves(start: World, run: seq<Action>, a: Action)
    requires a.Preflight? || a.CommitJoin? || a.End? || a.Cancel?
    ensures BothMove(start, run, a, After(start, run).value, After(start, run + [a]).value)
  {
    assert (run + [a])[..|run|] == run;
  }

  lemma OtherMoves(start: World, run: seq<Action>, a: Action)
    requires !a.SetPreferences? && !a.GiveConsent? && !a.Grant? && !a.Preflight? && !a.CommitJoin? && !a.End? && !a.Cancel?
    ensures BothMove(start, run, a, After(start, run).value, After(start, run + [a]).value)
  {
    assert (run + [a])[..|run|] == run;
  }

  lemma StepMoves(start: World, run: seq<Action>, a: Action)
    requires Apart(After(start, run).value)
    ensures BothMove(start, run, a, After(start, run).value, After(start, run + [a]).value)
  {
    if a.SetPreferences? { PreferencesMove(start, run, a); }
    else if a.GiveConsent? { ConsentMoves(start, run, a); }
    else if a.Grant? { GrantMoves(start, run, a); }
    else if a.Preflight? || a.CommitJoin? || a.End? || a.Cancel? { CallMoves(start, run, a); }
    else { OtherMoves(start, run, a); }
  }

  /**
   In every run each consent a slot records was given by its own user, with that snapshot, copy and time, after the
   last change of preferences; its name and language are what its own user saved; and its capture was granted to it.
  */
  lemma {:induction false} WarrantedInEveryRun(id: Id, employee: Slot, customer: Slot, now: Time, run: seq<Action>)
    requires employee.id != customer.id
    ensures var start := Created(id, employee, customer, now);
      var v := After(start, run).value;
      && v.first.id == employee.id && v.first.userId == employee.userId
      && v.second.id == customer.id && v.second.userId == customer.userId
      && Warranted(start, run, v.first) && Warranted(start, run, v.second)
  {
    if run != [] {
      var init, a := run[..|run| - 1], run[|run| - 1];
      var start := Created(id, employee, customer, now);
      WarrantedInEveryRun(id, employee, customer, now, init);
      StepMoves(start, init, a);
      assert init + [a] == run;
      MovesWarranted(start, init, a, After(start, init).value.first, After(start, run).value.first);
      MovesWarranted(start, init, a, After(start, init).value.second, After(start, run).value.second);
    }
  }

  // ----- deadlines -----

  /** A ready consultation has a room and a deadline, and one that is finalizing has a deadline for that. */
  predicate HasDeadlines(v: Consultation) {
    && (v.state.Ready? ==> v.readyDeadlineAt.Some? && v.roomName.Some? && v.workerIdentity.Some? && v.generation > 0)
    && (v.state.Finalizing? ==> v.finalizeDeadlineAt.Some?)
  }

  lemma StepKeepsDeadlines(w: World, a: Action)
    requires HasDeadlines(w.value)
    ensures HasDeadlines(Step(w, a).value)
  {
  }

  lemma {:induction false} DeadlinesInEveryRun(id: Id, employee: Slot, customer: Slot, now: Time, run: seq<Action>)
    ensures HasDeadlines(After(Created(id, employee, customer, now), run).value)
  {
    if run != [] {
      DeadlinesInEveryRun(id, employee, customer, now, run[..|run| - 1]);
      StepKeepsDeadlines(After(Created(id, employee, customer, now), run[..|run| - 1]), run[|run| - 1]);
    }
  }

  /** A finalizing consultation ends with the drain if and only if its worker epoch is not open. */
  lemma DrainEndsIff(w: World, now: Time)
    requires w.value.state.Finalizing?
    ensures Step(w, FinishDrain(now)).value.state.Ended? <==> !w.worker.OpenEpoch?
    ensures Step(Step(w, CloseWorker), FinishDrain(now)).value.state.Ended?
  {
  }
}
