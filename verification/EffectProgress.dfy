/**
 What becomes of an effect when one worker claims it and is left alone: it is settled in a bounded number of steps;
 when a call throws it waits for its retry time; when the request or the resource is not ours it fails for good.
*/
module EffectProgress {
  import opened Wrappers

  import opened EffectRunner

  /**
   Worker `w` is left alone: it keeps its lease, its calls are answered, and nobody else acts but those who move the
   consultation to a new generation.
  */
  predicate Quiet(s: State, a: Action, w: Owner) {
    match a
    case Tick(to) => LeaseLive(s.row, w, to)
    case Bump => true
    case KeepAlive(v, _) => v == w && !At(s, w, Idle)
    case Read(v) => v == w
    case Own(v, lost, _) => v == w && !lost
    case Write(v, _) => v == w
    case AdoptReturns(v, reply) => v == w && !reply.Foreign?
    case ExecuteReturns(v, _, _) => v == w
    case CompensateReturns(v) => v == w
    case _ => false
  }

  predicate QuietRun(s: State, w: Owner, run: Run) {
    match run
    case Begin => true
    case Then(prior, a) =>
      QuietRun(s, w, prior) && match After(s, prior) case None => true case Some(t) => Quiet(t, a, w)
  }

  /** Time passes, a lease is extended or a generation begins: no step of `run`. */
  predicate Waits(a: Action) { a.Tick? || a.KeepAlive? || a.Bump? }

  function Steps(run: Run): nat {
    match run
    case Begin => 0
    case Then(prior, a) => Steps(prior) + if Waits(a) then 0 else 1
  }

  predicate Bumps(run: Run) { run.Then? && (run.action.Bump? || Bumps(run.prior)) }

  predicate SameRequest(row: Row, hash: Hash) { row.requestHash.None? || row.requestHash == Some(hash) }

  // ----- a worker that is left alone -----

  /** How many steps are left at most. */
  function Left(pc: Pc): nat {
    match pc
    case ReadGeneration => 16
    case Persist => 15
    case OwnBeforeCall => 14
    case GenBeforeCall => 13
    case Adopt => 12
    case Execute => 11
    case OwnAfterCall => 10
    case OwnAfterAdopt => 10
    case GenAfterCall => 9
    case GenAfterAdopt => 9
    case Apply => 8
    case GenAfterReject => 7
    case OwnResume => 7
    case OwnAfterReject => 6
    case GenResume => 6
    case FencePersist => 6
    case Mark => 5
    case OwnBeforeCompensate => 4
    case Compensate => 3
    case OwnBeforeDone => 2
    case OwnAfterCompensate => 2
    case DoneApplied => 1
    case DoneCompensated => 1
    case _ => 0
  }

  /** Where the holder of a live lease can be in a run without errors, and the state of the row there. */
  predicate OnItsWay(s: State, w: Owner) {
    && LeaseLive(s.row, w, s.now) && w in s.workers
    && var me := s.workers[w];
      && (KnowsStale(me.pc) ==> Stale(s))
      && ((me.pc.OwnAfterCompensate? || me.pc.DoneCompensated?) ==> s.history.compensations > 0)
      && RowFits(s, me)
  }

  predicate RowFits(s: State, me: Worker) {
    match me.pc
    case ReadGeneration =>
      && (s.row.state.Compensating? ==> Stale(s))
      && s.row.state == me.claimed.state && s.row.requestHash == me.claimed.requestHash && SameRequest(s.row, me.hash)
      && (s.row.state.Planned? || s.row.state.Calling? || s.row.state.Compensating?) && !me.inTry
    case FencePersist => s.row.state.Planned? && SameRequest(s.row, me.hash) && !me.inTry
    case Persist => !me.inTry && (s.row.state.Planned? || s.row.state.Calling?) && SameRequest(s.row, me.hash)
    case GenAfterReject => s.row.state.Calling? && Stale(s)
    case OwnAfterReject => s.row.state.Calling?
    case OwnResume => s.row.state.Applied?
    case GenResume => s.row.state.Applied?
    case OwnBeforeDone => s.row.state.Applied?
    case DoneApplied => s.row.state.Applied?
    case Mark => s.row.state.Calling? || s.row.state.Applied?
    case OwnBeforeCompensate => s.row.state.Compensating?
    case Compensate => s.row.state.Compensating?
    case OwnAfterCompensate => s.row.state.Compensating?
    case DoneCompensated => s.row.state.Compensating?
    case _ => Calling(me.pc) && s.row.state.Calling?
  }

  predicate Calling(pc: Pc) {
    || pc.OwnBeforeCall? || pc.GenBeforeCall? || pc.Adopt? || pc.Execute? || pc.OwnAfterCall? || pc.GenAfterCall?
    || pc.OwnAfterAdopt? || pc.GenAfterAdopt? || pc.Apply?
  }

  predicate Settled(s: State, w: Owner) { At(s, w, Idle) && s.row.state.Done? }

  /** Where a worker is that found the effect stale from the start. */
  predicate Undoes(pc: Pc) {
    || pc.ReadGeneration? || pc.FencePersist? || pc.OwnResume? || pc.GenResume? || pc.Mark?
    || pc.OwnBeforeCompensate? || pc.Compensate? || pc.OwnAfterCompensate? || pc.DoneCompensated?
  }

  /** What holds of worker and row after a claim, by whether the effect was stale then. */
  predicate Claimed(s: State, w: Owner, stale: bool) { Acting(s, w) && Along(s, w, stale) }

  predicate Along(s: State, w: Owner, stale: bool) {
    && s.row.generation <= s.generation && (OnItsWay(s, w) || Settled(s, w))
    && (stale ==> Stale(s) && if Settled(s, w) then s.history.compensations > 0 else Undoes(s.workers[w].pc))
  }

  /** Neither done nor failed for good, and nobody's lease is still running. */
  predicate Unsettled(row: Row, clock: int) {
    !row.state.Done? && !row.state.Failed? && match row.leaseExpires case None => true case Some(until) => until < clock
  }

  lemma ClaimStarts(s: State, w: Owner, clock: int, leaseMs: nat, hash: Hash)
    requires Inv(s) && At(s, w, Idle) && Unsettled(s.row, clock) && Orderly(s, Claim(w, clock, leaseMs, hash))
    requires clock + leaseMs > s.now && SameRequest(s.row, hash)
    ensures Claimed(ClaimStep(s, w, clock, leaseMs, hash), w, Stale(s))
  {
    StepKeepsInv(s, Claim(w, clock, leaseMs, hash));
  }

  lemma WaitKeepsActing(s: State, w: Owner, a: Action)
    requires Acting(s, w) && Enabled(s, a) && Quiet(s, a, w) && Waits(a)
    ensures Acting(Next(s, a), w) && Next(s, a).workers == s.workers
  {
    if a.KeepAlive? { ProcessActor(s, a); } else { EnvironmentKeepsInv(s, a, w); }
  }

  lemma WaitGoesOn(s: State, w: Owner, stale: bool, a: Action)
    requires Along(s, w, stale) && Enabled(s, a) && Quiet(s, a, w) && Waits(a)
    ensures Along(Next(s, a), w, stale)
  {
  }

  lemma FirstReadGoesOn(s: State, w: Owner, stale: bool)
    requires Along(s, w, stale) && w in s.workers && s.workers[w].pc.ReadGeneration?
    ensures Along(ReadStep(s, w), w, stale) && Left(ReadStep(s, w).workers[w].pc) < Left(ReadGeneration)
  {
  }

  lemma LaterReadGoesOn(s: State, w: Owner, stale: bool)
    requires Along(s, w, stale) && w in s.workers && IsRead(s.workers[w].pc) && !s.workers[w].pc.ReadGeneration?
    ensures Along(ReadStep(s, w), w, stale) && Left(ReadStep(s, w).workers[w].pc) < Left(s.workers[w].pc)
  {
  }

  lemma ReadGoesOn(s: State, w: Owner, stale: bool)
    requires Along(s, w, stale) && w in s.workers && IsRead(s.workers[w].pc)
    ensures Along(ReadStep(s, w), w, stale) && Left(ReadStep(s, w).workers[w].pc) < Left(s.workers[w].pc)
  {
    if s.workers[w].pc.ReadGeneration? { FirstReadGoesOn(s, w, stale); } else { LaterReadGoesOn(s, w, stale); }
  }

  lemma RenewGoesOn(s: State, w: Owner, stale: bool, until: int)
    requires Along(s, w, stale) && w in s.workers && IsOwn(s.workers[w].pc)
    ensures CanRenew(s.row, w, s.now) && Along(s.(row := Renew(s.row, w, s.now, until)), w, stale)
  {
  }

  lemma AdvanceGoesOn(s: State, w: Owner, stale: bool)
    requires Along(s, w, stale) && w in s.workers && IsOwn(s.workers[w].pc)
    ensures Along(With(s, w, s.workers[w].(pc := AfterOwn(s.workers[w].pc))), w, stale)
    ensures Left(AfterOwn(s.workers[w].pc)) < Left(s.workers[w].pc)
  {
  }

  lemma OwnGoesOn(s: State, w: Owner, stale: bool, until: int)
    requires Along(s, w, stale) && w in s.workers && IsOwn(s.workers[w].pc)
    ensures Along(OwnStep(s, w, false, until), w, stale)
    ensures Left(OwnStep(s, w, false, until).workers[w].pc) < Left(s.workers[w].pc)
  {
    RenewGoesOn(s, w, stale, until);
    AdvanceGoesOn(s.(row := Renew(s.row, w, s.now, until)), w, stale);
  }

  lemma PersistGoesOn(s: State, w: Owner, stale: bool, retryAt: int)
    requires Along(s, w, stale) && w in s.workers && (s.workers[w].pc.FencePersist? || s.workers[w].pc.Persist?)
    ensures Along(WriteStep(s, w, retryAt), w, stale)
    ensures Left(WriteStep(s, w, retryAt).workers[w].pc) < Left(s.workers[w].pc)
  {
  }

  lemma MarkGoesOn(s: State, w: Owner, stale: bool, retryAt: int)
    requires Along(s, w, stale) && w in s.workers && s.workers[w].pc.Mark?
    ensures Along(WriteStep(s, w, retryAt), w, stale)
    ensures Left(WriteStep(s, w, retryAt).workers[w].pc) < Left(s.workers[w].pc)
  {
  }

  lemma ApplyGoesOn(s: State, w: Owner, stale: bool, retryAt: int)
    requires Along(s, w, stale) && w in s.workers && s.workers[w].pc.Apply?
    ensures Along(WriteStep(s, w, retryAt), w, stale)
    ensures Left(WriteStep(s, w, retryAt).workers[w].pc) < Left(Apply)
  {
  }

  lemma SettleGoesOn(s: State, w: Owner, stale: bool, retryAt: int)
    requires Along(s, w, stale) && w in s.workers && (s.workers[w].pc.DoneApplied? || s.workers[w].pc.DoneCompensated?)
    ensures Along(WriteStep(s, w, retryAt), w, stale) && Settled(WriteStep(s, w, retryAt), w)
  {
  }

  lemma WriteGoesOn(s: State, w: Owner, stale: bool, retryAt: int)
    requires Along(s, w, stale) && w in s.workers && IsWrite(s.workers[w].pc)
    ensures Along(WriteStep(s, w, retryAt), w, stale) && w in WriteStep(s, w, retryAt).workers
    ensures Left(WriteStep(s, w, retryAt).workers[w].pc) < Left(s.workers[w].pc)
  {
    var pc := s.workers[w].pc;
    if pc.Mark? {
      MarkGoesOn(s, w, stale, retryAt);
    } else if pc.FencePersist? || pc.Persist? {
      PersistGoesOn(s, w, stale, retryAt);
    } else if pc.Apply? {
      ApplyGoesOn(s, w, stale, retryAt);
    } else if pc.DoneApplied? || pc.DoneCompensated? {
      SettleGoesOn(s, w, stale, retryAt);
    }
  }

  lemma AdoptGoesOn(s: State, w: Owner, stale: bool, reply: AdoptReply)
    requires Along(s, w, stale) && At(s, w, Adopt) && !reply.Foreign?
    ensures Along(AdoptStep(s, w, reply), w, stale) && Left(AdoptStep(s, w, reply).workers[w].pc) < Left(Adopt)
  {
  }

  lemma ExecuteGoesOn(s: State, w: Owner, stale: bool, id: RemoteId, reported: bool)
    requires Along(s, w, stale) && At(s, w, Execute)
    ensures Along(ExecuteStep(s, w, id, reported), w, stale)
    ensures Left(ExecuteStep(s, w, id, reported).workers[w].pc) < Left(Execute)
  {
  }

  lemma CompensateGoesOn(s: State, w: Owner, stale: bool)
    requires Along(s, w, stale) && At(s, w, Compensate)
    ensures Along(CompensateStep(s, w), w, stale) && Left(CompensateStep(s, w).workers[w].pc) < Left(Compensate)
  {
  }

  lemma CallGoesOn(s: State, w: Owner, stale: bool, a: Action)
    requires Along(s, w, stale) && Enabled(s, a) && Quiet(s, a, w)
    requires a.AdoptReturns? || a.ExecuteReturns? || a.CompensateReturns?
    ensures Along(Next(s, a), w, stale) && Left(Next(s, a).workers[w].pc) < Left(s.workers[w].pc)
  {
    match a
    case AdoptReturns(_, reply) => AdoptGoesOn(s, w, stale, reply);
    case ExecuteReturns(_, id, reported) => ExecuteGoesOn(s, w, stale, id, reported);
    case CompensateReturns(_) => CompensateGoesOn(s, w, stale);
  }

  lemma GoesAlong(s: State, w: Owner, stale: bool, a: Action)
    requires Along(s, w, stale) && w in s.workers && Enabled(s, a) && Quiet(s, a, w)
    ensures Along(Next(s, a), w, stale) && w in Next(s, a).workers
    ensures Left(Next(s, a).workers[w].pc) + (if Waits(a) then 0 else 1) <= Left(s.workers[w].pc)
  {
    match a
    case Read(_) => ReadGoesOn(s, w, stale);
    case Own(_, _, until) => OwnGoesOn(s, w, stale, until);
    case Write(_, retryAt) => WriteGoesOn(s, w, stale, retryAt);
    case _ => if Waits(a) { WaitGoesOn(s, w, stale, a); } else { CallGoesOn(s, w, stale, a); }
  }

  lemma StaysActing(s: State, w: Owner, a: Action)
    requires Acting(s, w) && Enabled(s, a) && Quiet(s, a, w)
    ensures Acting(Next(s, a), w)
  {
    if Waits(a) { WaitKeepsActing(s, w, a); } else { ActorKeepsInv(s, a); }
  }

  lemma GoesOn(s: State, w: Owner, stale: bool, a: Action)
    requires Claimed(s, w, stale) && Enabled(s, a) && Quiet(s, a, w)
    ensures Claimed(Next(s, a), w, stale)
    ensures Left(Next(s, a).workers[w].pc) + (if Waits(a) then 0 else 1) <= Left(s.workers[w].pc)
  {
    GoesAlong(s, w, stale, a);
    StaysActing(s, w, a);
  }

  /** What a worker on its way does next. */
  function NextAction(s: State, w: Owner): Action
    requires w in s.workers
  {
    var pc := s.workers[w].pc;
    if IsRead(pc) then Read(w)
    else if IsOwn(pc) then Own(w, false, s.now)
    else if pc.Execute? then ExecuteReturns(w, 0, true)
    else if pc.Compensate? then CompensateReturns(w)
    else if pc.Adopt? || pc.CatchAdopt? then
      AdoptReturns(w, if s.remote.live && s.remote.made.Some? then Found(s.remote.made.value) else NotFound)
    else Write(w, s.now)
  }

  /** There is a step that the worker can take undisturbed. */
  ghost predicate CanGoOn(s: State, w: Owner) { exists a :: Enabled(s, a) && Quiet(s, a, w) && !Waits(a) }

  lemma NotStuck(s: State, w: Owner)
    requires Acting(s, w) && OnItsWay(s, w)
    ensures CanGoOn(s, w)
  {
    var a := NextAction(s, w);
    assert Enabled(s, a) && Quiet(s, a, w) && !Waits(a);
  }

  lemma {:induction false} RunGoesOn(s: State, w: Owner, stale: bool, run: Run)
    requires Claimed(s, w, stale) && QuietRun(s, w, run)
    ensures var t := After(s, run);
      t.Some? ==> Claimed(t.value, w, stale) && Left(t.value.workers[w].pc) + Steps(run) <= Left(s.workers[w].pc)
  {
    if run.Then? && After(s, run.prior).Some? {
      RunGoesOn(s, w, stale, run.prior);
      var t := After(s, run.prior).value;
      if Enabled(t, run.action) { GoesOn(t, w, stale, run.action); }
    }
  }

  /** The resource exists under the recorded identity and nothing was undone. */
  predicate AppliedFor(s: State) {
    && s.history.applied && s.history.compensations == 0 && s.remote.live
    && (s.row.remoteId.None? || s.row.remoteId == s.remote.made)
  }

  predicate UndoneFor(s: State) { s.history.compensations > 0 && !s.remote.live }

  lemma ClaimedRunEnds(c: State, w: Owner, stale: bool, more: Run, t: State)
    requires Claimed(c, w, stale) && w in c.workers && QuietRun(c, w, more) && After(c, more) == Some(t)
    ensures Steps(more) <= Left(c.workers[w].pc) <= 16
    ensures if At(t, w, Idle) then t.row.state.Done? && t.row.owner.None? else CanGoOn(t, w)
    ensures At(t, w, Idle) && stale ==> UndoneFor(t)
    ensures At(t, w, Idle) && !Stale(t) ==> AppliedFor(t)
  {
    RunGoesOn(c, w, stale, more);
    if OnItsWay(t, w) { NotStuck(t, w); }
  }

  /**
   Whatever happened before, a worker that claims an unsettled effect for the same request and is left alone is done
   after at most sixteen steps and can always take the next one.  The effect is then done: undone when it was stale at
   the claim, and applied when it is not stale even now.
  */
  lemma LeftAloneSettles(
    start: State, run: Run, s: State, w: Owner, clock: int, leaseMs: nat, hash: Hash, more: Run, t: State)
    requires Init(start) && OrderlyRun(start, run) && After(start, run) == Some(s)
    requires At(s, w, Idle) && Unsettled(s.row, clock) && Orderly(s, Claim(w, clock, leaseMs, hash))
    requires clock + leaseMs > s.now && SameRequest(s.row, hash)
    requires var c := Next(s, Claim(w, clock, leaseMs, hash)); QuietRun(c, w, more) && After(c, more) == Some(t)
    ensures Steps(more) <= 16
    ensures if At(t, w, Idle) then t.row.state.Done? && t.row.owner.None? else CanGoOn(t, w)
    ensures At(t, w, Idle) && Stale(s) ==> UndoneFor(t)
    ensures At(t, w, Idle) && !Stale(t) ==> AppliedFor(t)
  {
    var c := ClaimStep(s, w, clock, leaseMs, hash);
    RunKeepsInv(start, run);
    ClaimStarts(s, w, clock, leaseMs, hash);
    ClaimedRunEnds(c, w, Stale(s), more, t);
  }

  // ----- the identity of the resource is recorded -----

  predicate Undoable(pc: Pc) {
    || pc.GenAfterReject? || pc.OwnAfterReject? || pc.Mark? || pc.OwnBeforeCompensate? || Undoing(pc)
  }

  /** The worker knows `id`, or has recorded it, or is undoing the effect. */
  predicate Carries(s: State, w: Owner, id: RemoteId) {
    && w in s.workers
    && var me := s.workers[w];
      if HasResource(me.pc) then me.remote == Some(id)
      else if me.pc.OwnBeforeDone? || me.pc.DoneApplied? then s.row.remoteId == Some(id)
      else if me.pc.Idle? then s.row.remoteId == Some(id) || s.history.compensations > 0
      else Undoable(me.pc)
  }

  lemma CallCarries(s: State, w: Owner, a: Action, id: RemoteId)
    requires Along(s, w, false) && Carries(s, w, id) && Enabled(s, a) && Quiet(s, a, w) && !a.Own? && !a.Write?
    ensures Carries(Next(s, a), w, id)
  {
  }

  lemma OwnCarries(s: State, w: Owner, until: int, id: RemoteId)
    requires Along(s, w, false) && Carries(s, w, id) && IsOwn(s.workers[w].pc)
    ensures Carries(OwnStep(s, w, false, until), w, id)
  {
    RenewGoesOn(s, w, false, until);
  }

  lemma WriteCarries(s: State, w: Owner, retryAt: int, id: RemoteId)
    requires Along(s, w, false) && Carries(s, w, id) && IsWrite(s.workers[w].pc)
    ensures Carries(WriteStep(s, w, retryAt), w, id)
  {
  }

  lemma StepCarries(s: State, w: Owner, a: Action, id: RemoteId)
    requires Along(s, w, false) && Carries(s, w, id) && Enabled(s, a) && Quiet(s, a, w)
    ensures Carries(Next(s, a), w, id)
  {
    match a
    case Own(_, _, until) => OwnCarries(s, w, until, id);
    case Write(_, retryAt) => WriteCarries(s, w, retryAt, id);
    case _ => CallCarries(s, w, a, id);
  }

  lemma {:induction false} RunCarries(s: State, w: Owner, run: Run, id: RemoteId)
    requires Claimed(s, w, false) && Carries(s, w, id) && QuietRun(s, w, run)
    ensures After(s, run).Some? ==> Carries(After(s, run).value, w, id)
  {
    if run.Then? && After(s, run.prior).Some? {
      RunCarries(s, w, run.prior, id);
      RunGoesOn(s, w, false, run.prior);
      var t := After(s, run.prior).value;
      if Enabled(t, run.action) { StepCarries(t, w, run.action, id); }
    }
  }

  /** The identity that the remote side answered is the one recorded when the effect is done without being undone. */
  lemma AnswerIsRecorded(s: State, w: Owner, a: Action, id: RemoteId, rest: Run, t: State)
    requires Acting(s, w) && OnItsWay(s, w) && Enabled(s, a)
    requires a == ExecuteReturns(w, id, true) || a == AdoptReturns(w, Found(id))
    requires QuietRun(Next(s, a), w, rest) && After(Next(s, a), rest) == Some(t)
    ensures Settled(t, w) && t.history.compensations == 0 ==> t.row.remoteId == Some(id) && t.remote.made == Some(id)
  {
    GoesOn(s, w, false, a);
    RunCarries(Next(s, a), w, rest, id);
    RunGoesOn(Next(s, a), w, false, rest);
  }

  // ----- what a worker knows of the resource -----

  /** The identity known after one step more: what the last answered call told, or what was known before. */
  function Learns(known: Option<RemoteId>, a: Action): Option<RemoteId> {
    match a
    case ExecuteReturns(_, id, reported) => if reported then Some(id) else None
    case AdoptReturns(_, Found(id)) => Some(id)
    case _ => known
  }

  function Learned(known: Option<RemoteId>, run: Run): Option<RemoteId> {
    match run
    case Begin => known
    case Then(prior, a) => Learns(Learned(known, prior), a)
  }

  /** Before a call and after it is recorded the row says what the worker knows. */
  predicate Recorded(pc: Pc) {
    || pc.ReadGeneration? || pc.FencePersist? || pc.Persist? || pc.OwnResume? || pc.GenResume?
    || pc.OwnBeforeDone? || pc.DoneApplied?
  }

  predicate Knows(s: State, w: Owner, known: Option<RemoteId>) {
    && w in s.workers
    && var me := s.workers[w];
      && (!me.pc.Idle? ==> me.remote == known)
      && (Recorded(me.pc) ==> s.row.remoteId == known)
      && (me.pc.Idle? && s.history.compensations == 0 ==> s.row.remoteId == known)
  }

  lemma CallLearns(s: State, w: Owner, a: Action, known: Option<RemoteId>)
    requires Along(s, w, false) && Knows(s, w, known) && Enabled(s, a) && Quiet(s, a, w)
    requires a.AdoptReturns? || a.ExecuteReturns? || a.CompensateReturns?
    ensures Knows(Next(s, a), w, Learns(known, a))
  {
  }

  lemma WaitLearns(s: State, w: Owner, a: Action, known: Option<RemoteId>)
    requires Knows(s, w, known) && Enabled(s, a) && Quiet(s, a, w) && Waits(a)
    ensures Knows(Next(s, a), w, known)
  {
  }

  lemma ReadLearns(s: State, w: Owner, known: Option<RemoteId>)
    requires Along(s, w, false) && Knows(s, w, known) && IsRead(s.workers[w].pc)
    ensures Knows(ReadStep(s, w), w, known)
  {
  }

  lemma OwnLearns(s: State, w: Owner, until: int, known: Option<RemoteId>)
    requires Along(s, w, false) && Knows(s, w, known) && IsOwn(s.workers[w].pc)
    ensures Knows(OwnStep(s, w, false, until), w, known)
  {
    RenewGoesOn(s, w, false, until);
  }

  lemma WriteLearns(s: State, w: Owner, retryAt: int, known: Option<RemoteId>)
    requires Along(s, w, false) && Knows(s, w, known) && IsWrite(s.workers[w].pc)
    ensures Knows(WriteStep(s, w, retryAt), w, known)
  {
  }

  lemma StepLearns(s: State, w: Owner, a: Action, known: Option<RemoteId>)
    requires Along(s, w, false) && Knows(s, w, known) && Enabled(s, a) && Quiet(s, a, w)
    ensures Knows(Next(s, a), w, Learns(known, a))
  {
    if a.Own? { OwnLearns(s, w, a.until, known); }
    else if a.Write? { WriteLearns(s, w, a.retryAt, known); }
    else if a.Read? { ReadLearns(s, w, known); }
    else if Waits(a) { WaitLearns(s, w, a, known); }
    else { CallLearns(s, w, a, known); }
  }

  lemma {:induction false} RunLearns(s: State, w: Owner, run: Run, known: Option<RemoteId>)
    requires Claimed(s, w, false) && Knows(s, w, known) && QuietRun(s, w, run)
    ensures After(s, run).Some? ==> Knows(After(s, run).value, w, Learned(known, run))
  {
    if run.Then? && After(s, run.prior).Some? {
      RunLearns(s, w, run.prior, known);
      RunGoesOn(s, w, false, run.prior);
      var t := After(s, run.prior).value;
      if Enabled(t, run.action) { StepLearns(t, w, run.action, Learned(known, run.prior)); }
    }
  }

  /** Whatever the effect was at the claim, the worker goes along and knows what the row says. */
  lemma ClaimKnows(s: State, w: Owner, clock: int, leaseMs: nat, hash: Hash)
    requires Inv(s) && At(s, w, Idle) && Unsettled(s.row, clock) && Orderly(s, Claim(w, clock, leaseMs, hash))
    requires clock + leaseMs > s.now && SameRequest(s.row, hash)
    ensures Claimed(ClaimStep(s, w, clock, leaseMs, hash), w, false)
    ensures Knows(ClaimStep(s, w, clock, leaseMs, hash), w, s.row.remoteId)
  {
    ClaimStarts(s, w, clock, leaseMs, hash);
  }

  lemma KnownRunEnds(c: State, w: Owner, more: Run, t: State, known: Option<RemoteId>)
    requires Claimed(c, w, false) && Knows(c, w, known) && QuietRun(c, w, more) && After(c, more) == Some(t)
    ensures At(t, w, Compensate) ==> t.workers[w].remote == Learned(known, more)
    ensures Settled(t, w) && t.history.compensations == 0 ==> t.row.remoteId == Learned(known, more)
  {
    RunLearns(c, w, more, known);
  }

  /**
   A worker that is left alone after a claim compensates the resource that its last answered call named, and without
   such a call the one the row named; when it is done without compensating, that identity is on record.
  */
  lemma CompensatesWhatItKnows(
    start: State, run: Run, s: State, w: Owner, clock: int, leaseMs: nat, hash: Hash, more: Run, t: State)
    requires Init(start) && OrderlyRun(start, run) && After(start, run) == Some(s)
    requires At(s, w, Idle) && Unsettled(s.row, clock) && Orderly(s, Claim(w, clock, leaseMs, hash))
    requires clock + leaseMs > s.now && SameRequest(s.row, hash)
    requires var c := Next(s, Claim(w, clock, leaseMs, hash)); QuietRun(c, w, more) && After(c, more) == Some(t)
    ensures At(t, w, Compensate) ==> t.workers[w].remote == Learned(s.row.remoteId, more)
    ensures Settled(t, w) && t.history.compensations == 0 ==> t.row.remoteId == Learned(s.row.remoteId, more)
  {
    var c := ClaimStep(s, w, clock, leaseMs, hash);
    RunKeepsInv(start, run);
    ClaimKnows(s, w, clock, leaseMs, hash);
    KnownRunEnds(c, w, more, t, s.row.remoteId);
  }

  // ----- a call throws -----

  /** A remote call throws, or anything else inside `executeRemoteEffect` does but a lost lease. */
  predicate Throws(s: State, a: Action, w: Owner) {
    && w in s.workers && s.workers[w].inTry
    && match a
       case Abort(v) => v == w
       case ExecuteThrows(v, _, _) => v == w
       case CompensateThrows(v, _) => v == w
       case _ => false
  }

  /** Left alone to `retryAt`: no owner, and claimable as soon as that time has passed. */
  predicate Retries(row: Row, retryAt: int) {
    row.state.Calling? && row.owner.None? && row.leaseExpires == Some(retryAt)
  }

  /** After an error the worker looks whether the effect is stale and then undoes it or gives it back. */
  predicate Recovering(s: State, w: Owner) {
    && s.row.generation <= s.generation && LeaseLive(s.row, w, s.now) && w in s.workers
    && var pc := s.workers[w].pc;
      if pc.OwnBeforeCompensate? || Undoing(pc) then OnItsWay(s, w)
      else
        && (pc.CatchGeneration? || pc.CatchAdopt? || pc.OwnInCatch? || pc.FailRetry? || pc.Mark?)
        && (KnowsStale(pc) ==> Stale(s))
        && (s.row.state.Calling? || s.row.state.Applied? || s.row.state.Compensating?)
  }

  function LeftAfterError(pc: Pc): nat {
    match pc
    case CatchGeneration => 8
    case CatchAdopt => 7
    case OwnInCatch => 6
    case FailRetry => 1
    case _ => Left(pc)
  }

  /** How a recovery ends: undone, or given back by the write that was its last step. */
  predicate Recovered(s: State, w: Owner, last: Action) {
    && At(s, w, Idle) && s.row.owner.None?
    && ((s.row.state.Done? && s.history.compensations > 0) || (last.Write? && Retries(s.row, last.retryAt)))
  }

  lemma ThrowStarts(s: State, w: Owner, a: Action)
    requires s.row.generation <= s.generation && OnItsWay(s, w) && Enabled(s, a) && Throws(s, a, w)
    ensures Recovering(Next(s, a), w) && Next(s, a).workers[w].pc == CatchGeneration
  {
  }

  lemma RecoveryWaits(s: State, w: Owner, a: Action)
    requires Recovering(s, w) && Enabled(s, a) && Quiet(s, a, w) && Waits(a)
    ensures Recovering(Next(s, a), w) && Next(s, a).workers == s.workers
  {
  }

  lemma RecoveryReads(s: State, w: Owner)
    requires Recovering(s, w) && IsRead(s.workers[w].pc)
    ensures Recovering(ReadStep(s, w), w)
    ensures LeftAfterError(ReadStep(s, w).workers[w].pc) < LeftAfterError(s.workers[w].pc)
  {
  }

  lemma RecoveryCalls(s: State, w: Owner, a: Action)
    requires Recovering(s, w) && Enabled(s, a) && Quiet(s, a, w)
    requires a.AdoptReturns? || a.ExecuteReturns? || a.CompensateReturns?
    ensures Recovering(Next(s, a), w)
    ensures LeftAfterError(Next(s, a).workers[w].pc) < LeftAfterError(s.workers[w].pc)
  {
  }

  lemma RecoveryRenews(s: State, w: Owner, until: int)
    requires Recovering(s, w) && IsOwn(s.workers[w].pc)
    ensures CanRenew(s.row, w, s.now) && Recovering(s.(row := Renew(s.row, w, s.now, until)), w)
  {
  }

  lemma RecoveryAdvances(s: State, w: Owner)
    requires Recovering(s, w) && IsOwn(s.workers[w].pc)
    ensures Recovering(With(s, w, s.workers[w].(pc := AfterOwn(s.workers[w].pc))), w)
    ensures LeftAfterError(AfterOwn(s.workers[w].pc)) < LeftAfterError(s.workers[w].pc)
  {
  }

  lemma RecoveryOwns(s: State, w: Owner, until: int)
    requires Recovering(s, w) && IsOwn(s.workers[w].pc)
    ensures Recovering(OwnStep(s, w, false, until), w)
    ensures LeftAfterError(OwnStep(s, w, false, until).workers[w].pc) < LeftAfterError(s.workers[w].pc)
  {
    RecoveryRenews(s, w, until);
    RecoveryAdvances(s.(row := Renew(s.row, w, s.now, until)), w);
  }

  lemma RecoveryMarks(s: State, w: Owner, retryAt: int)
    requires Recovering(s, w) && s.workers[w].pc.Mark?
    ensures Recovering(WriteStep(s, w, retryAt), w)
    ensures LeftAfterError(WriteStep(s, w, retryAt).workers[w].pc) < LeftAfterError(Mark)
  {
  }

  lemma RecoveryEnds(s: State, w: Owner, retryAt: int)
    requires Recovering(s, w) && (s.workers[w].pc.FailRetry? || s.workers[w].pc.DoneCompensated?)
    ensures Recovered(WriteStep(s, w, retryAt), w, Write(w, retryAt))
  {
  }

  lemma RecoveryWrites(s: State, w: Owner, retryAt: int)
    requires Recovering(s, w) && IsWrite(s.workers[w].pc)
    ensures w in WriteStep(s, w, retryAt).workers
    ensures Recovering(WriteStep(s, w, retryAt), w) || Recovered(WriteStep(s, w, retryAt), w, Write(w, retryAt))
    ensures LeftAfterError(WriteStep(s, w, retryAt).workers[w].pc) < LeftAfterError(s.workers[w].pc)
  {
    if s.workers[w].pc.Mark? { RecoveryMarks(s, w, retryAt); } else { RecoveryEnds(s, w, retryAt); }
  }

  lemma RecoveryGoesOn(s: State, w: Owner, a: Action)
    requires Recovering(s, w) && Enabled(s, a) && Quiet(s, a, w)
    ensures w in Next(s, a).workers && (Recovering(Next(s, a), w) || Recovered(Next(s, a), w, a))
    ensures LeftAfterError(Next(s, a).workers[w].pc) + (if Waits(a) then 0 else 1) <= LeftAfterError(s.workers[w].pc)
  {
    match a
    case Read(_) => RecoveryReads(s, w);
    case Own(_, _, until) => RecoveryOwns(s, w, until);
    case Write(_, retryAt) => RecoveryWrites(s, w, retryAt);
    case _ => if Waits(a) { RecoveryWaits(s, w, a); } else { RecoveryCalls(s, w, a); }
  }

  lemma RecoveryNotStuck(s: State, w: Owner)
    requires Acting(s, w) && Recovering(s, w)
    ensures CanGoOn(s, w)
  {
    var a := NextAction(s, w);
    assert Enabled(s, a) && Quiet(s, a, w) && !Waits(a);
  }

  lemma RecoveredStays(s: State, w: Owner, last: Action, a: Action)
    requires Recovered(s, w, last) && Enabled(s, a) && Quiet(s, a, w)
    ensures a.Bump? && Recovered(Next(s, a), w, last)
  {
  }

  /** The last action of a run that is not a new generation. */
  function LastOf(run: Run): Option<Action> {
    match run
    case Begin => None
    case Then(prior, a) => if a.Bump? then LastOf(prior) else Some(a)
  }

  lemma {:induction false} RecoveryRuns(s: State, w: Owner, run: Run)
    requires Acting(s, w) && Recovering(s, w) && QuietRun(s, w, run)
    ensures var t := After(s, run);
      t.Some? ==>
        && Acting(t.value, w)
        && (Recovering(t.value, w) || (LastOf(run).Some? && Recovered(t.value, w, LastOf(run).value)))
        && LeftAfterError(t.value.workers[w].pc) + Steps(run) <= LeftAfterError(s.workers[w].pc)
  {
    if run.Then? && After(s, run.prior).Some? {
      RecoveryRuns(s, w, run.prior);
      var t := After(s, run.prior).value;
      if Enabled(t, run.action) {
        StaysActing(t, w, run.action);
        if Recovering(t, w) {
          RecoveryGoesOn(t, w, run.action);
        } else {
          RecoveredStays(t, w, LastOf(run.prior).value, run.action);
        }
      }
    }
  }

  lemma RecoveredEnd(t: State, w: Owner, last: Action)
    requires Acting(t, w) && Recovered(t, w, last)
    ensures (t.row.state.Done? && UndoneFor(t)) || (last.Write? && Retries(t.row, last.retryAt))
    ensures !Stale(t) ==> last.Write? && forall clock :: Claimable(t.row, clock) <==> last.retryAt < clock
  {
  }

  lemma RecoveryRunEnds(s: State, w: Owner, rest: Run, t: State)
    requires Acting(s, w) && Recovering(s, w) && QuietRun(s, w, rest) && After(s, rest) == Some(t)
    ensures Steps(rest) <= LeftAfterError(s.workers[w].pc) && (!At(t, w, Idle) ==> CanGoOn(t, w))
    ensures At(t, w, Idle) ==>
      || (t.row.state.Done? && UndoneFor(t))
      || (LastOf(rest).Some? && LastOf(rest).value.Write? && Retries(t.row, LastOf(rest).value.retryAt))
    ensures At(t, w, Idle) && !Stale(t) ==>
      && LastOf(rest).Some? && LastOf(rest).value.Write?
      && forall clock :: Claimable(t.row, clock) <==> LastOf(rest).value.retryAt < clock
  {
    RecoveryRuns(s, w, rest);
    if Recovering(t, w) { RecoveryNotStuck(t, w); } else { RecoveredEnd(t, w, LastOf(rest).value); }
  }

  /**
   When a call throws and the worker is left alone from then on, it is done after at most eight steps and can always
   take the next one.  The effect is then undone, or back in calling without an owner, to be claimed by anyone after
   the retry time; it is the second whenever the effect is not stale.
  */
  lemma ThrownIsUndoneOrRetried(s: State, w: Owner, a: Action, rest: Run, t: State)
    requires Acting(s, w) && OnItsWay(s, w) && Enabled(s, a) && Throws(s, a, w)
    requires QuietRun(Next(s, a), w, rest) && After(Next(s, a), rest) == Some(t)
    ensures Steps(rest) <= 8 && (!At(t, w, Idle) ==> CanGoOn(t, w))
    ensures At(t, w, Idle) ==>
      || (t.row.state.Done? && UndoneFor(t))
      || (LastOf(rest).Some? && LastOf(rest).value.Write? && Retries(t.row, LastOf(rest).value.retryAt))
    ensures At(t, w, Idle) && !Stale(t) ==>
      && LastOf(rest).Some? && LastOf(rest).value.Write?
      && forall clock :: Claimable(t.row, clock) <==> LastOf(rest).value.retryAt < clock
  {
    ThrowStarts(s, w, a);
    ActorKeepsInv(s, a);
    RecoveryRunEnds(Next(s, a), w, rest, t);
  }

  /** The recovery of a stale effect, by whether the resource was there when it began. */
  predicate RecoversStale(s: State, w: Owner, live: bool) {
    && Stale(s) && s.row.generation <= s.generation && w in s.workers
    && var pc := s.workers[w].pc;
      if pc.Idle? then s.row.owner.None? && (s.row.state.Done? <==> live)
      else
        && Recovering(s, w)
        && (if pc.CatchGeneration? || pc.CatchAdopt? then s.remote.live == live else if pc.FailRetry? then !live else live)
  }

  lemma RecoversStaleWaits(s: State, w: Owner, live: bool, a: Action)
    requires RecoversStale(s, w, live) && Enabled(s, a) && Quiet(s, a, w) && Waits(a)
    ensures RecoversStale(Next(s, a), w, live)
  {
  }

  lemma RecoversStaleWrites(s: State, w: Owner, live: bool, retryAt: int)
    requires RecoversStale(s, w, live) && IsWrite(s.workers[w].pc)
    ensures RecoversStale(WriteStep(s, w, retryAt), w, live)
  {
    RecoveryWrites(s, w, retryAt);
  }

  lemma RecoversStaleAdvances(s: State, w: Owner, live: bool)
    requires RecoversStale(s, w, live) && IsOwn(s.workers[w].pc)
    ensures RecoversStale(With(s, w, s.workers[w].(pc := AfterOwn(s.workers[w].pc))), w, live)
  {
    RecoveryAdvances(s, w);
  }

  lemma RecoversStaleOwns(s: State, w: Owner, live: bool, until: int)
    requires RecoversStale(s, w, live) && IsOwn(s.workers[w].pc)
    ensures RecoversStale(OwnStep(s, w, false, until), w, live)
  {
    RecoveryRenews(s, w, until);
    RecoversStaleAdvances(s.(row := Renew(s.row, w, s.now, until)), w, live);
  }

  lemma RecoversStaleCalls(s: State, w: Owner, live: bool, a: Action)
    requires RecoversStale(s, w, live) && Enabled(s, a) && Quiet(s, a, w) && !Waits(a) && !a.Write? && !a.Own?
    ensures RecoversStale(Next(s, a), w, live)
  {
    RecoveryGoesOn(s, w, a);
  }

  lemma RecoversStaleStep(s: State, w: Owner, live: bool, a: Action)
    requires RecoversStale(s, w, live) && Enabled(s, a) && Quiet(s, a, w)
    ensures RecoversStale(Next(s, a), w, live)
  {
    match a
    case Own(_, _, until) => RecoversStaleOwns(s, w, live, until);
    case Write(_, retryAt) => RecoversStaleWrites(s, w, live, retryAt);
    case _ => if Waits(a) { RecoversStaleWaits(s, w, live, a); } else { RecoversStaleCalls(s, w, live, a); }
  }

  /** When a call on a stale effect throws, the effect is undone at once if and only if its resource is found. */
  lemma {:induction false} StaleThrowIsUndoneIffFound(s: State, w: Owner, run: Run)
    requires At(s, w, CatchGeneration) && Recovering(s, w) && Stale(s) && QuietRun(s, w, run)
    ensures var t := After(s, run);
      t.Some? ==>
        && RecoversStale(t.value, w, s.remote.live)
        && (At(t.value, w, Idle) ==> (t.value.row.state.Done? <==> s.remote.live))
  {
    if run.Then? && After(s, run.prior).Some? {
      StaleThrowIsUndoneIffFound(s, w, run.prior);
      var t := After(s, run.prior).value;
      if Enabled(t, run.action) { RecoversStaleStep(t, w, s.remote.live, run.action); }
    }
  }

  /** Every state of a worker that is left alone after a claim is one the laws about errors speak of. */
  lemma LeftAloneIsOnItsWay(
    start: State, run: Run, s: State, w: Owner, clock: int, leaseMs: nat, hash: Hash, more: Run, t: State)
    requires Init(start) && OrderlyRun(start, run) && After(start, run) == Some(s)
    requires At(s, w, Idle) && Unsettled(s.row, clock) && Orderly(s, Claim(w, clock, leaseMs, hash))
    requires clock + leaseMs > s.now && SameRequest(s.row, hash)
    requires var c := Next(s, Claim(w, clock, leaseMs, hash)); QuietRun(c, w, more) && After(c, more) == Some(t)
    ensures Acting(t, w) && (At(t, w, Idle) || OnItsWay(t, w))
  {
    RunKeepsInv(start, run);
    ClaimStarts(s, w, clock, leaseMs, hash);
    RunGoesOn(ClaimStep(s, w, clock, leaseMs, hash), w, Stale(s), more);
  }

  // ----- a request or a resource that is not ours -----

  predicate Failing(s: State, w: Owner) {
    && LeaseLive(s.row, w, s.now) && (s.row.state.Planned? || s.row.state.Calling?)
    && (At(s, w, FailPermanently) || (At(s, w, OwnAfterCollision) && s.row.state.Calling?))
  }

  /** The row is failed for good: nobody owns it and nobody can claim it. */
  ghost predicate FailedForGood(row: Row) { row.state.Failed? && row.owner.None? && forall clock :: !Claimable(row, clock) }

  lemma FailingStep(s: State, w: Owner, a: Action)
    requires Failing(s, w) && Enabled(s, a) && Quiet(s, a, w)
    ensures Failing(Next(s, a), w) || (At(Next(s, a), w, Idle) && FailedForGood(Next(s, a).row))
    ensures Next(s, a).remote == s.remote
  {
  }

  lemma {:induction false} FailingRuns(s: State, w: Owner, run: Run)
    requires Failing(s, w) && QuietRun(s, w, run)
    ensures var t := After(s, run);
      t.Some? ==>
        && t.value.remote == s.remote
        && (Failing(t.value, w) || (At(t.value, w, Idle) && FailedForGood(t.value.row)))
  {
    if run.Then? && After(s, run.prior).Some? {
      FailingRuns(s, w, run.prior);
      var t := After(s, run.prior).value;
      if Enabled(t, run.action) && Failing(t, w) { FailingStep(t, w, run.action); }
    }
  }

  /** When the remote side has something else under our identity, the effect fails for good and nothing is made. */
  lemma CollisionFails(s: State, w: Owner, rest: Run, t: State)
    requires OnItsWay(s, w) && Enabled(s, AdoptReturns(w, Foreign)) && At(s, w, Adopt)
    requires QuietRun(Next(s, AdoptReturns(w, Foreign)), w, rest)
    requires After(Next(s, AdoptReturns(w, Foreign)), rest) == Some(t) && At(t, w, Idle)
    ensures FailedForGood(t.row) && t.remote == s.remote
  {
    FailingRuns(Next(s, AdoptReturns(w, Foreign)), w, rest);
  }

  /** When the effect was first called for another request, its first check fails it for good and nothing is made. */
  lemma MismatchFails(s: State, w: Owner, clock: int, leaseMs: nat, hash: Hash, rest: Run, t: State)
    requires At(s, w, Idle) && Unsettled(s.row, clock) && clock + leaseMs > s.now && !Stale(s)
    requires (s.row.state.Planned? || s.row.state.Calling?) && !SameRequest(s.row, hash)
    requires var c := ReadStep(ClaimStep(s, w, clock, leaseMs, hash), w); QuietRun(c, w, rest) && After(c, rest) == Some(t)
    ensures At(t, w, Idle) ==> FailedForGood(t.row)
    ensures t.remote == s.remote
  {
    FailingRuns(ReadStep(ClaimStep(s, w, clock, leaseMs, hash), w), w, rest);
  }

  // ----- leases -----

  /** What a worker without the lease does in the table changes nothing, until it claims the row. */
  lemma StrangerIsFenced(s: State, a: Action, w: Owner)
    requires Enabled(s, a) && s.row.owner != Some(w) && !a.Tick? && !a.Bump? && !a.Claim? && a.w == w
    ensures Next(s, a).row == s.row
  {
  }

  /** An ownership check or the renewal timer keeps everyone else out until the time it asks for. */
  lemma RenewalHolds(s: State, a: Action, w: Owner, until: int, time: int)
    requires OnItsWay(s, w) && Enabled(s, a) && !s.row.state.Planned?
    requires a == KeepAlive(w, until) || (a == Own(w, false, until))
    requires time < until || time < s.row.leaseExpires.value
    ensures LeaseLive(Next(s, a).row, w, time) && !Claimable(Next(s, a).row, time)
  {
  }

  // ----- the request of an effect -----

  /** What a worker can be doing while nobody has called yet. */
  predicate BeforeCalling(row: Row, me: Worker) {
    || me.pc.Idle?
    || (!me.inTry && ((me.pc.ReadGeneration? && me.claimed.state.Planned?) || me.pc.FencePersist? || me.pc.Persist?
                      || (me.pc.FailPermanently? && row.requestHash.Some?)))
  }

  predicate RequestKnown(row: Row, me: Worker) {
    && (!me.pc.Idle? && me.claimed.requestHash.Some? ==> row.requestHash == me.claimed.requestHash)
    && (row.state.Planned? ==> BeforeCalling(row, me))
  }

  /** An effect that was ever called has its request on record. */
  predicate RequestRecorded(s: State) {
    && (!s.row.state.Planned? ==> s.row.requestHash.Some?)
    && forall w | w in s.workers :: RequestKnown(s.row, s.workers[w])
  }

  lemma RowStaysNamed(s: State, a: Action)
    requires RequestRecorded(s) && Enabled(s, a)
    ensures s.row.requestHash.Some? ==> Next(s, a).row.requestHash == s.row.requestHash
    ensures !Next(s, a).row.state.Planned? ==> Next(s, a).row.requestHash.Some?
    ensures Next(s, a).row.state.Planned? ==> s.row.state.Planned?
  {
  }

  /** Workers that do not act know what they knew. */
  lemma OthersStayNamed(s: State, a: Action, v: Owner)
    requires RequestRecorded(s) && Enabled(s, a) && v in s.workers && Next(s, a).workers[v] == s.workers[v]
    ensures RequestKnown(Next(s, a).row, s.workers[v])
  {
    RowStaysNamed(s, a);
    assert RequestKnown(s.row, s.workers[v]);
  }

  lemma ReaderStaysNamed(s: State, w: Owner)
    requires RequestRecorded(s) && Enabled(s, Read(w))
    ensures RequestKnown(s.row, ReadStep(s, w).workers[w])
  {
    assert RequestKnown(s.row, s.workers[w]);
  }

  lemma WriterStaysNamed(s: State, w: Owner, retryAt: int)
    requires RequestRecorded(s) && Enabled(s, Write(w, retryAt))
    ensures RequestKnown(WriteStep(s, w, retryAt).row, WriteStep(s, w, retryAt).workers[w])
  {
    assert RequestKnown(s.row, s.workers[w]);
  }

  lemma CallerStaysNamed(s: State, a: Action)
    requires RequestRecorded(s) && Enabled(s, a) && !a.Tick? && !a.Bump? && !a.Read? && !a.Write?
    ensures RequestKnown(Next(s, a).row, Next(s, a).workers[a.w])
  {
    if a.w in s.workers { assert RequestKnown(s.row, s.workers[a.w]); }
  }

  lemma WorkerStaysNamed(s: State, a: Action, v: Owner)
    requires RequestRecorded(s) && Enabled(s, a) && v in Next(s, a).workers
    ensures RequestKnown(Next(s, a).row, Next(s, a).workers[v])
  {
    if a.Tick? || a.Bump? || a.w != v { OthersStayNamed(s, a, v); }
    else if a.Read? { ReaderStaysNamed(s, v); }
    else if a.Write? { WriterStaysNamed(s, v, a.retryAt); }
    else { CallerStaysNamed(s, a); }
  }

  /** In every run the first call puts the request on record, and no later one changes it. */
  lemma {:induction false} RequestInEveryRun(s: State, run: Run)
    requires Init(s)
    ensures var t := After(s, run);
      t.Some? ==> RequestRecorded(t.value) && (s.row.requestHash.Some? ==> t.value.row.requestHash == s.row.requestHash)
  {
    if run.Then? && After(s, run.prior).Some? {
      RequestInEveryRun(s, run.prior);
      var t := After(s, run.prior).value;
      if Enabled(t, run.action) {
        RowStaysNamed(t, run.action);
        forall v | v in Next(t, run.action).workers
          ensures RequestKnown(Next(t, run.action).row, Next(t, run.action).workers[v])
        {
          WorkerStaysNamed(t, run.action, v);
        }
      }
    }
  }
}
