/**
 The durable effect runner: any number of workers drive one row of `external_effects`
 against one remote resource.  Each step of a worker is one `await` of the source, so every
 interleaving of workers, crashes, lease expiries, takeovers and generation bumps is a
 sequence of `Action`s.
*/
module EffectRunner {
  import opened Wrappers

  type Owner = nat
  type RemoteId = nat
  type Hash = nat

  datatype EffectState = Planned | Calling | Applied | Compensating | Done | Failed

  datatype Row = Row(
    state: EffectState,
    generation: nat,
    requestHash: Option<Hash>,
    remoteId: Option<RemoteId>,
    owner: Option<Owner>,
    leaseExpires: Option<int>)

  // ----- the SQL statements, each one guarded atomic update of the row -----

  predicate LeaseLive(row: Row, w: Owner, now: int) {
    row.owner == Some(w) && row.leaseExpires.Some? && row.leaseExpires.value > now
  }

  predicate Claimable(row: Row, clock: int) {
    && (row.state.Planned? || row.state.Calling? || row.state.Applied? || row.state.Compensating?)
    && (row.leaseExpires.None? || row.leaseExpires.value < clock)
  }

  predicate CanPersistCalling(row: Row, w: Owner, hash: Hash) {
    && row.owner == Some(w)
    && (row.state.Planned? || row.state.Calling?)
    && (row.requestHash.None? || row.requestHash == Some(hash))
  }

  function PersistCalling(row: Row, w: Owner, hash: Hash): Row {
    if CanPersistCalling(row, w, hash) then row.(state := Calling, requestHash := Some(hash)) else row
  }

  predicate CanRenew(row: Row, w: Owner, now: int) {
    LeaseLive(row, w, now) && (row.state.Calling? || row.state.Applied? || row.state.Compensating?)
  }

  function Renew(row: Row, w: Owner, now: int, until: int): Row {
    if CanRenew(row, w, now) && until > row.leaseExpires.value
    then row.(leaseExpires := Some(until)) else row
  }

  predicate CanMarkApplied(row: Row, w: Owner, now: int, generation: nat) {
    LeaseLive(row, w, now) && row.state == Calling && row.generation == generation
  }

  function MarkApplied(row: Row, w: Owner, now: int, generation: nat, remoteId: Option<RemoteId>): Row {
    if CanMarkApplied(row, w, now, generation) then row.(state := Applied, remoteId := remoteId) else row
  }

  function MarkDone(row: Row, w: Owner, now: int): Row {
    if CanRenew(row, w, now) then row.(state := Done, owner := None, leaseExpires := None) else row
  }

  function MarkCompensating(row: Row, w: Owner, now: int): Row {
    if LeaseLive(row, w, now) then row.(state := Compensating) else row
  }

  /** Without a retry time the failure is permanent; the guard asks for the owner only. */
  function MarkFailed(row: Row, w: Owner, retryAt: Option<int>): Row {
    if row.owner == Some(w)
    then row.(state := if retryAt.None? then Failed else Calling, owner := None, leaseExpires := retryAt)
    else row
  }

  // ----- workers, remote side, history -----

  /** Where a worker's `run` is suspended.  `Own*` is a `requireOwnership`, `Gen*` a read of the
      current generation; the others are named after the call they are about to make. */
  datatype Pc =
    | Idle
    | ReadGeneration | FencePersist | Persist
    | OwnBeforeCall | GenBeforeCall | Adopt | Execute
    | OwnAfterCall | GenAfterCall | OwnAfterAdopt | GenAfterAdopt | OwnAfterCollision
    | Apply | GenAfterReject | OwnAfterReject
    | OwnResume | GenResume | OwnBeforeDone | DoneApplied
    | Mark | OwnBeforeCompensate | Compensate | OwnAfterCompensate | DoneCompensated
    | CatchGeneration | CatchAdopt | OwnInCatch
    | FailPermanently | FailRetry

  datatype Worker = Worker(pc: Pc, inTry: bool, claimed: Row, remote: Option<RemoteId>, hash: Hash)

  /** `created` counts creations; `made` is the identity of the last one, `live` whether it exists. */
  datatype Remote = Remote(created: nat, made: Option<RemoteId>, live: bool)

  /** `owed`: the lease holder's generation check found the effect stale and no compensation
      call has completed since. */
  datatype History = History(applied: bool, compensations: nat, owed: bool)

  datatype State = State(
    now: int, generation: nat, row: Row, remote: Remote, workers: map<Owner, Worker>, history: History)

  datatype AdoptReply = NotFound | Found(id: RemoteId) | Foreign

  datatype Action =
    | Tick(to: int)
    | Bump
    | Claim(w: Owner, clock: int, leaseMs: nat, hash: Hash)
    | KeepAlive(w: Owner, until: int)
    | Crash(w: Owner)
    | Abort(w: Owner)
    | Read(w: Owner)
    | Own(w: Owner, lost: bool, until: int)
    | Write(w: Owner, retryAt: int)
    | AdoptReturns(w: Owner, reply: AdoptReply)
    | ExecuteReturns(w: Owner, id: RemoteId, reported: bool)
    | ExecuteThrows(w: Owner, id: RemoteId, made: bool)
    | CompensateReturns(w: Owner)
    | CompensateThrows(w: Owner, removed: bool)

  predicate IsRead(pc: Pc) {
    || pc.ReadGeneration? || pc.GenBeforeCall? || pc.GenAfterCall? || pc.GenAfterAdopt?
    || pc.GenAfterReject? || pc.GenResume? || pc.CatchGeneration?
  }

  predicate IsOwn(pc: Pc) {
    || pc.OwnBeforeCall? || pc.OwnAfterCall? || pc.OwnAfterAdopt? || pc.OwnAfterCollision? || pc.OwnAfterReject?
    || pc.OwnResume? || pc.OwnBeforeDone? || pc.OwnBeforeCompensate? || pc.OwnAfterCompensate? || pc.OwnInCatch?
  }

  predicate IsWrite(pc: Pc) {
    || pc.FencePersist? || pc.Persist? || pc.Apply? || pc.DoneApplied? || pc.DoneCompensated? || pc.Mark?
    || pc.FailPermanently? || pc.FailRetry?
  }

  predicate At(s: State, w: Owner, pc: Pc) {
    w in s.workers && s.workers[w].pc == pc
  }

  /** When an action can happen.  The remote side is assumed to answer `adopt` truthfully. */
  predicate Enabled(s: State, a: Action) {
    match a
    case Tick(to) => s.now <= to
    case Bump => true
    case Claim(w, clock, _, _) => At(s, w, Idle) && Claimable(s.row, clock)
    case KeepAlive(w, _) => w in s.workers
    case Crash(w) => w in s.workers
    case Abort(w) => w in s.workers && !s.workers[w].pc.Idle?
    case Read(w) => w in s.workers && IsRead(s.workers[w].pc)
    case Own(w, _, _) => w in s.workers && IsOwn(s.workers[w].pc)
    case Write(w, _) => w in s.workers && IsWrite(s.workers[w].pc)
    case AdoptReturns(w, reply) =>
      && (At(s, w, Adopt) || At(s, w, CatchAdopt))
      && (if s.remote.live then s.remote.made.Some? && reply == Found(s.remote.made.value) else !reply.Found?)
    case ExecuteReturns(w, _, _) => At(s, w, Execute)
    case ExecuteThrows(w, _, _) => At(s, w, Execute)
    case CompensateReturns(w) => At(s, w, Compensate)
    case CompensateThrows(w, _) => At(s, w, Compensate)
  }

  function Stale(s: State): bool { s.generation != s.row.generation }

  function AfterRead(w: Worker, stale: bool): Worker {
    match w.pc
    case ReadGeneration =>
      if w.claimed.state == Compensating || stale then
        w.(pc := if w.claimed.state == Planned then FencePersist
                 else if w.claimed.state == Compensating then OwnBeforeCompensate else Mark)
      else if w.claimed.requestHash.Some? && w.claimed.requestHash.value != w.hash then w.(pc := FailPermanently)
      else w.(pc := Persist)
    case GenBeforeCall => if stale then w.(pc := Mark) else w.(pc := Adopt, inTry := true)
    case GenAfterCall => w.(pc := if stale then Mark else Apply)
    case GenAfterAdopt => w.(pc := if stale then Mark else Apply)
    case GenAfterReject => w.(pc := if stale then OwnAfterReject else Idle)
    case GenResume => w.(pc := if stale then Mark else DoneApplied)
    case CatchGeneration => w.(pc := if stale then CatchAdopt else FailRetry)
    case _ => w
  }

  function AfterOwn(pc: Pc): Pc {
    match pc
    case OwnBeforeCall => GenBeforeCall
    case OwnAfterCall => GenAfterCall
    case OwnAfterAdopt => GenAfterAdopt
    case OwnAfterCollision => FailPermanently
    case OwnAfterReject => Mark
    case OwnResume => GenResume
    case OwnBeforeDone => DoneApplied
    case OwnBeforeCompensate => Compensate
    case OwnAfterCompensate => DoneCompensated
    case OwnInCatch => Mark
    case _ => pc
  }

  /** An error that is not a lost lease: caught inside `executeRemoteEffect`, otherwise it ends the run. */
  function Raised(w: Worker): Worker {
    if w.inTry then w.(pc := CatchGeneration, inTry := false) else w.(pc := Idle, inTry := false)
  }

  function Ended(w: Worker): Worker { w.(pc := Idle, inTry := false) }

  function With(s: State, w: Owner, worker: Worker): State {
    s.(workers := s.workers[w := worker])
  }

  function WriteStep(s: State, w: Owner, retryAt: int): State
    requires w in s.workers
  {
    var me := s.workers[w];
    match me.pc
    case FencePersist =>
      With(s.(row := PersistCalling(s.row, w, me.hash)), w,
           if CanPersistCalling(s.row, w, me.hash) then me.(pc := Mark, remote := s.row.remoteId)
           else me.(pc := Idle))
    case Persist =>
      With(s.(row := PersistCalling(s.row, w, me.hash)), w,
           if CanPersistCalling(s.row, w, me.hash) then me.(pc := OwnBeforeCall, remote := s.row.remoteId)
           else me.(pc := Idle))
    case Apply =>
      var ok := CanMarkApplied(s.row, w, s.now, s.generation);
      With(s.(row := MarkApplied(s.row, w, s.now, s.generation, me.remote),
              history := s.history.(applied := s.history.applied || ok)),
           w, me.(pc := if ok then OwnBeforeDone else GenAfterReject))
    case DoneApplied => With(s.(row := MarkDone(s.row, w, s.now)), w, me.(pc := Idle))
    case DoneCompensated => With(s.(row := MarkDone(s.row, w, s.now)), w, me.(pc := Idle))
    case Mark => With(s.(row := MarkCompensating(s.row, w, s.now)), w, me.(pc := OwnBeforeCompensate))
    case FailPermanently => With(s.(row := MarkFailed(s.row, w, None)), w, me.(pc := Idle))
    case FailRetry => With(s.(row := MarkFailed(s.row, w, Some(retryAt))), w, me.(pc := Idle))
    case _ => s
  }

  function Created(r: Remote, id: RemoteId): Remote { Remote(r.created + 1, Some(id), true) }

  /** Compensation removes the named resource, or whatever adoption finds when no name is known. */
  function Removed(r: Remote, id: Option<RemoteId>): Remote {
    if id.None? || id == r.made then r.(live := false) else r
  }

  function ClaimStep(s: State, w: Owner, clock: int, leaseMs: nat, hash: Hash): State {
    var row := s.row.(owner := Some(w), leaseExpires := Some(clock + leaseMs));
    With(s.(row := row), w,
         Worker(if row.state == Applied then OwnResume else ReadGeneration, false, row, row.remoteId, hash))
  }

  function ReadStep(s: State, w: Owner): State
    requires w in s.workers
  {
    var found := Stale(s) && s.row.owner == Some(w);
    With(s.(history := s.history.(owed := s.history.owed || found)), w, AfterRead(s.workers[w], Stale(s)))
  }

  function OwnStep(s: State, w: Owner, lost: bool, until: int): State
    requires w in s.workers
  {
    if lost || !CanRenew(s.row, w, s.now) then With(s, w, Ended(s.workers[w]))
    else With(s.(row := Renew(s.row, w, s.now, until)), w, s.workers[w].(pc := AfterOwn(s.workers[w].pc)))
  }

  function AdoptStep(s: State, w: Owner, reply: AdoptReply): State
    requires w in s.workers
  {
    var me := s.workers[w];
    var inCatch := me.pc == CatchAdopt;
    With(s, w,
         match reply
         case Found(id) => me.(pc := if inCatch then OwnInCatch else OwnAfterAdopt, remote := Some(id))
         case NotFound => me.(pc := if inCatch then FailRetry else Execute)
         case Foreign => me.(pc := if inCatch then FailRetry else OwnAfterCollision))
  }

  function ExecuteStep(s: State, w: Owner, id: RemoteId, reported: bool): State
    requires w in s.workers
  {
    With(s.(remote := Created(s.remote, id)), w,
         s.workers[w].(pc := OwnAfterCall, remote := if reported then Some(id) else None))
  }

  function ExecuteErrorStep(s: State, w: Owner, id: RemoteId, made: bool): State
    requires w in s.workers
  {
    With(s.(remote := if made then Created(s.remote, id) else s.remote), w, Raised(s.workers[w]))
  }

  function CompensateStep(s: State, w: Owner): State
    requires w in s.workers
  {
    With(s.(remote := Removed(s.remote, s.workers[w].remote),
            history := s.history.(compensations := s.history.compensations + 1, owed := false)),
         w, s.workers[w].(pc := OwnAfterCompensate))
  }

  function CompensateErrorStep(s: State, w: Owner, removed: bool): State
    requires w in s.workers
  {
    With(s.(remote := if removed then Removed(s.remote, s.workers[w].remote) else s.remote), w, Raised(s.workers[w]))
  }

  function Next(s: State, a: Action): State
    requires Enabled(s, a)
  {
    match a
    case Tick(to) => s.(now := to)
    case Bump => s.(generation := s.generation + 1)
    case Claim(w, clock, leaseMs, hash) => ClaimStep(s, w, clock, leaseMs, hash)
    case KeepAlive(w, until) => s.(row := Renew(s.row, w, s.now, until))
    case Crash(w) => With(s, w, Ended(s.workers[w]))
    case Abort(w) => With(s, w, Raised(s.workers[w]))
    case Read(w) => ReadStep(s, w)
    case Own(w, lost, until) => OwnStep(s, w, lost, until)
    case Write(w, retryAt) => WriteStep(s, w, retryAt)
    case AdoptReturns(w, reply) => AdoptStep(s, w, reply)
    case ExecuteReturns(w, id, reported) => ExecuteStep(s, w, id, reported)
    case ExecuteThrows(w, id, made) => ExecuteErrorStep(s, w, id, made)
    case CompensateReturns(w) => CompensateStep(s, w)
    case CompensateThrows(w, removed) => CompensateErrorStep(s, w, removed)
  }

  predicate Init(s: State) {
    && s.row.state == Planned && s.row.owner.None? && s.row.leaseExpires.None? && s.row.remoteId.None?
    && s.row.generation <= s.generation
    && s.remote == Remote(0, None, false)
    && s.history == History(false, 0, false)
    && forall w | w in s.workers :: s.workers[w].pc == Idle && s.workers[w].remote.None?
  }

  // ----- runs -----

  /** From its ownership check before the remote call to the end of that call. */
  predicate InCall(pc: Pc) { (pc.GenBeforeCall? || pc.Adopt? || pc.Execute?) }

  /** The timing hypothesis: nobody takes the effect over while a holder is inside its call. */
  predicate Orderly(s: State, a: Action) {
    a.Claim? ==> forall v | v in s.workers :: !InCall(s.workers[v].pc)
  }

  datatype Run = Begin | Then(prior: Run, action: Action)

  /** The state a run ends in, if each of its actions could happen. */
  function After(s: State, run: Run): Option<State> {
    match run
    case Begin => Some(s)
    case Then(prior, a) =>
      match After(s, prior)
      case None => None
      case Some(t) => if Enabled(t, a) then Some(Next(t, a)) else None
  }

  predicate OrderlyRun(s: State, run: Run) {
    match run
    case Begin => true
    case Then(prior, a) =>
      OrderlyRun(s, prior) && match After(s, prior) case None => true case Some(t) => Orderly(t, a)
  }

  // ----- the inductive invariant -----

  predicate PastCheck(pc: Pc) {
    (pc.Adopt? || pc.Execute? || pc.OwnAfterCall? || pc.GenAfterCall? || pc.OwnAfterAdopt? || pc.GenAfterAdopt? || pc.Apply?)
  }

  predicate HasResource(pc: Pc) {
    (pc.OwnAfterCall? || pc.GenAfterCall? || pc.OwnAfterAdopt? || pc.GenAfterAdopt? || pc.Apply?)
  }

  predicate Undoing(pc: Pc) { (pc.Compensate? || pc.OwnAfterCompensate? || pc.DoneCompensated?) }

  predicate KnowsStale(pc: Pc) {
    || Undoing(pc) || pc.FencePersist? || pc.Mark? || pc.OwnBeforeCompensate? || pc.OwnAfterReject?
    || pc.CatchAdopt? || pc.OwnInCatch?
  }

  /** No holder has passed its last check, and nothing has been settled without compensation. */
  predicate UndoAllowed(s: State) {
    && !s.row.state.Applied?
    && !(s.row.state.Done? && s.history.compensations == 0)
    && !(s.row.owner.Some? && s.row.owner.value in s.workers && PastCheck(s.workers[s.row.owner.value].pc))
  }

  predicate NameOk(r: Remote, id: Option<RemoteId>) { id.None? || id == r.made }

  predicate WorkerInv(s: State, w: Owner)
    requires w in s.workers
  {
    var me := s.workers[w];
    var holds := s.row.owner == Some(w);
    && NameOk(s.remote, me.remote)
    && (InCall(me.pc) ==> holds)
    && (KnowsStale(me.pc) ==> Stale(s))
    && (me.pc == ReadGeneration && me.claimed.state == Compensating ==> Stale(s) && (holds ==> s.row.state == Compensating))
    && (Undoing(me.pc) ==> UndoAllowed(s))
    && (holds && PastCheck(me.pc) ==> s.remote.created == 0 || s.remote.live)
    && (me.pc == Execute ==> !s.remote.live)
    && (holds && HasResource(me.pc) ==> s.remote.live)
    && (holds && (me.pc.OwnResume? || me.pc.GenResume? || me.pc.OwnBeforeDone? || me.pc.DoneApplied?) ==>
          s.row.state == Applied)
    && (holds && (me.pc.OwnBeforeDone? || me.pc.DoneApplied?) ==> !s.history.owed)
    && (me.pc == OwnBeforeCompensate && LeaseLive(s.row, w, s.now) ==> s.row.state == Compensating)
    && (holds && Undoing(me.pc) ==> s.row.state == Compensating)
    && (holds && (me.pc.OwnAfterCompensate? || me.pc.DoneCompensated?) ==>
          !s.history.owed && !s.remote.live && s.history.compensations > 0)
  }

  predicate RowInv(s: State) {
    && s.row.generation <= s.generation
    && NameOk(s.remote, s.row.remoteId)
    && (s.row.state == Compensating ==> Stale(s))
    && (s.row.state == Applied ==>
          s.remote.live && s.history.applied && s.history.compensations == 0)
    && (s.row.state == Done ==>
          && s.row.owner.None? && !s.history.owed
          && (if s.history.compensations == 0 then s.remote.live && s.history.applied
              else !s.remote.live))
  }

  predicate RemoteInv(s: State) {
    && s.remote.created <= 1
    && (s.remote.live ==> s.remote.created == 1)
    && (s.remote.created == 0 <==> s.remote.made.None?)
    && (s.remote.created == 1 && !s.remote.live ==> Stale(s))
    && (s.history.compensations > 0 || s.history.owed ==> Stale(s))
  }

  predicate Inv(s: State) {
    RowInv(s) && RemoteInv(s) && forall w | w in s.workers :: WorkerInv(s, w)
  }

  // For each kind of step: the shared state and the acting worker, then any bystander.

  predicate Acting(s: State, w: Owner) {
    RowInv(s) && RemoteInv(s) && w in s.workers && WorkerInv(s, w)
  }

  predicate Bystander(s: State, w: Owner, v: Owner) {
    Acting(s, w) && v in s.workers && v != w && WorkerInv(s, v)
  }

  lemma FirstReadActor(s: State, w: Owner)
    requires Acting(s, w) && s.workers[w].pc.ReadGeneration?
    ensures Acting(ReadStep(s, w), w)
  {
  }

  lemma CallReadActor(s: State, w: Owner)
    requires Acting(s, w)
    requires s.workers[w].pc.GenBeforeCall? || s.workers[w].pc.GenAfterCall? || s.workers[w].pc.GenAfterAdopt?
    ensures Acting(ReadStep(s, w), w)
  {
  }

  lemma LastReadActor(s: State, w: Owner)
    requires Acting(s, w)
    requires s.workers[w].pc.GenAfterReject? || s.workers[w].pc.GenResume? || s.workers[w].pc.CatchGeneration?
    ensures Acting(ReadStep(s, w), w)
  {
  }

  lemma ReadBystander(s: State, w: Owner, v: Owner)
    requires Bystander(s, w, v) && IsRead(s.workers[w].pc)
    ensures WorkerInv(ReadStep(s, w), v)
  {
  }

  lemma RenewActor(s: State, w: Owner, until: int)
    requires Acting(s, w) && CanRenew(s.row, w, s.now)
    ensures var t := s.(row := Renew(s.row, w, s.now, until)); Acting(t, w) && CanRenew(t.row, w, t.now)
  {
  }

  /** The holder passes an ownership check. */
  lemma AdvanceActor(s: State, w: Owner)
    requires Acting(s, w) && CanRenew(s.row, w, s.now) && IsOwn(s.workers[w].pc)
    ensures Acting(With(s, w, s.workers[w].(pc := AfterOwn(s.workers[w].pc))), w)
  {
  }

  lemma EndedActor(s: State, w: Owner)
    requires Acting(s, w)
    ensures Acting(With(s, w, Ended(s.workers[w])), w)
  {
  }

  lemma OwnActor(s: State, w: Owner, lost: bool, until: int)
    requires Acting(s, w) && IsOwn(s.workers[w].pc)
    ensures Acting(OwnStep(s, w, lost, until), w)
  {
    if lost || !CanRenew(s.row, w, s.now) {
      EndedActor(s, w);
    } else {
      RenewActor(s, w, until);
      AdvanceActor(s.(row := Renew(s.row, w, s.now, until)), w);
    }
  }

  lemma OwnBystander(s: State, w: Owner, lost: bool, until: int, v: Owner)
    requires Bystander(s, w, v) && IsOwn(s.workers[w].pc)
    ensures WorkerInv(OwnStep(s, w, lost, until), v)
  {
  }

  lemma PersistActor(s: State, w: Owner, retryAt: int)
    requires Acting(s, w) && (s.workers[w].pc.FencePersist? || s.workers[w].pc.Persist? || s.workers[w].pc.Mark?)
    ensures Acting(WriteStep(s, w, retryAt), w)
  {
  }

  lemma ApplyActor(s: State, w: Owner, retryAt: int)
    requires Acting(s, w) && s.workers[w].pc.Apply?
    ensures Acting(WriteStep(s, w, retryAt), w)
  {
  }

  lemma SettleActor(s: State, w: Owner, retryAt: int)
    requires Acting(s, w)
    requires
      || s.workers[w].pc.DoneApplied? || s.workers[w].pc.DoneCompensated?
      || s.workers[w].pc.FailPermanently? || s.workers[w].pc.FailRetry?
    ensures Acting(WriteStep(s, w, retryAt), w)
  {
  }

  lemma WriteBystander(s: State, w: Owner, retryAt: int, v: Owner)
    requires Bystander(s, w, v) && IsWrite(s.workers[w].pc)
    ensures WorkerInv(WriteStep(s, w, retryAt), v)
  {
  }

  lemma AdoptActor(s: State, w: Owner, reply: AdoptReply)
    requires Acting(s, w) && Enabled(s, AdoptReturns(w, reply))
    ensures Acting(AdoptStep(s, w, reply), w)
  {
  }

  lemma AdoptBystander(s: State, w: Owner, reply: AdoptReply, v: Owner)
    requires Bystander(s, w, v) && Enabled(s, AdoptReturns(w, reply))
    ensures WorkerInv(AdoptStep(s, w, reply), v)
  {
  }

  lemma ExecuteActor(s: State, w: Owner, id: RemoteId, reported: bool)
    requires Acting(s, w) && s.workers[w].pc.Execute?
    ensures Acting(ExecuteStep(s, w, id, reported), w)
  {
  }

  lemma ExecuteBystander(s: State, w: Owner, id: RemoteId, reported: bool, v: Owner)
    requires Bystander(s, w, v) && s.workers[w].pc.Execute?
    ensures WorkerInv(ExecuteStep(s, w, id, reported), v)
  {
  }

  lemma ExecuteErrorActor(s: State, w: Owner, id: RemoteId, made: bool)
    requires Acting(s, w) && s.workers[w].pc.Execute?
    ensures Acting(ExecuteErrorStep(s, w, id, made), w)
  {
  }

  lemma ExecuteErrorBystander(s: State, w: Owner, id: RemoteId, made: bool, v: Owner)
    requires Bystander(s, w, v) && s.workers[w].pc.Execute?
    ensures WorkerInv(ExecuteErrorStep(s, w, id, made), v)
  {
  }

  lemma CompensateActor(s: State, w: Owner)
    requires Acting(s, w) && s.workers[w].pc.Compensate?
    ensures Acting(CompensateStep(s, w), w)
  {
  }

  lemma CompensateBystander(s: State, w: Owner, v: Owner)
    requires Bystander(s, w, v) && s.workers[w].pc.Compensate?
    ensures WorkerInv(CompensateStep(s, w), v)
  {
  }

  lemma CompensateErrorActor(s: State, w: Owner, removed: bool)
    requires Acting(s, w) && s.workers[w].pc.Compensate?
    ensures Acting(CompensateErrorStep(s, w, removed), w)
  {
  }

  lemma CompensateErrorBystander(s: State, w: Owner, removed: bool, v: Owner)
    requires Bystander(s, w, v) && s.workers[w].pc.Compensate?
    ensures WorkerInv(CompensateErrorStep(s, w, removed), v)
  {
  }

  lemma ProcessActor(s: State, a: Action)
    requires a.KeepAlive? || a.Crash? || a.Abort?
    requires Enabled(s, a) && Acting(s, a.w)
    ensures Acting(Next(s, a), a.w)
  {
  }

  lemma ProcessBystander(s: State, a: Action, v: Owner)
    requires a.KeepAlive? || a.Crash? || a.Abort?
    requires Enabled(s, a) && Bystander(s, a.w, v)
    ensures WorkerInv(Next(s, a), v)
  {
  }

  lemma EnvironmentKeepsInv(s: State, a: Action, v: Owner)
    requires RowInv(s) && RemoteInv(s) && Enabled(s, a)
    requires a.Tick? || a.Bump? || a.Claim?
    requires v in s.workers && WorkerInv(s, v)
    requires a.Claim? ==> !InCall(s.workers[v].pc)
    ensures WorkerInv(Next(s, a), v)
  {
  }

  lemma ActorKeepsInv(s: State, a: Action)
    requires !a.Tick? && !a.Bump? && !a.Claim?
    requires Enabled(s, a) && Acting(s, a.w)
    ensures Acting(Next(s, a), a.w)
  {
    match a
    case Read(w) =>
      var pc := s.workers[w].pc;
      if pc.ReadGeneration? { FirstReadActor(s, w); }
      else if pc.GenBeforeCall? || pc.GenAfterCall? || pc.GenAfterAdopt? { CallReadActor(s, w); }
      else { LastReadActor(s, w); }
    case Own(w, lost, until) => OwnActor(s, w, lost, until);
    case Write(w, retryAt) =>
      var pc := s.workers[w].pc;
      if pc.FencePersist? || pc.Persist? || pc.Mark? { PersistActor(s, w, retryAt); }
      else if pc.Apply? { ApplyActor(s, w, retryAt); }
      else { SettleActor(s, w, retryAt); }
    case AdoptReturns(w, reply) => AdoptActor(s, w, reply);
    case ExecuteReturns(w, id, reported) => ExecuteActor(s, w, id, reported);
    case ExecuteThrows(w, id, made) => ExecuteErrorActor(s, w, id, made);
    case CompensateReturns(w) => CompensateActor(s, w);
    case CompensateThrows(w, removed) => CompensateErrorActor(s, w, removed);
    case _ => ProcessActor(s, a);
  }

  lemma BystanderKeepsInv(s: State, a: Action, v: Owner)
    requires !a.Tick? && !a.Bump? && !a.Claim?
    requires Enabled(s, a) && Bystander(s, a.w, v)
    ensures WorkerInv(Next(s, a), v)
  {
    match a
    case Read(w) => ReadBystander(s, w, v);
    case Own(w, lost, until) => OwnBystander(s, w, lost, until, v);
    case Write(w, retryAt) => WriteBystander(s, w, retryAt, v);
    case AdoptReturns(w, reply) => AdoptBystander(s, w, reply, v);
    case ExecuteReturns(w, id, reported) => ExecuteBystander(s, w, id, reported, v);
    case ExecuteThrows(w, id, made) => ExecuteErrorBystander(s, w, id, made, v);
    case CompensateReturns(w) => CompensateBystander(s, w, v);
    case CompensateThrows(w, removed) => CompensateErrorBystander(s, w, removed, v);
    case _ => ProcessBystander(s, a, v);
  }

  lemma EnvironmentStepKeepsInv(s: State, a: Action)
    requires Inv(s) && Enabled(s, a) && Orderly(s, a) && (a.Tick? || a.Bump? || a.Claim?)
    ensures Inv(Next(s, a))
  {
    forall v | v in Next(s, a).workers ensures WorkerInv(Next(s, a), v) {
      EnvironmentKeepsInv(s, a, v);
    }
  }

  lemma WorkerStepKeepsInv(s: State, a: Action)
    requires Inv(s) && Enabled(s, a) && !a.Tick? && !a.Bump? && !a.Claim?
    ensures Inv(Next(s, a))
  {
    ActorKeepsInv(s, a);
    forall v | v in Next(s, a).workers ensures WorkerInv(Next(s, a), v) {
      if v != a.w { BystanderKeepsInv(s, a, v); }
    }
  }

  lemma StepKeepsInv(s: State, a: Action)
    requires Inv(s) && Enabled(s, a) && Orderly(s, a)
    ensures Inv(Next(s, a))
  {
    if a.Tick? || a.Bump? || a.Claim? {
      EnvironmentStepKeepsInv(s, a);
    } else {
      WorkerStepKeepsInv(s, a);
    }
  }

  lemma {:induction false} RunKeepsInv(s: State, run: Run)
    requires Inv(s) && OrderlyRun(s, run)
    ensures After(s, run).Some? ==> Inv(After(s, run).value)
  {
    if run.Then? && After(s, run.prior).Some? {
      RunKeepsInv(s, run.prior);
      var t := After(s, run.prior).value;
      if Enabled(t, run.action) {
        StepKeepsInv(t, run.action);
      }
    }
  }

  /**
   In every orderly run of any number of workers, whatever crashes, expires or is bumped:
   the remote resource is created at most once; an effect that is done owes no compensation to
   any stale check made by its holder; and done means either settled as applied, with the
   resource alive and its identity recorded, or compensated, with the resource gone.
  */
  lemma EffectSafety(s: State, run: Run, t: State)
    requires Init(s) && OrderlyRun(s, run) && After(s, run) == Some(t)
    ensures t.remote.created <= 1
    ensures t.row.state == Done ==>
      && !t.history.owed
      && (t.history.compensations == 0 ==>
            t.history.applied && t.remote.live && (t.row.remoteId.None? || t.row.remoteId == t.remote.made))
      && (t.history.compensations > 0 ==> !t.remote.live)
  {
    RunKeepsInv(s, run);
  }

  /** Once an orderly run has made the effect done, no action that follows, orderly or not, changes the row. */
  lemma {:induction false} DoneIsFinal(s: State, run: Run, t: State, later: Run)
    requires Init(s) && OrderlyRun(s, run) && After(s, run) == Some(t) && t.row.state == Done
    ensures After(t, later).Some? ==> After(t, later).value.row == t.row
  {
    RunKeepsInv(s, run);
    if later.Then? {
      DoneIsFinal(s, run, t, later.prior);
    }
  }

  // ----- what the hypotheses are needed for: two concrete runs -----

  function Fresh(): State {
    State(0, 1, Row(Planned, 1, None, None, None, None), Remote(0, None, false),
          map[0 := Asleep(), 1 := Asleep()], History(false, 0, false))
  }

  function Asleep(): Worker { Worker(Idle, false, Row(Planned, 1, None, None, None, None), None, 0) }

  /** `reach` contains every state one (orderly) step away from a state it contains. */
  ghost predicate Closed(orderly: bool, reach: State -> bool) {
    forall s, a {:trigger Next(s, a)} ::
      reach(s) && Enabled(s, a) && (orderly ==> Orderly(s, a)) ==> reach(Next(s, a))
  }

  /** The states that (orderly) runs from the fresh effect end in. */
  ghost function Reached(orderly: bool): State -> bool {
    s => exists run :: After(Fresh(), run) == Some(s) && (orderly ==> OrderlyRun(Fresh(), run))
  }

  lemma ReachedIsClosed(orderly: bool)
    ensures Reached(orderly)(Fresh()) && Closed(orderly, Reached(orderly))
  {
    assert After(Fresh(), Begin) == Some(Fresh()) && OrderlyRun(Fresh(), Begin);
    forall s, a | Reached(orderly)(s) && Enabled(s, a) && (orderly ==> Orderly(s, a))
      ensures Reached(orderly)(Next(s, a))
    {
      var run :| After(Fresh(), run) == Some(s) && (orderly ==> OrderlyRun(Fresh(), run));
      var longer := Then(run, a);
      assert After(Fresh(), longer) == Some(Next(s, a)) && (orderly ==> OrderlyRun(Fresh(), longer));
    }
  }

  lemma Do(orderly: bool, reach: State -> bool, s: State, a: Action)
    requires Closed(orderly, reach) && reach(s) && Enabled(s, a) && (orderly ==> Orderly(s, a))
    ensures reach(Next(s, a))
  {
  }

  lemma DoRead(orderly: bool, reach: State -> bool, s: State, w: Owner) returns (t: State)
    requires Closed(orderly, reach) && reach(s) && w in s.workers && IsRead(s.workers[w].pc)
    ensures reach(t) && t == ReadStep(s, w)
  {
    Do(orderly, reach, s, Read(w));
    t := ReadStep(s, w);
  }

  lemma DoOwn(orderly: bool, reach: State -> bool, s: State, w: Owner) returns (t: State)
    requires Closed(orderly, reach) && reach(s) && w in s.workers && IsOwn(s.workers[w].pc)
    ensures reach(t) && t == OwnStep(s, w, false, s.now)
  {
    Do(orderly, reach, s, Own(w, false, s.now));
    t := OwnStep(s, w, false, s.now);
  }

  lemma DoWrite(orderly: bool, reach: State -> bool, s: State, w: Owner) returns (t: State)
    requires Closed(orderly, reach) && reach(s) && w in s.workers && IsWrite(s.workers[w].pc)
    ensures reach(t) && t == WriteStep(s, w, 0)
  {
    Do(orderly, reach, s, Write(w, 0));
    t := WriteStep(s, w, 0);
  }

  lemma DoCall(orderly: bool, reach: State -> bool, s: State, w: Owner, reply: AdoptReply, id: RemoteId) returns (t: State)
    requires Closed(orderly, reach) && reach(s) && At(s, w, if reply.NotFound? then Execute else Adopt)
    requires !reply.NotFound? ==> reply == Found(id) && s.remote.live && s.remote.made == Some(id)
    ensures reach(t)
    ensures t == if reply.NotFound? then ExecuteStep(s, w, id, true) else AdoptStep(s, w, reply)
  {
    if reply.NotFound? {
      Do(orderly, reach, s, ExecuteReturns(w, id, true));
      t := ExecuteStep(s, w, id, true);
    } else {
      Do(orderly, reach, s, AdoptReturns(w, reply));
      t := AdoptStep(s, w, reply);
    }
  }

  lemma ClaimAndPersist(orderly: bool, reach: State -> bool, s: State, w: Owner, clock: int) returns (t: State)
    requires Closed(orderly, reach) && reach(s) && (orderly ==> Orderly(s, Claim(w, clock, 10, 7)))
    requires At(s, w, Idle) && Claimable(s.row, clock) && (s.row.state.Planned? || s.row.state.Calling?)
    requires !Stale(s) && (s.row.requestHash == None || s.row.requestHash == Some(7))
    ensures reach(t) && At(t, w, OwnBeforeCall)
    ensures t == s.(workers := s.workers[w := t.workers[w]],
                    row := s.row.(state := Calling, requestHash := Some(7), owner := Some(w),
                                  leaseExpires := Some(clock + 10)))
  {
    Do(orderly, reach, s, Claim(w, clock, 10, 7));
    t := ClaimStep(s, w, clock, 10, 7);
    t := DoRead(orderly, reach, t, w);
    assert At(t, w, Persist);
    t := DoWrite(orderly, reach, t, w);
  }

  /** Worker `w` takes the effect over at its clock time `clock` and gets as far as asking `adopt`. */
  lemma EnterCall(orderly: bool, reach: State -> bool, s: State, w: Owner, clock: int) returns (t: State)
    requires Closed(orderly, reach) && reach(s) && (orderly ==> Orderly(s, Claim(w, clock, 10, 7)))
    requires At(s, w, Idle) && Claimable(s.row, clock) && (s.row.state.Planned? || s.row.state.Calling?)
    requires s.now < clock + 10 && !Stale(s) && (s.row.requestHash == None || s.row.requestHash == Some(7))
    ensures reach(t) && At(t, w, Adopt)
    ensures t == s.(workers := s.workers[w := t.workers[w]],
                    row := s.row.(state := Calling, requestHash := Some(7), owner := Some(w),
                                  leaseExpires := Some(clock + 10)))
  {
    t := ClaimAndPersist(orderly, reach, s, w, clock);
    t := DoOwn(orderly, reach, t, w);
    assert At(t, w, GenBeforeCall);
    t := DoRead(orderly, reach, t, w);
  }

  /** The same, when nothing is there to adopt: the worker is about to execute. */
  lemma EnterExecute(orderly: bool, reach: State -> bool, s: State, w: Owner) returns (t: State)
    requires Closed(orderly, reach) && reach(s) && At(s, w, Adopt) && !s.remote.live
    ensures reach(t) && t == AdoptStep(s, w, NotFound)
  {
    Do(orderly, reach, s, AdoptReturns(w, NotFound));
    t := AdoptStep(s, w, NotFound);
  }

  /** Without the timing hypothesis the resource can be created twice: worker 1 takes over while
      worker 0 is between `adopt` and `execute`. */
  lemma CreateTwice(reach: State -> bool) returns (s: State)
    requires reach(Fresh()) && Closed(false, reach)
    ensures reach(s) && s.remote.created == 2
  {
    s := EnterCall(false, reach, Fresh(), 0, 0);
    s := EnterExecute(false, reach, s, 0);
    s := EnterCall(false, reach, s, 1, 100);
    s := EnterExecute(false, reach, s, 1);
    s := DoCall(false, reach, s, 1, NotFound, 5);
    s := DoCall(false, reach, s, 0, NotFound, 6);
  }

  /** Worker 0 has created the resource and is about to read the generation. */
  lemma ExecuteFirst(reach: State -> bool) returns (s: State)
    requires reach(Fresh()) && Closed(true, reach)
    ensures reach(s) && s.row == Row(Calling, 1, Some(7), None, Some(0), Some(10))
    ensures s.remote == Remote(1, Some(5), true) && s.generation == 1 && s.now == 0 && s.history == History(false, 0, false)
    ensures At(s, 0, GenAfterCall) && At(s, 1, Idle) && s.workers.Keys == {0, 1}
  {
    s := EnterCall(true, reach, Fresh(), 0, 0);
    s := EnterExecute(true, reach, s, 0);
    s := DoCall(true, reach, s, 0, NotFound, 5);
    s := DoOwn(true, reach, s, 0);
  }

  /** Worker 1 has taken over and is about to ask for what worker 0 made. */
  lemma EnterAfterTakeover(reach: State -> bool) returns (s: State)
    requires reach(Fresh()) && Closed(true, reach)
    ensures reach(s) && s.row == Row(Calling, 1, Some(7), None, Some(1), Some(110))
    ensures s.remote == Remote(1, Some(5), true) && s.generation == 1 && s.now == 0 && s.history == History(false, 0, false)
    ensures At(s, 0, GenAfterCall) && At(s, 1, Adopt)
  {
    s := ExecuteFirst(reach);
    s := EnterCall(true, reach, s, 1, 100);
  }

  /** Worker 1 is about to persist the resource it adopted. */
  lemma AdoptAfterTakeover(reach: State -> bool) returns (s: State)
    requires reach(Fresh()) && Closed(true, reach)
    ensures reach(s) && s.row == Row(Calling, 1, Some(7), None, Some(1), Some(110))
    ensures s.generation == 1 && s.now == 0 && s.history == History(false, 0, false)
    ensures At(s, 0, GenAfterCall) && At(s, 1, GenAfterAdopt) && s.workers[1].remote == Some(5)
  {
    s := EnterAfterTakeover(reach);
    s := DoCall(true, reach, s, 1, Found(5), 5);
    s := DoOwn(true, reach, s, 1);
  }

  lemma ApplyAfterTakeover(reach: State -> bool) returns (s: State)
    requires reach(Fresh()) && Closed(true, reach)
    ensures reach(s) && s.row == Row(Applied, 1, Some(7), Some(5), Some(1), Some(110))
    ensures s.generation == 1 && s.now == 0 && s.history == History(true, 0, false)
    ensures At(s, 0, GenAfterCall) && At(s, 1, OwnBeforeDone)
  {
    s := AdoptAfterTakeover(reach);
    s := DoRead(true, reach, s, 1);
    assert At(s, 1, Apply);
    s := DoWrite(true, reach, s, 1);
  }

  /** A check made by a worker that no longer holds the lease proves nothing: worker 0 finds the
      effect stale, and worker 1, which applied it before the bump, still settles it uncompensated. */
  lemma SettleUncompensated(reach: State -> bool) returns (s: State)
    requires reach(Fresh()) && Closed(true, reach)
    ensures reach(s) && s.row.state == Done && s.history.compensations == 0 && At(s, 0, Mark)
  {
    s := ApplyAfterTakeover(reach);
    Do(true, reach, s, Bump);
    s := s.(generation := 2);
    s := DoRead(true, reach, s, 0);
    assert At(s, 0, Mark) && At(s, 1, OwnBeforeDone);
    s := DoOwn(true, reach, s, 1);
    assert At(s, 1, DoneApplied);
    s := DoWrite(true, reach, s, 1);
  }

  lemma TakeoverInsideCallCreatesTwice()
    ensures exists run, t :: After(Fresh(), run) == Some(t) && t.remote.created == 2
  {
    ReachedIsClosed(false);
    var t := CreateTwice(Reached(false));
  }

  lemma StaleCheckWithoutLeaseIsIgnored()
    ensures exists run, t ::
      && After(Fresh(), run) == Some(t) && OrderlyRun(Fresh(), run)
      && t.row.state == Done && t.history.compensations == 0 && At(t, 0, Mark)
  {
    ReachedIsClosed(true);
    var t := SettleUncompensated(Reached(true));
  }
}
