/**
 Worker epochs of one consultation: checkpoints extend hash-linked chains, and completion or
 abandonment closes an epoch once.  A transaction that throws leaves every table as it was.
*/
module WorkerEpochs {
  import opened Checkpoints
  import opened Lifecycle
  import opened Wrappers

  datatype Reservation = Reservation(
    workerId: Id, epoch: nat, acceptingLoad: bool, fenced: bool, releasedAt: Option<Time>,
    heartbeatAt: Time, leaseExpiresAt: Time)

  datatype Outcome = Clean | Failed

  datatype Job = Job(
    workerId: Id, writeEpoch: nat, fenced: bool, heartbeatAt: Time,
    terminalAt: Option<Time>, outcome: Option<Outcome>, terminalCheckpoint: Option<Id>)

  datatype Direction = Direction(source: Id, destination: Id)

  /** The identity of a worker epoch, as every request carries it. */
  datatype Tuple = Tuple(generation: nat, workerId: Id, epoch: nat, writeEpoch: nat)

  datatype Designated = Designated(id: Id, hash: Hash)

  datatype Completion = Completion(
    eventId: Id, tuple: Tuple, first: Designated, second: Designated, outcome: Outcome, failure: Option<nat>)

  /** `firstRow` and `secondRow` stand for the ids and hashes derived from the event and each direction. */
  datatype Abandonment = Abandonment(
    eventId: Id, tuple: Tuple, sealId: Option<Id>, completionEventId: Option<Id>, reason: nat,
    firstRow: Designated, secondRow: Designated)

  /** What a supervisor of the control worker derives to settle an epoch; `designated` is either terminal row. */
  datatype Settlement = Settlement(reason: nat, firstRow: Designated, secondRow: Designated, designated: Id)

  datatype Request = Completed(completion: Completion) | Abandoned(abandonment: Abandonment)

  /** An `archive.failed` outbox row. */
  datatype FailureEvent = FailureEvent(generation: nat, resourceGeneration: nat, workerId: Id)

  datatype Error =
    | CheckpointConflict
    | CompletionConflict
    | CompletionFenced
    | AbandonmentConflict
    | AbandonmentFenced
    | UniqueViolation

  datatype Db = Db(
    generation: nat, state: ConsultationState, archiveState: ArchiveState, writeEpoch: nat,
    directions: seq<Direction>, reservations: map<nat, Reservation>, jobs: map<(nat, nat), Job>,
    checkpoints: seq<Checkpoint>, audits: map<Id, Request>, failures: map<Id, FailureEvent>)
  {
    /** Reservation and job of a tuple in the current generation, neither fenced nor closed. */
    predicate OpenEpoch(generation: nat, workerId: Id, epoch: nat) {
      && this.generation == generation
      && generation in reservations && (generation, epoch) in jobs
      && var r, j := reservations[generation], jobs[(generation, epoch)];
        && r.workerId == workerId && r.epoch == epoch && !r.fenced && r.releasedAt.None?
        && j.workerId == workerId && !j.fenced && j.terminalAt.None?
    }

    predicate Writable(t: Tuple) {
      && OpenEpoch(t.generation, t.workerId, t.epoch)
      && jobs[(t.generation, t.epoch)].writeEpoch == t.writeEpoch && writeEpoch == t.writeEpoch
    }

    predicate Deleting() { archiveState.Deleting? || archiveState.Deleted? }
  }

  function KeyOf(t: Tuple, d: Direction): Key { Key(t.generation, t.workerId, t.epoch, d.source, d.destination) }

  function TupleOf(row: Checkpoint): Tuple {
    Tuple(row.key.generation, row.key.workerId, row.key.workerEpoch, row.writeEpoch)
  }

  predicate SameCheckpoint(a: Checkpoint, b: Checkpoint) { a.(supervisor := b.supervisor) == b }

  // ----- what each transaction does -----

  function HeartbeatIn(db: Db, generation: nat, workerId: Id, epoch: nat, now: Time): (Db, bool) {
    if db.OpenEpoch(generation, workerId, epoch) && db.reservations[generation].acceptingLoad
       && (db.state.Ready? || db.state.Live?)
    then
      var r := db.reservations[generation].(heartbeatAt := now, leaseExpiresAt := now + 30_000);
      var j := db.jobs[(generation, epoch)].(heartbeatAt := now);
      (db.(reservations := db.reservations[generation := r], jobs := db.jobs[(generation, epoch) := j]), true)
    else (db, false)
  }

  predicate Insertable(db: Db, row: Checkpoint) {
    && db.Writable(TupleOf(row)) && !db.Deleting()
    && NamesHead(Rows(db.checkpoints, row.key), row.previous)
    && Open(Rows(db.checkpoints, row.key))
    && !Clashes(db.checkpoints, row)
  }

  predicate Replays(db: Db, row: Checkpoint) { exists r :: r in db.checkpoints && SameCheckpoint(r, row) }

  function CheckpointIn(db: Db, row: Checkpoint): (Db, Result<bool, Error>) {
    if Replays(db, row) then (db, Success(true))
    else if Insertable(db, row) then (db.(checkpoints := db.checkpoints + [row]), Success(true))
    else (db, Failure(CheckpointConflict))
  }

  /** The row with an id, which is the primary key. */
  function Find(table: seq<Checkpoint>, id: Id): Option<Checkpoint> {
    if table == [] then None else if table[0].id == id then Some(table[0]) else Find(table[1..], id)
  }

  /** Whether a completion may designate a stored row. */
  predicate Designates(db: Db, t: Tuple, d: Designated, row: Checkpoint) {
    && row.hash == d.hash && row.terminal && TupleOf(row) == t
    && Direction(row.key.source, row.key.destination) in db.directions
  }

  predicate AcceptedPair(db: Db, c: Completion) {
    var a, b := Find(db.checkpoints, c.first.id), Find(db.checkpoints, c.second.id);
    && a.Some? && b.Some?
    && Designates(db, c.tuple, c.first, a.value) && Designates(db, c.tuple, c.second, b.value)
    && a.value.key.source != b.value.key.source && a.value.key.destination != b.value.key.destination
  }

  /** Close a job and its reservation; a failure also ends the generation and asks for reconciliation. */
  function Close(db: Db, t: Tuple, row: Id, at: Time, outcome: Outcome, fenced: bool): Db
    requires db.OpenEpoch(t.generation, t.workerId, t.epoch)
  {
    var r := db.reservations[t.generation].(acceptingLoad := false, releasedAt := Some(at), fenced := fenced);
    var j := db.jobs[(t.generation, t.epoch)]
      .(terminalAt := Some(at), outcome := Some(outcome), terminalCheckpoint := Some(row), fenced := fenced);
    var closed :=
      db.(reservations := db.reservations[t.generation := r], jobs := db.jobs[(t.generation, t.epoch) := j]);
    if outcome.Clean? then closed
    else
      closed.(generation := db.generation + 1, state := Finalizing,
              archiveState := if db.archiveState.Pending? || db.archiveState.Recording? then Reconciling else db.archiveState)
  }

  function EventOf(t: Tuple): FailureEvent { FailureEvent(t.generation + 1, t.generation, t.workerId) }

  function TupleAt(r: Request): Tuple {
    match r
    case Completed(c) => c.tuple
    case Abandoned(a) => a.tuple
  }

  function EventIdOf(r: Request): Id {
    match r
    case Completed(c) => c.eventId
    case Abandoned(a) => a.eventId
  }

  predicate IsFailure(r: Request) { r.Abandoned? || r.completion.outcome.Failed? }

  /** Close the epoch a request names and record the request, with its `archive.failed` when it is a failure. */
  function Finish(db: Db, eventId: Id, r: Request, row: Id, at: Time, fenced: bool): Db
    requires db.OpenEpoch(TupleAt(r).generation, TupleAt(r).workerId, TupleAt(r).epoch)
  {
    var closed := Close(db, TupleAt(r), row, at, if IsFailure(r) then Failed else Clean, fenced);
    closed.(audits := db.audits[eventId := r],
            failures := if IsFailure(r) then db.failures[eventId := EventOf(TupleAt(r))] else db.failures)
  }

  function CompleteIn(db: Db, c: Completion): (Db, Result<bool, Error>) {
    if c.first.id == c.second.id || c.outcome.Clean? != c.failure.None? then (db, Failure(CompletionConflict))
    else if c.eventId in db.audits && db.audits[c.eventId] == Completed(c) then (db, Success(true))
    else if !db.Writable(c.tuple) || db.Deleting() || !AcceptedPair(db, c) then (db, Failure(CompletionFenced))
    else if c.eventId in db.audits || (c.outcome.Failed? && c.eventId in db.failures) then (db, Failure(UniqueViolation))
    else
      var designated := if c.first.id < c.second.id then c.first.id else c.second.id;
      var at := Find(db.checkpoints, designated).value.createdAt;
      (Finish(db, c.eventId, Completed(c), designated, at, false), Success(true))
  }

  function TerminalCount(table: seq<Checkpoint>, t: Tuple): nat {
    if table == [] then 0
    else
      var row := table[|table| - 1];
      TerminalCount(table[..|table| - 1], t) +
      if row.terminal && row.key.generation == t.generation && row.key.workerId == t.workerId
         && row.key.workerEpoch == t.epoch then 1 else 0
  }

  /** The terminal row an abandonment writes after `previous` in one direction. */
  function SupervisorRow(t: Tuple, d: Direction, derived: Designated, previous: Option<Checkpoint>, reason: nat, now: Time)
    : Checkpoint
  {
    var (sequence, accepted, received, emitted, hash) :=
      match previous
      case None => (0, 0, 0, 0, None)
      case Some(row) => (row.sequence + 1, row.accepted + 1, row.received, row.emitted, Some(row.hash));
    Checkpoint(derived.id, KeyOf(t, d), t.writeEpoch, sequence, accepted, received, emitted, hash, derived.hash,
               true, reason, now, true)
  }

  /** `row` is one the query for the previous checkpoint may return. */
  predicate MayPick(rows: seq<Checkpoint>, row: Option<Checkpoint>) {
    match row
    case None => rows == []
    case Some(r) => exists k | 0 <= k < |rows| :: IsLatest(rows, k) && rows[k] == r
  }

  predicate Abandonable(db: Db, t: Tuple, now: Time) {
    && db.Writable(t) && db.reservations[t.generation].leaseExpiresAt < now
    && TerminalCount(db.checkpoints, t) < 2
  }

  /** `p` and `q` are the rows picked as previous in the two directions. */
  function AbandonIn(db: Db, a: Abandonment, now: Time, p: Option<Checkpoint>, q: Option<Checkpoint>)
    : (Db, Result<bool, Error>)
  {
    if a.sealId.None? != a.completionEventId.None? then (db, Failure(AbandonmentConflict))
    else if a.eventId in db.audits && db.audits[a.eventId] == Abandoned(a) then (db, Success(true))
    else if !Abandonable(db, a.tuple, now) then (db, Failure(AbandonmentFenced))
    else if |db.directions| != 2 then (db, Failure(AbandonmentConflict))
    else
      var first := SupervisorRow(a.tuple, db.directions[0], a.firstRow, p, a.reason, now);
      var second := SupervisorRow(a.tuple, db.directions[1], a.secondRow, q, a.reason, now);
      if Clashes(db.checkpoints, first) || Clashes(db.checkpoints + [first], second)
         || a.eventId in db.audits || a.eventId in db.failures
      then (db, Failure(UniqueViolation))
      else
        var designated := if a.firstRow.id < a.secondRow.id then a.firstRow.id else a.secondRow.id;
        var written := db.(checkpoints := db.checkpoints + [first] + [second]);
        (Finish(written, a.eventId, Abandoned(a), designated, now, true), Success(true))
  }

  predicate PicksMay(db: Db, a: Abandonment, p: Option<Checkpoint>, q: Option<Checkpoint>) {
    && |db.directions| == 2 && db.directions[0] != db.directions[1]
    && MayPick(Rows(db.checkpoints, KeyOf(a.tuple, db.directions[0])), p)
    && MayPick(Rows(db.checkpoints, KeyOf(a.tuple, db.directions[1])), q)
  }

  // ----- runs -----

  datatype Action =
    | Heartbeat(beatGeneration: nat, workerId: Id, epoch: nat, now: Time)
    | Write(row: Checkpoint)
    | Complete(completion: Completion)
    | Abandon(abandonment: Abandonment, now: Time, p: Option<Checkpoint>, q: Option<Checkpoint>)
    | Reserve(workerId: Id, now: Time)
    | Fence(fencedGeneration: nat, fencedEpoch: nat)
    | Settle(settled: nat, settlement: Settlement, now: Time, p: Option<Checkpoint>, q: Option<Checkpoint>)
    | MoveOn(generation: nat, state: ConsultationState, archiveState: ArchiveState, writeEpoch: nat)

  /** The control worker reserves the current generation; the epoch is the generation. */
  function ReserveIn(db: Db, workerId: Id, now: Time): Db {
    var g := db.generation;
    db.(reservations := db.reservations[g :=
          if g in db.reservations then db.reservations[g].(acceptingLoad := true)
          else Reservation(workerId, g, true, false, None, now, now + 300_000)],
        jobs := if (g, g) in db.jobs then db.jobs
          else db.jobs[(g, g) := Job(workerId, 0, false, now, None, None, None)])
  }

  function FenceIn(db: Db, g: nat, epoch: nat): Db {
    db.(reservations := if g in db.reservations then db.reservations[g := db.reservations[g].(fenced := true)]
          else db.reservations,
        jobs := if (g, epoch) in db.jobs then db.jobs[(g, epoch) := db.jobs[(g, epoch)].(fenced := true)] else db.jobs)
  }

  /** The tuple under which a supervisor settles the epoch of a generation: rows carry the archive's write epoch. */
  function SettledTuple(db: Db, g: nat): Tuple
    requires g in db.reservations
  {
    Tuple(g, db.reservations[g].workerId, db.reservations[g].epoch, db.writeEpoch)
  }

  /** A terminal row is written unless the direction has one; none when a unique constraint is violated. */
  function SettleRow(table: seq<Checkpoint>, t: Tuple, d: Direction, derived: Designated, previous: Option<Checkpoint>,
                     reason: nat, now: Time): Option<seq<Checkpoint>>
  {
    var row := SupervisorRow(t, d, derived, previous, reason, now);
    if !Open(Rows(table, KeyOf(t, d))) then Some(table)
    else if Clashes(table, row) then None
    else Some(table + [row])
  }

  predicate RowMay(table: seq<Checkpoint>, t: Tuple, d: Direction, previous: Option<Checkpoint>) {
    Open(Rows(table, KeyOf(t, d))) ==> MayPick(Rows(table, KeyOf(t, d)), previous)
  }

  /** The rows of both directions, or none; `p` and `q` are the rows picked as previous. */
  function SettleRows(db: Db, g: nat, x: Settlement, now: Time, p: Option<Checkpoint>, q: Option<Checkpoint>)
    : Option<seq<Checkpoint>>
    requires g in db.reservations
  {
    var t := SettledTuple(db, g);
    if |db.directions| != 2 then None
    else match SettleRow(db.checkpoints, t, db.directions[0], x.firstRow, p, x.reason, now)
      case None => None
      case Some(table) => SettleRow(table, t, db.directions[1], x.secondRow, q, x.reason, now)
  }

  predicate SettleMay(db: Db, g: nat, x: Settlement, now: Time, p: Option<Checkpoint>, q: Option<Checkpoint>) {
    && g in db.reservations && |db.directions| == 2
    && var t := SettledTuple(db, g);
      && RowMay(db.checkpoints, t, db.directions[0], p)
      && match SettleRow(db.checkpoints, t, db.directions[0], x.firstRow, p, x.reason, now)
         case None => true
         case Some(table) => RowMay(table, t, db.directions[1], q)
  }

  /** A supervisor of the control worker settles an epoch, fenced or not, that is still open. */
  function SettleIn(db: Db, g: nat, x: Settlement, now: Time, p: Option<Checkpoint>, q: Option<Checkpoint>): Db {
    if g !in db.reservations || (g, db.reservations[g].epoch) !in db.jobs
       || db.jobs[(g, db.reservations[g].epoch)].terminalAt.Some? || SettleRows(db, g, x, now, p, q).None?
    then db
    else
      var r := db.reservations[g];
      var j := db.jobs[(g, r.epoch)];
      db.(reservations := db.reservations[g := r.(fenced := true, acceptingLoad := false, releasedAt := Some(now))],
          jobs := db.jobs[(g, r.epoch) := j.(fenced := true, terminalAt := Some(now), outcome := Some(Failed),
                                            terminalCheckpoint := Some(x.designated))],
          checkpoints := SettleRows(db, g, x, now, p, q).value)
  }

  function Step(db: Db, a: Action): Db {
    match a
    case Heartbeat(g, workerId, epoch, now) => HeartbeatIn(db, g, workerId, epoch, now).0
    case Write(row) => CheckpointIn(db, row).0
    case Complete(c) => CompleteIn(db, c).0
    case Abandon(a, now, p, q) => if PicksMay(db, a, p, q) then AbandonIn(db, a, now, p, q).0 else db
    case Reserve(workerId, now) => ReserveIn(db, workerId, now)
    case Fence(g, epoch) => FenceIn(db, g, epoch)
    case Settle(g, x, now, p, q) => if SettleMay(db, g, x, now, p, q) then SettleIn(db, g, x, now, p, q) else db
    case MoveOn(g, state, archiveState, writeEpoch) =>
      if g < db.generation || writeEpoch < db.writeEpoch then db
      else db.(generation := g, state := state, archiveState := archiveState, writeEpoch := writeEpoch)
  }

  function Start(directions: seq<Direction>): Db {
    Db(0, Invited, Pending, 0, directions, map[], map[], [], map[], map[])
  }

  function After(db: Db, run: seq<Action>): Db {
    if run == [] then db else Step(After(db, run[..|run| - 1]), run[|run| - 1])
  }

  // ----- chains in every run -----

  ghost predicate AllChains(table: seq<Checkpoint>) { forall key :: Chain(Rows(table, key)) }

  lemma WriteKeepsChains(db: Db, row: Checkpoint)
    requires AllChains(db.checkpoints) && !row.supervisor
    ensures AllChains(CheckpointIn(db, row).0.checkpoints)
  {
    if !Replays(db, row) && Insertable(db, row) {
      var rows := Rows(db.checkpoints, row.key);
      NamesHeadIffLast(rows, row.previous);
      RowsAreThere(db.checkpoints, row.key);
      assert (rows + [row])[..|rows|] == rows;
      assert LinkedAt(rows + [row], |rows|);
      ChainGrows(rows, row);
      TablePush(db.checkpoints, row);
    }
  }

  lemma TablePush(table: seq<Checkpoint>, row: Checkpoint)
    requires AllChains(table) && Chain(Rows(table, row.key) + [row])
    ensures AllChains(table + [row])
  {
    forall key ensures Chain(Rows(table + [row], key)) {
      RowsPush(table, row, key);
    }
  }

  lemma SupervisorKeepsChains(
    table: seq<Checkpoint>, t: Tuple, d: Direction, derived: Designated, p: Option<Checkpoint>, reason: nat, now: Time)
    requires AllChains(table) && MayPick(Rows(table, KeyOf(t, d)), p)
    requires !Clashes(table, SupervisorRow(t, d, derived, p, reason, now))
    ensures AllChains(table + [SupervisorRow(t, d, derived, p, reason, now)])
  {
    var row := SupervisorRow(t, d, derived, p, reason, now);
    var rows := Rows(table, row.key);
    RowsAreThere(table, row.key);
    assert (rows + [row])[..|rows|] == rows;
    assert LinkedAt(rows + [row], |rows|);
    ChainGrows(rows, row);
    TablePush(table, row);
  }

  lemma AbandonKeepsChains(db: Db, a: Abandonment, now: Time, p: Option<Checkpoint>, q: Option<Checkpoint>)
    requires AllChains(db.checkpoints) && PicksMay(db, a, p, q)
    ensures AllChains(AbandonIn(db, a, now, p, q).0.checkpoints)
  {
    var after := AbandonIn(db, a, now, p, q).0;
    if after.checkpoints != db.checkpoints {
      var first := SupervisorRow(a.tuple, db.directions[0], a.firstRow, p, a.reason, now);
      RowsPush(db.checkpoints, first, KeyOf(a.tuple, db.directions[1]));
      SupervisorKeepsChains(db.checkpoints, a.tuple, db.directions[0], a.firstRow, p, a.reason, now);
      SupervisorKeepsChains(db.checkpoints + [first], a.tuple, db.directions[1], a.secondRow, q, a.reason, now);
    }
  }

  lemma SettleRowKeepsChains(table: seq<Checkpoint>, t: Tuple, d: Direction, derived: Designated,
                             previous: Option<Checkpoint>, reason: nat, now: Time)
    requires AllChains(table) && RowMay(table, t, d, previous)
    ensures var after := SettleRow(table, t, d, derived, previous, reason, now); after.Some? ==> AllChains(after.value)
  {
    if Open(Rows(table, KeyOf(t, d))) && !Clashes(table, SupervisorRow(t, d, derived, previous, reason, now)) {
      SupervisorKeepsChains(table, t, d, derived, previous, reason, now);
    }
  }

  lemma SettleKeepsChains(db: Db, g: nat, x: Settlement, now: Time, p: Option<Checkpoint>, q: Option<Checkpoint>)
    requires AllChains(db.checkpoints) && SettleMay(db, g, x, now, p, q)
    ensures AllChains(SettleIn(db, g, x, now, p, q).checkpoints)
  {
    var t := SettledTuple(db, g);
    SettleRowKeepsChains(db.checkpoints, t, db.directions[0], x.firstRow, p, x.reason, now);
    var first := SettleRow(db.checkpoints, t, db.directions[0], x.firstRow, p, x.reason, now);
    if first.Some? {
      SettleRowKeepsChains(first.value, t, db.directions[1], x.secondRow, q, x.reason, now);
    }
  }

  /** Workers do not write rows under the supervisor's object key. */
  predicate WorkerRows(run: seq<Action>) { forall i | 0 <= i < |run| && run[i].Write? :: !run[i].row.supervisor }

  /**
   In every run the rows of every direction of every worker epoch form one chain: each row a worker wrote names
   the row before it, the row of an abandonment or of a supervisor names a row of highest watermark, and nothing
   follows a terminal row.
  */
  lemma {:induction false} ChainsInEveryRun(directions: seq<Direction>, run: seq<Action>)
    requires WorkerRows(run)
    ensures AllChains(After(Start(directions), run).checkpoints)
  {
    if run != [] {
      var before, a := run[..|run| - 1], run[|run| - 1];
      ChainsInEveryRun(directions, before);
      var db := After(Start(directions), before);
      match a
      case Write(row) => WriteKeepsChains(db, row);
      case Abandon(abandonment, now, p, q) =>
        if PicksMay(db, abandonment, p, q) { AbandonKeepsChains(db, abandonment, now, p, q); }
      case Settle(g, x, now, p, q) =>
        if SettleMay(db, g, x, now, p, q) { SettleKeepsChains(db, g, x, now, p, q); }
      case _ =>
        assert Step(db, a).checkpoints == db.checkpoints;
    }
  }

  /** With strictly rising watermarks the chain has one root and every row names the row just before it. */
  lemma RisingRunsAreUnbranched(directions: seq<Direction>, run: seq<Action>, key: Key)
    requires WorkerRows(run) && Rising(Rows(After(Start(directions), run).checkpoints, key))
    ensures var rows := Rows(After(Start(directions), run).checkpoints, key);
      forall i | 0 <= i < |rows| :: FollowsLast(rows, i) && (rows[i].terminal ==> i == |rows| - 1)
  {
    ChainsInEveryRun(directions, run);
    RisingChainIsWhole(Rows(After(Start(directions), run).checkpoints, key));
  }

  // ----- closing -----

  /** A reservation and its job exist together, and are released and terminal at the same time or not at all. */
  ghost predicate ClosedTogether(db: Db) {
    && (forall g | g in db.reservations :: db.reservations[g].epoch == g && (g, g) in db.jobs
         && db.reservations[g].releasedAt == db.jobs[(g, g)].terminalAt)
    && (forall k | k in db.jobs :: k.1 == k.0 && k.0 in db.reservations)
  }

  ghost predicate Closed(db: Db, t: Tuple) {
    (t.generation, t.epoch) in db.jobs && db.jobs[(t.generation, t.epoch)].terminalAt.Some?
  }

  /** Every recorded request closed its epoch, and no two recorded requests closed the same one. */
  ghost predicate ClosedOnce(db: Db) {
    && (forall id | id in db.audits :: Closed(db, TupleAt(db.audits[id])))
    && (forall i, j | i in db.audits && j in db.audits && i != j ::
          TupleAt(db.audits[i]).generation != TupleAt(db.audits[j]).generation
          || TupleAt(db.audits[i]).epoch != TupleAt(db.audits[j]).epoch)
  }

  /** There is one `archive.failed` for each failed or abandoned epoch, naming the generation that follows it. */
  ghost predicate FailuresMatch(db: Db) {
    && (forall id :: id in db.failures <==> id in db.audits && IsFailure(db.audits[id]))
    && (forall id | id in db.failures ::
          db.failures[id] == EventOf(TupleAt(db.audits[id])) && TupleAt(db.audits[id]).generation < db.generation)
  }

  ghost predicate Valid(db: Db) { ClosedTogether(db) && ClosedOnce(db) && FailuresMatch(db) }

  lemma PairKeepsTogether(db: Db, g: nat, r: Reservation, j: Job)
    requires ClosedTogether(db) && g in db.reservations && r.epoch == g && r.releasedAt == j.terminalAt
    ensures ClosedTogether(db.(reservations := db.reservations[g := r], jobs := db.jobs[(g, g) := j]))
  {
  }

  lemma CloseKeepsTogether(db: Db, t: Tuple, row: Id, at: Time, outcome: Outcome, fenced: bool)
    requires ClosedTogether(db) && db.OpenEpoch(t.generation, t.workerId, t.epoch)
    ensures ClosedTogether(Close(db, t, row, at, outcome, fenced))
  {
  }

  lemma FinishKeepsOnce(db: Db, eventId: Id, r: Request, row: Id, at: Time, fenced: bool)
    requires ClosedOnce(db) && eventId !in db.audits
    requires db.OpenEpoch(TupleAt(r).generation, TupleAt(r).workerId, TupleAt(r).epoch)
    ensures ClosedOnce(Finish(db, eventId, r, row, at, fenced))
  {
    var after := Finish(db, eventId, r, row, at, fenced);
    forall id | id in after.audits ensures Closed(after, TupleAt(after.audits[id])) {
      if id != eventId { assert Closed(db, TupleAt(db.audits[id])); }
    }
    forall i | i in db.audits
      ensures TupleAt(db.audits[i]).generation != TupleAt(r).generation || TupleAt(db.audits[i]).epoch != TupleAt(r).epoch
    {
      assert Closed(db, TupleAt(db.audits[i]));
    }
  }

  lemma FinishKeepsFailures(db: Db, eventId: Id, r: Request, row: Id, at: Time, fenced: bool)
    requires FailuresMatch(db) && eventId !in db.audits && eventId !in db.failures
    requires db.OpenEpoch(TupleAt(r).generation, TupleAt(r).workerId, TupleAt(r).epoch)
    ensures FailuresMatch(Finish(db, eventId, r, row, at, fenced))
  {
  }

  lemma FinishKeepsValid(db: Db, eventId: Id, r: Request, row: Id, at: Time, fenced: bool)
    requires Valid(db) && eventId !in db.audits && eventId !in db.failures
    requires db.OpenEpoch(TupleAt(r).generation, TupleAt(r).workerId, TupleAt(r).epoch)
    ensures Valid(Finish(db, eventId, r, row, at, fenced))
  {
    CloseKeepsTogether(db, TupleAt(r), row, at, if IsFailure(r) then Failed else Clean, fenced);
    FinishKeepsOnce(db, eventId, r, row, at, fenced);
    FinishKeepsFailures(db, eventId, r, row, at, fenced);
  }

  /** Whatever a successful completion or abandonment does besides writing checkpoints, it does by finishing. */
  ghost predicate Finished(db: Db, after: Db, eventId: Id, r: Request) {
    exists row: Id, at: Time, fenced: bool, written: Db :: FinishedBy(db, after, eventId, r, row, at, fenced, written)
  }

  ghost predicate FinishedBy(db: Db, after: Db, eventId: Id, r: Request, row: Id, at: Time, fenced: bool, written: Db) {
    && written == db.(checkpoints := written.checkpoints)
    && eventId !in db.audits && (IsFailure(r) ==> eventId !in db.failures)
    && written.OpenEpoch(TupleAt(r).generation, TupleAt(r).workerId, TupleAt(r).epoch)
    && after == Finish(written, eventId, r, row, at, fenced)
  }

  lemma CompleteFinishes(db: Db, c: Completion)
    ensures CompleteIn(db, c).0 == db || Finished(db, CompleteIn(db, c).0, c.eventId, Completed(c))
  {
    var after := CompleteIn(db, c).0;
    if after != db {
      var designated := if c.first.id < c.second.id then c.first.id else c.second.id;
      var at := Find(db.checkpoints, designated).value.createdAt;
      assert FinishedBy(db, after, c.eventId, Completed(c), designated, at, false, db);
    }
  }

  lemma AbandonFinishes(db: Db, a: Abandonment, now: Time, p: Option<Checkpoint>, q: Option<Checkpoint>)
    ensures var after := AbandonIn(db, a, now, p, q).0; after == db || Finished(db, after, a.eventId, Abandoned(a))
  {
    var after := AbandonIn(db, a, now, p, q).0;
    if after != db {
      var first := SupervisorRow(a.tuple, db.directions[0], a.firstRow, p, a.reason, now);
      var second := SupervisorRow(a.tuple, db.directions[1], a.secondRow, q, a.reason, now);
      var designated := if a.firstRow.id < a.secondRow.id then a.firstRow.id else a.secondRow.id;
      var written := db.(checkpoints := db.checkpoints + [first] + [second]);
      assert FinishedBy(db, after, a.eventId, Abandoned(a), designated, now, true, written);
    }
  }

  lemma FinishedKeepsValid(db: Db, after: Db, eventId: Id, r: Request)
    requires Valid(db) && Finished(db, after, eventId, r)
    ensures Valid(after)
  {
    var row: Id, at: Time, fenced: bool, written: Db :| FinishedBy(db, after, eventId, r, row, at, fenced, written);
    assert eventId !in db.failures;
    FinishKeepsValid(written, eventId, r, row, at, fenced);
  }

  lemma HeartbeatKeepsValid(db: Db, generation: nat, workerId: Id, epoch: nat, now: Time)
    requires Valid(db)
    ensures Valid(HeartbeatIn(db, generation, workerId, epoch, now).0)
  {
    var after := HeartbeatIn(db, generation, workerId, epoch, now).0;
    if after != db { PairKeepsTogether(db, generation, after.reservations[generation], after.jobs[(generation, epoch)]); }
    SameClosed(db, after);
  }

  /** A step that leaves closed jobs closed, and the records alone, keeps the records valid. */
  lemma SameClosed(db: Db, after: Db)
    requires ClosedOnce(db) && FailuresMatch(db)
    requires after.audits == db.audits && after.failures == db.failures && db.generation <= after.generation
    requires forall k | k in db.jobs && db.jobs[k].terminalAt.Some? :: k in after.jobs && after.jobs[k].terminalAt.Some?
    ensures ClosedOnce(after) && FailuresMatch(after)
  {
    forall id | id in after.audits ensures Closed(after, TupleAt(after.audits[id])) {
      assert Closed(db, TupleAt(db.audits[id]));
    }
  }

  lemma ReserveKeepsValid(db: Db, workerId: Id, now: Time)
    requires Valid(db)
    ensures Valid(ReserveIn(db, workerId, now))
  {
    var after := ReserveIn(db, workerId, now);
    assert ClosedTogether(after);
    SameClosed(db, after);
  }

  lemma FenceKeepsValid(db: Db, g: nat, epoch: nat)
    requires Valid(db)
    ensures Valid(FenceIn(db, g, epoch))
  {
    var after := FenceIn(db, g, epoch);
    assert ClosedTogether(after);
    SameClosed(db, after);
  }

  lemma SettleKeepsValid(db: Db, g: nat, x: Settlement, now: Time, p: Option<Checkpoint>, q: Option<Checkpoint>)
    requires Valid(db)
    ensures Valid(SettleIn(db, g, x, now, p, q))
  {
    var after := SettleIn(db, g, x, now, p, q);
    if after != db { PairKeepsTogether(db.(checkpoints := after.checkpoints), g, after.reservations[g], after.jobs[(g, g)]); }
    SameClosed(db, after);
  }

  lemma WriteKeepsValid(db: Db, row: Checkpoint)
    requires Valid(db)
    ensures Valid(CheckpointIn(db, row).0)
  {
  }

  lemma CompleteKeepsValid(db: Db, c: Completion)
    requires Valid(db)
    ensures Valid(CompleteIn(db, c).0)
  {
    var after := CompleteIn(db, c).0;
    CompleteFinishes(db, c);
    if after != db { FinishedKeepsValid(db, after, c.eventId, Completed(c)); }
  }

  lemma AbandonKeepsValid(db: Db, a: Abandonment, now: Time, p: Option<Checkpoint>, q: Option<Checkpoint>)
    requires Valid(db)
    ensures Valid(AbandonIn(db, a, now, p, q).0)
  {
    var after := AbandonIn(db, a, now, p, q).0;
    AbandonFinishes(db, a, now, p, q);
    if after != db { FinishedKeepsValid(db, after, a.eventId, Abandoned(a)); }
  }

  lemma StepKeepsValid(db: Db, a: Action)
    requires Valid(db)
    ensures Valid(Step(db, a))
  {
    match a
    case Complete(c) => CompleteKeepsValid(db, c);
    case Abandon(abandonment, now, p, q) => AbandonKeepsValid(db, abandonment, now, p, q);
    case Heartbeat(g, workerId, epoch, now) => HeartbeatKeepsValid(db, g, workerId, epoch, now);
    case Write(row) => WriteKeepsValid(db, row);
    case Reserve(workerId, now) => ReserveKeepsValid(db, workerId, now);
    case Fence(g, epoch) => FenceKeepsValid(db, g, epoch);
    case Settle(g, x, now, p, q) => SettleKeepsValid(db, g, x, now, p, q);
    case MoveOn(_, _, _, _) => SameClosed(db, Step(db, a));
  }

  lemma {:induction false} RunKeepsValid(db: Db, run: seq<Action>)
    requires Valid(db)
    ensures Valid(After(db, run))
  {
    if run != [] {
      RunKeepsValid(db, run[..|run| - 1]);
      StepKeepsValid(After(db, run[..|run| - 1]), run[|run| - 1]);
    }
  }

  /**
   In every run: released and terminal are set together; each recorded completion or abandonment closed an epoch
   that no other one closed; and the failed and abandoned ones have exactly one `archive.failed` each.
  */
  lemma EpochsCloseOnce(directions: seq<Direction>, run: seq<Action>)
    ensures Valid(After(Start(directions), run))
  {
    RunKeepsValid(Start(directions), run);
  }

  /** A successful new completion or abandonment closes the epoch, and raises the generation just when it failed. */
  lemma ClosingEffect(db: Db, r: Request, now: Time, p: Option<Checkpoint>, q: Option<Checkpoint>)
    requires match r
      case Completed(c) => c.eventId !in db.audits && CompleteIn(db, c).1.Success?
      case Abandoned(a) => a.eventId !in db.audits && AbandonIn(db, a, now, p, q).1.Success?
    ensures var after := if r.Completed? then CompleteIn(db, r.completion).0 else AbandonIn(db, r.abandonment, now, p, q).0;
      var t := TupleAt(r);
      && !Closed(db, t) && Closed(after, t)
      && after.reservations[t.generation].releasedAt == after.jobs[(t.generation, t.epoch)].terminalAt
      && after.jobs[(t.generation, t.epoch)].outcome == Some(if IsFailure(r) then Failed else Clean)
      && after.generation == db.generation + (if IsFailure(r) then 1 else 0)
      && after.failures.Keys == db.failures.Keys + (if IsFailure(r) then {EventIdOf(r)} else {})
  {
  }

  // ----- after closing -----

  ghost predicate StaysClosed(db: Db, after: Db) {
    forall k | k in db.jobs && db.jobs[k].terminalAt.Some? ::
      && k in after.jobs && after.jobs[k].terminalAt == db.jobs[k].terminalAt
      && after.jobs[k].outcome == db.jobs[k].outcome && after.jobs[k].terminalCheckpoint == db.jobs[k].terminalCheckpoint
  }

  lemma {:induction false} ClosedStaysClosed(db: Db, run: seq<Action>)
    ensures StaysClosed(db, After(db, run))
  {
    if run != [] {
      ClosedStaysClosed(db, run[..|run| - 1]);
      StepStaysClosed(After(db, run[..|run| - 1]), run[|run| - 1]);
    }
  }

  lemma FinishedStaysClosed(db: Db, after: Db, eventId: Id, r: Request)
    requires Finished(db, after, eventId, r)
    ensures StaysClosed(db, after)
  {
    var row: Id, at: Time, fenced: bool, written: Db :| FinishedBy(db, after, eventId, r, row, at, fenced, written);
  }

  lemma StepStaysClosed(db: Db, a: Action)
    ensures StaysClosed(db, Step(db, a))
  {
    match a
    case Complete(c) =>
      CompleteFinishes(db, c);
      if Step(db, a) != db { FinishedStaysClosed(db, Step(db, a), c.eventId, Completed(c)); }
    case Abandon(abandonment, now, p, q) =>
      AbandonFinishes(db, abandonment, now, p, q);
      if Step(db, a) != db { FinishedStaysClosed(db, Step(db, a), abandonment.eventId, Abandoned(abandonment)); }
    case _ =>
  }

  /**
   For a closed epoch, at any later time: heartbeats are refused, so are checkpoints, completions and abandonments
   that replay nothing, and none of them changes anything.
  */
  lemma ClosedRefuses(db: Db, run: seq<Action>, t: Tuple, row: Checkpoint, c: Completion, a: Abandonment, now: Time,
                      p: Option<Checkpoint>, q: Option<Checkpoint>)
    requires Closed(db, t)
    ensures var later := After(db, run);
      && HeartbeatIn(later, t.generation, t.workerId, t.epoch, now) == (later, false)
      && (TupleOf(row) == t && !Replays(later, row) ==> CheckpointIn(later, row) == (later, Failure(CheckpointConflict)))
      && (c.tuple == t && !(c.eventId in later.audits && later.audits[c.eventId] == Completed(c)) ==>
            CompleteIn(later, c).0 == later && CompleteIn(later, c).1.Failure?)
      && (a.tuple == t && !(a.eventId in later.audits && later.audits[a.eventId] == Abandoned(a)) ==>
            AbandonIn(later, a, now, p, q).0 == later && AbandonIn(later, a, now, p, q).1.Failure?)
  {
    ClosedStaysClosed(db, run);
  }

  // ----- replays -----

  ghost predicate Remembers(db: Db, after: Db) {
    && (forall id | id in db.audits :: id in after.audits && after.audits[id] == db.audits[id])
    && (forall row | row in db.checkpoints :: row in after.checkpoints)
  }

  lemma StepRemembers(db: Db, a: Action)
    ensures Remembers(db, Step(db, a))
  {
  }

  lemma {:induction false} RunRemembers(db: Db, run: seq<Action>)
    ensures Remembers(db, After(db, run))
  {
    if run != [] {
      RunRemembers(db, run[..|run| - 1]);
      StepRemembers(After(db, run[..|run| - 1]), run[|run| - 1]);
    }
  }

  /** A checkpoint that was accepted once is accepted again at any later time, and changes nothing. */
  lemma CheckpointReplays(db: Db, row: Checkpoint, run: seq<Action>)
    requires CheckpointIn(db, row).1.Success?
    ensures var later := After(CheckpointIn(db, row).0, run); CheckpointIn(later, row) == (later, Success(true))
  {
    var after := CheckpointIn(db, row).0;
    RunRemembers(after, run);
    if !Replays(db, row) {
      assert row in after.checkpoints && SameCheckpoint(row, row);
    }
    var r :| r in after.checkpoints && SameCheckpoint(r, row);
    assert r in After(after, run).checkpoints;
  }

  /** So is a completion. */
  lemma CompletionReplays(db: Db, c: Completion, run: seq<Action>)
    requires CompleteIn(db, c).1.Success?
    ensures var later := After(CompleteIn(db, c).0, run); CompleteIn(later, c) == (later, Success(true))
  {
    RunRemembers(CompleteIn(db, c).0, run);
    CompleteFinishes(db, c);
  }

  /** So is an abandonment, whatever rows would be picked then. */
  lemma AbandonmentReplays(db: Db, a: Abandonment, now: Time, p: Option<Checkpoint>, q: Option<Checkpoint>,
                           run: seq<Action>, at: Time, x: Option<Checkpoint>, y: Option<Checkpoint>)
    requires AbandonIn(db, a, now, p, q).1.Success?
    ensures var later := After(AbandonIn(db, a, now, p, q).0, run);
      AbandonIn(later, a, at, x, y) == (later, Success(true))
  {
    RunRemembers(AbandonIn(db, a, now, p, q).0, run);
    AbandonFinishes(db, a, now, p, q);
  }

  // ----- a limit of abandonment -----

  /** The ids and hashes derived for the two terminal rows are new. */
  ghost predicate FreshRows(table: seq<Checkpoint>, a: Abandonment) {
    && a.firstRow.id != a.secondRow.id && a.firstRow.hash != a.secondRow.hash
    && (forall r | r in table ::
          && r.id != a.firstRow.id && r.id != a.secondRow.id
          && r.hash != a.firstRow.hash && r.hash != a.secondRow.hash)
  }

  /** Rows of one epoch number are of one generation and worker. */
  ghost predicate EpochNumbersDiffer(table: seq<Checkpoint>, t: Tuple) {
    forall r | r in table && r.key.workerEpoch == t.epoch ::
      r.key.generation == t.generation && r.key.workerId == t.workerId
  }

  lemma SupervisorRowClashesIff(
    table: seq<Checkpoint>, t: Tuple, d: Direction, derived: Designated, p: Option<Checkpoint>, reason: nat, now: Time)
    requires EpochNumbersDiffer(table, t)
    requires forall r | r in table :: r.id != derived.id && r.hash != derived.hash
    ensures Clashes(table, SupervisorRow(t, d, derived, p, reason, now)) <==> !Open(Rows(table, KeyOf(t, d)))
  {
    RowsAreThere(table, KeyOf(t, d));
    var row := SupervisorRow(t, d, derived, p, reason, now);
    forall r | r in table && SameWatermarks(r, row) && r.key.workerEpoch == t.epoch ensures r.terminal {
    }
  }

  /** Every row belongs to the reservation of its generation, whose number is its epoch. */
  ghost predicate RowsBelong(db: Db) { forall r | r in db.checkpoints :: Belongs(db, r) }

  ghost predicate WorkersStay(db: Db, after: Db) {
    forall g | g in db.reservations ::
      g in after.reservations && after.reservations[g].workerId == db.reservations[g].workerId
  }

  lemma FinishedWorkersStay(db: Db, after: Db, eventId: Id, r: Request)
    requires Finished(db, after, eventId, r)
    ensures WorkersStay(db, after)
  {
    var row: Id, at: Time, fenced: bool, written: Db :| FinishedBy(db, after, eventId, r, row, at, fenced, written);
  }

  lemma ReservationsStay(db: Db, a: Action)
    ensures WorkersStay(db, Step(db, a))
  {
    match a
    case Complete(c) =>
      CompleteFinishes(db, c);
      if Step(db, a) != db { FinishedWorkersStay(db, Step(db, a), c.eventId, Completed(c)); }
    case Abandon(abandonment, now, p, q) =>
      AbandonFinishes(db, abandonment, now, p, q);
      if Step(db, a) != db { FinishedWorkersStay(db, Step(db, a), abandonment.eventId, Abandoned(abandonment)); }
    case _ =>
  }

  ghost predicate Belongs(db: Db, r: Checkpoint) {
    && r.key.generation in db.reservations && r.key.workerEpoch == r.key.generation
    && db.reservations[r.key.generation].workerId == r.key.workerId
  }

  lemma AbandonRowsBelong(db: Db, a: Abandonment, now: Time, p: Option<Checkpoint>, q: Option<Checkpoint>, r: Checkpoint)
    requires ClosedTogether(db) && r in AbandonIn(db, a, now, p, q).0.checkpoints && r !in db.checkpoints
    ensures Belongs(db, r)
  {
    assert r.key.generation == a.tuple.generation && r.key.workerId == a.tuple.workerId
      && r.key.workerEpoch == a.tuple.epoch;
  }

  lemma SettleRowIsThere(table: seq<Checkpoint>, t: Tuple, d: Direction, derived: Designated, previous: Option<Checkpoint>,
                         reason: nat, now: Time, r: Checkpoint)
    requires var after := SettleRow(table, t, d, derived, previous, reason, now); after.Some? && r in after.value
    ensures r in table || r.key == KeyOf(t, d)
  {
  }

  lemma SettleRowsBelong(db: Db, g: nat, x: Settlement, now: Time, p: Option<Checkpoint>, q: Option<Checkpoint>, r: Checkpoint)
    requires ClosedTogether(db) && r in SettleIn(db, g, x, now, p, q).checkpoints && r !in db.checkpoints
    ensures Belongs(db, r)
  {
    var t := SettledTuple(db, g);
    var table := SettleRow(db.checkpoints, t, db.directions[0], x.firstRow, p, x.reason, now).value;
    SettleRowIsThere(table, t, db.directions[1], x.secondRow, q, x.reason, now, r);
    if r in table {
      SettleRowIsThere(db.checkpoints, t, db.directions[0], x.firstRow, p, x.reason, now, r);
    }
  }

  /** New rows are of the current generation or the settled one, whose reservation they were checked against. */
  lemma NewRowsBelong(db: Db, a: Action, r: Checkpoint)
    requires ClosedTogether(db) && r in Step(db, a).checkpoints && r !in db.checkpoints
    ensures Belongs(db, r)
  {
    if a.Abandon? { AbandonRowsBelong(db, a.abandonment, a.now, a.p, a.q, r); }
    if a.Settle? { SettleRowsBelong(db, a.settled, a.settlement, a.now, a.p, a.q, r); }
  }

  lemma StepKeepsRows(db: Db, a: Action)
    requires ClosedTogether(db) && RowsBelong(db)
    ensures RowsBelong(Step(db, a))
  {
    ReservationsStay(db, a);
    forall r | r in Step(db, a).checkpoints && r !in db.checkpoints ensures Belongs(db, r) {
      NewRowsBelong(db, a, r);
    }
  }

  /** In every run, rows of one epoch number are of one generation and worker. */
  lemma {:induction false} EpochNumbersDifferInEveryRun(directions: seq<Direction>, run: seq<Action>, t: Tuple)
    ensures ClosedTogether(After(Start(directions), run)) && RowsBelong(After(Start(directions), run))
    ensures After(Start(directions), run).Writable(t) ==>
      EpochNumbersDiffer(After(Start(directions), run).checkpoints, t)
  {
    if run != [] {
      EpochNumbersDifferInEveryRun(directions, run[..|run| - 1], t);
      StepKeepsRows(After(Start(directions), run[..|run| - 1]), run[|run| - 1]);
    }
    RunKeepsValid(Start(directions), run);
  }

  /**
   The guard admits an abandonment when fewer than two directions are terminal, but the unique index on terminal
   rows lets it succeed if and only if neither of them is.
  */
  lemma AbandonmentSucceedsIff(db: Db, a: Abandonment, now: Time, p: Option<Checkpoint>, q: Option<Checkpoint>)
    requires a.sealId.None? == a.completionEventId.None? && Abandonable(db, a.tuple, now) && PicksMay(db, a, p, q)
    requires a.eventId !in db.audits && a.eventId !in db.failures
    requires FreshRows(db.checkpoints, a) && EpochNumbersDiffer(db.checkpoints, a.tuple)
    ensures AbandonIn(db, a, now, p, q).1 == Success(true) <==>
      Open(Rows(db.checkpoints, KeyOf(a.tuple, db.directions[0]))) && Open(Rows(db.checkpoints, KeyOf(a.tuple, db.directions[1])))
  {
    var first := SupervisorRow(a.tuple, db.directions[0], a.firstRow, p, a.reason, now);
    SupervisorRowClashesIff(db.checkpoints, a.tuple, db.directions[0], a.firstRow, p, a.reason, now);
    SupervisorRowClashesIff(db.checkpoints + [first], a.tuple, db.directions[1], a.secondRow, q, a.reason, now);
    RowsPush(db.checkpoints, first, KeyOf(a.tuple, db.directions[1]));
  }

  // ----- where the rows of an abandonment go -----

  /** The direction has one row more, which names the row that was last before. */
  predicate AddsAfterLast(before: seq<Checkpoint>, after: seq<Checkpoint>, key: Key) {
    |Rows(after, key)| == |Rows(before, key)| + 1 && FollowsLast(Rows(after, key), |Rows(before, key)|)
  }

  lemma HeadIsPicked(rows: seq<Checkpoint>, k: nat)
    requires HeadAlone(rows) && IsLatest(rows, k)
    ensures k == |rows| - 1
  {
    assert !Before(rows[k], rows[|rows| - 1]);
  }

  lemma PickFollowsLast(rows: seq<Checkpoint>, p: Option<Checkpoint>)
    requires HeadAlone(rows) && MayPick(rows, p)
    ensures p == if rows == [] then None else Some(rows[|rows| - 1])
  {
    match p
    case None =>
    case Some(row) =>
      var k :| 0 <= k < |rows| && IsLatest(rows, k) && rows[k] == row;
      HeadIsPicked(rows, k);
  }

  predicate NamesLast(rows: seq<Checkpoint>, p: Option<Checkpoint>) {
    if rows == [] then p.None? else p.Some? && p.value.hash == rows[|rows| - 1].hash
  }

  /** When the head does not stand alone, some legal pick has another hash. */
  lemma OtherPick(rows: seq<Checkpoint>) returns (p: Option<Checkpoint>)
    requires Chain(rows)
    ensures MayPick(rows, p)
    ensures !HeadAlone(rows) ==> !NamesLast(rows, p)
  {
    p := None;
    if rows != [] {
      PickIsHeadIff(rows);
      var k := SomeLatest(rows);
      if !HeadAlone(rows) && k == |rows| - 1 { k :| IsLatest(rows, k) && k != |rows| - 1; }
      p := Some(rows[k]);
    }
  }

  /** The rows of both directions after an abandonment that succeeds. */
  lemma AbandonAdds(db: Db, a: Abandonment, now: Time, p: Option<Checkpoint>, q: Option<Checkpoint>)
    requires a.eventId !in db.audits && |db.directions| == 2 && db.directions[0] != db.directions[1]
    requires AbandonIn(db, a, now, p, q).1 == Success(true)
    ensures var after := AbandonIn(db, a, now, p, q).0.checkpoints;
      var k, l := KeyOf(a.tuple, db.directions[0]), KeyOf(a.tuple, db.directions[1]);
      && Rows(after, k) == Rows(db.checkpoints, k) + [SupervisorRow(a.tuple, db.directions[0], a.firstRow, p, a.reason, now)]
      && Rows(after, l) == Rows(db.checkpoints, l) + [SupervisorRow(a.tuple, db.directions[1], a.secondRow, q, a.reason, now)]
  {
    var first := SupervisorRow(a.tuple, db.directions[0], a.firstRow, p, a.reason, now);
    var second := SupervisorRow(a.tuple, db.directions[1], a.secondRow, q, a.reason, now);
    var k, l := KeyOf(a.tuple, db.directions[0]), KeyOf(a.tuple, db.directions[1]);
    assert k.source != l.source || k.destination != l.destination;
    RowsPush(db.checkpoints, first, k);
    RowsPush(db.checkpoints, first, l);
    RowsPush(db.checkpoints + [first], second, k);
    RowsPush(db.checkpoints + [first], second, l);
  }

  /** The row written after a pick follows the last row just when the pick has the hash of that row. */
  lemma WrittenFollowsIff(rows: seq<Checkpoint>, row: Checkpoint)
    ensures FollowsLast(rows + [row], |rows|) <==>
      row.previous == if rows == [] then None else Some(rows[|rows| - 1].hash)
  {
  }

  predicate BothFollowLast(db: Db, a: Abandonment, now: Time, p: Option<Checkpoint>, q: Option<Checkpoint>)
    requires |db.directions| == 2
  {
    var after := AbandonIn(db, a, now, p, q).0.checkpoints;
    && AddsAfterLast(db.checkpoints, after, KeyOf(a.tuple, db.directions[0]))
    && AddsAfterLast(db.checkpoints, after, KeyOf(a.tuple, db.directions[1]))
  }

  lemma BothFollowLastIff(db: Db, a: Abandonment, now: Time, p: Option<Checkpoint>, q: Option<Checkpoint>)
    requires |db.directions| == 2 && db.directions[0] != db.directions[1] && a.eventId !in db.audits
    requires AbandonIn(db, a, now, p, q).1 == Success(true)
    ensures BothFollowLast(db, a, now, p, q) <==>
      && NamesLast(Rows(db.checkpoints, KeyOf(a.tuple, db.directions[0])), p)
      && NamesLast(Rows(db.checkpoints, KeyOf(a.tuple, db.directions[1])), q)
  {
    AbandonAdds(db, a, now, p, q);
    WrittenFollowsIff(Rows(db.checkpoints, KeyOf(a.tuple, db.directions[0])),
                      SupervisorRow(a.tuple, db.directions[0], a.firstRow, p, a.reason, now));
    WrittenFollowsIff(Rows(db.checkpoints, KeyOf(a.tuple, db.directions[1])),
                      SupervisorRow(a.tuple, db.directions[1], a.secondRow, q, a.reason, now));
  }

  /** The guard admits the abandonment, and nothing but the choice of the previous rows is left open. */
  ghost predicate Unblocked(db: Db, a: Abandonment, now: Time) {
    && a.sealId.None? == a.completionEventId.None? && Abandonable(db, a.tuple, now)
    && |db.directions| == 2 && db.directions[0] != db.directions[1]
    && a.eventId !in db.audits && a.eventId !in db.failures
    && FreshRows(db.checkpoints, a) && EpochNumbersDiffer(db.checkpoints, a.tuple) && AllChains(db.checkpoints)
    && Open(Rows(db.checkpoints, KeyOf(a.tuple, db.directions[0])))
    && Open(Rows(db.checkpoints, KeyOf(a.tuple, db.directions[1])))
  }

  lemma UnblockedFollowsIff(db: Db, a: Abandonment, now: Time, p: Option<Checkpoint>, q: Option<Checkpoint>)
    requires Unblocked(db, a, now) && PicksMay(db, a, p, q)
    ensures BothFollowLast(db, a, now, p, q) <==>
      && NamesLast(Rows(db.checkpoints, KeyOf(a.tuple, db.directions[0])), p)
      && NamesLast(Rows(db.checkpoints, KeyOf(a.tuple, db.directions[1])), q)
  {
    AbandonmentSucceedsIff(db, a, now, p, q);
    BothFollowLastIff(db, a, now, p, q);
  }

  lemma AloneFollows(db: Db, a: Abandonment, now: Time, p: Option<Checkpoint>, q: Option<Checkpoint>)
    requires Unblocked(db, a, now) && PicksMay(db, a, p, q)
    requires HeadAlone(Rows(db.checkpoints, KeyOf(a.tuple, db.directions[0])))
    requires HeadAlone(Rows(db.checkpoints, KeyOf(a.tuple, db.directions[1])))
    ensures BothFollowLast(db, a, now, p, q)
  {
    PickFollowsLast(Rows(db.checkpoints, KeyOf(a.tuple, db.directions[0])), p);
    PickFollowsLast(Rows(db.checkpoints, KeyOf(a.tuple, db.directions[1])), q);
    UnblockedFollowsIff(db, a, now, p, q);
  }

  lemma SomePickBranches(db: Db, a: Abandonment, now: Time) returns (p: Option<Checkpoint>, q: Option<Checkpoint>)
    requires Unblocked(db, a, now)
    requires !HeadAlone(Rows(db.checkpoints, KeyOf(a.tuple, db.directions[0])))
      || !HeadAlone(Rows(db.checkpoints, KeyOf(a.tuple, db.directions[1])))
    ensures PicksMay(db, a, p, q) && !BothFollowLast(db, a, now, p, q)
  {
    p, q := OtherPicks(db, a);
    UnblockedFollowsIff(db, a, now, p, q);
  }

  lemma OtherPicks(db: Db, a: Abandonment) returns (p: Option<Checkpoint>, q: Option<Checkpoint>)
    requires AllChains(db.checkpoints) && |db.directions| == 2 && db.directions[0] != db.directions[1]
    ensures PicksMay(db, a, p, q)
    ensures var rows := Rows(db.checkpoints, KeyOf(a.tuple, db.directions[0])); !HeadAlone(rows) ==> !NamesLast(rows, p)
    ensures var rows := Rows(db.checkpoints, KeyOf(a.tuple, db.directions[1])); !HeadAlone(rows) ==> !NamesLast(rows, q)
  {
    p := OtherPick(Rows(db.checkpoints, KeyOf(a.tuple, db.directions[0])));
    q := OtherPick(Rows(db.checkpoints, KeyOf(a.tuple, db.directions[1])));
  }

  /**
   Whatever rows the query may pick, an abandonment adds a row after the last one in each direction, if and only if
   in each direction the head alone has the highest watermark.
  */
  lemma AbandonmentFollowsLastIff(db: Db, a: Abandonment, now: Time)
    requires Unblocked(db, a, now)
    ensures (forall p, q | PicksMay(db, a, p, q) :: BothFollowLast(db, a, now, p, q)) <==>
      && HeadAlone(Rows(db.checkpoints, KeyOf(a.tuple, db.directions[0])))
      && HeadAlone(Rows(db.checkpoints, KeyOf(a.tuple, db.directions[1])))
  {
    if HeadAlone(Rows(db.checkpoints, KeyOf(a.tuple, db.directions[0])))
       && HeadAlone(Rows(db.checkpoints, KeyOf(a.tuple, db.directions[1])))
    {
      forall p, q | PicksMay(db, a, p, q) ensures BothFollowLast(db, a, now, p, q) {
        AloneFollows(db, a, now, p, q);
      }
    } else {
      var p, q := SomePickBranches(db, a, now);
      assert PicksMay(db, a, p, q) && !BothFollowLast(db, a, now, p, q);
    }
  }

  // ----- the transactions, statement by statement -----

  /** `ORDER BY accepted_input_sequence DESC, accepted_input DESC LIMIT 1`. */
  method PickLatest(rows: seq<Checkpoint>) returns (row: Option<Checkpoint>)
    ensures MayPick(rows, row)
  {
    if rows == [] { return None; }
    var k, i := 0, 1;
    while i < |rows|
      invariant k < i <= |rows| && IsLatest(rows[..i], k)
    {
      if Before(rows[k], rows[i]) { k := i; }
      i := i + 1;
    }
    assert rows[..i] == rows;
    return Some(rows[k]);
  }

  class WorkerTables {
    var generation: nat
    var state: ConsultationState
    var archiveState: ArchiveState
    var writeEpoch: nat
    const directions: seq<Direction>
    var reservations: map<nat, Reservation>
    var jobs: map<(nat, nat), Job>
    var checkpoints: seq<Checkpoint>
    var audits: map<Id, Request>
    var failures: map<Id, FailureEvent>

    function Contents(): Db
      reads this
    {
      Db(generation, state, archiveState, writeEpoch, directions, reservations, jobs, checkpoints, audits, failures)
    }

    constructor (directions: seq<Direction>)
      ensures Contents() == Start(directions)
    {
      this.directions := directions;
      generation, state, archiveState, writeEpoch := 0, Invited, Pending, 0;
      reservations, jobs, checkpoints, audits, failures := map[], map[], [], map[], map[];
    }

    method Heartbeat(g: nat, workerId: Id, epoch: nat, now: Time) returns (alive: bool)
      modifies this`reservations, this`jobs
      ensures (Contents(), alive) == HeartbeatIn(old(Contents()), g, workerId, epoch, now)
    {
      alive := false;
      if Contents().OpenEpoch(g, workerId, epoch) && reservations[g].acceptingLoad && (state.Ready? || state.Live?) {
        reservations := reservations[g := reservations[g].(heartbeatAt := now, leaseExpiresAt := now + 30_000)];
        jobs := jobs[(g, epoch) := jobs[(g, epoch)].(heartbeatAt := now)];
        alive := true;
      }
    }

    method WriteCheckpoint(row: Checkpoint) returns (result: Result<bool, Error>)
      modifies this`checkpoints
      ensures (Contents(), result) == CheckpointIn(old(Contents()), row)
    {
      if exists r :: r in checkpoints && SameCheckpoint(r, row) { return Success(true); }
      if generation != row.key.generation { return Failure(CheckpointConflict); }
      if !Contents().Writable(TupleOf(row)) || archiveState.Deleting? || archiveState.Deleted? {
        return Failure(CheckpointConflict);
      }
      var rows := Rows(checkpoints, row.key);
      if !NamesHead(rows, row.previous) || (exists r :: r in rows && r.terminal) || Clashes(checkpoints, row) {
        return Failure(CheckpointConflict);
      }
      checkpoints := checkpoints + [row];
      return Success(true);
    }

    method CloseRows(t: Tuple, row: Id, at: Time, outcome: Outcome, fenced: bool)
      requires t.generation in reservations && (t.generation, t.epoch) in jobs
      modifies this`reservations, this`jobs
      ensures jobs == old(jobs)[(t.generation, t.epoch) := old(jobs)[(t.generation, t.epoch)]
        .(terminalAt := Some(at), outcome := Some(outcome), terminalCheckpoint := Some(row), fenced := fenced)]
      ensures reservations == old(reservations)[t.generation := old(reservations)[t.generation]
        .(acceptingLoad := false, releasedAt := Some(at), fenced := fenced)]
    {
      jobs := jobs[(t.generation, t.epoch) := jobs[(t.generation, t.epoch)]
        .(terminalAt := Some(at), outcome := Some(outcome), terminalCheckpoint := Some(row), fenced := fenced)];
      reservations := reservations[t.generation := reservations[t.generation]
        .(acceptingLoad := false, releasedAt := Some(at), fenced := fenced)];
    }

    /** Close job and reservation, end the generation on failure, and record the request. */
    method CloseEpoch(eventId: Id, r: Request, row: Id, at: Time, fenced: bool)
      requires Contents().OpenEpoch(TupleAt(r).generation, TupleAt(r).workerId, TupleAt(r).epoch)
      modifies this`generation, this`state, this`archiveState, this`reservations, this`jobs, this`audits, this`failures
      ensures Contents() == Finish(old(Contents()), eventId, r, row, at, fenced)
    {
      var t := TupleAt(r);
      var outcome := if IsFailure(r) then Failed else Clean;
      CloseRows(t, row, at, outcome, fenced);
      if outcome.Failed? {
        state, generation := Finalizing, generation + 1;
        if archiveState.Pending? || archiveState.Recording? { archiveState := Reconciling; }
        failures := failures[eventId := FailureEvent(generation, t.generation, t.workerId)];
      }
      audits := audits[eventId := r];
    }

    method CompleteEpoch(c: Completion) returns (result: Result<bool, Error>)
      modifies this
      ensures (Contents(), result) == CompleteIn(old(Contents()), c)
    {
      if c.first.id == c.second.id || c.outcome.Clean? != c.failure.None? { return Failure(CompletionConflict); }
      if c.eventId in audits && audits[c.eventId] == Completed(c) { return Success(true); }
      var locked := Contents().Writable(c.tuple) && !archiveState.Deleting? && !archiveState.Deleted?;
      if !locked || !AcceptedPair(Contents(), c) { return Failure(CompletionFenced); }
      var designated := if c.first.id < c.second.id then c.first.id else c.second.id;
      if c.eventId in audits || (c.outcome.Failed? && c.eventId in failures) { return Failure(UniqueViolation); }
      var row := Find(checkpoints, designated);
      CloseEpoch(c.eventId, Completed(c), designated, row.value.createdAt, false);
      return Success(true);
    }

    /** Write a terminal row in each direction; the answer is no when a unique constraint is violated. */
    method WriteTerminalRows(a: Abandonment, now: Time)
      returns (written: bool, p: Option<Checkpoint>, q: Option<Checkpoint>)
      requires |directions| == 2
      modifies this`checkpoints
      ensures var first := SupervisorRow(a.tuple, directions[0], a.firstRow, p, a.reason, now);
        var second := SupervisorRow(a.tuple, directions[1], a.secondRow, q, a.reason, now);
        && written == (!Clashes(old(checkpoints), first) && !Clashes(old(checkpoints) + [first], second))
        && (written ==> checkpoints == old(checkpoints) + [first] + [second])
      ensures written ==> PicksMay(old(Contents()), a, p, q)
    {
      q := None;
      p := PickLatest(Rows(checkpoints, KeyOf(a.tuple, directions[0])));
      var first := SupervisorRow(a.tuple, directions[0], a.firstRow, p, a.reason, now);
      if Clashes(checkpoints, first) { return false, p, q; }
      RowsPush(checkpoints, first, KeyOf(a.tuple, directions[1]));
      checkpoints := checkpoints + [first];
      q := PickLatest(Rows(checkpoints, KeyOf(a.tuple, directions[1])));
      var second := SupervisorRow(a.tuple, directions[1], a.secondRow, q, a.reason, now);
      assert directions[0] == directions[1] ==> first in checkpoints && Clashes(checkpoints, second);
      if Clashes(checkpoints, second) { return false, p, q; }
      checkpoints := checkpoints + [second];
      return true, p, q;
    }

    /** The answer comes with the rows picked as previous, which matter only when something was written. */
    method AbandonEpoch(a: Abandonment, now: Time)
      returns (result: Result<bool, Error>, p: Option<Checkpoint>, q: Option<Checkpoint>)
      modifies this
      ensures (Contents(), result) == AbandonIn(old(Contents()), a, now, p, q)
      ensures Contents() != old(Contents()) ==> PicksMay(old(Contents()), a, p, q)
    {
      p, q := None, None;
      if a.sealId.None? != a.completionEventId.None? { return Failure(AbandonmentConflict), p, q; }
      if a.eventId in audits && audits[a.eventId] == Abandoned(a) { return Success(true), p, q; }
      if !Abandonable(Contents(), a.tuple, now) { return Failure(AbandonmentFenced), p, q; }
      if |directions| != 2 { return Failure(AbandonmentConflict), p, q; }

      var before := checkpoints;
      var written: bool;
      written, p, q := WriteTerminalRows(a, now);
      if !written || a.eventId in audits || a.eventId in failures {
        checkpoints := before;
        return Failure(UniqueViolation), p, q;
      }
      var designated := if a.firstRow.id < a.secondRow.id then a.firstRow.id else a.secondRow.id;
      CloseEpoch(a.eventId, Abandoned(a), designated, now, true);
      return Success(true), p, q;
    }

    /** The terminal row of one direction, unless it has one; the answer is no when a unique constraint is violated. */
    method SettleDirection(t: Tuple, d: Direction, derived: Designated, reason: nat, now: Time)
      returns (written: bool, previous: Option<Checkpoint>)
      modifies this`checkpoints
      ensures RowMay(old(checkpoints), t, d, previous)
      ensures SettleRow(old(checkpoints), t, d, derived, previous, reason, now) == if written then Some(checkpoints) else None
    {
      previous := None;
      var rows := Rows(checkpoints, KeyOf(t, d));
      if exists r :: r in rows && r.terminal { return true, previous; }
      previous := PickLatest(rows);
      var row := SupervisorRow(t, d, derived, previous, reason, now);
      if Clashes(checkpoints, row) { return false, previous; }
      checkpoints := checkpoints + [row];
      return true, previous;
    }

    /** A supervisor settles an epoch; everything is rolled back when a row cannot be written. */
    method SettleEpoch(g: nat, x: Settlement, now: Time) returns (p: Option<Checkpoint>, q: Option<Checkpoint>)
      modifies this`reservations, this`jobs, this`checkpoints
      ensures Contents() == SettleIn(old(Contents()), g, x, now, p, q)
      ensures Contents() != old(Contents()) ==> SettleMay(old(Contents()), g, x, now, p, q)
    {
      p, q := None, None;
      if g !in reservations || |directions| != 2 { return; }
      var r, before := reservations[g], checkpoints;
      if (g, r.epoch) !in jobs || jobs[(g, r.epoch)].terminalAt.Some? { return; }
      var t := Tuple(g, r.workerId, r.epoch, writeEpoch);
      var written: bool;
      written, p := SettleDirection(t, directions[0], x.firstRow, x.reason, now);
      if written { written, q := SettleDirection(t, directions[1], x.secondRow, x.reason, now); }
      if !written {
        checkpoints := before;
        return;
      }
      jobs := jobs[(g, r.epoch) := jobs[(g, r.epoch)]
        .(fenced := true, terminalAt := Some(now), outcome := Some(Failed), terminalCheckpoint := Some(x.designated))];
      reservations := reservations[g := r.(fenced := true, acceptingLoad := false, releasedAt := Some(now))];
    }
  }
}
