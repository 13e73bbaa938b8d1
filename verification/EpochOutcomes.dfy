/**
 What each transaction on a worker epoch answers in every state that a run can reach, said of rows and chains, and
 what it changes.
*/
module EpochOutcomes {
  import opened Checkpoints
  import opened Lifecycle
  import opened Wrappers

  import opened WorkerEpochs

  // ----- rows have distinct ids in every run -----

  ghost predicate IdsDiffer(table: seq<Checkpoint>) { forall i, j | 0 <= i < j < |table| :: table[i].id != table[j].id }

  lemma PushKeepsIds(table: seq<Checkpoint>, row: Checkpoint)
    requires IdsDiffer(table) && !Clashes(table, row)
    ensures IdsDiffer(table + [row])
  {
    assert forall i | 0 <= i < |table| :: table[i] in table;
  }

  lemma SettleRowKeepsIds(table: seq<Checkpoint>, t: Tuple, d: Direction, derived: Designated,
                          previous: Option<Checkpoint>, reason: nat, now: Time)
    requires IdsDiffer(table)
    ensures var after := SettleRow(table, t, d, derived, previous, reason, now); after.Some? ==> IdsDiffer(after.value)
  {
    var row := SupervisorRow(t, d, derived, previous, reason, now);
    if !Clashes(table, row) { PushKeepsIds(table, row); }
  }

  lemma AbandonKeepsIds(db: Db, a: Abandonment, now: Time, p: Option<Checkpoint>, q: Option<Checkpoint>)
    requires IdsDiffer(db.checkpoints)
    ensures IdsDiffer(AbandonIn(db, a, now, p, q).0.checkpoints)
  {
    var after := AbandonIn(db, a, now, p, q).0;
    if after.checkpoints != db.checkpoints {
      var first := SupervisorRow(a.tuple, db.directions[0], a.firstRow, p, a.reason, now);
      var second := SupervisorRow(a.tuple, db.directions[1], a.secondRow, q, a.reason, now);
      PushKeepsIds(db.checkpoints, first);
      PushKeepsIds(db.checkpoints + [first], second);
    }
  }

  lemma SettleKeepsIds(db: Db, g: nat, x: Settlement, now: Time, p: Option<Checkpoint>, q: Option<Checkpoint>)
    requires IdsDiffer(db.checkpoints)
    ensures IdsDiffer(SettleIn(db, g, x, now, p, q).checkpoints)
  {
    if SettleIn(db, g, x, now, p, q).checkpoints != db.checkpoints {
      var t := SettledTuple(db, g);
      SettleRowKeepsIds(db.checkpoints, t, db.directions[0], x.firstRow, p, x.reason, now);
      var table := SettleRow(db.checkpoints, t, db.directions[0], x.firstRow, p, x.reason, now).value;
      SettleRowKeepsIds(table, t, db.directions[1], x.secondRow, q, x.reason, now);
    }
  }

  lemma StepKeepsIds(db: Db, a: Action)
    requires IdsDiffer(db.checkpoints)
    ensures IdsDiffer(Step(db, a).checkpoints)
  {
    match a
    case Write(row) => if !Clashes(db.checkpoints, row) { PushKeepsIds(db.checkpoints, row); }
    case Abandon(abandonment, now, p, q) => AbandonKeepsIds(db, abandonment, now, p, q);
    case Settle(g, x, now, p, q) => SettleKeepsIds(db, g, x, now, p, q);
    case _ => assert Step(db, a).checkpoints == db.checkpoints;
  }

  lemma {:induction false} IdsDifferInEveryRun(directions: seq<Direction>, run: seq<Action>)
    ensures IdsDiffer(After(Start(directions), run).checkpoints)
  {
    if run != [] {
      IdsDifferInEveryRun(directions, run[..|run| - 1]);
      StepKeepsIds(After(Start(directions), run[..|run| - 1]), run[|run| - 1]);
    }
  }

  lemma {:induction false} FindIs(table: seq<Checkpoint>, id: Id)
    ensures match Find(table, id)
      case None => forall r | r in table :: r.id != id
      case Some(row) => row in table && row.id == id
  {
    if table != [] {
      FindIs(table[1..], id);
      assert forall r | r in table :: r == table[0] || r in table[1..];
    }
  }

  lemma IdNamesRow(table: seq<Checkpoint>, a: Checkpoint, b: Checkpoint)
    requires IdsDiffer(table) && a in table && b in table && a.id == b.id
    ensures a == b
  {
    forall i, j | 0 <= i < |table| && 0 <= j < |table| && table[i].id == table[j].id ensures i == j {
    }
    var i :| 0 <= i < |table| && table[i] == a;
    var j :| 0 <= j < |table| && table[j] == b;
  }

  lemma FindsRow(table: seq<Checkpoint>, row: Checkpoint)
    requires IdsDiffer(table) && row in table
    ensures Find(table, row.id) == Some(row)
  {
    FindIs(table, row.id);
    IdNamesRow(table, row, Find(table, row.id).value);
  }

  // ----- the epoch in charge -----

  /** Reservation and job of the current generation are this worker's, neither fenced, and the epoch is not closed. */
  predicate InCharge(db: Db, generation: nat, workerId: Id, epoch: nat) {
    && generation == db.generation && epoch == generation && generation in db.reservations
    && (generation, epoch) in db.jobs
    && db.reservations[generation].workerId == workerId && db.jobs[(generation, epoch)].workerId == workerId
    && !db.reservations[generation].fenced && !db.jobs[(generation, epoch)].fenced
    && db.jobs[(generation, epoch)].terminalAt.None?
  }

  /** The same, under the write epoch of the archive. */
  predicate MayWrite(db: Db, t: Tuple) {
    && InCharge(db, t.generation, t.workerId, t.epoch)
    && db.jobs[(t.generation, t.epoch)].writeEpoch == db.writeEpoch && t.writeEpoch == db.writeEpoch
  }

  lemma InChargeIsOpen(db: Db, t: Tuple)
    requires ClosedTogether(db)
    ensures db.OpenEpoch(t.generation, t.workerId, t.epoch) <==> InCharge(db, t.generation, t.workerId, t.epoch)
    ensures db.Writable(t) <==> MayWrite(db, t)
  {
  }

  // ----- heartbeats -----

  /**
   In every run a heartbeat is answered yes if and only if it comes from the epoch in charge of a ready or active
   consultation and its reservation still takes load.  It moves the two heartbeats and the lease and nothing else.
  */
  lemma HeartbeatIff(directions: seq<Direction>, run: seq<Action>, g: nat, workerId: Id, epoch: nat, now: Time)
    ensures var db := After(Start(directions), run);
      var (after, alive) := HeartbeatIn(db, g, workerId, epoch, now);
      && (alive <==> InCharge(db, g, workerId, epoch) && db.reservations[g].acceptingLoad && (db.state.Ready? || db.state.Live?))
      && after == (if !alive then db else db.(
           reservations := db.reservations[g := db.reservations[g].(heartbeatAt := now, leaseExpiresAt := now + 30_000)],
           jobs := db.jobs[(g, epoch) := db.jobs[(g, epoch)].(heartbeatAt := now)]))
  {
    EpochsCloseOnce(directions, run);
    InChargeIsOpen(After(Start(directions), run), Tuple(g, workerId, epoch, 0));
  }

  /** A heartbeat holds off every abandonment of its epoch for thirty seconds. */
  lemma HeartbeatHoldsOff(db: Db, g: nat, workerId: Id, epoch: nat, now: Time, a: Abandonment, later: Time,
                          p: Option<Checkpoint>, q: Option<Checkpoint>)
    requires HeartbeatIn(db, g, workerId, epoch, now).1 && later <= now + 30_000
    requires a.tuple.generation == g && a.sealId.None? == a.completionEventId.None? && a.eventId !in db.audits
    ensures var after := HeartbeatIn(db, g, workerId, epoch, now).0;
      AbandonIn(after, a, later, p, q) == (after, Failure(AbandonmentFenced))
  {
  }

  // ----- checkpoints -----

  /** The row names the last row of a direction that has not ended. */
  predicate ExtendsChain(table: seq<Checkpoint>, row: Checkpoint) {
    var rows := Rows(table, row.key);
    && (forall r | r in rows :: !r.terminal)
    && row.previous == if rows == [] then None else Some(rows[|rows| - 1].hash)
  }

  /** No stored row has its id or its hash, or its watermarks in the same direction of the same epoch number. */
  predicate Unrepeated(table: seq<Checkpoint>, row: Checkpoint) {
    forall r | r in table ::
      && r.id != row.id && r.hash != row.hash
      && !(r.key.workerEpoch == row.key.workerEpoch && r.key.source == row.key.source
           && r.key.destination == row.key.destination && r.sequence == row.sequence && r.accepted == row.accepted
           && r.received == row.received && r.emitted == row.emitted && r.terminal == row.terminal)
  }

  lemma ClashesIffRepeats(table: seq<Checkpoint>, row: Checkpoint)
    requires Open(Rows(table, row.key))
    ensures Clashes(table, row) <==> !Unrepeated(table, row)
  {
    RowsAreThere(table, row.key);
    forall r | r in table && r.key == row.key ensures !r.terminal {
      assert r in Rows(table, row.key);
    }
  }

  lemma ExtendsIff(table: seq<Checkpoint>, row: Checkpoint)
    requires Chain(Rows(table, row.key))
    ensures ExtendsChain(table, row) <==> Open(Rows(table, row.key)) && NamesHead(Rows(table, row.key), row.previous)
  {
    if Open(Rows(table, row.key)) { NamesHeadIffLast(Rows(table, row.key), row.previous); }
  }

  lemma StoredIff(db: Db, row: Checkpoint)
    requires ClosedTogether(db) && Chain(Rows(db.checkpoints, row.key))
    ensures Insertable(db, row) <==>
      && MayWrite(db, TupleOf(row)) && !db.archiveState.Deleting? && !db.archiveState.Deleted?
      && ExtendsChain(db.checkpoints, row) && Unrepeated(db.checkpoints, row)
  {
    InChargeIsOpen(db, TupleOf(row));
    ExtendsIff(db.checkpoints, row);
    if Open(Rows(db.checkpoints, row.key)) { ClashesIffRepeats(db.checkpoints, row); }
  }

  /**
   In every run a checkpoint that replays nothing is stored if and only if its worker is in charge, the archive is
   not being deleted, it names the last row of a direction that has not ended, and it repeats no id, hash or watermark.
  */
  lemma CheckpointStoredIff(directions: seq<Direction>, run: seq<Action>, row: Checkpoint)
    requires WorkerRows(run) && !Replays(After(Start(directions), run), row)
    ensures var db := After(Start(directions), run);
      CheckpointIn(db, row) ==
        if && MayWrite(db, TupleOf(row)) && !db.archiveState.Deleting? && !db.archiveState.Deleted?
           && ExtendsChain(db.checkpoints, row) && Unrepeated(db.checkpoints, row)
        then (db.(checkpoints := db.checkpoints + [row]), Success(true))
        else (db, Failure(CheckpointConflict))
  {
    EpochsCloseOnce(directions, run);
    ChainsInEveryRun(directions, run);
    StoredIff(After(Start(directions), run), row);
  }

  // ----- reservations -----

  /**
   In every run the reservation of a new generation puts its worker in charge: a heartbeat of a started consultation
   is answered yes, and no abandonment gets through for five minutes.  A repeated one only lets it take load again.
  */
  lemma ReservationPutsInCharge(directions: seq<Direction>, run: seq<Action>, workerId: Id, now: Time)
    ensures var db := After(Start(directions), run);
      var after, g := ReserveIn(db, workerId, now), db.generation;
      && after == db.(reservations := after.reservations, jobs := after.jobs)
      && (g in db.reservations ==>
            && after.jobs == db.jobs
            && after.reservations == db.reservations[g := db.reservations[g].(acceptingLoad := true)])
      && (g !in db.reservations ==>
            && InCharge(after, g, workerId, g) && after.jobs[(g, g)].writeEpoch == 0
            && after.reservations - {g} == db.reservations && after.jobs - {(g, g)} == db.jobs)
  {
    EpochsCloseOnce(directions, run);
    var db := After(Start(directions), run);
    var after, g := ReserveIn(db, workerId, now), db.generation;
    if g !in db.reservations {
      assert (g, g) !in db.jobs;
      assert after.reservations - {g} == db.reservations;
      assert after.jobs - {(g, g)} == db.jobs;
    }
  }

  /** What a reservation of a new generation lets its worker do, and keeps others from doing. */
  lemma ReservedMayBeat(directions: seq<Direction>, run: seq<Action>, workerId: Id, now: Time, later: Time,
                        a: Abandonment, p: Option<Checkpoint>, q: Option<Checkpoint>)
    requires var db := After(Start(directions), run); db.generation !in db.reservations && a.eventId !in db.audits
    requires a.sealId.None? == a.completionEventId.None? && later <= now + 300_000
    ensures var db := After(Start(directions), run);
      var after := ReserveIn(db, workerId, now);
      && (HeartbeatIn(after, db.generation, workerId, db.generation, later).1 <==> db.state.Ready? || db.state.Live?)
      && (a.tuple.generation == db.generation ==>
            AbandonIn(after, a, later, p, q) == (after, Failure(AbandonmentFenced)))
  {
    EpochsCloseOnce(directions, run);
    ReservationPutsInCharge(directions, run, workerId, now);
  }

  /** Fencing an epoch shuts its worker out of every transaction, and changes nothing but the two fences. */
  lemma FenceShutsOut(db: Db, g: nat, workerId: Id, epoch: nat)
    ensures var after := FenceIn(db, g, g);
      && !InCharge(after, g, workerId, epoch)
      && after == db.(reservations := after.reservations, jobs := after.jobs)
      && after.reservations.Keys == db.reservations.Keys && after.jobs.Keys == db.jobs.Keys
      && (forall k | k in db.reservations ::
            after.reservations[k] == if k == g then db.reservations[k].(fenced := true) else db.reservations[k])
      && (forall k | k in db.jobs :: after.jobs[k] == if k == (g, g) then db.jobs[k].(fenced := true) else db.jobs[k])
  {
  }

  // ----- the rows a supervisor writes -----

  /** `row` names `last`, one after it and as far as it; `None` is the start of the direction. */
  predicate Ends(row: Checkpoint, last: Option<Checkpoint>) {
    match last
    case None => row.previous == None && row.sequence == 0 && row.accepted == 0 && row.received == 0 && row.emitted == 0
    case Some(r) =>
      && row.previous == Some(r.hash) && row.sequence == r.sequence + 1 && row.accepted == r.accepted + 1
      && row.received == r.received && row.emitted == r.emitted
  }

  /** The row that ends a direction lies strictly above every row of it and follows the one that was picked. */
  lemma SupervisorRowIsAbove(table: seq<Checkpoint>, t: Tuple, d: Direction, derived: Designated, p: Option<Checkpoint>,
                             reason: nat, now: Time)
    requires MayPick(Rows(table, KeyOf(t, d)), p)
    ensures var row := SupervisorRow(t, d, derived, p, reason, now);
      && row.key == KeyOf(t, d) && row.writeEpoch == t.writeEpoch && row.terminal && row.supervisor
      && row.id == derived.id && row.hash == derived.hash && row.payload == reason && row.createdAt == now
      && Ends(row, p)
      && (p.None? <==> Rows(table, KeyOf(t, d)) == [])
      && forall r | r in Rows(table, KeyOf(t, d)) :: r.sequence < row.sequence && Before(r, row)
  {
    var rows := Rows(table, KeyOf(t, d));
    if p.Some? {
      var k :| 0 <= k < |rows| && IsLatest(rows, k) && rows[k] == p.value;
      forall r | r in rows ensures r.sequence <= p.value.sequence {
        var i :| 0 <= i < |rows| && rows[i] == r;
        assert !Before(rows[k], rows[i]);
      }
    }
  }

  // ----- completions -----

  predicate New(db: Db, c: Completion) {
    && c.eventId !in db.audits && (c.outcome.Failed? ==> c.eventId !in db.failures)
    && c.first.id != c.second.id && (c.outcome.Clean? <==> c.failure.None?)
  }

  /** `row` is stored under the id and hash sent, ends its direction for this tuple, and its direction is configured. */
  predicate EndsFor(db: Db, t: Tuple, d: Designated, row: Checkpoint) {
    && row in db.checkpoints && row.id == d.id && row.hash == d.hash && row.terminal
    && row.key.generation == t.generation && row.key.workerId == t.workerId && row.key.workerEpoch == t.epoch
    && row.writeEpoch == t.writeEpoch && Direction(row.key.source, row.key.destination) in db.directions
  }

  predicate EndsBoth(db: Db, c: Completion, a: Checkpoint, b: Checkpoint) {
    && EndsFor(db, c.tuple, c.first, a) && EndsFor(db, c.tuple, c.second, b)
    && a.key.source != b.key.source && a.key.destination != b.key.destination
  }

  lemma AcceptedIff(db: Db, c: Completion)
    requires IdsDiffer(db.checkpoints)
    ensures AcceptedPair(db, c) <==> exists a, b :: EndsBoth(db, c, a, b)
  {
    FindIs(db.checkpoints, c.first.id);
    FindIs(db.checkpoints, c.second.id);
    if AcceptedPair(db, c) {
      assert EndsBoth(db, c, Find(db.checkpoints, c.first.id).value, Find(db.checkpoints, c.second.id).value);
    }
    forall a, b | EndsBoth(db, c, a, b) ensures AcceptedPair(db, c) {
      FindsRow(db.checkpoints, a);
      FindsRow(db.checkpoints, b);
    }
  }

  /**
   In every run a new completion from the worker in charge, of an archive that is not being deleted, succeeds if and
   only if its two checkpoints are stored terminal rows of its tuple with the hashes it sends, in two configured
   directions between different sources and different destinations.
  */
  lemma CompletionSucceedsIff(directions: seq<Direction>, run: seq<Action>, c: Completion)
    requires var db := After(Start(directions), run);
      New(db, c) && MayWrite(db, c.tuple) && !db.archiveState.Deleting? && !db.archiveState.Deleted?
    ensures var db := After(Start(directions), run);
      CompleteIn(db, c).1 == Success(true) <==> exists a, b :: EndsBoth(db, c, a, b)
    ensures var db := After(Start(directions), run);
      CompleteIn(db, c).1 != Success(true) ==> CompleteIn(db, c) == (db, Failure(CompletionFenced))
  {
    var db := After(Start(directions), run);
    EpochsCloseOnce(directions, run);
    IdsDifferInEveryRun(directions, run);
    InChargeIsOpen(db, c.tuple);
    AcceptedIff(db, c);
  }

  /** A completion of an epoch that is not in charge, or of an archive being deleted, is refused without effect. */
  lemma CompletionRefused(directions: seq<Direction>, run: seq<Action>, c: Completion)
    requires var db := After(Start(directions), run);
      New(db, c) && !(MayWrite(db, c.tuple) && !db.archiveState.Deleting? && !db.archiveState.Deleted?)
    ensures var db := After(Start(directions), run); CompleteIn(db, c) == (db, Failure(CompletionFenced))
  {
    EpochsCloseOnce(directions, run);
    InChargeIsOpen(After(Start(directions), run), c.tuple);
  }

  /** A completion that names one row twice, or whose outcome and failure disagree, conflicts; so does half a seal. */
  lemma MalformedConflicts(db: Db, c: Completion, a: Abandonment, now: Time, p: Option<Checkpoint>, q: Option<Checkpoint>)
    ensures c.first.id == c.second.id || (c.outcome.Clean? <==> c.failure.Some?) ==>
      CompleteIn(db, c) == (db, Failure(CompletionConflict))
    ensures (a.sealId.Some? <==> a.completionEventId.None?) ==> AbandonIn(db, a, now, p, q) == (db, Failure(AbandonmentConflict))
  {
  }

  /** A good completion under an event that another request has taken fails on the unique key and changes nothing. */
  lemma TakenEventIsRefused(directions: seq<Direction>, run: seq<Action>, c: Completion, a: Checkpoint, b: Checkpoint)
    requires var db := After(Start(directions), run);
      && c.first.id != c.second.id && (c.outcome.Clean? <==> c.failure.None?) && EndsBoth(db, c, a, b)
      && MayWrite(db, c.tuple) && !db.archiveState.Deleting? && !db.archiveState.Deleted?
      && c.eventId in db.audits && db.audits[c.eventId] != Completed(c)
    ensures var db := After(Start(directions), run); CompleteIn(db, c) == (db, Failure(UniqueViolation))
  {
    var db := After(Start(directions), run);
    EpochsCloseOnce(directions, run);
    IdsDifferInEveryRun(directions, run);
    InChargeIsOpen(db, c.tuple);
    AcceptedIff(db, c);
  }

  /** The last row of a chain is the one terminal row. */
  lemma TerminalIsLast(rows: seq<Checkpoint>, row: Checkpoint)
    requires Chain(rows) && row in rows && row.terminal
    ensures rows[|rows| - 1] == row
  {
    var i :| 0 <= i < |rows| && rows[i] == row;
  }

  /** The rows that a completion designates end their chains. */
  lemma ChainsHaveEnded(directions: seq<Direction>, run: seq<Action>, row: Checkpoint)
    requires WorkerRows(run) && row in After(Start(directions), run).checkpoints && row.terminal
    ensures var rows := Rows(After(Start(directions), run).checkpoints, row.key); rows != [] && rows[|rows| - 1] == row
  {
    ChainsInEveryRun(directions, run);
    RowsAreThere(After(Start(directions), run).checkpoints, row.key);
    TerminalIsLast(Rows(After(Start(directions), run).checkpoints, row.key), row);
  }

  lemma CompletionFinishes(db: Db, c: Completion, a: Checkpoint, b: Checkpoint)
    requires IdsDiffer(db.checkpoints) && New(db, c) && CompleteIn(db, c).1 == Success(true) && EndsBoth(db, c, a, b)
    ensures var designated := if a.id < b.id then a else b;
      db.Writable(c.tuple) && CompleteIn(db, c).0 == Finish(db, c.eventId, Completed(c), designated.id, designated.createdAt, false)
  {
    FindsRow(db.checkpoints, a);
    FindsRow(db.checkpoints, b);
  }

  /**
   A new completion that succeeds finds both chains ended by the rows it names, and closes job and reservation at the
   time of the row with the smaller id.  Only a failure moves the consultation on; nothing else changes.
  */
  lemma CompletionCloses(directions: seq<Direction>, run: seq<Action>, c: Completion, a: Checkpoint, b: Checkpoint)
    requires WorkerRows(run)
    requires var db := After(Start(directions), run);
      New(db, c) && CompleteIn(db, c).1 == Success(true) && EndsBoth(db, c, a, b)
    ensures var db := After(Start(directions), run);
      && Rows(db.checkpoints, a.key) != [] && Rows(db.checkpoints, a.key)[|Rows(db.checkpoints, a.key)| - 1] == a
      && Rows(db.checkpoints, b.key) != [] && Rows(db.checkpoints, b.key)[|Rows(db.checkpoints, b.key)| - 1] == b
    ensures var db := After(Start(directions), run);
      var designated := if a.id < b.id then a else b;
      && Closes(db, CompleteIn(db, c).0, c.tuple, designated.id, designated.createdAt, c.outcome, false)
      && CompleteIn(db, c).0.checkpoints == db.checkpoints
      && CompleteIn(db, c).0.audits == db.audits[c.eventId := Completed(c)]
      && CompleteIn(db, c).0.failures == (if c.outcome.Clean? then db.failures else
           db.failures[c.eventId := FailureEvent(c.tuple.generation + 1, c.tuple.generation, c.tuple.workerId)])
  {
    var db := After(Start(directions), run);
    var designated := if a.id < b.id then a else b;
    IdsDifferInEveryRun(directions, run);
    ChainsHaveEnded(directions, run, a);
    ChainsHaveEnded(directions, run, b);
    CompletionFinishes(db, c, a, b);
    FinishCloses(db, c.eventId, Completed(c), designated.id, designated.createdAt, false);
  }

  /** Job and reservation of one epoch are closed; a failure begins the next generation; the rest is as before. */
  predicate Closes(db: Db, after: Db, t: Tuple, row: Id, at: Time, outcome: Outcome, fenced: bool) {
    && (t.generation, t.epoch) in db.jobs && t.generation in db.reservations
    && (t.generation, t.epoch) in after.jobs && t.generation in after.reservations
    && after.jobs[(t.generation, t.epoch)] == db.jobs[(t.generation, t.epoch)].(
         terminalAt := Some(at), outcome := Some(outcome), terminalCheckpoint := Some(row), fenced := fenced)
    && after.reservations[t.generation] == db.reservations[t.generation].(
         acceptingLoad := false, releasedAt := Some(at), fenced := fenced)
    && after.jobs.Keys == db.jobs.Keys && after.reservations.Keys == db.reservations.Keys
    && (forall k | k in db.jobs && k != (t.generation, t.epoch) :: after.jobs[k] == db.jobs[k])
    && (forall g | g in db.reservations && g != t.generation :: after.reservations[g] == db.reservations[g])
    && after.writeEpoch == db.writeEpoch && after.directions == db.directions
    && (if outcome.Clean?
        then after.generation == db.generation && after.state == db.state && after.archiveState == db.archiveState
        else
          && after.generation == db.generation + 1 && after.state == Finalizing
          && after.archiveState == if db.archiveState.Pending? || db.archiveState.Recording? then Reconciling else db.archiveState)
  }

  lemma FinishCloses(db: Db, eventId: Id, r: Request, row: Id, at: Time, fenced: bool)
    requires db.OpenEpoch(TupleAt(r).generation, TupleAt(r).workerId, TupleAt(r).epoch)
    ensures Closes(db, Finish(db, eventId, r, row, at, fenced), TupleAt(r), row, at, if IsFailure(r) then Failed else Clean, fenced)
  {
  }

  // ----- abandonments -----

  predicate EndsEpoch(row: Checkpoint, t: Tuple) {
    row.terminal && row.key.generation == t.generation && row.key.workerId == t.workerId && row.key.workerEpoch == t.epoch
  }

  /** Two rows of the epoch are terminal. */
  ghost predicate EndedTwice(table: seq<Checkpoint>, t: Tuple) {
    exists i, j :: 0 <= i < j < |table| && EndsEpoch(table[i], t) && EndsEpoch(table[j], t)
  }

  lemma {:induction false} CountedOnce(table: seq<Checkpoint>, t: Tuple)
    ensures TerminalCount(table, t) >= 1 <==> exists i :: 0 <= i < |table| && EndsEpoch(table[i], t)
    ensures TerminalCount(table, t) >= 2 <==> EndedTwice(table, t)
  {
    if table != [] {
      var n := |table| - 1;
      var init := table[..n];
      CountedOnce(init, t);
      if i :| 0 <= i < |init| && EndsEpoch(init[i], t) {
        assert EndsEpoch(table[i], t);
        if EndsEpoch(table[n], t) { assert EndedTwice(table, t); }
      }
      if i, j :| 0 <= i < j < |init| && EndsEpoch(init[i], t) && EndsEpoch(init[j], t) {
        assert EndsEpoch(table[i], t) && EndsEpoch(table[j], t);
      }
      if i, j :| 0 <= i < j < |table| && EndsEpoch(table[i], t) && EndsEpoch(table[j], t) {
        assert init[i] == table[i] && (j < n ==> init[j] == table[j]);
      }
    }
  }

  /**
   In every run a new abandonment passes its guard if and only if the epoch is the one in charge, its lease has run
   out, and its directions have not both ended.
  */
  lemma AbandonmentAdmittedIff(directions: seq<Direction>, run: seq<Action>, a: Abandonment, now: Time,
                               p: Option<Checkpoint>, q: Option<Checkpoint>)
    requires a.sealId.None? == a.completionEventId.None? && a.eventId !in After(Start(directions), run).audits
    ensures var db := After(Start(directions), run);
      AbandonIn(db, a, now, p, q).1 == Failure(AbandonmentFenced) <==>
        !(MayWrite(db, a.tuple) && db.reservations[a.tuple.generation].leaseExpiresAt < now && !EndedTwice(db.checkpoints, a.tuple))
    ensures var db := After(Start(directions), run);
      AbandonIn(db, a, now, p, q).1.Failure? ==> AbandonIn(db, a, now, p, q).0 == db
  {
    var db := After(Start(directions), run);
    EpochsCloseOnce(directions, run);
    InChargeIsOpen(db, a.tuple);
    CountedOnce(db.checkpoints, a.tuple);
  }

  /** A new abandonment that succeeds adds its two rows and closes the epoch as failed, fenced, at that moment. */
  lemma AbandonmentCloses(db: Db, a: Abandonment, now: Time, p: Option<Checkpoint>, q: Option<Checkpoint>)
    requires a.eventId !in db.audits && AbandonIn(db, a, now, p, q).1 == Success(true)
    ensures var after := AbandonIn(db, a, now, p, q).0;
      && Closes(db, after, a.tuple, if a.firstRow.id < a.secondRow.id then a.firstRow.id else a.secondRow.id, now, Failed, true)
      && |db.directions| == 2
      && after.checkpoints == db.checkpoints
           + [SupervisorRow(a.tuple, db.directions[0], a.firstRow, p, a.reason, now),
              SupervisorRow(a.tuple, db.directions[1], a.secondRow, q, a.reason, now)]
      && after.audits == db.audits[a.eventId := Abandoned(a)]
      && after.failures == db.failures[a.eventId := FailureEvent(a.tuple.generation + 1, a.tuple.generation, a.tuple.workerId)]
  {
    var first := SupervisorRow(a.tuple, db.directions[0], a.firstRow, p, a.reason, now);
    var second := SupervisorRow(a.tuple, db.directions[1], a.secondRow, q, a.reason, now);
    assert db.checkpoints + [first, second] == db.checkpoints + [first] + [second];
    var written := db.(checkpoints := db.checkpoints + [first] + [second]);
    FinishCloses(written, a.eventId, Abandoned(a), if a.firstRow.id < a.secondRow.id then a.firstRow.id else a.secondRow.id, now, true);
  }

  // ----- settlements -----

  predicate FreshSettlement(table: seq<Checkpoint>, x: Settlement) {
    && x.firstRow.id != x.secondRow.id && x.firstRow.hash != x.secondRow.hash
    && forall r | r in table ::
      r.id != x.firstRow.id && r.id != x.secondRow.id && r.hash != x.firstRow.hash && r.hash != x.secondRow.hash
  }

  /** The rows of one direction after its part of a settlement: it has ended, by one row more if it was open. */
  lemma SettleRowEnds(table: seq<Checkpoint>, t: Tuple, d: Direction, derived: Designated, previous: Option<Checkpoint>,
                      reason: nat, now: Time)
    requires EpochNumbersDiffer(table, t) && forall r | r in table :: r.id != derived.id && r.hash != derived.hash
    ensures var row := SupervisorRow(t, d, derived, previous, reason, now);
      var after := SettleRow(table, t, d, derived, previous, reason, now);
      && after == Some(if Open(Rows(table, KeyOf(t, d))) then table + [row] else table)
      && !Open(Rows(after.value, KeyOf(t, d)))
      && EpochNumbersDiffer(after.value, t)
  {
    var row := SupervisorRow(t, d, derived, previous, reason, now);
    SupervisorRowClashesIff(table, t, d, derived, previous, reason, now);
    RowsPush(table, row, KeyOf(t, d));
    if Open(Rows(table, KeyOf(t, d))) {
      assert row in Rows(table + [row], KeyOf(t, d));
    }
  }

  lemma SettledNumbersDiffer(db: Db, g: nat)
    requires ClosedTogether(db) && RowsBelong(db) && g in db.reservations
    ensures EpochNumbersDiffer(db.checkpoints, SettledTuple(db, g))
  {
    forall r | r in db.checkpoints && r.key.workerEpoch == db.reservations[g].epoch
      ensures r.key.generation == g && r.key.workerId == db.reservations[g].workerId
    {
      assert Belongs(db, r);
    }
  }

  lemma StillEnded(table: seq<Checkpoint>, row: Checkpoint, key: Key)
    ensures !Open(Rows(table, key)) ==> !Open(Rows(table + [row], key))
    ensures row.key != key ==> Rows(table + [row], key) == Rows(table, key)
  {
    RowsPush(table, row, key);
    if !Open(Rows(table, key)) {
      var r :| r in Rows(table, key) && r.terminal;
      assert r in Rows(table + [row], key);
    }
  }

  /** The first of the two rows of a settlement leaves the second direction as it is. */
  lemma FirstSettled(table: seq<Checkpoint>, t: Tuple, d: Direction, e: Direction, x: Settlement, now: Time, p: Option<Checkpoint>)
    requires EpochNumbersDiffer(table, t) && FreshSettlement(table, x) && d != e
    ensures var after := SettleRow(table, t, d, x.firstRow, p, x.reason, now);
      && after.Some? && table <= after.value && !Open(Rows(after.value, KeyOf(t, d)))
      && Rows(after.value, KeyOf(t, e)) == Rows(table, KeyOf(t, e))
      && EpochNumbersDiffer(after.value, t)
      && forall r | r in after.value :: r.id != x.secondRow.id && r.hash != x.secondRow.hash
  {
    SettleRowEnds(table, t, d, x.firstRow, p, x.reason, now);
    assert KeyOf(t, d) != KeyOf(t, e) by { assert d.source != e.source || d.destination != e.destination; }
    StillEnded(table, SupervisorRow(t, d, x.firstRow, p, x.reason, now), KeyOf(t, e));
  }

  /** After a settlement both directions have ended, and the rows before are still there. */
  lemma SettledRows(db: Db, g: nat, x: Settlement, now: Time, p: Option<Checkpoint>, q: Option<Checkpoint>)
    requires ClosedTogether(db) && RowsBelong(db) && g in db.reservations
    requires |db.directions| == 2 && db.directions[0] != db.directions[1] && FreshSettlement(db.checkpoints, x)
    ensures var t := SettledTuple(db, g);
      var k, l := KeyOf(t, db.directions[0]), KeyOf(t, db.directions[1]);
      var rows := SettleRows(db, g, x, now, p, q);
      && rows.Some? && db.checkpoints <= rows.value && !Open(Rows(rows.value, k)) && !Open(Rows(rows.value, l))
      && |rows.value| == |db.checkpoints| + (if Open(Rows(db.checkpoints, k)) then 1 else 0)
                                          + (if Open(Rows(db.checkpoints, l)) then 1 else 0)
  {
    var t := SettledTuple(db, g);
    SettledNumbersDiffer(db, g);
    FirstSettled(db.checkpoints, t, db.directions[0], db.directions[1], x, now, p);
    SettleRowEnds(db.checkpoints, t, db.directions[0], x.firstRow, p, x.reason, now);
    var table := SettleRow(db.checkpoints, t, db.directions[0], x.firstRow, p, x.reason, now).value;
    SettleRowEnds(table, t, db.directions[1], x.secondRow, q, x.reason, now);
    StillEnded(table, SupervisorRow(t, db.directions[1], x.secondRow, q, x.reason, now), KeyOf(t, db.directions[0]));
  }

  lemma StepKeepsDirections(db: Db, a: Action)
    ensures Step(db, a).directions == db.directions
  {
  }

  lemma {:induction false} DirectionsStay(directions: seq<Direction>, run: seq<Action>)
    ensures After(Start(directions), run).directions == directions
  {
    if run != [] {
      DirectionsStay(directions, run[..|run| - 1]);
      StepKeepsDirections(After(Start(directions), run[..|run| - 1]), run[|run| - 1]);
    }
  }

  /**
   In every run a supervisor's settlement of an epoch that is not closed, with derived ids and hashes that are new,
   closes it as failed and fenced and ends both its directions, writing a row only where one has not ended.
  */
  lemma SettlementCloses(directions: seq<Direction>, run: seq<Action>, g: nat, x: Settlement, now: Time,
                         p: Option<Checkpoint>, q: Option<Checkpoint>)
    requires |directions| == 2 && directions[0] != directions[1]
    requires var db := After(Start(directions), run);
      && g in db.reservations && (g, g) in db.jobs && db.jobs[(g, g)].terminalAt.None?
      && FreshSettlement(db.checkpoints, x)
    ensures var db := After(Start(directions), run);
      var after := SettleIn(db, g, x, now, p, q);
      var t := SettledTuple(db, g);
      && !Open(Rows(after.checkpoints, KeyOf(t, directions[0]))) && !Open(Rows(after.checkpoints, KeyOf(t, directions[1])))
      && db.checkpoints <= after.checkpoints
      && |after.checkpoints| == |db.checkpoints|
           + (if Open(Rows(db.checkpoints, KeyOf(t, directions[0]))) then 1 else 0)
           + (if Open(Rows(db.checkpoints, KeyOf(t, directions[1]))) then 1 else 0)
      && after == db.(
           reservations := db.reservations[g :=
             db.reservations[g].(fenced := true, acceptingLoad := false, releasedAt := Some(now))],
           jobs := db.jobs[(g, g) := db.jobs[(g, g)].(fenced := true, terminalAt := Some(now), outcome := Some(Failed),
                                                      terminalCheckpoint := Some(x.designated))],
           checkpoints := after.checkpoints)
  {
    DirectionsStay(directions, run);
    EpochNumbersDifferInEveryRun(directions, run, Tuple(g, 0, g, 0));
    SettledRows(After(Start(directions), run), g, x, now, p, q);
  }
}
