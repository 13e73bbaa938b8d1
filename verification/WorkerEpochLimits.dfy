/**
 Two runs of the worker epochs in which an abandonment does not do what it is for: it fails for good after one
 terminal row of the worker, and it adds a row after one that is not the last when watermarks do not rise.
*/
module WorkerEpochLimits {
  import opened Checkpoints
  import opened Lifecycle
  import opened Wrappers

  import opened WorkerEpochs

  const DIRECTIONS := [Direction(1, 2), Direction(2, 1)]
  const EPOCH := Tuple(1, 7, 1, 0)
  const FORTH := Key(1, 7, 1, 1, 2)
  const BACK := Key(1, 7, 1, 2, 1)
  const ABANDONMENT := Abandonment(50, EPOCH, None, None, 0, Designated(20, 200), Designated(21, 201))

  /** The first generation is under way and worker 7 has its reservation, whose lease runs out at 300000. */
  const OPENING := [MoveOn(1, Ready, Recording, 0), Reserve(7, 0)]

  function RowAt(id: Id, sequence: nat, previous: Option<Hash>, hash: Hash, terminal: bool): Checkpoint {
    Checkpoint(id, FORTH, 0, sequence, sequence, 0, 0, previous, hash, terminal, 0, 0, false)
  }

  lemma AfterPush(db: Db, run: seq<Action>, a: Action)
    ensures After(db, run + [a]) == Step(After(db, run), a)
  {
    assert (run + [a])[..|run|] == run;
  }

  function Opened(): Db {
    Start(DIRECTIONS).(
      generation := 1, state := Ready, archiveState := Recording,
      reservations := map[1 := Reservation(7, 1, true, false, None, 0, 300_000)],
      jobs := map[(1, 1) := Job(7, 0, false, 0, None, None, None)])
  }

  lemma AfterMove()
    ensures After(Start(DIRECTIONS), [OPENING[0]])
      == Start(DIRECTIONS).(generation := 1, state := Ready, archiveState := Recording)
  {
    AfterPush(Start(DIRECTIONS), [], OPENING[0]);
    assert [] + [OPENING[0]] == [OPENING[0]];
  }

  lemma AfterOpening()
    ensures After(Start(DIRECTIONS), OPENING) == Opened()
  {
    AfterMove();
    AfterPush(Start(DIRECTIONS), [OPENING[0]], OPENING[1]);
    assert [OPENING[0]] + [OPENING[1]] == OPENING;
  }

  lemma WritableNow(table: seq<Checkpoint>)
    ensures Opened().(checkpoints := table).Writable(EPOCH) && !Opened().(checkpoints := table).Deleting()
  {
  }

  lemma NotReplayed(db: Db, row: Checkpoint)
    requires !Clashes(db.checkpoints, row)
    ensures !Replays(db, row)
  {
    forall r | r in db.checkpoints ensures !SameCheckpoint(r, row) {
      assert r.id != row.id;
    }
  }

  /** A row that names the head of its open direction and repeats nothing is stored. */
  lemma Stored(table: seq<Checkpoint>, row: Checkpoint)
    requires AllChains(table) && Open(Rows(table, FORTH)) && row.key == FORTH && row.writeEpoch == 0
    requires var rows := Rows(table, FORTH); row.previous == if rows == [] then None else Some(rows[|rows| - 1].hash)
    requires !Clashes(table, row)
    ensures Step(Opened().(checkpoints := table), Write(row)) == Opened().(checkpoints := table + [row])
  {
    var db := Opened().(checkpoints := table);
    assert TupleOf(row) == EPOCH;
    WritableNow(table);
    NotReplayed(db, row);
    NamesHeadIffLast(Rows(table, FORTH), row.previous);
    assert Insertable(db, row);
  }

  // ----- a terminal row of the worker blocks the abandonment -----

  const FINAL := RowAt(10, 0, None, 100, true)
  const BLOCKED := OPENING + [Write(FINAL)]

  lemma AfterBlocked()
    ensures After(Start(DIRECTIONS), BLOCKED) == Opened().(checkpoints := [FINAL])
  {
    AfterPush(Start(DIRECTIONS), OPENING, Write(FINAL));
    AfterOpening();
    Stored([], FINAL);
    assert [] + [FINAL] == [FINAL] && Opened().(checkpoints := []) == Opened();
  }

  /**
   The worker ends one direction and disappears.  Once the lease has run out the guard admits the abandonment,
   which fails whenever it is tried, whatever ids and hashes are derived.
  */
  lemma BlockedAbandonment(a: Abandonment, now: Time, p: Option<Checkpoint>, q: Option<Checkpoint>)
    requires a.tuple == EPOCH && a.sealId.None? && a.completionEventId.None? && now > 300_000
    ensures var db := After(Start(DIRECTIONS), BLOCKED);
      Abandonable(db, a.tuple, now) && AbandonIn(db, a, now, p, q) == (db, Failure(UniqueViolation))
  {
    AfterBlocked();
    var db := Opened().(checkpoints := [FINAL]);
    assert TerminalCount([], EPOCH) == 0 && [FINAL][..0] == [];
    assert TerminalCount([FINAL], EPOCH) == 1;
    var first := SupervisorRow(a.tuple, DIRECTIONS[0], a.firstRow, p, a.reason, now);
    assert FINAL in db.checkpoints && FINAL.key == first.key && first.terminal;
    assert Clashes(db.checkpoints, first);
  }

  // ----- a watermark that falls makes an abandonment branch -----

  const HIGH := RowAt(10, 5, None, 100, false)
  const LOW := RowAt(11, 3, Some(100), 101, false)
  const FALLING := OPENING + [Write(HIGH)] + [Write(LOW)]

  lemma RowsOfTwo()
    ensures Rows([HIGH], FORTH) == [HIGH] && Rows([HIGH], BACK) == []
    ensures Rows([HIGH, LOW], FORTH) == [HIGH, LOW] && Rows([HIGH, LOW], BACK) == []
  {
    assert [] + [HIGH] == [HIGH] && [HIGH] + [LOW] == [HIGH, LOW];
    RowsPush([], HIGH, FORTH);
    RowsPush([], HIGH, BACK);
    RowsPush([HIGH], LOW, FORTH);
    RowsPush([HIGH], LOW, BACK);
  }

  lemma AfterHigh()
    ensures After(Start(DIRECTIONS), OPENING + [Write(HIGH)]) == Opened().(checkpoints := [HIGH])
    ensures AllChains([HIGH])
  {
    AfterPush(Start(DIRECTIONS), OPENING, Write(HIGH));
    AfterOpening();
    assert [] + [HIGH] == [HIGH] && Opened().(checkpoints := []) == Opened();
    assert AllChains([]);
    Stored([], HIGH);
    TablePush([], HIGH);
  }

  lemma AfterFalling()
    ensures After(Start(DIRECTIONS), FALLING) == Opened().(checkpoints := [HIGH, LOW])
  {
    AfterPush(Start(DIRECTIONS), OPENING + [Write(HIGH)], Write(LOW));
    AfterHigh();
    RowsOfTwo();
    assert [HIGH] + [LOW] == [HIGH, LOW];
    Stored([HIGH], LOW);
  }

  lemma FallingIsAbandonable(now: Time)
    requires now > 300_000
    ensures Abandonable(Opened().(checkpoints := [HIGH, LOW]), EPOCH, now)
  {
    assert [HIGH, LOW][..1] == [HIGH] && [HIGH][..0] == [];
    assert TerminalCount([HIGH], EPOCH) == 0 && TerminalCount([HIGH, LOW], EPOCH) == 0;
  }

  /** The first row alone has the highest watermark. */
  lemma PicksAfterFalling(p: Option<Checkpoint>, q: Option<Checkpoint>)
    ensures PicksMay(Opened().(checkpoints := [HIGH, LOW]), ABANDONMENT, p, q) <==> p == Some(HIGH) && q == None
  {
    RowsOfTwo();
    assert IsLatest([HIGH, LOW], 0) && !IsLatest([HIGH, LOW], 1);
    assert KeyOf(EPOCH, DIRECTIONS[0]) == FORTH && KeyOf(EPOCH, DIRECTIONS[1]) == BACK;
  }

  /** The abandonment of that state succeeds. */
  lemma FallingIsAbandoned(now: Time)
    requires now > 300_000
    ensures AbandonIn(Opened().(checkpoints := [HIGH, LOW]), ABANDONMENT, now, Some(HIGH), None).1 == Success(true)
  {
    var db := Opened().(checkpoints := [HIGH, LOW]);
    FallingIsAbandonable(now);
    var first := SupervisorRow(EPOCH, DIRECTIONS[0], Designated(20, 200), Some(HIGH), 0, now);
    var second := SupervisorRow(EPOCH, DIRECTIONS[1], Designated(21, 201), None, 0, now);
    assert !Clashes([HIGH, LOW], first);
    assert [HIGH, LOW] + [first] == [HIGH, LOW, first];
    assert !Clashes([HIGH, LOW, first], second);
  }

  predicate NamesFirst(rows: seq<Checkpoint>) {
    |rows| == 3 && rows[0] == HIGH && rows[1] == LOW && rows[2].previous == Some(HIGH.hash) && rows[2].terminal
  }

  lemma FallingBranches(now: Time)
    requires now > 300_000
    ensures var db := Opened().(checkpoints := [HIGH, LOW]);
      NamesFirst(Rows(AbandonIn(db, ABANDONMENT, now, Some(HIGH), None).0.checkpoints, FORTH))
  {
    var db := Opened().(checkpoints := [HIGH, LOW]);
    FallingIsAbandoned(now);
    RowsOfTwo();
    AbandonAdds(db, ABANDONMENT, now, Some(HIGH), None);
    assert KeyOf(EPOCH, DIRECTIONS[0]) == FORTH;
  }

  /**
   The worker stores a row whose watermark is lower than that of the row before.  The abandonment succeeds with the
   only row the query may pick, and its terminal row names the first row although the second is the last.
  */
  lemma AbandonmentBranches(now: Time, p: Option<Checkpoint>, q: Option<Checkpoint>)
    requires now > 300_000
    ensures var db := After(Start(DIRECTIONS), FALLING);
      PicksMay(db, ABANDONMENT, p, q) <==> p == Some(HIGH) && q == None
    ensures var db := After(Start(DIRECTIONS), FALLING);
      && AbandonIn(db, ABANDONMENT, now, Some(HIGH), None).1 == Success(true)
      && NamesFirst(Rows(AbandonIn(db, ABANDONMENT, now, Some(HIGH), None).0.checkpoints, FORTH))
  {
    AfterFalling();
    PicksAfterFalling(p, q);
    FallingIsAbandoned(now);
    FallingBranches(now);
  }
}
