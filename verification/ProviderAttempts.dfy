/** Provider attempts: a retry names the attempt before it, and the table only grows. */
module ProviderAttempts {
  import opened Wrappers

  type Id = nat

  /** A row of `provider_attempts`; `report` stands for the columns no guard looks at. */
  datatype Attempt = Attempt(
    id: Id, consultation: Id, direction: Id, operation: Id,
    number: int, retryOf: Option<Id>, terminalHash: nat, report: nat)

  predicate SameOperation(a: Attempt, b: Attempt) {
    a.consultation == b.consultation && a.direction == b.direction && a.operation == b.operation
  }

  /** The ordering guard of the INSERT: a first attempt, or a retry of the attempt just before it. */
  predicate Placed(rows: map<Id, Attempt>, a: Attempt) {
    || (a.number == 1 && a.retryOf.None?)
    || (a.number > 1 && a.retryOf.Some? && a.retryOf.value in rows
        && SameOperation(rows[a.retryOf.value], a) && rows[a.retryOf.value].number == a.number - 1)
  }

  /** The primary key and the two UNIQUE constraints. */
  predicate Conflicts(rows: map<Id, Attempt>, a: Attempt) {
    exists id | id in rows ::
      || id == a.id
      || (SameOperation(rows[id], a) && rows[id].number == a.number)
      || rows[id].terminalHash == a.terminalHash
  }

  /** `admitted` and `stillAdmitted` are the worker fences, read before and inside the INSERT. */
  function Reported(rows: map<Id, Attempt>, a: Attempt, admitted: bool, stillAdmitted: bool)
    : Result<map<Id, Attempt>, string>
  {
    if !admitted then Failure("PROVIDER_ATTEMPT_FENCED")
    else if stillAdmitted && Placed(rows, a) && !Conflicts(rows, a) then Success(rows[a.id := a])
    else if a.id in rows && rows[a.id] == a then Success(rows)
    else Failure("PROVIDER_ATTEMPT_CONFLICT")
  }

  class AttemptTable {
    var rows: map<Id, Attempt>

    constructor ()
      ensures rows == map[]
    {
      rows := map[];
    }

    method ProviderAttempt(report: Attempt, admitted: bool, stillAdmitted: bool) returns (r: Result<bool, string>)
      modifies this
      ensures match Reported(old(rows), report, admitted, stillAdmitted)
        case Success(after) => r == Success(true) && rows == after
        case Failure(error) => r == Failure(error) && rows == old(rows)
    {
      if !admitted {
        return Failure("PROVIDER_ATTEMPT_FENCED");
      }
      if stillAdmitted && Placed(rows, report) && !Conflicts(rows, report) {
        rows := rows[report.id := report];
        return Success(true);
      }
      if report.id in rows && rows[report.id] == report {
        return Success(true);
      }
      return Failure("PROVIDER_ATTEMPT_CONFLICT");
    }
  }

  datatype Submission = Submission(attempt: Attempt, admitted: bool, stillAdmitted: bool)

  function RowsAfter(submissions: seq<Submission>): map<Id, Attempt> {
    if submissions == [] then map[]
    else
      var before := RowsAfter(submissions[..|submissions| - 1]);
      var last := submissions[|submissions| - 1];
      match Reported(before, last.attempt, last.admitted, last.stillAdmitted)
      case Success(after) => after
      case Failure(_) => before
  }

  predicate WellPlaced(rows: map<Id, Attempt>, id: Id) {
    id in rows ==> rows[id].id == id && rows[id].number >= 1 && Placed(rows, rows[id])
  }

  predicate OneAttemptANumber(rows: map<Id, Attempt>, i: Id, j: Id) {
    i in rows && j in rows && SameOperation(rows[i], rows[j]) && rows[i].number == rows[j].number ==> i == j
  }

  ghost predicate Linked(rows: map<Id, Attempt>) {
    && (forall id {:trigger WellPlaced(rows, id)} :: WellPlaced(rows, id))
    && (forall i, j {:trigger OneAttemptANumber(rows, i, j)} :: OneAttemptANumber(rows, i, j))
  }

  lemma InsertKeepsLinked(rows: map<Id, Attempt>, a: Attempt)
    requires Linked(rows) && Placed(rows, a) && !Conflicts(rows, a)
    ensures Linked(rows[a.id := a])
  {
    var after := rows[a.id := a];
    forall id ensures WellPlaced(after, id) {
      assert WellPlaced(rows, id);
    }
    forall i, j ensures OneAttemptANumber(after, i, j) {
      assert OneAttemptANumber(rows, i, j);
    }
  }

  lemma {:induction false} AlwaysLinked(submissions: seq<Submission>)
    ensures Linked(RowsAfter(submissions))
  {
    if submissions != [] {
      AlwaysLinked(submissions[..|submissions| - 1]);
      var rows := RowsAfter(submissions[..|submissions| - 1]);
      var last := submissions[|submissions| - 1];
      if Placed(rows, last.attempt) && !Conflicts(rows, last.attempt) {
        InsertKeepsLinked(rows, last.attempt);
      }
    }
  }

  /** The attempt reached by following `k` retry links. */
  function Back(rows: map<Id, Attempt>, id: Id, k: nat): Option<Id>
    decreases k
  {
    if id !in rows then None
    else if k == 0 then Some(id)
    else if rows[id].retryOf.None? then None
    else Back(rows, rows[id].retryOf.value, k - 1)
  }

  lemma {:induction false} LinksGoBackOne(rows: map<Id, Attempt>, id: Id, k: nat)
    requires Linked(rows) && id in rows
    ensures k < rows[id].number ==>
      var r := Back(rows, id, k);
      r.Some? && r.value in rows && SameOperation(rows[r.value], rows[id]) && rows[r.value].number == rows[id].number - k
    ensures k >= rows[id].number ==> Back(rows, id, k).None?
    decreases k
  {
    assert WellPlaced(rows, id);
    if k > 0 && rows[id].number > 1 {
      LinksGoBackOne(rows, rows[id].retryOf.value, k - 1);
    }
  }

  /** In every reachable table: from attempt number n, exactly n - 1 links lead to attempt 1 of the
      same operation, passing every number between on the way, and a number names one attempt. */
  lemma RetryChain(submissions: seq<Submission>, id: Id)
    requires id in RowsAfter(submissions)
    ensures var rows := RowsAfter(submissions); var n := rows[id].number;
      && n >= 1 && Back(rows, id, n).None?
      && (forall k | 0 <= k < n ::
            var r := Back(rows, id, k);
            r.Some? && r.value in rows && SameOperation(rows[r.value], rows[id]) && rows[r.value].number == n - k
            && forall j | j in rows && SameOperation(rows[j], rows[id]) && rows[j].number == n - k :: j == r.value)
  {
    AlwaysLinked(submissions);
    var rows := RowsAfter(submissions);
    var n := rows[id].number;
    assert WellPlaced(rows, id);
    LinksGoBackOne(rows, id, n);
    forall k | 0 <= k < n
      ensures var r := Back(rows, id, k);
        r.Some? && r.value in rows && SameOperation(rows[r.value], rows[id]) && rows[r.value].number == n - k
        && forall j | j in rows && SameOperation(rows[j], rows[id]) && rows[j].number == n - k :: j == r.value
    {
      LinksGoBackOne(rows, id, k);
      var r := Back(rows, id, k);
      forall j | j in rows && SameOperation(rows[j], rows[id]) && rows[j].number == n - k ensures j == r.value {
        assert OneAttemptANumber(rows, j, r.value);
      }
    }
  }

  /** Reporting an attempt that is recorded already succeeds and changes nothing. */
  lemma ReplayChangesNothing(rows: map<Id, Attempt>, a: Attempt, stillAdmitted: bool)
    requires a.id in rows && rows[a.id] == a
    ensures Reported(rows, a, true, stillAdmitted) == Success(rows)
  {
    assert Conflicts(rows, a);
  }

  // ----- which reports are accepted -----

  /** The last attempt of an operation so far. */
  ghost predicate IsLatest(rows: map<Id, Attempt>, a: Attempt, id: Id) {
    && id in rows && SameOperation(rows[id], a)
    && forall j | j in rows && SameOperation(rows[j], a) :: rows[j].number <= rows[id].number
  }

  /** The first attempt of an operation without attempts, or the next after its latest, naming it. */
  ghost predicate IsNext(rows: map<Id, Attempt>, a: Attempt) {
    || (a.number == 1 && a.retryOf.None? && forall j | j in rows :: !SameOperation(rows[j], a))
    || (a.retryOf.Some? && IsLatest(rows, a, a.retryOf.value) && a.number == rows[a.retryOf.value].number + 1)
  }

  /** No row has its id or its terminal hash. */
  ghost predicate IsNew(rows: map<Id, Attempt>, a: Attempt) {
    a.id !in rows && forall j | j in rows :: rows[j].terminalHash != a.terminalHash
  }

  /** Every number below that of a row is there, for the same operation. */
  lemma NumberIsThere(rows: map<Id, Attempt>, id: Id, n: int) returns (j: Id)
    requires Linked(rows) && id in rows && 1 <= n <= rows[id].number
    ensures j in rows && SameOperation(rows[j], rows[id]) && rows[j].number == n
  {
    LinksGoBackOne(rows, id, rows[id].number - n);
    j := Back(rows, id, rows[id].number - n).value;
  }

  lemma NextIffPlaced(rows: map<Id, Attempt>, a: Attempt)
    requires Linked(rows) && IsNew(rows, a)
    ensures Placed(rows, a) && !Conflicts(rows, a) <==> IsNext(rows, a)
  {
    forall j | j in rows ensures WellPlaced(rows, j) {
    }
    if Placed(rows, a) && !Conflicts(rows, a) {
      forall j | j in rows && SameOperation(rows[j], a) ensures rows[j].number < a.number {
        if a.number <= rows[j].number { var k := NumberIsThere(rows, j, a.number); }
      }
      forall j | j in rows && SameOperation(rows[j], a) ensures rows[j].number >= 1 {
        assert WellPlaced(rows, j);
      }
    }
    if IsNext(rows, a) && a.retryOf.Some? {
      assert WellPlaced(rows, a.retryOf.value);
    }
  }

  /**
   In every reachable table an attempt that is new is stored if and only if its worker passes both fences and it is
   the first of its operation or the next after the latest, naming that one; otherwise nothing changes.
  */
  lemma StoredIffNext(submissions: seq<Submission>, a: Attempt, admitted: bool, stillAdmitted: bool)
    requires IsNew(RowsAfter(submissions), a)
    ensures var rows := RowsAfter(submissions);
      Reported(rows, a, admitted, stillAdmitted) ==
        if admitted && stillAdmitted && IsNext(rows, a) then Success(rows[a.id := a])
        else Failure(if admitted then "PROVIDER_ATTEMPT_CONFLICT" else "PROVIDER_ATTEMPT_FENCED")
  {
    AlwaysLinked(submissions);
    NextIffPlaced(RowsAfter(submissions), a);
  }

  /** An attempt whose id or hash is taken is a replay if it is the stored one, and otherwise refused. */
  lemma TakenIsReplayOrRefused(rows: map<Id, Attempt>, a: Attempt, stillAdmitted: bool)
    requires !IsNew(rows, a)
    ensures Reported(rows, a, true, stillAdmitted) ==
      if a.id in rows && rows[a.id] == a then Success(rows) else Failure("PROVIDER_ATTEMPT_CONFLICT")
  {
    assert Conflicts(rows, a);
  }
}
