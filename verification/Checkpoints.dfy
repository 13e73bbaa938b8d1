/** Rows of `worker_checkpoints`: for each direction of a worker epoch, a chain linked by hashes. */
module Checkpoints {
  import opened Lifecycle
  import opened Sequences
  import opened Wrappers

  type Hash = nat

  /** A direction of one worker epoch. */
  datatype Key = Key(generation: nat, workerId: Id, workerEpoch: nat, source: Id, destination: Id)

  /** `payload` stands for the columns no guard looks at; `supervisor` marks rows written by an abandonment. */
  datatype Checkpoint = Checkpoint(
    id: Id, key: Key, writeEpoch: nat, sequence: nat, accepted: nat, received: nat, emitted: nat,
    previous: Option<Hash>, hash: Hash, terminal: bool, payload: nat, createdAt: Time, supervisor: bool)

  function Rows(table: seq<Checkpoint>, key: Key): seq<Checkpoint> {
    if table == [] then []
    else
      var rest := Rows(table[..|table| - 1], key);
      if table[|table| - 1].key == key then rest + [table[|table| - 1]] else rest
  }

  predicate HasChild(rows: seq<Checkpoint>, hash: Hash) { exists c :: c in rows && c.previous == Some(hash) }

  /** `chain_heads`: the rows of a direction that no row of it follows. */
  function Heads(rows: seq<Checkpoint>): set<Checkpoint> { set h | h in rows && !HasChild(rows, h.hash) }

  /** The guard that a new row names the one head, or nothing when there is none. */
  predicate NamesHead(rows: seq<Checkpoint>, previous: Option<Hash>) {
    || (Heads(rows) == {} && previous == None)
    || (exists h | h in rows :: Heads(rows) == {h} && previous == Some(h.hash))
  }

  predicate SameWatermarks(a: Checkpoint, b: Checkpoint) {
    && a.sequence == b.sequence && a.accepted == b.accepted && a.received == b.received && a.emitted == b.emitted
    && a.terminal == b.terminal
  }

  /** The primary key, and the UNIQUE constraints on hashes, watermarks and terminal rows. */
  predicate Clashes(table: seq<Checkpoint>, row: Checkpoint) {
    exists r | r in table ::
      || r.id == row.id
      || r.hash == row.hash
      || (SameWatermarks(r, row) && r.key.workerEpoch == row.key.workerEpoch
          && r.key.source == row.key.source && r.key.destination == row.key.destination)
      || (r.key == row.key && r.terminal && row.terminal)
  }

  // ----- chains -----

  predicate Before(a: Checkpoint, b: Checkpoint) {
    a.sequence < b.sequence || (a.sequence == b.sequence && a.accepted < b.accepted)
  }

  /** Row `j` is one that `ORDER BY accepted_input_sequence DESC, accepted_input DESC LIMIT 1` may pick. */
  predicate IsLatest(rows: seq<Checkpoint>, j: nat) {
    j < |rows| && forall k | 0 <= k < |rows| :: !Before(rows[j], rows[k])
  }

  /** Row `i` names the row just before it. */
  predicate FollowsLast(rows: seq<Checkpoint>, i: nat)
    requires i < |rows|
  {
    rows[i].previous == if i == 0 then None else Some(rows[i - 1].hash)
  }

  /** Row `i` names one of the rows before it that has the highest watermark. */
  predicate FollowsLatest(rows: seq<Checkpoint>, i: nat)
    requires i < |rows|
  {
    if i == 0 then rows[i].previous == None
    else exists j :: 0 <= j < i && IsLatest(rows[..i], j) && rows[i].previous == Some(rows[j].hash)
  }

  predicate LinkedAt(rows: seq<Checkpoint>, i: nat)
    requires i < |rows|
  {
    if rows[i].supervisor then rows[i].terminal && FollowsLatest(rows, i) else FollowsLast(rows, i)
  }

  /** Every row is linked, no two have one hash, and only the last row may be terminal. */
  predicate Chain(rows: seq<Checkpoint>) {
    && (forall i | 0 <= i < |rows| :: LinkedAt(rows, i))
    && (forall i, j | 0 <= i < j < |rows| :: rows[i].hash != rows[j].hash)
    && (forall i | 0 <= i < |rows| - 1 :: !rows[i].terminal)
  }

  predicate Open(rows: seq<Checkpoint>) { forall r | r in rows :: !r.terminal }

  /** In an open chain the head is the last row. */
  lemma HeadIsLast(rows: seq<Checkpoint>)
    requires Chain(rows) && Open(rows)
    ensures Heads(rows) == if rows == [] then {} else {rows[|rows| - 1]}
  {
    if rows != [] {
      var last := rows[|rows| - 1];
      forall i | 0 <= i < |rows| - 1 ensures rows[i] !in Heads(rows) {
        assert LinkedAt(rows, i + 1) && rows[i + 1] in rows;
        assert HasChild(rows, rows[i].hash);
      }
      forall c | c in rows ensures c.previous != Some(last.hash) {
        var i :| 0 <= i < |rows| && rows[i] == c;
        assert LinkedAt(rows, i);
      }
      assert last in Heads(rows);
    }
  }

  /** The head guard lets a row in just when it names the last row of an open chain. */
  lemma NamesHeadIffLast(rows: seq<Checkpoint>, previous: Option<Hash>)
    requires Chain(rows) && Open(rows)
    ensures NamesHead(rows, previous) <==>
      previous == if rows == [] then None else Some(rows[|rows| - 1].hash)
  {
    HeadIsLast(rows);
    if rows != [] {
      var last := rows[|rows| - 1];
      assert last in rows && Heads(rows) == {last};
      forall h | h in rows && Heads(rows) == {h} ensures h == last {
        assert h in Heads(rows);
      }
    }
  }

  lemma ChainGrows(rows: seq<Checkpoint>, row: Checkpoint)
    requires Chain(rows) && Open(rows)
    requires forall r | r in rows :: r.hash != row.hash
    requires LinkedAt(rows + [row], |rows|)
    ensures Chain(rows + [row])
  {
    var all := rows + [row];
    forall i | 0 <= i < |all| ensures LinkedAt(all, i) {
      if i < |rows| {
        assert LinkedAt(rows, i) && all[..i] == rows[..i];
      }
    }
    forall i, j | 0 <= i < j < |all| ensures all[i].hash != all[j].hash {
      if j == |rows| { assert all[i] in rows; }
    }
    forall i | 0 <= i < |all| - 1 ensures !all[i].terminal {
      assert all[i] in rows;
    }
  }

  /** Along the rows the watermark strictly rises, up to and leaving out an abandonment. */
  predicate Rising(rows: seq<Checkpoint>) {
    forall i, j | 0 <= i < j < |rows| && !rows[j].supervisor :: Before(rows[i], rows[j])
  }

  /** When watermarks rise, an abandonment too names the row just before it: one chain from one root. */
  lemma RisingChainIsWhole(rows: seq<Checkpoint>)
    requires Chain(rows) && Rising(rows)
    ensures forall i | 0 <= i < |rows| :: FollowsLast(rows, i)
  {
    forall i | 0 <= i < |rows| ensures FollowsLast(rows, i) {
      assert LinkedAt(rows, i);
      if i > 0 && rows[i].supervisor {
        var j :| 0 <= j < i && IsLatest(rows[..i], j) && rows[i].previous == Some(rows[j].hash);
        assert !rows[i - 1].terminal;
        assert LinkedAt(rows, i - 1);
        assert rows[..i][i - 1] == rows[i - 1];
        if j < i - 1 {
          assert false;
        }
      }
    }
  }

  /** The last row alone has the highest watermark, if there is one. */
  predicate HeadAlone(rows: seq<Checkpoint>) {
    forall i | 0 <= i < |rows| - 1 :: Before(rows[i], rows[|rows| - 1])
  }

  /** Whatever row the query may pick is the head, if and only if the head alone has the highest watermark. */
  lemma PickIsHeadIff(rows: seq<Checkpoint>)
    requires rows != []
    ensures (forall j: nat | IsLatest(rows, j) :: j == |rows| - 1) <==> HeadAlone(rows)
  {
    var last := |rows| - 1;
    if HeadAlone(rows) {
      forall j: nat | IsLatest(rows, j) ensures j == last {
        assert !Before(rows[j], rows[last]);
      }
    } else {
      var k := SomeLatest(rows);
      if k == last {
        var i :| 0 <= i < last && !Before(rows[i], rows[last]);
        assert IsLatest(rows, i);
      }
    }
  }

  lemma {:induction false} SomeLatest(rows: seq<Checkpoint>) returns (k: nat)
    requires rows != []
    ensures IsLatest(rows, k)
  {
    k := 0;
    if |rows| > 1 {
      var init, last := rows[..|rows| - 1], rows[|rows| - 1];
      k := SomeLatest(init);
      assert forall i | 0 <= i < |init| :: !Before(init[k], init[i]) && init[i] == rows[i];
      if Before(rows[k], last) { k := |rows| - 1; }
    }
  }

  // ----- rows of a table -----

  lemma RowsPush(table: seq<Checkpoint>, row: Checkpoint, key: Key)
    ensures Rows(table + [row], key) == if row.key == key then Rows(table, key) + [row] else Rows(table, key)
  {
    assert (table + [row])[..|table|] == table;
  }

  lemma {:induction false} RowsAreThere(table: seq<Checkpoint>, key: Key)
    ensures forall r :: r in Rows(table, key) <==> r in table && r.key == key
  {
    if table != [] {
      RowsAreThere(table[..|table| - 1], key);
      assert table == table[..|table| - 1] + [table[|table| - 1]];
    }
  }
}
