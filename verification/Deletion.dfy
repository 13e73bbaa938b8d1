/**
 Draining a deletion: storage is emptied and listed until two scans in a row find nothing.  Other
 transactions and storage writers act between any two calls; what they do is a script, one entry
 for each call, and nobody else acts once it has run out.
*/
module Deletion {
  import opened HoldOperations
  import opened Lifecycle
  import opened Wrappers

  /** What happens just before one storage call or transaction. */
  datatype Disturbance = Disturbance(
    fails: bool, actions: seq<Action>, versions: Option<set<Id>>, uploads: Option<set<Id>>, drained: Option<bool>)

  datatype Scan = Scan(writeEpoch: nat, versions: nat, uploads: nat, consecutiveEmpty: nat, drained: bool)

  datatype Found = Found(versions: set<Id>, uploads: set<Id>)

  predicate EmptyScan(scan: Scan, writeEpoch: nat) {
    scan.writeEpoch == writeEpoch && scan.versions == 0 && scan.uploads == 0 && scan.drained
  }

  /** The last two recorded scans are empty ones of this epoch, with writers drained at each. */
  predicate TwoEmptyScans(scans: seq<Scan>, writeEpoch: nat) {
    |scans| >= 2 && EmptyScan(scans[|scans| - 2], writeEpoch) && EmptyScan(scans[|scans| - 1], writeEpoch)
  }

  class DeletionWorker {
    const rows: ArchiveRows
    var versions: set<Id>
    var uploads: set<Id>
    var drained: bool
    var scans: seq<Scan>
    var script: seq<Disturbance>
    const participants: nat
    /** What others did just before the last call. */
    ghost var lastRead: Option<Disturbance>

    constructor (rows: ArchiveRows, versions: set<Id>, uploads: set<Id>, drained: bool, script: seq<Disturbance>,
                 participants: nat)
      ensures this.rows == rows && this.versions == versions && this.uploads == uploads && this.drained == drained
      ensures this.script == script && this.participants == participants && scans == []
    {
      this.rows, this.versions, this.uploads, this.drained := rows, versions, uploads, drained;
      this.script, this.participants, scans, lastRead := script, participants, [], None;
    }

    /** The archive as the next transaction will find it. */
    ghost function Seen(): Record
      reads this, rows
    {
      if script == [] then rows.Contents() else After(rows.Contents(), script[0].actions)
    }

    ghost function VersionsSeen(): set<Id>
      reads this
    {
      if script != [] && script[0].versions.Some? then script[0].versions.value else versions
    }

    ghost function UploadsSeen(): set<Id>
      reads this
    {
      if script != [] && script[0].uploads.Some? then script[0].uploads.value else uploads
    }

    ghost function DrainedSeen(): bool
      reads this
    {
      if script != [] && script[0].drained.Some? then script[0].drained.value else drained
    }

    /** Others act; the call that follows goes through if the answer is yes. */
    method Tick() returns (ok: bool)
      modifies this`versions, this`uploads, this`drained, this`lastRead, this`script, rows
      ensures script == if old(script) == [] then [] else old(script)[1..]
      ensures rows.Contents() == old(Seen())
      ensures lastRead == if old(script) == [] then None else Some(old(script)[0])
      ensures ok == (old(script) == [] || !old(script)[0].fails)
      ensures versions == old(VersionsSeen()) && uploads == old(UploadsSeen()) && drained == old(DrainedSeen())
    {
      ok, lastRead := true, None;
      if script != [] {
        var d := script[0];
        lastRead := Some(d);
        script := script[1..];
        rows.Restore(After(rows.Contents(), d.actions));
        if d.versions.Some? { versions := d.versions.value; }
        if d.uploads.Some? { uploads := d.uploads.value; }
        if d.drained.Some? { drained := d.drained.value; }
        ok := !d.fails;
      }
    }

    /** Nobody else acts any more, and the rows and the writers are as they were. */
    twostate predicate Undisturbed()
      reads this, rows
    {
      old(script) == [] ==> script == [] && drained == old(drained) && rows.Contents() == old(rows.Contents())
    }

    /** What was found is there still, unless others changed it just before the last call. */
    ghost predicate FoundNow(found: Found)
      reads this`versions, this`uploads, this`lastRead
    {
      && found.versions == versions
      && (found.uploads == uploads || (lastRead.Some? && lastRead.value.uploads == Some(uploads)))
    }

    method AbortUploads() returns (ok: bool)
      modifies this`versions, this`uploads, this`drained, this`lastRead, this`script, rows
      ensures Undisturbed() && |script| <= |old(script)|
      ensures old(script) == [] ==> ok && uploads == {} && versions == old(versions)
    {
      ok := true;
      var open := uploads;
      while open != {}
        invariant Undisturbed() && |script| <= |old(script)|
        invariant old(script) == [] ==> uploads == open && versions == old(versions)
        decreases |open|
      {
        var upload :| upload in open;
        ok := Tick();
        if !ok { return; }
        open, uploads := open - {upload}, uploads - {upload};
      }
      ok := true;
    }

    method DeleteVersions() returns (ok: bool)
      modifies this`versions, this`uploads, this`drained, this`lastRead, this`script, rows
      ensures Undisturbed() && |script| <= |old(script)|
      ensures old(script) == [] ==> ok && versions == {} && uploads == old(uploads)
    {
      ok := Tick();
      if !ok { return; }
      var listed := versions;
      if listed != {} {
        ok := Tick();
        if !ok { return; }
        versions := versions - listed;
      }
    }

    /** List uploads and versions: what is found is what is there when each is listed. */
    method Look() returns (found: Option<Found>)
      modifies this`versions, this`uploads, this`drained, this`lastRead, this`script, rows
      ensures Undisturbed() && |script| <= |old(script)|
      ensures found.Some? ==> found.value == Found(versions, old(UploadsSeen())) && FoundNow(found.value)
      ensures old(script) == [] ==> found == Some(Found(old(versions), old(uploads)))
      ensures old(script) == [] ==> versions == old(versions) && uploads == old(uploads)
    {
      var ok := Tick();
      if !ok { return None; }
      var remainingUploads := uploads;
      ok := Tick();
      if !ok { return None; }
      return Some(Found(versions, remainingUploads));
    }

    /** Abort every upload, delete every version, and look again. */
    method PerformScan() returns (found: Option<Found>)
      modifies this`versions, this`uploads, this`drained, this`lastRead, this`script, rows
      ensures Undisturbed() && (old(script) != [] ==> |script| < |old(script)|)
      ensures found.Some? ==> FoundNow(found.value)
      ensures old(script) == [] ==> found == Some(Found({}, {})) && versions == {} && uploads == {}
    {
      var ok := Tick();
      if !ok { return None; }
      ok := AbortUploads();
      if !ok { return None; }
      ok := DeleteVersions();
      if !ok { return None; }
      found := Look();
    }

    /** Record a scan, unless the archive has moved on; the answer is whether writers were drained. */
    method RecordScan(writeEpoch: nat, found: Found, consecutiveEmpty: nat) returns (result: Result<bool, Error>)
      modifies this`versions, this`uploads, this`drained, this`lastRead, this`script, this`scans, rows
      ensures script == if old(script) == [] then [] else old(script)[1..]
      ensures rows.Contents() == old(Seen())
      ensures old(script) == [] ==> drained == old(drained) && versions == old(versions) && uploads == old(uploads)
      ensures result.Failure? <==> !old(Seen()).state.Deleting? || old(Seen()).writeEpoch != writeEpoch
      ensures scans == if result.Failure? then old(scans)
        else old(scans) + [Scan(writeEpoch, |found.versions|, |found.uploads|, consecutiveEmpty, result.value)]
      ensures result.Success? ==> result.value == drained
    {
      var _ := Tick();
      if !rows.state.Deleting? || rows.writeEpoch != writeEpoch { return Failure(ArchiveFenced); }
      scans := scans + [Scan(writeEpoch, |found.versions|, |found.uploads|, consecutiveEmpty, drained)];
      return Success(drained);
    }

    method RecordFailure(writeEpoch: nat)
      modifies this`versions, this`uploads, this`drained, this`lastRead, this`script, rows
      ensures rows.Contents() == FailDeletionOf(old(Seen()), writeEpoch)
    {
      var _ := Tick();
      rows.FailDeletion(writeEpoch);
    }

    /** A deletion of this epoch is under way, its writers are drained, and nobody else will act. */
    ghost predicate QuietDeletion(writeEpoch: nat)
      reads this, rows
    {
      && script == [] && drained && participants == 2
      && rows.state.Deleting? && rows.writeEpoch == writeEpoch
    }

    /** Scan until two scans in a row were empty; the answer is no when a scan fails or writers come back. */
    method ScanUntilEmpty(writeEpoch: nat) returns (go: bool)
      modifies this`versions, this`uploads, this`drained, this`lastRead, this`script, this`scans, rows
      ensures |scans| >= |old(scans)| && (scans != old(scans) ==> |scans| > |old(scans)|)
      ensures go ==> |scans| >= |old(scans)| + 2 && TwoEmptyScans(scans, writeEpoch)
      ensures old(QuietDeletion(writeEpoch)) ==>
        go && QuietDeletion(writeEpoch) && |scans| == |old(scans)| + 2 && versions == {} && uploads == {}
    {
      var consecutiveEmpty := 0;
      while consecutiveEmpty < 2
        invariant consecutiveEmpty <= 2 && |scans| >= |old(scans)| + consecutiveEmpty
        invariant scans != old(scans) ==> |scans| > |old(scans)|
        invariant consecutiveEmpty >= 1 ==> EmptyScan(scans[|scans| - 1], writeEpoch)
        invariant consecutiveEmpty == 2 ==> EmptyScan(scans[|scans| - 2], writeEpoch)
        invariant old(QuietDeletion(writeEpoch)) ==> QuietDeletion(writeEpoch)
        invariant old(QuietDeletion(writeEpoch)) ==> |scans| == |old(scans)| + consecutiveEmpty
        invariant old(QuietDeletion(writeEpoch)) && consecutiveEmpty > 0 ==> versions == {} && uploads == {}
        decreases |script|, 2 - consecutiveEmpty
      {
        var found := PerformScan();
        if found.None? {
          RecordFailure(writeEpoch);
          return false;
        }
        consecutiveEmpty :=
          if |found.value.uploads| == 0 && |found.value.versions| == 0 then consecutiveEmpty + 1 else 0;
        var stillDrained := RecordScan(writeEpoch, found.value, consecutiveEmpty);
        if stillDrained.Failure? {
          RecordFailure(writeEpoch);
          return false;
        }
        if !stillDrained.value { return false; }
      }
      return true;
    }

    /** `drainDeletion`: yes only when the archive is deleted for this write epoch. */
    method Drain(writeEpoch: nat) returns (result: Result<bool, Error>)
      modifies this`versions, this`uploads, this`drained, this`lastRead, this`script, this`scans, rows
      // deleted: by an earlier drain of this epoch, or by this one after two empty scans in a row
      ensures result == Success(true) ==> rows.state.Deleted? && rows.completedEpoch == Some(writeEpoch)
      ensures result == Success(true) && scans == old(scans) ==> rows.Contents() == old(Seen())
      ensures result == Success(true) && scans != old(scans) ==>
        |scans| >= |old(scans)| + 2 && TwoEmptyScans(scans, writeEpoch) && rows.writeEpoch == writeEpoch
      // an older or newer epoch is refused and changes nothing
      ensures result.Failure? <==>
        var seen := old(Seen());
        !(seen.state.Deleted? && seen.completedEpoch == Some(writeEpoch))
        && (!seen.state.Deleting? || seen.writeEpoch != writeEpoch)
      ensures result.Failure? ==> rows.Contents() == old(Seen()) && scans == old(scans)
      // when nobody else acts, two scans do it
      ensures old(QuietDeletion(writeEpoch)) ==>
        result == Success(true) && |scans| == |old(scans)| + 2 && versions == {} && uploads == {}
    {
      var _ := Tick();
      if rows.state.Deleted? && rows.completedEpoch == Some(writeEpoch) { return Success(true); }
      if !rows.state.Deleting? { return Failure(InvalidArchiveState); }
      if rows.writeEpoch != writeEpoch { return Failure(ArchiveFenced); }

      var _ := Tick();
      if !rows.state.Deleting? || rows.writeEpoch != writeEpoch || !drained { return Success(false); }

      var go := ScanUntilEmpty(writeEpoch);
      if !go { return Success(false); }

      var _ := Tick();
      var completed := rows.CompleteDeletion(writeEpoch, drained, participants);
      if completed.Failure? {
        RecordFailure(writeEpoch);
        return Success(false);
      }
      return completed;
    }
  }
}
