/** The check that a proposed inventory claims exactly the objects the archive has recorded. */
module InventoryClaims {
  import opened Wrappers
  import opened Sequences

  datatype Range = Range(start: nat, end: nat)

  datatype Claimed = Claimed(
    objectId: string, objectClass: string, key: string, versionId: string, size: nat,
    sha256: string, s3Checksum: string, contentType: string,
    sampleRange: Option<Range>, attempt: Option<nat>, sequence: Option<nat>)

  datatype Stored = Stored(
    id: string, objectClass: string, causalKey: string, key: string, versionId: string, size: nat,
    sha256: string, s3Checksum: string, contentType: string,
    sampleStart: Option<nat>, sampleEnd: Option<nat>,
    attempt: Option<nat>, sequence: Option<nat>, writerEpoch: nat)

  /** What a claim and a stored row both say about an object. */
  datatype Facts = Facts(
    id: string, objectClass: string, key: string, versionId: string, size: nat,
    sha256: string, s3Checksum: string, contentType: string,
    sampleStart: Option<nat>, sampleEnd: Option<nat>, attempt: Option<nat>, sequence: Option<nat>)

  function RangeStart(r: Option<Range>): Option<nat> { if r.Some? then Some(r.value.start) else None }
  function RangeEnd(r: Option<Range>): Option<nat> { if r.Some? then Some(r.value.end) else None }

  function ClaimFacts(c: Claimed): Facts {
    Facts(c.objectId, c.objectClass, c.key, c.versionId, c.size, c.sha256, c.s3Checksum, c.contentType,
          RangeStart(c.sampleRange), RangeEnd(c.sampleRange), c.attempt, c.sequence)
  }

  function StoredFacts(s: Stored): Facts {
    Facts(s.id, s.objectClass, s.key, s.versionId, s.size, s.sha256, s.s3Checksum, s.contentType,
          s.sampleStart, s.sampleEnd, s.attempt, s.sequence)
  }

  function VersionTag(key: string, versionId: string): string { key + "\0" + versionId }

  function ClaimIds(claimed: seq<Claimed>): seq<string> {
    seq(|claimed|, i requires 0 <= i < |claimed| => claimed[i].objectId)
  }

  function ClaimTags(claimed: seq<Claimed>): seq<string> {
    seq(|claimed|, i requires 0 <= i < |claimed| => VersionTag(claimed[i].key, claimed[i].versionId))
  }

  function StoredIds(persisted: seq<Stored>): seq<string> {
    seq(|persisted|, i requires 0 <= i < |persisted| => persisted[i].id)
  }

  function StoredTags(persisted: seq<Stored>): seq<string> {
    seq(|persisted|, i requires 0 <= i < |persisted| => VersionTag(persisted[i].key, persisted[i].versionId))
  }

  function AllClaimFacts(claimed: seq<Claimed>): seq<Facts> {
    seq(|claimed|, i requires 0 <= i < |claimed| => ClaimFacts(claimed[i]))
  }

  function AllStoredFacts(persisted: seq<Stored>): seq<Facts> {
    seq(|persisted|, i requires 0 <= i < |persisted| => StoredFacts(persisted[i]))
  }

  /** `new Map(persisted.map((object) => [object.id, object]))`: a later row with the same id wins. */
  function ById(persisted: seq<Stored>): map<string, Stored> {
    if persisted == [] then map[]
    else ById(persisted[..|persisted| - 1])[persisted[|persisted| - 1].id := persisted[|persisted| - 1]]
  }

  predicate Matches(stored: Stored, c: Claimed) {
    && stored.objectClass == c.objectClass
    && stored.key == c.key
    && stored.versionId == c.versionId
    && stored.size == c.size
    && stored.sha256 == c.sha256
    && stored.s3Checksum == c.s3Checksum
    && stored.contentType == c.contentType
    && stored.sampleStart == RangeStart(c.sampleRange)
    && stored.sampleEnd == RangeEnd(c.sampleRange)
    && stored.attempt == c.attempt
    && stored.sequence == c.sequence
  }

  function AssertClaimedObjects(claimed: seq<Claimed>, persisted: seq<Stored>, exact: bool): Result<(), string> {
    var byId := ById(persisted);
    if |Elements(ClaimIds(claimed))| != |claimed| || |Elements(ClaimTags(claimed))| != |claimed| then
      Failure("INVENTORY_OBJECT_MISMATCH")
    else if exact && (|claimed| != |persisted| || |byId| != |persisted| || |Elements(StoredTags(persisted))| != |persisted|) then
      Failure("INVENTORY_OBJECT_MISMATCH")
    else if exists i :: 0 <= i < |claimed| && !(claimed[i].objectId in byId && Matches(byId[claimed[i].objectId], claimed[i])) then
      Failure("INVENTORY_OBJECT_MISMATCH")
    else Success(())
  }

  lemma {:induction false} ByIdLooksUp(persisted: seq<Stored>)
    ensures forall id :: id in ById(persisted) <==> id in StoredIds(persisted)
    ensures forall id | id in ById(persisted) :: ById(persisted)[id] in persisted && ById(persisted)[id].id == id
  {
    if persisted != [] {
      var init, last := persisted[..|persisted| - 1], persisted[|persisted| - 1];
      ByIdLooksUp(init);
      assert persisted == init + [last];
      assert StoredIds(persisted) == StoredIds(init) + [last.id];
    }
  }

  /** With distinct ids the map has one entry for each row. */
  lemma ByIdFinds(persisted: seq<Stored>, j: nat)
    requires Distinct(StoredIds(persisted)) && j < |persisted|
    ensures persisted[j].id in ById(persisted) && ById(persisted)[persisted[j].id] == persisted[j]
  {
    ByIdLooksUp(persisted);
    assert StoredIds(persisted)[j] == persisted[j].id;
    var found := ById(persisted)[persisted[j].id];
    var k :| 0 <= k < |persisted| && persisted[k] == found;
    DistinctAt(StoredIds(persisted), k, j);
  }

  lemma ByIdSize(persisted: seq<Stored>)
    ensures |ById(persisted)| == |persisted| <==> Distinct(StoredIds(persisted))
  {
    ByIdLooksUp(persisted);
    SizeIffDistinct(StoredIds(persisted));
    assert ById(persisted).Keys == Elements(StoredIds(persisted));
    assert |ById(persisted)| == |ById(persisted).Keys|;
  }

  lemma FactsIdentify(claimed: seq<Claimed>)
    requires Distinct(ClaimIds(claimed))
    ensures Distinct(AllClaimFacts(claimed))
  {
    forall i, j | 0 <= i < j < |claimed| ensures AllClaimFacts(claimed)[i] != AllClaimFacts(claimed)[j] {
      assert ClaimIds(claimed)[i] != ClaimIds(claimed)[j];
    }
  }

  /** An exact check passes just when the claims repeat no id and no version and the claimed and the
      stored objects are the same objects, every compared field included. */
  lemma ExactMeansOneToOne(claimed: seq<Claimed>, persisted: seq<Stored>)
    ensures AssertClaimedObjects(claimed, persisted, true).Success? <==>
      && Distinct(ClaimIds(claimed))
      && Distinct(ClaimTags(claimed))
      && multiset(AllClaimFacts(claimed)) == multiset(AllStoredFacts(persisted))
  {
    SizeIffDistinct(ClaimIds(claimed));
    SizeIffDistinct(ClaimTags(claimed));
    if AssertClaimedObjects(claimed, persisted, true).Success? {
      AcceptedIsPermutation(claimed, persisted);
    } else if Distinct(ClaimIds(claimed)) && Distinct(ClaimTags(claimed))
              && multiset(AllClaimFacts(claimed)) == multiset(AllStoredFacts(persisted)) {
      PermutationIsAccepted(claimed, persisted);
    }
  }

  lemma AcceptedIsPermutation(claimed: seq<Claimed>, persisted: seq<Stored>)
    requires AssertClaimedObjects(claimed, persisted, true).Success?
    requires Distinct(ClaimIds(claimed))
    ensures multiset(AllClaimFacts(claimed)) == multiset(AllStoredFacts(persisted))
  {
    ByIdLooksUp(persisted);
    FactsIdentify(claimed);
    forall f | f in AllClaimFacts(claimed) ensures f in AllStoredFacts(persisted) {
      var i :| 0 <= i < |claimed| && f == ClaimFacts(claimed[i]);
      var stored := ById(persisted)[claimed[i].objectId];
      var j :| 0 <= j < |persisted| && persisted[j] == stored;
      assert AllStoredFacts(persisted)[j] == f;
    }
    Pigeonhole(AllClaimFacts(claimed), AllStoredFacts(persisted));
  }

  lemma SameFacts(claimed: seq<Claimed>, persisted: seq<Stored>, j: nat) returns (i: nat)
    requires multiset(AllClaimFacts(claimed)) == multiset(AllStoredFacts(persisted)) && j < |persisted|
    ensures i < |claimed| && ClaimFacts(claimed[i]) == StoredFacts(persisted[j])
  {
    assert AllStoredFacts(persisted)[j] in multiset(AllStoredFacts(persisted));
    assert AllStoredFacts(persisted)[j] in AllClaimFacts(claimed);
    i :| 0 <= i < |claimed| && AllClaimFacts(claimed)[i] == AllStoredFacts(persisted)[j];
  }

  lemma RowsDistinct(claimed: seq<Claimed>, persisted: seq<Stored>)
    requires Distinct(ClaimIds(claimed)) && Distinct(ClaimTags(claimed))
    requires multiset(AllClaimFacts(claimed)) == multiset(AllStoredFacts(persisted))
    ensures |claimed| == |persisted|
    ensures Distinct(StoredIds(persisted)) && Distinct(StoredTags(persisted))
  {
    FactsIdentify(claimed);
    assert |multiset(AllClaimFacts(claimed))| == |claimed| && |multiset(AllStoredFacts(persisted))| == |persisted|;
    assert forall f :: f in AllClaimFacts(claimed) ==> f in multiset(AllStoredFacts(persisted));
    Pigeonhole(AllClaimFacts(claimed), AllStoredFacts(persisted));
    forall j, k | 0 <= j < k < |persisted|
      ensures StoredIds(persisted)[j] != StoredIds(persisted)[k] && StoredTags(persisted)[j] != StoredTags(persisted)[k]
    {
      var a := SameFacts(claimed, persisted, j);
      var b := SameFacts(claimed, persisted, k);
      assert AllStoredFacts(persisted)[j] != AllStoredFacts(persisted)[k];
      assert ClaimIds(claimed)[a] == persisted[j].id && ClaimIds(claimed)[b] == persisted[k].id;
      assert ClaimTags(claimed)[a] == StoredTags(persisted)[j] && ClaimTags(claimed)[b] == StoredTags(persisted)[k];
      assert a < b || b < a;
    }
  }

  lemma PermutationIsAccepted(claimed: seq<Claimed>, persisted: seq<Stored>)
    requires Distinct(ClaimIds(claimed)) && Distinct(ClaimTags(claimed))
    requires multiset(AllClaimFacts(claimed)) == multiset(AllStoredFacts(persisted))
    ensures AssertClaimedObjects(claimed, persisted, true).Success?
  {
    RowsDistinct(claimed, persisted);
    SizeIffDistinct(ClaimIds(claimed));
    SizeIffDistinct(ClaimTags(claimed));
    SizeIffDistinct(StoredTags(persisted));
    ByIdSize(persisted);
    forall i | 0 <= i < |claimed|
      ensures claimed[i].objectId in ById(persisted) && Matches(ById(persisted)[claimed[i].objectId], claimed[i])
    {
      assert AllClaimFacts(claimed)[i] in multiset(AllClaimFacts(claimed));
      assert AllClaimFacts(claimed)[i] in AllStoredFacts(persisted);
      var j :| 0 <= j < |persisted| && AllStoredFacts(persisted)[j] == AllClaimFacts(claimed)[i];
      assert StoredFacts(persisted[j]) == ClaimFacts(claimed[i]);
      ByIdFinds(persisted, j);
    }
  }

  /**
   Outside exact mode the check passes if and only if the claims repeat no id and no version and each claimed object
   is a stored one, every compared field included.
  */
  lemma InexactMeansStored(claimed: seq<Claimed>, persisted: seq<Stored>)
    requires Distinct(StoredIds(persisted))
    ensures AssertClaimedObjects(claimed, persisted, false).Success? <==>
      && Distinct(ClaimIds(claimed)) && Distinct(ClaimTags(claimed))
      && forall i | 0 <= i < |claimed| :: ClaimFacts(claimed[i]) in AllStoredFacts(persisted)
  {
    SizeIffDistinct(ClaimIds(claimed));
    SizeIffDistinct(ClaimTags(claimed));
    if AssertClaimedObjects(claimed, persisted, false).Success? {
      forall i | 0 <= i < |claimed| ensures ClaimFacts(claimed[i]) in AllStoredFacts(persisted) {
        ClaimsAreStored(claimed, persisted, false, i);
      }
    }
    forall i | 0 <= i < |claimed| && ClaimFacts(claimed[i]) in AllStoredFacts(persisted)
      ensures claimed[i].objectId in ById(persisted) && Matches(ById(persisted)[claimed[i].objectId], claimed[i])
    {
      var j :| 0 <= j < |persisted| && AllStoredFacts(persisted)[j] == ClaimFacts(claimed[i]);
      assert StoredFacts(persisted[j]) == ClaimFacts(claimed[i]);
      ByIdFinds(persisted, j);
    }
  }

  /** Outside exact mode a passed check still finds each claim among the stored rows. */
  lemma ClaimsAreStored(claimed: seq<Claimed>, persisted: seq<Stored>, exact: bool, i: nat)
    requires AssertClaimedObjects(claimed, persisted, exact).Success? && i < |claimed|
    ensures ClaimFacts(claimed[i]) in AllStoredFacts(persisted)
  {
    ByIdLooksUp(persisted);
    var stored := ById(persisted)[claimed[i].objectId];
    var j :| 0 <= j < |persisted| && persisted[j] == stored;
    assert AllStoredFacts(persisted)[j] == ClaimFacts(claimed[i]);
  }
}
