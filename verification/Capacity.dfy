/**
 Capacity: reservations of units under a key, kept by Redis in a sorted set of expiries and a hash of units,
 and the provisioning loop that takes one reservation for each dimension or gives all of them back.
*/
module Capacity {
  import opened Lifecycle
  import opened Wrappers

  type Key = nat

  /** The reservation id of one dimension of one consultation: the consultation and the dimension's index. */
  datatype Rid = Rid(consultation: Id, index: nat)

  const PROVISIONING_TTL_MS := 1_200_000

  datatype Pool = Pool(expirations: map<Rid, Time>, units: map<Rid, nat>)

  const EMPTY := Pool(map[], map[])

  // ----- adding up a hash -----

  ghost function Sum(m: map<Rid, nat>): nat
    decreases |m|
  {
    if m == map[] then 0
    else
      var k :| k in m;
      m[k] + Sum(m - {k})
  }

  lemma {:induction false} SumWithout(m: map<Rid, nat>, k: Rid)
    requires k in m
    ensures Sum(m) == m[k] + Sum(m - {k})
    decreases |m|
  {
    var c :| c in m && Sum(m) == m[c] + Sum(m - {c});
    if c != k {
      SumWithout(m - {c}, k);
      SumWithout(m - {k}, c);
      assert m - {c} - {k} == m - {k} - {c};
    }
  }

  lemma SumWith(m: map<Rid, nat>, k: Rid, n: nat)
    requires k !in m
    ensures Sum(m[k := n]) == Sum(m) + n
  {
    SumWithout(m[k := n], k);
    assert m[k := n] - {k} == m;
  }

  lemma {:induction false} SumFewer(m: map<Rid, nat>, gone: set<Rid>)
    ensures Sum(m - gone) <= Sum(m)
    decreases |gone|
  {
    if gone == {} {
      assert m - gone == m;
    } else {
      var k :| k in gone;
      SumFewer(m, gone - {k});
      var rest := m - (gone - {k});
      if k in rest {
        SumWithout(rest, k);
        assert rest - {k} == m - gone;
      } else {
        assert rest == m - gone;
      }
    }
  }

  // ----- the scripts -----

  function Expired(p: Pool, now: Time): set<Rid> { set id | id in p.expirations && p.expirations[id] <= now }

  function Purge(p: Pool, now: Time): Pool {
    Pool(p.expirations - Expired(p, now), p.units - Expired(p, now))
  }

  ghost function ReserveIn(p: Pool, id: Rid, capacity: nat, ttl: nat, units: nat, now: Time): (Pool, bool) {
    var live := Purge(p, now);
    if id in live.units then (live.(expirations := live.expirations[id := now + ttl]), true)
    else if Sum(live.units) + units > capacity then (live, false)
    else (Pool(live.expirations[id := now + ttl], live.units[id := units]), true)
  }

  function RenewIn(p: Pool, id: Rid, ttl: nat, now: Time): (Pool, bool) {
    var live := Purge(p, now);
    if id !in live.units then (live, false) else (live.(expirations := live.expirations[id := now + ttl]), true)
  }

  function ReleaseIn(p: Pool, id: Rid): Pool { Pool(p.expirations - {id}, p.units - {id}) }

  /** The two structures hold the same ids, within the capacity. */
  ghost predicate Within(p: Pool, capacity: nat) { p.expirations.Keys == p.units.Keys && Sum(p.units) <= capacity }

  lemma PurgeWithin(p: Pool, capacity: nat, now: Time)
    requires Within(p, capacity)
    ensures Within(Purge(p, now), capacity)
  {
    SumFewer(p.units, Expired(p, now));
  }

  lemma ReserveWithin(p: Pool, id: Rid, capacity: nat, ttl: nat, units: nat, now: Time)
    requires Within(p, capacity)
    ensures Within(ReserveIn(p, id, capacity, ttl, units, now).0, capacity)
  {
    PurgeWithin(p, capacity, now);
    var live := Purge(p, now);
    if id !in live.units { SumWith(live.units, id, units); }
  }

  lemma ReleaseWithin(p: Pool, id: Rid, capacity: nat)
    requires Within(p, capacity)
    ensures Within(ReleaseIn(p, id), capacity)
  {
    SumFewer(p.units, {id});
  }

  /** What is reserved and has not run out. */
  function Unexpired(p: Pool, now: Time): map<Rid, nat> {
    map r | r in p.units && !(r in p.expirations && p.expirations[r] <= now) :: p.units[r]
  }

  /**
   A reservation that is still there is renewed.  A new one is admitted if and only if its units and those that have
   not run out are within the capacity together; what others hold stays as it is.
  */
  lemma AdmittedIff(p: Pool, id: Rid, capacity: nat, ttl: nat, units: nat, now: Time)
    ensures var (after, admitted) := ReserveIn(p, id, capacity, ttl, units, now);
      var live := Unexpired(p, now);
      && (admitted <==> id in live || Sum(live) + units <= capacity)
      && after.units == (if id in live || !admitted then live else live[id := units])
      && (admitted ==> id in after.expirations && after.expirations[id] == now + ttl)
      && (forall r | r != id :: r in after.expirations <==> r in p.expirations && p.expirations[r] > now)
      && (forall r | r != id && r in after.expirations :: after.expirations[r] == p.expirations[r])
  {
    assert Purge(p, now).units == Unexpired(p, now);
  }

  /** A renewal moves the expiry of a reservation that is still there, and a release removes it. */
  lemma RenewedIff(p: Pool, id: Rid, ttl: nat, now: Time)
    ensures var (after, renewed) := RenewIn(p, id, ttl, now);
      && (renewed <==> id in Unexpired(p, now)) && after.units == Unexpired(p, now)
      && (renewed ==> id in after.expirations && after.expirations[id] == now + ttl)
    ensures ReleaseIn(p, id).units == p.units - {id} && ReleaseIn(p, id).expirations == p.expirations - {id}
  {
    assert Purge(p, now).units == Unexpired(p, now);
  }

  // ----- runs over all keys -----

  datatype Op =
    | Reserve(key: Key, id: Rid, capacity: nat, ttl: nat, units: nat, now: Time)
    | Renew(key: Key, id: Rid, ttl: nat, now: Time)
    | Release(key: Key, id: Rid)

  type Pools = map<Key, Pool>

  function At(pools: Pools, key: Key): Pool { if key in pools then pools[key] else EMPTY }

  ghost function Step(pools: Pools, op: Op): Pools {
    match op
    case Reserve(key, id, capacity, ttl, units, now) =>
      pools[key := ReserveIn(At(pools, key), id, capacity, ttl, units, now).0]
    case Renew(key, id, ttl, now) => pools[key := RenewIn(At(pools, key), id, ttl, now).0]
    case Release(key, id) => pools[key := ReleaseIn(At(pools, key), id)]
  }

  ghost function After(pools: Pools, run: seq<Op>): Pools {
    if run == [] then pools else Step(After(pools, run[..|run| - 1]), run[|run| - 1])
  }

  ghost predicate AllWithin(pools: Pools, capacity: Key -> nat) { forall key :: Within(At(pools, key), capacity(key)) }

  lemma StepWithin(pools: Pools, op: Op, capacity: Key -> nat)
    requires AllWithin(pools, capacity) && (op.Reserve? ==> op.capacity == capacity(op.key))
    ensures AllWithin(Step(pools, op), capacity)
  {
    match op
    case Reserve(key, id, c, ttl, units, now) => ReserveWithin(At(pools, key), id, c, ttl, units, now);
    case Renew(key, id, ttl, now) => PurgeWithin(At(pools, key), capacity(key), now);
    case Release(key, id) => ReleaseWithin(At(pools, key), id, capacity(key));
  }

  /**
   With one capacity for each key, in every run of reserving, renewing, releasing and expiry the units reserved
   under a key never exceed it, and its two structures hold the same ids.
  */
  lemma {:induction false} CapacityInEveryRun(run: seq<Op>, capacity: Key -> nat)
    requires forall i | 0 <= i < |run| && run[i].Reserve? :: run[i].capacity == capacity(run[i].key)
    ensures AllWithin(After(map[], run), capacity)
  {
    if run == [] {
      assert Sum(map[]) == 0;
    } else {
      CapacityInEveryRun(run[..|run| - 1], capacity);
      StepWithin(After(map[], run[..|run| - 1]), run[|run| - 1], capacity);
    }
  }

  // ----- what others do to a reservation that is not theirs -----

  predicate Held(pools: Pools, key: Key, id: Rid) { id in At(pools, key).units }

  predicate HeldUntil(pools: Pools, key: Key, id: Rid, until: Time) {
    id in At(pools, key).units && id in At(pools, key).expirations && At(pools, key).expirations[id] >= until
  }

  /** Others act for other consultations, by clocks that have not passed `now`. */
  predicate Foreign(op: Op, ours: Id, now: Time) {
    op.id.consultation != ours && (op.Release? || op.now <= now)
  }

  lemma ForeignStep(pools: Pools, op: Op, ours: Id, now: Time, key: Key, id: Rid, until: Time)
    requires Foreign(op, ours, now) && id.consultation == ours && now < until
    ensures !Held(pools, key, id) ==> !Held(Step(pools, op), key, id)
    ensures HeldUntil(pools, key, id, until) ==> HeldUntil(Step(pools, op), key, id, until)
  {
  }

  lemma {:induction false} ForeignRun(pools: Pools, run: seq<Op>, ours: Id, now: Time, key: Key, id: Rid, until: Time)
    requires (forall op | op in run :: Foreign(op, ours, now)) && id.consultation == ours && now < until
    ensures !Held(pools, key, id) ==> !Held(After(pools, run), key, id)
    ensures HeldUntil(pools, key, id, until) ==> HeldUntil(After(pools, run), key, id, until)
  {
    if run != [] {
      ForeignRun(pools, run[..|run| - 1], ours, now, key, id, until);
      ForeignStep(After(pools, run[..|run| - 1]), run[|run| - 1], ours, now, key, id, until);
    }
  }

  // ----- the scripts and the provisioning loop, step by step -----

  /** `Lost` is a call that throws, having been carried out or not. */
  datatype Reply = Answered | Lost(applied: bool)

  /** What others do before one call, the time then, and how the call is answered. */
  datatype Disturbance = Disturbance(ops: seq<Op>, now: Time, reply: Reply)

  datatype Reservation = Reservation(key: Key, capacity: int, units: int, id: Rid)

  datatype Attempt = Taken | Refused | Failed

  datatype Outcome = Provisioned | Exhausted | Thrown | RollbackFailed

  /** The reservations of a consultation are numbered by dimension. */
  predicate Numbered(reservations: seq<Reservation>, ours: Id) {
    forall k | 0 <= k < |reservations| :: reservations[k].id == Rid(ours, k)
  }

  predicate ValidLimits(r: Reservation) { r.capacity >= 1 && r.units >= 1 && r.units <= r.capacity }

  /** The pools after the first `n` reservations, made one after the other at one time. */
  ghost function Filled(pools: Pools, reservations: seq<Reservation>, n: nat, now: Time): Pools
    requires n <= |reservations|
  {
    if n == 0 then pools
    else
      var r := reservations[n - 1];
      var before := Filled(pools, reservations, n - 1, now);
      if !ValidLimits(r) then before
      else before[r.key := ReserveIn(At(before, r.key), r.id, r.capacity, PROVISIONING_TTL_MS, r.units, now).0]
  }

  /** Whether reservation `n` finds room after the ones before it. */
  ghost predicate Fits(pools: Pools, reservations: seq<Reservation>, n: nat, now: Time)
    requires n < |reservations|
  {
    var r := reservations[n];
    && ValidLimits(r)
    && ReserveIn(At(Filled(pools, reservations, n, now), r.key), r.id, r.capacity, PROVISIONING_TTL_MS, r.units, now).1
  }

  /** The first `n` reservations all fitted, and `pools` is what they made of `start`. */
  ghost predicate FilledTo(start: Pools, reservations: seq<Reservation>, n: nat, now: Time, pools: Pools)
    requires n <= |reservations|
  {
    pools == Filled(start, reservations, n, now) && forall k | 0 <= k < n :: Fits(start, reservations, k, now)
  }

  lemma FilledOne(start: Pools, reservations: seq<Reservation>, n: nat, now: Time, pools: Pools)
    requires n < |reservations| && FilledTo(start, reservations, n, now, pools) && ValidLimits(reservations[n])
    ensures var r := reservations[n];
      var after := ReserveIn(At(pools, r.key), r.id, r.capacity, PROVISIONING_TTL_MS, r.units, now);
      && (after.1 <==> Fits(start, reservations, n, now))
      && (after.1 ==> FilledTo(start, reservations, n + 1, now, pools[r.key := after.0]))
  {
  }

  ghost predicate AllHeld(pools: Pools, reservations: seq<Reservation>, n: nat, until: Time)
    requires n <= |reservations|
  {
    forall k | 0 <= k < n :: HeldUntil(pools, reservations[k].key, reservations[k].id, until)
  }

  predicate NoneHeld(pools: Pools, reservations: seq<Reservation>, n: nat)
    requires n <= |reservations|
  {
    forall k | 0 <= k < n :: !Held(pools, reservations[k].key, reservations[k].id)
  }

  /** Everyone else acts for other consultations, and no clock reaches `until`. */
  predicate ForeignScript(script: seq<Disturbance>, ours: Id, until: Time) {
    forall d | d in script :: d.now < until && forall op | op in d.ops :: Foreign(op, ours, d.now)
  }

  class CapacityCoordinator {
    var pools: Pools
    var clock: Time
    var script: seq<Disturbance>

    constructor (script: seq<Disturbance>, clock: Time)
      ensures pools == map[] && this.script == script && this.clock == clock
    {
      pools, this.script, this.clock := map[], script, clock;
    }

    /** The loop over `HVALS`. */
    method AddUp(units: map<Rid, nat>) returns (current: nat)
      ensures current == Sum(units)
    {
      var rest := units;
      current := 0;
      while rest != map[]
        invariant current + Sum(rest) == Sum(units)
        decreases |rest|
      {
        var other :| other in rest;
        SumWithout(rest, other);
        current := current + rest[other];
        rest := rest - {other};
      }
    }

    /** The reserve script: drop what has expired, then renew, refuse or add. */
    method Reserve(key: Key, id: Rid, capacity: nat, ttl: nat, units: nat) returns (reserved: bool)
      modifies this`pools
      ensures pools == old(pools)[key := ReserveIn(At(old(pools), key), id, capacity, ttl, units, clock).0]
      ensures reserved == ReserveIn(At(old(pools), key), id, capacity, ttl, units, clock).1
    {
      var live := Purge(At(pools, key), clock);
      pools := pools[key := live];
      if id in live.units {
        pools := pools[key := live.(expirations := live.expirations[id := clock + ttl])];
        return true;
      }
      var current := AddUp(live.units);
      if current + units > capacity { return false; }
      pools := pools[key := Pool(live.expirations[id := clock + ttl], live.units[id := units])];
      return true;
    }

    method Release(key: Key, id: Rid)
      modifies this`pools
      ensures pools == old(pools)[key := ReleaseIn(At(old(pools), key), id)]
    {
      pools := pools[key := ReleaseIn(At(pools, key), id)];
    }

    /** What the script lets us rely on, and what we hold so far. */
    ghost predicate Waiting(ours: Id, until: Time)
      reads this
    {
      clock < until && ForeignScript(script, ours, until)
    }

    /** A call is made: others have acted, and it is answered or lost. */
    method Call(ghost ours: Id, ghost until: Time) returns (reply: Reply)
      requires Waiting(ours, until)
      modifies this`pools, this`clock, this`script
      ensures Waiting(ours, until) && old(clock) <= clock
      ensures old(script) == [] ==> reply == Answered && script == [] && clock == old(clock) && pools == old(pools)
      ensures forall key: Key, id: Rid | id.consultation == ours ::
        && (!Held(old(pools), key, id) ==> !Held(pools, key, id))
        && (HeldUntil(old(pools), key, id, until) ==> HeldUntil(pools, key, id, until))
    {
      if script == [] { return Answered; }
      var d := script[0];
      assert d in script;
      Others(d.ops);
      forall key: Key, id: Rid | id.consultation == ours
        ensures !Held(old(pools), key, id) ==> !Held(pools, key, id)
        ensures HeldUntil(old(pools), key, id, until) ==> HeldUntil(pools, key, id, until)
      {
        ForeignRun(old(pools), d.ops, ours, d.now, key, id, until);
      }
      script := script[1..];
      if d.now > clock { clock := d.now; }
      return d.reply;
    }

    /** Release the first `n` reservations; the answer is whether every release was answered. */
    method RollBack(reservations: seq<Reservation>, n: nat, ghost ours: Id, ghost until: Time) returns (done: bool)
      requires n <= |reservations| && Numbered(reservations, ours) && Waiting(ours, until)
      modifies this`pools, this`clock, this`script
      ensures old(script) == [] ==> done
      ensures done ==> NoneHeld(pools, reservations, n)
      ensures forall key: Key, id: Rid | id.consultation == ours && !Held(old(pools), key, id) :: !Held(pools, key, id)
    {
      done := true;
      var i := 0;
      while i < n
        invariant 0 <= i <= n && Waiting(ours, until) && (old(script) == [] ==> script == [] && done)
        invariant done ==> NoneHeld(pools, reservations, i)
        invariant forall key: Key, id: Rid | id.consultation == ours && !Held(old(pools), key, id) :: !Held(pools, key, id)
      {
        var reply := Call(ours, until);
        if reply.Answered? || reply.applied { Release(reservations[i].key, reservations[i].id); }
        if reply.Lost? { done := false; }
        i := i + 1;
      }
    }

    /** One turn of the loop: the reservation is taken, refused, or throws. */
    method ReserveOne(reservations: seq<Reservation>, i: nat, ghost ours: Id, ghost until: Time) returns (attempt: Attempt)
      requires i < |reservations| && Numbered(reservations, ours) && Waiting(ours, until)
      requires until <= clock + PROVISIONING_TTL_MS && AllHeld(pools, reservations, i, until)
      modifies this`pools, this`clock, this`script
      ensures Waiting(ours, until) && old(clock) <= clock
      ensures attempt.Taken? ==> AllHeld(pools, reservations, i + 1, until)
      ensures attempt.Refused? ==> !Held(pools, reservations[i].key, reservations[i].id)
      ensures attempt.Failed? ==> old(script) != [] || !ValidLimits(reservations[i])
      ensures old(script) == [] ==> script == [] && clock == old(clock)
      ensures attempt.Refused? ==> ValidLimits(reservations[i])
      ensures attempt.Taken? ==> ValidLimits(reservations[i])
      ensures old(script) == [] && ValidLimits(reservations[i]) ==>
        var r := reservations[i];
        pools == old(pools)[r.key :=
          ReserveIn(At(old(pools), r.key), r.id, r.capacity, PROVISIONING_TTL_MS, r.units, clock).0]
      ensures old(script) == [] && ValidLimits(reservations[i]) ==>
        var r := reservations[i];
        attempt.Taken? == ReserveIn(At(old(pools), r.key), r.id, r.capacity, PROVISIONING_TTL_MS, r.units, clock).1
    {
      var r := reservations[i];
      if r.capacity < 1 || r.units < 1 || r.units > r.capacity { return Failed; }
      var reply := Call(ours, until);
      var reserved := false;
      if reply.Answered? || reply.applied {
        reserved := Reserve(r.key, r.id, r.capacity, PROVISIONING_TTL_MS, r.units);
      }
      attempt := if reply.Lost? then Failed else if reserved then Taken else Refused;
    }

    /** Give back the first `n` reservations after a failure, which is `outcome` if that succeeds. */
    method Fail(reservations: seq<Reservation>, n: nat, outcome: Outcome, ghost ours: Id, ghost until: Time)
      returns (result: Outcome)
      requires n <= |reservations| && Numbered(reservations, ours) && Waiting(ours, until)
      modifies this`pools, this`clock, this`script
      ensures result == outcome || result.RollbackFailed?
      ensures result == outcome && !outcome.RollbackFailed? ==> NoneHeld(pools, reservations, n)
      ensures forall key: Key, id: Rid | id.consultation == ours && !Held(old(pools), key, id) :: !Held(pools, key, id)
      ensures old(script) == [] ==> result == outcome
    {
      var done := RollBack(reservations, n, ours, until);
      result := if done then outcome else RollbackFailed;
    }

    /** The loop: take reservations until one is refused or throws; `last` says which, if any. */
    method TakeAll(reservations: seq<Reservation>, ghost ours: Id, ghost until: Time) returns (taken: nat, last: Attempt)
      requires Numbered(reservations, ours) && Waiting(ours, until) && until <= clock + PROVISIONING_TTL_MS
      modifies this`pools, this`clock, this`script
      ensures Waiting(ours, until) && taken <= |reservations|
      ensures last.Taken? <==> taken == |reservations|
      ensures last.Taken? ==> AllHeld(pools, reservations, taken, until)
      ensures last.Refused? ==> !Held(pools, reservations[taken].key, reservations[taken].id)
      ensures last.Refused? ==> ValidLimits(reservations[taken])
      ensures old(script) == [] ==> script == []
      ensures old(script) == [] && last.Taken? ==> FilledTo(old(pools), reservations, taken, old(clock), pools)
      ensures old(script) == [] && !last.Taken? ==> !Fits(old(pools), reservations, taken, old(clock))
    {
      taken, last := 0, Taken;
      while taken < |reservations|
        invariant 0 <= taken <= |reservations| && Waiting(ours, until) && until <= clock + PROVISIONING_TTL_MS
        invariant AllHeld(pools, reservations, taken, until)
        invariant old(script) == [] ==>
          script == [] && clock == old(clock) && FilledTo(old(pools), reservations, taken, clock, pools)
      {
        if old(script) == [] && ValidLimits(reservations[taken]) {
          FilledOne(old(pools), reservations, taken, clock, pools);
        }
        last := ReserveOne(reservations, taken, ours, until);
        if !last.Taken? { return; }
        taken := taken + 1;
      }
      last := Taken;
    }

    /**
     `handleProvisioningRequested`; `planned` is whether the steps after the reservations succeed.  When it
     succeeds every dimension is held; when it fails and could give back, none it tried is.
    */
    method Provision(reservations: seq<Reservation>, planned: bool, ghost ours: Id, ghost until: Time)
      returns (outcome: Outcome, tried: nat)
      requires Numbered(reservations, ours) && Waiting(ours, until) && until <= clock + 1_200_000
      modifies this`pools, this`clock, this`script
      ensures tried <= |reservations|
      ensures outcome.Provisioned? ==> planned && AllHeld(pools, reservations, |reservations|, until)
      ensures outcome.Exhausted? || outcome.Thrown? ==> NoneHeld(pools, reservations, tried)
      ensures outcome.Exhausted? ==> tried > 0
      // when nobody else acts and every call is answered, only room and validity decide
      ensures old(script) == [] ==>
        (outcome.Provisioned? <==> planned && forall k | 0 <= k < |reservations| :: Fits(old(pools), reservations, k, old(clock)))
      ensures old(script) == [] && outcome.Provisioned? ==>
        pools == Filled(old(pools), reservations, |reservations|, old(clock))
      ensures old(script) == [] && outcome.Exhausted? ==>
        ValidLimits(reservations[tried - 1]) && !Fits(old(pools), reservations, tried - 1, old(clock))
      ensures old(script) == [] ==> !outcome.RollbackFailed?
    {
      var taken, last := TakeAll(reservations, ours, until);
      match last {
        case Failed =>
          tried := taken + 1;
          outcome := Fail(reservations, tried, Thrown, ours, until);
        case Refused =>
          tried := taken + 1;
          assert reservations[taken].id.consultation == ours;
          outcome := Fail(reservations, taken, Exhausted, ours, until);
        case Taken =>
          tried := taken;
          outcome := Provisioned;
          if !planned { outcome := Fail(reservations, tried, Thrown, ours, until); }
      }
    }

    /** Apply the operations of others, one by one. */
    method Others(ops: seq<Op>)
      modifies this`pools, this`clock
      ensures pools == After(old(pools), ops) && clock == old(clock)
    {
      var i := 0;
      while i < |ops|
        invariant 0 <= i <= |ops| && pools == After(old(pools), ops[..i]) && clock == old(clock)
      {
        assert ops[..i + 1][..i] == ops[..i];
        var now := clock;
        match ops[i] {
          case Reserve(key, id, capacity, ttl, units, at) =>
            clock := at;
            var _ := Reserve(key, id, capacity, ttl, units);
            clock := now;
          case Renew(key, id, ttl, at) =>
            pools := pools[key := RenewIn(At(pools, key), id, ttl, at).0];
          case Release(key, id) =>
            Release(key, id);
        }
        i := i + 1;
      }
      assert ops[..i] == ops;
    }
  }
}
