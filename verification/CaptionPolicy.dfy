/**
 The browser's caption revision policy: a two-level insertion-ordered cache of the last
 revision of each utterance, with an eviction watermark, against the unbounded memory it
 stands in for.
*/
module CaptionPolicy {
  import opened Wrappers

  type Utterance = nat

  const RECENT_LIMIT := 128
  const TOMBSTONE_LIMIT := 128
  const LIMIT := RECENT_LIMIT + TOMBSTONE_LIMIT

  datatype Revision = Revision(final: bool, start: int, revision: int)
  datatype Entry = Entry(id: Utterance, last: Revision)
  datatype Packet = Packet(id: Utterance, data: Revision)

  // ----- insertion-ordered maps, as sequences of entries with distinct ids -----

  function Get(m: seq<Entry>, id: Utterance): Option<Revision> {
    if m == [] then None else if m[0].id == id then Some(m[0].last) else Get(m[1..], id)
  }

  predicate Distinct(m: seq<Entry>) {
    m == [] || (Get(m[1..], m[0].id).None? && Distinct(m[1..]))
  }

  function Delete(m: seq<Entry>, id: Utterance): seq<Entry> {
    if m == [] then [] else if m[0].id == id then Delete(m[1..], id) else [m[0]] + Delete(m[1..], id)
  }

  lemma {:induction false} GetAppend(a: seq<Entry>, b: seq<Entry>, id: Utterance)
    ensures Get(a + b, id) == if Get(a, id).Some? then Get(a, id) else Get(b, id)
  {
    if a == [] {
      assert a + b == b;
    } else {
      assert (a + b)[1..] == a[1..] + b;
      GetAppend(a[1..], b, id);
    }
  }

  lemma {:induction false} DistinctAppend(a: seq<Entry>, b: seq<Entry>)
    ensures Distinct(a + b) <==>
      Distinct(a) && Distinct(b) && forall id :: Get(a, id).None? || Get(b, id).None?
  {
    if a == [] {
      assert a + b == b;
    } else {
      assert (a + b)[1..] == a[1..] + b;
      DistinctAppend(a[1..], b);
      GetAppend(a[1..], b, a[0].id);
      if Distinct(a + b) {
        forall id ensures Get(a, id).None? || Get(b, id).None? {
          if id != a[0].id { assert Get(a, id) == Get(a[1..], id); }
        }
      } else if Distinct(a) {
        assert forall id :: Get(a[1..], id).Some? ==> Get(a, id).Some?;
        assert Get(a, a[0].id).Some?;
      }
    }
  }

  lemma {:induction false} DeleteGet(m: seq<Entry>, id: Utterance, x: Utterance)
    ensures Get(Delete(m, id), x) == if x == id then None else Get(m, x)
  {
    if m != [] {
      DeleteGet(m[1..], id, x);
      if m[0].id != id {
        assert Delete(m, id)[1..] == Delete(m[1..], id);
      }
    }
  }

  lemma {:induction false} DeleteAbsent(m: seq<Entry>, id: Utterance)
    requires Get(m, id).None?
    ensures Delete(m, id) == m
  {
    if m != [] {
      DeleteAbsent(m[1..], id);
    }
  }

  lemma {:induction false} DeleteDistinct(m: seq<Entry>, id: Utterance)
    requires Distinct(m)
    ensures Distinct(Delete(m, id)) && |Delete(m, id)| == |m| - if Get(m, id).Some? then 1 else 0
  {
    if m != [] {
      DeleteDistinct(m[1..], id);
      if m[0].id == id {
        DeleteAbsent(m[1..], id);
      } else {
        DeleteGet(m[1..], id, m[0].id);
        assert Delete(m, id)[1..] == Delete(m[1..], id);
      }
    }
  }

  lemma {:induction false} DeleteAppend(a: seq<Entry>, b: seq<Entry>, id: Utterance)
    ensures Delete(a + b, id) == Delete(a, id) + Delete(b, id)
  {
    if a == [] {
      assert a + b == b;
    } else {
      assert (a + b)[1..] == a[1..] + b;
      DeleteAppend(a[1..], b, id);
    }
  }

  /** Deleting an id and putting it last keeps the ids distinct. */
  lemma MoveToEnd(m: seq<Entry>, e: Entry)
    requires Distinct(m)
    ensures var r := Delete(m, e.id) + [e];
      && Distinct(r) && |r| <= |m| + 1
      && forall id :: Get(r, id) == if id == e.id then Some(e.last) else Get(m, id)
  {
    var kept := Delete(m, e.id);
    DeleteDistinct(m, e.id);
    DeleteGet(m, e.id, e.id);
    forall id ensures Get([e], id) == if id == e.id then Some(e.last) else None {
    }
    DistinctAppend(kept, [e]);
    forall id ensures Get(kept + [e], id) == if id == e.id then Some(e.last) else Get(m, id) {
      GetAppend(kept, [e], id);
      DeleteGet(m, e.id, id);
    }
  }

  // ----- the bounded policy as one list, oldest entry first -----

  datatype Cache = Cache(tracked: seq<Entry>, watermark: Option<int>)

  predicate Newer(current: Revision, candidate: Revision) {
    candidate.revision > current.revision && (current.final ==> candidate.final)
  }

  predicate Fits(cache: Cache, p: Packet) {
    match Get(cache.tracked, p.id)
    case Some(current) => Newer(current, p.data)
    case None => cache.watermark.None? || p.data.start > cache.watermark.value
  }

  function Raise(watermark: Option<int>, start: int): Option<int> {
    if watermark.Some? && watermark.value >= start then watermark else Some(start)
  }

  /** Forget the oldest entries until the list fits, raising the watermark over their starts. */
  function Shrink(cache: Cache): Cache
    decreases |cache.tracked|
  {
    if |cache.tracked| <= LIMIT then cache
    else Shrink(Cache(cache.tracked[1..], Raise(cache.watermark, cache.tracked[0].last.start)))
  }

  function Remember(cache: Cache, p: Packet): Cache {
    Shrink(Cache(Delete(cache.tracked, p.id) + [Entry(p.id, p.data)], cache.watermark))
  }

  // ----- the two-level implementation -----

  class CaptionRevisionPolicy {
    var recent: seq<Entry>
    var tombstones: seq<Entry>
    var evictionWatermark: Option<int>

    ghost function View(): Cache
      reads this
    {
      Cache(tombstones + recent, evictionWatermark)
    }

    ghost predicate Valid()
      reads this
    {
      && Distinct(tombstones + recent)
      && |recent| <= RECENT_LIMIT && |tombstones| <= TOMBSTONE_LIMIT
      && (tombstones != [] ==> |recent| == RECENT_LIMIT)
    }

    constructor ()
      ensures Valid() && View() == Cache([], None)
    {
      recent, tombstones, evictionWatermark := [], [], None;
    }

    /** The two levels together behave as one list of at most 256 utterances. */
    method Accepts(candidate: Packet) returns (accepted: bool)
      requires Valid()
      modifies this
      ensures Valid()
      ensures accepted == Fits(old(View()), candidate)
      ensures View() == if accepted then Remember(old(View()), candidate) else old(View())
    {
      ghost var all := tombstones + recent;
      DistinctAppend(tombstones, recent);
      GetAppend(tombstones, recent, candidate.id);
      var current := Get(recent, candidate.id);
      if current.None? {
        current := Get(tombstones, candidate.id);
      }
      if current.Some? {
        if candidate.data.revision <= current.value.revision {
          return false;
        }
        if current.value.final && !candidate.data.final {
          return false;
        }
      } else if evictionWatermark.Some? && candidate.data.start <= evictionWatermark.value {
        return false;
      }

      MakeRoom(tombstones, recent, candidate);
      tombstones := Delete(tombstones, candidate.id);
      recent := Delete(recent, candidate.id) + [Entry(candidate.id, candidate.data)];
      Trim();
      return true;
    }

    method Trim()
      requires Distinct(tombstones + recent)
      requires |tombstones| <= TOMBSTONE_LIMIT && |recent| <= RECENT_LIMIT + 1
      requires tombstones != [] ==> |recent| >= RECENT_LIMIT
      modifies this
      ensures Valid() && View() == Shrink(old(View()))
    {
      ghost var all := tombstones + recent;
      while |recent| > RECENT_LIMIT
        invariant tombstones + recent == all && evictionWatermark == old(evictionWatermark)
        invariant tombstones != [] ==> |recent| >= RECENT_LIMIT
        invariant |recent| <= RECENT_LIMIT + 1
        invariant |tombstones| + |recent| <= LIMIT + 1
      {
        var oldest := recent[0];
        assert tombstones + recent == (tombstones + [oldest]) + recent[1..];
        recent := recent[1..];
        tombstones := tombstones + [oldest];
      }
      while |tombstones| > TOMBSTONE_LIMIT
        invariant Distinct(tombstones + recent) && Shrink(View()) == Shrink(old(View()))
        invariant tombstones != [] ==> |recent| == RECENT_LIMIT
        invariant |recent| <= RECENT_LIMIT
      {
        var oldest := tombstones[0];
        assert (tombstones + recent)[1..] == tombstones[1..] + recent;
        assert (tombstones + recent)[0] == oldest;
        tombstones := tombstones[1..];
        evictionWatermark := Raise(evictionWatermark, oldest.last.start);
      }
    }
  }

  lemma MakeRoom(tombstones: seq<Entry>, recent: seq<Entry>, p: Packet)
    requires Distinct(tombstones + recent)
    ensures var t, r := Delete(tombstones, p.id), Delete(recent, p.id) + [Entry(p.id, p.data)];
      && t + r == Delete(tombstones + recent, p.id) + [Entry(p.id, p.data)]
      && Distinct(t + r)
      && |t| <= |tombstones| && |r| <= |recent| + 1 && (t != [] ==> |r| >= |recent|)
  {
    DistinctAppend(tombstones, recent);
    DeleteAppend(tombstones, recent, p.id);
    MoveToEnd(tombstones + recent, Entry(p.id, p.data));
    DeleteDistinct(tombstones, p.id);
    DeleteDistinct(recent, p.id);
  }

  // ----- packet sequences -----

  /** What an unbounded per-utterance memory would decide. */
  predicate MemoryFits(memory: map<Utterance, Revision>, p: Packet) {
    p.id in memory ==> Newer(memory[p.id], p.data)
  }

  function CacheAfter(packets: seq<Packet>): Cache {
    if packets == [] then Cache([], None)
    else
      var before := CacheAfter(packets[..|packets| - 1]);
      var p := packets[|packets| - 1];
      if Fits(before, p) then Remember(before, p) else before
  }

  function MemoryAfter(packets: seq<Packet>): map<Utterance, Revision> {
    if packets == [] then map[]
    else
      var before := MemoryAfter(packets[..|packets| - 1]);
      var p := packets[|packets| - 1];
      if MemoryFits(before, p) then before[p.id := p.data] else before
  }

  /** Every utterance keeps its first sample. */
  predicate KeepsStarts(packets: seq<Packet>, start: Utterance -> int) {
    forall i | 0 <= i < |packets| :: packets[i].data.start == start(packets[i].id)
  }

  /** What is tracked is what the memory holds; what it holds besides lies below the watermark. */
  ghost predicate Covers(cache: Cache, memory: map<Utterance, Revision>, start: Utterance -> int) {
    && Distinct(cache.tracked)
    && (forall id :: Get(cache.tracked, id).Some? ==>
          id in memory && Get(cache.tracked, id) == Some(memory[id]) && memory[id].start == start(id))
    && (forall id | id in memory && Get(cache.tracked, id).None? ::
          cache.watermark.Some? && start(id) <= cache.watermark.value)
  }

  ghost predicate Agrees(cache: Cache, memory: map<Utterance, Revision>, start: Utterance -> int) {
    Covers(cache, memory, start) && |cache.tracked| <= LIMIT
  }

  lemma {:induction false} ShrinkAgrees(cache: Cache, memory: map<Utterance, Revision>, start: Utterance -> int)
    requires Covers(cache, memory, start)
    ensures Agrees(Shrink(cache), memory, start)
    decreases |cache.tracked|
  {
    if |cache.tracked| > LIMIT {
      var oldest := cache.tracked[0];
      var rest := Cache(cache.tracked[1..], Raise(cache.watermark, oldest.last.start));
      assert Get(cache.tracked, oldest.id) == Some(oldest.last);
      forall id ensures Get(rest.tracked, id) == if id == oldest.id then None else Get(cache.tracked, id) {
      }
      ShrinkAgrees(rest, memory, start);
    }
  }

  lemma RememberAgrees(cache: Cache, memory: map<Utterance, Revision>, start: Utterance -> int, p: Packet)
    requires Agrees(cache, memory, start) && p.data.start == start(p.id)
    ensures Agrees(Remember(cache, p), memory[p.id := p.data], start)
  {
    MoveToEnd(cache.tracked, Entry(p.id, p.data));
    ShrinkAgrees(Cache(Delete(cache.tracked, p.id) + [Entry(p.id, p.data)], cache.watermark),
                 memory[p.id := p.data], start);
  }

  lemma {:induction false} CacheAgreesWithMemory(packets: seq<Packet>, start: Utterance -> int)
    requires KeepsStarts(packets, start)
    ensures Agrees(CacheAfter(packets), MemoryAfter(packets), start)
  {
    if packets != [] {
      var before := packets[..|packets| - 1];
      var p := packets[|packets| - 1];
      CacheAgreesWithMemory(before, start);
      if Fits(CacheAfter(before), p) {
        RememberAgrees(CacheAfter(before), MemoryAfter(before), start, p);
      }
    }
  }

  /** After any packets, the bounded policy tracks at most 256 utterances and accepts only what the
      unbounded memory accepts. */
  lemma BoundedNeverAcceptsMore(packets: seq<Packet>, start: Utterance -> int, next: Packet)
    requires KeepsStarts(packets + [next], start)
    ensures |CacheAfter(packets).tracked| <= LIMIT
    ensures Fits(CacheAfter(packets), next) ==> MemoryFits(MemoryAfter(packets), next)
  {
    assert forall i | 0 <= i < |packets| :: (packets + [next])[i] == packets[i];
    assert (packets + [next])[|packets|] == next;
    CacheAgreesWithMemory(packets, start);
  }

  ghost predicate Same(cache: Cache, memory: map<Utterance, Revision>) {
    && Distinct(cache.tracked) && cache.watermark.None?
    && forall id :: Get(cache.tracked, id) == if id in memory then Some(memory[id]) else None
  }

  lemma {:induction false} DistinctSize(m: seq<Entry>, memory: map<Utterance, Revision>)
    requires Distinct(m) && forall id :: Get(m, id).Some? ==> id in memory
    ensures |m| <= |memory|
  {
    if m != [] {
      assert Get(m, m[0].id).Some?;
      var fewer := memory - {m[0].id};
      assert memory.Keys == fewer.Keys + {m[0].id};
      forall id | Get(m[1..], id).Some? ensures id in fewer {
        assert Get(m, id).Some?;
      }
      DistinctSize(m[1..], fewer);
    }
  }

  lemma MemoryGrows(memory: map<Utterance, Revision>, p: Packet)
    ensures |memory| <= |memory[p.id := p.data]|
  {
    var after := memory[p.id := p.data];
    assert after.Keys == memory.Keys + {p.id};
    assert |after.Keys| >= |memory.Keys|;
  }

  /** As long as at most 256 distinct utterances have been accepted the two decide identically, even
      for utterances whose first sample moves. */
  lemma {:induction false} IdenticalUpToLimit(packets: seq<Packet>, next: Packet)
    requires |MemoryAfter(packets)| <= 256
    ensures Same(CacheAfter(packets), MemoryAfter(packets))
    ensures Fits(CacheAfter(packets), next) <==> MemoryFits(MemoryAfter(packets), next)
    decreases |packets|
  {
    if packets != [] {
      var before := packets[..|packets| - 1];
      var p := packets[|packets| - 1];
      MemoryGrows(MemoryAfter(before), p);
      IdenticalUpToLimit(before, p);
      if Fits(CacheAfter(before), p) {
        MoveToEnd(CacheAfter(before).tracked, Entry(p.id, p.data));
        DistinctSize(Delete(CacheAfter(before).tracked, p.id) + [Entry(p.id, p.data)], MemoryAfter(packets));
      }
    }
  }

  // ----- what is accepted -----

  /** A later revision of an utterance, which does not go back from final to interim. */
  predicate Rises(a: Revision, b: Revision) { a.revision < b.revision && !(a.final && !b.final) }

  /** Packet `i` is a revision of the utterance that the memory accepted. */
  predicate Remembered(packets: seq<Packet>, i: nat, id: Utterance)
    requires i < |packets|
  {
    packets[i].id == id && MemoryFits(MemoryAfter(packets[..i]), packets[i])
  }

  ghost predicate RisesOverAll(packets: seq<Packet>, p: Packet) {
    forall i | 0 <= i < |packets| && Remembered(packets, i, p.id) :: Rises(packets[i].data, p.data)
  }

  lemma RisesOverPrefix(packets: seq<Packet>, p: Packet)
    requires packets != []
    ensures var n := |packets| - 1;
      RisesOverAll(packets, p) <==>
        RisesOverAll(packets[..n], p) && (Remembered(packets, n, p.id) ==> Rises(packets[n].data, p.data))
  {
    var n := |packets| - 1;
    forall i | 0 <= i < n ensures packets[..n][..i] == packets[..i] && packets[..n][i] == packets[i] {
    }
    forall i | 0 <= i < n ensures Remembered(packets[..n], i, p.id) <==> Remembered(packets, i, p.id) {
    }
  }

  /**
   The memory accepts a packet if and only if it rises over every packet of its utterance accepted before: revisions
   grow and nothing interim follows a final one.
  */
  lemma {:induction false} MemoryAcceptsIff(packets: seq<Packet>, p: Packet)
    ensures MemoryFits(MemoryAfter(packets), p) <==> RisesOverAll(packets, p)
    ensures p.id in MemoryAfter(packets) <==> exists i :: 0 <= i < |packets| && Remembered(packets, i, p.id)
    decreases |packets|
  {
    if packets != [] {
      var n := |packets| - 1;
      var init, last := packets[..n], packets[n];
      MemoryAcceptsIff(init, p);
      MemoryAcceptsIff(init, last);
      RisesOverPrefix(packets, p);
      forall i | 0 <= i < n ensures Remembered(init, i, p.id) <==> Remembered(packets, i, p.id) {
        assert init[..i] == packets[..i];
      }
      if Remembered(packets, n, p.id) && Rises(last.data, p.data) {
        forall i | 0 <= i < n && Remembered(init, i, p.id) ensures Rises(init[i].data, p.data) {
          assert Rises(init[i].data, last.data);
        }
      }
    }
  }

  /** When utterances keep their starts, what the bounded policy accepts rises over everything accepted before. */
  lemma AcceptedRises(packets: seq<Packet>, start: Utterance -> int, next: Packet)
    requires KeepsStarts(packets + [next], start) && Fits(CacheAfter(packets), next)
    ensures RisesOverAll(packets, next)
  {
    BoundedNeverAcceptsMore(packets, start, next);
    MemoryAcceptsIff(packets, next);
  }

  /** Of a tracked utterance the bounded policy accepts exactly what rises over everything accepted before. */
  lemma TrackedAcceptsIff(packets: seq<Packet>, start: Utterance -> int, next: Packet)
    requires KeepsStarts(packets, start) && Get(CacheAfter(packets).tracked, next.id).Some?
    ensures Fits(CacheAfter(packets), next) <==> RisesOverAll(packets, next)
  {
    CacheAgreesWithMemory(packets, start);
    MemoryAcceptsIff(packets, next);
  }

  /** Everything tracked, and the watermark, started before `bound`. */
  predicate StartsBelow(cache: Cache, bound: int) {
    (forall e | e in cache.tracked :: e.last.start < bound) && (cache.watermark.Some? ==> cache.watermark.value < bound)
  }

  lemma {:induction false} ShrinkStartsBelow(cache: Cache, bound: int)
    requires StartsBelow(cache, bound)
    ensures StartsBelow(Shrink(cache), bound)
    decreases |cache.tracked|
  {
    if |cache.tracked| > LIMIT {
      ShrinkStartsBelow(Cache(cache.tracked[1..], Raise(cache.watermark, cache.tracked[0].last.start)), bound);
    }
  }

  lemma {:induction false} DeleteKeepsOnly(m: seq<Entry>, id: Utterance)
    ensures forall e | e in Delete(m, id) :: e in m
  {
    if m != [] {
      DeleteKeepsOnly(m[1..], id);
    }
  }

  lemma {:induction false} CacheStartsBelow(packets: seq<Packet>, bound: int)
    requires forall p | p in packets :: p.data.start < bound
    ensures StartsBelow(CacheAfter(packets), bound)
  {
    if packets != [] {
      var init, p := packets[..|packets| - 1], packets[|packets| - 1];
      CacheStartsBelow(init, bound);
      DeleteKeepsOnly(CacheAfter(init).tracked, p.id);
      ShrinkStartsBelow(Cache(Delete(CacheAfter(init).tracked, p.id) + [Entry(p.id, p.data)], CacheAfter(init).watermark), bound);
    }
  }

  /** An utterance that is not tracked and starts after everything seen is accepted, however much was evicted. */
  lemma NewestIsAccepted(packets: seq<Packet>, next: Packet)
    requires forall p | p in packets :: p.data.start < next.data.start
    requires Get(CacheAfter(packets).tracked, next.id).None?
    ensures Fits(CacheAfter(packets), next)
  {
    CacheStartsBelow(packets, next.data.start);
  }

  // ----- why an utterance has to keep its first sample -----

  function Line(n: nat): Packet { Packet(n, Revision(true, n, 1)) }

  function Lines(from: nat, to: nat): seq<Packet>
    requires from <= to
  {
    seq(to - from, i requires 0 <= i < to - from => Line(from + i))
  }

  function Entries(from: nat, to: nat): seq<Entry>
    requires from <= to
  {
    seq(to - from, i requires 0 <= i < to - from => Entry(from + i, Line(from + i).data))
  }

  lemma {:induction false} EntriesMiss(from: nat, to: nat, id: Utterance)
    requires from <= to && (id < from || to <= id)
    ensures Get(Entries(from, to), id).None?
    decreases if from < to then to - from else 0
  {
    if from < to {
      assert Entries(from, to)[1..] == Entries(from + 1, to);
      EntriesMiss(from + 1, to, id);
    }
  }

  /** Accepting an utterance that is not tracked: it goes last, and a full list drops its oldest. */
  lemma RememberNew(cache: Cache, p: Packet)
    requires Get(cache.tracked, p.id).None? && |cache.tracked| <= LIMIT
    ensures var list := cache.tracked + [Entry(p.id, p.data)];
      Remember(cache, p) ==
        if |list| <= LIMIT then Cache(list, cache.watermark)
        else Cache(list[1..], Raise(cache.watermark, list[0].last.start))
  {
    DeleteAbsent(cache.tracked, p.id);
    var list := cache.tracked + [Entry(p.id, p.data)];
    if |list| > LIMIT {
      var fewer := Cache(list[1..], Raise(cache.watermark, list[0].last.start));
      assert Shrink(fewer) == fewer;
    }
  }

  /** The cache after utterances 0, .., n - 1, each final and starting later than the one before. */
  function LinesCache(n: nat): Cache {
    if n <= LIMIT then Cache(Entries(0, n), None) else Cache(Entries(n - LIMIT, n), Some(n - LIMIT - 1))
  }

  lemma EntriesGrow(from: nat, n: nat)
    requires from <= n
    ensures Entries(from, n) + [Entry(n, Line(n).data)] == Entries(from, n + 1)
    ensures Entries(from, n + 1)[1..] == Entries(from + 1, n + 1)
    ensures Entries(from, n + 1)[0].last.start == from && |Entries(from, n + 1)| == n + 1 - from
  {
    assert Entries(from, n) + [Entry(n, Line(n).data)] == Entries(from, n + 1);
    assert Entries(from, n + 1)[1..] == Entries(from + 1, n + 1);
    assert Entries(from, n + 1)[0] == Entry(from, Line(from).data);
  }

  lemma NextLineFits(n: nat)
    ensures Fits(LinesCache(n), Line(n)) && Get(LinesCache(n).tracked, n).None? && |LinesCache(n).tracked| <= LIMIT
  {
    EntriesMiss(if n <= LIMIT then 0 else n - LIMIT, n, n);
  }

  lemma NextLine(n: nat)
    ensures Fits(LinesCache(n), Line(n)) && Remember(LinesCache(n), Line(n)) == LinesCache(n + 1)
  {
    NextLineFits(n);
    RememberNew(LinesCache(n), Line(n));
    EntriesGrow(if n <= LIMIT then 0 else n - LIMIT, n);
  }

  lemma {:induction false} AfterLines(n: nat)
    ensures forall i :: i in MemoryAfter(Lines(0, n)) <==> 0 <= i < n
    ensures forall i | 0 <= i < n :: MemoryAfter(Lines(0, n))[i] == Line(i).data
    ensures CacheAfter(Lines(0, n)) == LinesCache(n)
  {
    if n > 0 {
      AfterLines(n - 1);
      NextLine(n - 1);
      assert Lines(0, n)[..n - 1] == Lines(0, n - 1) && Lines(0, n)[n - 1] == Line(n - 1);
    }
  }

  /** Once an utterance has been evicted, a packet that moves its first sample past the watermark is
      accepted at an old revision that the memory refuses. */
  lemma MovedStartIsAcceptedAgain()
    ensures exists packets, next :: Fits(CacheAfter(packets), next) && !MemoryFits(MemoryAfter(packets), next)
  {
    var next := Packet(0, Revision(false, 1000, 0));
    AfterLines(LIMIT + 1);
    EntriesMiss(1, LIMIT + 1, 0);
    assert Fits(CacheAfter(Lines(0, LIMIT + 1)), next);
    assert !MemoryFits(MemoryAfter(Lines(0, LIMIT + 1)), next);
  }
}
