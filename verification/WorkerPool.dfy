/**
 `mapBounded`: a fixed number of asynchronous workers share one index counter.  Between two
 awaits a worker runs alone, so a run is an interleaving of two kinds of step: a worker at its
 loop test claims the next index or stops, and a pending operation settles.
*/
module WorkerPool {
  import opened Wrappers

  datatype Phase = AtLoop | Running(index: nat) | Stopped

  datatype Event = Claimed(index: nat) | Resolved(index: nat) | Rejected(index: nat)

  datatype Pool<T, E> = Pool(
    nextIndex: nat, failure: Option<E>, results: map<nat, T>, workers: seq<Phase>, log: seq<Event>)

  datatype Step = Loop(worker: nat) | Settle(worker: nat)

  function Start<T, E>(items: nat, concurrency: nat): Pool<T, E> {
    Pool(0, None, map[], seq(if concurrency < items then concurrency else items, i => AtLoop), [])
  }

  predicate Enabled<T, E>(s: Pool<T, E>, step: Step) {
    && step.worker < |s.workers|
    && match step case Loop(w) => s.workers[w].AtLoop? case Settle(w) => s.workers[w].Running?
  }

  function Next<A, T, E>(items: seq<A>, operation: (A, nat) -> Result<T, E>, s: Pool<T, E>, step: Step): Pool<T, E>
    requires Enabled(s, step)
  {
    match step
    case Loop(w) =>
      if s.failure.Some? || s.nextIndex >= |items| then s.(workers := s.workers[w := Stopped])
      else s.(nextIndex := s.nextIndex + 1,
              workers := s.workers[w := Running(s.nextIndex)],
              log := s.log + [Claimed(s.nextIndex)])
    case Settle(w) =>
      var index := s.workers[w].index;
      if index >= |items| then s
      else match operation(items[index], index)
        case Success(value) =>
          s.(results := s.results[index := value], workers := s.workers[w := AtLoop], log := s.log + [Resolved(index)])
        case Failure(error) =>
          s.(failure := if s.failure.None? then Some(error) else s.failure,
             workers := s.workers[w := Stopped], log := s.log + [Rejected(index)])
  }

  predicate Settled<T, E>(s: Pool<T, E>) {
    forall w | 0 <= w < |s.workers| :: s.workers[w].Stopped?
  }

  /** States that some interleaving from the start reaches after `steps`. */
  function After<A, T, E>(items: seq<A>, operation: (A, nat) -> Result<T, E>, concurrency: nat, steps: seq<Step>)
    : Option<Pool<T, E>>
  {
    if steps == [] then Some(Start(|items|, concurrency))
    else match After(items, operation, concurrency, steps[..|steps| - 1])
      case None => None
      case Some(s) => if Enabled(s, steps[|steps| - 1]) then Some(Next(items, operation, s, steps[|steps| - 1])) else None
  }

  /** The indices claimed, in the order in which they were claimed. */
  function Claims(log: seq<Event>): seq<nat> {
    if log == [] then []
    else Claims(log[..|log| - 1]) + if log[|log| - 1].Claimed? then [log[|log| - 1].index] else []
  }

  /** The first `n` indices, in order. */
  function Indices(n: nat): seq<nat> { if n == 0 then [] else Indices(n - 1) + [n - 1] }

  lemma ClaimsPush(log: seq<Event>, e: Event)
    ensures Claims(log + [e]) == Claims(log) + if e.Claimed? then [e.index] else []
  {
    assert (log + [e])[..|log|] == log;
  }

  /** Entry `k` of the log is the first rejection, it carries `error`, and nothing is claimed after it. */
  ghost predicate FirstFailure<A, T, E>(
    items: seq<A>, operation: (A, nat) -> Result<T, E>, log: seq<Event>, k: nat, error: E)
  {
    && k < |log| && log[k].Rejected? && log[k].index < |items|
    && operation(items[log[k].index], log[k].index) == Failure(error)
    && (forall j | 0 <= j < k :: !log[j].Rejected?)
    && (forall j | k < j < |log| :: !log[j].Claimed?)
  }

  ghost predicate Accounted<A, T, E>(items: seq<A>, operation: (A, nat) -> Result<T, E>, s: Pool<T, E>, i: nat) {
    || i in s.results
    || (exists w :: 0 <= w < |s.workers| && s.workers[w] == Running(i))
    || (s.failure.Some? && i < |items| && operation(items[i], i).Failure?)
  }

  ghost predicate WorkersOk<A, T, E>(items: seq<A>, s: Pool<T, E>) {
    && (forall w | 0 <= w < |s.workers| && s.workers[w].Running? ::
          s.workers[w].index < s.nextIndex && s.workers[w].index !in s.results)
    && (forall v, w | 0 <= v < w < |s.workers| && s.workers[v].Running? && s.workers[w].Running? ::
          s.workers[v].index != s.workers[w].index)
    && (forall w | 0 <= w < |s.workers| && s.workers[w].Stopped? :: s.failure.Some? || s.nextIndex == |items|)
  }

  ghost predicate ResultsOk<A, T, E>(items: seq<A>, operation: (A, nat) -> Result<T, E>, s: Pool<T, E>) {
    && s.nextIndex <= |items|
    && (forall i | i in s.results :: i < s.nextIndex && operation(items[i], i) == Success(s.results[i]))
    && (forall i | 0 <= i < s.nextIndex :: Accounted(items, operation, s, i))
  }

  ghost predicate FailureOk<A, T, E>(items: seq<A>, operation: (A, nat) -> Result<T, E>, s: Pool<T, E>) {
    match s.failure
    case None => forall j | 0 <= j < |s.log| :: !s.log[j].Rejected?
    case Some(error) => exists k :: FirstFailure(items, operation, s.log, k, error)
  }

  ghost predicate Inv<A, T, E>(items: seq<A>, operation: (A, nat) -> Result<T, E>, s: Pool<T, E>) {
    && WorkersOk(items, s)
    && ResultsOk(items, operation, s)
    && FailureOk(items, operation, s)
    && Claims(s.log) == Indices(s.nextIndex)
  }

  lemma ResultsKept<A, T, E>(items: seq<A>, operation: (A, nat) -> Result<T, E>, s: Pool<T, E>, step: Step)
    requires Inv(items, operation, s) && Enabled(s, step)
    ensures WorkersOk(items, Next(items, operation, s, step))
    ensures ResultsOk(items, operation, Next(items, operation, s, step))
  {
    var t := Next(items, operation, s, step);
    var w := step.worker;
    forall i | 0 <= i < t.nextIndex ensures Accounted(items, operation, t, i) {
      if i < s.nextIndex {
        assert Accounted(items, operation, s, i);
        if v :| 0 <= v < |s.workers| && s.workers[v] == Running(i) {
          if v != w { assert t.workers[v] == Running(i); }
        }
      } else {
        assert t.workers[w] == Running(i);
      }
    }
  }

  lemma FailureKept<A, T, E>(items: seq<A>, operation: (A, nat) -> Result<T, E>, s: Pool<T, E>, step: Step)
    requires Inv(items, operation, s) && Enabled(s, step)
    ensures FailureOk(items, operation, Next(items, operation, s, step))
  {
    var t := Next(items, operation, s, step);
    if s.failure.Some? {
      var k :| FirstFailure(items, operation, s.log, k, s.failure.value);
      assert FirstFailure(items, operation, t.log, k, t.failure.value);
    } else if t.failure.Some? {
      assert FirstFailure(items, operation, t.log, |s.log|, t.failure.value);
    }
  }

  lemma LoopKeepsClaims<A, T, E>(items: seq<A>, operation: (A, nat) -> Result<T, E>, s: Pool<T, E>, w: nat)
    requires Claims(s.log) == Indices(s.nextIndex) && Enabled(s, Loop(w))
    ensures Claims(Next(items, operation, s, Loop(w)).log) == Indices(Next(items, operation, s, Loop(w)).nextIndex)
  {
    var t := Next(items, operation, s, Loop(w));
    if s.failure.Some? || s.nextIndex >= |items| {
      assert t.log == s.log && t.nextIndex == s.nextIndex;
    } else {
      assert t.log == s.log + [Claimed(s.nextIndex)] && t.nextIndex == s.nextIndex + 1;
      ClaimsPush(s.log, Claimed(s.nextIndex));
    }
  }

  lemma SettleKeepsClaims<A, T, E>(items: seq<A>, operation: (A, nat) -> Result<T, E>, s: Pool<T, E>, w: nat)
    requires Enabled(s, Settle(w))
    ensures Claims(Next(items, operation, s, Settle(w)).log) == Claims(s.log)
    ensures Next(items, operation, s, Settle(w)).nextIndex == s.nextIndex
  {
    var t, index := Next(items, operation, s, Settle(w)), s.workers[w].index;
    if index < |items| {
      var settled := if operation(items[index], index).Success? then Resolved(index) else Rejected(index);
      assert t.log == s.log + [settled];
      ClaimsPush(s.log, settled);
    }
  }

  lemma StepKeepsInv<A, T, E>(items: seq<A>, operation: (A, nat) -> Result<T, E>, s: Pool<T, E>, step: Step)
    requires Inv(items, operation, s) && Enabled(s, step)
    ensures Inv(items, operation, Next(items, operation, s, step))
    ensures |Next(items, operation, s, step).workers| == |s.workers|
  {
    ResultsKept(items, operation, s, step);
    FailureKept(items, operation, s, step);
    match step {
      case Loop(w) => LoopKeepsClaims(items, operation, s, w);
      case Settle(w) => SettleKeepsClaims(items, operation, s, w);
    }
  }

  lemma {:induction false} RunKeepsInv<A, T, E>(
    items: seq<A>, operation: (A, nat) -> Result<T, E>, concurrency: nat, steps: seq<Step>)
    ensures var r := After(items, operation, concurrency, steps);
      r.Some? ==>
        && Inv(items, operation, r.value)
        && |r.value.workers| == if concurrency < |items| then concurrency else |items|
    decreases |steps|
  {
    if steps == [] {
      var s: Pool<T, E> := Start(|items|, concurrency);
      assert Claims(s.log) == Indices(0);
    } else {
      RunKeepsInv(items, operation, concurrency, steps[..|steps| - 1]);
      var before := After(items, operation, concurrency, steps[..|steps| - 1]);
      var step := steps[|steps| - 1];
      if before.Some? && Enabled(before.value, step) { StepKeepsInv(items, operation, before.value, step); }
    }
  }

  /**
   Whatever the interleaving: indices are claimed once each and in order, never more than
   `concurrency` operations are pending, and no index is claimed after the first rejection.
   When all workers have stopped, a pool without a failure holds exactly the plain map of the
   operation, and a pool with one holds the first failure.
  */
  lemma PoolIsMap<A, T, E>(
    items: seq<A>, operation: (A, nat) -> Result<T, E>, concurrency: nat, steps: seq<Step>, s: Pool<T, E>)
    requires concurrency > 0 && After(items, operation, concurrency, steps) == Some(s)
    ensures |s.workers| <= concurrency && Claims(s.log) == Indices(s.nextIndex) && s.nextIndex <= |items|
    ensures forall v, w | 0 <= v < w < |s.workers| && s.workers[v].Running? :: s.workers[v] != s.workers[w]
    ensures s.failure.Some? ==> exists k :: FirstFailure(items, operation, s.log, k, s.failure.value)
    ensures Settled(s) && s.failure.None? ==>
      && (forall i | 0 <= i < |items| :: i in s.results && operation(items[i], i) == Success(s.results[i]))
      && (forall i | i in s.results :: i < |items|)
    ensures Settled(s) && (exists i :: 0 <= i < |items| && operation(items[i], i).Failure?) ==> s.failure.Some?
  {
    RunKeepsInv(items, operation, concurrency, steps);
    if Settled(s) && s.failure.None? {
      forall i | 0 <= i < |items| ensures i in s.results {
        assert s.workers[0].Stopped?;
        assert Accounted(items, operation, s, i);
      }
    }
  }

  /** A measure every step lowers: no interleaving is longer than two steps an item and one a worker. */
  function Remaining<T, E>(items: nat, s: Pool<T, E>): int {
    2 * (items - s.nextIndex) + Work(s.workers)
  }

  function Work(workers: seq<Phase>): nat {
    if workers == [] then 0
    else Work(workers[1..]) + match workers[0] case AtLoop => 1 case Running(_) => 2 case Stopped => 0
  }

  lemma {:induction false} WorkUpdated(workers: seq<Phase>, w: nat, phase: Phase)
    requires w < |workers|
    ensures Work(workers[w := phase]) - Work([phase]) == Work(workers) - Work([workers[w]])
  {
    if w == 0 {
      assert workers[0 := phase][1..] == workers[1..];
    } else {
      assert workers[w := phase][1..] == workers[1..][w - 1 := phase];
      WorkUpdated(workers[1..], w - 1, phase);
    }
  }

  lemma {:induction false} PoolTerminates<A, T, E>(
    items: seq<A>, operation: (A, nat) -> Result<T, E>, concurrency: nat, steps: seq<Step>)
    ensures var r := After(items, operation, concurrency, steps);
      r.Some? ==> |steps| + Remaining(|items|, r.value) <= 2 * |items| + concurrency
    decreases |steps|
  {
    RunKeepsInv(items, operation, concurrency, steps);
    if steps == [] {
      IdleWork(if concurrency < |items| then concurrency else |items|);
    } else {
      var shorter := steps[..|steps| - 1];
      PoolTerminates(items, operation, concurrency, shorter);
      RunKeepsInv(items, operation, concurrency, shorter);
      var before := After(items, operation, concurrency, shorter);
      var step := steps[|steps| - 1];
      if before.Some? && Enabled(before.value, step) {
        var t := Next(items, operation, before.value, step);
        WorkUpdated(before.value.workers, step.worker, t.workers[step.worker]);
        assert before.value.workers[step.worker := t.workers[step.worker]] == t.workers;
      }
    }
  }

  lemma {:induction false} IdleWork(n: nat)
    ensures Work(seq(n, i => AtLoop)) == n
  {
    if n > 0 {
      assert seq(n, i => AtLoop)[1..] == seq(n - 1, i => AtLoop);
      IdleWork(n - 1);
    }
  }
}
