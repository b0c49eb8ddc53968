/**
 * `runWithConcurrency` (api/src/couchdb/devtools.ts): workers share `nextIndex` and fill the slots
 * of one result array, and their tasks settle in any order. `outcome(k)` is how the k-th invocation
 * of the task settles.
 */
module WorkerPool {
  import opened Prelude

  datatype Settled<T> = Resolved(value: T) | Rejected

  /** A worker awaits its task, has left its loop, or was ended by a rejection. */
  datatype Worker = Awaiting(index: nat) | Finished | Broken

  class Pool<T> {
    const count: nat
    const outcome: nat -> Settled<T>
    const results: array<Option<T>>
    var nextIndex: nat
    var workers: seq<Worker>
    /** The task whose rejection `Promise.all` reported. */
    var rejection: Option<nat>
    /** The indices taken, in order, and those of them that were rejected. */
    ghost var taken: seq<nat>
    ghost var failed: seq<nat>

    ghost predicate Valid()
      reads this, results
    {
      && results.Length == count && nextIndex <= count
      && taken == seq(nextIndex, i => i)
      && (forall i: nat :: nextIndex <= i < count ==> results[i] == None)
      && (forall i: nat :: i < nextIndex && results[i].None? ==> Awaiting(i) in workers || i in failed)
      && (forall i: nat :: i < nextIndex && results[i].Some? ==> outcome(i) == Resolved(results[i].value))
      && (forall w :: 0 <= w < |workers| && workers[w].Awaiting? ==>
            workers[w].index < nextIndex && results[workers[w].index] == None && workers[w].index !in failed)
      && (forall v, w :: 0 <= v < w < |workers| && workers[v].Awaiting? ==> workers[v] != workers[w])
      && (forall w :: 0 <= w < |workers| && workers[w].Finished? ==> nextIndex == count)
      && FailuresOk()
    }

    ghost predicate FailuresOk()
      reads this
    {
      && (forall k :: 0 <= k < |failed| ==> failed[k] < nextIndex && outcome(failed[k]).Rejected?)
      && (forall j, k :: 0 <= j < k < |failed| ==> failed[j] != failed[k])
      && |failed| == Count(workers, Broken)
      && rejection == if failed == [] then None else Some(failed[0])
    }

    constructor (count: nat, outcome: nat -> Settled<T>)
      ensures Valid() && fresh(results) && nextIndex == 0 && workers == []
      ensures this.count == count && this.outcome == outcome
    {
      this.count, this.outcome := count, outcome;
      nextIndex, workers, rejection, taken, failed := 0, [], None, [], [];
      results := new Option<T>[count](_ => None);
    }

    /** What a worker does from the head of its loop to its next `await`, or to its end. */
    method TakeNext() returns (worker: Worker)
      requires nextIndex <= count && taken == seq(nextIndex, i => i)
      modifies this`nextIndex, this`taken
      ensures nextIndex == old(nextIndex) + (if old(nextIndex) < count then 1 else 0) && taken == seq(nextIndex, i => i)
      ensures worker == if old(nextIndex) < count then Awaiting(old(nextIndex)) else Finished
    {
      if nextIndex < count {
        worker := Awaiting(nextIndex);
        taken := taken + [nextIndex];
        nextIndex := nextIndex + 1;
      } else {
        worker := Finished;
      }
    }

    /** Starts one more worker. */
    method Start()
      requires Valid()
      modifies this`nextIndex, this`taken, this`workers
      ensures Valid() && nextIndex == old(nextIndex) + if old(nextIndex) < count then 1 else 0
      ensures workers == old(workers) + [if old(nextIndex) < count then Awaiting(old(nextIndex)) else Finished]
    {
      hide Count;
      var worker := TakeNext();
      CountAppend(workers, worker, Broken);
      workers := workers + [worker];
    }

    /** The task that worker w awaits resolves: its slot is filled and the worker loops. */
    method Resolve(w: nat)
      requires Valid() && w < |workers| && workers[w].Awaiting? && outcome(workers[w].index).Resolved?
      modifies this`nextIndex, this`taken, this`workers, results
      ensures Valid() && |workers| == |old(workers)|
      ensures var i := old(workers)[w].index; results[..] == old(results[..])[i := Some(outcome(i).value)]
      ensures nextIndex > old(nextIndex) || (nextIndex == old(nextIndex) && workers == old(workers)[w := Finished])
    {
      var index := workers[w].index;
      ghost var before := workers;
      results[index] := Some(outcome(index).value);
      var worker := TakeNext();
      CountReplace(workers, w, worker, Broken);
      workers := workers[w := worker];
      forall i: nat | i < nextIndex && results[i].None?
        ensures Awaiting(i) in workers || i in failed
      {
        StillAwaited(before, w, worker, i);
        assert i >= old(nextIndex) ==> workers[w] == Awaiting(i);
      }
    }

    /** The task that worker w awaits is rejected: the worker ends, and the first rejection is reported. */
    method Reject(w: nat)
      requires Valid() && w < |workers| && workers[w].Awaiting? && outcome(workers[w].index).Rejected?
      modifies this`workers, this`rejection, this`failed
      ensures Valid() && workers == old(workers)[w := Broken]
      ensures failed == old(failed) + [old(workers)[w].index]
    {
      hide Count;
      var index := workers[w].index;
      ghost var before := workers;
      if rejection.None? {
        rejection := Some(index);
      }
      failed := failed + [index];
      CountReplace(workers, w, Broken, Broken);
      workers := workers[w := Broken];
      OneMoreFailure(old(failed), index);
      assert forall v :: 0 <= v < |workers| ==> workers[v] == if v == w then Broken else before[v];
      forall i: nat | i < nextIndex && results[i].None?
        ensures Awaiting(i) in workers || i in failed
      {
        StillAwaited(before, w, Broken, i);
      }
    }
  }

  lemma OneMoreFailure(failed: seq<nat>, index: nat)
    requires index !in failed && forall j, k :: 0 <= j < k < |failed| ==> failed[j] != failed[k]
    ensures forall i :: i in failed + [index] <==> i in failed || i == index
    ensures forall j, k :: 0 <= j < k < |failed + [index]| ==> (failed + [index])[j] != (failed + [index])[k]
  {
  }

  /** Another worker's task is awaited still. */
  lemma StillAwaited(workers: seq<Worker>, w: nat, worker: Worker, i: nat)
    requires w < |workers|
    ensures Awaiting(i) in workers && workers[w] != Awaiting(i) ==> Awaiting(i) in workers[w := worker]
  {
    if Awaiting(i) in workers && workers[w] != Awaiting(i) {
      var v :| 0 <= v < |workers| && workers[v] == Awaiting(i);
      assert workers[w := worker][v] == Awaiting(i);
    }
  }

  /** How many workers are in this state. */
  function Count(workers: seq<Worker>, state: Worker): (n: nat)
    ensures n <= |workers|
  {
    if workers == [] then 0 else (if workers[0] == state then 1 else 0) + Count(workers[1..], state)
  }

  lemma {:induction false} CountAppend(workers: seq<Worker>, worker: Worker, state: Worker)
    ensures Count(workers + [worker], state) == Count(workers, state) + if worker == state then 1 else 0
  {
    if workers == [] {
      assert [] + [worker] == [worker];
    } else {
      assert (workers + [worker])[1..] == workers[1..] + [worker];
      CountAppend(workers[1..], worker, state);
    }
  }

  lemma {:induction false} CountReplace(workers: seq<Worker>, w: nat, worker: Worker, state: Worker)
    requires w < |workers|
    ensures Count(workers[w := worker], state)
         == Count(workers, state) - (if workers[w] == state then 1 else 0) + if worker == state then 1 else 0
  {
    if w == 0 {
      assert workers[w := worker][1..] == workers[1..];
    } else {
      assert workers[w := worker][1..] == workers[1..][w - 1 := worker];
      CountReplace(workers[1..], w - 1, worker, state);
    }
  }

  /** The tasks in flight. */
  function InFlight(workers: seq<Worker>): (n: nat)
    ensures n <= |workers|
  {
    if workers == [] then 0 else (if workers[0].Awaiting? then 1 else 0) + InFlight(workers[1..])
  }

  lemma {:induction false} FlightEnds(workers: seq<Worker>, w: nat, worker: Worker)
    requires w < |workers| && workers[w].Awaiting? && !worker.Awaiting?
    ensures InFlight(workers[w := worker]) == InFlight(workers) - 1
  {
    if w == 0 {
      assert workers[w := worker][1..] == workers[1..];
    } else {
      assert workers[w := worker][1..] == workers[1..][w - 1 := worker];
      FlightEnds(workers[1..], w - 1, worker);
    }
  }

  lemma {:induction false} SomeoneAwaits(workers: seq<Worker>) returns (w: nat)
    requires InFlight(workers) > 0
    ensures w < |workers| && workers[w].Awaiting?
  {
    if workers[0].Awaiting? {
      w := 0;
    } else {
      w := SomeoneAwaits(workers[1..]);
      w := w + 1;
    }
  }

  lemma {:induction false} NobodyAwaits(workers: seq<Worker>)
    requires InFlight(workers) == 0
    ensures forall w :: 0 <= w < |workers| ==> !workers[w].Awaiting?
    ensures Count(workers, Finished) + Count(workers, Broken) == |workers|
    ensures Count(workers, Finished) > 0 ==> Finished in workers
  {
    if workers != [] {
      NobodyAwaits(workers[1..]);
    }
  }

  lemma {:induction false} AllAwait(workers: seq<Worker>)
    requires forall w :: 0 <= w < |workers| ==> workers[w].Awaiting?
    ensures InFlight(workers) == |workers|
  {
    if workers != [] {
      AllAwait(workers[1..]);
    }
  }

  method StartWorkers<T>(pool: Pool<T>, workerCount: int)
    requires pool.Valid() && pool.workers == [] && pool.nextIndex == 0 && workerCount <= pool.count
    modifies pool`nextIndex, pool`taken, pool`workers
    ensures pool.Valid() && |pool.workers| == Max(0, workerCount) == pool.nextIndex == InFlight(pool.workers)
  {
    hide InFlight, Count;
    while |pool.workers| < workerCount
      invariant pool.Valid() && |pool.workers| <= Max(0, workerCount) && pool.nextIndex == |pool.workers|
      invariant forall w :: 0 <= w < |pool.workers| ==> pool.workers[w].Awaiting?
    {
      pool.Start();
    }
    AllAwait(pool.workers);
  }

  /** Tasks settle one after the other, in any order, until none is in flight. */
  method Drain<T>(pool: Pool<T>) returns (ghost peak: nat)
    requires pool.Valid()
    modifies pool, pool.results
    ensures pool.Valid() && InFlight(pool.workers) == 0 && |pool.workers| == |old(pool.workers)|
    ensures pool.workers == [] ==> pool.nextIndex == old(pool.nextIndex)
    ensures InFlight(old(pool.workers)) <= peak <= |pool.workers|
  {
    hide InFlight;
    peak := InFlight(pool.workers);
    while InFlight(pool.workers) > 0
      invariant pool.Valid() && |pool.workers| == |old(pool.workers)|
      invariant pool.workers == [] ==> pool.nextIndex == old(pool.nextIndex)
      invariant InFlight(old(pool.workers)) <= peak <= |pool.workers|
      decreases pool.count - pool.nextIndex, InFlight(pool.workers)
    {
      ghost var someone := SomeoneAwaits(pool.workers);
      var w: nat :| w < |pool.workers| && pool.workers[w].Awaiting?;
      FlightEnds(pool.workers, w, Finished);
      FlightEnds(pool.workers, w, Broken);
      if pool.outcome(pool.workers[w].index).Resolved? {
        pool.Resolve(w);
      } else {
        pool.Reject(w);
      }
      peak := Max(peak, InFlight(pool.workers));
    }
  }

  /**
   * Whatever the order in which tasks settle: indices are taken once each, in order; tasks in flight
   * reach min(concurrency, count) and never exceed it; each slot of a taken index ends up with its own
   * task's result, or empty if that was rejected. The call is rejected if and only if there is a worker
   * and some task rejects, with the first rejection. A rejection ends only its own worker: unless every
   * worker met one, all indices are taken in the end.
   */
  method RunWithConcurrency<T>(count: nat, concurrency: int, outcome: nat -> Settled<T>)
    returns (results: seq<Option<T>>, rejection: Option<nat>, ghost taken: seq<nat>, ghost failed: seq<nat>, ghost peak: nat)
    ensures |results| == count && |taken| <= count && taken == seq(|taken|, i => i)
    ensures peak == Max(0, Min(concurrency, count))
    ensures forall i: nat :: i < count ==>
      results[i] == if i < |taken| && outcome(i).Resolved? then Some(outcome(i).value) else None
    ensures forall i :: i in failed <==> 0 <= i < |taken| && outcome(i).Rejected?
    ensures rejection == if failed == [] then None else Some(failed[0])
    ensures rejection.Some? <==> concurrency >= 1 && exists i: nat :: i < count && outcome(i).Rejected?
    ensures |failed| <= peak && (|taken| < count ==> |failed| == peak)
  {
    peak, taken, failed, results, rejection := 0, [], [], [], None;
    if count == 0 {
      return;
    }
    hide InFlight, Count;
    var pool := new Pool(count, outcome);
    var workerCount := Min(concurrency, count);
    StartWorkers(pool, workerCount);
    peak := Drain(pool);
    NobodyAwaits(pool.workers);
    results, rejection, taken, failed := pool.results[..], pool.rejection, pool.taken, pool.failed;
    AllSettled(count, outcome, pool.workers, pool.nextIndex, results, failed);
  }

  /** What is left when no task is in flight. */
  lemma AllSettled<T>(count: nat, outcome: nat -> Settled<T>, workers: seq<Worker>, nextIndex: nat,
                      results: seq<Option<T>>, failed: seq<nat>)
    requires |results| == count && nextIndex <= count && (forall w :: 0 <= w < |workers| ==> !workers[w].Awaiting?)
    requires forall i: nat :: nextIndex <= i < count ==> results[i] == None
    requires forall i: nat :: i < nextIndex && results[i].None? ==> Awaiting(i) in workers || i in failed
    requires forall i: nat :: i < nextIndex && results[i].Some? ==> outcome(i) == Resolved(results[i].value)
    requires forall k :: 0 <= k < |failed| ==> failed[k] < nextIndex && outcome(failed[k]).Rejected?
    requires forall w :: 0 <= w < |workers| && workers[w].Finished? ==> nextIndex == count
    requires |failed| == Count(workers, Broken) && Count(workers, Finished) + Count(workers, Broken) == |workers|
    requires Count(workers, Finished) > 0 ==> Finished in workers
    requires workers == [] ==> nextIndex == 0
    ensures forall i: nat :: i < count ==>
      results[i] == if i < nextIndex && outcome(i).Resolved? then Some(outcome(i).value) else None
    ensures forall i :: i in failed <==> 0 <= i < nextIndex && outcome(i).Rejected?
    ensures failed != [] <==> workers != [] && exists i: nat :: i < count && outcome(i).Rejected?
    ensures nextIndex < count ==> |failed| == |workers|
  {
    forall i: nat | i < nextIndex
      ensures i in failed <==> outcome(i).Rejected?
    {
    }
    if nextIndex < count {
      assert Finished !in workers;
    }
    if failed != [] {
      assert outcome(failed[0]).Rejected?;
    }
    if failed == [] && workers != [] {
      assert nextIndex == count;
    }
  }
}
