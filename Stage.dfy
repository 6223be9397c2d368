/** `Transformers/TransformerBase.cs`: the non-generic bookkeeping of a pipeline stage
    — its upstream link, the one-shot start guard, the worker launch, the
    finished-worker counter, the completion source and the disposal cascade.
    A stage and all its upstream stages form a chain; `Repr` is the set of stages on
    it. Each worker's finish is one atomic call (`Interlocked.Increment` and the lock
    only make that true in the source). */
module Stage {
  import opened Errors
  import opened Completions
  import opened Defaults

  class TransformerBase {
    /** `ThreadCount`. */
    const threadCount: int
    /** `DependentTransformer`, the stage before this one; null at the head. */
    const dependent: TransformerBase?
    /** This stage and every stage upstream of it. */
    ghost const Repr: set<TransformerBase>

    /** `PreserveNulls`, a public settable property. */
    var preserveNulls: bool
    /** `_hasStarted`. */
    var hasStarted: bool
    /** How many worker threads `ExecuteAsync` has started. */
    var launched: int
    /** `_completedThreads`. */
    var completedThreads: int
    /** The state of the task handed back by `ExecuteAsync`. */
    var result: Completion
    /** Whether `Dispose(bool)` has run on this stage; at this level it releases
        nothing of its own. */
    var disposed: bool

    /** Each finished worker's exception, if any, in finishing order. */
    ghost var faults: seq<Option<Exception>>
    /** How many workers have run `ProcessComplete`. */
    ghost var completeRuns: nat
    /** Whether the last worker has waited for the upstream task and tried success. */
    ghost var settled: bool
    /** The upstream task's state when the last worker waited for it. */
    ghost var upstreamSeen: Option<Completion>

    /** The chain is finite and acyclic, and every stage on it keeps its counters. */
    ghost predicate Valid()
      reads this, Repr
      decreases Repr
    {
      && this in Repr
      && (dependent != null ==>
            && dependent in Repr && dependent.Repr <= Repr && this !in dependent.Repr
            && dependent.Valid())
      && Counters()
    }

    /** Workers are launched all at once or not at all; a worker finishes at most
        once; exactly the worker that brings the counter to the thread count runs
        `ProcessComplete`; the task holds the first recorded fault until the last
        worker settles it. */
    ghost predicate Counters()
      reads this
    {
      && (launched == 0 || (hasStarted && launched == threadCount))
      && 0 <= completedThreads <= launched
      && |faults| == completedThreads
      && completeRuns == (if launched > 0 && completedThreads == launched then 1 else 0)
      && (settled ==> completeRuns == 1 && (upstreamSeen.Some? <==> dependent != null))
      && result == (if settled then Settle(RecordAll(Pending, faults), upstreamSeen)
                    else RecordAll(Pending, faults))
    }

    /** No stage on the chain has been started. */
    ghost predicate NoneStarted()
      requires Valid()
      reads Repr
      decreases Repr
    {
      !hasStarted && (dependent != null ==> dependent.NoneStarted())
    }

    /** Every stage on the chain has been started and has launched all its workers. */
    ghost predicate AllLaunched()
      requires Valid()
      reads Repr
      decreases Repr
    {
      hasStarted && launched == Launches(threadCount)
      && (dependent != null ==> dependent.AllLaunched())
    }

    /** Every stage on the chain has been disposed. */
    ghost predicate AllDisposed()
      requires Valid()
      reads Repr
      decreases Repr
    {
      disposed && (dependent != null ==> dependent.AllDisposed())
    }

    /** `TransformerBase(dependentTransformer, threads)`: `PreserveNulls` starts as the
        upstream stage's value, or false without one. */
    constructor (dependent: TransformerBase?, threads: int)
      requires dependent != null ==> dependent.Valid()
      ensures Valid()
      ensures this.dependent == dependent && threadCount == threads
      ensures preserveNulls == (dependent != null && dependent.preserveNulls)
      ensures !hasStarted && launched == 0 && completedThreads == 0
      ensures result == Pending && !disposed
      ensures Repr == {this} + (if dependent != null then dependent.Repr else {})
    {
      this.dependent := dependent;
      threadCount := threads;
      Repr := {this} + (if dependent != null then dependent.Repr else {});
      preserveNulls := dependent != null && dependent.preserveNulls;
      hasStarted := false;
      launched := 0;
      completedThreads := 0;
      result := Pending;
      disposed := false;
      faults := [];
      completeRuns := 0;
      settled := false;
      upstreamSeen := None;
    }

    /** `ExecuteAsync()`: a second start throws InvalidOperationException. A first start
        sets the flag, then starts the upstream stage, and only if that returned
        launches `ThreadCount` workers. When the upstream start throws, the exception
        leaves this stage flagged as started with no worker running. */
    method ExecuteAsync() returns (r: Outcome)
      requires Valid()
      modifies Repr`hasStarted, Repr`launched
      ensures Valid()
      ensures old(hasStarted) ==> r == Fail(InvalidOperation) && launched == old(launched)
      ensures hasStarted
      ensures r.Pass? <==> old(NoneStarted())
      ensures r.Fail? ==> r.error == InvalidOperation
      ensures r.Pass? ==> AllLaunched()
      ensures r.Fail? ==> launched == old(launched)
      ensures old(hasStarted) ==>
                forall s :: s in Repr ==> s.hasStarted == old(s.hasStarted) && s.launched == old(s.launched)
      ensures r.Fail? ==>
                forall s :: s in Repr ==> s.launched == old(s.launched) && (old(s.hasStarted) ==> s.hasStarted)
      decreases Repr
    {
      if hasStarted {
        return Fail(InvalidOperation);
      }
      hasStarted := true;
      if dependent != null {
        r := dependent.ExecuteAsync();
        if r.Fail? {
          return;
        }
      }
      var i := 0;
      while i < threadCount
        invariant 0 <= i <= Launches(threadCount)
        invariant launched == i
        modifies this`launched
      {
        launched := launched + 1;
        i := i + 1;
      }
      r := Pass;
    }

    /** `Process(object)` up to the counter: the worker's exception, if `Process()`
        threw one, is offered to the task; then the counter goes up by one whatever
        happened, and the worker reports whether it was the last one. */
    method WorkerFinished(fault: Option<Exception>) returns (last: bool)
      requires Valid() && completedThreads < launched
      modifies this
      ensures Valid()
      ensures completedThreads == old(completedThreads) + 1
      ensures faults == old(faults) + [fault]
      ensures result == Record(old(result), fault)
      ensures last <==> completedThreads == threadCount
      ensures completeRuns == old(completeRuns) + (if last then 1 else 0)
      ensures !settled
      ensures launched == old(launched)
      ensures hasStarted == old(hasStarted) && preserveNulls == old(preserveNulls)
      ensures disposed == old(disposed)
    {
      RecordAllSnoc(Pending, faults, fault);
      if fault.Some? {
        result := TrySetException(result, fault.value);
      }
      faults := faults + [fault];
      completedThreads := completedThreads + 1;
      if completedThreads < threadCount {
        return false;
      }
      completeRuns := completeRuns + 1;
      last := true;
    }

    /** `Process(object)` after `ProcessComplete`, on the last worker only: it waits
        for the upstream task, offers its fault (wrapped by `Wait()`) to this task,
        and then tries success. The wait blocks until the upstream task has finished;
        that becomes the precondition on it. */
    method SettleTask()
      requires Valid() && completeRuns == 1 && !settled
      requires dependent != null ==> !dependent.result.Pending?
      modifies this
      ensures Valid() && settled
      ensures result == Settle(old(result), if dependent == null then None else Some(dependent.result))
      ensures upstreamSeen == (if dependent == null then None else Some(dependent.result))
      ensures !result.Pending?
      ensures completedThreads == old(completedThreads) && launched == old(launched)
      ensures faults == old(faults) && completeRuns == old(completeRuns)
      ensures hasStarted == old(hasStarted) && preserveNulls == old(preserveNulls)
      ensures disposed == old(disposed)
    {
      upstreamSeen := if dependent == null then None else Some(dependent.result);
      if dependent != null {
        var fault := UpstreamFault(dependent.result);
        if fault.Some? {
          result := TrySetException(result, fault.value);
        }
      }
      result := TrySetResult(result);
      settled := true;
    }

    /** `Process(object)` of a stage whose `ProcessComplete` is the base no-op: one
        worker's finish, and on the last worker the settling of the task. */
    method Process(fault: Option<Exception>) returns (last: bool)
      requires Valid() && completedThreads < launched
      requires completedThreads + 1 == threadCount && dependent != null ==> !dependent.result.Pending?
      modifies this
      ensures Valid()
      ensures completedThreads == old(completedThreads) + 1
      ensures faults == old(faults) + [fault]
      ensures last <==> completedThreads == threadCount
      ensures !last ==> result == Record(old(result), fault) && !settled
      ensures last ==> settled && result == Settle(Record(old(result), fault), upstreamSeen)
                       && !result.Pending?
      ensures last ==> upstreamSeen == (if dependent == null then None else Some(dependent.result))
      ensures last ==> result == Settle(RecordAll(Pending, faults), upstreamSeen)
    {
      last := WorkerFinished(fault);
      if last {
        SettleTask();
      }
    }

    /** `Dispose()`: disposes the upstream stage, which disposes its own upstream in
        turn; nothing else at this level. */
    method Dispose()
      requires Valid()
      modifies Repr`disposed
      ensures Valid()
      ensures AllDisposed()
      decreases Repr
    {
      if dependent != null {
        dependent.Dispose();
      }
      disposed := true;
    }
  }
}
