/** The older stage generation, `Transformerizer/TransformerBase.cs` with its two kinds
    `Transformerizer/Transformer.cs` (map) and `Transformerizer/TransformerMany.cs`
    (flat map). A stage reads its input collection one item at a time, each worker
    runs its own take-and-transform loop, the shared `hasError` flag stops every
    loop after the first exception, and the last worker to finish completes the
    output collection and settles the task.

    The stages of one chain are modelled with one item type `T`. The input collection
    is an `EnumerableProducerConsumer`; the output collection, a
    `BlockingProducerConsumer` in the source, is its contents and two flags. */
module Legacy {
  import opened Errors
  import opened Completions
  import opened Defaults
  import opened ProducerConsumer

  /** `_transform` of a map stage, or of a flat-map stage; Failure is the exception
      the delegate throws. */
  datatype Transform<!T> = Map(f: T -> Result<T>) | FlatMap(g: T -> Result<seq<T>>)

  /** What `ProcessConsume` adds for one item, or the exception it throws. Neither
      kind filters nulls. */
  function Contribution<T>(t: Transform<T>, item: T): Result<seq<T>>
  {
    match t
    case Map(f) =>
      (match f(item)
       case Success(x) => Success([x])
       case Failure(e) => Failure(e))
    case FlatMap(g) => g(item)
  }

  /** The items one consumed item adds to the output (none when it throws). */
  function Produced<T>(t: Transform<T>, item: T): seq<T>
  {
    match Contribution(t, item)
    case Success(out) => out
    case Failure(_) => []
  }

  /** The items a run of consumed items adds, item by item in order. */
  function Outputs<T>(t: Transform<T>, items: seq<T>): seq<T>
    decreases |items|
  {
    if items == [] then [] else Produced(t, items[0]) + Outputs(t, items[1..])
  }

  /** A map stage adds exactly one item per consumed item: the transform's result. */
  lemma MapAddsOne<T>(f: T -> Result<T>, item: T)
    requires f(item).Success?
    ensures Produced(Map(f), item) == [f(item).value]
  {
  }

  /** How one worker's loop ends: items taken, items added, the exception caught. */
  datatype WorkRun<T> = WorkRun(consumed: nat, output: seq<T>, fault: Option<Exception>)

  /** A worker's loop over the items it finds: items are transformed in order until
      one throws. */
  function WorkSpec<T>(t: Transform<T>, items: seq<T>): WorkRun<T>
    decreases |items|
  {
    if items == [] then WorkRun(0, [], None)
    else
      match Contribution(t, items[0])
      case Failure(e) => WorkRun(1, [], Some(e))
      case Success(out) =>
        var rest := WorkSpec(t, items[1..]);
        WorkRun(rest.consumed + 1, out + rest.output, rest.fault)
  }

  /** A worker takes every item and adds all their outputs when none throws; when one
      throws, it stops right after that item, having added the outputs of the items
      before it, and reports that item's exception. */
  lemma {:induction false} WorkSpecLaws<T>(t: Transform<T>, items: seq<T>)
    ensures var w := WorkSpec(t, items);
            && w.consumed <= |items|
            && (w.fault.None? <==> forall i :: 0 <= i < |items| ==> Contribution(t, items[i]).Success?)
            && (w.fault.None? ==> w.consumed == |items| && w.output == Outputs(t, items))
            && (w.fault.Some? ==>
                  && 0 < w.consumed
                  && Contribution(t, items[w.consumed - 1]) == Failure(w.fault.value)
                  && (forall i :: 0 <= i < w.consumed - 1 ==> Contribution(t, items[i]).Success?)
                  && w.output == Outputs(t, items[..w.consumed - 1]))
    decreases |items|
  {
    if items != [] && Contribution(t, items[0]).Success? {
      var rest := WorkSpec(t, items[1..]);
      WorkSpecLaws(t, items[1..]);
      assert forall i :: 1 <= i < |items| ==> items[i] == items[1..][i - 1];
      if rest.fault.Some? {
        assert items[..rest.consumed][1..] == items[1..][..rest.consumed - 1];
      }
    } else if items != [] {
      assert items[..0] == [];
    }
  }

  /** Loop bookkeeping for a worker at position `k` of `s`: it has taken `consumed`
      items, the output holds `done` and it caught `caught`; the run `total` is that
      much followed, while nothing was caught, by the run from `k`. */
  ghost predicate Tracks<T>(t: Transform<T>, s: seq<T>, k: nat, consumed: nat, done: seq<T>,
                            caught: Option<Exception>, total: WorkRun<T>)
  {
    && k <= |s|
    && if caught.Some? then total == WorkRun(consumed, done, caught)
       else var rest := WorkSpec(t, s[k..]);
            total == WorkRun(consumed + rest.consumed, done + rest.output, rest.fault)
  }

  /** One turn of the worker loop on item `k`: its outputs are added, and its exception,
      if any, is caught. */
  lemma TrackStep<T>(t: Transform<T>, s: seq<T>, k: nat, consumed: nat, done: seq<T>,
                     total: WorkRun<T>, fault: Option<Exception>)
    requires Tracks(t, s, k, consumed, done, None, total) && k < |s|
    requires fault.Some? <==> Contribution(t, s[k]).Failure?
    requires fault.Some? ==> fault.value == Contribution(t, s[k]).error
    ensures Tracks(t, s, k + 1, consumed + 1, done + Produced(t, s[k]), fault, total)
  {
    assert s[k..][1..] == s[k + 1..];
    if fault.Some? {
      assert done + Produced(t, s[k]) == done;
    }
  }

  /** The loop has ended once an exception is caught or the input is used up: the run
      so far is the whole run. */
  lemma TrackEnd<T>(t: Transform<T>, s: seq<T>, k: nat, consumed: nat, done: seq<T>,
                    caught: Option<Exception>, total: WorkRun<T>)
    requires Tracks(t, s, k, consumed, done, caught, total)
    requires caught.Some? || k == |s|
    ensures total == WorkRun(consumed, done, caught)
  {
    if caught.None? {
      assert s[k..] == [];
    }
  }

  class TransformerBase<T(0)> {
    /** `Consume`, the input collection. */
    const consume: EnumerableProducerConsumer<T>
    /** `_dependentTransformer`; null at the head of the chain. */
    const dependent: TransformerBase?<T>
    /** `ThreadCount`. */
    const threadCount: int
    /** `_transform`, with the stage kind. */
    const transform: Transform<T>
    /** This stage and every stage upstream of it. */
    ghost const Repr: set<TransformerBase<T>>
    /** The input collections of the stages in `Repr`. */
    ghost const Inputs: set<EnumerableProducerConsumer<T>>

    var hasStarted: bool
    var hasError: bool
    /** How many workers `ExecuteAsync` has queued. */
    var launched: int
    /** `_completedThreads`. */
    var completedThreads: int
    /** The state of the task handed back by `ExecuteAsync`. */
    var result: Completion
    /** The items added to `_produce`, in order. */
    var produced: seq<T>
    /** Whether `_produce.CompleteAdding()` has been called. */
    var produceCompleted: bool
    /** Whether `_produce` has been disposed. */
    var produceDisposed: bool

    /** Every exception a worker caught, in the order they were caught. */
    ghost var faults: seq<Option<Exception>>
    /** Whether the last worker has waited for the upstream task and tried success. */
    ghost var settled: bool
    /** The upstream task's state when the last worker waited for it. */
    ghost var upstreamSeen: Option<Completion>

    /** The chain is finite and acyclic, no two stages share an input collection, and
        every stage keeps its counters. */
    ghost predicate Valid()
      reads this, Repr, Inputs
      decreases Repr
    {
      && this in Repr && consume in Inputs && consume.Valid()
      && (dependent != null ==>
            && dependent in Repr && dependent.Repr <= Repr && this !in dependent.Repr
            && dependent.Inputs <= Inputs && consume !in dependent.Inputs
            && dependent.Valid())
      && Counters()
    }

    /** Workers are queued all at once or not at all; each finishes once; the output
        is completed exactly when the last one has finished; `hasError` means an
        exception was caught, and the task holds the first one. */
    ghost predicate Counters()
      reads this
    {
      && (launched == 0 || (hasStarted && launched == threadCount))
      && 0 <= completedThreads <= launched
      && (produceCompleted <==> launched > 0 && completedThreads == launched)
      && (hasError <==> faults != [])
      && (forall i :: 0 <= i < |faults| ==> faults[i].Some?)
      && (settled ==> produceCompleted && (upstreamSeen.Some? <==> dependent != null))
      && result == (if settled then Settle(RecordAll(Pending, faults), upstreamSeen)
                    else RecordAll(Pending, faults))
    }

    /** No stage on the chain has been started. */
    ghost predicate NoneStarted()
      requires Valid()
      reads Repr, Inputs
      decreases Repr
    {
      !hasStarted && (dependent != null ==> dependent.NoneStarted())
    }

    /** Every stage on the chain has been started and has queued all its workers. */
    ghost predicate AllLaunched()
      requires Valid()
      reads Repr, Inputs
      decreases Repr
    {
      hasStarted && launched == Launches(threadCount)
      && (dependent != null ==> dependent.AllLaunched())
    }

    /** Every output on the chain is disposed, and so is the input of its head. */
    ghost predicate ChainDisposed()
      requires Valid()
      reads Repr, Inputs
      decreases Repr
    {
      produceDisposed && (if dependent != null then dependent.ChainDisposed() else consume.disposed)
    }

    /** The shape of the chain alone, as `Valid` states it; it reads only constants. */
    ghost predicate Linked()
      decreases Repr
    {
      && this in Repr && consume in Inputs
      && (dependent != null ==>
            && dependent in Repr && dependent.Repr <= Repr && this !in dependent.Repr
            && dependent.Inputs <= Inputs && consume !in dependent.Inputs
            && dependent.Linked())
    }

    lemma {:induction false} ValidIsLinked()
      requires Valid()
      ensures Linked()
      decreases Repr
    {
      if dependent != null {
        dependent.ValidIsLinked();
      }
    }

    /** The input collection of the head of the chain: the only input `Dispose` touches. */
    ghost function HeadInput(): (c: EnumerableProducerConsumer<T>)
      requires Linked()
      ensures c in Inputs
      ensures dependent == null ==> c == consume
      decreases Repr
    {
      if dependent != null then dependent.HeadInput() else consume
    }

    /** The full constructor, after its checks have passed. */
    constructor (consume: EnumerableProducerConsumer<T>, transform: Transform<T>,
                 dependent: TransformerBase?<T>, threads: int)
      requires consume.Valid()
      requires dependent != null ==> dependent.Valid() && consume !in dependent.Inputs
      requires threads >= 1
      ensures Valid()
      ensures this.consume == consume && this.transform == transform
      ensures this.dependent == dependent && threadCount == threads
      ensures !hasStarted && !hasError && launched == 0 && result == Pending
      ensures produced == [] && !produceCompleted && !produceDisposed
    {
      this.consume := consume;
      this.transform := transform;
      this.dependent := dependent;
      threadCount := threads;
      Repr := {this} + (if dependent != null then dependent.Repr else {});
      Inputs := {consume} + (if dependent != null then dependent.Inputs else {});
      hasStarted := false;
      hasError := false;
      launched := 0;
      completedThreads := 0;
      result := Pending;
      produced := [];
      produceCompleted := false;
      produceDisposed := false;
      faults := [];
      settled := false;
      upstreamSeen := None;
    }

    /** The public constructors of both stage kinds: the overload picks the thread
        count, then a null input collection or a count below one is refused and no
        stage is built. */
    static method Create(consume: EnumerableProducerConsumer?<T>, transform: Transform<T>,
                         dependent: TransformerBase?<T>, arg: ThreadsArg, processorCount: int)
      returns (r: Result<TransformerBase<T>>)
      requires consume != null ==> consume.Valid()
      requires dependent != null ==> dependent.Valid() && (consume != null ==> consume !in dependent.Inputs)
      requires arg.DefaultThreads? ==> dependent == null
      ensures var threads := StageThreads(consume == null, arg,
                                          if dependent == null then None else Some(dependent.threadCount),
                                          processorCount);
              && (r.Success? <==> threads.Success?)
              && (r.Failure? ==> r.error == threads.error)
              && (r.Success? ==>
                    && fresh(r.value) && r.value.Valid()
                    && r.value.consume == consume && r.value.transform == transform
                    && r.value.dependent == dependent && r.value.threadCount == threads.value
                    && !r.value.hasStarted && r.value.produced == [])
    {
      var threads := StageThreads(consume == null, arg,
                                  if dependent == null then None else Some(dependent.threadCount),
                                  processorCount);
      if threads.Failure? {
        return Failure(threads.error);
      }
      var stage := new TransformerBase(consume, transform, dependent, threads.value);
      return Success(stage);
    }

    /** `ExecuteAsync()`: a second start throws InvalidOperationException; a first
        start sets the flag, starts the upstream stage, and only if that returned
        queues `ThreadCount` workers. */
    method ExecuteAsync() returns (r: Outcome)
      requires Valid()
      modifies Repr`hasStarted, Repr`launched
      ensures Valid()
      ensures hasStarted
      ensures old(hasStarted) ==> r == Fail(InvalidOperation)
      ensures r.Pass? <==> old(NoneStarted())
      ensures r.Fail? ==> r.error == InvalidOperation && launched == old(launched)
      ensures r.Pass? ==> AllLaunched()
      ensures old(hasStarted) ==>
                forall s :: s in Repr ==> s.hasStarted == old(s.hasStarted) && s.launched == old(s.launched)
      ensures r.Fail? ==>
                forall s :: s in Repr ==> s.launched == old(s.launched) && (old(s.hasStarted) ==> s.hasStarted)
      decreases Repr
    {
      if hasStarted {
        return Fail(InvalidOperation);
      }
      hasStarted := true;
      if dependent != null {
        r := dependent.ExecuteAsync();
        if r.Fail? {
          return;
        }
      }
      var i := 0;
      while i < threadCount
        invariant 0 <= i <= Launches(threadCount)
        invariant launched == i
        modifies this`launched
      {
        launched := launched + 1;
        i := i + 1;
      }
      r := Pass;
    }

    /** `ProcessConsume(consume)`: a map stage adds the transform's result with one
        `TryAdd`; a flat-map stage adds each result with its own `TryAdd`, in
        enumeration order. An exception from the transform adds nothing. */
    method ProcessConsume(item: T) returns (fault: Option<Exception>)
      modifies this`produced
      ensures produced == old(produced) + Produced(transform, item)
      ensures fault.Some? <==> Contribution(transform, item).Failure?
      ensures fault.Some? ==> fault.value == Contribution(transform, item).error
    {
      match transform
      case Map(f) =>
        var r := f(item);
        if r.Failure? {
          return Some(r.error);
        }
        produced := produced + [r.value];
        fault := None;
      case FlatMap(g) =>
        var rs := g(item);
        if rs.Failure? {
          return Some(rs.error);
        }
        var results := rs.value;
        for k := 0 to |results|
          invariant produced == old(produced) + results[..k]
          modifies this`produced
        {
          produced := produced + [results[k]];
        }
        assert results[..|results|] == results;
        fault := None;
    }

    /** One turn of the worker loop once `hasError` was found clear: `TryTake`, and
        for a taken item `ProcessConsume`; its exception flags the error and is offered
        to the task. */
    method Turn() returns (ok: bool, item: T, fault: Option<Exception>)
      requires Valid() && completedThreads < launched && !hasError
      modifies this`produced, this`hasError, this`result, this`faults, consume
      ensures Valid()
      ensures consume.disposed == old(consume.disposed)
      ensures ok <==> old(consume.cursor) < |consume.source|
      ensures !ok ==>
                && consume.cursor == old(consume.cursor) && produced == old(produced)
                && !hasError && faults == old(faults) && result == old(result)
      ensures ok ==>
                && item == consume.source[old(consume.cursor)]
                && consume.cursor == old(consume.cursor) + 1
                && produced == old(produced) + Produced(transform, item)
                && (fault.Some? <==> Contribution(transform, item).Failure?)
                && (fault.Some? ==> fault.value == Contribution(transform, item).error)
                && hasError == fault.Some?
                && faults == old(faults) + (if fault.Some? then [fault] else [])
                && result == Record(old(result), fault)
    {
      ok, item := consume.TryTake();
      if !ok {
        return ok, item, None;
      }
      fault := ProcessConsume(item);
      if fault.Some? {
        RecordAllSnoc(Pending, faults, fault);
        hasError := true;
        result := TrySetException(result, fault.value);
        faults := faults + [fault];
      }
    }

    /** One worker's loop, `while (!hasError && Consume.TryTake(out consume))`: it takes
        nothing once an error is flagged; an exception from `ProcessConsume` flags the
        error, is offered to the task, and ends the loop. */
    method Work()
      requires Valid() && completedThreads < launched
      modifies this`produced, this`hasError, this`result, this`faults, consume
      ensures Valid()
      ensures old(hasError) ==>
                consume.cursor == old(consume.cursor) && produced == old(produced)
                && result == old(result) && faults == old(faults)
      ensures !old(hasError) ==>
                var w := WorkSpec(transform, consume.source[old(consume.cursor)..]);
                && consume.cursor == old(consume.cursor) + w.consumed
                && produced == old(produced) + w.output
                && hasError == w.fault.Some?
                && faults == old(faults) + (if w.fault.Some? then [w.fault] else [])
                && result == Record(old(result), w.fault)
      ensures consume.disposed == old(consume.disposed)
    {
      if hasError {
        return;
      }
      ghost var start := consume.cursor;
      ghost var w := WorkSpec(transform, consume.source[start..]);
      ghost var caught: Option<Exception> := None;
      ghost var total := WorkRun(w.consumed, produced + w.output, w.fault);
      while !hasError
        invariant Valid() && start <= consume.cursor
        invariant consume.disposed == old(consume.disposed)
        invariant faults == old(faults) + (if caught.Some? then [caught] else [])
        invariant result == Record(old(result), caught)
        invariant Tracks(transform, consume.source, consume.cursor, consume.cursor - start, produced, caught, total)
        decreases |consume.source| - consume.cursor
      {
        ghost var here, before := consume.cursor, produced;
        var ok, item, fault := Turn();
        if !ok {
          break;
        }
        TrackStep(transform, consume.source, here, here - start, before, total, fault);
        caught := fault;
      }
      TrackEnd(transform, consume.source, consume.cursor, consume.cursor - start, produced, caught, total);
    }

    /** The end of `Process(object)`: the counter goes up by one; only the worker that
        brings it to `ThreadCount` completes the output, even after an error, then
        waits for the upstream task, offers its fault (wrapped by `Wait()`), and tries
        success. The wait blocks until the upstream task has finished; that becomes
        the precondition on it. */
    method Finish() returns (last: bool)
      requires Valid() && completedThreads < launched
      requires (completedThreads + 1 == threadCount && dependent != null) ==> !dependent.result.Pending?
      modifies this`completedThreads, this`produceCompleted, this`result, this`settled, this`upstreamSeen
      ensures Valid()
      ensures completedThreads == old(completedThreads) + 1
      ensures last <==> completedThreads == threadCount
      ensures produceCompleted == last
      ensures !last ==> result == old(result) && !settled
      ensures last ==> settled && !result.Pending?
                       && result == Settle(old(result), if dependent == null then None else Some(dependent.result))
      ensures last ==> upstreamSeen == (if dependent == null then None else Some(dependent.result))
      ensures faults == old(faults)
    {
      completedThreads := completedThreads + 1;
      if completedThreads < threadCount {
        return false;
      }
      produceCompleted := true;
      upstreamSeen := if dependent == null then None else Some(dependent.result);
      if dependent != null {
        var fault := UpstreamFault(dependent.result);
        if fault.Some? {
          result := TrySetException(result, fault.value);
        }
      }
      result := TrySetResult(result);
      settled := true;
      last := true;
    }

    /** `Process(object)`: one worker's loop followed by its finish. */
    method Process() returns (last: bool)
      requires Valid() && completedThreads < launched
      requires (completedThreads + 1 == threadCount && dependent != null) ==> !dependent.result.Pending?
      modifies this, consume
      ensures Valid()
      ensures completedThreads == old(completedThreads) + 1
      ensures last <==> completedThreads == threadCount
      ensures produceCompleted == last
      ensures !old(hasError) ==>
                var w := WorkSpec(transform, consume.source[old(consume.cursor)..]);
                && consume.cursor == old(consume.cursor) + w.consumed
                && produced == old(produced) + w.output
                && hasError == w.fault.Some?
                && faults == old(faults) + (if w.fault.Some? then [w.fault] else [])
      ensures old(hasError) ==>
                consume.cursor == old(consume.cursor) && produced == old(produced) && faults == old(faults)
      ensures last ==> !result.Pending?
      ensures last ==> result == Settle(RecordAll(Pending, faults),
                                        if dependent == null then None else Some(dependent.result))
    {
      Work();
      last := Finish();
    }

    /** `Dispose(bool)`: always disposes the output collection; then the upstream stage
        if there is one, which carries on up the chain, and otherwise the input
        collection — never both. */
    method Dispose()
      requires Valid()
      modifies Repr`produceDisposed, Inputs`disposed
      ensures Valid()
      ensures produceDisposed
      ensures ChainDisposed()
      ensures dependent != null ==> consume.disposed == old(consume.disposed)
      ensures dependent == null ==> consume.disposed
      ensures Linked()
      ensures forall c :: c in Inputs && c != HeadInput() ==> c.disposed == old(c.disposed)
      decreases Repr
    {
      ValidIsLinked();
      produceDisposed := true;
      if dependent != null {
        dependent.Dispose();
      } else {
        consume.Dispose();
      }
    }
  }
}
