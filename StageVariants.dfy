/** The stage kinds of the `Transformerizer.Transformers` namespace: the map stage
    `Transformer`, the flat-map stage `TransformerMany` and the sink stage
    `TransformerVoid`. Each is a `TransformerBase` plus a per-item strategy; the two
    producing kinds also own an output `BlockingQueue`, which their
    `ProcessComplete` completes. A null reference is `None`; transforms are total
    functions, and a transform that throws is the `fault` a worker finishes with. */
module Transformers {
  import opened Errors
  import opened Sequences
  import opened Queue
  import opened Completions
  import opened Defaults
  import Stage

  /** `results.Where(x => x != null)`: the non-null results, in their order. */
  function NonNull<P>(xs: seq<Option<P>>): (ys: seq<Option<P>>)
    ensures |ys| <= |xs|
    ensures forall i :: 0 <= i < |ys| ==> ys[i].Some?
    ensures forall i :: 0 <= i < |ys| ==> ys[i] in xs
    ensures forall i :: 0 <= i < |xs| && xs[i].Some? ==> xs[i] in ys
    decreases |xs|
  {
    if xs == [] then []
    else (if xs[0].Some? then [xs[0]] else []) + NonNull(xs[1..])
  }

  /** Filtering distributes over concatenation, so it keeps the relative order. */
  lemma {:induction false} NonNullAppend<P>(xs: seq<Option<P>>, ys: seq<Option<P>>)
    ensures NonNull(xs + ys) == NonNull(xs) + NonNull(ys)
    decreases |xs|
  {
    if xs == [] {
      assert xs + ys == ys;
    } else {
      assert (xs + ys)[1..] == xs[1..] + ys;
      NonNullAppend(xs[1..], ys);
    }
  }

  /** A sequence without nulls passes the filter unchanged. */
  lemma {:induction false} NonNullKeepsValues<P>(xs: seq<Option<P>>)
    requires forall i :: 0 <= i < |xs| ==> xs[i].Some?
    ensures NonNull(xs) == xs
    decreases |xs|
  {
    if xs != [] {
      NonNullKeepsValues(xs[1..]);
    }
  }

  /** What one consumed item of a map stage adds to the output: its result, unless
      the result is null and nulls are not preserved. */
  function MapContribution<P>(result: Option<P>, preserveNulls: bool): seq<Option<P>>
  {
    if result.Some? || preserveNulls then [result] else []
  }

  /** What one consumed item of a flat-map stage adds to the output: all its results,
      with the nulls removed unless nulls are preserved. */
  function ManyContribution<P>(results: seq<Option<P>>, preserveNulls: bool): seq<Option<P>>
  {
    if preserveNulls then results else NonNull(results)
  }

  /** The map strategy is the flat-map strategy applied to a one-element result. */
  lemma MapIsManyOfOne<P>(result: Option<P>, preserveNulls: bool)
    ensures MapContribution(result, preserveNulls) == ManyContribution([result], preserveNulls)
  {
  }

  /** The transform applied to every item, in order. */
  function Apply<C, R>(f: C -> R, items: seq<C>): (rs: seq<R>)
    ensures |rs| == |items|
    ensures forall i :: 0 <= i < |items| ==> rs[i] == f(items[i])
  {
    seq(|items|, i requires 0 <= i < |items| => f(items[i]))
  }

  /** The output of a map stage that consumed `items` in this order. */
  function MapOutput<P, C>(f: C -> Option<P>, items: seq<C>, preserveNulls: bool): seq<Option<P>>
    decreases |items|
  {
    if items == [] then []
    else MapContribution(f(items[0]), preserveNulls) + MapOutput(f, items[1..], preserveNulls)
  }

  /** The output of a flat-map stage that consumed `items` in this order. */
  function ManyOutput<P, C>(g: C -> seq<Option<P>>, items: seq<C>, preserveNulls: bool)
    : seq<Option<P>>
    decreases |items|
  {
    if items == [] then []
    else ManyContribution(g(items[0]), preserveNulls) + ManyOutput(g, items[1..], preserveNulls)
  }

  /** A map stage outputs every result in input order, or, without preserved nulls,
      exactly the non-null ones in input order. */
  lemma {:induction false} MapOutputIsFilteredResults<P, C>(f: C -> Option<P>, items: seq<C>,
                                                            preserveNulls: bool)
    ensures MapOutput(f, items, preserveNulls)
              == if preserveNulls then Apply(f, items) else NonNull(Apply(f, items))
    decreases |items|
  {
    if items != [] {
      MapOutputIsFilteredResults(f, items[1..], preserveNulls);
      var rs := Apply(f, items);
      assert rs == [f(items[0])] + Apply(f, items[1..]);
      NonNullAppend([f(items[0])], Apply(f, items[1..]));
      assert [f(items[0])][1..] == [];
    }
  }

  /** A flat-map stage outputs all results of all items, item by item and in each
      item's order, or, without preserved nulls, exactly the non-null ones. */
  lemma {:induction false} ManyOutputIsFilteredResults<P, C>(g: C -> seq<Option<P>>, items: seq<C>,
                                                             preserveNulls: bool)
    ensures ManyOutput(g, items, preserveNulls)
              == if preserveNulls then Flatten(Apply(g, items)) else NonNull(Flatten(Apply(g, items)))
    decreases |items|
  {
    if items != [] {
      ManyOutputIsFilteredResults(g, items[1..], preserveNulls);
      var rs := Apply(g, items);
      assert rs[1..] == Apply(g, items[1..]);
      assert Flatten(rs) == g(items[0]) + Flatten(Apply(g, items[1..]));
      NonNullAppend(g(items[0]), Flatten(Apply(g, items[1..])));
    }
  }

  /** The part every producing stage shares: the bookkeeping and an output queue that
      `ProcessComplete` completes. */
  class ProducerStage<P(0)> {
    const stage: Stage.TransformerBase
    /** `Produce`, the output queue, created with the stage. */
    const produce: BlockingQueue<Option<P>>

    ghost predicate Valid()
      reads stage, stage.Repr
    {
      stage.Valid()
    }

    constructor (dependent: Stage.TransformerBase?, threads: int)
      requires dependent != null ==> dependent.Valid()
      ensures Valid() && fresh(stage) && fresh(produce)
      ensures stage.dependent == dependent && stage.threadCount == threads
      ensures stage.preserveNulls == (dependent != null && dependent.preserveNulls)
      ensures !stage.hasStarted && stage.result == Pending
      ensures produce.buf == [] && !produce.completed
      ensures stage.Repr == {stage} + (if dependent != null then dependent.Repr else {})
    {
      stage := new Stage.TransformerBase(dependent, threads);
      produce := new BlockingQueue();
    }

    /** `Process(object)` with the producing `ProcessComplete`: the worker that brings
        the counter to the thread count completes the output queue before it settles
        the task; the others leave the queue alone. */
    method Process(fault: Option<Exception>) returns (last: bool)
      requires Valid() && stage.completedThreads < stage.launched
      requires (stage.completedThreads + 1 == stage.threadCount && stage.dependent != null)
                 ==> !stage.dependent.result.Pending?
      modifies stage, produce
      ensures Valid()
      ensures stage.completedThreads == old(stage.completedThreads) + 1
      ensures stage.faults == old(stage.faults) + [fault]
      ensures last <==> stage.completedThreads == stage.threadCount
      ensures produce.buf == old(produce.buf)
      ensures produce.completed == (old(produce.completed) || last)
      ensures !last ==> stage.result == Record(old(stage.result), fault)
      ensures last ==> stage.settled && !stage.result.Pending?
                       && stage.result == Settle(Record(old(stage.result), fault), stage.upstreamSeen)
      ensures last ==> stage.upstreamSeen
                         == (if stage.dependent == null then None else Some(stage.dependent.result))
    {
      last := stage.WorkerFinished(fault);
      if last {
        produce.CompleteAdding();
        stage.SettleTask();
      }
    }
  }

  /** The upstream stage's `ThreadCount`, or None for a null upstream. */
  function ThreadsOf(dependent: Stage.TransformerBase?): Option<int>
  {
    if dependent == null then None else Some(dependent.threadCount)
  }

  /** `Transformer<TProduce, TConsume>`: one output per consumed item. */
  class Transformer<P(0), C> {
    const base: ProducerStage<P>
    /** `_transform`. */
    const transform: C -> Option<P>
    /** The items the transform has been invoked with, in order. */
    var calls: seq<C>

    ghost predicate Valid()
      reads base.stage, base.stage.Repr
    {
      base.Valid()
    }

    constructor (transform: C -> Option<P>, dependent: Stage.TransformerBase?, threads: int)
      requires dependent != null ==> dependent.Valid()
      ensures Valid() && fresh(base) && fresh(base.stage) && fresh(base.produce)
      ensures this.transform == transform && calls == []
      ensures base.stage.dependent == dependent && base.stage.threadCount == threads
      ensures base.stage.preserveNulls == (dependent != null && dependent.preserveNulls)
      ensures base.produce.buf == [] && !base.produce.completed
    {
      base := new ProducerStage(dependent, threads);
      this.transform := transform;
      calls := [];
    }

    /** The public constructors: a failed thread-count lookup or check produces no
        stage. */
    static method Create(transform: C -> Option<P>, consumeIsNull: bool,
                         dependent: Stage.TransformerBase?, arg: ThreadsArg, processorCount: int)
      returns (r: Result<Transformer<P, C>>)
      requires dependent != null ==> dependent.Valid()
      requires arg.DefaultThreads? ==> dependent == null
      ensures r.Success? <==> StageThreads(consumeIsNull, arg, ThreadsOf(dependent), processorCount).Success?
      ensures r.Failure? ==> r.error == StageThreads(consumeIsNull, arg, ThreadsOf(dependent), processorCount).error
      ensures r.Success? ==>
                && fresh(r.value) && r.value.Valid() && r.value.transform == transform
                && r.value.base.stage.dependent == dependent
                && r.value.base.stage.preserveNulls == (dependent != null && dependent.preserveNulls)
                && r.value.base.stage.threadCount == StageThreads(consumeIsNull, arg, ThreadsOf(dependent), processorCount).value
    {
      var threads := StageThreads(consumeIsNull, arg, ThreadsOf(dependent), processorCount);
      if threads.Failure? {
        return Failure(threads.error);
      }
      var t := new Transformer(transform, dependent, threads.value);
      return Success(t);
    }

    /** `ProcessConsume(consume)`: runs the transform once and adds its result unless
        it is a dropped null; `TryAdd`'s answer is ignored, so once the output queue is
        completed the result is lost. */
    method ProcessConsume(item: C)
      requires Valid()
      modifies this, base.produce
      ensures calls == old(calls) + [item]
      ensures base.produce.completed == old(base.produce.completed)
      ensures base.produce.buf
                == if old(base.produce.completed) then old(base.produce.buf)
                   else old(base.produce.buf) + MapContribution(transform(item), base.stage.preserveNulls)
    {
      var result := transform(item);
      calls := calls + [item];
      if result.Some? || base.stage.preserveNulls {
        var added := base.produce.TryAdd(result);
      }
    }
  }

  /** `TransformerMany<TProduce, TConsume>`: any number of outputs per consumed item. */
  class TransformerMany<P(0), C> {
    const base: ProducerStage<P>
    /** `_transform`. */
    const transform: C -> seq<Option<P>>
    /** The items the transform has been invoked with, in order. */
    var calls: seq<C>

    ghost predicate Valid()
      reads base.stage, base.stage.Repr
    {
      base.Valid()
    }

    constructor (transform: C -> seq<Option<P>>, dependent: Stage.TransformerBase?, threads: int)
      requires dependent != null ==> dependent.Valid()
      ensures Valid() && fresh(base) && fresh(base.stage) && fresh(base.produce)
      ensures this.transform == transform && calls == []
      ensures base.stage.dependent == dependent && base.stage.threadCount == threads
      ensures base.stage.preserveNulls == (dependent != null && dependent.preserveNulls)
      ensures base.produce.buf == [] && !base.produce.completed
    {
      base := new ProducerStage(dependent, threads);
      this.transform := transform;
      calls := [];
    }

    /** The public constructors: a failed thread-count lookup or check produces no
        stage. */
    static method Create(transform: C -> seq<Option<P>>, consumeIsNull: bool,
                         dependent: Stage.TransformerBase?, arg: ThreadsArg, processorCount: int)
      returns (r: Result<TransformerMany<P, C>>)
      requires dependent != null ==> dependent.Valid()
      requires arg.DefaultThreads? ==> dependent == null
      ensures r.Success? <==> StageThreads(consumeIsNull, arg, ThreadsOf(dependent), processorCount).Success?
      ensures r.Failure? ==> r.error == StageThreads(consumeIsNull, arg, ThreadsOf(dependent), processorCount).error
      ensures r.Success? ==>
                && fresh(r.value) && r.value.Valid() && r.value.transform == transform
                && r.value.base.stage.dependent == dependent
                && r.value.base.stage.preserveNulls == (dependent != null && dependent.preserveNulls)
                && r.value.base.stage.threadCount == StageThreads(consumeIsNull, arg, ThreadsOf(dependent), processorCount).value
    {
      var threads := StageThreads(consumeIsNull, arg, ThreadsOf(dependent), processorCount);
      if threads.Failure? {
        return Failure(threads.error);
      }
      var t := new TransformerMany(transform, dependent, threads.value);
      return Success(t);
    }

    /** `ProcessConsume(consume)`: runs the transform once, drops the nulls unless they
        are preserved, and adds what is left, if anything, in a single `TryAdd`, so it
        lands contiguously in the output queue. */
    method ProcessConsume(item: C)
      requires Valid()
      modifies this, base.produce
      ensures calls == old(calls) + [item]
      ensures base.produce.completed == old(base.produce.completed)
      ensures base.produce.buf
                == if old(base.produce.completed) then old(base.produce.buf)
                   else old(base.produce.buf) + ManyContribution(transform(item), base.stage.preserveNulls)
    {
      var results := transform(item);
      calls := calls + [item];
      if !base.stage.preserveNulls {
        results := NonNull(results);
      }
      var list := results;
      if |list| > 0 {
        var added := base.produce.TryAddAll(list);
      }
    }
  }

  /** `TransformerVoid<TConsume>`: a sink; its transform is run for its effect only. */
  class TransformerVoid<C> {
    const stage: Stage.TransformerBase
    /** The items the transform has been invoked with, in order. */
    var calls: seq<C>

    ghost predicate Valid()
      reads stage, stage.Repr
    {
      stage.Valid()
    }

    constructor (dependent: Stage.TransformerBase?, threads: int)
      requires dependent != null ==> dependent.Valid()
      ensures Valid() && fresh(stage) && calls == []
      ensures stage.dependent == dependent && stage.threadCount == threads
      ensures stage.preserveNulls == (dependent != null && dependent.preserveNulls)
    {
      stage := new Stage.TransformerBase(dependent, threads);
      calls := [];
    }

    /** The public constructors: a failed thread-count lookup or check produces no
        stage. */
    static method Create(consumeIsNull: bool, dependent: Stage.TransformerBase?, arg: ThreadsArg,
                         processorCount: int)
      returns (r: Result<TransformerVoid<C>>)
      requires dependent != null ==> dependent.Valid()
      requires arg.DefaultThreads? ==> dependent == null
      ensures r.Success? <==> StageThreads(consumeIsNull, arg, ThreadsOf(dependent), processorCount).Success?
      ensures r.Failure? ==> r.error == StageThreads(consumeIsNull, arg, ThreadsOf(dependent), processorCount).error
      ensures r.Success? ==>
                && fresh(r.value) && r.value.Valid()
                && r.value.stage.dependent == dependent
                && r.value.stage.preserveNulls == (dependent != null && dependent.preserveNulls)
                && r.value.stage.threadCount == StageThreads(consumeIsNull, arg, ThreadsOf(dependent), processorCount).value
    {
      var threads := StageThreads(consumeIsNull, arg, ThreadsOf(dependent), processorCount);
      if threads.Failure? {
        return Failure(threads.error);
      }
      var t := new TransformerVoid(dependent, threads.value);
      return Success(t);
    }

    /** `ProcessConsume(consume)`: runs the transform once and produces nothing. */
    method ProcessConsume(item: C)
      modifies this
      ensures calls == old(calls) + [item]
    {
      calls := calls + [item];
    }

    /** `Process(object)` with the sink's empty `ProcessComplete`: the last worker
        settles the task and there is no output to complete. */
    method Process(fault: Option<Exception>) returns (last: bool)
      requires Valid() && stage.completedThreads < stage.launched
      requires (stage.completedThreads + 1 == stage.threadCount && stage.dependent != null)
                 ==> !stage.dependent.result.Pending?
      modifies stage
      ensures Valid()
      ensures stage.faults == old(stage.faults) + [fault]
      ensures last <==> stage.completedThreads == stage.threadCount
      ensures calls == old(calls)
      ensures stage.completedThreads == old(stage.completedThreads) + 1
      ensures !last ==> stage.result == Record(old(stage.result), fault) && !stage.settled
      ensures last ==> stage.settled && !stage.result.Pending?
                       && stage.result == Settle(Record(old(stage.result), fault), stage.upstreamSeen)
      ensures last ==> stage.upstreamSeen
                         == (if stage.dependent == null then None else Some(stage.dependent.result))
    {
      last := stage.Process(fault);
    }
  }
}
