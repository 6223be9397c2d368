# Transformerizer, modelled in Dafny

Transformerizer is a .NET library for multi-threaded pipelines. Each pipeline
stage ("transformer") reads items from an input collection. It runs a user
delegate on several worker threads and puts the results into an output
collection, which the next stage reads. This project models the sequential core
under that threading. Every worker step is treated as one atomic call.

- **Blocking hand-off queue** (`Queue`): a FIFO buffer with a one-way "adding
  completed" flag. It is modelled as a pure specification (`AddSpec`,
  `TakeSpec`, `CompleteSpec`, and whole histories `Run`) and as a class
  (`BlockingQueue`) whose methods are proved against that specification. One
  model covers both the newer and the older copy of the queue.
- **Forward-only source readers**:
  - `QueueRead.BlockingQueueRead` takes batches of up to `count` items.
  - `ProducerConsumer.EnumerableProducerConsumer` takes one item at a time.

  Both wrap a finite `seq` with a cursor. Ghost histories show that the takes
  partition a prefix of the source.
- **Completion rule** (`Completions`): a stage returns a task that starts
  pending. The first `TrySetException` or `TrySetResult` settles it, and later
  attempts are ignored.
- **Thread-count defaults and constructor checks** (`Defaults`).
- **Newer stage bookkeeping** (`Stage.TransformerBase`):
  - the one-shot start guard;
  - upstream-first start and the launch of `ThreadCount` workers;
  - `PreserveNulls` inheritance;
  - the finished-worker counter, where only the worker that reaches
    `ThreadCount` runs `ProcessComplete`;
  - outcome settlement;
  - the disposal cascade.
- **Newer stage kinds** (`Transformers`):
  - the map stage `Transformer`, which drops a null result unless nulls are
    preserved;
  - the flat-map stage `TransformerMany`, which filters nulls and adds one
    contiguous batch;
  - the sink stage `TransformerVoid`.

  The two producing kinds share `ProducerStage`. It holds the output queue that
  their `ProcessComplete` completes, as the two-parameter generic
  `TransformerBase` does.
- **Older stage generation** (`Legacy`):
  - checked constructors;
  - the start guard;
  - each worker's `while (!hasError && TryTake)` loop, proved against the
    specification function `WorkSpec`;
  - the last-worker rendezvous, which completes the output even after an error;
  - the disposal cascade;
  - un-filtered map and per-element flat-map strategies.
- **Statistics** (`Statistics`): the `TransformerStatistics` constructor as a
  pure function from per-worker records to aggregates. There are two versions:
  - `AggregateAsWritten`, the code as written;
  - `Aggregate`, as evidently intended (see Findings).

A C# `null` is `None` of `Errors.Option`. An exception is a `Failure` or `Fail`
carrying an `Errors.Exception`. `Environment.ProcessorCount` is a parameter.

## Model

| member | source | states |
|---|---|---|
| Queue.AddSpec | Transformerizer/Collections/BlockingQueue.cs:52-74 | An add succeeds exactly when the queue is not completed. A refused add changes nothing. An accepted add appends the whole batch, in order, behind the old buffer. |
| Queue.TakeSpec | Transformerizer/Collections/BlockingQueue.cs:79-128 | On a non-empty buffer a take succeeds and removes exactly the first min(count, size) items in FIFO order, never waiting to fill `count`. An empty completed queue returns false with no items and no change. An empty open queue blocks. A negative count throws OverflowException. |
| Queue.CompleteSpec | Transformerizer/Collections/BlockingQueue.cs:27-39 | Completing sets the flag and keeps the buffer; `CompleteIdempotent` states that a second completion changes nothing. |
| Queue.CompleteIdempotent | Transformerizer/BlockingQueue.cs:20-32 | Completing sets the flag, keeps the buffer, and completing twice is the same as completing once. |
| Queue.RunConserves | Transformerizer/Collections/BlockingQueue.cs:52-128 | Over any history of adds, takes and completions, the items taken followed by the items still buffered are exactly the initial buffer followed by every accepted batch. Nothing is lost, duplicated or reordered. |
| Queue.RunAfterComplete | Transformerizer/Collections/BlockingQueue.cs:55 | Once completed, a queue stays completed under any history and accepts no item. |
| Queue.DrainReturnsAll | Transformerizer/Collections/BlockingQueue.cs:85-127 | Taking from a completed queue until a take fails returns every buffered item, in order, in non-empty batches of at most `count`. |
| Queue.BlockingQueue.Count | Transformerizer/Collections/BlockingQueue.cs:22 | `Count` is the number of buffered items. |
| Queue.BlockingQueue.HasCount | Transformerizer/BlockingQueue.cs:16 | The older queue always reports that it has a count. |
| Queue.BlockingQueue.CompleteAdding | Transformerizer/Collections/BlockingQueue.cs:27-39 | Sets the completed flag and leaves the buffer unchanged, as `CompleteSpec` says. |
| Queue.BlockingQueue.TryAddAll | Transformerizer/Collections/BlockingQueue.cs:52-74 | The per-item enqueue loop yields exactly `AddSpec`'s result and new state. It is refused with no change once completed, and otherwise appends the items in order. |
| Queue.BlockingQueue.TryAdd | Transformerizer/Collections/BlockingQueue.cs:44-47 | Adding one item behaves exactly like adding the one-element batch. |
| Queue.BlockingQueue.TryTake | Transformerizer/Collections/BlockingQueue.cs:79-128 | The dequeue-into-array loop yields exactly `TakeSpec`'s status, items and new state. The items come back in a fresh array exactly when the take succeeds. |
| QueueRead.BlockingQueueRead.constructor | Transformerizer/Collections/BlockingQueueRead.cs:19-23 | The reader starts at the beginning of its source with nothing taken. |
| QueueRead.BlockingQueueRead.TryTake | Transformerizer/Collections/BlockingQueueRead.cs:28-56 | Reads the next min(count, remaining) source items, in order. It returns true exactly when it read at least one item, and the array is exactly as long as the number read. Reading nothing (including `count` 0) returns false with null and consumes nothing. A negative count throws. All successful takes, concatenated, are exactly the source prefix read so far, and none is empty. |
| QueueRead.BlockingQueueRead.GetEnumerator | Transformerizer/Collections/BlockingQueueRead.cs:61-64 | Enumerates exactly the whole source, whatever has been taken. Equivalently, the batches handed out followed by the unread rest. |
| ProducerConsumer.EnumerableProducerConsumer.constructor | Transformerizer/EnumerableProducerConsumer.cs:48-51 | The collection starts at the beginning of its source, undisposed. |
| ProducerConsumer.EnumerableProducerConsumer.TryTake | Transformerizer/EnumerableProducerConsumer.cs:109-124 | Returns true exactly when the source has a next item, hands out that item and advances by exactly one. At the end it returns false and changes nothing. The items handed out so far are always exactly the source prefix read. |
| ProducerConsumer.EnumerableProducerConsumer.Dispose | Transformerizer/EnumerableProducerConsumer.cs:56-59 | Disposes the enumerator and touches nothing else. |
| ProducerConsumer.EnumerableProducerConsumer.TryAdd | Transformerizer/EnumerableProducerConsumer.cs:101-104 | Always throws NotImplementedException. It modifies nothing. |
| ProducerConsumer.EnumerableProducerConsumer.Count | Transformerizer/EnumerableProducerConsumer.cs:21-24 | Always throws NotImplementedException. |
| ProducerConsumer.EnumerableProducerConsumer.IsSynchronized | Transformerizer/EnumerableProducerConsumer.cs:30-33 | Always throws NotImplementedException. |
| ProducerConsumer.EnumerableProducerConsumer.ToArray | Transformerizer/EnumerableProducerConsumer.cs:92-95 | Always throws NotImplementedException. |
| ProducerConsumer.EnumerableProducerConsumer.CopyTo | Transformerizer/EnumerableProducerConsumer.cs:65-77 | Both overloads always throw NotImplementedException and leave the array alone. |
| ProducerConsumer.EnumerableProducerConsumer.GetEnumerator | Transformerizer/EnumerableProducerConsumer.cs:83-86 | Always throws NotImplementedException. |
| Completions.TrySetException | Transformerizer/Transformers/TransformerBase.cs:74 | A pending task becomes faulted with the exception. A settled task is left as it is. |
| Completions.TrySetResult | Transformerizer/Transformers/TransformerBase.cs:100 | A pending task becomes successful. A settled task is left as it is. |
| Completions.Record | Transformerizer/Transformers/TransformerBase.cs:71-75 | A worker's exception faults a pending task with that exception. A worker without one, or a task already settled, leaves the task unchanged. |
| Completions.RecordAll | Transformerizer/Transformers/TransformerBase.cs:67-79 | Every finished worker's exception offered in finishing order. `RecordAllKeepsFirst` proves the result is the first exception, or still pending, and `SettledIsFinal` that a settled task is kept. |
| Completions.UpstreamFault | Transformerizer/Transformers/TransformerBase.cs:84-97 | Waiting on the upstream task throws exactly when that task faulted, and then throws an AggregateException around its exception. |
| Completions.Settle | Transformerizer/Transformers/TransformerBase.cs:84-100 | The last worker's step never leaves the task pending and never replaces an outcome already set. `StageOutcome` states which outcome a pending task gets. |
| Completions.FirstFault | Transformerizer/Transformers/TransformerBase.cs:67-75 | Reference definition: the first worker exception in finishing order. It exists exactly when some worker threw, and every worker before it finished cleanly. |
| Completions.SettledIsFinal | Transformerizer/Transformers/TransformerBase.cs:84-100 | Once the task is settled, no later exception changes it. |
| Completions.RecordAllKeepsFirst | Transformerizer/Transformers/TransformerBase.cs:67-79 | Offering every worker's exception, in finishing order, leaves the task faulted with the first one, or still pending if none threw. |
| Completions.StageOutcome | Transformerizer/Transformers/TransformerBase.cs:62-101 | The settled outcome of a stage is never pending. The first worker exception wins; failing that, the upstream exception, wrapped; failing that, success. Success happens exactly when no worker threw and the upstream did not fault. |
| Defaults.DefaultThreadCount | Transformerizer/TransformerBase.cs:16-19 | Half the processors, rounded down, when there are more than two, and otherwise 1. It is always at least 1. |
| Defaults.ResolveThreads | Transformerizer/TransformerBase.cs:36-49 | The default overload uses `DefaultThreadCount`, and an explicit count is used as given. An upstream-only overload uses the upstream's `ThreadCount`, and a null upstream throws NullReferenceException. |
| Defaults.ValidateStage | Transformerizer/TransformerBase.cs:53-61 | A null input collection throws ArgumentNullException. A non-null one with fewer than one thread throws ArgumentOutOfRangeException. Otherwise the checks pass. Each holds in both directions. |
| Defaults.StageThreads | Transformerizer/TransformerBase.cs:36-61 | A constructor ends with the overload's thread count exactly when the lookup succeeded and the checks pass, and that count is at least 1. Otherwise it ends with the first exception, the lookup's coming first. |
| Defaults.ResolvedThreadsValid | Transformerizer/Transformers/Transformer.cs:19-38 | The default and upstream-only overloads never trip the thread-count check when the upstream passed its own. |
| Defaults.ConstructorChecksWitness | Transformerizer.Tests.Unit/TransformerBaseTests.cs:36-49 | A null input collection throws ArgumentNullException, even with zero threads. Zero threads otherwise throws ArgumentOutOfRangeException. |
| Stage.TransformerBase.constructor | Transformerizer/Transformers/TransformerBase.cs:46-52 | Stores the upstream stage and the thread count. `PreserveNulls` starts as the upstream's value, or false without an upstream. The stage starts unstarted and pending. |
| Stage.TransformerBase.ExecuteAsync | Transformerizer/Transformers/TransformerBase.cs:119-155 | The first start of an unstarted chain sets the flag, starts the upstream first, and then launches exactly `ThreadCount` workers on every stage. It succeeds exactly when no stage on the chain had started. A start of a started stage throws InvalidOperationException and changes no flag and no launch count anywhere on the chain. Any failed start launches no worker on any stage and clears no start flag. |
| Stage.TransformerBase.WorkerFinished | Transformerizer/Transformers/TransformerBase.cs:67-79 | A worker's exception, if any, is offered to the task. The counter goes up by exactly one, even after an exception. The worker is the last exactly when the counter reaches `ThreadCount`, and only then is `ProcessComplete` run, once. |
| Stage.TransformerBase.SettleTask | Transformerizer/Transformers/TransformerBase.cs:84-100 | The last worker folds in the upstream's wrapped exception and then tries success, so an earlier exception wins. The task ends settled, and the upstream outcome it used is exactly the upstream task's (none without an upstream). |
| Stage.TransformerBase.Process | Transformerizer/Transformers/TransformerBase.cs:62-101 | A worker's finish: the counter goes up by one. An earlier worker only records its exception. The last worker settles the task, never to pending. The outcome is the first worker exception; failing that, the upstream task's exception wrapped in `AggregateException`; otherwise success. |
| Stage.TransformerBase.Dispose | Transformerizer/Transformers/TransformerBase.cs:160-174 | Disposes the upstream stage, which cascades up the whole chain, and nothing else at this level. |
| Transformers.NonNull | Transformerizer/Transformers/TransformerMany.cs:60-63 | The filter keeps no null and every non-null result, and adds nothing. |
| Transformers.NonNullAppend | Transformerizer/Transformers/TransformerMany.cs:62 | Filtering distributes over concatenation, so the relative order is kept. |
| Transformers.NonNullKeepsValues | Transformerizer/Transformers/TransformerMany.cs:60-63 | Results without a null pass the filter unchanged. |
| Transformers.MapIsManyOfOne | Transformerizer/Transformers/Transformer.cs:58-61 | The map stage's contribution is the flat-map contribution of a one-element result. |
| Transformers.MapOutputIsFilteredResults | Transformerizer/Transformers/Transformer.cs:52-62 | A map stage's whole output is every result in input order when nulls are preserved. Otherwise it is exactly the non-null results in input order. |
| Transformers.ManyOutputIsFilteredResults | Transformerizer/Transformers/TransformerMany.cs:54-73 | A flat-map stage's whole output is every result of every item, in item order and within each item in result order. Without preserved nulls it is exactly the non-null ones. |
| Transformers.ProducerStage.Process | Transformerizer/Transformers/TransformerBase.cs:78-100 | Only the worker that brings the counter to `ThreadCount` completes the output queue, before settling the task. Other workers leave the queue alone. The settled outcome is the first exception, else the upstream task's wrapped exception, else success. |
| Transformers.Transformer.constructor | Transformerizer/Transformers/Transformer.cs:43-47 | Stores the transform over a fresh stage with an empty open output queue, inheriting `PreserveNulls`. |
| Transformers.Transformer.Create | Transformerizer/Transformers/Transformer.cs:19-38 | A map stage is built exactly when `StageThreads` succeeds. It then uses the default, the explicit count or the upstream's `ThreadCount` as the overload says. Otherwise the constructor's exception comes back. |
| Transformers.Transformer.ProcessConsume | Transformerizer/Transformers/Transformer.cs:52-62 | Runs the transform exactly once. A non-null result, or a null one when nulls are preserved, is appended exactly once. A dropped null adds nothing. After the output queue is completed, the result is lost. |
| Transformers.TransformerMany.constructor | Transformerizer/Transformers/TransformerMany.cs:45-49 | Stores the transform over a fresh stage with an empty open output queue, inheriting `PreserveNulls`. |
| Transformers.TransformerMany.Create | Transformerizer/Transformers/TransformerMany.cs:21-40 | A flat-map stage is built exactly when `StageThreads` succeeds, with its thread count. Otherwise the constructor's exception comes back. |
| Transformers.TransformerMany.ProcessConsume | Transformerizer/Transformers/TransformerMany.cs:54-73 | Runs the transform exactly once. It appends all results, or only the non-null ones unless nulls are preserved, as one contiguous batch in order. An empty list adds nothing, and nothing is added once the queue is completed. |
| Transformers.TransformerVoid.constructor | Transformerizer/Transformers/TransformerVoid.cs:42-46 | A sink stage over a fresh stage, inheriting `PreserveNulls`. |
| Transformers.TransformerVoid.Create | Transformerizer/Transformers/TransformerVoid.cs:18-37 | A sink stage is built exactly when `StageThreads` succeeds, with its thread count. Otherwise the constructor's exception comes back. |
| Transformers.TransformerVoid.ProcessConsume | Transformerizer/Transformers/TransformerVoid.cs:58-62 | Runs the transform exactly once and produces nothing. |
| Transformers.TransformerVoid.Process | Transformerizer/Transformers/TransformerVoid.cs:51-53 | With the empty `ProcessComplete`, a sink worker's finish only counts and settles. An earlier worker only records its exception. The last worker settles to the first exception, else the upstream task's wrapped exception, else success. |
| Legacy.MapAddsOne | Transformerizer/Transformer.cs:51-55 | An older map stage adds exactly one item per consumed item, the transform's result, with no null filtering. |
| Legacy.WorkSpecLaws | Transformerizer/TransformerBase.cs:143-157 | A worker that finds no failing item takes every item and adds all their outputs in order. When an item throws, the worker stops right after it, having added the outputs of exactly the items before it, and reports that item's exception. |
| Legacy.TransformerBase.constructor | Transformerizer/TransformerBase.cs:51-68 | Stores the input collection, upstream and thread count with an empty, open, undisposed output. The stage starts unstarted and pending. |
| Legacy.TransformerBase.Create | Transformerizer/TransformerBase.cs:36-68 | A stage is built exactly when the overload's thread count resolves and the null-input and thread-count checks pass. Otherwise no stage is built and the first exception comes back. |
| Legacy.TransformerBase.ExecuteAsync | Transformerizer/TransformerBase.cs:106-134 | A first start of an unstarted chain starts the upstream and then queues `ThreadCount` workers on every stage. A start of a started stage throws InvalidOperationException and changes nothing on the chain. Any failed start queues no worker on any stage and clears no start flag. |
| Legacy.TransformerBase.ProcessConsume | Transformerizer/TransformerMany.cs:50-57 | Appends the transform's results one by one, in order: one item for a map stage, every element for a flat-map stage, nulls included. A throwing transform adds nothing and reports its exception. |
| Legacy.TransformerBase.Turn | Transformerizer/TransformerBase.cs:143-156 | One loop turn takes the next input item, if any, and processes it. An exception sets `hasError` and is offered to the task. |
| Legacy.TransformerBase.Work | Transformerizer/TransformerBase.cs:141-157 | A worker that finds `hasError` set takes nothing. Otherwise it consumes and produces exactly what `WorkSpec` of the remaining input says, and `hasError` ends set exactly when an exception was caught, which is offered to the task. |
| Legacy.TransformerBase.Finish | Transformerizer/TransformerBase.cs:159-182 | The counter goes up by one. Only the worker that reaches `ThreadCount` completes the output, even after an error. It then folds in the upstream task's outcome, wrapped, and tries success, so the first exception is never overwritten. The recorded exceptions are left alone. |
| Legacy.TransformerBase.Process | Transformerizer/TransformerBase.cs:136-183 | One worker's loop followed by its finish. The output is completed exactly by the last worker. The loop's error, if any, is recorded after the earlier ones. The last worker settles the task to the first recorded exception, else the upstream task's wrapped exception, else success. |
| Legacy.TransformerBase.Dispose | Transformerizer/TransformerBase.cs:81-104 | Always disposes the output collection. It then disposes the upstream stage if there is one, otherwise the input collection, never both. The cascade disposes every output on the chain and the head's input. No other input collection on the chain is touched. |
| Statistics.Minimum | Transformerizer/Statistics/TransformerStatistics.cs:155 | The LINQ `Min` of a non-empty sequence is one of its elements and no greater than any of them. |
| Statistics.Maximum | Transformerizer/Statistics/TransformerStatistics.cs:156 | The LINQ `Max` of a non-empty sequence is one of its elements and no less than any of them. |
| Statistics.SumShift | Transformerizer/Statistics/TransformerStatistics.cs:176-177 | Lowering every buffer wait by the earliest first-transform time lowers their sum by that amount times the thread count. |
| Statistics.Quot | Transformerizer/Statistics/TransformerStatistics.cs:174 | C#'s integer division: the magnitude is the quotient of the magnitudes, and a non-zero result has the sign of the operands' product, so it truncates toward zero. |
| Statistics.TruncatedMean | Transformerizer/Statistics/TransformerStatistics.cs:157 | `(long)` of an `Average`: the mean truncated toward zero. `MeanBetween` proves it lies between the minimum and the maximum. |
| Statistics.MeanBetween | Transformerizer/Statistics/TransformerStatistics.cs:155-157 | The mean, truncated toward zero to a whole tick, lies between the minimum and the maximum. |
| Statistics.Summarize | Transformerizer/Statistics/TransformerStatistics.cs:154-172 | For each duration: Total is the sum of the ticks. Min and Max are ticks that bound every sample. Avg is the truncated mean, and Min <= Avg <= Max. |
| Statistics.Snapshot | Transformerizer/Statistics/TransformerStatistics.cs:143-177 | The upstream statistics and the samples are stored unchanged. `ThreadCount` is the number of samples. The count total is the sum, and the count average is the exact mean. The four duration metrics obey `Summarize`'s laws. The idle average is the truncated mean of buffer wait minus the earliest first-transform time. |
| Statistics.AggregateAsWritten | Transformerizer/Statistics/TransformerStatistics.cs:140-178 | The constructor as written. No samples throws InvalidOperationException, and a zero transform total throws DivideByZeroException. Otherwise the result holds all of `Snapshot`'s laws, with the count "minimum" set to the largest count and the "maximum" to the smallest. |
| Statistics.Aggregate | Transformerizer/Statistics/TransformerStatistics.cs:140-178 | The constructor as intended. It succeeds on every non-empty sample set. The count minimum and maximum are counts that bound every sample. The per-transform average is the truncated total transforming time over the total count, or zero when nothing was transformed. |
| Statistics.AsWrittenSwapsCountBounds | Transformerizer/Statistics/TransformerStatistics.cs:150-151 | Whenever the constructor as written succeeds, its result is the intended one with the two count bounds exchanged, so its minimum is never below its maximum. |
| Statistics.SwappedCountBoundsWitness | Transformerizer/Statistics/TransformerStatistics.cs:150-151 | Workers with counts 1 and 2 get minimum 2 and maximum 1 as written, and 1 and 2 as intended. |
| Statistics.ZeroTransformsWitness | Transformerizer.Tests.Unit/Statistics/TransformerStatisticsTests.cs:12-20 | One all-zero worker record makes the constructor as written throw DivideByZeroException. The intended one succeeds with a zero per-transform average. |

## Left out

- Real concurrency is not modelled: threads, the thread pool, `SemaphoreSlim`,
  `ManualResetEvent`, `volatile`, `Interlocked.Increment` and `lock`. Every
  worker step and every queue call is one atomic call, so interleavings inside a
  call are not modelled.
- Queue.TakeSpec: a negative `count` on a non-empty queue throws from the array
  allocation while the take holds the queue's semaphore, and nothing releases
  it. In the source every later call on that queue then blocks forever. In the
  model the queue is left unchanged and usable, so `RunConserves` and
  `RunAfterComplete` also cover histories that continue after such a take. No
  stage passes a negative count.
- Queue.BlockingQueue.TryTake: the same semaphore leak on a negative `count`.
- The blocking wait in the queue's `TryTake` is the `WouldBlock` outcome, which
  changes nothing. Calling again after an add or a completion stands for the
  woken retry.
- Stage.TransformerBase.SettleTask: the upstream `Task.Wait()` blocks until the
  upstream task has finished. That becomes a precondition that the upstream task
  is not pending, and `Process`, `ProducerStage.Process`, `TransformerVoid.Process`
  and `Legacy.TransformerBase.Finish` carry the same precondition for the last
  worker.
- Stage.TransformerBase.Process: the worker's own `Process()` body in the
  one- and two-parameter generic `TransformerBase` classes is not part of this
  model. That covers the batch-size heuristic, the `Consume` reading loop and the
  per-thread timing, and so the `ThreadStatistics` values are inputs. A transform
  exception reaches the rendezvous as the `fault` parameter. The two-parameter
  class's `ProcessComplete` (complete the output queue) is modelled in
  `ProducerStage`. Its `Dispose(bool)` disposes the output only when the queue is
  `IDisposable`, which `BlockingQueue` is not, so it does nothing and is not
  modelled. The one-parameter class's `Dispose(bool)` of the input collection is
  not modelled.
- Legacy.TransformerBase.ProcessConsume: a transform's flat-map result is taken
  as a whole list or an exception. A lazily enumerated result that throws
  part-way, after some of its elements were added, is not modelled.
- Legacy: every stage of an older chain carries one item type `T`, because the
  model has no existential upstream type. Each stage's input is an
  `EnumerableProducerConsumer`, and a stage fed from its upstream's output is
  not modelled.
- Legacy: the output `BlockingProducerConsumer` is a thin wrapper over the
  framework's `BlockingCollection`, whose code is not part of this model. It is
  modelled as the sequence of added items plus its completed and disposed flags.
- Legacy: stages of one chain may not share an input collection. This aliasing
  restriction keeps the frames of the chain separate.
- Transformers.Transformer.Create: requires that the default-thread overload has
  no upstream stage, because no such overload exists. The input collection
  appears only as null or not null, since the newer reading loop is not
  modelled.
- Transformers.TransformerMany.Create: the same overload restriction and the
  same treatment of the input collection.
- Transformers.TransformerVoid.Create: the same overload restriction and the
  same treatment of the input collection.
- Legacy.TransformerBase.Create: the same overload restriction.
- ProducerConsumer.EnumerableProducerConsumer.TryTake: at the end of the source
  the out value is `default(T)`, which the model leaves unspecified. The
  `SyncRoot` getter and the non-generic `GetEnumerator` both throw
  NotImplementedException like the members modelled, and are not repeated.
- QueueRead.BlockingQueueRead.GetEnumerator returns the whole source sequence.
  A source whose enumeration differs each time, or an infinite source, is not
  modelled, since sources are finite sequences.
- Transformers.TransformerVoid.ProcessConsume: the delegate's side effect is
  invisible to the library. The model records only that the transform ran with
  the item.
- Statistics: `TransformCountAvg` is a `double`. It is modelled as the exact
  `real` mean. Tick averages pass through `double` before the `(long)` cast, and
  are modelled as the exact mean truncated toward zero, so rounding of large
  tick sums is not modelled.
- Integer overflow is not modelled: 32-bit counters and 64-bit tick sums are
  unbounded integers.
- Finalizers and `GC.SuppressFinalize` are not modelled; neither is
  `Dispose(false)`, which does the same as `Dispose(true)` at these levels.
- Task and continuation plumbing, the end-of-chain extension helpers and
  `CastOrWrap` are not part of this model. Neither are the timing code, the
  delegate declarations and `TransformationException`.

## Findings

| source | as written | input that shows it | evidently intended | confidence | as-written member | corrected member |
|---|---|---|---|---|---|---|
| Transformerizer/Statistics/TransformerStatistics.cs:150-151 | `TransformCountMin` is the `Max` of the counts and `TransformCountMax` the `Min` | two workers with transform counts 1 and 2 give minimum 2 and maximum 1 | minimum 1, maximum 2 | high; not executed | Statistics.AggregateAsWritten (witness Statistics.SwappedCountBoundsWitness, law Statistics.AsWrittenSwapsCountBounds) | Statistics.Aggregate |
| Transformerizer/Statistics/TransformerStatistics.cs:174 | the per-transform average divides the transforming ticks by the total transform count, which can be zero | one all-zero worker record, the case of Transformerizer.Tests.Unit/Statistics/TransformerStatisticsTests.cs:12-20, throws DivideByZeroException | construction succeeds. The test expects that. The per-transform average is then zero. | high; not executed | Statistics.AggregateAsWritten (witness Statistics.ZeroTransformsWitness) | Statistics.Aggregate |
