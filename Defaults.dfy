/** Thread-count defaults and constructor argument checks shared by both stage
    generations. `Environment.ProcessorCount` is a parameter. */
module Defaults {
  import opened Errors

  /** `DefaultThreadCount`: half the processors when there are more than two,
      otherwise one worker. */
  function DefaultThreadCount(processorCount: int): (n: int)
    ensures n >= 1
    ensures processorCount > 2 ==> 2 * n <= processorCount < 2 * n + 2
    ensures processorCount <= 2 ==> n == 1
  {
    if processorCount > 2 then processorCount / 2 else 1
  }

  /** How many workers a start loop `for (i = 0; i < ThreadCount; ++i)` launches. */
  function Launches(threadCount: int): nat
  {
    if threadCount > 0 then threadCount else 0
  }

  /** Which constructor overload built a stage: without an upstream stage and without
      a thread count, with an explicit thread count (with or without an upstream), or
      with an upstream stage and no thread count. */
  datatype ThreadsArg = DefaultThreads | Explicit(threads: int) | FromDependent

  /** The thread count each overload forwards to the full constructor.
      `dependentThreads` is the upstream stage's `ThreadCount`, or None when the
      upstream argument is null; the upstream-only overloads read that property before
      the base constructor runs, so a null upstream there throws
      NullReferenceException. */
  function ResolveThreads(arg: ThreadsArg, dependentThreads: Option<int>, processorCount: int)
    : (r: Result<int>)
    ensures arg.DefaultThreads? ==> r == Success(DefaultThreadCount(processorCount))
    ensures arg.Explicit? ==> r == Success(arg.threads)
    ensures arg.FromDependent? ==>
              (r.Success? <==> dependentThreads.Some?)
              && (r.Success? ==> r.value == dependentThreads.value)
              && (r.Failure? ==> r.error == NullReference)
  {
    match arg
    case DefaultThreads => Success(DefaultThreadCount(processorCount))
    case Explicit(n) => Success(n)
    case FromDependent =>
      match dependentThreads
      case None => Failure(NullReference)
      case Some(n) => Success(n)
  }

  /** The constructor checks: a null input collection is refused first, then a thread
      count below one. */
  function ValidateStage(consumeIsNull: bool, threads: int): (r: Outcome)
    ensures r == Fail(ArgumentNull) <==> consumeIsNull
    ensures r == Fail(ArgumentOutOfRange) <==> !consumeIsNull && threads < 1
    ensures r == Pass <==> !consumeIsNull && threads >= 1
  {
    if consumeIsNull then Fail(ArgumentNull)
    else if threads < 1 then Fail(ArgumentOutOfRange)
    else Pass
  }

  /** What a public constructor ends with: the overload's thread count, if the
      upstream lookup succeeded and the base constructor's checks pass; otherwise the
      first exception, the lookup's NullReferenceException coming before the checks. */
  function StageThreads(consumeIsNull: bool, arg: ThreadsArg, dependentThreads: Option<int>,
                        processorCount: int): (r: Result<int>)
    ensures var t := ResolveThreads(arg, dependentThreads, processorCount);
            && (t.Failure? ==> r == t)
            && (t.Success? ==>
                  (r.Success? <==> ValidateStage(consumeIsNull, t.value) == Pass)
                  && (r.Success? ==> r.value == t.value)
                  && (r.Failure? ==> r.error == ValidateStage(consumeIsNull, t.value).error))
    ensures r.Success? ==> r.value >= 1
    ensures r.Failure? ==> r.error in {NullReference, ArgumentNull, ArgumentOutOfRange}
  {
    var t := ResolveThreads(arg, dependentThreads, processorCount);
    if t.Failure? then t
    else
      match ValidateStage(consumeIsNull, t.value)
      case Fail(e) => Failure(e)
      case Pass => t
  }

  /** The overloads that pick the count themselves never trip the thread-count check:
      the default is at least one, and an upstream that passed its own checks passes
      its count on unchanged. */
  lemma ResolvedThreadsValid(arg: ThreadsArg, dependentThreads: Option<int>, processorCount: int)
    requires !arg.Explicit?
    requires dependentThreads.Some? ==> dependentThreads.value >= 1
    requires arg.FromDependent? ==> dependentThreads.Some?
    ensures StageThreads(false, arg, dependentThreads, processorCount).Success?
  {
  }

  /** A null input collection is reported before a bad thread count, and a thread
      count of zero is refused. */
  lemma ConstructorChecksWitness(processorCount: int)
    ensures StageThreads(true, Explicit(1), None, processorCount) == Failure(ArgumentNull)
    ensures StageThreads(true, Explicit(0), None, processorCount) == Failure(ArgumentNull)
    ensures StageThreads(false, Explicit(0), None, processorCount) == Failure(ArgumentOutOfRange)
    ensures StageThreads(false, FromDependent, None, processorCount) == Failure(NullReference)
  {
  }
}
