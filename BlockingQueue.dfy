/** The blocking hand-off queue used between stages: a FIFO buffer plus a one-way
    "adding completed" flag. `Transformerizer/Collections/BlockingQueue.cs` and the older
    `Transformerizer/BlockingQueue.cs` have identical bodies; the older one also exposes
    `HasCount`. Both are modelled by the class `BlockingQueue` below.

    The lock and the "added" event only serialise calls and wake a waiting taker; every
    call here is one atomic step. A take that would wait for an add returns `WouldBlock`
    and changes nothing, so calling it again after an add or a completion is the same
    as the source's woken retry. */
module Queue {
  import opened Errors
  import opened Sequences

  /** How a `TryTake` call ends. */
  datatype TakeStatus =
    | Took                      // returned true with the removed items
    | NoItems                   // returned false, items set to null
    | WouldBlock                // the source waits here for an add or a completion
    | Threw(error: Exception)   // the call raised an exception

  /** The abstract state of a queue: its buffer, front first, and the completion flag. */
  datatype QueueState<T> = QueueState(buf: seq<T>, completed: bool)

  datatype AddResult<T> = AddResult(ok: bool, after: QueueState<T>)

  datatype TakeResult<T> = TakeResult(status: TakeStatus, items: seq<T>, after: QueueState<T>)

  /** `TryAdd(items)`: refused once the queue is completed, otherwise appends the
      whole batch at the back in its own order. */
  function AddSpec<T>(q: QueueState<T>, items: seq<T>): (r: AddResult<T>)
    ensures r.ok <==> !q.completed
    ensures r.after.completed == q.completed
    ensures !r.ok ==> r.after == q
    ensures r.ok ==> |r.after.buf| == |q.buf| + |items| && r.after.buf[..|q.buf|] == q.buf
                     && r.after.buf[|q.buf|..] == items
  {
    if q.completed then AddResult(false, q) else AddResult(true, QueueState(q.buf + items, false))
  }

  /** `TryTake(count)`: on a non-empty buffer removes the first min(count, |buf|) items
      and succeeds, never waiting to fill `count`; an empty completed queue refuses;
      an empty open queue waits. A negative count on a non-empty buffer makes the
      array allocation `new T[count]` throw. */
  function TakeSpec<T>(q: QueueState<T>, count: int): (r: TakeResult<T>)
    ensures r.after.completed == q.completed
    ensures r.status.Took? <==> |q.buf| > 0 && count >= 0
    ensures r.status == NoItems <==> |q.buf| == 0 && q.completed
    ensures r.status == WouldBlock <==> |q.buf| == 0 && !q.completed
    ensures !r.status.Took? ==> r.items == [] && r.after == q
    ensures r.status.Threw? ==> r.status.error == Overflow
    ensures r.status.Took? ==>
              |r.items| == Min(count, |q.buf|) && r.items + r.after.buf == q.buf
    ensures r.status.Took? && count > 0 ==> |r.items| > 0
  {
    if |q.buf| == 0 then
      TakeResult(if q.completed then NoItems else WouldBlock, [], q)
    else
      var n := Min(count, |q.buf|);
      if n < 0 then TakeResult(Threw(Overflow), [], q)
      else TakeResult(Took, q.buf[..n], QueueState(q.buf[n..], q.completed))
  }

  /** `CompleteAdding()`: sets the flag and leaves the buffer alone. */
  function CompleteSpec<T>(q: QueueState<T>): (r: QueueState<T>)
    ensures r.completed && r.buf == q.buf
  {
    QueueState(q.buf, true)
  }

  /** Completing is idempotent and never clears the flag. */
  lemma CompleteIdempotent<T>(q: QueueState<T>)
    ensures CompleteSpec(CompleteSpec(q)) == CompleteSpec(q)
    ensures CompleteSpec(q).completed && CompleteSpec(q).buf == q.buf
  {
  }

  /** One call on the queue, for reasoning about whole histories. */
  datatype Op<T> = AddOp(items: seq<T>) | TakeOp(count: int) | CompleteOp

  /** What a history did: the final state, every item taken (in the order the takes
      returned them), and every item accepted by a successful add (in add order). */
  datatype Trace<T> = Trace(final: QueueState<T>, taken: seq<T>, accepted: seq<T>)

  function Step<T>(q: QueueState<T>, op: Op<T>): Trace<T>
  {
    match op
    case AddOp(items) =>
      var r := AddSpec(q, items);
      Trace(r.after, [], if r.ok then items else [])
    case TakeOp(count) =>
      var r := TakeSpec(q, count);
      Trace(r.after, r.items, [])
    case CompleteOp => Trace(CompleteSpec(q), [], [])
  }

  function Run<T>(q: QueueState<T>, ops: seq<Op<T>>): Trace<T>
    decreases |ops|
  {
    if ops == [] then Trace(q, [], [])
    else
      var first := Step(q, ops[0]);
      var rest := Run(first.final, ops[1..]);
      Trace(rest.final, first.taken + rest.taken, first.accepted + rest.accepted)
  }

  /** A single call loses, duplicates and reorders nothing. */
  lemma StepConserves<T>(q: QueueState<T>, op: Op<T>)
    ensures Step(q, op).taken + Step(q, op).final.buf == q.buf + Step(q, op).accepted
  {
  }

  /** FIFO and lossless over any history: what was taken, followed by what is still
      buffered, is exactly the initial buffer followed by everything accepted. */
  lemma {:induction false} RunConserves<T>(q: QueueState<T>, ops: seq<Op<T>>)
    ensures Run(q, ops).taken + Run(q, ops).final.buf == q.buf + Run(q, ops).accepted
    decreases |ops|
  {
    if ops != [] {
      var first := Step(q, ops[0]);
      var rest := Run(first.final, ops[1..]);
      StepConserves(q, ops[0]);
      RunConserves(first.final, ops[1..]);
      ConcatShuffle(first.taken, rest.taken, first.final.buf, rest.final.buf,
                    q.buf, first.accepted, rest.accepted);
    }
  }

  lemma ConcatShuffle<T>(t1: seq<T>, t2: seq<T>, b1: seq<T>, b2: seq<T>,
                         b0: seq<T>, a1: seq<T>, a2: seq<T>)
    requires t2 + b2 == b1 + a2 && t1 + b1 == b0 + a1
    ensures (t1 + t2) + b2 == b0 + (a1 + a2)
  {
    calc {
      (t1 + t2) + b2;
      t1 + (t2 + b2);
      t1 + (b1 + a2);
      (t1 + b1) + a2;
      (b0 + a1) + a2;
    }
  }

  /** Completion is one-way: once completed, a queue stays completed and accepts nothing. */
  lemma {:induction false} RunAfterComplete<T>(q: QueueState<T>, ops: seq<Op<T>>)
    requires q.completed
    ensures Run(q, ops).final.completed
    ensures Run(q, ops).accepted == []
    decreases |ops|
  {
    if ops != [] {
      RunAfterComplete(Step(q, ops[0]).final, ops[1..]);
    }
  }

  /** Taking batches of at most `count` from a completed queue until a take fails. */
  function DrainCompleted<T>(q: QueueState<T>, count: int): seq<seq<T>>
    requires q.completed && count >= 1
    decreases |q.buf|
  {
    var r := TakeSpec(q, count);
    if r.status == Took then [r.items] + DrainCompleted(r.after, count) else []
  }

  /** Everything buffered before completion comes out, in order, in non-empty batches
      of at most `count` items, and the take after the last batch returns false. */
  lemma {:induction false} DrainReturnsAll<T>(q: QueueState<T>, count: int)
    requires q.completed && count >= 1
    ensures Flatten(DrainCompleted(q, count)) == q.buf
    ensures forall i :: 0 <= i < |DrainCompleted(q, count)| ==>
              0 < |DrainCompleted(q, count)[i]| <= count
    decreases |q.buf|
  {
    var r := TakeSpec(q, count);
    if r.status == Took {
      DrainReturnsAll(r.after, count);
      var rest := DrainCompleted(r.after, count);
      assert DrainCompleted(q, count) == [r.items] + rest;
      assert ([r.items] + rest)[1..] == rest;
    }
  }

  class BlockingQueue<T(0)> {
    /** The backing `Queue<T>`, front first. */
    var buf: seq<T>
    /** `_completeAdding`: once true, adds are refused. */
    var completed: bool

    constructor ()
      ensures buf == [] && !completed
    {
      buf := [];
      completed := false;
    }

    function State(): QueueState<T>
      reads this
    {
      QueueState(buf, completed)
    }

    /** `Count`: the number of buffered items. */
    method Count() returns (n: int)
      ensures n == |buf|
    {
      n := |buf|;
    }

    /** `HasCount` of the older queue: it can always report a count. */
    method HasCount() returns (b: bool)
      ensures b
    {
      b := true;
    }

    method CompleteAdding()
      modifies this
      ensures completed
      ensures buf == old(buf)
      ensures State() == CompleteSpec(old(State()))
    {
      completed := true;
    }

    /** `TryAdd(IEnumerable<T>)`: the items are enqueued one at a time, in order. */
    method TryAddAll(items: seq<T>) returns (ok: bool)
      modifies this
      ensures ok == !old(completed)
      ensures completed == old(completed)
      ensures buf == if ok then old(buf) + items else old(buf)
      ensures AddSpec(old(State()), items) == AddResult(ok, State())
    {
      if completed {
        return false;
      }
      var i := 0;
      while i < |items|
        invariant 0 <= i <= |items|
        invariant buf == old(buf) + items[..i]
        invariant completed == old(completed)
      {
        buf := buf + [items[i]];
        i := i + 1;
      }
      assert items[..i] == items;
      ok := true;
    }

    /** `TryAdd(T)`: the same as adding the one-element batch. */
    method TryAdd(item: T) returns (ok: bool)
      modifies this
      ensures ok == !old(completed)
      ensures completed == old(completed)
      ensures buf == if ok then old(buf) + [item] else old(buf)
      ensures AddSpec(old(State()), [item]) == AddResult(ok, State())
    {
      ok := TryAddAll([item]);
    }

    /** `TryTake(count, out items)`: items are dequeued one at a time into a fresh
        array of exactly the number taken. */
    method TryTake(count: int) returns (status: TakeStatus, items: array?<T>)
      modifies this
      ensures var r := TakeSpec(old(State()), count);
              status == r.status && State() == r.after
              && (status == Took <==> items != null)
              && (items != null ==> fresh(items) && items[..] == r.items)
    {
      if |buf| == 0 {
        if completed {
          return NoItems, null;
        }
        return WouldBlock, null;
      }
      var n := Min(count, |buf|);
      if n < 0 {
        return Threw(Overflow), null;
      }
      items := new T[n];
      ghost var before := buf;
      for i := 0 to n
        invariant buf == before[i..] && completed == old(completed)
        invariant items[..i] == before[..i]
      {
        items[i] := buf[0];
        buf := buf[1..];
      }
      assert items[..] == items[..n];
      assert buf == before[n..];
      status := Took;
    }
  }
}
