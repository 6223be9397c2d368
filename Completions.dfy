/** The completion source a stage hands back from `ExecuteAsync`: it starts pending
    and is settled once, by the first `TrySetException` or `TrySetResult`; later
    attempts are ignored. Both stage generations record faults and settle the same
    way, and this module states that rule once. */
module Completions {
  import opened Errors

  datatype Completion = Pending | Faulted(error: Exception) | Succeeded

  function TrySetException(c: Completion, e: Exception): (r: Completion)
    ensures c.Pending? ==> r == Faulted(e)
    ensures !c.Pending? ==> r == c
  {
    if c.Pending? then Faulted(e) else c
  }

  function TrySetResult(c: Completion): (r: Completion)
    ensures c.Pending? ==> r == Succeeded
    ensures !c.Pending? ==> r == c
  {
    if c.Pending? then Succeeded else c
  }

  /** A worker's fault, if it had one, offered to the completion source. */
  function Record(c: Completion, fault: Option<Exception>): (r: Completion)
    ensures !c.Pending? || fault.None? ==> r == c
    ensures c.Pending? && fault.Some? ==> r == Faulted(fault.value)
  {
    match fault
    case None => c
    case Some(e) => TrySetException(c, e)
  }

  /** Every worker's fault offered in the order the workers finished. */
  function RecordAll(c: Completion, faults: seq<Option<Exception>>): Completion
    decreases |faults|
  {
    if faults == [] then c else RecordAll(Record(c, faults[0]), faults[1..])
  }

  /** The first worker fault in finishing order: the reference the recording is
      compared with. */
  function FirstFault(faults: seq<Option<Exception>>): (r: Option<Exception>)
    ensures r.Some? <==> exists i :: 0 <= i < |faults| && faults[i].Some?
    ensures r.Some? ==> exists i :: 0 <= i < |faults| && faults[i] == r
                                     && forall j :: 0 <= j < i ==> faults[j].None?
    decreases |faults|
  {
    if faults == [] then None
    else if faults[0].Some? then faults[0]
    else
      var r := FirstFault(faults[1..]);
      assert forall i :: 1 <= i < |faults| ==> faults[i] == faults[1..][i - 1];
      r
  }

  /** `Task.Wait()` on the upstream stage's task throws an AggregateException around
      the upstream's fault, and returns normally once it succeeded. */
  function UpstreamFault(upstream: Completion): (r: Option<Exception>)
    ensures r.Some? <==> upstream.Faulted?
    ensures r.Some? ==> r.value == Aggregate(upstream.error)
  {
    match upstream
    case Faulted(e) => Some(Aggregate(e))
    case _ => None
  }

  /** What the last worker does once the counter reaches the thread count: folds in
      the upstream fault, if there is an upstream stage, and then tries success. */
  function Settle(c: Completion, upstream: Option<Completion>): (r: Completion)
    ensures !r.Pending?
    ensures !c.Pending? ==> r == c
  {
    var withUpstream := match upstream
      case None => c
      case Some(u) => Record(c, UpstreamFault(u));
    TrySetResult(withUpstream)
  }

  /** A settled source stays settled: no later attempt changes it. */
  lemma {:induction false} SettledIsFinal(c: Completion, faults: seq<Option<Exception>>)
    requires !c.Pending?
    ensures RecordAll(c, faults) == c
    decreases |faults|
  {
    if faults != [] {
      SettledIsFinal(Record(c, faults[0]), faults[1..]);
    }
  }

  /** Offering the faults in finishing order leaves the first of them in place. */
  lemma {:induction false} RecordAllKeepsFirst(faults: seq<Option<Exception>>)
    ensures RecordAll(Pending, faults)
              == match FirstFault(faults) case None => Pending case Some(e) => Faulted(e)
    decreases |faults|
  {
    if faults != [] {
      if faults[0].Some? {
        SettledIsFinal(Faulted(faults[0].value), faults[1..]);
      } else {
        RecordAllKeepsFirst(faults[1..]);
      }
    }
  }

  /** Recording one more fault extends the history at its end. */
  lemma {:induction false} RecordAllSnoc(c: Completion, faults: seq<Option<Exception>>, f: Option<Exception>)
    ensures RecordAll(c, faults + [f]) == Record(RecordAll(c, faults), f)
    decreases |faults|
  {
    if faults == [] {
      assert faults + [f] == [f];
    } else {
      assert (faults + [f])[1..] == faults[1..] + [f];
      RecordAllSnoc(Record(c, faults[0]), faults[1..], f);
    }
  }

  /** The outcome of a whole stage run: the first worker fault wins; failing that, the
      upstream's fault (wrapped); failing that, success. It is never left pending. */
  lemma StageOutcome(faults: seq<Option<Exception>>, upstream: Option<Completion>)
    ensures var r := Settle(RecordAll(Pending, faults), upstream);
            && !r.Pending?
            && (FirstFault(faults).Some? ==> r == Faulted(FirstFault(faults).value))
            && (FirstFault(faults).None? && upstream.Some? && upstream.value.Faulted? ==>
                  r == Faulted(Aggregate(upstream.value.error)))
            && (r == Succeeded <==>
                  FirstFault(faults).None? && (upstream.None? || !upstream.value.Faulted?))
  {
    RecordAllKeepsFirst(faults);
  }
}
