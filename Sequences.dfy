/** Sequence helpers shared by the queue and reader models. */
module Sequences {

  /** The concatenation, in order, of a sequence of batches. */
  function Flatten<T>(batches: seq<seq<T>>): seq<T>
  {
    if batches == [] then [] else batches[0] + Flatten(batches[1..])
  }

  function Min(a: int, b: int): int
  {
    if a <= b then a else b
  }

  /** Flattening distributes over concatenation of the batch sequences. */
  lemma {:induction false} FlattenAppend<T>(a: seq<seq<T>>, b: seq<seq<T>>)
    ensures Flatten(a + b) == Flatten(a) + Flatten(b)
  {
    if a == [] {
      assert a + b == b;
    } else {
      assert (a + b)[1..] == a[1..] + b;
      FlattenAppend(a[1..], b);
    }
  }

  /** Appending one batch appends its items at the end of the flattened sequence. */
  lemma FlattenSnoc<T>(a: seq<seq<T>>, batch: seq<T>)
    ensures Flatten(a + [batch]) == Flatten(a) + batch
  {
    FlattenAppend(a, [batch]);
    assert Flatten([batch]) == batch + Flatten([]);
  }
}
