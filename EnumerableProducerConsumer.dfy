/** `EnumerableProducerConsumer<T>`: a forward-only, take-only producer/consumer
    collection over an enumerable source, modelled as a finite sequence and a cursor.
    Every member other than `TryTake` and `Dispose` always throws
    NotImplementedException. */
module ProducerConsumer {
  import opened Errors

  class EnumerableProducerConsumer<T(0)> {
    /** The wrapped enumerable. */
    const source: seq<T>
    /** How many items `_sourceEnumerator` has yielded. */
    var cursor: nat
    /** Whether `Dispose()` has disposed the enumerator. */
    var disposed: bool
    /** The items handed out by successful takes, in the order they were handed out. */
    ghost var taken: seq<T>

    /** The successful takes so far are exactly the source's first `cursor` items. */
    ghost predicate Valid()
      reads this
    {
      cursor <= |source| && taken == source[..cursor]
    }

    constructor (source: seq<T>)
      ensures Valid()
      ensures this.source == source && cursor == 0 && taken == [] && !disposed
    {
      this.source := source;
      cursor := 0;
      disposed := false;
      taken := [];
    }

    /** `TryTake(out item)`: hands out the next source item and advances by exactly
        one, or returns false at the end of the source (the out value is then
        `default(T)`, which this model leaves unspecified). */
    method TryTake() returns (ok: bool, item: T)
      requires Valid()
      modifies this
      ensures Valid()
      ensures disposed == old(disposed)
      ensures ok <==> old(cursor) < |source|
      ensures ok ==> item == source[old(cursor)] && cursor == old(cursor) + 1
                     && taken == old(taken) + [item]
      ensures !ok ==> cursor == old(cursor) && taken == old(taken)
    {
      if cursor < |source| {
        item := source[cursor];
        assert source[..cursor + 1] == source[..cursor] + [item];
        cursor := cursor + 1;
        taken := taken + [item];
        ok := true;
      } else {
        ok, item := false, *;
      }
    }

    /** `Dispose()`: disposes the source enumerator and nothing else. */
    method Dispose()
      modifies this`disposed
      ensures disposed
    {
      disposed := true;
    }

    /** `TryAdd(item)`: always throws; the source is never changed. */
    method TryAdd(item: T) returns (r: Result<bool>)
      ensures r == Failure(NotImplemented)
    {
      r := Failure(NotImplemented);
    }

    /** The `Count` getter: always throws. */
    method Count() returns (r: Result<int>)
      ensures r == Failure(NotImplemented)
    {
      r := Failure(NotImplemented);
    }

    /** The `IsSynchronized` getter: always throws. */
    method IsSynchronized() returns (r: Result<bool>)
      ensures r == Failure(NotImplemented)
    {
      r := Failure(NotImplemented);
    }

    /** `ToArray()`: always throws. */
    method ToArray() returns (r: Result<seq<T>>)
      ensures r == Failure(NotImplemented)
    {
      r := Failure(NotImplemented);
    }

    /** Both `CopyTo(array, index)` overloads: always throw, leaving the array alone. */
    method CopyTo(target: array<T>, index: int) returns (r: Outcome)
      ensures r == Fail(NotImplemented)
    {
      r := Fail(NotImplemented);
    }

    /** Both `GetEnumerator()` overloads: always throw. */
    method GetEnumerator() returns (r: Result<seq<T>>)
      ensures r == Failure(NotImplemented)
    {
      r := Failure(NotImplemented);
    }
  }
}
