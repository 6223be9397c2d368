/** `BlockingQueueRead<T>`: a forward-only reader over an enumerable source, taking
    batches of up to `count` items. The enumerable is modelled as a finite sequence and
    the enumerator as a cursor into it; `MoveNext()` succeeds exactly when the cursor
    is before the end. The lock only serialises takes; each take is one atomic step. */
module QueueRead {
  import opened Errors
  import opened Sequences
  import opened Queue

  class BlockingQueueRead<T(0)> {
    /** `_source`, the wrapped enumerable. */
    const source: seq<T>
    /** How many items `_enumerator` has yielded so far. */
    var cursor: nat
    /** The batches returned by the successful takes so far, oldest first. */
    ghost var batches: seq<seq<T>>

    /** The takes partition a prefix of the source: together they are exactly the
        items read so far, in source order, and none of them is empty. */
    ghost predicate Valid()
      reads this
    {
      && cursor <= |source|
      && Flatten(batches) == source[..cursor]
      && forall i :: 0 <= i < |batches| ==> batches[i] != []
    }

    constructor (source: seq<T>)
      ensures Valid()
      ensures this.source == source && cursor == 0 && batches == []
    {
      this.source := source;
      cursor := 0;
      batches := [];
    }

    /** `TryTake(count, out items)`: reads the next min(count, remaining) items. The
        bound test comes before `MoveNext()`, so nothing is read once `count` items
        are in hand. Reading nothing (also for `count == 0`) returns false with null
        items; a short read hands back an array resized to the number read. A negative
        `count` makes `new T[count]` throw before anything is read. */
    method TryTake(count: int) returns (status: TakeStatus, items: array?<T>)
      requires Valid()
      modifies this
      ensures Valid()
      ensures count < 0 ==>
                status == Threw(Overflow) && items == null
                && cursor == old(cursor) && batches == old(batches)
      ensures count >= 0 ==>
                var k := Min(count, |source| - old(cursor));
                && cursor == old(cursor) + k
                && (status == Took <==> k > 0)
                && (k == 0 ==> status == NoItems && items == null && batches == old(batches))
                && (k > 0 ==> items != null && fresh(items)
                              && items[..] == source[old(cursor)..cursor]
                              && batches == old(batches) + [items[..]])
    {
      if count < 0 {
        return Threw(Overflow), null;
      }
      var any := false;
      var buffer := new T[count];
      var n := 0;
      while n < buffer.Length && cursor < |source|
        invariant 0 <= n <= buffer.Length
        invariant cursor == old(cursor) + n <= |source|
        invariant any <==> n > 0
        invariant buffer[..n] == source[old(cursor)..cursor]
        invariant batches == old(batches)
      {
        any := true;
        buffer[n] := source[cursor];
        cursor := cursor + 1;
        n := n + 1;
      }
      if !any {
        return NoItems, null;
      }
      if n != buffer.Length {
        // Array.Resize: a fresh array holding the first n items
        items := new T[n](i requires 0 <= i < buffer.Length reads buffer => buffer[i]);
        assert items[..] == buffer[..n];
      } else {
        items := buffer;
        assert items[..] == buffer[..n];
      }
      FlattenSnoc(batches, items[..]);
      assert source[..old(cursor)] + source[old(cursor)..cursor] == source[..cursor];
      batches := batches + [items[..]];
      status := Took;
    }

    /** `GetEnumerator()`: a fresh enumeration of the whole source, whatever has been
        taken: the items already handed out followed by those not yet read. */
    method GetEnumerator() returns (all: seq<T>)
      requires Valid()
      ensures all == source
      ensures all == Flatten(batches) + source[cursor..]
    {
      all := source;
      assert source == source[..cursor] + source[cursor..];
    }
  }
}
