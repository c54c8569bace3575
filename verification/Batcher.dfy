/** The queue of a log or metric batcher, and when it is sent. */
module Batching {
  import opened Sequences

  const MAX_ITEMS: nat := 100

  /** What is queued, and the batches handed to the sender so far. */
  datatype Contents<T> = Contents(items: seq<T>, batches: seq<seq<T>>)

  function Flushed<T>(c: Contents<T>): Contents<T> {
    if c.items == [] then c else Contents([], c.batches + [c.items])
  }

  function Enqueued<T>(c: Contents<T>, item: T): Contents<T> {
    var pushed := c.(items := c.items + [item]);
    if |pushed.items| >= MAX_ITEMS then Flushed(pushed) else pushed
  }

  class Batcher<T> {
    var items: seq<T>
    var batches: seq<seq<T>>

    function Value(): Contents<T>
      reads this
    {
      Contents(items, batches)
    }

    constructor ()
      ensures Value() == Contents([], [])
    {
      items, batches := [], [];
    }

    /** Takes what is queued and, unless that is nothing, sends it as one envelope. */
    method FlushQueueInternal()
      modifies this
      ensures Value() == Flushed(old(Value()))
    {
      var taken := items;
      items := [];
      if taken == [] {
        return;
      }
      batches := batches + [taken];
    }

    method Enqueue(item: T)
      modifies this
      ensures Value() == Enqueued(old(Value()), item)
    {
      items := items + [item];
      if |items| >= MAX_ITEMS {
        FlushQueueInternal();
      }
    }

    method Flush()
      modifies this
      ensures Value() == Flushed(old(Value()))
    {
      FlushQueueInternal();
    }
  }

  // ----- runs of calls

  datatype Call<T> = Enqueue(item: T) | Flush

  function After<T>(c: Contents<T>, calls: seq<Call<T>>): Contents<T>
    decreases |calls|
  {
    if calls == [] then c else
    var n := |calls| - 1;
    var before := After(c, calls[..n]);
    match calls[n]
    case Enqueue(item) => Enqueued(before, item)
    case Flush => Flushed(before)
  }

  /** The items that some calls enqueue. */
  function ItemsOf<T>(calls: seq<Call<T>>): seq<T>
    decreases |calls|
  {
    if calls == [] then [] else
    var n := |calls| - 1;
    ItemsOf(calls[..n]) + if calls[n].Enqueue? then [calls[n].item] else []
  }

  /** What was enqueued so far, cut into batches of at most 100 items and a queue that is not full. */
  ghost predicate InBlocks<T>(c: Contents<T>, enqueued: seq<T>) {
    && |c.items| < MAX_ITEMS
    && (forall b :: 0 <= b < |c.batches| ==> 1 <= |c.batches[b]| <= MAX_ITEMS)
    && Flatten(c.batches) + c.items == enqueued
  }

  lemma FlushedInBlocks<T>(c: Contents<T>, enqueued: seq<T>)
    requires |c.items| <= MAX_ITEMS
    requires forall b :: 0 <= b < |c.batches| ==> 1 <= |c.batches[b]| <= MAX_ITEMS
    requires Flatten(c.batches) + c.items == enqueued
    ensures InBlocks(Flushed(c), enqueued)
  {
    hide Flatten;
    FlattenLonger(c.batches, c.items);
    assert enqueued + [] == enqueued;
    if c.items == [] {
      assert Flushed(c) == c;
    } else {
      assert Flushed(c).batches == c.batches + [c.items];
    }
  }

  /**
   Between calls fewer than 100 items are queued; every batch sent holds 1 to 100 items; and the batches,
   one after the other, followed by the queue are what was enqueued, in order.
   */
  lemma {:induction false} BatchesAreBlocks<T>(calls: seq<Call<T>>)
    ensures InBlocks(After(Contents([], []), calls), ItemsOf(calls))
  {
    if calls != [] {
      var n := |calls| - 1;
      var before := After(Contents([], []), calls[..n]);
      BatchesAreBlocks(calls[..n]);
      match calls[n]
      case Flush => FlushedInBlocks(before, ItemsOf(calls[..n]));
      case Enqueue(item) =>
        hide Flatten;
        var pushed := before.(items := before.items + [item]);
        assert Flatten(pushed.batches) + pushed.items == ItemsOf(calls[..n]) + [item];
        FlushedInBlocks(pushed, ItemsOf(calls));
    }
  }

  /** Left alone, the batcher sends after every hundredth item and never in between. */
  lemma {:induction false} FullBatchesOnly<T>(calls: seq<Call<T>>)
    requires forall i :: 0 <= i < |calls| ==> calls[i].Enqueue?
    ensures var c := After(Contents([], []), calls);
            && |c.batches| == |calls| / MAX_ITEMS
            && |c.items| == |calls| % MAX_ITEMS
            && (forall b :: 0 <= b < |c.batches| ==> |c.batches[b]| == MAX_ITEMS)
  {
    if calls != [] {
      FullBatchesOnly(calls[..|calls| - 1]);
    }
  }

  /** After a flush nothing is queued: everything enqueued before is in a batch. */
  lemma FlushSendsAll<T>(calls: seq<Call<T>>)
    ensures var c := After(Contents([], []), calls + [Flush]);
            c.items == [] && Flatten(c.batches) == ItemsOf(calls)
  {
    BatchesAreBlocks(calls + [Flush]);
    assert (calls + [Flush])[..|calls|] == calls;
    hide Flatten;
    var c := After(Contents([], []), calls + [Flush]);
    assert Flatten(c.batches) + c.items == ItemsOf(calls);
  }
}
