/** The batch writer: a bounded channel, a background buffer and batched flushes (crates/store/src/batch.rs). */
module BatchWriter {
  import opened Prelude

  function Flat<T>(batches: seq<seq<T>>): seq<T> {
    if batches == [] then [] else Flat(batches[..|batches| - 1]) + batches[|batches| - 1]
  }

  /** The number of items in batches with the given verdict of flush_fn. */
  function SizeOf<T>(batches: seq<seq<T>>, verdicts: seq<bool>, verdict: bool): nat
    requires |batches| == |verdicts|
  {
    if batches == [] then 0
    else
      var n := |batches| - 1;
      SizeOf(batches[..n], verdicts[..n], verdict) + if verdicts[n] == verdict then |batches[n]| else 0
  }

  lemma {:induction false} FlatIsStoredAndFailed<T>(batches: seq<seq<T>>, verdicts: seq<bool>)
    requires |batches| == |verdicts|
    ensures |Flat(batches)| == SizeOf(batches, verdicts, true) + SizeOf(batches, verdicts, false)
  {
    if batches != [] {
      FlatIsStoredAndFailed(batches[..|batches| - 1], verdicts[..|batches| - 1]);
    }
  }

  lemma {:induction false} OneMoreBatch<T>(batches: seq<seq<T>>, verdicts: seq<bool>, batch: seq<T>, verdict: bool)
    requires |batches| == |verdicts|
    ensures Flat(batches + [batch]) == Flat(batches) + batch
    ensures forall v :: SizeOf(batches + [batch], verdicts + [verdict], v)
                        == SizeOf(batches, verdicts, v) + if v == verdict then |batch| else 0
  {
    assert (batches + [batch])[..|batches|] == batches && (verdicts + [verdict])[..|batches|] == verdicts;
  }

  class BatchWriter<T> {
    const channelCapacity: nat
    const flushCapacity: nat
    var senderOpen: bool
    var channel: seq<T>
    var buffer: seq<T>
    var finished: bool
    var droppedCount: nat
    /** Batches handed to flush_fn, and whether it succeeded. */
    var batches: seq<seq<T>>
    var verdicts: seq<bool>
    /** Which batches were handed over before they were full. */
    ghost var early: seq<bool>
    /** What callers offered, and what the channel took. */
    ghost var offered: nat
    ghost var accepted: seq<T>

    function BatchLimit(): nat {
      Max(1, flushCapacity)
    }

    /** What was accepted is, in order, what was handed over, buffered and queued; drops are counted. */
    ghost predicate Partition()
      reads this
    {
      && |batches| == |verdicts|
      && accepted == Flat(batches) + buffer + channel
      && (forall i :: 0 <= i < |batches| ==> 1 <= |batches[i]| <= BatchLimit())
      && offered - |accepted| + SizeOf(batches, verdicts, false) == droppedCount
      && |accepted| <= offered && |channel| <= channelCapacity
      && |early| == |batches| && (forall i :: 0 <= i < |batches| && !early[i] ==> |batches[i]| == BatchLimit())
    }

    ghost predicate Valid()
      reads this
    {
      && Partition() && |buffer| < BatchLimit()
      && (finished ==> !senderOpen && buffer == [] && channel == [])
    }

    constructor (channelCapacity: nat, flushCapacity: nat)
      ensures Valid() && senderOpen && !finished && accepted == [] && offered == 0
      ensures this.channelCapacity == channelCapacity && this.flushCapacity == flushCapacity
    {
      this.channelCapacity, this.flushCapacity := channelCapacity, flushCapacity;
      senderOpen, channel, buffer, finished, droppedCount := true, [], [], false, 0;
      batches, verdicts, early, offered, accepted := [], [], [], 0, [];
    }

    /** A full channel drops the item and counts it; an open one queues it behind everything accepted before. */
    method Enqueue(item: T)
      requires Valid() && senderOpen
      modifies this`channel, this`droppedCount, this`offered, this`accepted
      ensures Valid() && offered == old(offered) + 1
      ensures if |old(channel)| < channelCapacity
              then accepted == old(accepted) + [item] && droppedCount == old(droppedCount)
              else accepted == old(accepted) && channel == old(channel) && droppedCount == old(droppedCount) + 1
    {
      offered := offered + 1;
      if |channel| < channelCapacity {
        channel := channel + [item];
        accepted := accepted + [item];
      } else {
        droppedCount := droppedCount + 1;
      }
    }

    /** Hands the buffer to flush_fn; a failed batch is dropped and counted. */
    method DoFlush(ok: bool, ghost forced: bool)
      requires Partition() && 1 <= |buffer| <= BatchLimit() && (!forced ==> |buffer| == BatchLimit())
      modifies this`batches, this`verdicts, this`buffer, this`droppedCount, this`early
      ensures Partition() && batches == old(batches) + [old(buffer)] && buffer == []
      ensures verdicts == old(verdicts) + [ok] && early == old(early) + [forced]
      ensures droppedCount == old(droppedCount) + if ok then 0 else |old(buffer)|
    {
      OneMoreBatch(batches, verdicts, buffer, ok);
      var batch := buffer;
      buffer := [];
      batches, verdicts := batches + [batch], verdicts + [ok];
      early := early + [forced];
      if !ok {
        droppedCount := droppedCount + |batch|;
      }
    }

    /** Moves the next item from the channel to the buffer. */
    method Take()
      requires Partition() && channel != []
      modifies this`channel, this`buffer
      ensures Partition() && buffer == old(buffer) + [old(channel)[0]] && channel == old(channel)[1..]
    {
      assert channel == [channel[0]] + channel[1..];
      assert Flat(batches) + buffer + channel == Flat(batches) + (buffer + [channel[0]]) + channel[1..];
      buffer := buffer + [channel[0]];
      channel := channel[1..];
    }

    /**
     One turn of the background loop. The channel comes first; `tick` is the timer, `ok` flush_fn's verdict. A received
     item is kept until the batch is full; a batch that is not full is handed over by the timer or at the end only.
     */
    method Turn(tick: bool, ok: bool)
      requires Valid() && !finished
      modifies this`channel, this`buffer, this`finished, this`droppedCount, this`batches, this`verdicts, this`early
      ensures Valid()
      ensures old(channel) != [] ==>
                var filled := old(buffer) + [old(channel)[0]];
                && channel == old(channel)[1..] && !finished
                && (if |filled| < BatchLimit() then batches == old(batches) && early == old(early) && buffer == filled
                    else batches == old(batches) + [filled] && early == old(early) + [false] && buffer == [])
      ensures old(channel) == [] ==>
                && channel == [] && (finished <==> !senderOpen)
                && (if (tick || !senderOpen) && old(buffer) != []
                    then batches == old(batches) + [old(buffer)] && early == old(early) + [true] && buffer == []
                    else batches == old(batches) && early == old(early) && buffer == old(buffer))
    {
      if channel != [] {
        Take();
        if |buffer| >= flushCapacity {
          DoFlush(ok, false);
        }
      } else if !senderOpen {
        if buffer != [] {
          DoFlush(ok, true);
        }
        finished := true;
      } else if tick && buffer != [] {
        DoFlush(ok, true);
      }
    }

    /**
     Closes the channel and waits for the task: everything accepted went to flush_fn in order, in batches, and every item
     ever offered was stored or counted as dropped. All batches handed over meanwhile, but the last, are full.
     */
    method Shutdown(oks: nat -> bool)
      requires Valid() && !finished && senderOpen
      modifies this
      ensures Valid() && finished && buffer == [] && channel == []
      ensures offered == old(offered) && accepted == old(accepted)
      ensures Flat(batches) == old(accepted)
      ensures SizeOf(batches, verdicts, true) + droppedCount == offered
      ensures forall i :: |old(batches)| <= i < |batches| - 1 ==> |batches[i]| == BatchLimit()
    {
      senderOpen := false;
      var turn := 0;
      while !finished
        invariant Valid() && !senderOpen && offered == old(offered) && accepted == old(accepted)
        invariant |old(batches)| <= |batches|
        invariant forall i :: |old(batches)| <= i < |batches| - (if finished then 1 else 0) ==> |batches[i]| == BatchLimit()
        decreases if finished then 0 else |channel| + 1
      {
        Turn(false, oks(turn));
        turn := turn + 1;
      }
      FlatIsStoredAndFailed(batches, verdicts);
      assert Flat(batches) + [] + [] == Flat(batches);
    }
  }
}
