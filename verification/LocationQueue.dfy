/**
 * The technician app's location ping queue: a persisted list with a sliding
 * cap, flushed in batches whose every storage write leaves a crash-safe state.
 */
module LocationQueue {
  import opened Basics

  const MAX_QUEUE_SIZE := 500
  const FLUSH_BATCH := 50

  /** A ping is opaque to the queue. */
  type Ping = Json

  function Trimmed(items: seq<Ping>): seq<Ping> {
    if |items| > MAX_QUEUE_SIZE then items[|items| - MAX_QUEUE_SIZE..] else items
  }

  function Concat(batches: seq<seq<Ping>>): seq<Ping> {
    if batches == [] then [] else Concat(batches[..|batches| - 1]) + batches[|batches| - 1]
  }

  lemma ConcatSnoc(batches: seq<seq<Ping>>, batch: seq<Ping>)
    ensures Concat(batches + [batch]) == Concat(batches) + batch
  {
    assert (batches + [batch])[..|batches|] == batches;
  }

  /** One storage write: what had been acknowledged by then, and what storage held after it. */
  datatype Write = Write(acknowledged: seq<Ping>, persisted: seq<Ping>)

  /** The reply to the n-th POST, and the pings other handlers enqueue while it is awaited. */
  datatype Await = Await(ok: bool, meanwhile: seq<Ping>)

  function FirstBatch(remaining: seq<Ping>): seq<Ping> {
    if |remaining| < FLUSH_BATCH then remaining else remaining[..FLUSH_BATCH]
  }

  ghost predicate CrashSafe(queue: seq<Ping>, writes: seq<Write>) {
    forall w :: w in writes ==> w.acknowledged + w.persisted == queue
  }

  /** Batches are non-empty and at most 50 long, and full except perhaps the last. */
  ghost predicate Batched(batches: seq<seq<Ping>>) {
    && (forall b :: b in batches ==> 1 <= |b| <= 50)
    && (forall i :: 0 <= i < |batches| - 1 ==> |batches[i]| == 50)
  }

  /** The flush so far: `batches` were acknowledged, `remaining` is still to send. */
  ghost predicate Progress(queue: seq<Ping>, batches: seq<seq<Ping>>, remaining: seq<Ping>, writes: seq<Write>, world: nat -> Await) {
    && Concat(batches) + remaining == queue
    && Batched(batches) && CrashSafe(queue, writes)
    && (remaining != [] && batches != [] ==> |batches[|batches| - 1]| == FLUSH_BATCH)
    && (forall i :: 0 <= i < |batches| ==> world(i).ok)
    && (batches != [] ==> writes != [] && writes[|writes| - 1] == Write(Concat(batches), remaining))
  }

  lemma ProgressStep(queue: seq<Ping>, batches: seq<seq<Ping>>, remaining: seq<Ping>, writes: seq<Write>, world: nat -> Await)
    requires Progress(queue, batches, remaining, writes, world) && remaining != [] && world(|batches|).ok
    ensures var batch := FirstBatch(remaining);
            var more, rest := batches + [batch], remaining[|batch|..];
            && |rest| < |remaining| && |Concat(more)| == |Concat(batches)| + |batch|
            && Progress(queue, more, rest, writes + [Write(Concat(more), rest)], world)
  {
    hide Concat;
    var batch := FirstBatch(remaining);
    ConcatSnoc(batches, batch);
    assert remaining == batch + remaining[|batch|..];
  }

  datatype FlushResult = FlushResult(flushed: nat, remaining: nat)

  lemma NothingSent(queue: seq<Ping>, world: nat -> Await)
    ensures Progress(queue, [], queue, [], world) && Concat([]) == [] && Concat([]) + queue == queue
  {
  }

  lemma AnotherWrite(queue: seq<Ping>, writes: seq<Write>, w: Write)
    requires CrashSafe(queue, writes) && w.acknowledged + w.persisted == queue
    ensures CrashSafe(queue, writes + [w])
  {
  }

  class PingStore {
    var stored: seq<Ping>

    ghost predicate Valid()
      reads this
    {
      |stored| <= MAX_QUEUE_SIZE
    }

    constructor ()
      ensures Valid() && stored == []
    {
      stored := [];
    }

    method WriteQueue(items: seq<Ping>)
      modifies this
      ensures Valid() && stored == Trimmed(items)
    {
      stored := if |items| > MAX_QUEUE_SIZE then items[|items| - MAX_QUEUE_SIZE..] else items;
    }

    method EnqueuePing(ping: Ping)
      modifies this
      ensures Valid() && stored == Trimmed(old(stored) + [ping])
      ensures stored == (if |old(stored)| < 500 then old(stored) else old(stored)[|old(stored)| - 499..]) + [ping]
    {
      WriteQueue(stored + [ping]);
    }

    method EnqueueAll(pings: seq<Ping>)
      requires Valid()
      modifies this
      ensures Valid()
    {
      var i := 0;
      while i < |pings|
        invariant Valid()
      {
        EnqueuePing(pings[i]);
        i := i + 1;
      }
    }

    /**
     * Crash safety. After every storage write of a flush, the pings the server
     * has acknowledged followed by the persisted queue are the queue the flush
     * started from: nothing of it is lost and nothing is marked sent early,
     * whatever other handlers enqueue meanwhile. What they enqueue does not
     * outlive the next write. Batches are full but for the last, and the result
     * counts them.
     */
    method FlushQueue(signedIn: bool, world: nat -> Await)
      returns (result: FlushResult, batches: seq<seq<Ping>>, writes: seq<Write>)
      requires Valid()
      modifies this
      ensures Valid()
      ensures CrashSafe(old(stored), writes) && Batched(batches)
      ensures signedIn ==> Concat(batches) + stored == old(stored)
      ensures signedIn ==> result == FlushResult(|Concat(batches)|, |stored|)
      ensures signedIn ==> (forall i :: 0 <= i < |batches| ==> world(i).ok) && (stored != [] ==> !world(|batches|).ok)
      ensures signedIn && old(stored) != [] ==> writes != [] && writes[|writes| - 1] == Write(Concat(batches), stored)
      ensures !signedIn ==> stored == old(stored) && batches == [] && writes == [] && result == FlushResult(0, 0)
    {
      hide Concat;
      hide Batched;
      hide CrashSafe;
      batches, writes := [], [];
      NothingSent(stored, world);
      if !signedIn {
        return FlushResult(0, 0), batches, writes;
      }
      var queue := stored;
      if |queue| == 0 {
        return FlushResult(0, 0), batches, writes;
      }
      var flushed, remaining := 0, queue;
      while |remaining| > 0
        invariant Progress(queue, batches, remaining, writes, world)
        invariant flushed == |Concat(batches)|
        invariant Valid() && |remaining| <= |queue| <= MAX_QUEUE_SIZE
        invariant remaining == [] ==> batches != []
        invariant batches != [] ==> stored == remaining
        decreases |remaining|
      {
        var batch := if |remaining| < FLUSH_BATCH then remaining else remaining[..FLUSH_BATCH];
        var await := world(|batches|);
        EnqueueAll(await.meanwhile);
        if await.ok {
          ProgressStep(queue, batches, remaining, writes, world);
          flushed := flushed + |batch|;
          remaining := remaining[|batch|..];
          batches := batches + [batch];
          WriteQueue(remaining);
          writes := writes + [Write(Concat(batches), stored)];
        } else {
          WriteQueue(remaining);
          AnotherWrite(queue, writes, Write(Concat(batches), remaining));
          writes := writes + [Write(Concat(batches), stored)];
          return FlushResult(flushed, |remaining|), batches, writes;
        }
      }
      return FlushResult(flushed, 0), batches, writes;
    }
  }

  // ---------------------------------------------------------------- enqueue-only runs

  /** The stored queue after enqueueing `pings` one by one onto an empty store. */
  function EnqueuedFromEmpty(pings: seq<Ping>): seq<Ping> {
    if pings == [] then [] else Trimmed(EnqueuedFromEmpty(pings[..|pings| - 1]) + [pings[|pings| - 1]])
  }

  /** The cap slides: exactly the last 500 pings are held, all of them while there are fewer. */
  lemma {:induction false} KeepsTheLastPings(pings: seq<Ping>)
    ensures EnqueuedFromEmpty(pings) == if |pings| > 500 then pings[|pings| - 500..] else pings
  {
    if pings != [] {
      var n := |pings| - 1;
      KeepsTheLastPings(pings[..n]);
      assert pings == pings[..n] + [pings[n]];
    }
  }
}
