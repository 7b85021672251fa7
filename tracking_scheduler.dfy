/**
 * A scheduler that counts, for every deferred command, a tracker that is released by a
 * callback queued right behind the command, and fires an "empty" event when the count of
 * trackers drops below one. The deferred queue of the underlying scheduler is taken to be
 * first-in first-out, which is an assumption about the GWT scheduler it extends.
 */
module Scheduling {

  /** An item of the deferred queue: a client command, or the tracker's decrement callback. */
  datatype Task = Command(id: nat) | Decrement

  /** The number of decrement callbacks waiting in the queue. */
  function PendingDecrements(q: seq<Task>): nat
  {
    if q == [] then 0 else (if q[0] == Decrement then 1 else 0) + PendingDecrements(q[1..])
  }

  /** A queue made of (command, decrement) pairs, in the order `scheduleDeferred` adds them. */
  predicate Pairs(q: seq<Task>)
    decreases |q|
  {
    q == [] || (|q| >= 2 && q[0].Command? && q[1] == Decrement && Pairs(q[2..]))
  }

  /**
   * The shapes the queue can take: pairs, possibly preceded by the decrement of a command
   * that has just been taken off the queue and run.
   */
  predicate WellFormedQueue(q: seq<Task>)
  {
    Pairs(q) || (q != [] && q[0] == Decrement && Pairs(q[1..]))
  }

  /** The number of times a counter history goes from 1 down to 0. */
  function FallsToZero(h: seq<int>): nat
  {
    if |h| < 2 then 0 else (if h[0] == 1 && h[1] == 0 then 1 else 0) + FallsToZero(h[1..])
  }

  lemma {:induction false} PendingAppend(a: seq<Task>, b: seq<Task>)
    ensures PendingDecrements(a + b) == PendingDecrements(a) + PendingDecrements(b)
    decreases |a|
  {
    if a == [] {
      assert a + b == b;
    } else {
      assert (a + b)[0] == a[0] && (a + b)[1..] == a[1..] + b;
      PendingAppend(a[1..], b);
    }
  }

  /** A queue of pairs holds one decrement per pair. */
  lemma {:induction false} PairsPending(q: seq<Task>)
    requires Pairs(q)
    ensures PendingDecrements(q) * 2 == |q|
    decreases |q|
  {
    if q != [] {
      PairsPending(q[2..]);
      assert q[1..][1..] == q[2..];
    }
  }

  lemma {:induction false} PairsAppend(q: seq<Task>, id: nat)
    requires Pairs(q)
    ensures Pairs(q + [Command(id), Decrement])
    decreases |q|
  {
    if q == [] {
      assert ([] + [Command(id), Decrement])[2..] == [];
    } else {
      assert (q + [Command(id), Decrement])[2..] == q[2..] + [Command(id), Decrement];
      PairsAppend(q[2..], id);
    }
  }

  /** Appending a (command, decrement) pair keeps the queue well formed. */
  lemma {:induction false} WellFormedAppend(q: seq<Task>, id: nat)
    requires WellFormedQueue(q)
    ensures WellFormedQueue(q + [Command(id), Decrement])
  {
    if Pairs(q) {
      PairsAppend(q, id);
    } else {
      PairsAppend(q[1..], id);
      assert (q + [Command(id), Decrement])[1..] == q[1..] + [Command(id), Decrement];
    }
  }

  /** Running the head of a well-formed queue leaves a well-formed queue. */
  lemma {:induction false} WellFormedTail(q: seq<Task>)
    requires WellFormedQueue(q) && q != []
    ensures WellFormedQueue(q[1..])
  {
    if Pairs(q) {
      assert q[1..][1..] == q[2..];
    }
  }

  /** In a well-formed queue, no pending decrement means no work at all. */
  lemma {:induction false} NoPendingMeansEmpty(q: seq<Task>)
    ensures WellFormedQueue(q) ==> (PendingDecrements(q) == 0 <==> q == [])
  {
    if WellFormedQueue(q) && Pairs(q) {
      PairsPending(q);
    }
  }

  /** Extending a history by one value adds one fall exactly when it goes from 1 to 0. */
  lemma {:induction false} FallsToZeroAppend(h: seq<int>, x: int)
    requires h != []
    ensures FallsToZero(h + [x]) == FallsToZero(h) + (if h[|h| - 1] == 1 && x == 0 then 1 else 0)
    decreases |h|
  {
    if |h| == 1 {
      assert (h + [x])[1..] == [x];
    } else {
      assert (h + [x])[1..] == h[1..] + [x];
      FallsToZeroAppend(h[1..], x);
    }
  }

  /** The scheduler's state: its tracker count, the deferred queue it feeds, and the event bus. */
  class TrackingScheduler {
    /** `deferredCommandTrackers`. */
    var trackers: int
    /** The underlying scheduler's deferred queue, oldest first. */
    var deferredQueue: seq<Task>
    /** How many "queue empty" events the event bus has fired. */
    var emptyEventsFired: nat
    /** Every value the tracker count has taken, oldest first. */
    ghost var history: seq<int>

    /**
     * The tracker count is the number of decrement callbacks still queued, the queue has
     * the shape the scheduler builds, and one event has fired per fall of the count to 0.
     */
    ghost predicate Valid()
      reads this
    {
      && trackers == PendingDecrements(deferredQueue)
      && WellFormedQueue(deferredQueue)
      && history != [] && history[|history| - 1] == trackers
      && emptyEventsFired == FallsToZero(history)
    }

    /** The count starts at 0 with an empty queue. */
    constructor ()
      ensures Valid()
      ensures trackers == 0 && deferredQueue == [] && emptyEventsFired == 0
    {
      trackers := 0;
      deferredQueue := [];
      emptyEventsFired := 0;
      history := [0];
    }

    /** `hasWorkQueued`: under the invariant, whether a deferred command is still to run. */
    predicate HasWorkQueued(): (r: bool)
      reads this
      ensures Valid() ==> (r <==> deferredQueue != [])
    {
      NoPendingMeansEmpty(deferredQueue);
      trackers != 0
    }

    /** Work is queued or running exactly when a tracker's decrement is still queued. */
    lemma HasWorkQueuedIffQueueNotEmpty()
      requires Valid()
      ensures HasWorkQueued() <==> deferredQueue != []
      ensures trackers >= 0
    {
      NoPendingMeansEmpty(deferredQueue);
    }

    /** `scheduleDeferred`: one more tracker, then the command and its decrement callback. */
    method ScheduleDeferred(cmd: nat)
      requires Valid()
      modifies this
      ensures Valid()
      ensures trackers == old(trackers) + 1
      ensures deferredQueue == old(deferredQueue) + [Command(cmd), Decrement]
      ensures emptyEventsFired == old(emptyEventsFired)
    {
      trackers := trackers + 1;
      history := history + [trackers];
      FallsToZeroAppend(old(history), trackers);
      deferredQueue := deferredQueue + [Command(cmd)];
      deferredQueue := deferredQueue + [Decrement];
      PendingAppend(old(deferredQueue), [Command(cmd), Decrement]);
      assert [Command(cmd), Decrement][1..] == [Decrement] && [Decrement][1..] == [];
      assert PendingDecrements([Command(cmd), Decrement]) == 1;
      assert old(deferredQueue) + [Command(cmd)] + [Decrement] == old(deferredQueue) + [Command(cmd), Decrement];
      WellFormedAppend(old(deferredQueue), cmd);
    }

    /**
     * `decrementDeferredTrackerAndNotifyHandlersIfNeeded`: one tracker less, and the empty
     * event fires when the count is then below 1.
     */
    method DecrementDeferredTrackerAndNotifyHandlersIfNeeded()
      modifies this
      ensures trackers == old(trackers) - 1
      ensures emptyEventsFired == old(emptyEventsFired) + (if trackers < 1 then 1 else 0)
      ensures deferredQueue == old(deferredQueue)
      ensures history == old(history) + [trackers]
    {
      trackers := trackers - 1;
      history := history + [trackers];
      if trackers < 1 {
        emptyEventsFired := emptyEventsFired + 1;
      }
    }

    /**
     * The underlying scheduler runs the oldest deferred item: a command runs client code,
     * which is not modelled; a decrement callback releases its tracker.
     */
    method RunNextDeferred()
      requires Valid()
      modifies this
      ensures Valid()
      ensures deferredQueue == if old(deferredQueue) == [] then [] else old(deferredQueue)[1..]
      ensures old(deferredQueue) != [] && old(deferredQueue)[0] == Decrement ==>
                trackers == old(trackers) - 1 &&
                emptyEventsFired == old(emptyEventsFired) + (if old(trackers) == 1 then 1 else 0)
      ensures !(old(deferredQueue) != [] && old(deferredQueue)[0] == Decrement) ==>
                trackers == old(trackers) && emptyEventsFired == old(emptyEventsFired)
    {
      if deferredQueue != [] {
        var task := deferredQueue[0];
        WellFormedTail(deferredQueue);
        assert PendingDecrements(deferredQueue) ==
          (if task == Decrement then 1 else 0) + PendingDecrements(deferredQueue[1..]);
        deferredQueue := deferredQueue[1..];
        if task == Decrement {
          FallsToZeroAppend(history, trackers - 1);
          DecrementDeferredTrackerAndNotifyHandlersIfNeeded();
        }
      }
    }

    /**
     * Running the deferred queue until it is empty brings the count back to 0, and the
     * empty event fires exactly once if there was any work, never otherwise.
     */
    method RunAllDeferred()
      requires Valid()
      modifies this
      ensures Valid()
      ensures deferredQueue == [] && trackers == 0
      ensures emptyEventsFired == old(emptyEventsFired) + (if old(deferredQueue) != [] then 1 else 0)
    {
      NoPendingMeansEmpty(deferredQueue);
      while deferredQueue != []
        invariant Valid()
        invariant 0 <= trackers <= old(trackers)
        invariant emptyEventsFired == old(emptyEventsFired) + (if old(trackers) > 0 && trackers == 0 then 1 else 0)
        decreases |deferredQueue|
      {
        RunNextDeferred();
      }
      NoPendingMeansEmpty(deferredQueue);
    }
  }

  /** An event type: a handle under which handlers are registered. */
  class EventType {
    constructor ()
    {
    }
  }

  /** The static state of the "queue empty" event class. */
  class EmptyEventStatics {
    var eventType: EventType?

    constructor ()
      ensures eventType == null
    {
      eventType := null;
    }

    /** `getType`: creates the type on the first call and returns that same instance afterwards. */
    method GetType() returns (t: EventType)
      modifies this
      ensures eventType == t
      ensures old(eventType) != null ==> t == old(eventType)
      ensures old(eventType) == null ==> fresh(t)
    {
      if eventType == null {
        eventType := new EventType();
      }
      t := eventType;
    }
  }

  /** Two calls of `getType` give the same instance. */
  method GetTypeTwice(statics: EmptyEventStatics) returns (first: EventType, second: EventType)
    modifies statics
    ensures first == second
  {
    first := statics.GetType();
    second := statics.GetType();
  }
}
