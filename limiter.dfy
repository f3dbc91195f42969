/**
 * The FIFO concurrency limiter of src/utils/async.ts, as an event-driven
 * state machine.
 *
 * `createLimiter(limit)` closes over an `active` counter and a `queue` of
 * pending task starters. Submitting a task pushes its starter at the back
 * and calls `next`; when a task's promise settles, fulfilled or rejected,
 * `active` drops by one and `next` runs again. `next` runs the starter at the
 * front of the queue when one is waiting and fewer than `limit` run.
 *
 * Tasks are named by ids. The JavaScript event loop, the promises and
 * `sleep` are outside the model: a task starting is the event `next` causes,
 * a task settling is the event `Settle`.
 */
module Limiter {
  import opened Wrappers

  type TaskId = nat

  /** How a submitted task's own promise ended. */
  datatype Settlement = Fulfilled | Rejected(reason: string)

  const LimitError := "Concurrency limit must be greater than zero"

  /** `createLimiter(limit)`: refuses a limit that is not positive, else an idle limiter. */
  method CreateLimiter(limit: int) returns (r: Result<Limiter, string>)
    ensures r.Err? <==> limit <= 0
    ensures r.Err? ==> r.error == LimitError
    ensures r.Ok? ==> fresh(r.value) && r.value.Valid() && r.value.limit == limit
                      && r.value.active == 0 && r.value.queue == [] && r.value.submitted == []
  {
    if limit <= 0 {
      return Err(LimitError);
    }
    var l := new Limiter(limit);
    return Ok(l);
  }

  class Limiter {
    const limit: int
    /** Tasks started and not yet settled. */
    var active: int
    /** Submitted tasks not yet started, oldest first. */
    var queue: seq<TaskId>

    /** Every task ever submitted, in submission order. */
    ghost var submitted: seq<TaskId>
    /** Every task ever started, in start order. */
    ghost var started: seq<TaskId>
    /** Tasks running now. */
    ghost var running: set<TaskId>
    /** How each finished task's own promise ended. */
    ghost var settled: map<TaskId, Settlement>

    ghost predicate Valid()
      reads this
    {
      && 0 < limit
      && 0 <= active <= limit
      // admission is FIFO: tasks start in exactly the order they were submitted
      && started + queue == submitted
      // work-conserving: nobody waits while a slot is free
      && (|queue| > 0 ==> active == limit)
      && active == |running|
      && (forall i, j :: 0 <= i < j < |submitted| ==> submitted[i] != submitted[j])
      // a started task is either running or settled, never both
      && (forall t :: t in running ==> t in started && t !in settled)
      && (forall t :: t in settled ==> t in started && t !in running)
      && (forall i :: 0 <= i < |started| ==> started[i] in running || started[i] in settled)
    }

    constructor (limit: int)
      requires limit > 0
      ensures Valid() && this.limit == limit
      ensures active == 0 && queue == [] && submitted == [] && started == [] && running == {} && settled == map[]
    {
      this.limit := limit;
      active := 0;
      queue := [];
      submitted := [];
      started := [];
      running := {};
      settled := map[];
    }

    /** `next`: start the oldest waiting task if a slot is free, else do nothing. */
    method Next()
      requires 0 < limit && 0 <= active <= limit && active == |running|
      requires forall t :: t in queue ==> t !in running && t !in settled
      requires forall i, j :: 0 <= i < j < |queue| ==> queue[i] != queue[j]
      modifies this
      ensures submitted == old(submitted) && settled == old(settled)
      ensures if old(queue) == [] || old(active) >= limit then
                active == old(active) && queue == old(queue) && started == old(started) && running == old(running)
              else
                && active == old(active) + 1
                && queue == old(queue)[1..]
                && started == old(started) + [old(queue)[0]]
                && running == old(running) + {old(queue)[0]}
    {
      if |queue| == 0 || active >= limit {
        return;
      }
      active := active + 1;
      var run := queue[0];
      queue := queue[1..];
      started := started + [run];
      running := running + {run};
    }

    /** `limitFn(fn)`: queue a new task at the back, then let `next` start it if a slot is free. */
    method Submit(t: TaskId)
      requires Valid()
      requires t !in submitted
      modifies this
      ensures Valid()
      ensures submitted == old(submitted) + [t] && settled == old(settled)
      ensures old(active) < limit ==>
                active == old(active) + 1 && queue == [] && started == old(started) + [t] && running == old(running) + {t}
      ensures old(active) == limit ==>
                active == old(active) && queue == old(queue) + [t] && started == old(started) && running == old(running)
    {
      assert forall x :: x in queue ==> x in submitted by {
        forall x | x in queue ensures x in submitted {
          var k :| 0 <= k < |queue| && queue[k] == x;
          assert submitted[|started| + k] == x;
        }
      }
      assert forall x :: x in running ==> x in submitted by {
        forall x | x in running ensures x in submitted {
          var k :| 0 <= k < |started| && started[k] == x;
          assert submitted[k] == x;
        }
      }
      QueueFacts();
      queue := queue + [t];
      submitted := submitted + [t];
      Next();
      assert forall x :: x in settled ==> x in started;
    }

    /** The settlement handler of a started task: record its outcome, free its slot and call `next`. */
    method Settle(t: TaskId, outcome: Settlement)
      requires Valid()
      requires t in running
      modifies this
      ensures Valid()
      ensures submitted == old(submitted)
      // each submission settles with exactly its own task's outcome
      ensures settled == old(settled)[t := outcome]
      // a rejection frees the slot exactly as a fulfilment does
      ensures old(queue) == [] ==>
                active == old(active) - 1 && queue == [] && started == old(started) && running == old(running) - {t}
      ensures old(queue) != [] ==>
                && active == old(active) && queue == old(queue)[1..]
                && started == old(started) + [old(queue)[0]]
                && running == old(running) - {t} + {old(queue)[0]}
    {
      QueueFacts();
      assert |running - {t}| == |running| - 1;
      active := active - 1;
      running := running - {t};
      settled := settled[t := outcome];
      Next();
    }

    /** Tasks waiting in the queue have not started and are pairwise distinct. */
    lemma QueueFacts()
      requires Valid()
      ensures forall x :: x in queue ==> x !in running && x !in settled && x !in started
      ensures forall i, j :: 0 <= i < j < |queue| ==> queue[i] != queue[j]
    {
      forall x | x in queue ensures x !in started {
        var k :| 0 <= k < |queue| && queue[k] == x;
        assert submitted[|started| + k] == x;
        forall m | 0 <= m < |started| ensures started[m] != x {
          assert started[m] == submitted[m];
        }
      }
      forall i, j | 0 <= i < j < |queue| ensures queue[i] != queue[j] {
        assert queue[i] == submitted[|started| + i];
        assert queue[j] == submitted[|started| + j];
      }
    }
  }
}
