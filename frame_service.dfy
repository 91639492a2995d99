/**
 * FrameInstantiatorService: a queue of instantiation tasks worked off a
 * few nodes per frame. Each frame's step adapts the per-frame cap to the
 * frame rate, then creates nodes for the task at the head of the queue
 * (calling its callback with the running index) until the queue empties,
 * the cap is reached or the time budget is spent.
 *
 * The frame's delta time and the number of creations that fit in the 8 ms
 * budget are inputs of `Step`; instantiation itself is not modelled, only
 * the callbacks it leads to.
 */
module FrameService {
  import opened Common

  /** A node created for the task numbered `task`, with the index `callback?.(node, index)` receives if a callback was given. */
  datatype Creation = Creation(task: nat, index: nat)

  /** ITask: `total` nodes to create, `done` of them created so far. */
  datatype Task = Task(id: nat, total: nat, done: nat)

  /** Every queued task still has nodes to create. */
  predicate Ready(tasks: seq<Task>)
  {
    forall i :: 0 <= i < |tasks| ==> tasks[i].done < tasks[i].total
  }

  /** The callbacks a task still owes: indices `lo` up to `hi` - 1, in order. */
  function Indices(id: nat, lo: nat, hi: nat): (r: seq<Creation>)
    decreases hi - lo
    ensures |r| == if lo < hi then hi - lo else 0
  {
    if lo >= hi then [] else [Creation(id, lo)] + Indices(id, lo + 1, hi)
  }

  /** The callbacks the whole queue still owes, task after task. */
  function Schedule(tasks: seq<Task>): seq<Creation>
  {
    if tasks == [] then [] else Indices(tasks[0].id, tasks[0].done, tasks[0].total) + Schedule(tasks[1..])
  }

  /** One creation: the head's counter goes up, and the head is shifted off once it reaches its total. */
  function Advance(tasks: seq<Task>): seq<Task>
    requires tasks != []
  {
    var t := tasks[0];
    if t.done + 1 >= t.total then tasks[1..] else [t.(done := t.done + 1)] + tasks[1..]
  }

  datatype Drained = Drained(rest: seq<Task>, made: seq<Creation>)

  /** Up to `n` creations from the head of the queue. */
  function Drain(tasks: seq<Task>, n: nat): Drained
    decreases n
  {
    if n == 0 || tasks == [] then Drained(tasks, [])
    else
      var d := Drain(Advance(tasks), n - 1);
      Drained(d.rest, [Creation(tasks[0].id, tasks[0].done)] + d.made)
  }

  lemma AdvanceReady(tasks: seq<Task>)
    requires tasks != [] && Ready(tasks)
    ensures Ready(Advance(tasks))
  {
    var t := tasks[0];
    var next := Advance(tasks);
    forall i | 0 <= i < |next| ensures next[i].done < next[i].total {
      if t.done + 1 < t.total && i == 0 {
        assert next[0] == t.(done := t.done + 1);
      } else if t.done + 1 < t.total {
        assert next[i] == tasks[i];
      } else {
        assert next[i] == tasks[i + 1];
      }
    }
  }

  lemma ScheduleAdvance(tasks: seq<Task>)
    requires tasks != [] && Ready(tasks)
    ensures Ready(Advance(tasks))
    ensures Schedule(tasks) == [Creation(tasks[0].id, tasks[0].done)] + Schedule(Advance(tasks))
  {
    AdvanceReady(tasks);
    var t := tasks[0];
    var tail := tasks[1..];
    var owed := Indices(t.id, t.done + 1, t.total);
    assert Schedule(Advance(tasks)) == owed + Schedule(tail) by {
      if t.done + 1 < t.total {
        var next := [t.(done := t.done + 1)] + tail;
        assert next[0] == t.(done := t.done + 1) && next[1..] == tail;
      }
    }
  }

  lemma {:induction false} ScheduleEmpty(tasks: seq<Task>)
    requires Ready(tasks)
    ensures Schedule(tasks) == [] <==> tasks == []
  {
    if tasks != [] {
      assert |Indices(tasks[0].id, tasks[0].done, tasks[0].total)| > 0;
    }
  }

  /**
   * The queue is worked off strictly in order: the callbacks of `n`
   * creations are the first `n` the queue owes (so only the head task
   * progresses, its indices run up one by one, and a task leaves the
   * queue exactly when its last node is made), and what is left owes the
   * rest.
   */
  lemma {:induction false} DrainFollowsSchedule(tasks: seq<Task>, n: nat)
    requires Ready(tasks)
    decreases n
    ensures Ready(Drain(tasks, n).rest)
    ensures Drain(tasks, n).made + Schedule(Drain(tasks, n).rest) == Schedule(tasks)
    ensures |Drain(tasks, n).made| == if n < |Schedule(tasks)| then n else |Schedule(tasks)|
  {
    ScheduleEmpty(tasks);
    if n > 0 && tasks != [] {
      ScheduleAdvance(tasks);
      DrainFollowsSchedule(Advance(tasks), n - 1);
    }
  }

  /** `deltaTime > 0 ? 1 / deltaTime : 60`. */
  function ServiceFps(dt: real): real
  {
    if dt > 0.0 then 1.0 / dt else 60.0
  }

  /**
   * The per-frame cap after a frame: down by one below 30 fps while above
   * 1, up by one above 50 fps while below 20.
   */
  function AdjustedCap(cap: nat, dt: real): (r: nat)
    ensures 1 <= cap <= 20 ==> 1 <= r <= 20
    ensures r == cap - 1 || r == cap || r == cap + 1
    ensures r < cap <==> ServiceFps(dt) < 30.0 && cap > 1
    ensures r > cap <==> ServiceFps(dt) >= 30.0 && ServiceFps(dt) > 50.0 && cap < 20
  {
    var fps := ServiceFps(dt);
    if fps < 30.0 && cap > 1 then cap - 1
    else if fps > 50.0 && cap < 20 then cap + 1
    else cap
  }

  /** A delta time of zero or less counts as 60 fps, a fast frame: the cap rises while below 20. */
  lemma NoDeltaRaisesCap(cap: nat, dt: real)
    requires dt <= 0.0
    ensures AdjustedCap(cap, dt) == if 1 <= cap < 20 then cap + 1 else if cap == 0 then 1 else cap
  {
  }

  function Min(a: nat, b: nat): nat
  {
    if a < b then a else b
  }

  class FrameInstantiatorService {
    /** m_tasks, in queue order. */
    var tasks: seq<Task>
    /** m_scheduled. */
    var scheduled: bool
    /** Whether step is registered for the director's before-update event. */
    var subscribed: bool
    /** m_maxPerFrame. */
    var maxPerFrame: nat
    /** Every callback invocation so far. */
    var created: seq<Creation>
    /** The number the next accepted task gets. */
    var nextId: nat

    ghost predicate Valid()
      reads this
    {
      1 <= maxPerFrame <= 20 && Ready(tasks)
    }

    constructor ()
      ensures Valid() && tasks == [] && !scheduled && !subscribed && maxPerFrame == 5 && created == []
    {
      tasks, scheduled, subscribed, maxPerFrame, created, nextId := [], false, false, 5, [], 0;
    }

    /**
     * addTask: a missing source or a count of zero or less is refused;
     * otherwise the task joins the end of the queue with nothing done, and
     * the schedule is started.
     */
    method AddTask(source: Option<nat>, count: int)
      requires Valid()
      modifies this
      ensures Valid() && scheduled == old(scheduled) && maxPerFrame == old(maxPerFrame) && created == old(created)
      ensures source.None? || count <= 0 ==> tasks == old(tasks) && subscribed == old(subscribed) && nextId == old(nextId)
      ensures source.Some? && count > 0 ==>
                && tasks == old(tasks) + [Task(old(nextId), count, 0)] && nextId == old(nextId) + 1
                && subscribed == (old(subscribed) || !old(scheduled))
    {
      if source.None? || count <= 0 {
        return;
      }
      tasks := tasks + [Task(nextId, count as nat, 0)];
      nextId := nextId + 1;
      StartSchedule();
    }

    /**
     * startSchedule: registers step with the director unless the flag is
     * set (the director keeps one registration per callback and target).
     * The flag itself is never set here.
     */
    method StartSchedule()
      modifies this`subscribed
      ensures subscribed == (old(subscribed) || !scheduled)
    {
      if scheduled {
        return;
      }
      subscribed := true;
    }

    /** stopSchedule: unregisters step and drops the flag. */
    method StopSchedule()
      modifies this`subscribed, this`scheduled
      ensures !subscribed && !scheduled
    {
      subscribed, scheduled := false, false;
    }

    /** clear: empties the queue; the schedule is stopped only when the flag is set. */
    method Clear()
      requires Valid()
      modifies this
      ensures Valid() && tasks == [] && maxPerFrame == old(maxPerFrame) && created == old(created) && nextId == old(nextId)
      ensures old(scheduled) ==> !subscribed && !scheduled
      ensures !old(scheduled) ==> subscribed == old(subscribed) && !scheduled
    {
      tasks := [];
      if scheduled {
        scheduled := false;
        StopSchedule();
      }
    }

    /**
     * step: an empty queue stops the schedule. Otherwise the cap is
     * adjusted to the frame rate and then up to min(cap, fits) nodes are
     * created from the head of the queue, `fits` being how many creations
     * the 8 ms budget allows this frame.
     */
    method Step(dt: real, fits: nat)
      requires Valid()
      modifies this
      ensures Valid() && nextId == old(nextId)
      ensures old(tasks) == [] ==>
                && !subscribed && !scheduled && tasks == [] && created == old(created) && maxPerFrame == old(maxPerFrame)
      ensures old(tasks) != [] ==>
                && maxPerFrame == AdjustedCap(old(maxPerFrame), dt)
                && subscribed == old(subscribed) && scheduled == old(scheduled)
                && tasks == Drain(old(tasks), Min(maxPerFrame, fits)).rest
                && created == old(created) + Drain(old(tasks), Min(maxPerFrame, fits)).made
    {
      if tasks == [] {
        StopSchedule();
        return;
      }
      maxPerFrame := AdjustedCap(maxPerFrame, dt);
      CreateNodes(fits);
    }

    /** The instantiation loop of step, under the cap already adjusted for this frame. */
    method CreateNodes(fits: nat)
      requires Ready(tasks)
      modifies this`tasks, this`created
      ensures Ready(tasks)
      ensures tasks == Drain(old(tasks), Min(maxPerFrame, fits)).rest
      ensures created == old(created) + Drain(old(tasks), Min(maxPerFrame, fits)).made
    {
      var createdThisFrame := 0;
      ghost var k := Min(maxPerFrame, fits);
      ghost var goal := Drain(tasks, k);
      while tasks != [] && createdThisFrame < maxPerFrame && createdThisFrame < fits
        invariant createdThisFrame <= k && Ready(tasks)
        invariant Drain(tasks, k - createdThisFrame).rest == goal.rest
        invariant created + Drain(tasks, k - createdThisFrame).made == old(created) + goal.made
        decreases k - createdThisFrame
      {
        var t := tasks[0];
        ghost var next := Drain(Advance(tasks), k - createdThisFrame - 1);
        assert Drain(tasks, k - createdThisFrame) == Drained(next.rest, [Creation(t.id, t.done)] + next.made);
        assert created + ([Creation(t.id, t.done)] + next.made) == (created + [Creation(t.id, t.done)]) + next.made;
        created := created + [Creation(t.id, t.done)];
        AdvanceReady(tasks);
        tasks := Advance(tasks);
        createdThisFrame := createdThisFrame + 1;
      }
    }
  }

  /**
   * The schedule flag is never set, so clear does not stop a running
   * schedule: after addTask and clear, step stays registered until the
   * next step finds the queue empty.
   */
  method ClearKeepsStep(svc: FrameInstantiatorService, source: nat, count: nat)
    requires svc.Valid() && !svc.scheduled && count > 0
    modifies svc
    ensures svc.tasks == [] && svc.subscribed && !svc.scheduled
  {
    svc.AddTask(Some(source), count);
    svc.Clear();
  }

  /** A step makes at most the adjusted cap's worth of callbacks. */
  lemma StepBounded(tasks: seq<Task>, cap: nat, dt: real, fits: nat)
    requires Ready(tasks)
    ensures |Drain(tasks, Min(AdjustedCap(cap, dt), fits)).made| <= AdjustedCap(cap, dt)
  {
    DrainFollowsSchedule(tasks, Min(AdjustedCap(cap, dt), fits));
  }
}
