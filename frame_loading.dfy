/**
 * FrameInstantiator (and its copy FrameLoadingTool): a queue of
 * instantiation jobs, one of which is current at a time. Starting a run
 * works a slice of the current job at once and then chains itself from
 * animation frame to animation frame until no job is left.
 *
 * The model makes the animation frames explicit: `pending` counts the
 * callbacks waiting for the next frame, `Tick` is the start of a frame
 * (it runs every callback requested during the previous one), and
 * `thisFrame` counts the nodes made since the frame began. The frame's
 * delta time and the number of creations after which the 8 ms budget is
 * exceeded are inputs.
 *
 * The behaviour is given once, as functions on a `Loader` snapshot, for
 * the code as written and for a single-chain variant (see
 * `SingleChainKeepsCap`); the class runs the code as written against it.
 */
module FrameLoading {
  import opened Common
  import opened FrameService

  /** A queued job: `count` nodes to create. */
  datatype Job = Job(id: nat, count: nat)

  /** The current job, `created` of its nodes made so far. */
  datatype Current = Current(id: nat, count: nat, created: nat)

  /**
   * The code as written, and the variant in which the running flag means
   * "a frame callback is pending": it is cleared only when the chain
   * finds nothing left to do, and clear leaves it to the chain.
   */
  datatype Variant = AsWritten | SingleChain

  datatype Loader = Loader(
    queue: seq<Job>,
    current: Option<Current>,
    cap: nat,
    running: bool,
    pending: nat,
    log: seq<Creation>,
    thisFrame: nat,
    nextId: nat)

  predicate JobsReady(queue: seq<Job>)
  {
    forall i :: 0 <= i < |queue| ==> queue[i].count > 0
  }

  predicate LoaderValid(s: Loader)
  {
    && 1 <= s.cap <= 20
    && JobsReady(s.queue)
    && (s.current.Some? ==> s.current.value.created < s.current.value.count)
  }

  /** A fresh instance: nothing queued, nothing running, a cap of 5. */
  function Fresh(): Loader
  {
    Loader([], None, 5, false, 0, [], 0, 0)
  }

  /**
   * `1 / deltaTime < 30`: a delta time below zero gives a negative rate,
   * zero gives an infinite one.
   */
  predicate SlowFrame(dt: real)
  {
    dt < 0.0 || (dt > 0.0 && 1.0 / dt < 30.0)
  }

  /** `1 / deltaTime > 50`. */
  predicate FastFrame(dt: real)
  {
    dt == 0.0 || (dt > 0.0 && 1.0 / dt > 50.0)
  }

  /**
   * adjustLoadingSize: below 30 fps the cap drops by one but not under 1;
   * above 50 fps it rises by one while under 20.
   */
  function LoadingSize(cap: nat, dt: real): (r: nat)
    ensures 1 <= cap <= 20 ==> 1 <= r <= 20
    ensures 1 <= cap ==> (r < cap <==> SlowFrame(dt) && cap > 1)
    ensures 1 <= cap ==> (r > cap <==> !SlowFrame(dt) && FastFrame(dt) && cap < 20)
    ensures 1 <= cap ==> cap - 1 <= r <= cap + 1
  {
    if SlowFrame(dt) then (if cap - 1 > 1 then cap - 1 else 1)
    else if FastFrame(dt) && cap < 20 then (if cap + 1 < 20 then cap + 1 else 20)
    else cap
  }

  /**
   * How many nodes one execution makes for a job with `remaining` nodes
   * left: the cap check and the time check both come after a creation,
   * so at least one node is made.
   */
  function SliceSize(remaining: nat, cap: nat, over: nat): (r: nat)
    ensures remaining > 0 ==> 1 <= r
    ensures r <= remaining
    ensures cap >= 1 ==> r <= cap
  {
    var firstBreak := if over < cap then over else cap;
    var limit := if firstBreak == 0 then 1 else firstBreak;
    if remaining < limit then remaining else limit
  }

  /** Indices run up one at a time: extending the range by one appends one callback. */
  lemma {:induction false} IndicesSnoc(id: nat, lo: nat, hi: nat)
    requires lo <= hi
    decreases hi - lo
    ensures Indices(id, lo, hi + 1) == Indices(id, lo, hi) + [Creation(id, hi)]
  {
    if lo < hi {
      IndicesSnoc(id, lo + 1, hi);
    }
  }

  /**
   * The instantiation loop of executeFrameLoading: the callbacks receive
   * the job's `created` count before each increment, and the loop stops
   * once the job is complete, the cap is reached, or the time is over.
   */
  method Slice(task: Current, cap: nat, over: nat) returns (after: Current, made: seq<Creation>)
    requires task.created < task.count
    ensures |made| == SliceSize(task.count - task.created, cap, over)
    ensures after == task.(created := task.created + |made|)
    ensures made == Indices(task.id, task.created, after.created)
  {
    after := task;
    made := [];
    var currentFrameCount := 0;
    while after.created < after.count
      invariant after == task.(created := task.created + currentFrameCount)
      invariant after.created <= after.count && |made| == currentFrameCount
      invariant made == Indices(task.id, task.created, after.created)
      invariant currentFrameCount > 0 ==> currentFrameCount < cap && currentFrameCount < over
      decreases after.count - after.created
    {
      IndicesSnoc(task.id, task.created, after.created);
      made := made + [Creation(after.id, after.created)];
      after := after.(created := after.created + 1);
      currentFrameCount := currentFrameCount + 1;
      if currentFrameCount >= cap {
        break;
      }
      if currentFrameCount >= over {
        break;
      }
    }
  }

  /**
   * executeFrameLoading: with no current job it does nothing (the chain
   * ends; the single-chain variant also clears the running flag).
   * Otherwise the cap is adjusted, a slice is made, a finished job is
   * dropped (the code as written also clears the running flag), and the
   * next frame's callback is requested.
   */
  function Executed(v: Variant, s: Loader, dt: real, over: nat): Loader
  {
    if s.current.None? then
      (if v == SingleChain then s.(running := false) else s)
    else
      var c := s.current.value;
      var cap := LoadingSize(s.cap, dt);
      var k := SliceSize(if c.created < c.count then c.count - c.created else 0, cap, over);
      var done := c.created + k >= c.count;
      s.(cap := cap,
         log := s.log + Indices(c.id, c.created, c.created + k),
         thisFrame := s.thisFrame + k,
         pending := s.pending + 1,
         current := if done then None else Some(c.(created := c.created + k)),
         running := if done && v == AsWritten then false else s.running)
  }

  /** scheduleFrameLoading: the head of the queue becomes current only when there is no current job. */
  function Scheduled(v: Variant, s: Loader, dt: real, over: nat): Loader
  {
    if s.current.None? && s.queue != [] then
      Executed(v, s.(current := Some(Current(s.queue[0].id, s.queue[0].count, 0)), queue := s.queue[1..]), dt, over)
    else
      Executed(v, s, dt, over)
  }

  /** runTask. */
  function RunStarted(v: Variant, s: Loader, dt: real, over: nat): Loader
  {
    if s.queue == [] then s.(running := false) else Scheduled(v, s.(running := true), dt, over)
  }

  /** addTask: a missing source or a count of zero or less is refused. */
  function TaskAdded(v: Variant, s: Loader, source: Option<nat>, count: int, dt: real, over: nat): Loader
  {
    if source.None? || count <= 0 then s
    else
      var queued := s.(queue := s.queue + [Job(s.nextId, count)], nextId := s.nextId + 1);
      if s.running then queued else RunStarted(v, queued, dt, over)
  }

  /** clear (the single-chain variant leaves the running flag to the chain). */
  function Cleared(v: Variant, s: Loader): Loader
  {
    if v == AsWritten then s.(queue := [], current := None, running := false)
    else s.(queue := [], current := None)
  }

  /** `n` frame callbacks run one after the other. */
  function Callbacks(v: Variant, s: Loader, n: nat, dt: real, over: nat): Loader
    decreases n
  {
    if n == 0 then s else Callbacks(v, Scheduled(v, s, dt, over), n - 1, dt, over)
  }

  /** The start of a frame: the callbacks requested during the last one run. */
  function Ticked(v: Variant, s: Loader, dt: real, over: nat): Loader
  {
    Callbacks(v, s.(thisFrame := 0, pending := 0), s.pending, dt, over)
  }

  /** What can happen to the instantiator: a call of addTask or clear, or a new frame. */
  datatype Event = Add(source: Option<nat>, count: int, dt: real, over: nat) | ClearAll | Frame(dt: real, over: nat)

  function Apply(v: Variant, s: Loader, e: Event): Loader
  {
    match e
    case Add(source, count, dt, over) => TaskAdded(v, s, source, count, dt, over)
    case ClearAll => Cleared(v, s)
    case Frame(dt, over) => Ticked(v, s, dt, over)
  }

  function Run(v: Variant, s: Loader, events: seq<Event>): Loader
    decreases |events|
  {
    if events == [] then s else Run(v, Apply(v, s, events[0]), events[1..])
  }

  /**
   * One execution with a current job makes between one and the adjusted
   * cap's worth of nodes, with the job's next indices in order, and keeps
   * the cap within [1, 20]; a finished job is dropped, and in the code as
   * written the running flag goes with it even when jobs are still queued.
   */
  lemma ExecuteSlice(v: Variant, s: Loader, dt: real, over: nat)
    requires LoaderValid(s) && s.current.Some?
    ensures var r := Executed(v, s, dt, over);
            var c := s.current.value;
            var k := r.thisFrame - s.thisFrame;
            && LoaderValid(r) && r.cap == LoadingSize(s.cap, dt)
            && 1 <= k <= r.cap && k <= c.count - c.created
            && r.log == s.log + Indices(c.id, c.created, c.created + k)
            && r.queue == s.queue && r.pending == s.pending + 1
            && (c.created + k == c.count ==> r.current.None? && (v == AsWritten ==> !r.running))
            && (c.created + k < c.count ==> r.current == Some(c.(created := c.created + k)) && r.running == s.running)
  {
  }

  /** The queue is only shifted when there is no current job, and then by exactly its head. */
  lemma ScheduleDequeues(v: Variant, s: Loader, dt: real, over: nat)
    requires LoaderValid(s)
    ensures var r := Scheduled(v, s, dt, over);
            && LoaderValid(r)
            && (s.current.Some? || s.queue == [] ==> r.queue == s.queue)
            && (s.current.None? && s.queue != [] ==> r.queue == s.queue[1..])
  {
    if s.current.None? && s.queue != [] {
      var t := s.(current := Some(Current(s.queue[0].id, s.queue[0].count, 0)), queue := s.queue[1..]);
      assert LoaderValid(t) by {
        forall i | 0 <= i < |t.queue| ensures t.queue[i].count > 0 {
          assert t.queue[i] == s.queue[i + 1];
        }
      }
      ExecuteSlice(v, t, dt, over);
    } else if s.current.Some? {
      ExecuteSlice(v, s, dt, over);
    }
  }

  /**
   * addTask refuses a missing source or a count of zero or less and
   * changes nothing; an accepted job joins the end of the queue, and only
   * when nothing is running does a run start at once.
   */
  lemma AddTaskQueues(v: Variant, s: Loader, source: Option<nat>, count: int, dt: real, over: nat)
    requires LoaderValid(s)
    ensures var r := TaskAdded(v, s, source, count, dt, over);
            && LoaderValid(r)
            && (source.None? || count <= 0 ==> r == s)
            && (source.Some? && count > 0 && s.running ==>
                  r == s.(queue := s.queue + [Job(s.nextId, count)], nextId := s.nextId + 1))
            && (source.Some? && count > 0 && !s.running ==> r.pending == s.pending + 1 && r.thisFrame > s.thisFrame)
  {
    if source.Some? && count > 0 {
      var queued := s.(queue := s.queue + [Job(s.nextId, count)], nextId := s.nextId + 1);
      assert LoaderValid(queued) by {
        forall i | 0 <= i < |queued.queue| ensures queued.queue[i].count > 0 {
          if i < |s.queue| { assert queued.queue[i] == s.queue[i]; }
        }
      }
      if !s.running {
        var t := queued.(running := true);
        if s.current.Some? {
          ExecuteSlice(v, t, dt, over);
        } else {
          var u := t.(current := Some(Current(t.queue[0].id, t.queue[0].count, 0)), queue := t.queue[1..]);
          assert LoaderValid(u) by {
            forall i | 0 <= i < |u.queue| ensures u.queue[i].count > 0 {
              assert u.queue[i] == t.queue[i + 1];
            }
          }
          ExecuteSlice(v, u, dt, over);
        }
      }
    }
  }

  lemma {:induction false} CallbacksValid(v: Variant, s: Loader, n: nat, dt: real, over: nat)
    requires LoaderValid(s)
    decreases n
    ensures LoaderValid(Callbacks(v, s, n, dt, over))
  {
    if n > 0 {
      ScheduleDequeues(v, s, dt, over);
      CallbacksValid(v, Scheduled(v, s, dt, over), n - 1, dt, over);
    }
  }

  /** clear empties the queue and drops the current job; the code as written also clears the running flag. */
  lemma ClearResets(v: Variant, s: Loader)
    requires LoaderValid(s)
    ensures var r := Cleared(v, s);
            && LoaderValid(r) && r.queue == [] && r.current.None?
            && (v == AsWritten ==> !r.running) && r.pending == s.pending && r.log == s.log
  {
  }

  /**
   * The frames are driven by `pending`: a frame with no callback waiting
   * changes nothing but the frame's count.
   */
  lemma IdleFrame(v: Variant, s: Loader, dt: real, over: nat)
    requires s.pending == 0
    ensures Ticked(v, s, dt, over) == s.(thisFrame := 0)
  {
  }

  /**
   * Every event keeps the loader well formed: in particular the per-frame
   * cap stays within [1, 20] whatever the frame rates.
   */
  lemma {:induction false} RunValid(v: Variant, s: Loader, events: seq<Event>)
    requires LoaderValid(s)
    decreases |events|
    ensures LoaderValid(Run(v, s, events))
  {
    if events != [] {
      match events[0] {
        case Add(source, count, dt, over) => AddTaskQueues(v, s, source, count, dt, over);
        case ClearAll => ClearResets(v, s);
        case Frame(dt, over) => CallbacksValid(v, s.(thisFrame := 0, pending := 0), s.pending, dt, over);
      }
      RunValid(v, Apply(v, s, events[0]), events[1..]);
    }
  }

  /** A frame rate of 40: the cap stays where it is. */
  const SteadyDt: real := 0.025

  lemma SteadyKeepsCap()
    ensures LoadingSize(5, SteadyDt) == 5
  {
    assert 1.0 / SteadyDt == 40.0;
  }

  /** A first job of five finishes within its slice and clears the running flag; its callback stays pending. */
  lemma FirstJobFinishes()
    ensures TaskAdded(AsWritten, Fresh(), Some(0), 5, SteadyDt, 5) == Loader([], None, 5, false, 1, Indices(0, 0, 5), 5, 1)
  {
    SteadyKeepsCap();
    var queued := Fresh().(queue := [Job(0, 5)], nextId := 1);
    assert Fresh().queue + [Job(0, 5)] == [Job(0, 5)];
    var t := queued.(running := true);
    assert Scheduled(AsWritten, t, SteadyDt, 5) == Executed(AsWritten, t.(current := Some(Current(0, 5, 0)), queue := []), SteadyDt, 5);
  }

  /** A second job added in the same frame starts another run at once. */
  lemma SecondJobRunsAtOnce(s: Loader)
    requires s == Loader([], None, 5, false, 1, Indices(0, 0, 5), 5, 1)
    ensures TaskAdded(AsWritten, s, Some(0), 20, SteadyDt, 5)
              == Loader([], Some(Current(1, 20, 5)), 5, true, 2, Indices(0, 0, 5) + Indices(1, 0, 5), 10, 2)
  {
    SteadyKeepsCap();
    var queued := s.(queue := [Job(1, 20)], nextId := 2);
    assert s.queue + [Job(1, 20)] == [Job(1, 20)];
    var t := queued.(running := true);
    assert Scheduled(AsWritten, t, SteadyDt, 5) == Executed(AsWritten, t.(current := Some(Current(1, 20, 0)), queue := []), SteadyDt, 5);
  }

  /**
   * As written, a job that finishes within its first slice clears the
   * running flag while its frame callback is still pending. A second
   * addTask in the same frame then starts another run at once: ten nodes
   * are made in one frame under a cap of five, and two callback chains
   * stay alive.
   */
  lemma TwoChainsAsWritten()
    ensures var s := Run(AsWritten, Fresh(), [Add(Some(0), 5, SteadyDt, 5), Add(Some(0), 20, SteadyDt, 5)]);
            s.thisFrame == 10 && s.cap == 5 && s.pending == 2 && s.current == Some(Current(1, 20, 5))
  {
    var e := [Add(Some(0), 5, SteadyDt, 5), Add(Some(0), 20, SteadyDt, 5)];
    FirstJobFinishes();
    var s1 := Apply(AsWritten, Fresh(), e[0]);
    SecondJobRunsAtOnce(s1);
    assert e[1..][1..] == [];
    assert Run(AsWritten, Fresh(), e) == Run(AsWritten, Apply(AsWritten, s1, e[1]), []);
  }

  /**
   * The single-chain invariant: exactly one callback is pending while a
   * run is on, none otherwise, an idle instantiator has made nothing this
   * frame, and this frame's count is within the cap.
   */
  predicate Chained(s: Loader)
  {
    && LoaderValid(s)
    && s.pending == (if s.running then 1 else 0)
    && (!s.running ==> s.current.None? && s.queue == [] && s.thisFrame == 0)
    && s.thisFrame <= s.cap
  }

  lemma ChainedAdd(s: Loader, source: Option<nat>, count: int, dt: real, over: nat)
    requires Chained(s)
    ensures Chained(TaskAdded(SingleChain, s, source, count, dt, over))
  {
    AddTaskQueues(SingleChain, s, source, count, dt, over);
    if source.Some? && count > 0 && !s.running {
      var t := s.(queue := [Job(s.nextId, count)], nextId := s.nextId + 1, running := true);
      assert s.queue + [Job(s.nextId, count)] == [Job(s.nextId, count)];
      var u := t.(current := Some(Current(s.nextId, count, 0)), queue := []);
      ExecuteSlice(SingleChain, u, dt, over);
    }
  }

  lemma ChainedFrame(s: Loader, dt: real, over: nat)
    requires Chained(s)
    ensures Chained(Ticked(SingleChain, s, dt, over))
  {
    var t := s.(thisFrame := 0, pending := 0);
    if s.running {
      assert Ticked(SingleChain, s, dt, over) == Callbacks(SingleChain, Scheduled(SingleChain, t, dt, over), 0, dt, over);
      ScheduleDequeues(SingleChain, t, dt, over);
      if t.current.Some? {
        ExecuteSlice(SingleChain, t, dt, over);
      } else if t.queue != [] {
        var u := t.(current := Some(Current(t.queue[0].id, t.queue[0].count, 0)), queue := t.queue[1..]);
        ExecuteSlice(SingleChain, u, dt, over);
      }
    }
  }

  /**
   * With the running flag kept for as long as a callback is pending, no
   * sequence of addTask, clear and frames ever makes more nodes in one
   * frame than the cap allows, and at most one callback chain exists.
   */
  lemma {:induction false} SingleChainKeepsCap(s: Loader, events: seq<Event>)
    requires Chained(s)
    decreases |events|
    ensures Chained(Run(SingleChain, s, events))
    ensures Run(SingleChain, s, events).thisFrame <= Run(SingleChain, s, events).cap
    ensures Run(SingleChain, s, events).pending <= 1
  {
    if events != [] {
      match events[0] {
        case Add(source, count, dt, over) => ChainedAdd(s, source, count, dt, over);
        case ClearAll => ClearResets(SingleChain, s);
        case Frame(dt, over) => ChainedFrame(s, dt, over);
      }
      SingleChainKeepsCap(Apply(SingleChain, s, events[0]), events[1..]);
    }
  }

  /** The code as written, run by the engine one call and one frame at a time. */
  class FrameInstantiator {
    var queue: seq<Job>
    var current: Option<Current>
    /** MAX_PRELOAD_FRAME. */
    var cap: nat
    /** m_isRuning. */
    var running: bool
    /** Animation-frame callbacks requested and not yet run. */
    var pending: nat
    /** Every node created so far, with the index its callback (if one was given) receives. */
    var log: seq<Creation>
    /** Nodes made since the current frame began. */
    var thisFrame: nat
    var nextId: nat

    function State(): Loader
      reads this
    {
      Loader(queue, current, cap, running, pending, log, thisFrame, nextId)
    }

    ghost predicate Valid()
      reads this
    {
      LoaderValid(State())
    }

    constructor ()
      ensures Valid() && State() == Fresh()
    {
      queue, current, cap, running, pending, log, thisFrame, nextId := [], None, 5, false, 0, [], 0, 0;
    }

    method AddTask(source: Option<nat>, count: int, dt: real, over: nat)
      requires Valid()
      modifies this
      ensures Valid() && State() == TaskAdded(AsWritten, old(State()), source, count, dt, over)
    {
      AddTaskQueues(AsWritten, State(), source, count, dt, over);
      if source.None? || count <= 0 {
        return;
      }
      queue, nextId := queue + [Job(nextId, count)], nextId + 1;
      if !running {
        RunTask(dt, over);
      }
    }

    method RunTask(dt: real, over: nat)
      requires JobsReady(queue) && 1 <= cap <= 20
      requires current.Some? ==> current.value.created < current.value.count
      modifies this
      ensures State() == RunStarted(AsWritten, old(State()), dt, over)
    {
      running := true;
      if queue == [] {
        running := false;
        return;
      }
      ScheduleFrameLoading(dt, over);
    }

    method ScheduleFrameLoading(dt: real, over: nat)
      requires JobsReady(queue) && 1 <= cap <= 20
      requires current.Some? ==> current.value.created < current.value.count
      modifies this
      ensures State() == Scheduled(AsWritten, old(State()), dt, over)
    {
      if current.None? && queue != [] {
        current, queue := Some(Current(queue[0].id, queue[0].count, 0)), queue[1..];
      }
      ExecuteFrameLoading(dt, over);
    }

    method ExecuteFrameLoading(dt: real, over: nat)
      requires current.Some? ==> current.value.created < current.value.count
      modifies this
      ensures State() == Executed(AsWritten, old(State()), dt, over)
    {
      if current.None? {
        return;
      }
      cap := LoadingSize(cap, dt);
      var after, made := Slice(current.value, cap, over);
      log, thisFrame, pending := log + made, thisFrame + |made|, pending + 1;
      if after.created >= after.count {
        current, running := None, false;
      } else {
        current := Some(after);
      }
    }

    method Clear()
      requires Valid()
      modifies this
      ensures Valid() && State() == Cleared(AsWritten, old(State()))
    {
      queue, current, running := [], None, false;
    }

    /** A new frame: the callbacks requested during the last one run, one after the other. */
    method Tick(dt: real, over: nat)
      requires Valid()
      modifies this
      ensures Valid() && State() == Ticked(AsWritten, old(State()), dt, over)
    {
      var n := pending;
      thisFrame, pending := 0, 0;
      ghost var start := State();
      var i := 0;
      while i < n
        invariant 0 <= i <= n && Valid()
        invariant Callbacks(AsWritten, State(), n - i, dt, over) == Callbacks(AsWritten, start, n, dt, over)
      {
        ScheduleDequeues(AsWritten, State(), dt, over);
        ScheduleFrameLoading(dt, over);
        i := i + 1;
      }
    }
  }
}
