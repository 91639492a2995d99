// The de-duplicating asset loader (assets/Core/resource/loader/ResourceLoader.ts).
//
// Every promise the loader creates is a pending task with a number; task t
// is the one that issued transport request t (the engine's `resources.load`).
// The engine's completion of request t is the step method OnTransportDone.
module ResourceLoading {
  import opened Common

  /** A callback handed to `loadRes`: one of an outside caller's, or the relay of a resource-manager request. */
  datatype Callback = UserCallback(id: nat) | RelayCallback(request: nat)

  /** One invocation of a callback with the error-or-asset pair it received. */
  datatype Delivery = Delivery(callback: Callback, outcome: Outcome<Asset>)

  /** An in-flight load: its path, the type the first caller asked for, and the callbacks waiting on it. */
  datatype LoadTask = LoadTask(path: string, kind: AssetKind, waiters: seq<Callback>)

  /** The delivery a callback-style call makes right away, if it was given a callback. */
  function Notify(cb: Option<Callback>, o: Outcome<Asset>): (d: seq<Delivery>)
    ensures cb.None? ==> d == []
    ensures cb.Some? ==> d == [Delivery(cb.value, o)]
  {
    if cb.Some? then [Delivery(cb.value, o)] else []
  }

  /** The deliveries a settled task makes: each waiter in the order it attached. */
  function Deliveries(waiters: seq<Callback>, o: Outcome<Asset>): (d: seq<Delivery>)
    ensures |d| == |waiters|
    ensures forall i :: 0 <= i < |d| ==> d[i] == Delivery(waiters[i], o)
  {
    if waiters == [] then [] else [Delivery(waiters[0], o)] + Deliveries(waiters[1..], o)
  }

  function Waiter(cb: Option<Callback>): seq<Callback>
  {
    if cb.Some? then [cb.value] else []
  }

  class ResourceLoader {
    /** m_loadingQueue: path -> the task loading it. */
    var loadingQueue: map<string, TaskId>
    /** Tasks whose transport request has not completed. */
    var pending: map<TaskId, LoadTask>
    /** Settled tasks and how they settled. */
    var results: map<TaskId, Outcome<Asset>>
    /** Transport requests issued, oldest first; request t is issued by task t. */
    var requests: seq<string>
    /** Callback invocations, oldest first. */
    var delivered: seq<Delivery>

    /**
     * The queue only names tasks still in flight, for the path they load;
     * every task is one transport request and settles at most once.
     */
    ghost predicate Valid()
      reads this
    {
      && (forall p :: p in loadingQueue ==>
            loadingQueue[p] in pending && pending[loadingQueue[p]].path == p)
      && (forall t :: t in pending ==> t < |requests| && requests[t] == pending[t].path && t !in results)
      && (forall t :: t in results ==> t < |requests|)
    }

    constructor ()
      ensures Valid()
      ensures loadingQueue == map[] && pending == map[] && results == map[]
      ensures requests == [] && delivered == []
    {
      loadingQueue := map[];
      pending := map[];
      results := map[];
      requests := [];
      delivered := [];
    }

    /** Opens task |requests| for `path` and issues its transport request. */
    method StartTask(path: string, kind: AssetKind, waiters: seq<Callback>) returns (t: TaskId)
      requires Valid() && path !in loadingQueue
      modifies this
      ensures Valid()
      ensures t == |old(requests)|
      ensures requests == old(requests) + [path]
      ensures loadingQueue == old(loadingQueue)[path := t]
      ensures pending == old(pending)[t := LoadTask(path, kind, waiters)]
      ensures results == old(results) && delivered == old(delivered)
    {
      t := |requests|;
      requests := requests + [path];
      pending := pending[t := LoadTask(path, kind, waiters)];
      loadingQueue := loadingQueue[path := t];
    }

    /**
     * loadRes: a missing path or type calls back with an error at once; a
     * path already in flight only attaches the callback to its task; any
     * other path issues one new request and records it in the queue.
     */
    method LoadRes(path: string, kind: Option<AssetKind>, callback: Option<Callback>)
      requires Valid()
      modifies this
      ensures Valid()
      ensures results == old(results)
      ensures path == "" || kind.None? ==>
                && loadingQueue == old(loadingQueue) && pending == old(pending)
                && requests == old(requests)
                && delivered == old(delivered) + Notify(callback, Rejected(InvalidArgument))
      ensures path != "" && kind.Some? && path in old(loadingQueue) ==>
                var t := old(loadingQueue)[path];
                && loadingQueue == old(loadingQueue) && requests == old(requests)
                && pending == old(pending)[t := old(pending)[t].(waiters := old(pending)[t].waiters + Waiter(callback))]
                && delivered == old(delivered)
      ensures path != "" && kind.Some? && path !in old(loadingQueue) ==>
                var t := |old(requests)|;
                && requests == old(requests) + [path]
                && loadingQueue == old(loadingQueue)[path := t]
                && pending == old(pending)[t := LoadTask(path, kind.value, Waiter(callback))]
                && delivered == old(delivered)
    {
      if path == "" || kind.None? {
        delivered := delivered + Notify(callback, Rejected(InvalidArgument));
        return;
      }
      if path in loadingQueue {
        var t := loadingQueue[path];
        pending := pending[t := pending[t].(waiters := pending[t].waiters + Waiter(callback))];
        return;
      }
      var _ := StartTask(path, kind.value, Waiter(callback));
    }

    /**
     * loadResAsync: a missing path or type gives an already rejected
     * promise; a path in flight gives the very task already loading it; any
     * other path issues one new request.
     */
    method LoadResAsync(path: string, kind: Option<AssetKind>) returns (h: Handle<Asset>)
      requires Valid()
      modifies this
      ensures Valid()
      ensures results == old(results) && delivered == old(delivered)
      ensures path == "" || kind.None? ==>
                h == Settled(Rejected(InvalidArgument))
                && loadingQueue == old(loadingQueue) && pending == old(pending) && requests == old(requests)
      ensures path != "" && kind.Some? && path in old(loadingQueue) ==>
                h == Pending(old(loadingQueue)[path])
                && loadingQueue == old(loadingQueue) && pending == old(pending) && requests == old(requests)
      ensures path != "" && kind.Some? && path !in old(loadingQueue) ==>
                var t := |old(requests)|;
                && h == Pending(t)
                && requests == old(requests) + [path]
                && loadingQueue == old(loadingQueue)[path := t]
                && pending == old(pending)[t := LoadTask(path, kind.value, [])]
      ensures h.Pending? ==> h.task in pending && pending[h.task].path == path && loadingQueue[path] == h.task
    {
      if path == "" || kind.None? {
        return Settled(Rejected(InvalidArgument));
      }
      if path in loadingQueue {
        return Pending(loadingQueue[path]);
      }
      var t := StartTask(path, kind.value, []);
      h := Pending(t);
    }

    /**
     * The engine completes transport request t: the path leaves the queue
     * whether the load failed or not, the task settles with the engine's
     * outcome and its callbacks are invoked in the order they attached.
     */
    method OnTransportDone(t: TaskId, outcome: Outcome<Asset>)
      requires Valid() && t in pending
      modifies this
      ensures Valid()
      ensures loadingQueue == old(loadingQueue) - {old(pending)[t].path}
      ensures pending == old(pending) - {t}
      ensures results == old(results)[t := outcome]
      ensures requests == old(requests)
      ensures delivered == old(delivered) + Deliveries(old(pending)[t].waiters, outcome)
    {
      var task := pending[t];
      loadingQueue := loadingQueue - {task.path};
      pending := pending - {t};
      results := results[t := outcome];
      delivered := delivered + Deliveries(task.waiters, outcome);
    }

    /**
     * cancelAll: forgets every in-flight path. The tasks are not rejected and
     * their transports go on; a new call for a forgotten path issues a
     * second request.
     */
    method CancelAll()
      requires Valid()
      modifies this
      ensures Valid()
      ensures loadingQueue == map[]
      ensures pending == old(pending) && results == old(results)
      ensures requests == old(requests) && delivered == old(delivered)
    {
      loadingQueue := map[];
    }
  }

  /**
   * k callers asking for one path while it is in flight share one task and
   * one transport request.
   */
  method ConcurrentLoads(l: ResourceLoader, path: string, kind: AssetKind, k: nat) returns (hs: seq<Handle<Asset>>)
    requires l.Valid() && path != ""
    modifies l
    ensures l.Valid()
    ensures |hs| == k
    ensures |l.requests| <= |old(l.requests)| + 1
    ensures k > 0 ==> |l.requests| == |old(l.requests)| + (if path in old(l.loadingQueue) then 0 else 1)
    ensures k > 0 ==> path in l.loadingQueue && forall i :: 0 <= i < k ==> hs[i] == Pending(l.loadingQueue[path])
  {
    hs := [];
    while |hs| < k
      invariant l.Valid()
      invariant |hs| <= k
      invariant |l.requests| == |old(l.requests)| + (if path in old(l.loadingQueue) || hs == [] then 0 else 1)
      invariant path in l.loadingQueue <==> path in old(l.loadingQueue) || hs != []
      invariant forall i :: 0 <= i < |hs| ==> hs[i] == Pending(l.loadingQueue[path])
      invariant path in old(l.loadingQueue) ==> path in l.loadingQueue && l.loadingQueue[path] == old(l.loadingQueue)[path]
    {
      var h := l.LoadResAsync(path, Some(kind));
      hs := hs + [h];
    }
  }

  /**
   * A failed transport also removes the path, so the next call issues a new
   * request instead of joining the failed task.
   */
  method RetryAfterFailure(l: ResourceLoader, path: string, kind: AssetKind, cause: nat)
    returns (first: Handle<Asset>, second: Handle<Asset>)
    requires l.Valid() && path != "" && path !in l.loadingQueue
    modifies l
    ensures l.Valid()
    ensures first.Pending? && second.Pending? && first.task != second.task
    ensures first.task in l.results && l.results[first.task] == Rejected(TransportFailure(cause))
    ensures l.requests == old(l.requests) + [path, path]
  {
    first := l.LoadResAsync(path, Some(kind));
    l.OnTransportDone(first.task, Rejected(TransportFailure(cause)));
    second := l.LoadResAsync(path, Some(kind));
  }
}
