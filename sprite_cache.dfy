// A sprite-frame memo over the path cache (assets/Activity/SpriteCache.ts).
// Loads go straight to the engine loader; each load is a record keyed by its
// id, and LoadFinished / AsyncLoadFinished are the steps that run when the
// engine answers. The callback-style getter also calls back synchronously
// with whatever the cache held, so a miss reaches the caller twice.
module SpriteCaching {
  import opened Common
  import opened ResCacheModel

  /** What a callback is called with: a frame, null, or undefined. */
  datatype Frame = FrameOf(asset: Asset) | NullFrame | Undefined

  /** One call of a caller's callback. */
  datatype FrameDelivery = FrameDelivery(callback: nat, frame: Frame)

  /** A load in flight: the path and, for the callback getter, the callback (absent when none was given). */
  datatype FrameLoad =
    | CallbackLoad(path: string, callback: Option<nat>)
    | AwaitedLoad(path: string)

  /** `callback?.(frame)`: a call only when there is a callback. */
  function Call(cb: Option<nat>, f: Frame): (r: seq<FrameDelivery>)
    ensures cb.None? <==> r == []
    ensures cb.Some? ==> r == [FrameDelivery(cb.value, f)]
  {
    if cb.Some? then [FrameDelivery(cb.value, f)] else []
  }

  class SpriteCache {
    /** The ResCache this object creates; `dropped` is set once destroy nulls the reference. */
    const store: ResCache
    var dropped: bool
    /** The paths asked of the engine loader, in order. */
    var requests: seq<string>
    var loads: map<nat, FrameLoad>
    var nextLoad: nat
    /** Every callback call, in order. */
    var delivered: seq<FrameDelivery>
    /** How each awaited load settled, by load id. */
    var results: map<nat, Outcome<Option<Asset>>>

    ghost predicate Valid()
      reads this
    {
      && (forall k :: k in loads ==> k < nextLoad && k !in results && loads[k].path != "")
      && (forall k :: k in results ==> k < nextLoad)
    }

    constructor ()
      ensures Valid() && fresh(store) && store.cacheMap == map[] && !dropped
      ensures requests == [] && loads == map[] && delivered == [] && results == map[]
    {
      store := new ResCache();
      dropped := false;
      requests := [];
      loads := map[];
      nextLoad := 0;
      delivered := [];
      results := map[];
    }

    /** Whether the cache holds a frame for the path (getCacheRes is truthy). */
    predicate Hit(path: string)
      reads this, store
    {
      path != "" && path in store.cacheMap
    }

    /**
     * destroy: empties the cache and drops the reference to it; a second
     * destroy calls through null.
     */
    method Destroy() returns (r: Outcome<Unit>)
      modifies this, store
      ensures dropped
      ensures old(dropped) ==> r == Rejected(TypeError) && store.cacheMap == old(store.cacheMap)
      ensures !old(dropped) ==> r == Resolved(Unit) && store.cacheMap == map[]
      ensures store.released == old(store.released) && loads == old(loads) && results == old(results)
      ensures requests == old(requests) && delivered == old(delivered) && nextLoad == old(nextLoad)
    {
      if dropped {
        return Rejected(TypeError);
      }
      store.Destroy();
      dropped := true;
      r := Resolved(Unit);
    }

    /**
     * getSpriteFrame: a hit calls back once with the cached frame. A miss
     * asks the loader (which calls back at once with an error for an empty
     * path, giving null) and then calls back with undefined; the loaded
     * frame, or null, arrives later. After destroy the call throws.
     */
    method GetSpriteFrame(path: string, callback: Option<nat>) returns (r: Outcome<Unit>)
      requires Valid()
      modifies this
      ensures Valid()
      ensures results == old(results) && dropped == old(dropped)
      ensures dropped ==> r == Rejected(TypeError) && unchanged(this)
      ensures !dropped ==> r == Resolved(Unit)
      ensures !dropped && Hit(path) ==>
                && delivered == old(delivered) + Call(callback, FrameOf(store.cacheMap[path]))
                && loads == old(loads) && requests == old(requests)
      ensures !dropped && !Hit(path) && path == "" ==>
                && delivered == old(delivered) + Call(callback, NullFrame) + Call(callback, Undefined)
                && loads == old(loads) && requests == old(requests)
      ensures !dropped && !Hit(path) && path != "" ==>
                && delivered == old(delivered) + Call(callback, Undefined)
                && requests == old(requests) + [path]
                && loads == old(loads)[old(nextLoad) := CallbackLoad(path, callback)]
    {
      if dropped {
        return Rejected(TypeError);
      }
      var cached := store.GetCacheRes(path);
      if cached.Some? {
        delivered := delivered + Call(callback, FrameOf(cached.value));
        return Resolved(Unit);
      }
      if path == "" {
        delivered := delivered + Call(callback, NullFrame);
      } else {
        requests := requests + [path];
        loads := loads[nextLoad := CallbackLoad(path, callback)];
        nextLoad := nextLoad + 1;
      }
      delivered := delivered + Call(callback, Undefined);
      r := Resolved(Unit);
    }

    /**
     * The engine answered callback load `k`: an error calls back with null
     * and leaves the cache alone; a frame is cached and then handed to the
     * callback. After destroy, caching it calls through null and throws
     * before the callback.
     */
    method LoadFinished(k: nat, o: Outcome<Asset>) returns (r: Outcome<Unit>)
      requires Valid() && k in loads && loads[k].CallbackLoad?
      modifies this, store
      ensures Valid()
      ensures loads == old(loads) - {k}
      ensures requests == old(requests) && results == old(results) && dropped == old(dropped)
      ensures store.released == old(store.released)
      ensures var load := old(loads)[k];
              && (o.Rejected? ==>
                    r == Resolved(Unit) && store.cacheMap == old(store.cacheMap)
                    && delivered == old(delivered) + Call(load.callback, NullFrame))
              && (o.Resolved? && dropped ==>
                    r == Rejected(TypeError) && store.cacheMap == old(store.cacheMap) && delivered == old(delivered))
              && (o.Resolved? && !dropped ==>
                    && r == Resolved(Unit)
                    && store.cacheMap == old(store.cacheMap)[load.path := o.value]
                    && delivered == old(delivered) + Call(load.callback, FrameOf(o.value)))
    {
      var load := loads[k];
      loads := loads - {k};
      if o.Rejected? {
        delivered := delivered + Call(load.callback, NullFrame);
        return Resolved(Unit);
      }
      if dropped {
        return Rejected(TypeError);
      }
      store.SetCacheRes(load.path, Some(o.value));
      delivered := delivered + Call(load.callback, FrameOf(o.value));
      r := Resolved(Unit);
    }

    /**
     * getSpriteFrameAsync: a hit resolves with the cached frame; a miss
     * awaits the loader, which rejects an empty path at once; after
     * destroy the call rejects.
     */
    method GetSpriteFrameAsync(path: string) returns (h: Handle<Option<Asset>>)
      requires Valid()
      modifies this
      ensures Valid()
      ensures results == old(results) && delivered == old(delivered) && dropped == old(dropped)
      ensures dropped ==> h == Settled(Rejected(TypeError)) && unchanged(this)
      ensures !dropped && Hit(path) ==>
                h == Settled(Resolved(Some(store.cacheMap[path]))) && loads == old(loads) && requests == old(requests)
      ensures !dropped && !Hit(path) && path == "" ==>
                h == Settled(Rejected(InvalidArgument)) && loads == old(loads) && requests == old(requests)
      ensures !dropped && !Hit(path) && path != "" ==>
                && h == Pending(old(nextLoad))
                && requests == old(requests) + [path]
                && loads == old(loads)[old(nextLoad) := AwaitedLoad(path)]
    {
      if dropped {
        return Settled(Rejected(TypeError));
      }
      var cached := store.GetCacheRes(path);
      if cached.Some? {
        return Settled(Resolved(cached));
      }
      if path == "" {
        return Settled(Rejected(InvalidArgument));
      }
      requests := requests + [path];
      loads := loads[nextLoad := AwaitedLoad(path)];
      h := Pending(nextLoad);
      nextLoad := nextLoad + 1;
    }

    /**
     * The engine answered awaited load `k`: a failure rejects with the
     * cache untouched; a frame is cached and returned (after destroy the
     * caching throws and the promise rejects).
     */
    method AsyncLoadFinished(k: nat, o: Outcome<Asset>)
      requires Valid() && k in loads && loads[k].AwaitedLoad?
      modifies this, store
      ensures Valid()
      ensures loads == old(loads) - {k}
      ensures requests == old(requests) && delivered == old(delivered) && dropped == old(dropped)
      ensures store.released == old(store.released)
      ensures var load := old(loads)[k];
              && (o.Rejected? ==> results == old(results)[k := Rejected(o.error)] && store.cacheMap == old(store.cacheMap))
              && (o.Resolved? && dropped ==> results == old(results)[k := Rejected(TypeError)] && store.cacheMap == old(store.cacheMap))
              && (o.Resolved? && !dropped ==>
                    results == old(results)[k := Resolved(Some(o.value))]
                    && store.cacheMap == old(store.cacheMap)[load.path := o.value])
    {
      var load := loads[k];
      loads := loads - {k};
      if o.Rejected? {
        results := results[k := Rejected(o.error)];
      } else if dropped {
        results := results[k := Rejected(TypeError)];
      } else {
        store.SetCacheRes(load.path, Some(o.value));
        results := results[k := Resolved(Some(o.value))];
      }
    }
  }

  /**
   * A miss reaches the callback twice: undefined at once, then the loaded
   * frame; the second get of the path is a hit that issues no load.
   */
  method MissCallsBackTwice(sc: SpriteCache, path: string, cb: nat, a: Asset)
    requires sc.Valid() && !sc.dropped && path != "" && path !in sc.store.cacheMap
    modifies sc, sc.store
    ensures sc.delivered == old(sc.delivered) +
              [FrameDelivery(cb, Undefined), FrameDelivery(cb, FrameOf(a)), FrameDelivery(cb, FrameOf(a))]
    ensures sc.requests == old(sc.requests) + [path]
  {
    var k := sc.nextLoad;
    var r1 := sc.GetSpriteFrame(path, Some(cb));
    var r2 := sc.LoadFinished(k, Resolved(a));
    var r3 := sc.GetSpriteFrame(path, Some(cb));
  }
}
