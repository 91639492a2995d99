// The caching facade over the loader (assets/Core/resource/manager/ResourceManager.ts).
//
// The source imports its cache from a `cache/ResourceCache` file that is not
// part of this model; the path-keyed cache of ResCacheModel stands in for it.
module ResourceManaging {
  import opened Common
  import opened ResCacheModel
  import opened ResourceLoading

  /** A callback-style request waiting for the loader to call its relay back. */
  datatype Relay = Relay(path: string, useCache: bool, callback: Option<nat>)

  /** A promise-style request waiting for a loader task. */
  datatype AsyncRequest = AsyncRequest(path: string, useCache: bool, loaderTask: TaskId)

  /** One invocation of a caller's callback by the manager. */
  datatype CallerDelivery = CallerDelivery(callback: nat, outcome: Outcome<Asset>)

  function NotifyCaller(cb: Option<nat>, o: Outcome<Asset>): seq<CallerDelivery>
  {
    if cb.Some? then [CallerDelivery(cb.value, o)] else []
  }

  class ResourceManager {
    /** m_resLoader: the shared loader. */
    const loader: ResourceLoader
    /** m_resCache: this manager's own cache. */
    const cache: ResCache
    /** Callback-style requests in flight, by relay number. */
    var relays: map<nat, Relay>
    var nextRelay: nat
    /** Caller callbacks invoked, oldest first. */
    var delivered: seq<CallerDelivery>
    /** Errors the relay re-raised because the caller passed no callback. */
    var unhandled: nat
    /** Promise-style requests in flight and settled, by task number. */
    var awaiting: map<TaskId, AsyncRequest>
    var results: map<TaskId, Outcome<Asset>>
    var nextTask: nat

    /** With `useCache`, the cache answers for `path` without asking the loader. */
    predicate Hit(path: string, useCache: bool)
      reads this, cache
    {
      useCache && path != "" && path in cache.cacheMap
    }

    ghost predicate Valid()
      reads this, loader
    {
      && loader.Valid()
      && (forall r :: r in relays ==> r < nextRelay)
      && (forall m :: m in awaiting ==> m < nextTask && m !in results)
      && (forall m :: m in results ==> m < nextTask)
    }

    constructor (shared: ResourceLoader)
      requires shared.Valid()
      ensures Valid() && loader == shared && fresh(cache)
      ensures cache.cacheMap == map[] && relays == map[] && awaiting == map[] && results == map[]
      ensures delivered == [] && unhandled == 0
    {
      loader := shared;
      cache := new ResCache();
      relays := map[];
      nextRelay := 0;
      delivered := [];
      unhandled := 0;
      awaiting := map[];
      results := map[];
      nextTask := 0;
    }

    /**
     * The relay the manager hands the loader: an error goes to the caller
     * (or is re-raised when there is no callback, since the source calls it
     * without a null check); an asset is cached when `useCache` and then
     * passed on.
     */
    method RunRelay(r: nat, o: Outcome<Asset>)
      requires Valid() && r in relays
      modifies this, cache
      ensures Valid()
      ensures relays == old(relays) - {r}
      ensures awaiting == old(awaiting) && results == old(results)
      ensures var rel := old(relays)[r];
              && (o.Rejected? ==>
                    cache.cacheMap == old(cache.cacheMap)
                    && (rel.callback.Some? ==> delivered == old(delivered) + [CallerDelivery(rel.callback.value, o)] && unhandled == old(unhandled))
                    && (rel.callback.None? ==> delivered == old(delivered) && unhandled == old(unhandled) + 1))
              && (o.Resolved? ==>
                    cache.cacheMap == (if rel.useCache && rel.path != "" then old(cache.cacheMap)[rel.path := o.value] else old(cache.cacheMap))
                    && delivered == old(delivered) + NotifyCaller(rel.callback, o)
                    && unhandled == old(unhandled))
      ensures cache.released == old(cache.released)
    {
      var rel := relays[r];
      relays := relays - {r};
      if o.Rejected? {
        if rel.callback.Some? {
          delivered := delivered + [CallerDelivery(rel.callback.value, o)];
        } else {
          unhandled := unhandled + 1;
        }
        return;
      }
      if rel.useCache {
        cache.SetCacheRes(rel.path, Some(o.value));
      }
      delivered := delivered + NotifyCaller(rel.callback, o);
    }

    /**
     * loadRes: with `useCache`, a cached asset is handed to the callback at
     * once and the loader is not asked; otherwise the loader is asked with a
     * relay callback (which it runs at once on a missing path or type).
     */
    method LoadRes(path: string, kind: Option<AssetKind>, useCache: bool, callback: Option<nat>)
      requires Valid()
      modifies this, loader, cache
      ensures Valid()
      ensures awaiting == old(awaiting) && results == old(results)
      ensures cache.released == old(cache.released) && cache.cacheMap == old(cache.cacheMap)
      ensures old(Hit(path, useCache)) ==>
                && unchanged(loader)
                && delivered == old(delivered) + NotifyCaller(callback, Resolved(old(cache.cacheMap)[path]))
                && relays == old(relays)
      ensures !old(Hit(path, useCache)) && path != "" && kind.Some? ==>
                && relays == old(relays)[old(nextRelay) := Relay(path, useCache, callback)]
                && delivered == old(delivered)
                && loader.requests == old(loader.requests) + (if path in old(loader.loadingQueue) then [] else [path])
                && path in loader.loadingQueue
                && RelayCallback(old(nextRelay)) in loader.pending[loader.loadingQueue[path]].waiters
      ensures !old(Hit(path, useCache)) && (path == "" || kind.None?) ==>
                && loader.requests == old(loader.requests)
                && relays == old(relays)
                && (callback.Some? ==> delivered == old(delivered) + [CallerDelivery(callback.value, Rejected(InvalidArgument))])
                && (callback.None? ==> unhandled == old(unhandled) + 1)
    {
      if useCache {
        var cached := cache.GetCacheRes(path);
        if cached.Some? {
          delivered := delivered + NotifyCaller(callback, Resolved(cached.value));
          return;
        }
      }
      RequestViaLoader(path, kind, useCache, callback);
    }

    /** The part of loadRes after a cache miss: the loader is asked with this request's relay. */
    method RequestViaLoader(path: string, kind: Option<AssetKind>, useCache: bool, callback: Option<nat>)
      requires Valid()
      modifies this, loader, cache
      ensures Valid()
      ensures awaiting == old(awaiting) && results == old(results)
      ensures cache.released == old(cache.released) && cache.cacheMap == old(cache.cacheMap)
      ensures path != "" && kind.Some? ==>
                && relays == old(relays)[old(nextRelay) := Relay(path, useCache, callback)]
                && delivered == old(delivered)
                && loader.requests == old(loader.requests) + (if path in old(loader.loadingQueue) then [] else [path])
                && path in loader.loadingQueue
                && RelayCallback(old(nextRelay)) in loader.pending[loader.loadingQueue[path]].waiters
      ensures path == "" || kind.None? ==>
                && loader.requests == old(loader.requests)
                && relays == old(relays)
                && (callback.Some? ==> delivered == old(delivered) + [CallerDelivery(callback.value, Rejected(InvalidArgument))])
                && (callback.None? ==> unhandled == old(unhandled) + 1)
    {
      var r := nextRelay;
      relays := relays[r := Relay(path, useCache, callback)];
      nextRelay := nextRelay + 1;
      loader.LoadRes(path, kind, Some(RelayCallback(r)));
      if path == "" || kind.None? {
        RunRelay(r, Rejected(InvalidArgument));
        assert relays == old(relays);
      } else {
        assert loader.loadingQueue[path] in loader.pending;
        assert RelayCallback(r) in loader.pending[loader.loadingQueue[path]].waiters;
      }
    }

    /** The loader invoked the relay of request r (delivery i of its log). */
    method OnLoaderCallback(i: nat, r: nat)
      requires Valid() && r in relays
      requires i < |loader.delivered| && loader.delivered[i].callback == RelayCallback(r)
      modifies this, cache
      ensures Valid()
      ensures relays == old(relays) - {r}
      ensures var rel := old(relays)[r];
              var o := loader.delivered[i].outcome;
              (o.Resolved? && rel.useCache && rel.path != "" ==> cache.cacheMap == old(cache.cacheMap)[rel.path := o.value])
              && (!(o.Resolved? && rel.useCache) ==> cache.cacheMap == old(cache.cacheMap))
    {
      RunRelay(r, loader.delivered[i].outcome);
    }

    /**
     * loadResAsync: with `useCache`, a cached asset resolves the promise and
     * the loader is not asked; otherwise the promise waits on the loader's
     * task (a missing path or type rejects it).
     */
    method LoadResAsync(path: string, kind: Option<AssetKind>, useCache: bool) returns (h: Handle<Asset>)
      requires Valid()
      modifies this, loader
      ensures Valid()
      ensures relays == old(relays) && delivered == old(delivered) && results == old(results)
      ensures Hit(path, useCache) ==>
                h == Settled(Resolved(cache.cacheMap[path])) && unchanged(loader) && awaiting == old(awaiting)
      ensures !Hit(path, useCache) && (path == "" || kind.None?) ==>
                h == Settled(Rejected(InvalidArgument)) && loader.requests == old(loader.requests)
                && awaiting == old(awaiting)
      ensures !Hit(path, useCache) && path != "" && kind.Some? ==>
                && h == Pending(old(nextTask))
                && path in loader.loadingQueue
                && awaiting == old(awaiting)[old(nextTask) := AsyncRequest(path, useCache, loader.loadingQueue[path])]
                && loader.requests == old(loader.requests) + (if path in old(loader.loadingQueue) then [] else [path])
    {
      if useCache {
        var cached := cache.GetCacheRes(path);
        if cached.Some? {
          return Settled(Resolved(cached.value));
        }
      }
      var lh := loader.LoadResAsync(path, kind);
      if lh.Settled? {
        return lh;
      }
      var m := nextTask;
      awaiting := awaiting[m := AsyncRequest(path, useCache, lh.task)];
      nextTask := nextTask + 1;
      h := Pending(m);
    }

    /**
     * The loader task a promise-style request waits on has settled: on
     * success the asset is cached when `useCache`; either way the request
     * settles the same way. A failure leaves the cache as it was.
     */
    method OnLoaderSettled(m: TaskId)
      requires Valid() && m in awaiting && awaiting[m].loaderTask in loader.results
      modifies this, cache
      ensures Valid()
      ensures awaiting == old(awaiting) - {m}
      ensures results == old(results)[m := loader.results[old(awaiting)[m].loaderTask]]
      ensures var req := old(awaiting)[m];
              var o := loader.results[req.loaderTask];
              && (o.Resolved? && req.useCache && req.path != "" ==> cache.cacheMap == old(cache.cacheMap)[req.path := o.value])
              && (!(o.Resolved? && req.useCache) ==> cache.cacheMap == old(cache.cacheMap))
      ensures relays == old(relays) && delivered == old(delivered)
    {
      var req := awaiting[m];
      var o := loader.results[req.loaderTask];
      if o.Resolved? && req.useCache {
        cache.SetCacheRes(req.path, Some(o.value));
      }
      awaiting := awaiting - {m};
      results := results[m := o];
    }

    /** destroy: empties this manager's cache. */
    method Destroy()
      requires Valid()
      modifies cache
      ensures cache.cacheMap == map[] && cache.released == old(cache.released)
    {
      cache.Destroy();
    }

    /** getCachedRes: what the cache holds for `path`. */
    method GetCachedRes(path: string) returns (r: Option<Asset>)
      ensures r.Some? <==> path != "" && path in cache.cacheMap
      ensures r.Some? ==> r.value == cache.cacheMap[path]
    {
      r := cache.GetCacheRes(path);
    }

    /** removeCachedRes: drops and releases the cached asset for `path`. */
    method RemoveCachedRes(path: string) returns (removed: bool)
      modifies cache
      ensures removed <==> path != "" && path in old(cache.cacheMap)
      ensures removed ==> cache.cacheMap == old(cache.cacheMap) - {path}
                          && cache.released == old(cache.released) + [old(cache.cacheMap)[path]]
      ensures !removed ==> cache.cacheMap == old(cache.cacheMap) && cache.released == old(cache.released)
    {
      removed := cache.RemoveCacheRes(path);
    }
  }

  /**
   * A successful cached load followed by a second load of the same path:
   * the second is served from the cache and issues no transport request.
   */
  method SecondLoadIsCached(rm: ResourceManager, path: string, kind: AssetKind, a: Asset)
    returns (first: Handle<Asset>, second: Handle<Asset>)
    requires rm.Valid() && path != "" && path !in rm.cache.cacheMap && path !in rm.loader.loadingQueue
    modifies rm, rm.loader, rm.cache
    ensures first.Pending? && first.task in rm.results && rm.results[first.task] == Resolved(a)
    ensures second == Settled(Resolved(a))
    ensures rm.loader.requests == old(rm.loader.requests) + [path]
  {
    first := rm.LoadResAsync(path, Some(kind), true);
    var lt := rm.awaiting[first.task].loaderTask;
    rm.loader.OnTransportDone(lt, Resolved(a));
    rm.OnLoaderSettled(first.task);
    second := rm.LoadResAsync(path, Some(kind), true);
  }
}
