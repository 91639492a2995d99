// The path-keyed asset cache (assets/Core/Utils/ResCache.ts).
module ResCacheModel {
  import opened Common

  class ResCache {
    /** m_cacheMap: path -> asset. */
    var cacheMap: map<string, Asset>
    /** The assets handed to the engine's release call, oldest first. */
    var released: seq<Asset>

    constructor ()
      ensures cacheMap == map[] && released == []
    {
      cacheMap := map[];
      released := [];
    }

    /** Stores `asset` under `path`; an empty path or a missing asset is logged and ignored. */
    method SetCacheRes(path: string, asset: Option<Asset>)
      modifies this
      ensures path == "" || asset.None? ==> cacheMap == old(cacheMap)
      ensures path != "" && asset.Some? ==> cacheMap == old(cacheMap)[path := asset.value]
      ensures released == old(released)
    {
      if path == "" || asset.None? {
        return;
      }
      cacheMap := cacheMap[path := asset.value];
    }

    /** The asset cached under `path`; nothing for an empty or unknown path. */
    method GetCacheRes(path: string) returns (r: Option<Asset>)
      ensures r.Some? <==> path != "" && path in cacheMap
      ensures r.Some? ==> r.value == cacheMap[path]
    {
      if path == "" {
        return None;
      }
      if path in cacheMap {
        r := Some(cacheMap[path]);
      } else {
        r := None;
      }
    }

    /**
     * Drops the entry for `path` and releases its asset; true exactly when
     * there was an entry to drop.
     */
    method RemoveCacheRes(path: string) returns (removed: bool)
      modifies this
      ensures removed <==> path != "" && path in old(cacheMap)
      ensures removed ==> cacheMap == old(cacheMap) - {path}
                          && released == old(released) + [old(cacheMap)[path]]
      ensures !removed ==> cacheMap == old(cacheMap) && released == old(released)
    {
      if path == "" {
        return false;
      }
      if path in cacheMap {
        var asset := cacheMap[path];
        cacheMap := cacheMap - {path};
        released := released + [asset];
        return true;
      }
      return false;
    }

    /** Empties the cache without releasing anything. */
    method Destroy()
      modifies this
      ensures cacheMap == map[] && released == old(released)
    {
      cacheMap := map[];
    }
  }

  /** Setting then reading a non-empty path gives back the stored asset, whatever was there. */
  method SetThenGet(c: ResCache, path: string, a: Asset) returns (r: Option<Asset>)
    requires path != ""
    modifies c
    ensures r == Some(a)
    ensures c.cacheMap == old(c.cacheMap)[path := a]
  {
    c.SetCacheRes(path, Some(a));
    r := c.GetCacheRes(path);
  }

  /** Removing twice: the second removal finds nothing and releases nothing more. */
  method RemoveTwice(c: ResCache, path: string) returns (first: bool, second: bool)
    modifies c
    ensures first <==> path != "" && path in old(c.cacheMap)
    ensures !second
    ensures |c.released| == |old(c.released)| + (if first then 1 else 0)
  {
    first := c.RemoveCacheRes(path);
    second := c.RemoveCacheRes(path);
  }
}
