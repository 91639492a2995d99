// Prefab-keyed node pools (assets/Core/pool/ObjectPool.ts).
//
// A pool per prefab uuid holds inactive nodes. The engine's NodePool is
// modelled as a sequence of node ids: `put` appends a node it does not
// already hold, `get` takes the most recently put node, `clear` destroys
// every held node.
module ObjectPooling {
  import opened Common

  /** A component of a node: which of the two pool hooks it defines. */
  datatype Component = Component(hasOnSpawn: bool, hasOnRecycle: bool)

  /** A prefab: its uuid (the pool key) and the components its instances carry. */
  datatype Prefab = Prefab(uuid: string, components: seq<Component>)

  /** What the pool needs to know about a scene node. */
  datatype PoolNode = PoolNode(components: seq<Component>, active: bool, valid: bool, attached: bool)

  /** A pool hook invoked on component `index` of node `node`. */
  datatype Hook = OnSpawn(node: NodeId, index: nat) | OnRecycle(node: NodeId, index: nat)

  const DefaultMaxPoolSize := 50

  /** isPoolableComponent: a component that defines at least one of the hooks. */
  predicate Poolable(c: Component)
  {
    c.hasOnSpawn || c.hasOnRecycle
  }

  /** The index of the first poolable component, if any. */
  function FirstPoolable(cs: seq<Component>): (r: Option<nat>)
    ensures r.Some? ==> r.value < |cs| && Poolable(cs[r.value])
                        && forall j :: 0 <= j < r.value ==> !Poolable(cs[j])
    ensures r.None? ==> forall j :: 0 <= j < |cs| ==> !Poolable(cs[j])
  {
    if cs == [] then None
    else if Poolable(cs[0]) then Some(0)
    else
      var rest := FirstPoolable(cs[1..]);
      if rest.Some? then Some(rest.value + 1) else None
  }

  /**
   * executeSpawnLogic: only the first poolable component is looked at; its
   * onSpawn runs if it has one (a first poolable component with only
   * onRecycle stops the search without any hook).
   */
  function SpawnHooks(n: NodeId, cs: seq<Component>): (hs: seq<Hook>)
    ensures |hs| <= 1
    ensures hs != [] <==> exists i :: 0 <= i < |cs| && cs[i].hasOnSpawn && (forall j :: 0 <= j < i ==> !Poolable(cs[j]))
    ensures forall i :: 0 <= i < |hs| ==> hs[i].OnSpawn? && hs[i].node == n && hs[i].index < |cs| && cs[hs[i].index].hasOnSpawn
  {
    var f := FirstPoolable(cs);
    if f.Some? && cs[f.value].hasOnSpawn then [OnSpawn(n, f.value)] else []
  }

  /** The onRecycle hooks of components at index `from` onwards, in component order. */
  function RecycleHooksFrom(n: NodeId, cs: seq<Component>, from: nat): (hs: seq<Hook>)
    requires from <= |cs|
    decreases |cs| - from
    ensures forall k :: 0 <= k < |hs| ==> hs[k].OnRecycle? && hs[k].node == n && from <= hs[k].index < |cs| && cs[hs[k].index].hasOnRecycle
    ensures forall k, l :: 0 <= k < l < |hs| ==> hs[k].index < hs[l].index
    ensures forall i :: from <= i < |cs| && cs[i].hasOnRecycle ==> OnRecycle(n, i) in hs
  {
    if from == |cs| then []
    else if cs[from].hasOnRecycle then [OnRecycle(n, from)] + RecycleHooksFrom(n, cs, from + 1)
    else RecycleHooksFrom(n, cs, from + 1)
  }

  /** executeRecycleLogic: every component's onRecycle, in component order. */
  function RecycleHooks(n: NodeId, cs: seq<Component>): seq<Hook>
  {
    RecycleHooksFrom(n, cs, 0)
  }

  /** NodePool.put: a node is held at most once. */
  function Put(pool: seq<NodeId>, n: NodeId): (r: seq<NodeId>)
    ensures n in r && |r| <= |pool| + 1
    ensures n in pool ==> r == pool
    ensures n !in pool ==> r == pool + [n]
  {
    if n in pool then pool else pool + [n]
  }

  class ObjectPool {
    /** m_poolMap: prefab uuid -> the nodes its pool holds, oldest first. */
    var poolMap: map<string, seq<NodeId>>
    /** m_maxPoolSize. */
    var maxPoolSize: int
    /** The scene nodes the pool has created or been handed. */
    var nodes: map<NodeId, PoolNode>
    /** The id the next instantiated node gets. */
    var nextNode: NodeId
    /** Pool hooks invoked, oldest first. */
    var hooks: seq<Hook>

    ghost predicate Valid()
      reads this
    {
      && (forall n :: n in nodes ==> n < nextNode)
      && (forall k, i :: k in poolMap && 0 <= i < |poolMap[k]| ==> poolMap[k][i] in nodes)
    }

    /** No pool holds more nodes than the cap allows (an empty pool is fine whatever the cap). */
    ghost predicate WithinCap()
      reads this
    {
      forall k :: k in poolMap ==> poolMap[k] == [] || |poolMap[k]| <= maxPoolSize
    }

    constructor ()
      ensures Valid() && WithinCap()
      ensures poolMap == map[] && maxPoolSize == DefaultMaxPoolSize && nodes == map[] && hooks == []
    {
      poolMap := map[];
      maxPoolSize := DefaultMaxPoolSize;
      nodes := map[];
      nextNode := 0;
      hooks := [];
    }

    /** The pool of a prefab, empty if it has none yet. */
    function PoolOf(key: string): seq<NodeId>
      reads this
    {
      if key in poolMap then poolMap[key] else []
    }

    /** setMaxPoolSize: pools already larger are not trimmed. */
    method SetMaxPoolSize(size: int)
      modifies this
      ensures maxPoolSize == size
      ensures poolMap == old(poolMap) && nodes == old(nodes) && nextNode == old(nextNode) && hooks == old(hooks)
    {
      maxPoolSize := size;
    }

    /** getPool: the prefab's pool, created empty when missing. */
    method GetPool(prefab: Prefab) returns (pool: seq<NodeId>)
      requires Valid()
      modifies this
      ensures Valid()
      ensures pool == old(PoolOf(prefab.uuid))
      ensures poolMap == old(poolMap)[prefab.uuid := pool]
      ensures maxPoolSize == old(maxPoolSize) && nodes == old(nodes) && nextNode == old(nextNode) && hooks == old(hooks)
    {
      if prefab.uuid !in poolMap {
        poolMap := poolMap[prefab.uuid := []];
      }
      pool := poolMap[prefab.uuid];
    }

    /** cc.instantiate: a fresh node carrying the prefab's components. */
    method Instantiate(prefab: Prefab, active: bool) returns (n: NodeId)
      requires Valid()
      modifies this
      ensures Valid()
      ensures n == old(nextNode) && n !in old(nodes) && nextNode == n + 1
      ensures nodes == old(nodes)[n := PoolNode(prefab.components, active, true, false)]
      ensures poolMap == old(poolMap) && maxPoolSize == old(maxPoolSize) && hooks == old(hooks)
    {
      n := nextNode;
      nodes := nodes[n := PoolNode(prefab.components, active, true, false)];
      nextNode := nextNode + 1;
    }

    /**
     * prewarm: a null prefab throws; otherwise the pool is topped up with
     * fresh inactive nodes until it holds min(count, cap) of them. A pool
     * that already holds that many is left alone.
     */
    method Prewarm(prefab: Option<Prefab>, count: int) returns (err: Option<Error>)
      requires Valid()
      modifies this
      ensures Valid()
      ensures prefab.None? ==> err == Some(NullPrefab) && poolMap == old(poolMap) && nodes == old(nodes)
      ensures prefab.Some? ==>
                var key := prefab.value.uuid;
                var before := old(PoolOf(key));
                var target := if count < maxPoolSize then count else maxPoolSize;
                && err.None?
                && key in poolMap
                && poolMap == old(poolMap)[key := poolMap[key]]
                && |poolMap[key]| == (if |before| < target then target else |before|)
                && poolMap[key][..|before|] == before
                && (forall i :: |before| <= i < |poolMap[key]| ==>
                      poolMap[key][i] !in old(nodes) && poolMap[key][i] in nodes && !nodes[poolMap[key][i]].active)
      ensures maxPoolSize == old(maxPoolSize) && hooks == old(hooks)
      ensures old(WithinCap()) ==> WithinCap()
      ensures forall n :: n in old(nodes) ==> n in nodes && nodes[n] == old(nodes)[n]
    {
      if prefab.None? {
        return Some(NullPrefab);
      }
      var p := prefab.value;
      var pool := GetPool(p);
      var maxCount := if count < maxPoolSize then count else maxPoolSize;
      FillPool(p, maxCount);
      return None;
    }

    /** prewarm's loop: fresh inactive nodes are put into the prefab's pool until it holds `target`. */
    method FillPool(p: Prefab, target: int)
      requires Valid() && p.uuid in poolMap
      modifies this
      ensures Valid() && p.uuid in poolMap
      ensures poolMap == old(poolMap)[p.uuid := poolMap[p.uuid]]
      ensures var before := old(poolMap)[p.uuid];
              && |poolMap[p.uuid]| == (if |before| < target then target else |before|)
              && poolMap[p.uuid][..|before|] == before
              && (forall i :: |before| <= i < |poolMap[p.uuid]| ==>
                    poolMap[p.uuid][i] !in old(nodes) && poolMap[p.uuid][i] in nodes && !nodes[poolMap[p.uuid][i]].active)
      ensures maxPoolSize == old(maxPoolSize) && hooks == old(hooks)
      ensures forall n :: n in old(nodes) ==> n in nodes && nodes[n] == old(nodes)[n]
    {
      var i := |poolMap[p.uuid]|;
      ghost var before := poolMap[p.uuid];
      while i < target
        invariant Valid()
        invariant p.uuid in poolMap && poolMap == old(poolMap)[p.uuid := poolMap[p.uuid]]
        invariant |before| <= |poolMap[p.uuid]| && poolMap[p.uuid][..|before|] == before
        invariant i == |poolMap[p.uuid]|
        invariant |before| <= target ==> i <= target
        invariant |before| > target ==> i == |before|
        invariant forall j :: |before| <= j < i ==>
                    poolMap[p.uuid][j] !in old(nodes) && poolMap[p.uuid][j] in nodes && !nodes[poolMap[p.uuid][j]].active
        invariant forall n :: n in old(nodes) ==> n in nodes && nodes[n] == old(nodes)[n]
        invariant old(nodes).Keys <= nodes.Keys && (forall n :: n in nodes ==> n < nextNode) && old(nextNode) <= nextNode
        invariant maxPoolSize == old(maxPoolSize) && hooks == old(hooks)
      {
        var n := Instantiate(p, false);
        poolMap := poolMap[p.uuid := Put(poolMap[p.uuid], n)];
        i := i + 1;
      }
    }

    /**
     * getNode: a null prefab gives nothing; otherwise the most recently
     * pooled node is reused (or a fresh one instantiated when the pool is
     * empty), activated, and its spawn hook run.
     */
    method GetNode(prefab: Option<Prefab>) returns (r: Option<NodeId>)
      requires Valid()
      modifies this
      ensures Valid()
      ensures prefab.None? ==> r.None? && poolMap == old(poolMap) && nodes == old(nodes) && hooks == old(hooks)
      ensures prefab.Some? ==>
                var key := prefab.value.uuid;
                var before := old(PoolOf(key));
                && r.Some? && r.value in nodes && nodes[r.value].active
                && (|before| > 0 ==>
                      r.value == before[|before| - 1]
                      && poolMap == old(poolMap)[key := before[..|before| - 1]]
                      && nodes == old(nodes)[r.value := old(nodes)[r.value].(active := true)])
                && (|before| == 0 ==>
                      r.value !in old(nodes)
                      && poolMap == old(poolMap)[key := []]
                      && nodes == old(nodes)[r.value := PoolNode(prefab.value.components, true, true, false)])
                && hooks == old(hooks) + SpawnHooks(r.value, nodes[r.value].components)
      ensures maxPoolSize == old(maxPoolSize)
      ensures old(WithinCap()) ==> WithinCap()
    {
      if prefab.None? {
        return None;
      }
      var p := prefab.value;
      var pool := GetPool(p);
      var n;
      if |pool| > 0 {
        n := pool[|pool| - 1];
        poolMap := poolMap[p.uuid := pool[..|pool| - 1]];
      } else {
        n := Instantiate(p, true);
      }
      nodes := nodes[n := nodes[n].(active := true)];
      hooks := hooks + SpawnHooks(n, nodes[n].components);
      r := Some(n);
    }

    /**
     * recycleNode: a null node or prefab, or a destroyed node, is ignored;
     * otherwise the node's recycle hooks run, it is detached and
     * deactivated, and it goes into the prefab's pool if that holds fewer
     * nodes than the cap, or is destroyed.
     */
    method RecycleNode(node: Option<NodeId>, prefab: Option<Prefab>)
      requires Valid()
      requires node.Some? ==> node.value in nodes
      modifies this
      ensures Valid()
      ensures node.None? || prefab.None? || !old(nodes)[node.value].valid ==>
                poolMap == old(poolMap) && nodes == old(nodes) && hooks == old(hooks)
      ensures node.Some? && prefab.Some? && old(nodes)[node.value].valid ==>
                var n := node.value;
                var key := prefab.value.uuid;
                var before := old(PoolOf(key));
                var was := old(nodes)[n];
                && hooks == old(hooks) + RecycleHooks(n, was.components)
                && (|before| < maxPoolSize ==>
                      poolMap == old(poolMap)[key := Put(before, n)]
                      && nodes == old(nodes)[n := was.(active := false, attached := false)])
                && (|before| >= maxPoolSize ==>
                      poolMap == old(poolMap)[key := before]
                      && nodes == old(nodes)[n := was.(active := false, attached := false, valid := false)])
      ensures maxPoolSize == old(maxPoolSize) && nextNode == old(nextNode)
      ensures old(WithinCap()) ==> WithinCap()
    {
      if node.None? || prefab.None? {
        return;
      }
      var n := node.value;
      if !nodes[n].valid {
        return;
      }
      hooks := hooks + RecycleHooks(n, nodes[n].components);
      nodes := nodes[n := nodes[n].(active := false, attached := false)];
      var pool := GetPool(prefab.value);
      if |pool| < maxPoolSize {
        poolMap := poolMap[prefab.value.uuid := Put(pool, n)];
      } else {
        nodes := nodes[n := nodes[n].(valid := false)];
      }
    }

    /**
     * clearPool: a null prefab is ignored; a prefab with a pool has every
     * pooled node destroyed and its pool removed.
     */
    method ClearPool(prefab: Option<Prefab>)
      requires Valid()
      modifies this
      ensures Valid()
      ensures prefab.None? || prefab.value.uuid !in old(poolMap) ==> poolMap == old(poolMap) && nodes == old(nodes)
      ensures prefab.Some? && prefab.value.uuid in old(poolMap) ==>
                var held := old(poolMap)[prefab.value.uuid];
                && poolMap == old(poolMap) - {prefab.value.uuid}
                && nodes.Keys == old(nodes).Keys
                && (forall n :: n in nodes ==>
                      nodes[n] == if n in held then old(nodes)[n].(valid := false) else old(nodes)[n])
      ensures maxPoolSize == old(maxPoolSize) && hooks == old(hooks) && nextNode == old(nextNode)
      ensures old(WithinCap()) ==> WithinCap()
    {
      if prefab.None? {
        return;
      }
      var key := prefab.value.uuid;
      if key in poolMap {
        var held := poolMap[key];
        nodes := map n | n in nodes :: if n in held then nodes[n].(valid := false) else nodes[n];
        poolMap := poolMap - {key};
      }
    }

    /** clear: forgets every pool; the pooled nodes are not destroyed. */
    method Clear()
      modifies this
      ensures poolMap == map[]
      ensures nodes == old(nodes) && maxPoolSize == old(maxPoolSize) && hooks == old(hooks) && nextNode == old(nextNode)
    {
      poolMap := map[];
    }
  }

  /** A node recycled into a pool with room is the node the next getNode hands out. */
  method RecycleThenGet(pool: ObjectPool, n: NodeId, prefab: Prefab) returns (r: Option<NodeId>)
    requires pool.Valid() && n in pool.nodes && pool.nodes[n].valid
    requires n !in pool.PoolOf(prefab.uuid) && |pool.PoolOf(prefab.uuid)| < pool.maxPoolSize
    modifies pool
    ensures r == Some(n) && n in pool.nodes && pool.nodes[n].active && !pool.nodes[n].attached
    ensures pool.PoolOf(prefab.uuid) == old(pool.PoolOf(prefab.uuid))
  {
    pool.RecycleNode(Some(n), Some(prefab));
    r := pool.GetNode(Some(prefab));
  }
}
