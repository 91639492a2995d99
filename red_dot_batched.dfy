// The dirty-flag red-dot tree of the cocos-red-dot-system module. Setting a
// leaf marks it and every node above it dirty and schedules one deferred
// batch; the batch recomputes the dirty nodes, children before parents, and
// only then calls the listeners of the nodes that changed. Nodes are ids
// into parallel sequences in creation order (the root is 0). The deferred
// call is a count of pending timers, and TimerFires is the step that runs
// when one of them fires.
module BatchedRedDot {
  import opened Common
  import opened RedDotLists
  import opened RedDotBatch

  /** makeDirty's invariant: the parent of a dirty node is dirty. */
  predicate DirtyUp(parents: seq<Option<nat>>, dirty: seq<bool>)
  {
    forall c :: 0 <= c < |parents| && c < |dirty| && dirty[c] && parents[c].Some? ==>
      parents[c].value < |dirty| && dirty[parents[c].value]
  }

  /** The same, except perhaps for the children of `q`, the node makeDirty is about to reach. */
  predicate DirtyUpExcept(parents: seq<Option<nat>>, dirty: seq<bool>, q: nat)
  {
    forall c :: 0 <= c < |parents| && c < |dirty| && dirty[c] && parents[c].Some? && parents[c].value != q ==>
      parents[c].value < |dirty| && dirty[parents[c].value]
  }

  /** Above a dirty node every node is dirty. */
  lemma {:induction false} DirtyAncestors(parents: seq<Option<nat>>, dirty: seq<bool>, q: nat)
    requires DirtyUp(parents, dirty) && |parents| == |dirty| && q < |dirty| && dirty[q]
    ensures forall m: nat :: m in Ancestors(parents, q) ==> m < |dirty| && dirty[m]
    decreases q
  {
    if parents[q].Some? && parents[q].value < q {
      DirtyAncestors(parents, dirty, parents[q].value);
    }
  }

  /** With the child lists linked back, dirty parents make the flags closed in the children's direction too. */
  lemma DirtyUpCloses(children: seq<seq<nat>>, parents: seq<Option<nat>>, dirty: seq<bool>)
    requires ChildLinks(children, parents) && DirtyUp(parents, dirty) && |dirty| == |parents|
    ensures DirtyClosed(children, dirty)
  {
    forall m, j | 0 <= m < |children| && 0 <= j < |children[m]| && children[m][j] < |dirty| && dirty[children[m][j]]
      ensures m < |dirty| && dirty[m]
    {
      assert parents[children[m][j]] == Some(m);
    }
  }

  /** A clean node is not the parent of a node whose ancestors are all dirty. */
  lemma NotChildOfClean(children: seq<seq<nat>>, parents: seq<Option<nat>>, dirty: seq<bool>, n: nat, m: nat)
    requires ChildLinks(children, parents) && n < |parents| && m < |dirty| && !dirty[m]
    requires forall i :: 0 <= i < |parents| && parents[i].Some? ==> parents[i].value < i
    requires forall a: nat :: a in Ancestors(parents, n) ==> a < |dirty| && dirty[a]
    ensures m >= |children| || n !in children[m]
  {
    if parents[n].Some? {
      assert parents[n].value in Ancestors(parents, n);
    }
    if m < |children| {
      forall j | 0 <= j < |children[m]| ensures children[m][j] != n {
      }
    }
  }

  /** A new clean leaf keeps every clean node balanced, unless it lands under a clean leaf holding a value other than 0. */
  lemma AddKeepsClean(children: seq<seq<nat>>, parents: seq<Option<nat>>, values: seq<int>, dirty: seq<bool>, p: Option<nat>)
    requires TreeOf(children, parents) && |values| == |parents| && |dirty| == |parents|
    ensures CleanBalanced(children, Tally(values, dirty)) && CanAdopt(children, values, dirty, p) ==>
              CleanBalanced(Attached(children, p, |parents|), Tally(values + [0], dirty + [false]))
  {
    if CleanBalanced(children, Tally(values, dirty)) && CanAdopt(children, values, dirty, p) {
      AttachKeepsClean(children, values, dirty, p, |parents|);
    }
  }

  /** A new clean node keeps the dirty set exact and the dirty flags closed upwards. */
  lemma AddKeepsDirty(parents: seq<Option<nat>>, dirty: seq<bool>, dirtySet: seq<nat>, p: Option<nat>)
    requires DirtySetOf(dirtySet, dirty) && DirtyUp(parents, dirty) && |parents| == |dirty|
    ensures DirtySetOf(dirtySet, dirty + [false]) && DirtyUp(parents + [p], dirty + [false])
  {
    var d := dirty + [false];
    forall c | 0 <= c < |parents + [p]| && c < |d| && d[c] && (parents + [p])[c].Some?
      ensures (parents + [p])[c].value < |d| && d[(parents + [p])[c].value]
    {
      assert c < |dirty| && dirty[c] && (parents + [p])[c] == parents[c];
    }
  }

  /**
   * The system's invariant but for the dirty flags' closure: parallel
   * sequences, one per node; the key table; the tree; listeners kept once;
   * the dirty set exact; a non-empty set only while an update is scheduled,
   * and a raised flag only while a timer is pending.
   */
  ghost predicate ShapeOf(keys: seq<string>, nodes: map<string, nat>, values: seq<int>, parents: seq<Option<nat>>,
                          children: seq<seq<nat>>, listeners: seq<seq<nat>>, dirty: seq<bool>, dirtySet: seq<nat>,
                          scheduled: bool, timers: nat)
  {
    && TableShape(keys, nodes, values, parents, children, listeners) && |dirty| == |keys|
    && DirtySetOf(dirtySet, dirty)
    && (dirtySet != [] ==> scheduled)
    && (scheduled ==> timers > 0)
  }

  /** A table holding only a clean root, with nothing scheduled. */
  lemma RootShape(timers: nat)
    ensures ShapeOf(["root"], map["root" := 0], [0], [None], [[]], [[]], [false], [], false, timers)
    ensures DirtyUp([None], [false]) && CleanBalanced([[]], Tally([0], [false]))
  {
  }

  /** After the batch every flag is down and the set is empty, so the invariant holds with nothing scheduled. */
  lemma SettledShape(keys: seq<string>, nodes: map<string, nat>, values: seq<int>, parents: seq<Option<nat>>,
                     children: seq<seq<nat>>, listeners: seq<seq<nat>>, dirty: seq<bool>, dirtySet: seq<nat>,
                     scheduled: bool, timers: nat, values': seq<int>, dirty': seq<bool>)
    requires ShapeOf(keys, nodes, values, parents, children, listeners, dirty, dirtySet, scheduled, timers)
    requires |values'| == |values| && |dirty'| == |dirty| && forall m :: 0 <= m < |dirty'| ==> !dirty'[m]
    ensures ShapeOf(keys, nodes, values', parents, children, listeners, dirty', [], false, timers)
    ensures DirtyUp(parents, dirty')
  {
  }

  /** registerNode's new node keeps the invariant. */
  lemma AddKeepsShape(keys: seq<string>, nodes: map<string, nat>, values: seq<int>, parents: seq<Option<nat>>,
                      children: seq<seq<nat>>, listeners: seq<seq<nat>>, dirty: seq<bool>, dirtySet: seq<nat>,
                      scheduled: bool, timers: nat, key: string, p: Option<nat>)
    requires ShapeOf(keys, nodes, values, parents, children, listeners, dirty, dirtySet, scheduled, timers)
    requires DirtyUp(parents, dirty) && key !in nodes && (p.None? || p.value < |keys|)
    ensures ShapeOf(keys + [key], nodes[key := |keys|], values + [0], parents + [p], Attached(children, p, |keys|),
                    listeners + [[]], dirty + [false], dirtySet, scheduled, timers)
    ensures DirtyUp(parents + [p], dirty + [false])
    ensures KeepsInner(children, values, Attached(children, p, |keys|), values + [0])
  {
    AddKeepsTableShape(keys, nodes, values, parents, children, listeners, key, p);
    AddKeepsDirty(parents, dirty, dirtySet, p);
  }

  /**
   * One step of makeDirty: raising `q`'s flag and adding it to the set
   * keeps the set exact, and leaves only `q`'s parent possibly clean under
   * a dirty child.
   */
  lemma MarkOne(parents: seq<Option<nat>>, dirty: seq<bool>, dirtySet: seq<nat>, q: nat)
    requires |parents| == |dirty| && q < |dirty| && DirtySetOf(dirtySet, dirty) && DirtyUpExcept(parents, dirty, q)
    ensures DirtySetOf(AddOnce(dirtySet, q), dirty[q := true])
    ensures parents[q].Some? ==> DirtyUpExcept(parents, dirty[q := true], parents[q].value)
    ensures parents[q].None? ==> DirtyUp(parents, dirty[q := true])
  {
  }

  /** An already dirty node ends makeDirty at once. */
  lemma MarkedUpDone(parents: seq<Option<nat>>, dirty: seq<bool>, dirtySet: seq<nat>, q: nat)
    requires DirtyUp(parents, dirty) && |parents| == |dirty| && q < |dirty| && dirty[q]
    ensures MarkedUp(parents, dirty, dirty, dirtySet, dirtySet, q)
  {
    DirtyAncestors(parents, dirty, q);
  }

  /** makeDirty on a node without a parent marks only that node. */
  lemma MarkedUpTop(parents: seq<Option<nat>>, dirty: seq<bool>, dirtySet: seq<nat>, q: nat)
    requires q < |dirty| && q < |parents| && !dirty[q] && parents[q].None?
    ensures MarkedUp(parents, dirty, dirty[q := true], dirtySet, AddOnce(dirtySet, q), q)
  {
  }

  /** makeDirty on `q` is `q`'s own mark followed by makeDirty on its parent. */
  lemma MarkedUpStep(parents: seq<Option<nat>>, d0: seq<bool>, d2: seq<bool>, s0: seq<nat>, s2: seq<nat>, q: nat)
    requires q < |d0| && q < |parents| && !d0[q] && parents[q].Some? && parents[q].value < q
    requires MarkedUp(parents, d0[q := true], d2, AddOnce(s0, q), s2, parents[q].value)
    ensures MarkedUp(parents, d0, d2, s0, s2, q)
  {
    assert Ancestors(parents, q) == {parents[q].value} + Ancestors(parents, parents[q].value);
    forall x ensures x in s2 <==> x in s0 || (0 <= x < |d2| && d2[x] && !d0[x]) {
      if x == q {
        assert q in AddOnce(s0, q);
      }
    }
  }

  /** What the batch leaves: every node clean, and every node balanced if every clean node was. */
  lemma BatchSettles(children: seq<seq<nat>>, parents: seq<Option<nat>>, t: Tally, dirtySet: seq<nat>)
    requires Fits(children, t) && |children| > 0 && TreeOf(children, parents)
    requires DirtySetOf(dirtySet, t.dirty) && DirtyUp(parents, t.dirty)
    ensures InRange(BatchOrder(TreeLevels(parents), dirtySet), |children|)
    ensures Batch(TreeLevels(parents), children, t, dirtySet) == RunAll(children, t, BatchOrder(TreeLevels(parents), dirtySet))
    ensures forall m :: 0 <= m < |children| ==> !Batch(TreeLevels(parents), children, t, dirtySet).dirty[m]
    ensures CleanBalanced(children, t) ==>
              forall m: nat :: m < |children| ==> BalancedIn(children, Batch(TreeLevels(parents), children, t, dirtySet).values, m)
  {
    var r := Batch(TreeLevels(parents), children, t, dirtySet);
    BatchCleans(TreeLevels(parents), children, t, dirtySet);
    if CleanBalanced(children, t) {
      DirtyUpCloses(children, parents, t.dirty);
      TreeBatchBalances(children, parents, t, dirtySet);
    }
  }

  /**
   * What makeDirty on `q` does to the flags and the dirty set: `q` and every
   * node above it end dirty, no flag is cleared, only `q` and the nodes
   * above it can be newly marked, and the set gains exactly the newly
   * marked nodes.
   */
  ghost predicate MarkedUp(parents: seq<Option<nat>>, dirty0: seq<bool>, dirty1: seq<bool>, set0: seq<nat>, set1: seq<nat>, q: nat)
  {
    && |dirty1| == |dirty0| && q < |dirty1| && dirty1[q]
    && (forall m: nat :: m in Ancestors(parents, q) ==> m < |dirty1| && dirty1[m])
    && (forall m :: 0 <= m < |dirty0| && dirty0[m] ==> dirty1[m])
    && (forall m: nat :: m < |dirty1| && dirty1[m] && !dirty0[m] ==> m == q || m in Ancestors(parents, q))
    && (forall x :: x in set1 <==> x in set0 || (0 <= x < |dirty1| && dirty1[x] && !dirty0[x]))
  }

  /**
   * RedDotNode.setValue on node `n`: refused on a node with children and a
   * no-op for an equal value; otherwise the value is stored and makeDirty
   * marks the node and the nodes above it.
   */
  ghost predicate NodeSet(children: seq<seq<nat>>, parents: seq<Option<nat>>, t0: Tally, set0: seq<nat>,
                          t1: Tally, set1: seq<nat>, n: nat, v: int)
    requires n < |children| && n < |t0.values|
  {
    if |children[n]| > 0 || t0.values[n] == v then t1 == t0 && set1 == set0
    else t1.values == t0.values[n := v] && MarkedUp(parents, t0.dirty, t1.dirty, set0, set1, n)
  }

  class BatchedRedDotSystem {
    /** Node id -> key; the table `m_nodes` maps each key back to its id. */
    var keys: seq<string>
    var nodes: map<string, nat>
    var values: seq<int>
    var parents: seq<Option<nat>>
    var children: seq<seq<nat>>
    var listeners: seq<seq<nat>>
    /** Each node's `m_isDirty`. */
    var dirty: seq<bool>
    /** `m_dirtyNodes`, in insertion order. */
    var dirtySet: seq<nat>
    /** `m_updateSchedule`. */
    var scheduled: bool
    /** The setTimeout callbacks that have not run yet. */
    var timers: nat
    /** Every listener call, in order. */
    var notes: seq<Notice>
    /** Every registerNode call since the table was last reset. */
    ghost var registerCalls: seq<RegisterCall>

    /** Everything the system keeps consistent but the dirty flags' closure (see ShapeOf). */
    ghost predicate Shape()
      reads this
    {
      ShapeOf(keys, nodes, values, parents, children, listeners, dirty, dirtySet, scheduled, timers)
    }

    ghost predicate Valid()
      reads this
    {
      Shape() && DirtyUp(parents, dirty)
    }

    /** Every key registerNode was called with is in the table. */
    ghost predicate Logged()
      reads this
    {
      CallsIn(registerCalls, nodes)
    }

    /** The constructor: a table holding only "root", clean, nothing scheduled. */
    constructor ()
      ensures Valid() && keys == ["root"] && nodes == map["root" := 0] && values == [0] && parents == [None]
      ensures children == [[]] && listeners == [[]] && dirty == [false] && dirtySet == []
      ensures !scheduled && timers == 0 && notes == [] && registerCalls == []
      ensures CleanBalanced(children, Tally(values, dirty))
    {
      keys := ["root"];
      nodes := map["root" := 0];
      values := [0];
      parents := [None];
      children := [[]];
      listeners := [[]];
      dirty := [false];
      dirtySet := [];
      scheduled := false;
      timers := 0;
      notes := [];
      registerCalls := [];
      RootShape(0);
    }

    /**
     * onDestroy: the table, the dirty set and the schedule flag are reset
     * to a fresh root. A timer already set still fires later.
     */
    method OnDestroy()
      modifies this`keys, this`nodes, this`values, this`parents, this`children, this`listeners, this`dirty, this`dirtySet
      modifies this`scheduled, this`registerCalls
      ensures Valid() && keys == ["root"] && nodes == map["root" := 0] && values == [0] && parents == [None]
      ensures children == [[]] && listeners == [[]] && dirty == [false] && dirtySet == [] && !scheduled
      ensures registerCalls == []
    {
      RootShape(timers);
      keys, nodes, values, parents, children, listeners, dirty, dirtySet, scheduled, registerCalls :=
        ["root"], map["root" := 0], [0], [None], [[]], [[]], [false], [], false, [];
    }

    /**
     * registerNode: a known key returns its node and changes nothing; a new
     * key gets a new clean leaf with value 0, hung under the parent the key
     * table names (see ParentFor). Balanced inner nodes stay balanced, and
     * so does every clean node unless the new leaf's parent is a clean leaf
     * holding a value other than 0.
     */
    method Register(key: string, parentKey: Option<string>) returns (id: nat)
      requires Valid()
      modifies this`keys, this`nodes, this`values, this`parents, this`children, this`listeners, this`dirty, this`registerCalls
      ensures Valid()
      ensures registerCalls == old(registerCalls) + [(key, parentKey)]
      ensures old(Logged()) ==> Logged()
      ensures key in old(nodes) ==>
                && id == old(nodes)[key] && keys == old(keys) && nodes == old(nodes) && values == old(values)
                && parents == old(parents) && children == old(children) && listeners == old(listeners) && dirty == old(dirty)
      ensures key !in old(nodes) ==>
                var p := ParentFor(old(nodes), parentKey);
                && id == |old(keys)| && keys == old(keys) + [key] && nodes == old(nodes)[key := id]
                && values == old(values) + [0] && parents == old(parents) + [p] && dirty == old(dirty) + [false]
                && listeners == old(listeners) + [[]] && children == Attached(old(children), p, id)
      ensures key in nodes && id == nodes[key]
      ensures KeepsInner(old(children), old(values), children, values)
      ensures CleanBalanced(old(children), Tally(old(values), old(dirty))) &&
              (key in old(nodes) || CanAdopt(old(children), old(values), old(dirty), ParentFor(old(nodes), parentKey))) ==>
                CleanBalanced(children, Tally(values, dirty))
    {
      registerCalls := registerCalls + [(key, parentKey)];
      if key in nodes {
        return nodes[key];
      }
      AddKeepsClean(children, parents, values, dirty, ParentFor(nodes, parentKey));
      id := AddNode(key, ParentFor(nodes, parentKey));
    }

    /** The new-key half of registerNode: clean leaf `id` with value 0, hung under `p`. */
    method AddNode(key: string, p: Option<nat>) returns (id: nat)
      requires Valid() && key !in nodes && (p.None? || p.value < |keys|)
      modifies this`keys, this`nodes, this`values, this`parents, this`children, this`listeners, this`dirty
      ensures Valid()
      ensures id == |old(keys)| && keys == old(keys) + [key] && nodes == old(nodes)[key := id]
      ensures values == old(values) + [0] && parents == old(parents) + [p] && dirty == old(dirty) + [false]
      ensures listeners == old(listeners) + [[]] && children == Attached(old(children), p, id)
      ensures KeepsInner(old(children), old(values), children, values)
    {
      id := |keys|;
      AddKeepsShape(keys, nodes, values, parents, children, listeners, dirty, dirtySet, scheduled, timers, key, p);
      keys, nodes, values, listeners, parents, dirty, children :=
        keys + [key], nodes[key := id], values + [0], listeners + [[]], parents + [p], dirty + [false], Attached(children, p, id);
    }

    /**
     * traverseDFS: registerNode for the entry under `parentKey`, then the
     * same for each child under the entry's key, depth first (an entry
     * without children counts as one with none). Known keys keep their
     * nodes.
     */
    method TraverseDFS(config: RedDotConfig, parentKey: Option<string>)
      requires Valid() && Logged()
      modifies this`keys, this`nodes, this`values, this`parents, this`children, this`listeners, this`dirty, this`registerCalls
      decreases config, 1
      ensures Valid() && Logged()
      ensures registerCalls == old(registerCalls) + DfsCalls(config, parentKey)
      ensures KeepsKeys(old(nodes), nodes)
    {
      var _ := Register(config.key, parentKey);
      TraverseChildren(config.key, config.children);
    }

    /** The loop of traverseDFS over an entry's children, each under the entry's key. */
    method TraverseChildren(key: string, cs: seq<RedDotConfig>)
      requires Valid() && Logged()
      modifies this`keys, this`nodes, this`values, this`parents, this`children, this`listeners, this`dirty, this`registerCalls
      decreases cs, 0
      ensures Valid() && Logged()
      ensures registerCalls == old(registerCalls) + DfsCallsAll(key, cs)
      ensures KeepsKeys(old(nodes), nodes)
    {
      var i := 0;
      assert cs[..0] == [];
      while i < |cs|
        invariant 0 <= i <= |cs| && Valid() && Logged()
        invariant registerCalls == old(registerCalls) + DfsCallsAll(key, cs[..i])
        invariant KeepsKeys(old(nodes), nodes)
      {
        DfsCallsAllStep(key, cs, i);
        TraverseDFS(cs[i], Some(key));
        i := i + 1;
      }
      assert cs[..i] == cs;
    }

    /** init: the traversal from the configuration's top, under the root; every key of it ends up in the table. */
    method Init(config: RedDotConfig)
      requires Valid() && Logged()
      modifies this`keys, this`nodes, this`values, this`parents, this`children, this`listeners, this`dirty, this`registerCalls
      ensures Valid() && Logged()
      ensures registerCalls == old(registerCalls) + DfsCalls(config, None)
      ensures forall i :: 0 <= i < |DfsCalls(config, None)| ==> DfsCalls(config, None)[i].0 in nodes
      ensures KeepsKeys(old(nodes), nodes)
    {
      TraverseDFS(config, None);
      ghost var calls := DfsCalls(config, None);
      forall i | 0 <= i < |calls| ensures calls[i].0 in nodes {
        assert calls[i] == registerCalls[|old(registerCalls)| + i];
      }
    }

    /** scheduleUpdate: at most one timer per raised flag. */
    method ScheduleUpdate()
      modifies this`scheduled, this`timers
      ensures scheduled
      ensures timers == old(timers) + (if old(scheduled) then 0 else 1)
    {
      if scheduled {
        return;
      }
      scheduled := true;
      timers := timers + 1;
    }

    /** addDirtyNode: the node joins the dirty set (once) and an update is scheduled. */
    method AddDirtyNode(n: nat)
      requires Shape() && n < |keys|
      modifies this`dirtySet, this`scheduled, this`timers
      ensures Shape() && dirtySet == AddOnce(old(dirtySet), n) && scheduled
      ensures timers == old(timers) + (if old(scheduled) then 0 else 1)
    {
      dirtySet := AddOnce(dirtySet, n);
      ScheduleUpdate();
    }

    /**
     * RedDotNode.makeDirty: a dirty node stops the walk; otherwise the node
     * is marked, handed to addDirtyNode, and the walk goes on to its
     * parent. (Here the node joins the set just before its flag is raised;
     * nothing runs in between.)
     */
    method MakeDirty(q: nat)
      requires Shape() && q < |keys| && DirtyUpExcept(parents, dirty, q)
      modifies this`dirty, this`dirtySet, this`scheduled, this`timers
      decreases q
      ensures Valid() && MarkedUp(parents, old(dirty), dirty, old(dirtySet), dirtySet, q)
      ensures old(dirty)[q] ==> dirty == old(dirty) && dirtySet == old(dirtySet) && scheduled == old(scheduled) && timers == old(timers)
      ensures !old(dirty)[q] ==> scheduled && timers == old(timers) + (if old(scheduled) then 0 else 1)
    {
      if dirty[q] {
        MarkedUpDone(parents, dirty, dirtySet, q);
        return;
      }
      ghost var d0, s0 := dirty, dirtySet;
      MarkOne(parents, dirty, dirtySet, q);
      AddDirtyNode(q);
      dirty := dirty[q := true];
      if parents[q].Some? {
        MakeDirty(parents[q].value);
        MarkedUpStep(parents, d0, dirty, s0, dirtySet, q);
      } else {
        MarkedUpTop(parents, d0, s0, q);
      }
    }

    /**
     * RedDotNode.setValue (see NodeSet). No listener is called yet; every
     * clean node that held its children's sum still does.
     */
    method SetNodeValue(n: nat, v: int)
      requires Valid() && n < |keys|
      modifies this`values, this`dirty, this`dirtySet, this`scheduled, this`timers
      ensures Valid()
      ensures NodeSet(children, parents, Tally(old(values), old(dirty)), old(dirtySet), Tally(values, dirty), dirtySet, n, v)
      ensures |children[n]| > 0 || old(values)[n] == v || old(dirty)[n] ==>
                dirty == old(dirty) && dirtySet == old(dirtySet) && scheduled == old(scheduled) && timers == old(timers)
      ensures |children[n]| == 0 && old(values)[n] != v && !old(dirty)[n] ==>
                scheduled && timers == old(timers) + (if old(scheduled) then 0 else 1)
      ensures CleanBalanced(children, Tally(old(values), old(dirty))) ==> CleanBalanced(children, Tally(values, dirty))
    {
      if |children[n]| > 0 || values[n] == v {
        return;
      }
      ghost var before := values;
      values := values[n := v];
      MakeDirty(n);
      forall m: nat | m < |children| && m < |dirty| && !dirty[m] && CleanBalanced(children, Tally(before, old(dirty)))
        ensures BalancedIn(children, values, m)
      {
        NotChildOfClean(children, parents, dirty, n, m);
        AssignKeepsBalance(children, before, n, v, m);
      }
    }

    /** setValue: a known key goes through the node's setValue; an update is scheduled whenever the key is known. */
    method SetValue(key: string, v: int)
      requires Valid()
      modifies this`values, this`dirty, this`dirtySet, this`scheduled, this`timers
      ensures Valid()
      ensures key !in nodes ==>
                values == old(values) && dirty == old(dirty) && dirtySet == old(dirtySet) && scheduled == old(scheduled) && timers == old(timers)
      ensures key in nodes ==> NodeSet(children, parents, Tally(old(values), old(dirty)), old(dirtySet), Tally(values, dirty), dirtySet, nodes[key], v)
      ensures key in nodes ==> scheduled && timers == old(timers) + (if old(scheduled) then 0 else 1)
      ensures CleanBalanced(children, Tally(old(values), old(dirty))) ==> CleanBalanced(children, Tally(values, dirty))
    {
      if key in nodes {
        SetNodeValue(nodes[key], v);
        ScheduleUpdate();
      }
    }

    /** increment: the node's setValue with `amount` (default 1) added, with no upper bound. */
    method Increment(key: string, amount: int)
      requires Valid()
      modifies this`values, this`dirty, this`dirtySet, this`scheduled, this`timers
      ensures Valid()
      ensures key !in nodes ==>
                values == old(values) && dirty == old(dirty) && dirtySet == old(dirtySet) && scheduled == old(scheduled) && timers == old(timers)
      ensures key in nodes ==>
                NodeSet(children, parents, Tally(old(values), old(dirty)), old(dirtySet), Tally(values, dirty), dirtySet, nodes[key], old(values)[nodes[key]] + amount)
      ensures key in nodes && (|children[nodes[key]]| > 0 || amount == 0 || old(dirty)[nodes[key]]) ==>
                dirty == old(dirty) && dirtySet == old(dirtySet) && scheduled == old(scheduled) && timers == old(timers)
      ensures key in nodes && |children[nodes[key]]| == 0 && amount != 0 && !old(dirty)[nodes[key]] ==>
                scheduled && timers == old(timers) + (if old(scheduled) then 0 else 1)
      ensures CleanBalanced(children, Tally(old(values), old(dirty))) ==> CleanBalanced(children, Tally(values, dirty))
    {
      if key in nodes {
        var n := nodes[key];
        SetNodeValue(n, values[n] + amount);
      }
    }

    /** decrement: the node's setValue with `amount` (default 1) taken off, never below 0. */
    method Decrement(key: string, amount: int)
      requires Valid()
      modifies this`values, this`dirty, this`dirtySet, this`scheduled, this`timers
      ensures Valid()
      ensures key !in nodes ==>
                values == old(values) && dirty == old(dirty) && dirtySet == old(dirtySet) && scheduled == old(scheduled) && timers == old(timers)
      ensures key in nodes ==>
                NodeSet(children, parents, Tally(old(values), old(dirty)), old(dirtySet), Tally(values, dirty), dirtySet, nodes[key],
                        Decremented(old(values)[nodes[key]], amount))
      ensures key in nodes && (|children[nodes[key]]| > 0 || Decremented(old(values)[nodes[key]], amount) == old(values)[nodes[key]]
                               || old(dirty)[nodes[key]]) ==>
                dirty == old(dirty) && dirtySet == old(dirtySet) && scheduled == old(scheduled) && timers == old(timers)
      ensures key in nodes && |children[nodes[key]]| == 0 && Decremented(old(values)[nodes[key]], amount) != old(values)[nodes[key]]
                && !old(dirty)[nodes[key]] ==>
                scheduled && timers == old(timers) + (if old(scheduled) then 0 else 1)
      ensures CleanBalanced(children, Tally(old(values), old(dirty))) ==> CleanBalanced(children, Tally(values, dirty))
    {
      if key in nodes {
        var n := nodes[key];
        SetNodeValue(n, Decremented(values[n], amount));
      }
    }

    /** getValue: the node's value, or 0 for an unknown key. */
    method GetValue(key: string) returns (r: int)
      requires Valid()
      ensures key !in nodes ==> r == 0
      ensures key in nodes ==> r == values[nodes[key]]
    {
      if key in nodes {
        return values[nodes[key]];
      }
      return 0;
    }

    /** addListener: a null listener or an unknown key changes nothing; a listener is kept once. */
    method AddListener(key: string, listener: Option<nat>)
      requires Valid()
      modifies this`listeners
      ensures Valid()
      ensures key !in nodes || listener.None? ==> listeners == old(listeners)
      ensures key in nodes && listener.Some? ==>
                listeners == old(listeners)[nodes[key] := AddOnce(old(listeners)[nodes[key]], listener.value)]
    {
      if key in nodes && listener.Some? {
        var n := nodes[key];
        ListenersKeepShape(keys, nodes, values, parents, children, listeners, n, AddOnce(listeners[n], listener.value));
        listeners := listeners[n := AddOnce(listeners[n], listener.value)];
      }
    }

    /** removeListener: the first registration of the listener goes, for a known key. */
    method RemoveListener(key: string, listener: nat)
      requires Valid()
      modifies this`listeners
      ensures Valid()
      ensures key !in nodes ==> listeners == old(listeners)
      ensures key in nodes ==>
                listeners == old(listeners)[nodes[key] := RemoveFirstOf(old(listeners)[nodes[key]], listener)]
    {
      if key in nodes {
        var n := nodes[key];
        RemoveFirstOfKeeps(listeners[n], listener);
        ListenersKeepShape(keys, nodes, values, parents, children, listeners, n, RemoveFirstOf(listeners[n], listener));
        listeners := listeners[n := RemoveFirstOf(listeners[n], listener)];
      }
    }

    /** The children's values added up, as the reduce of updateValue and the loop of updateFromChildren do. */
    method ChildSum(p: nat) returns (sum: int)
      requires p < |children|
      ensures sum == SumOf(children[p], values)
    {
      var cs := children[p];
      sum := 0;
      var i := 0;
      while i < |cs|
        invariant 0 <= i <= |cs|
        invariant sum == SumOf(cs[..i], values)
      {
        assert cs[..i + 1][..i] == cs[..i];
        sum := sum + ValueOf(values, cs[i]);
        i := i + 1;
      }
      assert cs[..i] == cs;
    }

    /**
     * RedDotNode.updateFromChildren: setValue with the children's sum. A
     * node with children refuses it, so only a leaf changes, to 0.
     */
    method UpdateFromChildren(n: nat)
      requires Valid() && n < |keys|
      modifies this`values, this`dirty, this`dirtySet, this`scheduled, this`timers
      ensures Valid()
      ensures |children[n]| > 0 ==>
                values == old(values) && dirty == old(dirty) && dirtySet == old(dirtySet) && scheduled == old(scheduled) && timers == old(timers)
      ensures NodeSet(children, parents, Tally(old(values), old(dirty)), old(dirtySet), Tally(values, dirty), dirtySet, n, 0)
    {
      var sum := ChildSum(n);
      assert |children[n]| == 0 ==> sum == 0;
      SetNodeValue(n, sum);
    }

    /** RedDotNode.updateValue on node `n`: the step UpdateValue describes. */
    method UpdateNode(n: nat) returns (changed: bool)
      requires Fits(children, Tally(values, dirty)) && n < |children|
      modifies this`values, this`dirty
      ensures (Tally(values, dirty), changed) == UpdateValue(children, Tally(old(values), old(dirty)), n)
    {
      if !dirty[n] {
        return false;
      }
      if |children[n]| == 0 {
        dirty := dirty[n := false];
        return true;
      }
      var before := values[n];
      var sum := ChildSum(n);
      values := values[n := sum];
      dirty := dirty[n := false];
      changed := before != sum;
    }

    /** `nonRootNodes.forEach(...)`: updateValue on each node of `order`, collecting those that answered true. */
    method UpdatePass(order: seq<nat>) returns (changed: seq<nat>)
      requires Fits(children, Tally(values, dirty)) && InRange(order, |children|)
      modifies this`values, this`dirty
      ensures Fits(children, Tally(values, dirty))
      ensures Tally(values, dirty) == RunAll(children, Tally(old(values), old(dirty)), order)
      ensures changed == Changed(children, Tally(old(values), old(dirty)), order)
    {
      ghost var t := Tally(values, dirty);
      changed := [];
      var i := 0;
      assert order[..0] == [];
      while i < |order|
        invariant 0 <= i <= |order| && InRange(order[..i], |children|)
        invariant Fits(children, Tally(values, dirty)) && Tally(values, dirty) == RunAll(children, t, order[..i])
        invariant changed == Changed(children, t, order[..i])
      {
        assert order[..i + 1][..i] == order[..i];
        var c := UpdateNode(order[i]);
        if c {
          changed := changed + [order[i]];
        }
        i := i + 1;
      }
      assert order[..i] == order;
    }

    /** `nodesToNotify.forEach(node => node.notifyListeners())`. */
    method NotifyAll(ns: seq<nat>)
      modifies this`notes
      ensures notes == old(notes) + NoticesFor(ns, listeners, values)
    {
      var i := 0;
      assert ns[..0] == [];
      while i < |ns|
        invariant 0 <= i <= |ns|
        invariant notes == old(notes) + NoticesFor(ns[..i], listeners, values)
      {
        assert ns[..i + 1][..i] == ns[..i];
        var n := ns[i];
        if n < |listeners| && n < |values| {
          notes := notes + Notices(listeners[n], values[n]);
        }
        i := i + 1;
      }
      assert ns[..i] == ns;
    }

    /**
     * The recomputation inside batchUpdate: updateValue on every node of the
     * dirty set, deepest first, then on the root; the flag is down and the
     * set empty afterwards. Returns the nodes whose value changed.
     */
    method Recompute() returns (changed: seq<nat>)
      requires Valid() && dirtySet != []
      modifies this`values, this`dirty, this`dirtySet, this`scheduled
      ensures Valid() && !scheduled && dirtySet == []
      ensures forall m :: 0 <= m < |dirty| ==> !dirty[m]
      ensures Tally(values, dirty) == Batch(TreeLevels(parents), children, Tally(old(values), old(dirty)), old(dirtySet))
      ensures changed == Changed(children, Tally(old(values), old(dirty)), BatchOrder(TreeLevels(parents), old(dirtySet)))
      ensures CleanBalanced(children, Tally(old(values), old(dirty))) ==> forall m: nat :: m < |children| ==> BalancedIn(children, values, m)
    {
      ghost var t := Tally(values, dirty);
      var order := BatchOrder(TreeLevels(parents), dirtySet);
      BatchSettles(children, parents, t, dirtySet);
      changed := UpdatePass(order);
      SettledShape(keys, nodes, t.values, parents, children, listeners, t.dirty, dirtySet, scheduled, timers, values, dirty);
      scheduled := false;
      dirtySet := [];
    }

    /**
     * batchUpdate: the flag drops; an empty dirty set ends the call. Else
     * every node of the dirty set and then the root runs updateValue,
     * deepest first, the set is emptied, and the listeners of the nodes
     * that changed are called with their new values. The depth used is the
     * node's depth in the tree (see TreeBatchBalances). Every node ends
     * clean, and when every clean node held its children's sum, afterwards
     * every node does.
     */
    method BatchUpdate()
      requires Valid()
      modifies this`values, this`dirty, this`dirtySet, this`scheduled, this`notes
      ensures Valid() && !scheduled && dirtySet == []
      ensures forall m :: 0 <= m < |dirty| ==> !dirty[m]
      ensures old(dirtySet) == [] ==> values == old(values) && dirty == old(dirty) && notes == old(notes)
      ensures old(dirtySet) != [] ==>
                && Tally(values, dirty) == Batch(TreeLevels(parents), children, Tally(old(values), old(dirty)), old(dirtySet))
                && notes == old(notes) +
                     NoticesFor(Changed(children, Tally(old(values), old(dirty)), BatchOrder(TreeLevels(parents), old(dirtySet))), listeners, values)
      ensures CleanBalanced(children, Tally(old(values), old(dirty))) ==> forall m: nat :: m < |children| ==> BalancedIn(children, values, m)
    {
      if dirtySet == [] {
        scheduled := false;
        return;
      }
      var changed := Recompute();
      NotifyAll(changed);
    }

    /** forceUpdate: the batch, at once. */
    method ForceUpdate()
      requires Valid()
      modifies this`values, this`dirty, this`dirtySet, this`scheduled, this`notes
      ensures Valid() && !scheduled && dirtySet == []
      ensures forall m :: 0 <= m < |dirty| ==> !dirty[m]
      ensures old(dirtySet) == [] ==> values == old(values) && dirty == old(dirty) && notes == old(notes)
      ensures old(dirtySet) != [] ==> Tally(values, dirty) == Batch(TreeLevels(parents), children, Tally(old(values), old(dirty)), old(dirtySet))
      ensures CleanBalanced(children, Tally(old(values), old(dirty))) ==> forall m: nat :: m < |children| ==> BalancedIn(children, values, m)
    {
      BatchUpdate();
    }

    /** A pending setTimeout callback runs: one timer fewer, and the batch. */
    method TimerFires()
      requires Valid() && timers > 0
      modifies this`values, this`dirty, this`dirtySet, this`scheduled, this`notes, this`timers
      ensures Valid() && !scheduled && dirtySet == [] && timers == old(timers) - 1
      ensures forall m :: 0 <= m < |dirty| ==> !dirty[m]
      ensures old(dirtySet) != [] ==> Tally(values, dirty) == Batch(TreeLevels(parents), children, Tally(old(values), old(dirty)), old(dirtySet))
      ensures CleanBalanced(children, Tally(old(values), old(dirty))) ==> forall m: nat :: m < |children| ==> BalancedIn(children, values, m)
    {
      BatchUpdate();
      timers := timers - 1;
    }
  }

  /**
   * forceUpdate while a timer is pending drops the flag but not the timer,
   * so a setValue right after sets a second one: two timers are pending.
   */
  method ForceThenSet(sys: BatchedRedDotSystem, key: string, v: int)
    requires sys.Valid() && sys.scheduled && sys.timers == 1 && key in sys.nodes
    modifies sys
    ensures sys.timers == 2 && sys.scheduled
  {
    sys.ForceUpdate();
    sys.SetValue(key, v);
  }
}
