// The eager red-dot (badge) tree of assets/Core/redDot: every node holds a
// number, a changed value is announced to the node's listeners at once and
// makes the parent recompute the sum of its children, all the way up.
// Nodes are ids into parallel sequences, in creation order (the root is 0);
// the key table is the system's `m_nodes`.
module EagerRedDot {
  import opened Common
  import opened RedDotLists

  class RedDotSystem {
    /** Node id -> key; the table `m_nodes` maps each key back to its id. */
    var keys: seq<string>
    var nodes: map<string, nat>
    var values: seq<int>
    var parents: seq<Option<nat>>
    var children: seq<seq<nat>>
    var listeners: seq<seq<nat>>
    /** Every listener call, in order. */
    var notes: seq<Notice>
    /** Every registerNode call, in order. */
    ghost var registerCalls: seq<RegisterCall>

    /** See TableShape. */
    ghost predicate Valid()
      reads this
    {
      TableShape(keys, nodes, values, parents, children, listeners)
    }

    /** Every key registerNode was called with is in the table. */
    ghost predicate Logged()
      reads this
    {
      CallsIn(registerCalls, nodes)
    }

    /** Only a node's parent lists it among its children. */
    lemma NotAChild(n: nat, m: nat)
      requires Valid() && n < |parents| && parents[n] != Some(m)
      ensures m >= |children| || n !in children[m]
    {
      if m < |children| {
        forall j | 0 <= j < |children[m]| ensures children[m][j] != n {
        }
      }
    }

    /** The private constructor: a table holding only "root". */
    constructor ()
      ensures Valid() && keys == ["root"] && nodes == map["root" := 0]
      ensures values == [0] && parents == [None] && children == [[]] && listeners == [[]] && notes == []
      ensures registerCalls == []
    {
      keys := ["root"];
      nodes := map["root" := 0];
      values := [0];
      parents := [None];
      children := [[]];
      listeners := [[]];
      notes := [];
      registerCalls := [];
    }

    /** The loop of updateFromChildren: the children's values added up. */
    method ChildSum(p: nat) returns (sum: int)
      requires Valid() && p < |keys|
      ensures sum == SumOf(children[p], values)
    {
      var cs := children[p];
      sum := 0;
      var i := 0;
      while i < |cs|
        invariant 0 <= i <= |cs|
        invariant sum == SumOf(cs[..i], values)
      {
        assert cs[..i + 1][..i] == cs[..i];
        sum := sum + values[cs[i]];
        i := i + 1;
      }
      assert cs[..i] == cs;
    }

    /**
     * RedDotNode.setValue: an equal value changes nothing; otherwise the
     * value is stored, the listeners are called with it, and the parent
     * recomputes. Only `n` and its ancestors change; every other node that
     * changed now holds its children's sum, and a node that did before
     * still does.
     */
    method SetNodeValue(n: nat, v: int)
      requires Valid() && n < |keys|
      modifies this
      decreases n, 0
      ensures Valid()
      ensures keys == old(keys) && nodes == old(nodes) && parents == old(parents)
      ensures children == old(children) && listeners == old(listeners)
      ensures |values| == |old(values)| && values[n] == v
      ensures old(values[n]) == v ==> values == old(values) && notes == old(notes)
      ensures old(values[n]) != v ==> old(notes) + Notices(listeners[n], v) <= notes
      ensures forall m: nat :: m < |values| && m != n && m !in Ancestors(parents, n) ==> values[m] == old(values[m])
      ensures forall m: nat :: m < |values| && m != n && (values[m] != old(values[m]) || BalancedIn(old(children), old(values), m)) ==>
                BalancedIn(children, values, m)
      ensures old(values[n]) != v && parents[n].Some? ==> BalancedIn(children, values, parents[n].value)
    {
      if values[n] == v {
        return;
      }
      Store(n, v);
      if parents[n].Some? {
        var p := parents[n].value;
        AncestorsBelow(parents, p);
        ghost var mid := values;
        UpdateFromChildren(p);
        assert n !in Ancestors(parents, p) && values[n] == mid[n];
        forall m: nat | m < |values| && m != n && m != p && BalancedIn(old(children), old(values), m)
          ensures BalancedIn(children, values, m)
        {
          assert mid[m] == old(values[m]);
        }
      }
    }

    /**
     * The first half of setValue for a changed value: store it and call the
     * listeners. Every node but the parent keeps its balance.
     */
    method Store(n: nat, v: int)
      requires Valid() && n < |keys|
      modifies this
      ensures Valid()
      ensures keys == old(keys) && nodes == old(nodes) && parents == old(parents)
      ensures children == old(children) && listeners == old(listeners)
      ensures values == old(values)[n := v] && notes == old(notes) + Notices(listeners[n], v)
      ensures forall m: nat :: m < |values| && m != n && parents[n] != Some(m) ==>
                (BalancedIn(children, values, m) <==> BalancedIn(old(children), old(values), m))
    {
      ghost var before := values;
      values := values[n := v];
      notes := notes + Notices(listeners[n], v);
      forall m: nat | m < |values| && m != n && parents[n] != Some(m)
        ensures BalancedIn(children, values, m) == BalancedIn(children, before, m)
      {
        NotAChild(n, m);
        AssignKeepsBalance(children, before, n, v, m);
      }
    }

    /**
     * RedDotNode.updateFromChildren: setValue with the children's sum, so
     * the node ends up balanced.
     */
    method UpdateFromChildren(p: nat)
      requires Valid() && p < |keys|
      modifies this
      decreases p, 1
      ensures Valid()
      ensures keys == old(keys) && nodes == old(nodes) && parents == old(parents)
      ensures children == old(children) && listeners == old(listeners)
      ensures |values| == |old(values)| && values[p] == SumOf(children[p], old(values))
      ensures BalancedIn(children, values, p) && old(notes) <= notes
      ensures forall m: nat :: m < |values| && m != p && m !in Ancestors(parents, p) ==> values[m] == old(values[m])
      ensures forall m: nat :: m < |values| && m != p && (values[m] != old(values[m]) || BalancedIn(old(children), old(values), m)) ==>
                BalancedIn(children, values, m)
    {
      var sum := ChildSum(p);
      SetNodeValue(p, sum);
      AncestorsBelow(parents, p);
      forall c | c in children[p] ensures ValueOf(values, c) == ValueOf(old(values), c) {
        var j :| 0 <= j < |children[p]| && children[p][j] == c;
      }
      SumOfFrame(children[p], values, old(values));
    }

    /**
     * registerNode: a known key returns its node and changes nothing; a new
     * key gets a new leaf with value 0, hung under the parent the key table
     * names (see ParentFor). Every node that held its children's sum still
     * does.
     */
    method Register(key: string, parentKey: Option<string>) returns (id: nat)
      requires Valid()
      modifies this
      ensures Valid()
      ensures registerCalls == old(registerCalls) + [(key, parentKey)]
      ensures old(Logged()) ==> Logged()
      ensures key in old(nodes) ==>
                && id == old(nodes[key]) && keys == old(keys) && nodes == old(nodes) && values == old(values)
                && parents == old(parents) && children == old(children) && listeners == old(listeners) && notes == old(notes)
      ensures key !in old(nodes) ==>
                var p := ParentFor(old(nodes), parentKey);
                && id == |old(keys)| && keys == old(keys) + [key] && nodes == old(nodes)[key := id]
                && values == old(values) + [0] && parents == old(parents) + [p]
                && listeners == old(listeners) + [[]] && notes == old(notes)
                && children == Attached(old(children), p, id)
      ensures key in nodes && id == nodes[key]
      ensures KeepsInner(old(children), old(values), children, values)
    {
      registerCalls := registerCalls + [(key, parentKey)];
      if key in nodes {
        return nodes[key];
      }
      id := AddNode(key, ParentFor(nodes, parentKey));
    }

    /** The new-key half of registerNode: leaf `id` with value 0, hung under `p`. */
    method AddNode(key: string, p: Option<nat>) returns (id: nat)
      requires Valid() && key !in nodes && (p.None? || p.value < |keys|)
      modifies this
      ensures Valid()
      ensures id == |old(keys)| && keys == old(keys) + [key] && nodes == old(nodes)[key := id]
      ensures values == old(values) + [0] && parents == old(parents) + [p]
      ensures listeners == old(listeners) + [[]] && notes == old(notes) && registerCalls == old(registerCalls)
      ensures children == Attached(old(children), p, id)
      ensures KeepsInner(old(children), old(values), children, values)
    {
      id := |keys|;
      AddKeepsTableShape(keys, nodes, values, parents, children, listeners, key, p);
      keys := keys + [key];
      nodes := nodes[key := id];
      values := values + [0];
      listeners := listeners + [[]];
      parents := parents + [p];
      children := Attached(children, p, id);
    }

    /**
     * init / traverseDFS: registerNode for the entry under `parentKey`, then
     * the same for each child under the entry's key, depth first (so, by
     * ParentsFirst, every parent key is registered before its children).
     * Keys already in the table keep their nodes, and every node that held
     * its children's sum still does.
     */
    method TraverseDFS(config: RedDotConfig, parentKey: Option<string>)
      requires Valid() && Logged()
      modifies this
      decreases config, 1
      ensures Valid() && Logged()
      ensures registerCalls == old(registerCalls) + DfsCalls(config, parentKey)
      ensures KeepsKeys(old(nodes), nodes)
      ensures old(keys) <= keys && old(parents) <= parents && notes == old(notes)
      ensures KeepsInner(old(children), old(values), children, values)
    {
      var _ := Register(config.key, parentKey);
      TraverseChildren(config.key, config.children);
    }

    /** The loop of traverseDFS over an entry's children, each under the entry's key. */
    method TraverseChildren(key: string, cs: seq<RedDotConfig>)
      requires Valid() && Logged()
      modifies this
      decreases cs, 0
      ensures Valid() && Logged()
      ensures registerCalls == old(registerCalls) + DfsCallsAll(key, cs)
      ensures KeepsKeys(old(nodes), nodes)
      ensures old(keys) <= keys && old(parents) <= parents && notes == old(notes)
      ensures KeepsInner(old(children), old(values), children, values)
    {
      var i := 0;
      assert cs[..0] == [];
      while i < |cs|
        invariant 0 <= i <= |cs| && Valid() && Logged()
        invariant registerCalls == old(registerCalls) + DfsCallsAll(key, cs[..i])
        invariant KeepsKeys(old(nodes), nodes)
        invariant old(keys) <= keys && old(parents) <= parents && notes == old(notes)
        invariant KeepsInner(old(children), old(values), children, values)
      {
        DfsCallsAllStep(key, cs, i);
        TraverseDFS(cs[i], Some(key));
        i := i + 1;
      }
      assert cs[..i] == cs;
    }

    /**
     * init: the traversal from the configuration's top, under the root;
     * every key of the configuration ends up in the table.
     */
    method Init(config: RedDotConfig)
      requires Valid() && Logged()
      modifies this
      ensures Valid() && Logged()
      ensures registerCalls == old(registerCalls) + DfsCalls(config, None)
      ensures forall i :: 0 <= i < |DfsCalls(config, None)| ==> DfsCalls(config, None)[i].0 in nodes
      ensures KeepsKeys(old(nodes), nodes)
    {
      TraverseDFS(config, None);
      ghost var calls := DfsCalls(config, None);
      forall i | 0 <= i < |calls| ensures calls[i].0 in nodes {
        assert calls[i] == registerCalls[|old(registerCalls)| + i];
      }
    }

    /** setValue: an unknown key changes nothing; a known one goes through the node's setValue. */
    method SetValue(key: string, v: int)
      requires Valid()
      modifies this
      ensures Valid() && keys == old(keys) && nodes == old(nodes) && children == old(children) && parents == old(parents)
      ensures key !in nodes ==> values == old(values) && notes == old(notes)
      ensures key in nodes ==> forall m: nat :: m < |values| && m != nodes[key] && m !in Ancestors(parents, nodes[key]) ==>
                values[m] == old(values[m])
      ensures key in nodes ==> values[nodes[key]] == v
      ensures forall m: nat :: m < |values| && (key !in nodes || m != nodes[key]) && BalancedIn(old(children), old(values), m) ==> BalancedIn(children, values, m)
    {
      if key in nodes {
        SetNodeValue(nodes[key], v);
      }
    }

    /** increment: adds `amount` (default 1) with no upper bound. */
    method Increment(key: string, amount: int)
      requires Valid()
      modifies this
      ensures Valid() && keys == old(keys) && nodes == old(nodes) && children == old(children) && parents == old(parents)
      ensures key !in nodes ==> values == old(values) && notes == old(notes)
      ensures key in nodes ==> forall m: nat :: m < |values| && m != nodes[key] && m !in Ancestors(parents, nodes[key]) ==>
                values[m] == old(values[m])
      ensures key in nodes ==> values[nodes[key]] == old(values[nodes[key]]) + amount
      ensures forall m: nat :: m < |values| && (key !in nodes || m != nodes[key]) && BalancedIn(old(children), old(values), m) ==> BalancedIn(children, values, m)
    {
      if key in nodes {
        var n := nodes[key];
        SetNodeValue(n, values[n] + amount);
      }
    }

    /** decrement: subtracts `amount` (default 1) but never goes below 0. */
    method Decrement(key: string, amount: int)
      requires Valid()
      modifies this
      ensures Valid() && keys == old(keys) && nodes == old(nodes) && children == old(children) && parents == old(parents)
      ensures key !in nodes ==> values == old(values) && notes == old(notes)
      ensures key in nodes ==> forall m: nat :: m < |values| && m != nodes[key] && m !in Ancestors(parents, nodes[key]) ==>
                values[m] == old(values[m])
      ensures key in nodes ==> values[nodes[key]] == Decremented(old(values[nodes[key]]), amount)
      ensures forall m: nat :: m < |values| && (key !in nodes || m != nodes[key]) && BalancedIn(old(children), old(values), m) ==> BalancedIn(children, values, m)
    {
      if key in nodes {
        var n := nodes[key];
        SetNodeValue(n, Decremented(values[n], amount));
      }
    }

    /** getValue: the node's value, or 0 for an unknown key. */
    method GetValue(key: string) returns (r: int)
      requires Valid()
      ensures key !in nodes ==> r == 0
      ensures key in nodes ==> r == values[nodes[key]]
    {
      if key in nodes {
        return values[nodes[key]];
      }
      return 0;
    }

    /** addListener: a null listener or an unknown key changes nothing; a listener is kept once. */
    method AddListener(key: string, listener: Option<nat>)
      requires Valid()
      modifies this
      ensures Valid() && keys == old(keys) && nodes == old(nodes) && values == old(values)
      ensures children == old(children) && parents == old(parents) && notes == old(notes)
      ensures key !in nodes || listener.None? ==> listeners == old(listeners)
      ensures key in nodes && listener.Some? ==>
                listeners == old(listeners)[nodes[key] := AddOnce(old(listeners)[nodes[key]], listener.value)]
    {
      if key in nodes && listener.Some? {
        var n := nodes[key];
        ListenersKeepShape(keys, nodes, values, parents, children, listeners, n, AddOnce(listeners[n], listener.value));
        listeners := listeners[n := AddOnce(listeners[n], listener.value)];
      }
    }

    /** removeListener: the first registration of the listener goes, for a known key. */
    method RemoveListener(key: string, listener: nat)
      requires Valid()
      modifies this
      ensures Valid() && keys == old(keys) && nodes == old(nodes) && values == old(values)
      ensures children == old(children) && parents == old(parents) && notes == old(notes)
      ensures key !in nodes ==> listeners == old(listeners)
      ensures key in nodes ==>
                listeners == old(listeners)[nodes[key] := RemoveFirstOf(old(listeners)[nodes[key]], listener)]
    {
      if key in nodes {
        var n := nodes[key];
        RemoveFirstOfKeeps(listeners[n], listener);
        ListenersKeepShape(keys, nodes, values, parents, children, listeners, n, RemoveFirstOf(listeners[n], listener));
        listeners := listeners[n := RemoveFirstOf(listeners[n], listener)];
      }
    }

    /**
     * RedDotNode.removeChild: the first occurrence leaves the children;
     * the child keeps its parent link and no value is recomputed.
     */
    method RemoveChild(p: nat, c: nat)
      requires Valid() && p < |keys|
      modifies this
      ensures Valid() && keys == old(keys) && nodes == old(nodes) && values == old(values)
      ensures parents == old(parents) && listeners == old(listeners) && notes == old(notes)
      ensures children == old(children)[p := RemoveFirstOf(old(children)[p], c)]
    {
      RemoveChildKeepsShape(keys, nodes, values, parents, children, listeners, p, c);
      children := children[p := RemoveFirstOf(children[p], c)];
    }
  }

  /** Registering two badges without a parent key on a fresh system hangs both under the root, with value 0. */
  method TwoBadges(sys: RedDotSystem, a: string, b: string)
    requires sys.Valid() && sys.keys == ["root"] && sys.nodes == map["root" := 0] && sys.values == [0] && sys.children == [[]]
    requires a != "root" && b != "root" && a != b
    modifies sys
    ensures sys.Valid() && sys.keys == ["root", a, b] && sys.nodes == map["root" := 0, a := 1, b := 2] && sys.values == [0, 0, 0]
    ensures sys.children == [[1, 2], [], []] && sys.parents == [None, Some(0), Some(0)]
  {
    assert TreeOf(sys.children, sys.parents) && |sys.parents| == 1;
    assert sys.parents[0].None?;
    assert sys.parents == [None];
    assert a !in sys.nodes;
    var x := sys.Register(a, None);
    assert AddOnce([], 1) == [1];
    assert sys.children == [[1], []];
    assert b !in sys.nodes;
    var y := sys.Register(b, None);
    assert AddOnce([1], 2) == [1, 2];
  }

  /** Two badges under the root: incrementing the first makes the root show the total. */
  method RootShowsTotal(sys: RedDotSystem, a: string, b: string)
    requires sys.Valid() && sys.keys == ["root"] && sys.nodes == map["root" := 0] && sys.values == [0] && sys.children == [[]]
    requires a != "root" && b != "root" && a != b
    modifies sys
    ensures |sys.values| == 3 && sys.values[0] == 2
  {
    TwoBadges(sys, a, b);
    assert [1, 2][..1] == [1] && [1][..0] == [];
    assert SumOf([1], sys.values) == 0;
    assert SumOf([1, 2], sys.values) == 0;
    assert InnerBalanced(sys.children, sys.values, 0);
    sys.Increment(a, 2);
    assert Ancestors(sys.parents, 1) == {0};
    assert sys.values[1] == 2 && sys.values[2] == 0;
    assert BalancedIn(sys.children, sys.values, 0);
    assert SumOf([1], sys.values) == 2;
  }
}
