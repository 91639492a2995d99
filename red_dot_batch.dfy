// The batch arithmetic of the dirty-flag red-dot tree (the cocos-red-dot-system
// module): the order batchUpdate visits the dirty nodes in, one node's
// updateValue as a step on the tree's values and dirty flags, and a whole
// batch as a left fold of that step. The order sorts the dirty nodes by a
// level per node, deepest first. batchUpdate takes the number of
// '_'-separated segments of each key as the level, so whether a batch leaves
// every node holding its children's sum depends on how the keys are spelt;
// taking the node's depth in the tree instead always works.
module RedDotBatch {
  import opened Common
  import opened RedDotLists

  /** The number of '_' characters in a key. */
  function Underscores(s: string): nat
  {
    if s == [] then 0 else Underscores(s[..|s| - 1]) + (if s[|s| - 1] == '_' then 1 else 0)
  }

  lemma {:induction false} UnderscoresAppend(a: string, b: string)
    ensures Underscores(a + b) == Underscores(a) + Underscores(b)
    decreases |b|
  {
    if b != [] {
      assert (a + b)[..|a + b| - 1] == a + b[..|b| - 1];
      UnderscoresAppend(a, b[..|b| - 1]);
    } else {
      assert a + b == a;
    }
  }

  lemma {:induction false} UnderscoresNone(s: string)
    ensures Underscores(s) == 0 <==> '_' !in s
    decreases |s|
  {
    if s != [] {
      UnderscoresNone(s[..|s| - 1]);
      assert s == s[..|s| - 1] + [s[|s| - 1]];
    }
  }

  /** `key.split('_').length`: one segment more than there are separators. */
  function SegmentCount(key: string): (r: nat)
    ensures r >= 1 && (r == 1 <==> '_' !in key)
  {
    UnderscoresNone(key);
    Underscores(key) + 1
  }

  /** Joining two keys with '_' adds their segments up. */
  lemma SegmentsOfJoin(a: string, b: string)
    ensures SegmentCount(a + "_" + b) == SegmentCount(a) + SegmentCount(b)
  {
    UnderscoresAppend(a + "_", b);
    UnderscoresAppend(a, "_");
    assert Underscores("_") == 1 by {
      assert "_"[..0] == "";
    }
  }

  /** Each node's level as batchUpdate computes it: `getKey().split('_').length`. */
  function SegmentLevels(keys: seq<string>): seq<nat>
  {
    seq(|keys|, i requires 0 <= i < |keys| => SegmentCount(keys[i]))
  }

  /** The sort key of node `n`: its level (0 for an id outside the tree). */
  function Depth(levels: seq<nat>, n: nat): nat
  {
    if n < |levels| then levels[n] else 0
  }

  predicate DepthSorted(levels: seq<nat>, s: seq<nat>)
  {
    forall a, b :: 0 <= a < b < |s| ==> Depth(levels, s[a]) >= Depth(levels, s[b])
  }

  /**
   * One insertion of the stable sort with comparator `b - a`: `x` goes
   * after every element at least as deep as it is.
   */
  function InsertByDepth(levels: seq<nat>, s: seq<nat>, x: nat): (r: seq<nat>)
    ensures |r| == |s| + 1 && multiset(r) == multiset(s) + multiset{x}
  {
    if s == [] then [x]
    else if Depth(levels, s[0]) < Depth(levels, x) then [x] + s
    else
      assert s == [s[0]] + s[1..];
      [s[0]] + InsertByDepth(levels, s[1..], x)
  }

  lemma {:induction false} InsertKeepsSorted(levels: seq<nat>, s: seq<nat>, x: nat)
    requires DepthSorted(levels, s)
    ensures DepthSorted(levels, InsertByDepth(levels, s, x))
    decreases |s|
  {
    if s != [] && Depth(levels, s[0]) >= Depth(levels, x) {
      var rest := InsertByDepth(levels, s[1..], x);
      InsertKeepsSorted(levels, s[1..], x);
      var r := [s[0]] + rest;
      forall b | 0 < b < |r| ensures Depth(levels, s[0]) >= Depth(levels, r[b]) {
        assert r[b] in multiset(rest);
        assert r[b] in s[1..] || r[b] == x;
      }
    }
  }

  /** A list without repeats holds each value at most once. */
  lemma {:induction false} CountAtMostOne(a: seq<nat>, x: nat)
    requires NoDuplicates(a)
    ensures multiset(a)[x] <= 1
    decreases |a|
  {
    if a != [] {
      var init := a[..|a| - 1];
      assert a == init + [a[|a| - 1]];
      assert NoDuplicates(init);
      CountAtMostOne(init, x);
      if a[|a| - 1] == x {
        assert x !in init;
      }
    }
  }

  /** Two equal entries count twice. */
  lemma CountTwice(b: seq<nat>, i: nat, j: nat)
    requires i < j < |b|
    ensures b[i] == b[j] ==> multiset(b)[b[i]] >= 2
  {
    assert b == b[..i] + [b[i]] + b[i + 1..j] + [b[j]] + b[j + 1..];
  }

  /** A permutation of a list without repeats has none either. */
  lemma NoDuplicatesFromMultiset(a: seq<nat>, b: seq<nat>)
    requires NoDuplicates(a) && multiset(a) == multiset(b)
    ensures NoDuplicates(b)
  {
    forall i, j | 0 <= i < j < |b| ensures b[i] != b[j] {
      CountAtMostOne(a, b[i]);
      CountTwice(b, i, j);
    }
  }

  /** `Array.from(set).sort((a, b) => depth(b) - depth(a))`, a stable sort. */
  function SortByDepth(levels: seq<nat>, s: seq<nat>): (r: seq<nat>)
    ensures |r| == |s| && multiset(r) == multiset(s)
  {
    if s == [] then []
    else
      assert s == s[..|s| - 1] + [s[|s| - 1]];
      InsertByDepth(levels, SortByDepth(levels, s[..|s| - 1]), s[|s| - 1])
  }

  /** The sort orders the nodes deepest first and, like any permutation, keeps them distinct. */
  lemma {:induction false} SortByDepthSorted(levels: seq<nat>, s: seq<nat>)
    ensures DepthSorted(levels, SortByDepth(levels, s))
    ensures NoDuplicates(s) ==> NoDuplicates(SortByDepth(levels, s))
    decreases |s|
  {
    if s != [] {
      SortByDepthSorted(levels, s[..|s| - 1]);
      InsertKeepsSorted(levels, SortByDepth(levels, s[..|s| - 1]), s[|s| - 1]);
    }
    if NoDuplicates(s) {
      NoDuplicatesFromMultiset(s, SortByDepth(levels, s));
    }
  }

  /** `filter(node => node !== root)`: every entry but the root (id 0), in order. */
  function WithoutRoot(s: seq<nat>): (r: seq<nat>)
    ensures forall y :: y in r <==> y in s && y != 0
    ensures NoDuplicates(s) ==> NoDuplicates(r)
  {
    if s == [] then []
    else
      var init := s[..|s| - 1];
      assert s == init + [s[|s| - 1]];
      assert NoDuplicates(s) ==> NoDuplicates(init) && s[|s| - 1] !in init;
      WithoutRoot(init) + (if s[|s| - 1] == 0 then [] else [s[|s| - 1]])
  }

  /** Filtering keeps the order of what stays. */
  lemma {:induction false} WithoutRootSorted(levels: seq<nat>, s: seq<nat>)
    requires DepthSorted(levels, s)
    ensures DepthSorted(levels, WithoutRoot(s))
    decreases |s|
  {
    if s != [] {
      var init := s[..|s| - 1];
      var last := s[|s| - 1];
      assert DepthSorted(levels, init);
      WithoutRootSorted(levels, init);
      var w := WithoutRoot(init);
      if last != 0 {
        forall a | 0 <= a < |w| ensures Depth(levels, w[a]) >= Depth(levels, last) {
          assert w[a] in init;
          var i :| 0 <= i < |init| && init[i] == w[a];
          assert s[i] == w[a];
        }
      }
    }
  }

  /**
   * The order batchUpdate visits nodes in: the dirty set sorted deepest
   * first, the root taken out and put last (it is visited even when clean).
   */
  function BatchOrder(levels: seq<nat>, dirtySet: seq<nat>): (o: seq<nat>)
    ensures |o| > 0 && o[|o| - 1] == 0
    ensures forall a :: 0 <= a < |o| - 1 ==> o[a] != 0
    ensures forall x :: x in o <==> x in dirtySet || x == 0
    ensures NoDuplicates(dirtySet) ==> NoDuplicates(o)
    ensures forall a, b :: 0 <= a < b < |o| - 1 ==> Depth(levels, o[a]) >= Depth(levels, o[b])
  {
    var sorted := SortByDepth(levels, dirtySet);
    SortByDepthSorted(levels, dirtySet);
    WithoutRootSorted(levels, sorted);
    var w := WithoutRoot(sorted);
    assert forall x :: x in sorted <==> x in dirtySet by {
      forall x ensures x in sorted <==> x in dirtySet {
        assert x in sorted <==> x in multiset(sorted);
        assert x in dirtySet <==> x in multiset(dirtySet);
      }
    }
    assert forall a :: 0 <= a < |w| ==> w[a] in w;
    w + [0]
  }

  /** The values and dirty flags of every node, by id. */
  datatype Tally = Tally(values: seq<int>, dirty: seq<bool>)

  predicate Fits(children: seq<seq<nat>>, t: Tally)
  {
    |t.values| == |children| && |t.dirty| == |children|
  }

  predicate InRange(order: seq<nat>, n: nat)
  {
    forall i :: 0 <= i < |order| ==> order[i] < n
  }

  /**
   * RedDotNode.updateValue: a clean node is left alone and answers false;
   * a dirty node is cleaned; a dirty leaf answers true; a dirty inner node
   * takes its children's sum and answers whether its value changed.
   */
  function UpdateValue(children: seq<seq<nat>>, t: Tally, n: nat): (r: (Tally, bool))
    requires Fits(children, t) && n < |children|
    ensures Fits(children, r.0) && !r.0.dirty[n]
    ensures forall m :: 0 <= m < |children| && m != n ==> r.0.values[m] == t.values[m] && r.0.dirty[m] == t.dirty[m]
    ensures !t.dirty[n] ==> r == (t, false)
    ensures |children[n]| == 0 ==> r.0.values == t.values
    ensures t.dirty[n] && n !in children[n] ==> BalancedIn(children, r.0.values, n)
    ensures r.1 <==> t.dirty[n] && (|children[n]| == 0 || r.0.values[n] != t.values[n])
  {
    if !t.dirty[n] then (t, false)
    else if |children[n]| == 0 then (Tally(t.values, t.dirty[n := false]), true)
    else
      var sum := SumOf(children[n], t.values);
      var values := t.values[n := sum];
      SumOfOthers(children[n], t.values, n, sum);
      (Tally(values, t.dirty[n := false]), t.values[n] != sum)
  }

  /** `nodes.forEach(node => node.updateValue())`. */
  function RunAll(children: seq<seq<nat>>, t: Tally, order: seq<nat>): (r: Tally)
    requires Fits(children, t) && InRange(order, |children|)
    ensures Fits(children, r)
  {
    if order == [] then t
    else UpdateValue(children, RunAll(children, t, order[..|order| - 1]), order[|order| - 1]).0
  }

  /** The nodes whose updateValue answered true, in visiting order. */
  function Changed(children: seq<seq<nat>>, t: Tally, order: seq<nat>): seq<nat>
    requires Fits(children, t) && InRange(order, |children|)
  {
    if order == [] then []
    else
      var init := order[..|order| - 1];
      var last := order[|order| - 1];
      Changed(children, t, init) + (if UpdateValue(children, RunAll(children, t, init), last).1 then [last] else [])
  }

  /** `nodesToNotify.forEach(node => node.notifyListeners())`: each node's listeners get its current value. */
  function NoticesFor(ns: seq<nat>, listeners: seq<seq<nat>>, values: seq<int>): seq<Notice>
  {
    if ns == [] then []
    else
      var n := ns[|ns| - 1];
      NoticesFor(ns[..|ns| - 1], listeners, values) +
      (if n < |listeners| && n < |values| then Notices(listeners[n], values[n]) else [])
  }

  /**
   * A batch changes nothing outside the visited nodes, never makes a node
   * dirty, leaves a clean node's value alone, and cleans every visited node.
   */
  lemma {:induction false} RunAllUntouched(children: seq<seq<nat>>, t: Tally, order: seq<nat>, m: nat)
    requires Fits(children, t) && InRange(order, |children|) && m < |children|
    ensures m !in order ==> RunAll(children, t, order).values[m] == t.values[m] && RunAll(children, t, order).dirty[m] == t.dirty[m]
    ensures !t.dirty[m] ==> RunAll(children, t, order).values[m] == t.values[m] && !RunAll(children, t, order).dirty[m]
    ensures m in order ==> !RunAll(children, t, order).dirty[m]
    decreases |order|
  {
    if order != [] {
      var init := order[..|order| - 1];
      assert order == init + [order[|order| - 1]];
      RunAllUntouched(children, t, init, m);
    }
  }

  /** Each visited node that is the parent of a dirty node comes after that child. */
  predicate DirtyChildrenFirst(children: seq<seq<nat>>, dirty: seq<bool>, order: seq<nat>)
  {
    forall a, j ::
      (0 <= a < |order| && order[a] < |children| && 0 <= j < |children[order[a]]| &&
       children[order[a]][j] < |dirty| && dirty[children[order[a]][j]])
      ==> children[order[a]][j] in order[..a]
  }

  /**
   * Visiting each node once, dirty children before their parents, leaves
   * every node that was dirty holding the sum of its children.
   */
  lemma {:induction false} DirtyFirstBalances(children: seq<seq<nat>>, t: Tally, order: seq<nat>)
    requires Fits(children, t) && InRange(order, |children|)
    requires NoDuplicates(order) && DirtyChildrenFirst(children, t.dirty, order)
    ensures forall a :: 0 <= a < |order| && t.dirty[order[a]] ==> BalancedIn(children, RunAll(children, t, order).values, order[a])
    decreases |order|
  {
    if order != [] {
      var k := |order| - 1;
      var init := order[..k];
      var n := order[k];
      assert order == init + [n];
      assert NoDuplicates(init);
      assert DirtyChildrenFirst(children, t.dirty, init) by {
        forall a | 0 <= a < |init| ensures init[..a] == order[..a] && init[a] == order[a] {}
      }
      DirtyFirstBalances(children, t, init);
      var before := RunAll(children, t, init);
      var r := UpdateValue(children, before, n).0;
      assert n !in init;
      RunAllUntouched(children, t, init, n);
      forall a | 0 <= a < |order| && t.dirty[order[a]] ensures BalancedIn(children, r.values, order[a]) {
        var m := order[a];
        if a < k {
          assert init[a] == m && m != n;
          assert BalancedIn(children, before.values, m);
          if r.values != before.values {
            assert before.dirty[n] && t.dirty[n];
            AssignKeepsBalance(children, before.values, n, r.values[n], m);
            assert r.values == before.values[n := r.values[n]];
          }
        }
      }
    }
  }

  /** Every child of a node is a node other than the root. */
  predicate ChildrenInRange(children: seq<seq<nat>>)
  {
    forall m, j :: 0 <= m < |children| && 0 <= j < |children[m]| ==> 0 < children[m][j] < |children|
  }

  /** A dirty node's parent is dirty too: makeDirty marks the whole chain up. */
  predicate DirtyClosed(children: seq<seq<nat>>, dirty: seq<bool>)
  {
    forall m, j ::
      (0 <= m < |children| && 0 <= j < |children[m]| && children[m][j] < |dirty| && dirty[children[m][j]])
      ==> m < |dirty| && dirty[m]
  }

  /** `dirtySet` holds nodes of the tree, each once, and every dirty node among them. */
  predicate DirtySetOf(dirtySet: seq<nat>, dirty: seq<bool>)
  {
    && NoDuplicates(dirtySet)
    && (forall i :: 0 <= i < |dirtySet| ==> dirtySet[i] < |dirty|)
    && (forall x :: 0 <= x < |dirty| && dirty[x] ==> x in dirtySet)
  }

  /** Below the root, every child has a higher level than its parent. */
  predicate DepthOrdered(levels: seq<nat>, children: seq<seq<nat>>)
  {
    forall m, j :: 0 < m < |children| && 0 <= j < |children[m]| ==> Depth(levels, children[m][j]) > Depth(levels, m)
  }

  /** Every clean node holds the sum of its children. */
  ghost predicate CleanBalanced(children: seq<seq<nat>>, t: Tally)
  {
    forall m: nat :: m < |children| && m < |t.dirty| && !t.dirty[m] ==> BalancedIn(children, t.values, m)
  }

  /** With depth-ordered levels the batch order puts every dirty child before its parent. */
  lemma BatchChildrenFirst(levels: seq<nat>, children: seq<seq<nat>>, dirty: seq<bool>, dirtySet: seq<nat>)
    requires |dirty| == |children| && ChildrenInRange(children)
    requires DirtySetOf(dirtySet, dirty) && DepthOrdered(levels, children)
    ensures DirtyChildrenFirst(children, dirty, BatchOrder(levels, dirtySet))
  {
    var o := BatchOrder(levels, dirtySet);
    forall a, j | 0 <= a < |o| && o[a] < |children| && 0 <= j < |children[o[a]]| &&
                  children[o[a]][j] < |dirty| && dirty[children[o[a]][j]]
      ensures children[o[a]][j] in o[..a]
    {
      var c := children[o[a]][j];
      assert c in dirtySet && c != 0;
      var b :| 0 <= b < |o| && o[b] == c;
      assert b < |o| - 1;
      if o[a] != 0 {
        assert a < |o| - 1;
        assert Depth(levels, c) > Depth(levels, o[a]);
      }
      assert b < a;
      assert o[..a][b] == c;
    }
  }

  /** The update pass of batchUpdate: every node of the batch order, visited once. */
  function Batch(levels: seq<nat>, children: seq<seq<nat>>, t: Tally, dirtySet: seq<nat>): (r: Tally)
    requires Fits(children, t) && |children| > 0 && DirtySetOf(dirtySet, t.dirty)
    ensures Fits(children, r) && InRange(BatchOrder(levels, dirtySet), |children|)
  {
    var o := BatchOrder(levels, dirtySet);
    assert forall i :: 0 <= i < |o| ==> o[i] in o;
    RunAll(children, t, o)
  }

  /** A clean node whose children are clean keeps its value and its balance through a run. */
  lemma CleanStaysBalanced(children: seq<seq<nat>>, t: Tally, order: seq<nat>, m: nat)
    requires Fits(children, t) && InRange(order, |children|) && m < |children|
    requires !t.dirty[m] && BalancedIn(children, t.values, m)
    requires forall j :: 0 <= j < |children[m]| ==> children[m][j] < |children| && !t.dirty[children[m][j]]
    ensures BalancedIn(children, RunAll(children, t, order).values, m)
  {
    var r := RunAll(children, t, order);
    RunAllUntouched(children, t, order, m);
    forall c | c in children[m] ensures ValueOf(r.values, c) == ValueOf(t.values, c) {
      var j :| 0 <= j < |children[m]| && children[m][j] == c;
      RunAllUntouched(children, t, order, c);
    }
    SumOfFrame(children[m], r.values, t.values);
  }

  /**
   * The batch as batchUpdate runs it. When the levels are depth-ordered and
   * the tree was consistent (clean nodes balanced, dirty flags closed
   * upwards, the dirty set listing the dirty nodes), afterwards every node
   * is clean and holds the sum of its children.
   */
  lemma BatchBalances(levels: seq<nat>, children: seq<seq<nat>>, t: Tally, dirtySet: seq<nat>)
    requires Fits(children, t) && |children| > 0 && ChildrenInRange(children)
    requires DirtySetOf(dirtySet, t.dirty) && DirtyClosed(children, t.dirty)
    requires DepthOrdered(levels, children) && CleanBalanced(children, t)
    ensures forall m: nat :: m < |children| ==>
              !Batch(levels, children, t, dirtySet).dirty[m] && BalancedIn(children, Batch(levels, children, t, dirtySet).values, m)
  {
    var o := BatchOrder(levels, dirtySet);
    var r := Batch(levels, children, t, dirtySet);
    assert r == RunAll(children, t, o);
    BatchChildrenFirst(levels, children, t.dirty, dirtySet);
    DirtyFirstBalances(children, t, o);
    forall m: nat | m < |children| ensures !r.dirty[m] && BalancedIn(children, r.values, m) {
      RunAllUntouched(children, t, o, m);
      if t.dirty[m] {
        assert m in o;
        var a :| 0 <= a < |o| && o[a] == m;
      } else {
        CleanStaysBalanced(children, t, o, m);
      }
    }
  }

  /**
   * The nodes batchUpdate notifies: exactly the visited nodes that were
   * dirty and are leaves or ended the batch with a different value.
   */
  lemma {:induction false} ChangedExactly(children: seq<seq<nat>>, t: Tally, order: seq<nat>)
    requires Fits(children, t) && InRange(order, |children|) && NoDuplicates(order)
    ensures forall x :: x in Changed(children, t, order) <==>
              x in order && x < |children| && t.dirty[x] &&
              (|children[x]| == 0 || RunAll(children, t, order).values[x] != t.values[x])
    decreases |order|
  {
    if order != [] {
      var k := |order| - 1;
      var init := order[..k];
      var n := order[k];
      assert order == init + [n];
      assert NoDuplicates(init);
      ChangedExactly(children, t, init);
      RunAllUntouched(children, t, init, n);
      assert n !in init;
      forall x ensures x in Changed(children, t, order) <==>
                         x in order && x < |children| && t.dirty[x] &&
                         (|children[x]| == 0 || RunAll(children, t, order).values[x] != t.values[x])
      {
        if x in init {
          assert x != n;
        }
      }
    }
  }

  /** After a batch every node is clean: each dirty node is in the dirty set, so it is visited. */
  lemma BatchCleans(levels: seq<nat>, children: seq<seq<nat>>, t: Tally, dirtySet: seq<nat>)
    requires Fits(children, t) && |children| > 0 && DirtySetOf(dirtySet, t.dirty)
    ensures forall m :: 0 <= m < |children| ==> !Batch(levels, children, t, dirtySet).dirty[m]
  {
    var o := BatchOrder(levels, dirtySet);
    var r := Batch(levels, children, t, dirtySet);
    forall m | 0 <= m < |children| ensures !r.dirty[m] {
      RunAllUntouched(children, t, o, m);
      if t.dirty[m] {
        assert m in o;
      }
    }
  }

  /** The depth of node `n` in its tree: 1 without a parent, one more than the parent's otherwise. */
  function TreeDepth(parents: seq<Option<nat>>, n: nat): (d: nat)
    ensures d >= 1
    decreases n
  {
    if n < |parents| && parents[n].Some? && parents[n].value < n then TreeDepth(parents, parents[n].value) + 1 else 1
  }

  /** Every node's depth in the tree, by id. */
  function TreeLevels(parents: seq<Option<nat>>): seq<nat>
  {
    seq(|parents|, i requires 0 <= i < |parents| => TreeDepth(parents, i))
  }

  /** Depth in the tree is depth-ordered, whatever the keys are. */
  lemma TreeLevelsOrdered(children: seq<seq<nat>>, parents: seq<Option<nat>>)
    requires ChildLinks(children, parents)
    ensures DepthOrdered(TreeLevels(parents), children)
  {
    var levels := TreeLevels(parents);
    forall m, j | 0 < m < |children| && 0 <= j < |children[m]|
      ensures Depth(levels, children[m][j]) > Depth(levels, m)
    {
      var c := children[m][j];
      assert m < c < |parents| && parents[c] == Some(m);
      assert levels[c] == TreeDepth(parents, m) + 1;
    }
  }

  /**
   * The batch with the dirty nodes sorted by their depth in the tree
   * instead of by key segments: on any consistent tree it leaves every node
   * clean and holding the sum of its children, however the keys are spelt.
   */
  lemma TreeBatchBalances(children: seq<seq<nat>>, parents: seq<Option<nat>>, t: Tally, dirtySet: seq<nat>)
    requires Fits(children, t) && |children| > 0 && |parents| == |children| && ChildLinks(children, parents)
    requires DirtySetOf(dirtySet, t.dirty) && DirtyClosed(children, t.dirty) && CleanBalanced(children, t)
    ensures forall m: nat :: m < |children| ==>
              !Batch(TreeLevels(parents), children, t, dirtySet).dirty[m] &&
              BalancedIn(children, Batch(TreeLevels(parents), children, t, dirtySet).values, m)
  {
    TreeLevelsOrdered(children, parents);
    assert ChildrenInRange(children);
    BatchBalances(TreeLevels(parents), children, t, dirtySet);
  }

  /** `child` is `parent` followed by '_' and a further name. */
  predicate UnderscoreChild(parent: string, child: string)
  {
    |child| > |parent| && child[..|parent| + 1] == parent + "_"
  }

  /** Every child's key extends its parent's key with '_' and a name. */
  predicate UnderscoreJoined(keys: seq<string>, children: seq<seq<nat>>)
  {
    forall m, j :: 0 < m < |children| && m < |keys| && 0 <= j < |children[m]| ==>
      children[m][j] < |keys| && UnderscoreChild(keys[m], keys[children[m][j]])
  }

  /** A key extended with '_' and a name has more segments than the key. */
  lemma UnderscoreChildDeeper(parent: string, child: string)
    requires UnderscoreChild(parent, child)
    ensures SegmentCount(child) > SegmentCount(parent)
  {
    var rest := child[|parent| + 1..];
    assert child == parent + "_" + rest;
    SegmentsOfJoin(parent, rest);
  }

  /**
   * With child keys made by joining the parent's key, '_' and a name, the
   * segment counts batchUpdate sorts by are depth-ordered.
   */
  lemma UnderscoreLevelsOrdered(keys: seq<string>, children: seq<seq<nat>>)
    requires |keys| == |children| && UnderscoreJoined(keys, children)
    ensures DepthOrdered(SegmentLevels(keys), children)
  {
    var levels := SegmentLevels(keys);
    forall m, j | 0 < m < |children| && 0 <= j < |children[m]|
      ensures Depth(levels, children[m][j]) > Depth(levels, m)
    {
      UnderscoreChildDeeper(keys[m], keys[children[m][j]]);
    }
  }

  /**
   * So for '_'-joined keys the sort as written works: on a consistent tree
   * the batch leaves every node clean and holding its children's sum.
   */
  lemma UnderscoreBatchBalances(keys: seq<string>, children: seq<seq<nat>>, t: Tally, dirtySet: seq<nat>)
    requires Fits(children, t) && |children| > 0 && ChildrenInRange(children)
    requires |keys| == |children| && UnderscoreJoined(keys, children)
    requires DirtySetOf(dirtySet, t.dirty) && DirtyClosed(children, t.dirty) && CleanBalanced(children, t)
    ensures forall m: nat :: m < |children| ==>
              !Batch(SegmentLevels(keys), children, t, dirtySet).dirty[m] &&
              BalancedIn(children, Batch(SegmentLevels(keys), children, t, dirtySet).values, m)
  {
    UnderscoreLevelsOrdered(keys, children);
    BatchBalances(SegmentLevels(keys), children, t, dirtySet);
  }

  /** An element no deeper than everything already in the list goes at its end. */
  lemma {:induction false} InsertLast(levels: seq<nat>, s: seq<nat>, x: nat)
    requires forall y :: y in s ==> Depth(levels, y) >= Depth(levels, x)
    ensures InsertByDepth(levels, s, x) == s + [x]
    decreases |s|
  {
    if s != [] {
      InsertLast(levels, s[1..], x);
      assert s == [s[0]] + s[1..];
    }
  }

  /** When every node has the same level the stable sort keeps the list as it is. */
  lemma {:induction false} SortKeepsEqualLevels(levels: seq<nat>, s: seq<nat>, d: nat)
    requires forall y :: y in s ==> Depth(levels, y) == d
    ensures SortByDepth(levels, s) == s
    decreases |s|
  {
    if s != [] {
      var init := s[..|s| - 1];
      assert s == init + [s[|s| - 1]];
      SortKeepsEqualLevels(levels, init, d);
      InsertLast(levels, init, s[|s| - 1]);
    }
  }

  /** Keys without '_' all sit at level 1. */
  lemma NoUnderscoreLevels(keys: seq<string>)
    requires forall i :: 0 <= i < |keys| ==> '_' !in keys[i]
    ensures SegmentLevels(keys) == seq(|keys|, i => 1)
  {
  }

  /** Filtering one more element. */
  lemma WithoutRootSnoc(s: seq<nat>, x: nat)
    ensures WithoutRoot(s + [x]) == WithoutRoot(s) + (if x == 0 then [] else [x])
  {
    assert (s + [x])[..|s|] == s;
  }

  /** When every node has the same level, the batch order is the dirty set as inserted, the root moved last. */
  lemma EqualLevelsOrder(levels: seq<nat>, dirtySet: seq<nat>, d: nat)
    requires forall y :: y in dirtySet ==> Depth(levels, y) == d
    ensures BatchOrder(levels, dirtySet) == WithoutRoot(dirtySet) + [0]
  {
    SortKeepsEqualLevels(levels, dirtySet, d);
  }

  /** The filter of StaleParentAsWritten's dirty set. */
  lemma StaleFilter(dirtySet: seq<nat>)
    requires dirtySet == [2, 1, 0, 4, 3]
    ensures WithoutRoot(dirtySet) == [2, 1, 4, 3]
  {
    var s := dirtySet[..4];
    assert s == [2, 1, 0, 4] && dirtySet == s + [3];
    StaleFilterHead(s);
    WithoutRootSnoc(s, 3);
  }

  /** The first four entries of StaleFilter's dirty set. */
  lemma StaleFilterHead(s: seq<nat>)
    requires s == [2, 1, 0, 4]
    ensures WithoutRoot(s) == [2, 1, 4]
  {
    var t := s[..3];
    assert t == [2, 1, 0] && s == t + [4];
    StaleFilterStart(t);
    WithoutRootSnoc(t, 4);
  }

  /** The first three entries: the root is dropped. */
  lemma StaleFilterStart(s: seq<nat>)
    requires s == [2, 1, 0]
    ensures WithoutRoot(s) == [2, 1]
  {
    var t := s[..2];
    assert t == [2, 1] && s == t + [0];
    assert t[..1] == [2] && t == t[..1] + [1];
    assert [2][..0] == [] && [2] == [] + [2];
    WithoutRootSnoc([], 2);
    WithoutRootSnoc(t[..1], 1);
    WithoutRootSnoc(t, 0);
  }


  /** The visiting order of StaleParentAsWritten. */
  lemma StaleOrder(levels: seq<nat>, dirtySet: seq<nat>)
    requires levels == [1, 1, 1, 1, 1] && dirtySet == [2, 1, 0, 4, 3]
    ensures BatchOrder(levels, dirtySet) == [2, 1, 4, 3, 0]
  {
    assert forall y :: y in dirtySet ==> y < 5;
    EqualLevelsOrder(levels, dirtySet, 1);
    StaleFilter(dirtySet);
  }

  /** Running one more node. */
  lemma RunAllSnoc(children: seq<seq<nat>>, t: Tally, order: seq<nat>, n: nat)
    requires Fits(children, t) && InRange(order, |children|) && n < |children|
    ensures InRange(order + [n], |children|)
    ensures RunAll(children, t, order + [n]) == UpdateValue(children, RunAll(children, t, order), n).0
  {
    assert (order + [n])[..|order|] == order;
  }

  /** StaleParentAsWritten's tree: root, task under it, daily and achievement under task, achievement1 under achievement. */
  predicate StaleTree(children: seq<seq<nat>>)
  {
    children == [[1], [2, 3], [], [4], []]
  }

  /** A dirty leaf is only cleaned. */
  lemma StaleLeafStep(children: seq<seq<nat>>, t: Tally, n: nat)
    requires StaleTree(children) && Fits(children, t) && (n == 2 || n == 4) && t.dirty[n]
    ensures UpdateValue(children, t, n).0 == Tally(t.values, t.dirty[n := false])
  {
  }

  /** Task sums daily (1) and achievement (not updated yet, 0). */
  lemma StaleTaskStep(children: seq<seq<nat>>, t: Tally)
    requires StaleTree(children) && t == Tally([0, 0, 1, 0, 1], [true, true, false, true, true])
    ensures UpdateValue(children, t, 1).0 == Tally([0, 1, 1, 0, 1], [true, false, false, true, true])
  {
    assert SumOf([2, 3], t.values) == 1 by {
      assert [2, 3][..1] == [2] && [2][..0] == [];
    }
  }

  /** Achievement sums achievement1. */
  lemma StaleAchievementStep(children: seq<seq<nat>>, t: Tally)
    requires StaleTree(children) && t == Tally([0, 1, 1, 0, 1], [true, false, false, true, false])
    ensures UpdateValue(children, t, 3).0 == Tally([0, 1, 1, 1, 1], [true, false, false, false, false])
  {
    assert SumOf([4], t.values) == 1 by {
      assert [4][..0] == [];
    }
  }

  /** The root sums task, which kept its stale 1. */
  lemma StaleRootStep(children: seq<seq<nat>>, t: Tally)
    requires StaleTree(children) && t == Tally([0, 1, 1, 1, 1], [true, false, false, false, false])
    ensures UpdateValue(children, t, 0).0 == Tally([1, 1, 1, 1, 1], [false, false, false, false, false])
  {
    assert SumOf([1], t.values) == 1 by {
      assert [1][..0] == [];
    }
  }

  /** The update pass of StaleParentAsWritten, node by node. */
  lemma StaleRun(children: seq<seq<nat>>, t: Tally, order: seq<nat>)
    requires StaleTree(children) && t == Tally([0, 0, 1, 0, 1], [true, true, true, true, true])
    requires order == [2, 1, 4, 3, 0]
    ensures RunAll(children, t, order) == Tally([1, 1, 1, 1, 1], [false, false, false, false, false])
  {
    var t1 := Tally([0, 0, 1, 0, 1], [true, true, false, true, true]);
    var t2 := Tally([0, 1, 1, 0, 1], [true, false, false, true, true]);
    var t3 := Tally([0, 1, 1, 0, 1], [true, false, false, true, false]);
    var t4 := Tally([0, 1, 1, 1, 1], [true, false, false, false, false]);
    var t5 := Tally([1, 1, 1, 1, 1], [false, false, false, false, false]);
    assert [] + [2] == [2] && [2] + [1] == [2, 1] && [2, 1] + [4] == [2, 1, 4];
    assert [2, 1, 4] + [3] == [2, 1, 4, 3] && [2, 1, 4, 3] + [0] == order;
    StaleLeafStep(children, t, 2);
    assert t.dirty[2 := false] == t1.dirty;
    RunAllSnoc(children, t, [], 2);
    StaleTaskStep(children, t1);
    RunAllSnoc(children, t, [2], 1);
    StaleLeafStep(children, t2, 4);
    assert t2.dirty[4 := false] == t3.dirty;
    RunAllSnoc(children, t, [2, 1], 4);
    StaleAchievementStep(children, t3);
    RunAllSnoc(children, t, [2, 1, 4], 3);
    StaleRootStep(children, t4);
    RunAllSnoc(children, t, [2, 1, 4, 3], 0);
  }

  /** Every premise of BatchBalances but depth order holds in StaleParentAsWritten's state. */
  lemma StalePremises(children: seq<seq<nat>>, t: Tally, dirtySet: seq<nat>)
    requires StaleTree(children) && t == Tally([0, 0, 1, 0, 1], [true, true, true, true, true])
    requires dirtySet == [2, 1, 0, 4, 3]
    ensures DirtySetOf(dirtySet, t.dirty) && DirtyClosed(children, t.dirty) && CleanBalanced(children, t)
    ensures ChildrenInRange(children)
  {
    assert forall x :: 0 <= x < 5 ==> x in dirtySet by {
      assert dirtySet[0] == 2 && dirtySet[1] == 1 && dirtySet[2] == 0 && dirtySet[3] == 4 && dirtySet[4] == 3;
    }
    StaleInRange(children);
  }

  lemma StaleInRange(children: seq<seq<nat>>)
    requires StaleTree(children)
    ensures ChildrenInRange(children)
  {
    forall m, j | 0 <= m < |children| && 0 <= j < |children[m]| ensures 0 < children[m][j] < |children| {
      assert m == 0 || m == 1 || m == 3;
    }
  }

  /** The example's keys, joined with '.', all sit at level 1. */
  lemma StaleLevels(keys: seq<string>)
    requires keys == ["root", "root.task", "root.task.daily", "root.task.achievement", "root.task.achievement.achievement1"]
    ensures SegmentLevels(keys) == [1, 1, 1, 1, 1]
  {
    assert forall i :: 0 <= i < |keys| ==> '_' !in keys[i];
    NoUnderscoreLevels(keys);
  }

  /**
   * The keys as the generated key table spells them, joined with '.', all
   * count one '_' segment, so the sort keeps insertion order. Under
   * "root.task" hang "daily" (a leaf) and "achievement" (with leaf
   * achievement1). Setting daily and then achievement1 to 1 dirties daily,
   * task, root and then achievement1, achievement (task is dirty already).
   * The batch sums task before achievement has its new value: task and the
   * root end clean showing 1 where the two leaves hold 2, though the tree
   * meets every premise of BatchBalances but depth order.
   */
  lemma StaleParentAsWritten(keys: seq<string>, children: seq<seq<nat>>, t: Tally, dirtySet: seq<nat>)
    requires keys == ["root", "root.task", "root.task.daily", "root.task.achievement", "root.task.achievement.achievement1"]
    requires children == [[1], [2, 3], [], [4], []]
    requires t == Tally([0, 0, 1, 0, 1], [true, true, true, true, true])
    requires dirtySet == [2, 1, 0, 4, 3]
    ensures DirtySetOf(dirtySet, t.dirty) && DirtyClosed(children, t.dirty) && CleanBalanced(children, t)
    ensures ChildrenInRange(children) && !DepthOrdered(SegmentLevels(keys), children)
    ensures var r := Batch(SegmentLevels(keys), children, t, dirtySet);
            && !r.dirty[0] && !r.dirty[1]
            && r.values[1] == 1 && SumOf(children[1], r.values) == 2
            && r.values[0] == 1 && r.values[2] + r.values[4] == 2
  {
    StaleLevels(keys);
    var levels := SegmentLevels(keys);
    StalePremises(children, t, dirtySet);
    StaleOrder(levels, dirtySet);
    StaleRun(children, t, [2, 1, 4, 3, 0]);
    var r := Batch(levels, children, t, dirtySet);
    assert SumOf([2, 3], r.values) == 2 by {
      assert [2, 3][..1] == [2] && [2][..0] == [];
    }
    assert children[1][0] == 2 && Depth(levels, 2) == Depth(levels, 1);
  }

  /** Hanging a new leaf under `p` keeps clean nodes balanced, unless `p` is a clean leaf holding a value other than 0. */
  predicate CanAdopt(children: seq<seq<nat>>, values: seq<int>, dirty: seq<bool>, p: Option<nat>)
  {
    p.None? || p.value >= |children| || p.value >= |values| || p.value >= |dirty| ||
    |children[p.value]| > 0 || values[p.value] == 0 || dirty[p.value]
  }

  /**
   * A new clean leaf keeps every clean node balanced, unless its parent is
   * a clean leaf holding a value other than 0: that node keeps its value and
   * now has a child of value 0.
   */
  lemma AttachKeepsClean(children: seq<seq<nat>>, values: seq<int>, dirty: seq<bool>, p: Option<nat>, id: nat)
    requires |children| == |values| == |dirty| == id
    requires forall m, j :: 0 <= m < |children| && 0 <= j < |children[m]| ==> children[m][j] < id
    requires CleanBalanced(children, Tally(values, dirty))
    requires CanAdopt(children, values, dirty, p)
    ensures CleanBalanced(Attached(children, p, id), Tally(values + [0], dirty + [false]))
  {
    forall m: nat | m < id + 1 && !(dirty + [false])[m]
      ensures BalancedIn(Attached(children, p, id), values + [0], m)
    {
      if m < id {
        AttachKeepsCleanAt(children, values, dirty, p, id, m);
      }
    }
  }

  /** One clean node of AttachKeepsClean. */
  lemma AttachKeepsCleanAt(children: seq<seq<nat>>, values: seq<int>, dirty: seq<bool>, p: Option<nat>, id: nat, m: nat)
    requires |children| == |values| == |dirty| == id && m < id && !dirty[m]
    requires forall i, j :: 0 <= i < |children| && 0 <= j < |children[i]| ==> children[i][j] < id
    requires BalancedIn(children, values, m)
    requires CanAdopt(children, values, dirty, p)
    ensures BalancedIn(Attached(children, p, id), values + [0], m)
  {
    var after := Attached(children, p, id);
    if |children[m]| > 0 {
      AttachKeepsBalance(children, values, p, id, m);
    } else if p == Some(m) {
      assert after[m] == [id];
      assert SumOf([id], values + [0]) == 0 by {
        assert [id][..0] == [];
      }
    } else {
      assert after[m] == children[m];
    }
  }

}
