// What both red-dot trees share: children and listener arrays that never hold
// an entry twice, `indexOf` + `splice` removal, the running sum of the
// children's values, the calls a listener list receives, the configuration
// tree and the registerNode calls its depth-first walk makes, and the parent
// chain above a node.
module RedDotLists {
  import opened Common

  /** One call `listener(value)`. */
  datatype Notice = Notice(listener: nat, value: int)

  predicate NoDuplicates(s: seq<nat>)
  {
    forall i, j :: 0 <= i < j < |s| ==> s[i] != s[j]
  }

  /** `if (list.includes(x)) return; list.push(x)`. */
  function AddOnce(s: seq<nat>, x: nat): (r: seq<nat>)
    ensures x in r
    ensures forall y :: y in r <==> y in s || y == x
    ensures s <= r && |r| <= |s| + 1
    ensures NoDuplicates(s) ==> NoDuplicates(r)
  {
    if x in s then s else s + [x]
  }

  /** `indexOf`: the first position of `x`, or -1. */
  function IndexOf(s: seq<nat>, x: nat): (i: int)
    ensures -1 <= i < |s|
    ensures i == -1 <==> x !in s
    ensures i >= 0 ==> s[i] == x && x !in s[..i]
  {
    if s == [] then -1
    else if s[0] == x then 0
    else
      var k := IndexOf(s[1..], x);
      if k == -1 then -1 else k + 1
  }

  /** `splice(indexOf(x), 1)` when `x` is present: its first occurrence goes. */
  function RemoveFirstOf(s: seq<nat>, x: nat): (r: seq<nat>)
    ensures x !in s ==> r == s
    ensures x in s ==> |r| == |s| - 1 && multiset(r) == multiset(s) - multiset{x}
  {
    var i := IndexOf(s, x);
    if i == -1 then s
    else
      assert s == s[..i] + [x] + s[i + 1..];
      s[..i] + s[i + 1..]
  }

  /** The removal adds nothing, and on a list without repeats it leaves `x` out entirely. */
  lemma RemoveFirstOfKeeps(s: seq<nat>, x: nat)
    ensures forall y :: y in RemoveFirstOf(s, x) ==> y in s
    ensures NoDuplicates(s) ==> NoDuplicates(RemoveFirstOf(s, x)) && x !in RemoveFirstOf(s, x)
  {
    var i := IndexOf(s, x);
    if i != -1 {
      var r := s[..i] + s[i + 1..];
      assert RemoveFirstOf(s, x) == r;
      forall a | 0 <= a < |r| ensures r[a] == s[if a < i then a else a + 1] {
      }
      forall y | y in r ensures y in s {
        var a :| 0 <= a < |r| && r[a] == y;
        assert y == s[if a < i then a else a + 1];
      }
      if NoDuplicates(s) {
        forall a, b | 0 <= a < b < |r| ensures r[a] != r[b] {
          assert r[a] == s[if a < i then a else a + 1] && r[b] == s[if b < i then b else b + 1];
        }
        forall a | 0 <= a < |r| ensures r[a] != x {
          assert r[a] == s[if a < i then a else a + 1];
        }
      }
    }
  }


  /** The value of node `c`, and 0 for an id the tree does not hold. */
  function ValueOf(values: seq<int>, c: nat): int
  {
    if c < |values| then values[c] else 0
  }

  /** The children's values added up left to right, starting from 0. */
  function SumOf(cs: seq<nat>, values: seq<int>): int
  {
    if cs == [] then 0 else SumOf(cs[..|cs| - 1], values) + ValueOf(values, cs[|cs| - 1])
  }

  /** The sum reads only the children's own values. */
  lemma {:induction false} SumOfFrame(cs: seq<nat>, v1: seq<int>, v2: seq<int>)
    requires forall c :: c in cs ==> ValueOf(v1, c) == ValueOf(v2, c)
    ensures SumOf(cs, v1) == SumOf(cs, v2)
  {
    if cs != [] {
      assert forall c :: c in cs[..|cs| - 1] ==> c in cs;
      SumOfFrame(cs[..|cs| - 1], v1, v2);
    }
  }

  /** Changing a value that is not one of the children leaves the sum alone. */
  lemma SumOfOthers(cs: seq<nat>, values: seq<int>, n: nat, v: int)
    requires n < |values|
    ensures n !in cs ==> SumOf(cs, values[n := v]) == SumOf(cs, values)
  {
    if n !in cs {
      SumOfFrame(cs, values[n := v], values);
    }
  }

  /** A new child with value 0 leaves the sum as it was. */
  lemma SumOfNewLeaf(cs: seq<nat>, values: seq<int>, c: nat)
    requires c !in cs && c == |values|
    ensures SumOf(cs + [c], values + [0]) == SumOf(cs, values)
  {
    assert (cs + [c])[..|cs|] == cs;
    assert forall d :: d in cs ==> ValueOf(values + [0], d) == ValueOf(values, d);
    SumOfFrame(cs, values + [0], values);
  }

  /** `listeners.forEach(l => l(value))`, in registration order. */
  function Notices(listeners: seq<nat>, value: int): (r: seq<Notice>)
  {
    seq(|listeners|, i requires 0 <= i < |listeners| => Notice(listeners[i], value))
  }

  /** `(old - by) >= 0 ? old - by : 0`: decrement never goes below zero. */
  function Decremented(current: int, amount: int): (r: int)
    ensures r >= 0
    ensures r == current - amount || (r == 0 && current - amount < 0)
  {
    if current - amount >= 0 then current - amount else 0
  }

  /** An IRedDotConfig entry: a key and the entries under it. */
  datatype RedDotConfig = RedDotConfig(key: string, children: seq<RedDotConfig>)

  /** A registerNode call: the key and the parent key it was given. */
  type RegisterCall = (string, Option<string>)

  /**
   * The registerNode calls traverseDFS makes, in order: the entry under
   * `parentKey`, then each child's subtree under the entry's key.
   */
  function DfsCalls(c: RedDotConfig, parentKey: Option<string>): (r: seq<RegisterCall>)
    decreases c, 1
    ensures |r| > 0 && r[0] == (c.key, parentKey)
  {
    [(c.key, parentKey)] + DfsCallsAll(c.key, c.children)
  }

  /** The calls of the loop over `cs`, each subtree under `key`. */
  function DfsCallsAll(key: string, cs: seq<RedDotConfig>): seq<RegisterCall>
    decreases cs, 0
  {
    if cs == [] then [] else DfsCallsAll(key, cs[..|cs| - 1]) + DfsCalls(cs[|cs| - 1], Some(key))
  }

  lemma DfsCallsAllStep(key: string, cs: seq<RedDotConfig>, i: nat)
    requires i < |cs|
    ensures DfsCallsAll(key, cs[..i + 1]) == DfsCallsAll(key, cs[..i]) + DfsCalls(cs[i], Some(key))
  {
    assert cs[..i + 1][..i] == cs[..i];
  }

  /** Some call before position `i` registers `k`. */
  predicate NamedBefore(calls: seq<RegisterCall>, i: nat, k: string)
  {
    exists j :: 0 <= j < i && j < |calls| && calls[j].0 == k
  }

  /** Call `i` names a parent: `key` itself, or a key an earlier call registered. */
  predicate ParentNamed(calls: seq<RegisterCall>, i: nat, key: string)
  {
    i < |calls| && calls[i].1.Some? && (calls[i].1 == Some(key) || NamedBefore(calls, i, calls[i].1.value))
  }

  /**
   * Parents come first: every call after the first names as its parent the
   * key of an earlier call, so the parent key is in the table by then.
   */
  lemma {:induction false} ParentsFirst(c: RedDotConfig, parentKey: Option<string>)
    ensures forall i :: 0 < i < |DfsCalls(c, parentKey)| ==>
              ParentNamed(DfsCalls(c, parentKey), i, c.key) &&
              NamedBefore(DfsCalls(c, parentKey), i, DfsCalls(c, parentKey)[i].1.value)
    decreases c, 1
  {
    var calls := DfsCalls(c, parentKey);
    var rest := DfsCallsAll(c.key, c.children);
    ParentsFirstAll(c.key, c.children);
    forall i | 0 < i < |calls| ensures ParentNamed(calls, i, c.key) && NamedBefore(calls, i, calls[i].1.value) {
      assert calls[i] == rest[i - 1];
      assert ParentNamed(rest, i - 1, c.key);
      if rest[i - 1].1 == Some(c.key) {
        assert calls[0].0 == c.key;
      } else {
        var j :| 0 <= j < i - 1 && j < |rest| && rest[j].0 == rest[i - 1].1.value;
        assert calls[j + 1] == rest[j];
        assert calls[j + 1].0 == calls[i].1.value;
      }
    }
  }

  /** In the loop's calls, each parent is the loop's key or a key registered earlier in the loop. */
  lemma {:induction false} ParentsFirstAll(key: string, cs: seq<RedDotConfig>)
    ensures forall i :: 0 <= i < |DfsCallsAll(key, cs)| ==> ParentNamed(DfsCallsAll(key, cs), i, key)
    decreases cs, 0
  {
    if cs != [] {
      var init := DfsCallsAll(key, cs[..|cs| - 1]);
      var last := DfsCalls(cs[|cs| - 1], Some(key));
      var calls := init + last;
      ParentsFirstAll(key, cs[..|cs| - 1]);
      ParentsFirst(cs[|cs| - 1], Some(key));
      forall i | 0 <= i < |calls| ensures ParentNamed(calls, i, key) {
        if i < |init| {
          assert calls[i] == init[i];
          assert ParentNamed(init, i, key);
          if calls[i].1 != Some(key) {
            var j :| 0 <= j < i && j < |init| && init[j].0 == init[i].1.value;
            assert calls[j] == init[j];
            assert calls[j].0 == calls[i].1.value;
          }
        } else {
          var d := i - |init|;
          assert calls[i] == last[d];
          if d > 0 {
            assert ParentNamed(last, d, cs[|cs| - 1].key) && NamedBefore(last, d, last[d].1.value);
            var j :| 0 <= j < d && j < |last| && last[j].0 == last[d].1.value;
            assert calls[|init| + j] == last[j];
            assert calls[|init| + j].0 == calls[i].1.value;
          }
        }
      }
    }
  }

  /** Node `m` holds the sum of its children's values (a leaf always does). */
  ghost predicate BalancedIn(children: seq<seq<nat>>, values: seq<int>, m: nat)
  {
    m < |children| && |children[m]| > 0 ==> ValueOf(values, m) == SumOf(children[m], values)
  }

  /** Node `m` has children and holds their sum. */
  ghost predicate InnerBalanced(children: seq<seq<nat>>, values: seq<int>, m: nat)
  {
    m < |children| && |children[m]| > 0 && BalancedIn(children, values, m)
  }

  /** Changing the value of a node that is neither `m` nor among its children leaves `m` as balanced as it was. */
  lemma AssignKeepsBalance(children: seq<seq<nat>>, values: seq<int>, n: nat, v: int, m: nat)
    requires n < |values| && m != n
    requires m >= |children| || n !in children[m]
    ensures BalancedIn(children, values[n := v], m) == BalancedIn(children, values, m)
  {
    if m < |children| {
      SumOfFrame(children[m], values[n := v], values);
    }
  }

  /** The nodes above `n`, following parent links. */
  ghost function Ancestors(parents: seq<Option<nat>>, n: nat): set<nat>
    decreases n
  {
    if n < |parents| && parents[n].Some? && parents[n].value < n then
      {parents[n].value} + Ancestors(parents, parents[n].value)
    else {}
  }

  lemma {:induction false} AncestorsBelow(parents: seq<Option<nat>>, n: nat)
    ensures forall a :: a in Ancestors(parents, n) ==> a < n
    decreases n
  {
    if n < |parents| && parents[n].Some? && parents[n].value < n {
      AncestorsBelow(parents, parents[n].value);
    }
  }

  /**
   * `parentKey ? m_nodes.get(parentKey) : m_root`, looked up in the table
   * as it was before the new key went in: an absent or empty parent key
   * means the root, an unknown one no parent.
   */
  function ParentFor(nodes: map<string, nat>, parentKey: Option<string>): (p: Option<nat>)
    ensures parentKey.None? || parentKey == Some("") ==> p == Some(0)
    ensures parentKey.Some? && parentKey.value != "" ==>
              (p.Some? <==> parentKey.value in nodes) && (p.Some? ==> p.value == nodes[parentKey.value])
  {
    if parentKey.None? || parentKey.value == "" then Some(0)
    else if parentKey.value in nodes then Some(nodes[parentKey.value])
    else None
  }

  /**
   * The lookup as registerNode writes it: after `m_nodes.set(key, node)`,
   * so a parent key equal to the new key finds the new node itself.
   */
  function ParentAsWritten(nodes: map<string, nat>, key: string, id: nat, parentKey: Option<string>): Option<nat>
  {
    ParentFor(nodes[key := id], parentKey)
  }

  /**
   * registerNode(k, k) for a new key k: the node becomes its own parent
   * (and, through addChild, its own child); the lookup made before the
   * insertion finds no parent instead.
   */
  lemma SelfParentAsWritten(nodes: map<string, nat>, key: string, id: nat)
    requires key != "" && key !in nodes
    ensures ParentAsWritten(nodes, key, id, Some(key)) == Some(id)
    ensures ParentFor(nodes, Some(key)) == None
  {
  }

  /** The children lists after registerNode adds leaf `id` under `p`. */
  function Attached(children: seq<seq<nat>>, p: Option<nat>, id: nat): seq<seq<nat>>
  {
    (if p.Some? && p.value < |children| then children[p.value := AddOnce(children[p.value], id)] else children) + [[]]
  }

  /**
   * A new leaf of value 0 keeps every balanced inner node balanced, its
   * parent included. (A leaf that gets its first child keeps its own value,
   * so it holds the sum only if that value was 0.)
   */
  lemma AttachKeepsBalance(children: seq<seq<nat>>, values: seq<int>, p: Option<nat>, id: nat, m: nat)
    requires id == |values| && |children| == |values|
    requires forall i, j :: 0 <= i < |children| && 0 <= j < |children[i]| ==> children[i][j] < id
    requires InnerBalanced(children, values, m)
    ensures InnerBalanced(Attached(children, p, id), values + [0], m)
  {
    if m < |children| {
      forall c | c in children[m] ensures ValueOf(values + [0], c) == ValueOf(values, c) {
        var j :| 0 <= j < |children[m]| && children[m][j] == c;
      }
      SumOfFrame(children[m], values + [0], values);
      if p == Some(m) {
        assert id !in children[m];
        assert Attached(children, p, id)[m] == children[m] + [id];
        SumOfNewLeaf(children[m], values, id);
      }
    }
  }

  /** Each child comes after its parent and links back to it. */
  ghost predicate ChildLinks(children: seq<seq<nat>>, parents: seq<Option<nat>>)
  {
    forall i, j :: 0 <= i < |children| && 0 <= j < |children[i]| ==>
      i < children[i][j] < |parents| && parents[children[i][j]] == Some(i)
  }

  /** Attaching a new last node under `p` keeps the links, and every balanced inner node balanced. */
  lemma AttachKeepsLinks(children: seq<seq<nat>>, parents: seq<Option<nat>>, values: seq<int>, p: Option<nat>, id: nat)
    requires ChildLinks(children, parents)
    requires id == |children| == |parents| == |values| && (p.None? || p.value < id)
    ensures ChildLinks(Attached(children, p, id), parents + [p])
    ensures forall m: nat :: InnerBalanced(children, values, m) ==> InnerBalanced(Attached(children, p, id), values + [0], m)
  {
    var after := Attached(children, p, id);
    forall i, j | 0 <= i < |after| && 0 <= j < |after[i]|
      ensures i < after[i][j] < |parents + [p]| && (parents + [p])[after[i][j]] == Some(i)
    {
      if p.Some? && i == p.value && j == |children[i]| {
        assert after[i][j] == id;
      } else {
        assert i < |children| && j < |children[i]| && after[i][j] == children[i][j];
      }
    }
    forall m: nat | InnerBalanced(children, values, m) ensures InnerBalanced(after, values + [0], m) {
      AttachKeepsBalance(children, values, p, id, m);
    }
  }

  /** Dropping a child from a list keeps the links of those that stay. */
  lemma RemoveKeepsLinks(children: seq<seq<nat>>, parents: seq<Option<nat>>, p: nat, c: nat)
    requires ChildLinks(children, parents) && p < |children|
    ensures ChildLinks(children[p := RemoveFirstOf(children[p], c)], parents)
  {
    RemoveFirstOfKeeps(children[p], c);
    var after := children[p := RemoveFirstOf(children[p], c)];
    forall i, j | 0 <= i < |after| && 0 <= j < |after[i]|
      ensures i < after[i][j] < |parents| && parents[after[i][j]] == Some(i)
    {
      if i == p {
        assert after[i][j] in children[p];
        var k :| 0 <= k < |children[p]| && children[p][k] == after[i][j];
      }
    }
  }

  /** The key table maps each key to its node and back, and node 0 is "root". */
  predicate TableOf(keys: seq<string>, nodes: map<string, nat>)
  {
    && |keys| > 0 && keys[0] == "root"
    && (forall k :: k in nodes ==> nodes[k] < |keys| && keys[nodes[k]] == k)
    && (forall i :: 0 <= i < |keys| ==> keys[i] in nodes && nodes[keys[i]] == i)
  }

  /** A new key gets the next id. */
  lemma AddKeepsTable(keys: seq<string>, nodes: map<string, nat>, key: string)
    requires TableOf(keys, nodes) && key !in nodes
    ensures TableOf(keys + [key], nodes[key := |keys|])
  {
  }

  /** Parents come before their children, and the child lists link back to them. */
  ghost predicate TreeOf(children: seq<seq<nat>>, parents: seq<Option<nat>>)
  {
    && |children| == |parents|
    && (forall i :: 0 <= i < |parents| && parents[i].Some? ==> parents[i].value < i)
    && ChildLinks(children, parents)
  }

  /** Attaching a new last node keeps the tree a tree, with its balanced inner nodes balanced. */
  lemma AddKeepsTree(children: seq<seq<nat>>, parents: seq<Option<nat>>, values: seq<int>, p: Option<nat>)
    requires TreeOf(children, parents) && |values| == |parents| && (p.None? || p.value < |parents|)
    ensures TreeOf(Attached(children, p, |parents|), parents + [p])
    ensures KeepsInner(children, values, Attached(children, p, |parents|), values + [0])
  {
    AttachKeepsLinks(children, parents, values, p, |parents|);
  }

  /** Every key of `before` keeps its node in `after`. */
  predicate KeepsKeys(before: map<string, nat>, after: map<string, nat>)
  {
    forall k :: k in before ==> k in after && after[k] == before[k]
  }

  /** Every inner node that held its children's sum in the first tree still does in the second. */
  ghost predicate KeepsInner(children0: seq<seq<nat>>, values0: seq<int>, children1: seq<seq<nat>>, values1: seq<int>)
  {
    forall m: nat :: InnerBalanced(children0, values0, m) ==> InnerBalanced(children1, values1, m)
  }

  /** No node has a listener twice. */
  predicate ListenersOf(listeners: seq<seq<nat>>)
  {
    forall i :: 0 <= i < |listeners| ==> NoDuplicates(listeners[i])
  }

  /**
   * The node table both trees keep: parallel sequences, one entry per node;
   * the key table; the tree; listeners kept once.
   */
  ghost predicate TableShape(keys: seq<string>, nodes: map<string, nat>, values: seq<int>, parents: seq<Option<nat>>,
                             children: seq<seq<nat>>, listeners: seq<seq<nat>>)
  {
    && |values| == |keys| && |parents| == |keys| && |children| == |keys| && |listeners| == |keys|
    && TableOf(keys, nodes) && TreeOf(children, parents) && ListenersOf(listeners)
  }

  /** registerNode's new leaf keeps the node table, with its balanced inner nodes balanced. */
  lemma AddKeepsTableShape(keys: seq<string>, nodes: map<string, nat>, values: seq<int>, parents: seq<Option<nat>>,
                           children: seq<seq<nat>>, listeners: seq<seq<nat>>, key: string, p: Option<nat>)
    requires TableShape(keys, nodes, values, parents, children, listeners)
    requires key !in nodes && (p.None? || p.value < |keys|)
    ensures TableShape(keys + [key], nodes[key := |keys|], values + [0], parents + [p], Attached(children, p, |keys|), listeners + [[]])
    ensures KeepsInner(children, values, Attached(children, p, |keys|), values + [0])
    ensures KeepsKeys(nodes, nodes[key := |keys|])
  {
    AddKeepsTable(keys, nodes, key);
    AddKeepsTree(children, parents, values, p);
    assert ListenersOf(listeners + [[]]) by {
      assert forall i :: 0 <= i < |listeners| ==> (listeners + [[]])[i] == listeners[i];
    }
  }

  /** Every key registerNode was called with is in the table. */
  predicate CallsIn(calls: seq<RegisterCall>, nodes: map<string, nat>)
  {
    forall i :: 0 <= i < |calls| ==> calls[i].0 in nodes
  }

  /** A listener list that holds no entry twice keeps the node table. */
  lemma ListenersKeepShape(keys: seq<string>, nodes: map<string, nat>, values: seq<int>, parents: seq<Option<nat>>,
                           children: seq<seq<nat>>, listeners: seq<seq<nat>>, n: nat, l: seq<nat>)
    requires TableShape(keys, nodes, values, parents, children, listeners) && n < |listeners| && NoDuplicates(l)
    ensures TableShape(keys, nodes, values, parents, children, listeners[n := l])
  {
  }

  /** Dropping a child from a list keeps the node table. */
  lemma RemoveChildKeepsShape(keys: seq<string>, nodes: map<string, nat>, values: seq<int>, parents: seq<Option<nat>>,
                              children: seq<seq<nat>>, listeners: seq<seq<nat>>, p: nat, c: nat)
    requires TableShape(keys, nodes, values, parents, children, listeners) && p < |children|
    ensures TableShape(keys, nodes, values, parents, children[p := RemoveFirstOf(children[p], c)], listeners)
  {
    RemoveKeepsLinks(children, parents, p, c);
  }
}
