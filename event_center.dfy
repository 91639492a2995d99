// The global event bus (assets/Core/Event/EventCenter.ts): for each event
// name a list of persistent listeners and a list of one-shot listeners, each
// kept in non-increasing priority order with no two entries for the same
// (callback, target) pair. Callbacks and targets are identities; whether a
// target's node is active in the hierarchy is an input of each post.
module EventLists {
  import opened Common

  /** An EventCallBack entry: callback and target identities, the force flag and the priority (absent = 0). */
  datatype Listener = Listener(callback: nat, target: nat, force: bool, priority: int)

  /** One call `callback.call(target, data)` made by a post. */
  datatype Invocation = Invocation(callback: nat, target: nat, data: nat)

  predicate Matches(e: Listener, callback: nat, target: nat)
  {
    e.callback == callback && e.target == target
  }

  /** Each list runs from the highest priority to the lowest. */
  ghost predicate Sorted(s: seq<Listener>)
  {
    forall i, j :: 0 <= i < j < |s| ==> s[i].priority >= s[j].priority
  }

  /** No (callback, target) pair is listed twice. */
  ghost predicate Unique(s: seq<Listener>)
  {
    forall i, j :: 0 <= i < j < |s| ==> !Matches(s[j], s[i].callback, s[i].target)
  }

  ghost predicate WellFormed(s: seq<Listener>)
  {
    Sorted(s) && Unique(s)
  }

  /** `events.some(...)`: a listener for the pair is already listed. */
  predicate Listed(s: seq<Listener>, callback: nat, target: nat)
  {
    exists i :: 0 <= i < |s| && Matches(s[i], callback, target)
  }

  /** `findIndex(e => (e.priority || 0) < p)`: the first entry of lower priority, or -1. */
  function FirstLower(s: seq<Listener>, p: int): (i: int)
    ensures -1 <= i < |s|
    ensures i >= 0 ==> s[i].priority < p
    ensures forall j :: 0 <= j < |s| && (i == -1 || j < i) ==> s[j].priority >= p
  {
    if s == [] then -1
    else if s[0].priority < p then 0
    else
      var k := FirstLower(s[1..], p);
      if k == -1 then -1 else k + 1
  }

  /** `findIndex(e => e.callback === callback && e.target === target)`: the first match, or -1. */
  function FirstMatch(s: seq<Listener>, callback: nat, target: nat): (i: int)
    ensures -1 <= i < |s|
    ensures i >= 0 ==> Matches(s[i], callback, target)
    ensures forall j :: 0 <= j < |s| && (i == -1 || j < i) ==> !Matches(s[j], callback, target)
  {
    if s == [] then -1
    else if Matches(s[0], callback, target) then 0
    else
      var k := FirstMatch(s[1..], callback, target);
      if k == -1 then -1 else k + 1
  }

  /** The priority insertion of addEvent: before the first entry of lower priority, else at the end. */
  function Insert(s: seq<Listener>, e: Listener): (r: seq<Listener>)
  {
    var i := FirstLower(s, e.priority);
    if i == -1 then s + [e] else s[..i] + [e] + s[i..]
  }

  /** addEvent on one list: nothing when the pair is listed, else the priority insertion. */
  function Add(s: seq<Listener>, e: Listener): (r: seq<Listener>)
  {
    if Listed(s, e.callback, e.target) then s else Insert(s, e)
  }

  /** removeEvent on one list: the first entry for the pair goes. */
  function RemoveFirst(s: seq<Listener>, callback: nat, target: nat): (r: seq<Listener>)
  {
    var i := FirstMatch(s, callback, target);
    if i == -1 then s else s[..i] + s[i + 1..]
  }

  /**
   * The calls one pass of processEvents makes over a list: every entry in
   * order, except a forced one whose target is not active.
   */
  function Fired(s: seq<Listener>, active: set<nat>, data: nat): (r: seq<Invocation>)
  {
    if s == [] then []
    else
      (if s[0].force && s[0].target !in active then [] else [Invocation(s[0].callback, s[0].target, data)])
      + Fired(s[1..], active, data)
  }

  /** Where the priority insertion puts a new entry of priority `p`. */
  function InsertAt(s: seq<Listener>, p: int): (k: nat)
    ensures k <= |s|
  {
    var i := FirstLower(s, p);
    if i == -1 then |s| else i
  }

  /**
   * The insertion puts the new entry after every entry of equal or higher
   * priority and before every entry of lower priority, and keeps the rest
   * in order.
   */
  lemma InsertPlacement(s: seq<Listener>, e: Listener)
    requires Sorted(s)
    ensures var k := InsertAt(s, e.priority);
            && Insert(s, e) == s[..k] + [e] + s[k..]
            && (forall j :: 0 <= j < k ==> s[j].priority >= e.priority)
            && (forall j :: k <= j < |s| ==> s[j].priority < e.priority)
  {
    var i := FirstLower(s, e.priority);
    if i == -1 {
      assert Insert(s, e) == s[..|s|] + [e] + s[|s|..];
    } else {
      forall j | i <= j < |s| ensures s[j].priority < e.priority {
        assert s[i].priority >= s[j].priority;
      }
    }
  }

  /** Entry by entry: the insertion shifts the entries from the insertion point on by one. */
  lemma InsertEntries(s: seq<Listener>, e: Listener)
    ensures var k := InsertAt(s, e.priority);
            var r := Insert(s, e);
            && |r| == |s| + 1 && r[k] == e
            && (forall a :: 0 <= a < k ==> r[a] == s[a])
            && (forall a :: k < a < |r| ==> r[a] == s[a - 1])
  {
  }

  /** The priority insertion keeps a sorted list sorted. */
  lemma InsertKeepsSorted(s: seq<Listener>, e: Listener)
    requires Sorted(s)
    ensures Sorted(Insert(s, e))
  {
    InsertPlacement(s, e);
    InsertEntries(s, e);
    var k := InsertAt(s, e.priority);
    var r := Insert(s, e);
    forall a, b | 0 <= a < b < |r| ensures r[a].priority >= r[b].priority {
      if b < k {
        assert r[a] == s[a] && r[b] == s[b];
      } else if b == k {
        assert r[a] == s[a];
      } else if a < k {
        assert r[a] == s[a] && r[b] == s[b - 1];
      } else if a > k {
        assert r[a] == s[a - 1] && r[b] == s[b - 1];
      }
    }
  }

  /** The priority insertion of a pair not yet listed keeps the pairs distinct. */
  lemma InsertKeepsUnique(s: seq<Listener>, e: Listener)
    requires Unique(s) && !Listed(s, e.callback, e.target)
    ensures Unique(Insert(s, e))
  {
    InsertEntries(s, e);
    var k := InsertAt(s, e.priority);
    var r := Insert(s, e);
    forall a, b | 0 <= a < b < |r| ensures !Matches(r[b], r[a].callback, r[a].target) {
      if b < k {
        assert r[a] == s[a] && r[b] == s[b];
      } else if b == k {
        assert r[a] == s[a];
      } else if a < k {
        assert r[a] == s[a] && r[b] == s[b - 1];
      } else if a == k {
        assert r[b] == s[b - 1];
      } else {
        assert r[a] == s[a - 1] && r[b] == s[b - 1];
      }
    }
  }

  /** addEvent keeps a list sorted and free of duplicate pairs. */
  lemma AddKeepsWellFormed(s: seq<Listener>, e: Listener)
    requires WellFormed(s)
    ensures WellFormed(Add(s, e))
  {
    if !Listed(s, e.callback, e.target) {
      InsertKeepsSorted(s, e);
      InsertKeepsUnique(s, e);
    }
  }

  /** After addEvent the pair is listed, and an added entry joins the list once. */
  lemma AddLists(s: seq<Listener>, e: Listener)
    ensures Listed(Add(s, e), e.callback, e.target)
    ensures Listed(s, e.callback, e.target) ==> Add(s, e) == s
    ensures !Listed(s, e.callback, e.target) ==> multiset(Add(s, e)) == multiset(s) + multiset{e}
  {
    if !Listed(s, e.callback, e.target) {
      var k := InsertAt(s, e.priority);
      InsertEntries(s, e);
      assert Insert(s, e) == s[..k] + [e] + s[k..];
      assert s == s[..k] + s[k..];
    }
  }

  /** Removing the first entry for a pair keeps a list well formed and leaves the pair unlisted. */
  lemma RemoveKeepsWellFormed(s: seq<Listener>, callback: nat, target: nat)
    requires WellFormed(s)
    ensures WellFormed(RemoveFirst(s, callback, target))
    ensures !Listed(RemoveFirst(s, callback, target), callback, target)
  {
    var i := FirstMatch(s, callback, target);
    if i != -1 {
      var r := RemoveFirst(s, callback, target);
      assert forall a :: 0 <= a < |r| ==> r[a] == (if a < i then s[a] else s[a + 1]);
      forall a | 0 <= a < |r| ensures !Matches(r[a], callback, target) {
        if a >= i {
          assert !Matches(s[a + 1], s[i].callback, s[i].target);
        }
      }
    }
  }

  /** Removing a pair that was just added gives the list back: onEvent then offEvent is a round trip. */
  lemma AddThenRemove(s: seq<Listener>, e: Listener)
    requires !Listed(s, e.callback, e.target)
    ensures RemoveFirst(Add(s, e), e.callback, e.target) == s
  {
    InsertEntries(s, e);
    var k := InsertAt(s, e.priority);
    var r := Insert(s, e);
    assert FirstMatch(r, e.callback, e.target) == k;
    assert r[..k] == s[..k];
    assert r[k + 1..] == s[k..];
    assert s == s[..k] + s[k..];
  }

  /** The calls of a pass over a list split at any point. */
  lemma {:induction false} FiredAppend(a: seq<Listener>, b: seq<Listener>, active: set<nat>, data: nat)
    ensures Fired(a + b, active, data) == Fired(a, active, data) + Fired(b, active, data)
  {
    if a == [] {
      assert a + b == b;
    } else {
      assert (a + b)[0] == a[0];
      assert (a + b)[1..] == a[1..] + b;
      FiredAppend(a[1..], b, active, data);
    }
  }

  /** A pass calls each listener at most once, in list order, and skips only forced listeners on inactive targets. */
  lemma {:induction false} FiredBounds(s: seq<Listener>, active: set<nat>, data: nat)
    ensures |Fired(s, active, data)| <= |s|
    ensures (forall i :: 0 <= i < |s| ==> !s[i].force || s[i].target in active) ==> |Fired(s, active, data)| == |s|
    ensures forall c :: c in Fired(s, active, data) ==>
              exists i :: 0 <= i < |s| && c == Invocation(s[i].callback, s[i].target, data)
  {
    if s != [] {
      FiredBounds(s[1..], active, data);
      forall c | c in Fired(s, active, data)
        ensures exists i :: 0 <= i < |s| && c == Invocation(s[i].callback, s[i].target, data)
      {
        if c !in Fired(s[1..], active, data) {
          assert c == Invocation(s[0].callback, s[0].target, data);
        } else {
          var i :| 0 <= i < |s[1..]| && c == Invocation(s[1..][i].callback, s[1..][i].target, data);
          assert s[i + 1] == s[1..][i];
        }
      }
    }
  }

  class EventCenter {
    /** m_eventMap and m_eventMapOnce. */
    var persistent: map<string, seq<Listener>>
    var once: map<string, seq<Listener>>
    /** Every callback call made so far, in order. */
    var calls: seq<Invocation>

    ghost predicate Valid()
      reads this
    {
      && (forall name :: name in persistent ==> WellFormed(persistent[name]))
      && (forall name :: name in once ==> WellFormed(once[name]))
    }

    constructor ()
      ensures Valid() && persistent == map[] && once == map[] && calls == []
    {
      persistent := map[];
      once := map[];
      calls := [];
    }

    /** destroy: both tables empty. */
    method Destroy()
      modifies this
      ensures Valid() && persistent == map[] && once == map[] && calls == old(calls)
    {
      persistent := map[];
      once := map[];
    }

    /** onEvent: addEvent on the persistent table (creating the name's list if needed). */
    method OnEvent(name: string, callback: nat, target: nat, force: bool, priority: int)
      requires Valid()
      modifies this
      ensures Valid()
      ensures persistent == old(persistent)[name := Add(if name in old(persistent) then old(persistent)[name] else [],
                                                        Listener(callback, target, force, priority))]
      ensures once == old(once) && calls == old(calls)
    {
      var events := if name in persistent then persistent[name] else [];
      var e := Listener(callback, target, force, priority);
      AddKeepsWellFormed(events, e);
      persistent := persistent[name := Add(events, e)];
    }

    /** onEventOnce: addEvent on the one-shot table. */
    method OnEventOnce(name: string, callback: nat, target: nat, force: bool, priority: int)
      requires Valid()
      modifies this
      ensures Valid()
      ensures once == old(once)[name := Add(if name in old(once) then old(once)[name] else [],
                                            Listener(callback, target, force, priority))]
      ensures persistent == old(persistent) && calls == old(calls)
    {
      var events := if name in once then once[name] else [];
      var e := Listener(callback, target, force, priority);
      AddKeepsWellFormed(events, e);
      once := once[name := Add(events, e)];
    }

    /**
     * offEvent: with both a callback and a target, the first entry for the
     * pair leaves each table and a list left empty takes its name with it;
     * otherwise the name leaves both tables.
     */
    method OffEvent(name: string, callback: Option<nat>, target: Option<nat>)
      requires Valid()
      modifies this
      ensures Valid() && calls == old(calls)
      ensures callback.None? || target.None? ==> persistent == old(persistent) - {name} && once == old(once) - {name}
      ensures callback.Some? && target.Some? ==>
                && persistent == Removed(old(persistent), name, callback.value, target.value)
                && once == Removed(old(once), name, callback.value, target.value)
    {
      if callback.Some? && target.Some? {
        if name in persistent {
          RemoveKeepsWellFormed(persistent[name], callback.value, target.value);
        }
        if name in once {
          RemoveKeepsWellFormed(once[name], callback.value, target.value);
        }
        persistent := Removed(persistent, name, callback.value, target.value);
        once := Removed(once, name, callback.value, target.value);
      } else {
        persistent := persistent - {name};
        once := once - {name};
      }
    }

    /** hasEvent: the name has a list in either table, even an empty one. */
    method HasEvent(name: string) returns (b: bool)
      ensures b <==> name in persistent || name in once
    {
      b := name in persistent || name in once;
    }

    /**
     * postEvent: the persistent listeners run, then the one-shot ones; the
     * one-shot list is emptied (its name stays) before its callbacks run.
     */
    method PostEvent(name: string, data: nat, active: set<nat>)
      requires Valid()
      modifies this
      ensures Valid()
      ensures persistent == old(persistent)
      ensures once == if name in old(once) && old(once)[name] != [] then old(once)[name := []] else old(once)
      ensures calls == old(calls)
                       + Fired(if name in old(persistent) then old(persistent)[name] else [], active, data)
                       + Fired(if name in old(once) then old(once)[name] else [], active, data)
    {
      ProcessEvents(false, name, data, active);
      ProcessEvents(true, name, data, active);
    }

    /**
     * processEvents: a missing or empty list does nothing; otherwise the
     * pass runs over a copy of the list taken first, and a one-shot list is
     * emptied before any callback runs.
     */
    method ProcessEvents(isOnce: bool, name: string, data: nat, active: set<nat>)
      requires Valid()
      modifies this
      ensures Valid()
      ensures persistent == old(persistent)
      ensures !isOnce ==> once == old(once)
      ensures isOnce ==> once == if name in old(once) && old(once)[name] != [] then old(once)[name := []] else old(once)
      ensures var table := if isOnce then old(once) else old(persistent);
              calls == old(calls) + Fired(if name in table then table[name] else [], active, data)
    {
      var table := if isOnce then once else persistent;
      if name !in table || |table[name]| == 0 {
        return;
      }
      var executeList := table[name];
      if isOnce {
        once := once[name := []];
      }
      ghost var tables := (persistent, once);
      var i := 0;
      while i < |executeList|
        invariant 0 <= i <= |executeList|
        invariant (persistent, once) == tables
        invariant calls == old(calls) + Fired(executeList[..i], active, data)
      {
        var e := executeList[i];
        FiredAppend(executeList[..i], [e], active, data);
        assert executeList[..i + 1] == executeList[..i] + [e];
        if !(e.force && e.target !in active) {
          calls := calls + [Invocation(e.callback, e.target, data)];
        }
        i := i + 1;
      }
      assert executeList[..i] == executeList;
    }
  }

  /** removeEvent applied to one table. */
  function Removed(table: map<string, seq<Listener>>, name: string, callback: nat, target: nat): (r: map<string, seq<Listener>>)
    ensures name !in table ==> r == table
    ensures name in table && !Listed(table[name], callback, target) ==> r == table
    ensures name in table && Listed(table[name], callback, target) ==>
              var rest := RemoveFirst(table[name], callback, target);
              r == if rest == [] then table - {name} else table[name := rest]
  {
    if name !in table then table
    else
      var i := FirstMatch(table[name], callback, target);
      if i == -1 then table
      else
        var rest := RemoveFirst(table[name], callback, target);
        if rest == [] then table - {name} else table[name := rest]
  }

  /** A one-shot listener fires on the first post and not on the second, while its name stays registered. */
  method OnceFiresOnce(ec: EventCenter, name: string, callback: nat, target: nat, d1: nat, d2: nat)
    requires ec.Valid() && name !in ec.persistent && name !in ec.once
    modifies ec
    ensures ec.calls == old(ec.calls) + [Invocation(callback, target, d1)]
    ensures name in ec.once && ec.once[name] == []
  {
    var e := Listener(callback, target, false, 0);
    assert Add([], e) == [e];
    ec.OnEventOnce(name, callback, target, false, 0);
    assert ec.once[name] == [e];
    assert Fired([], {}, d1) == [];
    assert Fired([e], {}, d1) == [Invocation(callback, target, d1)] by {
      assert [e][1..] == [];
    }
    ec.PostEvent(name, d1, {});
    assert ec.calls == old(ec.calls) + [Invocation(callback, target, d1)];
    ec.PostEvent(name, d2, {});
  }
}
