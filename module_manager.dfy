/**
 * ModuleManager: the registry of framework modules and their lifecycle.
 * Modules live in a Map (iterated in insertion order) and may define the
 * optional hooks onInit, onStart, onUpdate(dt) and onDestroy; the manager
 * runs them on registration, startAll, updateAll, unregistration and
 * destroyAll. Two copies exist: the one under assets/dx-framework
 * (ModuleManager below: a constructor-based registration, getModule, an
 * unguarded startAll, and registration stored under the class name), and
 * the one in dx_framework with its compiled twin (GuardedModuleManager:
 * stored under the given name, startAll runs once).
 */
module ModuleRegistry {
  import opened Common

  /** A lifecycle hook call: onUpdate carries the frame's delta time. */
  datatype Hook = Init | Start | Update(dt: real) | Destroy

  /**
   * A module instance: its identity, its `constructor.name`, and which of
   * the optional IModule hooks it defines.
   */
  datatype ModuleValue = ModuleValue(id: nat, className: string, onInit: bool, onStart: bool, onUpdate: bool, onDestroy: bool)

  /** `module.onX && module.onX(...)`: one call to a module's hook, observed as (module, hook). */
  datatype HookCall = HookCall(owner: nat, hook: Hook)

  predicate Defines(m: ModuleValue, h: Hook)
  {
    match h
    case Init => m.onInit
    case Start => m.onStart
    case Update(_) => m.onUpdate
    case Destroy => m.onDestroy
  }

  /** The calls `module.onX && module.onX()` makes: one if the hook is defined, none otherwise. */
  function Run(m: ModuleValue, h: Hook): seq<HookCall>
  {
    if Defines(m, h) then [HookCall(m.id, h)] else []
  }

  /** The calls of `m_modules.forEach(module => module.onX && module.onX())`, in insertion order. */
  function Each(names: seq<string>, table: map<string, ModuleValue>, h: Hook): seq<HookCall>
    requires forall n :: n in names ==> n in table
  {
    if names == [] then [] else Each(names[..|names| - 1], table, h) + Run(table[names[|names| - 1]], h)
  }

  /**
   * forEach reaches every registered module once: a call is made exactly
   * for each listed module that defines the hook.
   */
  lemma {:induction false} EachCallsDefined(names: seq<string>, table: map<string, ModuleValue>, h: Hook)
    requires forall n :: n in names ==> n in table
    ensures forall c :: c in Each(names, table, h) <==>
              exists n :: n in names && Defines(table[n], h) && c == HookCall(table[n].id, h)
  {
    if names != [] {
      var init, last := names[..|names| - 1], names[|names| - 1];
      EachCallsDefined(init, table, h);
      assert forall n :: n in names <==> n in init || n == last;
    }
  }

  /** Modules without the hook are skipped: forEach makes no more calls than there are modules. */
  lemma {:induction false} EachBounded(names: seq<string>, table: map<string, ModuleValue>, h: Hook)
    requires forall n :: n in names ==> n in table
    ensures |Each(names, table, h)| <= |names|
  {
    if names != [] {
      EachBounded(names[..|names| - 1], table, h);
    }
  }

  /** The forEach loop itself: runs the hook on each module in order and returns the calls made. */
  method RunHooks(names: seq<string>, table: map<string, ModuleValue>, h: Hook) returns (calls: seq<HookCall>)
    requires forall n :: n in names ==> n in table
    ensures calls == Each(names, table, h)
  {
    calls := [];
    var i := 0;
    while i < |names|
      invariant 0 <= i <= |names| && calls == Each(names[..i], table, h)
    {
      assert names[..i + 1][..i] == names[..i];
      calls := calls + Run(table[names[i]], h);
      i := i + 1;
    }
    assert names[..|names|] == names;
  }

  /** The Map's key order with `name` deleted. */
  function Without(names: seq<string>, name: string): (r: seq<string>)
    ensures forall n :: n in r <==> n in names && n != name
    ensures |r| <= |names|
  {
    if names == [] then []
    else if names[0] == name then Without(names[1..], name)
    else [names[0]] + Without(names[1..], name)
  }

  predicate Distinct(s: seq<string>)
  {
    forall i, j :: 0 <= i < j < |s| ==> s[i] != s[j]
  }

  lemma {:induction false} WithoutDistinct(names: seq<string>, name: string)
    requires Distinct(names)
    ensures Distinct(Without(names, name))
  {
    if names != [] {
      WithoutDistinct(names[1..], name);
      assert forall i :: 0 < i < |names| ==> names[i] != names[0];
      assert names[0] !in names[1..];
    }
  }

  /** The Map's invariant: its key order lists each key once, and exactly the keys. */
  ghost predicate TableOf(names: seq<string>, table: map<string, ModuleValue>)
  {
    Distinct(names) && forall n :: n in table <==> n in names
  }

  /** The copy under assets/dx-framework. */
  class ModuleManager {
    /** m_modules: its keys in insertion order, and the entries. */
    var names: seq<string>
    var table: map<string, ModuleValue>
    var started: bool
    /** Every hook call the manager has made, in order. */
    var calls: seq<HookCall>

    ghost predicate Valid()
      reads this
    {
      TableOf(names, table)
    }

    constructor ()
      ensures Valid() && names == [] && table == map[] && !started && calls == []
    {
      names, table, started, calls := [], map[], false, [];
    }

    /**
     * registerModuleByConstructor: a known token is ignored; otherwise a
     * module built from the constructor is stored under the token, with no
     * hook run.
     */
    method RegisterModuleByConstructor(token: string, built: ModuleValue)
      requires Valid()
      modifies this
      ensures Valid() && started == old(started) && calls == old(calls)
      ensures token in old(table) ==> table == old(table) && names == old(names)
      ensures token !in old(table) ==> table == old(table)[token := built] && names == old(names) + [token]
    {
      if token in table {
        return;
      }
      names, table := names + [token], table[token := built];
    }

    /**
     * registerModule: the duplicate check looks at `name`, but the module is
     * stored under its class name (replacing any module already there, in
     * its place); then onInit runs, and onStart when already started.
     */
    method RegisterModule(name: string, m: ModuleValue)
      requires Valid()
      modifies this
      ensures Valid() && started == old(started)
      ensures name in old(table) ==> table == old(table) && names == old(names) && calls == old(calls)
      ensures name !in old(table) ==>
                && table == old(table)[m.className := m]
                && names == (if m.className in old(table) then old(names) else old(names) + [m.className])
                && calls == old(calls) + Run(m, Init) + (if started then Run(m, Start) else [])
    {
      if name in table {
        return;
      }
      if m.className !in table {
        names := names + [m.className];
      }
      table := table[m.className := m];
      calls := calls + Run(m, Init);
      if started {
        calls := calls + Run(m, Start);
      }
    }

    /** unregisterModule: an unknown name is ignored; otherwise onDestroy runs and the entry is deleted. */
    method UnregisterModule(name: string)
      requires Valid()
      modifies this
      ensures Valid() && started == old(started)
      ensures name !in old(table) ==> table == old(table) && names == old(names) && calls == old(calls)
      ensures name in old(table) ==>
                && table == old(table) - {name} && names == Without(old(names), name)
                && calls == old(calls) + Run(old(table)[name], Destroy)
    {
      if name !in table {
        return;
      }
      calls := calls + Run(table[name], Destroy);
      WithoutDistinct(names, name);
      names, table := Without(names, name), table - {name};
    }

    /** startAll: not guarded, so every call runs onStart on every module again. */
    method StartAll()
      requires Valid()
      modifies this
      ensures Valid() && started && table == old(table) && names == old(names)
      ensures calls == old(calls) + Each(names, table, Start)
    {
      started := true;
      var run := RunHooks(names, table, Start);
      calls := calls + run;
    }

    /** updateAll: dt is passed to every module defining onUpdate. */
    method UpdateAll(dt: real)
      requires Valid()
      modifies this`calls
      ensures calls == old(calls) + Each(names, table, Update(dt))
    {
      var run := RunHooks(names, table, Update(dt));
      calls := calls + run;
    }

    /** destroyAll: onDestroy on every module, then the table is emptied and the started flag reset. */
    method DestroyAll()
      requires Valid()
      modifies this
      ensures Valid() && !started && table == map[] && names == []
      ensures calls == old(calls) + Each(old(names), old(table), Destroy)
    {
      var run := RunHooks(names, table, Destroy);
      calls := calls + run;
      names, table, started := [], map[], false;
    }

    /** getModule: the module stored under the token, if any. */
    function GetModule(token: string): (r: Option<ModuleValue>)
      reads this
      ensures r.Some? <==> token in table
      ensures r.Some? ==> r.value == table[token]
    {
      if token in table then Some(table[token]) else None
    }
  }

  /**
   * A second startAll runs every onStart again: for a module with onStart,
   * the calls made by two startAlls hold its onStart twice.
   */
  method StartAllTwice(mgr: ModuleManager)
    requires mgr.Valid()
    modifies mgr
    ensures mgr.Valid()
    ensures mgr.calls == old(mgr.calls) + Each(mgr.names, mgr.table, Start) + Each(mgr.names, mgr.table, Start)
  {
    mgr.StartAll();
    mgr.StartAll();
  }

  /**
   * As written, a module whose class name is not its token (SoundModule
   * registered as 'SoundModule' after its class was renamed, say by
   * minification) is stored under the class name: getModule(token) finds
   * nothing, and registering the token again runs a second onInit.
   */
  method TokenLookupAsWritten(mgr: ModuleManager, token: string, m: ModuleValue, again: ModuleValue)
    requires mgr.Valid() && token !in mgr.table && m.className !in mgr.table && m.className != token
    requires again.className == m.className && m.onInit && again.onInit
    modifies mgr
    ensures mgr.GetModule(token).None?
    ensures mgr.calls == old(mgr.calls) + [HookCall(m.id, Init)] + (if mgr.started then Run(m, Start) else []) + [HookCall(again.id, Init)] + (if mgr.started then Run(again, Start) else [])
    ensures m.className in mgr.table && mgr.table[m.className] == again
  {
    mgr.RegisterModule(token, m);
    mgr.RegisterModule(token, again);
  }

  /** The copy in dx_framework (and its compiled JavaScript). */
  class GuardedModuleManager {
    var names: seq<string>
    var table: map<string, ModuleValue>
    var started: bool
    var calls: seq<HookCall>

    ghost predicate Valid()
      reads this
    {
      TableOf(names, table)
    }

    constructor ()
      ensures Valid() && names == [] && table == map[] && !started && calls == []
    {
      names, table, started, calls := [], map[], false, [];
    }

    /**
     * registerModule: a used name is ignored; otherwise the module is stored
     * under that name, onInit runs, and onStart too when already started.
     */
    method RegisterModule(name: string, m: ModuleValue)
      requires Valid()
      modifies this
      ensures Valid() && started == old(started)
      ensures name in old(table) ==> table == old(table) && names == old(names) && calls == old(calls)
      ensures name !in old(table) ==>
                && table == old(table)[name := m] && names == old(names) + [name]
                && calls == old(calls) + Run(m, Init) + (if started then Run(m, Start) else [])
    {
      if name in table {
        return;
      }
      names, table := names + [name], table[name := m];
      calls := calls + Run(m, Init);
      if started {
        calls := calls + Run(m, Start);
      }
    }

    /** unregisterModule: an unknown name is ignored; otherwise onDestroy runs and the entry is deleted. */
    method UnregisterModule(name: string)
      requires Valid()
      modifies this
      ensures Valid() && started == old(started)
      ensures name !in old(table) ==> table == old(table) && names == old(names) && calls == old(calls)
      ensures name in old(table) ==>
                && table == old(table) - {name} && names == Without(old(names), name)
                && calls == old(calls) + Run(old(table)[name], Destroy)
    {
      if name !in table {
        return;
      }
      calls := calls + Run(table[name], Destroy);
      WithoutDistinct(names, name);
      names, table := Without(names, name), table - {name};
    }

    /** startAll: runs onStart on every module the first time only. */
    method StartAll()
      requires Valid()
      modifies this
      ensures Valid() && started && table == old(table) && names == old(names)
      ensures calls == old(calls) + (if old(started) then [] else Each(names, table, Start))
    {
      if started {
        return;
      }
      started := true;
      var run := RunHooks(names, table, Start);
      calls := calls + run;
    }

    /** updateAll: dt is passed to every module defining onUpdate. */
    method UpdateAll(dt: real)
      requires Valid()
      modifies this`calls
      ensures calls == old(calls) + Each(names, table, Update(dt))
    {
      var run := RunHooks(names, table, Update(dt));
      calls := calls + run;
    }

    /** destroyAll: onDestroy on every module, then the table is emptied and the started flag reset. */
    method DestroyAll()
      requires Valid()
      modifies this
      ensures Valid() && !started && table == map[] && names == []
      ensures calls == old(calls) + Each(old(names), old(table), Destroy)
    {
      var run := RunHooks(names, table, Destroy);
      calls := calls + run;
      names, table, started := [], map[], false;
    }
  }

  /** startAll is idempotent here: a second call runs no onStart. */
  method GuardedStartAllTwice(mgr: GuardedModuleManager)
    requires mgr.Valid() && !mgr.started
    modifies mgr
    ensures mgr.Valid()
    ensures mgr.calls == old(mgr.calls) + Each(mgr.names, mgr.table, Start)
  {
    mgr.StartAll();
    mgr.StartAll();
  }

  /** Registered under its own name, a module is found under that name, and a second registration changes nothing. */
  method GuardedRegisterTwice(mgr: GuardedModuleManager, name: string, m: ModuleValue, again: ModuleValue)
    requires mgr.Valid() && name !in mgr.table
    modifies mgr
    ensures name in mgr.table && mgr.table[name] == m
    ensures mgr.calls == old(mgr.calls) + Run(m, Init) + (if mgr.started then Run(m, Start) else [])
  {
    mgr.RegisterModule(name, m);
    mgr.RegisterModule(name, again);
  }
}
