// The second tier of view locks (assets/Core/ui/manager/UIManager.ts): the
// manager keeps its own single-flight tables for opens and closes, the
// registered configurations and the node recorded for each open view, and
// hands the real work to the workflow. As in the workflow, each promise is a
// task record; OpenSettled and CloseSettled are the steps that run when the
// workflow's promise the task awaits has settled, and they perform the task's
// `finally` in the same step.
module UIManaging {
  import opened Common
  import opened SceneGraph
  import opened UITypes
  import opened LayerManaging
  import opened UIWorkflowModel

  /** An open in flight: the workflow open it awaits and the node recorded before it started, if any. */
  datatype OpenLock = OpenLock(task: TaskId, inner: Handle<NodeId>, known: Option<NodeId>)

  /**
   * What `m_configMap[id]` finds on the plain object the manager keeps its
   * configurations in: the configuration registered under `id`, or, for a
   * name of Object.prototype, the inherited member, which is truthy but has
   * neither a `uiID` nor a `cache`.
   */
  datatype ConfigEntry = Registered(config: UIConfig) | InheritedMember(name: string)

  /** A close in flight: what the configuration lookup found, the destroy flag and the workflow close it awaits. */
  datatype CloseLock = CloseLock(task: TaskId, entry: ConfigEntry, destroy: bool, inner: Handle<Unit>)

  /**
   * What a manager open resolves with, from what the workflow open settled
   * with, the node recorded before the open (if any) and whether the node
   * the workflow resolved with is still a valid node.
   */
  function ManagedOpen(inner: Outcome<NodeId>, known: Option<NodeId>, valid: bool): (r: Outcome<Option<NodeId>>)
    // a failed workflow open fails the manager open with the same error
    ensures inner.Rejected? <==> r.Rejected?
    ensures inner.Rejected? ==> r.error == inner.error
    // a view already recorded answers with its recorded node, whatever the workflow resolved with
    ensures inner.Resolved? && known.Some? ==> r == Resolved(known)
    // a fresh view answers with the workflow's node, or null when that node is no longer valid
    ensures inner.Resolved? && known.None? ==> (r == Resolved(Some(inner.value)) <==> valid)
    ensures inner.Resolved? && known.None? && !valid ==> r == Resolved(None)
  {
    match inner
    case Rejected(e) => Rejected(e)
    case Resolved(n) =>
      if known.Some? then Resolved(known)
      else if valid then Resolved(Some(n))
      else Resolved(None)
  }

  /**
   * Whether the manager forgets a view once its close is over: when the
   * close destroys it or the view is not cached. This is exactly when the
   * workflow destroys the node.
   */
  predicate ForgetsView(destroy: bool, config: UIConfig)
  {
    destroy || !config.cache
  }

  /** The manager and the workflow agree on which closes drop the node. */
  lemma ForgetsExactlyWhenDestroyed(destroy: bool, config: UIConfig)
    ensures ForgetsView(destroy, config) <==> !KeepsNode(destroy, config)
  {
  }

  /**
   * `destroy || !uiConfig.cache` on what the lookup found: an inherited
   * member has no `cache`, so its view is always forgotten.
   */
  predicate ForgetsEntry(destroy: bool, e: ConfigEntry)
  {
    match e
    case Registered(config) => ForgetsView(destroy, config)
    case InheritedMember(_) => true
  }

  class UIManager {
    const workflow: UIWorkflow
    /** m_uiMap: the node recorded for each open view. */
    var uiMap: map<string, NodeId>
    /** m_configMap: the configuration registered for each view id. */
    var configMap: map<string, UIConfig>
    /** m_openingLocks and m_closingLocks: the tasks in flight, by view id. */
    var openingLocks: map<string, OpenLock>
    var closingLocks: map<string, CloseLock>
    /** How each task of the manager settled. */
    var openResults: map<TaskId, Outcome<Option<NodeId>>>
    var closeResults: map<TaskId, Outcome<Unit>>
    var nextTask: TaskId

    ghost predicate Valid()
      reads this
    {
      && (forall id :: id in configMap ==> configMap[id].uiID == id && id !in PrototypeNames)
      && (forall id :: id in openingLocks ==> openingLocks[id].task < nextTask)
      && (forall id :: id in closingLocks ==>
            closingLocks[id].task < nextTask && EntryFor(id, closingLocks[id].entry))
    }

    /** A lookup result that `m_configMap[id]` can give. */
    static predicate EntryFor(id: string, e: ConfigEntry)
    {
      match e
      case Registered(config) => config.uiID == id
      case InheritedMember(name) => name == id && id in PrototypeNames
    }

    /**
     * `m_configMap[id]`: the registered configuration, else the member
     * inherited from Object.prototype, else nothing.
     */
    function ConfigOf(id: string): Option<ConfigEntry>
      reads this
    {
      if id in configMap then Some(Registered(configMap[id]))
      else if id in PrototypeNames then Some(InheritedMember(id))
      else None
    }

    /**
     * The private constructor: the UI root is the node found at
     * Canvas/UIRoot or else a new node added under the canvas, and the
     * layer manager is initialized with it when it is a valid node.
     */
    constructor (w: UIWorkflow, canvas: NodeId, found: Option<NodeId>)
      requires w.scene.Valid() && w.layers.Valid() && w.layers.scene == w.scene
      requires found.None? ==> canvas in w.scene.nodes
      modifies w.scene, w.layers
      ensures Valid() && workflow == w
      ensures uiMap == map[] && configMap == map[] && openingLocks == map[] && closingLocks == map[]
      ensures found.Some? && old(w.scene.IsValid(found.value)) ==> w.layers.uiRoot == found
      ensures found.None? ==> w.layers.uiRoot == Some(old(w.scene.next))
      ensures found.Some? && !old(w.scene.IsValid(found.value)) ==>
                w.layers.uiRoot == old(w.layers.uiRoot) && w.layers.layerMap == old(w.layers.layerMap)
    {
      workflow := w;
      uiMap := map[];
      configMap := map[];
      openingLocks := map[];
      closingLocks := map[];
      openResults := map[];
      closeResults := map[];
      nextTask := 0;
      new;
      var root;
      if found.Some? {
        root := found.value;
      } else {
        root := w.scene.NewNode("UIRoot");
        w.scene.AddChild(canvas, root);
      }
      if w.scene.IsValid(root) {
        w.layers.Initialize(root);
      }
    }

    /**
     * open: a caller of an id that is being opened shares the task in
     * flight and starts nothing. Otherwise the workflow open starts at once
     * (also for a view already recorded, so its animation and initialize
     * run again), the configuration is registered unless the lookup already
     * finds one (a configuration registered earlier, or a member inherited
     * from Object.prototype), and the new task takes the lock.
     */
    method Open(config: UIConfig, data: Data) returns (h: Handle<Option<NodeId>>)
      requires Valid() && workflow.Valid() && workflow.rm.Valid()
      modifies this, workflow, workflow.scene, workflow.rm, workflow.rm.loader
      ensures Valid() && workflow.Valid() && workflow.rm.Valid()
      ensures uiMap == old(uiMap) && closingLocks == old(closingLocks)
      ensures nextTask >= old(nextTask) && h.Pending? && h.task < nextTask
      ensures openResults == old(openResults) && closeResults == old(closeResults)
      ensures config.uiID in old(openingLocks) ==>
                && h == Pending(old(openingLocks)[config.uiID].task)
                && openingLocks == old(openingLocks) && configMap == old(configMap)
                && workflow.opening == old(workflow.opening) && workflow.trace == old(workflow.trace)
      ensures var id := config.uiID;
              id !in old(openingLocks) ==>
                && h == Pending(old(nextTask))
                && id in workflow.opening
                && openingLocks == old(openingLocks)[id := OpenLock(old(nextTask), Pending(workflow.opening[id].task),
                                                                    if id in old(uiMap) then Some(old(uiMap)[id]) else None)]
                && configMap == if id in old(uiMap) || id in old(configMap) || id in PrototypeNames then old(configMap)
                                else old(configMap)[id := config]
    {
      var id := config.uiID;
      if id in openingLocks {
        return Pending(openingLocks[id].task);
      }
      var known := if id in uiMap then Some(uiMap[id]) else None;
      if known.None? && id !in configMap && id !in PrototypeNames {
        configMap := configMap[id := config];
      }
      var inner := StartWorkflowOpen(config, data);
      var t := nextTask;
      nextTask := nextTask + 1;
      openingLocks := openingLocks[id := OpenLock(t, inner, known)];
      h := Pending(t);
    }

    /** UIWorkflow.instance.open, seen from the manager: it leaves the manager's own tables alone. */
    method StartWorkflowOpen(config: UIConfig, data: Data) returns (inner: Handle<NodeId>)
      requires workflow.Valid() && workflow.rm.Valid()
      modifies workflow, workflow.scene, workflow.rm, workflow.rm.loader
      ensures workflow.Valid() && workflow.rm.Valid()
      ensures config.uiID in workflow.opening && inner == Pending(workflow.opening[config.uiID].task)
    {
      inner := workflow.Open(config, data);
    }

    /** How the workflow open a lock awaits settled. */
    function InnerOpen(l: OpenLock): Outcome<NodeId>
      requires l.inner.Pending? ==> l.inner.task in workflow.openResults
      reads this, workflow
    {
      if l.inner.Settled? then l.inner.outcome else workflow.openResults[l.inner.task]
    }

    /**
     * The workflow open awaited by the open of `id` settled: a fresh view
     * whose node is still valid is recorded, the task settles as
     * ManagedOpen says, and the lock is released on success and failure.
     */
    method OpenSettled(id: string)
      requires Valid() && id in openingLocks
      requires openingLocks[id].inner.Pending? ==> openingLocks[id].inner.task in workflow.openResults
      modifies this
      ensures Valid()
      ensures openingLocks == old(openingLocks) - {id}
      ensures closingLocks == old(closingLocks) && configMap == old(configMap) && closeResults == old(closeResults)
      ensures var l := old(openingLocks)[id];
              var o := old(InnerOpen(openingLocks[id]));
              var valid := o.Resolved? && workflow.scene.IsValid(o.value);
              && openResults == old(openResults)[l.task := ManagedOpen(o, l.known, valid)]
              && uiMap == if valid && l.known.None? then old(uiMap)[id := o.value] else old(uiMap)
    {
      var l := openingLocks[id];
      var o := InnerOpen(l);
      var valid := o.Resolved? && workflow.scene.IsValid(o.value);
      if valid && l.known.None? {
        uiMap := uiMap[id := o.value];
      }
      openingLocks := openingLocks - {id};
      openResults := openResults[l.task := ManagedOpen(o, l.known, valid)];
    }

    /**
     * close: nothing to do for an id the lookup finds nothing for, or with
     * no recorded node; a caller of an id being closed shares the task in
     * flight; otherwise the workflow close of the recorded node starts and
     * the new task takes the lock. The opening locks are not consulted. For
     * an id that names an Object.prototype member, the workflow is handed
     * that member: its `uiID` is undefined, no active node is filed under
     * it, and the workflow close returns at once without hiding the view.
     */
    method Close(id: string, destroy: bool) returns (h: Handle<Unit>)
      requires Valid() && workflow.Valid()
      modifies this, workflow
      ensures Valid() && workflow.Valid()
      ensures uiMap == old(uiMap) && configMap == old(configMap) && openingLocks == old(openingLocks)
      ensures openResults == old(openResults) && closeResults == old(closeResults)
      ensures (id !in old(configMap) && id !in PrototypeNames) || id !in old(uiMap) ==>
                h == Settled(Resolved(Unit)) && closingLocks == old(closingLocks)
                && workflow.closing == old(workflow.closing) && workflow.parts == old(workflow.parts)
      ensures (id in old(configMap) || id in PrototypeNames) && id in old(uiMap) && id in old(closingLocks) ==>
                h == Pending(old(closingLocks)[id].task) && closingLocks == old(closingLocks)
                && workflow.closing == old(workflow.closing) && workflow.parts == old(workflow.parts)
      ensures (id in old(configMap) || id in PrototypeNames) && id in old(uiMap) && id !in old(closingLocks) ==>
                && h == Pending(old(nextTask))
                && id in closingLocks
                && closingLocks == old(closingLocks)[id := closingLocks[id]]
                && closingLocks[id].task == old(nextTask) && closingLocks[id].destroy == destroy
      ensures id in old(configMap) && id in old(uiMap) && id !in old(closingLocks) ==>
                && closingLocks[id].entry == Registered(configMap[id])
                && (closingLocks[id].inner == Settled(Resolved(Unit)) ||
                    (id in workflow.closing && closingLocks[id].inner == Pending(workflow.closing[id].task)))
      ensures id in PrototypeNames && id in old(uiMap) && id !in old(closingLocks) ==>
                && closingLocks[id].entry == InheritedMember(id) && closingLocks[id].inner == Settled(Resolved(Unit))
                && workflow.closing == old(workflow.closing) && workflow.parts == old(workflow.parts)
    {
      var entry := ConfigOf(id);
      if entry.None? || id !in uiMap {
        return Settled(Resolved(Unit));
      }
      if id in closingLocks {
        return Pending(closingLocks[id].task);
      }
      var inner;
      match entry.value {
        case Registered(config) =>
          inner := workflow.Close(config, uiMap[id], destroy);
        case InheritedMember(_) =>
          inner := Settled(Resolved(Unit));
      }
      var t := nextTask;
      nextTask := nextTask + 1;
      closingLocks := closingLocks[id := CloseLock(t, entry.value, destroy, inner)];
      h := Pending(t);
    }

    /** How the workflow close a lock awaits settled. */
    function InnerClose(l: CloseLock): Outcome<Unit>
      requires l.inner.Pending? ==> l.inner.task in workflow.closeResults
      reads this, workflow
    {
      if l.inner.Settled? then l.inner.outcome else workflow.closeResults[l.inner.task]
    }

    /**
     * The workflow close awaited by the close of `id` settled: after a
     * successful close a view the close destroyed or that is not cached is
     * forgotten; the task settles like the workflow close and the lock is
     * released on success and failure.
     */
    method CloseSettled(id: string)
      requires Valid() && id in closingLocks
      requires closingLocks[id].inner.Pending? ==> closingLocks[id].inner.task in workflow.closeResults
      modifies this
      ensures Valid()
      ensures closingLocks == old(closingLocks) - {id}
      ensures openingLocks == old(openingLocks) && configMap == old(configMap) && openResults == old(openResults)
      ensures var l := old(closingLocks)[id];
              var o := old(InnerClose(closingLocks[id]));
              && closeResults == old(closeResults)[l.task := o]
              && uiMap == if o.Resolved? && ForgetsEntry(l.destroy, l.entry) then old(uiMap) - {id} else old(uiMap)
    {
      var l := closingLocks[id];
      var o := InnerClose(l);
      if o.Resolved? && ForgetsEntry(l.destroy, l.entry) {
        uiMap := uiMap - {id};
      }
      closingLocks := closingLocks - {id};
      closeResults := closeResults[l.task := o];
    }

    /** closeAll: declared with an empty body; it closes nothing. */
    method CloseAll()
      ensures Valid() <==> old(Valid())
    {
    }
  }

  /**
   * A view opened under an id that names an Object.prototype member
   * ("toString", "constructor"): its configuration was never registered,
   * and its close finds the inherited member instead. The workflow does
   * nothing with it, so the view is neither hidden nor destroyed and no
   * close lock of the workflow is taken, yet the manager forgets the node.
   */
  method InheritedIdClose(m: UIManager, id: string, destroy: bool)
    requires m.Valid() && m.workflow.Valid()
    requires id in PrototypeNames && id in m.uiMap && id !in m.closingLocks
    modifies m, m.workflow
    ensures m.Valid()
    ensures id !in m.configMap && id !in m.uiMap && id !in m.closingLocks
    ensures m.uiMap == old(m.uiMap) - {id}
    ensures m.workflow.closing == old(m.workflow.closing) && m.workflow.parts == old(m.workflow.parts)
  {
    var h := m.Close(id, destroy);
    m.CloseSettled(id);
  }

  /**
   * A second open of an id during the first shares its task and starts no
   * second workflow open: the workflow sees one open.
   */
  method OpenDuringOpenShares(m: UIManager, config: UIConfig, d1: Data, d2: Data)
    returns (h1: Handle<Option<NodeId>>, h2: Handle<Option<NodeId>>)
    requires m.Valid() && m.workflow.Valid() && m.workflow.rm.Valid() && config.uiID !in m.openingLocks
    modifies m, m.workflow, m.workflow.scene, m.workflow.rm, m.workflow.rm.loader
    ensures h1 == h2 && h1.Pending?
    ensures m.openingLocks.Keys == old(m.openingLocks.Keys) + {config.uiID}
  {
    h1 := m.Open(config, d1);
    h2 := m.Open(config, d2);
  }

  /**
   * The two lock tables are independent: a close of a recorded view starts
   * while an open of the same id is still in flight.
   */
  method CloseDuringOpenStarts(m: UIManager, config: UIConfig, d: Data, destroy: bool)
    returns (ho: Handle<Option<NodeId>>, hc: Handle<Unit>)
    requires m.Valid() && m.workflow.Valid() && m.workflow.rm.Valid()
    requires config.uiID !in m.openingLocks && config.uiID !in m.closingLocks
    requires config.uiID in m.configMap && config.uiID in m.uiMap
    modifies m, m.workflow, m.workflow.scene, m.workflow.rm, m.workflow.rm.loader
    ensures ho.Pending? && hc.Pending? && ho.task != hc.task
    ensures config.uiID in m.openingLocks && config.uiID in m.closingLocks
  {
    ho := m.Open(config, d);
    hc := m.Close(config.uiID, destroy);
  }
}
