// Opening and closing one view at a time per view id
// (assets/Core/ui/workflow/UIWorkflow.ts).
//
// Each call of open or close that is not answered at once becomes a task
// with an explicit phase; the events the source awaits (the prefab load,
// the end of a show or hide tween, the next microtask) are the step
// methods OnPrefabLoaded, ShowFinished, HideFinished, SettleOpen and
// SettleClose, each naming the view id whose task moves on. The locks
// m_opening and m_closing map a view id to the task in flight, whose
// promise every caller of that id shares.
module UIWorkflowModel {
  import opened Common
  import opened SceneGraph
  import opened UITypes
  import opened LayerManaging
  import opened ResourceLoading
  import opened ResourceManaging
  import opened UIAnimation

  /** The opaque `data` handed to a view's initialize. */
  type Data = nat

  /**
   * The components a prefab's root node carries that the workflow looks
   * for: a UIBase (whose hooks it calls) and a UIAnimationComponent.
   */
  datatype ViewParts = ViewParts(name: string, hasUIBase: bool, anim: Option<AnimComponent>)

  /** A node with neither component. */
  const NoParts := ViewParts("", false, None)

  /** A call of a UIBase hook, recorded in order. */
  datatype ViewEvent = Initialized(node: NodeId, data: Data) | Opened(node: NodeId) | Closed(node: NodeId)

  /** The hook call `e` when the node has a UIBase (the source's `uiBase?.`), else nothing. */
  function Hook(p: ViewParts, e: ViewEvent): (r: seq<ViewEvent>)
    ensures |r| <= 1
    ensures p.hasUIBase <==> r == [e]
  {
    if p.hasUIBase then [e] else []
  }

  /** cc.instantiate: the copy's animation component starts idle. */
  function Instantiate(p: ViewParts): (r: ViewParts)
    ensures r.name == p.name && r.hasUIBase == p.hasUIBase && r.anim.Some? == p.anim.Some?
    ensures r.anim.Some? ==> r.anim.value == p.anim.value.(isPlaying := false)
  {
    if p.anim.Some? then p.(anim := Some(p.anim.value.(isPlaying := false))) else p
  }

  /** The node's animation component, if it has one, with its busy flag set to `playing`. */
  function WithFlag(parts: map<NodeId, ViewParts>, n: NodeId, playing: bool): (r: map<NodeId, ViewParts>)
    ensures r.Keys == parts.Keys
    ensures forall m :: m in parts && m != n ==> r[m] == parts[m]
    ensures n in parts ==> r[n].name == parts[n].name && r[n].hasUIBase == parts[n].hasUIBase
    ensures n in parts && parts[n].anim.Some? ==> r[n].anim == Some(parts[n].anim.value.(isPlaying := playing))
    ensures n in parts && parts[n].anim.None? ==> r[n] == parts[n]
  {
    if n in parts && parts[n].anim.Some? then
      parts[n := parts[n].(anim := Some(parts[n].anim.value.(isPlaying := playing)))]
    else parts
  }

  /**
   * The phase a close enters once the hide animation of `n` was asked for:
   * a busy component fails the close, an animation that cannot be found
   * fails it with the tween's error, a tween started is awaited, and a
   * node without an animation component waits for nothing.
   */
  function HidePhase(anims: map<string, Animation>, n: NodeId, p: ViewParts): (phase: ClosePhase)
    ensures p.anim.None? ==> phase == AwaitHide(n, None)
    ensures p.anim.Some? && p.anim.value.isPlaying ==> phase == CloseDone(Rejected(AnimationBusy))
    ensures p.anim.Some? && !p.anim.value.isPlaying ==>
              var s := StartTween(anims, n, TypeName(p.anim.value.hideAnimation), p.anim.value.hideDuration, true);
              && (s.Resolved? <==> phase.AwaitHide?)
              && (phase.AwaitHide? ==> phase.tween == Some(s.value) && phase.tween.value.hiding)
              && (phase.CloseDone? ==> phase.outcome == Rejected(TypeError))
  {
    if p.anim.None? then AwaitHide(n, None)
    else if p.anim.value.isPlaying then CloseDone(Rejected(AnimationBusy))
    else
      var s := StartTween(anims, n, TypeName(p.anim.value.hideAnimation), p.anim.value.hideDuration, true);
      if s.Resolved? then AwaitHide(n, Some(s.value)) else CloseDone(Rejected(s.error))
  }

  datatype OpenPhase =
    | AwaitPrefab(prefab: Handle<Asset>)        // acquireNode waits on the resource manager
    | AwaitShow(node: NodeId, tween: Tween)     // playShowAnimation waits on its tween
    | OpenDone(outcome: Outcome<NodeId>)        // the inner promise settled; the lock is released next

  /** An open in flight: its promise's task number, its arguments and where it is. */
  datatype OpenTask = OpenTask(task: TaskId, config: UIConfig, data: Data, phase: OpenPhase)

  datatype ClosePhase =
    | AwaitHide(node: NodeId, tween: Option<Tween>) // the hide tween, or the microtask of `await undefined`
    | CloseDone(outcome: Outcome<Unit>)

  /** A close in flight: its promise's task number, its arguments and where it is. */
  datatype CloseTask = CloseTask(task: TaskId, config: UIConfig, node: NodeId, destroy: bool, phase: ClosePhase)

  /** Whether close keeps the node (hidden) instead of destroying it. */
  predicate KeepsNode(destroy: bool, config: UIConfig)
  {
    !destroy && config.cache
  }

  /** The nodes an open phase names exist (are below the scene's next id); a show tween runs on the shown node. */
  predicate OpenPhaseBelow(ph: OpenPhase, bound: NodeId)
  {
    && (ph.AwaitShow? ==> ph.node < bound && ph.tween.node == ph.node && !ph.tween.hiding)
    && (ph.OpenDone? && ph.outcome.Resolved? ==> ph.outcome.value < bound)
  }

  /** The node a close works on exists, and a hide tween runs on it. */
  predicate CloseTaskBelow(c: CloseTask, bound: NodeId)
  {
    && c.node < bound
    && (c.phase.AwaitHide? ==>
          c.phase.node == c.node && (c.phase.tween.Some? ==> c.phase.tween.value.node == c.node && c.phase.tween.value.hiding))
  }

  class UIWorkflow {
    const scene: Scene
    /** LayerManager.instance. */
    const layers: LayerManager
    /** m_resManagerTool: the workflow's own resource manager over the shared loader. */
    const rm: ResourceManager
    /** UIAnimationLibrary.instance. */
    const lib: UIAnimationLibrary
    /** The components each loadable prefab's root carries. */
    const prefabs: map<Asset, ViewParts>

    /** m_opening / m_closing: view id -> the open or close in flight, whose promise callers share. */
    var opening: map<string, OpenTask>
    var closing: map<string, CloseTask>
    /** m_activeNodes: view id -> its opened or cached node. */
    var activeNodes: map<string, NodeId>
    /** The components of the nodes this workflow instantiated. */
    var parts: map<NodeId, ViewParts>
    var openResults: map<TaskId, Outcome<NodeId>>
    var closeResults: map<TaskId, Outcome<Unit>>
    var nextTask: TaskId
    /** The UIBase hooks called so far, in order. */
    var trace: seq<ViewEvent>

    function PartsOf(n: NodeId): ViewParts
      reads this
    {
      if n in parts then parts[n] else NoParts
    }

    ghost predicate Valid()
      reads this, scene
    {
      && scene.Valid()
      // each open or close in flight is filed under its own id and was numbered by this workflow
      && (forall id :: id in opening ==>
            && opening[id].config.uiID == id && opening[id].task < nextTask
            && OpenPhaseBelow(opening[id].phase, scene.next))
      && (forall id :: id in closing ==>
            && closing[id].config.uiID == id && closing[id].task < nextTask
            && CloseTaskBelow(closing[id], scene.next))
      // every node the workflow refers to exists
      && (forall id :: id in activeNodes ==> activeNodes[id] < scene.next)
      && (forall n :: n in parts ==> n < scene.next)
    }

    constructor (s: Scene, lm: LayerManager, loader: ResourceLoader, library: UIAnimationLibrary, templates: map<Asset, ViewParts>)
      requires s.Valid() && loader.Valid()
      ensures Valid() && rm.Valid() && fresh(rm) && rm.loader == loader
      ensures scene == s && layers == lm && lib == library && prefabs == templates
      ensures opening == map[] && closing == map[] && activeNodes == map[] && parts == map[] && trace == []
    {
      scene := s;
      layers := lm;
      rm := new ResourceManager(loader);
      lib := library;
      prefabs := templates;
      opening := map[];
      closing := map[];
      activeNodes := map[];
      parts := map[];
      openResults := map[];
      closeResults := map[];
      nextTask := 0;
      trace := [];
    }

    /**
     * open: a caller of an id that is being opened shares the task in
     * flight. Otherwise a recorded node is activated and shown again
     * (playShow) and any other id starts loading its prefab (acquireNode);
     * either way the new task takes the lock.
     */
    method Open(config: UIConfig, data: Data) returns (h: Handle<NodeId>)
      requires Valid() && rm.Valid()
      modifies this, scene, rm, rm.loader
      ensures Valid() && rm.Valid()
      ensures closing == old(closing) && activeNodes == old(activeNodes)
      ensures openResults == old(openResults) && closeResults == old(closeResults)
      ensures config.uiID in opening && h == Pending(opening[config.uiID].task)
      ensures config.uiID in old(opening) ==>
                && h == Pending(old(opening)[config.uiID].task)
                && opening == old(opening) && trace == old(trace)
                && scene.nodes == old(scene.nodes) && rm.loader.requests == old(rm.loader.requests)
      ensures config.uiID !in old(opening) ==>
                && h == Pending(old(nextTask))
                && opening.Keys == old(opening).Keys + {config.uiID}
                && (forall id :: id in old(opening) ==> opening[id] == old(opening)[id])
                && opening[config.uiID].task == old(nextTask) && opening[config.uiID].config == config
      ensures config.uiID !in old(opening) && config.uiID in old(activeNodes) ==>
                && scene.nodes[activeNodes[config.uiID]].active
                && rm.loader.requests == old(rm.loader.requests)
      ensures config.uiID !in old(opening) && config.uiID !in old(activeNodes) ==>
                && opening[config.uiID].phase.AwaitPrefab?
                && scene.nodes == old(scene.nodes) && trace == old(trace)
                && rm.loader.requests == old(rm.loader.requests) +
                     (if config.prefabPath == "" || config.prefabPath in old(rm.loader.loadingQueue) then [] else [config.prefabPath])
    {
      if config.uiID in opening {
        return Pending(opening[config.uiID].task);
      }
      h := StartOpen(config, data);
    }

    /** The first open of an id: a new task is numbered and filed under the id. */
    method StartOpen(config: UIConfig, data: Data) returns (h: Handle<NodeId>)
      requires Valid() && rm.Valid() && config.uiID !in opening
      modifies this, scene, rm, rm.loader
      ensures Valid() && rm.Valid()
      ensures closing == old(closing) && activeNodes == old(activeNodes)
      ensures openResults == old(openResults) && closeResults == old(closeResults)
      ensures h == Pending(old(nextTask))
      ensures opening.Keys == old(opening).Keys + {config.uiID}
      ensures forall id :: id in old(opening) ==> opening[id] == old(opening)[id]
      ensures opening[config.uiID].task == old(nextTask) && opening[config.uiID].config == config
      ensures config.uiID in old(activeNodes) ==>
                && scene.nodes[activeNodes[config.uiID]].active
                && rm.loader.requests == old(rm.loader.requests)
      ensures config.uiID !in old(activeNodes) ==>
                && opening[config.uiID].phase.AwaitPrefab?
                && scene.nodes == old(scene.nodes) && trace == old(trace)
                && rm.loader.requests == old(rm.loader.requests) +
                     (if config.prefabPath == "" || config.prefabPath in old(rm.loader.loadingQueue) then [] else [config.prefabPath])
    {
      var id := config.uiID;
      var t := nextTask;
      nextTask := nextTask + 1;
      var phase;
      if id in activeNodes {
        phase := Reshow(activeNodes[id], data);
      } else {
        var prefab := rm.LoadResAsync(config.prefabPath, Some(PrefabKind), false);
        phase := AwaitPrefab(prefab);
      }
      opening := opening[id := OpenTask(t, config, data, phase)];
      h := Pending(t);
    }

    /** playShow on a recorded node: the node is activated, then shown. */
    method Reshow(n: NodeId, data: Data) returns (phase: OpenPhase)
      requires Valid() && n < scene.next
      modifies this, scene
      ensures Valid() && OpenPhaseBelow(phase, scene.next)
      ensures opening == old(opening) && closing == old(closing)
      ensures activeNodes == old(activeNodes) && nextTask == old(nextTask)
      ensures openResults == old(openResults) && closeResults == old(closeResults)
      ensures scene.next == old(scene.next) && scene.nodes[n].active
      ensures !phase.AwaitPrefab?
    {
      scene.SetActive(n, true);
      phase := PlayShow(n, data);
    }

    /**
     * playShow and the tail of createNodeAndPlayShow, after the node is
     * active and placed: initialize is called, and the show animation
     * starts when the node has an enabled animation component; without
     * one, onOpened runs at once and the open is done.
     */
    method PlayShow(n: NodeId, data: Data) returns (phase: OpenPhase)
      requires Valid() && n < scene.next
      modifies this, scene
      ensures Valid() && OpenPhaseBelow(phase, scene.next)
      ensures opening == old(opening) && closing == old(closing)
      ensures activeNodes == old(activeNodes) && nextTask == old(nextTask)
      ensures openResults == old(openResults) && closeResults == old(closeResults)
      ensures scene.next == old(scene.next)
      ensures scene.nodes == old(scene.nodes)[n := old(scene.nodes)[n].(active := scene.nodes[n].active)]
      ensures old(scene.nodes)[n].active ==> scene.nodes[n].active
      ensures var p := old(PartsOf(n));
              !(p.anim.Some? && p.anim.value.enabled) ==>
                && phase == OpenDone(Resolved(n)) && parts == old(parts)
                && trace == old(trace) + Hook(p, Initialized(n, data)) + Hook(p, Opened(n))
      ensures var p := old(PartsOf(n));
              p.anim.Some? && p.anim.value.enabled ==>
                && trace == old(trace) + Hook(p, Initialized(n, data))
                && parts == old(parts)[n := p.(anim := Some(p.anim.value.(isPlaying := true)))]
                && (p.anim.value.isPlaying ==> phase == OpenDone(Rejected(AnimationBusy)))
                && (!p.anim.value.isPlaying ==>
                      var s := StartTween(lib.animations, n, TypeName(p.anim.value.showAnimation), p.anim.value.showDuration, false);
                      phase == (if s.Resolved? then AwaitShow(n, s.value) else OpenDone(Rejected(s.error))))
    {
      var p := PartsOf(n);
      trace := trace + Hook(p, Initialized(n, data));
      if p.anim.Some? && p.anim.value.enabled {
        var r, c := PlayShowAnimation(lib, scene, n, p.anim.value);
        parts := parts[n := p.(anim := Some(c))];
        phase := if r.Rejected? then OpenDone(Rejected(r.error)) else AwaitShow(n, r.value);
      } else {
        trace := trace + Hook(p, Opened(n));
        phase := OpenDone(Resolved(n));
      }
    }

    /** The outcome the prefab load of an open settled with. */
    function PrefabOutcome(h: Handle<Asset>): Outcome<Asset>
      requires h.Pending? ==> h.task in rm.results
      reads this, rm
    {
      if h.Settled? then h.outcome else rm.results[h.task]
    }

    /** cc.instantiate(prefab): a new parentless node carrying the prefab's components. */
    method InstantiatePrefab(a: Asset) returns (n: NodeId)
      requires Valid()
      modifies this, scene
      ensures Valid()
      ensures opening == old(opening) && closing == old(closing) && activeNodes == old(activeNodes)
      ensures nextTask == old(nextTask) && trace == old(trace)
      ensures openResults == old(openResults) && closeResults == old(closeResults)
      ensures var template := if a in prefabs then prefabs[a] else NoParts;
              && n == old(scene.next) && scene.next == n + 1
              && scene.nodes == old(scene.nodes)[n := SceneNode(template.name, None, true, true)]
              && parts == old(parts)[n := Instantiate(template)]
    {
      var template := if a in prefabs then prefabs[a] else NoParts;
      n := scene.NewNode(template.name);
      parts := parts[n := Instantiate(template)];
    }

    /**
     * createNodeAndPlayShow after the prefab arrived: the node goes under
     * its layer's node (getLayerNode throws without a root or a node for
     * the layer, failing the open) and is shown.
     */
    method AttachAndShow(n: NodeId, layer: int, data: Data) returns (phase: OpenPhase)
      requires Valid() && n < scene.next
      modifies this, scene
      ensures Valid() && OpenPhaseBelow(phase, scene.next)
      ensures opening == old(opening) && closing == old(closing) && activeNodes == old(activeNodes)
      ensures nextTask == old(nextTask) && openResults == old(openResults) && closeResults == old(closeResults)
      ensures scene.next == old(scene.next) && (old(scene.nodes)[n].active ==> scene.nodes[n].active)
      ensures n in old(parts) ==> n in parts && parts[n].hasUIBase == old(parts)[n].hasUIBase
      ensures layers.uiRoot.None? ==> phase == OpenDone(Rejected(NotInitialized)) && scene.nodes == old(scene.nodes)
      ensures layers.uiRoot.Some? && layer !in layers.layerMap ==>
                phase == OpenDone(Rejected(LayerNotFound(layer))) && scene.nodes == old(scene.nodes)
      ensures layers.uiRoot.Some? && layer in layers.layerMap ==>
                && scene.nodes[n].parent == Some(layers.layerMap[layer])
                && !phase.AwaitPrefab?
    {
      var node := layers.GetLayerNode(layer);
      if node.Rejected? {
        return OpenDone(Rejected(node.error));
      }
      scene.AddChild(node.value, n);
      phase := PlayShow(n, data);
    }

    /**
     * The prefab load of the open of `id` settled. A failure fails the
     * open; a prefab is instantiated, attached under its layer and shown.
     * A failed attach leaves the new node unattached.
     */
    method OnPrefabLoaded(id: string)
      requires Valid() && id in opening && opening[id].phase.AwaitPrefab?
      requires opening[id].phase.prefab.Pending? ==> opening[id].phase.prefab.task in rm.results
      modifies this, scene
      ensures Valid()
      ensures closing == old(closing) && activeNodes == old(activeNodes)
      ensures openResults == old(openResults) && closeResults == old(closeResults)
      ensures opening.Keys == old(opening).Keys
      ensures forall other :: other in old(opening) && other != id ==> opening[other] == old(opening)[other]
      ensures opening[id] == old(opening)[id].(phase := opening[id].phase)
      ensures var o := old(PrefabOutcome(opening[id].phase.prefab));
              o.Rejected? ==> opening[id].phase == OpenDone(Rejected(o.error)) && scene.nodes == old(scene.nodes)
      ensures var o := old(PrefabOutcome(opening[id].phase.prefab));
              var n := old(scene.next);
              o.Resolved? ==>
                && n !in old(scene.nodes) && n in scene.nodes && scene.nodes[n].active && n in parts
                && parts[n].hasUIBase == (o.value in prefabs && prefabs[o.value].hasUIBase)
      ensures var o := old(PrefabOutcome(opening[id].phase.prefab));
              o.Resolved? && layers.uiRoot.None? ==> opening[id].phase == OpenDone(Rejected(NotInitialized))
      ensures var o := old(PrefabOutcome(opening[id].phase.prefab));
              var layer := old(opening)[id].config.layer;
              o.Resolved? && layers.uiRoot.Some? && layer !in layers.layerMap ==>
                opening[id].phase == OpenDone(Rejected(LayerNotFound(layer)))
      ensures var o := old(PrefabOutcome(opening[id].phase.prefab));
              var layer := old(opening)[id].config.layer;
              o.Resolved? && layers.uiRoot.Some? && layer in layers.layerMap ==>
                scene.nodes[old(scene.next)].parent == Some(layers.layerMap[layer]) && !opening[id].phase.AwaitPrefab?
    {
      var task := opening[id];
      var o := PrefabOutcome(task.phase.prefab);
      var phase;
      if o.Rejected? {
        phase := OpenDone(Rejected(o.error));
      } else {
        var n := InstantiatePrefab(o.value);
        phase := AttachAndShow(n, task.config.layer, task.data);
      }
      opening := opening[id := task.(phase := phase)];
    }

    /**
     * The show tween of the open of `id` finished (a show tween changes
     * nothing more on the node): the component's flag clears, onOpened
     * runs and the open is done with the node.
     */
    method ShowFinished(id: string)
      requires Valid() && id in opening && opening[id].phase.AwaitShow?
      modifies this
      ensures Valid()
      ensures closing == old(closing) && activeNodes == old(activeNodes)
      ensures openResults == old(openResults) && closeResults == old(closeResults)
      ensures var n := old(opening)[id].phase.node;
              && opening == old(opening)[id := old(opening)[id].(phase := OpenDone(Resolved(n)))]
              && trace == old(trace) + Hook(old(PartsOf(n)), Opened(n))
              && parts == WithFlag(old(parts), n, false)
    {
      var task := opening[id];
      var n := task.phase.node;
      trace := trace + Hook(PartsOf(n), Opened(n));
      parts := WithFlag(parts, n, false);
      opening := opening[id := task.(phase := OpenDone(Resolved(n)))];
    }

    /**
     * The open's try/finally: a node it resolved with is recorded under the
     * view id, and the lock is released either way.
     */
    method SettleOpen(id: string)
      requires Valid() && id in opening && opening[id].phase.OpenDone?
      modifies this
      ensures Valid()
      ensures var task := old(opening)[id];
              && opening == old(opening) - {id}
              && openResults == old(openResults)[task.task := task.phase.outcome]
              && (task.phase.outcome.Resolved? ==> activeNodes == old(activeNodes)[id := task.phase.outcome.value])
              && (task.phase.outcome.Rejected? ==> activeNodes == old(activeNodes))
      ensures closing == old(closing) && closeResults == old(closeResults)
      ensures parts == old(parts) && trace == old(trace)
    {
      var task := opening[id];
      var o := task.phase.outcome;
      if o.Resolved? {
        activeNodes := activeNodes[id := o.value];
      }
      opening := opening - {id};
      openResults := openResults[task.task := o];
    }

    /** Whether close has a recorded node to work on: the node passed in and the one recorded are both valid. */
    predicate CanClose(id: string, uiNode: NodeId)
      reads this, scene
    {
      scene.IsValid(uiNode) && id in activeNodes && scene.IsValid(activeNodes[id])
    }

    /**
     * The hide animation of `n` starts through its animation component,
     * whether or not the component is enabled; without a component the
     * close only waits for the next microtask.
     */
    method StartHide(n: NodeId) returns (phase: ClosePhase)
      requires Valid() && n < scene.next
      modifies this
      ensures Valid()
      ensures opening == old(opening) && closing == old(closing) && activeNodes == old(activeNodes)
      ensures nextTask == old(nextTask) && trace == old(trace)
      ensures openResults == old(openResults) && closeResults == old(closeResults)
      ensures phase == HidePhase(lib.animations, n, old(PartsOf(n)))
      ensures parts == WithFlag(old(parts), n, true)
    {
      var p := PartsOf(n);
      if p.anim.Some? {
        var r, c := PlayHideAnimation(lib, n, p.anim.value);
        parts := parts[n := p.(anim := Some(c))];
        phase := if r.Rejected? then CloseDone(Rejected(r.error)) else AwaitHide(n, Some(r.value));
      } else {
        phase := AwaitHide(n, None);
      }
    }

    /**
     * close: nothing to do for an invalid node or an id with no valid
     * recorded node; a caller of an id being closed shares the task in
     * flight; otherwise the hide animation of the node passed in starts
     * (enabled or not) and the new task takes the lock.
     */
    method Close(config: UIConfig, uiNode: NodeId, destroy: bool) returns (h: Handle<Unit>)
      requires Valid()
      modifies this
      ensures Valid()
      ensures opening == old(opening) && activeNodes == old(activeNodes)
      ensures openResults == old(openResults) && closeResults == old(closeResults) && trace == old(trace)
      ensures h.Pending? ==> config.uiID in closing && h == Pending(closing[config.uiID].task)
      ensures h.Settled? ==> h == Settled(Resolved(Unit))
      ensures !old(CanClose(config.uiID, uiNode)) ==>
                h == Settled(Resolved(Unit)) && closing == old(closing) && parts == old(parts)
      ensures old(CanClose(config.uiID, uiNode)) && config.uiID in old(closing) ==>
                h == Pending(old(closing)[config.uiID].task) && closing == old(closing) && parts == old(parts)
      ensures var id := config.uiID;
              old(CanClose(id, uiNode)) && id !in old(closing) ==>
                && h == Pending(old(nextTask))
                && closing.Keys == old(closing).Keys + {id}
                && (forall other :: other in old(closing) ==> closing[other] == old(closing)[other])
                && var task := closing[id];
                   && task.task == old(nextTask) && task.config == config && task.node == uiNode && task.destroy == destroy
                   && task.phase == HidePhase(lib.animations, uiNode, old(PartsOf(uiNode)))
                   && parts == WithFlag(old(parts), uiNode, true)
    {
      var id := config.uiID;
      if !CanClose(id, uiNode) {
        return Settled(Resolved(Unit));
      }
      if id in closing {
        return Pending(closing[id].task);
      }
      var t := nextTask;
      nextTask := nextTask + 1;
      var phase := StartHide(uiNode);
      closing := closing[id := CloseTask(t, config, uiNode, destroy, phase)];
      h := Pending(t);
    }

    /** The hide tween, if one was started, finishes: the node goes inactive and its component's flag clears. */
    method EndHide(n: NodeId, tween: Option<Tween>)
      requires Valid() && n < scene.next && (tween.Some? ==> tween.value.node == n && tween.value.hiding)
      modifies this, scene
      ensures Valid()
      ensures opening == old(opening) && closing == old(closing) && activeNodes == old(activeNodes)
      ensures nextTask == old(nextTask) && trace == old(trace)
      ensures openResults == old(openResults) && closeResults == old(closeResults)
      ensures scene.next == old(scene.next)
      ensures scene.nodes == if tween.Some? then old(scene.nodes)[n := old(scene.nodes)[n].(active := false)] else old(scene.nodes)
      ensures parts == if tween.Some? then WithFlag(old(parts), n, false) else old(parts)
    {
      if tween.Some? {
        FinishTween(scene, tween.value);
        parts := WithFlag(parts, n, false);
      }
    }

    /**
     * The end of close: a view that is cached and not to be destroyed is
     * hidden; any other is detached, destroyed and forgotten under its id.
     */
    method Dispose(id: string, n: NodeId, keep: bool)
      requires Valid() && n < scene.next
      modifies this, scene
      ensures Valid()
      ensures opening == old(opening) && closing == old(closing) && parts == old(parts)
      ensures nextTask == old(nextTask) && trace == old(trace)
      ensures openResults == old(openResults) && closeResults == old(closeResults)
      ensures scene.next == old(scene.next)
      ensures keep ==> scene.nodes == old(scene.nodes)[n := old(scene.nodes)[n].(active := false)] && activeNodes == old(activeNodes)
      ensures !keep ==>
                && scene.nodes == old(scene.nodes)[n := old(scene.nodes)[n].(parent := None, valid := false)]
                && activeNodes == old(activeNodes) - {id}
    {
      if keep {
        scene.SetActive(n, false);
      } else {
        scene.RemoveFromParent(n);
        scene.Destroy(n);
        activeNodes := activeNodes - {id};
      }
    }

    /**
     * The hide of the close of `id` is over (its tween finished, or the
     * microtask passed when there was no component): onClosed runs, then
     * the node is hidden or destroyed as Dispose says.
     */
    method HideFinished(id: string)
      requires Valid() && id in closing && closing[id].phase.AwaitHide?
      modifies this, scene
      ensures Valid()
      ensures opening == old(opening) && openResults == old(openResults) && closeResults == old(closeResults)
      ensures closing == old(closing)[id := old(closing)[id].(phase := CloseDone(Resolved(Unit)))]
      ensures var task := old(closing)[id];
              var n := task.node;
              && trace == old(trace) + Hook(old(PartsOf(n)), Closed(n))
              && scene.next == old(scene.next) && scene.nodes == old(scene.nodes)[n := scene.nodes[n]]
              && (KeepsNode(task.destroy, task.config) ==>
                    && !scene.nodes[n].active && scene.nodes[n].parent == old(scene.nodes)[n].parent
                    && activeNodes == old(activeNodes))
              && (!KeepsNode(task.destroy, task.config) ==>
                    && !scene.IsValid(n) && scene.nodes[n].parent.None?
                    && activeNodes == old(activeNodes) - {id})
    {
      var task := closing[id];
      var n := task.node;
      closing := closing[id := task.(phase := CloseDone(Resolved(Unit)))];
      EndHide(n, task.phase.tween);
      trace := trace + Hook(PartsOf(n), Closed(n));
      Dispose(id, n, KeepsNode(task.destroy, task.config));
    }

    /** The close's try/finally: the lock is released and the task's promise settles. */
    method SettleClose(id: string)
      requires Valid() && id in closing && closing[id].phase.CloseDone?
      modifies this
      ensures Valid()
      ensures closing == old(closing) - {id}
      ensures closeResults == old(closeResults)[old(closing)[id].task := old(closing)[id].phase.outcome]
      ensures opening == old(opening) && openResults == old(openResults)
      ensures activeNodes == old(activeNodes) && parts == old(parts) && trace == old(trace)
    {
      var task := closing[id];
      closing := closing - {id};
      closeResults := closeResults[task.task := task.phase.outcome];
    }
  }

  /**
   * Two opens of the same id before the first finishes share one task and
   * ask for the prefab once.
   */
  method OpenTwiceSharesTask(w: UIWorkflow, config: UIConfig, d1: Data, d2: Data)
    returns (h1: Handle<NodeId>, h2: Handle<NodeId>)
    requires w.Valid() && w.rm.Valid() && config.uiID !in w.opening && config.uiID !in w.activeNodes
    requires config.prefabPath != "" && config.prefabPath !in w.rm.loader.loadingQueue
    modifies w, w.scene, w.rm, w.rm.loader
    ensures h1 == h2 && h1.Pending?
    ensures w.rm.loader.requests == old(w.rm.loader.requests) + [config.prefabPath]
  {
    h1 := w.Open(config, d1);
    h2 := w.Open(config, d2);
  }
}
