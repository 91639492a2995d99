// The older view manager (assets/Core/UI/UIManager.ts): no locks, one map
// of open views by name, the configuration last given for each name, one
// container node per layer, and prefabs loaded straight from the engine's
// loader. Each pending open is a task record; PrefabArrived and ShowDone
// are the steps that run when the prefab load and the show tween finish,
// and HideDone the one that runs when a hide tween started by CloseUI
// finishes.
module LegacyUIManaging {
  import opened Common
  import opened SceneGraph
  import opened UITypes
  import opened LayerManaging
  import opened UIAnimation
  import opened UIWorkflowModel

  /**
   * The configuration this manager reads: the view's name, its prefab path,
   * its layer value and whether its node is kept when closed. The UIConfig
   * interface next to this manager declares the id as `uiID` and has no
   * `uiName` field; the manager reads `uiName`, which this record carries.
   */
  datatype LegacyConfig = LegacyConfig(uiName: string, prefabPath: string, layer: int, cache: bool)

  /** An open in flight: waiting for its prefab, or for the show tween of its new node. */
  datatype LegacyOpen =
    | LoadingPrefab(config: LegacyConfig, data: Data)
    | ShowingNode(node: NodeId, tween: Tween)

  /** A hide started by closeUI whose `then` will remove the view by name. */
  datatype PendingHide = PendingHide(name: string, tween: Tween)

  /** The name `Layer_${layer}` of the container node of a layer. */
  function LegacyLayerName(l: UILayer): string
  {
    match l
    case Background => "Layer_0"
    case Normal => "Layer_1"
    case Popup => "Layer_2"
    case Dialog => "Layer_3"
    case Toast => "Layer_4"
    case Loading => "Layer_5"
    case Top => "Layer_10"
  }

  /** openUI's argument check: a name and a prefab path are both required. */
  predicate ConfigValid(config: LegacyConfig)
  {
    config.uiName != "" && config.prefabPath != ""
  }

  /**
   * The constructor's layer loop over Object.values(UILayer): for each value
   * that is a number, a node `Layer_<value>` under the root, filed under
   * the value.
   */
  method BuildLayerNodes(scene: Scene, root: NodeId) returns (layers: map<int, NodeId>)
    requires scene.Valid() && root in scene.nodes
    modifies scene
    ensures scene.Valid() && scene.next >= old(scene.next)
    ensures layers.Keys == set l | l in Layers :: LayerValue(l)
    ensures forall l :: l in Layers ==>
              var n := layers[LayerValue(l)];
              && old(scene.next) <= n < scene.next
              && scene.nodes[n] == SceneNode(LegacyLayerName(l), Some(root), true, true)
    ensures forall n :: n in old(scene.nodes) ==> scene.nodes[n] == old(scene.nodes)[n]
  {
    layers := map[];
    EnumFilterYieldsEachMember();
    var i := 0;
    while i < |EnumKeys|
      invariant 0 <= i <= |EnumKeys|
      invariant scene.Valid() && scene.next >= old(scene.next) && root in scene.nodes
      invariant layers.Keys == set l | l in NumericMembers(EnumKeys[..i]) :: LayerValue(l)
      invariant forall l :: l in NumericMembers(EnumKeys[..i]) ==>
                  var n := layers[LayerValue(l)];
                  && old(scene.next) <= n < scene.next
                  && scene.nodes[n] == SceneNode(LegacyLayerName(l), Some(root), true, true)
      invariant forall n :: n in old(scene.nodes) ==> scene.nodes[n] == old(scene.nodes)[n]
    {
      var key := EnumKeys[i];
      NumericMembersStep(EnumKeys, i);
      if MapsToNumber(key) {
        var n := scene.NewNode(LegacyLayerName(key.member));
        scene.AddChild(root, n);
        EnumKeysDistinct(i);
        if key.member in NumericMembers(EnumKeys[..i]) {
          NumericMemberHasKey(EnumKeys[..i], key.member);
        }
        DistinctValues(NumericMembers(EnumKeys[..i]), key.member);
        layers := layers[LayerValue(key.member) := n];
      }
      i := i + 1;
    }
    assert EnumKeys[..|EnumKeys|] == EnumKeys;
  }

  class LegacyUIManager {
    const scene: Scene
    /** UIAnimationManager.instance, which the views' animation components use. */
    const animations: UIAnimationManager
    /** What cc.instantiate gives for each prefab asset. */
    const prefabs: map<Asset, ViewParts>
    /** The UI root node and the container node of each layer value. */
    var uiRoot: NodeId
    var layers: map<int, NodeId>
    /** activeViews: the node of each open view, by name. */
    var activeViews: map<string, NodeId>
    /** nodePools: declared and read, never filled. */
    var nodePools: map<string, seq<NodeId>>
    /** uiConfigs: the configuration last given for each name. */
    var uiConfigs: map<string, LegacyConfig>
    /** The components of each node the manager created. */
    var parts: map<NodeId, ViewParts>
    /** The prefab paths asked of the engine's loader, in order. */
    var requests: seq<string>
    var opens: map<TaskId, LegacyOpen>
    var hides: map<TaskId, PendingHide>
    var results: map<TaskId, Outcome<NodeId>>
    var nextTask: TaskId
    /** The UIBase hooks that ran: init is Initialized, onShow is Opened. */
    var trace: seq<ViewEvent>

    function PartsOf(n: NodeId): ViewParts
      reads this
    {
      if n in parts then parts[n] else NoParts
    }

    ghost predicate Valid()
      reads this, scene, animations
    {
      && scene.Valid() && animations.Valid()
      // no code path of this manager puts a pool in the map
      && nodePools == map[]
      && (forall name :: name in uiConfigs ==> uiConfigs[name].uiName == name)
      && (forall name :: name in activeViews ==> activeViews[name] < scene.next)
      && (forall n :: n in parts ==> n < scene.next)
      && (forall t :: t in opens ==> t < nextTask && (opens[t].ShowingNode? ==> opens[t].node < scene.next))
      && (forall t :: t in hides ==> t < nextTask && hides[t].tween.node < scene.next && hides[t].tween.hiding)
    }

    /**
     * The constructor: a UI root under the scene's root node and one
     * container per layer under it.
     */
    constructor (s: Scene, sceneRoot: NodeId, library: UIAnimationManager, templates: map<Asset, ViewParts>)
      requires s.Valid() && sceneRoot in s.nodes && library.Valid()
      modifies s
      ensures Valid() && scene == s && animations == library && prefabs == templates
      ensures activeViews == map[] && uiConfigs == map[] && opens == map[] && hides == map[] && requests == []
      ensures uiRoot in s.nodes && s.nodes[uiRoot] == SceneNode("UIRoot", Some(sceneRoot), true, true)
      ensures layers.Keys == set l | l in Layers :: LayerValue(l)
      ensures forall l :: l in Layers ==>
                layers[LayerValue(l)] in s.nodes && s.nodes[layers[LayerValue(l)]].parent == Some(uiRoot)
    {
      scene := s;
      animations := library;
      prefabs := templates;
      var root := s.NewNode("UIRoot");
      s.AddChild(sceneRoot, root);
      uiRoot := root;
      var ls := BuildLayerNodes(s, root);
      layers := ls;
      activeViews := map[];
      nodePools := map[];
      uiConfigs := map[];
      parts := map[];
      requests := [];
      opens := map[];
      hides := map[];
      results := map[];
      nextTask := 0;
      trace := [];
    }

    /**
     * openUI: a config without a name or a prefab path fails before
     * anything changes; otherwise the config is stored (the last one given
     * wins), an open view answers with its node, and any other name starts
     * a prefab load. No lock is taken, so two opens of a name that is not
     * open yet each load a prefab.
     */
    method OpenUI(config: LegacyConfig, data: Data) returns (h: Handle<NodeId>)
      requires Valid()
      modifies this
      ensures Valid()
      ensures activeViews == old(activeViews) && parts == old(parts) && hides == old(hides)
      ensures results == old(results) && trace == old(trace)
      ensures !ConfigValid(config) ==>
                h == Settled(Rejected(InvalidArgument)) && uiConfigs == old(uiConfigs)
                && opens == old(opens) && requests == old(requests)
      ensures ConfigValid(config) ==> uiConfigs == old(uiConfigs)[config.uiName := config]
      ensures ConfigValid(config) && config.uiName in old(activeViews) ==>
                h == Settled(Resolved(old(activeViews)[config.uiName]))
                && opens == old(opens) && requests == old(requests)
      ensures ConfigValid(config) && config.uiName !in old(activeViews) ==>
                && h == Pending(old(nextTask)) && old(nextTask) !in old(opens)
                && opens == old(opens)[old(nextTask) := LoadingPrefab(config, data)]
                && requests == old(requests) + [config.prefabPath]
    {
      if !ConfigValid(config) {
        return Settled(Rejected(InvalidArgument));
      }
      var name := config.uiName;
      uiConfigs := uiConfigs[name := config];
      if name in activeViews {
        return Settled(Resolved(activeViews[name]));
      }
      requests := requests + [config.prefabPath];
      var t := nextTask;
      nextTask := nextTask + 1;
      opens := opens[t := LoadingPrefab(config, data)];
      h := Pending(t);
    }

    /**
     * createUINode after the load: the prefab is instantiated and the new
     * node goes under its layer's container when there is one (the
     * optional chain skips a missing layer).
     */
    method CreateUINode(a: Asset, layer: int) returns (n: NodeId)
      requires Valid()
      modifies this, scene
      ensures Valid()
      ensures activeViews == old(activeViews) && uiConfigs == old(uiConfigs) && opens == old(opens)
      ensures hides == old(hides) && results == old(results) && trace == old(trace)
      ensures nextTask == old(nextTask) && requests == old(requests)
      ensures var template := if a in prefabs then prefabs[a] else NoParts;
              && n == old(scene.next) && scene.next == n + 1
              && scene.nodes == old(scene.nodes)[n := SceneNode(template.name, if layer in layers then Some(layers[layer]) else None, true, true)]
              && parts == old(parts)[n := Instantiate(template)]
    {
      var template := if a in prefabs then prefabs[a] else NoParts;
      n := scene.NewNode(template.name);
      parts := parts[n := Instantiate(template)];
      if layer in layers {
        scene.AddChild(layers[layer], n);
      }
    }

    /**
     * The rest of openUI once the node exists: init(data) when the node has
     * a UIBase, the node is activated and recorded under the name
     * (replacing any node recorded meanwhile), then the show animation
     * starts, or onShow runs when there is no animation component; onShow
     * on a node without a UIBase throws. A busy component returns null,
     * and awaiting null lets the open finish at once.
     */
    method Present(n: NodeId, name: string, data: Data) returns (next: Option<Tween>, o: Outcome<NodeId>)
      requires Valid() && n < scene.next
      modifies this, scene
      ensures Valid()
      ensures uiConfigs == old(uiConfigs) && opens == old(opens) && hides == old(hides)
      ensures results == old(results) && nextTask == old(nextTask) && requests == old(requests)
      ensures activeViews == old(activeViews)[name := n]
      ensures scene.next == old(scene.next) && scene.nodes == old(scene.nodes)[n := old(scene.nodes)[n].(active := true)]
      ensures var p := old(PartsOf(n));
              p.anim.Some? ==>
                && o == Resolved(n) && parts == WithFlag(old(parts), n, true)
                && trace == old(trace) + Hook(p, Initialized(n, data))
                && (p.anim.value.isPlaying ==> next == None)
                && (!p.anim.value.isPlaying ==>
                      next == Some(StartTween(animations.animations, n, TypeName(p.anim.value.showAnimation), p.anim.value.showDuration, false).value))
      ensures var p := old(PartsOf(n));
              p.anim.None? ==>
                && next == None && parts == old(parts)
                && trace == old(trace) + Hook(p, Initialized(n, data)) + Hook(p, Opened(n))
                && o == (if p.hasUIBase then Resolved(n) else Rejected(TypeError))
    {
      trace := trace + Hook(PartsOf(n), Initialized(n, data));
      scene.SetActive(n, true);
      activeViews := activeViews[name := n];
      next, o := ShowView(n);
    }

    /** The show step of openUI on an active node: the animation component, or onShow without one. */
    method ShowView(n: NodeId) returns (next: Option<Tween>, o: Outcome<NodeId>)
      requires Valid() && n < scene.next && scene.nodes[n].active
      modifies this, scene
      ensures Valid()
      ensures uiConfigs == old(uiConfigs) && opens == old(opens) && hides == old(hides) && activeViews == old(activeViews)
      ensures results == old(results) && nextTask == old(nextTask) && requests == old(requests)
      ensures scene.next == old(scene.next) && scene.nodes == old(scene.nodes)
      ensures var p := old(PartsOf(n));
              p.anim.Some? ==>
                && o == Resolved(n) && parts == WithFlag(old(parts), n, true) && trace == old(trace)
                && (p.anim.value.isPlaying ==> next == None)
                && (!p.anim.value.isPlaying ==>
                      next == Some(StartTween(animations.animations, n, TypeName(p.anim.value.showAnimation), p.anim.value.showDuration, false).value))
      ensures var p := old(PartsOf(n));
              p.anim.None? ==>
                && next == None && parts == old(parts) && trace == old(trace) + Hook(p, Opened(n))
                && o == (if p.hasUIBase then Resolved(n) else Rejected(TypeError))
    {
      var p := PartsOf(n);
      if p.anim.Some? {
        var r, c := LegacyPlayShowAnimation(animations, scene, n, p.anim.value);
        assert scene.nodes == old(scene.nodes);
        parts := parts[n := p.(anim := Some(c))];
        next := if r.Some? then Some(r.value.value) else None;
        o := Resolved(n);
      } else {
        trace := trace + Hook(p, Opened(n));
        next := None;
        o := if p.hasUIBase then Resolved(n) else Rejected(TypeError);
      }
    }

    /**
     * The prefab load of open `t` finished with `loaded`: a failure fails
     * the open; a prefab becomes a new node that is placed, initialized,
     * activated and recorded, and the open then waits for its show tween
     * or settles at once.
     */
    method PrefabArrived(t: TaskId, loaded: Outcome<Asset>)
      requires Valid() && t in opens && opens[t].LoadingPrefab?
      modifies this, scene
      ensures Valid()
      ensures uiConfigs == old(uiConfigs) && hides == old(hides) && requests == old(requests)
      ensures loaded.Rejected? ==>
                && opens == old(opens) - {t} && results == old(results)[t := Rejected(loaded.error)]
                && activeViews == old(activeViews) && scene.nodes == old(scene.nodes)
      ensures loaded.Resolved? ==>
                var n := old(scene.next);
                && n !in old(scene.nodes) && n in scene.nodes && scene.nodes[n].active
                && activeViews == old(activeViews)[old(opens)[t].config.uiName := n]
                && (t in opens ==> opens == old(opens)[t := opens[t]] && opens[t].ShowingNode? && opens[t].node == n
                                   && results == old(results))
                && (t !in opens ==> opens == old(opens) - {t} && t in results)
    {
      var req := opens[t];
      if loaded.Rejected? {
        opens := opens - {t};
        results := results[t := Rejected(loaded.error)];
        return;
      }
      Materialize(t, loaded.value);
    }

    /** The successful half of PrefabArrived. */
    method Materialize(t: TaskId, a: Asset)
      requires Valid() && t in opens && opens[t].LoadingPrefab?
      modifies this, scene
      ensures Valid()
      ensures uiConfigs == old(uiConfigs) && hides == old(hides) && requests == old(requests)
      ensures var n := old(scene.next);
              && n !in old(scene.nodes) && n in scene.nodes && scene.nodes[n].active
              && activeViews == old(activeViews)[old(opens)[t].config.uiName := n]
              && (t in opens ==> opens == old(opens)[t := opens[t]] && opens[t].ShowingNode? && opens[t].node == n
                                 && results == old(results))
              && (t !in opens ==> opens == old(opens) - {t} && t in results)
    {
      var req := opens[t];
      var n := CreateUINode(a, req.config.layer);
      var next, o := Present(n, req.config.uiName, req.data);
      Advance(t, n, next, o);
    }

    /** Open `t` either waits for the show tween of its node or settles with `o`. */
    method Advance(t: TaskId, n: NodeId, next: Option<Tween>, o: Outcome<NodeId>)
      requires Valid() && t in opens && n < scene.next
      modifies this
      ensures Valid()
      ensures activeViews == old(activeViews) && uiConfigs == old(uiConfigs) && hides == old(hides)
      ensures requests == old(requests) && parts == old(parts)
      ensures next.Some? ==> opens == old(opens)[t := ShowingNode(n, next.value)] && results == old(results)
      ensures next.None? ==> opens == old(opens) - {t} && results == old(results)[t := o]
    {
      if next.Some? {
        opens := opens[t := ShowingNode(n, next.value)];
      } else {
        opens := opens - {t};
        results := results[t := o];
      }
    }

    /** The show tween of open `t` finished: the component's flag clears and the open resolves with the node. */
    method ShowDone(t: TaskId)
      requires Valid() && t in opens && opens[t].ShowingNode?
      modifies this
      ensures Valid()
      ensures activeViews == old(activeViews) && uiConfigs == old(uiConfigs) && hides == old(hides)
      ensures opens == old(opens) - {t}
      ensures results == old(results)[t := Resolved(old(opens)[t].node)]
      ensures parts == WithFlag(old(parts), old(opens)[t].node, false)
    {
      var n := opens[t].node;
      parts := WithFlag(parts, n, false);
      opens := opens - {t};
      results := results[t := Resolved(n)];
    }

    /**
     * removeUI: deactivates the node recorded under the name, destroys it
     * unless the name's config asks for caching (a cached node would go to
     * a pool, but there is none), and forgets it. With no node recorded the
     * first property access throws.
     */
    method RemoveUI(name: string) returns (r: Outcome<Unit>)
      requires Valid()
      modifies this, scene
      ensures Valid()
      ensures uiConfigs == old(uiConfigs) && opens == old(opens) && hides == old(hides)
      ensures parts == old(parts) && results == old(results) && nextTask == old(nextTask)
      ensures scene.next == old(scene.next)
      ensures name !in old(activeViews) ==>
                r == Rejected(TypeError) && activeViews == old(activeViews) && scene.nodes == old(scene.nodes)
      ensures name in old(activeViews) ==>
                var n := old(activeViews)[name];
                var keep := name in uiConfigs && uiConfigs[name].cache;
                && r == Resolved(Unit) && activeViews == old(activeViews) - {name}
                && scene.nodes == old(scene.nodes)[n := old(scene.nodes)[n].(active := false, valid := keep && old(scene.nodes)[n].valid)]
    {
      if name !in activeViews {
        return Rejected(TypeError);
      }
      var n := activeViews[name];
      scene.SetActive(n, false);
      if !(name in uiConfigs && uiConfigs[name].cache) {
        scene.Destroy(n);
      }
      activeViews := activeViews - {name};
      r := Resolved(Unit);
    }

    /**
     * closeUI: nothing for a name with no node; a node without a UIBase is
     * destroyed and forgotten at once; a node with an animation component
     * starts its hide and is removed when it finishes, except that a busy
     * component returns null and the `.then` on it throws; any other node is
     * removed at once.
     */
    method CloseUI(name: string) returns (r: Outcome<Unit>)
      requires Valid()
      modifies this, scene
      ensures Valid()
      ensures uiConfigs == old(uiConfigs) && opens == old(opens) && results == old(results)
      ensures name !in old(activeViews) ==>
                r == Resolved(Unit) && activeViews == old(activeViews) && scene.nodes == old(scene.nodes)
                && hides == old(hides)
      ensures name in old(activeViews) && !old(PartsOf(activeViews[name])).hasUIBase ==>
                var n := old(activeViews)[name];
                && r == Resolved(Unit) && activeViews == old(activeViews) - {name} && hides == old(hides)
                && scene.nodes == old(scene.nodes)[n := old(scene.nodes)[n].(valid := false)]
      ensures name in old(activeViews) && old(PartsOf(activeViews[name])).hasUIBase && old(PartsOf(activeViews[name])).anim.Some? ==>
                var n := old(activeViews)[name];
                var c := old(PartsOf(activeViews[name])).anim.value;
                && activeViews == old(activeViews) && scene.nodes == old(scene.nodes)
                && (c.isPlaying ==> r == Rejected(TypeError) && hides == old(hides) && parts == old(parts))
                && (!c.isPlaying ==>
                      && r == Resolved(Unit) && parts == WithFlag(old(parts), n, true)
                      && old(nextTask) in hides && hides == old(hides)[old(nextTask) := PendingHide(name, hides[old(nextTask)].tween)]
                      && hides[old(nextTask)].tween.node == n)
      ensures name in old(activeViews) && old(PartsOf(activeViews[name])).hasUIBase && old(PartsOf(activeViews[name])).anim.None? ==>
                r == Resolved(Unit) && activeViews == old(activeViews) - {name} && hides == old(hides)
    {
      if name !in activeViews {
        return Resolved(Unit);
      }
      var n := activeViews[name];
      var p := PartsOf(n);
      if !p.hasUIBase {
        scene.Destroy(n);
        activeViews := activeViews - {name};
        return Resolved(Unit);
      }
      if p.anim.Some? {
        r := StartHide(name, n);
      } else {
        r := RemoveUI(name);
      }
    }

    /** playHideAnimation().then(...): a busy component yields null and the call on it throws. */
    method StartHide(name: string, n: NodeId) returns (r: Outcome<Unit>)
      requires Valid() && n < scene.next && PartsOf(n).anim.Some?
      modifies this
      ensures Valid()
      ensures uiConfigs == old(uiConfigs) && opens == old(opens) && results == old(results)
      ensures activeViews == old(activeViews)
      ensures var c := old(PartsOf(n)).anim.value;
              && (c.isPlaying ==> r == Rejected(TypeError) && hides == old(hides) && parts == old(parts))
              && (!c.isPlaying ==>
                    && r == Resolved(Unit) && parts == WithFlag(old(parts), n, true)
                    && old(nextTask) in hides && hides == old(hides)[old(nextTask) := PendingHide(name, hides[old(nextTask)].tween)]
                    && hides[old(nextTask)].tween.node == n)
    {
      var p := PartsOf(n);
      var h, c := LegacyPlayHideAnimation(animations, n, p.anim.value);
      if h.None? {
        return Rejected(TypeError);
      }
      parts := parts[n := p.(anim := Some(c))];
      var t := nextTask;
      nextTask := nextTask + 1;
      hides := hides[t := PendingHide(name, h.value.value)];
      r := Resolved(Unit);
    }

    /**
     * The hide tween of `t` finished: the node goes inactive and its flag
     * clears, then removeUI runs for the name, on whatever node is recorded
     * under it by then.
     */
    method HideDone(t: TaskId) returns (r: Outcome<Unit>)
      requires Valid() && t in hides
      modifies this, scene
      ensures Valid()
      ensures hides == old(hides) - {t}
      ensures uiConfigs == old(uiConfigs) && opens == old(opens) && results == old(results)
      ensures var name := old(hides)[t].name;
              && (name in old(activeViews) <==> r.Resolved?)
              && activeViews == old(activeViews) - {name}
    {
      var ph := hides[t];
      hides := hides - {t};
      FinishTween(scene, ph.tween);
      parts := WithFlag(parts, ph.tween.node, false);
      r := RemoveUI(ph.name);
    }
  }

  /**
   * Without a lock, a second open of a name that is not open yet starts a
   * second prefab load instead of sharing the first.
   */
  method OverlappingOpensLoadTwice(m: LegacyUIManager, config: LegacyConfig, d1: Data, d2: Data)
    returns (h1: Handle<NodeId>, h2: Handle<NodeId>)
    requires m.Valid() && ConfigValid(config) && config.uiName !in m.activeViews
    modifies m
    ensures h1.Pending? && h2.Pending? && h1.task != h2.task
    ensures m.requests == old(m.requests) + [config.prefabPath, config.prefabPath]
  {
    h1 := m.OpenUI(config, d1);
    h2 := m.OpenUI(config, d2);
  }
}
