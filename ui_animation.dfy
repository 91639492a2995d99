// UI show/hide animations: the registry of named tweens
// (assets/Core/UI/UIAnimationLibrary.ts), the older registry with the same
// defaults (assets/Core/UI/UIAnimationManager.ts), and the two components
// that a UI prefab carries to play them with a busy flag
// (assets/Core/ui/components/UIAnimationComponent.ts and
// assets/Core/UI/UIAnimationComponent.ts).
//
// A tween is not run here: starting one yields a Tween record, and the
// moment the engine finishes it is the step FinishTween. Positions, easing,
// opacity and scale are left out; only the node's active flag, which the
// rest of the UI core reads, is modelled.
module UIAnimation {
  import opened Common
  import opened SceneGraph

  datatype Axis = Width | Height

  /** A registered animation: one of the built-in tweens or one a caller registered. */
  datatype Animation =
    | FadeAnim
    | ScaleAnim
    | SlideAnim(axis: Axis, direction: int)
    | CustomAnim(id: nat)

  /** One row of the slide table the library registers in a loop. */
  datatype SlideConfig = SlideConfig(name: string, axis: Axis, direction: int)

  const SlideConfigs: seq<SlideConfig> := [
    SlideConfig("slide-right", Width, 1),
    SlideConfig("slide-left", Width, -1),
    SlideConfig("slide-top", Height, 1),
    SlideConfig("slide-bottom", Height, -1)
  ]

  const BuiltIns: map<string, Animation> := map["fade" := FadeAnim, "scale" := ScaleAnim]

  /** The registry after registering the slides of `cs`, in order, on top of `base`. */
  function RegisterSlides(base: map<string, Animation>, cs: seq<SlideConfig>): map<string, Animation>
  {
    if cs == [] then base
    else
      var c := cs[|cs| - 1];
      RegisterSlides(base, cs[..|cs| - 1])[c.name := SlideAnim(c.axis, c.direction)]
  }

  /** The registry a freshly constructed library or manager holds. */
  const DefaultAnimations: map<string, Animation> := RegisterSlides(BuiltIns, SlideConfigs)

  /** The six default names, each with the tween registered under it. */
  lemma DefaultAnimationsContents()
    ensures DefaultAnimations.Keys ==
            {"fade", "scale", "slide-right", "slide-left", "slide-top", "slide-bottom"}
    ensures DefaultAnimations["fade"] == FadeAnim && DefaultAnimations["scale"] == ScaleAnim
    ensures DefaultAnimations["slide-right"] == SlideAnim(Width, 1)
    ensures DefaultAnimations["slide-left"] == SlideAnim(Width, -1)
    ensures DefaultAnimations["slide-top"] == SlideAnim(Height, 1)
    ensures DefaultAnimations["slide-bottom"] == SlideAnim(Height, -1)
  {
    var cs := SlideConfigs;
    assert cs[..1][..0] == [] && cs[..2][..1] == cs[..1] && cs[..3][..2] == cs[..2] && cs[..4][..3] == cs[..3];
    assert RegisterSlides(BuiltIns, cs[..1]) == BuiltIns["slide-right" := SlideAnim(Width, 1)];
    assert RegisterSlides(BuiltIns, cs[..2]) == RegisterSlides(BuiltIns, cs[..1])["slide-left" := SlideAnim(Width, -1)];
    assert RegisterSlides(BuiltIns, cs[..3]) == RegisterSlides(BuiltIns, cs[..2])["slide-top" := SlideAnim(Height, 1)];
    assert RegisterSlides(BuiltIns, cs[..4]) == RegisterSlides(BuiltIns, cs[..3])["slide-bottom" := SlideAnim(Height, -1)];
    assert cs[..4] == cs;
  }

  /**
   * getAnimation: the animation registered under `name`, or else the one
   * registered under 'fade'; None stands for the undefined that the
   * caller then calls through.
   */
  function Lookup(anims: map<string, Animation>, name: string): Option<Animation>
  {
    if name in anims then Some(anims[name])
    else if "fade" in anims then Some(anims["fade"])
    else None
  }

  /** A tween that was built and started on a node. */
  datatype Tween = Tween(node: NodeId, animation: Animation, duration: real, hiding: bool)

  /**
   * What asking the registry for a show or hide tween on `node` gives: the
   * started tween, or the TypeError of calling show/hide on undefined.
   */
  function StartTween(anims: map<string, Animation>, node: NodeId, name: string,
                      duration: real, hiding: bool): (r: Outcome<Tween>)
    ensures r.Rejected? <==> name !in anims && "fade" !in anims
    ensures r.Rejected? ==> r.error == TypeError
    ensures r.Resolved? ==> r.value.node == node && r.value.duration == duration && r.value.hiding == hiding
    ensures r.Resolved? ==> r.value.animation == (if name in anims then anims[name] else anims["fade"])
  {
    match Lookup(anims, name)
    case None => Rejected(TypeError)
    case Some(a) => Resolved(Tween(node, a, duration, hiding))
  }

  /** Every name resolves in the default registry; unknown names fall back to the fade. */
  lemma DefaultsAlwaysResolve(name: string)
    ensures Lookup(DefaultAnimations, name).Some?
    ensures name !in DefaultAnimations ==> Lookup(DefaultAnimations, name) == Some(FadeAnim)
  {
    DefaultAnimationsContents();
  }

  /** Once 'fade' is unregistered, exactly the unregistered names (and 'fade' itself) fail. */
  lemma LookupWithoutFade(anims: map<string, Animation>, name: string)
    ensures Lookup(anims - {"fade"}, name).None? <==> name !in anims || name == "fade"
  {
  }

  /** Registering under one name changes only that name's lookup, unless the name is 'fade'. */
  lemma LookupAfterRegister(anims: map<string, Animation>, name: string, a: Animation, other: string)
    ensures Lookup(anims[name := a], name) == Some(a)
    ensures other != name && name != "fade" ==> Lookup(anims[name := a], other) == Lookup(anims, other)
  {
  }

  /**
   * The engine finishes a tween. A hide tween ends with node.active = false
   * (the library's .call and the manager's resolve-then-deactivate agree);
   * a show tween changes nothing more.
   */
  method FinishTween(scene: Scene, tw: Tween)
    requires scene.Valid() && tw.node in scene.nodes
    modifies scene
    ensures scene.Valid() && scene.next == old(scene.next)
    ensures tw.hiding ==> scene.nodes == old(scene.nodes)[tw.node := old(scene.nodes)[tw.node].(active := false)]
    ensures !tw.hiding ==> scene.nodes == old(scene.nodes)
  {
    if tw.hiding {
      scene.SetActive(tw.node, false);
    }
  }

  /** UIAnimationLibrary: the registry the current UI workflow plays through. */
  class UIAnimationLibrary {
    var animations: map<string, Animation>

    /** The constructor registers fade and scale, then each slide of the table in turn. */
    constructor ()
      ensures animations == DefaultAnimations
    {
      animations := BuiltIns;
      new;
      var i := 0;
      while i < |SlideConfigs|
        invariant 0 <= i <= |SlideConfigs|
        invariant animations == RegisterSlides(BuiltIns, SlideConfigs[..i])
      {
        var c := SlideConfigs[i];
        assert SlideConfigs[..i + 1][..i] == SlideConfigs[..i];
        RegisterAnimation(c.name, SlideAnim(c.axis, c.direction));
        i := i + 1;
      }
      assert SlideConfigs[..i] == SlideConfigs;
    }

    /** registerAnimation: a later registration under the same name replaces the earlier one. */
    method RegisterAnimation(name: string, a: Animation)
      modifies this
      ensures animations == old(animations)[name := a]
    {
      animations := animations[name := a];
    }

    /** unregisterAnimation. */
    method UnregisterAnimation(name: string)
      modifies this
      ensures animations == old(animations) - {name}
    {
      animations := animations - {name};
    }

    /**
     * show: the tween is looked up first (a missing animation throws before
     * anything changes), then the node is activated and the tween started.
     */
    method Show(scene: Scene, node: NodeId, name: string, duration: real) returns (r: Outcome<Tween>)
      requires scene.Valid() && node in scene.nodes
      modifies scene
      ensures scene.Valid() && scene.next == old(scene.next)
      ensures r == StartTween(animations, node, name, duration, false)
      ensures r.Resolved? ==> scene.nodes == old(scene.nodes)[node := old(scene.nodes)[node].(active := true)]
      ensures r.Rejected? ==> scene.nodes == old(scene.nodes)
    {
      r := StartTween(animations, node, name, duration, false);
      if r.Resolved? {
        scene.SetActive(node, true);
      }
    }

    /** hide: the tween is looked up (or throws) and started; the node stays active until it finishes. */
    method Hide(node: NodeId, name: string, duration: real) returns (r: Outcome<Tween>)
      ensures r == StartTween(animations, node, name, duration, true)
    {
      r := StartTween(animations, node, name, duration, true);
    }
  }

  /** UIAnimationManager: the older registry, with no way to unregister. */
  class UIAnimationManager {
    var animations: map<string, Animation>

    /** 'fade' is registered by the constructor and nothing removes it. */
    ghost predicate Valid()
      reads this
    {
      "fade" in animations
    }

    constructor ()
      ensures Valid() && animations == DefaultAnimations
    {
      DefaultAnimationsContents();
      animations := DefaultAnimations;
    }

    /** registerAnimation. */
    method RegisterAnimation(name: string, a: Animation)
      requires Valid()
      modifies this
      ensures Valid() && animations == old(animations)[name := a]
    {
      animations := animations[name := a];
    }

    /**
     * show: unlike the library, the node is activated before the tween is
     * looked up; the lookup cannot fail while 'fade' is registered.
     */
    method Show(scene: Scene, node: NodeId, name: string, duration: real) returns (r: Outcome<Tween>)
      requires Valid() && scene.Valid() && node in scene.nodes
      modifies scene
      ensures scene.Valid() && scene.next == old(scene.next)
      ensures r == StartTween(animations, node, name, duration, false) && r.Resolved?
      ensures scene.nodes == old(scene.nodes)[node := old(scene.nodes)[node].(active := true)]
    {
      scene.SetActive(node, true);
      r := StartTween(animations, node, name, duration, false);
    }

    /** hide: the lookup runs inside the promise executor, so a failure would be a rejection. */
    method Hide(node: NodeId, name: string, duration: real) returns (r: Outcome<Tween>)
      requires Valid()
      ensures r == StartTween(animations, node, name, duration, true) && r.Resolved?
    {
      r := StartTween(animations, node, name, duration, true);
    }
  }

  /** The animation choices of both components (a cc.Enum, FADE = 0 … SLIDE_BOTTOM = 5). */
  datatype AnimationType = Fade | Scale | SlideRight | SlideLeft | SlideTop | SlideBottom

  /** UIAnimationTypeMap: the registry name each choice plays; every one is a default name. */
  function TypeName(t: AnimationType): (name: string)
    ensures name in DefaultAnimations
  {
    DefaultAnimationsContents();
    match t
    case Fade => "fade"
    case Scale => "scale"
    case SlideRight => "slide-right"
    case SlideLeft => "slide-left"
    case SlideTop => "slide-top"
    case SlideBottom => "slide-bottom"
  }

  /** No two choices play the same registry entry. */
  lemma TypeNameInjective(t: AnimationType, u: AnimationType)
    ensures TypeName(t) == TypeName(u) <==> t == u
  {
  }

  /**
   * A component's properties as the prefab sets them, whether the component
   * is enabled, and the busy flag m_isPlaying. The component is held as a
   * value by whoever owns the node it sits on.
   */
  datatype AnimComponent = AnimComponent(
    showAnimation: AnimationType,
    hideAnimation: AnimationType,
    showDuration: real,
    hideDuration: real,
    enabled: bool,
    isPlaying: bool)

  /** The component as added in the editor: fade in and out over 0.3 s, idle. */
  const DefaultComponent := AnimComponent(Fade, Fade, 0.3, 0.3, true, false)

  /**
   * playShowAnimation of ui/components/UIAnimationComponent.ts: rejects while
   * busy; otherwise sets the flag and starts the show through the library.
   * If the library throws, the .finally that clears the flag is never
   * attached, so the flag stays set.
   */
  method PlayShowAnimation(lib: UIAnimationLibrary, scene: Scene, node: NodeId, c: AnimComponent)
    returns (r: Outcome<Tween>, c': AnimComponent)
    requires scene.Valid() && node in scene.nodes
    modifies scene
    ensures scene.Valid() && scene.next == old(scene.next)
    ensures c' == c.(isPlaying := true)
    ensures c.isPlaying ==> r == Rejected(AnimationBusy) && scene.nodes == old(scene.nodes)
    ensures !c.isPlaying ==> r == StartTween(lib.animations, node, TypeName(c.showAnimation), c.showDuration, false)
    ensures !c.isPlaying && r.Resolved? ==>
              scene.nodes == old(scene.nodes)[node := old(scene.nodes)[node].(active := true)]
    ensures !(!c.isPlaying && r.Resolved?) ==> scene.nodes == old(scene.nodes)
  {
    if c.isPlaying {
      return Rejected(AnimationBusy), c;
    }
    c' := c.(isPlaying := true);
    r := lib.Show(scene, node, TypeName(c.showAnimation), c.showDuration);
  }

  /** playHideAnimation of ui/components/UIAnimationComponent.ts: the same busy protocol for hiding. */
  method PlayHideAnimation(lib: UIAnimationLibrary, node: NodeId, c: AnimComponent)
    returns (r: Outcome<Tween>, c': AnimComponent)
    ensures c' == c.(isPlaying := true)
    ensures c.isPlaying ==> r == Rejected(AnimationBusy)
    ensures !c.isPlaying ==> r == StartTween(lib.animations, node, TypeName(c.hideAnimation), c.hideDuration, true)
  {
    if c.isPlaying {
      return Rejected(AnimationBusy), c;
    }
    c' := c.(isPlaying := true);
    r := lib.Hide(node, TypeName(c.hideAnimation), c.hideDuration);
  }

  /** The started tween finishes and the component's .finally clears the busy flag. */
  method FinishPlay(scene: Scene, tw: Tween, c: AnimComponent) returns (c': AnimComponent)
    requires scene.Valid() && tw.node in scene.nodes
    modifies scene
    ensures scene.Valid() && scene.next == old(scene.next)
    ensures c' == c.(isPlaying := false)
    ensures tw.hiding ==> scene.nodes == old(scene.nodes)[tw.node := old(scene.nodes)[tw.node].(active := false)]
    ensures !tw.hiding ==> scene.nodes == old(scene.nodes)
  {
    FinishTween(scene, tw);
    c' := c.(isPlaying := false);
  }

  /**
   * playShowAnimation of UI/UIAnimationComponent.ts: returns null (None)
   * while busy; otherwise sets the flag and asks the manager, which
   * activates the node and starts the tween.
   */
  method LegacyPlayShowAnimation(mgr: UIAnimationManager, scene: Scene, node: NodeId, c: AnimComponent)
    returns (r: Option<Outcome<Tween>>, c': AnimComponent)
    requires mgr.Valid() && scene.Valid() && node in scene.nodes
    modifies scene
    ensures scene.Valid() && scene.next == old(scene.next)
    ensures c' == c.(isPlaying := true)
    ensures c.isPlaying ==> r == None && scene.nodes == old(scene.nodes)
    ensures !c.isPlaying ==> r == Some(StartTween(mgr.animations, node, TypeName(c.showAnimation), c.showDuration, false))
    ensures !c.isPlaying ==> scene.nodes == old(scene.nodes)[node := old(scene.nodes)[node].(active := true)]
  {
    if c.isPlaying {
      return None, c;
    }
    c' := c.(isPlaying := true);
    var o := mgr.Show(scene, node, TypeName(c.showAnimation), c.showDuration);
    r := Some(o);
  }

  /**
   * playHideAnimation of UI/UIAnimationComponent.ts: null while busy;
   * otherwise the manager's hide promise, whose rejection would clear the
   * flag through the component's catch.
   */
  method LegacyPlayHideAnimation(mgr: UIAnimationManager, node: NodeId, c: AnimComponent)
    returns (r: Option<Outcome<Tween>>, c': AnimComponent)
    requires mgr.Valid()
    ensures c.isPlaying ==> r == None && c' == c
    ensures !c.isPlaying ==> r == Some(StartTween(mgr.animations, node, TypeName(c.hideAnimation), c.hideDuration, true))
    ensures !c.isPlaying ==> c' == c.(isPlaying := r.value.Resolved?)
  {
    if c.isPlaying {
      return None, c;
    }
    var o := mgr.Hide(node, TypeName(c.hideAnimation), c.hideDuration);
    r := Some(o);
    c' := c.(isPlaying := o.Resolved?);
  }

  /**
   * A component whose show could not start because the library had neither
   * the animation nor 'fade' stays busy: every later play is rejected.
   */
  method StuckAfterMissingAnimation(lib: UIAnimationLibrary, scene: Scene, node: NodeId)
    returns (first: Outcome<Tween>, second: Outcome<Tween>)
    requires scene.Valid() && node in scene.nodes
    requires "fade" !in lib.animations
    modifies scene
    ensures first == Rejected(TypeError) && second == Rejected(AnimationBusy)
  {
    var c;
    first, c := PlayShowAnimation(lib, scene, node, DefaultComponent);
    second, c := PlayHideAnimation(lib, node, c);
  }
}
