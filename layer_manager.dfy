// One container node per UI layer under the UI root
// (assets/Core/ui/manager/LayerManager.ts). The file imports its enum from a
// `ui/layer/UILayer` file that is not part of this model; the enum of
// assets/Core/UI/UILayer.ts, which UITypes models, stands in for it.
module LayerManaging {
  import opened Common
  import opened UITypes
  import opened SceneGraph

  class LayerManager {
    const scene: Scene
    /** uiRoot: null until initialize. */
    var uiRoot: Option<NodeId>
    /** layerMap: layer value -> its container node. */
    var layerMap: map<int, NodeId>

    ghost predicate Valid()
      reads this, scene
    {
      && scene.Valid()
      && (forall v :: v in layerMap ==> layerMap[v] in scene.nodes)
    }

    constructor (s: Scene)
      requires s.Valid()
      ensures Valid() && scene == s && uiRoot.None? && layerMap == map[]
    {
      scene := s;
      uiRoot := None;
      layerMap := map[];
    }

    /**
     * initialize: remembers the root, forgets earlier layer nodes (without
     * destroying them) and, for each enum key whose value is a number,
     * creates a node named after the key under the root.
     */
    method Initialize(root: NodeId)
      requires Valid()
      modifies this, scene
      ensures Valid()
      ensures uiRoot == Some(root)
      ensures layerMap.Keys == set l | l in Layers :: LayerValue(l)
      ensures forall l :: l in Layers ==>
                var n := layerMap[LayerValue(l)];
                && n !in old(scene.nodes)
                && scene.nodes[n] == SceneNode(LayerName(l), Some(root), true, true)
      ensures forall n :: n in old(scene.nodes) ==> n in scene.nodes && scene.nodes[n] == old(scene.nodes)[n]
      ensures forall n :: n in scene.nodes && n !in old(scene.nodes) ==> n in layerMap.Values
    {
      uiRoot := Some(root);
      layerMap := map[];
      EnumFilterYieldsEachMember();
      var i := 0;
      while i < |EnumKeys|
        invariant 0 <= i <= |EnumKeys|
        invariant Valid() && uiRoot == Some(root)
        invariant LayersMade(NumericMembers(EnumKeys[..i]), root, old(scene.nodes))
      {
        var key := EnumKeys[i];
        NumericMembersStep(EnumKeys, i);
        if MapsToNumber(key) {
          EnumKeysDistinct(i);
          if key.member in NumericMembers(EnumKeys[..i]) {
            NumericMemberHasKey(EnumKeys[..i], key.member);
          }
          AddLayerNode(root, key.member, NumericMembers(EnumKeys[..i]), old(scene.nodes));
        } else {
          assert NumericMembers(EnumKeys[..i + 1]) == NumericMembers(EnumKeys[..i]);
        }
        i := i + 1;
      }
      assert EnumKeys[..|EnumKeys|] == EnumKeys;
      assert NumericMembers(EnumKeys[..i]) == Layers;
    }

    /**
     * The layers of `done` have their nodes under `root`, each created
     * after `before` and named after its layer; the nodes of `before` are
     * untouched and every other node is a layer node.
     */
    ghost predicate LayersMade(done: seq<UILayer>, root: NodeId, before: map<NodeId, SceneNode>)
      reads this, scene
    {
      && layerMap.Keys == (set l | l in done :: LayerValue(l))
      && (forall l :: l in done ==>
            && LayerValue(l) in layerMap && layerMap[LayerValue(l)] !in before
            && layerMap[LayerValue(l)] in scene.nodes
            && scene.nodes[layerMap[LayerValue(l)]] == SceneNode(LayerName(l), Some(root), true, true))
      && (forall n :: n in before ==> n in scene.nodes && scene.nodes[n] == before[n])
      && (forall n :: n in scene.nodes && n !in before ==> n in layerMap.Values)
      && (forall v :: v in layerMap ==> layerMap[v] < scene.next)
    }

    /** One step of initialize: a node named after layer `l`, under the root, recorded for the layer's value. */
    method AddLayerNode(root: NodeId, l: UILayer, ghost done: seq<UILayer>, ghost before: map<NodeId, SceneNode>)
      requires Valid() && LayersMade(done, root, before) && l !in done
      modifies this`layerMap, scene
      ensures Valid() && LayersMade(done + [l], root, before)
    {
      var n := scene.NewNode(LayerName(l));
      scene.AddChild(root, n);
      DistinctValues(done, l);
      layerMap := layerMap[LayerValue(l) := n];
    }

    /**
     * getLayerNode: throws when the manager has no root yet, and when no
     * node was made for the value; otherwise the layer's node.
     */
    method GetLayerNode(layer: int) returns (r: Outcome<NodeId>)
      ensures uiRoot.None? ==> r == Rejected(NotInitialized)
      ensures uiRoot.Some? && layer !in layerMap ==> r == Rejected(LayerNotFound(layer))
      ensures uiRoot.Some? && layer in layerMap ==> r == Resolved(layerMap[layer])
    {
      if uiRoot.None? {
        return Rejected(NotInitialized);
      }
      if layer !in layerMap {
        return Rejected(LayerNotFound(layer));
      }
      return Resolved(layerMap[layer]);
    }
  }

  lemma NumericMembersStep(keys: seq<EnumKey>, i: nat)
    requires i < |keys|
    ensures NumericMembers(keys[..i + 1]) ==
            NumericMembers(keys[..i]) + (if MapsToNumber(keys[i]) then [keys[i].member] else [])
  {
    NumericMembersAppend(keys[..i], [keys[i]]);
    assert keys[..i + 1] == keys[..i] + [keys[i]];
  }

  lemma {:induction false} NumericMembersAppend(a: seq<EnumKey>, b: seq<EnumKey>)
    ensures NumericMembers(a + b) == NumericMembers(a) + NumericMembers(b)
  {
    if a == [] {
      assert a + b == b;
    } else {
      assert (a + b)[0] == a[0];
      assert (a + b)[1..] == a[1..] + b;
      NumericMembersAppend(a[1..], b);
    }
  }

  lemma {:induction false} NumericMemberHasKey(s: seq<EnumKey>, l: UILayer)
    requires l in NumericMembers(s)
    ensures NameKey(l) in s
  {
    if s[0] != NameKey(l) {
      NumericMemberHasKey(s[1..], l);
    }
  }

  /** Each key of the enum object is listed once. */
  lemma EnumKeysDistinct(i: nat)
    requires i < |EnumKeys|
    ensures EnumKeys[i] !in EnumKeys[..i]
  {
  }

  /** A member that has not been filtered in yet has a value no earlier member has. */
  lemma DistinctValues(done: seq<UILayer>, l: UILayer)
    requires l !in done
    ensures LayerValue(l) !in set m | m in done :: LayerValue(m)
  {
    forall m | m in done ensures LayerValue(m) != LayerValue(l) {
      assert LayerOf(LayerValue(m)) == Some(m);
    }
  }
}
