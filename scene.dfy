// The engine's node tree as the UI core uses it: nodes by id, each with a
// name, a parent, an active flag and a validity flag (cc.isValid is false
// once a node is destroyed). The engine itself is not part of this model;
// only the operations the core calls are represented.
module SceneGraph {
  import opened Common

  datatype SceneNode = SceneNode(name: string, parent: Option<NodeId>, active: bool, valid: bool)

  class Scene {
    var nodes: map<NodeId, SceneNode>
    /** The id the next created node gets. */
    var next: NodeId

    /** Ids are handed out in order and no node is ever removed: the ids in use are exactly those below `next`. */
    ghost predicate Valid()
      reads this
    {
      forall n: NodeId :: n in nodes <==> n < next
    }

    constructor ()
      ensures Valid() && nodes == map[]
    {
      nodes := map[];
      next := 0;
    }

    predicate IsValid(n: NodeId)
      reads this
    {
      n in nodes && nodes[n].valid
    }

    /** new cc.Node(name) / cc.instantiate: a fresh, active, parentless node. */
    method NewNode(name: string) returns (n: NodeId)
      requires Valid()
      modifies this
      ensures Valid()
      ensures n == old(next) && n !in old(nodes) && next == n + 1
      ensures nodes == old(nodes)[n := SceneNode(name, None, true, true)]
    {
      n := next;
      nodes := nodes[n := SceneNode(name, None, true, true)];
      next := next + 1;
    }

    /** parent.addChild(child). */
    method AddChild(parent: NodeId, child: NodeId)
      requires Valid() && child in nodes
      modifies this
      ensures Valid() && next == old(next)
      ensures nodes == old(nodes)[child := old(nodes)[child].(parent := Some(parent))]
    {
      nodes := nodes[child := nodes[child].(parent := Some(parent))];
    }

    /** node.removeFromParent(). */
    method RemoveFromParent(n: NodeId)
      requires Valid() && n in nodes
      modifies this
      ensures Valid() && next == old(next)
      ensures nodes == old(nodes)[n := old(nodes)[n].(parent := None)]
    {
      nodes := nodes[n := nodes[n].(parent := None)];
    }

    /** node.active = b. */
    method SetActive(n: NodeId, b: bool)
      requires Valid() && n in nodes
      modifies this
      ensures Valid() && next == old(next)
      ensures nodes == old(nodes)[n := old(nodes)[n].(active := b)]
    {
      nodes := nodes[n := nodes[n].(active := b)];
    }

    /** node.destroy(): the node stops being valid. */
    method Destroy(n: NodeId)
      requires Valid() && n in nodes
      modifies this
      ensures Valid() && next == old(next)
      ensures nodes == old(nodes)[n := old(nodes)[n].(valid := false)]
    {
      nodes := nodes[n := nodes[n].(valid := false)];
    }
  }
}
