/** The loops of bfq-wf2q.c that walk an active tree. */
module ActiveTreeLoops {
  import opened Options
  import opened ActiveTree
  import opened ActiveTreeProofs
  import opened ActiveSearch

  /** bfq_update_active_tree: repairs the min_start values on the way up from a node. */
  method UpdateActiveTree(node: Tree, above: seq<Frame>) returns (t: Tree)
    ensures t == UpdateUp(node, above)
  {
    var path := above;
    t := Recalc(node);
    while path != []
      invariant UpdateUp(t, path) == UpdateUp(node, above) && t == Recalc(t)
      decreases |path|
    {
      var sibling := Recalc(path[0].sibling);
      t := Recalc(Plug(t, path[0].(sibling := sibling)));
      RecalcTwice(Plug(Recalc(node), path[0]));
      path := path[1..];
    }
  }

  lemma RecalcTwice(t: Tree)
    ensures Recalc(Recalc(t)) == Recalc(t)
  {
  }

  /** bfq_insert: the walk down to where a new entity is linked. */
  method FindPlace(t: Tree, finish: int) returns (path: seq<Frame>)
    ensures path == Descend(t, finish, [])
  {
    var node := t;
    path := [];
    while node.Node?
      invariant Descend(node, finish, path) == Descend(t, finish, [])
      decreases node
    {
      if node.key.finish > finish {
        path, node := [Frame(true, node.key, node.minStart, node.right)] + path, node.left;
      } else {
        path, node := [Frame(false, node.key, node.minStart, node.left)] + path, node.right;
      }
    }
  }

  /** bfq_first_active_entity: finds an eligible entity whenever one exists, here because min_start says so. */
  method FirstActive(t: Tree, vtime: int) returns (first: Option<Key>)
    ensures first == Search(t, vtime, None)
    ensures t.Node? && MinOk(t) && t.minStart <= vtime ==>
              first.Some? && first.value.start <= vtime && first.value in Inorder(t)
  {
    var node := t;
    first := None;
    while node.Node?
      invariant Search(node, vtime, first) == Search(t, vtime, None)
      decreases node
    {
      if node.key.start <= vtime {
        first := Some(node.key);
      }
      if node.left.Node? && node.left.minStart <= vtime {
        node := node.left;
      } else if first.Some? {
        break;
      } else {
        node := node.right;
      }
    }
    if t.Node? && MinOk(t) && t.minStart <= vtime {
      SearchEligible(t, vtime, None);
    }
  }
}
