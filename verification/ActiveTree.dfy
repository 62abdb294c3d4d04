/**
The active tree of a B-WF2Q+ service tree: a search tree ordered by finish time in which every node
carries the minimum start time of its subtree. The red-black rebalancing after an insertion or an
erasure is left to arbitrary decisions: which level it acts on and which of its rotations it does.
*/
module ActiveTree {
  import opened Options

  datatype Key = Key(id: nat, start: int, finish: int)

  datatype Tree = Leaf | Node(left: Tree, key: Key, minStart: int, right: Tree)

  /** A node above the place in focus: on which side the focus lies, and the subtree on the other side. */
  datatype Frame = Frame(onLeft: bool, key: Key, minStart: int, sibling: Tree)

  function Plug(t: Tree, f: Frame): Tree {
    if f.onLeft then Node(t, f.key, f.minStart, f.sibling) else Node(f.sibling, f.key, f.minStart, t)
  }

  function Inorder(t: Tree): seq<Key> {
    match t
    case Leaf => []
    case Node(l, k, _, r) => Inorder(l) + [k] + Inorder(r)
  }

  // ----- bfq_update_active_node, bfq_update_active_tree -----

  function LeastWith(m: int, t: Tree): int {
    if t.Node? && m > t.minStart then t.minStart else m
  }

  function Recalc(t: Tree): Tree {
    match t
    case Leaf => Leaf
    case Node(l, k, _, r) => Node(l, k, LeastWith(LeastWith(k.start, r), l), r)
  }

  function UpdateUp(t: Tree, path: seq<Frame>): Tree
    decreases |path|
  {
    if path == [] then Recalc(t)
    else UpdateUp(Plug(Recalc(t), path[0].(sibling := Recalc(path[0].sibling))), path[1..])
  }

  // ----- insertion -----

  /** bfq_insert: the way down to the place of an entity with this finish time. */
  function Descend(t: Tree, finish: int, path: seq<Frame>): seq<Frame> {
    match t
    case Leaf => path
    case Node(l, k, m, r) =>
      if k.finish > finish then Descend(l, finish, [Frame(true, k, m, r)] + path)
      else Descend(r, finish, [Frame(false, k, m, l)] + path)
  }

  datatype Place = Place(t: Tree, path: seq<Frame>)

  function NodeOn(left: bool, a: Tree, k: Key, m: int, b: Tree): Tree {
    if left then Node(a, k, m, b) else Node(b, k, m, a)
  }

  /** One rotation lifts p over g when the node below p hangs on the same side of it as p of g. */
  function LiftOnce(p: Frame, g: Frame): Frame {
    Frame(p.onLeft, p.key, p.minStart, NodeOn(p.onLeft, p.sibling, g.key, g.minStart, g.sibling))
  }

  /** Two rotations lift the node y over p and g; the place is below y. */
  function LiftTwice(y: Frame, p: Frame, g: Frame): seq<Frame> {
    if y.onLeft == g.onLeft then
      [Frame(!g.onLeft, p.key, p.minStart, p.sibling),
       Frame(g.onLeft, y.key, y.minStart, NodeOn(g.onLeft, y.sibling, g.key, g.minStart, g.sibling))]
    else
      [Frame(g.onLeft, g.key, g.minStart, g.sibling),
       Frame(!g.onLeft, y.key, y.minStart, NodeOn(g.onLeft, p.sibling, p.key, p.minStart, y.sibling))]
  }

  /** Two rotations lift the node t itself over p and g. */
  function LiftNode(t: Tree, p: Frame, g: Frame): Tree
    requires t.Node?
  {
    var (near, far) := if g.onLeft then (t.left, t.right) else (t.right, t.left);
    NodeOn(g.onLeft,
           NodeOn(g.onLeft, p.sibling, p.key, p.minStart, near), t.key, t.minStart,
           NodeOn(g.onLeft, far, g.key, g.minStart, g.sibling))
  }

  /** The rotations of rb_insert_color at the node `level` steps above the focus, with parent p and grandparent g. */
  function InsertFix(t: Tree, path: seq<Frame>, level: nat): (at: Place)
    requires t.Node?
    ensures at.t.Node? && at.t.key == t.key
  {
    if level + 1 >= |path| then Place(t, path)
    else
      var p, g, rest := path[level], path[level + 1], path[level + 2..];
      if p.onLeft == g.onLeft then Place(t, path[..level] + [LiftOnce(p, g)] + rest)
      else if level == 0 then Place(LiftNode(t, p, g), rest)
      else Place(t, path[..level - 1] + LiftTwice(path[level - 1], p, g) + rest)
  }

  /** bfq_active_insert: link, rebalance, then update from a child of the new node if it has one. */
  function Insert(t: Tree, k: Key, level: nat): Tree {
    var at := InsertFix(Node(Leaf, k, 0, Leaf), Descend(t, k.finish, []), level);
    var n := at.t;
    if n.left.Node? then UpdateUp(n.left, [Frame(true, n.key, n.minStart, n.right)] + at.path)
    else if n.right.Node? then UpdateUp(n.right, [Frame(false, n.key, n.minStart, n.left)] + at.path)
    else UpdateUp(n, at.path)
  }

  // ----- extraction -----

  /** The node of an entity, and the path above it. */
  function Find(t: Tree, id: nat, path: seq<Frame>): (at: Option<Place>)
    ensures at.Some? ==> at.value.t.Node? && at.value.t.key.id == id
  {
    match t
    case Leaf => None
    case Node(l, k, m, r) =>
      if k.id == id then Some(Place(t, path))
      else
        var inLeft := Find(l, id, [Frame(true, k, m, r)] + path);
        if inLeft.Some? then inLeft else Find(r, id, [Frame(false, k, m, l)] + path)
  }

  /** rb_next inside a subtree: its leftmost node. */
  function Leftmost(t: Tree, path: seq<Frame>): (s: Place)
    requires t.Node?
    ensures s.t.Node? && s.t.left.Leaf?
  {
    if t.left.Leaf? then Place(t, path) else Leftmost(t.left, [Frame(true, t.key, t.minStart, t.right)] + path)
  }

  /** rb_erase without its rebalancing: the place where the tree has become one node shorter. */
  function Splice(n: Tree, path: seq<Frame>): Place
    requires n.Node?
  {
    if n.right.Leaf? then Place(n.left, path)
    else if n.left.Leaf? then Place(n.right, path)
    else
      var s := Leftmost(n.right, []);
      Place(s.t.right, s.path + [Frame(false, s.t.key, s.t.minStart, n.left)] + path)
  }

  /** The node bfq_find_deepest names before the erasure. */
  function FindDeepest(n: Tree, path: seq<Frame>): Option<Key>
    requires n.Node?
  {
    if n.right.Leaf? && n.left.Leaf? then (if path == [] then None else Some(path[0].key))
    else if n.right.Leaf? then Some(n.left.key)
    else if n.left.Leaf? then Some(n.right.key)
    else
      var s := Leftmost(n.right, []);
      if s.t.right.Node? then Some(s.t.right.key)
      else if s.path != [] then Some(s.path[0].key)
      else Some(s.t.key)
  }

  /** One rotation at p brings its other child s up and p down, towards the place. */
  function TurnOnce(p: Frame): seq<Frame>
    requires p.sibling.Node?
  {
    var s := p.sibling;
    var (near, far) := if p.onLeft then (s.left, s.right) else (s.right, s.left);
    [Frame(p.onLeft, p.key, p.minStart, near), Frame(p.onLeft, s.key, s.minStart, far)]
  }

  /** A rotation at s first, so that its child nearest to the place comes up instead. */
  function TurnTwice(p: Frame): seq<Frame>
    requires p.sibling.Node? && (if p.onLeft then p.sibling.left else p.sibling.right).Node?
  {
    var s := p.sibling;
    var (near, far) := if p.onLeft then (s.left, s.right) else (s.right, s.left);
    var (inner, outer) := if p.onLeft then (near.left, near.right) else (near.right, near.left);
    [Frame(p.onLeft, p.key, p.minStart, inner),
     Frame(p.onLeft, near.key, near.minStart, NodeOn(p.onLeft, outer, s.key, s.minStart, far))]
  }

  function RotateOnce(path: seq<Frame>, level: nat): seq<Frame> {
    if level >= |path| || path[level].sibling.Leaf? then path
    else path[..level] + TurnOnce(path[level]) + path[level + 1..]
  }

  function RotateTwice(path: seq<Frame>, level: nat): seq<Frame> {
    if level >= |path| || path[level].sibling.Leaf? then path
    else
      var p := path[level];
      if (if p.onLeft then p.sibling.left else p.sibling.right).Leaf? then path
      else path[..level] + TurnTwice(p) + path[level + 1..]
  }

  datatype EraseFix = EraseFix(level: nat, first: bool, once: bool, twice: bool)

  /** The rotations rb_erase_color can do at one level: case 1, then case 4 alone or cases 3 and 4. */
  function EraseRotate(path: seq<Frame>, fix: EraseFix): seq<Frame> {
    var path' := if fix.first then RotateOnce(path, fix.level) else path;
    if fix.twice then RotateTwice(path', fix.level)
    else if fix.once then RotateOnce(path', fix.level)
    else path'
  }

  /** Update from the node at the place, or from its parent if the place is empty. */
  function UpdateFrom(at: Place): Tree {
    if at.t.Node? then UpdateUp(at.t, at.path)
    else if at.path == [] then Leaf
    else UpdateUp(Plug(Leaf, at.path[0]), at.path[1..])
  }

  /** bfq_active_extract */
  function Extract(t: Tree, id: nat, fix: EraseFix): Tree {
    var at := Find(t, id, []);
    if at.None? then t
    else
      var spot := Splice(at.value.t, at.value.path);
      UpdateFrom(Place(spot.t, EraseRotate(spot.path, fix)))
  }
}
