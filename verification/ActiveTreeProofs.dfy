/**
Insertion and extraction keep the active tree ordered and its min_start values right, whatever the
rebalancing does: every value made stale lies on the updated path or on a sibling of it.
*/
module ActiveTreeProofs {
  import opened Options
  import opened ActiveTree

  /** Every node's min_start is the minimum of its own start and its children's min_start. */
  ghost predicate MinOk(t: Tree) {
    t.Node? ==> MinOk(t.left) && MinOk(t.right) && t == Recalc(t)
  }

  /** Only the root of t may hold a stale min_start. */
  ghost predicate Local(t: Tree) {
    t.Node? ==> MinOk(t.left) && MinOk(t.right)
  }

  ghost predicate AllLocal(path: seq<Frame>) {
    forall i :: 0 <= i < |path| ==> Local(path[i].sibling)
  }

  ghost predicate AllMinOk(path: seq<Frame>) {
    forall i :: 0 <= i < |path| ==> MinOk(path[i].sibling)
  }

  /** What min_start means: the least start in the subtree. */
  lemma {:induction false} MinIsLeast(t: Tree)
    requires t.Node? && MinOk(t)
    ensures forall k :: k in Inorder(t) ==> t.minStart <= k.start
    ensures exists k :: k in Inorder(t) && k.start == t.minStart
  {
    if t.left.Node? { MinIsLeast(t.left); }
    if t.right.Node? { MinIsLeast(t.right); }
    assert t.key in Inorder(t);
  }

  function Wrap(ks: seq<Key>, f: Frame): seq<Key> {
    if f.onLeft then ks + [f.key] + Inorder(f.sibling) else Inorder(f.sibling) + [f.key] + ks
  }

  /** The keys of the whole tree, in order, when `ks` are those at the place. */
  function Around(ks: seq<Key>, path: seq<Frame>): seq<Key>
    decreases |path|
  {
    if path == [] then ks else Around(Wrap(ks, path[0]), path[1..])
  }

  /** Whatever is stale on the path or on its siblings, the upward update repairs it and moves nothing. */
  lemma {:induction false} UpdateRepairs(t: Tree, path: seq<Frame>)
    requires t.Node? && Local(t) && AllLocal(path)
    ensures MinOk(UpdateUp(t, path)) && UpdateUp(t, path).Node?
    ensures Inorder(UpdateUp(t, path)) == Around(Inorder(t), path)
    decreases |path|
  {
    if path != [] {
      var f := path[0].(sibling := Recalc(path[0].sibling));
      UpdateRepairs(Plug(Recalc(t), f), path[1..]);
    }
  }

  lemma {:induction false} AroundAppend(ks: seq<Key>, a: seq<Frame>, b: seq<Frame>)
    ensures Around(ks, a + b) == Around(Around(ks, a), b)
    decreases |a|
  {
    if a == [] {
      assert a + b == b;
    } else {
      AroundAppend(Wrap(ks, a[0]), a[1..], b);
      assert (a + b)[0] == a[0] && (a + b)[1..] == a[1..] + b;
    }
  }

  lemma Around1(ks: seq<Key>, f: Frame)
    ensures Around(ks, [f]) == Wrap(ks, f)
  {
    assert [f][1..] == [];
  }

  lemma Around2(ks: seq<Key>, f: Frame, g: Frame)
    ensures Around(ks, [f, g]) == Wrap(Wrap(ks, f), g)
  {
    assert [f, g][1..] == [g];
    Around1(Wrap(ks, f), g);
  }

  /** Replacing a stretch of the path by one that wraps the same way changes nothing around it. */
  lemma AroundSwap(ks: seq<Key>, a: seq<Frame>, b: seq<Frame>, b': seq<Frame>, c: seq<Frame>)
    requires Around(Around(ks, a), b) == Around(Around(ks, a), b')
    ensures Around(ks, a + b + c) == Around(ks, a + b' + c)
  {
    AroundAppend(ks, a + b, c);
    AroundAppend(ks, a, b);
    AroundAppend(ks, a + b', c);
    AroundAppend(ks, a, b');
  }

  lemma Regroup(x: seq<Key>, k: Key, y: seq<Key>, l: Key, z: seq<Key>)
    ensures x + [k] + (y + [l] + z) == (x + [k] + y) + [l] + z
  {
  }

  lemma TurnOnceKeeps(p: Frame, ks: seq<Key>)
    requires p.sibling.Node? && Local(p.sibling)
    ensures Around(ks, TurnOnce(p)) == Around(ks, [p])
    ensures AllMinOk(TurnOnce(p))
  {
    var s, b := p.sibling, TurnOnce(p);
    Around1(ks, p);
    Around2(ks, b[0], b[1]);
    if p.onLeft {
      Regroup(ks, p.key, Inorder(s.left), s.key, Inorder(s.right));
    } else {
      Regroup(Inorder(s.left), s.key, Inorder(s.right), p.key, ks);
    }
  }

  lemma TurnTwiceKeeps(p: Frame, ks: seq<Key>)
    requires p.sibling.Node? && MinOk(p.sibling)
    requires (if p.onLeft then p.sibling.left else p.sibling.right).Node?
    ensures Around(ks, TurnTwice(p)) == Around(ks, [p])
    ensures AllLocal(TurnTwice(p)) && MinOk(TurnTwice(p)[0].sibling)
  {
    var s, b := p.sibling, TurnTwice(p);
    Around1(ks, p);
    Around2(ks, b[0], b[1]);
    if p.onLeft {
      var n := s.left;
      assert MinOk(n);
      assert MinOk(n.left);
      var outer := Node(n.right, s.key, s.minStart, s.right);
      assert b == [Frame(true, p.key, p.minStart, n.left), Frame(true, n.key, n.minStart, outer)];
      assert Inorder(s) == Inorder(n) + [s.key] + Inorder(s.right);
      assert Inorder(n) == Inorder(n.left) + [n.key] + Inorder(n.right);
      Regroup(ks, p.key, Inorder(n.left), n.key, Inorder(n.right) + [s.key] + Inorder(s.right));
      Regroup(Inorder(n.left), n.key, Inorder(n.right), s.key, Inorder(s.right));
    } else {
      var n := s.right;
      assert MinOk(n);
      assert MinOk(n.right);
      var outer := Node(s.left, s.key, s.minStart, n.left);
      assert b == [Frame(false, p.key, p.minStart, n.right), Frame(false, n.key, n.minStart, outer)];
      assert Inorder(s) == Inorder(s.left) + [s.key] + Inorder(n);
      assert Inorder(n) == Inorder(n.left) + [n.key] + Inorder(n.right);
      Regroup(Inorder(s.left) + [s.key] + Inorder(n.left), n.key, Inorder(n.right), p.key, ks);
      Regroup(Inorder(s.left), s.key, Inorder(n.left), n.key, Inorder(n.right));
    }
  }

  /** The place stays below the same node, whose other subtree has right values throughout. */
  ghost predicate SameFoot(path: seq<Frame>, path': seq<Frame>) {
    && (path == [] <==> path' == [])
    && (path != [] && path' != [] ==> path'[0].key == path[0].key && MinOk(path'[0].sibling))
  }

  lemma RotateOnceKeeps(path: seq<Frame>, level: nat, ks: seq<Key>)
    requires AllMinOk(path)
    ensures var path' := RotateOnce(path, level);
            AllMinOk(path') && SameFoot(path, path') && Around(ks, path') == Around(ks, path)
  {
    if level < |path| && path[level].sibling.Node? {
      var p, a, c := path[level], path[..level], path[level + 1..];
      assert path == a + [p] + c;
      TurnOnceKeeps(p, Around(ks, a));
      AroundSwap(ks, a, [p], TurnOnce(p), c);
    }
  }

  lemma RotateTwiceKeeps(path: seq<Frame>, level: nat, ks: seq<Key>)
    requires AllMinOk(path)
    ensures var path' := RotateTwice(path, level);
            AllLocal(path') && SameFoot(path, path') && Around(ks, path') == Around(ks, path)
  {
    if RotateTwice(path, level) != path {
      var p, a, c := path[level], path[..level], path[level + 1..];
      assert path == a + [p] + c;
      TurnTwiceKeeps(p, Around(ks, a));
      AroundSwap(ks, a, [p], TurnTwice(p), c);
    }
  }

  /** All rotations an erasure can do keep the order, and leave stale values only where the update passes. */
  lemma EraseRotateKeeps(path: seq<Frame>, fix: EraseFix, ks: seq<Key>)
    requires AllMinOk(path)
    ensures var path' := EraseRotate(path, fix);
            AllLocal(path') && SameFoot(path, path') && Around(ks, path') == Around(ks, path)
  {
    RotateOnceKeeps(path, fix.level, ks);
    var path' := if fix.first then RotateOnce(path, fix.level) else path;
    RotateOnceKeeps(path', fix.level, ks);
    RotateTwiceKeeps(path', fix.level, ks);
  }

  // ----- extraction -----

  lemma {:induction false} FindIs(t: Tree, id: nat, path: seq<Frame>)
    requires MinOk(t) && AllMinOk(path)
    ensures var at := Find(t, id, path);
            && (at.None? <==> forall k :: k in Inorder(t) ==> k.id != id)
            && (at.Some? ==> && MinOk(at.value.t) && AllMinOk(at.value.path)
                             && Around(Inorder(at.value.t), at.value.path) == Around(Inorder(t), path))
  {
    match t {
      case Leaf =>
      case Node(l, k, m, r) =>
        var f, g := Frame(true, k, m, r), Frame(false, k, m, l);
        FindIs(l, id, [f] + path);
        FindIs(r, id, [g] + path);
        assert ([f] + path)[1..] == path && ([g] + path)[1..] == path;
        assert k in Inorder(t);
    }
  }

  lemma {:induction false} LeftmostIs(t: Tree, path: seq<Frame>)
    requires t.Node? && MinOk(t) && AllMinOk(path)
    ensures var s := Leftmost(t, path);
            && MinOk(s.t) && AllMinOk(s.path)
            && Around(Inorder(s.t), s.path) == Around(Inorder(t), path)
  {
    if t.left.Node? {
      var f := Frame(true, t.key, t.minStart, t.right);
      LeftmostIs(t.left, [f] + path);
      assert ([f] + path)[1..] == path;
    }
  }

  /** Keys to the left and to the right of a place. */
  function LeftOf(path: seq<Frame>): seq<Key> {
    if path == [] then []
    else LeftOf(path[1..]) + (if path[0].onLeft then [] else Inorder(path[0].sibling) + [path[0].key])
  }

  function RightOf(path: seq<Frame>): seq<Key> {
    if path == [] then []
    else (if path[0].onLeft then [path[0].key] + Inorder(path[0].sibling) else []) + RightOf(path[1..])
  }

  lemma {:induction false} AroundIs(ks: seq<Key>, path: seq<Frame>)
    ensures Around(ks, path) == LeftOf(path) + ks + RightOf(path)
    decreases |path|
  {
    if path != [] {
      var f, rest := path[0], path[1..];
      AroundIs(Wrap(ks, f), rest);
      if f.onLeft {
        Group3(LeftOf(rest), ks, [f.key] + Inorder(f.sibling), RightOf(rest));
      } else {
        Group3(LeftOf(rest), Inorder(f.sibling) + [f.key], ks, RightOf(rest));
      }
    }
  }

  lemma Group3(a: seq<Key>, b: seq<Key>, c: seq<Key>, d: seq<Key>)
    ensures a + (b + c) + d == a + b + (c + d)
    ensures a + (b + c) + d == (a + b) + c + d
  {
  }

  ghost predicate AllOnLeft(path: seq<Frame>) {
    forall i :: 0 <= i < |path| ==> path[i].onLeft
  }

  lemma {:induction false} LeftmostOnLeft(t: Tree, path: seq<Frame>)
    requires t.Node? && AllOnLeft(path)
    ensures AllOnLeft(Leftmost(t, path).path)
  {
    if t.left.Node? {
      LeftmostOnLeft(t.left, [Frame(true, t.key, t.minStart, t.right)] + path);
    }
  }

  lemma {:induction false} AroundFirst(k: Key, ks: seq<Key>, path: seq<Frame>)
    requires AllOnLeft(path)
    ensures Around([k] + ks, path) == [k] + Around(ks, path)
    decreases |path|
  {
    if path != [] {
      var f := path[0];
      AroundFirst(k, Wrap(ks, f), path[1..]);
      assert Wrap([k] + ks, f) == [k] + Wrap(ks, f);
    }
  }

  /** The successor's key followed by what remains of the right subtree is the right subtree. */
  lemma SuccessorIs(r: Tree)
    requires r.Node? && MinOk(r)
    ensures var s := Leftmost(r, []); [s.t.key] + Around(Inorder(s.t.right), s.path) == Inorder(r)
  {
    var s := Leftmost(r, []);
    LeftmostIs(r, []);
    LeftmostOnLeft(r, []);
    assert Inorder(s.t) == [s.t.key] + Inorder(s.t.right);
    AroundFirst(s.t.key, Inorder(s.t.right), s.path);
  }

  lemma SpliceBoth(n: Tree, path: seq<Frame>)
    requires n.Node? && n.left.Node? && n.right.Node? && MinOk(n) && AllMinOk(path)
    ensures var spot := Splice(n, path);
            && MinOk(spot.t) && AllMinOk(spot.path)
            && Around(Inorder(spot.t), spot.path) == Around(Inorder(n.left) + Inorder(n.right), path)
  {
    LeftmostIs(n.right, []);
    var s := Leftmost(n.right, []);
    var f, right := Frame(false, s.t.key, s.t.minStart, n.left), Inorder(s.t.right);
    AroundAppend(right, s.path + [f], path);
    AroundAppend(right, s.path, [f]);
    Around1(Around(right, s.path), f);
    SuccessorIs(n.right);
    assert Inorder(n.left) + [s.t.key] + Around(right, s.path)
        == Inorder(n.left) + ([s.t.key] + Around(right, s.path));
  }

  /** Erasing a node leaves everything around it in place, with all min_start values off the path right. */
  lemma SpliceIs(n: Tree, path: seq<Frame>)
    requires n.Node? && MinOk(n) && AllMinOk(path)
    ensures var spot := Splice(n, path);
            && MinOk(spot.t) && AllMinOk(spot.path)
            && Around(Inorder(spot.t), spot.path) == Around(Inorder(n.left) + Inorder(n.right), path)
  {
    if n.left.Node? && n.right.Node? {
      SpliceBoth(n, path);
    } else {
      assert Inorder(n.left) + Inorder(n.right) == Inorder(if n.left.Node? then n.left else n.right);
    }
  }

  /** bfq_find_deepest, asked before the erasure, names the lowest node the erasure leaves to be updated. */
  lemma DeepestIsSpot(n: Tree, path: seq<Frame>, fix: EraseFix)
    requires n.Node? && MinOk(n) && AllMinOk(path)
    ensures var spot := Splice(n, path);
            var path' := EraseRotate(spot.path, fix);
            FindDeepest(n, path) == if spot.t.Node? then Some(spot.t.key)
                                    else if path' != [] then Some(path'[0].key) else None
  {
    SpliceIs(n, path);
    EraseRotateKeeps(Splice(n, path).path, fix, []);
  }

  lemma UpdateFromRepairs(at: Place)
    requires MinOk(at.t) && AllLocal(at.path) && (at.path != [] ==> MinOk(at.path[0].sibling))
    ensures MinOk(UpdateFrom(at)) && Inorder(UpdateFrom(at)) == Around(Inorder(at.t), at.path)
  {
    if at.t.Node? {
      UpdateRepairs(at.t, at.path);
    } else if at.path != [] {
      var p := Plug(Leaf, at.path[0]);
      UpdateRepairs(p, at.path[1..]);
      assert Inorder(p) == Wrap([], at.path[0]);
    }
  }

  /** An extraction removes exactly the entity asked for and leaves a tree with right min_start values. */
  lemma ExtractOk(t: Tree, id: nat, fix: EraseFix) returns (u: seq<Key>, k: Key, v: seq<Key>)
    requires MinOk(t) && exists k :: k in Inorder(t) && k.id == id
    ensures k.id == id && Inorder(t) == u + [k] + v
    ensures Inorder(Extract(t, id, fix)) == u + v && MinOk(Extract(t, id, fix))
  {
    FindIs(t, id, []);
    var at := Find(t, id, []).value;
    var n, path := at.t, at.path;
    SpliceIs(n, path);
    var spot := Splice(n, path);
    EraseRotateKeeps(spot.path, fix, Inorder(spot.t));
    UpdateFromRepairs(Place(spot.t, EraseRotate(spot.path, fix)));
    k, u, v := n.key, LeftOf(path) + Inorder(n.left), Inorder(n.right) + RightOf(path);
    AroundIs(Inorder(n), path);
    AroundIs(Inorder(n.left) + Inorder(n.right), path);
    Group3(LeftOf(path), Inorder(n.left), Inorder(n.right), RightOf(path));
    SplitAt(LeftOf(path), Inorder(n.left), k, Inorder(n.right), RightOf(path));
  }

  lemma SplitAt(a: seq<Key>, b: seq<Key>, k: Key, c: seq<Key>, d: seq<Key>)
    ensures a + (b + [k] + c) + d == (a + b) + [k] + (c + d)
  {
  }

  // ----- insertion -----

  lemma LiftOnceKeeps(p: Frame, g: Frame, ks: seq<Key>)
    requires p.onLeft == g.onLeft && MinOk(p.sibling) && MinOk(g.sibling)
    ensures Around(ks, [LiftOnce(p, g)]) == Around(ks, [p, g]) && Local(LiftOnce(p, g).sibling)
  {
    Around1(ks, LiftOnce(p, g));
    Around2(ks, p, g);
    if p.onLeft {
      Regroup(ks, p.key, Inorder(p.sibling), g.key, Inorder(g.sibling));
    } else {
      Regroup(Inorder(g.sibling), g.key, Inorder(p.sibling), p.key, ks);
    }
  }

  lemma Around3(ks: seq<Key>, f: Frame, g: Frame, h: Frame)
    ensures Around(ks, [f, g, h]) == Wrap(Wrap(Wrap(ks, f), g), h)
  {
    assert [f, g, h][1..] == [g, h];
    Around2(Wrap(ks, f), g, h);
  }

  lemma LiftTwiceKeeps(y: Frame, p: Frame, g: Frame, ks: seq<Key>)
    requires p.onLeft != g.onLeft && MinOk(y.sibling) && MinOk(p.sibling) && MinOk(g.sibling)
    ensures Around(ks, LiftTwice(y, p, g)) == Around(ks, [y, p, g]) && AllLocal(LiftTwice(y, p, g))
  {
    var b := LiftTwice(y, p, g);
    Around2(ks, b[0], b[1]);
    Around3(ks, y, p, g);
    var ys, ps, gs := Inorder(y.sibling), Inorder(p.sibling), Inorder(g.sibling);
    if g.onLeft && y.onLeft {
      Regroup(ps, p.key, ks, y.key, ys);
      Regroup(ps + [p.key] + ks, y.key, ys, g.key, gs);
    } else if g.onLeft {
      Regroup(ps, p.key, ys, y.key, ks);
      Regroup(ps + [p.key] + ys, y.key, ks, g.key, gs);
    } else if y.onLeft {
      Regroup(gs, g.key, ks, y.key, ys + [p.key] + ps);
      Regroup(ks, y.key, ys, p.key, ps);
    } else {
      Regroup(gs, g.key, ys, y.key, ks + [p.key] + ps);
      Regroup(ys, y.key, ks, p.key, ps);
    }
  }

  lemma LiftNodeKeeps(t: Tree, p: Frame, g: Frame)
    requires t.Node? && p.onLeft != g.onLeft && MinOk(p.sibling) && MinOk(g.sibling) && MinOk(t.left) && MinOk(t.right)
    ensures var n := LiftNode(t, p, g);
            && n.Node? && n.left.Node? && n.right.Node? && Local(n.left) && Local(n.right)
            && Inorder(n) == Around(Inorder(t), [p, g])
  {
    Around2(Inorder(t), p, g);
    var a, b, ps, gs := Inorder(t.left), Inorder(t.right), Inorder(p.sibling), Inorder(g.sibling);
    var n := LiftNode(t, p, g);
    if g.onLeft {
      assert n == Node(Node(p.sibling, p.key, p.minStart, t.left), t.key, t.minStart,
                       Node(t.right, g.key, g.minStart, g.sibling));
      Regroup(ps, p.key, a, t.key, b);
      Regroup(ps + [p.key] + a, t.key, b, g.key, gs);
    } else {
      assert n == Node(Node(g.sibling, g.key, g.minStart, t.left), t.key, t.minStart,
                       Node(t.right, p.key, p.minStart, p.sibling));
      Regroup(gs, g.key, a, t.key, b + [p.key] + ps);
      Regroup(a, t.key, b, p.key, ps);
    }
  }

  lemma PartsLocal(a: seq<Frame>, b: seq<Frame>, c: seq<Frame>)
    requires AllMinOk(a) && AllLocal(b) && AllMinOk(c)
    ensures AllLocal(a + b + c)
  {
    var all := a + b + c;
    forall i | 0 <= i < |all| ensures Local(all[i].sibling) {
      if i < |a| {
        assert all[i] == a[i];
      } else if i < |a| + |b| {
        assert all[i] == b[i - |a|];
      } else {
        assert all[i] == c[i - |a| - |b|];
      }
    }
  }

  lemma PartsMinOk(path: seq<Frame>, i: nat, j: nat)
    requires AllMinOk(path) && i <= j <= |path|
    ensures AllMinOk(path[..i]) && AllMinOk(path[j..])
  {
  }

  lemma LiftOnceAround(ks: seq<Key>, a: seq<Frame>, p: Frame, g: Frame, c: seq<Frame>)
    requires p.onLeft == g.onLeft && MinOk(p.sibling) && MinOk(g.sibling)
    ensures Around(ks, a + [LiftOnce(p, g)] + c) == Around(ks, a + [p, g] + c) && AllLocal([LiftOnce(p, g)])
  {
    LiftOnceKeeps(p, g, Around(ks, a));
    AroundSwap(ks, a, [p, g], [LiftOnce(p, g)], c);
  }

  lemma FixOnce(path: seq<Frame>, level: nat, ks: seq<Key>)
    requires AllMinOk(path) && level + 1 < |path| && path[level].onLeft == path[level + 1].onLeft
    ensures var path' := path[..level] + [LiftOnce(path[level], path[level + 1])] + path[level + 2..];
            AllLocal(path') && Around(ks, path') == Around(ks, path)
  {
    var p, g, a, c := path[level], path[level + 1], path[..level], path[level + 2..];
    LiftOnceAround(ks, a, p, g, c);
    PartsMinOk(path, level, level + 2);
    PartsLocal(a, [LiftOnce(p, g)], c);
    assert path == a + [p, g] + c;
  }

  lemma FixTwice(path: seq<Frame>, level: nat, ks: seq<Key>)
    requires AllMinOk(path) && 0 < level && level + 1 < |path| && path[level].onLeft != path[level + 1].onLeft
    ensures var path' := path[..level - 1]
                         + LiftTwice(path[level - 1], path[level], path[level + 1]) + path[level + 2..];
            AllLocal(path') && Around(ks, path') == Around(ks, path)
  {
    var y, p, g, a, c := path[level - 1], path[level], path[level + 1], path[..level - 1], path[level + 2..];
    PartsMinOk(path, level - 1, level + 2);
    assert path == a + [y, p, g] + c;
    FixTwiceParts(a, y, p, g, c, ks);
  }

  lemma FixTwiceParts(a: seq<Frame>, y: Frame, p: Frame, g: Frame, c: seq<Frame>, ks: seq<Key>)
    requires AllMinOk(a) && AllMinOk([y, p, g]) && AllMinOk(c) && p.onLeft != g.onLeft
    ensures AllLocal(a + LiftTwice(y, p, g) + c)
    ensures Around(ks, a + LiftTwice(y, p, g) + c) == Around(ks, a + [y, p, g] + c)
  {
    assert MinOk([y, p, g][0].sibling) && MinOk([y, p, g][1].sibling) && MinOk([y, p, g][2].sibling);
    LiftTwiceKeeps(y, p, g, Around(ks, a));
    PartsLocal(a, LiftTwice(y, p, g), c);
    AroundSwap(ks, a, [y, p, g], LiftTwice(y, p, g), c);
  }

  lemma FixNode(t: Tree, path: seq<Frame>)
    requires t.Node? && t.left.Leaf? && t.right.Leaf? && AllMinOk(path)
    requires 1 < |path| && path[0].onLeft != path[1].onLeft
    ensures var n := LiftNode(t, path[0], path[1]);
            && AllLocal(path[2..]) && Around(Inorder(n), path[2..]) == Around(Inorder(t), path)
            && n.Node? && n.left.Node? && n.right.Node? && Local(n.left) && Local(n.right)
  {
    var p, g, c := path[0], path[1], path[2..];
    assert path == [p, g] + c;
    LiftNodeKeeps(t, p, g);
    AroundAppend(Inorder(t), [p, g], c);
  }

  /** All rotations an insertion can do, at the new node or above it, keep the order around it. */
  lemma InsertFixKeeps(t: Tree, path: seq<Frame>, level: nat)
    requires t.Node? && t.left.Leaf? && t.right.Leaf? && AllMinOk(path)
    ensures var at := InsertFix(t, path, level);
            && AllLocal(at.path) && Around(Inorder(at.t), at.path) == Around(Inorder(t), path)
            && Local(at.t.left) && Local(at.t.right) && (at.t.left.Leaf? <==> at.t.right.Leaf?)
  {
    if level + 1 < |path| {
      if path[level].onLeft == path[level + 1].onLeft {
        FixOnce(path, level, Inorder(t));
      } else if level == 0 {
        FixNode(t, path);
      } else {
        FixTwice(path, level, Inorder(t));
      }
    }
  }

  lemma {:induction false} DescendIs(t: Tree, finish: int, path: seq<Frame>)
    requires MinOk(t) && AllMinOk(path)
    ensures var path' := Descend(t, finish, path);
            AllMinOk(path') && Around([], path') == Around(Inorder(t), path)
  {
    match t {
      case Leaf =>
      case Node(l, k, m, r) =>
        var f := if k.finish > finish then Frame(true, k, m, r) else Frame(false, k, m, l);
        assert ([f] + path)[1..] == path;
        DescendIs(if k.finish > finish then l else r, finish, [f] + path);
    }
  }

  ghost predicate Sorted(ks: seq<Key>) {
    forall i, j :: 0 <= i < j < |ks| ==> ks[i].finish <= ks[j].finish
  }

  ghost predicate AtMost(ks: seq<Key>, x: int) {
    forall i :: 0 <= i < |ks| ==> ks[i].finish <= x
  }

  ghost predicate Above(ks: seq<Key>, x: int) {
    forall i :: 0 <= i < |ks| ==> ks[i].finish > x
  }

  lemma SortedParts(a: seq<Key>, k: Key, b: seq<Key>)
    requires Sorted(a + [k] + b)
    ensures Sorted(a) && Sorted(b) && AtMost(a, k.finish)
    ensures forall i :: 0 <= i < |b| ==> k.finish <= b[i].finish
  {
    var c := a + [k] + b;
    assert c[|a|] == k;
    assert forall i :: 0 <= i < |a| ==> c[i] == a[i];
    forall i | 0 <= i < |b| ensures k.finish <= b[i].finish { assert c[|a| + 1 + i] == b[i]; }
    forall i, j | 0 <= i < j < |b| ensures b[i].finish <= b[j].finish {
      assert c[|a| + 1 + i] == b[i] && c[|a| + 1 + j] == b[j];
    }
  }

  /** The place found on the way down: everything before it finishes no later, everything after it later. */
  lemma {:induction false} DescendOrder(t: Tree, finish: int, path: seq<Frame>)
    requires Sorted(Inorder(t)) && AtMost(LeftOf(path), finish) && Above(RightOf(path), finish)
    ensures var path' := Descend(t, finish, path); AtMost(LeftOf(path'), finish) && Above(RightOf(path'), finish)
  {
    match t {
      case Leaf =>
      case Node(l, k, m, r) =>
        SortedParts(Inorder(l), k, Inorder(r));
        if k.finish > finish {
          var f := Frame(true, k, m, r);
          assert ([f] + path)[1..] == path;
          DescendOrder(l, finish, [f] + path);
        } else {
          var f := Frame(false, k, m, l);
          assert ([f] + path)[1..] == path;
          DescendOrder(r, finish, [f] + path);
        }
    }
  }

  /** The update after an insertion starts at a child of the new node if it has any. */
  lemma UpdateInserted(at: Place)
    requires at.t.Node? && AllLocal(at.path) && Local(at.t.left) && Local(at.t.right)
    requires at.t.left.Leaf? <==> at.t.right.Leaf?
    ensures var n := at.t;
            var t := if n.left.Node? then UpdateUp(n.left, [Frame(true, n.key, n.minStart, n.right)] + at.path)
                     else UpdateUp(n, at.path);
            t.Node? && MinOk(t) && Inorder(t) == Around(Inorder(n), at.path)
  {
    var n := at.t;
    if n.left.Node? {
      var f := Frame(true, n.key, n.minStart, n.right);
      UpdateRepairs(n.left, [f] + at.path);
      assert ([f] + at.path)[1..] == at.path;
      assert Wrap(Inorder(n.left), f) == Inorder(n);
    } else {
      UpdateRepairs(n, at.path);
    }
  }

  lemma InsertAround(t: Tree, k: Key, level: nat)
    requires MinOk(t)
    ensures Inorder(Insert(t, k, level)) == Around([k], Descend(t, k.finish, []))
    ensures MinOk(Insert(t, k, level)) && Insert(t, k, level).Node?
  {
    var path, x := Descend(t, k.finish, []), Node(Leaf, k, 0, Leaf);
    DescendIs(t, k.finish, []);
    assert Inorder(x) == [k];
    InsertFixKeeps(x, path, level);
    UpdateInserted(InsertFix(x, path, level));
  }

  /** An insertion adds the entity after all that finish no later and before all that finish later. */
  lemma InsertOk(t: Tree, k: Key, level: nat) returns (u: seq<Key>, v: seq<Key>)
    requires Good(t)
    ensures Inorder(t) == u + v && Inorder(Insert(t, k, level)) == u + [k] + v
    ensures AtMost(u, k.finish) && Above(v, k.finish)
    ensures MinOk(Insert(t, k, level)) && Insert(t, k, level).Node?
  {
    InsertAround(t, k, level);
    DescendIs(t, k.finish, []);
    DescendOrder(t, k.finish, []);
    var path := Descend(t, k.finish, []);
    u, v := LeftOf(path), RightOf(path);
    AroundIs([], path);
    AroundIs([k], path);
    assert u + [] + v == u + v;
  }

  /** What is asked of an active tree. */
  ghost predicate Good(t: Tree) {
    MinOk(t) && Sorted(Inorder(t))
  }

  datatype Change = Add(k: Key, level: nat) | Remove(id: nat, fix: EraseFix)

  function Apply(t: Tree, c: Change): Tree {
    match c
    case Add(k, level) => Insert(t, k, level)
    case Remove(id, fix) => Extract(t, id, fix)
  }

  function ApplyAll(t: Tree, cs: seq<Change>): Tree
    decreases |cs|
  {
    if cs == [] then t else ApplyAll(Apply(t, cs[0]), cs[1..])
  }

  lemma InsertGood(t: Tree, k: Key, level: nat)
    requires Good(t)
    ensures Good(Insert(t, k, level)) && multiset(Inorder(Insert(t, k, level))) == multiset(Inorder(t)) + multiset{k}
  {
    var u, v := InsertOk(t, k, level);
    SortedInsert(u, k, v);
    assert multiset(u + [k] + v) == multiset(u + v) + multiset{k};
  }

  lemma SortedInsert(u: seq<Key>, k: Key, v: seq<Key>)
    requires Sorted(u + v) && AtMost(u, k.finish) && Above(v, k.finish)
    ensures Sorted(u + [k] + v)
  {
    var w, a := u + [k] + v, u + v;
    forall i, j | 0 <= i < j < |w| ensures w[i].finish <= w[j].finish {
      assert i < |u| ==> w[i] == u[i] == a[i];
      assert j < |u| ==> w[j] == u[j] == a[j];
      assert i > |u| ==> w[i] == v[i - |u| - 1] == a[i - 1];
      assert j > |u| ==> w[j] == v[j - |u| - 1] == a[j - 1];
    }
  }

  lemma SortedRemove(u: seq<Key>, k: Key, v: seq<Key>)
    requires Sorted(u + [k] + v)
    ensures Sorted(u + v) && multiset(u + v) == multiset(u + [k] + v) - multiset{k}
  {
    var w, a := u + v, u + [k] + v;
    forall i, j | 0 <= i < j < |w| ensures w[i].finish <= w[j].finish {
      assert w[i] == a[if i < |u| then i else i + 1] && w[j] == a[if j < |u| then j else j + 1];
    }
  }

  lemma ExtractGood(t: Tree, id: nat, fix: EraseFix)
    requires Good(t)
    ensures Good(Extract(t, id, fix))
    ensures (forall k :: k in Inorder(t) ==> k.id != id) ==> Extract(t, id, fix) == t
    ensures (exists k :: k in Inorder(t) && k.id == id) ==>
              exists k :: k in Inorder(t) && k.id == id
                          && multiset(Inorder(Extract(t, id, fix))) == multiset(Inorder(t)) - multiset{k}
  {
    FindIs(t, id, []);
    if exists k :: k in Inorder(t) && k.id == id {
      var u, k, v := ExtractOk(t, id, fix);
      SortedRemove(u, k, v);
      assert k in Inorder(t);
    }
  }

  /** After any insertions and extractions, rebalanced in any way, the tree is in order with right min_start values. */
  lemma {:induction false} AlwaysGood(t: Tree, cs: seq<Change>)
    requires Good(t)
    ensures Good(ApplyAll(t, cs))
    decreases |cs|
  {
    if cs != [] {
      match cs[0] {
        case Add(k, level) => InsertGood(t, k, level);
        case Remove(id, fix) => ExtractGood(t, id, fix);
      }
      AlwaysGood(Apply(t, cs[0]), cs[1..]);
    }
  }
}
