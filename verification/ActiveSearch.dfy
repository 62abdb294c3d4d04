/**
bfq_first_active_entity: the walk down the active tree for an eligible entity. It always finds one when
there is one. It misses the smallest finish time exactly when, on the way down to the first eligible
entity, a right turn lies below an eligible node that finishes later: having seen that node, the walk gives
up at the turn.
*/
module ActiveSearch {
  import opened Options
  import opened ActiveTree
  import opened ActiveTreeProofs

  function Search(t: Tree, vtime: int, first: Option<Key>): Option<Key> {
    if t.Leaf? then first
    else
      var first' := if t.key.start <= vtime then Some(t.key) else first;
      if t.left.Node? && t.left.minStart <= vtime then Search(t.left, vtime, first')
      else if first'.Some? then first'
      else Search(t.right, vtime, first')
  }

  /** The eligible entity with the smallest finish time: the first one in order. */
  function FirstEligible(ks: seq<Key>, vtime: int): Option<Key> {
    if ks == [] then None
    else if ks[0].start <= vtime then Some(ks[0])
    else FirstEligible(ks[1..], vtime)
  }

  /** Some entity of the tree is eligible at the root's min_start and later, and the walk returns such a one. */
  lemma {:induction false} SearchEligible(t: Tree, vtime: int, first: Option<Key>)
    requires t.Node? && MinOk(t) && t.minStart <= vtime
    requires first.Some? ==> first.value.start <= vtime
    ensures var k := Search(t, vtime, first);
            k.Some? && k.value.start <= vtime && (k == first || k.value in Inorder(t))
  {
    var first' := if t.key.start <= vtime then Some(t.key) else first;
    assert t.key in Inorder(t);
    if t.left.Node? && t.left.minStart <= vtime {
      SearchEligible(t.left, vtime, first');
    } else if first'.None? {
      SearchEligible(t.right, vtime, first');
    }
  }

  lemma {:induction false} FirstEligibleConcat(a: seq<Key>, b: seq<Key>, vtime: int)
    ensures FirstEligible(a + b, vtime)
            == if FirstEligible(a, vtime).Some? then FirstEligible(a, vtime) else FirstEligible(b, vtime)
  {
    if a == [] {
      assert a + b == b;
    } else {
      FirstEligibleConcat(a[1..], b, vtime);
      assert (a + b)[1..] == a[1..] + b;
    }
  }

  lemma {:induction false} FirstEligibleIs(ks: seq<Key>, vtime: int)
    ensures var k := FirstEligible(ks, vtime);
            && (k.None? <==> forall i :: 0 <= i < |ks| ==> ks[i].start > vtime)
            && (k.Some? ==> k.value in ks && k.value.start <= vtime)
            && (k.Some? && Sorted(ks) ==> forall i :: 0 <= i < |ks| && ks[i].start <= vtime ==>
                  k.value.finish <= ks[i].finish)
  {
    if ks != [] {
      FirstEligibleIs(ks[1..], vtime);
      assert forall i :: 0 < i < |ks| ==> ks[i] == ks[1..][i - 1];
      if Sorted(ks) {
        assert Sorted(ks[1..]);
      }
    }
  }

  lemma NodeFirst(t: Tree, vtime: int)
    requires t.Node?
    ensures FirstEligible(Inorder(t), vtime) ==
            if FirstEligible(Inorder(t.left), vtime).Some? then FirstEligible(Inorder(t.left), vtime)
            else if t.key.start <= vtime then Some(t.key)
            else FirstEligible(Inorder(t.right), vtime)
  {
    FirstEligibleConcat(Inorder(t.left) + [t.key], Inorder(t.right), vtime);
    FirstEligibleConcat(Inorder(t.left), [t.key], vtime);
    assert [t.key][1..] == [];
    assert FirstEligible([], vtime) == None;
  }

  /** min_start tells whether a subtree holds an eligible entity. */
  lemma MinTells(t: Tree, vtime: int)
    requires MinOk(t)
    ensures FirstEligible(Inorder(t), vtime).Some? <==> t.Node? && t.minStart <= vtime
  {
    FirstEligibleIs(Inorder(t), vtime);
    if t.Node? {
      MinIsLeast(t);
      if t.minStart <= vtime {
        var k :| k in Inorder(t) && k.start == t.minStart;
        var i :| 0 <= i < |Inorder(t)| && Inorder(t)[i] == k;
      }
    }
  }

  ghost predicate Distinct(ks: seq<Key>) {
    forall i, j :: 0 <= i < j < |ks| ==> ks[i].id != ks[j].id
  }

  // ----- exactly what the walk finds -----

  ghost predicate HasEligible(ks: seq<Key>, vtime: int) {
    exists k :: k in ks && k.start <= vtime
  }

  lemma HasEligibleIs(ks: seq<Key>, vtime: int)
    ensures HasEligible(ks, vtime) <==> FirstEligible(ks, vtime).Some?
  {
    FirstEligibleIs(ks, vtime);
  }

  /** A node passed on a way down, and the side taken there. */
  datatype Turn = Turn(key: Key, right: bool)

  /** The way from the root to the first eligible entity in order of finish time. */
  ghost function Way(t: Tree, vtime: int): seq<Turn> {
    if t.Leaf? then []
    else if HasEligible(Inorder(t.left), vtime) then [Turn(t.key, false)] + Way(t.left, vtime)
    else if t.key.start <= vtime then []
    else [Turn(t.key, true)] + Way(t.right, vtime)
  }

  /** The lowest eligible node above the first right turn that has one above it. */
  function Blocker(way: seq<Turn>, vtime: int, above: Option<Key>): Option<Key> {
    if way == [] then None
    else if !way[0].right then Blocker(way[1..], vtime, if way[0].key.start <= vtime then Some(way[0].key) else above)
    else if above.Some? then above
    else Blocker(way[1..], vtime, None)
  }

  lemma {:induction false} SearchFrom(t: Tree, vtime: int, first: Option<Key>)
    requires MinOk(t) && HasEligible(Inorder(t), vtime)
    ensures var b := Blocker(Way(t, vtime), vtime, first);
            Search(t, vtime, first) == if b.Some? then b else FirstEligible(Inorder(t), vtime)
  {
    HasEligibleIs(Inorder(t), vtime);
    assert t.Node?;
    NodeFirst(t, vtime);
    MinTells(t.left, vtime);
    MinTells(t.right, vtime);
    HasEligibleIs(Inorder(t.left), vtime);
    HasEligibleIs(Inorder(t.right), vtime);
    var first' := if t.key.start <= vtime then Some(t.key) else first;
    if HasEligible(Inorder(t.left), vtime) {
      SearchFrom(t.left, vtime, first');
      assert Way(t, vtime)[1..] == Way(t.left, vtime);
    } else if t.key.start > vtime {
      assert Way(t, vtime)[1..] == Way(t.right, vtime);
      if first.None? { SearchFrom(t.right, vtime, None); }
    }
  }

  lemma {:induction false} SearchNone(t: Tree, vtime: int)
    requires MinOk(t) && !HasEligible(Inorder(t), vtime)
    ensures Search(t, vtime, None).None?
  {
    if t.Node? {
      HasEligibleIs(Inorder(t), vtime);
      NodeFirst(t, vtime);
      MinTells(t.left, vtime);
      HasEligibleIs(Inorder(t.right), vtime);
      SearchNone(t.right, vtime);
    }
  }

  /** No eligible entity of the tree finishes earlier. */
  ghost predicate Smallest(k: Option<Key>, ks: seq<Key>, vtime: int) {
    k.Some? && forall e :: e in ks && e.start <= vtime ==> k.value.finish <= e.finish
  }

  /**
  What the walk returns has the smallest eligible finish time if and only if no node blocks the way to the
  first eligible entity, or the one that does finishes no later.
  */
  lemma SearchExact(t: Tree, vtime: int)
    requires Good(t) && HasEligible(Inorder(t), vtime)
    ensures FirstEligible(Inorder(t), vtime).Some?
    ensures var b, f := Blocker(Way(t, vtime), vtime, None), FirstEligible(Inorder(t), vtime).value;
            Smallest(Search(t, vtime, None), Inorder(t), vtime) <==> b.None? || b.value.finish <= f.finish
  {
    HasEligibleIs(Inorder(t), vtime);
    SearchFrom(t, vtime, None);
    var ks, f := Inorder(t), FirstEligible(Inorder(t), vtime).value;
    FirstEligibleIs(ks, vtime);
    forall e | e in ks && e.start <= vtime ensures f.finish <= e.finish {
      var i :| 0 <= i < |ks| && ks[i] == e;
    }
  }

  const K1 := Key(1, 9, 10)
  const K2 := Key(2, 9, 20)
  const K3 := Key(3, 0, 30)
  const K4 := Key(4, 0, 40)
  const K5 := Key(5, 9, 50)
  const K6 := Key(6, 9, 60)
  const K7 := Key(7, 9, 70)

  function One(k: Key): Tree {
    Node(Leaf, k, k.start, Leaf)
  }

  /** A perfectly balanced tree in which the walk returns finish time 40 though 30 is eligible. */
  function Missed(): Tree {
    Node(Node(One(K1), K2, 0, One(K3)), K4, 0, Node(One(K5), K6, 9, One(K7)))
  }

  /** The frame with its sibling's min_start set again. */
  function Redone(f: Frame): Frame {
    f.(sibling := Recalc(f.sibling))
  }

  /** Insertions without rotations at the root, one step down and two steps down. */
  lemma InsertFirst(k: Key)
    ensures Insert(Leaf, k, 9) == One(k)
  {
    assert Descend(Leaf, k.finish, []) == [];
  }

  lemma InsertBelow(k: Key, f: Frame)
    requires f.onLeft == (f.key.finish > k.finish)
    ensures Insert(Plug(Leaf, f), k, 9) == Recalc(Plug(One(k), Redone(f)))
  {
    assert Descend(Plug(Leaf, f), k.finish, []) == [f];
    assert [f][1..] == [];
    assert UpdateUp(Node(Leaf, k, 0, Leaf), [f]) == UpdateUp(Plug(One(k), Redone(f)), []);
  }

  lemma InsertTwoBelow(k: Key, f: Frame, g: Frame)
    requires f.onLeft == (f.key.finish > k.finish) && g.onLeft == (g.key.finish > k.finish)
    ensures Insert(Plug(Plug(Leaf, f), g), k, 9) == Recalc(Plug(Recalc(Plug(One(k), Redone(f))), Redone(g)))
  {
    assert [g] + [] == [g] && [f] + [g] == [f, g];
    assert Descend(Plug(Leaf, f), k.finish, [g]) == [f, g];
    assert Descend(Plug(Plug(Leaf, f), g), k.finish, []) == [f, g];
    assert [f, g][1..] == [g] && [g][1..] == [];
    assert UpdateUp(Node(Leaf, k, 0, Leaf), [f, g]) == UpdateUp(Plug(One(k), Redone(f)), [g]);
    assert UpdateUp(Plug(One(k), Redone(f)), [g]) == UpdateUp(Plug(Recalc(Plug(One(k), Redone(f))), Redone(g)), []);
  }

  /** What ApplyAll does with one change more. */
  lemma {:induction false} ApplyLast(t: Tree, cs: seq<Change>, c: Change)
    ensures ApplyAll(t, cs + [c]) == Apply(ApplyAll(t, cs), c)
    decreases |cs|
  {
    if cs == [] {
      assert [c][1..] == [] && [] + [c] == [c];
    } else {
      ApplyLast(Apply(t, cs[0]), cs[1..], c);
      assert (cs + [c])[1..] == cs[1..] + [c];
    }
  }

  lemma Built(cs: seq<Change>, t: Tree, k: Key) returns (cs': seq<Change>)
    requires ApplyAll(Leaf, cs) == t
    ensures ApplyAll(Leaf, cs') == Insert(t, k, 9)
  {
    cs' := cs + [Add(k, 9)];
    ApplyLast(Leaf, cs, Add(k, 9));
  }

  /** Insertions level by level, which need no rotation, build that tree. */
  lemma MissedIsBuilt() returns (cs: seq<Change>)
    ensures ApplyAll(Leaf, cs) == Missed()
  {
    var l := Missed().left;
    InsertFirst(K4);
    cs := Built([], Leaf, K4);
    InsertBelow(K2, Frame(true, K4, 0, Leaf));
    cs := Built(cs, One(K4), K2);
    InsertBelow(K6, Frame(false, K4, 0, One(K2)));
    cs := Built(cs, Node(One(K2), K4, 0, Leaf), K6);
    InsertTwoBelow(K1, Frame(true, K2, 9, Leaf), Frame(true, K4, 0, One(K6)));
    cs := Built(cs, Node(One(K2), K4, 0, One(K6)), K1);
    InsertTwoBelow(K3, Frame(false, K2, 9, One(K1)), Frame(true, K4, 0, One(K6)));
    cs := Built(cs, Node(Node(One(K1), K2, 9, Leaf), K4, 0, One(K6)), K3);
    InsertTwoBelow(K5, Frame(true, K6, 9, Leaf), Frame(false, K4, 0, l));
    cs := Built(cs, Node(l, K4, 0, One(K6)), K5);
    InsertTwoBelow(K7, Frame(false, K6, 9, One(K5)), Frame(false, K4, 0, l));
    cs := Built(cs, Node(l, K4, 0, Node(One(K5), K6, 9, Leaf)), K7);
  }

  lemma SearchMisses()
    ensures Good(Missed()) && Search(Missed(), 0, None) == Some(K4)
    ensures !Smallest(Search(Missed(), 0, None), Inorder(Missed()), 0)
  {
    var t := Missed();
    assert MinOk(t.left.left) && MinOk(t.left.right) && MinOk(t.right.left) && MinOk(t.right.right);
    assert MinOk(t.left) && MinOk(t.right);
    assert Inorder(t.left) == [K1, K2, K3];
    assert Inorder(t.right) == [K5, K6, K7];
    var ks := [K1, K2, K3, K4, K5, K6, K7];
    assert Inorder(t) == ks;
    assert ks[2] == K3;
  }

  /** With equal finish times the way can be blocked and the walk still be right. */
  lemma BlockedByTie()
    ensures var t := Node(Node(Leaf, Key(2, 9, 20), 0, Node(Leaf, Key(3, 0, 30), 0, Leaf)), Key(4, 0, 30), 0, Leaf);
            Blocker(Way(t, 0), 0, None) == Some(Key(4, 0, 30)) && Smallest(Search(t, 0, None), Inorder(t), 0)
  {
    var r := Node(Leaf, Key(3, 0, 30), 0, Leaf);
    var l := Node(Leaf, Key(2, 9, 20), 0, r);
    var t := Node(l, Key(4, 0, 30), 0, Leaf);
    assert Inorder(r) == [Key(3, 0, 30)];
    assert Inorder(l) == [Key(2, 9, 20), Key(3, 0, 30)];
    assert Inorder(t) == [Key(2, 9, 20), Key(3, 0, 30), Key(4, 0, 30)];
    assert Key(3, 0, 30) in Inorder(l);
    assert !HasEligible(Inorder(l.left), 0);
    assert Way(r, 0) == [];
    assert Way(l, 0) == [Turn(Key(2, 9, 20), true)];
    assert Way(t, 0) == [Turn(Key(4, 0, 30), false), Turn(Key(2, 9, 20), true)];
    assert Way(t, 0)[1..] == [Turn(Key(2, 9, 20), true)];
  }
}
