/**
The trees of the scheduler hold exactly the entities that say they are on them, with their current
timestamps; every change of a tree keeps it so.
*/
module Wf2qTrees {
  import opened Options
  import opened ActiveTree
  import opened ActiveTreeProofs
  import opened ActiveSearch
  import opened Wf2qModel

  ghost predicate InTree(t: Tree, k: Key) {
    k in Inorder(t)
  }

  ghost predicate ActiveTreeOk(t: Tree) {
    Good(t) && Distinct(Inorder(t))
  }

  lemma DistinctInsert(u: seq<Key>, k: Key, v: seq<Key>)
    requires Distinct(u + v) && forall x :: x in u + v ==> x.id != k.id
    ensures Distinct(u + [k] + v)
  {
    var w, a := u + [k] + v, u + v;
    forall i, j | 0 <= i < j < |w| ensures w[i].id != w[j].id {
      assert i != |u| ==> w[i] == a[if i < |u| then i else i - 1];
      assert j != |u| ==> w[j] == a[if j < |u| then j else j - 1];
    }
  }

  lemma DistinctRemove(u: seq<Key>, k: Key, v: seq<Key>)
    requires Distinct(u + [k] + v)
    ensures Distinct(u + v) && forall x :: x in u + v <==> x in u + [k] + v && x.id != k.id
  {
    var w, a := u + v, u + [k] + v;
    forall i | 0 <= i < |w| ensures w[i] == a[if i < |u| then i else i + 1] {}
    assert a[|u|] == k;
    forall x | x in a && x.id != k.id ensures x in w {
      var i :| 0 <= i < |a| && a[i] == x;
      assert x == w[if i < |u| then i else i - 1];
    }
  }

  lemma InsertKeys(t: Tree, k: Key, level: nat)
    requires ActiveTreeOk(t) && forall x :: InTree(t, x) ==> x.id != k.id
    ensures ActiveTreeOk(Insert(t, k, level)) && Insert(t, k, level).Node?
    ensures forall x :: InTree(Insert(t, k, level), x) <==> InTree(t, x) || x == k
  {
    var u, v := InsertOk(t, k, level);
    InsertGood(t, k, level);
    assert forall x :: x in u + v ==> InTree(t, x);
    DistinctInsert(u, k, v);
  }

  lemma ExtractKeys(t: Tree, id: nat, fix: EraseFix)
    requires ActiveTreeOk(t) && exists x :: InTree(t, x) && x.id == id
    ensures ActiveTreeOk(Extract(t, id, fix))
    ensures forall x :: InTree(Extract(t, id, fix), x) <==> InTree(t, x) && x.id != id
  {
    var x :| InTree(t, x) && x.id == id;
    assert x in Inorder(t);
    var u, k, v := ExtractOk(t, id, fix);
    ExtractGood(t, id, fix);
    DistinctRemove(u, k, v);
  }

  // ----- one class -----

  /** The active tree of class c and entity i agree. */
  ghost predicate ActiveAgrees(s: Sched, c: nat, i: nat)
    requires |s.st| == CLASSES && c < CLASSES && i < |s.es|
  {
    && (s.es[i].at == OnActive && s.es[i].cls == c ==> InTree(s.st[c].active, KeyOf(s, i)))
    && (forall k :: InTree(s.st[c].active, k) && k.id == i ==>
          k == KeyOf(s, i) && s.es[i].at == OnActive && s.es[i].cls == c)
  }

  ghost predicate IdleAgrees(s: Sched, c: nat, i: nat)
    requires |s.st| == CLASSES && c < CLASSES && i < |s.es|
  {
    s.es[i].at == OnIdle && s.es[i].cls == c <==> i in s.st[c].idle
  }

  ghost predicate NoDup(q: seq<nat>) {
    forall i, j :: 0 <= i < j < |q| ==> q[i] != q[j]
  }

  /** The idle tree of a class: in order of finish time, with first_idle its first entity. */
  ghost predicate IdleOk(s: Sched, c: nat)
    requires |s.st| == CLASSES && c < CLASSES
  {
    var t := s.st[c];
    && NoDup(t.idle) && Listed(s.es, t.idle) && ByFinish(s.es, t.idle)
    && t.firstIdle == (if t.idle == [] then None else Some(t.idle[0]))
    && (t.lastIdle.Some? ==> t.lastIdle.value in t.idle)
  }

  ghost predicate ClassOk(s: Sched, c: nat)
    requires |s.st| == CLASSES && c < CLASSES
  {
    && ActiveTreeOk(s.st[c].active)
    && (forall k :: InTree(s.st[c].active, k) ==> k.id < |s.es|)
    && IdleOk(s, c)
    && forall i :: 0 <= i < |s.es| ==> ActiveAgrees(s, c, i) && IdleAgrees(s, c, i)
  }

  ghost predicate TreesOk(s: Sched) {
    Shape(s) && forall c :: 0 <= c < CLASSES ==> ClassOk(s, c)
  }

  // ----- what keeps the trees as they are -----

  /** Entities keep what the trees depend on. */
  ghost predicate SameKeys(a: Entity, b: Entity) {
    a.start == b.start && a.finish == b.finish && a.cls == b.cls && a.at == b.at
  }

  ghost predicate SameTree(a: ServiceTree, b: ServiceTree) {
    a.active == b.active && a.idle == b.idle && a.firstIdle == b.firstIdle && a.lastIdle == b.lastIdle
  }

  lemma TreesFrame(s: Sched, s': Sched)
    requires TreesOk(s) && Shape(s') && |s'.es| == |s.es|
    requires forall i :: 0 <= i < |s.es| ==> SameKeys(s.es[i], s'.es[i])
    requires forall c :: 0 <= c < CLASSES ==> SameTree(s.st[c], s'.st[c])
    ensures TreesOk(s')
  {
    forall c | 0 <= c < CLASSES ensures ClassOk(s', c) {
      assert ClassOk(s, c) && SameTree(s.st[c], s'.st[c]);
      forall i | 0 <= i < |s.es| ensures ActiveAgrees(s', c, i) && IdleAgrees(s', c, i) {
        assert ActiveAgrees(s, c, i) && IdleAgrees(s, c, i) && SameKeys(s.es[i], s'.es[i]);
      }
      assert forall j :: 0 <= j < |s.st[c].idle| ==> SameKeys(s.es[s.st[c].idle[j]], s'.es[s.st[c].idle[j]]);
    }
  }

  /** An entity on no tree can be given any timestamps and any class. */
  lemma SetOffTree(s: Sched, i: nat, e: Entity)
    requires TreesOk(s) && i < |s.es| && s.es[i].at == Nowhere && e.at == Nowhere && Shape(SetE(s, i, e))
    ensures TreesOk(SetE(s, i, e))
  {
    var s' := SetE(s, i, e);
    forall c | 0 <= c < CLASSES ensures ClassOk(s', c) {
      assert ClassOk(s, c);
      forall j | 0 <= j < |s.es| ensures ActiveAgrees(s', c, j) && IdleAgrees(s', c, j) {
        assert ActiveAgrees(s, c, j) && IdleAgrees(s, c, j);
      }
      assert IdleAgrees(s, c, i);
      assert i !in s.st[c].idle;
      IdleOther(s, s', c, i);
    }
  }

  /** Changing an entity that is not idle leaves the idle trees in order. */
  lemma IdleOther(s: Sched, s': Sched, c: nat, i: nat)
    requires |s.st| == CLASSES == |s'.st| && c < CLASSES && IdleOk(s, c)
    requires |s'.es| == |s.es| && i !in s.st[c].idle
    requires forall j :: 0 <= j < |s.es| && j != i ==> s'.es[j].finish == s.es[j].finish
    requires s'.st[c].idle == s.st[c].idle && s'.st[c].firstIdle == s.st[c].firstIdle
    requires s'.st[c].lastIdle == s.st[c].lastIdle
    ensures IdleOk(s', c)
  {
    assert forall j :: 0 <= j < |s.st[c].idle| ==> s.st[c].idle[j] != i;
  }

  lemma ActiveInsertTrees(s: Sched, i: nat, level: nat)
    requires TreesOk(s) && i < |s.es| && s.es[i].at == Nowhere
    ensures TreesOk(ActiveInsert(s, i, level))
    ensures ActiveInsert(s, i, level).st[s.es[i].cls].active.Node?
  {
    var s', ci := ActiveInsert(s, i, level), s.es[i].cls;
    var t, k := s.st[ci].active, KeyOf(s, i);
    assert ClassOk(s, ci);
    forall x | InTree(t, x) ensures x.id != i { assert ActiveAgrees(s, ci, i); }
    InsertKeys(t, k, level);
    forall c | 0 <= c < CLASSES ensures ClassOk(s', c) {
      assert ClassOk(s, c);
      forall j | 0 <= j < |s.es| ensures ActiveAgrees(s', c, j) && IdleAgrees(s', c, j) {
        assert ActiveAgrees(s, c, j) && IdleAgrees(s, c, j);
        assert KeyOf(s', j) == KeyOf(s, j);
      }
      assert IdleAgrees(s, c, i);
      IdleOther(s, s', c, i);
    }
  }

  lemma ActiveExtractTrees(s: Sched, i: nat, fix: EraseFix)
    requires TreesOk(s) && i < |s.es| && s.es[i].at == OnActive
    ensures TreesOk(ActiveExtract(s, i, fix))
  {
    var s', ci := ActiveExtract(s, i, fix), s.es[i].cls;
    var t := s.st[ci].active;
    assert ClassOk(s, ci) && ActiveAgrees(s, ci, i);
    assert InTree(t, KeyOf(s, i));
    ExtractKeys(t, i, fix);
    forall c | 0 <= c < CLASSES ensures ClassOk(s', c) {
      assert ClassOk(s, c);
      forall j | 0 <= j < |s.es| ensures ActiveAgrees(s', c, j) && IdleAgrees(s', c, j) {
        assert ActiveAgrees(s, c, j) && IdleAgrees(s, c, j);
        assert KeyOf(s', j) == KeyOf(s, j);
      }
      assert IdleAgrees(s, c, i);
      IdleOther(s, s', c, i);
    }
  }

  ghost predicate Listed(es: seq<Entity>, q: seq<nat>) {
    forall j :: 0 <= j < |q| ==> q[j] < |es|
  }

  ghost predicate ByFinish(es: seq<Entity>, q: seq<nat>)
    requires Listed(es, q)
  {
    forall j, k :: 0 <= j < k < |q| ==> es[q[j]].finish <= es[q[k]].finish
  }

  lemma {:induction false} IdlePosIs(es: seq<Entity>, q: seq<nat>, finish: int)
    requires Listed(es, q) && ByFinish(es, q)
    ensures var p := IdlePos(es, q, finish);
            && (forall j :: 0 <= j < p ==> es[q[j]].finish <= finish)
            && (forall j :: p <= j < |q| ==> es[q[j]].finish > finish)
  {
    if q != [] {
      var r := q[1..];
      assert forall j :: 0 < j < |q| ==> q[j] == r[j - 1];
      if es[q[0]].finish <= finish {
        IdlePosIs(es, r, finish);
        var p := IdlePos(es, r, finish);
        forall j | p + 1 <= j < |q| ensures es[q[j]].finish > finish { assert q[j] == r[j - 1]; }
      }
    }
  }

  lemma PutIn(es: seq<Entity>, q: seq<nat>, p: nat, i: nat)
    requires Listed(es, q) && ByFinish(es, q) && NoDup(q) && p <= |q| && i < |es| && i !in q
    requires forall j :: 0 <= j < p ==> es[q[j]].finish <= es[i].finish
    requires forall j :: p <= j < |q| ==> es[q[j]].finish > es[i].finish
    ensures var w := q[..p] + [i] + q[p..]; Listed(es, w) && ByFinish(es, w) && NoDup(w)
    ensures forall x :: x in q[..p] + [i] + q[p..] <==> x in q || x == i
  {
    PutInSame(q, p, i);
    var w := q[..p] + [i] + q[p..];
    forall j, k | 0 <= j < k < |w| ensures es[w[j]].finish <= es[w[k]].finish && w[j] != w[k] {}
  }

  lemma PutInSame(q: seq<nat>, p: nat, i: nat)
    requires p <= |q|
    ensures var w := q[..p] + [i] + q[p..];
            && w[p] == i && (forall j :: 0 <= j < |w| && j != p ==> w[j] == q[if j < p then j else j - 1])
            && forall x :: x in w <==> x in q || x == i
  {
    var w := q[..p] + [i] + q[p..];
    forall x | x in q ensures x in w {
      var j :| 0 <= j < |q| && q[j] == x;
      assert w[if j < p then j else j + 1] == x;
    }
  }

  lemma TakeOut(es: seq<Entity>, q: seq<nat>, p: nat)
    requires Listed(es, q) && ByFinish(es, q) && NoDup(q) && p < |q|
    ensures var w := q[..p] + q[p + 1..]; Listed(es, w) && ByFinish(es, w) && NoDup(w)
    ensures forall x :: x in q[..p] + q[p + 1..] <==> x in q && x != q[p]
  {
    var w := q[..p] + q[p + 1..];
    forall j | 0 <= j < |w| ensures w[j] == q[if j < p then j else j + 1] {}
    forall x | x in q && x != q[p] ensures x in w {
      var j :| 0 <= j < |q| && q[j] == x;
      assert w[if j < p then j else j - 1] == x;
    }
  }

  /** A class other than the entity's own does not notice where the entity goes. */
  lemma OtherClass(s: Sched, s': Sched, c: nat, i: nat)
    requires TreesOk(s) && Shape(s') && c < CLASSES && i < |s.es| && s.es[i].cls != c && s'.st[c] == s.st[c]
    requires exists w :: s'.es == s.es[i := s.es[i].(at := w)]
    ensures ClassOk(s', c)
  {
    assert ClassOk(s, c);
    forall j | 0 <= j < |s.es| ensures ActiveAgrees(s', c, j) && IdleAgrees(s', c, j) {
      assert ActiveAgrees(s, c, j) && IdleAgrees(s, c, j);
      assert KeyOf(s', j) == KeyOf(s, j);
    }
    assert IdleAgrees(s, c, i);
    IdleOther(s, s', c, i);
  }

  lemma IdleInsertTrees(s: Sched, i: nat)
    requires TreesOk(s) && i < |s.es| && s.es[i].at == Nowhere
    ensures TreesOk(IdleInsert(s, i))
  {
    var s', ci := IdleInsert(s, i), s.es[i].cls;
    var q := s.st[ci].idle;
    var p := IdlePos(s.es, q, s.es[i].finish);
    assert ClassOk(s, ci) && IdleAgrees(s, ci, i);
    IdlePosIs(s.es, q, s.es[i].finish);
    PutIn(s.es, q, p, i);
    assert s'.st[ci].idle == q[..p] + [i] + q[p..];
    assert forall j :: 0 <= j < |s.es| ==> s'.es[j].finish == s.es[j].finish;
    forall c | 0 <= c < CLASSES ensures ClassOk(s', c) {
      if c == ci {
        forall j | 0 <= j < |s.es| ensures ActiveAgrees(s', c, j) && IdleAgrees(s', c, j) {
          assert ActiveAgrees(s, c, j) && IdleAgrees(s, c, j);
          assert KeyOf(s', j) == KeyOf(s, j);
        }
      } else {
        assert s'.es == s.es[i := s.es[i].(at := OnIdle)];
        OtherClass(s, s', c, i);
      }
    }
  }

  lemma IdleExtractTrees(s: Sched, i: nat)
    requires TreesOk(s) && i < |s.es| && s.es[i].at == OnIdle
    ensures TreesOk(IdleExtract(s, i))
  {
    var s', ci := IdleExtract(s, i), s.es[i].cls;
    var q := s.st[ci].idle;
    assert ClassOk(s, ci) && IdleAgrees(s, ci, i);
    var p := IndexOf(q, i);
    TakeOut(s.es, q, p);
    assert s'.st[ci].idle == q[..p] + q[p + 1..];
    assert forall j :: 0 <= j < |s.es| ==> s'.es[j].finish == s.es[j].finish;
    forall c | 0 <= c < CLASSES ensures ClassOk(s', c) {
      if c == ci {
        forall j | 0 <= j < |s.es| ensures ActiveAgrees(s', c, j) && IdleAgrees(s', c, j) {
          assert ActiveAgrees(s, c, j) && IdleAgrees(s, c, j);
          assert KeyOf(s', j) == KeyOf(s, j);
        }
      } else {
        assert s'.es == s.es[i := s.es[i].(at := Nowhere)];
        OtherClass(s, s', c, i);
      }
    }
  }
}
