/**
__blkg_lookup_create: the blkgs of one request queue for a tree of cgroups. A cgroup's blkg is known by
the cgroup; blkgs[c] is the blkg that c's blkg has as its parent.
*/
module BlkgHierarchy {
  import opened Options
  import opened Links

  /** The cgroups form one tree. */
  ghost predicate Tree(parents: seq<Option<nat>>, root: nat) {
    && Forest(parents) && root < |parents|
    && forall c :: 0 <= c < |parents| ==> (parents[c].None? <==> c == root)
  }

  /** The parent of c's blkg, if it has one, is the blkg of c's parent. */
  ghost predicate Linked(parents: seq<Option<nat>>, blkgs: map<nat, Option<nat>>, c: nat) {
    c in blkgs ==> c < |parents| && blkgs[c] == parents[c] && (blkgs[c].Some? ==> blkgs[c].value in blkgs)
  }

  /** The set of cgroups with a blkg holds the root and is closed under parent. */
  ghost predicate Closed(parents: seq<Option<nat>>, root: nat, blkgs: map<nat, Option<nat>>) {
    root in blkgs && forall c: nat {:trigger Linked(parents, blkgs, c)} :: Linked(parents, blkgs, c)
  }

  lemma {:induction false} ClosedUp(parents: seq<Option<nat>>, root: nat, blkgs: map<nat, Option<nat>>, c: nat, k: nat)
    requires Closed(parents, root, blkgs) && c in blkgs && Up(parents, c, k).Some?
    ensures Up(parents, c, k).value in blkgs
    decreases k
  {
    assert Linked(parents, blkgs, c);
    if k > 0 { ClosedUp(parents, root, blkgs, parents[c].value, k - 1); }
  }

  /** Having a blkg passes on to every ancestor. */
  lemma ClosedUnder(parents: seq<Option<nat>>, root: nat, blkgs: map<nat, Option<nat>>, c: nat, a: nat)
    requires Closed(parents, root, blkgs) && c in blkgs && Under(parents, c, a)
    ensures a in blkgs
  {
    var k: nat :| Up(parents, c, k) == Some(a);
    ClosedUp(parents, root, blkgs, c, k);
  }

  /** r is the closest cgroup at or above c that has a blkg. */
  ghost predicate Closest(parents: seq<Option<nat>>, blkgs: map<nat, Option<nat>>, c: nat, r: nat) {
    && r in blkgs && Under(parents, c, r)
    && forall x :: x in blkgs && Under(parents, c, x) ==> Under(parents, r, x)
  }

  lemma PathIsLinear(next: seq<Option<nat>>, c: nat, x: nat, y: nat)
    requires Under(next, c, x) && Under(next, c, y)
    ensures Under(next, x, y) || Under(next, y, x)
  {
    var k: nat :| Up(next, c, k) == Some(x);
    var m: nat :| Up(next, c, m) == Some(y);
    if k <= m {
      UpThen(next, c, k, m - k);
      assert Up(next, x, m - k) == Some(y);
    } else {
      UpThen(next, c, m, k - m);
      assert Up(next, y, k - m) == Some(x);
    }
  }

  /** Nothing from c up to pos has a blkg, and pos's parent has one: that is the closest. */
  lemma ParentIsClosest(parents: seq<Option<nat>>, root: nat, blkgs: map<nat, Option<nat>>, c: nat, pos: nat)
    requires Closed(parents, root, blkgs) && pos < |parents| && Under(parents, c, pos)
    requires pos !in blkgs && parents[pos].Some? && parents[pos].value in blkgs
    ensures Closest(parents, blkgs, c, parents[pos].value)
  {
    var r := parents[pos].value;
    assert Linked(parents, blkgs, r);
    UnderNext(parents, pos);
    UnderTrans(parents, c, pos, r);
    forall x | x in blkgs && Under(parents, c, x) ensures Under(parents, r, x) {
      PathIsLinear(parents, c, x, pos);
      if Under(parents, x, pos) { ClosedUnder(parents, root, blkgs, x, pos); }
      UnderStep(parents, pos, x);
    }
  }

  ghost function Missing(parents: seq<Option<nat>>, blkgs: map<nat, Option<nat>>, c: nat): set<nat> {
    set x | 0 <= x < |parents| && Under(parents, c, x) && x !in blkgs
  }

  /** Only cgroups at or above c got a blkg. */
  ghost predicate OnPath(parents: seq<Option<nat>>, was: map<nat, Option<nat>>, now: map<nat, Option<nat>>, c: nat) {
    && (forall x :: x in was ==> x in now)
    && (forall x :: x in now ==> x in was || Under(parents, c, x))
  }

  lemma MissingFilled(parents: seq<Option<nat>>, blkgs: map<nat, Option<nat>>, c: nat, pos: nat, o: Option<nat>)
    requires pos < |parents| && pos !in blkgs && Under(parents, c, pos)
    ensures Missing(parents, blkgs[pos := o], c) < Missing(parents, blkgs, c)
  {
    assert pos in Missing(parents, blkgs, c) && pos !in Missing(parents, blkgs[pos := o], c);
  }

  /** Whatever was there, and the whole path above r: what a lookup that ends in r leaves behind. */
  ghost predicate FilledTo(parents: seq<Option<nat>>, was: map<nat, Option<nat>>, now: map<nat, Option<nat>>, r: nat) {
    forall x: nat :: x in now <==> x in was || (x < |parents| && Under(parents, r, x))
  }

  lemma ClosestFilled(parents: seq<Option<nat>>, root: nat, was: map<nat, Option<nat>>, now: map<nat, Option<nat>>,
                      c: nat, r: nat)
    requires Closed(parents, root, now) && Closest(parents, now, c, r)
    requires OnPath(parents, was, now, c)
    ensures FilledTo(parents, was, now, r)
  {
    forall x: nat | x < |parents| && Under(parents, r, x) ensures x in now { ClosedUnder(parents, root, now, r, x); }
  }

  class Blkgs {
    const parents: seq<Option<nat>>
    const root: nat
    var blkgs: map<nat, Option<nat>>

    ghost predicate Valid()
      reads this
    {
      Tree(parents, root) && Closed(parents, root, blkgs)
    }

    /** A queue just set up has the blkg of the root cgroup only. */
    constructor (parents: seq<Option<nat>>, root: nat)
      requires Tree(parents, root)
      ensures Valid() && this.parents == parents && this.root == root && blkgs.Keys == {root}
    {
      this.parents, this.root := parents, root;
      blkgs := map[root := None];
    }

    /** blkg_create; `works` says that nothing but a missing parent blkg could make it fail. */
    method Create(c: nat, works: bool) returns (done: bool)
      requires Valid() && c < |parents| && c !in blkgs
      modifies this
      ensures Valid() && done == (works && (parents[c].Some? ==> parents[c].value in old(blkgs)))
      ensures blkgs == if done then old(blkgs)[c := parents[c]] else old(blkgs)
    {
      if !works {
        return false;
      }
      if parents[c].Some? && parents[c].value !in blkgs {
        return false;
      }
      ghost var was := blkgs;
      blkgs := blkgs[c := parents[c]];
      forall x: nat ensures Linked(parents, blkgs, x) { assert Linked(parents, was, x); }
      return true;
    }

    /** The inner loop: up from c to the first cgroup whose parent has a blkg. */
    method FindTop(c: nat) returns (pos: nat, closest: nat)
      requires Valid() && c < |parents| && c !in blkgs
      ensures pos < |parents| && pos !in blkgs && Under(parents, c, pos) && parents[pos] == Some(closest)
      ensures closest in blkgs
    {
      pos := c;
      closest := root;
      UnderSelf(parents, c);
      var parent := parents[c];
      while parent.Some?
        invariant pos < |parents| && pos !in blkgs && Under(parents, c, pos) && parent == parents[pos]
        decreases Missing(parents, blkgs, pos)
      {
        if parent.value in blkgs {
          closest := parent.value;
          break;
        }
        MissingShrinks(parents, blkgs, pos);
        UnderNext(parents, pos);
        UnderTrans(parents, c, pos, parent.value);
        pos := parent.value;
        parent := parents[pos];
      }
    }

    /** One round of the outer loop: the topmost missing blkg is created, if that works. */
    method CreateTop(c: nat, works: bool, ghost was: map<nat, Option<nat>>) returns (done: bool, pos: nat, closest: nat)
      requires Valid() && c < |parents| && c !in blkgs && OnPath(parents, was, blkgs, c)
      modifies this
      ensures Valid() && done == works && OnPath(parents, was, blkgs, c) && (c in blkgs <==> done && pos == c)
      ensures !done ==> blkgs == old(blkgs) && Closest(parents, blkgs, c, closest)
      ensures done ==> |blkgs| == |old(blkgs)| + 1 && Missing(parents, blkgs, c) < Missing(parents, old(blkgs), c)
    {
      pos, closest := FindTop(c);
      ParentIsClosest(parents, root, blkgs, c, pos);
      MissingFilled(parents, blkgs, c, pos, parents[pos]);
      done := Create(pos, works);
    }

    /**
    __blkg_lookup_create; `fails` says which of the creations it tries would fail. The result is c's own blkg, or,
    exactly if a creation fails, that of the closest ancestor that has one.
    */
    method LookupCreate(c: nat, fails: set<nat>) returns (r: nat)
      requires Valid() && c < |parents|
      modifies this
      ensures Valid() && Closest(parents, blkgs, c, r) && FilledTo(parents, old(blkgs), blkgs, r)
      ensures c in old(blkgs) ==> r == c && blkgs == old(blkgs)
      ensures var tried := |blkgs| - |old(blkgs)|;
              && tried >= 0 && (forall k :: 0 <= k < tried ==> k !in fails)
              && (r != c ==> tried in fails)
    {
      if c in blkgs {
        OwnIsClosest(parents, blkgs, c);
        ClosestFilled(parents, root, blkgs, blkgs, c, c);
        return c;
      }
      var k: nat := 0;
      while true
        invariant Valid() && c !in blkgs && k == |blkgs| - |old(blkgs)| && OnPath(parents, old(blkgs), blkgs, c)
        invariant forall j :: 0 <= j < k ==> j !in fails
        decreases Missing(parents, blkgs, c)
      {
        var done, pos, closest := CreateTop(c, k !in fails, old(blkgs));
        if !done {
          ClosestFilled(parents, root, old(blkgs), blkgs, c, closest);
          return closest;
        }
        if pos == c {
          OwnIsClosest(parents, blkgs, c);
          ClosestFilled(parents, root, old(blkgs), blkgs, c, c);
          return c;
        }
        k := k + 1;
      }
    }
  }

  lemma OwnIsClosest(parents: seq<Option<nat>>, blkgs: map<nat, Option<nat>>, c: nat)
    requires c < |parents| && c in blkgs
    ensures Closest(parents, blkgs, c, c)
  {
    UnderSelf(parents, c);
  }

  lemma MissingShrinks(parents: seq<Option<nat>>, blkgs: map<nat, Option<nat>>, pos: nat)
    requires Forest(parents) && pos < |parents| && pos !in blkgs && parents[pos].Some?
    ensures parents[pos].value < |parents|
    ensures Missing(parents, blkgs, parents[pos].value) < Missing(parents, blkgs, pos)
  {
    var rank :| Ranked(parents, rank);
    UnderSelf(parents, pos);
    NoReturn(parents, pos);
    assert pos in Missing(parents, blkgs, pos) && pos !in Missing(parents, blkgs, parents[pos].value);
    forall x | x in Missing(parents, blkgs, parents[pos].value) ensures x in Missing(parents, blkgs, pos) {
      UnderStep(parents, pos, x);
    }
  }
}
