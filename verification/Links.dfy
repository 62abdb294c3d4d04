/**
Nodes that each point to at most one other: bios chained to their parents, queues redirected to the
queues they merge into. next[x] is the node x points to.
*/
module Links {
  import opened Options

  /** The k-th node after x, x itself for k == 0. */
  ghost function Up(next: seq<Option<nat>>, x: nat, k: nat): (above: Option<nat>)
    ensures above.Some? ==> above.value < |next|
    decreases k
  {
    if x >= |next| then None
    else if k == 0 then Some(x)
    else if next[x].None? then None
    else Up(next, next[x].value, k - 1)
  }

  /** x is i, or leads to it. */
  ghost predicate Under(next: seq<Option<nat>>, x: nat, i: nat) {
    exists k: nat :: Up(next, x, k) == Some(i)
  }

  /** Every pointer leads to a node of higher rank. */
  ghost predicate Ranked(next: seq<Option<nat>>, rank: seq<nat>) {
    && |rank| == |next|
    && forall i :: 0 <= i < |next| && next[i].Some? ==> next[i].value < |next| && rank[i] < rank[next[i].value]
  }

  /** There are no cycles. */
  ghost predicate Forest(next: seq<Option<nat>>) {
    exists rank :: Ranked(next, rank)
  }

  /** Nothing but new nodes and new pointers. */
  ghost predicate Extends(was: seq<Option<nat>>, now: seq<Option<nat>>) {
    |was| <= |now| && forall i :: 0 <= i < |was| && was[i].Some? ==> now[i] == was[i]
  }

  lemma {:induction false} UpExtends(was: seq<Option<nat>>, now: seq<Option<nat>>, x: nat, k: nat)
    requires Extends(was, now) && Up(was, x, k).Some?
    ensures Up(now, x, k) == Up(was, x, k)
    decreases k
  {
    if k > 0 { UpExtends(was, now, was[x].value, k - 1); }
  }

  lemma UnderExtends(was: seq<Option<nat>>, now: seq<Option<nat>>, x: nat, i: nat)
    requires Extends(was, now) && Under(was, x, i)
    ensures Under(now, x, i)
  {
    var k: nat :| Up(was, x, k) == Some(i);
    UpExtends(was, now, x, k);
  }

  lemma UnderSelf(next: seq<Option<nat>>, x: nat)
    requires x < |next|
    ensures Under(next, x, x)
  {
    assert Up(next, x, 0) == Some(x);
  }

  lemma {:induction false} UpThen(next: seq<Option<nat>>, x: nat, k: nat, m: nat)
    requires Up(next, x, k).Some?
    ensures Up(next, x, k + m) == Up(next, Up(next, x, k).value, m)
    decreases k
  {
    if k > 0 {
      UpThen(next, next[x].value, k - 1, m);
      assert k - 1 + m == k + m - 1;
    }
  }

  lemma UnderTrans(next: seq<Option<nat>>, x: nat, y: nat, z: nat)
    requires Under(next, x, y) && Under(next, y, z)
    ensures Under(next, x, z)
  {
    var k: nat :| Up(next, x, k) == Some(y);
    var m: nat :| Up(next, y, m) == Some(z);
    UpThen(next, x, k, m);
  }

  lemma UnderNext(next: seq<Option<nat>>, x: nat)
    requires x < |next| && next[x].Some? && next[x].value < |next|
    ensures Under(next, x, next[x].value)
  {
    assert Up(next, next[x].value, 0) == next[x];
    assert Up(next, x, 1) == next[x];
  }

  /** The node one before i on the way from x to it points to i. */
  lemma StepBelow(next: seq<Option<nat>>, x: nat, k: nat, i: nat)
    requires Up(next, x, k + 1) == Some(i)
    ensures Up(next, x, k).Some? && next[Up(next, x, k).value] == Some(i)
    decreases k
  {
    if k == 0 {
      assert Up(next, next[x].value, 0) == Some(i);
    } else {
      StepBelow(next, next[x].value, k - 1, i);
    }
  }

  /** x leads to i exactly if it is i or the node it points to leads to i. */
  lemma UnderStep(next: seq<Option<nat>>, x: nat, i: nat)
    requires x < |next|
    ensures Under(next, x, i) <==> x == i || (next[x].Some? && Under(next, next[x].value, i))
  {
    if Under(next, x, i) {
      var k: nat :| Up(next, x, k) == Some(i);
      if k > 0 { assert Up(next, next[x].value, k - 1) == Some(i); }
    }
    if x == i { UnderSelf(next, x); }
    if next[x].Some? && Under(next, next[x].value, i) {
      var k: nat :| Up(next, next[x].value, k) == Some(i);
      assert Up(next, x, k + 1) == Some(i);
    }
  }

  /** In a forest, ranks grow along every path. */
  lemma {:induction false} UpRank(next: seq<Option<nat>>, rank: seq<nat>, x: nat, k: nat)
    requires Ranked(next, rank) && Up(next, x, k).Some?
    ensures rank[x] + k <= rank[Up(next, x, k).value]
    decreases k
  {
    if k > 0 { UpRank(next, rank, next[x].value, k - 1); }
  }

  /** In a forest a node does not lead to one that points to it. */
  lemma NoReturn(next: seq<Option<nat>>, x: nat)
    requires Forest(next) && x < |next| && next[x].Some?
    ensures !Under(next, next[x].value, x)
  {
    var rank :| Ranked(next, rank);
    if Under(next, next[x].value, x) {
      var k: nat :| Up(next, next[x].value, k) == Some(x);
      UpRank(next, rank, next[x].value, k);
    }
  }

  /** Pointing a root to a node that does not lead to it makes no cycle. */
  lemma ForestLink(next: seq<Option<nat>>, i: nat, p: nat)
    requires Forest(next) && i < |next| && p < |next| && next[i].None? && !Under(next, p, i)
    ensures Forest(next[i := Some(p)])
  {
    var rank :| Ranked(next, rank);
    var now := next[i := Some(p)];
    var rank' := seq(|rank|, x requires 0 <= x < |rank| =>
                       if Under(next, x, i) then rank[x] else rank[x] + rank[i] + 1);
    UnderSelf(next, i);
    forall x | 0 <= x < |now| && now[x].Some?
      ensures now[x].value < |now| && rank'[x] < rank'[now[x].value]
    {
      if x != i { UnderStep(next, x, i); }
    }
    assert Ranked(now, rank');
  }

  lemma ForestGrow(next: seq<Option<nat>>)
    requires Forest(next)
    ensures Forest(next + [None])
  {
    var rank :| Ranked(next, rank);
    assert Ranked(next + [None], rank + [0]);
  }
}
