/**
Which eligible entity becomes next_in_service: the one that finishes first, as long as the walk down the
active tree is not stopped on its way.
*/
module Wf2qBest {
  import opened Options
  import opened ActiveTree
  import ActiveTreeProofs
  import opened ActiveSearch
  import opened Wf2qModel
  import opened Wf2qTrees
  import opened Wf2qInvariant
  import opened Wf2qPriority
  import opened Wf2qEligible

  /** Entity n finishes no later than any eligible active entity of its class but the one left out. */
  ghost predicate Beats(s: Sched, n: nat, but: Option<nat>)
    requires Shape(s) && n < |s.es|
  {
    forall j :: 0 <= j < |s.es| && Rival(s, n, j) && Some(j) != but ==> s.es[n].finish <= s.es[j].finish
  }

  /** j is active, eligible and of the class of n. */
  ghost predicate Rival(s: Sched, n: nat, j: nat)
    requires Shape(s) && n < |s.es| && j < |s.es|
  {
    s.es[j].at == OnActive && s.es[j].cls == s.es[n].cls && Eligible(s, j)
  }

  /** No eligible node that finishes later lies above a right turn on the way to the first eligible entity. */
  ghost predicate ClearWay(t: Tree, v: int) {
    var b, f := Blocker(Way(t, v), v, None), FirstEligible(Inorder(t), v);
    b.Some? && f.Some? ==> b.value.finish <= f.value.finish
  }

  ghost predicate ClearWays(s: Sched) {
    |s.st| == CLASSES
    && forall c :: 0 <= c < CLASSES && s.st[c].active.Node? ==>
         ClearWay(s.st[c].active, Later(s.st[c].active.minStart, s.st[c].vtime))
  }

  lemma SomeEligible(t: Tree, v: int)
    requires t.Node? && ActiveTreeProofs.MinOk(t) && t.minStart <= v
    ensures HasEligible(Inorder(t), v)
  {
    ActiveTreeProofs.MinIsLeast(t);
  }

  /** What the walk finds in a tree with a clear way finishes first among what is eligible there. */
  lemma SearchBest(s: Sched, c: nat, v: int)
    requires TreesOk(s) && c < CLASSES && s.st[c].active.Node? && s.st[c].active.minStart <= v
    requires ClearWay(s.st[c].active, v)
    ensures var k := Search(s.st[c].active, v, None);
            && k.Some?
            && forall j :: 0 <= j < |s.es| && s.es[j].at == OnActive && s.es[j].cls == c && s.es[j].start <= v ==>
                 k.value.finish <= s.es[j].finish
  {
    var t := s.st[c].active;
    assert ClassOk(s, c);
    SomeEligible(t, v);
    SearchExact(t, v);
    var k := Search(t, v, None);
    forall j | 0 <= j < |s.es| && s.es[j].at == OnActive && s.es[j].cls == c && s.es[j].start <= v
      ensures k.value.finish <= s.es[j].finish
    {
      assert ActiveAgrees(s, c, j);
      assert KeyOf(s, j) in Inorder(t);
    }
  }

  lemma LookupClassReach(s: Sched, c: nat, inService: bool)
    requires Core(s) && StOk(s) && c < CLASSES && s.st[c].active.Node?
    ensures var f, v := LookupClass(s, c, inService), Later(s.st[c].active.minStart, s.st[c].vtime);
            && Core(f.s) && f.s.st[c].active == s.st[c].active && f.s.st[c].vtime <= v
            && f.k == Search(f.s.st[c].active, v, None)
  {
    LookupClassChosen(s, c, inService);
    var t := s.st[c];
    var v := Later(t.active.minStart, t.vtime);
    if !inService && v > t.vtime {
      var s1 := SetSt(s, c, t.(vtime := v));
      VtimeCore(s, c, v);
      forall j | 0 <= j < |s1.es| ensures Linked(s1, j) { assert Linked(s, j); }
      JumpStays(s1, c);
    }
  }

  lemma LookupClassBest(s: Sched, c: nat, inService: bool)
    requires Core(s) && StOk(s) && c < CLASSES && ClearWays(s)
    ensures var f := LookupClass(s, c, inService);
            f.k.Some? ==> f.k.value.id < |f.s.es| && Beats(f.s, f.k.value.id, None)
  {
    if s.st[c].active.Node? {
      LookupClassFinds(s, c, inService);
      LookupClassReach(s, c, inService);
      var f, v := LookupClass(s, c, inService), Later(s.st[c].active.minStart, s.st[c].vtime);
      SearchBest(f.s, c, v);
      InTreeActive(f.s, c, f.k.value);
      forall j | 0 <= j < |f.s.es| && Rival(f.s, f.k.value.id, j)
        ensures f.s.es[f.k.value.id].finish <= f.s.es[j].finish
      {
        assert f.s.es[j].start <= v;
      }
    }
  }

  lemma {:induction false} LookupFromBest(s: Sched, c: nat, inService: bool)
    requires Core(s) && StOk(s) && c <= CLASSES && ClearWays(s)
    ensures var f := LookupFrom(s, c, inService);
            f.k.Some? ==> f.k.value.id < |f.s.es| && Beats(f.s, f.k.value.id, None)
    decreases CLASSES - c
  {
    if c < CLASSES {
      LookupClassBest(s, c, inService);
      LookupClassChosen(s, c, inService);
      if LookupClass(s, c, inService).k.None? { LookupFromBest(s, c + 1, inService); }
    }
  }

  lemma LookupBest(s: Sched, expiration: bool, starved: bool, now: int)
    requires Core(s) && StOk(s) && ClearWays(s)
    ensures var f := Lookup(s, expiration, starved, now);
            f.k.Some? ==> f.k.value.id < |f.s.es| && Beats(f.s, f.k.value.id, None)
  {
    var s' := if starved then s.(idleServed := now) else s;
    TreesFrame(s, s');
    forall j | 0 <= j < |s'.es| ensures Linked(s', j) { assert Linked(s, j); }
    LookupFromBest(s', FirstClass(s, starved), s.inService.Some? && !expiration);
  }

  /** next_in_service is eligible and comes first, leaving out the entity that has just changed. */
  ghost predicate NextBest(s: Sched, but: Option<nat>)
    requires Shape(s)
  {
    s.next.Some? ==>
      && s.next.value < |s.es| && s.es[s.next.value].at == OnActive
      && Eligible(s, s.next.value) && Beats(s, s.next.value, but)
  }

  lemma TakesOverBest(s: Sched, i: nat)
    requires Shape(s) && i < |s.es| && TakesOver(s, i) && NextBest(s, Some(i))
    requires s.next.None? ==> OnlyActive(s, i)
    ensures Beats(s.(next := Some(i)), i, None)
  {
    var r := s.(next := Some(i));
    forall j | 0 <= j < |r.es| && Rival(r, i, j) ensures r.es[i].finish <= r.es[j].finish {
      if j != i && s.next.Some? { assert Rival(s, s.next.value, j); }
    }
  }

  lemma SetNextBest(s: Sched, next: Option<nat>, n: nat)
    requires Shape(s) && n < |s.es| && Beats(s, n, None)
    ensures Beats(s.(next := next), n, None)
  {
    var r := s.(next := next);
    forall j | 0 <= j < |r.es| && Rival(r, n, j) ensures r.es[n].finish <= r.es[j].finish { assert Rival(s, n, j); }
  }

  /** No eligible entity of its class finishes before next_in_service. */
  ghost predicate NextIsBest(s: Sched) {
    Shape(s) && (s.next.Some? ==> s.next.value < |s.es| && Beats(s, s.next.value, None))
  }

  /** next_in_service was the best but for the entity that has changed, and a lookup would find the best. */
  ghost predicate LookupClear(s: Sched, changed: Option<nat>) {
    && Core(s) && StOk(s) && ClearWays(s)
    && (changed.Some? ==>
          && changed.value < |s.es| && NextBest(s, changed)
          && (s.next.None? ==> OnlyActive(s, changed.value)))
  }

  /**
  If next_in_service came first among the eligible of its class but for the entity that has changed, then after
  the update the new one comes first among all eligible ones of its class, the changed one included.
  */
  lemma UpdateNextBest(s: Sched, changed: Option<nat>, expiration: bool, starved: bool, now: int)
    requires LookupClear(s, changed)
    ensures NextIsBest(UpdateNext(s, changed, expiration, starved, now))
  {
    if changed.Some? && TakesOver(s, changed.value) {
      TakesOverBest(s, changed.value);
    } else {
      LookupBest(s, expiration, starved, now);
      var f := Lookup(s, expiration, starved, now);
      if f.k.Some? { SetNextBest(f.s, Some(f.k.value.id), f.k.value.id); }
    }
  }

  lemma UpdateNextClear(s: Sched, changed: Option<nat>, expiration: bool, starved: bool, now: int)
    requires Shape(s) && (changed.Some? ==> changed.value < |s.es|)
    ensures LookupClear(s, changed) ==> NextIsBest(UpdateNext(s, changed, expiration, starved, now))
  {
    if LookupClear(s, changed) { UpdateNextBest(s, changed, expiration, starved, now); }
  }
}
