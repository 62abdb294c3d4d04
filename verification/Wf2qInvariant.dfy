/**
What every operation of the flat B-WF2Q+ engine keeps: the trees and the entities agree, on_st says
whether an entity is on a tree or in service, each weight sum is the sum of the weights of the entities
of its class with on_st set, and next_in_service is NULL exactly when nothing is active.
*/
module Wf2qInvariant {
  import opened Options
  import opened ActiveTree
  import opened ActiveSearch
  import opened Wf2qModel
  import opened Wf2qTrees

  /** What an entity adds to the weight sum of class c. */
  function Part(e: Entity, c: nat): int {
    if e.onSt && e.cls == c then e.weight else 0
  }

  function WeightSum(es: seq<Entity>, c: nat): int {
    if es == [] then 0 else WeightSum(es[..|es| - 1], c) + Part(es[|es| - 1], c)
  }

  lemma {:induction false} WeightSumSet(es: seq<Entity>, i: nat, e: Entity, c: nat)
    requires i < |es|
    ensures WeightSum(es[i := e], c) == WeightSum(es, c) - Part(es[i], c) + Part(e, c)
  {
    var n := |es| - 1;
    if i < n {
      WeightSumSet(es[..n], i, e, c);
      assert es[i := e][..n] == es[..n][i := e];
    } else {
      assert es[i := e][..n] == es[..n];
    }
  }

  lemma {:induction false} WeightSumBound(es: seq<Entity>, i: nat, c: nat)
    requires i < |es| && forall j :: 0 <= j < |es| ==> es[j].weight >= 1
    ensures WeightSum(es, c) >= Part(es[i], c) && WeightSum(es, c) >= 0
  {
    var n := |es| - 1;
    if n > 0 {
      WeightSumBound(es[..n], if i < n then i else 0, c);
    } else {
      assert es[..0] == [];
    }
  }

  /** Each service tree's wsum is the sum of the weights of its entities. */
  ghost predicate SumsOk(s: Sched) {
    |s.st| == CLASSES && forall c :: 0 <= c < CLASSES ==> s.st[c].wsum == WeightSum(s.es, c)
  }

  ghost predicate Core(s: Sched) {
    TreesOk(s) && SumsOk(s)
  }

  /** A change of one entity that the sums do not notice. */
  lemma SumsSetE(s: Sched, i: nat, e: Entity)
    requires SumsOk(s) && i < |s.es| && forall c :: 0 <= c < CLASSES ==> Part(e, c) == Part(s.es[i], c)
    ensures SumsOk(SetE(s, i, e))
  {
    forall c | 0 <= c < CLASSES ensures s.st[c].wsum == WeightSum(s.es[i := e], c) {
      WeightSumSet(s.es, i, e, c);
    }
  }

  lemma SetOffTreeCore(s: Sched, i: nat, e: Entity)
    requires Core(s) && i < |s.es| && s.es[i].at == Nowhere && e.at == Nowhere && Shape(SetE(s, i, e))
    requires e.onSt == s.es[i].onSt && e.cls == s.es[i].cls && e.weight == s.es[i].weight
    ensures Core(SetE(s, i, e))
  {
    SetOffTree(s, i, e);
    SumsSetE(s, i, e);
  }

  lemma ActiveInsertCore(s: Sched, i: nat, level: nat)
    requires Core(s) && i < |s.es| && s.es[i].at == Nowhere
    ensures Core(ActiveInsert(s, i, level)) && ActiveInsert(s, i, level).st[s.es[i].cls].active.Node?
  {
    ActiveInsertTrees(s, i, level);
    SumsSetE(s, i, s.es[i].(at := OnActive));
  }

  lemma ActiveExtractCore(s: Sched, i: nat, fix: EraseFix)
    requires Core(s) && i < |s.es| && s.es[i].at == OnActive
    ensures Core(ActiveExtract(s, i, fix))
  {
    ActiveExtractTrees(s, i, fix);
    SumsSetE(s, i, s.es[i].(at := Nowhere));
  }

  lemma IdleInsertCore(s: Sched, i: nat)
    requires Core(s) && i < |s.es| && s.es[i].at == Nowhere
    ensures Core(IdleInsert(s, i))
  {
    IdleInsertTrees(s, i);
    SumsSetE(s, i, s.es[i].(at := OnIdle));
  }

  lemma IdleExtractCore(s: Sched, i: nat)
    requires Core(s) && i < |s.es| && s.es[i].at == OnIdle
    ensures Core(IdleExtract(s, i))
  {
    IdleExtractTrees(s, i);
    SumsSetE(s, i, s.es[i].(at := Nowhere));
  }

  lemma JoinCore(s: Sched, i: nat)
    requires Core(s) && i < |s.es| && !s.es[i].onSt
    ensures Core(Join(s, i))
  {
    TreesFrame(s, Join(s, i));
    forall c | 0 <= c < CLASSES ensures Join(s, i).st[c].wsum == WeightSum(Join(s, i).es, c) {
      WeightSumSet(s.es, i, s.es[i].(onSt := true), c);
    }
  }

  lemma ForgetCore(s: Sched, i: nat)
    requires Core(s) && i < |s.es| && s.es[i].onSt
    ensures Core(Forget(s, i))
  {
    TreesFrame(s, Forget(s, i));
    forall c | 0 <= c < CLASSES ensures Forget(s, i).st[c].wsum == WeightSum(Forget(s, i).es, c) {
      WeightSumSet(s.es, i, s.es[i].(onSt := false), c);
    }
  }

  lemma VtimeCore(s: Sched, c: nat, v: int)
    requires Core(s) && c < CLASSES
    ensures Core(SetSt(s, c, s.st[c].(vtime := v)))
  {
    TreesFrame(s, SetSt(s, c, s.st[c].(vtime := v)));
  }

  /** A change of weight or class moves the entity's weight from one sum to the other; it needs on_st. */
  lemma UpdateWeightSums(s: Sched, i: nat, updateClass: bool)
    requires Shape(s) && SumsOk(s) && i < |s.es| && s.es[i].onSt
    ensures SumsOk(UpdateWeightPrio(s, i, updateClass))
  {
    if s.es[i].prioChanged {
      var r := UpdateWeightPrio(s, i, updateClass);
      forall c | 0 <= c < CLASSES ensures r.st[c].wsum == WeightSum(r.es, c) {
        WeightSumSet(s.es, i, r.es[i], c);
      }
    }
  }

  /** Exactly when a weight update keeps the sums: the entity counts in one of them, or nothing changes. */
  lemma UpdateWeightExact(s: Sched, i: nat, updateClass: bool)
    requires Shape(s) && SumsOk(s) && i < |s.es|
    ensures var e, e' := s.es[i], Reweighed(s.es[i], updateClass);
            SumsOk(UpdateWeightPrio(s, i, updateClass))
            <==> e.onSt || !e.prioChanged || (e'.cls == e.cls && e'.weight == e.weight)
  {
    var e, r := s.es[i], UpdateWeightPrio(s, i, updateClass);
    if e.onSt {
      UpdateWeightSums(s, i, updateClass);
    } else if e.prioChanged {
      forall c | 0 <= c < CLASSES ensures WeightSum(r.es, c) == WeightSum(s.es, c) {
        WeightSumSet(s.es, i, r.es[i], c);
      }
      assert r.st[e.cls].wsum == s.st[e.cls].wsum <==> r.es[i].cls == e.cls && r.es[i].weight == e.weight;
    }
  }

  lemma UpdateWeightCore(s: Sched, i: nat, updateClass: bool)
    requires Core(s) && i < |s.es| && s.es[i].onSt && (updateClass ==> s.es[i].at == Nowhere)
    ensures Core(UpdateWeightPrio(s, i, updateClass))
  {
    UpdateWeightSums(s, i, updateClass);
    var r := UpdateWeightPrio(s, i, updateClass);
    if s.es[i].prioChanged {
      if updateClass {
        SetOffTree(s, i, r.es[i]);
        TreesFrame(SetE(s, i, r.es[i]), r);
      } else {
        TreesFrame(s, r);
      }
    }
  }

  // ----- on_st -----

  ghost predicate Linked(s: Sched, j: nat)
    requires j < |s.es|
  {
    s.es[j].onSt <==> s.es[j].at != Nowhere || s.inService == Some(j)
  }

  /** on_st is set exactly on the entities on a tree or in service; the one in service is not on the idle tree. */
  ghost predicate StOk(s: Sched) {
    && (forall j :: 0 <= j < |s.es| ==> Linked(s, j))
    && (s.inService.Some? ==> s.inService.value < |s.es| && s.es[s.inService.value].at != OnIdle)
  }

  /** Only entity i was touched. */
  ghost predicate Only(s: Sched, r: Sched, i: nat) {
    && |r.es| == |s.es| && r.inService == s.inService && r.next == s.next
    && forall j :: 0 <= j < |s.es| && j != i ==> r.es[j] == s.es[j]
  }

  lemma OnlyLinked(s: Sched, r: Sched, i: nat)
    requires StOk(s) && Only(s, r, i) && i < |s.es| && r.es[i].onSt && r.es[i].at == OnActive
    ensures StOk(r)
  {
    forall j | 0 <= j < |r.es| ensures Linked(r, j) { assert Linked(s, j); }
  }

  lemma RetimeKeeps(s: Sched, i: nat, backshifted: bool)
    requires Core(s) && i < |s.es| && s.es[i].at == Nowhere
    ensures var r := Retime(s, i, backshifted);
            Core(r) && Only(s, r, i) && r.es[i].onSt == s.es[i].onSt && r.es[i].at == Nowhere
  {
    var r := Retime(s, i, backshifted);
    assert r == SetE(s, i, r.es[i]);
    SetOffTreeCore(s, i, r.es[i]);
  }

  lemma UpdateWeightKeeps(s: Sched, i: nat)
    requires Core(s) && i < |s.es| && s.es[i].at == Nowhere && s.es[i].onSt
    ensures var r := UpdateWeightPrio(s, i, true);
            Core(r) && Only(s, r, i) && r.es[i].onSt && r.es[i].at == Nowhere
  {
    UpdateWeightCore(s, i, true);
  }

  lemma EnqueueKeeps(s: Sched, i: nat, backshifted: bool, level: nat)
    requires Core(s) && i < |s.es| && s.es[i].at == Nowhere && s.es[i].onSt
    ensures var r := Enqueue(s, i, backshifted, level);
            Core(r) && Only(s, r, i) && r.es[i].onSt && r.es[i].at == OnActive
  {
    UpdateWeightKeeps(s, i);
    var s1 := UpdateWeightPrio(s, i, true);
    RetimeKeeps(s1, i, backshifted);
    ActiveInsertCore(Retime(s1, i, backshifted), i, level);
  }

  lemma SetStartCore(s: Sched, i: nat, start: int)
    requires Core(s) && i < |s.es| && s.es[i].at == Nowhere
    ensures Core(SetStart(s, i, start))
  {
    SetOffTreeCore(s, i, s.es[i].(start := start));
  }

  /** Off the idle tree, or counted in again: either way ready to be enqueued. */
  ghost predicate Ready(s: Sched, r: Sched, i: nat) {
    i < |s.es| && Core(r) && Only(s, r, i) && r.es[i].onSt && r.es[i].at == Nowhere
  }

  lemma WakeReady(s: Sched, i: nat, start: int)
    requires Core(s) && StOk(s) && i < |s.es| && s.es[i].at == OnIdle
    ensures Ready(s, SetStart(IdleExtract(s, i), i, start), i)
  {
    assert Linked(s, i);
    IdleExtractCore(s, i);
    SetStartCore(IdleExtract(s, i), i, start);
  }

  lemma JoinReady(s: Sched, i: nat, start: int)
    requires Core(s) && StOk(s) && i < |s.es| && s.es[i].at == Nowhere && s.inService != Some(i)
    ensures Ready(s, Join(SetStart(s, i, start), i), i)
  {
    assert Linked(s, i);
    SetStartCore(s, i, start);
    JoinCore(SetStart(s, i, start), i);
  }

  lemma EnqueueReady(s: Sched, r: Sched, i: nat, backshifted: bool, level: nat)
    requires Ready(s, r, i)
    ensures var q := Enqueue(r, i, backshifted, level);
            Core(q) && Only(s, q, i) && q.es[i].onSt && q.es[i].at == OnActive
  {
    EnqueueKeeps(r, i, backshifted, level);
  }

  lemma ActivateKeeps(s: Sched, i: nat, nonBlocking: bool, level: nat)
    requires Core(s) && StOk(s) && i < |s.es| && s.es[i].at != OnActive && s.inService != Some(i)
    ensures var r := Activate(s, i, nonBlocking, level);
            Core(r) && Only(s, r, i) && r.es[i].onSt && r.es[i].at == OnActive
  {
    var e := s.es[i];
    var backshifted := nonBlocking && s.st[e.cls].vtime > e.finish;
    var minStart := if backshifted then e.finish else s.st[e.cls].vtime;
    if e.at == OnIdle {
      WakeReady(s, i, Later(minStart, e.finish));
      EnqueueReady(s, SetStart(IdleExtract(s, i), i, Later(minStart, e.finish)), i, backshifted, level);
    } else {
      JoinReady(s, i, minStart);
      EnqueueReady(s, Join(SetStart(s, i, minStart), i), i, backshifted, level);
    }
  }

  /** An extraction does not look at the timestamps of the entity it removes. */
  lemma ExtractAfterSet(s: Sched, i: nat, e: Entity, fix: EraseFix)
    requires Shape(s) && i < |s.es| && Shape(SetE(s, i, e)) && e.cls == s.es[i].cls
    ensures ActiveExtract(SetE(s, i, e), i, fix) == SetE(ActiveExtract(s, i, fix), i, e.(at := Nowhere))
  {
    var l, r := ActiveExtract(SetE(s, i, e), i, fix), SetE(ActiveExtract(s, i, fix), i, e.(at := Nowhere));
    assert l.es == r.es && l.st == r.st;
  }

  lemma RequeueKeeps(s: Sched, i: nat, level: nat, fix: EraseFix)
    requires Core(s) && StOk(s) && i < |s.es| && (s.inService == Some(i) || s.es[i].at == OnActive)
    ensures var r := Requeue(s, i, level, fix);
            Core(r) && Only(s, r, i) && r.es[i].onSt && r.es[i].at == OnActive
  {
    assert Linked(s, i);
    if s.inService == Some(i) {
      var s1 := CalcFinish(s, i, s.es[i].service);
      var s2 := SetE(s1, i, s1.es[i].(start := s1.es[i].finish));
      assert s2 == SetE(s, i, s2.es[i]);
      var s3 := if s2.es[i].at != Nowhere then ActiveExtract(s2, i, fix) else s2;
      if s.es[i].at == OnActive {
        ActiveExtractCore(s, i, fix);
        ExtractAfterSet(s, i, s2.es[i], fix);
        SetOffTreeCore(ActiveExtract(s, i, fix), i, s3.es[i]);
      } else {
        SetOffTreeCore(s, i, s2.es[i]);
      }
      EnqueueKeeps(s3, i, false, level);
    } else {
      ActiveExtractCore(s, i, fix);
      EnqueueKeeps(ActiveExtract(s, i, fix), i, false, level);
    }
  }

  // ----- lookups -----

  /** The same entities are active, in the same trees, and the same are in service and next. */
  ghost predicate SameActive(s: Sched, r: Sched) {
    && |r.es| == |s.es| && |r.st| == CLASSES == |s.st| && r.inService == s.inService && r.next == s.next
    && (forall c :: 0 <= c < CLASSES ==> r.st[c].active == s.st[c].active)
    && (forall j :: 0 <= j < |s.es| ==> (r.es[j].at == OnActive <==> s.es[j].at == OnActive))
  }

  lemma JumpBackKeeps(s: Sched, c: nat)
    requires Core(s) && StOk(s) && c < CLASSES
    ensures var r := JumpBack(s, c); Core(r) && StOk(r) && SameActive(s, r) && r.es == s.es
  {
    var r := JumpBack(s, c);
    VtimeCore(s, c, r.st[c].vtime);
    assert r == SetSt(s, c, s.st[c].(vtime := r.st[c].vtime));
    forall j | 0 <= j < |r.es| ensures Linked(r, j) { assert Linked(s, j); }
  }

  lemma PutIdleKeeps(s: Sched, i: nat)
    requires Core(s) && StOk(s) && i < |s.es| && s.es[i].at == OnIdle
    ensures var r := PutIdle(s, i); Core(r) && StOk(r) && SameActive(s, r)
  {
    assert Linked(s, i);
    IdleExtractCore(s, i);
    ForgetCore(IdleExtract(s, i), i);
    var r := PutIdle(s, i);
    forall j | 0 <= j < |r.es| ensures Linked(r, j) { assert Linked(s, j); }
  }

  lemma ForgetIdleKeeps(s: Sched, c: nat)
    requires Core(s) && StOk(s) && c < CLASSES
    ensures var r := ForgetIdle(s, c); Core(r) && StOk(r) && SameActive(s, r)
  {
    JumpBackKeeps(s, c);
    var s', f := JumpBack(s, c), s.st[c].firstIdle;
    assert ClassOk(s, c);
    if f.Some? && s.es[f.value].finish <= s'.st[c].vtime {
      assert IdleAgrees(s, c, f.value);
      PutIdleKeeps(s', f.value);
    }
  }

  lemma SameActiveTrans(a: Sched, b: Sched, c: Sched)
    requires SameActive(a, b) && SameActive(b, c)
    ensures SameActive(a, c)
  {
  }

  /** The virtual time that decides eligibility: vtime itself, or where the jump would take it. */
  ghost function Reach(s: Sched, c: nat, inService: bool): int
    requires |s.st| == CLASSES && c < CLASSES && s.st[c].active.Node?
  {
    if inService then Later(s.st[c].active.minStart, s.st[c].vtime) else s.st[c].vtime
  }

  /** A jump of vtime with an entity active is not undone by the visit to the idle tree. */
  lemma JumpStays(s: Sched, c: nat)
    requires Core(s) && StOk(s) && c < CLASSES && s.st[c].active.Node?
    ensures ForgetIdle(s, c).st[c].vtime == s.st[c].vtime
  {
  }

  /** The vtime jump makes some entity of a tree that is not empty eligible, and the lookup returns such a one. */
  lemma LookupClassFinds(s: Sched, c: nat, inService: bool)
    requires Core(s) && StOk(s) && c < CLASSES
    ensures var f := LookupClass(s, c, inService);
            && Core(f.s) && StOk(f.s) && SameActive(s, f.s)
            && (f.k.None? <==> s.st[c].active.Leaf?)
            && (f.k.Some? ==> && InTree(s.st[c].active, f.k.value)
                              && f.k.value.start <= Reach(f.s, c, inService))
  {
    assert ClassOk(s, c);
    var t := s.st[c];
    if t.active.Node? {
      var v := Later(t.active.minStart, t.vtime);
      if !inService && v > t.vtime {
        var s1 := SetSt(s, c, t.(vtime := v));
        VtimeCore(s, c, v);
        forall j | 0 <= j < |s1.es| ensures Linked(s1, j) { assert Linked(s, j); }
        ForgetIdleKeeps(s1, c);
        SameActiveTrans(s, s1, ForgetIdle(s1, c));
        JumpStays(s1, c);
      }
      SearchEligible(t.active, v, None);
    }
  }

  ghost predicate NothingActiveFrom(s: Sched, c: nat) {
    |s.st| == CLASSES && forall d :: c <= d < CLASSES ==> s.st[d].active.Leaf?
  }

  /** The entity with key k is active and eligible, and no class from c up to its own has anything active. */
  ghost predicate Chosen(s: Sched, c: nat, k: Key, inService: bool) {
    && |s.st| == CLASSES && k.id < |s.es| && s.es[k.id].at == OnActive && KeyOf(s, k.id) == k
    && c <= s.es[k.id].cls < CLASSES && s.st[s.es[k.id].cls].active.Node?
    && k.start <= Reach(s, s.es[k.id].cls, inService)
    && forall d :: c <= d < s.es[k.id].cls ==> s.st[d].active.Leaf?
  }

  lemma InTreeActive(s: Sched, c: nat, k: Key)
    requires TreesOk(s) && c < CLASSES && InTree(s.st[c].active, k)
    ensures k.id < |s.es| && s.es[k.id].at == OnActive && s.es[k.id].cls == c && KeyOf(s, k.id) == k
  {
    assert ClassOk(s, c);
    assert ActiveAgrees(s, c, k.id);
  }

  lemma LookupClassChosen(s: Sched, c: nat, inService: bool)
    requires Core(s) && StOk(s) && c < CLASSES
    ensures var f := LookupClass(s, c, inService);
            && Core(f.s) && StOk(f.s) && SameActive(s, f.s)
            && (f.k.None? <==> s.st[c].active.Leaf?)
            && (f.k.Some? ==> Chosen(f.s, c, f.k.value, inService))
  {
    LookupClassFinds(s, c, inService);
    var f := LookupClass(s, c, inService);
    if f.k.Some? { InTreeActive(f.s, c, f.k.value); }
  }

  lemma ChosenLater(s: Sched, c: nat, k: Key, inService: bool)
    requires c + 1 <= CLASSES && |s.st| == CLASSES && s.st[c].active.Leaf? && Chosen(s, c + 1, k, inService)
    ensures Chosen(s, c, k, inService)
  {
  }

  lemma {:induction false} LookupFromKeeps(s: Sched, c: nat, inService: bool)
    requires Core(s) && StOk(s) && c <= CLASSES
    ensures var f := LookupFrom(s, c, inService); Core(f.s) && StOk(f.s) && SameActive(s, f.s)
    decreases CLASSES - c
  {
    if c < CLASSES {
      LookupClassChosen(s, c, inService);
      var f := LookupClass(s, c, inService);
      if f.k.None? {
        LookupFromKeeps(f.s, c + 1, inService);
        SameActiveTrans(s, f.s, LookupFrom(f.s, c + 1, inService).s);
      }
    }
  }

  lemma {:induction false} LookupFromFinds(s: Sched, c: nat, inService: bool)
    requires Core(s) && StOk(s) && c <= CLASSES
    ensures var f := LookupFrom(s, c, inService);
            && (f.k.None? <==> NothingActiveFrom(s, c))
            && (f.k.Some? ==> Chosen(f.s, c, f.k.value, inService))
    decreases CLASSES - c
  {
    if c < CLASSES {
      LookupClassChosen(s, c, inService);
      var f := LookupClass(s, c, inService);
      if f.k.None? {
        LookupFromFinds(f.s, c + 1, inService);
        LookupFromKeeps(f.s, c + 1, inService);
        var g := LookupFrom(f.s, c + 1, inService);
        if g.k.Some? { ChosenLater(g.s, c, g.k.value, inService); }
      }
    }
  }

  /** The class a lookup starts from: the idle class if it has starved, otherwise the real-time one. */
  ghost function FirstClass(s: Sched, starved: bool): nat
    requires |s.st| == CLASSES
  {
    if starved && s.st[CLASSES - 1].active.Node? then CLASSES - 1 else 0
  }

  /** A lookup finds an active entity exactly when there is one; it is eligible and of the first class that has any. */
  lemma LookupFinds(s: Sched, expiration: bool, starved: bool, now: int)
    requires Core(s) && StOk(s)
    ensures var f := Lookup(s, expiration, starved, now);
            && Core(f.s) && StOk(f.s) && SameActive(s, f.s)
            && (f.k.None? <==> NothingActiveFrom(s, 0))
            && (f.k.Some? ==> Chosen(f.s, FirstClass(s, starved), f.k.value, s.inService.Some? && !expiration))
  {
    var s' := if starved then s.(idleServed := now) else s;
    assert Core(s') && StOk(s') by {
      TreesFrame(s, s');
      forall j | 0 <= j < |s'.es| ensures Linked(s', j) { assert Linked(s, j); }
    }
    var c := FirstClass(s, starved);
    LookupFromFinds(s', c, s.inService.Some? && !expiration);
    LookupFromKeeps(s', c, s.inService.Some? && !expiration);
    SameActiveTrans(s, s', LookupFrom(s', c, s.inService.Some? && !expiration).s);
  }

  // ----- next_in_service -----

  /** next_in_service is NULL exactly when nothing is active, and otherwise on an active tree. */
  ghost predicate NextOk(s: Sched) {
    && (s.next.None? <==> NothingActiveFrom(s, 0))
    && (s.next.Some? ==> s.next.value < |s.es| && s.es[s.next.value].at == OnActive)
  }

  ghost predicate Inv(s: Sched) {
    Core(s) && StOk(s) && NextOk(s)
  }

  lemma ActiveMeansNode(s: Sched, i: nat)
    requires TreesOk(s) && i < |s.es| && s.es[i].at == OnActive
    ensures s.st[s.es[i].cls].active.Node? && !NothingActiveFrom(s, 0)
  {
    assert ClassOk(s, s.es[i].cls);
    assert ActiveAgrees(s, s.es[i].cls, i);
  }

  lemma SetNext(s: Sched, next: Option<nat>)
    requires Core(s) && StOk(s)
    ensures Core(s.(next := next)) && StOk(s.(next := next))
  {
    var r := s.(next := next);
    TreesFrame(s, r);
    forall j | 0 <= j < |r.es| ensures Linked(r, j) { assert Linked(s, j); }
  }

  lemma UpdateNextInv(s: Sched, changed: Option<nat>, expiration: bool, starved: bool, now: int)
    requires Core(s) && StOk(s)
    requires changed.Some? ==> changed.value < |s.es| && s.es[changed.value].at == OnActive
    ensures Inv(UpdateNext(s, changed, expiration, starved, now))
  {
    if changed.Some? && TakesOver(s, changed.value) {
      SetNext(s, changed);
      ActiveMeansNode(s, changed.value);
    } else {
      LookupFinds(s, expiration, starved, now);
      var f := Lookup(s, expiration, starved, now);
      SetNext(f.s, if f.k.Some? then Some(f.k.value.id) else None);
    }
  }

  lemma ActivateRequeueInv(s: Sched, i: nat, nonBlocking: bool, expiration: bool, env: Env)
    requires Inv(s) && i < |s.es|
    ensures Inv(ActivateRequeue(s, i, nonBlocking, expiration, env))
  {
    var s' := if s.inService == Some(i) || s.es[i].at == OnActive then Requeue(s, i, env.level, env.fix)
              else Activate(s, i, nonBlocking, env.level);
    if s.inService == Some(i) || s.es[i].at == OnActive {
      RequeueKeeps(s, i, env.level, env.fix);
    } else {
      ActivateKeeps(s, i, nonBlocking, env.level);
    }
    OnlyLinked(s, s', i);
    UpdateNextInv(s', Some(i), expiration, env.starved, env.now);
  }

  // ----- deactivation -----

  lemma IdleExtractAfterSet(s: Sched, i: nat, e: Entity)
    requires Shape(s) && i < |s.es| && Shape(SetE(s, i, e)) && e.cls == s.es[i].cls
    ensures IdleExtract(SetE(s, i, e), i) == SetE(IdleExtract(s, i), i, e.(at := Nowhere))
  {
    var l, r := IdleExtract(SetE(s, i, e), i), SetE(IdleExtract(s, i), i, e.(at := Nowhere));
    assert l.es == r.es && l.st == r.st;
  }

  /** An entity can be charged while still on its tree, since it is then taken off it. */
  lemma OffTreeCore(s: Sched, i: nat, e: Entity, fix: EraseFix)
    requires Core(s) && StOk(s) && i < |s.es| && s.es[i].onSt && Shape(SetE(s, i, e))
    requires e == s.es[i].(finish := e.finish, service := e.service)
    ensures var r := OffTree(SetE(s, i, e), i, fix); Core(r) && Only(s, r, i) && r.es[i] == e.(at := Nowhere)
  {
    assert Linked(s, i);
    match s.es[i].at {
      case OnActive =>
        ActiveExtractCore(s, i, fix);
        ExtractAfterSet(s, i, e, fix);
        SetOffTreeCore(ActiveExtract(s, i, fix), i, e.(at := Nowhere));
      case OnIdle =>
        IdleExtractCore(s, i);
        IdleExtractAfterSet(s, i, e);
        SetOffTreeCore(IdleExtract(s, i), i, e.(at := Nowhere));
      case Nowhere =>
        SetOffTreeCore(s, i, e);
    }
  }

  lemma TakeOffKeeps(s: Sched, i: nat, intoIdle: bool, fix: EraseFix)
    requires Core(s) && StOk(s) && i < |s.es| && s.es[i].onSt
    ensures var r := TakeOff(s, i, intoIdle, fix);
            && Core(r) && StOk(r) && r.next == s.next && |r.es| == |s.es| && r.es[i].at != OnActive
            && forall j :: 0 <= j < |s.es| && j != i ==> r.es[j] == s.es[j]
  {
    var e := Charged(s, i);
    OffTreeCore(s, i, e, fix);
    var s1 := OffTree(SetE(s, i, e), i, fix);
    var s2 := if s.inService == Some(i) then s1.(inService := None) else s1;
    TreesFrame(s1, s2);
    var r := TakeOff(s, i, intoIdle, fix);
    if !intoIdle || s2.es[i].finish <= s2.st[s2.es[i].cls].vtime {
      ForgetCore(s2, i);
    } else {
      IdleInsertCore(s2, i);
    }
    forall j | 0 <= j < |r.es| ensures Linked(r, j) { assert Linked(s, j); }
  }

  lemma DeactivateInv(s: Sched, i: nat, intoIdle: bool, expiration: bool, env: Env)
    requires Inv(s) && i < |s.es|
    ensures Inv(Deactivate(s, i, intoIdle, expiration, env))
  {
    if s.es[i].onSt {
      TakeOffKeeps(s, i, intoIdle, env.fix);
      var s' := TakeOff(s, i, intoIdle, env.fix);
      if s'.next == Some(i) {
        UpdateNextInv(s', None, expiration, env.starved, env.now);
      } else if s'.next.Some? {
        ActiveMeansNode(s', s'.next.value);
      } else {
        StillNothing(s, s');
      }
    }
  }

  /** Where nothing is active, no operation that activates nothing makes a tree grow. */
  lemma StillNothing(s: Sched, r: Sched)
    requires TreesOk(s) && TreesOk(r) && |r.es| == |s.es| && NothingActiveFrom(s, 0)
    requires forall j :: 0 <= j < |s.es| && s.es[j].at != OnActive ==> r.es[j].at != OnActive
    ensures NothingActiveFrom(r, 0)
  {
    forall c | 0 <= c < CLASSES ensures r.st[c].active.Leaf? {
      if r.st[c].active.Node? {
        var k := r.st[c].active.key;
        assert InTree(r.st[c].active, k);
        InTreeActive(r, c, k);
        ActiveMeansNode(s, k.id);
        assert false;
      }
    }
  }

  // ----- selection, reset, charging, weights -----

  lemma GetNextInv(s: Sched, env: Env)
    requires Inv(s) && s.next.Some? && s.inService.None?
    ensures Inv(GetNext(s, env)) && GetNext(s, env).inService == s.next
  {
    var i := s.next.value;
    var s0 := s.(inService := Some(i));
    TreesFrame(s, s0);
    ActiveExtractCore(s0, i, env.fix);
    var s1 := ActiveExtract(s0, i, env.fix);
    forall j | 0 <= j < |s1.es| ensures Linked(s1, j) { assert Linked(s, j); }
    UpdateNextInv(s1, None, false, env.starved, env.now);
    LookupFinds(s1, false, env.starved, env.now);
  }

  lemma ResetInv(s: Sched)
    requires Inv(s) && (s.inService.Some? ==> s.es[s.inService.value].at == OnActive)
    ensures Inv(Reset(s))
  {
    TreesFrame(s, Reset(s));
    forall j | 0 <= j < |s.es| ensures Linked(Reset(s), j) { assert Linked(s, j); }
  }

  /** bfq_bfqq_served never divides by zero: the sum covers the weight of the entity charged. */
  lemma ServedDefined(s: Sched, i: nat)
    requires Inv(s) && i < |s.es| && s.es[i].onSt
    ensures s.st[s.es[i].cls].wsum >= s.es[i].weight >= 1
  {
    WeightSumBound(s.es, i, s.es[i].cls);
  }

  lemma SameActiveInv(s: Sched, r: Sched)
    requires Inv(s) && Core(r) && StOk(r) && SameActive(s, r)
    ensures Inv(r)
  {
  }

  /** Charging an entity, before the vtime of its class advances. */
  lemma ChargeInv(s: Sched, i: nat, served: nat)
    requires Inv(s) && i < |s.es|
    ensures var r := SetE(s, i, s.es[i].(service := s.es[i].service + served)); Inv(r) && SameActive(s, r)
  {
    QuietInv(s, i, s.es[i].(service := s.es[i].service + served));
  }

  lemma AdvanceInv(s: Sched, c: nat, v: int)
    requires Inv(s) && c < CLASSES
    ensures Inv(ForgetIdle(SetSt(s, c, s.st[c].(vtime := v)), c))
  {
    var r := SetSt(s, c, s.st[c].(vtime := v));
    VtimeCore(s, c, v);
    forall j | 0 <= j < |r.es| ensures Linked(r, j) { assert Linked(s, j); }
    ForgetIdleKeeps(r, c);
    SameActiveTrans(s, r, ForgetIdle(r, c));
    SameActiveInv(s, ForgetIdle(r, c));
  }

  lemma ServedInv(s: Sched, i: nat, served: nat)
    requires Inv(s) && i < |s.es| && s.es[i].onSt
    ensures s.st[s.es[i].cls].wsum >= 1 && Inv(Served(s, i, served))
  {
    ServedDefined(s, i);
    var s1 := SetE(s, i, s.es[i].(service := s.es[i].service + served));
    var c := s.es[i].cls;
    var v := s.st[c].vtime + Delta(served, s.st[c].wsum);
    assert Advance(s, i, served) == SetSt(s1, c, s1.st[c].(vtime := v));
    assert Inv(s1) by { ChargeInv(s, i, served); }
    AdvanceInv(s1, c, v);
  }

  /** A weight change outside activation, as bfq_update_wr_data makes, leaves the trees alone. */
  lemma UpdateWrInv(s: Sched, i: nat)
    requires Inv(s) && i < |s.es| && s.es[i].onSt
    ensures Inv(UpdateWeightPrio(s, i, false))
  {
    UpdateWeightCore(s, i, false);
    var r := UpdateWeightPrio(s, i, false);
    forall j | 0 <= j < |r.es| ensures Linked(r, j) { assert Linked(s, j); }
    SameActiveInv(s, r);
  }

  lemma QuietInv(s: Sched, i: nat, e: Entity)
    requires Inv(s) && i < |s.es| && Shape(SetE(s, i, e)) && SameKeys(s.es[i], e)
    requires e.onSt == s.es[i].onSt && e.weight == s.es[i].weight
    ensures Inv(SetE(s, i, e))
  {
    var r := SetE(s, i, e);
    TreesFrame(s, r);
    SumsSetE(s, i, e);
    forall j | 0 <= j < |r.es| ensures Linked(r, j) { assert Linked(s, j); }
  }

  lemma NewQueueInv(s: Sched, weight: nat, cls: nat)
    requires Inv(s) && weight >= 1 && cls < CLASSES
    ensures Inv(NewQueue(s, weight, cls))
  {
    var r := NewQueue(s, weight, cls);
    assert r.es[..|s.es|] == s.es;
    forall c | 0 <= c < CLASSES ensures ClassOk(r, c) {
      assert ClassOk(s, c);
      forall j | 0 <= j < |r.es| ensures ActiveAgrees(r, c, j) && IdleAgrees(r, c, j) {
        if j < |s.es| {
          assert ActiveAgrees(s, c, j) && IdleAgrees(s, c, j);
          assert KeyOf(r, j) == KeyOf(s, j);
        }
      }
    }
    forall j | 0 <= j < |r.es| ensures Linked(r, j) { assert j < |s.es| ==> Linked(s, j); }
  }
}
