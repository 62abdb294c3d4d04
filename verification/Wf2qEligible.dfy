/**
Eligibility over every run: next_in_service is eligible whenever anything of its class is, virtual time
does not go back while something is active, and so an eligible entity stays eligible until it is served.
*/
module Wf2qEligible {
  import opened Options
  import ActiveTree
  import ActiveTreeProofs
  import opened Wf2qModel
  import opened Wf2qTrees
  import opened Wf2qInvariant
  import opened Wf2qRuns
  import opened Wf2qPriority

  ghost predicate Eligible(s: Sched, i: nat)
    requires Shape(s) && i < |s.es|
  {
    s.es[i].start <= s.st[s.es[i].cls].vtime
  }

  /** Entity i starts no later than any active entity of its class. */
  ghost predicate StartsFirst(s: Sched, i: nat)
    requires i < |s.es|
  {
    forall j :: 0 <= j < |s.es| && s.es[j].at == OnActive && s.es[j].cls == s.es[i].cls ==>
      s.es[i].start <= s.es[j].start
  }

  /** next_in_service is eligible, or the one of its class to become eligible first. */
  ghost predicate NextFair(s: Sched)
    requires Shape(s)
  {
    s.next.Some? ==> s.next.value < |s.es| && (Eligible(s, s.next.value) || StartsFirst(s, s.next.value))
  }

  // ----- what changes start times and virtual times -----

  /** Starts, classes and what is active are the same. */
  ghost predicate SameStarts(s: Sched, r: Sched) {
    && |r.es| == |s.es|
    && forall j :: 0 <= j < |s.es| ==>
         && r.es[j].start == s.es[j].start && r.es[j].cls == s.es[j].cls
         && (r.es[j].at == OnActive <==> s.es[j].at == OnActive)
  }

  ghost predicate VtimeGrows(s: Sched, r: Sched) {
    |r.st| == CLASSES == |s.st| && forall c :: 0 <= c < CLASSES ==> s.st[c].vtime <= r.st[c].vtime
  }

  lemma PutIdleTimes(s: Sched, i: nat)
    requires Shape(s) && i < |s.es| && s.es[i].at != OnActive
    ensures SameStarts(s, PutIdle(s, i)) && forall c :: 0 <= c < CLASSES ==> PutIdle(s, i).st[c].vtime == s.st[c].vtime
  {
  }

  /** A visit to the idle tree moves virtual time back only if nothing of the class is active. */
  lemma ForgetIdleTimes(s: Sched, c: nat)
    requires Core(s) && StOk(s) && c < CLASSES
    ensures var r := ForgetIdle(s, c);
            && SameStarts(s, r)
            && forall d :: 0 <= d < CLASSES && (d != c || s.st[c].active.Node?) ==> r.st[d].vtime == s.st[d].vtime
  {
    JumpBackKeeps(s, c);
    assert ClassOk(s, c);
    var s', f := JumpBack(s, c), s.st[c].firstIdle;
    assert SameStarts(s, s');
    if f.Some? && s.es[f.value].finish <= s'.st[c].vtime {
      assert IdleAgrees(s, c, f.value);
      PutIdleTimes(s', f.value);
    }
  }

  lemma LookupClassTimes(s: Sched, c: nat, inService: bool)
    requires Core(s) && StOk(s) && c < CLASSES
    ensures var f := LookupClass(s, c, inService); SameStarts(s, f.s) && VtimeGrows(s, f.s)
  {
    var t := s.st[c];
    if t.active.Node? {
      var v := Later(t.active.minStart, t.vtime);
      if !inService && v > t.vtime {
        var s1 := SetSt(s, c, t.(vtime := v));
        VtimeCore(s, c, v);
        forall j | 0 <= j < |s1.es| ensures Linked(s1, j) { assert Linked(s, j); }
        ForgetIdleTimes(s1, c);
      }
    }
  }

  lemma TimesTrans(a: Sched, b: Sched, c: Sched)
    requires SameStarts(a, b) && VtimeGrows(a, b) && SameStarts(b, c) && VtimeGrows(b, c)
    ensures SameStarts(a, c) && VtimeGrows(a, c)
  {
  }

  lemma {:induction false} LookupFromTimes(s: Sched, c: nat, inService: bool)
    requires Core(s) && StOk(s) && c <= CLASSES
    ensures var f := LookupFrom(s, c, inService); SameStarts(s, f.s) && VtimeGrows(s, f.s)
    decreases CLASSES - c
  {
    if c < CLASSES {
      LookupClassTimes(s, c, inService);
      LookupClassChosen(s, c, inService);
      var f := LookupClass(s, c, inService);
      if f.k.None? {
        LookupFromTimes(f.s, c + 1, inService);
        TimesTrans(s, f.s, LookupFrom(f.s, c + 1, inService).s);
      }
    }
  }

  lemma UpdateNextTimes(s: Sched, changed: Option<nat>, expiration: bool, starved: bool, now: int)
    requires Core(s) && StOk(s) && (changed.Some? ==> changed.value < |s.es|)
    ensures var r := UpdateNext(s, changed, expiration, starved, now); SameStarts(s, r) && VtimeGrows(s, r)
  {
    if changed.None? || !TakesOver(s, changed.value) {
      var s' := if starved then s.(idleServed := now) else s;
      TreesFrame(s, s');
      forall j | 0 <= j < |s'.es| ensures Linked(s', j) { assert Linked(s, j); }
      LookupFromTimes(s', FirstClass(s, starved), s.inService.Some? && !expiration);
    }
  }

  // ----- what a lookup picks -----

  lemma LeastStart(s: Sched, j: nat)
    requires TreesOk(s) && j < |s.es| && s.es[j].at == OnActive
    ensures s.st[s.es[j].cls].active.Node? && s.st[s.es[j].cls].active.minStart <= s.es[j].start
  {
    var c := s.es[j].cls;
    assert ClassOk(s, c) && ActiveAgrees(s, c, j);
    ActiveTreeProofs.MinIsLeast(s.st[c].active);
  }

  lemma ChosenFair(s: Sched, c: nat, k: ActiveTree.Key, inService: bool)
    requires Core(s) && Chosen(s, c, k, inService)
    ensures Eligible(s, k.id) || StartsFirst(s, k.id)
  {
    forall j | 0 <= j < |s.es| && s.es[j].at == OnActive && s.es[j].cls == s.es[k.id].cls && !Eligible(s, k.id)
      ensures s.es[k.id].start <= s.es[j].start
    {
      LeastStart(s, j);
    }
  }

  lemma UpdateNextFair(s: Sched, changed: Option<nat>, expiration: bool, starved: bool, now: int)
    requires Core(s) && StOk(s) && (changed.Some? ==> changed.value < |s.es|)
    requires changed.Some? && s.next.None? ==> OnlyActive(s, changed.value)
    requires s.next.Some? ==> s.next.value < |s.es|
    ensures NextFair(UpdateNext(s, changed, expiration, starved, now))
  {
    if changed.None? || !TakesOver(s, changed.value) {
      LookupFinds(s, expiration, starved, now);
      var f := Lookup(s, expiration, starved, now);
      if f.k.Some? { ChosenFair(f.s, FirstClass(s, starved), f.k.value, s.inService.Some? && !expiration); }
    }
  }

  // ----- the operations -----

  ghost predicate SameVtimes(s: Sched, r: Sched) {
    |r.st| == CLASSES == |s.st| && forall c :: 0 <= c < CLASSES ==> r.st[c].vtime == s.st[c].vtime
  }

  lemma EnqueueVtimes(s: Sched, i: nat, backshifted: bool, level: nat)
    requires Shape(s) && i < |s.es|
    ensures SameVtimes(s, Enqueue(s, i, backshifted, level))
  {
    var s1 := UpdateWeightPrio(s, i, true);
    assert SameVtimes(s, s1);
    assert SameVtimes(s1, Retime(s1, i, backshifted));
  }

  lemma ActivateVtimes(s: Sched, i: nat, nonBlocking: bool, level: nat)
    requires Shape(s) && i < |s.es|
    ensures SameVtimes(s, Activate(s, i, nonBlocking, level))
  {
    var e := s.es[i];
    var backshifted := nonBlocking && s.st[e.cls].vtime > e.finish;
    var minStart := if backshifted then e.finish else s.st[e.cls].vtime;
    if e.at == OnIdle {
      var s1 := SetStart(IdleExtract(s, i), i, Later(minStart, e.finish));
      assert SameVtimes(s, s1);
      EnqueueVtimes(s1, i, backshifted, level);
    } else {
      var s1 := Join(SetStart(s, i, minStart), i);
      assert SameVtimes(s, s1);
      EnqueueVtimes(s1, i, backshifted, level);
    }
  }

  lemma RequeueVtimes(s: Sched, i: nat, level: nat, fix: ActiveTree.EraseFix)
    requires Shape(s) && i < |s.es|
    ensures SameVtimes(s, Requeue(s, i, level, fix))
  {
    if s.inService == Some(i) {
      var s1 := CalcFinish(s, i, s.es[i].service);
      var s2 := SetE(s1, i, s1.es[i].(start := s1.es[i].finish));
      var s3 := if s2.es[i].at != Nowhere then ActiveExtract(s2, i, fix) else s2;
      assert SameVtimes(s, s3);
      EnqueueVtimes(s3, i, false, level);
    } else {
      assert SameVtimes(s, ActiveExtract(s, i, fix));
      EnqueueVtimes(ActiveExtract(s, i, fix), i, false, level);
    }
  }

  lemma TakeOffVtimes(s: Sched, i: nat, intoIdle: bool, fix: ActiveTree.EraseFix)
    requires Shape(s) && i < |s.es|
    ensures SameVtimes(s, TakeOff(s, i, intoIdle, fix))
  {
    var s0 := SetE(s, i, Charged(s, i));
    var s1 := OffTree(s0, i, fix);
    assert SameVtimes(s, s1);
  }

  /** The first half of an activation: the entity is on an active tree, others are as they were. */
  ghost function Enqueued(s: Sched, i: nat, nonBlocking: bool, env: Env): (r: Sched)
    requires Shape(s) && i < |s.es|
    ensures Shape(r) && |r.es| == |s.es|
  {
    if s.inService == Some(i) || s.es[i].at == OnActive then Requeue(s, i, env.level, env.fix)
    else Activate(s, i, nonBlocking, env.level)
  }

  lemma EnqueuedIs(s: Sched, i: nat, nonBlocking: bool, env: Env)
    requires Inv(s) && i < |s.es|
    ensures var r := Enqueued(s, i, nonBlocking, env);
            Core(r) && StOk(r) && Only(s, r, i) && r.es[i].at == OnActive && SameVtimes(s, r)
  {
    if s.inService == Some(i) || s.es[i].at == OnActive {
      RequeueKeeps(s, i, env.level, env.fix);
      RequeueVtimes(s, i, env.level, env.fix);
    } else {
      ActivateKeeps(s, i, nonBlocking, env.level);
      ActivateVtimes(s, i, nonBlocking, env.level);
    }
    OnlyLinked(s, Enqueued(s, i, nonBlocking, env), i);
  }

  lemma AloneIfNoNext(s: Sched, r: Sched, i: nat)
    requires Inv(s) && s.next.None? && Only(s, r, i) && i < |s.es|
    ensures OnlyActive(r, i)
  {
    forall j | 0 <= j < |s.es| && j != i ensures r.es[j].at != OnActive {
      if s.es[j].at == OnActive {
        ActiveMeansNode(s, j);
        assert false;
      }
    }
  }

  lemma ActivationFair(s: Sched, i: nat, nonBlocking: bool, expiration: bool, env: Env)
    requires Inv(s) && i < |s.es|
    ensures NextFair(ActivateRequeue(s, i, nonBlocking, expiration, env))
  {
    var r := Enqueued(s, i, nonBlocking, env);
    EnqueuedIs(s, i, nonBlocking, env);
    if s.next.None? { AloneIfNoNext(s, r, i); }
    UpdateNextFair(r, Some(i), expiration, env.starved, env.now);
  }

  lemma DeactivationFair(s: Sched, i: nat, intoIdle: bool, expiration: bool, env: Env)
    requires Inv(s) && NextFair(s) && i < |s.es|
    ensures NextFair(Deactivate(s, i, intoIdle, expiration, env))
  {
    if s.es[i].onSt {
      TakeOffKeeps(s, i, intoIdle, env.fix);
      TakeOffVtimes(s, i, intoIdle, env.fix);
      var r := TakeOff(s, i, intoIdle, env.fix);
      if r.next == Some(i) { UpdateNextFair(r, None, expiration, env.starved, env.now); }
    }
  }

  /** What bfq_get_next_queue has done before it updates next_in_service. */
  ghost function Taken(s: Sched, env: Env): (r: Sched)
    requires Shape(s) && s.next.Some? && s.next.value < |s.es|
    ensures Shape(r) && |r.es| == |s.es|
  {
    ActiveExtract(s.(inService := s.next), s.next.value, env.fix)
  }

  lemma TakenIs(s: Sched, env: Env)
    requires Inv(s) && s.next.Some? && s.inService.None?
    ensures var r := Taken(s, env);
            && Core(r) && StOk(r) && SameVtimes(s, r) && r.next == s.next && r.es[s.next.value].at != OnActive
            && forall j :: 0 <= j < |s.es| && j != s.next.value ==> r.es[j] == s.es[j]
  {
    var s0 := s.(inService := s.next);
    TreesFrame(s, s0);
    ActiveExtractCore(s0, s.next.value, env.fix);
    var r := Taken(s, env);
    forall j | 0 <= j < |r.es| ensures Linked(r, j) { assert Linked(s, j); }
  }

  lemma ServiceTimes(s: Sched, i: nat, served: nat)
    requires Inv(s) && i < |s.es| && s.es[i].onSt
    ensures s.st[s.es[i].cls].wsum >= 1
    ensures var r := Served(s, i, served);
            && SameStarts(s, r) && r.next == s.next
            && forall c :: 0 <= c < CLASSES && s.st[c].active.Node? ==> s.st[c].vtime <= r.st[c].vtime
  {
    ServedDefined(s, i);
    var c, s1 := s.es[i].cls, SetE(s, i, s.es[i].(service := s.es[i].service + served));
    ChargeInv(s, i, served);
    var v := s.st[c].vtime + Delta(served, s.st[c].wsum);
    var s2 := SetSt(s1, c, s1.st[c].(vtime := v));
    assert Advance(s, i, served) == s2;
    VtimeCore(s1, c, v);
    forall j | 0 <= j < |s2.es| ensures Linked(s2, j) { assert Linked(s1, j); }
    ForgetIdleTimes(s2, c);
    DeltaPositive(served, s.st[c].wsum);
  }

  lemma DeltaPositive(service: nat, weight: int)
    requires weight >= 1
    ensures Delta(service, weight) >= 0
  {
  }

  /** As long as starts stay and virtual time does not go back, a fair choice stays fair. */
  lemma StaysFair(s: Sched, r: Sched)
    requires Inv(s) && Shape(r) && NextFair(s) && SameStarts(s, r) && r.next == s.next
    requires forall c :: 0 <= c < CLASSES && s.st[c].active.Node? ==> s.st[c].vtime <= r.st[c].vtime
    ensures NextFair(r)
  {
    if s.next.Some? { ActiveMeansNode(s, s.next.value); }
  }

  // ----- one step -----

  lemma ServiceFair(s: Sched, i: nat, served: nat)
    requires Inv(s) && NextFair(s) && i < |s.es| && s.es[i].onSt && s.st[s.es[i].cls].wsum >= 1
    ensures NextFair(Served(s, i, served))
  {
    ServiceTimes(s, i, served);
    StaysFair(s, Served(s, i, served));
  }

  /** The actions that move nothing in virtual time. */
  ghost predicate Quiet(a: Action) {
    a.Create? || a.ChangePrio? || a.Budget? || a.ResetInService? || a.Reweigh?
  }

  lemma QuietFair(s: Sched, a: Action)
    requires Inv(s) && Enabled(s, a) && NextFair(s) && Quiet(a)
    ensures NextFair(Apply(s, a))
  {
    if a.Create? {
      assert NextFair(NewQueue(s, a.weight, a.cls));
    } else {
      StaysFair(s, Apply(s, a));
    }
  }

  lemma StepFair(s: Sched, a: Action)
    requires Inv(s) && Enabled(s, a) && NextFair(s)
    ensures NextFair(Apply(s, a))
  {
    match a {
      case Activation(i, nonBlocking, expiration, env) => ActivationFair(s, i, nonBlocking, expiration, env);
      case Deactivation(i, intoIdle, expiration, env) => DeactivationFair(s, i, intoIdle, expiration, env);
      case Selection(env) =>
        TakenIs(s, env);
        UpdateNextFair(Taken(s, env), None, false, env.starved, env.now);
      case Service(i, served) =>
        ServedDefined(s, i);
        ServiceFair(s, i, served);
      case _ => QuietFair(s, a);
    }
  }

  lemma {:induction false} RunFair(s: Sched, run: seq<Action>)
    requires Inv(s) && CanRun(s, run) && NextFair(s)
    ensures Inv(After(s, run)) && NextFair(After(s, run))
    decreases |run|
  {
    if run != [] {
      StepInv(s, run[0]);
      StepFair(s, run[0]);
      RunFair(Apply(s, run[0]), run[1..]);
    }
  }

  /** Some active entity of the class is eligible. */
  ghost predicate ClassEligible(s: Sched, c: nat)
    requires Shape(s)
  {
    exists j :: 0 <= j < |s.es| && s.es[j].at == OnActive && s.es[j].cls == c && Eligible(s, j)
  }

  /**
  In every reachable state the entity a selection would serve is eligible if and only if any active
  entity of its class is: never is an eligible one passed over for one that is not.
  */
  lemma ServesEligible(s0: Sched, run: seq<Action>, env: Env)
    requires RunOf(s0, run)
    ensures var s := After(s0, run);
            Inv(s) && (Enabled(s, Selection(env)) ==>
                         GetNext(s, env).inService == s.next
                         && (Eligible(s, s.next.value) <==> ClassEligible(s, s.es[s.next.value].cls)))
  {
    RunKeeps(s0, run);
    RunFair(s0, run);
    var s := After(s0, run);
    if Enabled(s, Selection(env)) {
      GetNextInv(s, env);
      var i := s.next.value;
      if ClassEligible(s, s.es[i].cls) {
        var j :| 0 <= j < |s.es| && s.es[j].at == OnActive && s.es[j].cls == s.es[i].cls && Eligible(s, j);
        assert Eligible(s, i);
      }
    }
  }

  // ----- virtual time over runs -----

  lemma VtimeMonotone(s: Sched, a: Action, c: nat)
    requires Inv(s) && Enabled(s, a) && c < CLASSES
    requires s.st[c].active.Node? || !a.Service?
    ensures Shape(Apply(s, a)) && s.st[c].vtime <= Apply(s, a).st[c].vtime
  {
    StepInv(s, a);
    match a {
      case Activation(i, nonBlocking, expiration, env) =>
        EnqueuedIs(s, i, nonBlocking, env);
        UpdateNextTimes(Enqueued(s, i, nonBlocking, env), Some(i), expiration, env.starved, env.now);
      case Deactivation(i, intoIdle, expiration, env) =>
        if s.es[i].onSt {
          TakeOffKeeps(s, i, intoIdle, env.fix);
          TakeOffVtimes(s, i, intoIdle, env.fix);
          var r := TakeOff(s, i, intoIdle, env.fix);
          if r.next == Some(i) { UpdateNextTimes(r, None, expiration, env.starved, env.now); }
        }
      case Selection(env) =>
        TakenIs(s, env);
        UpdateNextTimes(Taken(s, env), None, false, env.starved, env.now);
      case Service(i, served) => ServiceTimes(s, i, served);
      case _ =>
    }
  }

  lemma ServedBack(s: Sched, i: nat, served: nat, c: nat)
    requires Inv(s) && i < |s.es| && s.es[i].onSt && s.st[s.es[i].cls].wsum >= 1 && c < CLASSES
    ensures Served(s, i, served).st[c].vtime < s.st[c].vtime <==>
              && s.es[i].cls == c && s.st[c].active.Leaf? && s.st[c].lastIdle.Some?
              && s.st[c].lastIdle.value < |s.es| && s.es[s.st[c].lastIdle.value].finish < s.st[c].vtime
  {
    var s1 := Advance(s, i, served);
    DeltaPositive(served, s.st[s.es[i].cls].wsum);
    var s2, f := JumpBack(s1, s.es[i].cls), s1.st[s.es[i].cls].firstIdle;
    if f.Some? && f.value < |s.es| { assert SameVtimes(s2, PutIdle(s2, f.value)); }
  }

  /**
  The virtual time of a class goes back if and only if the class is charged while nothing of it is active
  and the last of its idle entities finished before.
  */
  lemma VtimeExact(s: Sched, a: Action, c: nat)
    requires Inv(s) && Enabled(s, a) && c < CLASSES
    ensures Shape(Apply(s, a))
    ensures Apply(s, a).st[c].vtime < s.st[c].vtime <==>
              && a.Service? && s.es[a.i].cls == c && s.st[c].active.Leaf? && s.st[c].lastIdle.Some?
              && s.st[c].lastIdle.value < |s.es| && s.es[s.st[c].lastIdle.value].finish < s.st[c].vtime
  {
    if a.Service? {
      StepInv(s, a);
      ServedDefined(s, a.i);
      ServedBack(s, a.i, a.served, c);
    } else {
      VtimeMonotone(s, a, c);
    }
  }

  /** On the active tree and not in service. */
  ghost predicate Waiting(s: Sched, i: nat) {
    i < |s.es| && s.es[i].at == OnActive && s.inService != Some(i)
  }

  /** A requeue of a waiting entity keeps its start, or moves it to the virtual time of its new class. */
  lemma RequeueStart(s: Sched, i: nat, level: nat, fix: ActiveTree.EraseFix)
    requires Shape(s) && Waiting(s, i)
    ensures var r := Requeue(s, i, level, fix).es[i];
            r.cls < CLASSES && if r.cls == s.es[i].cls then r.start == s.es[i].start else r.start == s.st[r.cls].vtime
  {
    var s1 := ActiveExtract(s, i, fix);
    var s2 := UpdateWeightPrio(s1, i, true);
    assert s2.es[i].cls < CLASSES;
  }

  lemma ActivationStays(s: Sched, i: nat, k: nat, nonBlocking: bool, expiration: bool, env: Env)
    requires Inv(s) && k < |s.es| && Waiting(s, i) && Eligible(s, i)
    ensures Eligible(ActivateRequeue(s, k, nonBlocking, expiration, env), i)
  {
    var r := Enqueued(s, k, nonBlocking, env);
    EnqueuedIs(s, k, nonBlocking, env);
    if k == i { RequeueStart(s, i, env.level, env.fix); }
    assert Eligible(r, i);
    UpdateNextTimes(r, Some(k), expiration, env.starved, env.now);
  }

  lemma DeactivationStays(s: Sched, i: nat, k: nat, intoIdle: bool, expiration: bool, env: Env)
    requires Inv(s) && k < |s.es| && Waiting(s, i) && Eligible(s, i)
    ensures var r := Deactivate(s, k, intoIdle, expiration, env); Waiting(r, i) ==> Eligible(r, i)
  {
    if s.es[k].onSt {
      TakeOffKeeps(s, k, intoIdle, env.fix);
      TakeOffVtimes(s, k, intoIdle, env.fix);
      var r := TakeOff(s, k, intoIdle, env.fix);
      if r.next == Some(k) { UpdateNextTimes(r, None, expiration, env.starved, env.now); }
    }
  }

  lemma SelectionStays(s: Sched, i: nat, env: Env)
    requires Inv(s) && s.next.Some? && s.inService.None? && Waiting(s, i) && Eligible(s, i)
    ensures var r := GetNext(s, env); Waiting(r, i) ==> Eligible(r, i)
  {
    TakenIs(s, env);
    UpdateNextTimes(Taken(s, env), None, false, env.starved, env.now);
  }

  lemma ServiceStays(s: Sched, i: nat, k: nat, served: nat)
    requires Inv(s) && k < |s.es| && s.es[k].onSt && s.st[s.es[k].cls].wsum >= 1 && Waiting(s, i) && Eligible(s, i)
    ensures Eligible(Served(s, k, served), i)
  {
    ServiceTimes(s, k, served);
    ActiveMeansNode(s, i);
  }

  lemma StepStays(s: Sched, a: Action, i: nat)
    requires Inv(s) && Enabled(s, a) && Waiting(s, i) && Eligible(s, i)
    ensures var r := Apply(s, a); Shape(r) && (Waiting(r, i) ==> Eligible(r, i))
  {
    StepInv(s, a);
    match a {
      case Activation(k, nonBlocking, expiration, env) => ActivationStays(s, i, k, nonBlocking, expiration, env);
      case Deactivation(k, intoIdle, expiration, env) => DeactivationStays(s, i, k, intoIdle, expiration, env);
      case Selection(env) => SelectionStays(s, i, env);
      case Service(k, served) =>
        ServedDefined(s, k);
        ServiceStays(s, i, k, served);
      case _ =>
    }
  }

  /** Entity i waits in every state of the run. */
  ghost predicate WaitsThrough(s: Sched, run: seq<Action>, i: nat)
    requires Inv(s) && CanRun(s, run)
    decreases |run|
  {
    Waiting(s, i) && (run != [] ==> (StepInv(s, run[0]); WaitsThrough(Apply(s, run[0]), run[1..], i)))
  }

  /**
  An eligible entity stays eligible as long as it waits: whatever is activated, requeued (itself
  included, with a new weight or class), deactivated, selected or charged in the meantime.
  */
  lemma {:induction false} StaysEligible(s: Sched, run: seq<Action>, i: nat)
    requires Inv(s) && CanRun(s, run) && WaitsThrough(s, run, i) && Eligible(s, i)
    ensures Waiting(After(s, run), i) && Inv(After(s, run)) && Eligible(After(s, run), i)
    decreases |run|
  {
    if run != [] {
      StepInv(s, run[0]);
      StepStays(s, run[0], i);
      StaysEligible(Apply(s, run[0]), run[1..], i);
    }
  }

  // ----- activation -----

  lemma TimesAtLeastTwice(a: int, b: int)
    requires a >= 0 && b >= 2
    ensures a * b >= 2 * a
  {
  }

  lemma Share(behind: int, wrCoeff: int)
    requires behind > 0 && wrCoeff >= 1
    ensures behind / wrCoeff <= behind && (behind / wrCoeff < behind <==> wrCoeff > 1)
  {
    var part := behind / wrCoeff;
    assert part * wrCoeff <= behind;
    if wrCoeff > 1 && part > 0 { TimesAtLeastTwice(part, wrCoeff); }
  }

  lemma RetimeFinish(s: Sched, i: nat, backshifted: bool)
    requires Shape(s) && i < |s.es|
    requires backshifted || s.es[i].start >= s.st[s.es[i].cls].vtime
    ensures var e, a, vtime := s.es[i], Retime(s, i, backshifted).es[i], s.st[s.es[i].cls].vtime;
            && a.finish - a.start == Delta(e.budget, e.weight) && a.cls == e.cls
            && (a.finish < vtime <==> e.wrCoeff > 1 && e.start + Delta(e.budget, e.weight) < vtime)
  {
    var e, vtime := s.es[i], s.st[s.es[i].cls].vtime;
    DeltaPositive(e.budget, e.weight);
    var finish := e.start + Delta(e.budget, e.weight);
    if finish < vtime { Share(vtime - finish, e.wrCoeff); }
  }

  /** The entity with the weight and class it asked for. */
  ghost function Pending(e: Entity): (r: Entity)
    requires e.weight >= 1 && e.origWeight >= 1 && e.wrCoeff >= 1
    ensures r.weight >= 1
  {
    var r := if e.prioChanged then Reweighed(e, true) else e;
    TimesAtLeastOne(r.origWeight, r.wrCoeff);
    r
  }

  lemma UpdateWeightStart(s: Sched, i: nat)
    requires Shape(s) && i < |s.es|
    ensures var e, a := s.es[i], UpdateWeightPrio(s, i, true).es[i];
            && a.cls == Pending(e).cls < CLASSES && a.weight == Pending(e).weight
            && a.wrCoeff == e.wrCoeff && a.budget == e.budget
            && a.start == if a.cls == e.cls then e.start else s.st[a.cls].vtime
  {
    assert Shape(UpdateWeightPrio(s, i, true));
  }

  lemma EnqueueFinish(s: Sched, i: nat, backshifted: bool, level: nat)
    requires Shape(s) && i < |s.es|
    requires backshifted || s.es[i].start >= s.st[s.es[i].cls].vtime
    ensures var e, a := s.es[i], Enqueue(s, i, backshifted, level).es[i];
            && a.finish - a.start == Delta(e.budget, Pending(e).weight) && a.cls == Pending(e).cls < CLASSES
            && (a.finish < s.st[a.cls].vtime <==>
                  && e.wrCoeff > 1 && Pending(e).cls == e.cls
                  && e.start + Delta(e.budget, Pending(e).weight) < s.st[e.cls].vtime)
  {
    var s1 := UpdateWeightPrio(s, i, true);
    UpdateWeightStart(s, i);
    assert SameVtimes(s, s1);
    RetimeFinish(s1, i, backshifted);
    DeltaPositive(s1.es[i].budget, s1.es[i].weight);
  }

  ghost predicate Backshifted(s: Sched, i: nat, nonBlocking: bool)
    requires Shape(s) && i < |s.es|
  {
    nonBlocking && s.st[s.es[i].cls].vtime > s.es[i].finish
  }

  /** What __bfq_activate_entity enqueues. */
  ghost function Readied(s: Sched, i: nat, nonBlocking: bool): (r: Sched)
    requires Shape(s) && i < |s.es|
    ensures Shape(r) && |r.es| == |s.es|
  {
    var e := s.es[i];
    var minStart := if Backshifted(s, i, nonBlocking) then e.finish else s.st[e.cls].vtime;
    if e.at == OnIdle then SetStart(IdleExtract(s, i), i, Later(minStart, e.finish))
    else Join(SetStart(s, i, minStart), i)
  }

  lemma ReadiedIs(s: Sched, i: nat, nonBlocking: bool)
    requires Shape(s) && i < |s.es|
    ensures var e, r, vtime := s.es[i], Readied(s, i, nonBlocking), s.st[s.es[i].cls].vtime;
            && SameVtimes(s, r)
            && r.es[i] == e.(start := r.es[i].start, at := r.es[i].at, onSt := r.es[i].onSt)
            && if Backshifted(s, i, nonBlocking) then r.es[i].start == e.finish else r.es[i].start >= vtime
  {
  }

  lemma FinishIs(s: Sched, r: Sched, i: nat, nonBlocking: bool, level: nat)
    requires Shape(s) && Shape(r) && i < |s.es| == |r.es| && SameVtimes(s, r)
    requires r.es[i] == s.es[i].(start := r.es[i].start, at := r.es[i].at, onSt := r.es[i].onSt)
    requires if Backshifted(s, i, nonBlocking) then r.es[i].start == s.es[i].finish
             else r.es[i].start >= s.st[s.es[i].cls].vtime
    ensures var e, a := s.es[i], Enqueue(r, i, Backshifted(s, i, nonBlocking), level).es[i];
            && a.finish - a.start == Delta(e.budget, Pending(e).weight) && a.cls == Pending(e).cls < CLASSES
            && (a.finish < s.st[a.cls].vtime <==>
                  && nonBlocking && e.wrCoeff > 1 && Pending(e).cls == e.cls
                  && e.finish + Delta(e.budget, Pending(e).weight) < s.st[e.cls].vtime)
  {
    EnqueueFinish(r, i, Backshifted(s, i, nonBlocking), level);
    assert Pending(r.es[i]).weight == Pending(s.es[i]).weight && Pending(r.es[i]).cls == Pending(s.es[i]).cls;
    DeltaPositive(s.es[i].budget, Pending(s.es[i]).weight);
  }

  /**
  An activated entity has its whole budget before it, at the rate of the weight it asked for. Its finish
  time has already passed if and only if it did not block, is weight-raised, stays in its class and its
  budget counted from its last finish time does not reach the virtual time.
  */
  lemma FinishPassed(s: Sched, i: nat, nonBlocking: bool, level: nat)
    requires Shape(s) && i < |s.es|
    ensures var e, a := s.es[i], Activate(s, i, nonBlocking, level).es[i];
            && a.finish - a.start == Delta(e.budget, Pending(e).weight) && a.cls == Pending(e).cls < CLASSES
            && (a.finish < s.st[a.cls].vtime <==>
                  && nonBlocking && e.wrCoeff > 1 && Pending(e).cls == e.cls
                  && e.finish + Delta(e.budget, Pending(e).weight) < s.st[e.cls].vtime)
  {
    var backshifted := Backshifted(s, i, nonBlocking);
    var s1 := Readied(s, i, nonBlocking);
    ReadiedIs(s, i, nonBlocking);
    assert Activate(s, i, nonBlocking, level) == Enqueue(s1, i, backshifted, level);
    FinishIs(s, s1, i, nonBlocking, level);
  }

  /** A weight-raised queue with nothing to do yet, at virtual time 10. */
  const RAISED := Sched([Entity(0, 0, 0, 0, 30, 1, 1, 30, 1, 1, false, false, Nowhere)],
                        [EMPTY_TREE, EMPTY_TREE.(vtime := 10), EMPTY_TREE], None, None, 0)

  lemma RaisedInv()
    ensures Inv(RAISED)
  {
    forall c | 0 <= c < CLASSES ensures ClassOk(RAISED, c) && RAISED.st[c].wsum == WeightSum(RAISED.es, c) {
      assert RAISED.es[..0] == [];
    }
    assert Linked(RAISED, 0);
  }

  /** Activated, its finish time is still 0. */
  lemma RaisedFinishPassed()
    ensures Inv(RAISED) && Activate(RAISED, 0, true, 0).es[0].finish < RAISED.st[1].vtime
  {
    RaisedInv();
    FinishPassed(RAISED, 0, true, 0);
  }
}
