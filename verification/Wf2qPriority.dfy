/**
Strict priority between the ioprio classes: as long as no lookup finds the idle class starved,
next_in_service belongs to the first class that has anything active.
*/
module Wf2qPriority {
  import opened Options
  import opened Wf2qModel
  import opened Wf2qTrees
  import opened Wf2qInvariant
  import opened Wf2qRuns

  ghost predicate NextFirst(s: Sched) {
    s.next.Some? ==>
      && s.next.value < |s.es|
      && forall j :: 0 <= j < |s.es| && s.es[j].at == OnActive ==> s.es[s.next.value].cls <= s.es[j].cls
  }

  /** The same entities are active, with the same classes. */
  ghost predicate SameClasses(s: Sched, r: Sched) {
    && |r.es| == |s.es| && r.next == s.next
    && forall j :: 0 <= j < |s.es| ==> r.es[j].cls == s.es[j].cls && (r.es[j].at == OnActive ==> s.es[j].at == OnActive)
  }

  lemma SameClassesFirst(s: Sched, r: Sched)
    requires NextFirst(s) && SameClasses(s, r)
    ensures NextFirst(r)
  {
  }

  /** A lookup that does not find the idle class starved picks from the first class that has anything active. */
  lemma LookupFirst(s: Sched, expiration: bool, now: int)
    requires Core(s) && StOk(s)
    ensures var f := Lookup(s, expiration, false, now);
            f.k.Some? ==> f.k.value.id < |f.s.es|
                          && forall j :: 0 <= j < |f.s.es| && f.s.es[j].at == OnActive ==>
                               f.s.es[f.k.value.id].cls <= f.s.es[j].cls
  {
    LookupFinds(s, expiration, false, now);
    var f := Lookup(s, expiration, false, now);
    if f.k.Some? {
      forall j | 0 <= j < |f.s.es| && f.s.es[j].at == OnActive ensures f.s.es[f.k.value.id].cls <= f.s.es[j].cls {
        ActiveMeansNode(f.s, j);
      }
    }
  }

  /** The changed entity, if it takes over, is of the same class as the one it replaces, or the only active one. */
  lemma UpdateNextFirst(s: Sched, changed: Option<nat>, expiration: bool, now: int)
    requires Core(s) && StOk(s) && (changed.Some? ==> changed.value < |s.es|)
    requires changed.Some? && TakesOver(s, changed.value) ==>
               if s.next.Some? then NextBut(s, changed.value) else OnlyActive(s, changed.value)
    ensures NextFirst(UpdateNext(s, changed, expiration, false, now))
  {
    if changed.None? || !TakesOver(s, changed.value) {
      LookupFirst(s, expiration, now);
    }
  }

  /** next_in_service comes first among all active entities but i. */
  ghost predicate NextBut(s: Sched, i: nat) {
    && s.next.Some? && s.next.value < |s.es|
    && forall j :: 0 <= j < |s.es| && j != i && s.es[j].at == OnActive ==> s.es[s.next.value].cls <= s.es[j].cls
  }

  ghost predicate OnlyActive(s: Sched, i: nat) {
    forall j :: 0 <= j < |s.es| && j != i ==> s.es[j].at != OnActive
  }

  lemma ActivateRequeueFirst(s: Sched, i: nat, nonBlocking: bool, expiration: bool, env: Env)
    requires Inv(s) && NextFirst(s) && i < |s.es| && !env.starved
    ensures NextFirst(ActivateRequeue(s, i, nonBlocking, expiration, env))
  {
    var s' := if s.inService == Some(i) || s.es[i].at == OnActive then Requeue(s, i, env.level, env.fix)
              else Activate(s, i, nonBlocking, env.level);
    if s.inService == Some(i) || s.es[i].at == OnActive {
      RequeueKeeps(s, i, env.level, env.fix);
    } else {
      ActivateKeeps(s, i, nonBlocking, env.level);
    }
    OnlyLinked(s, s', i);
    if s.next.None? {
      forall j | 0 <= j < |s.es| && j != i ensures s'.es[j].at != OnActive {
        if s.es[j].at == OnActive {
          ActiveMeansNode(s, j);
          assert false;
        }
      }
    } else {
      NextStays(s, s', i);
    }
    UpdateNextFirst(s', Some(i), expiration, env.now);
  }

  lemma NextStays(s: Sched, r: Sched, i: nat)
    requires NextFirst(s) && NextOk(s) && s.next.Some? && Only(s, r, i) && r.next == s.next && i < |s.es|
    ensures s.next.value != i ==> NextBut(r, i)
  {
  }

  lemma DeactivateFirst(s: Sched, i: nat, intoIdle: bool, expiration: bool, env: Env)
    requires Inv(s) && NextFirst(s) && i < |s.es| && !env.starved
    ensures NextFirst(Deactivate(s, i, intoIdle, expiration, env))
  {
    if s.es[i].onSt {
      TakeOffKeeps(s, i, intoIdle, env.fix);
      var s' := TakeOff(s, i, intoIdle, env.fix);
      if s'.next == Some(i) { UpdateNextFirst(s', None, expiration, env.now); }
    }
  }

  lemma GetNextFirst(s: Sched, env: Env)
    requires Inv(s) && s.next.Some? && s.inService.None? && !env.starved
    ensures NextFirst(GetNext(s, env))
  {
    var i := s.next.value;
    var s0 := s.(inService := Some(i));
    TreesFrame(s, s0);
    ActiveExtractCore(s0, i, env.fix);
    var s1 := ActiveExtract(s0, i, env.fix);
    forall j | 0 <= j < |s1.es| ensures Linked(s1, j) { assert Linked(s, j); }
    UpdateNextFirst(s1, None, false, env.now);
  }

  lemma ForgetIdleClasses(s: Sched, c: nat)
    requires Shape(s) && c < CLASSES
    ensures SameClasses(s, ForgetIdle(s, c))
  {
  }

  lemma ServedFirst(s: Sched, i: nat, served: nat)
    requires Inv(s) && NextFirst(s) && i < |s.es| && s.es[i].onSt && s.st[s.es[i].cls].wsum >= 1
    ensures NextFirst(Served(s, i, served))
  {
    var s1 := Advance(s, i, served);
    SameClassesFirst(s, s1);
    ForgetIdleClasses(s1, s.es[i].cls);
    SameClassesFirst(s1, ForgetIdle(s1, s.es[i].cls));
  }

  ghost predicate NotStarved(a: Action) {
    match a
    case Activation(_, _, _, env) => !env.starved
    case Deactivation(_, _, _, env) => !env.starved
    case Selection(env) => !env.starved
    case _ => true
  }

  lemma StepFirst(s: Sched, a: Action)
    requires Inv(s) && Enabled(s, a) && NextFirst(s) && NotStarved(a)
    ensures NextFirst(Apply(s, a))
  {
    match a {
      case Create(weight, cls) => assert NextFirst(NewQueue(s, weight, cls));
      case ChangePrio(_, _, _, _) => SameClassesFirst(s, Apply(s, a));
      case Budget(_, _) => SameClassesFirst(s, Apply(s, a));
      case Activation(i, nonBlocking, expiration, env) => ActivateRequeueFirst(s, i, nonBlocking, expiration, env);
      case Deactivation(i, intoIdle, expiration, env) => DeactivateFirst(s, i, intoIdle, expiration, env);
      case Selection(env) => GetNextFirst(s, env);
      case ResetInService => SameClassesFirst(s, Reset(s));
      case Service(i, served) =>
        ServedDefined(s, i);
        ServedFirst(s, i, served);
      case Reweigh(i) => SameClassesFirst(s, UpdateWeightPrio(s, i, false));
    }
  }

  /** Over every run in which no lookup finds the idle class starved, next_in_service is of the first class active. */
  lemma {:induction false} StrictPriority(s: Sched, run: seq<Action>)
    requires Inv(s) && NextFirst(s) && CanRun(s, run) && forall i :: 0 <= i < |run| ==> NotStarved(run[i])
    ensures NextFirst(After(s, run))
    decreases |run|
  {
    if run != [] {
      StepInv(s, run[0]);
      StepFirst(s, run[0]);
      StrictPriority(Apply(s, run[0]), run[1..]);
    }
  }
}
