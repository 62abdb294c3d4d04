/**
Every run of the flat B-WF2Q+ scheduler keeps the trees, the weight sums, on_st and next_in_service
in agreement with the entities.
*/
module Wf2qRuns {
  import opened Options
  import opened Wf2qModel
  import opened Wf2qTrees
  import opened Wf2qInvariant

  datatype Action =
    | Create(weight: nat, cls: nat)
    | ChangePrio(i: nat, newWeight: int, newCls: nat, wrCoeff: nat)
    | Budget(i: nat, budget: nat)
    | Activation(i: nat, nonBlocking: bool, expiration: bool, env: Env)
    | Deactivation(i: nat, intoIdle: bool, expiration: bool, env: Env)
    | Selection(env: Env)
    | ResetInService
    | Service(i: nat, served: nat)
    | Reweigh(i: nat)

  /** What the callers of each operation guarantee. */
  ghost predicate Enabled(s: Sched, a: Action)
    requires Inv(s)
  {
    match a
    case Create(weight, cls) => weight >= 1 && cls < CLASSES
    case ChangePrio(i, _, newCls, wrCoeff) => i < |s.es| && newCls < CLASSES && wrCoeff >= 1
    case Budget(i, _) => i < |s.es|
    case Activation(i, _, _, _) => i < |s.es|
    case Deactivation(i, _, _, _) => i < |s.es|
    case Selection(_) => s.inService.None? && s.next.Some?
    case ResetInService => s.inService.Some? ==> s.es[s.inService.value].at == OnActive
    case Service(i, _) => i < |s.es| && s.es[i].onSt
    case Reweigh(i) => i < |s.es| && s.es[i].onSt
  }

  function Apply(s: Sched, a: Action): Sched
    requires Inv(s) && Enabled(s, a)
  {
    match a
    case Create(weight, cls) => NewQueue(s, weight, cls)
    case ChangePrio(i, newWeight, newCls, wrCoeff) => AskPrio(s, i, newWeight, newCls, wrCoeff)
    case Budget(i, budget) => SetBudget(s, i, budget)
    case Activation(i, nonBlocking, expiration, env) => ActivateRequeue(s, i, nonBlocking, expiration, env)
    case Deactivation(i, intoIdle, expiration, env) => Deactivate(s, i, intoIdle, expiration, env)
    case Selection(env) => GetNext(s, env)
    case ResetInService => Reset(s)
    case Service(i, served) =>
      ServedDefined(s, i);
      Served(s, i, served)
    case Reweigh(i) => UpdateWeightPrio(s, i, false)
  }

  /** A scheduler just set up: no queue, three empty trees. */
  ghost predicate Fresh(s: Sched) {
    && s.es == [] && |s.st| == CLASSES && s.inService.None? && s.next.None?
    && forall c :: 0 <= c < CLASSES ==> s.st[c] == EMPTY_TREE
  }

  lemma FreshInv(s: Sched)
    requires Fresh(s)
    ensures Inv(s)
  {
    forall c | 0 <= c < CLASSES ensures ClassOk(s, c) && s.st[c].wsum == WeightSum(s.es, c) {
    }
  }

  lemma StepInv(s: Sched, a: Action)
    requires Inv(s) && Enabled(s, a)
    ensures Inv(Apply(s, a))
  {
    match a {
      case Create(weight, cls) => NewQueueInv(s, weight, cls);
      case ChangePrio(i, newWeight, newCls, wrCoeff) => QuietInv(s, i, AskPrio(s, i, newWeight, newCls, wrCoeff).es[i]);
      case Budget(i, budget) => QuietInv(s, i, SetBudget(s, i, budget).es[i]);
      case Activation(i, nonBlocking, expiration, env) => ActivateRequeueInv(s, i, nonBlocking, expiration, env);
      case Deactivation(i, intoIdle, expiration, env) => DeactivateInv(s, i, intoIdle, expiration, env);
      case Selection(env) => GetNextInv(s, env);
      case ResetInService => ResetInv(s);
      case Service(i, served) => ServedInv(s, i, served);
      case Reweigh(i) => UpdateWrInv(s, i);
    }
  }

  /** Each action is enabled where it happens. */
  ghost predicate CanRun(s: Sched, run: seq<Action>)
    requires Inv(s)
    decreases |run|
  {
    if run == [] then true
    else
      && Enabled(s, run[0])
      && (StepInv(s, run[0]); CanRun(Apply(s, run[0]), run[1..]))
  }

  ghost function After(s: Sched, run: seq<Action>): Sched
    requires Inv(s) && CanRun(s, run)
    decreases |run|
  {
    if run == [] then s
    else
      StepInv(s, run[0]);
      After(Apply(s, run[0]), run[1..])
  }

  lemma {:induction false} RunKeeps(s: Sched, run: seq<Action>)
    requires Inv(s) && CanRun(s, run)
    ensures Inv(After(s, run))
    decreases |run|
  {
    if run != [] {
      StepInv(s, run[0]);
      RunKeeps(Apply(s, run[0]), run[1..]);
    }
  }

  /** A run of a scheduler just set up. */
  ghost predicate RunOf(s0: Sched, run: seq<Action>)
    ensures RunOf(s0, run) ==> Inv(s0) && CanRun(s0, run)
  {
    Fresh(s0) && (FreshInv(s0); CanRun(s0, run))
  }

  /** Some entity is on an active tree. */
  ghost predicate SomeActive(s: Sched) {
    exists i :: 0 <= i < |s.es| && s.es[i].at == OnActive
  }

  lemma SomeActiveIsNext(s: Sched)
    requires Inv(s)
    ensures SomeActive(s) <==> s.next.Some?
  {
    if SomeActive(s) {
      var i :| 0 <= i < |s.es| && s.es[i].at == OnActive;
      ActiveMeansNode(s, i);
    }
  }

  /**
  In every reachable state: the active trees are sorted with exact min_start values and hold exactly the
  active entities, the weight sums are exact, on_st is set exactly on linked entities, and
  next_in_service exists, on an active tree, exactly when some entity is active. So whenever no entity
  is in service and one is active, a selection is possible and puts an active one in service.
  */
  lemma EveryRun(s0: Sched, run: seq<Action>, env: Env)
    requires RunOf(s0, run)
    ensures var s := After(s0, run);
            && Inv(s)
            && (SomeActive(s) <==> s.next.Some?)
            && (s.inService.None? && SomeActive(s) ==>
                  && Enabled(s, Selection(env))
                  && GetNext(s, env).inService == s.next && s.es[s.next.value].at == OnActive)
  {
    RunKeeps(s0, run);
    var s := After(s0, run);
    SomeActiveIsNext(s);
    if s.inService.None? && SomeActive(s) { GetNextInv(s, env); }
  }

  /** Over every run, the sum bfq_bfqq_served divides by is positive for any entity it may be called on. */
  lemma NeverDividesByZero(s0: Sched, run: seq<Action>, i: nat)
    requires RunOf(s0, run)
    requires i < |After(s0, run).es| && After(s0, run).es[i].onSt
    ensures var s := After(s0, run);
            Inv(s) && s.st[s.es[i].cls].wsum == WeightSum(s.es, s.es[i].cls) >= s.es[i].weight >= 1
  {
    RunKeeps(s0, run);
    ServedDefined(After(s0, run), i);
  }
}
