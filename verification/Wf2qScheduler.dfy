/**
The scheduler as bfq-wf2q.c keeps it: entities and service trees updated in place. Every method does to
the fields what the function of Wf2qModel with the same job does to the value Model() reads off them.
*/
module Wf2qScheduler {
  import opened Options
  import opened ActiveTree
  import opened ActiveTreeLoops
  import opened Wf2qModel
  import opened Wf2qInvariant
  import opened Wf2qRuns
  import opened Wf2qBest
  import opened Wf2qCharge

  /** Entity i is on its class's active tree and counted in its weight sum; no other was touched. */
  ghost predicate NowActive(s: Sched, r: Sched, i: nat) {
    i < |s.es| && Core(r) && Only(s, r, i) && r.es[i].onSt && r.es[i].at == OnActive
  }

  lemma ActivateSafe(s: Sched, i: nat, nonBlocking: bool, level: nat)
    requires Shape(s) && i < |s.es|
    ensures Core(s) && StOk(s) && s.es[i].at != OnActive && s.inService != Some(i) ==>
              NowActive(s, Activate(s, i, nonBlocking, level), i)
  {
    if Core(s) && StOk(s) && s.es[i].at != OnActive && s.inService != Some(i) {
      ActivateKeeps(s, i, nonBlocking, level);
    }
  }

  lemma RequeueSafe(s: Sched, i: nat, level: nat, fix: EraseFix)
    requires Shape(s) && i < |s.es|
    ensures Core(s) && StOk(s) && (s.es[i].at == OnActive || s.inService == Some(i)) ==>
              NowActive(s, Requeue(s, i, level, fix), i)
  {
    if Core(s) && StOk(s) && (s.es[i].at == OnActive || s.inService == Some(i)) { RequeueKeeps(s, i, level, fix); }
  }

  /** Entity i is not active any more; no other was touched, nor next_in_service. */
  ghost predicate TakenOff(s: Sched, r: Sched, i: nat) {
    && Core(r) && StOk(r) && r.next == s.next && i < |r.es| == |s.es| && r.es[i].at != OnActive
    && forall j :: 0 <= j < |r.es| && j != i ==> r.es[j] == s.es[j]
  }

  lemma TakeOffSafe(s: Sched, i: nat, intoIdle: bool, fix: EraseFix)
    requires Shape(s) && i < |s.es|
    ensures Core(s) && StOk(s) && s.es[i].onSt ==> TakenOff(s, TakeOff(s, i, intoIdle, fix), i)
  {
    if Core(s) && StOk(s) && s.es[i].onSt { TakeOffKeeps(s, i, intoIdle, fix); }
  }

  class Scheduler {
    var es: seq<Entity>
    var st: seq<ServiceTree>
    var inService: Option<nat>
    var next: Option<nat>
    var idleServed: int

    ghost function Model(): Sched
      reads this
    {
      Sched(es, st, inService, next, idleServed)
    }

    constructor ()
      ensures Fresh(Model()) && Inv(Model())
    {
      es, st, inService, next, idleServed := [], [EMPTY_TREE, EMPTY_TREE, EMPTY_TREE], None, None, 0;
      new;
      FreshInv(Model());
    }

    method ActiveInsertEntity(i: nat, level: nat)
      requires Shape(Model()) && i < |es|
      modifies this
      ensures Model() == ActiveInsert(old(Model()), i, level)
    {
      var c := es[i].cls;
      var key := Key(i, es[i].start, es[i].finish);
      var path := FindPlace(st[c].active, key.finish);
      var at := InsertFix(Node(Leaf, key, 0, Leaf), path, level);
      var n, above := at.t, at.path;
      if n.left.Node? {
        n, above := n.left, [Frame(true, n.key, n.minStart, n.right)] + above;
      } else if n.right.Node? {
        n, above := n.right, [Frame(false, n.key, n.minStart, n.left)] + above;
      }
      var t := UpdateActiveTree(n, above);
      es := es[i := es[i].(at := OnActive)];
      st := st[c := st[c].(active := t)];
    }

    method ActiveExtractEntity(i: nat, fix: EraseFix)
      requires Shape(Model()) && i < |es|
      modifies this
      ensures Model() == ActiveExtract(old(Model()), i, fix)
    {
      var c := es[i].cls;
      var at := Find(st[c].active, i, []);
      var t := st[c].active;
      if at.Some? {
        var spot := Splice(at.value.t, at.value.path);
        var above := EraseRotate(spot.path, fix);
        if spot.t.Node? {
          t := UpdateActiveTree(spot.t, above);
        } else if above == [] {
          t := Leaf;
        } else {
          t := UpdateActiveTree(Plug(Leaf, above[0]), above[1..]);
        }
      }
      es := es[i := es[i].(at := Nowhere)];
      st := st[c := st[c].(active := t)];
    }

    method IdlePlace(idle: seq<nat>, finish: int) returns (p: nat)
      ensures p == IdlePos(es, idle, finish)
    {
      p := 0;
      while p < |idle| && idle[p] < |es| && es[idle[p]].finish <= finish
        invariant p <= |idle| && p + IdlePos(es, idle[p..], finish) == IdlePos(es, idle, finish)
        decreases |idle| - p
      {
        assert idle[p..][1..] == idle[p + 1..];
        p := p + 1;
      }
    }

    method IdleInsertEntity(i: nat)
      requires Shape(Model()) && i < |es|
      modifies this
      ensures Model() == IdleInsert(old(Model()), i)
    {
      var e := es[i];
      var t := st[e.cls];
      var first, last := t.firstIdle, t.lastIdle;
      if first.None? || first.value >= |es| || es[first.value].finish > e.finish {
        first := Some(i);
      }
      if last.None? || last.value >= |es| || e.finish > es[last.value].finish {
        last := Some(i);
      }
      var p := IdlePlace(t.idle, e.finish);
      es := es[i := e.(at := OnIdle)];
      st := st[e.cls := t.(idle := t.idle[..p] + [i] + t.idle[p..], firstIdle := first, lastIdle := last)];
    }

    method IdleExtractEntity(i: nat)
      requires Shape(Model()) && i < |es|
      modifies this
      ensures Model() == IdleExtract(old(Model()), i)
    {
      var e := es[i];
      var t := st[e.cls];
      var p := IndexOf(t.idle, i);
      es := es[i := e.(at := Nowhere)];
      if p == |t.idle| {
        return;
      }
      var first, last := t.firstIdle, t.lastIdle;
      if first == Some(i) {
        first := if p + 1 < |t.idle| then Some(t.idle[p + 1]) else None;
      }
      if last == Some(i) {
        last := if p > 0 then Some(t.idle[p - 1]) else None;
      }
      st := st[e.cls := t.(idle := t.idle[..p] + t.idle[p + 1..], firstIdle := first, lastIdle := last)];
    }

    /** bfq_forget_entity */
    method ForgetEntity(i: nat)
      requires Shape(Model()) && i < |es|
      modifies this
      ensures Model() == Forget(old(Model()), i)
    {
      var e := es[i];
      es := es[i := e.(onSt := false)];
      st := st[e.cls := st[e.cls].(wsum := st[e.cls].wsum - e.weight)];
    }

    /** bfq_forget_idle */
    method VisitIdle(c: nat)
      requires Shape(Model()) && c < CLASSES
      modifies this
      ensures Model() == ForgetIdle(old(Model()), c)
    {
      var first, last := st[c].firstIdle, st[c].lastIdle;
      if st[c].active.Leaf? && last.Some? && last.value < |es| && es[last.value].finish <= st[c].vtime {
        st := st[c := st[c].(vtime := es[last.value].finish)];
      }
      if first.Some? && first.value < |es| && es[first.value].finish <= st[c].vtime {
        IdleExtractEntity(first.value);
        ForgetEntity(first.value);
      }
    }

    /** __bfq_entity_update_weight_prio */
    method UpdateWeight(i: nat, updateClass: bool)
      requires Shape(Model()) && i < |es|
      modifies this
      ensures Model() == UpdateWeightPrio(old(Model()), i, updateClass)
    {
      if !es[i].prioChanged {
        return;
      }
      var e := es[i];
      var e' := Reweighed(e, updateClass);
      st := st[e.cls := st[e.cls].(wsum := st[e.cls].wsum - e.weight)];
      if e'.cls != e.cls {
        es := es[i := e'.(start := st[e'.cls].vtime)];
      } else {
        es := es[i := e'];
      }
      st := st[e'.cls := st[e'.cls].(wsum := st[e'.cls].wsum + e'.weight)];
    }

    /** bfq_update_fin_time_enqueue */
    method UpdateFinTimeEnqueue(i: nat, backshifted: bool, level: nat)
      requires Shape(Model()) && i < |es|
      modifies this
      ensures Model() == Enqueue(old(Model()), i, backshifted, level)
    {
      UpdateWeight(i, true);
      var e := es[i];
      var finish := e.start + Delta(e.budget, e.weight);
      es := es[i := e.(finish := finish)];
      var behind := st[e.cls].vtime - finish;
      if backshifted && behind > 0 {
        var shift := behind / e.wrCoeff;
        es := es[i := es[i].(start := e.start + shift, finish := finish + shift)];
      }
      ActiveInsertEntity(i, level);
    }

    /** Off the idle tree with the later of two starts, or counted in its class's weight sum again. */
    method StartEntity(i: nat, minStart: int)
      requires Shape(Model()) && i < |es|
      modifies this
      ensures Model() == if old(es[i].at == OnIdle)
                         then SetStart(IdleExtract(old(Model()), i), i, Later(minStart, old(es[i].finish)))
                         else Join(SetStart(old(Model()), i, minStart), i)
    {
      var e := es[i];
      if e.at == OnIdle {
        IdleExtractEntity(i);
        es := es[i := es[i].(start := if minStart > e.finish then minStart else e.finish)];
      } else {
        es := es[i := e.(start := minStart, onSt := true)];
        st := st[e.cls := st[e.cls].(wsum := st[e.cls].wsum + e.weight)];
      }
    }

    /** __bfq_activate_entity */
    method ActivateEntity(i: nat, nonBlocking: bool, level: nat)
      requires Shape(Model()) && i < |es|
      modifies this
      ensures Model() == Activate(old(Model()), i, nonBlocking, level)
      ensures old(Core(Model()) && StOk(Model()) && es[i].at != OnActive && inService != Some(i)) ==>
                NowActive(old(Model()), Model(), i)
    {
      var e := es[i];
      var backshifted, minStart := false, st[e.cls].vtime;
      if nonBlocking && minStart > e.finish {
        backshifted, minStart := true, e.finish;
      }
      StartEntity(i, minStart);
      UpdateFinTimeEnqueue(i, backshifted, level);
      assert Model() == Activate(old(Model()), i, nonBlocking, level);
      ActivateSafe(old(Model()), i, nonBlocking, level);
    }

    /** __bfq_requeue_entity */
    method RequeueEntity(i: nat, level: nat, fix: EraseFix)
      requires Shape(Model()) && i < |es|
      modifies this
      ensures Model() == Requeue(old(Model()), i, level, fix)
      ensures old(Core(Model()) && StOk(Model()) && (es[i].at == OnActive || inService == Some(i))) ==>
                NowActive(old(Model()), Model(), i)
      ensures old(inService) == Some(i) ==> PaidFor(old(Model()), Model(), i)
    {
      if inService == Some(i) {
        var finish := es[i].start + Delta(es[i].service, es[i].weight);
        es := es[i := es[i].(start := finish, finish := finish)];
        ghost var s1 := CalcFinish(old(Model()), i, old(es[i].service));
        assert Model() == SetE(s1, i, s1.es[i].(start := s1.es[i].finish));
        if es[i].at != Nowhere {
          ActiveExtractEntity(i, fix);
        }
      } else {
        ActiveExtractEntity(i, fix);
      }
      UpdateFinTimeEnqueue(i, false, level);
      assert Model() == Requeue(old(Model()), i, level, fix);
      RequeueSafe(old(Model()), i, level, fix);
      RequeueCharged(old(Model()), i, level, fix);
    }

    /** __bfq_lookup_next_entity */
    method LookupNextInClass(c: nat, serving: bool) returns (k: Option<Key>)
      requires Shape(Model()) && c < CLASSES
      modifies this
      ensures Found(Model(), k) == LookupClass(old(Model()), c, serving)
    {
      if st[c].active.Leaf? {
        return None;
      }
      var v := Later(st[c].active.minStart, st[c].vtime);
      if !serving && v > st[c].vtime {
        st := st[c := st[c].(vtime := v)];
        VisitIdle(c);
      }
      k := FirstActive(st[c].active, v);
    }

    /** bfq_lookup_next_entity */
    method LookupNext(expiration: bool, starved: bool, now: int) returns (k: Option<Key>)
      requires Shape(Model())
      modifies this
      ensures Found(Model(), k) == Lookup(old(Model()), expiration, starved, now)
    {
      var c := 0;
      if starved {
        if st[CLASSES - 1].active.Node? {
          c := CLASSES - 1;
        }
        idleServed := now;
      }
      var serving := inService.Some? && !expiration;
      ghost var s0, c0 := Model(), c;
      k := None;
      while c < CLASSES
        invariant c <= CLASSES && k.None? && Shape(Model())
        invariant LookupFrom(Model(), c, serving) == LookupFrom(s0, c0, serving)
        decreases CLASSES - c
      {
        k := LookupNextInClass(c, serving);
        if k.Some? {
          return;
        }
        c := c + 1;
      }
    }

    /** bfq_update_next_in_service */
    method UpdateNextInService(changed: Option<nat>, expiration: bool, starved: bool, now: int)
      requires Shape(Model()) && (changed.Some? ==> changed.value < |es|)
      modifies this
      ensures Model() == UpdateNext(old(Model()), changed, expiration, starved, now)
      ensures old(Core(Model()) && StOk(Model()) && (changed.Some? ==> es[changed.value].at == OnActive)) ==>
                Inv(Model())
      ensures old(LookupClear(Model(), changed)) ==> NextIsBest(Model())
    {
      UpdateNextClear(Model(), changed, expiration, starved, now);
      if Core(Model()) && StOk(Model()) && (changed.Some? ==> es[changed.value].at == OnActive) {
        UpdateNextInv(Model(), changed, expiration, starved, now);
      }
      if changed.Some? && changed != next {
        var e := es[changed.value];
        var replace := true;
        if next.Some? && next.value < |es| {
          var n := es[next.value];
          replace := e.cls == n.cls && e.start <= st[e.cls].vtime && n.finish > e.finish;
        }
        if replace {
          next := changed;
          return;
        }
      }
      var k := LookupNext(expiration, starved, now);
      next := if k.Some? then Some(k.value.id) else None;
    }

    /** bfq_activate_requeue_entity */
    method ActivateRequeueEntity(i: nat, nonBlocking: bool, expiration: bool, env: Env)
      requires Inv(Model()) && i < |es|
      modifies this
      ensures Model() == ActivateRequeue(old(Model()), i, nonBlocking, expiration, env) && Inv(Model())
    {
      ActivateRequeueInv(Model(), i, nonBlocking, expiration, env);
      if inService == Some(i) || es[i].at == OnActive {
        RequeueEntity(i, env.level, env.fix);
      } else {
        ActivateEntity(i, nonBlocking, env.level);
      }
      UpdateNextInService(Some(i), expiration, env.starved, env.now);
    }

    method LeaveTree(i: nat, fix: EraseFix)
      requires Shape(Model()) && i < |es|
      modifies this
      ensures Model() == OffTree(old(Model()), i, fix)
    {
      if es[i].at == OnActive {
        ActiveExtractEntity(i, fix);
      } else if inService != Some(i) && es[i].at == OnIdle {
        IdleExtractEntity(i);
      }
    }

    method ParkEntity(i: nat, intoIdle: bool)
      requires Shape(Model()) && i < |es|
      modifies this
      ensures Model() == Park(old(Model()), i, intoIdle)
    {
      if !intoIdle || es[i].finish <= st[es[i].cls].vtime {
        ForgetEntity(i);
      } else {
        IdleInsertEntity(i);
      }
    }

    /** __bfq_deactivate_entity on an entity with on_st set. */
    method TakeOffEntity(i: nat, intoIdle: bool, fix: EraseFix)
      requires Shape(Model()) && i < |es|
      modifies this
      ensures Model() == TakeOff(old(Model()), i, intoIdle, fix)
      ensures old(Core(Model()) && StOk(Model()) && es[i].onSt) ==> TakenOff(old(Model()), Model(), i)
    {
      TakeOffSafe(Model(), i, intoIdle, fix);
      var mine := inService == Some(i);
      var e := es[i];
      es := es[i := e.(finish := e.start + Delta(e.service, e.weight), service := if mine then e.service else 0)];
      assert Model() == SetE(old(Model()), i, Charged(old(Model()), i));
      LeaveTree(i, fix);
      if mine {
        inService := None;
      }
      ParkEntity(i, intoIdle);
    }

    /** bfq_deactivate_entity */
    method DeactivateEntity(i: nat, intoIdle: bool, expiration: bool, env: Env)
      requires Inv(Model()) && i < |es|
      modifies this
      ensures Model() == Deactivate(old(Model()), i, intoIdle, expiration, env) && Inv(Model())
    {
      DeactivateInv(Model(), i, intoIdle, expiration, env);
      if !es[i].onSt {
        return;
      }
      TakeOffEntity(i, intoIdle, env.fix);
      if next == Some(i) {
        UpdateNextInService(None, expiration, env.starved, env.now);
      }
    }

    /** bfq_get_next_queue past its check for busy queues. */
    method GetNextQueue(env: Env) returns (i: nat)
      requires Inv(Model()) && inService.None? && next.Some?
      modifies this
      ensures Model() == GetNext(old(Model()), env) && Inv(Model())
      ensures old(next) == Some(i) == inService && old(es)[i].at == OnActive
    {
      GetNextInv(Model(), env);
      i := next.value;
      inService := Some(i);
      ActiveExtractEntity(i, env.fix);
      UpdateNextInService(None, false, env.starved, env.now);
    }

    method Charge(i: nat, served: nat)
      requires Shape(Model()) && i < |es| && st[es[i].cls].wsum >= 1
      modifies this
      ensures Model() == Advance(old(Model()), i, served)
    {
      var c := es[i].cls;
      es := es[i := es[i].(service := es[i].service + served)];
      st := st[c := st[c].(vtime := st[c].vtime + Delta(served, st[c].wsum))];
    }

    /** bfq_bfqq_served */
    method Serve(i: nat, served: nat)
      requires Inv(Model()) && i < |es| && es[i].onSt
      modifies this
      ensures old(st[es[i].cls].wsum) >= 1 && Model() == Served(old(Model()), i, served) && Inv(Model())
    {
      ServedInv(Model(), i, served);
      var c := es[i].cls;
      Charge(i, served);
      VisitIdle(c);
    }
  }
}
