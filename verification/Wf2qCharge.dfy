/**
What each operation makes of an entity's times and weight: service received is charged at the rate of the
weight, a budget is laid out at that rate, idling gains nothing, and the weight is the one asked for.
*/
module Wf2qCharge {
  import opened Options
  import ActiveTree
  import opened Wf2qModel
  import opened Wf2qTrees
  import opened Wf2qInvariant
  import opened Wf2qEligible

  /** `span` is how far virtual time goes for this much service at this weight, rounded down. */
  ghost predicate AtRate(service: nat, weight: int, span: int) {
    0 <= service * SERVICE_SCALE - weight * span < weight
  }

  lemma DeltaAtRate(service: nat, weight: int)
    requires weight >= 1
    ensures AtRate(service, weight, Delta(service, weight)) && Delta(service, weight) >= 0
  {
    DivIs(service * SERVICE_SCALE, weight);
  }

  lemma DivIs(a: nat, b: int)
    requires b >= 1
    ensures 0 <= a - b * (a / b) < b && a / b >= 0
  {
  }

  // ----- weights -----

  function Distance(a: int, b: int): nat {
    if a < b then b - a else a - b
  }

  /** No weight from 1 to 1000 is nearer to the one asked for. */
  ghost predicate Nearest(w: int, asked: int) {
    MIN_WEIGHT <= w <= MAX_WEIGHT
    && forall v :: MIN_WEIGHT <= v <= MAX_WEIGHT ==> Distance(w, asked) <= Distance(v, asked)
  }

  /**
  An entity that asked for a weight has the nearest one that is allowed, unless it has that weight anyway,
  times its weight-raising factor. A class asked for is taken on only if classes may change, and the request
  stays pending otherwise.
  */
  lemma AskedFor(s: Sched, i: nat, updateClass: bool)
    requires Shape(s) && i < |s.es|
    ensures var e, a := s.es[i], UpdateWeightPrio(s, i, updateClass).es[i];
            if !e.prioChanged then a == e
            else
              && a.weight == e.wrCoeff * a.origWeight
              && (if e.newWeight == e.origWeight then a.origWeight == e.newWeight
                  else Nearest(a.origWeight, e.newWeight))
              && a.cls == (if updateClass then e.newCls else e.cls)
              && (a.prioChanged <==> a.cls != e.newCls)
              && a.start == (if a.cls == e.cls then e.start else s.st[a.cls].vtime)
              && a.finish == e.finish && a.service == e.service && a.budget == e.budget
              && a.at == e.at && a.onSt == e.onSt
  {
  }

  /** The weight and class an entity is enqueued with. */
  lemma PendingIs(e: Entity)
    requires e.weight >= 1 && e.origWeight >= 1 && e.wrCoeff >= 1
    ensures var a := Pending(e);
            if !e.prioChanged then a.weight == e.weight && a.cls == e.cls
            else
              && a.cls == e.newCls && a.weight == e.wrCoeff * a.origWeight
              && (if e.newWeight == e.origWeight then a.origWeight == e.newWeight
                  else Nearest(a.origWeight, e.newWeight))
  {
  }

  // ----- enqueueing -----

  /** Without a shift back an entity is enqueued for its budget where it starts, or at a new class's virtual time. */
  lemma EnqueueAt(s: Sched, i: nat, level: nat)
    requires Shape(s) && i < |s.es|
    ensures var e, a := s.es[i], Enqueue(s, i, false, level).es[i];
            && a.cls == Pending(e).cls < CLASSES && a.weight == Pending(e).weight
            && a.start == (if a.cls == e.cls then e.start else s.st[a.cls].vtime)
            && AtRate(e.budget, a.weight, a.finish - a.start)
  {
    UpdateWeightStart(s, i);
    DeltaAtRate(s.es[i].budget, Pending(s.es[i]).weight);
  }

  /** A change asked for is in effect once the entity has been enqueued, however it is. */
  lemma TakesEffect(s: Sched, i: nat, newWeight: int, newCls: nat, wrCoeff: nat, backshifted: bool, level: nat)
    requires Shape(s) && i < |s.es| && newCls < CLASSES && wrCoeff >= 1
    ensures var t := AskPrio(s, i, newWeight, newCls, wrCoeff);
            && Shape(t)
            && var a := Enqueue(t, i, backshifted, level).es[i];
               && a.cls == newCls && !a.prioChanged && a.wrCoeff == wrCoeff && a.weight == wrCoeff * a.origWeight
               && (a.origWeight == newWeight == s.es[i].origWeight || Nearest(a.origWeight, newWeight))
  {
    var t := AskPrio(s, i, newWeight, newCls, wrCoeff);
    AskedFor(t, i, true);
  }

  /** The entity as a requeue of the one in service enqueues it. */
  ghost function ChargedFor(s: Sched, i: nat, fix: ActiveTree.EraseFix): (r: Sched)
    requires Shape(s) && i < |s.es|
    ensures Shape(r) && |r.es| == |s.es|
  {
    var s1 := CalcFinish(s, i, s.es[i].service);
    var s2 := SetE(s1, i, s1.es[i].(start := s1.es[i].finish));
    if s2.es[i].at != Nowhere then ActiveExtract(s2, i, fix) else s2
  }

  lemma ChargedForIs(s: Sched, i: nat, level: nat, fix: ActiveTree.EraseFix)
    requires Shape(s) && i < |s.es| && s.inService == Some(i)
    ensures var e, r := s.es[i], ChargedFor(s, i, fix);
            && Requeue(s, i, level, fix) == Enqueue(r, i, false, level)
            && r.es[i] == e.(start := r.es[i].start, finish := r.es[i].finish, at := r.es[i].at)
            && r.es[i].start == e.start + Delta(e.service, e.weight) && SameVtimes(s, r)
  {
  }

  /** i was charged for its service in s and has its budget before it in r. */
  ghost predicate PaidFor(s: Sched, r: Sched, i: nat)
    requires Shape(s) && i < |s.es|
  {
    && i < |r.es|
    && var e, a := s.es[i], r.es[i];
       && a.cls == Pending(e).cls < CLASSES && a.weight == Pending(e).weight
       && (if a.cls == e.cls then AtRate(e.service, e.weight, a.start - e.start) else a.start == s.st[a.cls].vtime)
       && AtRate(e.budget, a.weight, a.finish - a.start)
  }

  /**
  The entity in service, requeued, is charged at the rate of its weight for the service it received, and then
  has its budget before it at the rate of the weight it asked for. A new class takes it on at its virtual time.
  */
  lemma RequeueCharges(s: Sched, i: nat, level: nat, fix: ActiveTree.EraseFix)
    requires Shape(s) && i < |s.es| && s.inService == Some(i)
    ensures PaidFor(s, Requeue(s, i, level, fix), i)
  {
    ChargedForIs(s, i, level, fix);
    var r := ChargedFor(s, i, fix);
    assert Pending(r.es[i]).weight == Pending(s.es[i]).weight && Pending(r.es[i]).cls == Pending(s.es[i]).cls;
    EnqueueAt(r, i, level);
    DeltaAtRate(s.es[i].service, s.es[i].weight);
  }

  lemma RequeueCharged(s: Sched, i: nat, level: nat, fix: ActiveTree.EraseFix)
    requires Shape(s) && i < |s.es|
    ensures s.inService == Some(i) ==> PaidFor(s, Requeue(s, i, level, fix), i)
  {
    if s.inService == Some(i) { RequeueCharges(s, i, level, fix); }
  }

  /** A waiting entity, requeued, keeps its start and is laid out anew for its budget. */
  lemma RequeueLaysOut(s: Sched, i: nat, level: nat, fix: ActiveTree.EraseFix)
    requires Shape(s) && Waiting(s, i)
    ensures var e, a := s.es[i], Requeue(s, i, level, fix).es[i];
            && a.cls == Pending(e).cls < CLASSES && a.weight == Pending(e).weight
            && a.start == (if a.cls == e.cls then e.start else s.st[a.cls].vtime)
            && AtRate(e.budget, a.weight, a.finish - a.start)
  {
    var r := ActiveExtract(s, i, fix);
    assert Pending(r.es[i]).weight == Pending(s.es[i]).weight && Pending(r.es[i]).cls == Pending(s.es[i]).cls;
    assert SameVtimes(s, r);
    EnqueueAt(r, i, level);
  }

  // ----- activation -----

  /** Shifted from base, by how much it is behind divided by the weight-raising factor, rounded down. */
  ghost predicate PushedUp(start: int, base: int, behind: int, wrCoeff: int) {
    if behind <= 0 then start == base
    else wrCoeff * (start - base) <= behind < wrCoeff * (start - base + 1)
  }

  lemma RetimePushes(s: Sched, i: nat)
    requires Shape(s) && i < |s.es|
    ensures var e, a := s.es[i], Retime(s, i, true).es[i];
            && AtRate(e.budget, e.weight, a.finish - a.start)
            && PushedUp(a.start, e.start, s.st[e.cls].vtime - (e.start + (a.finish - a.start)), e.wrCoeff)
  {
    var e := s.es[i];
    DeltaAtRate(e.budget, e.weight);
    var behind := s.st[e.cls].vtime - (e.start + Delta(e.budget, e.weight));
    if behind > 0 { ShareIs(behind, e.wrCoeff); }
  }

  lemma ShareIs(behind: int, wrCoeff: int)
    requires behind > 0 && wrCoeff >= 1
    ensures wrCoeff * (behind / wrCoeff) <= behind < wrCoeff * (behind / wrCoeff + 1)
  {
    DivIs(behind, wrCoeff);
  }

  lemma EnqueuePushes(s: Sched, i: nat, level: nat)
    requires Shape(s) && i < |s.es|
    ensures var e, a := s.es[i], Enqueue(s, i, true, level).es[i];
            && a.cls == Pending(e).cls < CLASSES && a.weight == Pending(e).weight
            && AtRate(e.budget, a.weight, a.finish - a.start)
            && var base := if a.cls == e.cls then e.start else s.st[a.cls].vtime;
               PushedUp(a.start, base, s.st[a.cls].vtime - (base + (a.finish - a.start)), e.wrCoeff)
  {
    UpdateWeightStart(s, i);
    var s1 := UpdateWeightPrio(s, i, true);
    assert SameVtimes(s, s1);
    RetimePushes(s1, i);
  }

  /**
  Idling gains an entity nothing: from the idle tree it resumes at its last finish time or at the virtual time,
  whichever is later, and otherwise it starts at the virtual time.
  */
  lemma ResumesAt(s: Sched, i: nat, nonBlocking: bool, level: nat)
    requires Shape(s) && i < |s.es| && !Backshifted(s, i, nonBlocking)
    ensures var e, a, vtime := s.es[i], Activate(s, i, nonBlocking, level).es[i], s.st[s.es[i].cls].vtime;
            && a.cls == Pending(e).cls < CLASSES && a.weight == Pending(e).weight
            && AtRate(e.budget, a.weight, a.finish - a.start)
            && (if a.cls != e.cls then a.start == s.st[a.cls].vtime
                else if e.at == OnIdle
                then a.start >= vtime && a.start >= e.finish && (a.start == vtime || a.start == e.finish)
                else a.start == vtime)
  {
    var r := Readied(s, i, nonBlocking);
    ReadiedIs(s, i, nonBlocking);
    assert Activate(s, i, nonBlocking, level) == Enqueue(r, i, false, level);
    assert Pending(r.es[i]).weight == Pending(s.es[i]).weight && Pending(r.es[i]).cls == Pending(s.es[i]).cls;
    EnqueueAt(r, i, level);
  }

  /**
  An entity that did not block and is late resumes at its last finish time, pushed up by how far its new finish
  time would be in the past, divided by its weight-raising factor.
  */
  lemma ResumesLate(s: Sched, i: nat, nonBlocking: bool, level: nat)
    requires Shape(s) && i < |s.es| && Backshifted(s, i, nonBlocking)
    ensures var e, a := s.es[i], Activate(s, i, nonBlocking, level).es[i];
            && a.cls == Pending(e).cls < CLASSES && a.weight == Pending(e).weight
            && AtRate(e.budget, a.weight, a.finish - a.start)
            && var base := if a.cls == e.cls then e.finish else s.st[a.cls].vtime;
               PushedUp(a.start, base, s.st[a.cls].vtime - (base + (a.finish - a.start)), e.wrCoeff)
  {
    var r := Readied(s, i, nonBlocking);
    ReadiedIs(s, i, nonBlocking);
    assert Activate(s, i, nonBlocking, level) == Enqueue(r, i, true, level);
    assert Pending(r.es[i]).weight == Pending(s.es[i]).weight && Pending(r.es[i]).cls == Pending(s.es[i]).cls;
    EnqueuePushes(r, i, level);
  }

  // ----- deactivation and service -----

  lemma OffIs(s: Sched, i: nat, fix: ActiveTree.EraseFix)
    requires Shape(s) && StOk(s) && i < |s.es|
    ensures var r := OffTree(SetE(s, i, Charged(s, i)), i, fix);
            SameVtimes(s, r) && r.es[i] == Charged(s, i).(at := Nowhere) && r.inService == s.inService
  {
  }

  lemma ParkIs(s: Sched, i: nat, intoIdle: bool)
    requires Shape(s) && i < |s.es| && s.es[i].at == Nowhere && s.es[i].onSt
    ensures var e, r := s.es[i], Park(s, i, intoIdle);
            var idle := intoIdle && e.finish > s.st[e.cls].vtime;
            && r.es[i] == e.(at := if idle then OnIdle else Nowhere, onSt := idle)
            && r.inService == s.inService
  {
  }

  /**
  A deactivated entity is charged for the service it received. It waits on the idle tree, its weight still
  counted, exactly if it may and its finish time is still to come; otherwise it is forgotten.
  */
  lemma DeactivateCharges(s: Sched, i: nat, intoIdle: bool, fix: ActiveTree.EraseFix)
    requires Shape(s) && StOk(s) && i < |s.es| && s.es[i].onSt
    ensures var e, r := s.es[i], TakeOff(s, i, intoIdle, fix);
            var a := r.es[i];
            && a.start == e.start && a.weight == e.weight && a.cls == e.cls && a.budget == e.budget
            && AtRate(e.service, e.weight, a.finish - a.start)
            && (a.at == OnIdle <==> intoIdle && a.finish > s.st[e.cls].vtime)
            && (a.onSt <==> a.at == OnIdle) && a.at != OnActive
            && a.service == (if s.inService == Some(i) then e.service else 0)
            && r.inService == (if s.inService == Some(i) then None else s.inService)
  {
    DeltaAtRate(s.es[i].service, s.es[i].weight);
    OffIs(s, i, fix);
    var s1 := OffTree(SetE(s, i, Charged(s, i)), i, fix);
    ParkIs(if s.inService == Some(i) then s1.(inService := None) else s1, i, intoIdle);
  }

  /**
  Serving moves virtual time on at the rate of all weights together; but with nothing of the class active, not
  past the last finish time of an idle entity.
  */
  lemma ServeAdvances(s: Sched, i: nat, served: nat)
    requires Inv(s) && i < |s.es| && s.es[i].onSt
    ensures var c := s.es[i].cls;
            && s.st[c].wsum >= 1
            && var r := Served(s, i, served);
               && r.es[i].service == s.es[i].service + served
               && (s.st[c].active.Node? || s.st[c].lastIdle.None? ==>
                     AtRate(served, WeightSum(s.es, c), r.st[c].vtime - s.st[c].vtime))
               && (s.st[c].active.Leaf? && s.st[c].lastIdle.Some? && s.st[c].lastIdle.value < |s.es| ==>
                     var last := s.es[s.st[c].lastIdle.value].finish;
                     && r.st[c].vtime <= last
                     && (r.st[c].vtime == last
                         || AtRate(served, WeightSum(s.es, c), r.st[c].vtime - s.st[c].vtime)))
  {
    ServedDefined(s, i);
    var c := s.es[i].cls;
    DeltaAtRate(served, s.st[c].wsum);
    var s1 := Advance(s, i, served);
    var s2, f := JumpBack(s1, c), s1.st[c].firstIdle;
    if f.Some? && f.value < |s.es| { assert SameVtimes(s2, PutIdle(s2, f.value)); }
  }

  /**
  Each visit to the idle tree forgets the entity that finishes first, exactly if virtual time has reached its
  finish time, and no other.
  */
  lemma ForgetsPassed(s: Sched, c: nat, j: nat)
    requires Core(s) && StOk(s) && c < CLASSES && j < |s.es| && s.es[j].at == OnIdle
    ensures var r := ForgetIdle(s, c);
            var first := s.es[j].cls == c && s.st[c].firstIdle == Some(j);
            && (first ==> forall k :: 0 <= k < |s.es| && s.es[k].at == OnIdle && s.es[k].cls == c ==>
                                        s.es[j].finish <= s.es[k].finish)
            && (r.es[j] == s.es[j] <==> !(first && s.es[j].finish <= r.st[c].vtime))
            && (r.es[j] != s.es[j] ==> r.es[j].at == Nowhere && !r.es[j].onSt)
  {
    JumpBackKeeps(s, c);
    assert ClassOk(s, c) && Linked(s, j);
    var s', f := JumpBack(s, c), s.st[c].firstIdle;
    if f.Some? {
      assert IdleAgrees(s, c, f.value);
      assert SameVtimes(s', PutIdle(s', f.value));
      forall k | 0 <= k < |s.es| && s.es[k].at == OnIdle && s.es[k].cls == c
        ensures s.es[f.value].finish <= s.es[k].finish
      {
        assert IdleAgrees(s, c, k);
      }
    }
  }
}
