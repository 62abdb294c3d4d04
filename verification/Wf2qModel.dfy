/**
The B-WF2Q+ engine of BFQ in its flat configuration: one scheduler with a service tree per ioprio
class, entities that are all queues, and the operations that activate, requeue, deactivate, select and
charge them. Virtual times are unbounded integers. An entity is known by its index.
*/
module Wf2qModel {
  import opened Options
  import opened ActiveTree
  import opened ActiveSearch

  const CLASSES := 3
  const MIN_WEIGHT := 1
  const MAX_WEIGHT := 1000
  const SERVICE_SCALE := 0x40_0000 // 1 << WFQ_SERVICE_SHIFT

  datatype Where = Nowhere | OnActive | OnIdle

  datatype Entity = Entity(
    start: int, finish: int,
    service: nat, budget: nat,
    weight: int, origWeight: int, newWeight: int, wrCoeff: nat,
    cls: nat, newCls: nat, prioChanged: bool,
    onSt: bool, at: Where)

  datatype ServiceTree = ServiceTree(
    active: Tree,
    idle: seq<nat>,           // the idle tree, in order of finish time
    firstIdle: Option<nat>,
    lastIdle: Option<nat>,
    vtime: int,
    wsum: int)

  datatype Sched = Sched(
    es: seq<Entity>,
    st: seq<ServiceTree>,
    inService: Option<nat>,
    next: Option<nat>,        // next_in_service
    idleServed: int)          // bfq_class_idle_last_service

  const EMPTY_TREE := ServiceTree(Leaf, [], None, None, 0, 0)

  /** Indices and classes make sense. */
  ghost predicate Shape(s: Sched) {
    && |s.st| == CLASSES
    && forall i :: 0 <= i < |s.es| ==>
         s.es[i].cls < CLASSES && s.es[i].newCls < CLASSES && s.es[i].weight >= 1
         && s.es[i].origWeight >= 1 && s.es[i].wrCoeff >= 1
  }

  function KeyOf(s: Sched, i: nat): Key
    requires i < |s.es|
  {
    Key(i, s.es[i].start, s.es[i].finish)
  }

  function SetE(s: Sched, i: nat, e: Entity): Sched
    requires i < |s.es|
  {
    s.(es := s.es[i := e])
  }

  function SetSt(s: Sched, c: nat, t: ServiceTree): Sched
    requires c < |s.st|
  {
    s.(st := s.st[c := t])
  }

  /** bfq_delta */
  function Delta(service: nat, weight: int): int
    requires weight >= 1
  {
    service * SERVICE_SCALE / weight
  }

  /** bfq_calc_finish */
  function CalcFinish(s: Sched, i: nat, service: nat): (r: Sched)
    requires Shape(s) && i < |s.es|
    ensures Shape(r) && |r.es| == |s.es|
  {
    SetE(s, i, s.es[i].(finish := s.es[i].start + Delta(service, s.es[i].weight)))
  }

  // ----- the trees -----

  function ActiveInsert(s: Sched, i: nat, level: nat): (r: Sched)
    requires Shape(s) && i < |s.es|
    ensures Shape(r) && |r.es| == |s.es|
  {
    var e := s.es[i];
    var t := s.st[e.cls];
    SetSt(SetE(s, i, e.(at := OnActive)), e.cls, t.(active := Insert(t.active, KeyOf(s, i), level)))
  }

  function ActiveExtract(s: Sched, i: nat, fix: EraseFix): (r: Sched)
    requires Shape(s) && i < |s.es|
    ensures Shape(r) && |r.es| == |s.es|
  {
    var e := s.es[i];
    var t := s.st[e.cls];
    SetSt(SetE(s, i, e.(at := Nowhere)), e.cls, t.(active := Extract(t.active, i, fix)))
  }

  /** Where bfq_insert puts an entity in the idle tree: after all that finish no later. */
  function IdlePos(es: seq<Entity>, idle: seq<nat>, finish: int): (p: nat)
    ensures p <= |idle|
  {
    if idle == [] || idle[0] >= |es| || es[idle[0]].finish > finish then 0
    else 1 + IdlePos(es, idle[1..], finish)
  }

  function IdleInsert(s: Sched, i: nat): (r: Sched)
    requires Shape(s) && i < |s.es|
    ensures Shape(r) && |r.es| == |s.es|
  {
    var e := s.es[i];
    var t := s.st[e.cls];
    var p := IdlePos(s.es, t.idle, e.finish);
    var before := (o: Option<nat>) => o.None? || o.value >= |s.es|;
    SetSt(SetE(s, i, e.(at := OnIdle)), e.cls,
          t.(idle := t.idle[..p] + [i] + t.idle[p..],
             firstIdle := if before(t.firstIdle) || s.es[t.firstIdle.value].finish > e.finish then Some(i)
                          else t.firstIdle,
             lastIdle := if before(t.lastIdle) || e.finish > s.es[t.lastIdle.value].finish then Some(i)
                         else t.lastIdle))
  }

  function IndexOf(q: seq<nat>, i: nat): (p: nat)
    ensures p <= |q| && (p < |q| <==> i in q) && (p < |q| ==> q[p] == i)
  {
    if q == [] then 0 else if q[0] == i then 0 else 1 + IndexOf(q[1..], i)
  }

  function IdleExtract(s: Sched, i: nat): (r: Sched)
    requires Shape(s) && i < |s.es|
    ensures Shape(r) && |r.es| == |s.es|
  {
    var e := s.es[i];
    var t := s.st[e.cls];
    var p := IndexOf(t.idle, i);
    if p == |t.idle| then SetE(s, i, e.(at := Nowhere))
    else
      SetSt(SetE(s, i, e.(at := Nowhere)), e.cls,
            t.(idle := t.idle[..p] + t.idle[p + 1..],
               firstIdle := if t.firstIdle != Some(i) then t.firstIdle
                            else if p + 1 < |t.idle| then Some(t.idle[p + 1]) else None,
               lastIdle := if t.lastIdle != Some(i) then t.lastIdle
                           else if p > 0 then Some(t.idle[p - 1]) else None))
  }

  // ----- the weight sums -----

  function Join(s: Sched, i: nat): (r: Sched)
    requires Shape(s) && i < |s.es|
    ensures Shape(r) && |r.es| == |s.es|
  {
    var e := s.es[i];
    SetSt(SetE(s, i, e.(onSt := true)), e.cls, s.st[e.cls].(wsum := s.st[e.cls].wsum + e.weight))
  }

  /** bfq_forget_entity */
  function Forget(s: Sched, i: nat): (r: Sched)
    requires Shape(s) && i < |s.es|
    ensures Shape(r) && |r.es| == |s.es|
  {
    var e := s.es[i];
    SetSt(SetE(s, i, e.(onSt := false)), e.cls, s.st[e.cls].(wsum := s.st[e.cls].wsum - e.weight))
  }

  /** bfq_put_idle_entity */
  function PutIdle(s: Sched, i: nat): (r: Sched)
    requires Shape(s) && i < |s.es|
    ensures Shape(r) && |r.es| == |s.es|
  {
    Forget(IdleExtract(s, i), i)
  }

  /** When nothing is active any more, vtime is set to the last idle finish time if it has passed it. */
  function JumpBack(s: Sched, c: nat): (r: Sched)
    requires Shape(s) && c < CLASSES
    ensures Shape(r) && |r.es| == |s.es|
  {
    var t := s.st[c];
    if t.active.Leaf? && t.lastIdle.Some? && t.lastIdle.value < |s.es| && s.es[t.lastIdle.value].finish <= t.vtime
    then SetSt(s, c, t.(vtime := s.es[t.lastIdle.value].finish))
    else s
  }

  /** bfq_forget_idle */
  function ForgetIdle(s: Sched, c: nat): (r: Sched)
    requires Shape(s) && c < CLASSES
    ensures Shape(r) && |r.es| == |s.es|
  {
    var s' := JumpBack(s, c);
    var f := s.st[c].firstIdle;
    if f.Some? && f.value < |s.es| && s.es[f.value].finish <= s'.st[c].vtime then PutIdle(s', f.value) else s'
  }

  function Clamp(w: int): int {
    if w < MIN_WEIGHT then MIN_WEIGHT else if w > MAX_WEIGHT then MAX_WEIGHT else w
  }

  /** The entity after __bfq_entity_update_weight_prio, before its start is moved to a new class's vtime. */
  function Reweighed(e: Entity, updateClass: bool): Entity {
    var w := if e.newWeight != e.origWeight then Clamp(e.newWeight) else e.newWeight;
    var c := if updateClass then e.newCls else e.cls;
    e.(newWeight := w, origWeight := w, cls := c, prioChanged := c != e.newCls, weight := w * e.wrCoeff)
  }

  function UpdateWeightPrio(s: Sched, i: nat, updateClass: bool): (r: Sched)
    requires Shape(s) && i < |s.es|
    ensures Shape(r) && |r.es| == |s.es|
  {
    if !s.es[i].prioChanged then s
    else
      var e := s.es[i];
      var e' := Reweighed(e, updateClass);
      TimesAtLeastOne(e'.origWeight, e.wrCoeff);
      var s1 := SetSt(s, e.cls, s.st[e.cls].(wsum := s.st[e.cls].wsum - e.weight));
      var s2 := SetSt(s1, e'.cls, s1.st[e'.cls].(wsum := s1.st[e'.cls].wsum + e'.weight));
      SetE(s2, i, if e'.cls != e.cls then e'.(start := s.st[e'.cls].vtime) else e')
  }

  lemma TimesAtLeastOne(a: int, b: int)
    requires a >= 1 && b >= 1
    ensures a * b >= 1
  {
  }

  // ----- activation -----

  /** The finish time for the entity's budget, pushed up if it was backshifted too far. */
  function Retime(s: Sched, i: nat, backshifted: bool): (r: Sched)
    requires Shape(s) && i < |s.es|
    ensures Shape(r) && |r.es| == |s.es|
  {
    var s' := CalcFinish(s, i, s.es[i].budget);
    var e := s'.es[i];
    var behind := s.st[e.cls].vtime - e.finish;
    if backshifted && behind > 0
    then SetE(s', i, e.(start := e.start + behind / e.wrCoeff, finish := e.finish + behind / e.wrCoeff))
    else s'
  }

  /** bfq_update_fin_time_enqueue */
  function Enqueue(s: Sched, i: nat, backshifted: bool, level: nat): (r: Sched)
    requires Shape(s) && i < |s.es|
    ensures Shape(r) && |r.es| == |s.es|
  {
    ActiveInsert(Retime(UpdateWeightPrio(s, i, true), i, backshifted), i, level)
  }

  function Later(a: int, b: int): int {
    if a > b then a else b
  }

  function SetStart(s: Sched, i: nat, start: int): (r: Sched)
    requires Shape(s) && i < |s.es|
    ensures Shape(r) && |r.es| == |s.es|
  {
    SetE(s, i, s.es[i].(start := start))
  }

  /** __bfq_activate_entity */
  function Activate(s: Sched, i: nat, nonBlocking: bool, level: nat): (r: Sched)
    requires Shape(s) && i < |s.es|
    ensures Shape(r) && |r.es| == |s.es|
  {
    var e := s.es[i];
    var vtime := s.st[e.cls].vtime;
    var backshifted := nonBlocking && vtime > e.finish;
    var minStart := if backshifted then e.finish else vtime;
    if e.at == OnIdle then
      Enqueue(SetStart(IdleExtract(s, i), i, Later(minStart, e.finish)), i, backshifted, level)
    else
      Enqueue(Join(SetStart(s, i, minStart), i), i, backshifted, level)
  }

  /** __bfq_requeue_entity */
  function Requeue(s: Sched, i: nat, level: nat, fix: EraseFix): (r: Sched)
    requires Shape(s) && i < |s.es|
    ensures Shape(r) && |r.es| == |s.es|
  {
    if s.inService == Some(i) then
      var s1 := CalcFinish(s, i, s.es[i].service);
      var s2 := SetE(s1, i, s1.es[i].(start := s1.es[i].finish));
      Enqueue(if s2.es[i].at != Nowhere then ActiveExtract(s2, i, fix) else s2, i, false, level)
    else
      Enqueue(ActiveExtract(s, i, fix), i, false, level)
  }

  // ----- next_in_service -----

  datatype Found = Found(s: Sched, k: Option<Key>)

  /** __bfq_lookup_next_entity: the vtime jump, then the walk for an eligible entity. */
  function LookupClass(s: Sched, c: nat, inService: bool): (f: Found)
    requires Shape(s) && c < CLASSES
    ensures Shape(f.s) && |f.s.es| == |s.es|
  {
    var t := s.st[c];
    if t.active.Leaf? then Found(s, None)
    else
      var v := Later(t.active.minStart, t.vtime);
      var s' := if !inService && v > t.vtime then ForgetIdle(SetSt(s, c, t.(vtime := v)), c) else s;
      Found(s', Search(s'.st[c].active, v, None))
  }

  /** The loop over the classes in bfq_lookup_next_entity. */
  function LookupFrom(s: Sched, c: nat, inService: bool): (f: Found)
    requires Shape(s) && c <= CLASSES
    ensures Shape(f.s) && |f.s.es| == |s.es|
    decreases CLASSES - c
  {
    if c == CLASSES then Found(s, None)
    else
      var f := LookupClass(s, c, inService);
      if f.k.Some? then f else LookupFrom(f.s, c + 1, inService)
  }

  /** bfq_lookup_next_entity; `starved` says that the idle class has waited for BFQ_CL_IDLE_TIMEOUT. */
  function Lookup(s: Sched, expiration: bool, starved: bool, now: int): (f: Found)
    requires Shape(s)
    ensures Shape(f.s) && |f.s.es| == |s.es|
  {
    var c := if starved && s.st[CLASSES - 1].active.Node? then CLASSES - 1 else 0;
    LookupFrom(if starved then s.(idleServed := now) else s, c, s.inService.Some? && !expiration)
  }

  /** The entity that has just changed takes over without a lookup. */
  predicate TakesOver(s: Sched, i: nat)
    requires Shape(s) && i < |s.es|
  {
    && s.next != Some(i)
    && (s.next.Some? && s.next.value < |s.es| ==>
          && s.es[i].cls == s.es[s.next.value].cls
          && s.es[i].start <= s.st[s.es[i].cls].vtime
          && s.es[s.next.value].finish > s.es[i].finish)
  }

  /** bfq_update_next_in_service */
  function UpdateNext(s: Sched, changed: Option<nat>, expiration: bool, starved: bool, now: int): (r: Sched)
    requires Shape(s) && (changed.Some? ==> changed.value < |s.es|)
    ensures Shape(r) && |r.es| == |s.es|
  {
    if changed.Some? && TakesOver(s, changed.value) then s.(next := changed)
    else
      var f := Lookup(s, expiration, starved, now);
      f.s.(next := if f.k.Some? then Some(f.k.value.id) else None)
  }

  // ----- what the scheduler core calls -----

  /** What the environment decides in one operation: the rebalancing, the idle-class timeout and the clock. */
  datatype Env = Env(level: nat, fix: EraseFix, starved: bool, now: int)

  /** bfq_activate_requeue_entity */
  function ActivateRequeue(s: Sched, i: nat, nonBlocking: bool, expiration: bool, env: Env): (r: Sched)
    requires Shape(s) && i < |s.es|
    ensures Shape(r) && |r.es| == |s.es|
  {
    var s' := if s.inService == Some(i) || s.es[i].at == OnActive then Requeue(s, i, env.level, env.fix)
              else Activate(s, i, nonBlocking, env.level);
    UpdateNext(s', Some(i), expiration, env.starved, env.now)
  }

  /** The entity's tree without it. */
  function OffTree(s: Sched, i: nat, fix: EraseFix): (r: Sched)
    requires Shape(s) && i < |s.es|
    ensures Shape(r) && |r.es| == |s.es|
  {
    if s.es[i].at == OnActive then ActiveExtract(s, i, fix)
    else if s.es[i].at == OnIdle && s.inService != Some(i) then IdleExtract(s, i)
    else s
  }

  /** Its finish time for the service received; its service counter is reset unless it is in service. */
  function Charged(s: Sched, i: nat): Entity
    requires Shape(s) && i < |s.es|
  {
    var e := CalcFinish(s, i, s.es[i].service).es[i];
    if s.inService == Some(i) then e else e.(service := 0)
  }

  /** An entity off its tree goes to the idle tree, or is forgotten if its finish time has passed. */
  function Park(s: Sched, i: nat, intoIdle: bool): (r: Sched)
    requires Shape(s) && i < |s.es|
    ensures Shape(r) && |r.es| == |s.es|
  {
    if !intoIdle || s.es[i].finish <= s.st[s.es[i].cls].vtime then Forget(s, i) else IdleInsert(s, i)
  }

  /** __bfq_deactivate_entity on an entity with on_st set. */
  function TakeOff(s: Sched, i: nat, intoIdle: bool, fix: EraseFix): (r: Sched)
    requires Shape(s) && i < |s.es|
    ensures Shape(r) && |r.es| == |s.es|
  {
    var s1 := OffTree(SetE(s, i, Charged(s, i)), i, fix);
    Park(if s.inService == Some(i) then s1.(inService := None) else s1, i, intoIdle)
  }

  /** bfq_deactivate_entity */
  function Deactivate(s: Sched, i: nat, intoIdle: bool, expiration: bool, env: Env): (r: Sched)
    requires Shape(s) && i < |s.es|
    ensures Shape(r) && |r.es| == |s.es|
  {
    if !s.es[i].onSt then s
    else
      var s' := TakeOff(s, i, intoIdle, env.fix);
      if s'.next == Some(i) then UpdateNext(s', None, expiration, env.starved, env.now) else s'
  }

  /** bfq_get_next_queue past its check for busy queues. */
  function GetNext(s: Sched, env: Env): (r: Sched)
    requires Shape(s) && s.next.Some? && s.next.value < |s.es|
    ensures Shape(r) && |r.es| == |s.es|
  {
    var i := s.next.value;
    UpdateNext(ActiveExtract(s.(inService := Some(i)), i, env.fix), None, false, env.starved, env.now)
  }

  /** The entity's service and the vtime of its class advance. */
  function Advance(s: Sched, i: nat, served: nat): (r: Sched)
    requires Shape(s) && i < |s.es| && s.st[s.es[i].cls].wsum >= 1
    ensures Shape(r) && |r.es| == |s.es|
  {
    var e := s.es[i];
    var t := s.st[e.cls];
    SetSt(SetE(s, i, e.(service := e.service + served)), e.cls, t.(vtime := t.vtime + Delta(served, t.wsum)))
  }

  /** bfq_bfqq_served */
  function Served(s: Sched, i: nat, served: nat): (r: Sched)
    requires Shape(s) && i < |s.es| && s.st[s.es[i].cls].wsum >= 1
    ensures Shape(r) && |r.es| == |s.es|
  {
    ForgetIdle(Advance(s, i, served), s.es[i].cls)
  }

  /** __bfq_bfqd_reset_in_service */
  function Reset(s: Sched): Sched {
    s.(inService := None)
  }

  /** A new queue, on no tree. */
  function NewQueue(s: Sched, weight: nat, cls: nat): Sched {
    s.(es := s.es + [Entity(0, 0, 0, 0, weight, weight, weight, 1, cls, cls, false, false, Nowhere)])
  }

  /** A weight, class or weight-raising change is requested; it takes effect later. */
  function AskPrio(s: Sched, i: nat, newWeight: int, newCls: nat, wrCoeff: nat): Sched
    requires i < |s.es|
  {
    SetE(s, i, s.es[i].(newWeight := newWeight, newCls := newCls, wrCoeff := wrCoeff, prioChanged := true))
  }

  function SetBudget(s: Sched, i: nat, budget: nat): Sched
    requires i < |s.es|
  {
    SetE(s, i, s.es[i].(budget := budget))
  }
}
