/**
A run of a scheduler just set up in which virtual time goes back: two queues go idle, a third is served
until virtual time has passed both their finish times while a fourth waits, and bfq_forget_idle, which
drops one of the two per visit, sets virtual time back to the finish time of the other as soon as the
fourth is charged.
*/
module Wf2qBack {
  import opened Options
  import opened ActiveTree
  import opened ActiveSearch
  import opened Wf2qModel
  import opened Wf2qInvariant
  import opened Wf2qRuns
  import opened Wf2qEligible

  const UNIT := SERVICE_SCALE
  const ENV := Env(0, EraseFix(0, false, false, false), false, 0)

  const NEW := Entity(0, 0, 0, 0, 1, 1, 1, 1, 0, 0, false, false, Nowhere)

  /** The queue that waits all the time, with its budget of 100 units at weight 3. */
  const HELD := Entity(0, 100 * UNIT, 0, 300, 3, 3, 3, 1, 0, 0, false, true, OnActive)

  const ALONE := Node(Leaf, Key(3, 0, 100 * UNIT), 0, Leaf)

  /** Queue 3 waits; first and last of the idle tree are its ends. */
  function At(a: Entity, b: Entity, c: Entity, idle: seq<nat>, vtime: int, wsum: int, inService: Option<nat>): Sched {
    Sched([a, b, c, HELD],
          [ServiceTree(ALONE, idle, if idle == [] then None else Some(idle[0]),
                       if idle == [] then None else Some(idle[|idle| - 1]), vtime, wsum),
           EMPTY_TREE, EMPTY_TREE],
          inService, Some(3), 0)
  }

  // ----- one queue comes and goes -----

  function Pair(k: nat, v: int): Tree {
    Node(Node(Leaf, Key(k, v, v), v, Leaf), Key(3, 0, 100 * UNIT), 0, Leaf)
  }

  lemma InsertPair(k: nat, v: int)
    requires 0 <= v < 100 * UNIT
    ensures Insert(ALONE, Key(k, v, v), 0) == Pair(k, v)
  {
    var path := [Frame(true, ALONE.key, 0, Leaf)];
    assert Descend(ALONE, v, []) == path;
    var n := Node(Leaf, Key(k, v, v), 0, Leaf);
    assert path[1..] == [];
    assert UpdateUp(n, path) == Pair(k, v);
  }

  lemma ExtractPair(k: nat, v: int)
    requires k < 3
    ensures Extract(Pair(k, v), k, ENV.fix) == ALONE
  {
    var path := [Frame(true, ALONE.key, 0, Leaf)];
    assert path + [] == path;
    assert Find(Pair(k, v), k, []) == Some(Place(Pair(k, v).left, path));
    assert path[1..] == [];
  }

  lemma ExtractAlone()
    ensures Extract(ALONE, 3, ENV.fix) == Leaf
  {
    assert Find(ALONE, 3, []) == Some(Place(ALONE, []));
  }

  function Joined(s: Sched, k: nat): Sched
    requires Shape(s) && k < |s.es|
  {
    var v := s.st[0].vtime;
    s.(es := s.es[k := NEW.(start := v, finish := v, onSt := true, at := OnActive)],
       st := s.st[0 := s.st[0].(active := Pair(k, v), wsum := s.st[0].wsum + 1)],
       next := Some(k))
  }

  lemma Joins(s: Sched, k: nat)
    requires Shape(s) && k < 3 && |s.es| == 4 && s.es[k] == NEW && s.es[3] == HELD
    requires s.next == Some(3) && s.inService.None? && s.st[0].active == ALONE && 0 <= s.st[0].vtime < 100 * UNIT
    ensures ActivateRequeue(s, k, false, false, ENV) == Joined(s, k)
  {
    var v := s.st[0].vtime;
    InsertPair(k, v);
    var s1 := Join(SetStart(s, k, v), k);
    assert Activate(s, k, false, 0) == Enqueue(s1, k, false, 0);
    assert UpdateWeightPrio(s1, k, true) == s1;
    var s2 := Retime(s1, k, false);
    assert s2.es[k] == NEW.(start := v, finish := v, onSt := true);
    assert ActiveInsert(s2, k, 0).(next := Some(k)) == Joined(s, k);
  }

  function Chosen(s: Sched, k: nat): Sched
    requires Shape(s) && k < |s.es|
  {
    var v := s.st[0].vtime;
    s.(es := s.es[k := NEW.(start := v, finish := v, onSt := true)],
       st := s.st[0 := s.st[0].(wsum := s.st[0].wsum + 1)],
       inService := Some(k))
  }

  lemma Chooses(s: Sched, k: nat)
    requires Shape(s) && k < 3 && |s.es| == 4 && s.es[3] == HELD
    requires s.next == Some(3) && s.inService.None? && s.st[0].active == ALONE && 0 <= s.st[0].vtime
    ensures Shape(Joined(s, k)) && GetNext(Joined(s, k), ENV) == Chosen(s, k)
  {
    var j, v := Joined(s, k), s.st[0].vtime;
    ExtractPair(k, v);
    var s1 := ActiveExtract(j.(inService := Some(k)), k, ENV.fix);
    assert s1.(next := Some(3)) == Chosen(s, k);
    assert Search(ALONE, v, None) == Some(ALONE.key);
    assert LookupClass(s1, 0, true) == Found(s1, Some(ALONE.key));
  }

  /** From a state in which queue 3 waits, queue k is activated and selected. */
  lemma Comes(s0: Sched, run: seq<Action>, s: Sched, k: nat) returns (run': seq<Action>)
    requires RunOf(s0, run) && After(s0, run) == s
    requires k < 3 && |s.es| == 4 && s.es[k] == NEW && s.es[3] == HELD
    requires |s.st| == CLASSES && s.next == Some(3) && s.inService.None?
    requires s.st[0].active == ALONE && 0 <= s.st[0].vtime < 100 * UNIT
    ensures Shape(s) && RunOf(s0, run') && After(s0, run') == Chosen(s, k)
  {
    RunKeeps(s0, run);
    Joins(s, k);
    var a, b := Activation(k, false, false, ENV), Selection(ENV);
    GoOn(s0, run, a);
    Chooses(s, k);
    RunKeeps(s0, run + [a]);
    GoOn(s0, run + [a], b);
    run' := run + [a] + [b];
  }

  lemma {:induction false} CanGoOn(s: Sched, run: seq<Action>, a: Action)
    requires Inv(s) && CanRun(s, run) && Inv(After(s, run)) && Enabled(After(s, run), a)
    ensures CanRun(s, run + [a]) && After(s, run + [a]) == Apply(After(s, run), a)
    decreases |run|
  {
    if run == [] {
      assert run + [a] == [a] && [a][1..] == [];
      StepInv(s, a);
    } else {
      StepInv(s, run[0]);
      CanGoOn(Apply(s, run[0]), run[1..], a);
      assert (run + [a])[1..] == run[1..] + [a];
    }
  }

  lemma GoOn(s0: Sched, run: seq<Action>, a: Action)
    requires RunOf(s0, run) && Inv(After(s0, run)) && Enabled(After(s0, run), a)
    ensures RunOf(s0, run + [a]) && After(s0, run + [a]) == Apply(After(s0, run), a)
  {
    CanGoOn(s0, run, a);
  }

  /** One more action, and the state it leads to. */
  lemma Then(s0: Sched, run: seq<Action>, s: Sched, a: Action) returns (run': seq<Action>)
    requires RunOf(s0, run) && After(s0, run) == s && (Inv(s) ==> Enabled(s, a))
    ensures Inv(s) && RunOf(s0, run') && After(s0, run') == Apply(s, a)
  {
    RunKeeps(s0, run);
    GoOn(s0, run, a);
    run' := run + [a];
  }

  // ----- the states -----

  const GONE0 := NEW.(finish := 4 * UNIT, service := 4, onSt := true, at := OnIdle)
  const GONE1 := NEW.(start := UNIT, finish := 11 * UNIT, service := 10, onSt := true, at := OnIdle)
  const SERVED2 := NEW.(start := 3 * UNIT, finish := 3 * UNIT, service := 120, onSt := true)
  const GONE2 := NEW.(start := 3 * UNIT, finish := 123 * UNIT, service := 120)

  lemma Serve0()
    ensures var s := At(NEW, NEW, NEW, [], 0, 3, None);
            Shape(s) && Shape(Chosen(s, 0))
            && var r := Served(Chosen(s, 0), 0, 4);
               Deactivate(r, 0, true, false, ENV) == At(GONE0, NEW, NEW, [0], UNIT, 4, None)
  {
    var s := At(NEW, NEW, NEW, [], 0, 3, None);
    var c := Chosen(s, 0);
    var r := At(NEW.(service := 4, onSt := true), NEW, NEW, [], UNIT, 4, Some(0));
    assert Served(c, 0, 4) == r;
    assert [][..0] + [0] + [][0..] == [0];
    assert Park(r.(es := r.es[0 := GONE0.(at := Nowhere)], inService := None), 0, true)
           == At(GONE0, NEW, NEW, [0], UNIT, 4, None);
  }

  lemma Serve1()
    ensures var s := At(GONE0, NEW, NEW, [0], UNIT, 4, None);
            Shape(s) && Shape(Chosen(s, 1))
            && var r := Served(Chosen(s, 1), 1, 10);
               Deactivate(r, 1, true, false, ENV) == At(GONE0, GONE1, NEW, [0, 1], 3 * UNIT, 5, None)
  {
    var s := At(GONE0, NEW, NEW, [0], UNIT, 4, None);
    var c := Chosen(s, 1);
    var r := At(GONE0, GONE1.(finish := UNIT, at := Nowhere), NEW, [0], 3 * UNIT, 5, Some(1));
    assert Served(c, 1, 10) == r;
    var q := r.(es := r.es[1 := GONE1.(at := Nowhere)], inService := None);
    assert [0][1..] == [];
    assert IdlePos(q.es, [0], 11 * UNIT) == 1;
    assert [0][..1] + [1] + [0][1..] == [0, 1];
    assert Park(q, 1, true) == At(GONE0, GONE1, NEW, [0, 1], 3 * UNIT, 5, None);
  }

  /** bfq_forget_idle visits with both finish times passed and drops one queue of the two. */
  lemma DropsOne(e: Entity)
    requires e.cls < CLASSES && e.newCls < CLASSES && e.weight >= 1 && e.origWeight >= 1 && e.wrCoeff >= 1
    ensures var r := At(GONE0, GONE1, e, [0, 1], 23 * UNIT, 6, Some(2));
            Shape(r) && ForgetIdle(r, 0)
                        == At(GONE0.(onSt := false, at := Nowhere), GONE1, e, [1], 23 * UNIT, 5, Some(2))
  {
    var r := At(GONE0, GONE1, e, [0, 1], 23 * UNIT, 6, Some(2));
    assert IndexOf([0, 1], 0) == 0 && [0, 1][..0] + [0, 1][1..] == [1];
    var r0 := IdleExtract(r, 0);
    assert r0.st[0].idle == [1] && r0.st[0].firstIdle == Some(1) && r0.st[0].lastIdle == Some(1);
    assert PutIdle(r, 0) == At(GONE0.(onSt := false, at := Nowhere), GONE1, e, [1], 23 * UNIT, 5, Some(2));
  }

  lemma Charges2()
    ensures var s := At(GONE0, GONE1, NEW, [0, 1], 3 * UNIT, 5, None);
            Shape(s) && Shape(Chosen(s, 2))
            && Served(Chosen(s, 2), 2, 120)
               == At(GONE0.(onSt := false, at := Nowhere), GONE1, SERVED2, [1], 23 * UNIT, 5, Some(2))
  {
    var s := At(GONE0, GONE1, NEW, [0, 1], 3 * UNIT, 5, None);
    assert Advance(Chosen(s, 2), 2, 120) == At(GONE0, GONE1, SERVED2, [0, 1], 23 * UNIT, 6, Some(2));
    DropsOne(SERVED2);
  }

  lemma Leaves2()
    ensures var r := At(GONE0.(onSt := false, at := Nowhere), GONE1, SERVED2, [1], 23 * UNIT, 5, Some(2));
            Shape(r) && Deactivate(r, 2, false, false, ENV)
                        == At(GONE0.(onSt := false, at := Nowhere), GONE1, GONE2, [1], 23 * UNIT, 4, None)
  {
    var r := At(GONE0.(onSt := false, at := Nowhere), GONE1, SERVED2, [1], 23 * UNIT, 5, Some(2));
    assert Park(r.(es := r.es[2 := GONE2.(onSt := true)], inService := None), 2, false)
           == At(GONE0.(onSt := false, at := Nowhere), GONE1, GONE2, [1], 23 * UNIT, 4, None);
  }

  // ----- the run -----

  const START := Sched([], [EMPTY_TREE, EMPTY_TREE, EMPTY_TREE], None, None, 0)

  lemma Created() returns (run: seq<Action>)
    ensures RunOf(START, run)
    ensures After(START, run) == START.(es := [NEW, NEW, NEW, HELD.(finish := 0, onSt := false, at := Nowhere)])
  {
    FreshInv(START);
    assert RunOf(START, []) && After(START, []) == START;
    run := Then(START, [], START, Create(1, 0));
    run := Then(START, run, START.(es := [NEW]), Create(1, 0));
    run := Then(START, run, START.(es := [NEW, NEW]), Create(1, 0));
    run := Then(START, run, START.(es := [NEW, NEW, NEW]), Create(3, 0));
    var e := NEW.(weight := 3, origWeight := 3, newWeight := 3);
    run := Then(START, run, START.(es := [NEW, NEW, NEW, e]), Budget(3, 300));
  }

  lemma Waits() returns (run: seq<Action>)
    ensures RunOf(START, run) && After(START, run) == At(NEW, NEW, NEW, [], 0, 3, None)
  {
    var e := HELD.(finish := 0, onSt := false, at := Nowhere);
    var s := START.(es := [NEW, NEW, NEW, e]);
    run := Created();
    run := Then(START, run, s, Activation(3, false, false, ENV));
    var s1 := Join(SetStart(s, 3, 0), 3);
    assert UpdateWeightPrio(s1, 3, true) == s1;
    var s2 := Retime(s1, 3, false);
    assert s2.es[3] == HELD.(at := Nowhere);
    assert Descend(Leaf, 100 * UNIT, []) == [];
    assert Insert(Leaf, ALONE.key, 0) == ALONE;
    assert ActiveInsert(s2, 3, 0).(next := Some(3)) == At(NEW, NEW, NEW, [], 0, 3, None);
  }

  /** Queue k comes, is charged and goes. */
  lemma Goes(run: seq<Action>, s: Sched, k: nat, served: nat, intoIdle: bool) returns (run': seq<Action>)
    requires RunOf(START, run) && After(START, run) == s
    requires k < 3 && |s.es| == 4 && s.es[k] == NEW && s.es[3] == HELD
    requires |s.st| == CLASSES && s.next == Some(3) && s.inService.None?
    requires s.st[0].active == ALONE && 0 <= s.st[0].vtime < 100 * UNIT
    ensures Shape(s) && Shape(Chosen(s, k)) && Chosen(s, k).st[0].wsum >= 1
    ensures RunOf(START, run')
    ensures After(START, run') == Deactivate(Served(Chosen(s, k), k, served), k, intoIdle, false, ENV)
  {
    run' := Comes(START, run, s, k);
    var c := Chosen(s, k);
    RunKeeps(START, run');
    ServedDefined(c, k);
    run' := Then(START, run', c, Service(k, served));
    run' := Then(START, run', Served(c, k, served), Deactivation(k, intoIdle, false, ENV));
  }

  /** The last queue is selected: nothing of the class is active any more. */
  lemma SelectsLast(s: Sched)
    requires Shape(s) && |s.es| == 4 && s.next == Some(3) && s.inService.None? && s.es[3] == HELD
    requires s.st[0].active == ALONE && s.st[1] == s.st[2] == EMPTY_TREE
    ensures var r := GetNext(s, ENV);
            && r.inService == Some(3) && r.es == s.es[3 := HELD.(at := Nowhere)]
            && r.st == s.st[0 := s.st[0].(active := Leaf)]
  {
    ExtractAlone();
    var s1 := ActiveExtract(s.(inService := Some(3)), 3, ENV.fix);
    assert LookupFrom(s1, 3, true) == Found(s1, None);
    assert LookupFrom(s1, 2, true) == Found(s1, None);
    assert LookupFrom(s1, 1, true) == Found(s1, None);
    assert LookupFrom(s1, 0, true) == Found(s1, None);
  }

  lemma LastCharge(run: seq<Action>) returns (run': seq<Action>, a: Action)
    requires RunOf(START, run)
    requires After(START, run) == At(GONE0.(onSt := false, at := Nowhere), GONE1, GONE2, [1], 23 * UNIT, 4, None)
    ensures RunOf(START, run') && Inv(After(START, run')) && Enabled(After(START, run'), a)
    ensures a.Service? && After(START, run').inService == Some(a.i)
    ensures Apply(After(START, run'), a).st[0].vtime < After(START, run').st[0].vtime
  {
    var s := After(START, run);
    run' := Then(START, run, s, Selection(ENV));
    SelectsLast(s);
    RunKeeps(START, run');
    a := Service(3, 4);
    VtimeExact(After(START, run'), a, 0);
  }

  lemma TwoIdle() returns (run: seq<Action>)
    ensures RunOf(START, run) && After(START, run) == At(GONE0, GONE1, NEW, [0, 1], 3 * UNIT, 5, None)
  {
    run := Waits();
    Serve0();
    run := Goes(run, At(NEW, NEW, NEW, [], 0, 3, None), 0, 4, true);
    Serve1();
    run := Goes(run, At(GONE0, NEW, NEW, [0], UNIT, 4, None), 1, 10, true);
  }

  lemma AllGone() returns (run: seq<Action>)
    ensures RunOf(START, run)
    ensures After(START, run) == At(GONE0.(onSt := false, at := Nowhere), GONE1, GONE2, [1], 23 * UNIT, 4, None)
  {
    run := TwoIdle();
    Charges2();
    Leaves2();
    run := Goes(run, At(GONE0, GONE1, NEW, [0, 1], 3 * UNIT, 5, None), 2, 120, false);
  }

  /** A run of a scheduler just set up, and a charge of the queue in service that sets virtual time back. */
  lemma VtimeGoesBack() returns (run: seq<Action>, a: Action)
    ensures RunOf(START, run) && Inv(After(START, run)) && Enabled(After(START, run), a)
    ensures a.Service? && After(START, run).inService == Some(a.i)
    ensures Apply(After(START, run), a).st[0].vtime < After(START, run).st[0].vtime
  {
    run := AllGone();
    run, a := LastCharge(run);
  }
}
