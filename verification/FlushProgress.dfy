/**
The flush sequencer cannot stall: while a request is being sequenced some completion is due, and
every completion strictly reduces the steps left, so the completions alone drain the machine.
*/
module FlushProgress {
  import opened FlushModel
  import opened FlushInvariant

  /** Steps left to all live requests together. */
  function Todo(s: State): nat {
    Work(s.queue0, s.live) + Work(s.queue1, s.live) + Work(s.dataInFlight, s.live)
  }

  lemma DetachTodo(s: State, r: nat)
    requires r in s.live && AtHome(s, r)
    ensures Todo(Detach(s, r)) + Left(s.live[r]) == Todo(s)
  {
    WithoutIs(s.queue0, r);
    WithoutIs(s.queue1, r);
    WithoutIs(s.dataInFlight, r);
    if r in s.queue0 {
      WorkWithout(s.queue0, r, s.live);
    } else if r in s.queue1 {
      WorkWithout(s.queue1, r, s.live);
    } else {
      WorkWithout(s.dataInFlight, r, s.live);
    }
  }

  lemma FrameTodo(s: State, t: State, r: nat)
    requires r !in s.queue0 && r !in s.queue1 && r !in s.dataInFlight
    requires SameBut(s.live, t.live, r)
    requires t.queue0 == s.queue0 && t.queue1 == s.queue1 && t.dataInFlight == s.dataInFlight
    ensures Todo(t) == Todo(s)
  {
    WorkFrame(s.queue0, r, s.live, t.live);
    WorkFrame(s.queue1, r, s.live, t.live);
    WorkFrame(s.dataInFlight, r, s.live, t.live);
  }

  /** Marking bits of r and taking it off its list removes all its steps from the total. */
  lemma MarkTodo(s: State, r: nat, bits: Mask)
    requires r in s.live && AtHome(s, r)
    ensures Todo(Detach(Mark(s, r, bits), r)) + Left(s.live[r]) == Todo(s)
  {
    DetachTodo(s, r);
    DetachIs(s, r);
    FrameTodo(Detach(s, r), Detach(Mark(s, r, bits), r), r);
  }

  lemma FinishTodo(s: State, r: nat, ok: bool)
    ensures Todo(Finish(s, r, ok)) == Todo(Detach(s, r))
  {
    DetachIs(s, r);
    FrameTodo(Detach(s, r), Finish(s, r, ok), r);
  }

  lemma AdvanceTodo(s: State, r: nat, bits: Mask, ok: bool, now: int)
    requires r in s.live && AtHome(s, r)
    requires Left(s.live[r].Or(bits)) < Left(s.live[r])
    ensures Todo(Advance(s, r, bits, ok, now)) < Todo(s)
  {
    MarkTodo(s, r, bits);
    var s' := Mark(s, r, bits);
    var d := Detach(s', r);
    var q := if s.pendingIdx then d.queue1 else d.queue0;
    match if ok then CurSeq(s'.live[r]) else Done
    case Preflush => WorkPush(q, r, d.live);
    case Postflush => WorkPush(q, r, d.live);
    case Data => WorkPush(d.dataInFlight, r, d.live);
    case Done => FinishTodo(s', r, ok);
  }

  lemma WalkStepTodo(s: State, w: bool, ok: bool, now: int)
    requires Walking(s, w) && s.Queue(w) != [] && s.Queue(w)[0] in s.live
    ensures Todo(WalkStep(s, w, ok, now)) < Todo(s)
  {
    WalkStepReady(s, w, ok);
    var r := s.Queue(w)[0];
    assert s == s.(bug := false);
    AdvanceTodo(s, r, Bit(CurSeq(s.live[r])), ok, now);
  }

  lemma {:induction false} WalkTodo(s: State, w: bool, ok: bool, now: int)
    requires Walking(s, w) && s.Queue(w) != []
    ensures Todo(Walk(s, w, ok, now)) < Todo(s)
    decreases Work(s.Queue(w), s.live)
  {
    WalkStepKeeps(s, w, ok, now);
    WalkStepTodo(s, w, ok, now);
    if |s.Queue(w)| > 1 {
      WalkTodo(WalkStep(s, w, ok, now), w, ok, now);
    }
  }

  /** Every data or flush completion, successful or not, leaves strictly fewer steps to do. */
  lemma CompletionProgress(s: State, a: Action)
    requires Inv(s) && Enabled(s, a) && !a.Submit?
    ensures Todo(Apply(s, a)) < Todo(s)
  {
    match a
    case DataCompletes(r, ok, now) =>
      assert AtHome(s, r);
      var s' := s.(log := s.log + [DataDone(r, ok)]);
      assert AtHome(s', r);
      AdvanceTodo(s', r, Bit(Data), ok, now);
    case FlushCompletes(ok, now) =>
      FlushBeginWalks(s, ok);
      WalkTodo(FlushBegin(s, ok), s.runningIdx, ok, now);
  }

  /** While any request is live, the device still owes a completion. */
  lemma NeverStuck(s: State, r: nat)
    requires Inv(s) && r in s.live
    ensures s.outstanding > 0 || s.dataInFlight != []
  {
    assert AtHome(s, r);
    assert r in s.queue0 || r in s.queue1 || r in s.dataInFlight;
  }

  /** Without new submissions at most Todo completions can happen, in whatever order and with whatever status. */
  lemma {:induction false} Drains(s: State, run: seq<Action>)
    requires Inv(s) && CanRun(s, run)
    requires forall a :: a in run ==> !a.Submit?
    ensures |run| + Todo(After(s, run)) <= Todo(s)
    ensures After(s, run).outstanding == 0 && After(s, run).dataInFlight == [] ==> After(s, run).live == map[]
    decreases run
  {
    if run == [] {
      if s.live != map[] {
        var r :| r in s.live;
        NeverStuck(s, r);
      }
    } else {
      CompletionProgress(s, run[0]);
      StepKeeps(s, run[0]);
      Drains(Apply(s, run[0]), run[1..]);
    }
  }
}
