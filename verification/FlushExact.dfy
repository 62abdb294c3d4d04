/**
Which requests always get a flush command of their own: all but those asking for PREFLUSH and
POSTFLUSH without data. flush_end_io moves such a request to the tail of the very list it is walking
when an earlier request on that list has already kicked the next flush, and then completes its
POSTFLUSH with the flush that had just ended.
*/
module FlushExact {
  import opened FlushModel
  import opened FlushInvariant
  import opened FlushCoverage
  import opened FlushTheorems

  ghost predicate BackedPair(s: State, policy: Mask, i: int, e: int)
    requires 0 <= i < e < |s.log|
  {
    s.log[i].Join? && s.log[i].r in s.policies && s.policies[s.log[i].r] == policy && Moves(s.log[e], s.log[i].r)
    ==> Covered(s.log, i, e)
  }

  /** In this state every flush step of a request with this policy was backed by a flush issued after it queued. */
  ghost predicate Backs(s: State, policy: Mask) {
    forall i, e :: 0 <= i < e < |s.log| ==> BackedPair(s, policy, i, e)
  }

  ghost predicate AlwaysBacked(policy: Mask) {
    forall elevator, timeout, run :: Inv(Init(elevator, timeout)) && CanRun(Init(elevator, timeout), run) ==>
      Backs(After(Init(elevator, timeout), run), policy)
  }

  lemma {:induction false} RunOne(s: State, run: seq<Action>, a: Action)
    requires Inv(s) && CanRun(s, run) && Enabled(After(s, run), a)
    ensures Inv(After(s, run))
    ensures CanRun(s, run + [a]) && After(s, run + [a]) == Apply(After(s, run), a)
    decreases run
  {
    if run == [] {
      StepKeeps(s, a);
      assert (run + [a])[1..] == [];
    } else {
      StepKeeps(s, run[0]);
      RunOne(Apply(s, run[0]), run[1..], a);
      assert (run + [a])[1..] == run[1..] + [a];
    }
  }

  /** While a flush runs, a PREFLUSH request just queues behind it. */
  lemma QueuesBehind(s: State, a: Action)
    requires Inv(s) && a.Submit? && Enabled(s, a) && PolicyOf(a).pre
    requires s.pendingIdx != s.runningIdx
    ensures var t := Apply(s, a);
            && t.Queue(s.pendingIdx) == s.Queue(s.pendingIdx) + [a.r] && t.Queue(s.runningIdx) == s.Queue(s.runningIdx)
            && t.pendingIdx == s.pendingIdx && t.runningIdx == s.runningIdx && t.elevator == s.elevator
            && t.live == s.live[a.r := PolicyOf(a).Not()] && t.policies == s.policies[a.r := PolicyOf(a)]
            && t.outstanding == s.outstanding
  {
    InsertQueues(s, a.r, PolicyOf(a), a.now);
    assert Apply(s, a) == Insert(s, a.r, PolicyOf(a), a.now);
  }

  lemma InsertQueues(s: State, r: nat, p: Mask, now: int)
    requires AtHome(s, r) && r !in s.live && p.pre && s.pendingIdx != s.runningIdx
    ensures var t := Insert(s, r, p, now);
            && t.Queue(s.pendingIdx) == s.Queue(s.pendingIdx) + [r] && t.Queue(s.runningIdx) == s.Queue(s.runningIdx)
            && t.pendingIdx == s.pendingIdx && t.runningIdx == s.runningIdx && t.elevator == s.elevator
            && t.live == s.live[r := p.Not()] && t.policies == s.policies[r := p]
            && t.outstanding == s.outstanding
  {
    WithoutIs(s.Queue(s.pendingIdx), r);
    WithoutIs(s.Queue(s.runningIdx), r);
    var s' := s.(policies := s.policies[r := p], live := s.live[r := NO_STEPS]);
    assert NO_STEPS.Or(p.Not()) == p.Not();
    Joins(s', r, p.Not(), now);
    assert s'.live[r := p.Not()] == s.live[r := p.Not()];
  }

  /** Completing bits that leave a flush step next, while a flush runs, only appends to the pending list. */
  lemma Joins(s: State, r: nat, bits: Mask, now: int)
    requires r in s.live && Waiting(s.live[r].Or(bits)) && s.pendingIdx != s.runningIdx
    ensures var t, m := CompleteSeq(s, r, bits, true, now), s.live[r].Or(bits);
            && t.Queue(s.pendingIdx) == Without(s.Queue(s.pendingIdx), r) + [r]
            && t.Queue(s.runningIdx) == Without(s.Queue(s.runningIdx), r)
            && t.pendingIdx == s.pendingIdx && t.runningIdx == s.runningIdx && t.elevator == s.elevator
            && t.live == s.live[r := m] && t.policies == s.policies
            && t.outstanding == s.outstanding
            && t.log == s.log + [Join(r, CurSeq(m) == Postflush)]
  {
    var s' := Mark(s, r, bits);
    assert Advance(s, r, bits, true, now) == Enqueue(s', r, CurSeq(s'.live[r]) == Postflush, now);
  }

  /** Completing the last bits ends the request and kicks the next flush if one can go. */
  lemma Ends(s: State, r: nat, bits: Mask, now: int)
    requires r in s.live && CurSeq(s.live[r].Or(bits)) == Done
    ensures var t := CompleteSeq(s, r, bits, true, now);
            && t.queue0 == Without(s.queue0, r) && t.queue1 == Without(s.queue1, r)
            && t.runningIdx == s.runningIdx && t.elevator == s.elevator
            && t.live == s.live - {r} && t.policies == s.policies
            && (s.pendingIdx != s.runningIdx ==> t.pendingIdx == s.pendingIdx && t.log == s.log + [End(r, true)])
            && (s.pendingIdx == s.runningIdx && t.Queue(s.pendingIdx) != [] && !s.elevator ==>
                  t.pendingIdx != s.pendingIdx && t.log == s.log + [End(r, true), Issue(s.issued + 1)])
  {
    var s' := Mark(s, r, bits);
    assert Advance(s, r, bits, true, now) == Finish(s', r, true);
    assert s'.live - {r} == s.live - {r};
    assert s.log + [End(r, true)] + [Issue(s.issued + 1)] == s.log + [End(r, true), Issue(s.issued + 1)];
  }

  /** A request with only its current flush step left is ended by the walk. */
  lemma WalkEnds(s: State, w: bool, now: int)
    requires Walking(s, w) && s.Queue(w) != [] && s.Queue(w)[0] in s.live && Left(s.live[s.Queue(w)[0]]) == 1
    ensures var r, t := s.Queue(w)[0], WalkStep(s, w, true, now);
            && t.Queue(w) == s.Queue(w)[1..] && t.Queue(!w) == s.Queue(!w)
            && t.live == s.live - {r} && t.policies == s.policies && t.elevator == s.elevator
            && t.runningIdx == s.runningIdx
            && (s.pendingIdx == s.runningIdx && s.Pending() != [] && !s.elevator ==>
                  t.pendingIdx != s.pendingIdx && t.log == s.log + [End(r, true), Issue(s.issued + 1)])
            && (s.pendingIdx != s.runningIdx ==> t.pendingIdx == s.pendingIdx && t.log == s.log + [End(r, true)])
  {
    HeadOf(s, w);
    var r := s.Queue(w)[0];
    WithoutIs(s.Queue(!w), r);
    assert s == s.(bug := false);
    Ends(s, r, Bit(CurSeq(s.live[r])), now);
  }

  /** A request for both flushes is put back at the tail of the walked list once that list is the pending one. */
  lemma WalkRequeues(s: State, w: bool, now: int)
    requires Walking(s, w) && s.pendingIdx == w && s.Queue(w) != [] && s.Queue(w)[0] in s.live
    requires s.live[s.Queue(w)[0]] == Mask(false, true, false)
    ensures var r, t := s.Queue(w)[0], WalkStep(s, w, true, now);
            && t.Queue(w) == s.Queue(w)[1..] + [r]
            && t.live == s.live[r := Mask(true, true, false)] && t.policies == s.policies
            && t.runningIdx == s.runningIdx && t.pendingIdx == s.pendingIdx
            && t.log == s.log + [Join(r, true)]
  {
    HeadOf(s, w);
    var r := s.Queue(w)[0];
    assert s == s.(bug := false);
    Joins(s, r, Bit(Preflush), now);
  }

  function FlushOnly(r: nat): Action {
    Submit(r, false, true, false, true, false, 0)
  }

  function BothFlushes(r: nat): Action {
    Submit(r, false, true, true, true, false, 0)
  }

  const PRE := Mask(true, false, false)
  const PRE_POST := Mask(true, false, true)

  ghost predicate Has(m: map<nat, Mask>, r: nat, mask: Mask) {
    r in m && m[r] == mask
  }

  /** The run is possible from s0 and leads to s. */
  ghost predicate Leads(s0: State, run: seq<Action>, s: State) {
    Inv(s0) && CanRun(s0, run) && After(s0, run) == s
  }

  lemma FirstFlush(s0: State) returns (run: seq<Action>, s: State)
    requires s0 == Init(false, 0)
    ensures Leads(s0, run, s)
    ensures s.queue0 == [0] && s.queue1 == [] && s.pendingIdx && !s.runningIdx && !s.elevator
    ensures Has(s.live, 0, PRE.Not()) && s.policies.Keys == {0} && s.outstanding == 1
  {
    InitInv(false, 0);
    run := [];
    RunOne(s0, run, FlushOnly(0));
    run := run + [FlushOnly(0)];
    s := Insert(s0, 0, PRE, 0);
    assert Without([], 0) == [];
  }

  /** One more request queued behind the running flush at the end of a run. */
  lemma OneMore(s0: State, run: seq<Action>, s: State, a: Action) returns (run': seq<Action>, t: State)
    requires Leads(s0, run, s)
    requires a.Submit? && PolicyOf(a).pre && a.r !in s.policies && s.pendingIdx != s.runningIdx
    ensures Leads(s0, run', t)
    ensures t.Queue(s.pendingIdx) == s.Queue(s.pendingIdx) + [a.r] && t.Queue(s.runningIdx) == s.Queue(s.runningIdx)
    ensures t.pendingIdx == s.pendingIdx && t.runningIdx == s.runningIdx && t.elevator == s.elevator
    ensures Has(t.live, a.r, PolicyOf(a).Not()) && Has(t.policies, a.r, PolicyOf(a))
    ensures forall x, m :: x != a.r && Has(s.live, x, m) ==> Has(t.live, x, m)
    ensures forall x, m :: x != a.r && Has(s.policies, x, m) ==> Has(t.policies, x, m)
    ensures t.policies.Keys == s.policies.Keys + {a.r}
    ensures t.outstanding == s.outstanding
  {
    RunOne(s0, run, a);
    QueuesBehind(s, a);
    run' := run + [a];
    t := Apply(s, a);
  }

  /** Three requests behind a running flush, the second of them asking for both flushes without data. */
  lemma CrowdedQueue(s0: State, run1: seq<Action>, s1: State) returns (run: seq<Action>, s: State)
    requires Leads(s0, run1, s1)
    requires s1.queue0 == [0] && s1.queue1 == [] && s1.pendingIdx && !s1.runningIdx && !s1.elevator
    requires Has(s1.live, 0, PRE.Not()) && s1.policies.Keys == {0} && s1.outstanding == 1
    ensures Leads(s0, run, s)
    ensures s.queue0 == [0] && s.queue1 == [1, 2, 3] && s.pendingIdx && !s.runningIdx && !s.elevator
    ensures Has(s.live, 0, PRE.Not()) && Has(s.live, 1, PRE.Not())
    ensures Has(s.live, 2, PRE_POST.Not()) && Has(s.live, 3, PRE.Not())
    ensures Has(s.policies, 2, PRE_POST) && 4 !in s.policies && s.outstanding == 1
  {
    var run2, s2 := OneMore(s0, run1, s1, FlushOnly(1));
    assert s2.queue1 == [1];
    var run3, s3 := OneMore(s0, run2, s2, BothFlushes(2));
    assert s3.queue1 == [1, 2];
    run, s := OneMore(s0, run3, s3, FlushOnly(3));
  }

  /** The flush before them ends, theirs starts, and a last request queues up. */
  lemma SecondFlush(s0: State) returns (run: seq<Action>, s: State)
    requires s0 == Init(false, 0)
    ensures Leads(s0, run, s)
    ensures s.queue0 == [4] && s.queue1 == [1, 2, 3] && !s.pendingIdx && s.runningIdx && !s.elevator
    ensures Has(s.live, 1, PRE.Not()) && Has(s.live, 2, PRE_POST.Not()) && Has(s.live, 3, PRE.Not())
    ensures Has(s.policies, 2, PRE_POST) && s.outstanding == 1
  {
    run, s := FirstFlush(s0);
    run, s := CrowdedQueue(s0, run, s);
    var a := FlushCompletes(true, 0);
    RunOne(s0, run, a);
    FlushBeginWalks(s, true);
    var b := FlushBegin(s, true);
    WalkEnds(b, false, 0);
    run, s := run + [a], WalkStep(b, false, true, 0);
    run, s := OneMore(s0, run, s, FlushOnly(4));
  }

  /** The walk of the second flush puts the request for both flushes back on its own list ... */
  lemma WalkToRequeued(b: State) returns (b2: State)
    requires Walking(b, true) && b.queue0 == [4] && b.queue1 == [1, 2, 3] && !b.pendingIdx && !b.elevator
    requires Has(b.live, 1, PRE.Not()) && Has(b.live, 2, PRE_POST.Not()) && Has(b.live, 3, PRE.Not())
    ensures Walking(b2, true) && b2.queue1 == [3, 2] && b2.pendingIdx
    ensures Has(b2.live, 2, Mask(true, true, false)) && Has(b2.live, 3, PRE.Not())
    ensures b2.log == b.log + [End(1, true), Issue(b.issued + 1), Join(2, true)] && b2.policies == b.policies
    ensures Walk(b, true, true, 0) == Walk(b2, true, true, 0)
  {
    WalkEnds(b, true, 0);
    WalkStepKeeps(b, true, true, 0);
    var b1 := WalkStep(b, true, true, 0);
    assert b1.queue1 == [2, 3];
    WalkRequeues(b1, true, 0);
    WalkStepKeeps(b1, true, true, 0);
    b2 := WalkStep(b1, true, true, 0);
    assert b2.queue1 == [3, 2];
  }

  /** ... and ends it there, with no flush issued since. */
  lemma WalkFromRequeued(b2: State)
    requires Walking(b2, true) && b2.queue1 == [3, 2] && b2.pendingIdx
    requires Has(b2.live, 2, Mask(true, true, false)) && Has(b2.live, 3, PRE.Not())
    ensures var t := Walk(b2, true, true, 0);
            t.log == b2.log + [End(3, true), End(2, true)] && t.policies == b2.policies
  {
    WalkEnds(b2, true, 0);
    WalkStepKeeps(b2, true, true, 0);
    var b3 := WalkStep(b2, true, true, 0);
    assert b3.queue1 == [2];
    WalkEnds(b3, true, 0);
    assert Walk(b2, true, true, 0) == Walk(b3, true, true, 0) == WalkStep(b3, true, true, 0);
    assert b2.log + [End(3, true)] + [End(2, true)] == b2.log + [End(3, true), End(2, true)];
  }

  lemma SkippedPostflush(s: State) returns (i: nat)
    requires Inv(s) && s.queue0 == [4] && s.queue1 == [1, 2, 3] && !s.pendingIdx && s.runningIdx && !s.elevator
    requires Has(s.live, 1, PRE.Not()) && Has(s.live, 2, PRE_POST.Not()) && Has(s.live, 3, PRE.Not())
    requires s.outstanding == 1
    ensures var t := FlushEnd(s, true, 0);
            && t.policies == s.policies && i + 2 < |t.log|
            && t.log[i] == Join(2, true) && t.log[i + 1] == End(3, true) && t.log[i + 2] == End(2, true)
  {
    FlushBeginWalks(s, true);
    var b := FlushBegin(s, true);
    var b2 := WalkToRequeued(b);
    WalkFromRequeued(b2);
    i := |b.log| + 2;
  }

  lemma NotAlwaysBacked()
    ensures !AlwaysBacked(PRE_POST)
  {
    var s0 := Init(false, 0);
    var run, s := SecondFlush(s0);
    var a := FlushCompletes(true, 0);
    RunOne(s0, run, a);
    var i := SkippedPostflush(s);
    var t := After(s0, run + [a]);
    assert !Covered(t.log, i, i + 2);
    assert !BackedPair(t, PRE_POST, i, i + 2);
  }

  /** The flush steps of a request are always backed by their own flush commands iff its policy is Ordinary. */
  lemma BackedExactly(policy: Mask)
    ensures AlwaysBacked(policy) <==> Ordinary(policy)
  {
    if !Ordinary(policy) {
      assert policy == PRE_POST;
      NotAlwaysBacked();
    } else {
      forall elevator, timeout, run | Inv(Init(elevator, timeout)) && CanRun(Init(elevator, timeout), run)
        ensures Backs(After(Init(elevator, timeout), run), policy)
      {
        InitInv(elevator, timeout);
        RunCov(Init(elevator, timeout), run);
        BacksFrom(After(Init(elevator, timeout), run), policy);
      }
    }
  }

  lemma BacksFrom(s: State, policy: Mask)
    requires StepsDone(s.log, s.policies) && Ordinary(policy)
    ensures Backs(s, policy)
  {
    forall i, e | 0 <= i < e < |s.log| ensures BackedPair(s, policy, i, e) {
      assert StepDone(s.log, s.policies, i, e);
    }
  }
}
