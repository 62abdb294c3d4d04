/**
The promises of the flush sequencer over every run from an idle queue: the order and completeness of
a request's steps, durability of FUA data, and the flush before the data of a PREFLUSH request.
*/
module FlushTheorems {
  import opened FlushModel
  import opened FlushInvariant
  import opened FlushHistory
  import opened FlushCoverage

  lemma InitInv(elevator: bool, timeout: nat)
    ensures Inv(Init(elevator, timeout))
    ensures AllTold(Init(elevator, timeout))
    ensures CovInv(Init(elevator, timeout))
  {
  }

  /** The n-th step r started has its own place in the log, after those of the earlier ones. */
  lemma {:induction false} StartOf(log: seq<Event>, r: nat, n: nat) returns (i: nat)
    requires n < |StepsOf(log, r)|
    ensures i < |log| && StepOf(log[i], r) == [StepsOf(log, r)[n]]
    ensures StepsOf(log[..i], r) == StepsOf(log, r)[..n]
  {
    var prev := log[..|log| - 1];
    if n < |StepsOf(prev, r)| {
      i := StartOf(prev, r, n);
      assert log[..i] == prev[..i];
    } else {
      i := |log| - 1;
    }
  }

  /**
  A request that ends without error has started exactly the steps of its policy, in the order PREFLUSH,
  DATA, POSTFLUSH; every step was done before the next one; and after its end nothing more happens to it.
  */
  lemma EndedInOrder(elevator: bool, timeout: nat, run: seq<Action>, e: nat, r: nat)
    requires Inv(Init(elevator, timeout)) && CanRun(Init(elevator, timeout), run)
    requires var log := After(Init(elevator, timeout), run).log; e < |log| && log[e] == End(r, true)
    ensures var t := After(Init(elevator, timeout), run);
            && r in t.policies && StepsOf(t.log, r) == Upto(t.policies[r], Done)
            && StepsDone(t.log, t.policies)
            && forall e' :: e < e' < |t.log| ==> !About(t.log[e'], r)
  {
    InitInv(elevator, timeout);
    var t := After(Init(elevator, timeout), run);
    RunTold(Init(elevator, timeout), run);
    RunCov(Init(elevator, timeout), run);
    assert Told(t.log, t.policies, t.live, r);
  }

  lemma {:induction false} StepsPrefix(log: seq<Event>, n: nat, r: nat)
    requires n <= |log|
    ensures StepsOf(log[..n], r) <= StepsOf(log, r)
  {
    if n < |log| {
      StepsPrefix(log[..|log| - 1], n, r);
      assert log[..|log| - 1][..n] == log[..n];
    } else {
      assert log[..n] == log;
    }
  }

  lemma DataThenPost(log: seq<Event>, r: nat) returns (data: nat, post: nat)
    requires var steps := StepsOf(log, r); |steps| >= 2 && steps[|steps| - 2] == Data && steps[|steps| - 1] == Postflush
    ensures data < post < |log| && log[data] == Dispatch(r) && log[post] == Join(r, true)
  {
    var steps := StepsOf(log, r);
    var n := |steps|;
    post := StartOf(log, r, n - 1);
    assert StepsOf(log[..post], r)[n - 2] == steps[n - 2] == Data;
    data := StartOf(log[..post], r, n - 2);
    assert StepOf(log[post], r) == [Postflush];
  }

  lemma DurableIn(s: State, e: nat, r: nat) returns (d: nat)
    requires AllTold(s) && StepsDone(s.log, s.policies)
    requires e < |s.log| && s.log[e] == End(r, true)
    requires r in s.policies && s.policies[r].data && s.policies[r].post
    ensures d < e && s.log[d] == DataDone(r, true) && Covered(s.log, d, e)
  {
    var log := s.log;
    assert Told(log, s.policies, s.live, r);
    var data, post := DataThenPost(log, r);
    assert post < e by {
      assert About(log[post], r);
    }
    assert StepDone(log, s.policies, data, post) && StepDone(log, s.policies, post, e);
    assert Landed(log, data, post, r);
    d :| data < d < post && log[d] == DataDone(r, true);
    assert Covered(log, post, e);
    var j, k :| post < j < k < e && log[j].Issue? && log[k] == FlushDone(log[j].n, true);
    assert Covered(log, d, e);
  }

  /** When a FUA write emulated by POSTFLUSH ends, a flush issued after its data completed has completed too. */
  lemma FuaIsDurable(elevator: bool, timeout: nat, run: seq<Action>, e: nat, r: nat) returns (d: nat)
    requires Inv(Init(elevator, timeout)) && CanRun(Init(elevator, timeout), run)
    requires var t := After(Init(elevator, timeout), run);
             && e < |t.log| && t.log[e] == End(r, true)
             && r in t.policies && t.policies[r].data && t.policies[r].post
    ensures var log := After(Init(elevator, timeout), run).log;
            d < e && log[d] == DataDone(r, true) && Covered(log, d, e)
  {
    InitInv(elevator, timeout);
    RunTold(Init(elevator, timeout), run);
    RunCov(Init(elevator, timeout), run);
    d := DurableIn(After(Init(elevator, timeout), run), e, r);
  }

  lemma FirstOf(before: seq<Step>, all: seq<Step>)
    requires before + [Data] <= all && all[0] == Preflush
    ensures |before| > 0 && before[0] == Preflush
  {
    var longer := before + [Data];
    assert longer[0] == all[0];
    assert |before| > 0 ==> longer[0] == before[0];
  }

  lemma PreStarted(log: seq<Event>, p: Mask, e: nat, r: nat) returns (i: nat)
    requires StepsOf(log, r) <= Upto(p, Done) && e < |log| && log[e] == Dispatch(r) && p.pre && p.data
    ensures i < e && log[i] == Join(r, false)
  {
    StepsPrefix(log, e + 1, r);
    assert log[..e + 1] == log[..e] + [Dispatch(r)];
    StepsPush(log[..e], Dispatch(r), r);
    FirstOf(StepsOf(log[..e], r), Upto(p, Done));
    i := StartOf(log[..e], r, 0);
  }

  lemma FlushedFirstIn(s: State, e: nat, r: nat) returns (i: nat)
    requires AllTold(s) && StepsDone(s.log, s.policies)
    requires e < |s.log| && s.log[e] == Dispatch(r)
    requires r in s.policies && s.policies[r].pre && s.policies[r].data
    ensures i < e && s.log[i] == Join(r, false) && Covered(s.log, i, e)
  {
    assert Told(s.log, s.policies, s.live, r);
    i := PreStarted(s.log, s.policies[r], e, r);
    assert StepDone(s.log, s.policies, i, e);
  }

  /** Data of a PREFLUSH request goes out only after a flush issued since the request came in has completed. */
  lemma PreflushBeforeData(elevator: bool, timeout: nat, run: seq<Action>, e: nat, r: nat) returns (i: nat)
    requires Inv(Init(elevator, timeout)) && CanRun(Init(elevator, timeout), run)
    requires var t := After(Init(elevator, timeout), run);
             e < |t.log| && t.log[e] == Dispatch(r) && r in t.policies && t.policies[r].pre && t.policies[r].data
    ensures var log := After(Init(elevator, timeout), run).log;
            i < e && log[i] == Join(r, false) && Covered(log, i, e)
  {
    InitInv(elevator, timeout);
    RunTold(Init(elevator, timeout), run);
    RunCov(Init(elevator, timeout), run);
    i := FlushedFirstIn(After(Init(elevator, timeout), run), e, r);
  }
}
