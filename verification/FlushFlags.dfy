/**
What a submitter can rely on, in terms of the flags it sets and of what the queue can do: from the moment of
the submission, over every run from an idle queue.
*/
module FlushFlags {
  import opened FlushModel
  import opened FlushInvariant
  import opened FlushHistory
  import opened FlushCoverage
  import opened FlushTheorems

  // ----- what steps leave alone -----

  /** The log only grows, without passing anything on, and policies stay. */
  ghost predicate Grows(s: State, t: State) {
    && s.log <= t.log && t.policies == s.policies
    && forall i :: |s.log| <= i < |t.log| ==> !t.log[i].Bypass?
  }

  lemma GrowsOn(a: State, b: State, c: State)
    requires Grows(a, b) && Grows(b, c)
    ensures Grows(a, c)
  {
    forall i | |a.log| <= i < |c.log| ensures !c.log[i].Bypass? {
      if i < |b.log| { assert c.log[i] == b.log[i]; }
    }
  }

  lemma CompleteSeqGrows(s: State, r: nat, bits: Mask, ok: bool, now: int)
    requires r in s.live
    ensures Grows(s, CompleteSeq(s, r, bits, ok, now))
  {
    AdvanceLog(s, r, bits, ok, now);
    AdvanceFrame(s, r, bits, ok, now);
    var a := Advance(s, r, bits, ok, now);
    assert Grows(s, a);
    assert Grows(a, Kick(a, now));
    GrowsOn(s, a, Kick(a, now));
  }

  lemma {:induction false} WalkGrows(s: State, w: bool, ok: bool, now: int)
    requires Walking(s, w) && s.Queue(w) != []
    ensures Grows(s, Walk(s, w, ok, now))
    decreases Work(s.Queue(w), s.live)
  {
    WalkStepKeeps(s, w, ok, now);
    var r, t := s.Queue(w)[0], WalkStep(s, w, ok, now);
    var s' := s.(bug := s.bug || !Waiting(s.live[r]));
    CompleteSeqGrows(s', r, Bit(CurSeq(s.live[r])), ok, now);
    assert Grows(s, t);
    if |s.Queue(w)| > 1 {
      WalkGrows(t, w, ok, now);
      GrowsOn(s, t, Walk(t, w, ok, now));
    }
  }

  /** Only requests whose one step is DATA are passed on. */
  ghost predicate PassedOn(s: State) {
    forall i :: 0 <= i < |s.log| && s.log[i].Bypass? ==>
      s.log[i].r in s.policies && s.policies[s.log[i].r] == Bit(Data)
  }

  /** What every step does to the log and the policies. */
  ghost predicate StepGrows(s: State, t: State) {
    && s.log <= t.log && (forall r :: r in s.policies ==> r in t.policies && t.policies[r] == s.policies[r])
    && (PassedOn(s) ==> PassedOn(t))
  }

  lemma GrowsStep(s: State, t: State)
    requires Grows(s, t)
    ensures StepGrows(s, t)
  {
    if PassedOn(s) {
      forall i | 0 <= i < |t.log| && t.log[i].Bypass?
        ensures t.log[i].r in t.policies && t.policies[t.log[i].r] == Bit(Data)
      {
        assert s.log[i] == t.log[i];
      }
    }
  }

  lemma SubmitGrows(s: State, r: nat, policy: Mask, now: int)
    requires r !in s.policies
    ensures StepGrows(s, Insert(s, r, policy, now))
  {
    var s', t := s.(policies := s.policies[r := policy]), Insert(s, r, policy, now);
    if policy == NO_STEPS || policy == Bit(Data) {
      var e := if policy == NO_STEPS then End(r, true) else Bypass(r);
      assert t == s'.(log := s.log + [e]);
      if PassedOn(s) {
        forall i | 0 <= i < |t.log| && t.log[i].Bypass?
          ensures t.log[i].r in t.policies && t.policies[t.log[i].r] == Bit(Data)
        {
          if i < |s.log| { assert s.log[i] == t.log[i]; }
        }
      }
    } else {
      var b := s'.(live := s.live[r := NO_STEPS]);
      CompleteSeqGrows(b, r, policy.Not(), true, now);
      GrowsStep(b, t);
      assert PassedOn(s) ==> PassedOn(b);
    }
  }

  lemma ActionGrows(s: State, a: Action)
    requires Inv(s) && Enabled(s, a)
    ensures StepGrows(s, Apply(s, a))
  {
    match a
    case Submit(r, _, _, _, _, _, now) => SubmitGrows(s, r, PolicyOf(a), now);
    case DataCompletes(r, ok, now) =>
      assert AtHome(s, r);
      var b := s.(log := s.log + [DataDone(r, ok)]);
      assert Grows(s, b);
      CompleteSeqGrows(b, r, Bit(Data), ok, now);
      GrowsOn(s, b, Apply(s, a));
      GrowsStep(s, Apply(s, a));
    case FlushCompletes(ok, now) =>
      FlushBeginWalks(s, ok);
      var b := FlushBegin(s, ok);
      assert Grows(s, b);
      WalkGrows(b, s.runningIdx, ok, now);
      GrowsOn(s, b, Apply(s, a));
      GrowsStep(s, Apply(s, a));
  }

  lemma {:induction false} RunGrows(s: State, run: seq<Action>)
    requires Inv(s) && CanRun(s, run)
    ensures StepGrows(s, After(s, run))
    decreases run
  {
    if run != [] {
      StepKeeps(s, run[0]);
      ActionGrows(s, run[0]);
      RunGrows(Apply(s, run[0]), run[1..]);
    }
  }

  // ----- a submission and what comes after it -----

  /** A queue just set up. */
  ghost predicate Idle(s: State)
    ensures Idle(s) ==> Inv(s)
  {
    s == Init(s.elevator, s.timeout) && (InitInv(s.elevator, s.timeout); true)
  }

  /** A run from an idle queue with a submission in it. */
  ghost predicate Submitted(s0: State, before: seq<Action>, a: Action, rest: seq<Action>) {
    && Idle(s0) && CanRun(s0, before) && a.Submit?
    && (RunKeeps(s0, before); Enabled(After(s0, before), a))
    && (StepKeeps(After(s0, before), a); CanRun(Apply(After(s0, before), a), rest))
  }

  /** The state the submission meets. */
  ghost function Met(s0: State, before: seq<Action>, a: Action, rest: seq<Action>): (s: State)
    requires Submitted(s0, before, a, rest)
    ensures Inv(s) && Enabled(s, a)
  {
    RunKeeps(s0, before);
    After(s0, before)
  }

  ghost function Final(s0: State, before: seq<Action>, a: Action, rest: seq<Action>): State
    requires Submitted(s0, before, a, rest)
  {
    RunKeeps(s0, before);
    StepKeeps(After(s0, before), a);
    After(Apply(After(s0, before), a), rest)
  }

  lemma FinalIs(s0: State, before: seq<Action>, a: Action, rest: seq<Action>)
    requires Submitted(s0, before, a, rest)
    ensures var s, t := Met(s0, before, a, rest), Final(s0, before, a, rest);
            && AllTold(t) && CovInv(t) && PassedOn(t) && s.log <= t.log && Silent(s.log, a.r)
            && a.r in t.policies && t.policies[a.r] == PolicyOf(a)
  {
    InitInv(s0.elevator, s0.timeout);
    RunKeeps(s0, before);
    RunTold(s0, before);
    RunCov(s0, before);
    RunGrows(s0, before);
    var s := After(s0, before);
    assert Told(s.log, s.policies, s.live, a.r);
    StepKeeps(s, a);
    StepTold(s, a);
    StepCov(s, a);
    ActionGrows(s, a);
    var u := Apply(s, a);
    CompleteSeqKeepsPolicy(s, a);
    RunTold(u, rest);
    RunCov(u, rest);
    RunGrows(u, rest);
  }

  lemma CompleteSeqKeepsPolicy(s: State, a: Action)
    requires Inv(s) && Enabled(s, a) && a.Submit?
    ensures a.r in Apply(s, a).policies && Apply(s, a).policies[a.r] == PolicyOf(a)
  {
    var p := PolicyOf(a);
    if p != NO_STEPS && p != Bit(Data) {
      var b := s.(policies := s.policies[a.r := p], live := s.live[a.r := NO_STEPS]);
      CompleteSeqGrows(b, a.r, p.Not(), true, a.now);
    }
  }

  lemma StepCov(s: State, a: Action)
    requires Inv(s) && AllTold(s) && CovInv(s) && Enabled(s, a)
    ensures CovInv(Apply(s, a))
  {
    StepKeeps(s, a);
    assert CanRun(s, [a]) by { assert [a][1..] == []; }
    RunCov(s, [a]);
    assert After(s, [a]) == Apply(s, a) by { assert [a][1..] == []; }
  }

  // ----- what the submitter can rely on -----

  /** A flush command was issued at position p or later and completed without error before position e. */
  ghost predicate CoveredSince(log: seq<Event>, p: int, e: int)
    requires e <= |log|
  {
    exists j, k :: 0 <= p <= j < k < e && log[j].Issue? && log[k] == FlushDone(log[j].n, true)
  }

  lemma SinceSubmission(log: seq<Event>, old_: seq<Event>, r: nat, i: int, e: int)
    requires old_ <= log && Silent(old_, r) && 0 <= i < e <= |log| && About(log[i], r)
    ensures i >= |old_|
    ensures Covered(log, i, e) ==> CoveredSince(log, |old_|, e)
  {
    assert forall k :: 0 <= k < |old_| ==> old_[k] == log[k];
    if Covered(log, i, e) {
      var j, k :| 0 <= i < j < k < e && log[j].Issue? && log[k] == FlushDone(log[j].n, true);
    }
  }

  /** Steps started by a request are steps of its policy. */
  lemma {:induction false} StepsAmong(log: seq<Event>, r: nat, e: nat)
    requires e < |log|
    ensures StepOf(log[e], r) != [] ==> StepOf(log[e], r)[0] in StepsOf(log, r)
  {
    if e < |log| - 1 {
      StepsAmong(log[..|log| - 1], r, e);
      assert log[..|log| - 1][e] == log[e];
    }
  }

  lemma OfPolicy(s: State, r: nat, e: nat)
    requires AllTold(s) && r in s.policies && e < |s.log| && StepOf(s.log[e], r) != []
    ensures s.policies[r].Has(StepOf(s.log[e], r)[0])
  {
    assert Told(s.log, s.policies, s.live, r);
    StepsAmong(s.log, r, e);
    var steps, all := StepsOf(s.log, r), Upto(s.policies[r], Done);
    var i :| 0 <= i < |steps| && steps[i] == StepOf(s.log[e], r)[0];
    assert all[i] == steps[i];
  }

  /**
  A request starts no step that was not asked for: it queues for a flush only on a write cache, before its
  data only if it asked for PREFLUSH and after it only if it asked for FUA and the queue has none; and only
  a request with data is sent to the device or passed on.
  */
  lemma OnlyAsAsked(s0: State, before: seq<Action>, a: Action, rest: seq<Action>, e: nat)
    requires Submitted(s0, before, a, rest) && e < |Final(s0, before, a, rest).log|
    ensures match Final(s0, before, a, rest).log[e]
            case Join(r, post) => r == a.r ==> a.writeCache && if post then a.fua && !a.fuaCapable else a.preflush
            case Dispatch(r) => r == a.r ==> a.hasData
            case Bypass(r) => r == a.r ==> a.hasData && !(a.writeCache && (a.preflush || (a.fua && !a.fuaCapable)))
            case _ => true
  {
    FinalIs(s0, before, a, rest);
    var t := Final(s0, before, a, rest);
    if StepOf(t.log[e], a.r) != [] { OfPolicy(t, a.r, e); }
  }

  /**
  The data of a request submitted with PREFLUSH on a write cache goes to the device, as its own step or passed
  on, only after a flush issued since the submission has completed.
  */
  lemma PreflushFirst(s0: State, before: seq<Action>, a: Action, rest: seq<Action>, e: nat)
    requires Submitted(s0, before, a, rest) && a.writeCache && a.preflush
    requires var log := Final(s0, before, a, rest).log; e < |log| && (log[e] == Dispatch(a.r) || log[e] == Bypass(a.r))
    ensures CoveredSince(Final(s0, before, a, rest).log, |Met(s0, before, a, rest).log|, e)
  {
    FinalIs(s0, before, a, rest);
    OnlyAsAsked(s0, before, a, rest, e);
    var s, t := Met(s0, before, a, rest), Final(s0, before, a, rest);
    var i := FlushedFirstIn(t, e, a.r);
    SinceSubmission(t.log, s.log, a.r, i, e);
  }

  /** The i-th step of a request that ended without error was done before its end. */
  lemma DoneBeforeEnd(t: State, r: nat, e: nat, k: nat) returns (i: nat)
    requires AllTold(t) && CovInv(t) && r in t.policies && e < |t.log| && t.log[e] == End(r, true)
    requires k < |Upto(t.policies[r], Done)|
    ensures i < e && StepOf(t.log[i], r) == [Upto(t.policies[r], Done)[k]] && StepDone(t.log, t.policies, i, e)
    ensures About(t.log[i], r)
  {
    assert Told(t.log, t.policies, t.live, r);
    i := StartOf(t.log, r, k);
    assert About(t.log[i], r);
  }

  /**
  A request submitted with PREFLUSH on a write cache ends without error only after a flush issued since the
  submission has completed, whether it has data or not. (With a POSTFLUSH and no data, see FlushExact.)
  */
  lemma PreflushBeforeEnd(s0: State, before: seq<Action>, a: Action, rest: seq<Action>, e: nat)
    requires Submitted(s0, before, a, rest) && a.writeCache && a.preflush
    requires a.hasData || !a.fua || a.fuaCapable
    requires var log := Final(s0, before, a, rest).log; e < |log| && log[e] == End(a.r, true)
    ensures CoveredSince(Final(s0, before, a, rest).log, |Met(s0, before, a, rest).log|, e)
  {
    FinalIs(s0, before, a, rest);
    var s, t := Met(s0, before, a, rest), Final(s0, before, a, rest);
    var i := DoneBeforeEnd(t, a.r, e, 0);
    assert t.log[i] == Join(a.r, false);
    SinceSubmission(t.log, s.log, a.r, i, e);
  }

  /** Data submitted with FUA on a write cache without FUA: a flush issued after it landed precedes the end. */
  lemma FuaBeforeEnd(s0: State, before: seq<Action>, a: Action, rest: seq<Action>, e: nat) returns (d: nat)
    requires Submitted(s0, before, a, rest) && a.writeCache && a.fua && !a.fuaCapable && a.hasData
    requires var log := Final(s0, before, a, rest).log; e < |log| && log[e] == End(a.r, true)
    ensures var log := Final(s0, before, a, rest).log;
            |Met(s0, before, a, rest).log| <= d < e && log[d] == DataDone(a.r, true) && Covered(log, d, e)
  {
    FinalIs(s0, before, a, rest);
    var s, t := Met(s0, before, a, rest), Final(s0, before, a, rest);
    d := DurableIn(t, e, a.r);
    SinceSubmission(t.log, s.log, a.r, d, e);
  }

  /** Data is on the device before its request ends without error. */
  lemma DataBeforeEnd(s0: State, before: seq<Action>, a: Action, rest: seq<Action>, e: nat) returns (d: nat)
    requires Submitted(s0, before, a, rest) && a.hasData
    requires var log := Final(s0, before, a, rest).log; e < |log| && log[e] == End(a.r, true)
    ensures d < e && Final(s0, before, a, rest).log[d] == DataDone(a.r, true)
  {
    FinalIs(s0, before, a, rest);
    var t := Final(s0, before, a, rest);
    var i := DoneBeforeEnd(t, a.r, e, if PolicyOf(a).pre then 1 else 0);
    assert t.log[i] == Dispatch(a.r);
    d :| 0 <= i < d < e && t.log[d] == DataDone(a.r, true);
  }

  /** A request that ended without error started exactly the steps it asked for. */
  lemma EndedAsAsked(s0: State, before: seq<Action>, a: Action, rest: seq<Action>, e: nat)
    requires Submitted(s0, before, a, rest)
    requires var log := Final(s0, before, a, rest).log; e < |log| && log[e] == End(a.r, true)
    ensures var steps := StepsOf(Final(s0, before, a, rest).log, a.r);
            && (Preflush in steps <==> a.writeCache && a.preflush)
            && (Data in steps <==> a.hasData)
            && (Postflush in steps <==> a.writeCache && a.fua && !a.fuaCapable)
  {
    FinalIs(s0, before, a, rest);
    var t := Final(s0, before, a, rest);
    assert Told(t.log, t.policies, t.live, a.r);
    InUpto(PolicyOf(a));
  }

  lemma InUpto(p: Mask)
    ensures var steps := Upto(p, Done);
            (Preflush in steps <==> p.pre) && (Data in steps <==> p.data) && (Postflush in steps <==> p.post)
  {
  }

  lemma FirstEvent(s: State, r: nat, p: Mask)
    requires r in s.live && s.live[r] == NO_STEPS && (p.pre || p.post)
    ensures CurSeq(s.live[r].Or(p.Not())) != Done
    ensures NextEvent(s, r, p.Not(), true)
            == if p.pre then Join(r, false) else if p.data then Dispatch(r) else Join(r, true)
  {
    assert s.live[r].Or(p.Not()) == p.Not();
  }

  lemma FirstLog(s: State, r: nat, p: Mask, now: int)
    requires r in s.live && s.live[r] == NO_STEPS && (p.pre || p.post)
    ensures var t := CompleteSeq(s, r, p.Not(), true, now);
            r in t.live && s.log + [NextEvent(s, r, p.Not(), true)] <= t.log
  {
    FirstEvent(s, r, p);
    AdvanceLog(s, r, p.Not(), true, now);
    StaysLive(s, r, p.Not(), now);
  }

  /** The first step of a request that needs a flush. */
  lemma FirstStep(s: State, r: nat, p: Mask, now: int)
    requires r !in s.policies && (p.pre || p.post)
    ensures var t := Insert(s, r, p, now);
            && r in t.live && |t.log| > |s.log| && s.log <= t.log
            && t.log[|s.log|] == (if p.pre then Join(r, false) else if p.data then Dispatch(r) else Join(r, true))
  {
    var b := s.(policies := s.policies[r := p], live := s.live[r := NO_STEPS]);
    FirstEvent(b, r, p);
    FirstLog(b, r, p, now);
    Prefix(s.log, NextEvent(b, r, p.Not(), true), CompleteSeq(b, r, p.Not(), true, now).log);
  }

  lemma Prefix(log: seq<Event>, e: Event, all: seq<Event>)
    requires log + [e] <= all
    ensures |all| > |log| && log <= all && all[|log|] == e
  {
    assert all[|log|] == (log + [e])[|log|];
    assert log == (log + [e])[..|log|];
  }

  lemma StaysLive(s: State, r: nat, bits: Mask, now: int)
    requires r in s.live && CurSeq(s.live[r].Or(bits)) != Done
    ensures r in CompleteSeq(s, r, bits, true, now).live
    ensures Advance(s, r, bits, true, now).log <= CompleteSeq(s, r, bits, true, now).log
  {
    var s' := Mark(s, r, bits);
    assert r in s'.live;
  }

  /** t is s after the submission: the request has taken its first step, the one it asked for. */
  ghost predicate Starts(s: State, t: State, a: Action)
    requires a.Submit?
  {
    && |t.log| > |s.log| && s.log <= t.log
    && t.log[|s.log|] == (if a.writeCache && a.preflush then Join(a.r, false)
                          else if a.writeCache && a.fua && !a.fuaCapable
                          then (if a.hasData then Dispatch(a.r) else Join(a.r, true))
                          else if a.hasData then Bypass(a.r) else End(a.r, true))
    && (a.r in t.live <==> a.writeCache && (a.preflush || (a.fua && !a.fuaCapable)))
  }

  /**
  What a submission does at once. A request that needs no flush is passed on if it has data and ended if not;
  any other starts with its first step.
  */
  lemma AtOnce(s: State, a: Action)
    requires Inv(s) && Enabled(s, a) && a.Submit?
    ensures Starts(s, Apply(s, a), a)
  {
    assert AtHome(s, a.r);
    var p := PolicyOf(a);
    if p.pre || p.post { FirstStep(s, a.r, p, a.now); }
  }
}
