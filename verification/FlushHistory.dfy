/**
What the log of a run of the flush sequencer says about each request: which steps it went through,
in which order, and which flush command stood behind every flush step.
*/
module FlushHistory {
  import opened FlushModel
  import opened FlushInvariant

  predicate About(e: Event, r: nat) {
    match e
    case Join(x, _) => x == r
    case Dispatch(x) => x == r
    case DataDone(x, _) => x == r
    case End(x, _) => x == r
    case Bypass(x) => x == r
    case Issue(_) => false
    case FlushDone(_, _) => false
  }

  function StepOf(e: Event, r: nat): seq<Step> {
    match e
    case Join(x, post) => if x == r then [if post then Postflush else Preflush] else []
    case Dispatch(x) => if x == r then [Data] else []
    case _ => []
  }

  /** The steps r has started, in order. */
  function StepsOf(log: seq<Event>, r: nat): seq<Step> {
    if log == [] then [] else StepsOf(log[..|log| - 1], r) + StepOf(log[|log| - 1], r)
  }

  /** The steps of a policy in the fixed order, up to and including `step`. */
  function Upto(policy: Mask, step: Step): seq<Step> {
    (if policy.pre then [Preflush] else [])
    + (if policy.data && step != Preflush then [Data] else [])
    + (if policy.post && (step == Postflush || step == Done) then [Postflush] else [])
  }

  lemma StepsPush(log: seq<Event>, e: Event, r: nat)
    ensures StepsOf(log + [e], r) == StepsOf(log, r) + StepOf(e, r)
  {
    assert (log + [e])[..|log|] == log;
  }

  ghost predicate Silent(log: seq<Event>, r: nat) {
    forall e :: 0 <= e < |log| ==> !About(log[e], r)
  }

  ghost predicate Ended(log: seq<Event>, r: nat) {
    exists e :: 0 <= e < |log| && log[e].End? && log[e].r == r
  }

  ghost predicate EndedWell(log: seq<Event>, r: nat) {
    exists e :: 0 <= e < |log| && log[e] == End(r, true)
  }

  /** After its end nothing more happens to r. */
  ghost predicate EndIsLast(log: seq<Event>, r: nat) {
    forall e, e' :: 0 <= e < e' < |log| && log[e].End? && log[e].r == r ==> !About(log[e'], r)
  }

  lemma EndsPush(log: seq<Event>, e: Event, r: nat)
    ensures Silent(log + [e], r) <==> Silent(log, r) && !About(e, r)
    ensures Ended(log + [e], r) <==> Ended(log, r) || (e.End? && e.r == r)
    ensures EndedWell(log + [e], r) <==> EndedWell(log, r) || e == End(r, true)
  {
    var l := log + [e];
    assert forall i :: 0 <= i < |log| ==> l[i] == log[i];
    assert l[|log|] == e;
    if Ended(log, r) {
      var i :| 0 <= i < |log| && log[i].End? && log[i].r == r;
      assert l[i].End? && l[i].r == r;
    }
    if EndedWell(log, r) {
      var i :| 0 <= i < |log| && log[i] == End(r, true);
      assert l[i] == End(r, true);
    }
    if Silent(l, r) {
      assert forall i :: 0 <= i < |log| ==> !About(l[i], r);
    }
  }

  lemma EndIsLastPush(log: seq<Event>, e: Event, r: nat)
    requires EndIsLast(log, r) && !(Ended(log, r) && About(e, r))
    ensures EndIsLast(log + [e], r)
  {
    var l := log + [e];
    forall i, j | 0 <= i < j < |l| && l[i].End? && l[i].r == r ensures !About(l[j], r) {
      assert l[i] == log[i];
    }
  }

  /** The log so far agrees with where r is now. */
  ghost predicate Told(log: seq<Event>, policies: map<nat, Mask>, live: map<nat, Mask>, r: nat) {
    && (r !in policies ==> r !in live && Silent(log, r))
    && (r in live ==> r in policies && !Ended(log, r) && StepsOf(log, r) == Upto(policies[r], CurSeq(live[r])))
    && (r in policies ==> StepsOf(log, r) <= Upto(policies[r], Done))
    && (EndedWell(log, r) ==> r in policies && StepsOf(log, r) == Upto(policies[r], Done))
    && EndIsLast(log, r)
  }

  /** An event about something else, or the completion of r's data, changes nothing told about r. */
  lemma ToldQuiet(log: seq<Event>, policies: map<nat, Mask>, live: map<nat, Mask>, r: nat, e: Event)
    requires Told(log, policies, live, r)
    requires !About(e, r) || (e.DataDone? && r in live)
    ensures Told(log + [e], policies, live, r)
  {
    StepsPush(log, e, r);
    EndsPush(log, e, r);
    EndIsLastPush(log, e, r);
  }

  ghost predicate AllTold(s: State) {
    forall r :: Told(s.log, s.policies, s.live, r)
  }

  /** What the log must say about r before CompleteSeq moves it on. */
  ghost predicate ToldReady(s: State, r: nat, bits: Mask, ok: bool) {
    && r in s.live && r in s.policies && StepsOf(s.log, r) <= Upto(s.policies[r], Done)
    && !Ended(s.log, r) && !EndedWell(s.log, r) && EndIsLast(s.log, r)
    && (ok ==> var step := CurSeq(s.live[r].Or(bits));
               StepsOf(s.log, r) + (if step == Done then [] else [step]) == Upto(s.policies[r], step))
    && forall x :: x != r ==> Told(s.log, s.policies, s.live, x)
  }

  /** The single event Advance appends. */
  function NextEvent(s: State, r: nat, bits: Mask, ok: bool): Event
    requires r in s.live
  {
    var step := if ok then CurSeq(s.live[r].Or(bits)) else Done;
    if step == Done then End(r, ok) else if step == Data then Dispatch(r) else Join(r, step == Postflush)
  }

  lemma AdvanceLog(s: State, r: nat, bits: Mask, ok: bool, now: int)
    requires r in s.live
    ensures Advance(s, r, bits, ok, now).log == s.log + [NextEvent(s, r, bits, ok)]
  {
  }

  /** The next step of r, or its end, continues what is told about r. */
  lemma ToldNext(log: seq<Event>, policies: map<nat, Mask>, live: map<nat, Mask>, r: nat, e: Event)
    requires r in policies && StepsOf(log, r) <= Upto(policies[r], Done)
    requires !Ended(log, r) && !EndedWell(log, r) && EndIsLast(log, r)
    requires if e.End? then e.r == r && r !in live else About(e, r) && r in live
    requires r in live ==> StepsOf(log, r) + StepOf(e, r) == Upto(policies[r], CurSeq(live[r]))
    requires e == End(r, true) ==> StepsOf(log, r) == Upto(policies[r], Done)
    ensures Told(log + [e], policies, live, r)
  {
    StepsPush(log, e, r);
    EndsPush(log, e, r);
    EndIsLastPush(log, e, r);
    assert r in live ==> Upto(policies[r], CurSeq(live[r])) <= Upto(policies[r], Done);
  }

  lemma AdvanceToldOf(s: State, r: nat, bits: Mask, ok: bool, now: int, x: nat)
    requires ToldReady(s, r, bits, ok)
    ensures var t := Advance(s, r, bits, ok, now); Told(t.log, t.policies, t.live, x)
  {
    var t := Advance(s, r, bits, ok, now);
    var e := NextEvent(s, r, bits, ok);
    AdvanceLog(s, r, bits, ok, now);
    AdvanceFrame(s, r, bits, ok, now);
    if x != r {
      assert Told(s.log, s.policies, s.live, x);
      assert Told(s.log, s.policies, t.live, x);
      ToldQuiet(s.log, s.policies, t.live, x, e);
    } else {
      ToldNext(s.log, s.policies, t.live, r, e);
    }
  }

  lemma CompleteSeqTold(s: State, r: nat, bits: Mask, ok: bool, now: int)
    requires ToldReady(s, r, bits, ok)
    ensures AllTold(CompleteSeq(s, r, bits, ok, now))
  {
    var a, t := Advance(s, r, bits, ok, now), CompleteSeq(s, r, bits, ok, now);
    forall x ensures Told(t.log, t.policies, t.live, x) {
      AdvanceToldOf(s, r, bits, ok, now, x);
      ToldQuiet(a.log, a.policies, a.live, x, Issue(a.issued + 1));
    }
  }

  lemma SilentNotEnded(log: seq<Event>, r: nat)
    requires Silent(log, r)
    ensures !Ended(log, r) && !EndedWell(log, r)
  {
  }

  lemma {:induction false} StepsNone(log: seq<Event>, r: nat)
    requires Silent(log, r)
    ensures StepsOf(log, r) == []
  {
    if log != [] {
      StepsNone(log[..|log| - 1], r);
    }
  }

  lemma InsertToldReady(s: State, r: nat, policy: Mask)
    requires Inv(s) && AllTold(s) && r !in s.policies && (policy.pre || policy.post)
    ensures var s' := s.(policies := s.policies[r := policy], live := s.live[r := NO_STEPS]);
            ToldReady(s', r, policy.Not(), true)
  {
    var s' := s.(policies := s.policies[r := policy], live := s.live[r := NO_STEPS]);
    assert Told(s.log, s.policies, s.live, r);
    StepsNone(s.log, r);
    SilentNotEnded(s.log, r);
    forall x | x != r ensures Told(s'.log, s'.policies, s'.live, x) {
      assert Told(s.log, s.policies, s.live, x);
    }
  }

  /** A request that needs no flush is ended or passed on at once. */
  lemma InsertPlainTold(s: State, r: nat, policy: Mask, now: int)
    requires AllTold(s) && r !in s.policies && !policy.pre && !policy.post
    ensures AllTold(Insert(s, r, policy, now))
  {
    var e := if policy.data then Bypass(r) else End(r, true);
    var s' := s.(policies := s.policies[r := policy]);
    var t := Insert(s, r, policy, now);
    assert t == s'.(log := s.log + [e]);
    forall x ensures Told(t.log, t.policies, t.live, x) {
      assert Told(s.log, s.policies, s.live, x);
      if x != r {
        assert Told(s'.log, s'.policies, s'.live, x);
        ToldQuiet(s'.log, s'.policies, s'.live, x, e);
      } else {
        StepsNone(s.log, r);
        StepsPush(s.log, e, r);
        EndsPush(s.log, e, r);
        SilentNotEnded(s.log, r);
        EndIsLastPush(s.log, e, r);
      }
    }
  }

  lemma InsertTold(s: State, r: nat, policy: Mask, now: int)
    requires Inv(s) && AllTold(s) && r !in s.policies
    ensures AllTold(Insert(s, r, policy, now))
  {
    if policy.pre || policy.post {
      InsertToldReady(s, r, policy);
      CompleteSeqTold(s.(policies := s.policies[r := policy], live := s.live[r := NO_STEPS]),
                      r, policy.Not(), true, now);
    } else {
      InsertPlainTold(s, r, policy, now);
    }
  }

  /** Completing the current step of a live request continues its story in order. */
  lemma CurrentToldReady(s: State, r: nat, ok: bool)
    requires AllTold(s) && r in s.live && r in s.policies && Fits(s.policies[r], s.live[r])
    ensures ToldReady(s, r, Bit(CurSeq(s.live[r])), ok)
  {
    assert Told(s.log, s.policies, s.live, r);
  }

  lemma DataEndTold(s: State, r: nat, ok: bool, now: int)
    requires Inv(s) && AllTold(s) && r in s.dataInFlight && r in s.live
    ensures AllTold(DataEnd(s, r, ok, now))
  {
    var e := DataDone(r, ok);
    var s' := s.(log := s.log + [e]);
    assert AtHome(s, r);
    forall x ensures Told(s'.log, s'.policies, s'.live, x) {
      assert Told(s.log, s.policies, s.live, x);
      ToldQuiet(s.log, s.policies, s.live, x, e);
    }
    CurrentToldReady(s', r, ok);
    CompleteSeqTold(s', r, Bit(Data), ok, now);
  }

  lemma WalkStepTold(s: State, w: bool, ok: bool, now: int)
    requires Walking(s, w) && AllTold(s) && s.Queue(w) != [] && s.Queue(w)[0] in s.live
    ensures AllTold(WalkStep(s, w, ok, now))
  {
    WalkStepReady(s, w, ok);
    var r := s.Queue(w)[0];
    CurrentToldReady(s, r, ok);
    assert s == s.(bug := false);
    CompleteSeqTold(s, r, Bit(CurSeq(s.live[r])), ok, now);
  }

  lemma {:induction false} WalkTold(s: State, w: bool, ok: bool, now: int)
    requires Walking(s, w) && AllTold(s) && s.Queue(w) != []
    ensures AllTold(Walk(s, w, ok, now))
    decreases Work(s.Queue(w), s.live)
  {
    WalkStepKeeps(s, w, ok, now);
    WalkStepTold(s, w, ok, now);
    if |s.Queue(w)| > 1 {
      WalkTold(WalkStep(s, w, ok, now), w, ok, now);
    }
  }

  lemma StepTold(s: State, a: Action)
    requires Inv(s) && AllTold(s) && Enabled(s, a)
    ensures AllTold(Apply(s, a))
  {
    match a
    case Submit(r, _, _, _, _, _, now) => InsertTold(s, r, PolicyOf(a), now);
    case DataCompletes(r, ok, now) => assert AtHome(s, r); DataEndTold(s, r, ok, now);
    case FlushCompletes(ok, now) =>
      FlushBeginWalks(s, ok);
      var b := FlushBegin(s, ok);
      forall x ensures Told(b.log, b.policies, b.live, x) {
        ToldQuiet(s.log, s.policies, s.live, x, FlushDone(s.issued, ok));
      }
      WalkTold(b, s.runningIdx, ok, now);
  }

  lemma {:induction false} RunTold(s: State, run: seq<Action>)
    requires Inv(s) && AllTold(s) && CanRun(s, run)
    ensures AllTold(After(s, run))
    decreases run
  {
    if run != [] {
      StepKeeps(s, run[0]);
      StepTold(s, run[0]);
      RunTold(Apply(s, run[0]), run[1..]);
    }
  }
}
