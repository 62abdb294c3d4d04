/**
Behind every completed flush step of a request stands a flush command that was issued after the
request had queued for that step and that completed without error; its data step ended without error
before it moved on. The one exception, a request for both flushes without data, is shown exact.
*/
module FlushCoverage {
  import opened FlushModel
  import opened FlushInvariant
  import opened FlushHistory

  /** All policies but PREFLUSH and POSTFLUSH without DATA between them. */
  predicate Ordinary(policy: Mask) {
    !(policy.pre && policy.post && !policy.data)
  }

  /** r starts another step or ends without error. */
  predicate Moves(e: Event, r: nat) {
    match e
    case Join(x, _) => x == r
    case Dispatch(x) => x == r
    case End(x, ok) => x == r && ok
    case _ => false
  }

  /** A flush command was issued after position i and completed without error before position e. */
  ghost predicate Covered(log: seq<Event>, i: int, e: int)
    requires e <= |log|
  {
    exists j, k :: 0 <= i < j < k < e && log[j].Issue? && log[k] == FlushDone(log[j].n, true)
  }

  /** r's data, sent at position i, completed without error before position e. */
  ghost predicate Landed(log: seq<Event>, i: int, e: int, r: nat)
    requires e <= |log|
  {
    exists k :: 0 <= i < k < e && log[k] == DataDone(r, true)
  }

  /** If the event at i starts a step and the one at e moves the same request on, the step was done between them. */
  ghost predicate StepDone(log: seq<Event>, policies: map<nat, Mask>, i: int, e: int)
    requires 0 <= i < e < |log|
  {
    match log[i]
    case Join(r, _) => r in policies && Ordinary(policies[r]) && Moves(log[e], r) ==> Covered(log, i, e)
    case Dispatch(r) => Moves(log[e], r) ==> Landed(log, i, e, r)
    case _ => true
  }

  ghost predicate StepsDone(log: seq<Event>, policies: map<nat, Mask>) {
    forall i, e :: 0 <= i < e < |log| ==> StepDone(log, policies, i, e)
  }

  ghost predicate JoinsBefore(log: seq<Event>, r: nat, j: int) {
    forall i :: 0 <= i < |log| && log[i].Join? && log[i].r == r ==> i < j
  }

  ghost predicate JoinsCovered(log: seq<Event>, r: nat) {
    forall i :: 0 <= i < |log| && log[i].Join? && log[i].r == r ==> Covered(log, i, |log|)
  }

  ghost predicate DataLanded(log: seq<Event>, r: nat) {
    forall i :: 0 <= i < |log| && log[i] == Dispatch(r) ==> Landed(log, i, |log|, r)
  }

  /** What the log must hold about the requests on the lists for the next completion to be justified. */
  ghost predicate Backed(s: State, r: nat) {
    && (r in s.dataInFlight && r in s.policies && Ordinary(s.policies[r]) ==> JoinsCovered(s.log, r))
    && (r in s.queue0 || r in s.queue1 ==> DataLanded(s.log, r))
    && (s.pendingIdx != s.runningIdx && r in s.Queue(s.runningIdx) && r in s.policies && Ordinary(s.policies[r]) ==>
          JoinsBefore(s.log, r, s.issuedAt))
  }

  ghost predicate CovInv(s: State) {
    && StepsDone(s.log, s.policies)
    && (forall r :: Backed(s, r))
    && (s.pendingIdx != s.runningIdx ==> s.issuedAt < |s.log| && s.log[s.issuedAt] == Issue(s.issued))
  }

  lemma CoveredLonger(log: seq<Event>, i: int, e: int, ev: Event)
    requires e <= |log| && Covered(log, i, e)
    ensures Covered(log + [ev], i, e) && Covered(log + [ev], i, |log| + 1)
  {
    var j, k :| 0 <= i < j < k < e && log[j].Issue? && log[k] == FlushDone(log[j].n, true);
    var l := log + [ev];
    assert l[j].Issue? && l[k] == FlushDone(l[j].n, true);
  }

  lemma LandedLonger(log: seq<Event>, i: int, e: int, r: nat, ev: Event)
    requires e <= |log| && Landed(log, i, e, r)
    ensures Landed(log + [ev], i, e, r) && Landed(log + [ev], i, |log| + 1, r)
  {
    var k :| 0 <= i < k < e && log[k] == DataDone(r, true);
    assert (log + [ev])[k] == DataDone(r, true);
  }

  lemma JoinsCoveredLonger(log: seq<Event>, r: nat, ev: Event)
    requires JoinsCovered(log, r) && !(ev.Join? && ev.r == r)
    ensures JoinsCovered(log + [ev], r)
  {
    var l := log + [ev];
    forall i | 0 <= i < |l| && l[i].Join? && l[i].r == r ensures Covered(l, i, |l|) {
      assert l[i] == log[i];
      CoveredLonger(log, i, |log|, ev);
    }
  }

  lemma DataLandedLonger(log: seq<Event>, r: nat, ev: Event)
    requires DataLanded(log, r) && ev != Dispatch(r)
    ensures DataLanded(log + [ev], r)
  {
    var l := log + [ev];
    forall i | 0 <= i < |l| && l[i] == Dispatch(r) ensures Landed(l, i, |l|, r) {
      assert l[i] == log[i];
      LandedLonger(log, i, |log|, r, ev);
    }
  }

  /** A log stays justified when the event appended is. */
  lemma StepsDoneLonger(log: seq<Event>, policies: map<nat, Mask>, ev: Event)
    requires StepsDone(log, policies)
    requires forall r :: Moves(ev, r) ==>
               DataLanded(log, r) && (r in policies && Ordinary(policies[r]) ==> JoinsCovered(log, r))
    ensures StepsDone(log + [ev], policies)
  {
    var l := log + [ev];
    forall i, e | 0 <= i < e < |l| ensures StepDone(l, policies, i, e) {
      assert l[i] == log[i];
      if e < |log| {
        assert StepDone(log, policies, i, e);
        match log[i]
        case Join(r, _) => if Covered(log, i, e) { CoveredLonger(log, i, e, ev); }
        case Dispatch(r) => if Landed(log, i, e, r) { LandedLonger(log, i, e, r, ev); }
        case _ =>
      } else {
        match log[i]
        case Join(r, _) => if Covered(log, i, e) { CoveredLonger(log, i, e, ev); }
        case Dispatch(r) => if Landed(log, i, e, r) { LandedLonger(log, i, e, r, ev); }
        case _ =>
      }
    }
  }

  /** What justifies moving r on. */
  ghost predicate Justified(s: State, r: nat, ok: bool) {
    ok ==> DataLanded(s.log, r) && (r in s.policies && Ordinary(s.policies[r]) ==> JoinsCovered(s.log, r))
  }

  /** Where Advance leaves a request: only r changes lists. */
  lemma AdvanceLists(s: State, r: nat, bits: Mask, ok: bool, now: int, x: nat)
    requires r in s.live
    ensures var t := Advance(s, r, bits, ok, now);
            && (x != r ==> (x in t.queue0 <==> x in s.queue0) && (x in t.queue1 <==> x in s.queue1)
                           && (x in t.dataInFlight <==> x in s.dataInFlight))
            && (x == r && x in t.dataInFlight ==> ok && NextEvent(s, r, bits, ok) == Dispatch(r))
            && (x == r && (x in t.queue0 || x in t.queue1) ==> ok && NextEvent(s, r, bits, ok).Join?)
            && (x == r ==> x !in t.Queue(!s.pendingIdx))
  {
    WithoutIs(s.queue0, r);
    WithoutIs(s.queue1, r);
    WithoutIs(s.dataInFlight, r);
    var m, s' := s.live[r].Or(bits), Mark(s, r, bits);
    match if ok then CurSeq(m) else Done
    case Preflush => assert Advance(s, r, bits, ok, now) == Enqueue(s', r, false, now);
    case Postflush => assert Advance(s, r, bits, ok, now) == Enqueue(s', r, true, now);
    case Data => assert Advance(s, r, bits, ok, now) == SendData(s', r);
    case Done => assert Advance(s, r, bits, ok, now) == Finish(s', r, ok);
  }

  lemma AdvanceBacked(s: State, r: nat, bits: Mask, ok: bool, now: int, x: nat)
    requires Ready(s, r, bits, ok) && Justified(s, r, ok)
    requires x != r ==> Backed(s, x)
    ensures Backed(Advance(s, r, bits, ok, now), x)
  {
    var t := Advance(s, r, bits, ok, now);
    var ev := NextEvent(s, r, bits, ok);
    AdvanceLog(s, r, bits, ok, now);
    AdvanceFrame(s, r, bits, ok, now);
    AdvanceLists(s, r, bits, ok, now, x);
    if x in t.dataInFlight && x in s.policies && Ordinary(s.policies[x]) {
      JoinsCoveredLonger(s.log, x, ev);
    }
    if x in t.queue0 || x in t.queue1 {
      DataLandedLonger(s.log, x, ev);
    }
  }

  lemma AdvanceCov(s: State, r: nat, bits: Mask, ok: bool, now: int)
    requires Ready(s, r, bits, ok) && Justified(s, r, ok) && CovInv(s)
    ensures CovInv(Advance(s, r, bits, ok, now))
  {
    var t := Advance(s, r, bits, ok, now);
    forall x ensures Backed(t, x) { AdvanceBacked(s, r, bits, ok, now, x); }
    AdvanceLog(s, r, bits, ok, now);
    AdvanceFrame(s, r, bits, ok, now);
    StepsDoneLonger(s.log, s.policies, NextEvent(s, r, bits, ok));
  }

  lemma KickCov(s: State, now: int)
    requires Core(s) && CovInv(s)
    ensures CovInv(Kick(s, now))
  {
    var t := Kick(s, now);
    var ev := Issue(s.issued + 1);
    if t != s {
      StepsDoneLonger(s.log, s.policies, ev);
      forall x ensures Backed(t, x) {
        assert Backed(s, x);
        if JoinsCovered(s.log, x) { JoinsCoveredLonger(s.log, x, ev); }
        if DataLanded(s.log, x) { DataLandedLonger(s.log, x, ev); }
      }
    }
  }

  lemma CompleteSeqCov(s: State, r: nat, bits: Mask, ok: bool, now: int)
    requires Ready(s, r, bits, ok) && Justified(s, r, ok) && CovInv(s)
    ensures CovInv(CompleteSeq(s, r, bits, ok, now))
  {
    AdvanceHomes(s, r, bits, ok, now);
    AdvanceMasks(s, r, bits, ok, now);
    AdvanceFrame(s, r, bits, ok, now);
    WithoutIs(s.Queue(!s.pendingIdx), r);
    AdvanceCov(s, r, bits, ok, now);
    KickCov(Advance(s, r, bits, ok, now), now);
  }

  /** Nothing has happened yet to a request that was never inserted. */
  lemma FreshCov(s: State, r: nat, policy: Mask)
    requires AllTold(s) && StepsDone(s.log, s.policies) && r !in s.policies
    ensures StepsDone(s.log, s.policies[r := policy])
    ensures DataLanded(s.log, r) && JoinsCovered(s.log, r)
  {
    assert Told(s.log, s.policies, s.live, r);
    forall i | 0 <= i < |s.log| ensures !(s.log[i].Join? && s.log[i].r == r) && s.log[i] != Dispatch(r) {
      assert !About(s.log[i], r);
    }
    var policies' := s.policies[r := policy];
    forall i, e | 0 <= i < e < |s.log| ensures StepDone(s.log, policies', i, e) {
      assert StepDone(s.log, s.policies, i, e);
    }
  }

  lemma InsertSequencedCov(s: State, r: nat, policy: Mask, now: int)
    requires Inv(s) && AllTold(s) && CovInv(s) && r !in s.policies && (policy.pre || policy.post)
    ensures CovInv(Insert(s, r, policy, now))
  {
    FreshCov(s, r, policy);
    InsertReady(s, r, policy);
    assert AtHome(s, r);
    var s' := s.(policies := s.policies[r := policy], live := s.live[r := NO_STEPS]);
    forall x ensures Backed(s', x) { assert Backed(s, x); }
    CompleteSeqCov(s', r, policy.Not(), true, now);
  }

  lemma InsertPlainCov(s: State, r: nat, policy: Mask, now: int)
    requires Inv(s) && AllTold(s) && CovInv(s) && r !in s.policies && !policy.pre && !policy.post
    ensures CovInv(Insert(s, r, policy, now))
  {
    FreshCov(s, r, policy);
    var ev := if policy.data then Bypass(r) else End(r, true);
    var t := s.(policies := s.policies[r := policy], log := s.log + [ev]);
    assert Insert(s, r, policy, now) == t;
    StepsDoneLonger(s.log, t.policies, ev);
    forall x ensures Backed(t, x) { PlainBacked(s, r, policy, ev, x); }
  }

  /** A request that is nowhere on the lists, and an event that is no join, back what they backed. */
  lemma PlainBacked(s: State, r: nat, policy: Mask, ev: Event, x: nat)
    requires Homes(s) && r !in s.live && Backed(s, x) && (ev.Bypass? || ev.End?)
    ensures Backed(s.(policies := s.policies[r := policy], log := s.log + [ev]), x)
  {
    assert AtHome(s, r);
    if JoinsCovered(s.log, x) { JoinsCoveredLonger(s.log, x, ev); }
    if DataLanded(s.log, x) { DataLandedLonger(s.log, x, ev); }
  }

  lemma DataEndCov(s: State, r: nat, ok: bool, now: int)
    requires Inv(s) && CovInv(s) && r in s.dataInFlight && r in s.live
    ensures CovInv(DataEnd(s, r, ok, now))
  {
    var ev := DataDone(r, ok);
    var s' := s.(log := s.log + [ev]);
    DataEndReady(s, r, ok);
    StepsDoneLonger(s.log, s.policies, ev);
    forall x ensures Backed(s', x) {
      assert Backed(s, x);
      if JoinsCovered(s.log, x) { JoinsCoveredLonger(s.log, x, ev); }
      if DataLanded(s.log, x) { DataLandedLonger(s.log, x, ev); }
    }
    assert Backed(s', r);
    if ok {
      assert s'.log[|s.log|] == DataDone(r, true);
    }
    CompleteSeqCov(s', r, Bit(Data), ok, now);
  }

  /** The flush issued at j and completed at k stands behind everything still on the walked list. */
  ghost predicate WalkBacked(s: State, w: bool, j: int, k: int) {
    && 0 <= j < k < |s.log| && s.log[j].Issue? && s.log[k] == FlushDone(s.log[j].n, true)
    && forall r :: r in s.Queue(w) && r in s.policies && Ordinary(s.policies[r]) ==> JoinsBefore(s.log, r, j)
  }

  lemma WalkStepJustified(s: State, w: bool, ok: bool, j: int, k: int)
    requires Walking(s, w) && CovInv(s) && s.Queue(w) != [] && (ok ==> WalkBacked(s, w, j, k))
    ensures Justified(s, s.Queue(w)[0], ok)
  {
    var r := s.Queue(w)[0];
    assert Backed(s, r);
  }

  lemma WalkStepBacked(s: State, w: bool, now: int, j: int, k: int)
    requires Walking(s, w) && s.Queue(w) != [] && s.Queue(w)[0] in s.live && WalkBacked(s, w, j, k)
    ensures WalkBacked(WalkStep(s, w, true, now), w, j, k)
  {
    WalkStepReady(s, w, true);
    var r := s.Queue(w)[0];
    var bits := Bit(CurSeq(s.live[r]));
    var a := Advance(s, r, bits, true, now);
    assert s == s.(bug := false);
    AdvanceLog(s, r, bits, true, now);
    AdvanceFrame(s, r, bits, true, now);
    assert WalkBacked(a, w, j, k) by {
      forall x | x in a.Queue(w) && x in a.policies && Ordinary(a.policies[x]) ensures JoinsBefore(a.log, x, j) {
        AdvanceLists(s, r, bits, true, now, x);
        assert x != r;
        assert JoinsBefore(s.log, x, j);
      }
    }
    KickBacked(a, w, now, j, k);
  }

  lemma KickBacked(s: State, w: bool, now: int, j: int, k: int)
    requires WalkBacked(s, w, j, k)
    ensures WalkBacked(Kick(s, now), w, j, k)
  {
    var t := Kick(s, now);
    forall x | x in t.Queue(w) && x in t.policies && Ordinary(t.policies[x]) ensures JoinsBefore(t.log, x, j) {
      assert JoinsBefore(s.log, x, j);
    }
  }

  lemma {:induction false} WalkCov(s: State, w: bool, ok: bool, now: int, j: int, k: int)
    requires Walking(s, w) && CovInv(s) && s.Queue(w) != [] && (ok ==> WalkBacked(s, w, j, k))
    ensures CovInv(Walk(s, w, ok, now))
    decreases Work(s.Queue(w), s.live)
  {
    WalkStepReady(s, w, ok);
    var r := s.Queue(w)[0];
    assert s == s.(bug := false);
    WalkStepJustified(s, w, ok, j, k);
    CompleteSeqCov(s, r, Bit(CurSeq(s.live[r])), ok, now);
    WalkStepKeeps(s, w, ok, now);
    if |s.Queue(w)| > 1 {
      if ok { WalkStepBacked(s, w, now, j, k); }
      WalkCov(WalkStep(s, w, ok, now), w, ok, now, j, k);
    }
  }

  lemma FlushEndCov(s: State, ok: bool, now: int)
    requires Inv(s) && CovInv(s) && s.outstanding > 0
    ensures CovInv(FlushEnd(s, ok, now))
  {
    FlushBeginWalks(s, ok);
    var ev := FlushDone(s.issued, ok);
    var b := FlushBegin(s, ok);
    StepsDoneLonger(s.log, s.policies, ev);
    forall x ensures Backed(b, x) {
      assert Backed(s, x);
      if JoinsCovered(s.log, x) { JoinsCoveredLonger(s.log, x, ev); }
      if DataLanded(s.log, x) { DataLandedLonger(s.log, x, ev); }
    }
    forall x | x in b.Queue(s.runningIdx) && x in b.policies && Ordinary(b.policies[x])
      ensures JoinsBefore(b.log, x, s.issuedAt)
    {
      assert Backed(s, x);
    }
    WalkCov(b, s.runningIdx, ok, now, s.issuedAt, |s.log|);
  }

  lemma {:induction false} RunCov(s: State, run: seq<Action>)
    requires Inv(s) && AllTold(s) && CovInv(s) && CanRun(s, run)
    ensures CovInv(After(s, run))
    decreases run
  {
    if run != [] {
      var a := run[0];
      match a {
        case Submit(r, _, _, _, _, _, now) =>
          var p := PolicyOf(a);
          if p.pre || p.post { InsertSequencedCov(s, r, p, now); } else { InsertPlainCov(s, r, p, now); }
        case DataCompletes(r, ok, now) => assert AtHome(s, r); DataEndCov(s, r, ok, now);
        case FlushCompletes(ok, now) => FlushEndCov(s, ok, now);
      }
      StepKeeps(s, a);
      StepTold(s, a);
      RunCov(Apply(s, a), run[1..]);
    }
  }
}
