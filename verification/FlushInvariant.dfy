/**
What every reachable state of the flush sequencer satisfies: each live request is on exactly the list
its current step calls for, the list indices differ exactly when one flush command is in flight, and
a request can be left waiting with no flush in flight only while DATA is in flight under an elevator.
*/
module FlushInvariant {
  import opened FlushModel

  predicate Waiting(mask: Mask) {
    CurSeq(mask) == Preflush || CurSeq(mask) == Postflush
  }

  /** The bits a request with this policy carries while it works on `step`. */
  function MaskAt(policy: Mask, step: Step): Mask {
    Mask(!policy.pre || step != Preflush,
         !policy.data || step == Postflush || step == Done,
         !policy.post || step == Done)
  }

  ghost predicate Fits(policy: Mask, mask: Mask) {
    mask == MaskAt(policy, CurSeq(mask)) && CurSeq(mask) != Done
  }

  /** How often each request occurs on the three lists together. */
  function Listed(s: State): multiset<nat> {
    multiset(s.queue0) + multiset(s.queue1) + multiset(s.dataInFlight)
  }

  /** r is on one list if it is live and on none otherwise, and the list is the one its step calls for. */
  predicate AtHome(s: State, r: nat) {
    && Listed(s)[r] == (if r in s.live then 1 else 0)
    && (r in s.queue0 || r in s.queue1 ==> r in s.live && Waiting(s.live[r]))
    && (r in s.dataInFlight ==> r in s.live && CurSeq(s.live[r]) == Data)
  }

  ghost predicate Homes(s: State) {
    forall r :: AtHome(s, r)
  }

  /** Every request but r is where it belongs. */
  ghost predicate HomesBut(s: State, r: nat) {
    forall x :: x != r ==> AtHome(s, x)
  }

  ghost predicate Masks(s: State) {
    forall r :: r in s.live ==> r in s.policies && Fits(s.policies[r], s.live[r])
  }

  /** Holds between any two steps, also in the middle of a list walk. */
  ghost predicate Core(s: State) {
    && !s.bug
    && Homes(s)
    && Masks(s)
    && s.outstanding == (if s.pendingIdx != s.runningIdx then 1 else 0)
    && (s.pendingIdx != s.runningIdx ==> s.Queue(s.runningIdx) != [])
  }

  /** No request waits unless some completion is still to come that will release it. */
  ghost predicate NoStall(s: State) {
    s.pendingIdx == s.runningIdx && s.Pending() != [] ==> s.elevator && s.dataInFlight != []
  }

  /** Holds whenever the flush lock is free. */
  ghost predicate Inv(s: State) {
    && Core(s)
    && NoStall(s)
    && (s.pendingIdx == s.runningIdx ==> s.Queue(!s.pendingIdx) == [])
  }

  lemma {:induction false} WithoutIs(q: seq<nat>, r: nat)
    ensures multiset(Without(q, r)) == multiset(q)[r := 0]
    ensures r !in Without(q, r)
    ensures forall x :: x != r ==> (x in Without(q, r) <==> x in q)
    ensures r !in q ==> Without(q, r) == q
  {
    if q != [] {
      WithoutIs(q[1..], r);
      assert q == [q[0]] + q[1..];
    }
  }

  lemma DetachIs(s: State, r: nat)
    ensures var d := Detach(s, r);
            && r !in d.queue0 && r !in d.queue1 && r !in d.dataInFlight
            && forall x :: x != r ==> (AtHome(d, x) <==> AtHome(s, x))
  {
    WithoutIs(s.queue0, r);
    WithoutIs(s.queue1, r);
    WithoutIs(s.dataInFlight, r);
  }

  lemma PushIs(q: seq<nat>, r: nat, x: nat)
    ensures multiset(q + [r])[x] == multiset(q)[x] + (if x == r then 1 else 0)
    ensures x in q + [r] <==> x in q || x == r
  {
  }

  lemma EnqueueHome(s: State, r: nat, post: bool, now: int, x: nat)
    requires r in s.live && Waiting(s.live[r])
    requires x != r ==> AtHome(s, x)
    ensures AtHome(Enqueue(s, r, post, now), x)
  {
    DetachIs(s, r);
    var d := Detach(s, r);
    PushIs(if s.pendingIdx then d.queue1 else d.queue0, r, x);
    assert x != r ==> AtHome(d, x);
  }

  lemma SendDataHome(s: State, r: nat, x: nat)
    requires r in s.live && CurSeq(s.live[r]) == Data
    requires x != r ==> AtHome(s, x)
    ensures AtHome(SendData(s, r), x)
  {
    DetachIs(s, r);
    PushIs(Detach(s, r).dataInFlight, r, x);
    assert x != r ==> AtHome(Detach(s, r), x);
  }

  lemma FinishHome(s: State, r: nat, ok: bool, x: nat)
    requires x != r ==> AtHome(s, x)
    ensures AtHome(Finish(s, r, ok), x)
  {
    DetachIs(s, r);
    assert x != r ==> AtHome(Detach(s, r), x);
  }

  /** A request that waits for a flush belongs where Enqueue puts it, wherever it was before. */
  lemma EnqueueHomes(s: State, r: nat, post: bool, now: int)
    requires r in s.live && Waiting(s.live[r]) && HomesBut(s, r)
    ensures Homes(Enqueue(s, r, post, now))
  {
    forall x ensures AtHome(Enqueue(s, r, post, now), x) { EnqueueHome(s, r, post, now, x); }
  }

  lemma SendDataHomes(s: State, r: nat)
    requires r in s.live && CurSeq(s.live[r]) == Data && HomesBut(s, r)
    ensures Homes(SendData(s, r))
  {
    forall x ensures AtHome(SendData(s, r), x) { SendDataHome(s, r, x); }
  }

  lemma FinishHomes(s: State, r: nat, ok: bool)
    requires HomesBut(s, r)
    ensures Homes(Finish(s, r, ok))
  {
    forall x ensures AtHome(Finish(s, r, ok), x) { FinishHome(s, r, ok, x); }
  }

  /** Completing bits of r, or failing it, puts r exactly where its next step belongs. */
  lemma AdvanceHomes(s: State, r: nat, bits: Mask, ok: bool, now: int)
    requires r in s.live
    requires forall x :: x != r ==> AtHome(s, x)
    ensures Homes(Advance(s, r, bits, ok, now))
  {
    var m, s' := s.live[r].Or(bits), Mark(s, r, bits);
    forall x ensures AtHome(Advance(s, r, bits, ok, now), x) {
      assert x != r ==> (AtHome(s', x) <==> AtHome(s, x));
      match if ok then CurSeq(m) else Done
      case Preflush => EnqueueHome(s', r, false, now, x);
      case Postflush => EnqueueHome(s', r, true, now, x);
      case Data => SendDataHome(s', r, x);
      case Done => FinishHome(s', r, ok, x);
    }
  }

  /** Everything CompleteSeq needs of a state in which only r is out of place. */
  ghost predicate Ready(s: State, r: nat, bits: Mask, ok: bool) {
    && !s.bug
    && r in s.live && r in s.policies && !s.live[r].Meets(bits)
    && (ok ==> var m := s.live[r].Or(bits); m == MaskAt(s.policies[r], CurSeq(m)))
    && (forall x :: x != r ==> AtHome(s, x))
    && (forall x :: x in s.live && x != r ==> x in s.policies && Fits(s.policies[x], s.live[x]))
    && s.outstanding == (if s.pendingIdx != s.runningIdx then 1 else 0)
    && (s.pendingIdx != s.runningIdx ==> s.Queue(s.runningIdx) != [] && r !in s.Queue(s.runningIdx))
  }

  ghost predicate SameBut(live: map<nat, Mask>, live': map<nat, Mask>, r: nat) {
    forall x :: x != r ==> (x in live <==> x in live') && (x in live ==> live[x] == live'[x])
  }

  lemma AdvanceFrame(s: State, r: nat, bits: Mask, ok: bool, now: int)
    requires r in s.live
    ensures var t := Advance(s, r, bits, ok, now);
            && t.pendingIdx == s.pendingIdx && t.runningIdx == s.runningIdx
            && t.outstanding == s.outstanding && t.policies == s.policies
            && t.issued == s.issued && t.issuedAt == s.issuedAt
            && t.bug == (s.bug || s.live[r].Meets(bits))
            && t.Queue(!s.pendingIdx) == Without(s.Queue(!s.pendingIdx), r)
            && SameBut(s.live, t.live, r)
            && (r in t.live ==> ok && t.live[r] == s.live[r].Or(bits) && CurSeq(t.live[r]) != Done)
  {
    var m, s' := s.live[r].Or(bits), Mark(s, r, bits);
    assert SameBut(s.live, s'.live, r);
    match if ok then CurSeq(m) else Done
    case Preflush => assert Advance(s, r, bits, ok, now) == Enqueue(s', r, false, now);
    case Postflush => assert Advance(s, r, bits, ok, now) == Enqueue(s', r, true, now);
    case Data => assert Advance(s, r, bits, ok, now) == SendData(s', r);
    case Done => assert Advance(s, r, bits, ok, now) == Finish(s', r, ok);
  }

  lemma AdvanceMasks(s: State, r: nat, bits: Mask, ok: bool, now: int)
    requires Ready(s, r, bits, ok)
    ensures Masks(Advance(s, r, bits, ok, now))
  {
    AdvanceFrame(s, r, bits, ok, now);
    var t := Advance(s, r, bits, ok, now);
    forall x | x in t.live ensures x in t.policies && Fits(t.policies[x], t.live[x]) {
      assert x != r ==> x in s.live;
    }
  }

  lemma KickKeeps(s: State, now: int)
    requires Core(s)
    ensures var t := Kick(s, now);
            && Core(t) && NoStall(t)
            && t.runningIdx == s.runningIdx && t.live == s.live
            && t.queue0 == s.queue0 && t.queue1 == s.queue1
            && (t.pendingIdx == t.runningIdx ==> s.pendingIdx == s.runningIdx)
  {
    forall x ensures AtHome(Kick(s, now), x) { assert AtHome(s, x); }
  }

  lemma CompleteSeqCore(s: State, r: nat, bits: Mask, ok: bool, now: int)
    requires Ready(s, r, bits, ok)
    ensures var t := CompleteSeq(s, r, bits, ok, now);
            Core(t) && NoStall(t) && t.runningIdx == s.runningIdx
  {
    AdvanceHomes(s, r, bits, ok, now);
    AdvanceMasks(s, r, bits, ok, now);
    AdvanceFrame(s, r, bits, ok, now);
    WithoutIs(s.Queue(!s.pendingIdx), r);
    KickKeeps(Advance(s, r, bits, ok, now), now);
  }

  function Left(mask: Mask): nat {
    (if mask.pre then 0 else 1) + (if mask.data then 0 else 1) + (if mask.post then 0 else 1)
  }

  /** Steps still to be done by the requests of a list. */
  function Work(q: seq<nat>, live: map<nat, Mask>): nat {
    if q == [] then 0
    else (if q[0] in live then Left(live[q[0]]) else 0) + Work(q[1..], live)
  }

  lemma {:induction false} WorkPush(q: seq<nat>, r: nat, live: map<nat, Mask>)
    requires r in live
    ensures Work(q + [r], live) == Work(q, live) + Left(live[r])
  {
    if q == [] {
      assert q + [r] == [r];
      assert Work([], live) == 0;
    } else {
      WorkPush(q[1..], r, live);
      assert (q + [r])[1..] == q[1..] + [r];
    }
  }

  lemma {:induction false} WorkFrame(q: seq<nat>, r: nat, live: map<nat, Mask>, live': map<nat, Mask>)
    requires r !in q
    requires SameBut(live, live', r)
    ensures Work(q, live') == Work(q, live)
  {
    if q != [] {
      assert q[0] != r;
      WorkFrame(q[1..], r, live, live');
    }
  }

  lemma {:induction false} WorkWithout(q: seq<nat>, r: nat, live: map<nat, Mask>)
    requires r in live && multiset(q)[r] == 1
    ensures Work(Without(q, r), live) + Left(live[r]) == Work(q, live)
  {
    assert q == [q[0]] + q[1..];
    if q[0] == r {
      WithoutIs(q[1..], r);
    } else {
      WorkWithout(q[1..], r, live);
      assert Without(q, r)[1..] == Without(q[1..], r);
    }
  }

  ghost predicate Walking(s: State, w: bool) {
    Core(s) && s.runningIdx == !w
  }

  lemma {:induction false} HeadOf(s: State, w: bool)
    requires Homes(s) && s.Queue(w) != []
    ensures var q := s.Queue(w); var r := q[0];
            && r in s.live && Waiting(s.live[r])
            && r !in s.Queue(!w) && r !in s.dataInFlight
            && r !in q[1..] && Without(q, r) == q[1..]
  {
    var q := s.Queue(w);
    var r := q[0];
    assert AtHome(s, r);
    assert q == [r] + q[1..];
    assert multiset(q)[r] == 1 + multiset(q[1..])[r];
    WithoutIs(q[1..], r);
  }

  lemma WalkStepReady(s: State, w: bool, ok: bool)
    requires Walking(s, w) && s.Queue(w) != []
    ensures s.Queue(w)[0] in s.live
    ensures Waiting(s.live[s.Queue(w)[0]])
    ensures Ready(s, s.Queue(w)[0], Bit(CurSeq(s.live[s.Queue(w)[0]])), ok)
  {
    HeadOf(s, w);
  }

  lemma AdvanceWalked(s: State, w: bool, ok: bool, now: int)
    requires Walking(s, w) && s.Queue(w) != [] && s.Queue(w)[0] in s.live
    ensures var q := s.Queue(w); var r := q[0]; var a := Advance(s, r, Bit(CurSeq(s.live[r])), ok, now);
            a.Queue(w) == q[1..] || (s.pendingIdx == w && a.Queue(w) == q[1..] + [r] && r in a.live)
  {
    HeadOf(s, w);
  }

  /** The walked list loses its head, which at most returns to its tail with fewer steps left. */
  lemma WalkStepWork(s: State, w: bool, ok: bool, now: int)
    requires Walking(s, w) && s.Queue(w) != [] && s.Queue(w)[0] in s.live
    ensures var q, t := s.Queue(w), WalkStep(s, w, ok, now);
            && (t.Queue(w) == q[1..] || (s.pendingIdx == w && t.Queue(w) == q[1..] + [q[0]]))
            && Work(t.Queue(w), t.live) < Work(q, s.live)
  {
    HeadOf(s, w);
    var q := s.Queue(w);
    var r := q[0];
    var bits := Bit(CurSeq(s.live[r]));
    AdvanceFrame(s, r, bits, ok, now);
    var a := Advance(s, r, bits, ok, now);
    assert s == s.(bug := false);
    assert WalkStep(s, w, ok, now) == Kick(a, now);
    AdvanceWalked(s, w, ok, now);
    WorkFrame(q[1..], r, s.live, a.live);
    if r in a.live {
      WorkPush(q[1..], r, a.live);
    }
  }

  lemma WalkStepKeeps(s: State, w: bool, ok: bool, now: int)
    requires Walking(s, w) && s.Queue(w) != []
    ensures s.Queue(w)[0] in s.live
    ensures var t := WalkStep(s, w, ok, now);
            && Walking(t, w) && NoStall(t)
            && Work(t.Queue(w), t.live) < Work(s.Queue(w), s.live)
            && (|s.Queue(w)| > 1 ==> t.Queue(w) != [])
            && (|s.Queue(w)| == 1 && t.pendingIdx == t.runningIdx ==> t.Queue(w) == [])
  {
    WalkStepReady(s, w, ok);
    WalkStepWork(s, w, ok, now);
    var r := s.Queue(w)[0];
    CompleteSeqCore(s, r, Bit(CurSeq(s.live[r])), ok, now);
    assert s == s.(bug := false);
  }

  function Walk(s: State, w: bool, ok: bool, now: int): State
    requires Walking(s, w) && s.Queue(w) != []
    decreases Work(s.Queue(w), s.live)
  {
    WalkStepKeeps(s, w, ok, now);
    var t := WalkStep(s, w, ok, now);
    if |s.Queue(w)| == 1 then t else Walk(t, w, ok, now)
  }

  lemma {:induction false} WalkKeeps(s: State, w: bool, ok: bool, now: int)
    requires Walking(s, w) && s.Queue(w) != []
    ensures Inv(Walk(s, w, ok, now))
    decreases Work(s.Queue(w), s.live)
  {
    WalkStepKeeps(s, w, ok, now);
    if |s.Queue(w)| > 1 {
      WalkKeeps(WalkStep(s, w, ok, now), w, ok, now);
    }
  }

  lemma FlushBeginWalks(s: State, ok: bool)
    requires Inv(s) && s.outstanding > 0
    ensures var b := FlushBegin(s, ok); Walking(b, s.runningIdx) && b.Queue(s.runningIdx) != []
  {
    forall x ensures AtHome(FlushBegin(s, ok), x) { assert AtHome(s, x); }
  }

  /** flush_end_io */
  function FlushEnd(s: State, ok: bool, now: int): State
    requires Inv(s) && s.outstanding > 0
  {
    FlushBeginWalks(s, ok);
    Walk(FlushBegin(s, ok), s.runningIdx, ok, now)
  }

  datatype Action =
    | Submit(r: nat, hasData: bool, preflush: bool, fua: bool, writeCache: bool, fuaCapable: bool, now: int)
    | DataCompletes(r: nat, ok: bool, now: int)
    | FlushCompletes(ok: bool, now: int)

  function PolicyOf(a: Action): Mask
    requires a.Submit?
  {
    Policy(a.hasData, a.preflush, a.fua, a.writeCache, a.fuaCapable)
  }

  /** A request is inserted once; the device completes only what it was given. */
  predicate Enabled(s: State, a: Action) {
    match a
    case Submit(r, _, _, _, _, _, _) => r !in s.policies
    case DataCompletes(r, _, _) => r in s.dataInFlight
    case FlushCompletes(_, _) => s.outstanding > 0
  }

  function Apply(s: State, a: Action): State
    requires Inv(s) && Enabled(s, a)
  {
    match a
    case Submit(r, _, _, _, _, _, now) => Insert(s, r, PolicyOf(a), now)
    case DataCompletes(r, ok, now) => assert AtHome(s, r); DataEnd(s, r, ok, now)
    case FlushCompletes(ok, now) => FlushEnd(s, ok, now)
  }

  lemma InsertReady(s: State, r: nat, policy: Mask)
    requires Inv(s) && r !in s.policies && (policy.pre || policy.post)
    ensures var s' := s.(policies := s.policies[r := policy], live := s.live[r := NO_STEPS]);
            Ready(s', r, policy.Not(), true)
  {
    var s' := s.(policies := s.policies[r := policy], live := s.live[r := NO_STEPS]);
    assert r !in s.live;
    assert AtHome(s, r);
    forall x | x != r ensures AtHome(s', x) { assert AtHome(s, x); }
  }

  lemma DataEndReady(s: State, r: nat, ok: bool)
    requires Inv(s) && r in s.dataInFlight
    ensures Ready(s.(log := s.log + [DataDone(r, ok)]), r, Bit(Data), ok)
  {
    var s' := s.(log := s.log + [DataDone(r, ok)]);
    assert AtHome(s, r);
    assert Fits(s.policies[r], s.live[r]);
    forall x ensures AtHome(s', x) { assert AtHome(s, x); }
  }

  lemma CompleteSeqInv(s: State, r: nat, bits: Mask, ok: bool, now: int)
    requires Ready(s, r, bits, ok)
    requires s.pendingIdx == s.runningIdx ==> s.Queue(!s.pendingIdx) == []
    ensures Inv(CompleteSeq(s, r, bits, ok, now))
  {
    CompleteSeqCore(s, r, bits, ok, now);
    AdvanceFrame(s, r, bits, ok, now);
  }

  lemma InsertPlainKeeps(s: State, r: nat, policy: Mask, now: int)
    requires Inv(s) && r !in s.policies && !policy.pre && !policy.post
    ensures Inv(Insert(s, r, policy, now))
  {
    var t := Insert(s, r, policy, now);
    assert t == s.(policies := t.policies, log := t.log);
    forall x ensures AtHome(t, x) { assert AtHome(s, x); }
  }

  lemma InsertKeeps(s: State, r: nat, policy: Mask, now: int)
    requires Inv(s) && r !in s.policies
    ensures Inv(Insert(s, r, policy, now))
  {
    if policy.pre || policy.post {
      InsertReady(s, r, policy);
      var s' := s.(policies := s.policies[r := policy], live := s.live[r := NO_STEPS]);
      CompleteSeqInv(s', r, policy.Not(), true, now);
      assert Insert(s, r, policy, now) == CompleteSeq(s', r, policy.Not(), true, now);
    } else {
      InsertPlainKeeps(s, r, policy, now);
    }
  }

  lemma DataEndKeeps(s: State, r: nat, ok: bool, now: int)
    requires Inv(s) && r in s.dataInFlight && r in s.live
    ensures Inv(DataEnd(s, r, ok, now))
  {
    DataEndReady(s, r, ok);
    CompleteSeqInv(s.(log := s.log + [DataDone(r, ok)]), r, Bit(Data), ok, now);
  }

  lemma FlushEndKeeps(s: State, ok: bool, now: int)
    requires Inv(s) && s.outstanding > 0
    ensures Inv(FlushEnd(s, ok, now))
  {
    FlushBeginWalks(s, ok);
    WalkKeeps(FlushBegin(s, ok), s.runningIdx, ok, now);
  }

  /** Every step of every kind keeps the invariant; in particular no BUG_ON fires. */
  lemma StepKeeps(s: State, a: Action)
    requires Inv(s) && Enabled(s, a)
    ensures Inv(Apply(s, a))
  {
    match a
    case Submit(r, _, _, _, _, _, now) => InsertKeeps(s, r, PolicyOf(a), now);
    case DataCompletes(r, ok, now) => assert AtHome(s, r); DataEndKeeps(s, r, ok, now);
    case FlushCompletes(ok, now) => FlushEndKeeps(s, ok, now);
  }

  /** Each action of the run is possible when its turn comes. */
  predicate CanRun(s: State, run: seq<Action>)
    requires Inv(s)
    decreases run
  {
    run == [] || (Enabled(s, run[0]) && (StepKeeps(s, run[0]); CanRun(Apply(s, run[0]), run[1..])))
  }

  function After(s: State, run: seq<Action>): State
    requires Inv(s) && CanRun(s, run)
    decreases run
  {
    if run == [] then s else (StepKeeps(s, run[0]); After(Apply(s, run[0]), run[1..]))
  }

  /** Every state a run reaches satisfies the invariant. */
  lemma {:induction false} RunKeeps(s: State, run: seq<Action>)
    requires Inv(s) && CanRun(s, run)
    ensures Inv(After(s, run))
    decreases run
  {
    if run != [] {
      StepKeeps(s, run[0]);
      RunKeeps(Apply(s, run[0]), run[1..]);
    }
  }
}
