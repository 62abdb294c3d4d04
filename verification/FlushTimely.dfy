/**
How long requests wait for a flush that could be issued: since the first of them queued, at most until the
timeout, while data is in flight under an elevator.
*/
module FlushTimely {
  import opened FlushModel
  import opened FlushInvariant

  /** At this time, what waits with no flush in flight waits for data, and not yet as long as the timeout. */
  ghost predicate Timely(s: State, now: int) {
    s.pendingIdx == s.runningIdx && s.Pending() != [] ==>
      s.elevator && s.dataInFlight != [] && now < s.pendingSince + s.timeout
  }

  lemma CompleteTimely(s: State, r: nat, bits: Mask, ok: bool, now: int)
    requires r in s.live
    ensures Timely(CompleteSeq(s, r, bits, ok, now), now)
  {
  }

  lemma {:induction false} WalkTimely(s: State, w: bool, ok: bool, now: int)
    requires Walking(s, w) && s.Queue(w) != []
    ensures Timely(Walk(s, w, ok, now), now)
    decreases Work(s.Queue(w), s.live)
  {
    WalkStepKeeps(s, w, ok, now);
    var r := s.Queue(w)[0];
    if |s.Queue(w)| > 1 {
      WalkTimely(WalkStep(s, w, ok, now), w, ok, now);
    } else {
      CompleteTimely(s.(bug := s.bug || !Waiting(s.live[r])), r, Bit(CurSeq(s.live[r])), ok, now);
    }
  }

  /** A submission that needs no flush. */
  predicate Plain(a: Action) {
    a.Submit? && !PolicyOf(a).pre && !PolicyOf(a).post
  }

  /** After every completion and every submission that needs a flush, nothing waits past the timeout. */
  lemma ActionTimely(s: State, a: Action)
    requires Inv(s) && Enabled(s, a) && !Plain(a)
    ensures Timely(Apply(s, a), a.now)
  {
    match a
    case Submit(r, _, _, _, _, _, now) =>
      var p := PolicyOf(a);
      CompleteTimely(s.(policies := s.policies[r := p], live := s.live[r := NO_STEPS]), r, p.Not(), true, now);
    case DataCompletes(r, ok, now) =>
      assert AtHome(s, r);
      CompleteTimely(s.(log := s.log + [DataDone(r, ok)]), r, Bit(Data), ok, now);
    case FlushCompletes(ok, now) =>
      FlushBeginWalks(s, ok);
      WalkTimely(FlushBegin(s, ok), s.runningIdx, ok, now);
  }

  /** At most one flush command was issued, and not while it had to wait. */
  ghost predicate IssuedRightly(s: State, t: State, now: int) {
    && s.issued <= t.issued <= s.issued + 1
    && (t.issued > s.issued ==>
          t.outstanding == s.outstanding + 1
          && !(t.elevator && t.dataInFlight != [] && now < t.pendingSince + t.timeout))
  }

  lemma CompleteRightly(s: State, r: nat, bits: Mask, ok: bool, now: int)
    requires r in s.live
    ensures IssuedRightly(s, CompleteSeq(s, r, bits, ok, now), now)
  {
    AdvanceFrame(s, r, bits, ok, now);
    var a := Advance(s, r, bits, ok, now);
    assert IssuedRightly(a, Kick(a, now), now);
  }

  /**
  A submission or a data completion issues at most one flush command, and none while data is in flight under an
  elevator and the timeout has not come.
  */
  lemma NotTooEarly(s: State, a: Action)
    requires Inv(s) && Enabled(s, a) && !a.FlushCompletes?
    ensures IssuedRightly(s, Apply(s, a), a.now)
  {
    match a
    case Submit(r, _, _, _, _, _, now) =>
      var p := PolicyOf(a);
      if p.pre || p.post {
        CompleteRightly(s.(policies := s.policies[r := p], live := s.live[r := NO_STEPS]), r, p.Not(), true, now);
      }
    case DataCompletes(r, ok, now) =>
      assert AtHome(s, r);
      CompleteRightly(s.(log := s.log + [DataDone(r, ok)]), r, Bit(Data), ok, now);
    case FlushCompletes(_, _) =>
  }

  /** The waiting time counts from when the pending list filled, as long as it is the pending list. */
  ghost predicate Counts(s: State, t: State, now: int) {
    && t.timeout == s.timeout
    && (t.pendingIdx == s.pendingIdx ==>
          if s.Pending() != [] then t.Pending() != [] && t.pendingSince == s.pendingSince
          else t.Pending() != [] ==> t.pendingSince == now)
    && (t.pendingIdx != s.pendingIdx ==> t.pendingIdx != t.runningIdx)
  }

  lemma EnqueueCounts(s: State, r: nat, post: bool, now: int)
    requires r !in s.Pending()
    ensures Counts(s, Enqueue(s, r, post, now), now)
  {
    WithoutIs(s.Pending(), r);
  }

  lemma DetachCounts(s: State, r: nat, t: State, now: int)
    requires r !in s.Pending() && t.queue0 == Without(s.queue0, r) && t.queue1 == Without(s.queue1, r)
    requires t.pendingIdx == s.pendingIdx && t.pendingSince == s.pendingSince && t.timeout == s.timeout
    ensures Counts(s, t, now)
  {
    WithoutIs(s.Pending(), r);
  }

  lemma AdvanceCounts(s: State, r: nat, bits: Mask, ok: bool, now: int)
    requires r in s.live && r !in s.Pending()
    ensures Counts(s, Advance(s, r, bits, ok, now), now)
  {
    var s' := Mark(s, r, bits);
    match if ok then CurSeq(s'.live[r]) else Done
    case Preflush => EnqueueCounts(s', r, false, now);
    case Postflush => EnqueueCounts(s', r, true, now);
    case Data => DetachCounts(s, r, SendData(s', r), now);
    case Done => DetachCounts(s, r, Finish(s', r, ok), now);
  }

  lemma CompleteCounts(s: State, r: nat, bits: Mask, ok: bool, now: int)
    requires r in s.live && r !in s.Pending()
    ensures Counts(s, CompleteSeq(s, r, bits, ok, now), now)
  {
    AdvanceCounts(s, r, bits, ok, now);
    AdvanceFrame(s, r, bits, ok, now);
  }

  /** A list walk whose flush has not been followed by another yet. */
  lemma {:induction false} WalkCounts(s: State, w: bool, ok: bool, now: int)
    requires Walking(s, w) && s.Queue(w) != []
    ensures s.pendingIdx == s.runningIdx ==> Counts(s, Walk(s, w, ok, now), now)
    ensures var t := Walk(s, w, ok, now);
            t.timeout == s.timeout && t.runningIdx == s.runningIdx
            && (s.pendingIdx != s.runningIdx ==> t.pendingIdx == s.pendingIdx)
    decreases Work(s.Queue(w), s.live)
  {
    WalkStepKeeps(s, w, ok, now);
    HeadOf(s, w);
    var r, t := s.Queue(w)[0], WalkStep(s, w, ok, now);
    var bits := Bit(CurSeq(s.live[r]));
    assert s == s.(bug := s.bug || !Waiting(s.live[r]));
    AdvanceFrame(s, r, bits, ok, now);
    if s.pendingIdx != w { CompleteCounts(s, r, bits, ok, now); }
    if |s.Queue(w)| > 1 { WalkCounts(t, w, ok, now); }
  }

  /** Every action counts the waiting time so. */
  lemma ActionCounts(s: State, a: Action)
    requires Inv(s) && Enabled(s, a)
    ensures Counts(s, Apply(s, a), a.now)
  {
    match a
    case Submit(r, _, _, _, _, _, now) =>
      var p := PolicyOf(a);
      assert AtHome(s, r);
      if p.pre || p.post {
        CompleteCounts(s.(policies := s.policies[r := p], live := s.live[r := NO_STEPS]), r, p.Not(), true, now);
      }
    case DataCompletes(r, ok, now) =>
      assert AtHome(s, r);
      CompleteCounts(s.(log := s.log + [DataDone(r, ok)]), r, Bit(Data), ok, now);
    case FlushCompletes(ok, now) =>
      FlushBeginWalks(s, ok);
      WalkCounts(FlushBegin(s, ok), s.runningIdx, ok, now);
  }

  /** No flush command is issued in this run. */
  ghost predicate NoneIssued(s: State, run: seq<Action>)
    requires Inv(s) && CanRun(s, run)
    decreases run
  {
    run == [] || (StepKeeps(s, run[0]);
                  && Apply(s, run[0]).pendingIdx == s.pendingIdx
                  && NoneIssued(Apply(s, run[0]), run[1..]))
  }

  lemma {:induction false} RunCounts(s: State, run: seq<Action>)
    requires Inv(s) && CanRun(s, run) && NoneIssued(s, run) && s.Pending() != []
    ensures var t := After(s, run);
            && t.Pending() != [] && t.pendingSince == s.pendingSince
            && t.pendingIdx == s.pendingIdx && t.timeout == s.timeout
    decreases run
  {
    if run != [] {
      StepKeeps(s, run[0]);
      ActionCounts(s, run[0]);
      RunCounts(Apply(s, run[0]), run[1..]);
    }
  }

  /**
  Once something is pending, and however the run goes on without another flush command, the first completion
  or submission that needs a flush, at the timeout or later, with no flush in flight, has one issued.
  */
  lemma IssuedInTime(s: State, run: seq<Action>, a: Action)
    requires Inv(s) && CanRun(s, run) && NoneIssued(s, run) && s.Pending() != []
    requires Inv(After(s, run)) && Enabled(After(s, run), a) && !Plain(a) && a.now >= s.pendingSince + s.timeout
    ensures var t := Apply(After(s, run), a); t.pendingIdx != t.runningIdx
  {
    RunCounts(s, run);
    ActionCounts(After(s, run), a);
    ActionTimely(After(s, run), a);
  }
}
