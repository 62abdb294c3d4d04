/**
The flush queue as the kernel keeps it: an object updated in place under the flush lock. Every method
does to the fields what the step functions of FlushModel do to the value Model() reads off them.
*/
module FlushQueue {
  import opened FlushModel
  import opened FlushInvariant
  import opened FlushFlags

  lemma KickSafe(s: State, now: int)
    ensures Core(s) ==> Core(Kick(s, now)) && NoStall(Kick(s, now))
  {
    if Core(s) { KickKeeps(s, now); }
  }

  lemma EnqueueSafe(s: State, r: nat, post: bool, now: int)
    ensures HomesBut(s, r) && r in s.live && Waiting(s.live[r]) ==> Homes(Enqueue(s, r, post, now))
  {
    if HomesBut(s, r) && r in s.live && Waiting(s.live[r]) { EnqueueHomes(s, r, post, now); }
  }

  lemma CompleteSafe(s: State, r: nat, bits: Mask, ok: bool, now: int)
    requires r in s.live
    ensures Ready(s, r, bits, ok) ==>
              var t := CompleteSeq(s, r, bits, ok, now); Core(t) && NoStall(t) && t.runningIdx == s.runningIdx
  {
    if Ready(s, r, bits, ok) { CompleteSeqCore(s, r, bits, ok, now); }
  }

  class Queue {
    const elevator: bool
    const timeout: nat
    var queue0: seq<nat>
    var queue1: seq<nat>
    var pendingIdx: bool
    var runningIdx: bool
    var pendingSince: int
    var dataInFlight: seq<nat>
    var live: map<nat, Mask>
    var policies: map<nat, Mask>
    var outstanding: nat
    var issued: nat
    var issuedAt: nat
    var bug: bool
    var log: seq<Event>

    ghost function Model(): State
      reads this
    {
      State(elevator, timeout, queue0, queue1, pendingIdx, runningIdx, pendingSince, dataInFlight,
            live, policies, outstanding, issued, issuedAt, bug, log)
    }

    constructor (elevator: bool, timeout: nat)
      ensures Model() == Init(elevator, timeout) && Inv(Model())
    {
      this.elevator, this.timeout := elevator, timeout;
      queue0, queue1, dataInFlight := [], [], [];
      pendingIdx, runningIdx, pendingSince := false, false, 0;
      live, policies := map[], map[];
      outstanding, issued, issuedAt, bug, log := 0, 0, 0, false, [];
    }

    method ListDel(r: nat)
      modifies this
      ensures Model() == Detach(old(Model()), r)
    {
      queue0 := Without(queue0, r);
      queue1 := Without(queue1, r);
      dataInFlight := Without(dataInFlight, r);
    }

    method KickFlush(now: int)
      modifies this
      ensures Model() == Kick(old(Model()), now)
      ensures old(Core(Model())) ==> Core(Model()) && NoStall(Model())
      ensures queue0 == old(queue0) && queue1 == old(queue1) && live == old(live) && dataInFlight == old(dataInFlight)
    {
      var pending := if pendingIdx then queue1 else queue0;
      var wait := dataInFlight != [] && elevator && now < pendingSince + timeout;
      if pendingIdx == runningIdx && pending != [] && !wait {
        pendingIdx := !pendingIdx;
        outstanding := outstanding + 1;
        issued := issued + 1;
        issuedAt := |log|;
        log := log + [Issue(issued)];
      }
      assert Model() == Kick(old(Model()), now);
      KickSafe(old(Model()), now);
    }

    method QueueForFlush(r: nat, post: bool, now: int)
      modifies this
      ensures Model() == Enqueue(old(Model()), r, post, now)
      ensures old(HomesBut(Model(), r) && r in live && Waiting(live[r])) ==> Homes(Model())
    {
      EnqueueSafe(Model(), r, post, now);
      var pending := if pendingIdx then queue1 else queue0;
      if pending == [] {
        pendingSince := now;
      }
      ListDel(r);
      if pendingIdx {
        queue1 := queue1 + [r];
      } else {
        queue0 := queue0 + [r];
      }
      log := log + [Join(r, post)];
    }

    method StartData(r: nat)
      modifies this
      ensures Model() == SendData(old(Model()), r)
      ensures old(HomesBut(Model(), r) && r in live && CurSeq(live[r]) == Data) ==> Homes(Model())
    {
      if HomesBut(Model(), r) && r in live && CurSeq(live[r]) == Data { SendDataHomes(Model(), r); }
      ListDel(r);
      dataInFlight := dataInFlight + [r];
      log := log + [Dispatch(r)];
    }

    method EndRequest(r: nat, ok: bool)
      modifies this
      ensures Model() == Finish(old(Model()), r, ok)
      ensures r !in live && (old(HomesBut(Model(), r)) ==> Homes(Model()))
    {
      if HomesBut(Model(), r) { FinishHomes(Model(), r, ok); }
      ListDel(r);
      live := live - {r};
      log := log + [End(r, ok)];
    }

    /** blk_flush_complete_seq up to its final kick. */
    method TakeStep(r: nat, bits: Mask, ok: bool, now: int)
      requires r in live
      modifies this
      ensures Model() == Advance(old(Model()), r, bits, ok, now)
    {
      bug := bug || live[r].Meets(bits);
      live := live[r := live[r].Or(bits)];
      assert Model() == Mark(old(Model()), r, bits);
      match if ok then CurSeq(live[r]) else Done {
        case Preflush => QueueForFlush(r, false, now);
        case Postflush => QueueForFlush(r, true, now);
        case Data => StartData(r);
        case Done => EndRequest(r, ok);
      }
    }

    /** blk_flush_complete_seq */
    method CompleteStep(r: nat, bits: Mask, ok: bool, now: int)
      requires r in live
      modifies this
      ensures Model() == CompleteSeq(old(Model()), r, bits, ok, now)
      ensures old(Ready(Model(), r, bits, ok)) ==> Core(Model()) && NoStall(Model()) && runningIdx == old(runningIdx)
    {
      CompleteSafe(Model(), r, bits, ok, now);
      TakeStep(r, bits, ok, now);
      KickFlush(now);
    }

    method WalkOnce(w: bool, ok: bool, now: int)
      requires Model().Queue(w) != [] && Model().Queue(w)[0] in live
      modifies this
      ensures Model() == WalkStep(old(Model()), w, ok, now)
    {
      var r := if w then queue1[0] else queue0[0];
      var step := CurSeq(live[r]);
      bug := bug || (step != Preflush && step != Postflush);
      CompleteStep(r, Bit(step), ok, now);
    }

    /** flush_end_io: the safe list walk stops after the entry that was last when it was reached. */
    method FlushEndIo(ok: bool, now: int)
      requires Inv(Model()) && outstanding > 0
      modifies this
      ensures Model() == FlushEnd(old(Model()), ok, now) && Inv(Model())
    {
      FlushBeginWalks(Model(), ok);
      FlushEndKeeps(Model(), ok, now);
      var w := runningIdx;
      bug := bug || pendingIdx == runningIdx;
      outstanding := outstanding - 1;
      runningIdx := !runningIdx;
      log := log + [FlushDone(issued, ok)];
      ghost var walked := Walk(Model(), w, ok, now);
      assert walked == FlushEnd(old(Model()), ok, now);
      var more := true;
      while more
        invariant more ==> Walking(Model(), w) && Model().Queue(w) != [] && Walk(Model(), w, ok, now) == walked
        invariant !more ==> Model() == walked
        decreases more, Work(Model().Queue(w), live)
      {
        WalkStepKeeps(Model(), w, ok, now);
        more := |if w then queue1 else queue0| > 1;
        WalkOnce(w, ok, now);
      }
    }

    method DataEndIo(r: nat, ok: bool, now: int)
      requires Inv(Model()) && r in dataInFlight
      modifies this
      ensures old(r in live) && Model() == DataEnd(old(Model()), r, ok, now) && Inv(Model())
    {
      assert AtHome(Model(), r);
      DataEndKeeps(Model(), r, ok, now);
      log := log + [DataDone(r, ok)];
      CompleteStep(r, Bit(Data), ok, now);
    }

    /** blk_insert_flush once the policy is known. */
    method InsertAs(r: nat, policy: Mask, now: int)
      requires Inv(Model()) && r !in policies
      modifies this
      ensures Model() == Insert(old(Model()), r, policy, now)
    {
      InsertKeeps(Model(), r, policy, now);
      policies := policies[r := policy];
      if policy == NO_STEPS {
        log := log + [End(r, true)];
        return;
      }
      if policy.data && !policy.pre && !policy.post {
        log := log + [Bypass(r)];
        return;
      }
      live := live[r := NO_STEPS];
      CompleteStep(r, policy.Not(), true, now);
    }

    method InsertFlush(r: nat, hasData: bool, preflush: bool, fua: bool, writeCache: bool, fuaCapable: bool, now: int)
      requires Inv(Model()) && r !in policies
      modifies this
      ensures Model() == Insert(old(Model()), r, Policy(hasData, preflush, fua, writeCache, fuaCapable), now)
      ensures Inv(Model())
      ensures Starts(old(Model()), Model(), Submit(r, hasData, preflush, fua, writeCache, fuaCapable, now))
    {
      var policy := Policy(hasData, preflush, fua, writeCache, fuaCapable);
      InsertKeeps(Model(), r, policy, now);
      AtOnce(Model(), Submit(r, hasData, preflush, fua, writeCache, fuaCapable, now));
      InsertAs(r, policy, now);
    }
  }
}
