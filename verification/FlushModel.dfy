/**
The PREFLUSH/FUA sequencer of the block layer as a step system over values: what each call made
under the flush lock does to the two flush lists, the DATA list and the two list indices.
The log records what the device and the submitters can see.
*/
module FlushModel {

  datatype Step = Preflush | Data | Postflush | Done

  /** A REQ_FSEQ_* mask, one flag per action bit. */
  datatype Mask = Mask(pre: bool, data: bool, post: bool) {
    predicate Has(step: Step) {
      match step
      case Preflush => pre
      case Data => data
      case Postflush => post
      case Done => false
    }

    function Or(m: Mask): Mask {
      Mask(pre || m.pre, data || m.data, post || m.post)
    }

    function Not(): Mask {
      Mask(!pre, !data, !post)
    }

    predicate Meets(m: Mask) {
      (pre && m.pre) || (data && m.data) || (post && m.post)
    }
  }

  const NO_STEPS := Mask(false, false, false)

  function Bit(step: Step): Mask {
    Mask(step == Preflush, step == Data, step == Postflush)
  }

  /** The steps a request needs, from its flags and the queue's write-cache and FUA capability. */
  function Policy(hasData: bool, preflush: bool, fua: bool, writeCache: bool, fuaCapable: bool): Mask {
    Mask(writeCache && preflush, hasData, writeCache && !fuaCapable && fua)
  }

  /** The lowest bit not yet set in `mask`. */
  function CurSeq(mask: Mask): Step {
    if !mask.pre then Preflush
    else if !mask.data then Data
    else if !mask.post then Postflush
    else Done
  }

  datatype Event =
    | Join(r: nat, post: bool)     // r queued behind the next flush command, for POSTFLUSH or PREFLUSH
    | Dispatch(r: nat)            // r's data sent to the device
    | DataDone(r: nat, ok: bool)  // the device finished r's data
    | Issue(n: nat)               // n-th flush command sent to the device
    | FlushDone(n: nat, ok: bool) // the device finished the n-th flush command
    | End(r: nat, ok: bool)       // r completed towards its submitter
    | Bypass(r: nat)              // r sent down as an ordinary request

  datatype State = State(
    elevator: bool,
    timeout: nat,
    queue0: seq<nat>,
    queue1: seq<nat>,
    pendingIdx: bool,
    runningIdx: bool,
    pendingSince: int,
    dataInFlight: seq<nat>,
    live: map<nat, Mask>,      // flush.seq of every request being sequenced
    policies: map<nat, Mask>,  // policy of every request ever inserted
    outstanding: nat,          // flush commands the device holds
    issued: nat,
    issuedAt: nat,             // where the last Issue stands in the log
    bug: bool,                 // some BUG_ON has fired
    log: seq<Event>)
  {
    function Queue(i: bool): seq<nat> {
      if i then queue1 else queue0
    }

    function Pending(): seq<nat> {
      Queue(pendingIdx)
    }
  }

  function Init(elevator: bool, timeout: nat): State {
    State(elevator, timeout, [], [], false, false, 0, [], map[], map[], 0, 0, 0, false, [])
  }

  function Without(q: seq<nat>, r: nat): seq<nat> {
    if q == [] then []
    else if q[0] == r then Without(q[1..], r)
    else [q[0]] + Without(q[1..], r)
  }

  /** list_del: take r off whatever list holds it. */
  function Detach(s: State, r: nat): State {
    s.(queue0 := Without(s.queue0, r),
       queue1 := Without(s.queue1, r),
       dataInFlight := Without(s.dataInFlight, r))
  }

  function Enqueue(s: State, r: nat, post: bool, now: int): State {
    var d := Detach(s, r);
    d.(pendingSince := if s.Pending() == [] then now else s.pendingSince,
       queue0 := if s.pendingIdx then d.queue0 else d.queue0 + [r],
       queue1 := if s.pendingIdx then d.queue1 + [r] else d.queue1,
       log := s.log + [Join(r, post)])
  }

  function SendData(s: State, r: nat): State {
    var d := Detach(s, r);
    d.(dataInFlight := d.dataInFlight + [r], log := s.log + [Dispatch(r)])
  }

  function Finish(s: State, r: nat, ok: bool): State {
    Detach(s, r).(live := s.live - {r}, log := s.log + [End(r, ok)])
  }

  predicate MustWait(s: State, now: int) {
    s.dataInFlight != [] && s.elevator && now < s.pendingSince + s.timeout
  }

  /** blk_kick_flush */
  function Kick(s: State, now: int): State {
    if s.pendingIdx != s.runningIdx || s.Pending() == [] || MustWait(s, now) then s
    else s.(pendingIdx := !s.pendingIdx,
            outstanding := s.outstanding + 1,
            issued := s.issued + 1,
            issuedAt := |s.log|,
            log := s.log + [Issue(s.issued + 1)])
  }

  function Mark(s: State, r: nat, bits: Mask): State
    requires r in s.live
  {
    s.(bug := s.bug || s.live[r].Meets(bits), live := s.live[r := s.live[r].Or(bits)])
  }

  /** blk_flush_complete_seq up to its final kick. */
  function Advance(s: State, r: nat, bits: Mask, ok: bool, now: int): State
    requires r in s.live
  {
    var s' := Mark(s, r, bits);
    match if ok then CurSeq(s'.live[r]) else Done
    case Preflush => Enqueue(s', r, false, now)
    case Postflush => Enqueue(s', r, true, now)
    case Data => SendData(s', r)
    case Done => Finish(s', r, ok)
  }

  function CompleteSeq(s: State, r: nat, bits: Mask, ok: bool, now: int): State
    requires r in s.live
  {
    Kick(Advance(s, r, bits, ok, now), now)
  }

  /** One turn of the list walk in flush_end_io, on the request at the head of list `w`. */
  function WalkStep(s: State, w: bool, ok: bool, now: int): State
    requires s.Queue(w) != [] && s.Queue(w)[0] in s.live
  {
    var r := s.Queue(w)[0];
    var step := CurSeq(s.live[r]);
    CompleteSeq(s.(bug := s.bug || (step != Preflush && step != Postflush)), r, Bit(step), ok, now)
  }

  /** flush_end_io before its list walk. */
  function FlushBegin(s: State, ok: bool): State {
    s.(bug := s.bug || s.pendingIdx == s.runningIdx,
       outstanding := if s.outstanding == 0 then 0 else s.outstanding - 1,
       runningIdx := !s.runningIdx,
       log := s.log + [FlushDone(s.issued, ok)])
  }

  /** mq_flush_data_end_io */
  function DataEnd(s: State, r: nat, ok: bool, now: int): State
    requires r in s.live
  {
    CompleteSeq(s.(log := s.log + [DataDone(r, ok)]), r, Bit(Data), ok, now)
  }

  /** blk_insert_flush */
  function Insert(s: State, r: nat, policy: Mask, now: int): State {
    var s' := s.(policies := s.policies[r := policy]);
    if policy == NO_STEPS then s'.(log := s.log + [End(r, true)])
    else if policy == Bit(Data) then s'.(log := s.log + [Bypass(r)])
    else CompleteSeq(s'.(live := s.live[r := NO_STEPS]), r, policy.Not(), true, now)
  }
}
