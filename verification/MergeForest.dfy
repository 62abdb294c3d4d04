/**
Queue merging in BFQ. A queue scheduled to merge points to another through new_bfqq; each process has at
most one queue and holds a reference on it and on every queue further along the pointers. refs[q] is
bfqq_process_refs(q). A queue without process references may be freed at any moment.
*/
module MergeForest {
  import opened Options
  import opened Links

  datatype State = State(next: seq<Option<nat>>, refs: seq<nat>, procs: seq<Option<nat>>)

  // ----- the operations on values -----

  /** bfq_get_queue for a process without a queue. */
  function Create(s: State, p: nat): State
    requires p < |s.procs|
  {
    State(s.next + [None], s.refs + [1], s.procs[p := Some(|s.next|)])
  }

  /** The end of bfq_setup_merge: b is redirected to t, which gets b's process references. */
  function Redirect(s: State, b: nat, t: nat): State
    requires b < |s.next| == |s.refs| && t < |s.next|
  {
    s.(next := s.next[b := Some(t)], refs := s.refs[t := s.refs[t] + s.refs[b]])
  }

  /** bfq_merge_bfqqs: the process moves on to the queue its own points to. */
  function Move(s: State, p: nat, b: nat): State
    requires p < |s.procs| && b < |s.next| == |s.refs| && s.refs[b] >= 1
  {
    s.(procs := s.procs[p := s.next[b]], refs := s.refs[b := s.refs[b] - 1])
  }

  /** A process gives up its queue b: bfq_put_cooperator, then the reference on b itself. */
  ghost function Leave(s: State, p: nat, b: nat): State
    requires p < |s.procs| && |s.next| == |s.refs|
    requires forall q :: 0 <= q < |s.refs| && Under(s.next, b, q) ==> s.refs[q] >= 1
  {
    s.(procs := s.procs[p := None],
       refs := seq(|s.refs|, q requires 0 <= q < |s.refs| =>
                     if Under(s.next, b, q) then s.refs[q] - 1 else s.refs[q]))
  }

  // ----- the invariant -----

  ghost function Holds(o: Option<nat>, next: seq<Option<nat>>, q: nat): nat {
    if o.Some? && Under(next, o.value, q) then 1 else 0
  }

  /** How many processes have a queue that leads to q. */
  ghost function Holders(procs: seq<Option<nat>>, next: seq<Option<nat>>, q: nat): nat {
    if procs == [] then 0 else Holders(procs[..|procs| - 1], next, q) + Holds(procs[|procs| - 1], next, q)
  }

  ghost predicate Inv(s: State) {
    && Forest(s.next) && |s.refs| == |s.next|
    && (forall p :: 0 <= p < |s.procs| && s.procs[p].Some? ==> s.procs[p].value < |s.next|)
    && (forall q :: 0 <= q < |s.next| ==> s.refs[q] == Holders(s.procs, s.next, q))
  }

  lemma {:induction false} HoldersSet(procs: seq<Option<nat>>, next: seq<Option<nat>>, q: nat, p: nat, o: Option<nat>)
    requires p < |procs|
    ensures Holders(procs[p := o], next, q) == Holders(procs, next, q) - Holds(procs[p], next, q) + Holds(o, next, q)
  {
    var n := |procs| - 1;
    if p == n {
      assert procs[p := o][..n] == procs[..n];
    } else {
      assert procs[p := o][..n] == procs[..n][p := o];
      HoldersSet(procs[..n], next, q, p, o);
    }
  }

  lemma {:induction false} HoldersAtLeast(procs: seq<Option<nat>>, next: seq<Option<nat>>, q: nat, p: nat)
    requires p < |procs|
    ensures Holders(procs, next, q) >= Holds(procs[p], next, q)
  {
    var n := |procs| - 1;
    if p < n { HoldersAtLeast(procs[..n], next, q, p); }
  }

  /** If whoever holds one queue holds another, the other has at least as many holders. */
  lemma {:induction false} HoldersMore(procs: seq<Option<nat>>, next: seq<Option<nat>>, q: nat, r: nat)
    requires Under(next, q, r)
    ensures Holders(procs, next, q) <= Holders(procs, next, r)
  {
    if procs != [] {
      var o := procs[|procs| - 1];
      HoldersMore(procs[..|procs| - 1], next, q, r);
      if o.Some? && Under(next, o.value, q) { UnderTrans(next, o.value, q, r); }
    }
  }

  /**
  The walk along new_bfqq is safe from a queue with process references: no queue it reaches has fewer,
  so none of them can have been freed.
  */
  lemma ChainIsAlive(s: State, q: nat, r: nat)
    requires Inv(s) && q < |s.next| && Under(s.next, q, r)
    ensures r < |s.next| && s.refs[r] >= s.refs[q]
  {
    var k: nat :| Up(s.next, q, k) == Some(r);
    HoldersMore(s.procs, s.next, q, r);
  }

  // ----- steps keep it -----

  lemma {:induction false} HoldersGrow(procs: seq<Option<nat>>, next: seq<Option<nat>>, q: nat)
    requires forall p :: 0 <= p < |procs| && procs[p].Some? ==> procs[p].value < |next|
    requires Forest(next)
    ensures Holders(procs, next + [None], q) == if q == |next| then 0 else Holders(procs, next, q)
  {
    if procs != [] {
      var o := procs[|procs| - 1];
      HoldersGrow(procs[..|procs| - 1], next, q);
      if o.Some? { UnderGrow(next, o.value, q); }
    }
  }

  /** A new node changes no path. */
  lemma UnderGrow(next: seq<Option<nat>>, x: nat, q: nat)
    requires Forest(next) && x < |next|
    ensures Under(next + [None], x, q) <==> Under(next, x, q)
    ensures Under(next, x, q) ==> q < |next|
  {
    var now := next + [None];
    if Under(next, x, q) {
      var k: nat :| Up(next, x, k) == Some(q);
      UnderExtends(next, now, x, q);
    }
    if Under(now, x, q) {
      var k: nat :| Up(now, x, k) == Some(q);
      UpGrow(next, x, k);
    }
  }

  lemma {:induction false} UpGrow(next: seq<Option<nat>>, x: nat, k: nat)
    requires Forest(next) && x < |next|
    ensures Up(next + [None], x, k) == Up(next, x, k)
    decreases k
  {
    if k > 0 && next[x].Some? {
      var rank :| Ranked(next, rank);
      UpGrow(next, next[x].value, k - 1);
    }
  }

  lemma CreateKeeps(s: State, p: nat)
    requires Inv(s) && p < |s.procs| && s.procs[p].None?
    ensures Inv(Create(s, p))
  {
    var r, n := Create(s, p), |s.next|;
    ForestGrow(s.next);
    UnderSelf(r.next, n);
    forall q | 0 <= q < |r.next| ensures r.refs[q] == Holders(r.procs, r.next, q) {
      HoldersGrow(s.procs, s.next, q);
      HoldersSet(s.procs, r.next, q, p, Some(n));
      UnderStep(r.next, n, q);
    }
  }

  /** After a root b is redirected to another root t, what led to b leads to t as well; nothing else changes. */
  lemma UnderLink(next: seq<Option<nat>>, b: nat, t: nat, x: nat, q: nat)
    requires Forest(next) && b < |next| && t < |next| && next[b].None? && next[t].None? && b != t && x < |next|
    ensures var now := next[b := Some(t)];
            && (Under(now, x, q) <==> Under(next, x, q) || (q == t && Under(next, x, b)))
            && !(Under(next, x, b) && Under(next, x, t))
  {
    var now := next[b := Some(t)];
    UnderStep(next, t, b);
    UnderStep(next, b, t);
    ForestLink(next, b, t);
    if Under(next, x, q) { UnderExtends(next, now, x, q); }
    if Under(next, x, b) {
      UnderExtends(next, now, x, b);
      UnderNext(now, b);
      UnderTrans(now, x, b, t);
    }
    if Under(now, x, q) {
      var k: nat :| Up(now, x, k) == Some(q);
      UpLink(next, b, t, x, k);
    }
    if Under(next, x, b) && Under(next, x, t) {
      var k: nat :| Up(next, x, k) == Some(b);
      var m: nat :| Up(next, x, m) == Some(t);
      OneRoot(next, x, k, m);
    }
  }

  lemma {:induction false} UpLink(next: seq<Option<nat>>, b: nat, t: nat, x: nat, k: nat)
    requires Forest(next) && b < |next| && t < |next| && next[b].None? && next[t].None? && b != t
    requires Up(next[b := Some(t)], x, k).Some?
    ensures var q := Up(next[b := Some(t)], x, k).value; Under(next, x, q) || (q == t && Under(next, x, b))
    decreases k
  {
    var now := next[b := Some(t)];
    var q := Up(now, x, k).value;
    UnderSelf(next, x);
    if k > 0 {
      if x == b {
        UpLink(next, b, t, t, k - 1);
        UnderStep(next, t, q);
        UnderStep(next, t, b);
      } else {
        UpLink(next, b, t, next[x].value, k - 1);
        UnderStep(next, x, q);
        UnderStep(next, x, b);
      }
    }
  }

  /** A path ends in one root only. */
  lemma OneRoot(next: seq<Option<nat>>, x: nat, k: nat, m: nat)
    requires Up(next, x, k).Some? && Up(next, x, m).Some?
    requires next[Up(next, x, k).value].None? && next[Up(next, x, m).value].None?
    ensures Up(next, x, k) == Up(next, x, m)
  {
    if k < m {
      UpThen(next, x, k, m - k);
    } else if m < k {
      UpThen(next, x, m, k - m);
    }
  }

  lemma {:induction false} HoldersLink(procs: seq<Option<nat>>, next: seq<Option<nat>>, b: nat, t: nat, q: nat)
    requires Forest(next) && b < |next| && t < |next| && next[b].None? && next[t].None? && b != t
    requires forall p :: 0 <= p < |procs| && procs[p].Some? ==> procs[p].value < |next|
    ensures Holders(procs, next[b := Some(t)], q)
            == Holders(procs, next, q) + if q == t then Holders(procs, next, b) else 0
  {
    if procs != [] {
      var o := procs[|procs| - 1];
      HoldersLink(procs[..|procs| - 1], next, b, t, q);
      if o.Some? { UnderLink(next, b, t, o.value, q); }
    }
  }

  /** Redirecting a root to a different root keeps a forest and every reference count. */
  lemma RedirectKeeps(s: State, b: nat, t: nat)
    requires Inv(s) && b < |s.next| && t < |s.next| && s.next[b].None? && s.next[t].None? && b != t
    ensures Inv(Redirect(s, b, t))
  {
    UnderStep(s.next, t, b);
    ForestLink(s.next, b, t);
    forall q | 0 <= q < |s.next| ensures Redirect(s, b, t).refs[q] == Holders(s.procs, s.next[b := Some(t)], q) {
      HoldersLink(s.procs, s.next, b, t, q);
    }
  }

  lemma OwnQueueHeld(s: State, p: nat, q: nat)
    requires Inv(s) && p < |s.procs| && s.procs[p].Some? && Under(s.next, s.procs[p].value, q)
    ensures q < |s.next| && s.refs[q] >= 1
  {
    var k: nat :| Up(s.next, s.procs[p].value, k) == Some(q);
    HoldersAtLeast(s.procs, s.next, q, p);
  }

  lemma MoveKeeps(s: State, p: nat, b: nat)
    requires Inv(s) && p < |s.procs| && s.procs[p] == Some(b) && s.next[b].Some?
    ensures s.refs[b] >= 1 && Inv(Move(s, p, b))
  {
    UnderSelf(s.next, b);
    OwnQueueHeld(s, p, b);
    NoReturn(s.next, b);
    var rank :| Ranked(s.next, rank);
    forall q | 0 <= q < |s.next| ensures Move(s, p, b).refs[q] == Holders(Move(s, p, b).procs, s.next, q) {
      HoldersSet(s.procs, s.next, q, p, s.next[b]);
      UnderStep(s.next, b, q);
    }
  }

  /** What a process leaves is exactly what it held: no reference is left over and none is dropped twice. */
  lemma LeaveKeeps(s: State, p: nat, b: nat)
    requires Inv(s) && p < |s.procs| && s.procs[p] == Some(b)
    ensures forall q :: 0 <= q < |s.refs| && Under(s.next, b, q) ==> s.refs[q] >= 1
    ensures Inv(Leave(s, p, b))
  {
    forall q | 0 <= q < |s.refs| && Under(s.next, b, q) ensures s.refs[q] >= 1 { OwnQueueHeld(s, p, q); }
    forall q | 0 <= q < |s.next| ensures Leave(s, p, b).refs[q] == Holders(Leave(s, p, b).procs, s.next, q) {
      HoldersSet(s.procs, s.next, q, p, None);
    }
  }
}
