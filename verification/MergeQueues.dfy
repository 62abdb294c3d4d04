/** The loops of bfq-iosched.c that follow new_bfqq, and every run of the operations around them. */
module MergeQueues {
  import opened Options
  import opened Links
  import opened MergeForest

  /** The nodes from x on: what a walk along the pointers has still to visit. */
  ghost function Ahead(next: seq<Option<nat>>, x: nat): set<nat> {
    set q | 0 <= q < |next| && Under(next, x, q)
  }

  lemma AheadShrinks(next: seq<Option<nat>>, x: nat)
    requires Forest(next) && x < |next| && next[x].Some?
    ensures next[x].value < |next| && Ahead(next, next[x].value) < Ahead(next, x)
  {
    var rank :| Ranked(next, rank);
    UnderSelf(next, x);
    NoReturn(next, x);
    assert x in Ahead(next, x) && x !in Ahead(next, next[x].value);
    forall q | q in Ahead(next, next[x].value) ensures q in Ahead(next, x) { UnderStep(next, x, q); }
  }

  /** The candidate c can take b over. */
  ghost predicate Mergeable(s: State, b: nat, c: Option<nat>)
    requires b < |s.refs| == |s.next|
  {
    && c.Some? && c.value < |s.refs| && c.value != b
    && s.refs[c.value] > 0 && s.refs[b] > 0 && !Under(s.next, c.value, b)
  }

  class Queues {
    var next: seq<Option<nat>>
    var refs: seq<nat>
    var procs: seq<Option<nat>>

    ghost function Model(): State
      reads this
    {
      State(next, refs, procs)
    }

    constructor (processes: nat)
      ensures Inv(Model()) && next == [] && |procs| == processes
    {
      next, refs := [], [];
      procs := seq(processes, p => None);
      new;
      assert Ranked(next, []);
    }

    /** bfq_get_queue for a process without a queue. */
    method GetQueue(p: nat)
      requires Inv(Model()) && p < |procs| && procs[p].None?
      modifies this
      ensures Inv(Model()) && Model() == Create(old(Model()), p)
    {
      CreateKeeps(Model(), p);
      procs := procs[p := Some(|next|)];
      next := next + [None];
      refs := refs + [1];
    }

    /** The walk in bfq_setup_merge: to the end of the chain from n, unless it meets b. */
    method FollowChain(b: nat, n: nat) returns (t: Option<nat>)
      requires Inv(Model()) && b < |next| && n < |next| && n != b && next[b].None?
      ensures t.None? <==> Under(next, n, b)
      ensures t.Some? ==> t.value < |next| && t.value != b && next[t.value].None? && Under(next, n, t.value)
    {
      var x: nat := n;
      UnderSelf(next, n);
      while next[x].Some?
        invariant x < |next| && x != b && Under(next, n, x) && (Under(next, n, b) <==> Under(next, x, b))
        decreases Ahead(next, x)
      {
        AheadShrinks(next, x);
        UnderStep(next, x, b);
        UnderNext(next, x);
        UnderTrans(next, n, x, next[x].value);
        if next[x].value == b {
          UnderSelf(next, b);
          return None;
        }
        x := next[x].value;
      }
      UnderStep(next, x, b);
      return Some(x);
    }

    /** bfq_setup_merge, as bfq_setup_cooperator calls it: on a queue not yet redirected, with another one. */
    method SetupMerge(b: nat, n: nat) returns (t: Option<nat>)
      requires Inv(Model()) && b < |next| && n < |next| && n != b && next[b].None?
      modifies this
      ensures Inv(Model())
      ensures t.Some? <==> old(refs[n] > 0 && refs[b] > 0 && !Under(next, n, b))
      ensures t.None? ==> Model() == old(Model())
      ensures t.Some? ==>
                && t.value != b && t.value < |next| == |old(next)| && old(next)[t.value].None?
                && Under(old(next), n, t.value)
                && Model() == Redirect(old(Model()), b, t.value)
    {
      if refs[n] == 0 {
        return None;
      }
      t := FollowChain(b, n);
      if t.None? {
        return;
      }
      ChainIsAlive(Model(), n, t.value);
      if refs[b] == 0 || refs[t.value] == 0 {
        return None;
      }
      RedirectKeeps(Model(), b, t.value);
      next := next[b := t];
      refs := refs[t.value := refs[t.value] + refs[b]];
    }

    /**
    bfq_setup_cooperator. The heuristics are parameters: `enabled` that nothing forbids merging b at all,
    `served` and `close` the candidates that passed their tests, never the out-of-memory queue.
    */
    method SetupCooperator(b: nat, enabled: bool, search: bool, served: Option<nat>, close: Option<nat>)
      returns (t: Option<nat>)
      requires Inv(Model()) && b < |next|
      requires (served.Some? ==> served.value < |next|) && (close.Some? ==> close.value < |next|)
      modifies this
      ensures Inv(Model()) && (t.Some? ==> t.value < |next| && t.value != b && b < |next| && next[b] == t)
      ensures t.None? || old(next[b].Some?) ==> Model() == old(Model())
      ensures !enabled ==> t.None?
      ensures enabled && old(next[b].Some?) ==> t == old(next[b])
      ensures enabled && old(next[b].None?) ==>
                (t.Some? <==> search && (old(Mergeable(Model(), b, served)) || old(Mergeable(Model(), b, close))))
      ensures enabled && t.Some? && old(next[b].None?) ==>
                Under(old(next), if old(Mergeable(Model(), b, served)) then served.value else close.value, t.value)
    {
      if !enabled {
        return None;
      }
      if next[b].Some? {
        ghost var rank :| Ranked(next, rank);
        return next[b];
      }
      if !search {
        return None;
      }
      if served.Some? && served.value != b {
        t := SetupMerge(b, served.value);
        if t.Some? {
          return;
        }
      }
      if close.Some? && close.value != b {
        t := SetupMerge(b, close.value);
        return;
      }
      return None;
    }

    /** bfq_merge_bfqqs */
    method MoveOn(p: nat)
      requires Inv(Model()) && p < |procs| && procs[p].Some? && next[procs[p].value].Some?
      modifies this
      ensures Inv(Model()) && old(refs[procs[p].value]) >= 1
      ensures Model() == Move(old(Model()), p, old(procs[p].value))
    {
      var b := procs[p].value;
      MoveKeeps(Model(), p, b);
      procs := procs[p := next[b]];
      refs := refs[b := refs[b] - 1];
    }

    /** bfq_put_cooperator: one reference less on every queue after b. */
    method PutCooperator(b: nat)
      requires Forest(next) && |refs| == |next| && b < |next|
      requires forall q :: 0 <= q < |next| && Under(next, b, q) ==> refs[q] >= 1
      modifies this`refs
      ensures |refs| == |next|
      ensures forall q :: 0 <= q < |next| ==>
                refs[q] == old(refs)[q] - if q != b && Under(next, b, q) then 1 else 0
    {
      var x := next[b];
      if x.Some? {
        NoReturn(next, b);
        AheadShrinks(next, b);
      }
      forall q | 0 <= q < |next| ensures Under(next, b, q) <==> q == b || (x.Some? && Under(next, x.value, q)) {
        UnderStep(next, b, q);
      }
      while x.Some?
        invariant |refs| == |next| && (x.Some? ==> x.value < |next| && !Under(next, x.value, b))
        invariant x.Some? ==> forall q :: 0 <= q < |next| && Under(next, x.value, q) ==> Under(next, b, q)
        invariant forall q :: 0 <= q < |next| ==>
                    refs[q] == old(refs)[q]
                    - if q != b && Under(next, b, q) && !(x.Some? && Under(next, x.value, q)) then 1 else 0
        decreases if x.Some? then Ahead(next, x.value) else {}
      {
        UnderSelf(next, x.value);
        if x.value == b {
          break;
        }
        ghost var y := x.value;
        forall q | 0 <= q < |next|
          ensures Under(next, y, q) <==> q == y || (next[y].Some? && Under(next, next[y].value, q))
        {
          UnderStep(next, y, q);
        }
        UnderStep(next, y, b);
        if next[y].Some? {
          AheadShrinks(next, y);
          NoReturn(next, y);
        } else {
          assert y in Ahead(next, y);
        }
        refs := refs[x.value := refs[x.value] - 1];
        x := next[x.value];
      }
    }

    /** The end of a process, or its split from a shared queue. */
    method GiveUp(p: nat)
      requires Inv(Model()) && p < |procs| && procs[p].Some?
      modifies this
      ensures forall q :: 0 <= q < |old(refs)| && Under(old(next), old(procs[p].value), q) ==> old(refs)[q] >= 1
      ensures Inv(Model()) && Model() == Leave(old(Model()), p, old(procs[p].value))
    {
      var b := procs[p].value;
      LeaveKeeps(Model(), p, b);
      UnderSelf(next, b);
      PutCooperator(b);
      refs := refs[b := refs[b] - 1];
      procs := procs[p := None];
      assert refs == Leave(old(Model()), p, b).refs;
    }
  }

  // ----- runs -----

  datatype Action =
    | Gets(p: nat)
    | Merges(b: nat, t: nat)   // bfq_setup_merge redirects b to the end t of some chain
    | Moves(p: nat)
    | Leaves(p: nat)

  ghost predicate Enabled(s: State, a: Action) {
    match a
    case Gets(p) => p < |s.procs| && s.procs[p].None?
    case Merges(b, t) => b < |s.next| && t < |s.next| && b != t && s.next[b].None? && s.next[t].None?
    case Moves(p) => p < |s.procs| && s.procs[p].Some? && s.procs[p].value < |s.next| && s.next[s.procs[p].value].Some?
    case Leaves(p) => p < |s.procs| && s.procs[p].Some?
  }

  ghost function Apply(s: State, a: Action): State
    requires Inv(s) && Enabled(s, a)
  {
    match a
    case Gets(p) => Create(s, p)
    case Merges(b, t) => Redirect(s, b, t)
    case Moves(p) => MoveKeeps(s, p, s.procs[p].value); Move(s, p, s.procs[p].value)
    case Leaves(p) => LeaveKeeps(s, p, s.procs[p].value); Leave(s, p, s.procs[p].value)
  }

  lemma StepKeeps(s: State, a: Action)
    requires Inv(s) && Enabled(s, a)
    ensures Inv(Apply(s, a))
  {
    match a {
      case Gets(p) => CreateKeeps(s, p);
      case Merges(b, t) => RedirectKeeps(s, b, t);
      case Moves(p) => MoveKeeps(s, p, s.procs[p].value);
      case Leaves(p) => LeaveKeeps(s, p, s.procs[p].value);
    }
  }

  ghost function After(s: State, run: seq<Action>): State
    requires Inv(s)
    decreases |run|
  {
    if run == [] then s
    else if Enabled(s, run[0]) then StepKeeps(s, run[0]); After(Apply(s, run[0]), run[1..])
    else After(s, run[1..])
  }

  /**
  Over every run the redirections form a forest, and a queue that a process still leads to is never
  without references, so following new_bfqq from the queue of a process is always safe.
  */
  lemma {:induction false} EveryRun(s: State, run: seq<Action>, p: nat, q: nat)
    requires Inv(s)
    ensures var r := After(s, run);
            && Forest(r.next)
            && (p < |r.procs| && r.procs[p].Some? && Under(r.next, r.procs[p].value, q) ==>
                  q < |r.next| == |r.refs| && r.refs[q] >= 1)
    decreases |run|
  {
    if run == [] {
      if p < |s.procs| && s.procs[p].Some? && Under(s.next, s.procs[p].value, q) { OwnQueueHeld(s, p, q); }
    } else if Enabled(s, run[0]) {
      StepKeeps(s, run[0]);
      EveryRun(Apply(s, run[0]), run[1..], p, q);
    } else {
      EveryRun(s, run[1..], p, q);
    }
  }
}
