/**
generic_make_request: the recursion of stacked drivers turned into iteration over two on-stack lists.
A submission tree says what the drivers would do: which bios handling a bio makes its driver submit, and
for each bio whether it passes the checks and whether its queue can be entered.
*/
module MakeRequest {

  datatype Sub = Sub(id: nat, queue: nat, passes: bool, enters: bool, dying: bool, nowait: bool, children: seq<Sub>)

  datatype Event = Rejected(id: nat) | Handled(id: nat) | WouldBlock(id: nat) | Failed(id: nat)

  // ----- the recursive specification -----

  function Size(b: Sub): (n: nat)
    ensures n >= 1
  {
    1 + Total(b.children)
  }

  function Total(bs: seq<Sub>): nat {
    if bs == [] then 0 else Size(bs[0]) + Total(bs[1..])
  }

  /** The bios that pass the checks and are for queue q, or for another queue. */
  function Sorted(bs: seq<Sub>, q: nat, same: bool): (r: seq<Sub>)
    ensures Total(r) <= Total(bs)
  {
    if bs == [] then []
    else if bs[0].passes && (bs[0].queue == q) == same then
      var rest := Sorted(bs[1..], q, same);
      assert ([bs[0]] + rest)[1..] == rest;
      [bs[0]] + rest
    else Sorted(bs[1..], q, same)
  }

  /** The children that fail the checks are ended as soon as they are submitted. */
  function Rejections(bs: seq<Sub>): seq<Event> {
    if bs == [] then []
    else (if bs[0].passes then [] else [Rejected(bs[0].id)]) + Rejections(bs[1..])
  }

  function Refusal(b: Sub): Event {
    if !b.dying && b.nowait then WouldBlock(b.id) else Failed(b.id)
  }

  /** Handle the bio, then all its children for other queues in order, then all for its own queue in order. */
  function Visit(b: Sub): seq<Event>
    decreases Size(b), 0
  {
    if !b.enters then [Refusal(b)]
    else
      [Handled(b.id)] + Rejections(b.children)
      + VisitAll(Sorted(b.children, b.queue, false)) + VisitAll(Sorted(b.children, b.queue, true))
  }

  function VisitAll(bs: seq<Sub>): seq<Event>
    decreases Total(bs), 1
  {
    if bs == [] then [] else Visit(bs[0]) + VisitAll(bs[1..])
  }

  lemma VisitAllFirst(b: Sub, bs: seq<Sub>)
    ensures VisitAll([b] + bs) == Visit(b) + VisitAll(bs) && Total([b] + bs) == Size(b) + Total(bs)
  {
    assert ([b] + bs)[1..] == bs;
  }

  lemma {:induction false} VisitAllConcat(a: seq<Sub>, b: seq<Sub>)
    ensures VisitAll(a + b) == VisitAll(a) + VisitAll(b)
    decreases |a|
  {
    if a == [] {
      assert a + b == b;
    } else {
      assert (a + b)[1..] == a[1..] + b;
      VisitAllConcat(a[1..], b);
    }
  }

  lemma {:induction false} TotalConcat(a: seq<Sub>, b: seq<Sub>)
    ensures Total(a + b) == Total(a) + Total(b)
    decreases |a|
  {
    if a == [] {
      assert a + b == b;
    } else {
      assert (a + b)[1..] == a[1..] + b;
      TotalConcat(a[1..], b);
    }
  }

  // ----- every submitted bio exactly once -----

  function Ids(es: seq<Event>): seq<nat> {
    if es == [] then [] else [es[0].id] + Ids(es[1..])
  }

  /** All the bios that get submitted, in order of submission depth first. */
  function Submitted(b: Sub): seq<nat> {
    [b.id] + if b.passes && b.enters then SubmittedAll(b.children) else []
  }

  function SubmittedAll(bs: seq<Sub>): seq<nat> {
    if bs == [] then [] else Submitted(bs[0]) + SubmittedAll(bs[1..])
  }

  lemma {:induction false} IdsConcat(a: seq<Event>, b: seq<Event>)
    ensures Ids(a + b) == Ids(a) + Ids(b)
  {
    if a == [] {
      assert a + b == b;
    } else {
      assert (a + b)[1..] == a[1..] + b;
      IdsConcat(a[1..], b);
    }
  }

  function Count(es: seq<Event>): multiset<nat> {
    multiset(Ids(es))
  }

  lemma CountConcat(a: seq<Event>, b: seq<Event>)
    ensures Count(a + b) == Count(a) + Count(b)
  {
    IdsConcat(a, b);
  }

  lemma CountOne(e: Event)
    ensures Count([e]) == multiset{e.id}
  {
    assert Ids([e][1..]) == [];
    assert Ids([e]) == [e.id];
  }

  /** What becomes of the children in the end: rejected, or visited as those of another or of the same queue. */
  function OutcomeOf(rejected: seq<Event>, lower: seq<Sub>, same: seq<Sub>): multiset<nat> {
    Count(rejected) + Count(VisitAll(lower)) + Count(VisitAll(same))
  }

  function Outcome(bs: seq<Sub>, q: nat): multiset<nat> {
    OutcomeOf(Rejections(bs), Sorted(bs, q, false), Sorted(bs, q, true))
  }

  lemma OneMore(rejected: seq<Event>, lower: seq<Sub>, same: seq<Sub>, b: Sub)
    ensures OutcomeOf(rejected, [b] + lower, same) == Count(Visit(b)) + OutcomeOf(rejected, lower, same)
    ensures OutcomeOf(rejected, lower, [b] + same) == Count(Visit(b)) + OutcomeOf(rejected, lower, same)
  {
    VisitAllFirst(b, lower);
    VisitAllFirst(b, same);
    CountConcat(Visit(b), VisitAll(lower));
    CountConcat(Visit(b), VisitAll(same));
  }

  lemma FirstRejected(bs: seq<Sub>, q: nat)
    requires bs != [] && !bs[0].passes
    ensures Outcome(bs, q) == multiset{bs[0].id} + Outcome(bs[1..], q)
  {
    CountConcat([Rejected(bs[0].id)], Rejections(bs[1..]));
    CountOne(Rejected(bs[0].id));
  }

  lemma SortedFirst(bs: seq<Sub>, q: nat)
    requires bs != [] && bs[0].passes
    ensures Rejections(bs) == Rejections(bs[1..])
    ensures Sorted(bs, q, bs[0].queue == q) == [bs[0]] + Sorted(bs[1..], q, bs[0].queue == q)
    ensures Sorted(bs, q, bs[0].queue != q) == Sorted(bs[1..], q, bs[0].queue != q)
  {
  }

  lemma FirstVisited(bs: seq<Sub>, q: nat)
    requires bs != [] && bs[0].passes
    ensures Outcome(bs, q) == Count(Visit(bs[0])) + Outcome(bs[1..], q)
  {
    SortedFirst(bs, q);
    OneMore(Rejections(bs[1..]), Sorted(bs[1..], q, false), Sorted(bs[1..], q, true), bs[0]);
  }

  /** Splitting the children by queue and by checks loses none and doubles none. */
  lemma {:induction false} ChildrenOnce(bs: seq<Sub>, q: nat)
    ensures Outcome(bs, q) == multiset(SubmittedAll(bs))
    decreases Total(bs), 1
  {
    if bs != [] {
      ChildrenOnce(bs[1..], q);
      if bs[0].passes {
        ExactlyOnce(bs[0]);
        FirstVisited(bs, q);
      } else {
        FirstRejected(bs, q);
      }
    }
  }

  /** Every bio of the tree that gets submitted is handled, rejected or failed exactly once. */
  lemma {:induction false} ExactlyOnce(b: Sub)
    requires b.passes
    ensures Count(Visit(b)) == multiset(Submitted(b))
    decreases Size(b), 0
  {
    if b.enters {
      var lower, same := Sorted(b.children, b.queue, false), Sorted(b.children, b.queue, true);
      ChildrenOnce(b.children, b.queue);
      CountConcat([Handled(b.id)] + Rejections(b.children) + VisitAll(lower), VisitAll(same));
      CountConcat([Handled(b.id)] + Rejections(b.children), VisitAll(lower));
      CountConcat([Handled(b.id)], Rejections(b.children));
      CountOne(Handled(b.id));
    } else {
      CountOne(Refusal(b));
    }
  }

  // ----- what becomes of each bio -----

  /** Sub c is b or one of those its driver's handling leads to. */
  predicate Within(c: Sub, b: Sub)
    decreases b
  {
    c == b || exists k :: 0 <= k < |b.children| && Within(c, b.children[k])
  }

  /** The event tells what the bio's own checks and queue say. */
  predicate Deserves(e: Event, c: Sub) {
    && e.id == c.id
    && (e.Rejected? <==> !c.passes)
    && (e.Handled? <==> c.passes && c.enters)
    && (e.WouldBlock? <==> c.passes && !c.enters && c.nowait && !c.dying)
  }

  ghost predicate Deserved(e: Event, b: Sub) {
    exists c :: Within(c, b) && Deserves(e, c)
  }

  lemma {:induction false} DeservedBelow(e: Event, b: Sub, k: nat)
    requires k < |b.children| && Deserved(e, b.children[k])
    ensures Deserved(e, b)
  {
    var c :| Within(c, b.children[k]) && Deserves(e, c);
    assert Within(c, b);
  }

  lemma {:induction false} RejectionOf(bs: seq<Sub>, e: Event) returns (k: nat)
    requires e in Rejections(bs)
    ensures k < |bs| && !bs[k].passes && e == Rejected(bs[k].id)
  {
    if !bs[0].passes && e == Rejected(bs[0].id) {
      k := 0;
    } else {
      k := RejectionOf(bs[1..], e);
      k := k + 1;
    }
  }

  lemma {:induction false} SortedFrom(bs: seq<Sub>, q: nat, same: bool, c: Sub) returns (k: nat)
    requires c in Sorted(bs, q, same)
    ensures k < |bs| && bs[k] == c && c.passes
  {
    if c == bs[0] && bs[0].passes {
      k := 0;
    } else {
      k := SortedFrom(bs[1..], q, same, c);
      k := k + 1;
    }
  }

  lemma {:induction false} VisitedFrom(bs: seq<Sub>, e: Event) returns (c: Sub)
    requires e in VisitAll(bs)
    ensures c in bs && e in Visit(c)
  {
    if e in Visit(bs[0]) {
      c := bs[0];
    } else {
      c := VisitedFrom(bs[1..], e);
    }
  }

  /** Whatever happens is what some submitted bio's checks and queue call for. */
  lemma {:induction false} EventsDeserved(b: Sub, e: Event)
    requires b.passes && e in Visit(b)
    ensures Deserved(e, b)
    decreases b
  {
    if !b.enters || e == Handled(b.id) {
      assert Within(b, b) && Deserves(e, b);
    } else if e in Rejections(b.children) {
      var k := RejectionOf(b.children, e);
      assert Within(b.children[k], b.children[k]) && Deserves(e, b.children[k]);
      DeservedBelow(e, b, k);
    } else {
      var same := e !in VisitAll(Sorted(b.children, b.queue, false));
      var c := VisitedFrom(Sorted(b.children, b.queue, same), e);
      var k := SortedFrom(b.children, b.queue, same, c);
      EventsDeserved(b.children[k], e);
      DeservedBelow(e, b, k);
    }
  }

  // ----- in which order -----

  /** All of the first bio's events come before all of the second's. */
  ghost predicate Precedes(all: seq<Event>, first: seq<Event>, second: seq<Event>) {
    exists u, v, w :: all == u + first + v + second + w
  }

  /** Child i goes before child j: only it is for another queue, or they are alike and it was submitted first. */
  predicate GoesFirst(b: Sub, i: nat, j: nat)
    requires i < |b.children| && j < |b.children|
  {
    if (b.children[i].queue == b.queue) == (b.children[j].queue == b.queue) then i < j
    else b.children[i].queue != b.queue
  }

  lemma {:induction false} SortedSplit(bs: seq<Sub>, q: nat, i: nat) returns (u: seq<Sub>, v: seq<Sub>)
    requires i < |bs| && bs[i].passes
    ensures Sorted(bs, q, bs[i].queue == q) == u + [bs[i]] + v && v == Sorted(bs[i + 1..], q, bs[i].queue == q)
  {
    if i == 0 {
      u, v := [], Sorted(bs[1..], q, bs[0].queue == q);
    } else {
      u, v := SortedSplit(bs[1..], q, i - 1);
      assert bs[1..][i..] == bs[i + 1..];
      if bs[0].passes && (bs[0].queue == q) == (bs[i].queue == q) { u := [bs[0]] + u; }
    }
  }

  lemma VisitAllParts(u: seq<Sub>, b: Sub, v: seq<Sub>)
    ensures VisitAll(u + [b] + v) == VisitAll(u) + Visit(b) + VisitAll(v)
  {
    VisitAllConcat(u + [b], v);
    VisitAllConcat(u, [b]);
    VisitAllFirst(b, []);
    assert [b] + [] == [b] && Visit(b) + [] == Visit(b);
  }

  lemma Apart<T>(h: seq<T>, u: seq<T>, a: seq<T>, v: seq<T>, x: seq<T>, c: seq<T>, y: seq<T>)
    ensures h + (u + a + v) + (x + c + y) == (h + u) + a + (v + x) + c + y
  {
  }

  lemma Together<T>(h: seq<T>, u: seq<T>, a: seq<T>, x: seq<T>, c: seq<T>, y: seq<T>, s: seq<T>)
    ensures h + (u + a + (x + c + y)) + s == (h + u) + a + x + c + (y + s)
  {
  }

  /** The children alike i, with i among them. */
  lemma AmongAlike(b: Sub, i: nat) returns (u: seq<Event>, v: seq<Event>)
    requires i < |b.children| && b.children[i].passes
    ensures VisitAll(Sorted(b.children, b.queue, b.children[i].queue == b.queue)) == u + Visit(b.children[i]) + v
  {
    var us, vs := SortedSplit(b.children, b.queue, i);
    VisitAllParts(us, b.children[i], vs);
    u, v := VisitAll(us), VisitAll(vs);
  }

  lemma LowerBeforeSame(b: Sub, i: nat, j: nat)
    requires b.enters && i < |b.children| && j < |b.children| && b.children[i].passes && b.children[j].passes
    requires b.children[i].queue != b.queue && b.children[j].queue == b.queue
    ensures Precedes(Visit(b), Visit(b.children[i]), Visit(b.children[j]))
  {
    var u, v := AmongAlike(b, i);
    var x, y := AmongAlike(b, j);
    var head, first, second := [Handled(b.id)] + Rejections(b.children), Visit(b.children[i]), Visit(b.children[j]);
    Apart(head, u, first, v, x, second, y);
    assert Visit(b) == head + (u + first + v) + (x + second + y);
  }

  /** The children alike i, with i and j among them. */
  lemma AlikeParts(b: Sub, i: nat, j: nat) returns (u: seq<Event>, x: seq<Event>, y: seq<Event>)
    requires i < j < |b.children| && b.children[i].passes && b.children[j].passes
    requires (b.children[i].queue == b.queue) == (b.children[j].queue == b.queue)
    ensures VisitAll(Sorted(b.children, b.queue, b.children[i].queue == b.queue))
            == u + Visit(b.children[i]) + (x + Visit(b.children[j]) + y)
  {
    var us, v := SortedSplit(b.children, b.queue, i);
    var xs, ys := SortedSplit(b.children[i + 1..], b.queue, j - i - 1);
    VisitAllParts(us, b.children[i], v);
    VisitAllParts(xs, b.children[j], ys);
    u, x, y := VisitAll(us), VisitAll(xs), VisitAll(ys);
  }

  lemma AlikeInOrder(b: Sub, i: nat, j: nat)
    requires b.enters && i < j < |b.children| && b.children[i].passes && b.children[j].passes
    requires (b.children[i].queue == b.queue) == (b.children[j].queue == b.queue)
    ensures Precedes(Visit(b), Visit(b.children[i]), Visit(b.children[j]))
  {
    var u, x, y := AlikeParts(b, i, j);
    var head, first, second := [Handled(b.id)] + Rejections(b.children), Visit(b.children[i]), Visit(b.children[j]);
    if b.children[i].queue == b.queue {
      Together(head + VisitAll(Sorted(b.children, b.queue, false)), u, first, x, second, y, []);
      assert Visit(b) == Visit(b) + [];
    } else {
      Together(head, u, first, x, second, y, VisitAll(Sorted(b.children, b.queue, true)));
    }
  }

  /** Everything a child leads to happens before anything the next one to go leads to. */
  lemma InOrder(b: Sub, i: nat, j: nat)
    requires b.enters && i < |b.children| && j < |b.children| && b.children[i].passes && b.children[j].passes
    requires GoesFirst(b, i, j)
    ensures Precedes(Visit(b), Visit(b.children[i]), Visit(b.children[j]))
  {
    if (b.children[i].queue == b.queue) == (b.children[j].queue == b.queue) {
      AlikeInOrder(b, i, j);
    } else {
      LowerBeforeSame(b, i, j);
    }
  }

  // ----- the loop -----

  class Task {
    var active: bool       // current->bio_list is set
    var newBios: seq<Sub>    // bio_list_on_stack[0]
    var waiting: seq<Sub>  // bio_list_on_stack[1]
    var trace: seq<Event>

    constructor ()
      ensures !active && trace == []
    {
      active, newBios, waiting, trace := false, [], [], [];
    }

    /** make_request_fn of a driver: submits the children, one after the other. */
    method Drive(b: Sub)
      requires active
      modifies this
      ensures active && waiting == old(waiting)
      ensures trace == old(trace) + [Handled(b.id)] + Rejections(b.children)
      ensures newBios == old(newBios) + Passing(b.children)
      decreases 1, 0
    {
      trace := trace + [Handled(b.id)];
      var n := 0;
      while n < |b.children|
        invariant n <= |b.children| && active && waiting == old(waiting)
        invariant trace + Rejections(b.children[n..]) == old(trace) + [Handled(b.id)] + Rejections(b.children)
        invariant newBios + Passing(b.children[n..]) == old(newBios) + Passing(b.children)
        decreases |b.children| - n
      {
        assert b.children[n..][1..] == b.children[n + 1..];
        Submit(b.children[n]);
        n := n + 1;
      }
    }

    /** The inner loop: sorts the new bios into those for other queues and those for this one. */
    method SortNew(q: nat) returns (lower: seq<Sub>, same: seq<Sub>)
      requires forall b :: b in newBios ==> b.passes
      modifies this`newBios
      ensures lower == Sorted(old(newBios), q, false) && same == Sorted(old(newBios), q, true) && newBios == []
    {
      lower, same := [], [];
      while newBios != []
        invariant forall b :: b in newBios ==> b.passes
        invariant lower + Sorted(newBios, q, false) == Sorted(old(newBios), q, false)
        invariant same + Sorted(newBios, q, true) == Sorted(old(newBios), q, true)
        decreases |newBios|
      {
        var b := newBios[0];
        newBios := newBios[1..];
        if b.queue == q {
          same := same + [b];
        } else {
          lower := lower + [b];
        }
      }
    }

    /** generic_make_request: called again while it is active, it only queues the bio. */
    method Submit(root: Sub)
      modifies this
      ensures old(active) ==>
                && active && waiting == old(waiting)
                && trace == old(trace) + (if root.passes then [] else [Rejected(root.id)])
                && newBios == old(newBios) + (if root.passes then [root] else [])
      ensures !old(active) ==>
                && !active
                && trace == old(trace) + if root.passes then Visit(root) else [Rejected(root.id)]
      decreases if active then 0 else 2, 0
    {
      if !root.passes {
        trace := trace + [Rejected(root.id)];
        return;
      }
      if active {
        newBios := newBios + [root];
        return;
      }
      newBios, active := [], true;
      var b := root;
      assert VisitAll([root]) == Visit(root);
      while true
        invariant active && b.passes && forall c :: c in newBios ==> c.passes
        invariant trace + VisitAll([b] + newBios) == old(trace) + Visit(root)
        decreases Total([b] + newBios)
      {
        HandleOne(b);
        if newBios == [] {
          break;
        }
        assert newBios == [newBios[0]] + newBios[1..];
        b, newBios := newBios[0], newBios[1..];
      }
      active := false;
    }

    /** The branch of the outer loop in which the queue is entered. */
    method Enter(b: Sub)
      requires active && b.enters && forall c :: c in newBios ==> c.passes
      modifies this
      ensures active && forall c :: c in newBios ==> c.passes
      ensures trace == old(trace) + [Handled(b.id)] + Rejections(b.children)
      ensures newBios == Sorted(b.children, b.queue, false) + Sorted(b.children, b.queue, true) + old(newBios)
      decreases 1, 1
    {
      waiting := newBios;
      newBios := [];
      Drive(b);
      assert newBios == Passing(b.children);
      PassingSorted(b.children, b.queue);
      var lower, same := SortNew(b.queue);
      newBios := lower + same + waiting;
    }

    /** The body of the outer loop up to the next pop. */
    method HandleOne(b: Sub)
      requires active && b.passes && forall c :: c in newBios ==> c.passes
      modifies this
      ensures active && forall c :: c in newBios ==> c.passes
      ensures trace + VisitAll(newBios) == old(trace + VisitAll([b] + newBios))
      ensures Total(newBios) < old(Total([b] + newBios))
      decreases 1, 2
    {
      VisitAllFirst(b, newBios);
      if b.enters {
        Expands(b, Sorted(b.children, b.queue, false), Sorted(b.children, b.queue, true), newBios);
        Enter(b);
        Regroup(old(trace), [Handled(b.id)], Rejections(b.children), VisitAll(newBios));
      } else {
        trace := trace + [Refusal(b)];
      }
    }
  }

  /** The children that reach the list. */
  function Passing(bs: seq<Sub>): seq<Sub> {
    if bs == [] then [] else (if bs[0].passes then [bs[0]] else []) + Passing(bs[1..])
  }

  lemma Regroup<T>(head: seq<T>, a: seq<T>, b: seq<T>, c: seq<T>)
    ensures head + (a + b + c) == head + a + b + c
  {
  }

  /** What is left to do after a bio has been handled is what was left before, less that bio. */
  lemma Expands(b: Sub, lower: seq<Sub>, same: seq<Sub>, waiting: seq<Sub>)
    requires b.enters && lower == Sorted(b.children, b.queue, false) && same == Sorted(b.children, b.queue, true)
    ensures [Handled(b.id)] + Rejections(b.children) + VisitAll(lower + same + waiting) == VisitAll([b] + waiting)
    ensures Total(lower + same + waiting) < Total([b] + waiting)
  {
    VisitAllFirst(b, waiting);
    VisitAllConcat(lower + same, waiting);
    VisitAllConcat(lower, same);
    Regroup([Handled(b.id)] + Rejections(b.children), VisitAll(lower), VisitAll(same), VisitAll(waiting));
    TotalConcat(lower + same, waiting);
    TotalConcat(lower, same);
    SortedTotal(b.children, b.queue);
  }

  /** Sorting what reached the list is sorting the children. */
  lemma {:induction false} PassingSorted(bs: seq<Sub>, q: nat)
    ensures forall b :: b in Passing(bs) ==> b.passes
    ensures Sorted(Passing(bs), q, false) == Sorted(bs, q, false)
    ensures Sorted(Passing(bs), q, true) == Sorted(bs, q, true)
    ensures forall b :: b in Sorted(bs, q, false) || b in Sorted(bs, q, true) ==> b.passes
  {
    if bs != [] {
      PassingSorted(bs[1..], q);
      if bs[0].passes {
        assert Passing(bs) == [bs[0]] + Passing(bs[1..]);
        assert Passing(bs)[1..] == Passing(bs[1..]);
      } else {
        assert Passing(bs) == Passing(bs[1..]);
      }
    }
  }

  lemma {:induction false} SortedTotal(bs: seq<Sub>, q: nat)
    ensures Total(Sorted(bs, q, false)) + Total(Sorted(bs, q, true)) <= Total(bs)
  {
    if bs != [] {
      SortedTotal(bs[1..], q);
      var mine := Sorted(bs[1..], q, bs[0].queue == q);
      assert ([bs[0]] + mine)[1..] == mine;
    }
  }
}
