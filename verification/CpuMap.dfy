/**
blk_mq_map_queues: which hardware queue each possible CPU uses. CPUs take turns, the present ones first;
when every queue has been given out, a CPU uses the queue of the first CPU of its core instead.
*/
module CpuMap {

  /** CPU numbers below |first|; first[c] is the first CPU of c's core, c itself if that is not known. */
  ghost predicate TopologyOk(possible: set<nat>, present: set<nat>, first: seq<nat>) {
    && present <= possible && (forall c :: c in possible ==> c < |first|)
    && (forall c: nat {:trigger CoreOk(possible, first, c)} :: c in possible ==> CoreOk(possible, first, c))
  }

  ghost predicate CoreOk(possible: set<nat>, first: seq<nat>, c: nat) {
    c < |first| && first[c] <= c && first[c] in possible
  }

  ghost predicate Distinct(turns: seq<nat>) {
    forall i, j :: 0 <= i < j < |turns| ==> turns[i] != turns[j]
  }

  /** queue_index */
  function Index(offset: nat, queues: nat, q: nat): nat
    requires queues >= 1
  {
    offset + q % queues
  }

  /** The k-th CPU to take a turn has the k-th queue, going round. */
  ghost predicate Taken(m: seq<int>, possible: set<nat>, queues: nat, offset: nat, turns: seq<nat>)
    requires queues >= 1
  {
    && Distinct(turns)
    && (forall k :: 0 <= k < |turns| ==>
          turns[k] in possible && turns[k] < |m| && m[turns[k]] == Index(offset, queues, k))
  }

  /** CPU c shares with an earlier CPU of its core, which happens only when all queues are given out. */
  ghost predicate Shares(m: seq<int>, possible: set<nat>, first: seq<nat>, queues: nat, turns: seq<nat>, c: nat)
    requires |m| == |first|
  {
    c < |m| && first[c] < c && first[c] in possible && m[c] == m[first[c]] && |turns| >= queues
  }

  /** Every possible CPU took a turn or shares. */
  ghost predicate Mapped(m: seq<int>, possible: set<nat>, first: seq<nat>, queues: nat, offset: nat, turns: seq<nat>)
    requires queues >= 1 && |m| == |first|
  {
    && Taken(m, possible, queues, offset, turns)
    && (forall c: nat {:trigger Shares(m, possible, first, queues, turns, c)} ::
          c in possible && c !in turns ==> Shares(m, possible, first, queues, turns, c))
  }

  /** The present CPUs take the first turns: all of them, or as many as there are queues. */
  ghost predicate PresentFirst(present: set<nat>, queues: nat, turns: seq<nat>) {
    exists p :: 0 <= p <= |turns| && p <= queues && EarlyTurns(present, queues, turns, p)
  }

  ghost predicate EarlyTurns(present: set<nat>, queues: nat, turns: seq<nat>, p: nat)
    requires p <= |turns|
  {
    && (forall c :: c in turns[..p] ==> c in present)
    && (p == queues || forall c :: c in present ==> c in turns[..p])
  }

  // ----- what it means -----

  /** Every possible CPU has a queue of the window. */
  lemma {:induction false} InWindow(m: seq<int>, possible: set<nat>, first: seq<nat>, queues: nat, offset: nat,
                                    turns: seq<nat>, c: nat)
    requires queues >= 1 && |m| == |first| && Mapped(m, possible, first, queues, offset, turns) && c in possible
    ensures c < |m| && offset <= m[c] < offset + queues
    decreases c
  {
    if c in turns {
      var k :| 0 <= k < |turns| && turns[k] == c;
      assert m[turns[k]] == Index(offset, queues, k);
    } else {
      assert Shares(m, possible, first, queues, turns, c);
      InWindow(m, possible, first, queues, offset, turns, first[c]);
    }
  }

  lemma {:induction false} DistinctSize(turns: seq<nat>, s: set<nat>)
    requires Distinct(turns) && forall c :: c in turns ==> c in s
    ensures |turns| <= |s|
    ensures |turns| == |s| ==> forall c :: c in s ==> c in turns
  {
    if turns != [] {
      var n := |turns| - 1;
      var rest := turns[..n];
      assert forall c :: c in rest ==> c in s - {turns[n]} by {
        forall c | c in rest ensures c in s - {turns[n]} {
          var i :| 0 <= i < n && rest[i] == c;
          assert turns[i] != turns[n];
        }
      }
      DistinctSize(rest, s - {turns[n]});
      if |turns| == |s| {
        forall c | c in s ensures c in turns { assert c == turns[n] || c in rest; }
      }
    } else if |s| == 0 {
      assert s == {};
    }
  }

  /** With at least as many CPUs as queues, every queue is used. */
  lemma Onto(m: seq<int>, possible: set<nat>, first: seq<nat>, queues: nat, offset: nat, turns: seq<nat>, q: nat)
    requires queues >= 1 && |m| == |first| && Mapped(m, possible, first, queues, offset, turns)
    requires |possible| >= queues && q < queues
    ensures exists c :: c in possible && c < |m| && m[c] == offset + q
  {
    if |turns| < queues {
      forall c | c in possible ensures c in Members(turns) {
        assert c !in turns ==> Shares(m, possible, first, queues, turns, c);
      }
      SubsetSize(possible, Members(turns));
      MembersSize(turns);
    }
    var c := turns[q];
    ModSmall(q, queues);
    assert c in turns;
  }

  ghost function Members(turns: seq<nat>): set<nat> {
    set c | c in turns
  }

  lemma {:induction false} MembersSize(turns: seq<nat>)
    ensures |Members(turns)| <= |turns|
  {
    if turns == [] {
      assert Members(turns) == {};
    } else {
      var n := |turns| - 1;
      MembersSize(turns[..n]);
      assert Members(turns) == Members(turns[..n]) + {turns[n]};
    }
  }

  lemma SubsetSize(a: set<nat>, b: set<nat>)
    requires a <= b
    ensures |a| <= |b|
  {
    assert b == a + (b - a);
  }

  lemma ModSmall(i: nat, n: nat)
    requires i < n
    ensures i % n == i
  {
  }

  /** The first turns go to different queues. */
  lemma FirstRound(m: seq<int>, possible: set<nat>, first: seq<nat>, queues: nat, offset: nat, turns: seq<nat>,
                   i: nat, j: nat)
    requires queues >= 1 && |m| == |first| && Mapped(m, possible, first, queues, offset, turns)
    requires i < |turns| && j < |turns| && i < queues && j < queues && i != j
    ensures m[turns[i]] != m[turns[j]]
  {
    assert Index(offset, queues, i) == offset + i by { ModSmall(i, queues); }
    assert Index(offset, queues, j) == offset + j by { ModSmall(j, queues); }
  }

  /** With no more CPUs than queues, no two share one. */
  lemma OneToOne(m: seq<int>, possible: set<nat>, first: seq<nat>, queues: nat, offset: nat, turns: seq<nat>,
                 a: nat, b: nat)
    requires queues >= 1 && |m| == |first| && Mapped(m, possible, first, queues, offset, turns)
    requires |possible| <= queues && a in possible && b in possible && a != b
    ensures a < |m| && b < |m| && m[a] != m[b]
  {
    DistinctSize(turns, possible);
    assert a !in turns ==> Shares(m, possible, first, queues, turns, a);
    assert b !in turns ==> Shares(m, possible, first, queues, turns, b);
    var i :| 0 <= i < |turns| && turns[i] == a;
    var j :| 0 <= j < |turns| && turns[j] == b;
    FirstRound(m, possible, first, queues, offset, turns, i, j);
  }

  /** With no more present CPUs than queues, no two present ones share, however many CPUs are possible. */
  lemma PresentOneToOne(m: seq<int>, possible: set<nat>, present: set<nat>, first: seq<nat>, queues: nat, offset: nat,
                        turns: seq<nat>, a: nat, b: nat)
    requires queues >= 1 && |m| == |first| && Mapped(m, possible, first, queues, offset, turns)
    requires PresentFirst(present, queues, turns) && |present| <= queues && a in present && b in present && a != b
    ensures a < |m| && b < |m| && m[a] != m[b]
  {
    var p :| 0 <= p <= |turns| && p <= queues && EarlyTurns(present, queues, turns, p);
    var early := turns[..p];
    assert Distinct(early) by {
      forall i, j | 0 <= i < j < |early| ensures early[i] != early[j] { assert turns[i] != turns[j]; }
    }
    DistinctSize(early, present);
    var i :| 0 <= i < p && early[i] == a;
    var j :| 0 <= j < p && early[j] == b;
    assert turns[i] == a && turns[j] == b;
    FirstRound(m, possible, first, queues, offset, turns, i, j);
  }

  // ----- the loops -----

  /** From CPU `from` on, exactly the possible CPUs that took no turn have no queue yet. */
  ghost predicate Unset(m: seq<int>, possible: set<nat>, turns: seq<nat>, from: nat) {
    forall c :: c in possible && from <= c < |m| ==> (m[c] == -1 <==> c !in turns)
  }

  /** CPU cpu takes the next turn. */
  method Turn(map_: array<int>, ghost possible: set<nat>, queues: nat, offset: nat, q: nat, ghost turns: seq<nat>,
              cpu: nat, ghost from: nat)
    requires queues >= 1 && q == |turns| && cpu in possible && cpu < map_.Length && cpu !in turns
    requires Taken(map_[..], possible, queues, offset, turns) && Unset(map_[..], possible, turns, from)
    modifies map_
    ensures map_[..] == old(map_[..])[cpu := Index(offset, queues, q)]
    ensures Taken(map_[..], possible, queues, offset, turns + [cpu]) && Unset(map_[..], possible, turns + [cpu], from)
  {
    TakeTurn(map_[..], possible, queues, offset, turns, cpu, from);
    map_[cpu] := Index(offset, queues, q);
    assert map_[..] == old(map_[..])[cpu := Index(offset, queues, q)];
  }

  /** The first loop after the map has been cleared: present CPUs take turns while there are queues. */
  method SpreadPresent(map_: array<int>, possible: set<nat>, present: set<nat>, first: seq<nat>,
                       queues: nat, offset: nat)
    returns (q: nat, ghost turns: seq<nat>)
    requires queues >= 1 && map_.Length == |first| && TopologyOk(possible, present, first)
    requires forall c :: c in possible ==> map_[c] == -1
    modifies map_
    ensures q == |turns| <= queues && Taken(map_[..], possible, queues, offset, turns)
    ensures Unset(map_[..], possible, turns, 0) && EarlyTurns(present, queues, turns, q)
  {
    q, turns := 0, [];
    var cpu := 0;
    while cpu < |first|
      invariant cpu <= |first| && q == |turns| <= queues && Taken(map_[..], possible, queues, offset, turns)
      invariant Unset(map_[..], possible, turns, 0)
      invariant forall c :: c in turns ==> c in present && c < cpu
      invariant q < queues ==> forall c :: c in present && c < cpu ==> c in turns
    {
      if cpu in present {
        if q >= queues {
          break;
        }
        Turn(map_, possible, queues, offset, q, turns, cpu, 0);
        turns := turns + [cpu];
        q := q + 1;
      }
      cpu := cpu + 1;
    }
    assert turns[..q] == turns;
  }

  lemma TakeTurn(m: seq<int>, possible: set<nat>, queues: nat, offset: nat, turns: seq<nat>, cpu: nat, from: nat)
    requires queues >= 1 && Taken(m, possible, queues, offset, turns) && Unset(m, possible, turns, from)
    requires cpu in possible && cpu < |m| && cpu !in turns
    ensures var m' := m[cpu := Index(offset, queues, |turns|)];
            Taken(m', possible, queues, offset, turns + [cpu]) && Unset(m', possible, turns + [cpu], from)
  {
  }

  /** Everything below cpu is settled. */
  ghost predicate Settled(m: seq<int>, possible: set<nat>, first: seq<nat>, queues: nat, turns: seq<nat>, cpu: nat)
    requires |m| == |first|
  {
    forall c: nat {:trigger Shares(m, possible, first, queues, turns, c)} ::
      c in possible && c < cpu && c !in turns ==> Shares(m, possible, first, queues, turns, c)
  }

  lemma SettleTurn(m: seq<int>, possible: set<nat>, first: seq<nat>, queues: nat, offset: nat, turns: seq<nat>,
                   cpu: nat)
    requires queues >= 1 && |m| == |first| && Settled(m, possible, first, queues, turns, cpu)
    requires cpu in possible && cpu < |m| && cpu !in turns
    ensures Settled(m[cpu := Index(offset, queues, |turns|)], possible, first, queues, turns + [cpu], cpu + 1)
  {
    var m' := m[cpu := Index(offset, queues, |turns|)];
    forall c | c in possible && c < cpu + 1 && c !in turns + [cpu]
      ensures Shares(m', possible, first, queues, turns + [cpu], c)
    {
      assert Shares(m, possible, first, queues, turns, c);
    }
  }

  lemma SettleShare(m: seq<int>, possible: set<nat>, first: seq<nat>, queues: nat, offset: nat, turns: seq<nat>,
                    cpu: nat)
    requires queues >= 1 && |m| == |first| && Settled(m, possible, first, queues, turns, cpu)
    requires Taken(m, possible, queues, offset, turns) && Unset(m, possible, turns, cpu)
    requires cpu in possible && cpu < |m| && cpu !in turns && |turns| >= queues
    requires first[cpu] < cpu && first[cpu] in possible
    ensures var m' := m[cpu := m[first[cpu]]];
            && Settled(m', possible, first, queues, turns, cpu + 1) && Taken(m', possible, queues, offset, turns)
            && Unset(m', possible, turns, cpu + 1)
  {
    var m' := m[cpu := m[first[cpu]]];
    forall c | c in possible && c < cpu + 1 && c !in turns ensures Shares(m', possible, first, queues, turns, c) {
      if c < cpu { assert Shares(m, possible, first, queues, turns, c); }
    }
  }

  /** The second loop: every CPU without a queue takes a turn or shares. */
  method FillRest(map_: array<int>, possible: set<nat>, ghost present: set<nat>, first: seq<nat>, queues: nat,
                  offset: nat, q0: nat, ghost turns0: seq<nat>)
    returns (ghost turns: seq<nat>)
    requires queues >= 1 && map_.Length == |first| && TopologyOk(possible, present, first)
    requires q0 == |turns0| && Taken(map_[..], possible, queues, offset, turns0) && Unset(map_[..], possible, turns0, 0)
    modifies map_
    ensures Mapped(map_[..], possible, first, queues, offset, turns) && turns0 <= turns
  {
    var q, cpu := q0, 0;
    turns := turns0;
    while cpu < |first|
      invariant cpu <= |first| && q == |turns| && turns0 <= turns
      invariant Taken(map_[..], possible, queues, offset, turns) && Unset(map_[..], possible, turns, cpu)
      invariant Settled(map_[..], possible, first, queues, turns, cpu)
    {
      ghost var more: seq<nat>;
      q, more := FillOne(map_, possible, present, first, queues, offset, q, turns, cpu);
      turns := turns + more;
      cpu := cpu + 1;
    }
    assert Mapped(map_[..], possible, first, queues, offset, turns);
  }

  /** The body of the second loop. */
  method FillOne(map_: array<int>, possible: set<nat>, ghost present: set<nat>, first: seq<nat>, queues: nat,
                 offset: nat, q: nat, ghost turns: seq<nat>, cpu: nat)
    returns (q': nat, ghost more: seq<nat>)
    requires queues >= 1 && map_.Length == |first| && cpu < |first| && TopologyOk(possible, present, first)
    requires q == |turns| && Settled(map_[..], possible, first, queues, turns, cpu)
    requires Taken(map_[..], possible, queues, offset, turns) && Unset(map_[..], possible, turns, cpu)
    modifies map_
    ensures q' == |turns + more| && Settled(map_[..], possible, first, queues, turns + more, cpu + 1)
    ensures Taken(map_[..], possible, queues, offset, turns + more) && Unset(map_[..], possible, turns + more, cpu + 1)
  {
    ghost var m := map_[..];
    assert cpu in possible ==> CoreOk(possible, first, cpu);
    if cpu !in possible || map_[cpu] != -1 {
      q', more := q, [];
      assert turns + more == turns;
    } else if q < queues || first[cpu] == cpu {
      SettleTurn(m, possible, first, queues, offset, turns, cpu);
      Turn(map_, possible, queues, offset, q, turns, cpu, cpu);
      q', more := q + 1, [cpu];
    } else {
      SettleShare(m, possible, first, queues, offset, turns, cpu);
      map_[cpu] := map_[first[cpu]];
      assert map_[..] == m[cpu := m[first[cpu]]];
      q', more := q, [];
      assert turns + more == turns;
    }
  }

  /** blk_mq_map_queues */
  method MapQueues(map_: array<int>, possible: set<nat>, present: set<nat>, first: seq<nat>, queues: nat, offset: nat)
    returns (ghost turns: seq<nat>)
    requires queues >= 1 && map_.Length == |first| && TopologyOk(possible, present, first)
    modifies map_
    ensures Mapped(map_[..], possible, first, queues, offset, turns) && PresentFirst(present, queues, turns)
  {
    var cpu := 0;
    while cpu < |first|
      invariant cpu <= |first| && forall c :: c in possible && c < cpu ==> map_[c] == -1
    {
      if cpu in possible {
        map_[cpu] := -1;
      }
      cpu := cpu + 1;
    }
    ghost var early: seq<nat>;
    var q: nat;
    q, early := SpreadPresent(map_, possible, present, first, queues, offset);
    turns := FillRest(map_, possible, present, first, queues, offset, q, early);
    assert turns[..q] == early == early[..q];
    assert EarlyTurns(present, queues, turns, q);
  }
}
