/** What every step of every interleaving of completions keeps. */
module BioInvariant {
  import opened Options
  import Links
  import opened BioModel

  /** __bi_remaining counts the arrivals still to come, and an ended bio sees no more of them. */
  ghost predicate Counted(s: Bios, i: nat)
    requires i < |s.bios|
  {
    var b := s.bios[i];
    if b.ended then b.done && s.calls[i] == 0 && Open(s.bios, i) == 0
    else
      && b.remaining == Expected(s, i) >= 1
      && (!b.chained ==> b.remaining == 1 && Open(s.bios, i) == 0)
  }

  /** A failure shows in the bio's own status and, once it has ended, in its parent's. */
  ghost predicate Reported(s: Bios, i: nat)
    requires i < |s.bios|
  {
    var b := s.bios[i];
    && (b.done ==> b.submitted)
    && (b.failed ==> b.done && b.status != 0)
    && (b.parent.Some? && b.parent.value < |s.bios| && b.ended && b.status != 0 ==>
          s.bios[b.parent.value].status != 0)
  }

  /** A non-zero status is that of a failed bio at or below this one. */
  ghost predicate Blamed(s: Bios, i: nat)
    requires i < |s.bios|
  {
    s.bios[i].status != 0 ==> exists x :: 0 <= x < |s.bios| && Failed(s, x, s.bios[i].status) && Under(s.bios, x, i)
  }

  /** The bio failed with this error. */
  ghost predicate Failed(s: Bios, x: nat, error: int)
    requires x < |s.bios|
  {
    s.bios[x].failed && s.bios[x].status == error
  }

  ghost predicate Logged(s: Bios, i: nat)
    requires i < |s.bios|
  {
    multiset(s.log)[i] == if s.bios[i].ended then 1 else 0
  }

  ghost predicate Fine(s: Bios, i: nat)
    requires i < |s.bios|
  {
    Counted(s, i) && Reported(s, i) && Logged(s, i)
  }

  ghost predicate Inv(s: Bios) {
    && !s.bug
    && (forall i :: 0 <= i < |s.bios| ==> Fine(s, i))
    && (forall i :: 0 <= i < |s.bios| ==> Blamed(s, i))
    && (forall i :: i in s.calls || i in s.log ==> i < |s.bios|)
    && (forall i :: 0 <= i < |s.bios| && s.bios[i].parent.Some? ==> s.bios[i].parent.value < |s.bios|)
    && Links.Forest(Parents(s.bios))
  }

  // ----- counting -----

  lemma {:induction false} OpenPut(bios: seq<Bio>, j: nat, b: Bio, i: nat)
    requires j < |bios|
    ensures Open(bios[j := b], i) == Open(bios, i) - OpenIn(bios[j], i) + OpenIn(b, i)
  {
    var n := |bios| - 1;
    if j == n {
      assert bios[j := b][..n] == bios[..n];
    } else {
      assert bios[j := b][..n] == bios[..n][j := b];
      OpenPut(bios[..n], j, b, i);
    }
  }

  lemma {:induction false} OpenSome(bios: seq<Bio>, i: nat)
    ensures Open(bios, i) > 0 <==> exists c :: 0 <= c < |bios| && OpenIn(bios[c], i) == 1
  {
    if bios != [] {
      var n := |bios| - 1;
      OpenSome(bios[..n], i);
      if Open(bios[..n], i) > 0 {
        var c :| 0 <= c < n && OpenIn(bios[..n][c], i) == 1;
        assert OpenIn(bios[c], i) == 1;
      }
      if c :| 0 <= c < |bios| && OpenIn(bios[c], i) == 1 {
        assert c == n || OpenIn(bios[..n][c], i) == 1;
      }
    }
  }

  // ----- paths -----

  /** Nothing but new bios and new chainings: a parent, once set, stays, and so does what a bio covers. */
  ghost predicate Grows(was: seq<Bio>, now: seq<Bio>) {
    && |was| <= |now|
    && (forall i :: 0 <= i < |was| && was[i].parent.Some? ==> now[i].parent == was[i].parent)
    && (forall i :: 0 <= i < |was| ==> now[i].sector == was[i].sector && now[i].sectors == was[i].sectors)
  }

  lemma UnderGrows(was: seq<Bio>, now: seq<Bio>, x: nat, i: nat)
    requires Grows(was, now) && Under(was, x, i)
    ensures Under(now, x, i)
  {
    Links.UnderExtends(Parents(was), Parents(now), x, i);
  }

  lemma UnderParent(bios: seq<Bio>, x: nat, i: nat)
    requires i < |bios| && Under(bios, x, i) && bios[i].parent.Some? && bios[i].parent.value < |bios|
    ensures Under(bios, x, bios[i].parent.value)
  {
    Links.UnderNext(Parents(bios), i);
    Links.UnderTrans(Parents(bios), x, i, bios[i].parent.value);
  }

  // ----- allocation and submission -----

  lemma OpenNone(bios: seq<Bio>, i: nat)
    requires forall c :: 0 <= c < |bios| ==> OpenIn(bios[c], i) == 0
    ensures Open(bios, i) == 0
  {
    OpenSome(bios, i);
  }

  lemma AllocKeeps(s: Bios, sector: nat, sectors: nat)
    requires Inv(s)
    ensures Inv(Alloc(s, sector, sectors)) && Grows(s.bios, Alloc(s, sector, sectors).bios)
  {
    var r, n := Alloc(s, sector, sectors), |s.bios|;
    assert r.bios[..n] == s.bios;
    OthersBlamed(s, r, n);
    forall i | 0 <= i < |r.bios| ensures Fine(r, i) {
      if i < n {
        assert Fine(s, i);
      } else {
        forall c | 0 <= c < n ensures OpenIn(s.bios[c], n) == 0 { assert Fine(s, c); }
        OpenNone(s.bios, n);
      }
    }
    Links.ForestGrow(Parents(s.bios));
    assert Parents(r.bios) == Parents(s.bios) + [None];
  }

  /** Blame stays as long as failures do. */
  lemma BlameGrows(s: Bios, r: Bios, i: nat)
    requires i < |s.bios| && Blamed(s, i) && Grows(s.bios, r.bios)
    requires FailuresStay(s, r) && r.bios[i].status == s.bios[i].status
    ensures Blamed(r, i)
  {
    if r.bios[i].status != 0 {
      var x :| 0 <= x < |s.bios| && Failed(s, x, s.bios[i].status) && Under(s.bios, x, i);
      UnderGrows(s.bios, r.bios, x, i);
      assert Failed(r, x, r.bios[i].status);
    }
  }

  /** A failed bio stays so, with its error. */
  ghost predicate FailuresStay(s: Bios, r: Bios) {
    && |s.bios| <= |r.bios|
    && forall x :: 0 <= x < |s.bios| && s.bios[x].failed ==> Failed(r, x, s.bios[x].status)
  }

  /** No failure is forgotten and no status other than i's changes. */
  ghost predicate NoNewStatus(s: Bios, r: Bios, i: nat) {
    FailuresStay(s, r) && forall x :: 0 <= x < |s.bios| && x != i ==> r.bios[x].status == s.bios[x].status
  }

  lemma OthersBlamed(s: Bios, r: Bios, i: nat)
    requires Inv(s) && Grows(s.bios, r.bios) && NoNewStatus(s, r, i)
    ensures forall j :: 0 <= j < |s.bios| && j != i ==> Blamed(r, j)
  {
    forall j | 0 <= j < |s.bios| && j != i ensures Blamed(r, j) {
      BlameGrows(s, r, j);
    }
  }

  lemma SameParents(was: seq<Bio>, now: seq<Bio>)
    requires |was| == |now| && forall i :: 0 <= i < |was| ==> now[i].parent == was[i].parent
    ensures Parents(now) == Parents(was)
  {
  }

  lemma SubmitKeeps(s: Bios, i: nat)
    requires Inv(s) && i < |s.bios|
    ensures Inv(Submit(s, i)) && Grows(s.bios, Submit(s, i).bios)
  {
    var r := Submit(s, i);
    OthersBlamed(s, r, |s.bios|);
    forall j | 0 <= j < |r.bios| ensures Fine(r, j) {
      assert Fine(s, j);
      OpenPut(s.bios, i, r.bios[i], j);
    }
    SameParents(s.bios, r.bios);
  }

  // ----- chaining -----

  /** What bio_chain's callers guarantee: the bio has no end_io yet, both are live, and no cycle arises. */
  ghost predicate MayLink(s: Bios, i: nat, p: nat) {
    && i < |s.bios| && p < |s.bios| && s.bios[i].parent.None?
    && !s.bios[i].ended && !s.bios[p].ended && !Under(s.bios, p, i)
  }

  lemma LinkOpen(s: Bios, i: nat, p: nat, j: nat)
    requires MayLink(s, i, p)
    ensures Open(Link(s, i, p).bios, j) == Open(s.bios, j) + if j == p then 1 else 0
  {
    Links.UnderSelf(Parents(s.bios), i);
    var s1 := Put(s, i, s.bios[i].(parent := Some(p)));
    OpenPut(s.bios, i, s1.bios[i], j);
    OpenPut(s1.bios, p, Link(s, i, p).bios[p], j);
  }

  lemma LinkForest(s: Bios, i: nat, p: nat)
    requires Inv(s) && MayLink(s, i, p)
    ensures Links.Forest(Parents(Link(s, i, p).bios))
  {
    Links.UnderSelf(Parents(s.bios), i);
    Links.ForestLink(Parents(s.bios), i, p);
    assert Parents(Link(s, i, p).bios) == Parents(s.bios)[i := Some(p)];
  }

  lemma LinkFine(s: Bios, i: nat, p: nat, j: nat)
    requires Inv(s) && MayLink(s, i, p) && j < |s.bios|
    ensures Fine(Link(s, i, p), j)
  {
    Links.UnderSelf(Parents(s.bios), i);
    assert Fine(s, j);
    LinkOpen(s, i, p, j);
  }

  lemma LinkKeeps(s: Bios, i: nat, p: nat)
    requires Inv(s) && MayLink(s, i, p)
    ensures Inv(Link(s, i, p)) && Grows(s.bios, Link(s, i, p).bios)
  {
    var r := Link(s, i, p);
    OthersBlamed(s, r, |s.bios|);
    forall j | 0 <= j < |r.bios| ensures Fine(r, j) { LinkFine(s, i, p, j); }
    LinkForest(s, i, p);
  }

  // ----- completion -----

  lemma CompleteFine(s: Bios, i: nat, error: int, j: nat)
    requires Inv(s) && i < |s.bios| && s.bios[i].submitted && !s.bios[i].done && j < |s.bios|
    ensures Fine(Complete(s, i, error), j)
  {
    assert Fine(s, i) && Fine(s, j);
    OpenPut(s.bios, i, Complete(s, i, error).bios[i], j);
  }

  lemma CompleteKeeps(s: Bios, i: nat, error: int)
    requires Inv(s) && i < |s.bios| && s.bios[i].submitted && !s.bios[i].done
    ensures Inv(Complete(s, i, error)) && Grows(s.bios, Complete(s, i, error).bios)
  {
    var r := Complete(s, i, error);
    assert Fine(s, i);
    OthersBlamed(s, r, i);
    assert Blamed(r, i) by {
      if error != 0 {
        Links.UnderSelf(Parents(r.bios), i);
        assert Failed(r, i, error);
      } else {
        BlameGrows(s, r, i);
      }
    }
    forall j | 0 <= j < |r.bios| ensures Fine(r, j) { CompleteFine(s, i, error, j); }
    SameParents(s.bios, r.bios);
  }

  // ----- a pass of bio_endio -----

  lemma WaitFine(s: Bios, i: nat, j: nat)
    requires Inv(s) && i in s.calls && Waits(s.bios[i]) && j < |s.bios| && Fine(s, i)
    ensures Fine(Pass(s, i), j)
  {
    assert Fine(s, j);
    OpenPut(s.bios, i, Pass(s, i).bios[i], j);
  }

  lemma WaitKeeps(s: Bios, i: nat)
    requires Inv(s) && i in s.calls && Waits(s.bios[i])
    ensures Inv(Pass(s, i)) && Grows(s.bios, Pass(s, i).bios)
  {
    var r := Pass(s, i);
    assert Fine(s, i);
    OthersBlamed(s, r, |s.bios|);
    forall j | 0 <= j < |r.bios| ensures Fine(r, j) { WaitFine(s, i, j); }
    SameParents(s.bios, r.bios);
  }

  /** At its last arrival a bio has completed and has no open child; its parent has not ended. */
  lemma LastArrival(s: Bios, i: nat)
    requires Inv(s) && i in s.calls && !Waits(s.bios[i])
    ensures var b := s.bios[i];
            && !b.ended && b.done && s.calls[i] == 1 && Open(s.bios, i) == 0 && (b.chained ==> b.remaining == 1)
            && (b.parent.Some? ==> b.parent.value != i && b.parent.value < |s.bios| && !s.bios[b.parent.value].ended)
  {
    assert Fine(s, i);
    var b := s.bios[i];
    if b.parent.Some? {
      assert OpenIn(b, b.parent.value) == 1;
      OpenSome(s.bios, b.parent.value);
      assert Fine(s, b.parent.value);
    }
  }

  lemma FinishOpen(s: Bios, i: nat, j: nat)
    requires Inv(s) && i in s.calls && !Waits(s.bios[i])
    ensures Open(Finish(s, i).bios, j) == Open(s.bios, j) - if s.bios[i].parent == Some(j) then 1 else 0
  {
    LastArrival(s, i);
    var r := Finish(s, i);
    OpenPut(s.bios, i, r.bios[i], j);
    if s.bios[i].parent.Some? {
      var p := s.bios[i].parent.value;
      OpenPut(s.bios[i := r.bios[i]], p, r.bios[p], j);
    }
  }

  /** The parent's new status is the child's, and what is to blame for that lies below the parent too. */
  lemma ParentBlamed(s: Bios, r: Bios, i: nat, p: nat)
    requires Inv(s) && i < |s.bios| && s.bios[i].parent == Some(p) && p < |s.bios| && s.bios[i].status != 0
    requires Grows(s.bios, r.bios) && NoNewStatus(s, r, p)
    requires r.bios[p].status == if s.bios[p].status == 0 then s.bios[i].status else s.bios[p].status
    ensures Blamed(r, p)
  {
    assert Blamed(s, i);
    if s.bios[p].status != 0 {
      BlameGrows(s, r, p);
    } else {
      var x :| 0 <= x < |s.bios| && Failed(s, x, s.bios[i].status) && Under(s.bios, x, i);
      UnderParent(s.bios, x, i);
      UnderGrows(s.bios, r.bios, x, p);
      assert Failed(r, x, r.bios[p].status);
    }
  }

  /** Ending a bio changes no status but its parent's, and that only to hand a failure up. */
  lemma FinishStatus(s: Bios, i: nat)
    requires Inv(s) && i in s.calls && !Waits(s.bios[i])
    ensures var b, r := s.bios[i], Finish(s, i);
            && Grows(s.bios, r.bios)
            && NoNewStatus(s, r, if b.parent.None? || b.status == 0 then |s.bios| else b.parent.value)
  {
    LastArrival(s, i);
    var r := Finish(s, i);
    forall x | 0 <= x < |s.bios| && s.bios[x].failed ensures Failed(r, x, s.bios[x].status) { assert Fine(s, x); }
  }

  lemma FinishBlamed(s: Bios, i: nat)
    requires Inv(s) && i in s.calls && !Waits(s.bios[i])
    ensures forall j :: 0 <= j < |s.bios| ==> Blamed(Finish(s, i), j)
  {
    FinishStatus(s, i);
    var b, r := s.bios[i], Finish(s, i);
    if b.parent.None? || b.status == 0 {
      OthersBlamed(s, r, |s.bios|);
    } else {
      OthersBlamed(s, r, b.parent.value);
      ParentBlamed(s, r, i, b.parent.value);
    }
  }

  lemma FinishCounted(s: Bios, i: nat, j: nat)
    requires Inv(s) && i in s.calls && !Waits(s.bios[i]) && j < |s.bios|
    ensures Counted(Finish(s, i), j)
  {
    LastArrival(s, i);
    assert Fine(s, j);
    FinishOpen(s, i, j);
  }

  lemma FinishReported(s: Bios, i: nat, j: nat)
    requires Inv(s) && i in s.calls && !Waits(s.bios[i]) && j < |s.bios|
    ensures Reported(Finish(s, i), j)
  {
    LastArrival(s, i);
    assert Fine(s, j);
  }

  lemma FinishLogged(s: Bios, i: nat, j: nat)
    requires Inv(s) && i in s.calls && !Waits(s.bios[i]) && j < |s.bios|
    ensures Logged(Finish(s, i), j)
  {
    LastArrival(s, i);
    assert Fine(s, j);
  }

  lemma FinishFine(s: Bios, i: nat, j: nat)
    requires Inv(s) && i in s.calls && !Waits(s.bios[i]) && j < |s.bios|
    ensures Fine(Finish(s, i), j)
  {
    LastArrival(s, i);
    FinishCounted(s, i, j);
    FinishReported(s, i, j);
    FinishLogged(s, i, j);
  }

  lemma FinishKeeps(s: Bios, i: nat)
    requires Inv(s) && i in s.calls && !Waits(s.bios[i])
    ensures Inv(Finish(s, i)) && Grows(s.bios, Finish(s, i).bios)
  {
    LastArrival(s, i);
    var r := Finish(s, i);
    FinishBlamed(s, i);
    forall j | 0 <= j < |r.bios| ensures Fine(r, j) { FinishFine(s, i, j); }
    SameParents(s.bios, r.bios);
  }

  /** Every pass keeps the invariant; in particular the BUG_ON in bio_remaining_done never fires. */
  lemma PassKeeps(s: Bios, i: nat)
    requires Inv(s) && i in s.calls
    ensures (s.bios[i].parent.Some? ==> s.bios[i].parent.value < |s.bios|)
            && Inv(Pass(s, i)) && Grows(s.bios, Pass(s, i).bios)
  {
    assert Fine(s, i);
    if Waits(s.bios[i]) { WaitKeeps(s, i); } else { FinishKeeps(s, i); }
  }
}
