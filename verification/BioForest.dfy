/** Bios as objects updated in place, and the loop of bio_endio that climbs a chain of them. */
module BioForest {
  import opened Options
  import opened BioModel
  import opened BioInvariant
  import opened BioTheorems

  /** How many bios have not ended. */
  function Live(bios: seq<Bio>): nat {
    if bios == [] then 0 else Live(bios[..|bios| - 1]) + if bios[|bios| - 1].ended then 0 else 1
  }

  lemma {:induction false} LivePut(bios: seq<Bio>, j: nat, b: Bio)
    requires j < |bios|
    ensures Live(bios[j := b]) == Live(bios) - (if bios[j].ended then 0 else 1) + (if b.ended then 0 else 1)
  {
    var n := |bios| - 1;
    if j == n {
      assert bios[j := b][..n] == bios[..n];
    } else {
      assert bios[j := b][..n] == bios[..n][j := b];
      LivePut(bios[..n], j, b);
    }
  }

  /** A pass that climbs has ended a bio. */
  lemma PassEnds(s: Bios, i: nat)
    requires Inv(s) && i in s.calls && !Waits(s.bios[i])
    ensures s.bios[i].parent.Some? ==> s.bios[i].parent.value < |s.bios|
    ensures Live(Pass(s, i).bios) < Live(s.bios)
  {
    LastArrival(s, i);
    var r := Finish(s, i);
    LivePut(s.bios, i, r.bios[i]);
    if s.bios[i].parent.Some? {
      var p := s.bios[i].parent.value;
      LivePut(s.bios[i := r.bios[i]], p, r.bios[p]);
    }
  }

  /** A whole call of bio_endio that stands at bio i and is not interrupted. */
  ghost function Climb(s: Bios, i: nat): Bios
    requires Inv(s) && i in s.calls
    decreases Live(s.bios)
  {
    PassKeeps(s, i);
    if Waits(s.bios[i]) || s.bios[i].parent.None? then Pass(s, i)
    else
      PassEnds(s, i);
      Climb(Pass(s, i), s.bios[i].parent.value)
  }

  /** One such call takes one running call away and keeps the invariant. */
  lemma {:induction false} ClimbKeeps(s: Bios, i: nat)
    requires Inv(s) && i in s.calls
    ensures Inv(Climb(s, i)) && Climb(s, i).calls == s.calls - multiset{i}
    decreases Live(s.bios)
  {
    PassKeeps(s, i);
    if !Waits(s.bios[i]) && s.bios[i].parent.Some? {
      PassEnds(s, i);
      ClimbKeeps(Pass(s, i), s.bios[i].parent.value);
    }
  }

  class Forest {
    var bios: seq<Bio>
    var calls: multiset<nat>
    var log: seq<nat>
    var bug: bool

    ghost function Model(): Bios
      reads this
    {
      Bios(bios, calls, log, bug)
    }

    constructor ()
      ensures Empty(Model()) && Inv(Model())
    {
      bios, calls, log, bug := [], multiset{}, [], false;
      new;
      EmptyInv(Model());
    }

    method AllocBio(sector: nat, sectors: nat) returns (i: nat)
      requires Inv(Model())
      modifies this
      ensures Model() == Alloc(old(Model()), sector, sectors) && Inv(Model()) && i == |old(bios)|
    {
      AllocKeeps(Model(), sector, sectors);
      i := |bios|;
      bios := bios + [Bio(None, 1, false, 0, sector, sectors, false, false, false, false)];
    }

    method SubmitBio(i: nat)
      requires Inv(Model()) && i < |bios|
      modifies this
      ensures Model() == Submit(old(Model()), i) && Inv(Model())
    {
      SubmitKeeps(Model(), i);
      bios := bios[i := bios[i].(submitted := true)];
    }

    method Chain(i: nat, p: nat)
      requires Inv(Model()) && MayLink(Model(), i, p)
      modifies this
      ensures Model() == Link(old(Model()), i, p) && Inv(Model())
    {
      LinkKeeps(Model(), i, p);
      bios := bios[i := bios[i].(parent := Some(p))];
      bios := bios[p := bios[p].(remaining := bios[p].remaining + 1, chained := true)];
    }

    /** The driver is done with bio i; the call of bio_endio it makes is now under way. */
    method CompleteBio(i: nat, error: int)
      requires Inv(Model()) && i < |bios| && bios[i].submitted && !bios[i].done
      modifies this
      ensures Model() == Complete(old(Model()), i, error) && Inv(Model())
    {
      CompleteKeeps(Model(), i, error);
      var b := bios[i].(done := true, failed := error != 0);
      if error != 0 {
        b := b.(status := error);
      }
      bios := bios[i := b];
      calls := calls + multiset{i};
    }

    /** bio_remaining_done: is this the last arrival? */
    method RemainingDone(i: nat) returns (last: bool)
      requires i < |bios|
      modifies this
      ensures last == !Waits(old(bios[i]))
      ensures bug == (old(bug) || old(bios[i].chained && bios[i].remaining <= 0))
      ensures calls == old(calls) && log == old(log) && bios == old(bios)[i := Arrived(old(bios[i]))]
    {
      if !bios[i].chained {
        return true;
      }
      if bios[i].remaining <= 0 {
        bug := true;
      }
      bios := bios[i := bios[i].(remaining := bios[i].remaining - 1)];
      if bios[i].remaining > 0 {
        return false;
      }
      bios := bios[i := bios[i].(chained := false)];
      return true;
    }

    /** __bio_chain_endio */
    method ChainEndio(i: nat, p: nat)
      requires i < |bios| && p < |bios|
      modifies this
      ensures Model() == HandUp(old(Model()), old(bios[i].status), p)
      ensures bios[p].status == 0 <==> old(bios[p].status == 0 && bios[i].status == 0)
      ensures old(bios[p].status) != 0 ==> bios == old(bios)
    {
      if bios[p].status == 0 {
        bios := bios[p := bios[p].(status := bios[i].status)];
      }
      calls := calls + multiset{p};
    }

    /** One pass of the loop of bio_endio at bio i; it goes on at the parent, if any. */
    method OnePass(i: nat) returns (parent: Option<nat>)
      requires i < |bios| && (bios[i].parent.Some? ==> bios[i].parent.value < |bios|)
      requires !bug && (bios[i].chained ==> bios[i].remaining > 0)
      modifies this
      ensures Model() == Pass(old(Model()), i)
      ensures parent == if Waits(old(bios[i])) then None else old(bios[i].parent)
    {
      ghost var s := Model();
      var last := RemainingDone(i);
      calls := calls - multiset{i};
      if !last {
        assert Model() == Put(s, i, Arrived(s.bios[i])).(calls := s.calls - multiset{i});
        return None;
      }
      bios := bios[i := bios[i].(ended := true)];
      log := log + [i];
      parent := bios[i].parent;
      assert Model() == Put(s, i, Arrived(s.bios[i]).(ended := true))
                          .(calls := s.calls - multiset{i}, log := s.log + [i]);
      if parent.Some? {
        ChainEndio(i, parent.value);
      }
    }

    /** bio_endio, not interrupted by other calls. */
    method Endio(i: nat)
      requires Inv(Model()) && i in calls
      modifies this
      ensures Model() == Climb(old(Model()), i) && Inv(Model()) && calls == old(calls) - multiset{i}
    {
      ClimbKeeps(Model(), i);
      var at := i;
      while true
        invariant Inv(Model()) && at in calls && Climb(Model(), at) == Climb(old(Model()), i)
        decreases Live(bios)
      {
        PassKeeps(Model(), at);
        assert Fine(Model(), at);
        if !Waits(bios[at]) { PassEnds(Model(), at); }
        var parent := OnePass(at);
        if parent.None? {
          return;
        }
        at := parent.value;
      }
    }
  }
}
