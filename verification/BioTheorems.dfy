/** Every interleaving of allocations, submissions, chainings and completions of bios. */
module BioTheorems {
  import opened Options
  import Links
  import opened BioModel
  import opened BioInvariant

  datatype Action =
    | Allocates(sector: nat, sectors: nat)
    | Submits(i: nat)
    | Chains(i: nat, parent: nat)
    | Completes(i: nat, error: int)
    | Steps(i: nat)               // a running bio_endio does one pass at bio i

  ghost predicate Enabled(s: Bios, a: Action) {
    match a
    case Allocates(_, _) => true
    case Submits(i) => i < |s.bios|
    case Chains(i, p) => MayLink(s, i, p)
    case Completes(i, _) => i < |s.bios| && s.bios[i].submitted && !s.bios[i].done
    case Steps(i) => i in s.calls
  }

  ghost function Apply(s: Bios, a: Action): Bios
    requires Inv(s) && Enabled(s, a)
  {
    match a
    case Allocates(sector, sectors) => Alloc(s, sector, sectors)
    case Submits(i) => Submit(s, i)
    case Chains(i, p) => Link(s, i, p)
    case Completes(i, error) => Complete(s, i, error)
    case Steps(i) => PassKeeps(s, i); Pass(s, i)
  }

  lemma StepKeeps(s: Bios, a: Action)
    requires Inv(s) && Enabled(s, a)
    ensures Inv(Apply(s, a)) && Grows(s.bios, Apply(s, a).bios)
  {
    match a {
      case Allocates(sector, sectors) => AllocKeeps(s, sector, sectors);
      case Submits(i) => SubmitKeeps(s, i);
      case Chains(i, p) => LinkKeeps(s, i, p);
      case Completes(i, error) => CompleteKeeps(s, i, error);
      case Steps(i) => PassKeeps(s, i);
    }
  }

  /** The state after a run, in which an action that is not possible where it stands does not happen. */
  ghost function After(s: Bios, run: seq<Action>): Bios
    requires Inv(s)
    decreases |run|
  {
    if run == [] then s
    else if Enabled(s, run[0]) then StepKeeps(s, run[0]); After(Apply(s, run[0]), run[1..])
    else After(s, run[1..])
  }

  lemma {:induction false} RunKeeps(s: Bios, run: seq<Action>)
    requires Inv(s)
    ensures Inv(After(s, run)) && Grows(s.bios, After(s, run).bios)
    decreases |run|
  {
    if run != [] {
      if Enabled(s, run[0]) {
        StepKeeps(s, run[0]);
        RunKeeps(Apply(s, run[0]), run[1..]);
      } else {
        RunKeeps(s, run[1..]);
      }
    }
  }

  // ----- what the invariant means for a whole subtree -----

  /** A bio ends only after every bio chained below it. */
  lemma {:induction false} EndedFromAbove(s: Bios, x: nat, k: nat, i: nat)
    requires Inv(s) && Up(s.bios, x, k) == Some(i) && s.bios[i].ended
    ensures s.bios[x].ended && s.bios[x].done
    decreases k
  {
    assert Fine(s, i);
    if k > 0 {
      Links.StepBelow(Parents(s.bios), x, k - 1, i);
      var c := Up(s.bios, x, k - 1).value;
      OpenSome(s.bios, i);
      assert OpenIn(s.bios[c], i) == 0;
      EndedFromAbove(s, x, k - 1, c);
    }
  }

  lemma OneAbove(bios: seq<Bio>, c: nat, i: nat)
    requires c < |bios| && i < |bios| && bios[c].parent == Some(i)
    ensures Up(bios, c, 1) == Some(i)
  {
    assert Links.Up(Parents(bios), i, 0) == Some(i);
  }

  /** A failure below an ended bio shows in its status. */
  lemma {:induction false} FailureClimbs(s: Bios, x: nat, k: nat, i: nat)
    requires Inv(s) && Up(s.bios, x, k) == Some(i) && s.bios[i].ended && s.bios[x].failed
    ensures s.bios[i].status != 0
    decreases k
  {
    if k == 0 {
      assert Fine(s, i);
    } else {
      Links.StepBelow(Parents(s.bios), x, k - 1, i);
      var c := Up(s.bios, x, k - 1).value;
      OneAbove(s.bios, c, i);
      EndedFromAbove(s, c, 1, i);
      FailureClimbs(s, x, k - 1, c);
      assert Fine(s, c);
    }
  }

  lemma {:induction false} EndsWhenBelowDone(s: Bios, i: nat, rank: seq<nat>)
    requires Inv(s) && s.calls == multiset{} && Links.Ranked(Parents(s.bios), rank) && i < |s.bios|
    requires forall x :: 0 <= x < |s.bios| && Under(s.bios, x, i) ==> s.bios[x].done
    ensures s.bios[i].ended
    decreases rank[i]
  {
    Links.UnderSelf(Parents(s.bios), i);
    assert Fine(s, i);
    if !s.bios[i].ended {
      OpenSome(s.bios, i);
      var c :| 0 <= c < |s.bios| && OpenIn(s.bios[c], i) == 1;
      forall x | 0 <= x < |s.bios| && Under(s.bios, x, c) ensures s.bios[x].done {
        UnderParent(s.bios, x, c);
      }
      assert Parents(s.bios)[c] == Some(i);
      EndsWhenBelowDone(s, c, rank);
    }
  }

  ghost predicate AllDone(s: Bios, i: nat) {
    forall x :: 0 <= x < |s.bios| && Under(s.bios, x, i) ==> s.bios[x].done
  }

  ghost predicate SomeFailed(s: Bios, i: nat) {
    exists x :: 0 <= x < |s.bios| && Under(s.bios, x, i) && s.bios[x].failed
  }

  /** With no bio_endio under way, exactly the bios whose whole subtree has completed have ended. */
  lemma EndedExactly(s: Bios, i: nat)
    requires Inv(s) && i < |s.bios|
    ensures s.bios[i].ended ==> AllDone(s, i)
    ensures s.calls == multiset{} && AllDone(s, i) ==> s.bios[i].ended
  {
    if s.bios[i].ended {
      forall x | 0 <= x < |s.bios| && Under(s.bios, x, i) ensures s.bios[x].done {
        var k: nat :| Links.Up(Parents(s.bios), x, k) == Some(i);
        EndedFromAbove(s, x, k, i);
      }
    }
    if s.calls == multiset{} && AllDone(s, i) {
      var rank :| Links.Ranked(Parents(s.bios), rank);
      EndsWhenBelowDone(s, i, rank);
    }
  }

  /** Some bio of the subtree failed with this error. */
  ghost predicate FailedWith(s: Bios, i: nat, error: int) {
    exists x :: 0 <= x < |s.bios| && Under(s.bios, x, i) && Failed(s, x, error)
  }

  /** The status an end_io sees is non-zero exactly when a bio of the subtree failed, and then the error of one. */
  lemma StatusExactly(s: Bios, i: nat)
    requires Inv(s) && i < |s.bios| && s.bios[i].ended
    ensures s.bios[i].status != 0 <==> SomeFailed(s, i)
    ensures s.bios[i].status != 0 ==> FailedWith(s, i, s.bios[i].status)
  {
    assert Blamed(s, i);
    if x :| 0 <= x < |s.bios| && Under(s.bios, x, i) && s.bios[x].failed {
      var k: nat :| Links.Up(Parents(s.bios), x, k) == Some(i);
      FailureClimbs(s, x, k, i);
    }
  }

  ghost predicate Empty(s: Bios) {
    s.bios == [] && s.calls == multiset{} && s.log == [] && !s.bug
  }

  lemma EmptyInv(s: Bios)
    requires Empty(s)
    ensures Inv(s)
  {
    assert Links.Ranked(Parents(s.bios), []);
  }

  /**
  Over every interleaving: no BUG_ON fires; a bio's end_io has run once if it has ended and not at all
  otherwise; it runs only after the bio and all chained below it have completed, and has run by the time
  no bio_endio is under way; and the status is then non-zero exactly if one of them failed, and its error.
  */
  lemma EveryRun(s0: Bios, run: seq<Action>, i: nat)
    requires Empty(s0) && Inv(s0) && i < |After(s0, run).bios|
    ensures var s := After(s0, run);
            && !s.bug
            && multiset(s.log)[i] == (if s.bios[i].ended then 1 else 0)
            && (s.bios[i].ended ==>
                  && AllDone(s, i) && (s.bios[i].status != 0 <==> SomeFailed(s, i))
                  && (s.bios[i].status != 0 ==> FailedWith(s, i, s.bios[i].status)))
            && (s.calls == multiset{} && AllDone(s, i) ==> s.bios[i].ended)
  {
    RunKeeps(s0, run);
    var s := After(s0, run);
    assert Fine(s, i);
    EndedExactly(s, i);
    if s.bios[i].ended { StatusExactly(s, i); }
  }

  lemma StepFailuresStay(s: Bios, a: Action)
    requires Inv(s) && Enabled(s, a)
    ensures FailuresStay(s, Apply(s, a))
  {
    match a {
      case Steps(i) =>
        assert Fine(s, i);
        PassKeeps(s, i);
        if !Waits(s.bios[i]) { FinishStatus(s, i); }
      case Completes(i, error) => assert Fine(s, i);
      case _ =>
    }
  }

  lemma {:induction false} RunFailuresStay(s: Bios, run: seq<Action>)
    requires Inv(s)
    ensures FailuresStay(s, After(s, run))
    decreases |run|
  {
    if run != [] {
      if Enabled(s, run[0]) {
        StepKeeps(s, run[0]);
        StepFailuresStay(s, run[0]);
        var t := Apply(s, run[0]);
        RunFailuresStay(t, run[1..]);
        forall x | 0 <= x < |s.bios| && s.bios[x].failed ensures Failed(After(s, run), x, s.bios[x].status) {
          assert Failed(t, x, s.bios[x].status);
        }
      } else {
        RunFailuresStay(s, run[1..]);
      }
    }
  }

  /** A bio whose own I/O failed has the driver's error as its status from then on, whatever fails below it. */
  lemma OwnError(s: Bios, i: nat, error: int, run: seq<Action>)
    requires Inv(s) && Enabled(s, Completes(i, error)) && error != 0 && Inv(Apply(s, Completes(i, error)))
    ensures var t := After(Apply(s, Completes(i, error)), run); i < |t.bios| && Failed(t, i, error)
  {
    var u := Apply(s, Completes(i, error));
    RunFailuresStay(u, run);
    assert u.bios[i].failed && u.bios[i].status == error;
  }
}
