/** In which order end_io functions run, and when a bio carries the BIO_CHAIN flag. */
module BioOrder {
  import opened Options
  import Links
  import opened BioModel
  import opened BioInvariant
  import opened BioTheorems

  ghost predicate HasChild(bios: seq<Bio>, i: nat) {
    exists c :: 0 <= c < |bios| && bios[c].parent == Some(i)
  }

  /** A bio carries BIO_CHAIN from when another is chained to it until it ends. */
  ghost predicate Tagged(s: Bios, i: nat)
    requires i < |s.bios|
  {
    s.bios[i].chained <==> !s.bios[i].ended && HasChild(s.bios, i)
  }

  /** No end_io runs before that of a bio chained to its own. */
  ghost predicate ChildrenFirst(s: Bios) {
    forall j, k :: 0 <= j < k < |s.log| && s.log[k] < |s.bios| ==> s.bios[s.log[k]].parent != Some(s.log[j])
  }

  ghost predicate Tidy(s: Bios) {
    ChildrenFirst(s) && forall i :: 0 <= i < |s.bios| ==> Tagged(s, i)
  }

  /** The same bios with the same parents, so the same children. */
  ghost predicate SameParents(a: seq<Bio>, b: seq<Bio>) {
    |a| == |b| && forall i :: 0 <= i < |a| ==> b[i].parent == a[i].parent
  }

  lemma SameChildren(a: seq<Bio>, b: seq<Bio>, i: nat)
    requires SameParents(a, b)
    ensures HasChild(a, i) <==> HasChild(b, i)
  {
    if c :| 0 <= c < |a| && a[c].parent == Some(i) { assert b[c].parent == Some(i); }
    if c :| 0 <= c < |b| && b[c].parent == Some(i) { assert a[c].parent == Some(i); }
  }

  lemma QuietTidy(s: Bios, t: Bios)
    requires Tidy(s) && SameParents(s.bios, t.bios) && t.log == s.log
    requires forall i :: 0 <= i < |s.bios| ==>
               t.bios[i].chained == s.bios[i].chained && t.bios[i].ended == s.bios[i].ended
    ensures Tidy(t)
  {
    forall i | 0 <= i < |t.bios| ensures Tagged(t, i) {
      assert Tagged(s, i);
      SameChildren(s.bios, t.bios, i);
    }
  }

  lemma AllocTidy(s: Bios, sector: nat, sectors: nat)
    requires Inv(s) && Tidy(s)
    ensures Tidy(Alloc(s, sector, sectors))
  {
    var t, n := Alloc(s, sector, sectors), |s.bios|;
    forall i | 0 <= i < |t.bios| ensures Tagged(t, i) {
      assert HasChild(t.bios, i) <==> HasChild(s.bios, i) by {
        if c :| 0 <= c < n && s.bios[c].parent == Some(i) { assert t.bios[c].parent == Some(i); }
      }
      if i < n { assert Tagged(s, i); }
    }
  }

  lemma LinkTidy(s: Bios, i: nat, p: nat)
    requires Inv(s) && Tidy(s) && MayLink(s, i, p)
    ensures Tidy(Link(s, i, p))
  {
    var t := Link(s, i, p);
    assert Fine(s, i) && Fine(s, p);
    assert t.bios[i].parent == Some(p);
    forall j | 0 <= j < |t.bios| ensures Tagged(t, j) {
      assert Tagged(s, j);
      assert j != p ==> (HasChild(t.bios, j) <==> HasChild(s.bios, j)) by {
        if c :| 0 <= c < |s.bios| && s.bios[c].parent == Some(j) { assert t.bios[c].parent == Some(j); }
      }
    }
  }

  /** The bios chained to one that ends have all ended, and its parent has not. */
  lemma FinishTidy(s: Bios, i: nat)
    requires Inv(s) && Tidy(s) && i in s.calls && !Waits(s.bios[i])
    ensures Tidy(Finish(s, i))
  {
    LastArrival(s, i);
    var b, t := s.bios[i], Finish(s, i);
    forall j | 0 <= j < |t.bios| ensures Tagged(t, j) {
      assert Tagged(s, j);
      SameChildren(s.bios, t.bios, j);
    }
    assert t.log == s.log + [i];
    forall j | 0 <= j < |s.log| ensures b.parent != Some(s.log[j]) {
      var p := s.log[j];
      assert p in s.log && multiset(s.log)[p] > 0;
      assert Fine(s, p);
      OpenSome(s.bios, p);
      assert OpenIn(b, p) == 1 <==> b.parent == Some(p);
    }
  }

  lemma StepTidy(s: Bios, a: Action)
    requires Inv(s) && Tidy(s) && Enabled(s, a)
    ensures Tidy(Apply(s, a))
  {
    match a {
      case Allocates(sector, sectors) => AllocTidy(s, sector, sectors);
      case Submits(i) => QuietTidy(s, Apply(s, a));
      case Chains(i, p) => LinkTidy(s, i, p);
      case Completes(i, error) => QuietTidy(s, Apply(s, a));
      case Steps(i) =>
        assert Fine(s, i);
        if Waits(s.bios[i]) { QuietTidy(s, Apply(s, a)); } else { FinishTidy(s, i); }
    }
  }

  lemma {:induction false} RunTidy(s: Bios, run: seq<Action>)
    requires Inv(s) && Tidy(s)
    ensures Tidy(After(s, run))
    decreases |run|
  {
    if run != [] {
      if Enabled(s, run[0]) {
        StepKeeps(s, run[0]);
        StepTidy(s, run[0]);
        RunTidy(Apply(s, run[0]), run[1..]);
      } else {
        RunTidy(s, run[1..]);
      }
    }
  }

  /**
  Over every interleaving, of a bio and one chained to it the chained one's end_io runs first, and a bio
  carries BIO_CHAIN exactly while it has not ended and some bio is chained to it.
  */
  lemma EndsInOrder(s0: Bios, run: seq<Action>, j: nat, k: nat, i: nat)
    requires Empty(s0) && Inv(s0)
    ensures var s := After(s0, run);
            && (j < |s.log| && k < |s.log| && s.log[j] < |s.bios| && s.bios[s.log[j]].parent == Some(s.log[k]) ==>
                  j < k)
            && (i < |s.bios| ==> (s.bios[i].chained <==> !s.bios[i].ended && HasChild(s.bios, i)))
  {
    RunTidy(s0, run);
    RunKeeps(s0, run);
    var s := After(s0, run);
    assert i < |s.bios| ==> Tagged(s, i);
    if j < |s.log| && k < |s.log| && s.log[j] < |s.bios| && s.bios[s.log[j]].parent == Some(s.log[k]) && j == k {
      NotOwnParent(s, s.log[j]);
    }
  }

  lemma NotOwnParent(s: Bios, x: nat)
    requires Inv(s) && x < |s.bios|
    ensures s.bios[x].parent != Some(x)
  {
    var rank :| Links.Ranked(Parents(s.bios), rank);
    assert Parents(s.bios)[x] == s.bios[x].parent;
  }
}
