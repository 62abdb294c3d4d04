/**
Chained bios. A call of bio_endio climbs from a bio to its parents; several may be under way at once,
so one pass of its loop is one step, and `calls` says where each running call stands.
*/
module BioModel {
  import opened Options
  import Links

  datatype Bio = Bio(
    parent: Option<nat>,      // bi_private, when bi_end_io is bio_chain_endio
    remaining: int,           // __bi_remaining
    chained: bool,            // BIO_CHAIN
    status: int,
    sector: nat, sectors: nat,
    submitted: bool,
    done: bool, failed: bool, // its own I/O has completed, and how
    ended: bool)              // its end_io has run

  datatype Bios = Bios(
    bios: seq<Bio>,
    calls: multiset<nat>,     // bios at which a bio_endio loop is about to look
    log: seq<nat>,            // the bios whose end_io ran, in order
    bug: bool)                // BUG_ON fired

  function Put(s: Bios, i: nat, b: Bio): Bios
    requires i < |s.bios|
  {
    s.(bios := s.bios[i := b])
  }

  /** bio_init */
  function Alloc(s: Bios, sector: nat, sectors: nat): Bios {
    s.(bios := s.bios + [Bio(None, 1, false, 0, sector, sectors, false, false, false, false)])
  }

  function Submit(s: Bios, i: nat): Bios
    requires i < |s.bios|
  {
    Put(s, i, s.bios[i].(submitted := true))
  }

  /** bio_chain */
  function Link(s: Bios, i: nat, p: nat): Bios
    requires i < |s.bios| && p < |s.bios|
  {
    var s1 := Put(s, i, s.bios[i].(parent := Some(p)));
    Put(s1, p, s1.bios[p].(remaining := s1.bios[p].remaining + 1, chained := true))
  }

  /** The I/O of a bio finishes: its status is set if it failed, and bio_endio is called. */
  function Complete(s: Bios, i: nat, error: int): Bios
    requires i < |s.bios|
  {
    var b := s.bios[i];
    Put(s, i, b.(done := true, failed := error != 0, status := if error != 0 then error else b.status))
      .(calls := s.calls + multiset{i})
  }

  /** __bio_chain_endio: the first failure is kept, and the running call moves on to the parent. */
  function HandUp(s: Bios, status: int, p: nat): Bios
    requires p < |s.bios|
  {
    var up := s.bios[p];
    Put(s, p, up.(status := if up.status == 0 then status else up.status)).(calls := s.calls + multiset{p})
  }

  /** bio_remaining_done says that this is not the last arrival. */
  predicate Waits(b: Bio) {
    b.chained && b.remaining > 1
  }

  /** A bio after an arrival: a chained one counts it, and is chained no more after the last. */
  function Arrived(b: Bio): Bio {
    b.(remaining := if b.chained then b.remaining - 1 else b.remaining, chained := Waits(b))
  }

  /** The end_io of bio i runs; a chained bio hands its status, and the running call, to its parent. */
  function Finish(s: Bios, i: nat): Bios
    requires i < |s.bios| && (s.bios[i].parent.Some? ==> s.bios[i].parent.value < |s.bios|)
  {
    var b := s.bios[i];
    var s1 := Put(s, i, Arrived(b).(ended := true)).(calls := s.calls - multiset{i}, log := s.log + [i]);
    if b.parent.Some? then HandUp(s1, b.status, b.parent.value) else s1
  }

  /** One pass of the loop of bio_endio. */
  function Pass(s: Bios, i: nat): Bios
    requires i < |s.bios| && (s.bios[i].parent.Some? ==> s.bios[i].parent.value < |s.bios|)
  {
    var b := s.bios[i];
    if b.chained && b.remaining <= 0 then s.(bug := true)
    else if Waits(b) then Put(s, i, Arrived(b)).(calls := s.calls - multiset{i})
    else Finish(s, i)
  }

  // ----- the forest -----

  ghost function Parents(bios: seq<Bio>): seq<Option<nat>> {
    seq(|bios|, i requires 0 <= i < |bios| => bios[i].parent)
  }

  /** The k-th bio above x, x itself for k == 0. */
  ghost function Up(bios: seq<Bio>, x: nat, k: nat): (above: Option<nat>)
    ensures above.Some? ==> above.value < |bios|
  {
    Links.Up(Parents(bios), x, k)
  }

  /** x is i, or chained to it through one or more bios. */
  ghost predicate Under(bios: seq<Bio>, x: nat, i: nat) {
    Links.Under(Parents(bios), x, i)
  }

  function OpenIn(b: Bio, i: nat): nat {
    if b.parent == Some(i) && !b.ended then 1 else 0
  }

  /** How many bios chained to i have not ended. */
  function Open(bios: seq<Bio>, i: nat): nat {
    if bios == [] then 0 else Open(bios[..|bios| - 1], i) + OpenIn(bios[|bios| - 1], i)
  }

  /** How many arrivals bio i still has to see: its own, one per open child, and the calls standing at it. */
  ghost function Expected(s: Bios, i: nat): nat
    requires i < |s.bios|
  {
    (if s.bios[i].done then 0 else 1) + Open(s.bios, i) + s.calls[i]
  }
}
