/**
__blkdev_issue_discard cuts a range into bios and chains each to the next, so that the end_io of the
last one stands for all of them. While it loops, the bios already submitted may complete.
*/
module Discard {
  import opened Options
  import Links
  import opened BioModel
  import opened BioInvariant
  import opened BioTheorems
  import opened BioForest

  const UINT_MAX := 0xFFFF_FFFF

  datatype Code = ENXIO | EPERM | EOPNOTSUPP | EINVAL

  /** A block device; blockSectors is its logical block size in sectors of 512 bytes. */
  datatype Device = Device(hasQueue: bool, readOnly: bool, eraseOk: bool, discardOk: bool, blockSectors: nat)

  predicate DeviceOk(dev: Device) {
    dev.blockSectors >= 1 && dev.blockSectors * 512 <= UINT_MAX
  }

  /** bio_allowed_max_sectors */
  function MaxSectors(dev: Device): (n: nat)
    requires DeviceOk(dev)
    ensures n >= 1 && n % dev.blockSectors == 0 && n * 512 <= UINT_MAX
  {
    var blocks := UINT_MAX / (dev.blockSectors * 512);
    WholeBlocks(blocks, dev.blockSectors);
    blocks * dev.blockSectors
  }

  lemma WholeBlocks(blocks: nat, size: nat)
    requires size >= 1 && size * 512 <= UINT_MAX && blocks == UINT_MAX / (size * 512)
    ensures blocks * size >= 1 && (blocks * size) % size == 0 && blocks * size * 512 <= UINT_MAX
  {
    assert blocks >= 1;
    MulMod(blocks, size);
    assert blocks * (size * 512) <= UINT_MAX;
    assert blocks * size * 512 == blocks * (size * 512);
  }

  lemma MulMod(n: nat, size: nat)
    requires size >= 1
    ensures (n * size) % size == 0 && (n >= 1 ==> n * size >= 1)
  {
    var x := n * size;
    var d, r := n - x / size, x % size;
    assert d * size == n * size - x / size * size == r;
    assert d >= 1 ==> d * size >= size;
    assert d <= -1 ==> d * size + size <= 0;
  }

  lemma AddMod(a: nat, b: nat, size: nat)
    requires size >= 1 && a % size == 0 && b % size == 0
    ensures (a + b) % size == 0
  {
    assert a + b == a / size * size + b / size * size == (a / size + b / size) * size;
    MulMod(a / size + b / size, size);
  }

  lemma SubMod(a: nat, b: nat, size: nat)
    requires size >= 1 && b <= a && a % size == 0 && b % size == 0
    ensures (a - b) % size == 0
  {
    var n := a / size - b / size;
    assert a - b == a / size * size - b / size * size == n * size;
    assert n < 0 ==> n * size < 0;
    if n >= 0 { MulMod(n, size); }
  }

  /** The error returns before anything is issued, in their order. */
  function Refusal(dev: Device, sector: nat, n: nat, secure: bool): Option<Code>
    requires DeviceOk(dev)
  {
    if !dev.hasQueue then Some(ENXIO)
    else if dev.readOnly then Some(EPERM)
    else if (if secure then !dev.eraseOk else !dev.discardOk) then Some(EOPNOTSUPP)
    else if sector % dev.blockSectors != 0 || n % dev.blockSectors != 0 then Some(EINVAL)
    else if n == 0 then Some(EINVAL)
    else None
  }

  /** Each error says what is wrong with the device or the range, and a missing device or permission comes first. */
  lemma RefusedBecause(dev: Device, sector: nat, n: nat, secure: bool)
    requires DeviceOk(dev)
    ensures var e, able := Refusal(dev, sector, n, secure), if secure then dev.eraseOk else dev.discardOk;
            var whole := n > 0 && sector % dev.blockSectors == 0 && (sector + n) % dev.blockSectors == 0;
            && (e == Some(ENXIO) <==> !dev.hasQueue)
            && (e == Some(EPERM) <==> dev.hasQueue && dev.readOnly)
            && (e == Some(EOPNOTSUPP) <==> dev.hasQueue && !dev.readOnly && !able)
            && (e == Some(EINVAL) <==> dev.hasQueue && !dev.readOnly && able && !whole)
            && (e.None? <==> dev.hasQueue && !dev.readOnly && able && whole)
  {
    if sector % dev.blockSectors == 0 {
      if n % dev.blockSectors == 0 { AddMod(sector, n, dev.blockSectors); }
      if (sector + n) % dev.blockSectors == 0 { SubMod(sector + n, sector, dev.blockSectors); }
    }
  }

  /** Bios a to b, without b, lie next to each other and reach from one sector to the other. */
  ghost predicate Strip(bios: seq<Bio>, a: nat, b: nat, from: nat, to: nat) {
    && a <= b <= |bios|
    && (forall j :: a <= j < b ==> bios[j].sectors >= 1)
    && (forall j :: a <= j < b - 1 ==> bios[j].sector + bios[j].sectors == bios[j + 1].sector)
    && (if a == b then from == to
        else bios[a].sector == from && bios[b - 1].sector + bios[b - 1].sectors == to)
  }

  /** Each of them fits in one bio and is aligned. */
  ghost predicate Pieces(bios: seq<Bio>, a: nat, b: nat, block: nat, max: nat)
    requires block >= 1
  {
    && a <= b <= |bios|
    && (forall j :: a <= j < b ==>
          bios[j].sectors <= max && bios[j].sectors % block == 0 && bios[j].sector % block == 0)
  }

  /** Each is chained to the next and submitted; the last is neither. */
  ghost predicate InChain(bios: seq<Bio>, a: nat, b: nat) {
    && a < b <= |bios|
    && (forall j :: a <= j < b - 1 ==> bios[j].parent == Some(j + 1) && bios[j].submitted)
    && bios[b - 1].parent.None? && !bios[b - 1].submitted
  }

  // ----- while the loop runs -----

  datatype Event = Driver(i: nat, error: int) | EndioPass(i: nat)

  /** The same bios, chained the same way and covering the same sectors. */
  ghost predicate Steady(a: seq<Bio>, b: seq<Bio>) {
    && |a| == |b|
    && forall i :: 0 <= i < |a| ==>
         && b[i].parent == a[i].parent && b[i].submitted == a[i].submitted
         && b[i].sector == a[i].sector && b[i].sectors == a[i].sectors
  }

  lemma SteadyTrans(a: seq<Bio>, b: seq<Bio>, c: seq<Bio>)
    requires Steady(a, b) && Steady(b, c)
    ensures Steady(a, c)
  {
  }

  lemma PassSteady(s: Bios, i: nat)
    requires i < |s.bios| && (s.bios[i].parent.Some? ==> s.bios[i].parent.value < |s.bios|)
    ensures Steady(s.bios, Pass(s, i).bios)
  {
    var b := s.bios[i];
    var once := s.bios[i := Arrived(b)];
    assert Steady(s.bios, once);
    if !Waits(b) {
      assert Steady(s.bios, s.bios[i := Arrived(b).(ended := true)]);
    }
  }

  /** One event; one that cannot happen now does not. */
  method Happen(f: Forest, event: Event)
    requires Inv(f.Model())
    modifies f
    ensures Inv(f.Model()) && Steady(old(f.bios), f.bios)
  {
    match event
    case Driver(i, error) =>
      if i < |f.bios| && f.bios[i].submitted && !f.bios[i].done {
        f.CompleteBio(i, error);
      }
    case EndioPass(i) =>
      if i in f.calls {
        PassKeeps(f.Model(), i);
        PassSteady(f.Model(), i);
        assert Fine(f.Model(), i);
        var _ := f.OnePass(i);
      }
  }

  /** Drivers complete bios and calls of bio_endio go on, in any order. */
  method Meanwhile(f: Forest, events: seq<Event>)
    requires Inv(f.Model())
    modifies f
    ensures Inv(f.Model()) && Steady(old(f.bios), f.bios)
  {
    for n := 0 to |events|
      invariant Inv(f.Model()) && Steady(old(f.bios), f.bios)
    {
      ghost var was := f.bios;
      Happen(f, events[n]);
      SteadyTrans(old(f.bios), was, f.bios);
    }
  }

  // ----- the loop -----

  /** Bio i can be chained to the next one. */
  ghost predicate Loose(bios: seq<Bio>, i: nat) {
    i < |bios| && bios[i].parent.None? && !bios[i].submitted
  }

  /** What has been issued so far: bios from `first` on, each chained to the next; `last` awaits the next one. */
  ghost predicate Issued(bios: seq<Bio>, first: nat, anchor: Option<nat>, last: Option<nat>) {
    && first <= |bios| && (anchor.Some? ==> anchor.value < first) && (last.Some? ==> Loose(bios, last.value))
    && if |bios| == first then last == anchor
       else
         && last == Some(|bios| - 1) && InChain(bios, first, |bios|)
         && (anchor.Some? ==> bios[anchor.value].parent == Some(first) && bios[anchor.value].submitted)
  }

  /** They make up the range from one sector to another, in aligned pieces. */
  ghost predicate Cut(bios: seq<Bio>, first: nat, block: nat, max: nat, from: nat, to: nat)
    requires block >= 1
  {
    Strip(bios, first, |bios|, from, to) && Pieces(bios, first, |bios|, block, max) && to % block == 0
  }

  lemma Steadily(was: seq<Bio>, now: seq<Bio>, first: nat, anchor: Option<nat>, last: Option<nat>,
                 block: nat, max: nat, from: nat, to: nat)
    requires Issued(was, first, anchor, last) && block >= 1 && Cut(was, first, block, max, from, to)
    requires Steady(was, now)
    ensures Issued(now, first, anchor, last) && Cut(now, first, block, max, from, to)
  {
  }

  /** What blk_next_bio does to the bios. */
  ghost predicate Appended(was: seq<Bio>, now: seq<Bio>, prev: Option<nat>, sector: nat, sectors: nat) {
    var i := |was|;
    && |now| == i + 1 && Loose(now, i) && now[i].sector == sector && now[i].sectors == sectors
    && (prev.Some? ==> prev.value < i && now[prev.value].parent == Some(i) && now[prev.value].submitted)
    && Grows(was, now)
    && forall j :: 0 <= j < i && Some(j) != prev ==>
         now[j].parent == was[j].parent && now[j].submitted == was[j].submitted
  }

  lemma IssuedAppend(was: seq<Bio>, now: seq<Bio>, first: nat, anchor: Option<nat>, last: Option<nat>,
                     sector: nat, size: nat)
    requires Issued(was, first, anchor, last) && Appended(was, now, last, sector, size)
    ensures Issued(now, first, anchor, Some(|was|))
  {
  }

  lemma CutAppend(was: seq<Bio>, now: seq<Bio>, first: nat, last: Option<nat>,
                  block: nat, max: nat, from: nat, to: nat, size: nat)
    requires block >= 1 && Cut(was, first, block, max, from, to) && Appended(was, now, last, to, size)
    requires 1 <= size <= max && size % block == 0
    ensures Cut(now, first, block, max, from, to + size)
  {
    AddMod(to, size, block);
    StripAppend(was, now, first, last, from, to, size);
  }

  lemma StripAppend(was: seq<Bio>, now: seq<Bio>, first: nat, last: Option<nat>, from: nat, to: nat, size: nat)
    requires Strip(was, first, |was|, from, to) && Appended(was, now, last, to, size) && size >= 1
    ensures Strip(now, first, |now|, from, to + size)
  {
    forall j | first <= j < |now| - 1 ensures now[j].sector + now[j].sectors == now[j + 1].sector {
      if j == |was| - 1 { assert now[j].sector == was[j].sector; }
    }
  }

  /** blk_next_bio: a new bio, to which the previous one is chained before it is submitted. */
  method NextBio(f: Forest, prev: Option<nat>, sector: nat, sectors: nat) returns (i: nat)
    requires Inv(f.Model()) && (prev.Some? ==> Loose(f.bios, prev.value))
    modifies f
    ensures Inv(f.Model()) && i == |old(f.bios)| && Appended(old(f.bios), f.bios, prev, sector, sectors)
  {
    i := f.AllocBio(sector, sectors);
    if prev.Some? {
      var p := prev.value;
      assert Fine(f.Model(), p) && Fine(f.Model(), i);
      Links.UnderStep(Parents(f.bios), i, p);
      f.Chain(p, i);
      f.SubmitBio(p);
    }
  }

  lemma RoundDone(was: seq<Bio>, mid: seq<Bio>, now: seq<Bio>, first: nat, anchor: Option<nat>, last: Option<nat>,
                  block: nat, max: nat, from: nat, to: nat, size: nat)
    requires Issued(was, first, anchor, last) && block >= 1 && Cut(was, first, block, max, from, to)
    requires 1 <= size <= max && size % block == 0 && Appended(was, mid, last, to, size) && Steady(mid, now)
    ensures Issued(now, first, anchor, Some(|was|)) && Cut(now, first, block, max, from, to + size)
  {
    IssuedAppend(was, mid, first, anchor, last, to, size);
    CutAppend(was, mid, first, last, block, max, from, to, size);
    Steadily(mid, now, first, anchor, Some(|was|), block, max, from, to + size);
  }

  /** One round of the loop. */
  method IssueOne(f: Forest, ghost first: nat, anchor: Option<nat>, last: Option<nat>, ghost block: nat, max: nat,
                  ghost from: nat, to: nat, size: nat, events: seq<Event>)
    returns (i: nat)
    requires Inv(f.Model()) && Issued(f.bios, first, anchor, last)
    requires block >= 1 && Cut(f.bios, first, block, max, from, to) && 1 <= size <= max && size % block == 0
    modifies f
    ensures Inv(f.Model()) && |f.bios| == |old(f.bios)| + 1
    ensures Issued(f.bios, first, anchor, Some(i)) && Cut(f.bios, first, block, max, from, to + size)
  {
    ghost var was := f.bios;
    i := NextBio(f, last, to, size);
    ghost var now := f.bios;
    Meanwhile(f, events);
    RoundDone(was, now, f.bios, first, anchor, last, block, max, from, to, size);
  }

  /** The size of the next piece, and what is left after it, are whole blocks. */
  method NextSize(dev: Device, left: nat) returns (size: nat)
    requires DeviceOk(dev) && left >= 1 && left % dev.blockSectors == 0
    ensures 1 <= size <= left && size <= MaxSectors(dev)
    ensures size % dev.blockSectors == 0 && (left - size) % dev.blockSectors == 0
    ensures size == left || size == MaxSectors(dev)
  {
    size := if left < MaxSectors(dev) then left else MaxSectors(dev);
    SubMod(left, size, dev.blockSectors);
  }

  /** __blkdev_issue_discard; events[k] is what happens during round k. */
  method IssueDiscard(f: Forest, dev: Device, sector: nat, n: nat, secure: bool, anchor: Option<nat>,
                      events: nat -> seq<Event>)
    returns (error: Option<Code>, last: Option<nat>)
    requires Inv(f.Model()) && DeviceOk(dev) && (anchor.Some? ==> Loose(f.bios, anchor.value))
    modifies f
    ensures error == Refusal(dev, sector, n, secure) && Inv(f.Model())
    ensures error.Some? ==> f.Model() == old(f.Model()) && last == anchor
    ensures error.None? ==>
              && |f.bios| > |old(f.bios)| && Issued(f.bios, |old(f.bios)|, anchor, last)
              && Cut(f.bios, |old(f.bios)|, dev.blockSectors, MaxSectors(dev), sector, sector + n)
  {
    error, last := Refusal(dev, sector, n, secure), anchor;
    if error.Some? {
      return;
    }
    ghost var first, block := |f.bios|, dev.blockSectors;
    var max := MaxSectors(dev);
    var to, left, round := sector, n, 0;
    while left > 0
      invariant Inv(f.Model()) && left >= 0 && (left < n ==> |f.bios| > first)
      invariant to + left == sector + n && left % block == 0
      invariant Issued(f.bios, first, anchor, last) && Cut(f.bios, first, block, max, sector, to)
      decreases left
    {
      var size := NextSize(dev, left);
      var i := IssueOne(f, first, anchor, last, block, max, sector, to, size, events(round));
      last := Some(i);
      to, left, round := to + size, left - size, round + 1;
    }
  }

  // ----- what it means to wait for the last bio -----

  lemma {:induction false} ChainUp(bios: seq<Bio>, a: nat, b: nat, j: nat)
    requires InChain(bios, a, b) && a <= j < b
    ensures Up(bios, j, b - 1 - j) == Some(b - 1)
    decreases b - j
  {
    if j < b - 1 { ChainUp(bios, a, b, j + 1); }
  }

  /** Bio j covers sector q. */
  ghost predicate Covers(bios: seq<Bio>, j: nat, q: nat) {
    j < |bios| && bios[j].sector <= q < bios[j].sector + bios[j].sectors
  }

  lemma {:induction false} StripOrder(bios: seq<Bio>, a: nat, b: nat, from: nat, to: nat, i: nat, j: nat)
    requires Strip(bios, a, b, from, to) && a <= i < j < b
    ensures bios[i].sector + bios[i].sectors <= bios[j].sector
    decreases j
  {
    if i < j - 1 { StripOrder(bios, a, b, from, to, i, j - 1); }
    assert bios[j - 1].sector + bios[j - 1].sectors == bios[j - 1 + 1].sector;
  }

  lemma {:induction false} StripHas(bios: seq<Bio>, a: nat, b: nat, from: nat, to: nat, q: nat) returns (j: nat)
    requires Strip(bios, a, b, from, to) && from <= q < to
    ensures a <= j < b && Covers(bios, j, q)
    decreases b - a
  {
    if q < bios[a].sector + bios[a].sectors {
      j := a;
    } else {
      assert a + 1 < b ==> bios[a].sector + bios[a].sectors == bios[a + 1].sector;
      j := StripHas(bios, a + 1, b, bios[a].sector + bios[a].sectors, to, q);
    }
  }

  /** The bios of a strip cover exactly its sectors, and no sector twice. */
  lemma StripExact(bios: seq<Bio>, a: nat, b: nat, from: nat, to: nat, q: nat)
    requires Strip(bios, a, b, from, to)
    ensures from <= q < to <==> exists j :: a <= j < b && Covers(bios, j, q)
    ensures forall i, j :: a <= i < b && a <= j < b && Covers(bios, i, q) && Covers(bios, j, q) ==> i == j
  {
    if from <= q < to { var j := StripHas(bios, a, b, from, to, q); }
    if j :| a <= j < b && Covers(bios, j, q) {
      if a < j { StripOrder(bios, a, b, from, to, a, j); }
      if j < b - 1 { StripOrder(bios, a, b, from, to, j, b - 1); }
    }
    forall i, j | a <= i < b && a <= j < b && Covers(bios, i, q) && Covers(bios, j, q) ensures i == j {
      if i < j { StripOrder(bios, a, b, from, to, i, j); }
      if j < i { StripOrder(bios, a, b, from, to, j, i); }
    }
  }

  ghost predicate CoveredBy(bios: seq<Bio>, first: nat, last: nat, q: nat) {
    exists j :: first <= j <= last && Covers(bios, j, q)
  }

  lemma DoneBelowLast(s: Bios, r: Bios, first: nat, j: nat)
    requires InChain(s.bios, first, |s.bios|) && Inv(r) && Grows(s.bios, r.bios) && first <= j < |s.bios|
    requires r.bios[|s.bios| - 1].ended
    ensures r.bios[j].done && r.bios[j].ended && (r.bios[|s.bios| - 1].status == 0 ==> !r.bios[j].failed)
  {
    var last := |s.bios| - 1;
    ChainUp(s.bios, first, |s.bios|, j);
    Links.UpExtends(Parents(s.bios), Parents(r.bios), j, last - j);
    EndedFromAbove(r, j, last - j, last);
    if r.bios[j].failed { FailureClimbs(r, j, last - j, last); }
  }

  /**
  From the state a discard leaves, over every further interleaving: once the last bio has ended, the I/O
  of every bio of the discard has completed, those bios cover the requested range, and the last bio's
  status is zero only if none of them failed.
  */
  lemma WaitingForTheLast(s: Bios, first: nat, anchor: Option<nat>, from: nat, to: nat, run: seq<Action>)
    requires Inv(s) && first < |s.bios| && Issued(s.bios, first, anchor, Some(|s.bios| - 1))
    requires Strip(s.bios, first, |s.bios|, from, to)
    ensures var r, last := After(s, run), |s.bios| - 1;
            last < |r.bios| && (r.bios[last].ended ==>
              && (forall j :: first <= j <= last ==> r.bios[j].done && r.bios[j].ended)
              && (r.bios[last].status == 0 ==> forall j :: first <= j <= last ==> !r.bios[j].failed)
              && (forall q :: from <= q < to ==> CoveredBy(r.bios, first, last, q)))
  {
    RunKeeps(s, run);
    var r, last := After(s, run), |s.bios| - 1;
    if r.bios[last].ended {
      forall j | first <= j <= last
        ensures r.bios[j].done && r.bios[j].ended && (r.bios[last].status == 0 ==> !r.bios[j].failed)
      {
        DoneBelowLast(s, r, first, j);
      }
      forall q | from <= q < to ensures CoveredBy(r.bios, first, last, q) {
        var j := StripHas(s.bios, first, |s.bios|, from, to, q);
        assert Covers(r.bios, j, q);
      }
    }
  }
}
