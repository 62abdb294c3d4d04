/**
What badblocks_set does to the acknowledged flag of each block, for the sets that record the right blocks:
exactly when a block outside the new range counts as acknowledged without having been so, and exactly when
a block set unacknowledged does. All conditions are on the table and the range before the call.
*/
module BadblocksAck {
  import opened BadblocksModel
  import opened BadblocksClear
  import opened BadblocksSet

  lemma BadAsParts(u: seq<Entry>, e: Entry, v: seq<Entry>, x: int, a: bool)
    ensures BadAs(u + [e] + v, x, a) <==> BadAs(u, x, a) || (e.Has(x) && e.ack == a) || BadAs(v, x, a)
  {
    BadAsConcat(u + [e], v, x, a);
    BadAsConcat(u, [e], x, a);
    assert BadAs([e], x, a) <==> e.Has(x) && e.ack == a by {
      if e.Has(x) && e.ack == a { assert [e][0] == e; }
    }
  }

  /** Every block outside the new range that is acknowledged afterwards was so before. */
  ghost predicate OldKept(t: seq<Entry>, q: seq<Entry>, s: int, sectors: int) {
    forall y :: !(s <= y < s + sectors) && BadAs(q, y, true) ==> BadAs(t, y, true)
  }

  /** No block of the new range is acknowledged. */
  ghost predicate NewUnacked(q: seq<Entry>, s: int, sectors: int) {
    forall y :: s <= y < s + sectors ==> !BadAs(q, y, true)
  }

  /** The flag of a range grown over [s, end): that of the new blocks, and the old one too if it has others. */
  ghost predicate Honest(e: Entry, flag: bool, s: int, end: int, ack: bool) {
    flag <==> ack && (e.ack || (s <= e.start && e.End() <= end))
  }

  // ----- the parts of the table after a set -----

  lemma BackHonest(e: Entry, s: int, sectors: int, ack: bool)
    requires e.len <= MAX_LEN && e.start <= s
    ensures var g := GrowBack(e, s, sectors, ack).e; g == e || Honest(e, g.ack, s, s + sectors, ack)
    ensures s + sectors - e.start <= MAX_LEN ==> Honest(e, GrowBack(e, s, sectors, ack).e.ack, s, s + sectors, ack)
  {
  }

  /** The flag of the range at the spot. */
  lemma SpotHonest(t: seq<Entry>, hi: nat, s: int, sectors: int, ack: bool)
    requires Sorted(t) && sectors >= 1 && Splits(t, hi, s)
    ensures var p, r := PlaceAt(t, hi, s, sectors), MergeForward(MergeBackAt(t, hi, s, sectors, ack), ack);
            TakesIn(t, p.k, s + sectors) ==> p.k < |r.t| && Honest(t[p.k], r.t[p.k].ack, s, s + sectors, ack)
  {
    if hi > 0 { BackHonest(t[hi - 1], s, sectors, ack); }
    if hi < |t| { assert t[hi..][0].start >= s + 1; }
  }

  /** Of a range filled up to 512, the blocks outside the new range are its own. */
  lemma FilledHonest(e: Entry, s: int, sectors: int, ack: bool, y: int)
    requires 1 <= e.len <= MAX_LEN && e.start <= s <= e.End() && s + sectors - e.start > MAX_LEN
    requires var g := GrowBack(e, s, sectors, ack).e; g.Has(y) && g.ack
    ensures (e.Has(y) && e.ack) || (ack && s <= y < s + sectors)
  {
    BackHonest(e, s, sectors, ack);
  }

  /** What is acknowledged before the spot was so before, or is new. */
  lemma BeforeHonest(t: seq<Entry>, hi: nat, s: int, sectors: int, ack: bool, y: int)
    requires Sorted(t) && sectors >= 1 && Splits(t, hi, s)
    requires BadAs(Before(t, PlaceAt(t, hi, s, sectors), s, sectors, ack), y, true)
    ensures BadAs(t, y, true) || (ack && s <= y < s + sectors)
  {
    var p := PlaceAt(t, hi, s, sectors);
    if p.filled {
      var u, e, v := t[..hi - 1], t[hi - 1], t[hi..];
      var g := GrowBack(e, s, sectors, ack).e;
      assert t == u + [e] + v && u + [g] == u + [g] + [];
      BadAsParts(u, g, [], y, true);
      BadAsParts(u, e, v, y, true);
      if g.Has(y) && g.ack { FilledHonest(e, s, sectors, ack, y); }
    } else {
      assert t == t[..p.k] + t[p.k..];
      BadAsConcat(t[..p.k], t[p.k..], y, true);
    }
  }

  /** Of the range that took the new blocks in, the blocks outside the new range are its own. */
  lemma SpotBlocks(t: seq<Entry>, hi: nat, s: int, sectors: int, y: int)
    requires Sorted(t) && sectors >= 0 && Splits(t, hi, s)
    requires var p := PlaceAt(t, hi, s, sectors);
             TakesIn(t, p.k, s + sectors) && p.from <= y < Reach(t, p.k, s + sectors) && !(s <= y < s + sectors)
    ensures t[PlaceAt(t, hi, s, sectors).k].Has(y)
  {
  }

  lemma Mine(t: seq<Entry>, k: nat, y: int, a: bool)
    requires k < |t| && t[k].Has(y) && t[k].ack == a
    ensures BadAs(t, y, a)
  {
  }

  lemma Later(t: seq<Entry>, k: nat, y: int, a: bool)
    requires k <= |t| && BadAs(t[k..], y, a)
    ensures BadAs(t, y, a)
  {
    assert t == t[..k] + t[k..];
    BadAsConcat(t[..k], t[k..], y, a);
  }

  /** What a set that fits makes of the table; m is the range at the spot as the merges leave it. */
  ghost function Made(t: seq<Entry>, p: Spot, left: seq<Entry>, m: Entry, end: int, ack: bool): seq<Entry>
    requires p.k <= |t|
  {
    if !TakesIn(t, p.k, end) then left + [Entry(p.from, end - p.from, ack)] + t[p.k..]
    else if Reach(t, p.k, end) - p.from <= MAX_LEN then Joined(left, m, t[p.k + 1..])
    else left + [m] + [Entry(p.from + MAX_LEN, Reach(t, p.k, end) - p.from - MAX_LEN, ack)] + t[p.k + 1..]
  }

  ghost predicate MadeFrom(t: seq<Entry>, p: Spot, m: Entry, s: int, end: int, ack: bool) {
    TakesIn(t, p.k, end) ==> TookIn(m, p.from, Reach(t, p.k, end)) && Honest(t[p.k], m.ack, s, end, ack)
  }

  lemma SettlesAs(t: seq<Entry>, p: Spot, left: seq<Entry>, r: Rest, s: int, sectors: int, capacity: nat, ack: bool)
    requires p.k <= |t| && |left| == p.k && p.from < s + sectors && Fits(t, s, sectors) && p == Place(t, s, sectors)
    requires if TakesIn(t, p.k, s + sectors) then LeftSome(t, left, p, s + sectors, r)
             else LeftAll(t, left, p, s + sectors, r)
    requires r.sectors > 0 ==> |t| < capacity
    ensures 0 <= r.lo && 0 <= r.hi <= |r.t|
    ensures TakesIn(t, p.k, s + sectors) ==> p.k < |r.t|
    ensures var m := if TakesIn(t, p.k, s + sectors) then r.t[p.k] else Entry(0, 0, false);
            Settle(r, capacity, ack).entries == Made(t, p, left, m, s + sectors, ack)
  {
    var end := s + sectors;
    if !TakesIn(t, p.k, end) {
      InsertOne(left, t[p.k..], capacity, r.s, r.sectors, ack);
    } else if Reach(t, p.k, end) - p.from <= MAX_LEN {
      SettledIs(left, r.t[p.k], t[p.k + 1..], r, capacity, ack);
    } else {
      InsertOne(left + [r.t[p.k]], t[p.k + 1..], capacity, r.s, r.sectors, ack);
    }
  }

  lemma StoredAs(t: seq<Entry>, capacity: nat, s: int, sectors: int, ack: bool) returns (m: Entry)
    requires Sorted(t) && sectors >= 1 && |t| <= capacity
    requires !Store(t, capacity, s, sectors, ack).full && Fits(t, s, sectors)
    ensures var p := Place(t, s, sectors);
            && MadeFrom(t, p, m, s, s + sectors, ack)
            && Store(t, capacity, s, sectors, ack).entries
               == Made(t, p, Before(t, p, s, sectors, ack), m, s + sectors, ack)
  {
    StartingBeforeIs(t, s + 1);
    var hi := StartingBefore(t, s + 1);
    SpotAt(t, hi, s, sectors, ack);
    LeftoverAt(t, hi, s, sectors, ack);
    SpotHonest(t, hi, s, sectors, ack);
    var p, r := Place(t, s, sectors), Leftover(t, s, sectors, ack);
    if r.sectors > 0 { InsertFull(r.t, capacity, r.s, r.sectors, r.hi, ack); }
    SettlesAs(t, p, Before(t, p, s, sectors, ack), r, s, sectors, capacity, ack);
    m := if TakesIn(t, p.k, s + sectors) then r.t[p.k] else Entry(0, 0, false);
  }

  // ----- blocks outside the new range -----

  /** Part of an unacknowledged range is cut off at its end and recorded anew with the flag of the new blocks. */
  ghost predicate Spills(t: seq<Entry>, s: int, sectors: int, ack: bool) {
    var p, end := Place(t, s, sectors), s + sectors;
    ack && TakesIn(t, p.k, end) && !t[p.k].ack && t[p.k].End() > Max(end, p.from + MAX_LEN)
  }

  /** The new blocks are all in the range that is inserted. */
  lemma InsertedKeeps(t: seq<Entry>, hi: nat, s: int, sectors: int, ack: bool, y: int)
    requires Sorted(t) && sectors >= 1 && Splits(t, hi, s) && !(s <= y < s + sectors)
    requires var p := PlaceAt(t, hi, s, sectors);
             BadAs(Before(t, p, s, sectors, ack) + [Entry(p.from, s + sectors - p.from, ack)] + t[p.k..], y, true)
             && !TakesIn(t, p.k, s + sectors)
    ensures BadAs(t, y, true)
  {
    var p := PlaceAt(t, hi, s, sectors);
    var left, n := Before(t, p, s, sectors, ack), Entry(p.from, s + sectors - p.from, ack);
    BadAsParts(left, n, t[p.k..], y, true);
    if BadAs(left, y, true) {
      BeforeHonest(t, hi, s, sectors, ack, y);
    } else {
      Later(t, p.k, y, true);
    }
  }

  /** A block of the range at the spot. */
  lemma SpotKeeps(t: seq<Entry>, hi: nat, s: int, sectors: int, ack: bool, m: Entry, y: int)
    requires Sorted(t) && sectors >= 1 && Splits(t, hi, s) && !(s <= y < s + sectors)
    requires var p := PlaceAt(t, hi, s, sectors);
             TakesIn(t, p.k, s + sectors) && MadeFrom(t, p, m, s, s + sectors, ack)
             && p.from <= y < Reach(t, p.k, s + sectors) && m.ack
    ensures BadAs(t, y, true)
  {
    SpotBlocks(t, hi, s, sectors, y);
    Mine(t, PlaceAt(t, hi, s, sectors).k, y, true);
  }

  /** Joined with the next range or not, what is acknowledged was so in one of the parts. */
  lemma JoinedFlag(left: seq<Entry>, m: Entry, w: seq<Entry>, y: int)
    requires BadAs(Joined(left, m, w), y, true)
    ensures BadAs(left, y, true) || (m.ack && m.Has(y)) || BadAs(w, y, true)
  {
    if w != [] && w[0].start <= m.End() && w[0].End() - m.start < MAX_LEN {
      BadAsParts(left, Entry(m.start, w[0].End() - m.start, m.ack && w[0].ack), w[1..], y, true);
      BadAsParts([], w[0], w[1..], y, true);
      assert w == [] + [w[0]] + w[1..];
    } else {
      BadAsParts(left, m, w, y, true);
    }
  }

  lemma JoinedKeeps(t: seq<Entry>, hi: nat, s: int, sectors: int, ack: bool, m: Entry, y: int)
    requires Sorted(t) && sectors >= 1 && Splits(t, hi, s) && !(s <= y < s + sectors)
    requires var p := PlaceAt(t, hi, s, sectors);
             && TakesIn(t, p.k, s + sectors) && MadeFrom(t, p, m, s, s + sectors, ack)
             && Reach(t, p.k, s + sectors) - p.from <= MAX_LEN
             && BadAs(Joined(Before(t, p, s, sectors, ack), m, t[p.k + 1..]), y, true)
    ensures BadAs(t, y, true)
  {
    var p := PlaceAt(t, hi, s, sectors);
    var left := Before(t, p, s, sectors, ack);
    JoinedFlag(left, m, t[p.k + 1..], y);
    if BadAs(left, y, true) {
      BeforeHonest(t, hi, s, sectors, ack, y);
    } else if m.ack && m.Has(y) {
      SpotKeeps(t, hi, s, sectors, ack, m, y);
    } else {
      Later(t, p.k + 1, y, true);
    }
  }

  lemma OverflowKeeps(t: seq<Entry>, hi: nat, s: int, sectors: int, ack: bool, m: Entry, y: int)
    requires Sorted(t) && sectors >= 1 && Splits(t, hi, s) && !(s <= y < s + sectors)
    requires var p, end := PlaceAt(t, hi, s, sectors), s + sectors;
             && TakesIn(t, p.k, end) && MadeFrom(t, p, m, s, end, ack) && Reach(t, p.k, end) - p.from > MAX_LEN
             && BadAs(Before(t, p, s, sectors, ack) + [m]
                      + [Entry(p.from + MAX_LEN, Reach(t, p.k, end) - p.from - MAX_LEN, ack)] + t[p.k + 1..], y, true)
             && !(ack && !t[p.k].ack && t[p.k].End() > Max(end, p.from + MAX_LEN))
    ensures BadAs(t, y, true)
  {
    var p, end := PlaceAt(t, hi, s, sectors), s + sectors;
    var left, n := Before(t, p, s, sectors, ack), Entry(p.from + MAX_LEN, Reach(t, p.k, end) - p.from - MAX_LEN, ack);
    BadAsParts(left + [m], n, t[p.k + 1..], y, true);
    assert left + [m] == left + [m] + [];
    BadAsParts(left, m, [], y, true);
    if BadAs(left, y, true) {
      BeforeHonest(t, hi, s, sectors, ack, y);
    } else if m.Has(y) && m.ack {
      SpotKeeps(t, hi, s, sectors, ack, m, y);
    } else if n.Has(y) && n.ack {
      SpotBlocks(t, hi, s, sectors, y);
      Mine(t, p.k, y, true);
    } else {
      Later(t, p.k + 1, y, true);
    }
  }

  /** If it spills, the last block of the range is a witness. */
  lemma SpillsLast(t: seq<Entry>, p: Spot, left: seq<Entry>, m: Entry, end: int, y: int)
    requires Sorted(t) && TakesIn(t, p.k, end) && !t[p.k].ack && t[p.k].End() > Max(end, p.from + MAX_LEN)
    requires y == t[p.k].End() - 1
    ensures BadAs(t, y, false) && !BadAs(t, y, true) && BadAs(Made(t, p, left, m, end, true), y, true) && y >= end
  {
    Mine(t, p.k, y, false);
    var n := Entry(p.from + MAX_LEN, Reach(t, p.k, end) - p.from - MAX_LEN, true);
    BadAsParts(left + [m], n, t[p.k + 1..], y, true);
  }

  lemma MadeKeeps(t: seq<Entry>, hi: nat, p: Spot, left: seq<Entry>, s: int, sectors: int, ack: bool, m: Entry, y: int)
    requires Sorted(t) && sectors >= 1 && Splits(t, hi, s) && !(s <= y < s + sectors)
    requires p == PlaceAt(t, hi, s, sectors) && left == Before(t, p, s, sectors, ack)
    requires MadeFrom(t, p, m, s, s + sectors, ack) && BadAs(Made(t, p, left, m, s + sectors, ack), y, true)
    requires ack && TakesIn(t, p.k, s + sectors) && t[p.k].End() > Max(s + sectors, p.from + MAX_LEN) ==> t[p.k].ack
    ensures BadAs(t, y, true)
  {
    if !TakesIn(t, p.k, s + sectors) {
      InsertedKeeps(t, hi, s, sectors, ack, y);
    } else if Reach(t, p.k, s + sectors) - p.from <= MAX_LEN {
      JoinedKeeps(t, hi, s, sectors, ack, m, y);
    } else {
      OverflowKeeps(t, hi, s, sectors, ack, m, y);
    }
  }

  lemma MadeExact(t: seq<Entry>, q: seq<Entry>, s: int, sectors: int, ack: bool, m: Entry)
    requires Sorted(t) && sectors >= 1 && MadeFrom(t, Place(t, s, sectors), m, s, s + sectors, ack)
    requires var p := Place(t, s, sectors); q == Made(t, p, Before(t, p, s, sectors, ack), m, s + sectors, ack)
    ensures OldKept(t, q, s, sectors) <==> !Spills(t, s, sectors, ack)
  {
    StartingBeforeIs(t, s + 1);
    var hi, p := StartingBefore(t, s + 1), Place(t, s, sectors);
    if Spills(t, s, sectors, ack) {
      SpillsLast(t, p, Before(t, p, s, sectors, ack), m, s + sectors, t[p.k].End() - 1);
    } else {
      forall y | !(s <= y < s + sectors) && BadAs(q, y, true) ensures BadAs(t, y, true) {
        MadeKeeps(t, hi, p, Before(t, p, s, sectors, ack), s, sectors, ack, m, y);
      }
    }
  }

  lemma NothingFlag(t: seq<Entry>, hi: nat, ack: bool, y: int)
    requires 0 < hi <= |t|
    requires var e := t[hi - 1]; BadAs(Joined(t[..hi - 1], Entry(e.start, e.len, e.ack && ack), t[hi..]), y, true)
    ensures BadAs(t, y, true)
  {
    var u, e, v := t[..hi - 1], t[hi - 1], t[hi..];
    JoinedFlag(u, Entry(e.start, e.len, e.ack && ack), v, y);
    assert t == u + [e] + v;
    BadAsParts(u, e, v, y, true);
  }

  lemma NothingKept(t: seq<Entry>, hi: nat, q: seq<Entry>, s: int, ack: bool)
    requires 0 < hi <= |t|
    requires var e := t[hi - 1]; q == Joined(t[..hi - 1], Entry(e.start, e.len, e.ack && ack), t[hi..])
    ensures OldKept(t, q, s, 0)
  {
    forall y | BadAs(q, y, true) ensures BadAs(t, y, true) { NothingFlag(t, hi, ack, y); }
  }

  lemma NothingSpills(t: seq<Entry>, s: int, ack: bool)
    requires Sorted(t)
    ensures !Spills(t, s, 0, ack)
  {
    StartingBeforeIs(t, s + 1);
  }

  /** A set of no blocks acknowledges none. */
  lemma NothingKeeps(t: seq<Entry>, capacity: nat, s: int, ack: bool)
    requires Sorted(t)
    ensures OldKept(t, Store(t, capacity, s, 0, ack).entries, s, 0)
  {
    StartingBeforeIs(t, s + 1);
    var hi, q := StartingBefore(t, s + 1), Store(t, capacity, s, 0, ack).entries;
    if hi > 0 && s <= t[hi - 1].End() {
      NothingAt(t, hi, capacity, s, ack);
      NothingKept(t, hi, q, s, ack);
    } else {
      assert q == t;
    }
  }

  /**
  A set that records the right blocks leaves every block outside the new range acknowledged only if it was,
  if and only if it does not spill.
  */
  lemma OldExact(t: seq<Entry>, capacity: nat, s: int, sectors: int, ack: bool)
    requires Sorted(t) && sectors >= 0 && |t| <= capacity
    requires !Store(t, capacity, s, sectors, ack).full && Fits(t, s, sectors)
    ensures OldKept(t, Store(t, capacity, s, sectors, ack).entries, s, sectors) <==> !Spills(t, s, sectors, ack)
  {
    if sectors == 0 {
      NothingKeeps(t, capacity, s, ack);
      NothingSpills(t, s, ack);
    } else {
      var m := StoredAs(t, capacity, s, sectors, ack);
      MadeExact(t, Store(t, capacity, s, sectors, ack).entries, s, sectors, ack, m);
    }
  }

  // ----- blocks of the new range -----

  /** A full range before the spot is left as it is. */
  ghost predicate FullBefore(t: seq<Entry>, p: Spot, s: int) {
    p.filled && 0 < p.k <= |t| && t[p.k - 1].len == MAX_LEN && t[p.k - 1].ack && s < t[p.k - 1].End()
  }

  /** A range that starts inside the new one after the two that can be joined is left as it is. */
  ghost predicate AckedLater(t: seq<Entry>, p: Spot, end: int) {
    exists j :: p.k + 2 <= j < |t| && t[j].ack && t[j].start < end
  }

  /** Part of the new range stays acknowledged. */
  ghost predicate StaysAcked(t: seq<Entry>, s: int, sectors: int) {
    var p := Place(t, s, sectors);
    FullBefore(t, p, s) || AckedLater(t, p, s + sectors)
  }

  lemma BeforeEnds(t: seq<Entry>, hi: nat, s: int, sectors: int)
    requires Sorted(t) && sectors >= 1 && Splits(t, hi, s)
    ensures var p := PlaceAt(t, hi, s, sectors); var left := Before(t, p, s, sectors, false);
            && |left| == p.k
            && forall i :: 0 <= i < (if p.filled then p.k - 1 else p.k) ==> left[i].End() <= s
  {
    var p := PlaceAt(t, hi, s, sectors);
    assert forall i :: 0 <= i < hi - 1 ==> t[i].End() <= t[hi - 1].start;
  }

  /** Before the spot, only a full range reaches into the new one. */
  lemma BeforeFull(t: seq<Entry>, hi: nat, s: int, sectors: int, y: int)
    requires Sorted(t) && sectors >= 1 && Splits(t, hi, s) && s <= y
    requires BadAs(Before(t, PlaceAt(t, hi, s, sectors), s, sectors, false), y, true)
    ensures FullBefore(t, PlaceAt(t, hi, s, sectors), s)
  {
    var p := PlaceAt(t, hi, s, sectors);
    var left := Before(t, p, s, sectors, false);
    BeforeEnds(t, hi, s, sectors);
    var i :| 0 <= i < |left| && left[i].Has(y) && left[i].ack;
  }

  lemma FullIsLeft(t: seq<Entry>, hi: nat, s: int, sectors: int)
    requires Sorted(t) && sectors >= 1 && Splits(t, hi, s) && FullBefore(t, PlaceAt(t, hi, s, sectors), s)
    ensures BadAs(Before(t, PlaceAt(t, hi, s, sectors), s, sectors, false), s, true)
  {
    var p := PlaceAt(t, hi, s, sectors);
    Mine(Before(t, p, s, sectors, false), p.k - 1, s, true);
  }

  lemma JoinedRest(left: seq<Entry>, m: Entry, w: seq<Entry>, y: int)
    requires !m.ack
    ensures var joined := w != [] && w[0].start <= m.End() && w[0].End() - m.start < MAX_LEN;
            BadAs(Joined(left, m, w), y, true) <==> BadAs(left, y, true) || BadAs(if joined then w[1..] else w, y, true)
  {
    if w != [] && w[0].start <= m.End() && w[0].End() - m.start < MAX_LEN {
      BadAsParts(left, Entry(m.start, w[0].End() - m.start, false), w[1..], y, true);
    } else {
      BadAsParts(left, m, w, y, true);
    }
  }

  ghost predicate NotJoined(t: seq<Entry>, p: Spot, k: nat, end: int) {
    k < p.k + 2 && TakesIn(t, p.k, end) && Reach(t, p.k, end) - p.from <= MAX_LEN && k < |t| ==>
      t[k].start > Reach(t, p.k, end) || t[k].End() - p.from >= MAX_LEN
  }

  /** What is acknowledged after a set of unacknowledged blocks was so before the spot, or is left alone after it. */
  lemma MadeRest(t: seq<Entry>, p: Spot, left: seq<Entry>, m: Entry, s: int, end: int, y: int) returns (k: nat)
    requires p.k <= |t| && MadeFrom(t, p, m, s, end, false)
    ensures p.k <= k <= p.k + 2 && k <= |t|
    ensures BadAs(Made(t, p, left, m, end, false), y, true) <==> BadAs(left, y, true) || BadAs(t[k..], y, true)
    ensures if TakesIn(t, p.k, end) then k > p.k else k == p.k
    ensures NotJoined(t, p, k, end)
  {
    if !TakesIn(t, p.k, end) {
      k := p.k;
      BadAsParts(left, Entry(p.from, end - p.from, false), t[k..], y, true);
    } else if Reach(t, p.k, end) - p.from <= MAX_LEN {
      var w := t[p.k + 1..];
      JoinedRest(left, m, w, y);
      k := if w != [] && w[0].start <= m.End() && w[0].End() - m.start < MAX_LEN then p.k + 2 else p.k + 1;
      assert t[k..] == if k == p.k + 2 then w[1..] else w;
    } else {
      k := p.k + 1;
      BadAsParts(left + [m], Entry(p.from + MAX_LEN, Reach(t, p.k, end) - p.from - MAX_LEN, false), t[k..], y, true);
      assert left + [m] == left + [m] + [];
      BadAsParts(left, m, [], y, true);
    }
  }

  /** If the set fits, what it leaves alone right after the spot starts after the new range. */
  lemma StartsLate(t: seq<Entry>, p: Spot, k: nat, end: int)
    requires FitsAt(t, p, end) && p.k <= k < p.k + 2 && k < |t|
    requires (if TakesIn(t, p.k, end) then k > p.k else k == p.k) && NotJoined(t, p, k, end)
    ensures end <= t[k].start
  {
  }

  lemma TailMeans(t: seq<Entry>, p: Spot, k: nat, end: int, y: int)
    requires Sorted(t) && FitsAt(t, p, end) && p.k <= k <= p.k + 2 && k <= |t|
    requires (if TakesIn(t, p.k, end) then k > p.k else k == p.k) && NotJoined(t, p, k, end)
    requires y < end && BadAs(t[k..], y, true)
    ensures AckedLater(t, p, end)
  {
    if k < p.k + 2 && k < |t| {
      StartsLate(t, p, k, end);
    } else {
      var i :| 0 <= i < |t[k..]| && t[k..][i].Has(y) && t[k..][i].ack;
      assert t[k..][i] == t[k + i];
    }
  }

  /** A block of the new range that is acknowledged afterwards. */
  lemma AckedMeans(t: seq<Entry>, p: Spot, left: seq<Entry>, s: int, end: int, m: Entry, y: int)
    requires Sorted(t) && s <= y < end && FitsAt(t, p, end) && p.k <= |t| && !BadAs(left, y, true)
    requires MadeFrom(t, p, m, s, end, false) && BadAs(Made(t, p, left, m, end, false), y, true)
    ensures AckedLater(t, p, end)
  {
    var k := MadeRest(t, p, left, m, s, end, y);
    TailMeans(t, p, k, end, y);
  }

  lemma ShowsBefore(t: seq<Entry>, p: Spot, left: seq<Entry>, m: Entry, s: int, end: int, y: int)
    requires p.k <= |t| && MadeFrom(t, p, m, s, end, false) && BadAs(left, y, true)
    ensures BadAs(Made(t, p, left, m, end, false), y, true)
  {
    var k := MadeRest(t, p, left, m, s, end, y);
  }

  lemma ShowsLater(t: seq<Entry>, p: Spot, left: seq<Entry>, m: Entry, s: int, end: int, j: nat)
    requires MadeFrom(t, p, m, s, end, false) && p.k + 2 <= j < |t| && t[j].ack && t[j].len >= 1
    ensures BadAs(Made(t, p, left, m, end, false), t[j].start, true)
  {
    var k := MadeRest(t, p, left, m, s, end, t[j].start);
    assert t[k..][j - k] == t[j];
  }

  /** What lies before the spot reaches into the new range only as a full range, and what is left alone starts in it. */
  ghost predicate Around(t: seq<Entry>, p: Spot, left: seq<Entry>, s: int) {
    && p.k <= |t|
    && (FullBefore(t, p, s) ==> BadAs(left, s, true))
    && (forall y :: s <= y && BadAs(left, y, true) ==> FullBefore(t, p, s))
    && (forall j :: p.k + 2 <= j < |t| ==> s < t[j].start && t[j].len >= 1)
  }

  lemma AroundIs(t: seq<Entry>, hi: nat, s: int, sectors: int)
    requires Sorted(t) && sectors >= 1 && Splits(t, hi, s)
    ensures var p := PlaceAt(t, hi, s, sectors); Around(t, p, Before(t, p, s, sectors, false), s)
  {
    var p := PlaceAt(t, hi, s, sectors);
    var left := Before(t, p, s, sectors, false);
    if FullBefore(t, p, s) { FullIsLeft(t, hi, s, sectors); }
    forall y | s <= y && BadAs(left, y, true) ensures FullBefore(t, p, s) { BeforeFull(t, hi, s, sectors, y); }
    forall j | p.k + 2 <= j < |t| ensures s < t[j].start { assert t[hi..][j - hi] == t[j]; }
  }

  lemma StaysMeans(t: seq<Entry>, p: Spot, left: seq<Entry>, s: int, end: int, m: Entry) returns (y: int)
    requires Around(t, p, left, s) && s < end && MadeFrom(t, p, m, s, end, false)
    requires FullBefore(t, p, s) || AckedLater(t, p, end)
    ensures s <= y < end && BadAs(Made(t, p, left, m, end, false), y, true)
  {
    if FullBefore(t, p, s) {
      y := s;
      ShowsBefore(t, p, left, m, s, end, y);
    } else {
      var j :| p.k + 2 <= j < |t| && t[j].ack && t[j].start < end;
      y := t[j].start;
      ShowsLater(t, p, left, m, s, end, j);
    }
  }

  lemma NewMadeExact(t: seq<Entry>, p: Spot, left: seq<Entry>, s: int, sectors: int, m: Entry)
    requires Sorted(t) && sectors >= 1 && Around(t, p, left, s) && FitsAt(t, p, s + sectors)
    requires MadeFrom(t, p, m, s, s + sectors, false)
    ensures NewUnacked(Made(t, p, left, m, s + sectors, false), s, sectors)
            <==> !(FullBefore(t, p, s) || AckedLater(t, p, s + sectors))
  {
    var q := Made(t, p, left, m, s + sectors, false);
    if FullBefore(t, p, s) || AckedLater(t, p, s + sectors) {
      var y := StaysMeans(t, p, left, s, s + sectors, m);
    } else {
      forall y | s <= y < s + sectors ensures !BadAs(q, y, true) {
        if BadAs(q, y, true) { AckedMeans(t, p, left, s, s + sectors, m, y); }
      }
    }
  }

  lemma NothingStays(t: seq<Entry>, s: int)
    requires Sorted(t)
    ensures !StaysAcked(t, s, 0)
  {
    StartingBeforeIs(t, s + 1);
  }

  lemma NewSome(t: seq<Entry>, capacity: nat, s: int, sectors: int)
    requires Sorted(t) && sectors >= 1 && |t| <= capacity
    requires !Store(t, capacity, s, sectors, false).full && Fits(t, s, sectors)
    ensures NewUnacked(Store(t, capacity, s, sectors, false).entries, s, sectors) <==> !StaysAcked(t, s, sectors)
  {
    StartingBeforeIs(t, s + 1);
    AroundIs(t, StartingBefore(t, s + 1), s, sectors);
    var m := StoredAs(t, capacity, s, sectors, false);
    var p := Place(t, s, sectors);
    NewMadeExact(t, p, Before(t, p, s, sectors, false), s, sectors, m);
  }

  /**
  A set of unacknowledged blocks that records the right ones leaves them all unacknowledged, if and only if
  none of them is in a full acknowledged range that starts before, or in an acknowledged range left alone.
  */
  lemma NewExact(t: seq<Entry>, capacity: nat, s: int, sectors: int)
    requires Sorted(t) && sectors >= 0 && |t| <= capacity
    requires !Store(t, capacity, s, sectors, false).full && Fits(t, s, sectors)
    ensures NewUnacked(Store(t, capacity, s, sectors, false).entries, s, sectors) <==> !StaysAcked(t, s, sectors)
  {
    if sectors == 0 { NothingStays(t, s); } else { NewSome(t, capacity, s, sectors); }
  }

  // ----- inputs -----

  /** There is room for what the set has to insert, and it fits. */
  ghost predicate GoodSet(t: seq<Entry>, capacity: nat, s: int, sectors: int) {
    && Sorted(t) && sectors >= 0 && |t| <= capacity && Fits(t, s, sectors)
    && 0 <= ToInsert(t, s, sectors) && |t| + Ranges(ToInsert(t, s, sectors)) <= capacity
  }

  lemma GoodSetIs(t: seq<Entry>, capacity: nat, s: int, sectors: int, ack: bool)
    requires GoodSet(t, capacity, s, sectors)
    ensures var q := Store(t, capacity, s, sectors, ack); !q.full && Recorded(t, q.entries, s, sectors)
    ensures OldKept(t, Store(t, capacity, s, sectors, ack).entries, s, sectors) <==> !Spills(t, s, sectors, ack)
    ensures !ack ==>
              (NewUnacked(Store(t, capacity, s, sectors, ack).entries, s, sectors) <==> !StaysAcked(t, s, sectors))
  {
    StoreFull(t, capacity, s, sectors, ack);
    StoreExact(t, capacity, s, sectors, ack);
    OldExact(t, capacity, s, sectors, ack);
    if !ack { NewExact(t, capacity, s, sectors); }
  }

  /** Ten acknowledged blocks before an unacknowledged range of 512: its last ten blocks become acknowledged. */
  lemma SpillAcknowledges()
    ensures var t := [Entry(10, 512, false)];
            GoodSet(t, 512, 0, 10) && !OldKept(t, Store(t, 512, 0, 10, true).entries, 0, 10)
  {
    var t := [Entry(10, 512, false)];
    assert t[..0] == [];
    assert StartingBefore(t, 1) == 0;
    assert Place(t, 0, 10) == Spot(0, 0, false);
    GoodSetIs(t, 512, 0, 10, true);
  }

  /** Twenty unacknowledged blocks that begin in a full acknowledged range: those in it stay acknowledged. */
  lemma FullStaysAcked()
    ensures var t := [Entry(0, 512, true)];
            GoodSet(t, 512, 500, 20) && !NewUnacked(Store(t, 512, 500, 20, false).entries, 500, 20)
  {
    var t := [Entry(0, 512, true)];
    assert StartingBefore(t, 501) == 1;
    assert Place(t, 500, 20) == Spot(1, 512, true);
    GoodSetIs(t, 512, 500, 20, false);
  }

  /** Twenty unacknowledged blocks over three ranges, the last acknowledged: it is left alone. */
  lemma ThirdStaysAcked()
    ensures var t := [Entry(0, 10, false), Entry(12, 3, false), Entry(15, 20, true)];
            GoodSet(t, 512, 5, 20) && !NewUnacked(Store(t, 512, 5, 20, false).entries, 5, 20)
  {
    var t := [Entry(0, 10, false), Entry(12, 3, false), Entry(15, 20, true)];
    assert t[..2] == [Entry(0, 10, false), Entry(12, 3, false)] && t[..2][..1] == [Entry(0, 10, false)];
    assert StartingBefore(t[..2], 6) == 1 && StartingBefore(t, 6) == 1;
    assert Place(t, 5, 20) == Spot(0, 0, false);
    forall y | 15 <= y < 25 ensures Bad(t, y) { assert t[2].Has(y); }
    assert t[2].ack;
    GoodSetIs(t, 512, 5, 20, false);
  }
}
