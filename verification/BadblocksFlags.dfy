/**
The other side of the acknowledged flag, for the sets that record the right blocks: exactly when every
block set acknowledged is acknowledged afterwards, and exactly when every acknowledged block outside the
new range stays so. All conditions are on the table and the range before the call.
*/
module BadblocksFlags {
  import opened BadblocksModel
  import opened BadblocksClear
  import opened BadblocksSet
  import opened BadblocksAck

  /** A block of a sorted table has one flag. */
  lemma OneFlag(t: seq<Entry>, y: int)
    requires Sorted(t)
    ensures !(BadAs(t, y, true) && BadAs(t, y, false))
    ensures Bad(t, y) <==> BadAs(t, y, true) || BadAs(t, y, false)
  {
    if Bad(t, y) {
      var i :| 0 <= i < |t| && t[i].Has(y);
      assert BadAs(t, y, t[i].ack);
    }
  }

  /** Every block of the new range is acknowledged. */
  ghost predicate NewAcked(q: seq<Entry>, s: int, sectors: int) {
    forall y :: s <= y < s + sectors ==> BadAs(q, y, true)
  }

  /** Every block outside the new range that was acknowledged is so afterwards. */
  ghost predicate OldStays(t: seq<Entry>, q: seq<Entry>, s: int, sectors: int) {
    forall y :: !(s <= y < s + sectors) && BadAs(t, y, true) ==> BadAs(q, y, true)
  }

  // ----- the parts -----

  /** The range that took the new blocks in is joined with the next one. */
  predicate JoinsNext(t: seq<Entry>, p: Spot, end: int) {
    && TakesIn(t, p.k, end) && Reach(t, p.k, end) - p.from <= MAX_LEN
    && p.k + 1 < |t| && t[p.k + 1].start <= Reach(t, p.k, end) && t[p.k + 1].End() - p.from < MAX_LEN
  }

  /** What stands between the ranges before the spot and those left alone after it. */
  ghost function Mids(t: seq<Entry>, p: Spot, m: Entry, end: int, ack: bool): seq<Entry> {
    if !TakesIn(t, p.k, end) then [Entry(p.from, end - p.from, ack)]
    else if JoinsNext(t, p, end) then [Entry(m.start, t[p.k + 1].End() - m.start, m.ack && t[p.k + 1].ack)]
    else if Reach(t, p.k, end) - p.from <= MAX_LEN then [m]
    else [m, Entry(p.from + MAX_LEN, Reach(t, p.k, end) - p.from - MAX_LEN, ack)]
  }

  function Alone(t: seq<Entry>, p: Spot, end: int): nat {
    if !TakesIn(t, p.k, end) then p.k else if JoinsNext(t, p, end) then p.k + 2 else p.k + 1
  }

  lemma MadeParts(t: seq<Entry>, p: Spot, left: seq<Entry>, m: Entry, s: int, end: int, ack: bool)
    requires p.k <= |t| && MadeFrom(t, p, m, s, end, ack)
    ensures Alone(t, p, end) <= |t|
    ensures Made(t, p, left, m, end, ack) == left + Mids(t, p, m, end, ack) + t[Alone(t, p, end)..]
  {
    if TakesIn(t, p.k, end) {
      if JoinsNext(t, p, end) {
        assert t[p.k + 1..][1..] == t[p.k + 2..];
      } else if Reach(t, p.k, end) - p.from > MAX_LEN {
        var n := Entry(p.from + MAX_LEN, Reach(t, p.k, end) - p.from - MAX_LEN, ack);
        assert left + [m] + [n] == left + [m, n];
      }
    }
  }

  /** A block has a flag after the set exactly if it has it in one of the parts. */
  lemma FlagIn(t: seq<Entry>, p: Spot, left: seq<Entry>, m: Entry, s: int, end: int, ack: bool, y: int, a: bool)
    requires p.k <= |t| && MadeFrom(t, p, m, s, end, ack)
    ensures Alone(t, p, end) <= |t|
    ensures BadAs(Made(t, p, left, m, end, ack), y, a) <==>
              BadAs(left, y, a) || BadAs(Mids(t, p, m, end, ack), y, a) || BadAs(t[Alone(t, p, end)..], y, a)
  {
    MadeParts(t, p, left, m, s, end, ack);
    BadAsConcat(left + Mids(t, p, m, end, ack), t[Alone(t, p, end)..], y, a);
    BadAsConcat(left, Mids(t, p, m, end, ack), y, a);
  }

  /** If the set fits, what is left alone right after the spot starts after the new range. */
  lemma AloneLate(t: seq<Entry>, p: Spot, end: int)
    requires FitsAt(t, p, end) && p.k <= |t| && Alone(t, p, end) < |t| && !JoinsNext(t, p, end)
    ensures end <= t[Alone(t, p, end)].start
  {
  }

  // ----- the new blocks, set acknowledged -----

  /** The range before the spot, if it was filled up or found full, does not keep new blocks unacknowledged. */
  ghost predicate BeforeAcks(t: seq<Entry>, p: Spot, s: int) {
    p.filled && 0 < p.k <= |t| ==>
      var e := t[p.k - 1];
      e.ack || (if e.len == MAX_LEN then s == e.End() else s == e.start)
  }

  /** The range that takes the new blocks in is acknowledged or covered by them, and so is one joined to it. */
  ghost predicate SpotAcks(t: seq<Entry>, p: Spot, s: int, end: int) {
    TakesIn(t, p.k, end) ==>
      && (t[p.k].ack || (s <= t[p.k].start && t[p.k].End() <= end))
      && (JoinsNext(t, p, end) ==> t[p.k + 1].ack)
  }

  /** No unacknowledged range starts inside the new one after the two that can be joined. */
  ghost predicate LaterAcks(t: seq<Entry>, p: Spot, end: int) {
    forall j :: p.k + 2 <= j < |t| && t[j].start < end ==> t[j].ack
  }

  /** All blocks of the range become acknowledged if it is set so. */
  ghost predicate Acknowledges(t: seq<Entry>, s: int, sectors: int) {
    var p, end := Place(t, s, sectors), s + sectors;
    BeforeAcks(t, p, s) && SpotAcks(t, p, s, end) && LaterAcks(t, p, end)
  }

  /** Some block of the new range is in an unacknowledged range before the spot. */
  ghost predicate Lagging(q: seq<Entry>, s: int, end: int) {
    exists y :: s <= y < end && BadAs(q, y, false)
  }

  lemma FilledFlag(e: Entry, s: int, sectors: int)
    requires 1 <= e.len <= MAX_LEN && e.start <= s <= e.End() && s + sectors - e.start > MAX_LEN
    ensures var g := GrowBack(e, s, sectors, true).e;
            && g.start == e.start && g.len == MAX_LEN
            && (!g.ack && s < g.End() <==> !(e.ack || (if e.len == MAX_LEN then s == e.End() else s == e.start)))
  {
    BackHonest(e, s, sectors, true);
  }

  lemma BeforeLags(t: seq<Entry>, hi: nat, s: int, sectors: int)
    requires Sorted(t) && sectors >= 1 && Splits(t, hi, s)
    ensures var p := PlaceAt(t, hi, s, sectors);
            Lagging(Before(t, p, s, sectors, true), s, s + sectors) <==> !BeforeAcks(t, p, s)
  {
    var p := PlaceAt(t, hi, s, sectors);
    var left := Before(t, p, s, sectors, true);
    BeforeEndsAs(t, hi, s, sectors, true);
    if p.filled {
      FilledFlag(t[hi - 1], s, sectors);
      assert left[p.k - 1] == GrowBack(t[hi - 1], s, sectors, true).e;
      if !BeforeAcks(t, p, s) { Mine(left, p.k - 1, s, false); }
    }
  }

  /** The ranges before the spot end before the new one, but for one that was filled up. */
  lemma BeforeEndsAs(t: seq<Entry>, hi: nat, s: int, sectors: int, ack: bool)
    requires Sorted(t) && sectors >= 0 && Splits(t, hi, s)
    ensures var p := PlaceAt(t, hi, s, sectors); var left := Before(t, p, s, sectors, ack);
            && |left| == p.k
            && forall i :: 0 <= i < (if p.filled then p.k - 1 else p.k) ==> left[i].End() <= s
  {
    assert forall i :: 0 <= i < hi - 1 ==> t[i].End() <= t[hi - 1].start;
  }

  lemma MidsLag(t: seq<Entry>, p: Spot, m: Entry, s: int, end: int)
    requires p.k <= |t| && MadeFrom(t, p, m, s, end, true) && p.from < end && s < end && s - p.from < MAX_LEN
    requires JoinsNext(t, p, end) ==> s < t[p.k + 1].End() && p.from < t[p.k + 1].End()
    ensures Lagging(Mids(t, p, m, end, true), s, end) <==> !SpotAcks(t, p, s, end)
  {
    var ms := Mids(t, p, m, end, true);
    var y := if p.from < s then s else p.from;
    if TakesIn(t, p.k, end) {
      assert ms[0].Has(y);
      if !ms[0].ack { Mine(ms, 0, y, false); }
    }
  }

  /** Among what is left alone, only ranges after the two that can be joined start inside the new range. */
  lemma AloneLagging(t: seq<Entry>, p: Spot, k: nat, s: int, end: int, y: int)
    requires Sorted(t) && k <= |t| && s <= y < end && BadAs(t[k..], y, false)
    requires k < p.k + 2 && k < |t| ==> end <= t[k].start
    ensures !LaterAcks(t, p, end)
  {
    var i :| 0 <= i < |t[k..]| && t[k..][i].Has(y) && !t[k..][i].ack;
    assert t[k..][i] == t[k + i];
  }

  lemma AloneLags(t: seq<Entry>, p: Spot, s: int, end: int)
    requires Sorted(t) && p.k <= |t| && Alone(t, p, end) <= |t| && FitsAt(t, p, end)
    requires forall j :: p.k + 2 <= j < |t| ==> s < t[j].start
    ensures Lagging(t[Alone(t, p, end)..], s, end) <==> !LaterAcks(t, p, end)
  {
    var k := Alone(t, p, end);
    if k < |t| && !JoinsNext(t, p, end) { AloneLate(t, p, end); }
    if Lagging(t[k..], s, end) {
      var y :| s <= y < end && BadAs(t[k..], y, false);
      AloneLagging(t, p, k, s, end, y);
    }
    if !LaterAcks(t, p, end) {
      var j :| p.k + 2 <= j < |t| && t[j].start < end && !t[j].ack;
      Mine(t[k..], j - k, t[j].start, false);
    }
  }

  lemma MadeLags(t: seq<Entry>, p: Spot, left: seq<Entry>, m: Entry, s: int, end: int)
    requires p.k <= |t| && MadeFrom(t, p, m, s, end, true)
    ensures Alone(t, p, end) <= |t|
    ensures Lagging(Made(t, p, left, m, end, true), s, end) <==>
              Lagging(left, s, end) || Lagging(Mids(t, p, m, end, true), s, end)
              || Lagging(t[Alone(t, p, end)..], s, end)
  {
    forall y ensures BadAs(Made(t, p, left, m, end, true), y, false) <==>
                       BadAs(left, y, false) || BadAs(Mids(t, p, m, end, true), y, false)
                       || BadAs(t[Alone(t, p, end)..], y, false)
    {
      FlagIn(t, p, left, m, s, end, true, y, false);
    }
    MadeParts(t, p, left, m, s, end, true);
  }

  /** What the spot is like. */
  lemma SpotIs(t: seq<Entry>, hi: nat, s: int, sectors: int)
    requires Sorted(t) && sectors >= 1 && Splits(t, hi, s)
    ensures var p := PlaceAt(t, hi, s, sectors);
            && p.k <= |t| && p.from < s + sectors && s - p.from < MAX_LEN
            && (forall j :: p.k + 1 <= j < |t| ==> s < t[j].start < t[j].End())
            && (p.k + 1 < |t| && p.k < hi ==> p.from < t[p.k + 1].End())
  {
    forall j | hi <= j < |t| ensures s < t[j].start { assert t[hi..][j - hi] == t[j]; }
  }

  /** What the place of the new blocks gives. */
  ghost predicate NewPlaced(t: seq<Entry>, p: Spot, left: seq<Entry>, s: int, end: int) {
    && p.k <= |t| && p.from < end && s < end && s - p.from < MAX_LEN
    && (forall j :: p.k + 1 <= j < |t| ==> s < t[j].start < t[j].End())
    && (Lagging(left, s, end) <==> !BeforeAcks(t, p, s))
  }

  lemma NewPlacedIs(t: seq<Entry>, s: int, sectors: int)
    requires Sorted(t) && sectors >= 1
    ensures var p := Place(t, s, sectors); NewPlaced(t, p, Before(t, p, s, sectors, true), s, s + sectors)
  {
    StartingBeforeIs(t, s + 1);
    var hi := StartingBefore(t, s + 1);
    SpotIs(t, hi, s, sectors);
    BeforeLags(t, hi, s, sectors);
  }

  lemma NextReaches(t: seq<Entry>, p: Spot, end: int)
    requires FitsAt(t, p, end) && JoinsNext(t, p, end) && Sorted(t) && p.from < end
    ensures p.from < t[p.k + 1].End()
  {
  }

  lemma AcksExact(t: seq<Entry>, q: seq<Entry>, p: Spot, left: seq<Entry>, s: int, end: int, m: Entry)
    requires Sorted(t) && NewPlaced(t, p, left, s, end) && MadeFrom(t, p, m, s, end, true) && FitsAt(t, p, end)
    requires q == Made(t, p, left, m, end, true)
    ensures Lagging(q, s, end) <==> !(BeforeAcks(t, p, s) && SpotAcks(t, p, s, end) && LaterAcks(t, p, end))
  {
    if JoinsNext(t, p, end) { NextReaches(t, p, end); }
    MadeLags(t, p, left, m, s, end);
    MidsLag(t, p, m, s, end);
    AloneLags(t, p, s, end);
  }

  lemma LaggingIs(t: seq<Entry>, q: seq<Entry>, s: int, sectors: int)
    requires Recorded(t, q, s, sectors)
    ensures NewAcked(q, s, sectors) <==> !Lagging(q, s, s + sectors)
  {
    forall y ensures !(BadAs(q, y, true) && BadAs(q, y, false))
      ensures Bad(q, y) <==> BadAs(q, y, true) || BadAs(q, y, false)
    {
      OneFlag(q, y);
    }
    if !NewAcked(q, s, sectors) {
      var y :| s <= y < s + sectors && !BadAs(q, y, true);
      assert Bad(q, y);
    }
  }

  /**
  A set of acknowledged blocks that records the right ones leaves all of them acknowledged, if and only if
  every range they end up in was acknowledged, or is covered by them and grown.
  */
  lemma AckedExact(t: seq<Entry>, capacity: nat, s: int, sectors: int)
    requires Sorted(t) && sectors >= 0 && |t| <= capacity
    requires !Store(t, capacity, s, sectors, true).full && Fits(t, s, sectors)
    ensures NewAcked(Store(t, capacity, s, sectors, true).entries, s, sectors)
            <==> sectors == 0 || Acknowledges(t, s, sectors)
  {
    if sectors > 0 {
      StoreExact(t, capacity, s, sectors, true);
      LaggingIs(t, Store(t, capacity, s, sectors, true).entries, s, sectors);
      SomeAckedExact(t, capacity, s, sectors);
    }
  }

  lemma SomeAckedExact(t: seq<Entry>, capacity: nat, s: int, sectors: int)
    requires Sorted(t) && sectors >= 1 && |t| <= capacity
    requires !Store(t, capacity, s, sectors, true).full && Fits(t, s, sectors)
    ensures Lagging(Store(t, capacity, s, sectors, true).entries, s, s + sectors) <==> !Acknowledges(t, s, sectors)
  {
    var m := StoredAs(t, capacity, s, sectors, true);
    var p := Place(t, s, sectors);
    AcksMade(t, Store(t, capacity, s, sectors, true).entries, p, Before(t, p, s, sectors, true), s, sectors, m);
  }

  lemma AcksMade(t: seq<Entry>, q: seq<Entry>, p: Spot, left: seq<Entry>, s: int, sectors: int, m: Entry)
    requires Sorted(t) && sectors >= 1 && p == Place(t, s, sectors) && left == Before(t, p, s, sectors, true)
    requires MadeFrom(t, p, m, s, s + sectors, true) && FitsAt(t, p, s + sectors)
    requires q == Made(t, p, left, m, s + sectors, true)
    ensures Lagging(q, s, s + sectors) <==> !Acknowledges(t, s, sectors)
  {
    NewPlacedIs(t, s, sectors);
    AcksExact(t, q, p, left, s, s + sectors, m);
  }

  // ----- old acknowledged blocks -----

  /** The range before the spot keeps its flag if it has blocks of its own. */
  ghost predicate BeforeStays(t: seq<Entry>, p: Spot, s: int, ack: bool) {
    p.filled && 0 < p.k <= |t| && t[p.k - 1].len < MAX_LEN && t[p.k - 1].ack && t[p.k - 1].start < s ==> ack
  }

  /** So do the range that takes the new blocks in and one joined to it. */
  ghost predicate SpotStays(t: seq<Entry>, p: Spot, s: int, end: int, ack: bool) {
    TakesIn(t, p.k, end) ==>
      var e := t[p.k];
      && (e.ack && (e.start < s || end < e.End()) ==> ack && (JoinsNext(t, p, end) ==> t[p.k + 1].ack))
      && (JoinsNext(t, p, end) && t[p.k + 1].ack && end < t[p.k + 1].End() ==>
            ack && (e.ack || (s <= e.start && e.End() <= end)))
  }

  ghost predicate Stays(t: seq<Entry>, s: int, sectors: int, ack: bool) {
    var p := Place(t, s, sectors);
    BeforeStays(t, p, s, ack) && SpotStays(t, p, s, s + sectors, ack)
  }

  /** Some acknowledged block outside the new range is unacknowledged in this part. */
  ghost predicate Loses(t: seq<Entry>, q: seq<Entry>, s: int, end: int) {
    exists y :: !(s <= y < end) && BadAs(t, y, true) && BadAs(q, y, false)
  }

  lemma BeforeLoses(t: seq<Entry>, hi: nat, s: int, sectors: int, ack: bool)
    requires Sorted(t) && sectors >= 0 && Splits(t, hi, s)
    ensures var p := PlaceAt(t, hi, s, sectors);
            Loses(t, Before(t, p, s, sectors, ack), s, s + sectors) <==> !BeforeStays(t, p, s, ack)
  {
    var p := PlaceAt(t, hi, s, sectors);
    var left := Before(t, p, s, sectors, ack);
    forall y ensures !(BadAs(t, y, true) && BadAs(t, y, false)) { OneFlag(t, y); }
    if Loses(t, left, s, s + sectors) {
      var y :| !(s <= y < s + sectors) && BadAs(t, y, true) && BadAs(left, y, false);
      BeforeLost(t, hi, s, sectors, ack, y);
    }
    if !BeforeStays(t, p, s, ack) {
      BackHonest(t[hi - 1], s, sectors, ack);
      Mine(left, p.k - 1, t[hi - 1].start, false);
      Mine(t, hi - 1, t[hi - 1].start, true);
    }
  }

  lemma BeforeLost(t: seq<Entry>, hi: nat, s: int, sectors: int, ack: bool, y: int)
    requires Sorted(t) && sectors >= 0 && Splits(t, hi, s) && !(s <= y < s + sectors)
    requires BadAs(Before(t, PlaceAt(t, hi, s, sectors), s, sectors, ack), y, false) && !BadAs(t, y, false)
    ensures !BeforeStays(t, PlaceAt(t, hi, s, sectors), s, ack)
  {
    var p := PlaceAt(t, hi, s, sectors);
    var left := Before(t, p, s, sectors, ack);
    var i :| 0 <= i < |left| && left[i].Has(y) && !left[i].ack;
    if p.filled && i == p.k - 1 {
      BackHonest(t[hi - 1], s, sectors, ack);
    }
  }

  ghost predicate Own(t: seq<Entry>, p: Spot, s: int, end: int, y: int)
    requires TakesIn(t, p.k, end)
  {
    p.from <= y < Reach(t, p.k, end) && !(s <= y < end) ==> t[p.k].Has(y)
  }

  /** Of the parts at the spot, the blocks outside the new range are those of the old range there. */
  ghost predicate OwnBlocks(t: seq<Entry>, p: Spot, s: int, end: int) {
    && (!TakesIn(t, p.k, end) ==> s <= p.from)
    && (TakesIn(t, p.k, end) ==>
          && (forall y {:trigger Own(t, p, s, end, y)} :: Own(t, p, s, end, y))
          && (t[p.k].start < s ==> p.from == t[p.k].start && Reach(t, p.k, end) - p.from <= MAX_LEN))
  }

  lemma OwnBlocksIs(t: seq<Entry>, hi: nat, s: int, sectors: int)
    requires Sorted(t) && sectors >= 0 && Splits(t, hi, s)
    ensures OwnBlocks(t, PlaceAt(t, hi, s, sectors), s, s + sectors)
  {
    var p := PlaceAt(t, hi, s, sectors);
    if hi < |t| { assert t[hi..][0] == t[hi]; }
    if TakesIn(t, p.k, s + sectors) {
      forall y {:trigger Own(t, p, s, s + sectors, y)} ensures Own(t, p, s, s + sectors, y) {
        if p.from <= y < Reach(t, p.k, s + sectors) && !(s <= y < s + sectors) { SpotBlocks(t, hi, s, sectors, y); }
      }
    }
  }

  ghost predicate AtSpot(t: seq<Entry>, p: Spot, s: int, end: int) {
    s <= end && (TakesIn(t, p.k, end) ==> p.from < Max(end, t[p.k].start + 1))
  }

  /** The old range at the spot has an acknowledged block outside the new one. */
  lemma SpotLost(t: seq<Entry>, p: Spot, m: Entry, s: int, end: int, ack: bool) returns (y: int)
    requires Sorted(t) && MadeFrom(t, p, m, s, end, ack) && OwnBlocks(t, p, s, end) && AtSpot(t, p, s, end)
    requires TakesIn(t, p.k, end) && t[p.k].ack && (t[p.k].start < s || end < t[p.k].End())
    requires !(ack && (JoinsNext(t, p, end) ==> t[p.k + 1].ack))
    ensures !(s <= y < end) && BadAs(t, y, true) && BadAs(Mids(t, p, m, end, ack), y, false)
  {
    var ms := Mids(t, p, m, end, ack);
    y := if t[p.k].start < s then t[p.k].start else t[p.k].End() - 1;
    Mine(t, p.k, y, true);
    Mine(ms, if ms[0].Has(y) then 0 else 1, y, false);
  }

  lemma NextLost(t: seq<Entry>, p: Spot, m: Entry, s: int, end: int, ack: bool) returns (y: int)
    requires Sorted(t) && MadeFrom(t, p, m, s, end, ack) && AtSpot(t, p, s, end)
    requires JoinsNext(t, p, end) && t[p.k + 1].ack && end < t[p.k + 1].End() && !m.ack
    ensures !(s <= y < end) && BadAs(t, y, true) && BadAs(Mids(t, p, m, end, ack), y, false)
  {
    y := t[p.k + 1].End() - 1;
    Mine(t, p.k + 1, y, true);
    Mine(Mids(t, p, m, end, ack), 0, y, false);
  }

  lemma MidsLost(t: seq<Entry>, p: Spot, m: Entry, s: int, end: int, ack: bool, y: int)
    requires Sorted(t) && MadeFrom(t, p, m, s, end, ack) && OwnBlocks(t, p, s, end) && AtSpot(t, p, s, end)
    requires !(s <= y < end) && !BadAs(t, y, false) && BadAs(Mids(t, p, m, end, ack), y, false)
    ensures !SpotStays(t, p, s, end, ack)
  {
    var ms := Mids(t, p, m, end, ack);
    var i :| 0 <= i < |ms| && ms[i].Has(y) && !ms[i].ack;
    if TakesIn(t, p.k, end) && y < Reach(t, p.k, end) {
      assert Own(t, p, s, end, y);
    }
  }

  lemma MidsLose(t: seq<Entry>, p: Spot, m: Entry, s: int, end: int, ack: bool)
    requires Sorted(t) && MadeFrom(t, p, m, s, end, ack) && OwnBlocks(t, p, s, end) && AtSpot(t, p, s, end)
    ensures Loses(t, Mids(t, p, m, end, ack), s, end) <==> !SpotStays(t, p, s, end, ack)
  {
    var ms := Mids(t, p, m, end, ack);
    if Loses(t, ms, s, end) {
      var y :| !(s <= y < end) && BadAs(t, y, true) && BadAs(ms, y, false);
      OneFlag(t, y);
      MidsLost(t, p, m, s, end, ack, y);
    }
    if !SpotStays(t, p, s, end, ack) {
      var e := t[p.k];
      if e.ack && (e.start < s || end < e.End()) && !(ack && (JoinsNext(t, p, end) ==> t[p.k + 1].ack)) {
        var y := SpotLost(t, p, m, s, end, ack);
      } else {
        var y := NextLost(t, p, m, s, end, ack);
      }
    }
  }

  lemma MadeLoses(t: seq<Entry>, p: Spot, left: seq<Entry>, m: Entry, s: int, end: int, ack: bool)
    requires Sorted(t) && p.k <= |t| && MadeFrom(t, p, m, s, end, ack)
    ensures Loses(t, Made(t, p, left, m, end, ack), s, end) <==>
              Loses(t, left, s, end) || Loses(t, Mids(t, p, m, end, ack), s, end)
  {
    var q, ms, k := Made(t, p, left, m, end, ack), Mids(t, p, m, end, ack), Alone(t, p, end);
    MadeParts(t, p, left, m, s, end, ack);
    forall y ensures BadAs(q, y, false) <==> BadAs(left, y, false) || BadAs(ms, y, false) || BadAs(t[k..], y, false)
      ensures BadAs(t[k..], y, false) ==> !BadAs(t, y, true)
    {
      FlagIn(t, p, left, m, s, end, ack, y, false);
      OneFlag(t, y);
      if BadAs(t[k..], y, false) { Later(t, k, y, false); }
    }
  }

  lemma LosesIs(t: seq<Entry>, q: seq<Entry>, s: int, sectors: int)
    requires Sorted(t) && Recorded(t, q, s, sectors)
    ensures OldStays(t, q, s, sectors) <==> !Loses(t, q, s, s + sectors)
  {
    forall y ensures !(BadAs(q, y, true) && BadAs(q, y, false))
      ensures BadAs(t, y, true) ==> BadAs(q, y, true) || BadAs(q, y, false)
    {
      OneFlag(q, y);
      OneFlag(t, y);
    }
  }

  /** What the place of the new blocks gives. */
  ghost predicate Placed(t: seq<Entry>, p: Spot, left: seq<Entry>, s: int, end: int, ack: bool) {
    && p.k <= |t| && OwnBlocks(t, p, s, end) && AtSpot(t, p, s, end)
    && (Loses(t, left, s, end) <==> !BeforeStays(t, p, s, ack))
  }

  lemma AtSpotIs(t: seq<Entry>, hi: nat, s: int, sectors: int)
    requires Sorted(t) && sectors >= 0 && Splits(t, hi, s)
    ensures AtSpot(t, PlaceAt(t, hi, s, sectors), s, s + sectors)
  {
    if hi < |t| { assert t[hi..][0] == t[hi]; }
  }

  lemma PlacedIs(t: seq<Entry>, s: int, sectors: int, ack: bool)
    requires Sorted(t) && sectors >= 0
    ensures var p := Place(t, s, sectors); Placed(t, p, Before(t, p, s, sectors, ack), s, s + sectors, ack)
  {
    StartingBeforeIs(t, s + 1);
    var hi := StartingBefore(t, s + 1);
    AtSpotIs(t, hi, s, sectors);
    OwnBlocksIs(t, hi, s, sectors);
    BeforeLoses(t, hi, s, sectors, ack);
  }

  lemma StaysAt(t: seq<Entry>, p: Spot, left: seq<Entry>, s: int, end: int, ack: bool, m: Entry)
    requires Sorted(t) && Placed(t, p, left, s, end, ack) && MadeFrom(t, p, m, s, end, ack)
    ensures Loses(t, Made(t, p, left, m, end, ack), s, end)
            <==> !(BeforeStays(t, p, s, ack) && SpotStays(t, p, s, end, ack))
  {
    MadeLoses(t, p, left, m, s, end, ack);
    MidsLose(t, p, m, s, end, ack);
  }

  /** A set of no blocks, as a set that takes none in. */
  lemma NothingMade(t: seq<Entry>, hi: nat, capacity: nat, s: int, ack: bool)
    requires Sorted(t) && Splits(t, hi, s) && 0 < hi && s <= t[hi - 1].End()
    ensures var e := t[hi - 1];
            var p, m := Spot(hi - 1, e.start, false), Entry(e.start, e.len, e.ack && ack);
            && MadeFrom(t, p, m, s, s, ack)
            && Settle(MergeForward(MergeBackAt(t, hi, s, 0, ack), ack), capacity, ack).entries
               == Made(t, p, t[..hi - 1], m, s, ack)
  {
    NothingAt(t, hi, capacity, s, ack);
  }

  lemma StaysMade(t: seq<Entry>, q: seq<Entry>, p: Spot, left: seq<Entry>, s: int, end: int, ack: bool, m: Entry)
    requires Sorted(t) && Placed(t, p, left, s, end, ack) && MadeFrom(t, p, m, s, end, ack)
    requires q == Made(t, p, left, m, end, ack)
    ensures Loses(t, q, s, end) <==> !(BeforeStays(t, p, s, ack) && SpotStays(t, p, s, end, ack))
  {
    StaysAt(t, p, left, s, end, ack, m);
  }

  /** A set of no blocks leaves the table alone if no range reaches s. */
  lemma NothingReached(t: seq<Entry>, capacity: nat, s: int, ack: bool)
    requires Sorted(t) && var hi := StartingBefore(t, s + 1); hi == 0 || t[hi - 1].End() < s
    ensures Store(t, capacity, s, 0, ack).entries == t && Stays(t, s, 0, ack) && !Loses(t, t, s, s)
  {
    NothingAsIs(t, capacity, s, ack);
    forall y ensures !(BadAs(t, y, true) && BadAs(t, y, false)) { OneFlag(t, y); }
  }

  lemma NothingAsIs(t: seq<Entry>, capacity: nat, s: int, ack: bool)
    requires Sorted(t) && var hi := StartingBefore(t, s + 1); hi == 0 || t[hi - 1].End() < s
    ensures Store(t, capacity, s, 0, ack).entries == t && Stays(t, s, 0, ack)
  {
    StartingBeforeIs(t, s + 1);
  }

  lemma NothingPlaced(t: seq<Entry>, hi: nat, s: int, ack: bool)
    requires Sorted(t) && hi == StartingBefore(t, s + 1) && 0 < hi <= |t| && s <= t[hi - 1].End()
    ensures var p := Spot(hi - 1, t[hi - 1].start, false);
            Splits(t, hi, s) && Place(t, s, 0) == p && Before(t, p, s, 0, ack) == t[..hi - 1]
  {
    StartingBeforeIs(t, s + 1);
  }

  lemma NothingStored(t: seq<Entry>, capacity: nat, s: int, ack: bool) returns (m: Entry)
    requires Sorted(t) && var hi := StartingBefore(t, s + 1); hi > 0 && s <= t[hi - 1].End()
    ensures var p := Place(t, s, 0);
            && MadeFrom(t, p, m, s, s, ack)
            && Store(t, capacity, s, 0, ack).entries == Made(t, p, Before(t, p, s, 0, ack), m, s, ack)
  {
    var hi := StartingBefore(t, s + 1);
    NothingPlaced(t, hi, s, ack);
    NothingMade(t, hi, capacity, s, ack);
    m := Entry(t[hi - 1].start, t[hi - 1].len, t[hi - 1].ack && ack);
  }

  lemma StaysPlaced(t: seq<Entry>, q: seq<Entry>, p: Spot, left: seq<Entry>, s: int, sectors: int, ack: bool, m: Entry)
    requires Sorted(t) && sectors >= 0 && p == Place(t, s, sectors) && left == Before(t, p, s, sectors, ack)
    requires MadeFrom(t, p, m, s, s + sectors, ack) && q == Made(t, p, left, m, s + sectors, ack)
    ensures Loses(t, q, s, s + sectors) <==> !Stays(t, s, sectors, ack)
  {
    PlacedIs(t, s, sectors, ack);
    StaysMade(t, q, p, left, s, s + sectors, ack, m);
  }

  lemma NothingStaysExact(t: seq<Entry>, capacity: nat, s: int, ack: bool)
    requires Sorted(t)
    ensures Loses(t, Store(t, capacity, s, 0, ack).entries, s, s) <==> !Stays(t, s, 0, ack)
  {
    var hi := StartingBefore(t, s + 1);
    if hi > 0 && s <= t[hi - 1].End() {
      var m := NothingStored(t, capacity, s, ack);
      var p := Place(t, s, 0);
      StaysPlaced(t, Store(t, capacity, s, 0, ack).entries, p, Before(t, p, s, 0, ack), s, 0, ack, m);
    } else {
      NothingReached(t, capacity, s, ack);
    }
  }

  lemma SomeStaysExact(t: seq<Entry>, capacity: nat, s: int, sectors: int, ack: bool)
    requires Sorted(t) && sectors >= 1 && |t| <= capacity
    requires !Store(t, capacity, s, sectors, ack).full && Fits(t, s, sectors)
    ensures Loses(t, Store(t, capacity, s, sectors, ack).entries, s, s + sectors) <==> !Stays(t, s, sectors, ack)
  {
    var m := StoredAs(t, capacity, s, sectors, ack);
    var p := Place(t, s, sectors);
    StaysPlaced(t, Store(t, capacity, s, sectors, ack).entries, p, Before(t, p, s, sectors, ack), s, sectors, ack, m);
  }

  /**
  A set that records the right blocks leaves every acknowledged block outside the new range acknowledged, if
  and only if no range with such blocks is grown or joined by unacknowledged ones.
  */
  lemma StaysExact(t: seq<Entry>, capacity: nat, s: int, sectors: int, ack: bool)
    requires Sorted(t) && sectors >= 0 && |t| <= capacity
    requires !Store(t, capacity, s, sectors, ack).full && Fits(t, s, sectors)
    ensures OldStays(t, Store(t, capacity, s, sectors, ack).entries, s, sectors) <==> Stays(t, s, sectors, ack)
  {
    StoreExact(t, capacity, s, sectors, ack);
    LosesIs(t, Store(t, capacity, s, sectors, ack).entries, s, sectors);
    if sectors > 0 {
      SomeStaysExact(t, capacity, s, sectors, ack);
    } else {
      NothingStaysExact(t, capacity, s, ack);
    }
  }

  /** What a set that succeeds makes of the table: the blocks it records, and the flags of new and old ones. */
  ghost predicate RightlySet(t: seq<Entry>, q: Stored, s: int, sectors: int, ack: bool) {
    !q.full && Fits(t, s, sectors) ==>
      && Recorded(t, q.entries, s, sectors)
      && (ack ==> (NewAcked(q.entries, s, sectors) <==> sectors == 0 || Acknowledges(t, s, sectors)))
      && (OldStays(t, q.entries, s, sectors) <==> Stays(t, s, sectors, ack))
  }

  lemma StoreRight(t: seq<Entry>, capacity: nat, s: int, sectors: int, ack: bool)
    requires Sorted(t) && sectors >= 0 && |t| <= capacity
    ensures RightlySet(t, Store(t, capacity, s, sectors, ack), s, sectors, ack)
  {
    var q := Store(t, capacity, s, sectors, ack);
    if !q.full && Fits(t, s, sectors) {
      StoreExact(t, capacity, s, sectors, ack);
      if ack { AckedExact(t, capacity, s, sectors); }
      StaysExact(t, capacity, s, sectors, ack);
    }
  }

  // ----- acknowledging a recorded range -----

  lemma StartsHere(t: seq<Entry>, i: nat)
    requires Sorted(t) && i < |t|
    ensures StartingBefore(t, t[i].start + 1) == i + 1
  {
    StartingBeforeIs(t, t[i].start + 1);
  }

  /**
  Setting exactly a recorded range again, acknowledged, acknowledges it unless the range after it meets it, is
  unacknowledged and short enough to be joined.
  */
  lemma Reacknowledge(t: seq<Entry>, i: nat, capacity: nat)
    requires Sorted(t) && i < |t| <= capacity
    ensures var e, q := t[i], Store(t, capacity, t[i].start, t[i].len, true);
            && !q.full && Recorded(t, q.entries, e.start, e.len)
            && (NewAcked(q.entries, e.start, e.len) <==>
                  !(i + 1 < |t| && t[i + 1].start == e.End() && t[i + 1].End() - e.start < MAX_LEN && !t[i + 1].ack))
  {
    var e := t[i];
    StartsHere(t, i);
    assert Place(t, e.start, e.len) == Spot(i, e.start, false);
    StoreFull(t, capacity, e.start, e.len, true);
    StoreExact(t, capacity, e.start, e.len, true);
    AckedExact(t, capacity, e.start, e.len);
  }

  lemma MeetsUnacked(t: seq<Entry>, i: nat, capacity: nat)
    requires Sorted(t) && i + 1 < |t| <= capacity
    requires t[i + 1].start == t[i].End() && t[i + 1].End() - t[i].start < MAX_LEN && !t[i + 1].ack
    ensures !NewAcked(Store(t, capacity, t[i].start, t[i].len, true).entries, t[i].start, t[i].len)
  {
    Reacknowledge(t, i, capacity);
  }

  /** Two unacknowledged ranges that meet: acknowledging the first leaves one unacknowledged range. */
  lemma JoinedStaysUnacked(t: seq<Entry>, capacity: nat)
    requires t == [Entry(0, 8, false), Entry(8, 8, false)] && |t| <= capacity
    ensures Sorted(t) && !NewAcked(Store(t, capacity, t[0].start, t[0].len, true).entries, t[0].start, t[0].len)
  {
    MeetsUnacked(t, 0, capacity);
  }

  lemma LosesFlag(t: seq<Entry>, capacity: nat, s: int)
    requires GoodSet(t, capacity, s, 1) && !Stays(t, s, 1, false)
    ensures !OldStays(t, Store(t, capacity, s, 1, false).entries, s, 1)
  {
    GoodSetIs(t, capacity, s, 1, false);
    StaysExact(t, capacity, s, 1, false);
  }

  lemma NextTo(t: seq<Entry>, capacity: nat, s: int)
    requires t == [Entry(0, 8, true)] && s == 8 && capacity == 512
    ensures GoodSet(t, capacity, s, 1) && !Stays(t, s, 1, false)
  {
    StartingBeforeIs(t, s + 1);
    assert Place(t, s, 1) == Spot(0, 0, false);
  }

  /** An unacknowledged block set next to an acknowledged range takes its flag away. */
  lemma NeighbourLosesFlag(t: seq<Entry>, capacity: nat, s: int)
    requires t == [Entry(0, 8, true)] && s == 8 && capacity == 512
    ensures GoodSet(t, capacity, s, 1) && !OldStays(t, Store(t, capacity, s, 1, false).entries, s, 1)
  {
    NextTo(t, capacity, s);
    LosesFlag(t, capacity, s);
  }
}
