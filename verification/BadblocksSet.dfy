/**
badblocks_set, through every merge, overflow, combine and insert path: how many new ranges it needs,
exactly which successful calls record exactly the old blocks and the new ones, and exactly which failing
calls drop blocks that were recorded. All conditions are on the table and the range before the call.
*/
module BadblocksSet {
  import opened BadblocksModel
  import opened BadblocksClear

  lemma BadConcat(a: seq<Entry>, b: seq<Entry>, x: int)
    ensures Bad(a + b, x) <==> Bad(a, x) || Bad(b, x)
  {
    var c := a + b;
    if Bad(a, x) {
      var i :| 0 <= i < |a| && a[i].Has(x);
      assert c[i] == a[i];
    }
    if Bad(b, x) {
      var i :| 0 <= i < |b| && b[i].Has(x);
      assert c[|a| + i] == b[i];
    }
  }

  lemma BadParts(u: seq<Entry>, e: Entry, v: seq<Entry>, x: int)
    ensures Bad(u + [e] + v, x) <==> Bad(u, x) || e.Has(x) || Bad(v, x)
  {
    BadConcat(u + [e], v, x);
    BadConcat(u, [e], x);
    assert Bad([e], x) <==> e.Has(x) by {
      if e.Has(x) { assert [e][0] == e; }
    }
  }

  lemma SortedParts(u: seq<Entry>, e: Entry, v: seq<Entry>)
    ensures Sorted(u + [e] + v) <==>
            Sorted(u) && Sorted(v) && 1 <= e.len <= MAX_LEN && AllBefore(u, e.start) && AllFrom(v, e.End())
  {
    if Sorted(u) && Sorted(v) && 1 <= e.len <= MAX_LEN && AllBefore(u, e.start) && AllFrom(v, e.End()) {
      SortedConcat(u, [e], e.start);
      SortedConcat(u + [e], v, e.End());
    }
    if Sorted(u + [e] + v) { SortedSplit(u, e, v); }
  }

  lemma SortedSplit(u: seq<Entry>, e: Entry, v: seq<Entry>)
    requires Sorted(u + [e] + v)
    ensures Sorted(u) && Sorted(v) && 1 <= e.len <= MAX_LEN && AllBefore(u, e.start) && AllFrom(v, e.End())
  {
    var t := u + [e] + v;
    assert t[|u|] == e;
    assert forall i :: 0 <= i < |u| ==> t[i] == u[i];
    forall i, j | 0 <= i < j < |v| ensures v[i].End() <= v[j].start {
      assert t[|u| + 1 + i] == v[i] && t[|u| + 1 + j] == v[j];
    }
    forall i | 0 <= i < |v| ensures 1 <= v[i].len <= MAX_LEN && e.End() <= v[i].start {
      assert t[|u| + 1 + i] == v[i];
    }
  }

  lemma SortedHalves(u: seq<Entry>, v: seq<Entry>)
    requires Sorted(u + v)
    ensures Sorted(u) && Sorted(v)
  {
    var t := u + v;
    forall i, j | 0 <= i < j < |u| ensures u[i].End() <= u[j].start { assert t[i] == u[i] && t[j] == u[j]; }
    forall i | 0 <= i < |u| ensures 1 <= u[i].len <= MAX_LEN { assert t[i] == u[i]; }
    forall i, j | 0 <= i < j < |v| ensures v[i].End() <= v[j].start {
      assert t[|u| + i] == v[i] && t[|u| + j] == v[j];
    }
    forall i | 0 <= i < |v| ensures 1 <= v[i].len <= MAX_LEN { assert t[|u| + i] == v[i]; }
  }

  // ----- where the new blocks go -----

  /** Blocks from `from` on still have to be recorded, before or in range k; `filled` if the range before is full. */
  datatype Spot = Spot(k: nat, from: int, filled: bool)

  /**
  The last range that starts at or before s and reaches it takes the new blocks in if they fit into 512;
  if not, it is filled up to 512 first.
  */
  function Place(t: seq<Entry>, s: int, sectors: int): (p: Spot)
    ensures p.k <= |t| && (p.filled ==> p.k > 0)
  {
    PlaceAt(t, StartingBefore(t, s + 1), s, sectors)
  }

  function PlaceAt(t: seq<Entry>, hi: nat, s: int, sectors: int): (p: Spot)
    requires hi <= |t|
    ensures p.k <= |t| && (p.filled ==> p.k > 0)
  {
    if hi == 0 || t[hi - 1].End() < s then Spot(hi, s, false)
    else if s + sectors - t[hi - 1].start <= MAX_LEN then Spot(hi - 1, t[hi - 1].start, false)
    else Spot(hi, t[hi - 1].start + MAX_LEN, true)
  }

  /** The range at k starts early enough to take in what ends at `end`. */
  predicate TakesIn(t: seq<Entry>, k: nat, end: int) {
    k < |t| && t[k].start <= end
  }

  /** Where the range at k ends when it has taken in everything up to `end`. */
  function Reach(t: seq<Entry>, k: nat, end: int): int
    requires k < |t|
  {
    Max(end, t[k].End())
  }

  /** How many blocks are left over for new ranges. */
  function ToInsert(t: seq<Entry>, s: int, sectors: int): int {
    var p, end := Place(t, s, sectors), s + sectors;
    if TakesIn(t, p.k, end) then Max(0, Reach(t, p.k, end) - p.from - MAX_LEN) else end - p.from
  }

  /** The blocks [from, end) do not run into the ranges from z on, or into one that can be joined without loss. */
  ghost predicate FitsBefore(t: seq<Entry>, z: nat, from: int, end: int) {
    z < |t| ==>
      || end <= t[z].start
      || (from < t[z].End() < from + MAX_LEN && forall y :: t[z].End() <= y < end ==> Bad(t, y))
  }

  /** What the caller can check on the table to know that a set will be right. */
  ghost predicate Fits(t: seq<Entry>, s: int, sectors: int) {
    FitsAt(t, Place(t, s, sectors), s + sectors)
  }

  ghost predicate FitsAt(t: seq<Entry>, p: Spot, end: int) {
    if !TakesIn(t, p.k, end) then end - p.from <= MAX_LEN
    else
      var reach := Reach(t, p.k, end);
      if reach - p.from <= MAX_LEN then FitsBefore(t, p.k + 1, p.from, reach)
      else reach - p.from <= 2 * MAX_LEN && (p.k + 1 < |t| ==> reach <= t[p.k + 1].start)
  }

  /** The ranges before the spot, the last of them filled up if it had to be. */
  function Before(t: seq<Entry>, p: Spot, s: int, sectors: int, ack: bool): seq<Entry>
    requires p.k <= |t| && (p.filled ==> p.k > 0)
  {
    if p.filled then t[..p.k - 1] + [GrowBack(t[p.k - 1], s, sectors, ack).e] else t[..p.k]
  }

  /** What the first merge leaves: `left` before the spot, the old ranges from it on. */
  ghost predicate SpotOk(t: seq<Entry>, left: seq<Entry>, p: Spot, s: int, sectors: int) {
    && p.k <= |t| && |left| == p.k && Sorted(left) && AllBefore(left, p.from) && p.from < s + sectors
    && (forall y :: Bad(t[..p.k], y) || (Bad(t[p.k..], y) && y < p.from) ==> Bad(left, y))
    && (forall y :: Bad(left, y) || p.from <= y < s + sectors || Bad(t[p.k..], y)
                    <==> Bad(t, y) || s <= y < s + sectors)
  }

  lemma SpotFilled(u: seq<Entry>, e: Entry, v: seq<Entry>, s: int, sectors: int, ack: bool)
    requires Sorted(u + [e] + v) && sectors >= 1 && e.start <= s <= e.End() && AllFrom(v, s + 1)
    requires s + sectors - e.start > MAX_LEN
    ensures SpotOk(u + [e] + v, u + [GrowBack(e, s, sectors, ack).e],
                   Spot(|u| + 1, e.start + MAX_LEN, true), s, sectors)
  {
    var t, g := u + [e] + v, GrowBack(e, s, sectors, ack).e;
    assert t[|u| + 1..] == v && t[..|u| + 1] == u + [e];
    SortedParts(u, e, v);
    SortedParts(u, g, []);
    assert u + [g] + [] == u + [g];
    assert AllBefore(u + [g], g.End());
    forall y ensures (Bad(u + [e], y) || (Bad(v, y) && y < g.End()) ==> Bad(u + [g], y))
                     && (Bad(u + [g], y) || g.End() <= y < s + sectors || Bad(v, y)
                         <==> Bad(t, y) || s <= y < s + sectors)
    {
      BadParts(u, e, v, y);
      BadParts(u, e, [], y);
      assert u + [e] + [] == u + [e];
      BadParts(u, g, [], y);
    }
  }

  lemma SpotPlain(u: seq<Entry>, v: seq<Entry>, from: int, s: int, sectors: int)
    requires Sorted(u + v) && sectors >= 1 && AllBefore(u, from) && AllFrom(v, from) && from <= s
    requires forall y :: from <= y < s ==> Bad(v, y)
    ensures SpotOk(u + v, u, Spot(|u|, from, false), s, sectors)
  {
    var t := u + v;
    assert t[|u|..] == v && t[..|u|] == u;
    SortedHalves(u, v);
    forall y ensures Bad(u, y) || from <= y < s + sectors || Bad(v, y) <==> Bad(t, y) || s <= y < s + sectors {
      BadConcat(u, v, y);
    }
  }

  lemma SpotTaken(u: seq<Entry>, e: Entry, w: seq<Entry>, s: int, sectors: int)
    requires Sorted(u + [e] + w) && sectors >= 1 && e.start <= s <= e.End()
    ensures SpotOk(u + [e] + w, u, Spot(|u|, e.start, false), s, sectors)
  {
    var v := [e] + w;
    assert u + [e] + w == u + v;
    SortedParts(u, e, w);
    assert v[0] == e;
    SpotPlain(u, v, e.start, s, sectors);
  }

  /** hi ranges start at or before s. */
  ghost predicate Splits(t: seq<Entry>, hi: nat, s: int) {
    hi <= |t| && (forall i :: 0 <= i < hi ==> t[i].start <= s) && AllFrom(t[hi..], s + 1)
  }

  lemma SpotAt(t: seq<Entry>, hi: nat, s: int, sectors: int, ack: bool)
    requires Sorted(t) && sectors >= 1 && Splits(t, hi, s)
    ensures var p := PlaceAt(t, hi, s, sectors); SpotOk(t, Before(t, p, s, sectors, ack), p, s, sectors)
  {
    if hi == 0 || t[hi - 1].End() < s {
      SpotPlainAt(t, hi, s, sectors);
    } else if s + sectors - t[hi - 1].start <= MAX_LEN {
      SpotTakenAt(t, hi, s, sectors);
    } else {
      SpotFilledAt(t, hi, s, sectors, ack);
    }
  }

  lemma SpotPlainAt(t: seq<Entry>, hi: nat, s: int, sectors: int)
    requires Sorted(t) && sectors >= 1 && Splits(t, hi, s) && (hi == 0 || t[hi - 1].End() < s)
    ensures SpotOk(t, t[..hi], Spot(hi, s, false), s, sectors)
  {
    assert t == t[..hi] + t[hi..];
    SpotPlain(t[..hi], t[hi..], s, s, sectors);
  }

  lemma SpotTakenAt(t: seq<Entry>, hi: nat, s: int, sectors: int)
    requires Sorted(t) && sectors >= 1 && Splits(t, hi, s) && 0 < hi && s <= t[hi - 1].End()
    ensures SpotOk(t, t[..hi - 1], Spot(hi - 1, t[hi - 1].start, false), s, sectors)
  {
    assert t == t[..hi - 1] + [t[hi - 1]] + t[hi..];
    SpotTaken(t[..hi - 1], t[hi - 1], t[hi..], s, sectors);
  }

  lemma SpotFilledAt(t: seq<Entry>, hi: nat, s: int, sectors: int, ack: bool)
    requires Sorted(t) && sectors >= 1 && Splits(t, hi, s) && 0 < hi && s <= t[hi - 1].End()
    requires s + sectors - t[hi - 1].start > MAX_LEN
    ensures SpotOk(t, t[..hi - 1] + [GrowBack(t[hi - 1], s, sectors, ack).e],
                   Spot(hi, t[hi - 1].start + MAX_LEN, true), s, sectors)
  {
    var u, e, v := t[..hi - 1], t[hi - 1], t[hi..];
    assert t == u + [e] + v;
    SpotFilled(u, e, v, s, sectors, ack);
  }

  // ----- what the merges leave -----

  /** The range that took the new blocks in, as far as they fit into 512. */
  ghost predicate TookIn(m: Entry, from: int, reach: int) {
    m.start == from && m.len == if reach - from <= MAX_LEN then reach - from else MAX_LEN
  }

  /** Nothing takes the blocks in: they are all left. */
  ghost predicate LeftAll(t: seq<Entry>, left: seq<Entry>, p: Spot, end: int, r: Rest)
    requires p.k <= |t|
  {
    && r.t == left + t[p.k..] && r.s == p.from && r.sectors == end - p.from && r.hi == p.k == |left| && r.lo >= 0
  }

  /** The range at the spot took them in: what is beyond 512 is left. */
  ghost predicate LeftSome(t: seq<Entry>, left: seq<Entry>, p: Spot, end: int, r: Rest)
    requires p.k < |t|
  {
    var reach := Reach(t, p.k, end);
    && |left| == p.k < |r.t| && r.t == left + [r.t[p.k]] + t[p.k + 1..]
    && TookIn(r.t[p.k], p.from, reach) && r.s == r.t[p.k].End()
    && r.sectors == Max(0, reach - p.from - MAX_LEN) && r.lo == p.k && r.hi == p.k + 1
  }

  /** The last range before s takes everything in. */
  lemma BackFits(t: seq<Entry>, hi: nat, s: int, sectors: int, ack: bool)
    requires Sorted(t) && sectors >= 1 && 0 < hi <= |t| && t[hi - 1].start <= s <= t[hi - 1].End()
    requires s + sectors - t[hi - 1].start <= MAX_LEN
    ensures var b := MergeBackAt(t, hi, s, sectors, ack);
            LeftSome(t, t[..hi - 1], Spot(hi - 1, t[hi - 1].start, false), s + sectors, b) && b.sectors == 0
  {
    var g := GrowBack(t[hi - 1], s, sectors, ack);
    assert t[hi - 1 := g.e] == t[..hi - 1] + [g.e] + t[hi..];
  }

  /** It is filled up, and the rest is left. */
  lemma BackFills(t: seq<Entry>, hi: nat, s: int, sectors: int, ack: bool)
    requires Sorted(t) && sectors >= 1 && 0 < hi <= |t| && t[hi - 1].start <= s <= t[hi - 1].End()
    requires s + sectors - t[hi - 1].start > MAX_LEN
    ensures var b, g := MergeBackAt(t, hi, s, sectors, ack), GrowBack(t[hi - 1], s, sectors, ack);
            LeftAll(t, t[..hi - 1] + [g.e], Spot(hi, t[hi - 1].start + MAX_LEN, true), s + sectors, b)
  {
    var g := GrowBack(t[hi - 1], s, sectors, ack);
    assert t[hi - 1 := g.e] == t[..hi - 1] + [g.e] + t[hi..];
  }

  lemma BackAt(t: seq<Entry>, hi: nat, s: int, sectors: int, ack: bool)
    requires Sorted(t) && sectors >= 1 && Splits(t, hi, s)
    ensures var p := PlaceAt(t, hi, s, sectors);
            var left, b := Before(t, p, s, sectors, ack), MergeBackAt(t, hi, s, sectors, ack);
            if p.k < hi then LeftSome(t, left, p, s + sectors, b) && b.sectors == 0
            else LeftAll(t, left, p, s + sectors, b)
  {
    if hi == 0 || t[hi - 1].End() < s {
      assert t == t[..hi] + t[hi..];
    } else if s + sectors - t[hi - 1].start <= MAX_LEN {
      BackFits(t, hi, s, sectors, ack);
    } else {
      BackFills(t, hi, s, sectors, ack);
    }
  }

  lemma ForwardAt(t: seq<Entry>, left: seq<Entry>, p: Spot, end: int, b: Rest, ack: bool)
    requires p.k <= |t| && p.from < end && LeftAll(t, left, p, end, b)
    ensures if TakesIn(t, p.k, end) then LeftSome(t, left, p, end, MergeForward(b, ack))
            else LeftAll(t, left, p, end, MergeForward(b, ack))
  {
    if TakesIn(t, p.k, end) {
      var r := MergeForward(b, ack);
      assert b.t[p.k] == t[p.k];
      assert r.t == left + [r.t[p.k]] + t[p.k + 1..];
    }
  }

  lemma LeftoverAt(t: seq<Entry>, hi: nat, s: int, sectors: int, ack: bool)
    requires Sorted(t) && sectors >= 1 && Splits(t, hi, s)
    ensures var p := PlaceAt(t, hi, s, sectors);
            var left, r := Before(t, p, s, sectors, ack), MergeForward(MergeBackAt(t, hi, s, sectors, ack), ack);
            if TakesIn(t, p.k, s + sectors) then LeftSome(t, left, p, s + sectors, r)
            else LeftAll(t, left, p, s + sectors, r)
  {
    BackAt(t, hi, s, sectors, ack);
    SpotAt(t, hi, s, sectors, ack);
    var p := PlaceAt(t, hi, s, sectors);
    if p.k == hi {
      ForwardAt(t, Before(t, p, s, sectors, ack), p, s + sectors, MergeBackAt(t, hi, s, sectors, ack), ack);
    }
  }

  // ----- the insertions -----

  /** A second insertion before `hi` goes in front of the first and breaks the order. */
  lemma {:induction false} InsertAgain(t: seq<Entry>, capacity: nat, s: int, sectors: int, hi: int, ack: bool)
    requires 0 <= hi < |t| < capacity && sectors > 0 && t[hi].start < s
    ensures !Sorted(InsertRest(t, capacity, s, sectors, hi, ack).entries)
    decreases sectors
  {
    var n := if sectors > MAX_LEN then MAX_LEN else sectors;
    var t' := t[..hi] + [Entry(s, n, ack)] + t[hi..];
    assert t'[hi].start == s && t'[hi + 1] == t[hi];
    if sectors > n && |t'| < capacity {
      InsertAgain(t', capacity, s + n, sectors - n, hi, ack);
    } else {
      assert InsertRest(t, capacity, s, sectors, hi, ack).entries == t';
    }
  }

  lemma InsertTooMany(t: seq<Entry>, capacity: nat, s: int, sectors: int, hi: int, ack: bool)
    requires 0 <= hi <= |t| && |t| + 1 < capacity && sectors > MAX_LEN
    ensures !Sorted(InsertRest(t, capacity, s, sectors, hi, ack).entries)
  {
    InsertAgain(t[..hi] + [Entry(s, MAX_LEN, ack)] + t[hi..], capacity, s + MAX_LEN, sectors - MAX_LEN, hi, ack);
  }

  lemma InsertOne(u: seq<Entry>, v: seq<Entry>, capacity: nat, s: int, sectors: int, ack: bool)
    requires |u + v| < capacity && 0 < sectors <= MAX_LEN
    ensures InsertRest(u + v, capacity, s, sectors, |u|, ack) == Stored(false, u + [Entry(s, sectors, ack)] + v)
  {
    assert (u + v)[..|u|] == u && (u + v)[|u|..] == v;
  }

  /** How many ranges of at most 512 make up so many blocks. */
  function Ranges(sectors: int): nat
    requires sectors >= 0
  {
    (sectors + MAX_LEN - 1) / MAX_LEN
  }

  lemma {:induction false} InsertFull(t: seq<Entry>, capacity: nat, s: int, sectors: int, hi: int, ack: bool)
    requires 0 <= hi <= |t| <= capacity && sectors >= 0
    ensures InsertRest(t, capacity, s, sectors, hi, ack).full <==> |t| + Ranges(sectors) > capacity
    decreases sectors
  {
    if sectors > 0 && |t| < capacity {
      var n := if sectors > MAX_LEN then MAX_LEN else sectors;
      InsertFull(t[..hi] + [Entry(s, n, ack)] + t[hi..], capacity, s + n, sectors - n, hi, ack);
    }
  }

  /** A failing insertion loop has recorded as many blocks as there was room for, and dropped none. */
  lemma {:induction false} InsertFullBad(t: seq<Entry>, capacity: nat, s: int, sectors: int, hi: int, ack: bool, y: int)
    requires 0 <= hi <= |t| <= capacity && InsertRest(t, capacity, s, sectors, hi, ack).full
    ensures Bad(InsertRest(t, capacity, s, sectors, hi, ack).entries, y)
            <==> Bad(t, y) || s <= y < s + MAX_LEN * (capacity - |t|)
    decreases sectors
  {
    if |t| < capacity {
      var e := Entry(s, MAX_LEN, ack);
      assert sectors > MAX_LEN;
      InsertFullBad(t[..hi] + [e] + t[hi..], capacity, s + MAX_LEN, sectors - MAX_LEN, hi, ack, y);
      BadParts(t[..hi], e, t[hi..], y);
      BadConcat(t[..hi], t[hi..], y);
      assert t == t[..hi] + t[hi..];
    }
  }

  // ----- exactly when a set is right -----

  /** The table records exactly what was recorded before and the new blocks, in order. */
  ghost predicate Recorded(t: seq<Entry>, q: seq<Entry>, s: int, sectors: int) {
    Sorted(q) && forall y :: Bad(q, y) <==> Bad(t, y) || s <= y < s + sectors
  }

  /** Sorted, and exactly the blocks of `left`, of [from, end) and of v. */
  ghost predicate Exactly(q: seq<Entry>, left: seq<Entry>, from: int, end: int, v: seq<Entry>) {
    Sorted(q) && forall y :: Bad(q, y) <==> Bad(left, y) || from <= y < end || Bad(v, y)
  }

  /** A range put between two halves is in place if and only if it ends before the second. */
  lemma BetweenExact(left: seq<Entry>, m: Entry, w: seq<Entry>)
    requires Sorted(left) && Sorted(w) && AllBefore(left, m.start)
    ensures Exactly(left + [m] + w, left, m.start, m.End(), w) <==> 1 <= m.len <= MAX_LEN && AllFrom(w, m.End())
  {
    SortedParts(left, m, w);
    forall y ensures Bad(left + [m] + w, y) <==> Bad(left, y) || m.Has(y) || Bad(w, y) { BadParts(left, m, w, y); }
  }

  /** The first of sorted ranges decides whether all start late enough. */
  lemma FirstDecides(w: seq<Entry>, x: int)
    requires Sorted(w)
    ensures AllFrom(w, x) <==> w == [] || x <= w[0].start
  {
  }

  /** What Combine makes of the range that took the blocks in and the one after it. */
  lemma CombineIs(left: seq<Entry>, m: Entry, z: Entry, w: seq<Entry>)
    ensures var r := Rest(left + [m] + ([z] + w), m.End(), 0, |left|, |left| + 1);
            Combine(r) == if z.start <= m.End() && z.End() - m.start < MAX_LEN
                          then left + [Entry(m.start, z.End() - m.start, m.ack && z.ack)] + w
                          else left + [m] + ([z] + w)
  {
    var t := left + [m] + ([z] + w);
    assert t[|left|] == m && t[|left| + 1] == z;
    assert t[|left| + 2..] == w;
    var e := Entry(m.start, z.End() - m.start, m.ack && z.ack);
    assert t[|left| := e][..|left| + 1] == left + [e];
  }

  /** Joining with the next range is right if and only if it loses nothing between its end and m's. */
  lemma JoinExact(left: seq<Entry>, m: Entry, z: Entry, w: seq<Entry>, ack: bool)
    requires Sorted(left) && Sorted([z] + w) && AllBefore(left, m.start) && 1 <= m.len <= MAX_LEN
    requires z.start <= m.End() && z.End() - m.start < MAX_LEN
    requires forall y :: z.Has(y) && y < m.start ==> Bad(left, y)
    ensures Exactly(left + [Entry(m.start, z.End() - m.start, ack)] + w, left, m.start, m.End(), [z] + w)
            <==> m.start < z.End() && forall y :: z.End() <= y < m.End() ==> Bad(w, y)
  {
    var e := Entry(m.start, z.End() - m.start, ack);
    SortedParts([], z, w);
    assert [] + [z] + w == [z] + w;
    BetweenExact(left, e, w);
    forall y ensures Bad([z] + w, y) <==> z.Has(y) || Bad(w, y) { BadParts([], z, w, y); }
    if m.start < z.End() {
      assert Exactly(left + [e] + w, left, e.start, e.End(), w);
      if forall y :: z.End() <= y < m.End() ==> Bad(w, y) {
        assert forall y :: z.Has(y) ==> Bad(left, y) || e.start <= y < e.End();
      } else {
        var y :| z.End() <= y < m.End() && !Bad(w, y);
        assert !Bad(left, y);
      }
    }
  }

  /** The blocks a taken-in range stands for, with what is before and after it, are all there should be. */
  lemma AllTaken(t: seq<Entry>, left: seq<Entry>, p: Spot, s: int, sectors: int)
    requires Sorted(t) && SpotOk(t, left, p, s, sectors) && TakesIn(t, p.k, s + sectors)
    ensures var reach := Reach(t, p.k, s + sectors);
            forall y :: Bad(left, y) || p.from <= y < reach || Bad(t[p.k + 1..], y)
                        <==> Bad(t, y) || s <= y < s + sectors
  {
    var x, w, reach := t[p.k], t[p.k + 1..], Reach(t, p.k, s + sectors);
    assert t[p.k..] == [] + [x] + w;
    forall y ensures Bad(left, y) || p.from <= y < reach || Bad(w, y) <==> Bad(t, y) || s <= y < s + sectors {
      BadParts([], x, w, y);
    }
  }

  lemma ExactlyRecorded(t: seq<Entry>, q: seq<Entry>, left: seq<Entry>, from: int, end: int, v: seq<Entry>,
                        s: int, sectors: int)
    requires forall y :: Bad(left, y) || from <= y < end || Bad(v, y) <==> Bad(t, y) || s <= y < s + sectors
    ensures Exactly(q, left, from, end, v) <==> Recorded(t, q, s, sectors)
  {
    if Exactly(q, left, from, end, v) {
      forall y ensures Bad(q, y) <==> Bad(t, y) || s <= y < s + sectors {
        assert Bad(q, y) <==> Bad(left, y) || from <= y < end || Bad(v, y);
      }
    }
    if Recorded(t, q, s, sectors) {
      forall y ensures Bad(q, y) <==> Bad(left, y) || from <= y < end || Bad(v, y) {
        assert Bad(q, y) <==> Bad(t, y) || s <= y < s + sectors;
      }
    }
  }

  /** Beyond the end of one range of a sorted table only later ranges record blocks. */
  lemma BadLater(t: seq<Entry>, z: nat, y: int)
    requires Sorted(t) && z < |t| && t[z].End() <= y
    ensures Bad(t, y) <==> Bad(t[z + 1..], y)
  {
    assert t == t[..z] + [t[z]] + t[z + 1..];
    BadParts(t[..z], t[z], t[z + 1..], y);
  }

  /** Everything was taken in: joined with the next range or not. */
  ghost function Joined(left: seq<Entry>, m: Entry, w: seq<Entry>): seq<Entry> {
    if w != [] && w[0].start <= m.End() && w[0].End() - m.start < MAX_LEN
    then left + [Entry(m.start, w[0].End() - m.start, m.ack && w[0].ack)] + w[1..]
    else left + [m] + w
  }

  lemma JoinedExact(left: seq<Entry>, m: Entry, w: seq<Entry>)
    requires Sorted(left) && Sorted(w) && AllBefore(left, m.start) && 1 <= m.len <= MAX_LEN
    requires forall y :: Bad(w, y) && y < m.start ==> Bad(left, y)
    ensures Exactly(Joined(left, m, w), left, m.start, m.End(), w) <==>
            || w == [] || m.End() <= w[0].start
            || (m.start < w[0].End() < m.start + MAX_LEN && forall y :: w[0].End() <= y < m.End() ==> Bad(w[1..], y))
  {
    BetweenExact(left, m, w);
    FirstDecides(w, m.End());
    if w != [] && w[0].start <= m.End() && w[0].End() - m.start < MAX_LEN {
      assert w == [w[0]] + w[1..];
      forall y | w[0].Has(y) && y < m.start ensures Bad(left, y) { assert Bad(w, y); }
      JoinExact(left, m, w[0], w[1..], m.ack && w[0].ack);
    }
  }

  lemma SettledIs(left: seq<Entry>, m: Entry, w: seq<Entry>, r: Rest, capacity: nat, ack: bool)
    requires r == Rest(left + [m] + w, m.End(), 0, |left|, |left| + 1)
    ensures Settle(r, capacity, ack) == Stored(false, Joined(left, m, w))
  {
    if w != [] {
      assert w == [w[0]] + w[1..];
      CombineIs(left, m, w[0], w[1..]);
    }
  }

  lemma TakenExact(t: seq<Entry>, left: seq<Entry>, p: Spot, s: int, sectors: int, r: Rest, capacity: nat, ack: bool)
    requires Sorted(t) && SpotOk(t, left, p, s, sectors) && TakesIn(t, p.k, s + sectors)
    requires LeftSome(t, left, p, s + sectors, r) && Reach(t, p.k, s + sectors) - p.from <= MAX_LEN
    ensures r.sectors == 0
    ensures Recorded(t, Settle(r, capacity, ack).entries, s, sectors)
            <==> FitsBefore(t, p.k + 1, p.from, Reach(t, p.k, s + sectors))
  {
    var m, w, reach := r.t[p.k], t[p.k + 1..], Reach(t, p.k, s + sectors);
    assert w == t[p.k..][1..];
    SortedTail(t, p.k + 1);
    forall y | Bad(w, y) && y < m.start ensures Bad(left, y) { BadTail(t[p.k..], y); }
    SettledIs(left, m, w, r, capacity, ack);
    AllTaken(t, left, p, s, sectors);
    ExactlyRecorded(t, Joined(left, m, w), left, p.from, reach, w, s, sectors);
    JoinedExact(left, m, w);
    if p.k + 1 < |t| {
      assert w[0] == t[p.k + 1] && w[1..] == t[p.k + 2..];
      forall y | w[0].End() <= y ensures Bad(t, y) <==> Bad(w[1..], y) { BadLater(t, p.k + 1, y); }
    }
  }

  lemma SortedTail(t: seq<Entry>, k: nat)
    requires Sorted(t) && k <= |t|
    ensures Sorted(t[k..])
  {
    assert t == t[..k] + t[k..];
    SortedHalves(t[..k], t[k..]);
  }

  lemma BadTail(v: seq<Entry>, y: int)
    requires v != [] && Bad(v[1..], y)
    ensures Bad(v, y)
  {
    assert v == [v[0]] + v[1..];
    BadConcat([v[0]], v[1..], y);
  }

  /** The range at the spot took in 512 blocks and the rest is inserted after it. */
  lemma OverflowExact(t: seq<Entry>, left: seq<Entry>, p: Spot, s: int, sectors: int, r: Rest, capacity: nat, ack: bool)
    requires Sorted(t) && SpotOk(t, left, p, s, sectors) && TakesIn(t, p.k, s + sectors)
    requires LeftSome(t, left, p, s + sectors, r) && Reach(t, p.k, s + sectors) - p.from > MAX_LEN
    requires |t| + Ranges(r.sectors) <= capacity
    ensures var reach := Reach(t, p.k, s + sectors);
            Recorded(t, Settle(r, capacity, ack).entries, s, sectors)
            <==> reach - p.from <= 2 * MAX_LEN && (p.k + 1 < |t| ==> reach <= t[p.k + 1].start)
  {
    var m, w, reach := r.t[p.k], t[p.k + 1..], Reach(t, p.k, s + sectors);
    if r.sectors > MAX_LEN {
      InsertTooMany(r.t, capacity, r.s, r.sectors, r.hi, ack);
    } else {
      var u, e := left + [m], Entry(r.s, r.sectors, ack);
      InsertOne(u, w, capacity, r.s, r.sectors, ack);
      SortedTail(t, p.k + 1);
      BetweenExact(left, m, []);
      assert left + [m] + [] == u;
      BetweenExact(u, e, w);
      FirstDecides(w, reach);
      AllTaken(t, left, p, s, sectors);
      forall y ensures Bad(u, y) || e.start <= y < e.End() || Bad(w, y) <==> Bad(t, y) || s <= y < s + sectors {
        BadParts(left, m, [], y);
      }
      ExactlyRecorded(t, u + [e] + w, u, e.start, e.End(), w, s, sectors);
    }
  }

  /** Nothing takes the blocks in: they are inserted before the spot. */
  lemma InsertedExact(t: seq<Entry>, left: seq<Entry>, p: Spot, s: int, sectors: int, r: Rest, capacity: nat, ack: bool)
    requires Sorted(t) && SpotOk(t, left, p, s, sectors) && !TakesIn(t, p.k, s + sectors)
    requires LeftAll(t, left, p, s + sectors, r) && |t| + Ranges(r.sectors) <= capacity
    ensures Recorded(t, Settle(r, capacity, ack).entries, s, sectors) <==> r.sectors <= MAX_LEN
  {
    var v, end := t[p.k..], s + sectors;
    if r.sectors > MAX_LEN {
      InsertTooMany(r.t, capacity, r.s, r.sectors, r.hi, ack);
    } else {
      InsertOne(left, v, capacity, r.s, r.sectors, ack);
      SortedTail(t, p.k);
      BetweenExact(left, Entry(r.s, r.sectors, ack), v);
      FirstDecides(v, end);
      ExactlyRecorded(t, left + [Entry(r.s, r.sectors, ack)] + v, left, p.from, end, v, s, sectors);
    }
  }

  // ----- a set of no blocks -----

  /** Only the range that reaches s is touched: its flag, and it may be joined to the next where they meet. */
  lemma NothingAt(t: seq<Entry>, hi: nat, capacity: nat, s: int, ack: bool)
    requires Sorted(t) && Splits(t, hi, s) && 0 < hi && s <= t[hi - 1].End()
    ensures var m := Entry(t[hi - 1].start, t[hi - 1].len, t[hi - 1].ack && ack);
            Settle(MergeForward(MergeBackAt(t, hi, s, 0, ack), ack), capacity, ack)
            == Stored(false, Joined(t[..hi - 1], m, t[hi..]))
  {
    var e := t[hi - 1];
    var m := Entry(e.start, e.len, e.ack && ack);
    assert t[hi - 1 := m] == t[..hi - 1] + [m] + t[hi..];
    SettledIs(t[..hi - 1], m, t[hi..], MergeBackAt(t, hi, s, 0, ack), capacity, ack);
  }

  lemma SameBlocks(u: seq<Entry>, e: Entry, m: Entry, v: seq<Entry>)
    requires Sorted(u + [e] + v) && m.start == e.start && m.len == e.len
    ensures Recorded(u + [e] + v, Joined(u, m, v), e.start, 0)
  {
    SortedSplit(u, e, v);
    JoinedExact(u, m, v);
    forall y ensures Bad(u + [e] + v, y) <==> Bad(u, y) || e.Has(y) || Bad(v, y) { BadParts(u, e, v, y); }
  }

  lemma SameBlocksAt(t: seq<Entry>, i: nat, s: int, ack: bool)
    requires Sorted(t) && i < |t|
    ensures Recorded(t, Joined(t[..i], Entry(t[i].start, t[i].len, t[i].ack && ack), t[i + 1..]), s, 0)
  {
    assert t == t[..i] + [t[i]] + t[i + 1..];
    SameBlocks(t[..i], t[i], Entry(t[i].start, t[i].len, t[i].ack && ack), t[i + 1..]);
  }

  lemma NothingFits(t: seq<Entry>, s: int)
    requires Sorted(t)
    ensures Fits(t, s, 0) && ToInsert(t, s, 0) == 0
  {
    StartingBeforeIs(t, s + 1);
  }

  lemma StoreNothing(t: seq<Entry>, capacity: nat, s: int, ack: bool)
    requires Sorted(t)
    ensures var q := Store(t, capacity, s, 0, ack); !q.full && Recorded(t, q.entries, s, 0)
  {
    StartingBeforeIs(t, s + 1);
    var hi := StartingBefore(t, s + 1);
    if hi > 0 && s <= t[hi - 1].End() {
      NothingAt(t, hi, capacity, s, ack);
      SameBlocksAt(t, hi - 1, s, ack);
    }
  }

  /** How many new ranges a set needs, so whether it fails for want of room. */
  lemma StoreFull(t: seq<Entry>, capacity: nat, s: int, sectors: int, ack: bool)
    requires Sorted(t) && sectors >= 0 && |t| <= capacity
    ensures ToInsert(t, s, sectors) >= 0
    ensures Store(t, capacity, s, sectors, ack).full <==> |t| + Ranges(ToInsert(t, s, sectors)) > capacity
  {
    if sectors == 0 {
      StoreNothing(t, capacity, s, ack);
      NothingFits(t, s);
      return;
    }
    StartingBeforeIs(t, s + 1);
    SpotAt(t, StartingBefore(t, s + 1), s, sectors, ack);
    LeftoverAt(t, StartingBefore(t, s + 1), s, sectors, ack);
    var r := Leftover(t, s, sectors, ack);
    if r.sectors > 0 { InsertFull(r.t, capacity, r.s, r.sectors, r.hi, ack); }
  }

  /**
  A set for which there is room leaves a sorted table of exactly the old blocks and the new ones if and
  only if the range fits, which can be seen on the table before the call.
  */
  lemma StoreExact(t: seq<Entry>, capacity: nat, s: int, sectors: int, ack: bool)
    requires Sorted(t) && sectors >= 0 && |t| <= capacity
    ensures var q := Store(t, capacity, s, sectors, ack);
            !q.full ==> (Recorded(t, q.entries, s, sectors) <==> Fits(t, s, sectors))
  {
    if sectors == 0 {
      StoreNothing(t, capacity, s, ack);
      NothingFits(t, s);
    } else {
      StoreSome(t, capacity, s, sectors, ack);
    }
  }

  lemma StoreSome(t: seq<Entry>, capacity: nat, s: int, sectors: int, ack: bool)
    requires Sorted(t) && sectors >= 1 && |t| <= capacity
    ensures var q := Store(t, capacity, s, sectors, ack);
            !q.full ==> (Recorded(t, q.entries, s, sectors) <==> Fits(t, s, sectors))
  {
    if Store(t, capacity, s, sectors, ack).full { return; }
    StoreFull(t, capacity, s, sectors, ack);
    StartingBeforeIs(t, s + 1);
    var hi := StartingBefore(t, s + 1);
    SpotAt(t, hi, s, sectors, ack);
    LeftoverAt(t, hi, s, sectors, ack);
    var p, r := Place(t, s, sectors), Leftover(t, s, sectors, ack);
    var left := Before(t, p, s, sectors, ack);
    if !TakesIn(t, p.k, s + sectors) {
      InsertedExact(t, left, p, s, sectors, r, capacity, ack);
    } else if Reach(t, p.k, s + sectors) - p.from <= MAX_LEN {
      TakenExact(t, left, p, s, sectors, r, capacity, ack);
    } else {
      OverflowExact(t, left, p, s, sectors, r, capacity, ack);
    }
  }

  // ----- what a failing set leaves -----

  /** No block that was recorded is lost. */
  ghost predicate Keeps(t: seq<Entry>, q: seq<Entry>) {
    forall y :: Bad(t, y) ==> Bad(q, y)
  }

  /** The end of what a failing set has recorded: 512 blocks at the spot and in each range there was room for. */
  function FilledTo(t: seq<Entry>, capacity: nat, from: int): int {
    from + MAX_LEN * (1 + capacity - |t|)
  }

  /**
  A set that fails has dropped recorded blocks if and only if the range that took the new blocks in reached
  further than what could be recorded.
  */
  lemma FailedExact(t: seq<Entry>, capacity: nat, s: int, sectors: int, ack: bool)
    requires Sorted(t) && sectors >= 0 && |t| <= capacity
    ensures var q, p := Store(t, capacity, s, sectors, ack), Place(t, s, sectors);
            q.full ==> (Keeps(t, q.entries)
                        <==> !(TakesIn(t, p.k, s + sectors) && t[p.k].End() > FilledTo(t, capacity, p.from)))
  {
    if sectors == 0 {
      StoreNothing(t, capacity, s, ack);
    } else if Store(t, capacity, s, sectors, ack).full {
      StartingBeforeIs(t, s + 1);
      var hi := StartingBefore(t, s + 1);
      SpotAt(t, hi, s, sectors, ack);
      LeftoverAt(t, hi, s, sectors, ack);
      FailedAt(t, Place(t, s, sectors), s, sectors, Leftover(t, s, sectors, ack), capacity, ack);
    }
  }

  lemma FailedAt(t: seq<Entry>, p: Spot, s: int, sectors: int, r: Rest, capacity: nat, ack: bool)
    requires Sorted(t) && sectors >= 1 && |t| <= capacity && p.k <= |t| && (p.filled ==> p.k > 0)
    requires SpotOk(t, Before(t, p, s, sectors, ack), p, s, sectors) && 0 < r.sectors && 0 <= r.hi <= |r.t|
    requires var left := Before(t, p, s, sectors, ack);
             if TakesIn(t, p.k, s + sectors) then LeftSome(t, left, p, s + sectors, r)
             else LeftAll(t, left, p, s + sectors, r)
    requires InsertRest(r.t, capacity, r.s, r.sectors, r.hi, ack).full
    ensures Keeps(t, InsertRest(r.t, capacity, r.s, r.sectors, r.hi, ack).entries)
            <==> !(TakesIn(t, p.k, s + sectors) && t[p.k].End() > FilledTo(t, capacity, p.from))
  {
    var left, q := Before(t, p, s, sectors, ack), InsertRest(r.t, capacity, r.s, r.sectors, r.hi, ack).entries;
    assert |r.t| == |t|;
    forall y ensures Bad(q, y) <==> Bad(r.t, y) || r.s <= y < r.s + MAX_LEN * (capacity - |t|) {
      InsertFullBad(r.t, capacity, r.s, r.sectors, r.hi, ack, y);
    }
    if TakesIn(t, p.k, s + sectors) {
      FailedTaken(t, left, p, s, sectors, r, capacity, q);
    } else {
      FailedPlain(t, left, p, s, sectors, r.t);
    }
  }

  lemma FailedPlain(t: seq<Entry>, left: seq<Entry>, p: Spot, s: int, sectors: int, q: seq<Entry>)
    requires SpotOk(t, left, p, s, sectors) && q == left + t[p.k..]
    ensures Keeps(t, q)
  {
    assert t == t[..p.k] + t[p.k..];
    forall y ensures Bad(t, y) ==> Bad(q, y) {
      BadConcat(left, t[p.k..], y);
      BadConcat(t[..p.k], t[p.k..], y);
    }
  }

  lemma FailedTaken(t: seq<Entry>, left: seq<Entry>, p: Spot, s: int, sectors: int, r: Rest,
                    capacity: nat, q: seq<Entry>)
    requires Sorted(t) && SpotOk(t, left, p, s, sectors) && TakesIn(t, p.k, s + sectors) && |t| <= capacity
    requires LeftSome(t, left, p, s + sectors, r) && r.sectors > 0
    requires forall y :: Bad(q, y) <==> Bad(r.t, y) || r.s <= y < r.s + MAX_LEN * (capacity - |t|)
    ensures Keeps(t, q) <==> t[p.k].End() <= FilledTo(t, capacity, p.from)
  {
    var x, w, m, filled := t[p.k], t[p.k + 1..], r.t[p.k], FilledTo(t, capacity, p.from);
    assert t[p.k..] == [] + [x] + w;
    forall y ensures Bad(q, y) <==> Bad(left, y) || p.from <= y < filled || Bad(w, y) { BadParts(left, m, w, y); }
    assert t == t[..p.k] + [x] + w;
    if x.End() <= filled {
      forall y ensures Bad(t, y) ==> Bad(q, y) {
        BadParts(t[..p.k], x, w, y);
        BadParts([], x, w, y);
      }
    } else {
      var y := x.End() - 1;
      BadParts(t[..p.k], x, w, y);
      assert Bad(t, y) && !Bad(left, y) && !Bad(w, y);
    }
  }

  // ----- particular cases -----

  /** No range of the table starts strictly inside the new one. */
  ghost predicate NoneInside(t: seq<Entry>, s: int, sectors: int) {
    forall i :: 0 <= i < |t| ==> !(s < t[i].start < s + sectors)
  }

  /** Up to 512 blocks that no range starts inside always fit. */
  lemma NoneInsideFits(t: seq<Entry>, s: int, sectors: int)
    requires Sorted(t) && 1 <= sectors <= MAX_LEN && NoneInside(t, s, sectors)
    ensures Fits(t, s, sectors)
  {
    StartingBeforeIs(t, s + 1);
    var p, end := Place(t, s, sectors), s + sectors;
    assert p.k + 1 < |t| ==> t[p.k].End() <= t[p.k + 1].start && !(s < t[p.k + 1].start < end);
  }

  /** A range starting inside the new one can make a successful set forget blocks. */
  lemma InsideLosesBlocks()
    ensures var t := [Entry(0, 10, true), Entry(12, 3, true)];
            && Sorted(t)
            && Store(t, 512, 5, 20, true) == Stored(false, [Entry(0, 15, true)])
            && !Bad([Entry(0, 15, true)], 20)
  {
    var t := [Entry(0, 10, true), Entry(12, 3, true)];
    assert t[..1] == [Entry(0, 10, true)];
    assert StartingBefore(t, 6) == 1;
    assert MergeBack(t, 5, 20, true) == Rest([Entry(0, 25, true), Entry(12, 3, true)], 25, 0, 0, 1);
    var r := Leftover(t, 5, 20, true);
    assert r.t[2..] == [];
    assert r.t[0 := Entry(0, 15, true)][..1] == [Entry(0, 15, true)];
  }

  /** A set that fails for want of room has already changed the table and can have dropped blocks from it. */
  lemma FailedSetLosesBlocks()
    ensures var t := [Entry(10, 512, true)];
            && Sorted(t) && Bad(t, 520)
            && Store(t, 1, 0, 10, true) == Stored(true, [Entry(0, 512, true)])
            && !Bad([Entry(0, 512, true)], 520)
  {
    var t := [Entry(10, 512, true)];
    assert t[0].Has(520);
    assert t[..0] == [];
    assert StartingBefore(t, 1) == 0;
    assert MergeBack(t, 0, 10, true) == Rest(t, 0, 10, 0, 0);
    assert t[0 := Entry(0, 512, true)] == [Entry(0, 512, true)];
  }

  /** A range can start inside the new one and the set still be right. */
  lemma InsideCanFit()
    ensures var t := [Entry(0, 10, true), Entry(12, 30, true)];
            Sorted(t) && !NoneInside(t, 5, 20) && Fits(t, 5, 20)
  {
    var t := [Entry(0, 10, true), Entry(12, 30, true)];
    assert t[1].start == 12;
    assert t[..1] == [Entry(0, 10, true)];
    assert StartingBefore(t, 6) == 1;
    assert Place(t, 5, 20) == Spot(0, 0, false);
  }

  /** 600 blocks in an empty table need two ranges, and the second is put before the first. */
  lemma TwoInsertionsOutOfOrder()
    ensures Store([], 512, 0, 600, true) == Stored(false, [Entry(512, 88, true), Entry(0, 512, true)])
    ensures !Sorted([Entry(512, 88, true), Entry(0, 512, true)]) && !Fits([], 0, 600)
  {
    var e, f := Entry(0, 512, true), Entry(512, 88, true);
    assert Leftover([], 0, 600, true) == Rest([], 0, 600, 0, 0);
    assert [] + [e] + [] == [e];
    assert [e][..0] + [f] + [e][0..] == [f, e];
    assert InsertRest([f, e], 512, 600, 0, 0, true) == Stored(false, [f, e]);
    assert InsertRest([e], 512, 512, 88, 0, true) == Stored(false, [f, e]);
    var q := [f, e];
    assert q[0].End() > q[1].start;
  }
}
