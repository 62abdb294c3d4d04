/**
The bad-block table as a sequence of ranges: what badblocks_set and badblocks_clear make of it, and
what the table means as a set of blocks.
*/
module BadblocksModel {

  const MAX_LEN := 512

  datatype Entry = Entry(start: int, len: int, ack: bool) {
    function End(): int {
      start + len
    }

    predicate Has(x: int) {
      start <= x < End()
    }

    predicate Overlaps(s: int, target: int) {
      start < target && s < End()
    }
  }

  /** Sorted, disjoint ranges of 1 to 512 blocks. */
  ghost predicate Sorted(t: seq<Entry>) {
    && (forall i :: 0 <= i < |t| ==> 1 <= t[i].len <= MAX_LEN)
    && (forall i, j :: 0 <= i < j < |t| ==> t[i].End() <= t[j].start)
  }

  /** The block is recorded as bad. */
  ghost predicate Bad(t: seq<Entry>, x: int) {
    exists i :: 0 <= i < |t| && t[i].Has(x)
  }

  /** The block is recorded as bad with this acknowledged flag. */
  ghost predicate BadAs(t: seq<Entry>, x: int, ack: bool) {
    exists i :: 0 <= i < |t| && t[i].Has(x) && t[i].ack == ack
  }

  /** Number of leading ranges of a sorted table that start before x. */
  function StartingBefore(t: seq<Entry>, x: int): (k: nat)
    ensures k <= |t|
  {
    if t == [] then 0
    else if t[|t| - 1].start < x then |t|
    else StartingBefore(t[..|t| - 1], x)
  }

  lemma {:induction false} StartingBeforeIs(t: seq<Entry>, x: int)
    requires Sorted(t)
    ensures var k := StartingBefore(t, x);
            && (forall i :: 0 <= i < k ==> t[i].start < x)
            && (forall i :: k <= i < |t| ==> x <= t[i].start)
  {
    if t != [] && t[|t| - 1].start >= x {
      StartingBeforeIs(t[..|t| - 1], x);
    }
  }

  // ----- badblocks_clear -----

  /** Drop or shorten the ranges at the end of t that reach into [s, target). */
  function Trim(t: seq<Entry>, s: int, target: int): seq<Entry> {
    if t == [] then []
    else
      var e := t[|t| - 1];
      if !e.Overlaps(s, target) then t
      else if e.start < s then t[..|t| - 1] + [Entry(e.start, s - e.start, e.ack)]
      else Trim(t[..|t| - 1], s, target)
  }

  datatype Cleared = NoSpace | Table(entries: seq<Entry>)

  /** badblocks_clear of the blocks [s, target) in a table with room for `capacity` ranges. */
  function Clear(t: seq<Entry>, capacity: nat, s: int, target: int): Cleared {
    ClearAt(t, StartingBefore(t, target), capacity, s, target)
  }

  function ClearAt(t: seq<Entry>, k: nat, capacity: nat, s: int, target: int): Cleared
    requires k <= |t|
  {
    if k == 0 then Table(t)
    else
      var e := t[k - 1];
      if e.End() <= target then Table(Trim(t[..k], s, target) + t[k..])
      else if s <= e.start then
        Table(Trim(t[..k - 1], s, target) + [Entry(target, e.End() - target, e.ack)] + t[k..])
      else if |t| >= capacity then NoSpace
      else Table(t[..k - 1] + [Entry(e.start, s - e.start, e.ack), Entry(target, e.End() - target, e.ack)] + t[k..])
  }

  /** What is left of one range when [s, target) is taken out of it. */
  function Pieces(e: Entry, s: int, target: int): seq<Entry> {
    if !e.Overlaps(s, target) then [e]
    else (if e.start < s then [Entry(e.start, s - e.start, e.ack)] else [])
         + (if target < e.End() then [Entry(target, e.End() - target, e.ack)] else [])
  }

  /** The plain way to clear: cut every range of the table. */
  function Cut(t: seq<Entry>, s: int, target: int): seq<Entry> {
    if t == [] then [] else Cut(t[..|t| - 1], s, target) + Pieces(t[|t| - 1], s, target)
  }

  // ----- badblocks_set -----

  /** What is still to be recorded, [s, s + sectors), and where in the table. */
  datatype Rest = Rest(t: seq<Entry>, s: int, sectors: int, lo: int, hi: int)

  function Max(a: int, b: int): int {
    if a < b then b else a
  }

  /** A range made to take in blocks, and the blocks [s, s + sectors) that did not fit. */
  datatype Grown = Grown(e: Entry, s: int, sectors: int)

  /** Extend a range starting at or before s and ending at or after it. */
  function GrowBack(prev: Entry, s: int, sectors: int, ack: bool): Grown {
    var ack' := if s == prev.start && prev.End() <= s + sectors then ack else prev.ack && ack;
    var end := Max(prev.End(), s + sectors);
    if end - prev.start <= MAX_LEN then Grown(Entry(prev.start, end - prev.start, ack'), end, 0)
    else
      Grown(if prev.len == MAX_LEN then prev else Entry(prev.start, MAX_LEN, ack'),
            prev.start + MAX_LEN, end - (prev.start + MAX_LEN))
  }

  /** Merge with the last range starting at or before s. */
  function MergeBack(t: seq<Entry>, s: int, sectors: int, ack: bool): Rest {
    MergeBackAt(t, StartingBefore(t, s + 1), s, sectors, ack)
  }

  function MergeBackAt(t: seq<Entry>, hi: nat, s: int, sectors: int, ack: bool): Rest
    requires hi <= |t|
  {
    if hi == 0 || t[hi - 1].End() < s then Rest(t, s, sectors, if hi == 0 then 0 else hi - 1, hi)
    else
      var g := GrowBack(t[hi - 1], s, sectors, ack);
      Rest(t[hi - 1 := g.e], g.s, g.sectors, hi - 1, hi)
  }

  /** Extend a range starting at or before s + sectors down to s. */
  function GrowForward(next: Entry, s: int, sectors: int, ack: bool): Grown {
    var covered := next.End() <= s + sectors;
    var end := if covered then s + sectors else next.End();
    var ack' := if covered then ack else next.ack && ack;
    if end - s <= MAX_LEN then Grown(Entry(s, end - s, ack'), end, 0)
    else Grown(Entry(s, MAX_LEN, ack'), s + MAX_LEN, end - (s + MAX_LEN))
  }

  /** Merge what is left with the start of the next range. */
  function MergeForward(r: Rest, ack: bool): Rest
    requires 0 <= r.hi
  {
    if r.sectors == 0 || |r.t| <= r.hi || r.s + r.sectors < r.t[r.hi].start then r
    else
      var g := GrowForward(r.t[r.hi], r.s, r.sectors, ack);
      Rest(r.t[r.hi := g.e], g.s, g.sectors, r.hi, r.hi + 1)
  }

  /** Join the range just extended with the one after it. */
  function Combine(r: Rest): seq<Entry>
    requires 0 <= r.lo < |r.t| && 0 <= r.hi < |r.t|
  {
    var lo, hi := r.t[r.lo], r.t[r.hi];
    var len := lo.len + hi.len - (r.s - hi.start);
    if hi.start <= r.s && len < MAX_LEN then
      r.t[r.lo := Entry(lo.start, len, lo.ack && hi.ack)][..r.hi] + r.t[r.hi + 1..]
    else r.t
  }

  datatype Stored = Stored(full: bool, entries: seq<Entry>)

  /** Put the rest in as new ranges, each of them just before `hi`. */
  function InsertRest(t: seq<Entry>, capacity: nat, s: int, sectors: int, hi: int, ack: bool): Stored
    requires 0 <= hi <= |t|
    decreases sectors
  {
    if sectors <= 0 then Stored(false, t)
    else if |t| >= capacity then Stored(true, t)
    else
      var n := if sectors > MAX_LEN then MAX_LEN else sectors;
      InsertRest(t[..hi] + [Entry(s, n, ack)] + t[hi..], capacity, s + n, sectors - n, hi, ack)
  }

  /** What the merges leave to be inserted. */
  function Leftover(t: seq<Entry>, s: int, sectors: int, ack: bool): Rest {
    MergeForward(MergeBack(t, s, sectors, ack), ack)
  }

  /** badblocks_set of the blocks [s, s + sectors). */
  function Store(t: seq<Entry>, capacity: nat, s: int, sectors: int, ack: bool): Stored
    requires sectors >= 0
  {
    Settle(Leftover(t, s, sectors, ack), capacity, ack)
  }

  /** Combine if everything was merged, insert what is left otherwise. */
  function Settle(r: Rest, capacity: nat, ack: bool): Stored
    requires 0 <= r.lo && 0 <= r.hi <= |r.t| && (r.sectors == 0 && r.hi < |r.t| ==> r.lo < |r.t|)
  {
    if r.sectors == 0 then Stored(false, if r.hi < |r.t| then Combine(r) else r.t)
    else InsertRest(r.t, capacity, r.s, r.sectors, r.hi, ack)
  }
}
