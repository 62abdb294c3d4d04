/**
Tracked blocks of 2^shift sectors. badblocks_check and badblocks_set round a range of sectors outward,
badblocks_clear rounds it inward, so a block is thought bad rather than good when in doubt.
*/
module BadblocksRounding {
  import opened BadblocksModel
  import opened BadblocksClear
  import opened BadblocksSet
  import opened Badblocks

  /** Sectors per tracked block; a shift of zero or less means one. */
  function BlockSize(shift: int): (p: int)
    ensures p >= 1
    decreases if shift < 0 then 0 else shift
  {
    if shift <= 0 then 1 else 2 * BlockSize(shift - 1)
  }

  function Down(x: int, p: int): int
    requires p >= 1
  {
    x / p
  }

  function Up(x: int, p: int): int
    requires p >= 1
  {
    (x + p - 1) / p
  }

  lemma DownIs(x: int, p: int, b: int)
    requires p >= 1
    ensures Down(x, p) <= b <==> x < (b + 1) * p
  {
    var q := x / p;
    assert x == q * p + x % p;
    if q <= b {
      assert q * p <= b * p;
    } else {
      assert (b + 1) * p <= q * p;
    }
  }

  lemma UpIs(x: int, p: int, b: int)
    requires p >= 1
    ensures Up(x, p) <= b <==> x <= b * p
  {
    DownIs(x + p - 1, p, b);
    assert (b + 1) * p == b * p + p;
  }

  /** Rounded outward: the blocks that share a sector with [s, e). */
  lemma RoundOut(s: int, e: int, p: int, b: int)
    requires p >= 1
    ensures Down(s, p) <= b < Up(e, p) <==> s < (b + 1) * p && b * p < e
  {
    DownIs(s, p, b);
    UpIs(e, p, b);
  }

  /** Rounded inward: the blocks that lie within [s, e). */
  lemma RoundIn(s: int, e: int, p: int, b: int)
    requires p >= 1
    ensures Up(s, p) <= b < Down(e, p) <==> s <= b * p && (b + 1) * p <= e
  {
    UpIs(s, p, b);
    DownIs(e, p, b);
  }

  /** Rounding inward turns a range round exactly when it lies strictly inside one block. */
  lemma InvertedInside(s: int, e: int, p: int)
    requires p >= 1 && s <= e
    ensures Down(e, p) < Up(s, p) <==> exists b :: b * p < s && e < (b + 1) * p
  {
    var d := Down(e, p);
    DownIs(e, p, d);
    UpIs(s, p, d);
    if d < Up(s, p) {
      assert d * p < s && e < (d + 1) * p;
    }
    forall b | b * p < s && e < (b + 1) * p ensures d < Up(s, p) {
      DownIs(e, p, b);
      UpIs(s, p, b);
    }
  }

  lemma InBlock(s: int, e: int, p: int, x: int)
    requires p >= 1 && s <= x < e
    ensures Down(s, p) <= Down(x, p) < Up(e, p)
  {
    var y := Down(x, p);
    DownIs(x, p, y);
    DownIs(x, p, y - 1);
    RoundOut(s, e, p, y);
  }

  lemma SectorOf(s: int, e: int, p: int, y: int) returns (x: int)
    requires p >= 1 && s < e && Down(s, p) <= y < Up(e, p)
    ensures s <= x < e && Down(x, p) == y
  {
    RoundOut(s, e, p, y);
    x := if s < y * p then y * p else s;
    DownIs(x, p, y);
    DownIs(x, p, y - 1);
    assert (y + 1) * p == y * p + p;
  }

  lemma Rounds(s: int, e: int, p: int)
    requires p >= 1 && s <= e
    ensures Down(s, p) <= Up(e, p)
  {
    var d := Down(s, p);
    UpIs(e, p, d - 1);
    DownIs(s, p, d - 1);
  }

  /** Block y reaches into [s, e), or has s inside it if that is empty. */
  ghost predicate Shares(y: int, p: int, s: int, e: int) {
    s < (y + 1) * p && y * p < e
  }

  /** The table records what it did and every block that reaches into [s, e), and no other. */
  ghost predicate Marked(t: seq<Entry>, q: seq<Entry>, p: int, s: int, e: int) {
    Sorted(q) && forall y :: Bad(q, y) <==> Bad(t, y) || Shares(y, p, s, e)
  }

  lemma MarkedIs(t: seq<Entry>, q: seq<Entry>, b: int, n: int, p: int, s: int, e: int)
    requires forall y :: b <= y < b + n <==> Shares(y, p, s, e)
    ensures Marked(t, q, p, s, e) <==> Recorded(t, q, b, n)
  {
  }

  /** The n blocks from b are those that reach into [s, e). */
  ghost predicate Reaching(b: int, n: int, p: int, s: int, e: int) {
    n >= 0 && forall y :: b <= y < b + n <==> Shares(y, p, s, e)
  }

  lemma RoundsTo(s: int, e: int, p: int)
    requires p >= 1 && s <= e
    ensures Reaching(Down(s, p), Up(e, p) - Down(s, p), p, s, e)
  {
    Rounds(s, e, p);
    forall y ensures Down(s, p) <= y < Up(e, p) <==> Shares(y, p, s, e) { RoundOut(s, e, p, y); }
  }

  lemma SetBlocksRight(t: seq<Entry>, capacity: nat, p: int, s: int, e: int, b: int, n: int, ack: bool)
    requires Sorted(t) && |t| <= capacity && Reaching(b, n, p, s, e)
    ensures var q := Store(t, capacity, b, n, ack);
            !q.full ==> (Marked(t, q.entries, p, s, e) <==> Fits(t, b, n))
  {
    StoreExact(t, capacity, b, n, ack);
    MarkedIs(t, Store(t, capacity, b, n, ack).entries, b, n, p, s, e);
  }

  /** A set by sectors for which there is room does that exactly when the blocks it rounds to fit. */
  lemma SetSectorsRight(t: seq<Entry>, capacity: nat, p: int, s: int, e: int, b: int, n: int, ack: bool)
    requires Sorted(t) && |t| <= capacity && p >= 1 && s <= e && b == Down(s, p) && n == Up(e, p) - b
    ensures n >= 0
    ensures var q := Store(t, capacity, b, n, ack);
            !q.full ==> (Marked(t, q.entries, p, s, e) <==> Fits(t, b, n))
  {
    RoundsTo(s, e, p);
    SetBlocksRight(t, capacity, p, s, e, b, n, ack);
  }

  /** A successful clear frees exactly the blocks that lie within the range, unless the range is inside one block. */
  lemma ClearSectorsRight(t: seq<Entry>, capacity: nat, p: int, s: int, e: int, y: int, ack: bool)
    requires Sorted(t) && p >= 1 && s <= e
    requires !exists b :: b * p < s && e < (b + 1) * p
    ensures var r := Clear(t, capacity, Up(s, p), Down(e, p));
            r.Table? ==> && Sorted(r.entries)
                         && (BadAs(r.entries, y, ack) <==> BadAs(t, y, ack) && !(s <= y * p && (y + 1) * p <= e))
  {
    InvertedInside(s, e, p);
    ClearForward(t, capacity, Up(s, p), Down(e, p));
    RoundIn(s, e, p, y);
  }

  /** Clearing sectors 9 and 10 of 8-sector blocks leaves two overlapping ranges behind. */
  lemma ClearInsideBlockBreaks()
    ensures var t := [Entry(0, 8, true)];
            && Sorted(t) && Up(9, 8) == 2 && Down(11, 8) == 1
            && Clear(t, 512, 2, 1) == Table([Entry(0, 2, true), Entry(1, 7, true)])
            && !Sorted([Entry(0, 2, true), Entry(1, 7, true)])
  {
    var t := [Entry(0, 8, true)];
    assert StartingBefore(t, 1) == 1;
    assert t[1..] == [] && t[..0] == [];
    var r := [Entry(0, 2, true), Entry(1, 7, true)];
    assert r[0].End() > r[1].start;
  }

  /** The answer of a check speaks of the sectors asked about. */
  lemma CheckSectorsMean(t: seq<Entry>, p: int, s: int, e: int, rv: int, firstBad: int, badSectors: int)
    requires Sorted(t) && p >= 1 && s < e
    requires CheckIs(t, 0, Down(s, p), Up(e, p), rv, firstBad, badSectors)
    ensures rv == 0 <==> forall x :: s <= x < e ==> !Bad(t, Down(x, p))
    ensures rv == -1 <==> exists x :: s <= x < e && BadAs(t, Down(x, p), false)
  {
    var b, target := Down(s, p), Up(e, p);
    InBlock(s, e, p, s);
    CheckMeans(t, b, target, rv, firstBad, badSectors);
    forall x | s <= x < e ensures b <= Down(x, p) < target {
      InBlock(s, e, p, x);
    }
    if rv != 0 {
      var y :| b <= y < target && Bad(t, y);
      var x := SectorOf(s, e, p, y);
      assert s <= x < e && Bad(t, Down(x, p));
    }
    if rv == -1 {
      var y :| b <= y < target && BadAs(t, y, false);
      var x := SectorOf(s, e, p, y);
      assert s <= x < e && BadAs(t, Down(x, p), false);
    }
  }

  /** What badblocks_set by sectors makes of a table; it fails when the table is disabled or out of room. */
  function StoreSectors(t: seq<Entry>, capacity: nat, shift: int, s: int, sectors: nat, ack: bool): Stored {
    if shift < 0 then Stored(true, t)
    else
      Rounds(s, s + sectors, BlockSize(shift));
      Store(t, capacity, Down(s, BlockSize(shift)),
            Up(s + sectors, BlockSize(shift)) - Down(s, BlockSize(shift)), ack)
  }

  lemma SectorsAsBlocks(t: seq<Entry>, capacity: nat, shift: int, s: int, sectors: nat, ack: bool, b: int, n: int)
    requires shift >= 0 && b == Down(s, BlockSize(shift)) && n == Up(s + sectors, BlockSize(shift)) - b
    ensures n >= 0 && StoreSectors(t, capacity, shift, s, sectors, ack) == Store(t, capacity, b, n, ack)
  {
    Rounds(s, s + sectors, BlockSize(shift));
  }

  /** badblocks_set by sectors: 1 when disabled or out of room. */
  method SetSectors(tab: Table, shift: int, s: int, sectors: nat, ack: bool) returns (rv: int)
    requires tab.Valid()
    modifies tab, tab.page
    ensures tab.count <= tab.page.Length
    ensures var q := StoreSectors(old(tab.Entries()), tab.page.Length, shift, s, sectors, ack);
            tab.Entries() == q.entries && rv == (if q.full then 1 else 0)
  {
    if shift < 0 {
      return 1;
    }
    var p := BlockSize(shift);
    var b := Down(s, p);
    var n := Up(s + sectors, p) - b;
    SectorsAsBlocks(tab.Entries(), tab.page.Length, shift, s, sectors, ack, b, n);
    rv := tab.Set(b, n, ack);
  }

  /** badblocks_clear by sectors: false when a split found no room. */
  method ClearSectors(tab: Table, shift: int, s: int, sectors: int) returns (ok: bool)
    requires tab.Valid()
    modifies tab, tab.page
    ensures tab.count <= tab.page.Length
    ensures var p := BlockSize(shift);
            var r := Clear(old(tab.Entries()), tab.page.Length, Up(s, p), Down(s + sectors, p));
            ok == r.Table? && tab.Entries() == (if ok then r.entries else old(tab.Entries()))
  {
    var p := BlockSize(shift);
    ok := tab.ClearRange(Up(s, p), Down(s + sectors, p));
  }

  /** badblocks_check by sectors. */
  method CheckSectors(tab: Table, shift: int, s: int, sectors: int) returns (rv: int, firstBad: int, badSectors: int)
    requires tab.Valid()
    ensures var p := BlockSize(shift);
            CheckIs(tab.Entries(), 0, Down(s, p), Up(s + sectors, p), rv, firstBad, badSectors)
  {
    var p := BlockSize(shift);
    rv, firstBad, badSectors := tab.Check(Down(s, p), Up(s + sectors, p));
  }
}
