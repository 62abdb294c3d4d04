/**
The bad-block table as the kernel keeps it: a fixed page of ranges and a count, searched by bisection
and changed in place.
*/
module Badblocks {
  import opened BadblocksModel
  import BadblocksFlags

  lemma {:induction false} StartingBeforeUnique(t: seq<Entry>, x: int, k: nat)
    requires k <= |t|
    requires forall i :: 0 <= i < k ==> t[i].start < x
    requires forall i :: k <= i < |t| ==> x <= t[i].start
    ensures StartingBefore(t, x) == k
  {
    if k < |t| {
      StartingBeforeUnique(t[..|t| - 1], x, k);
    }
  }

  /** What a check of the blocks [s, target) should report about the ranges from index `from` on. */
  ghost predicate CheckIs(t: seq<Entry>, from: int, s: int, target: int, rv: int, firstBad: int, badSectors: int)
    requires 0 <= from
  {
    && (rv == 0 <==> forall i :: from <= i < |t| ==> !t[i].Overlaps(s, target))
    && (rv == -1 <==> exists i :: from <= i < |t| && t[i].Overlaps(s, target) && !t[i].ack)
    && (rv == 0 || rv == 1 || rv == -1)
    && (rv != 0 ==>
          exists i ::
            && from <= i < |t| && t[i].Overlaps(s, target) && firstBad == t[i].start && badSectors == t[i].len
            && forall j :: from <= j < i ==> !t[j].Overlaps(s, target))
  }

  lemma OverlapMeans(e: Entry, s: int, target: int) returns (x: int)
    requires e.len >= 1 && s < target
    ensures if e.Overlaps(s, target) then s <= x < target && e.Has(x)
            else forall y :: s <= y < target ==> !e.Has(y)
  {
    x := if e.start < s then s else e.start;
  }

  lemma NothingBad(t: seq<Entry>, s: int, target: int)
    requires Sorted(t) && s < target
    ensures (forall i :: 0 <= i < |t| ==> !t[i].Overlaps(s, target)) <==> (forall x :: s <= x < target ==> !Bad(t, x))
  {
    forall i | 0 <= i < |t| ensures t[i].Overlaps(s, target) ==> exists x :: s <= x < target && Bad(t, x) {
      var x := OverlapMeans(t[i], s, target);
      assert t[i].Overlaps(s, target) ==> Bad(t, x);
    }
  }

  lemma SomethingUnacked(t: seq<Entry>, s: int, target: int)
    requires Sorted(t) && s < target
    ensures (exists i :: 0 <= i < |t| && t[i].Overlaps(s, target) && !t[i].ack)
            <==> (exists x :: s <= x < target && BadAs(t, x, false))
  {
    forall i | 0 <= i < |t| && t[i].Overlaps(s, target) && !t[i].ack
      ensures exists x :: s <= x < target && BadAs(t, x, false)
    {
      var x := OverlapMeans(t[i], s, target);
      assert BadAs(t, x, false);
    }
    forall x | s <= x < target && BadAs(t, x, false)
      ensures exists i :: 0 <= i < |t| && t[i].Overlaps(s, target) && !t[i].ack
    {
      var i :| 0 <= i < |t| && t[i].Has(x) && t[i].ack == false;
      assert t[i].Overlaps(s, target);
    }
  }

  /** On a range that is not empty the report speaks of blocks: 0 when none is bad, -1 when one is unacknowledged. */
  lemma CheckMeans(t: seq<Entry>, s: int, target: int, rv: int, firstBad: int, badSectors: int)
    requires Sorted(t) && s < target && CheckIs(t, 0, s, target, rv, firstBad, badSectors)
    ensures rv == 0 <==> forall x :: s <= x < target ==> !Bad(t, x)
    ensures rv == -1 <==> exists x :: s <= x < target && BadAs(t, x, false)
  {
    NothingBad(t, s, target);
    SomethingUnacked(t, s, target);
  }

  ghost predicate AllAcked(t: seq<Entry>) {
    forall i :: 0 <= i < |t| ==> t[i].ack
  }

  lemma {:induction false} InsertAcked(t: seq<Entry>, capacity: nat, s: int, sectors: int, hi: int)
    requires 0 <= hi <= |t| && AllAcked(t)
    ensures AllAcked(InsertRest(t, capacity, s, sectors, hi, true).entries)
    decreases sectors
  {
    if sectors > 0 && |t| < capacity {
      var n := if sectors > MAX_LEN then MAX_LEN else sectors;
      InsertAcked(t[..hi] + [Entry(s, n, true)] + t[hi..], capacity, s + n, sectors - n, hi);
    }
  }

  /** Setting acknowledged blocks in an acknowledged table leaves it so. */
  lemma StoreAcked(t: seq<Entry>, capacity: nat, s: int, sectors: int)
    requires sectors >= 0 && AllAcked(t)
    ensures AllAcked(Store(t, capacity, s, sectors, true).entries)
  {
    var r := Leftover(t, s, sectors, true);
    assert AllAcked(MergeBack(t, s, sectors, true).t);
    assert AllAcked(r.t);
    if r.sectors > 0 {
      InsertAcked(r.t, capacity, r.s, r.sectors, r.hi);
    }
  }

  lemma {:induction false} TrimAcked(t: seq<Entry>, s: int, target: int)
    requires AllAcked(t)
    ensures AllAcked(Trim(t, s, target))
  {
    if t != [] && t[|t| - 1].Overlaps(s, target) && s <= t[|t| - 1].start {
      TrimAcked(t[..|t| - 1], s, target);
    }
  }

  lemma ClearAcked(t: seq<Entry>, k: nat, capacity: nat, s: int, target: int)
    requires AllAcked(t) && k <= |t| && ClearAt(t, k, capacity, s, target).Table?
    ensures AllAcked(ClearAt(t, k, capacity, s, target).entries)
  {
    TrimAcked(t[..k], s, target);
    if k > 0 {
      TrimAcked(t[..k - 1], s, target);
    }
  }

  class Table {
    const page: array<Entry>
    var count: nat
    var unackedExist: bool
    var changed: bool

    constructor (capacity: nat)
      ensures Valid() && Entries() == [] && fresh(page) && page.Length == capacity && !changed && !unackedExist
    {
      page := new Entry[capacity](_ => Entry(0, 0, false));
      count, unackedExist, changed := 0, false, false;
    }

    ghost predicate Valid()
      reads this, page
    {
      count <= page.Length && Sorted(page[..count])
    }

    ghost function Entries(): seq<Entry>
      requires count <= page.Length
      reads this, page
    {
      page[..count]
    }

    /** unacked_exist is clear only when every range is acknowledged. */
    ghost predicate FlagSound()
      requires count <= page.Length
      reads this, page
    {
      !unackedExist ==> AllAcked(Entries())
    }

    /** The bisection all three operations start with, for the last range starting before x. */
    method FindLast(x: int) returns (lo: int, hi: int)
      requires Valid()
      ensures 0 <= lo <= hi <= count && hi <= lo + 1 && (count > 0 ==> hi == lo + 1)
      ensures StartingBefore(Entries(), x) == if lo < hi && page[lo].start < x then hi else 0
      ensures lo == hi || page[lo].start >= x ==> lo == 0
    {
      lo, hi := 0, count;
      ghost var t := Entries();
      while hi - lo > 1
        invariant 0 <= lo <= hi <= count && (count > 0 ==> lo < hi)
        invariant lo > 0 ==> t[lo].start < x
        invariant hi < count ==> x <= t[hi].start
      {
        var mid := (lo + hi) / 2;
        if page[mid].start < x {
          lo := mid;
        } else {
          hi := mid;
        }
      }
      StartingBeforeUnique(t, x, if lo < hi && page[lo].start < x then hi else 0);
    }

    /** badblocks_check on tracked blocks: bisect, then walk back over everything ending after s. */
    method Check(s: int, target: int) returns (rv: int, firstBad: int, badSectors: int)
      requires Valid()
      ensures CheckIs(Entries(), 0, s, target, rv, firstBad, badSectors)
    {
      rv, firstBad, badSectors := 0, 0, 0;
      var lo, hi := FindLast(target);
      ghost var t := Entries();
      StartingBeforeIs(t, target);
      if hi > lo {
        while lo >= 0 && page[lo].End() > s
          invariant -1 <= lo < hi
          invariant CheckIs(t, lo + 1, s, target, rv, firstBad, badSectors)
        {
          if page[lo].start < target {
            assert t[lo].Overlaps(s, target);
            if rv != -1 && page[lo].ack {
              rv := 1;
            } else {
              rv := -1;
            }
            firstBad, badSectors := page[lo].start, page[lo].len;
          }
          lo := lo - 1;
        }
        assert forall j :: 0 <= j <= lo ==> !t[j].Overlaps(s, target);
      }
    }

    /** memmove up by one slot and store into the gap. */
    method InsertAt(i: int, e: Entry)
      requires 0 <= i <= count < page.Length
      modifies page, `count
      ensures count <= page.Length && Entries() == old(Entries())[..i] + [e] + old(Entries())[i..]
    {
      ghost var t := Entries();
      forall j | i <= j < count {
        page[j + 1] := page[j];
      }
      count := count + 1;
      page[i] := e;
      assert Entries() == t[..i] + [e] + t[i..];
    }

    /** memmove the ranges from `hi` on down to index `lo`. */
    method RemoveBetween(lo: int, hi: int)
      requires 0 <= lo <= hi <= count <= page.Length
      modifies page, `count
      ensures count <= page.Length && Entries() == old(Entries())[..lo] + old(Entries())[hi..]
    {
      ghost var t := Entries();
      forall j | hi <= j < count {
        page[lo + (j - hi)] := page[j];
      }
      count := count - (hi - lo);
      assert Entries() == t[..lo] + t[hi..];
    }

    /** badblocks_update_acked */
    method UpdateAcked()
      requires count <= page.Length
      modifies `unackedExist
      ensures unackedExist <==> old(unackedExist) && !AllAcked(Entries())
    {
      if !unackedExist {
        return;
      }
      var unacked := false;
      for i := 0 to count
        invariant !unacked && AllAcked(page[..i])
      {
        if !page[i].ack {
          unacked := true;
          assert !Entries()[i].ack;
          break;
        }
      }
      if !unacked {
        unackedExist := false;
      }
    }

    /** Extend the range at `lo` to take in the new one, as far as 512 blocks go. */
    method GrowAt(lo: int, s0: int, sectors0: int, ack: bool) returns (s: int, sectors: int)
      requires 0 <= lo < count <= page.Length
      modifies page
      ensures count <= page.Length
      ensures var g := GrowBack(old(page[lo]), s0, sectors0, ack);
              Entries() == old(Entries())[lo := g.e] && s == g.s && sectors == g.sectors
    {
      var a, e, ack' := page[lo].start, page[lo].End(), page[lo].ack;
      if s0 == a && s0 + sectors0 >= e {
        ack' := ack;
      } else {
        ack' := ack' && ack;
      }
      if e < s0 + sectors0 {
        e := s0 + sectors0;
      }
      if e - a <= MAX_LEN {
        page[lo] := Entry(a, e - a, ack');
        s := e;
      } else {
        if page[lo].len != MAX_LEN {
          page[lo] := Entry(a, MAX_LEN, ack');
        }
        s := a + MAX_LEN;
      }
      sectors := e - s;
    }

    /** Merge with the last range that starts at or before s. */
    method MergeStart(s0: int, sectors0: int, ack: bool) returns (s: int, sectors: int, lo: int, hi: int)
      requires Valid() && sectors0 >= 0
      modifies page
      ensures count <= page.Length
      ensures Rest(Entries(), s, sectors, lo, hi) == MergeBack(old(Entries()), s0, sectors0, ack)
    {
      s, sectors := s0, sectors0;
      ghost var t := Entries();
      lo, hi := FindLast(s + 1);
      if hi > lo && page[lo].start > s {
        hi := lo;
      }
      assert hi == StartingBefore(t, s0 + 1);
      if hi > lo && page[lo].End() >= s {
        s, sectors := GrowAt(lo, s0, sectors0, ack);
      }
    }

    /** Merge what is left with the start of the range at `hi0`. */
    method MergeEnd(s0: int, sectors0: int, lo0: int, hi0: int, ack: bool)
      returns (s: int, sectors: int, lo: int, hi: int)
      requires 0 <= hi0 <= count <= page.Length
      modifies page
      ensures count <= page.Length
      ensures Rest(Entries(), s, sectors, lo, hi) == MergeForward(Rest(old(Entries()), s0, sectors0, lo0, hi0), ack)
    {
      s, sectors, lo, hi := s0, sectors0, lo0, hi0;
      ghost var t := Entries();
      if sectors != 0 && hi < count {
        var a, e, ack' := page[hi].start, page[hi].End(), page[hi].ack;
        if a <= s + sectors {
          if e <= s + sectors {
            e := s + sectors;
            ack' := ack;
          } else {
            ack' := ack' && ack;
          }
          a := s;
          if e - a <= MAX_LEN {
            page[hi] := Entry(a, e - a, ack');
            s := e;
          } else {
            page[hi] := Entry(a, MAX_LEN, ack');
            s := a + MAX_LEN;
          }
          sectors := e - s;
          lo := hi;
          hi := hi + 1;
          assert Entries() == t[hi0 := GrowForward(t[hi0], s0, sectors0, ack).e];
        }
      }
    }

    /** Combine the ranges at `lo` and `hi` where they meet. */
    method CombineAt(s: int, lo: int, hi: int)
      requires 0 <= lo <= hi < count <= page.Length
      modifies page, `count
      ensures count <= page.Length && Entries() == Combine(Rest(old(Entries()), s, 0, lo, hi))
    {
      ghost var t := Entries();
      var a := page[hi].start;
      var newlen := page[lo].len + page[hi].len - (s - a);
      if s >= a && newlen < MAX_LEN {
        var ack := page[lo].ack && page[hi].ack;
        page[lo] := Entry(page[lo].start, newlen, ack);
        assert Entries() == t[lo := Entry(t[lo].start, newlen, ack)];
        RemoveBetween(hi, hi + 1);
      }
    }

    /** Add what is left as new ranges just before `hi`. */
    method InsertLeft(s0: int, sectors0: int, hi: int, ack: bool) returns (full: bool)
      requires 0 <= hi <= count <= page.Length
      modifies page, `count
      ensures count <= page.Length
      ensures Stored(full, Entries()) == InsertRest(old(Entries()), page.Length, s0, sectors0, hi, ack)
    {
      ghost var goal := InsertRest(Entries(), page.Length, s0, sectors0, hi, ack);
      var s, sectors := s0, sectors0;
      while sectors > 0
        invariant hi <= count <= page.Length
        invariant InsertRest(Entries(), page.Length, s, sectors, hi, ack) == goal
      {
        if count >= page.Length {
          return true;
        }
        var n := if sectors > MAX_LEN then MAX_LEN else sectors;
        InsertAt(hi, Entry(s, n, ack));
        sectors := sectors - n;
        s := s + n;
      }
      return false;
    }

    /** badblocks_set on tracked blocks. */
    method Set(s0: int, sectors0: int, ack: bool) returns (rv: int)
      requires Valid() && sectors0 >= 0
      modifies page, this
      ensures count <= page.Length && changed
      ensures var q := Store(old(Entries()), page.Length, s0, sectors0, ack);
              Entries() == q.entries && rv == (if q.full then 1 else 0)
      ensures BadblocksFlags.RightlySet(old(Entries()), Stored(rv == 1, Entries()), s0, sectors0, ack)
      ensures old(FlagSound()) ==> FlagSound()
    {
      ghost var t := Entries();
      BadblocksFlags.StoreRight(t, page.Length, s0, sectors0, ack);
      var s, sectors, lo, hi := MergeStart(s0, sectors0, ack);
      s, sectors, lo, hi := MergeEnd(s, sectors, lo, hi, ack);
      assert Rest(Entries(), s, sectors, lo, hi) == Leftover(t, s0, sectors0, ack);
      rv := 0;
      if sectors == 0 && hi < count {
        CombineAt(s, lo, hi);
      }
      if sectors > 0 {
        var full := InsertLeft(s, sectors, hi, ack);
        rv := if full then 1 else 0;
      }
      assert Entries() == Store(t, page.Length, s0, sectors0, ack).entries;
      changed := true;
      if !ack {
        unackedExist := true;
      } else {
        assert AllAcked(t) ==> AllAcked(Entries()) by {
          if AllAcked(t) { StoreAcked(t, page.Length, s0, sectors0); }
        }
        UpdateAcked();
      }
    }

    /** Walk back from `lo` over the ranges reaching into [s, target), shortening the one that starts before s. */
    method WalkBack(lo0: int, s: int, target: int) returns (lo: int)
      requires -1 <= lo0 < count <= page.Length
      modifies page
      ensures -1 <= lo <= lo0
      ensures Entries()[..lo + 1] == Trim(old(Entries())[..lo0 + 1], s, target)
      ensures Entries()[lo0 + 1..] == old(Entries())[lo0 + 1..]
    {
      ghost var t := Entries();
      lo := lo0;
      while lo >= 0 && page[lo].End() > s && page[lo].start < target
        invariant -1 <= lo <= lo0
        invariant Entries() == t
        invariant Trim(t[..lo + 1], s, target) == Trim(t[..lo0 + 1], s, target)
      {
        if page[lo].start < s {
          page[lo] := Entry(page[lo].start, s - page[lo].start, page[lo].ack);
          assert Entries()[..lo + 1] == t[..lo] + [Entry(t[lo].start, s - t[lo].start, t[lo].ack)];
          assert t[..lo + 1][..lo] == t[..lo];
          return;
        }
        assert t[..lo + 1][..lo] == t[..lo];
        lo := lo - 1;
      }
    }

    /** Keep what the range at `lo0` has past the end of the cleared one, splitting it if it also starts before. */
    method KeepTail(lo0: int, s: int, target: int) returns (ok: bool, lo: int, hi: int)
      requires 0 <= lo0 < count <= page.Length && page[lo0].start < target
      modifies page, `count
      ensures count <= page.Length
      ensures var t, e := old(Entries()), old(page[lo0]);
              if e.End() <= target then ok && Entries() == t && lo == lo0 && hi == lo0 + 1
              else if s <= e.start then
                && ok && lo == lo0 - 1 && hi == lo0
                && Entries() == t[..lo0] + [Entry(target, e.End() - target, e.ack)] + t[lo0 + 1..]
              else if old(count) >= page.Length then !ok && Entries() == t
              else
                && ok && lo == lo0 && hi == lo0 + 1
                && Entries() == t[..lo0] + [Entry(e.start, s - e.start, e.ack)]
                                + [Entry(target, e.End() - target, e.ack)] + t[lo0 + 1..]
    {
      ghost var t := Entries();
      ok, lo, hi := true, lo0, lo0 + 1;
      if page[lo].End() > target {
        var ack, a, end := page[lo].ack, page[lo].start, page[lo].End();
        if a < s {
          if count >= page.Length {
            ok := false;
            return;
          }
          InsertAt(lo, Entry(a, s - a, ack));
          lo := lo + 1;
        }
        page[lo] := Entry(target, end - target, ack);
        hi := lo;
        lo := lo - 1;
      }
    }

    /** Drop the ranges before `hi` that lie inside [s, target). */
    method DropBefore(hi: int, s: int, target: int)
      requires 0 <= hi <= count <= page.Length && (hi > 0 || count > 0)
      modifies page, `count
      ensures count <= page.Length
      ensures Entries() == Trim(old(Entries())[..hi], s, target) + old(Entries())[hi..]
    {
      var lo := WalkBack(hi - 1, s, target);
      ghost var w := Entries();
      if hi - lo > 1 {
        RemoveBetween(lo + 1, hi);
      } else {
        assert w == w[..hi] + w[hi..];
      }
    }

    /** The part of badblocks_clear that changes the ranges. */
    method ClearPage(s: int, target: int) returns (ok: bool)
      requires Valid()
      modifies page, `count
      ensures count <= page.Length
      ensures var r := Clear(old(Entries()), page.Length, s, target);
              ok == r.Table? && Entries() == (if ok then r.entries else old(Entries()))
    {
      ghost var t := Entries();
      var lo0, hi := FindLast(target);
      ok := true;
      if hi > lo0 && page[lo0].start < target {
        var lo: int;
        ok, lo, hi := KeepTail(lo0, s, target);
        if ok {
          ghost var kept := Entries();
          DropBefore(hi, s, target);
          KeptIs(t, page.Length, lo0, s, target, kept, hi);
        }
      }
    }

    /** badblocks_clear on tracked blocks. */
    method ClearRange(s: int, target: int) returns (ok: bool)
      requires Valid()
      modifies page, this
      ensures count <= page.Length
      ensures var r := Clear(old(Entries()), page.Length, s, target);
              ok == r.Table? && Entries() == (if ok then r.entries else old(Entries()))
      ensures if ok then changed else changed == old(changed)
      ensures old(FlagSound()) ==> FlagSound()
    {
      ghost var t := Entries();
      ok := ClearPage(s, target);
      if ok {
        if AllAcked(t) {
          ClearAcked(t, StartingBefore(t, target), page.Length, s, target);
        }
        UpdateAcked();
        changed := true;
      }
    }

    /** ack_all_badblocks */
    method AckAll()
      requires count <= page.Length
      modifies page, `unackedExist
      ensures if !changed && old(unackedExist)
              then !unackedExist && |Entries()| == |old(Entries())|
                   && forall i :: 0 <= i < count ==> page[i] == Entry(old(page[i]).start, old(page[i]).len, true)
              else Entries() == old(Entries()) && unackedExist == old(unackedExist)
    {
      if changed {
        return;
      }
      if unackedExist {
        ghost var t := Entries();
        for i := 0 to count
          invariant forall j :: 0 <= j < i ==> page[j] == Entry(t[j].start, t[j].len, true)
          invariant forall j :: i <= j < count ==> page[j] == t[j]
        {
          if !page[i].ack {
            page[i] := Entry(page[i].start, page[i].len, true);
          }
        }
        unackedExist := false;
      }
    }
  }

  lemma KeptIs(t: seq<Entry>, capacity: nat, lo: nat, s: int, target: int, kept: seq<Entry>, hi: nat)
    requires lo < |t| && t[lo].start < target && hi <= |kept|
    requires var e := t[lo]; var tail := Entry(target, e.End() - target, e.ack);
             if e.End() <= target then kept == t && hi == lo + 1
             else if s <= e.start then kept == t[..lo] + [tail] + t[lo + 1..] && hi == lo
             else |t| < capacity && hi == lo + 1
                  && kept == t[..lo] + [Entry(e.start, s - e.start, e.ack)] + [tail] + t[lo + 1..]
    ensures ClearAt(t, lo + 1, capacity, s, target) == Table(Trim(kept[..hi], s, target) + kept[hi..])
  {
    var e := t[lo];
    var left, tail := Entry(e.start, s - e.start, e.ack), Entry(target, e.End() - target, e.ack);
    if target < e.End() && s <= e.start {
      assert kept[..hi] == t[..lo] && kept[hi..] == [tail] + t[lo + 1..];
    } else if target < e.End() {
      assert kept[..hi] == t[..lo] + [left] && kept[hi..] == [tail] + t[lo + 1..];
      assert Trim(kept[..hi], s, target) == kept[..hi];
      assert t[..lo] + [left, tail] + t[lo + 1..] == t[..lo] + [left] + ([tail] + t[lo + 1..]);
    }
  }
}
