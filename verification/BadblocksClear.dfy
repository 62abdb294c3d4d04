/**
badblocks_clear keeps the table sorted and takes exactly the range out of it, flags included, unless
a split is needed in a full table; a range turned round by rounding is the one thing it cannot take.
*/
module BadblocksClear {
  import opened BadblocksModel

  lemma BadAsConcat(a: seq<Entry>, b: seq<Entry>, x: int, ack: bool)
    ensures BadAs(a + b, x, ack) <==> BadAs(a, x, ack) || BadAs(b, x, ack)
  {
    var c := a + b;
    if BadAs(a, x, ack) {
      var i :| 0 <= i < |a| && a[i].Has(x) && a[i].ack == ack;
      assert c[i] == a[i];
    }
    if BadAs(b, x, ack) {
      var i :| 0 <= i < |b| && b[i].Has(x) && b[i].ack == ack;
      assert c[|a| + i] == b[i];
    }
  }

  lemma PiecesBad(e: Entry, s: int, target: int, x: int, ack: bool)
    requires s <= target
    ensures BadAs(Pieces(e, s, target), x, ack) <==> e.Has(x) && e.ack == ack && !(s <= x < target)
  {
    var p := Pieces(e, s, target);
    if e.Has(x) && e.ack == ack && !(s <= x < target) {
      assert p[if e.Overlaps(s, target) && e.start < s && target <= x then 1 else 0].Has(x);
    }
  }

  /** Cutting takes the range out block by block and keeps every other block's flag. */
  lemma {:induction false} CutBad(t: seq<Entry>, s: int, target: int, x: int, ack: bool)
    requires s <= target
    ensures BadAs(Cut(t, s, target), x, ack) <==> BadAs(t, x, ack) && !(s <= x < target)
  {
    if t != [] {
      var u, e := t[..|t| - 1], t[|t| - 1];
      CutBad(u, s, target, x, ack);
      PiecesBad(e, s, target, x, ack);
      BadAsConcat(Cut(u, s, target), Pieces(e, s, target), x, ack);
      BadAsConcat(u, [e], x, ack);
      assert BadAs([e], x, ack) <==> e.Has(x) && e.ack == ack by {
        if e.Has(x) && e.ack == ack { assert [e][0] == e; }
      }
      assert t == u + [e];
    }
  }

  ghost predicate AllBefore(t: seq<Entry>, x: int) {
    forall i :: 0 <= i < |t| ==> t[i].End() <= x
  }

  ghost predicate AllFrom(t: seq<Entry>, x: int) {
    forall i :: 0 <= i < |t| ==> x <= t[i].start
  }

  lemma SortedConcat(a: seq<Entry>, b: seq<Entry>, x: int)
    requires Sorted(a) && Sorted(b) && AllBefore(a, x) && AllFrom(b, x)
    ensures Sorted(a + b)
  {
    var c := a + b;
    forall i, j | 0 <= i < j < |c| ensures c[i].End() <= c[j].start {
      if j < |a| {
        assert c[i] == a[i] && c[j] == a[j];
      } else if |a| <= i {
        assert c[i] == b[i - |a|] && c[j] == b[j - |a|];
      } else {
        assert c[i] == a[i] && c[j] == b[j - |a|];
      }
    }
  }

  lemma PiecesSorted(e: Entry, s: int, target: int)
    requires 1 <= e.len <= MAX_LEN && s <= target
    ensures var p := Pieces(e, s, target); Sorted(p) && AllFrom(p, e.start) && AllBefore(p, e.End())
  {
  }

  lemma {:induction false} CutSorted(t: seq<Entry>, s: int, target: int)
    requires Sorted(t) && s <= target
    ensures Sorted(Cut(t, s, target))
    ensures t != [] ==> AllBefore(Cut(t, s, target), t[|t| - 1].End())
  {
    if t != [] {
      var u, e := t[..|t| - 1], t[|t| - 1];
      CutSorted(u, s, target);
      PiecesSorted(e, s, target);
      SortedConcat(Cut(u, s, target), Pieces(e, s, target), e.start);
    }
  }

  lemma Assoc(a: seq<Entry>, b: seq<Entry>, c: seq<Entry>)
    ensures a + b + c == a + (b + c)
  {
  }

  lemma {:induction false} CutAppend(t: seq<Entry>, u: seq<Entry>, s: int, target: int)
    ensures Cut(t + u, s, target) == Cut(t, s, target) + Cut(u, s, target)
  {
    if u == [] {
      assert t + u == t;
      assert Cut(u, s, target) == [];
    } else {
      var v, e := u[..|u| - 1], u[|u| - 1];
      CutAppend(t, v, s, target);
      var w := t + u;
      assert w[..|w| - 1] == t + v && w[|w| - 1] == e;
      Assoc(Cut(t, s, target), Cut(v, s, target), Pieces(e, s, target));
    }
  }

  lemma {:induction false} CutNone(t: seq<Entry>, s: int, target: int)
    requires forall i :: 0 <= i < |t| ==> !t[i].Overlaps(s, target)
    ensures Cut(t, s, target) == t
  {
    if t != [] {
      CutNone(t[..|t| - 1], s, target);
      assert t == t[..|t| - 1] + [t[|t| - 1]];
    }
  }

  /** The backward walk touches only the last overlapping ranges, and these are all there are. */
  lemma {:induction false} TrimIsCut(t: seq<Entry>, s: int, target: int)
    requires Sorted(t) && s <= target
    requires forall i :: 0 <= i < |t| ==> t[i].End() <= target
    ensures Trim(t, s, target) == Cut(t, s, target)
  {
    if t != [] {
      var u, e := t[..|t| - 1], t[|t| - 1];
      if !e.Overlaps(s, target) {
        CutNone(t, s, target);
      } else if e.start < s {
        CutNone(u, s, target);
      } else {
        TrimIsCut(u, s, target);
        assert Cut(t, s, target) == Cut(u, s, target) + [];
      }
    }
  }

  ghost predicate NeedsSplit(t: seq<Entry>, s: int, target: int) {
    exists i :: 0 <= i < |t| && t[i].start < s && target < t[i].End() && t[i].start < target
  }

  lemma CutParts(u: seq<Entry>, e: Entry, v: seq<Entry>, s: int, target: int)
    requires AllFrom(v, target)
    ensures Cut(u + [e], s, target) == Cut(u, s, target) + Pieces(e, s, target)
    ensures Cut(u + [e] + v, s, target) == Cut(u, s, target) + Pieces(e, s, target) + v
  {
    assert (u + [e])[..|u|] == u;
    CutNone(v, s, target);
    CutAppend(u + [e], v, s, target);
  }

  /** It fails exactly when a full table would need a split. */
  lemma ClearFails(t: seq<Entry>, capacity: nat, s: int, target: int)
    requires Sorted(t)
    ensures Clear(t, capacity, s, target).NoSpace? <==> |t| >= capacity && NeedsSplit(t, s, target)
  {
    StartingBeforeIs(t, target);
    var k := StartingBefore(t, target);
    if NeedsSplit(t, s, target) {
      var i :| 0 <= i < |t| && t[i].start < s && target < t[i].End() && t[i].start < target;
      assert i == k - 1;
    }
  }

  /** What is made of the last range e that starts before the end of the cleared one, and of those before it. */
  function ClearParts(u: seq<Entry>, e: Entry, s: int, target: int): seq<Entry> {
    if e.End() <= target then Trim(u + [e], s, target)
    else if s <= e.start then Trim(u, s, target) + [Entry(target, e.End() - target, e.ack)]
    else u + [Entry(e.start, s - e.start, e.ack), Entry(target, e.End() - target, e.ack)]
  }

  lemma ClearPartsCut(u: seq<Entry>, e: Entry, s: int, target: int)
    requires Sorted(u + [e]) && s <= target && e.start < target
    ensures ClearParts(u, e, s, target) == Cut(u, s, target) + Pieces(e, s, target)
  {
    var w := u + [e];
    assert w[|u|] == e;
    forall i | 0 <= i < |u| ensures u[i].End() <= e.start && 1 <= u[i].len <= MAX_LEN { assert w[i] == u[i]; }
    forall i, j | 0 <= i < j < |u| ensures u[i].End() <= u[j].start { assert w[i] == u[i] && w[j] == u[j]; }
    if e.End() <= target {
      TrimIsCut(w, s, target);
      assert w[..|u|] == u;
    } else if s <= e.start {
      TrimIsCut(u, s, target);
    } else {
      CutNone(u, s, target);
    }
  }

  lemma ClearByParts(t: seq<Entry>, capacity: nat, s: int, target: int, u: seq<Entry>, e: Entry, v: seq<Entry>)
    requires var k := StartingBefore(t, target); k > 0 && u == t[..k - 1] && e == t[k - 1] && v == t[k..]
    ensures var r := Clear(t, capacity, s, target); r.Table? ==> r.entries == ClearParts(u, e, s, target) + v
  {
    var k := StartingBefore(t, target);
    assert t[..k] == u + [e];
  }

  /** Clearing is cutting every range of the table. */
  lemma ClearIsCut(t: seq<Entry>, capacity: nat, s: int, target: int)
    requires Sorted(t) && s <= target
    ensures var r := Clear(t, capacity, s, target); r.Table? ==> r.entries == Cut(t, s, target)
  {
    StartingBeforeIs(t, target);
    var k := StartingBefore(t, target);
    if k == 0 {
      CutNone(t, s, target);
    } else {
      var u, e, v := t[..k - 1], t[k - 1], t[k..];
      assert t == u + [e] + v;
      ClearByParts(t, capacity, s, target, u, e, v);
      ClearPartsCut(u, e, s, target);
      CutParts(u, e, v, s, target);
    }
  }

  /** The table after clearing records what it should. */
  ghost predicate ClearedRight(t: seq<Entry>, r: Cleared, s: int, target: int) {
    r.Table? ==>
      && Sorted(r.entries)
      && forall x, ack :: BadAs(r.entries, x, ack) <==> BadAs(t, x, ack) && !(s <= x < target)
  }

  ghost predicate Straddled(t: seq<Entry>, target: int) {
    exists i :: 0 <= i < |t| && t[i].start < target < t[i].End()
  }

  lemma ClearForward(t: seq<Entry>, capacity: nat, s: int, target: int)
    requires Sorted(t) && s <= target
    ensures ClearedRight(t, Clear(t, capacity, s, target), s, target)
  {
    ClearIsCut(t, capacity, s, target);
    CutSorted(t, s, target);
    forall x, ack ensures BadAs(Cut(t, s, target), x, ack) <==> BadAs(t, x, ack) && !(s <= x < target) {
      CutBad(t, s, target, x, ack);
    }
  }

  lemma ClearInverted(t: seq<Entry>, capacity: nat, s: int, target: int)
    requires Sorted(t) && target < s
    ensures ClearedRight(t, Clear(t, capacity, s, target), s, target) <==> |t| >= capacity || !Straddled(t, target)
  {
    StartingBeforeIs(t, target);
    var k := StartingBefore(t, target);
    var r := Clear(t, capacity, s, target);
    if k > 0 && t[k - 1].End() > target {
      assert Straddled(t, target);
      if |t| < capacity {
        assert r.entries[k - 1].End() == s && r.entries[k].start == target;
      }
    } else {
      if k > 0 {
        assert Trim(t[..k], s, target) == t[..k];
        assert t[..k] + t[k..] == t;
      }
      assert r == Table(t);
    }
  }

  /** Exactly when clearing is right: the range is not turned round, or the table is full, or no range spans its end. */
  lemma ClearExact(t: seq<Entry>, capacity: nat, s: int, target: int)
    requires Sorted(t)
    ensures ClearedRight(t, Clear(t, capacity, s, target), s, target)
            <==> s <= target || |t| >= capacity || !Straddled(t, target)
  {
    if s <= target {
      ClearForward(t, capacity, s, target);
    } else {
      ClearInverted(t, capacity, s, target);
    }
  }
}
