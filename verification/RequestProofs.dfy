/** Merges and partial completions keep a request in order; completing in two steps is completing in one. */
module RequestProofs {
  import opened Options
  import opened RequestModel

  // ----- segments -----

  lemma {:induction false} DropSum(segs: seq<nat>, n: nat)
    requires n <= Sum(segs)
    ensures Sum(DropBytes(segs, n)) == Sum(segs) - n
  {
    if segs != [] && n != 0 {
      if n >= segs[0] {
        DropSum(segs[1..], n - segs[0]);
      } else {
        assert DropBytes(segs, n)[1..] == segs[1..];
      }
    }
  }

  lemma {:induction false} DropPositive(segs: seq<nat>, n: nat)
    requires forall i :: 0 <= i < |segs| ==> segs[i] >= 1
    ensures forall i :: 0 <= i < |DropBytes(segs, n)| ==> DropBytes(segs, n)[i] >= 1
  {
    if segs != [] && n >= segs[0] { DropPositive(segs[1..], n - segs[0]); }
  }

  lemma {:induction false} DropTwice(segs: seq<nat>, m: nat, n: nat)
    requires forall i :: 0 <= i < |segs| ==> segs[i] >= 1
    ensures DropBytes(DropBytes(segs, m), n) == DropBytes(segs, m + n)
  {
    if segs != [] && m != 0 {
      if m >= segs[0] {
        DropTwice(segs[1..], m - segs[0], n);
      } else {
        var d := DropBytes(segs, m);
        assert d[1..] == segs[1..];
        if m + n < segs[0] {
          assert DropBytes(d, n) == DropBytes(segs, m + n);
        }
      }
    }
  }

  /** Advancing a bio in two steps is advancing it in one, unless the odd bytes of the two make a sector. */
  lemma AdvanceTwice(p: Piece, m: nat, n: nat, error: int)
    requires PieceOk(p)
    ensures Advance(Advance(p, m, error), n, error) == Advance(p, m + n, error) <==> m % 512 + n % 512 < 512
  {
    DropTwice(p.segs, m, n);
    SectorsSplit(m, n);
  }

  /** What is left of a bio after an odd number of bytes does not make the sectors whole again. */
  lemma OddRest(size: nat, m: nat)
    requires size % 512 == 0 && m <= size
    ensures m % 512 + (size - m) % 512 < 512 <==> m % 512 == 0
  {
  }

  lemma AdvanceOk(p: Piece, n: nat, error: int)
    requires PieceOk(p) && n < Size(p) && n % 512 == 0
    ensures var q := Advance(p, n, error);
            PieceOk(q) && Size(q) == Size(p) - n && q.sector + Size(q) / 512 == p.sector + Size(p) / 512
  {
    DropSum(p.segs, n);
    DropPositive(p.segs, n);
  }

  // ----- completion -----

  ghost predicate AllOk(bios: seq<Piece>) {
    forall i :: 0 <= i < |bios| ==> PieceOk(bios[i])
  }

  lemma TailOk(bios: seq<Piece>)
    requires bios != [] && AllOk(bios)
    ensures AllOk(bios[1..]) && (Contiguous(bios) ==> Contiguous(bios[1..]))
  {
    forall i | 0 <= i < |bios[1..]| - 1 && Contiguous(bios)
      ensures bios[1..][i].sector + Size(bios[1..][i]) / 512 == bios[1..][i + 1].sector
    {
      assert bios[i + 1].sector + Size(bios[i + 1]) / 512 == bios[i + 1 + 1].sector;
    }
  }

  ghost predicate Positive(bios: seq<Piece>) {
    forall i :: 0 <= i < |bios| ==> Size(bios[i]) >= 1
  }

  /** What is left is what was not completed, whether or not that is whole sectors. */
  lemma {:induction false} EatBytes(bios: seq<Piece>, n: nat, error: int)
    requires bios != [] && Positive(bios)
    ensures var e := Eat(bios, n, error);
            && Positive(e.left) && Bytes(e.left) == Bytes(bios) - Min(n, Bytes(bios))
            && (e.left == [] <==> n >= Bytes(bios))
  {
    var size := Size(bios[0]);
    if n < size {
      DropSum(bios[0].segs, n);
      var b := Advance(bios[0], n, error);
      assert ([b] + bios[1..])[1..] == bios[1..];
    } else if n > size && bios[1..] != [] {
      EatBytes(bios[1..], n - size, error);
    } else if bios[1..] != [] {
      assert Size(bios[1..][0]) >= 1;
    }
  }

  lemma OkPositive(bios: seq<Piece>)
    requires AllOk(bios)
    ensures Positive(bios)
  {
    forall i | 0 <= i < |bios| ensures Size(bios[i]) >= 1 { assert PieceOk(bios[i]); }
  }

  lemma {:induction false} EatOk(bios: seq<Piece>, n: nat, error: int)
    requires bios != [] && AllOk(bios) && n % 512 == 0
    ensures AllOk(Eat(bios, n, error).left)
  {
    TailOk(bios);
    assert PieceOk(bios[0]);
    if n < Size(bios[0]) {
      AdvanceOk(bios[0], n, error);
    } else if n > Size(bios[0]) && bios[1..] != [] {
      EatOk(bios[1..], n - Size(bios[0]), error);
    }
  }

  /** A completion within the first bio leaves it ending where it did. */
  lemma AdvanceContiguous(bios: seq<Piece>, n: nat, error: int)
    requires bios != [] && AllOk(bios) && n % 512 == 0 && Contiguous(bios) && n < Size(bios[0])
    ensures Contiguous([Advance(bios[0], n, error)] + bios[1..])
  {
    AdvanceOk(bios[0], n, error);
    var left := [Advance(bios[0], n, error)] + bios[1..];
    forall i | 0 <= i < |left| - 1 ensures left[i].sector + Size(left[i]) / 512 == left[i + 1].sector {
      assert bios[i].sector + Size(bios[i]) / 512 == bios[i + 1].sector;
    }
  }

  lemma {:induction false} EatContiguous(bios: seq<Piece>, n: nat, error: int)
    requires bios != [] && AllOk(bios) && n % 512 == 0 && Contiguous(bios)
    ensures var e := Eat(bios, n, error);
            Contiguous(e.left) && (e.left != [] ==> e.left[0].sector == bios[0].sector + n / 512)
  {
    assert PieceOk(bios[0]);
    var size := Size(bios[0]);
    if n < size {
      AdvanceContiguous(bios, n, error);
    } else if bios[1..] != [] {
      TailOk(bios);
      assert bios[0].sector + size / 512 == bios[0 + 1].sector;
      if n > size {
        EatContiguous(bios[1..], n - size, error);
        SectorsAddUp(size, n - size);
      }
    }
  }

  lemma FirstSegment(p: Piece)
    ensures CurBytes(p) <= Size(p)
  {
  }

  lemma HeadBytes(bios: seq<Piece>)
    requires bios != []
    ensures Bytes(bios) >= Size(bios[0])
  {
  }

  /** A completion of whole sectors keeps the request in order and never takes the "request botched" branch. */
  lemma UpdateKeeps(r: Req, error: int, n: nat)
    requires Inv(r) && n % 512 == 0
    ensures Inv(Update(r, error, n)) && (Update(r, error, n).bios == [] <==> n >= Bytes(r.bios))
  {
    if r.bios != [] {
      OkPositive(r.bios);
      EatBytes(r.bios, n, error);
      EatOk(r.bios, n, error);
      if !r.passthrough { EatContiguous(r.bios, n, error); }
      var e := Eat(r.bios, n, error);
      if e.left != [] {
        HeadBytes(e.left);
        FirstSegment(e.left[0]);
      }
    }
  }

  /** Bios end in order: those done, then those left, are those there were. */
  lemma {:induction false} EatInOrder(bios: seq<Piece>, n: nat, error: int)
    requires bios != []
    ensures Ids(Eat(bios, n, error).done) + Ids(Eat(bios, n, error).left) == Ids(bios)
  {
    if n > Size(bios[0]) && bios[1..] != [] {
      EatInOrder(bios[1..], n - Size(bios[0]), error);
      var rest := Eat(bios[1..], n - Size(bios[0]), error);
      assert Ids(bios) == [bios[0].id] + Ids(bios[1..]);
      assert Ids(Eat(bios, n, error).done) == [bios[0].id] + Ids(rest.done);
    }
  }

  lemma IdsConcat(a: seq<Piece>, b: seq<Piece>)
    ensures Ids(a + b) == Ids(a) + Ids(b)
  {
  }

  /** What a completion does to the lists of bios, repair or not. */
  lemma UpdateLists(r: Req, error: int, n: nat)
    requires !r.flushSeq && r.bios != []
    ensures var e := Eat(r.bios, n, error);
            Update(r, error, n).bios == e.left && Update(r, error, n).ended == r.ended + e.done
  {
  }

  lemma EndsInOrder(r: Req, error: int, n: nat)
    requires !r.flushSeq
    ensures Ids(Update(r, error, n).ended) + Ids(Update(r, error, n).bios) == Ids(r.ended) + Ids(r.bios)
    ensures r.ended <= Update(r, error, n).ended
  {
    if r.bios != [] {
      var e := Eat(r.bios, n, error);
      UpdateLists(r, error, n);
      EatInOrder(r.bios, n, error);
      IdsConcat(r.ended, e.done);
      Assoc(Ids(r.ended), Ids(e.done), Ids(e.left));
    }
  }

  // ----- two completions are one -----

  /** Completing more than the first bio: it is done, and the rest goes on. */
  lemma EatFirst(bios: seq<Piece>, n: nat, error: int)
    requires bios != [] && Size(bios[0]) < n && bios[1..] != []
    ensures var b, rest := Advance(bios[0], Size(bios[0]), error), Eat(bios[1..], n - Size(bios[0]), error);
            Eat(bios, n, error) == Eaten(rest.left, [b] + rest.done)
  {
  }

  lemma EatExactlyFirst(bios: seq<Piece>, error: int)
    requires bios != []
    ensures Eat(bios, Size(bios[0]), error) == Eaten(bios[1..], [Advance(bios[0], Size(bios[0]), error)])
  {
  }

  /** One completion and then another, together, are a third. */
  ghost predicate Joins(one: Eaten, two: Eaten, both: Eaten) {
    two.left == both.left && one.done + two.done == both.done
  }

  /** Both completions end inside the same bio. */
  predicate SameBio(bios: seq<Piece>, m: nat, n: nat) {
    if bios == [] then false
    else if m < Size(bios[0]) then m + n < Size(bios[0])
    else SameBio(bios[1..], m - Size(bios[0]), n)
  }

  /** Whether two completions leave the same bios as one, and whether they end the same. */
  ghost predicate Agree(one: Eaten, two: Eaten, both: Eaten, within: bool, m: nat, n: nat) {
    && (two.left == both.left <==> !within || m % 512 + n % 512 < 512)
    && (one.done + two.done == both.done <==> m % 512 == 0 || within)
  }

  ghost predicate SplitsAs(bios: seq<Piece>, m: nat, n: nat, error: int)
    requires bios != []
  {
    var e := Eat(bios, m, error);
    e.left != [] && Agree(e, Eat(e.left, n, error), Eat(bios, m + n, error), SameBio(bios, m, n), m, n)
  }

  lemma AgreeAfter(b: Piece, one: Eaten, two: Eaten, both: Eaten, within: bool, m: nat, n: nat, size: nat)
    requires size % 512 == 0 && Agree(one, two, both, within, m, n)
    ensures Agree(Eaten(one.left, [b] + one.done), two, Eaten(both.left, [b] + both.done), within, m + size, n)
  {
    assert [b] + one.done + two.done == [b] + (one.done + two.done);
    SameTail([b], one.done + two.done, both.done);
  }

  lemma SplitsWith(bios: seq<Piece>, m: nat, n: nat, error: int, one: Eaten, both: Eaten)
    requires bios != [] && one == Eat(bios, m, error) && one.left != [] && both == Eat(bios, m + n, error)
    requires Agree(one, Eat(one.left, n, error), both, SameBio(bios, m, n), m, n)
    ensures SplitsAs(bios, m, n, error)
  {
  }

  lemma SplitsAfterFirst(bios: seq<Piece>, m: nat, n: nat, error: int)
    requires bios != [] && bios[1..] != [] && m > Size(bios[0]) && Size(bios[0]) % 512 == 0
    requires SplitsAs(bios[1..], m - Size(bios[0]), n, error)
    ensures SplitsAs(bios, m, n, error)
  {
    var size, rest := Size(bios[0]), bios[1..];
    var b, e, both := Advance(bios[0], size, error), Eat(rest, m - size, error), Eat(rest, m - size + n, error);
    EatFirst(bios, m, error);
    EatFirst(bios, m + n, error);
    assert SameBio(bios, m, n) == SameBio(rest, m - size, n);
    AgreeAfter(b, e, Eat(e.left, n, error), both, SameBio(rest, m - size, n), m - size, n, size);
    SplitsWith(bios, m, n, error, Eaten(e.left, [b] + e.done), Eaten(both.left, [b] + both.done));
  }

  lemma {:induction false} EatTwice(bios: seq<Piece>, m: nat, n: nat, error: int)
    requires bios != [] && AllOk(bios) && n > 0 && m < Bytes(bios)
    ensures SplitsAs(bios, m, n, error)
  {
    TailOk(bios);
    var size := Size(bios[0]);
    assert PieceOk(bios[0]);
    if m < size {
      if m + n < size { EatWithin(bios, m, n, error); } else { EatAcross(bios, m, n, error); }
    } else if m == size {
      EatExactlyFirst(bios, error);
      EatFirst(bios, m + n, error);
      OddRest(size, m);
    } else {
      EatTwice(bios[1..], m - size, n, error);
      SplitsAfterFirst(bios, m, n, error);
    }
  }

  /** The first completion ends inside the first bio. */
  lemma EatInside(bios: seq<Piece>, m: nat, error: int)
    requires bios != [] && m < Size(bios[0])
    ensures var b := Advance(bios[0], m, error);
            Eat(bios, m, error) == Eaten([b] + bios[1..], []) && Size(b) == Size(bios[0]) - m
  {
    DropSum(bios[0].segs, m);
  }

  /** The second one does too. */
  lemma EatWithin(bios: seq<Piece>, m: nat, n: nat, error: int)
    requires bios != [] && PieceOk(bios[0]) && n > 0 && m + n < Size(bios[0])
    ensures SplitsAs(bios, m, n, error)
  {
    EatInside(bios, m, error);
    EatInside(bios, m + n, error);
    AdvanceTwice(bios[0], m, n, error);
    var b, c := Advance(bios[0], m, error), Advance(bios[0], m + n, error);
    assert ([b] + bios[1..])[1..] == bios[1..];
    EatInside([b] + bios[1..], n, error);
    assert ([Advance(b, n, error)] + bios[1..])[0] == Advance(b, n, error) && ([c] + bios[1..])[0] == c;
  }

  /** A completion that finishes the first bio: what else it ends is a matter of the others. */
  lemma DoneFirst(bios: seq<Piece>, n: nat, error: int) returns (rest: seq<Piece>)
    requires bios != [] && n >= Size(bios[0])
    ensures var e, over := Eat(bios, n, error), n - Size(bios[0]);
            && e.done == [Advance(bios[0], Size(bios[0]), error)] + rest
            && if over == 0 || bios[1..] == [] then e.left == bios[1..] && rest == []
               else e.left == Eat(bios[1..], over, error).left && rest == Eat(bios[1..], over, error).done
  {
    rest := if n == Size(bios[0]) || bios[1..] == [] then [] else Eat(bios[1..], n - Size(bios[0]), error).done;
  }

  /** The second one finishes the bio. */
  lemma EatAcross(bios: seq<Piece>, m: nat, n: nat, error: int)
    requires bios != [] && PieceOk(bios[0]) && n > 0 && m < Size(bios[0]) <= m + n
    ensures SplitsAs(bios, m, n, error)
  {
    var size := Size(bios[0]);
    EatInside(bios, m, error);
    AdvanceTwice(bios[0], m, size - m, error);
    OddRest(size, m);
    var b := Advance(bios[0], m, error);
    var x, y := Advance(b, size - m, error), Advance(bios[0], size, error);
    var left := [b] + bios[1..];
    assert left[1..] == bios[1..];
    var rest := DoneFirst(left, n, error);
    var rest' := DoneFirst(bios, m + n, error);
    assert [] + ([x] + rest) == [x] + rest;
    assert ([x] + rest)[0] == x && ([y] + rest)[0] == y;
  }

  /** What the loop left adds up. */
  ghost predicate AddsUp(r: Req, e: Eaten, n: nat) {
    && r.dataLen == Bytes(r.bios) && Bytes(e.left) == Bytes(r.bios) - Min(n, Bytes(r.bios))
    && (e.left == [] <==> n >= Bytes(r.bios))
  }

  /** A completion written out, but for the position: what is left and done, and the bytes it counts. */
  ghost function Result(r: Req, left: seq<Piece>, done: seq<Piece>, bytes: nat): Req {
    r.(bios := left, ended := if r.flushSeq then r.ended else r.ended + done, dataLen := r.dataLen - bytes)
  }

  /** On a request in order, a completion does what it says and repairs nothing. */
  lemma SettleIs(r: Req, e: Eaten, n: nat)
    requires AddsUp(r, e, n)
    ensures SettleData(r, e, n) == Result(r, e.left, e.done, Min(n, Bytes(r.bios)))
  {
    if e.left != [] {
      HeadBytes(e.left);
      FirstSegment(e.left[0]);
    }
  }

  lemma ResultTwice(r: Req, x: nat, l1: seq<Piece>, d1: seq<Piece>, b1: nat, l2: seq<Piece>, d2: seq<Piece>, b2: nat)
    ensures Result(Result(r, l1, d1, b1).(sector := x), l2, d2, b2) == Result(r, l2, d1 + d2, b1 + b2).(sector := x)
  {
    Assoc(r.ended, d1, d2);
  }

  /** What two completions leave is what one does exactly if the loops leave and end the same bios. */
  lemma SettleJoined(r: Req, x: nat, e: Eaten, e2: Eaten, e3: Eaten, m: nat, n: nat)
    requires AddsUp(r, e, m) && m < Bytes(r.bios) && AddsUp(r, e3, m + n)
    requires AddsUp(SettleData(r, e, m).(sector := x), e2, n)
    ensures SettleData(SettleData(r, e, m).(sector := x), e2, n).(sector := 0) == SettleData(r, e3, m + n).(sector := 0)
            <==> e2.left == e3.left && (r.flushSeq || e.done + e2.done == e3.done)
  {
    SettleIs(r, e, m);
    SettleIs(r, e3, m + n);
    SettleIs(SettleData(r, e, m).(sector := x), e2, n);
    ResultTwice(r, x, e.left, e.done, m, e2.left, e2.done, Min(n, Bytes(r.bios) - m));
    SameTail(r.ended, e.done + e2.done, e3.done);
  }

  lemma SameTail<T>(a: seq<T>, b: seq<T>, c: seq<T>)
    ensures a + b == a + c <==> b == c
  {
    assert (a + b)[|a|..] == b && (a + c)[|a|..] == c;
  }

  /** Both loops and the single one add up. */
  lemma LoopsAddUp(r: Req, m: nat, n: nat, error: int)
    requires r.bios != [] && Positive(r.bios) && r.dataLen == Bytes(r.bios) && m < Bytes(r.bios)
    ensures var e := Eat(r.bios, m, error);
            && AddsUp(r, e, m) && e.left != [] && AddsUp(r, Eat(r.bios, m + n, error), m + n)
            && Settle(r, e, m).bios == e.left && AddsUp(Settle(r, e, m), Eat(e.left, n, error), n)
  {
    LoopAddsUp(r, m, error);
    LoopAddsUp(r, m + n, error);
    var e := Eat(r.bios, m, error);
    assert Settle(r, e, m) == Result(r, e.left, e.done, m).(sector := NextSector(r, e, m)) by { SettleIs(r, e, m); }
    LoopAddsUp(Settle(r, e, m), n, error);
  }

  lemma LoopAddsUp(r: Req, n: nat, error: int)
    requires r.bios != [] && Positive(r.bios) && r.dataLen == Bytes(r.bios)
    ensures AddsUp(r, Eat(r.bios, n, error), n) && Positive(Eat(r.bios, n, error).left)
  {
    EatBytes(r.bios, n, error);
  }

  // ----- a completion of no bytes -----

  /** The bio that starts exactly m bytes into the request, if one does. */
  function StartingAt(bios: seq<Piece>, m: nat): Option<Piece> {
    if bios == [] then None
    else if m == 0 then Some(bios[0])
    else if m < Size(bios[0]) then None
    else StartingAt(bios[1..], m - Size(bios[0]))
  }

  /** The first bio left is an untouched one, or one that was advanced and marked with the error. */
  lemma {:induction false} LeftHead(bios: seq<Piece>, m: nat, error: int)
    requires bios != [] && Positive(bios) && 0 < m < Bytes(bios)
    ensures var left, next := Eat(bios, m, error).left, StartingAt(bios, m);
            && left != []
            && (next.Some? ==> left[0].status == next.value.status)
            && (next.None? && error != 0 ==> left[0].status == error)
  {
    EatBytes(bios, m, error);
    var size := Size(bios[0]);
    if m > size {
      assert bios[1..] != [];
      LeftHead(bios[1..], m - size, error);
    }
  }

  /** Completing no bytes marks the first bio with the error and does nothing else. */
  lemma UpdateZero(r: Req, error: int)
    requires r.bios != [] && Positive(r.bios) && r.dataLen == Bytes(r.bios)
    ensures Update(r, error, 0).(sector := 0)
            == r.(bios := [if error != 0 then r.bios[0].(status := error) else r.bios[0]] + r.bios[1..], sector := 0)
  {
    LoopAddsUp(r, 0, error);
    var e := Eat(r.bios, 0, error);
    SettleIs(r, e, 0);
    assert r.ended + [] == r.ended;
    assert Advance(r.bios[0], 0, error) == if error != 0 then r.bios[0].(status := error) else r.bios[0];
  }

  /**
  A request whose length is wrong: it is botched exactly if what is left is too short for the next segment, and
  then has the length of that segment; a special payload is not looked at, nor a request without bios.
  */
  lemma BotchedExactly(r: Req, error: int, n: nat)
    requires !r.botched
    ensures var u, left := Update(r, error, n), r.dataLen - Min(n, Bytes(r.bios));
            && (u.botched <==> u.bios != [] && !r.special && left < CurBytes(u.bios[0]))
            && (u.bios != [] && !r.special ==> u.dataLen >= left && u.dataLen >= CurBytes(u.bios[0]))
            && (u.bios != [] && !u.botched ==> u.dataLen == left)
            && (u.botched ==> u.dataLen == CurBytes(u.bios[0]))
            && (r.bios == [] ==> u == r) && (r.bios != [] && u.bios == [] ==> u.dataLen == 0)
  {
  }

  /** So it changes nothing exactly if there is no error to mark or the bio already has it. */
  lemma UpdateZeroExact(r: Req, error: int)
    requires r.bios != [] && Positive(r.bios) && r.dataLen == Bytes(r.bios)
    ensures Update(r, error, 0).(sector := 0) == r.(sector := 0) <==> error == 0 || r.bios[0].status == error
  {
    UpdateZero(r, error);
    assert r.bios == [r.bios[0]] + r.bios[1..];
    if error != 0 && r.bios[0].status != error {
      assert Update(r, error, 0).bios[0].status == error;
    }
  }

  /** The bio after the first m bytes is marked by a completion of nothing but not by one of m bytes. */
  ghost predicate Unmarked(bios: seq<Piece>, m: nat, error: int) {
    error != 0 && m > 0 && StartingAt(bios, m).Some? && StartingAt(bios, m).value.status != error
  }

  lemma UpdateThenZero(r: Req, m: nat, error: int)
    requires r.bios != [] && Positive(r.bios) && r.dataLen == Bytes(r.bios) && m < Bytes(r.bios)
    ensures Update(Update(r, error, m), error, 0).(sector := 0) == Update(r, error, m).(sector := 0)
            <==> !Unmarked(r.bios, m, error)
  {
    LoopAddsUp(r, m, error);
    var e := Eat(r.bios, m, error);
    SettleIs(r, e, m);
    var r1 := Update(r, error, m);
    assert r1.bios == e.left && r1.dataLen == Bytes(e.left);
    UpdateZeroExact(r1, error);
    if m == 0 {
      assert error != 0 ==> e.left[0].status == error;
    } else {
      LeftHead(r.bios, m, error);
    }
  }

  /**
  Nothing is lost by stopping after m bytes: m is whole sectors, or the odd bytes make no sector if the bio
  goes on, and if it does not its end is not reported.
  */
  ghost predicate CleanCut(r: Req, m: nat, n: nat) {
    m % 512 == 0 || if SameBio(r.bios, m, n) then m % 512 + n % 512 < 512 else r.flushSeq
  }

  /**
  Completing m bytes and then n is completing m + n, in what bios are left and have ended, exactly if the cut
  is clean and, for n == 0, no bio that the first completion only just did not reach is marked with the
  error. The position agrees exactly if the odd bytes make no sector, or, as a finishing completion does
  not move it, if the request is finished by the first completion or that one was less than a sector.
  */
  lemma UpdateTwice(r: Req, m: nat, n: nat, error: int)
    requires Inv(r)
    ensures var a, b := Update(Update(r, error, m), error, n), Update(r, error, m + n);
            && (a.(sector := 0) == b.(sector := 0) <==>
                  m >= Bytes(r.bios) || (CleanCut(r, m, n) && (n > 0 || !Unmarked(r.bios, m, error))))
            && (a.sector == b.sector <==>
                  || r.passthrough || m >= Bytes(r.bios)
                  || if m + n < Bytes(r.bios) then m % 512 + n % 512 < 512 else m < 512)
  {
    OkPositive(r.bios);
    if r.bios != [] && m >= Bytes(r.bios) {
      UpdateTwiceDone(r, m, n, error);
    } else if r.bios != [] {
      SectorTwiceLeft(r, m, n, error);
      UpdateTwiceSame(r, m, n, error);
    }
  }

  /** Where an odd cut falls, a bio goes on. */
  lemma {:induction false} OddInside(bios: seq<Piece>, m: nat)
    requires AllOk(bios) && m < Bytes(bios)
    ensures SameBio(bios, m, 0)
  {
    if m >= Size(bios[0]) {
      TailOk(bios);
      OddInside(bios[1..], m - Size(bios[0]));
    }
  }

  lemma UpdateTwiceSame(r: Req, m: nat, n: nat, error: int)
    requires Inv(r) && r.bios != [] && m < Bytes(r.bios) && Positive(r.bios)
    ensures Update(Update(r, error, m), error, n).(sector := 0) == Update(r, error, m + n).(sector := 0)
            <==> CleanCut(r, m, n) && (n > 0 || !Unmarked(r.bios, m, error))
  {
    if n > 0 {
      UpdateTwiceLeft(r, m, n, error);
    } else {
      CleanZero(r, m);
      UpdateThenZero(r, m, error);
    }
  }

  lemma CleanZero(r: Req, m: nat)
    requires AllOk(r.bios) && m < Bytes(r.bios)
    ensures CleanCut(r, m, 0)
  {
    OddInside(r.bios, m);
  }

  /** Once the first completion has finished the request, the second does nothing. */
  lemma UpdateTwiceDone(r: Req, m: nat, n: nat, error: int)
    requires r.bios != [] && AllOk(r.bios) && m >= Bytes(r.bios)
    ensures Update(Update(r, error, m), error, n) == Update(r, error, m + n)
  {
    OkPositive(r.bios);
    EatBytes(r.bios, m, error);
    EatAll(r.bios, m, m + n, error);
  }

  /** Two bios of one sector each, the first completed with an error: completing nothing more marks the second. */
  lemma NothingMarksNext() returns (r: Req)
    ensures Inv(r) && Update(Update(r, 5, 512), 5, 0).(sector := 0) != Update(r, 5, 512).(sector := 0)
  {
    var p, q := Piece(0, 0, [512], 0), Piece(1, 1, [512], 0);
    assert Sum([512]) == 512 by { assert Sum([512][1..]) == 0; }
    BytesOne(q);
    assert [p, q][1..] == [q];
    r := Req([p, q], 0, 1024, false, false, false, [], false);
    assert StartingAt(r.bios, 512) == Some(q) by { assert StartingAt([q], 0) == Some(q); }
    UpdateTwice(r, 512, 0, 5);
  }

  /** A bio of two sectors completed by half a sector twice, or by a sector at once, starts at different sectors. */
  lemma OddBytesDiffer() returns (r: Req)
    ensures Inv(r) && Update(Update(r, 0, 256), 0, 256).(sector := 0) != Update(r, 0, 512).(sector := 0)
  {
    var p := Piece(0, 0, [1024], 0);
    assert Sum([1024]) == 1024 by { assert Sum([1024][1..]) == 0; }
    BytesOne(p);
    r := Req([p], 0, 1024, false, false, false, [], false);
    assert SameBio(r.bios, 256, 256);
    UpdateTwice(r, 256, 256, 0);
  }

  /** A request of one bio of two sectors, finished in two halves or at once, ends up with different positions. */
  lemma HalvesDiffer() returns (r: Req)
    ensures Inv(r) && Bytes(r.bios) == 1024
    ensures Update(Update(r, 0, 512), 0, 512).sector != Update(r, 0, 1024).sector
  {
    var p := Piece(0, 0, [1024], 0);
    assert Sum([1024]) == 1024 by { assert Sum([1024][1..]) == 0; }
    BytesOne(p);
    r := Req([p], 0, 1024, false, false, false, [], false);
    UpdateTwice(r, 512, 512, 0);
  }

  /** Completing more than there is does no more than completing all. */
  lemma {:induction false} EatAll(bios: seq<Piece>, m: nat, n: nat, error: int)
    requires bios != [] && Bytes(bios) <= m <= n && AllOk(bios)
    ensures Eat(bios, m, error) == Eat(bios, n, error)
  {
    TailOk(bios);
    if bios[1..] != [] {
      assert PieceOk(bios[1..][0]);
      EatAll(bios[1..], m - Size(bios[0]), n - Size(bios[0]), error);
    }
  }

  lemma UpdateTwiceLeft(r: Req, m: nat, n: nat, error: int)
    requires Inv(r) && n > 0 && r.bios != [] && m < Bytes(r.bios) && Positive(r.bios)
    ensures Update(Update(r, error, m), error, n).(sector := 0) == Update(r, error, m + n).(sector := 0)
            <==> CleanCut(r, m, n)
  {
    LoopsAddUp(r, m, n, error);
    EatTwice(r.bios, m, n, error);
    var e := Eat(r.bios, m, error);
    SettleJoined(r, NextSector(r, e, m), e, Eat(e.left, n, error), Eat(r.bios, m + n, error), m, n);
  }

  /** Where two completions, of which the first leaves something, and one, leave the position. */
  lemma TwoSectors(r: Req, m: nat, n: nat, error: int)
    requires r.bios != [] && Positive(r.bios) && r.dataLen == Bytes(r.bios) && m < Bytes(r.bios)
    ensures var finished := m + n >= Bytes(r.bios);
            && Update(Update(r, error, m), error, n).sector
               == (if r.passthrough then r.sector else r.sector + m / 512 + if finished then 0 else n / 512)
            && Update(r, error, m + n).sector
               == (if r.passthrough || finished then r.sector else r.sector + (m + n) / 512)
  {
    LoopsAddUp(r, m, n, error);
    SettleIs(r, Eat(r.bios, m, error), m);
  }

  lemma SectorTwiceLeft(r: Req, m: nat, n: nat, error: int)
    requires r.bios != [] && Positive(r.bios) && r.dataLen == Bytes(r.bios) && m < Bytes(r.bios)
    ensures Update(Update(r, error, m), error, n).sector == Update(r, error, m + n).sector
            <==> r.passthrough || if m + n < Bytes(r.bios) then m % 512 + n % 512 < 512 else m < 512
  {
    TwoSectors(r, m, n, error);
    SectorsSplit(m, n);
  }

  /** In general, as long as something is left: the positions agree exactly if the odd bytes make no whole sector. */
  lemma PositionSplits(r: Req, m: nat, n: nat, error: int)
    requires r.bios != [] && Positive(r.bios) && r.dataLen == Bytes(r.bios) && m + n < Bytes(r.bios)
    ensures Update(Update(r, error, m), error, n).sector == Update(r, error, m + n).sector
            <==> r.passthrough || m % 512 + n % 512 < 512
  {
    TwoSectors(r, m, n, error);
    SectorsSplit(m, n);
  }

  lemma SectorsSplit(m: nat, n: nat)
    ensures (m + n) / 512 == m / 512 + n / 512 <==> m % 512 + n % 512 < 512
  {
  }

  lemma Assoc<T>(a: seq<T>, b: seq<T>, c: seq<T>)
    ensures a + (b + c) == a + b + c
  {
  }

  lemma SectorsAddUp(m: nat, n: nat)
    requires m % 512 == 0
    ensures (m + n) / 512 == m / 512 + n / 512 && (m > 0 ==> m / 512 > 0)
  {
  }

  // ----- merges -----

  lemma {:induction false} BytesConcat(a: seq<Piece>, b: seq<Piece>)
    ensures Bytes(a + b) == Bytes(a) + Bytes(b)
  {
    if a == [] {
      assert a + b == b;
    } else {
      assert (a + b)[1..] == a[1..] + b;
      BytesConcat(a[1..], b);
    }
  }

  /** The last bio of a request ends where its position and length say. */
  lemma {:induction false} EndOf(bios: seq<Piece>)
    requires bios != [] && AllOk(bios) && Contiguous(bios)
    ensures var p := bios[|bios| - 1]; p.sector + Size(p) / 512 == bios[0].sector + Bytes(bios) / 512
    ensures Bytes(bios) % 512 == 0
  {
    assert PieceOk(bios[0]);
    TailOk(bios);
    if |bios| > 1 {
      EndOf(bios[1..]);
      assert bios[0].sector + Size(bios[0]) / 512 == bios[0 + 1].sector;
    } else {
      assert bios[1..] == [];
    }
  }

  lemma BytesOne(p: Piece)
    ensures Bytes([p]) == Size(p)
  {
    assert Bytes([p][1..]) == 0;
  }

  /** Back exactly if it starts where the last bio ends, otherwise front exactly if it ends where the first starts. */
  lemma TryMergeExact(r: Req, p: Piece)
    requires Inv(r) && r.bios != [] && !r.passthrough && PieceOk(p)
    ensures var last := r.bios[|r.bios| - 1];
            var back, front := last.sector + Size(last) / 512 == p.sector, p.sector + Size(p) / 512 == r.bios[0].sector;
            && (TryMerge(r, p) == Back <==> back)
            && (TryMerge(r, p) == Front <==> !back && front)
  {
    EndOf(r.bios);
  }

  /** A merge that blk_try_merge allows leaves a request whose bios are contiguous. */
  lemma MergeBackKeeps(r: Req, p: Piece)
    requires Inv(r) && r.bios != [] && !r.passthrough && PieceOk(p) && TryMerge(r, p) == Back
    ensures Inv(MergeBack(r, p))
  {
    EndOf(r.bios);
    BytesConcat(r.bios, [p]);
    BytesOne(p);
    var bios := MergeBack(r, p).bios;
    forall i | 0 <= i < |bios| - 1 ensures bios[i].sector + Size(bios[i]) / 512 == bios[i + 1].sector {
      if i < |r.bios| - 1 { assert r.bios[i].sector + Size(r.bios[i]) / 512 == r.bios[i + 1].sector; }
    }
  }

  lemma MergeFrontKeeps(r: Req, p: Piece)
    requires Inv(r) && r.bios != [] && !r.passthrough && PieceOk(p) && TryMerge(r, p) == Front
    ensures Inv(MergeFront(r, p))
  {
    BytesConcat([p], r.bios);
    BytesOne(p);
    var bios := MergeFront(r, p).bios;
    forall i | 0 <= i < |bios| - 1 ensures bios[i].sector + Size(bios[i]) / 512 == bios[i + 1].sector {
      if i > 0 { assert r.bios[i - 1].sector + Size(r.bios[i - 1]) / 512 == r.bios[i - 1 + 1].sector; }
    }
  }

  // ----- runs -----

  datatype Action = Offer(p: Piece, fits: bool) | Completion(error: int, n: nat)

  function Accept(r: Req, p: Piece, how: Merge): Req {
    match how
    case Back => MergeBack(r, p)
    case Front => MergeFront(r, p)
    case NoMerge => r
  }

  /** A bio offered for merging, which the queue limits may refuse; or a completion of whole sectors. */
  function Apply(r: Req, a: Action): Req {
    match a
    case Offer(p, fits) =>
      if !fits || r.bios == [] then r else Accept(r, p, TryMerge(r, p))
    case Completion(error, n) => Update(r, error, n)
  }

  ghost predicate ActionOk(a: Action) {
    match a
    case Offer(p, _) => PieceOk(p)
    case Completion(_, n) => n % 512 == 0
  }

  function After(r: Req, run: seq<Action>): Req
    decreases |run|
  {
    if run == [] then r else After(Apply(r, run[0]), run[1..])
  }

  /** The bio an action adds to the request, if any. */
  function Joined(r: Req, a: Action): multiset<nat> {
    if a.Offer? && a.fits && r.bios != [] && TryMerge(r, a.p) != NoMerge then multiset{a.p.id} else multiset{}
  }

  /** The ids of the bios that were merged in a run. */
  function Merged(r: Req, run: seq<Action>): multiset<nat>
    decreases |run|
  {
    if run == [] then multiset{} else Joined(r, run[0]) + Merged(Apply(r, run[0]), run[1..])
  }

  /** All the bios a request has had: those that ended and those still there. */
  function Had(r: Req): multiset<nat> {
    multiset(Ids(r.ended)) + multiset(Ids(r.bios))
  }

  lemma OfferKeeps(r: Req, p: Piece, fits: bool)
    requires Inv(r) && !r.passthrough && PieceOk(p)
    ensures Inv(Apply(r, Offer(p, fits)))
  {
    if fits && r.bios != [] {
      if TryMerge(r, p) == Back {
        MergeBackKeeps(r, p);
      } else if TryMerge(r, p) == Front {
        MergeFrontKeeps(r, p);
      }
    }
  }

  lemma AcceptHad(r: Req, p: Piece, how: Merge)
    ensures Had(Accept(r, p, how)) == Had(r) + if how == NoMerge then multiset{} else multiset{p.id}
  {
    match how {
      case Back => IdsBack(r.bios, p);
      case Front => IdsFront(r.bios, p);
      case NoMerge =>
    }
  }

  lemma IdsBack(bios: seq<Piece>, p: Piece)
    ensures multiset(Ids(bios + [p])) == multiset(Ids(bios)) + multiset{p.id}
  {
    assert Ids(bios + [p]) == Ids(bios) + [p.id];
  }

  lemma IdsFront(bios: seq<Piece>, p: Piece)
    ensures multiset(Ids([p] + bios)) == multiset(Ids(bios)) + multiset{p.id}
  {
    assert Ids([p] + bios) == [p.id] + Ids(bios);
  }

  lemma CompletionKeeps(r: Req, error: int, n: nat)
    requires Inv(r) && !r.flushSeq && n % 512 == 0
    ensures Inv(Update(r, error, n)) && Had(Update(r, error, n)) == Had(r)
  {
    UpdateKeeps(r, error, n);
    EndsInOrder(r, error, n);
    assert multiset(Ids(Update(r, error, n).ended) + Ids(Update(r, error, n).bios))
        == multiset(Ids(r.ended) + Ids(r.bios));
  }

  ghost predicate Ordinary(r: Req) {
    Inv(r) && !r.passthrough && !r.flushSeq
  }

  lemma StepKeeps(r: Req, a: Action)
    requires Ordinary(r) && ActionOk(a)
    ensures Ordinary(Apply(r, a)) && Had(Apply(r, a)) == Had(r) + Joined(r, a)
  {
    match a {
      case Offer(p, fits) =>
        OfferKeeps(r, p, fits);
        AcceptHad(r, p, TryMerge(r, p));
      case Completion(error, n) => CompletionKeeps(r, error, n);
    }
  }

  /**
  Over every run of merges and partial completions the request stays in order, and each bio that was ever
  in it is, exactly once, either among those that ended or among those still there.
  */
  lemma {:induction false} EveryRun(r: Req, run: seq<Action>)
    requires Ordinary(r) && forall i :: 0 <= i < |run| ==> ActionOk(run[i])
    ensures Ordinary(After(r, run)) && Had(After(r, run)) == Had(r) + Merged(r, run)
    decreases |run|
  {
    if run != [] {
      StepKeeps(r, run[0]);
      EveryRun(Apply(r, run[0]), run[1..]);
    }
  }
}
