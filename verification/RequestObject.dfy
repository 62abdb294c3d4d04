/** The request as blk-core.c keeps it, its bios taken off one by one by the loop of blk_update_request. */
module RequestObject {
  import opened RequestModel
  import opened RequestProofs

  /** What one round of the loop leaves to do. */
  lemma OneRound(bios: seq<Piece>, done: seq<Piece>, n: nat, error: int, all: Eaten)
    requires bios != [] && Joins(Eaten(bios, done), Eat(bios, n, error), all)
    ensures var size, b := Size(bios[0]), Advance(bios[0], Min(Size(bios[0]), n), error);
            if n < size then all == Eaten([b] + bios[1..], done)
            else if n == size || bios[1..] == [] then all == Eaten(bios[1..], done + [b])
            else Joins(Eaten(bios[1..], done + [b]), Eat(bios[1..], n - size, error), all)
  {
    var size, b := Size(bios[0]), Advance(bios[0], Min(Size(bios[0]), n), error);
    if n > size && bios[1..] != [] {
      var rest := Eat(bios[1..], n - size, error).done;
      assert done + ([b] + rest) == done + [b] + rest;
    }
  }

  /** blk_try_merge would have bio p merged into the request this way. */
  ghost predicate MayTake(r: Req, p: Piece, how: Merge) {
    Inv(r) && r.bios != [] && !r.passthrough && PieceOk(p) && TryMerge(r, p) == how
  }

  class Request {
    const passthrough: bool
    const special: bool
    const flushSeq: bool
    var bios: seq<Piece>
    var sector: nat
    var dataLen: int
    var ended: seq<Piece>
    var botched: bool

    ghost function Model(): Req
      reads this
    {
      Req(bios, sector, dataLen, passthrough, special, flushSeq, ended, botched)
    }

    /** A request made of one bio. */
    constructor (p: Piece, passthrough: bool, special: bool, flushSeq: bool)
      requires PieceOk(p)
      ensures Inv(Model()) && bios == [p] && ended == []
    {
      this.passthrough, this.special, this.flushSeq := passthrough, special, flushSeq;
      bios, sector, dataLen, ended, botched := [p], p.sector, Size(p), [], false;
      new;
      BytesOne(p);
    }

    /** bio_attempt_back_merge; `fits` is what ll_back_merge_fn says. */
    method AttemptBackMerge(p: Piece, fits: bool) returns (merged: bool)
      modifies this
      ensures merged == fits && Model() == if merged then MergeBack(old(Model()), p) else old(Model())
      ensures old(MayTake(Model(), p, Back)) ==> Inv(Model())
    {
      if MayTake(Model(), p, Back) { MergeBackKeeps(Model(), p); }
      if !fits {
        return false;
      }
      bios := bios + [p];
      dataLen := dataLen + Size(p);
      return true;
    }

    /** bio_attempt_front_merge */
    method AttemptFrontMerge(p: Piece, fits: bool) returns (merged: bool)
      modifies this
      ensures merged == fits && Model() == if merged then MergeFront(old(Model()), p) else old(Model())
      ensures old(MayTake(Model(), p, Front)) ==> Inv(Model())
    {
      if MayTake(Model(), p, Front) { MergeFrontKeeps(Model(), p); }
      if !fits {
        return false;
      }
      bios := [p] + bios;
      sector := p.sector;
      dataLen := dataLen + Size(p);
      return true;
    }

    /** The loop of blk_update_request. */
    method EatBios(error: int, n: nat) returns (total: nat)
      requires bios != []
      modifies this`bios, this`ended
      ensures var e := Eat(old(bios), n, error);
              bios == e.left && ended == if flushSeq then old(ended) else old(ended) + e.done
      ensures total == Min(n, Bytes(old(bios)))
    {
      ghost var all := Eat(bios, n, error);
      ghost var done: seq<Piece> := [];
      var left := n;
      total := 0;
      while bios != []
        invariant bios != [] ==> Joins(Eaten(bios, done), Eat(bios, left, error), all)
        invariant bios == [] ==> all == Eaten([], done)
        invariant ended == if flushSeq then old(ended) else old(ended) + done
        invariant total + left == n && total + Min(left, Bytes(bios)) == Min(n, Bytes(old(bios)))
        decreases |bios|
      {
        OneRound(bios, done, left, error, all);
        var b := bios[0];
        var k := Min(Size(b), left);
        var b' := Advance(b, k, error);
        if k == Size(b) {
          bios := bios[1..];
          if !flushSeq {
            ended := ended + [b'];
          }
          done := done + [b'];
        } else {
          bios := [b'] + bios[1..];
        }
        total, left := total + k, left - k;
        if left == 0 {
          break;
        }
      }
    }

    /** blk_update_request */
    method UpdateRequest(error: int, n: nat) returns (more: bool)
      modifies this
      ensures Model() == Update(old(Model()), error, n) && more == (bios != [])
    {
      if bios == [] {
        return false;
      }
      var total := EatBios(error, n);
      if bios == [] {
        dataLen := 0;
        return false;
      }
      dataLen := dataLen - total;
      if !passthrough {
        sector := sector + total / 512;
      }
      if !special && dataLen < CurBytes(bios[0]) {
        botched := true;
        dataLen := CurBytes(bios[0]);
      }
      return true;
    }
  }
}
