/**
A request and its bios: merging a bio at either end, and completing part of the request. A bio is the
list of its remaining segments; sizes are in bytes, positions in sectors of 512 bytes.
*/
module RequestModel {

  datatype Piece = Piece(id: nat, sector: nat, segs: seq<nat>, status: int)

  datatype Req = Req(
    bios: seq<Piece>,
    sector: nat,          // __sector
    dataLen: int,         // __data_len
    passthrough: bool,
    special: bool,        // RQF_SPECIAL_PAYLOAD
    flushSeq: bool,       // RQF_FLUSH_SEQ
    ended: seq<Piece>,    // bios on which bio_endio was called, in order
    botched: bool)        // the "request botched" branch was taken

  function Sum(segs: seq<nat>): nat {
    if segs == [] then 0 else segs[0] + Sum(segs[1..])
  }

  function Size(p: Piece): nat {
    Sum(p.segs)
  }

  function Bytes(bios: seq<Piece>): nat {
    if bios == [] then 0 else Size(bios[0]) + Bytes(bios[1..])
  }

  function Min(a: nat, b: nat): nat {
    if a < b then a else b
  }

  // ----- merging -----

  datatype Merge = Back | Front | NoMerge

  /** blk_try_merge for requests other than discards. */
  function TryMerge(r: Req, p: Piece): Merge {
    if r.sector + r.dataLen / 512 == p.sector then Back
    else if r.sector - Size(p) / 512 == p.sector then Front
    else NoMerge
  }

  /** bio_attempt_back_merge once the limits allow it. */
  function MergeBack(r: Req, p: Piece): Req {
    r.(bios := r.bios + [p], dataLen := r.dataLen + Size(p))
  }

  /** bio_attempt_front_merge once the limits allow it. */
  function MergeFront(r: Req, p: Piece): Req {
    r.(bios := [p] + r.bios, sector := p.sector, dataLen := r.dataLen + Size(p))
  }

  // ----- completion -----

  function DropBytes(segs: seq<nat>, n: nat): seq<nat> {
    if segs == [] || n == 0 then segs
    else if n >= segs[0] then DropBytes(segs[1..], n - segs[0])
    else [segs[0] - n] + segs[1..]
  }

  /** req_bio_endio up to its call of bio_endio. */
  function Advance(p: Piece, n: nat, error: int): Piece {
    p.(sector := p.sector + n / 512, segs := DropBytes(p.segs, n), status := if error != 0 then error else p.status)
  }

  datatype Eaten = Eaten(left: seq<Piece>, done: seq<Piece>)

  /** The loop of blk_update_request: which bios are left, and which are done. */
  function Eat(bios: seq<Piece>, n: nat, error: int): Eaten
    requires bios != []
  {
    var size := Size(bios[0]);
    var b := Advance(bios[0], Min(size, n), error);
    if n < size then Eaten([b] + bios[1..], [])
    else if n == size || bios[1..] == [] then Eaten(bios[1..], [b])
    else
      var rest := Eat(bios[1..], n - size, error);
      Eaten(rest.left, [b] + rest.done)
  }

  /** blk_rq_cur_bytes: the first segment. */
  function CurBytes(p: Piece): nat {
    if p.segs == [] then 0 else p.segs[0]
  }

  /** The "request botched" repair. */
  function Repair(r: Req): Req {
    if r.bios != [] && !r.special && r.dataLen < CurBytes(r.bios[0])
    then r.(botched := true, dataLen := CurBytes(r.bios[0]))
    else r
  }

  /** blk_update_request after its loop, but for the position: e is what the loop left of a completion of n bytes. */
  function SettleData(r: Req, e: Eaten, n: nat): Req {
    var r1 := r.(bios := e.left, ended := if r.flushSeq then r.ended else r.ended + e.done);
    if e.left == [] then r1.(dataLen := 0) else Repair(r1.(dataLen := r.dataLen - Min(n, Bytes(r.bios))))
  }

  /** The position moves by whole sectors, but not when the request is finished. */
  function NextSector(r: Req, e: Eaten, n: nat): nat {
    if e.left == [] || r.passthrough then r.sector else r.sector + Min(n, Bytes(r.bios)) / 512
  }

  function Settle(r: Req, e: Eaten, n: nat): Req {
    SettleData(r, e, n).(sector := NextSector(r, e, n))
  }

  /** blk_update_request */
  function Update(r: Req, error: int, n: nat): Req {
    if r.bios == [] then r else Settle(r, Eat(r.bios, n, error), n)
  }

  // ----- what a request should look like -----

  ghost predicate PieceOk(p: Piece) {
    && Size(p) >= 1 && Size(p) % 512 == 0
    && forall i :: 0 <= i < |p.segs| ==> p.segs[i] >= 1
  }

  /** The bios follow each other on the disk. */
  ghost predicate Contiguous(bios: seq<Piece>) {
    forall i :: 0 <= i < |bios| - 1 ==> bios[i].sector + Size(bios[i]) / 512 == bios[i + 1].sector
  }

  ghost predicate Inv(r: Req) {
    && (forall i :: 0 <= i < |r.bios| ==> PieceOk(r.bios[i]))
    && r.dataLen == Bytes(r.bios) && !r.botched
    && (!r.passthrough ==> Contiguous(r.bios) && (r.bios != [] ==> r.sector == r.bios[0].sector))
  }

  function Ids(bios: seq<Piece>): seq<nat> {
    seq(|bios|, i requires 0 <= i < |bios| => bios[i].id)
  }
}
