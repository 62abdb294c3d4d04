/** The directory walks of skin.c and molt.c, as loops. */
module SkinMolt {
  import opened SkinModel
  import opened SkinProofs

  /** skinning_dir, and skinning_file for what is not a directory. */
  method SkinNode(md5: Digest, n: Node, path: string) returns (skin: Node)
    ensures skin == Skin(md5, n, path)
    decreases Size(n)
  {
    if n.File? {
      return File(Record(md5, n.content, path));
    }
    var list := Listing(n.entries);
    var done: seq<Entry> := [];
    var i := 0;
    while i < |list|
      invariant i <= |list| && done + SkinAll(md5, list[i..], path) == SkinAll(md5, list, path)
      decreases |list| - i
    {
      var name := list[i].name;
      EntrySize(list, i);
      var sub := SkinNode(md5, list[i].node, Below(path, name));
      assert list[i..][1..] == list[i + 1..];
      done := done + [Entry(name, sub)];
      i := i + 1;
    }
    skin := Dir(done);
  }

  lemma {:induction false} EntrySize(es: seq<Entry>, i: nat)
    requires i < |es|
    ensures Size(es[i].node) < 1 + Total(es)
  {
    if i > 0 { EntrySize(es[1..], i - 1); }
  }

  /** molting_dir and molting_file on two nodes of the same name; the copies are listed in order. */
  method MoltNodes(o: Node, c: Node, m: string) returns (copies: seq<Copy>)
    ensures copies == MoltPair(o, c, m)
    decreases Size(o)
  {
    copies := [];
    if o.File? && c.File? {
      if ReadHash(o.content) != ReadHash(c.content) {
        copies := [Copy(ReadPath(c.content), m)];
      }
      return;
    }
    if o.File? || c.File? {
      return;
    }
    var os, cs := Listing(o.entries), Listing(c.entries);
    var i, j := 0, 0;
    while i < |os| && j < |cs|
      invariant i <= |os| && j <= |cs| && copies + MoltAll(os[i..], cs[j..], m) == MoltAll(os, cs, m)
      decreases |os| - i + |cs| - j
    {
      assert os[i..][1..] == os[i + 1..] && cs[j..][1..] == cs[j + 1..];
      var n := Cmp(os[i].name, cs[j].name);
      if n == 0 {
        EntrySize(os, i);
        var more := MoltNodes(os[i].node, cs[j].node, Below(m, os[i].name));
        copies := copies + more;
        i, j := i + 1, j + 1;
      } else if n < 0 {
        i := i + 1;
      } else {
        j := j + 1;
      }
    }
  }

  /** The two programs one after the other. */
  method SkinAndMolt(md5: Digest, a: Node, b: Node, pa: string, pb: string, m: string) returns (copies: seq<Copy>)
    requires DigestOk(md5) && TreeOk(a) && TreeOk(b) && '\0' !in pa && '\0' !in pb
    ensures forall c :: c in copies <==> exists rel :: Differs(md5, a, b, rel) && c == CopyOf(pb, m, rel)
  {
    var skinA := SkinNode(md5, a, pa);
    var skinB := SkinNode(md5, b, pb);
    copies := MoltNodes(skinA, skinB, m);
    forall c: Copy ensures c in copies <==> exists rel :: Differs(md5, a, b, rel) && c == CopyOf(pb, m, rel) {
      SkinThenMolt(md5, a, b, pa, pb, m, c);
    }
  }
}
