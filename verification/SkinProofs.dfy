/** Skinning two trees and molting the skins copies exactly the files in both trees that differ. */
module SkinProofs {
  import opened Options
  import opened SkinModel

  // ----- strings -----

  lemma {:induction false} CmpZero(a: string, b: string)
    ensures Cmp(a, b) == 0 <==> a == b
  {
    if a != [] && b != [] {
      CmpZero(a[1..], b[1..]);
      assert a == [a[0]] + a[1..] && b == [b[0]] + b[1..];
    }
  }

  lemma {:induction false} CmpFlip(a: string, b: string)
    ensures Cmp(b, a) == -Cmp(a, b)
  {
    if a != [] && b != [] { CmpFlip(a[1..], b[1..]); }
  }

  lemma {:induction false} CmpTrans(a: string, b: string, c: string)
    requires Cmp(a, b) < 0 && Cmp(b, c) < 0
    ensures Cmp(a, c) < 0
  {
    if a != [] && b != [] && c != [] && a[0] == b[0] == c[0] { CmpTrans(a[1..], b[1..], c[1..]); }
  }

  lemma {:induction false} CStringWhole(s: string)
    requires '\0' !in s
    ensures CString(s) == s
  {
    if s != [] { CStringWhole(s[1..]); }
  }

  lemma {:induction false} CStringEnds(s: string)
    requires '\0' !in s
    ensures CString(s + "\0") == s
  {
    if s != [] {
      assert (s + "\0")[1..] == s[1..] + "\0";
      CStringEnds(s[1..]);
    }
  }

  /** The record is read back as it was written. */
  lemma RecordRoundTrip(md5: Digest, content: string, path: string)
    requires DigestOk(md5) && '\0' !in path
    ensures ReadHash(Record(md5, content, path)) == md5(content)
    ensures ReadPath(Record(md5, content, path)) == path
  {
    var r := Record(md5, content, path);
    assert r[..32] == md5(content);
    assert r[33..] == path + "\0";
    CStringWhole(md5(content));
    CStringEnds(path);
  }

  // ----- listings -----

  ghost predicate Visible(es: seq<Entry>) {
    forall i :: 0 <= i < |es| ==> !Hidden(es[i].name)
  }

  lemma {:induction false} ListingIs(es: seq<Entry>)
    ensures Visible(Listing(es)) && forall e :: e in Listing(es) ==> e in es
  {
    if es != [] { ListingIs(es[1..]); }
  }

  lemma {:induction false} ListingSame(es: seq<Entry>)
    requires Visible(es)
    ensures Listing(es) == es
  {
    if es != [] { ListingSame(es[1..]); }
  }

  lemma {:induction false} ListingFind(es: seq<Entry>, name: string)
    requires !Hidden(name)
    ensures Find(Listing(es), name) == Find(es, name)
  {
    if es != [] {
      ListingFind(es[1..], name);
      if !Hidden(es[0].name) { assert Listing(es)[1..] == Listing(es[1..]); }
    }
  }

  lemma TailNames(es: seq<Entry>)
    requires es != [] && NamesOk(es)
    ensures NamesOk(es[1..]) && '\0' !in es[0].name
    ensures forall e :: e in es[1..] ==> Cmp(es[0].name, e.name) < 0
  {
  }

  lemma {:induction false} ListingNames(es: seq<Entry>)
    requires NamesOk(es)
    ensures NamesOk(Listing(es))
  {
    if es != [] {
      TailNames(es);
      ListingNames(es[1..]);
      ListingIs(es[1..]);
    }
  }

  lemma {:induction false} FindIn(es: seq<Entry>, name: string)
    ensures Find(es, name).Some? ==> Entry(name, Find(es, name).value) in es
  {
    if es != [] && es[0].name != name { FindIn(es[1..], name); }
  }

  lemma {:induction false} SkinAllShape(md5: Digest, es: seq<Entry>, path: string)
    ensures |SkinAll(md5, es, path)| == |es|
    ensures forall i :: 0 <= i < |es| ==>
              SkinAll(md5, es, path)[i] == Entry(es[i].name, Skin(md5, es[i].node, Below(path, es[i].name)))
  {
    if es != [] { SkinAllShape(md5, es[1..], path); }
  }

  /** The skin of a directory is listed as it was written. */
  lemma SkinListed(md5: Digest, es: seq<Entry>, path: string)
    requires Visible(es)
    ensures Listing(SkinAll(md5, es, path)) == SkinAll(md5, es, path)
  {
    SkinAllShape(md5, es, path);
    ListingSame(SkinAll(md5, es, path));
  }

  // ----- the walk is an intersection -----

  /** What the walk gives for two skinned listings. */
  ghost function Walk(md5: Digest, xs: seq<Entry>, ys: seq<Entry>, pa: string, pb: string, m: string): seq<Copy> {
    MoltAll(SkinAll(md5, xs, pa), SkinAll(md5, ys, pb), m)
  }

  ghost function Pair(md5: Digest, a: Node, b: Node, pa: string, pb: string, m: string): seq<Copy> {
    MoltPair(Skin(md5, a, pa), Skin(md5, b, pb), m)
  }

  lemma WalkStep(md5: Digest, xs: seq<Entry>, ys: seq<Entry>, pa: string, pb: string, m: string)
    requires xs != [] && ys != []
    ensures var x, y := xs[0], ys[0];
            var n := Cmp(x.name, y.name);
            Walk(md5, xs, ys, pa, pb, m) ==
            if n == 0 then
              Pair(md5, x.node, y.node, Below(pa, x.name), Below(pb, y.name), Below(m, x.name))
              + Walk(md5, xs[1..], ys[1..], pa, pb, m)
            else if n < 0 then Walk(md5, xs[1..], ys, pa, pb, m)
            else Walk(md5, xs, ys[1..], pa, pb, m)
  {
    assert SkinAll(md5, xs, pa)[1..] == SkinAll(md5, xs[1..], pa);
    assert SkinAll(md5, ys, pb)[1..] == SkinAll(md5, ys[1..], pb);
  }

  lemma FindTail(xs: seq<Entry>, name: string)
    requires xs != [] && NamesOk(xs) && Find(xs, name).Some? && xs[0].name != name
    ensures Find(xs[1..], name) == Find(xs, name) && Cmp(xs[0].name, name) < 0
  {
    FindIn(xs[1..], name);
    TailNames(xs);
  }

  /** A name in both listings is reached by the walk. */
  lemma {:induction false} WalkReaches(md5: Digest, xs: seq<Entry>, ys: seq<Entry>, pa: string, pb: string, m: string,
                                       name: string, c: Copy)
    requires NamesOk(xs) && NamesOk(ys) && Find(xs, name).Some? && Find(ys, name).Some?
    requires c in Pair(md5, Find(xs, name).value, Find(ys, name).value,
                       Below(pa, name), Below(pb, name), Below(m, name))
    ensures c in Walk(md5, xs, ys, pa, pb, m)
    decreases |xs| + |ys|
  {
    WalkStep(md5, xs, ys, pa, pb, m);
    TailNames(xs);
    TailNames(ys);
    var x, y := xs[0].name, ys[0].name;
    CmpZero(x, y);
    if x != name { FindTail(xs, name); }
    if y != name { FindTail(ys, name); }
    if x == y {
      if x != name { WalkReaches(md5, xs[1..], ys[1..], pa, pb, m, name, c); }
    } else if Cmp(x, y) < 0 {
      if x == name { CmpFlip(x, y); }
      WalkReaches(md5, xs[1..], ys, pa, pb, m, name, c);
    } else {
      CmpFlip(x, y);
      WalkReaches(md5, xs, ys[1..], pa, pb, m, name, c);
    }
  }

  /** What the walk copies comes from a name in both listings. */
  lemma {:induction false} WalkOnly(md5: Digest, xs: seq<Entry>, ys: seq<Entry>,
                                    pa: string, pb: string, m: string, c: Copy)
    returns (name: string)
    requires NamesOk(xs) && NamesOk(ys) && c in Walk(md5, xs, ys, pa, pb, m)
    ensures Find(xs, name).Some? && Find(ys, name).Some?
    ensures c in Pair(md5, Find(xs, name).value, Find(ys, name).value, Below(pa, name), Below(pb, name), Below(m, name))
    decreases |xs| + |ys|
  {
    WalkStep(md5, xs, ys, pa, pb, m);
    TailNames(xs);
    TailNames(ys);
    var x, y := xs[0].name, ys[0].name;
    CmpZero(x, y);
    if x == y {
      if c in Pair(md5, xs[0].node, ys[0].node, Below(pa, x), Below(pb, y), Below(m, x)) {
        name := x;
      } else {
        name := WalkOnly(md5, xs[1..], ys[1..], pa, pb, m, c);
        FindLater(xs, name);
        FindLater(ys, name);
      }
    } else if Cmp(x, y) < 0 {
      name := WalkOnly(md5, xs[1..], ys, pa, pb, m, c);
      FindLater(xs, name);
    } else {
      name := WalkOnly(md5, xs, ys[1..], pa, pb, m, c);
      FindLater(ys, name);
    }
  }

  lemma FindLater(xs: seq<Entry>, name: string)
    requires xs != [] && NamesOk(xs) && Find(xs[1..], name).Some?
    ensures Find(xs, name) == Find(xs[1..], name)
  {
    FindIn(xs[1..], name);
    TailNames(xs);
    CmpZero(xs[0].name, name);
  }

  // ----- both directions -----

  ghost function CopyOf(pb: string, m: string, rel: seq<string>): Copy {
    Copy(Join(pb, rel), Join(m, rel))
  }

  lemma DirWalk(md5: Digest, a: Node, b: Node, pa: string, pb: string, m: string)
    requires a.Dir? && b.Dir?
    ensures Pair(md5, a, b, pa, pb, m) == Walk(md5, Listing(a.entries), Listing(b.entries), pa, pb, m)
  {
    ListingIs(a.entries);
    ListingIs(b.entries);
    SkinListed(md5, Listing(a.entries), pa);
    SkinListed(md5, Listing(b.entries), pb);
  }

  lemma ChildOk(n: Node, name: string)
    requires n.Dir? && TreeOk(n) && Find(n.entries, name).Some?
    ensures TreeOk(Find(n.entries, name).value) && '\0' !in name
  {
    FindIn(n.entries, name);
    var e := Entry(name, Find(n.entries, name).value);
    assert e in n.entries;
    assert TreeOk(e.node);
  }

  /** Every differing file is copied. */
  lemma {:induction false} Complete(md5: Digest, a: Node, b: Node, pa: string, pb: string, m: string, rel: seq<string>)
    requires DigestOk(md5) && TreeOk(a) && TreeOk(b) && '\0' !in pa && '\0' !in pb && Differs(md5, a, b, rel)
    ensures CopyOf(pb, m, rel) in Pair(md5, a, b, pa, pb, m)
    decreases |rel|
  {
    if rel == [] {
      RecordRoundTrip(md5, a.content, pa);
      RecordRoundTrip(md5, b.content, pb);
    } else {
      var name := rel[0];
      ChildOk(a, name);
      ChildOk(b, name);
      var x, y := Find(a.entries, name).value, Find(b.entries, name).value;
      Complete(md5, x, y, Below(pa, name), Below(pb, name), Below(m, name), rel[1..]);
      DirWalk(md5, a, b, pa, pb, m);
      ListingFind(a.entries, name);
      ListingFind(b.entries, name);
      ListingNames(a.entries);
      ListingNames(b.entries);
      WalkReaches(md5, Listing(a.entries), Listing(b.entries), pa, pb, m, name, CopyOf(pb, m, rel));
    }
  }

  /** Everything copied is a differing file. */
  lemma {:induction false} Sound(md5: Digest, a: Node, b: Node, pa: string, pb: string, m: string, c: Copy)
    returns (rel: seq<string>)
    requires DigestOk(md5) && TreeOk(a) && TreeOk(b) && '\0' !in pa && '\0' !in pb
    requires c in Pair(md5, a, b, pa, pb, m)
    ensures Differs(md5, a, b, rel) && c == CopyOf(pb, m, rel)
    decreases Size(a)
  {
    if a.Dir? && b.Dir? {
      DirWalk(md5, a, b, pa, pb, m);
      ListingNames(a.entries);
      ListingNames(b.entries);
      var name := WalkOnly(md5, Listing(a.entries), Listing(b.entries), pa, pb, m, c);
      VisibleFind(a.entries, name);
      ListingFind(a.entries, name);
      ListingFind(b.entries, name);
      ChildOk(a, name);
      ChildOk(b, name);
      FindSize(a.entries, name);
      var x, y := Find(a.entries, name).value, Find(b.entries, name).value;
      var rest := Sound(md5, x, y, Below(pa, name), Below(pb, name), Below(m, name), c);
      rel := [name] + rest;
      assert rel[1..] == rest;
    } else {
      RecordRoundTrip(md5, a.content, pa);
      RecordRoundTrip(md5, b.content, pb);
      rel := [];
    }
  }

  lemma VisibleFind(es: seq<Entry>, name: string)
    requires Find(Listing(es), name).Some?
    ensures !Hidden(name)
  {
    FindIn(Listing(es), name);
    ListingIs(es);
  }

  lemma {:induction false} FindSize(es: seq<Entry>, name: string)
    requires Find(es, name).Some?
    ensures Size(Find(es, name).value) < 1 + Total(es)
  {
    if es[0].name != name { FindSize(es[1..], name); }
  }

  /** Skinning two trees and molting the skins copies exactly the regular files of both whose digests differ. */
  lemma SkinThenMolt(md5: Digest, a: Node, b: Node, pa: string, pb: string, m: string, c: Copy)
    requires DigestOk(md5) && TreeOk(a) && TreeOk(b) && '\0' !in pa && '\0' !in pb
    ensures c in MoltPair(Skin(md5, a, pa), Skin(md5, b, pb), m)
            <==> exists rel :: Differs(md5, a, b, rel) && c == CopyOf(pb, m, rel)
  {
    if c in Pair(md5, a, b, pa, pb, m) {
      var rel := Sound(md5, a, b, pa, pb, m, c);
    }
    if rel :| Differs(md5, a, b, rel) && c == CopyOf(pb, m, rel) {
      Complete(md5, a, b, pa, pb, m, rel);
    }
  }

  // ----- what is left out -----

  /** The content of the regular file at a relative path. */
  function ContentAt(n: Node, rel: seq<string>): Option<string>
    decreases |rel|
  {
    match n
    case File(content) => if rel == [] then Some(content) else None
    case Dir(entries) =>
      if rel == [] || Find(entries, rel[0]).None? then None else ContentAt(Find(entries, rel[0]).value, rel[1..])
  }

  /** The files the two programs see are all but those below or at a ".git". */
  lemma {:induction false} AllButGit(n: Node, rel: seq<string>)
    requires "." !in rel && ".." !in rel
    ensures FileAt(n, rel) == if ".git" in rel then None else ContentAt(n, rel)
    decreases |rel|
  {
    if rel != [] && n.Dir? && rel[0] != ".git" && Find(n.entries, rel[0]).Some? {
      AllButGit(Find(n.entries, rel[0]).value, rel[1..]);
      assert rel == [rel[0]] + rel[1..];
    }
  }

  // ----- shape -----

  lemma {:induction false} FindSkin(md5: Digest, es: seq<Entry>, path: string, name: string)
    ensures Find(SkinAll(md5, es, path), name) ==
            if Find(es, name).None? then None else Some(Skin(md5, Find(es, name).value, Below(path, name)))
  {
    if es != [] {
      assert SkinAll(md5, es, path)[1..] == SkinAll(md5, es[1..], path);
      FindSkin(md5, es[1..], path, name);
    }
  }

  /** The skin has a file exactly where the tree has one, holding the record of that file. */
  lemma {:induction false} SkinShape(md5: Digest, n: Node, path: string, rel: seq<string>)
    ensures FileAt(Skin(md5, n, path), rel) ==
            if FileAt(n, rel).None? then None else Some(Record(md5, FileAt(n, rel).value, Join(path, rel)))
    decreases |rel|
  {
    if rel != [] && n.Dir? && !Hidden(rel[0]) {
      FindSkin(md5, Listing(n.entries), path, rel[0]);
      ListingFind(n.entries, rel[0]);
      var child := Find(n.entries, rel[0]);
      if child.Some? { SkinShape(md5, child.value, Below(path, rel[0]), rel[1..]); }
    }
  }
}
