/**
skin and molt: a skin of a directory tree has, in place of every file, a record of its digest and path;
molting two skins copies the files that are in both trees and differ. A directory is its listing in the
order of strcmp, which is the order scandir with alphasort gives in the C locale. The digest is any
function to 32 characters.
*/
module SkinModel {
  import opened Options

  datatype Node = File(content: string) | Dir(entries: seq<Entry>)
  datatype Entry = Entry(name: string, node: Node)

  type Digest = string -> string

  ghost predicate DigestOk(md5: Digest) {
    forall content :: |md5(content)| == 32 && '\0' !in md5(content)
  }

  // ----- strings -----

  /** The sign of strcmp. */
  function Cmp(a: string, b: string): int {
    if a == [] && b == [] then 0
    else if a == [] then -1
    else if b == [] then 1
    else if a[0] < b[0] then -1
    else if a[0] > b[0] then 1
    else Cmp(a[1..], b[1..])
  }

  /** What C sees of a buffer: up to the first NUL. */
  function CString(buf: string): string {
    if buf == [] || buf[0] == '\0' then [] else [buf[0]] + CString(buf[1..])
  }

  function Below(path: string, name: string): string {
    path + "/" + name
  }

  // ----- listings -----

  /** scandir_filter */
  predicate Hidden(name: string) {
    name == "." || name == ".." || name == ".git"
  }

  function Size(n: Node): nat {
    match n
    case File(_) => 0
    case Dir(entries) => 1 + Total(entries)
  }

  function Total(es: seq<Entry>): nat {
    if es == [] then 0 else 1 + Size(es[0].node) + Total(es[1..])
  }

  function Listing(es: seq<Entry>): (r: seq<Entry>)
    ensures Total(r) <= Total(es)
  {
    if es == [] then []
    else if Hidden(es[0].name) then Listing(es[1..])
    else
      var rest := Listing(es[1..]);
      assert ([es[0]] + rest)[1..] == rest;
      [es[0]] + rest
  }

  // ----- skinning -----

  /** skinning_file: what is written, with its closing NUL. */
  function Record(md5: Digest, content: string, path: string): string {
    md5(content) + "|" + path + "\0"
  }

  /** skinning_dir on a directory, skinning_file on a file. */
  function Skin(md5: Digest, n: Node, path: string): Node
    decreases Size(n), 0
  {
    match n
    case File(content) => File(Record(md5, content, path))
    case Dir(entries) => Dir(SkinAll(md5, Listing(entries), path))
  }

  function SkinAll(md5: Digest, es: seq<Entry>, path: string): seq<Entry>
    decreases Total(es), 1
  {
    if es == [] then []
    else [Entry(es[0].name, Skin(md5, es[0].node, Below(path, es[0].name)))] + SkinAll(md5, es[1..], path)
  }

  // ----- molting -----

  datatype Copy = Copy(from: string, to: string)

  /** What molting_file reads as the digest, and as the path, of a record. */
  function ReadHash(record: string): string {
    CString(if |record| <= 32 then record else record[..32])
  }

  function ReadPath(record: string): string {
    CString(if |record| <= 33 then [] else record[33..])
  }

  /** One pair of entries with the same name. */
  function MoltPair(o: Node, c: Node, m: string): seq<Copy>
    decreases Size(o), 0, 0
  {
    if o.Dir? && c.Dir? then MoltAll(Listing(o.entries), Listing(c.entries), m)
    else if o.File? && c.File? && ReadHash(o.content) != ReadHash(c.content) then [Copy(ReadPath(c.content), m)]
    else []
  }

  /** molting_dir: the walk over two listings. */
  function MoltAll(os: seq<Entry>, cs: seq<Entry>, m: string): seq<Copy>
    decreases Total(os), |cs|, 1
  {
    if os == [] || cs == [] then []
    else
      var n := Cmp(os[0].name, cs[0].name);
      if n == 0 then
        MoltPair(os[0].node, cs[0].node, Below(m, os[0].name)) + MoltAll(os[1..], cs[1..], m)
      else if n < 0 then MoltAll(os[1..], cs, m)
      else MoltAll(os, cs[1..], m)
  }

  // ----- what it should do -----

  function Find(es: seq<Entry>, name: string): Option<Node> {
    if es == [] then None else if es[0].name == name then Some(es[0].node) else Find(es[1..], name)
  }

  /** The content of the regular file at a relative path with no hidden component. */
  function FileAt(n: Node, rel: seq<string>): Option<string>
    decreases |rel|
  {
    if rel == [] then (if n.File? then Some(n.content) else None)
    else if n.File? || Hidden(rel[0]) then None
    else
      var child := Find(n.entries, rel[0]);
      if child.None? then None else FileAt(child.value, rel[1..])
  }

  function Join(path: string, rel: seq<string>): string
    decreases |rel|
  {
    if rel == [] then path else Join(Below(path, rel[0]), rel[1..])
  }

  /** A regular file in both trees, with different digests. */
  predicate Differs(md5: Digest, a: Node, b: Node, rel: seq<string>) {
    && FileAt(a, rel).Some? && FileAt(b, rel).Some?
    && md5(FileAt(a, rel).value) != md5(FileAt(b, rel).value)
  }

  ghost predicate NamesOk(es: seq<Entry>) {
    && (forall i, j :: 0 <= i < j < |es| ==> Cmp(es[i].name, es[j].name) < 0)
    && (forall i :: 0 <= i < |es| ==> '\0' !in es[i].name)
  }

  /** Every directory's names are distinct and in order, and contain no NUL. */
  ghost predicate TreeOk(n: Node)
    decreases n, 0
  {
    n.Dir? ==> NamesOk(n.entries) && forall e :: e in n.entries ==> TreeOk(e.node)
  }
}
