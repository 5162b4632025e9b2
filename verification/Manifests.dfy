/** What a path hashes as: a file by its bytes, a directory by the sorted
    manifest of the files under it (framework/contracts/artifact.py,
    content_hash).  Strings stand for bytes. */
module Manifests {
  import opened Wrappers
  import opened Ordering
  import opened Text

  const NUL := '\0'

  /** One file under the directory: its relative path in parts, its size and the
      digest of its bytes. */
  datatype File = File(parts: seq<string>, size: nat, digest: string)

  /** What the filesystem and SHA-256 guarantee of one. */
  ghost predicate Proper(f: File) {
    && f.parts != [] && |f.digest| == 64 && AllHex(f.digest)
    && forall i :: 0 <= i < |f.parts| ==> NUL !in f.parts[i] && '/' !in f.parts[i]
  }

  datatype Entry = Entry(path: string, size: nat, digest: string)

  function EntryOf(f: File): Entry { Entry(Join(f.parts, '/'), f.size, f.digest) }

  // ---- the printer ----

  function Line(e: Entry): string { e.path + [NUL] + Decimal(e.size) + [NUL] + e.digest }

  /** The entries one per line; a path may itself contain a newline. */
  function Print(es: seq<Entry>): string {
    if es == [] then []
    else if |es| == 1 then Line(es[0])
    else Line(es[0]) + ['\n'] + Print(es[1..])
  }

  // ---- the decoder ----

  /** Reads an entry off the front: a path up to a NUL, a size up to the next,
      then 64 characters of digest. */
  function ReadEntry(s: string): (r: Option<(Entry, string)>)
    ensures r.Some? ==> |r.value.1| < |s|
  {
    var i := Find(s, NUL, 0);
    if i == |s| then None
    else
      var rest := s[i+1..];
      var j := Find(rest, NUL, 0);
      if j == |rest| || !AllDigits(rest[..j]) || |rest| < j + 65 then None
      else Some((Entry(s[..i], ParseDigits(rest[..j]), rest[j+1..j+65]), rest[j+65..]))
  }

  /** After each entry comes the end, or a newline and another entry. */
  function Decode(s: string): Option<seq<Entry>>
    decreases |s|
  {
    var r := ReadEntry(s);
    if r.None? then None
    else
      var (e, tail) := r.value;
      if tail == [] then Some([e])
      else if tail[0] != '\n' then None
      else
        var more := Decode(tail[1..]);
        if more.None? then None else Some([e] + more.value)
  }

  ghost predicate Printable(e: Entry) { NUL !in e.path && |e.digest| == 64 }

  ghost predicate AllPrintable(es: seq<Entry>) { forall i :: 0 <= i < |es| ==> Printable(es[i]) }

  lemma DigitsHaveNoNul(n: nat)
    ensures NUL !in Decimal(n)
  {
    var d := Decimal(n);
    forall i | 0 <= i < |d| ensures d[i] != NUL {
      assert IsDigit(d[i]);
    }
  }

  lemma ReadSizeAndDigest(e: Entry, tail: string)
    requires Printable(e)
    ensures var rest := Decimal(e.size) + [NUL] + (e.digest + tail);
      var j := Find(rest, NUL, 0);
      && j == |Decimal(e.size)| && rest[..j] == Decimal(e.size) && |rest| >= j + 65
      && rest[j+1..j+65] == e.digest && rest[j+65..] == tail
  {
    var rest := Decimal(e.size) + [NUL] + (e.digest + tail);
    DigitsHaveNoNul(e.size);
    FindAfterPrefix(Decimal(e.size), NUL, e.digest + tail);
    var j := |Decimal(e.size)|;
    assert rest[j+1..] == e.digest + tail;
    assert rest[j+1..j+65] == rest[j+1..][..64];
    assert rest[j+65..] == rest[j+1..][64..];
  }

  /** A printed entry is read back whatever follows it. */
  lemma ReadLine(e: Entry, tail: string)
    requires Printable(e)
    ensures ReadEntry(Line(e) + tail) == Some((e, tail))
  {
    var s, rest := Line(e) + tail, Decimal(e.size) + [NUL] + (e.digest + tail);
    assert s == e.path + [NUL] + rest;
    FindAfterPrefix(e.path, NUL, rest);
    assert s[..|e.path|] == e.path && s[|e.path|+1..] == rest;
    ReadSizeAndDigest(e, tail);
    ParseDecimal(e.size);
  }

  /** Decoding undoes printing, newlines in paths and all. */
  lemma {:induction false} DecodePrint(es: seq<Entry>)
    requires es != [] && AllPrintable(es)
    ensures Decode(Print(es)) == Some(es)
    decreases |es|
  {
    hide Line, ReadEntry;
    var e := es[0];
    if |es| == 1 {
      ReadLine(e, []);
      assert Line(e) + [] == Line(e);
      assert es == [e];
    } else {
      var tail := ['\n'] + Print(es[1..]);
      ReadLine(e, tail);
      assert Print(es) == Line(e) + tail;
      DecodePrint(es[1..]);
      assert tail[1..] == Print(es[1..]);
      assert es == [e] + es[1..];
    }
  }

  /** So different entry lists never print alike. */
  lemma PrintInjective(a: seq<Entry>, b: seq<Entry>)
    requires a != [] && b != [] && AllPrintable(a) && AllPrintable(b)
    requires Print(a) == Print(b)
    ensures a == b
  {
    DecodePrint(a);
    DecodePrint(b);
  }

  // ---- path order ----

  /** Paths compare part by part. */
  predicate PartsLe(a: seq<string>, b: seq<string>) {
    a == [] || (b != [] && ((a[0] != b[0] && StrLe(a[0], b[0])) || (a[0] == b[0] && PartsLe(a[1..], b[1..]))))
  }

  lemma {:induction false} PartsLeTotal(a: seq<string>, b: seq<string>)
    ensures PartsLe(a, b) || PartsLe(b, a)
  {
    if a != [] && b != [] {
      StrLeTotal(a[0], b[0]);
      if a[0] == b[0] { PartsLeTotal(a[1..], b[1..]); }
    }
  }

  lemma {:induction false} PartsLeAntisymmetric(a: seq<string>, b: seq<string>)
    requires PartsLe(a, b) && PartsLe(b, a)
    ensures a == b
  {
    if a != [] && b != [] {
      if a[0] != b[0] {
        StrLeAntisymmetric(a[0], b[0]);
      } else {
        PartsLeAntisymmetric(a[1..], b[1..]);
        assert a == [a[0]] + a[1..] && b == [b[0]] + b[1..];
      }
    }
  }

  lemma {:induction false} PartsLeTransitive(a: seq<string>, b: seq<string>, c: seq<string>)
    requires PartsLe(a, b) && PartsLe(b, c)
    ensures PartsLe(a, c)
  {
    if a != [] {
      if a[0] == b[0] && b[0] == c[0] {
        PartsLeTransitive(a[1..], b[1..], c[1..]);
      } else {
        StrLeTransitive(a[0], b[0], c[0]) by {
          StrLeTotal(a[0], a[0]);
          StrLeTotal(b[0], b[0]);
        }
        if a[0] == c[0] { StrLeAntisymmetric(a[0], b[0]); }
      }
    }
  }

  predicate FileLe(a: File, b: File) { PartsLe(a.parts, b.parts) }

  lemma FileOrder()
    ensures Preorder(FileLe)
  {
    forall a, b ensures FileLe(a, b) || FileLe(b, a) { PartsLeTotal(a.parts, b.parts); }
    forall a, b, c | FileLe(a, b) && FileLe(b, c) ensures FileLe(a, c) { PartsLeTransitive(a.parts, b.parts, c.parts); }
  }

  /** No two files of a tree share a path. */
  ghost predicate Tree(files: seq<File>) {
    && (forall i :: 0 <= i < |files| ==> Proper(files[i]))
    && forall i, j :: 0 <= i < |files| && 0 <= j < |files| && files[i].parts == files[j].parts ==> i == j
  }

  lemma TreeStrict(files: seq<File>)
    requires Tree(files)
    ensures Strict(FileLe, files)
  {
    forall i, j | 0 <= i < |files| && 0 <= j < |files| && FileLe(files[i], files[j]) && FileLe(files[j], files[i])
      ensures files[i] == files[j]
    {
      PartsLeAntisymmetric(files[i].parts, files[j].parts);
    }
  }

  // ---- content_hash of a directory ----

  function Entries(files: seq<File>): seq<Entry> { seq(|files|, i requires 0 <= i < |files| => EntryOf(files[i])) }

  function TotalBytes(files: seq<File>): nat {
    if files == [] then 0 else TotalBytes(files[..|files|-1]) + files[|files|-1].size
  }

  datatype TreeHash = TreeHash(digest: Digest<string>, files: nat, bytes: nat)

  /** The digest of the manifest, the file count and the total size. */
  function HashOf(files: seq<File>): Option<TreeHash> {
    if files == [] then None
    else Some(TreeHash(Sha256(Print(Entries(Sort(FileLe, files)))), |files|, TotalBytes(Sort(FileLe, files))))
  }

  /** What is at a path. */
  datatype Node = Missing | SingleFile(bytes: string) | Directory(files: seq<File>)

  datatype HashError = NOTHING_THERE | EMPTY_DIRECTORY

  function NodeHash(node: Node): Result<TreeHash, HashError> {
    match node
    case Missing => Err(NOTHING_THERE)
    case SingleFile(bytes) => Ok(TreeHash(Sha256(bytes), 1, |bytes|))
    case Directory(files) => if files == [] then Err(EMPTY_DIRECTORY) else Ok(HashOf(files).value)
  }

  /** A file hashes by its bytes alone, as one file of its length; a directory by
      its files, counting each and adding their sizes in whatever order; nothing
      at the path and nothing in the directory are different refusals. */
  lemma NodeHashMeans(node: Node)
    ensures node == Missing ==> NodeHash(node) == Err(NOTHING_THERE)
    ensures node == Directory([]) ==> NodeHash(node) == Err(EMPTY_DIRECTORY)
    ensures node.SingleFile? ==> NodeHash(node) == Ok(TreeHash(Sha256(node.bytes), 1, |node.bytes|))
    ensures node.Directory? && node.files != [] ==>
      && NodeHash(node) == Ok(HashOf(node.files).value)
      && NodeHash(node).value.files == |node.files| && NodeHash(node).value.bytes == TotalBytes(node.files)
  {
    if node.Directory? {
      TotalIgnoresOrder(Sort(FileLe, node.files), node.files);
    }
  }

  lemma {:induction false} TotalAdds(a: seq<File>, b: seq<File>)
    ensures TotalBytes([]) == 0 && TotalBytes(a + b) == TotalBytes(a) + TotalBytes(b)
    ensures |b| == 1 ==> TotalBytes(a + b) == TotalBytes(a) + b[0].size
  {
    if b == [] {
      assert a + b == a;
    } else {
      TotalAdds(a, b[..|b|-1]);
      assert (a + b)[..|a + b|-1] == a + b[..|b|-1];
    }
  }

  ghost function Without(b: seq<File>, i: nat): (r: seq<File>)
    requires i < |b|
    ensures |r| == |b| - 1
  {
    b[..i] + b[i+1..]
  }

  lemma WithoutMultiset(b: seq<File>, i: nat)
    requires i < |b|
    ensures multiset(b) == multiset(Without(b, i)) + multiset{b[i]}
  {
    CutAt(b, i);
  }

  /** Taking an element out takes its size out. */
  lemma WithoutTotal(b: seq<File>, i: nat)
    requires i < |b|
    ensures TotalBytes(b) == TotalBytes(Without(b, i)) + b[i].size
  {
    hide TotalBytes;
    MiddleTotal(b[..i], b[i], b[i+1..]);
    CutAt(b, i);
  }

  lemma CutAt(b: seq<File>, i: nat)
    requires i < |b|
    ensures b[..i] + [b[i]] + b[i+1..] == b
  {}

  lemma MiddleTotal(before: seq<File>, f: File, after: seq<File>)
    ensures TotalBytes(before + [f] + after) == TotalBytes(before + after) + f.size
  {
    hide TotalBytes;
    TotalAdds(before + [f], after);
    TotalAdds(before, after);
    TotalAdds(before, [f]);
  }

  lemma {:induction false} TotalIgnoresOrder(a: seq<File>, b: seq<File>)
    requires multiset(a) == multiset(b)
    ensures TotalBytes(a) == TotalBytes(b)
    decreases |a|
  {
    hide TotalBytes, Without;
    if a == [] {
      assert |multiset(b)| == 0;
      return;
    }
    assert a[0] in multiset(b);
    var i :| 0 <= i < |b| && b[i] == a[0];
    WithoutMultiset(a, 0);
    WithoutMultiset(b, i);
    assert multiset(Without(a, 0)) == multiset(a) - multiset{a[0]} == multiset(Without(b, i));
    TotalIgnoresOrder(Without(a, 0), Without(b, i));
    WithoutTotal(a, 0);
    WithoutTotal(b, i);
  }

  method ContentHash(node: Node) returns (r: Result<TreeHash, HashError>)
    ensures r == NodeHash(node)
  {
    if node.Missing? {
      return Err(NOTHING_THERE);
    }
    if node.SingleFile? {
      return Ok(TreeHash(Sha256(node.bytes), 1, |node.bytes|));
    }
    var entries, total := [], 0;
    var ordered := Sort(FileLe, node.files);
    for i := 0 to |ordered|
      invariant entries == Entries(ordered[..i])
      invariant total == TotalBytes(ordered[..i])
    {
      assert ordered[..i+1][..i] == ordered[..i];
      total := total + ordered[i].size;
      entries := entries + [EntryOf(ordered[i])];
    }
    assert ordered[..|ordered|] == ordered;
    if entries == [] {
      return Err(EMPTY_DIRECTORY);
    }
    r := Ok(TreeHash(Sha256(Print(entries)), |entries|, total));
  }

  /** The answer does not depend on the order the directory was walked in. */
  lemma HashIgnoresOrder(a: seq<File>, b: seq<File>)
    requires Tree(a) && multiset(a) == multiset(b)
    ensures HashOf(a) == HashOf(b)
  {
    FileOrder();
    TreeStrict(a);
    SortCanonical(FileLe, a, b);
    SameElements(a, b);
  }

  lemma EntryOfInjective(f: File, g: File)
    requires Proper(f) && Proper(g) && EntryOf(f) == EntryOf(g)
    ensures f == g
  {
    JoinInjective(f.parts, g.parts, '/');
  }

  lemma {:induction false} JoinHasNoNul(parts: seq<string>)
    requires forall i :: 0 <= i < |parts| ==> NUL !in parts[i]
    ensures NUL !in Join(parts, '/')
  {
    if |parts| > 1 {
      JoinHasNoNul(parts[1..]);
      assert NUL !in parts[0];
    }
  }

  /** Trees that hash alike hold the same files with the same sizes and bytes. */
  lemma HashDeterminesTree(a: seq<File>, b: seq<File>)
    requires Tree(a) && Tree(b) && a != [] && b != []
    requires HashOf(a).value.digest == HashOf(b).value.digest
    ensures multiset(a) == multiset(b)
    ensures HashOf(a) == HashOf(b)
  {
    var x, y := Sort(FileLe, a), Sort(FileLe, b);
    SameElements(x, a);
    SameElements(y, b);
    SortedProper(a);
    SortedProper(b);
    PrintInjective(Entries(x), Entries(y));
    SameEntries(x, y);
  }

  /** A file and a tree share a digest exactly when the file's bytes read back
      as the tree's entries and print as them: a manifest saved as a file
      collides with the directory it describes, and nothing else does. */
  lemma FileTreeCollide(bytes: string, files: seq<File>)
    requires Tree(files) && files != []
    ensures var entries := Entries(Sort(FileLe, files));
      NodeHash(SingleFile(bytes)).value.digest == NodeHash(Directory(files)).value.digest <==>
        Decode(bytes) == Some(entries) && Print(entries) == bytes
  {
    var entries := Entries(Sort(FileLe, files));
    SortedProper(files);
    assert entries != [] by { SameElements(Sort(FileLe, files), files); }
    DecodePrint(entries);
    hide Decode, Print, Entries, Sort, Tree;
  }

  /** And every directory has such a file. */
  lemma EveryTreeCollides(files: seq<File>)
    requires Tree(files) && files != []
    ensures exists bytes :: NodeHash(SingleFile(bytes)).value.digest == NodeHash(Directory(files)).value.digest
  {
    var bytes := Print(Entries(Sort(FileLe, files)));
    assert NodeHash(SingleFile(bytes)).value.digest == Sha256(bytes) == NodeHash(Directory(files)).value.digest;
  }

  lemma SameEntries(x: seq<File>, y: seq<File>)
    requires (forall i :: 0 <= i < |x| ==> Proper(x[i])) && (forall i :: 0 <= i < |y| ==> Proper(y[i]))
    requires Entries(x) == Entries(y)
    ensures x == y
  {
    assert |Entries(x)| == |x| && |Entries(y)| == |y|;
    forall i | 0 <= i < |x| ensures x[i] == y[i] {
      assert Entries(x)[i] == EntryOf(x[i]) && Entries(y)[i] == EntryOf(y[i]);
      EntryOfInjective(x[i], y[i]);
    }
  }

  lemma SortedProper(files: seq<File>)
    requires Tree(files)
    ensures var s := Sort(FileLe, files);
      (forall i :: 0 <= i < |s| ==> Proper(s[i])) && AllPrintable(Entries(s))
  {
    var s := Sort(FileLe, files);
    SameElements(s, files);
    forall i | 0 <= i < |s| ensures Proper(s[i]) && Printable(Entries(s)[i]) {
      assert s[i] in files;
      JoinHasNoNul(s[i].parts);
    }
  }
}
