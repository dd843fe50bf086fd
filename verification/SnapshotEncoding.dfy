// The byte stream that portable_upgrade.go hashes to seal a cold snapshot.
module SnapshotEncoding {
  import opened Encoding

  type Path = seq<Byte>

  datatype Entry = Dir | File(perm: nat, content: seq<Byte>) | Unsupported

  // All entries of a snapshot by their slash-separated path; the root is ".".
  type Tree = map<Path, Entry>

  datatype Item = Item(path: Path, entry: Entry)

  // The lock file ".dbgold.lock" of the snapshot itself.
  function LockFile(): Path { [46, 100, 98, 103, 111, 108, 100, 46, 108, 111, 99, 107] }

  function DirTag(): seq<Byte> { [100, 105, 114] }
  function FileTag(): seq<Byte> { [102, 105, 108, 101] }

  predicate AsciiText(s: string) { forall i :: 0 <= i < |s| ==> s[i] < 128 as char }

  function Ascii(s: string): (b: seq<Byte>)
    requires AsciiText(s)
    ensures |b| == |s| && forall i :: 0 <= i < |s| ==> b[i] == s[i] as int
  {
    seq(|s|, i requires 0 <= i < |s| => s[i] as int)
  }

  lemma Spelled()
    ensures LockFile() == Ascii(".dbgold.lock") && DirTag() == Ascii("dir") && FileTag() == Ascii("file")
  {
    assert forall i :: 0 <= i < 12 ==> LockFile()[i] == ".dbgold.lock"[i] as int;
  }

  // One walk visits every entry once.
  ghost predicate Walks(tree: Tree, walk: seq<Item>) {
    && (forall i :: 0 <= i < |walk| ==> walk[i].path in tree && tree[walk[i].path] == walk[i].entry)
    && (forall p :: p in tree ==> Item(p, tree[p]) in walk)
    && (forall i, j :: 0 <= i < j < |walk| ==> walk[i].path != walk[j].path)
  }

  ghost predicate ValidPaths(tree: Tree) { forall p :: p in tree ==> Without(p, 0) }

  function Emit(e: Item, rest: seq<Byte>): seq<Byte>
    requires !e.entry.Unsupported?
  {
    match e.entry
    case Dir => Field(DirTag(), 0, Field(e.path, 0, rest))
    case File(perm, content) =>
      Field(FileTag(), 0, Field(e.path, 0,
        Field(Numeral(|content|, 10), 0, Field(Numeral(perm, 8), 0, content + rest))))
  }

  ghost predicate Supported(walk: seq<Item>) { forall i :: 0 <= i < |walk| ==> !walk[i].entry.Unsupported? }

  function Stream(walk: seq<Item>): seq<Byte>
    requires Supported(walk)
  {
    if walk == [] then [] else Emit(walk[0], Stream(walk[1..]))
  }

  // The lock file of the snapshot itself is not part of what is sealed.
  function Sealed(walk: seq<Item>): seq<Item> {
    if walk == [] then []
    else Sealed(walk[..|walk| - 1]) + (if walk[|walk| - 1].path == LockFile() then [] else [walk[|walk| - 1]])
  }

  // What the checksum reads, entry by entry; anything but files and directories is refused.
  method SnapshotStream(walk: seq<Item>) returns (ok: bool, stream: seq<Byte>)
    ensures ok <==> Supported(Sealed(walk))
    ensures ok ==> stream == Stream(Sealed(walk))
  {
    stream := [];
    Spelled();
    for i := 0 to |walk|
      invariant Supported(Sealed(walk[..i])) && stream == Stream(Sealed(walk[..i]))
    {
      assert walk[..i + 1][..i] == walk[..i];
      var e := walk[i];
      if e.path != Ascii(".dbgold.lock") {
        if e.entry.Unsupported? {
          Refused(walk, i);
          return false, stream;
        }
        StreamSnoc(Sealed(walk[..i]), e);
        var item := PrintEntry(e);
        stream := stream + item;
        assert Sealed(walk[..i + 1]) == Sealed(walk[..i]) + [e];
      } else {
        assert Sealed(walk[..i + 1]) == Sealed(walk[..i]);
      }
    }
    assert walk[..|walk|] == walk;
    ok := true;
  }

  // A directory by its path; a file by its path, its size in decimal, its permissions in octal, and its bytes.
  method PrintEntry(e: Item) returns (out: seq<Byte>)
    requires !e.entry.Unsupported?
    ensures out == Emit(e, [])
  {
    Spelled();
    if e.entry.Dir? {
      out := Ascii("dir") + [0] + e.path + [0];
      return;
    }
    var size, mode := Numeral(|e.entry.content|, 10), Numeral(e.entry.perm, 8);
    out := Ascii("file") + [0] + e.path + [0] + size + [0] + mode + [0] + e.entry.content;
  }

  lemma Refused(walk: seq<Item>, i: nat)
    requires i < |walk| && walk[i].path != LockFile() && walk[i].entry.Unsupported?
    ensures !Supported(Sealed(walk))
  {
    assert walk[..i + 1][..i] == walk[..i];
    assert Sealed(walk[..i + 1])[|Sealed(walk[..i])|] == walk[i];
    SealedPrefix(walk, i + 1);
  }

  lemma {:induction false} SealedPrefix(walk: seq<Item>, n: nat)
    requires n <= |walk|
    ensures Sealed(walk[..n]) <= Sealed(walk)
    decreases |walk| - n
  {
    if n < |walk| {
      SealedPrefix(walk, n + 1);
      assert walk[..n + 1][..n] == walk[..n];
    } else {
      assert walk[..n] == walk;
    }
  }

  lemma {:induction false} StreamSnoc(walk: seq<Item>, e: Item)
    requires Supported(walk) && !e.entry.Unsupported?
    ensures Stream(walk + [e]) == Stream(walk) + Emit(e, [])
  {
    if walk == [] {
      assert [e][1..] == [];
    } else {
      StreamSnoc(walk[1..], e);
      assert (walk + [e])[1..] == walk[1..] + [e];
      EmitThen(walk[0], Stream(walk[1..]), Emit(e, []));
    }
  }

  lemma EmitThen(e: Item, a: seq<Byte>, b: seq<Byte>)
    requires !e.entry.Unsupported?
    ensures Emit(e, a + b) == Emit(e, a) + b
  {
    if e.entry.File? {
      var c := e.entry.content;
      assert c + (a + b) == (c + a) + b;
      FieldThen(Numeral(e.entry.perm, 8), c + a, b);
      FieldThen(Numeral(|c|, 10), Field(Numeral(e.entry.perm, 8), 0, c + a), b);
      FieldThen(e.path, Field(Numeral(|c|, 10), 0, Field(Numeral(e.entry.perm, 8), 0, c + a)), b);
      FieldThen(FileTag(), Field(e.path, 0, Field(Numeral(|c|, 10), 0, Field(Numeral(e.entry.perm, 8), 0, c + a))), b);
    } else {
      FieldThen(e.path, a, b);
      FieldThen(DirTag(), Field(e.path, 0, a), b);
    }
  }

  lemma FieldThen(s: seq<Byte>, a: seq<Byte>, b: seq<Byte>)
    ensures Field(s, 0, a + b) == Field(s, 0, a) + b
  {}

  // One entry can be read off the front of a stream in only one way.
  lemma FirstEntry(e: Item, x: seq<Byte>, f: Item, y: seq<Byte>)
    requires !e.entry.Unsupported? && !f.entry.Unsupported? && Without(e.path, 0) && Without(f.path, 0)
    requires Emit(e, x) == Emit(f, y)
    ensures e == f && x == y
  {
    assert Emit(e, x)[0] == (if e.entry.Dir? then 100 else 102);
    assert Emit(f, y)[0] == (if f.entry.Dir? then 100 else 102);
    if e.entry.Dir? {
      FieldEnds(DirTag(), Field(e.path, 0, x), DirTag(), Field(f.path, 0, y), 0);
      FieldEnds(e.path, x, f.path, y, 0);
    } else {
      var c, d, p, q := e.entry.content, f.entry.content, e.entry.perm, f.entry.perm;
      FieldEnds(FileTag(), Field(e.path, 0, Field(Numeral(|c|, 10), 0, Field(Numeral(p, 8), 0, c + x))),
                FileTag(), Field(f.path, 0, Field(Numeral(|d|, 10), 0, Field(Numeral(q, 8), 0, d + y))), 0);
      FieldEnds(e.path, Field(Numeral(|c|, 10), 0, Field(Numeral(p, 8), 0, c + x)),
                f.path, Field(Numeral(|d|, 10), 0, Field(Numeral(q, 8), 0, d + y)), 0);
      FieldEnds(Numeral(|c|, 10), Field(Numeral(p, 8), 0, c + x), Numeral(|d|, 10), Field(Numeral(q, 8), 0, d + y), 0);
      FieldEnds(Numeral(p, 8), c + x, Numeral(q, 8), d + y, 0);
      NumeralInjective(|c|, |d|, 10);
      NumeralInjective(p, q, 8);
      assert c == (c + x)[..|c|] && x == (c + x)[|c|..];
      assert d == (d + y)[..|d|] && y == (d + y)[|d|..];
    }
  }

  lemma {:induction false} StreamInjective(a: seq<Item>, b: seq<Item>)
    requires Supported(a) && Supported(b) && Stream(a) == Stream(b)
    requires forall i :: 0 <= i < |a| ==> Without(a[i].path, 0)
    requires forall i :: 0 <= i < |b| ==> Without(b[i].path, 0)
    ensures a == b
  {
    assert forall e: Item, rest :: !e.entry.Unsupported? ==> |Emit(e, rest)| > 0;
    if a != [] && b != [] {
      FirstEntry(a[0], Stream(a[1..]), b[0], Stream(b[1..]));
      StreamInjective(a[1..], b[1..]);
    }
  }

  lemma {:induction false} SealedMembers(walk: seq<Item>, e: Item)
    ensures e in Sealed(walk) <==> e in walk && e.path != LockFile()
  {
    if walk != [] {
      var n := |walk| - 1;
      SealedMembers(walk[..n], e);
      assert walk == walk[..n] + [walk[n]];
    }
  }

  // Trees whose walks feed the checksum the same bytes are the same, apart from the lock file.
  lemma StreamDeterminesTree(s: Tree, t: Tree, walkS: seq<Item>, walkT: seq<Item>)
    requires Walks(s, walkS) && Walks(t, walkT) && ValidPaths(s) && ValidPaths(t)
    requires Supported(Sealed(walkS)) && Supported(Sealed(walkT))
    requires Stream(Sealed(walkS)) == Stream(Sealed(walkT))
    ensures s - {LockFile()} == t - {LockFile()}
  {
    SealedPaths(s, walkS);
    SealedPaths(t, walkT);
    StreamInjective(Sealed(walkS), Sealed(walkT));
    SealedCovers(s, t, walkS, walkT);
    SealedCovers(t, s, walkT, walkS);
    SameOutside(s, t, LockFile());
  }

  lemma SameOutside(s: Tree, t: Tree, lock: Path)
    requires forall p :: p in s && p != lock ==> p in t && t[p] == s[p]
    requires forall p :: p in t && p != lock ==> p in s && s[p] == t[p]
    ensures s - {lock} == t - {lock}
  {}

  lemma SealedPaths(s: Tree, walk: seq<Item>)
    requires Walks(s, walk) && ValidPaths(s)
    ensures forall i :: 0 <= i < |Sealed(walk)| ==> Without(Sealed(walk)[i].path, 0)
  {
    forall i | 0 <= i < |Sealed(walk)| ensures Without(Sealed(walk)[i].path, 0) {
      SealedMembers(walk, Sealed(walk)[i]);
    }
  }

  lemma SealedCovers(s: Tree, t: Tree, walkS: seq<Item>, walkT: seq<Item>)
    requires Walks(s, walkS) && Walks(t, walkT) && Sealed(walkS) == Sealed(walkT)
    ensures forall p :: p in s && p != LockFile() ==> p in t && t[p] == s[p]
  {
    forall p | p in s && p != LockFile() ensures p in t && t[p] == s[p] {
      SealedMembers(walkS, Item(p, s[p]));
      SealedMembers(walkT, Item(p, s[p]));
    }
  }
}
