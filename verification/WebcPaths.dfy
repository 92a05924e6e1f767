/** The files of a tree, by path: what `TreeFiles` collects is exactly what looking a path up
    in the tree finds. */
module WebcPaths {
  import opened Bytes
  import opened WebcVolume
  import opened WebcHeader
  import opened WebcRoundTrip

  /** A position in a tree. */
  datatype Names = Here | Under(name: Text, rest: Names)

  function Lookup(t: Tree, p: Names): Option<seq<Byte>> {
    match t
    case File(bytes) => if p.Here? then Some(bytes) else None
    case Dir(es) => if p.Here? then None else LookupIn(es, p.name, p.rest)
  }

  function LookupIn(es: Entries, name: Text, p: Names): Option<seq<Byte>> {
    if es.Empty? then None
    else if es.name == name then Lookup(es.child, p)
    else LookupIn(es.rest, name, p)
  }

  function PathOf(path: Text, p: Names): Text
    decreases p
  {
    if p.Here? then path else PathOf(ChildPath(path, p.name), p.rest)
  }

  /** The names of a position, each after a slash. */
  function NamesText(p: Names): Text {
    if p.Here? then [] else [47] + (p.name + NamesText(p.rest))
  }

  lemma {:induction false} PathBelow(path: Text, p: Names)
    requires path != [] && path != [47] && GoodNames(p)
    ensures PathOf(path, p) == path + NamesText(p)
    decreases p
  {
    if p.Here? {
      assert path + [] == path;
    } else {
      PathBelow(path + [47] + p.name, p.rest);
      assert (path + [47] + p.name) + NamesText(p.rest) == path + ([47] + (p.name + NamesText(p.rest)));
    }
  }

  /** The path of a position is its names with slashes between them, under the root with one in front
      as well. */
  lemma PathText(p: Names)
    requires p.Under? && GoodNames(p)
    ensures PathOf([47], p) == NamesText(p)
    ensures [47] + PathOf([], p) == NamesText(p)
  {
    assert p.name[0] != 47;
    PathBelow(p.name, p.rest);
    PathUnderRoot(p);
  }

  lemma PathUnderRoot(p: Names)
    requires p.Under? && GoodNames(p)
    ensures PathOf([47], p) == NamesText(p)
  {
    var top := [47] + p.name;
    PathBelow(top, p.rest);
    Regrouped(p.name, NamesText(p.rest));
  }

  lemma Regrouped(a: Text, b: Text)
    ensures ([47] + a) + b == [47] + (a + b)
  {
  }

  // ----- Good names -----

  predicate GoodName(name: Text) {
    name != [] && forall i :: 0 <= i < |name| ==> name[i] != 47
  }

  predicate HasName(es: Entries, name: Text) {
    es.Entry? && (es.name == name || HasName(es.rest, name))
  }

  predicate GoodTree(t: Tree) {
    t.Dir? ==> GoodEntries(t.entries)
  }

  predicate GoodEntries(es: Entries) {
    es.Entry? ==> GoodName(es.name) && !HasName(es.rest, es.name) && GoodTree(es.child) && GoodEntries(es.rest)
  }

  /** No file directly under the root is called `__proto__`. */
  predicate NoProtoFile(es: Entries) {
    es.Entry? ==> (es.child.File? ==> !IsProto(es.name)) && NoProtoFile(es.rest)
  }

  // ----- Names the decoder changes -----

  predicate HasFile(t: Tree) {
    t.File? || HasFileIn(t.entries)
  }

  predicate HasFileIn(es: Entries) {
    es.Entry? && (HasFile(es.child) || HasFileIn(es.rest))
  }

  /** No file is at a path with a name that starts with a byte-order mark. */
  predicate Unmarked(t: Tree) {
    t.Dir? ==> UnmarkedIn(t.entries)
  }

  predicate UnmarkedIn(es: Entries) {
    es.Entry? ==> (StartsWithBom(es.name) ==> !HasFile(es.child)) && Unmarked(es.child) && UnmarkedIn(es.rest)
  }

  lemma {:induction false} NothingToAdd(t: Tree, from: nat, base: nat, path: Text, files: Files)
    requires !HasFile(t)
    ensures TreeFiles(t, from, base, path, files) == files
    decreases t
  {
    NothingToAddIn(t.entries, from, base, path, files);
  }

  lemma {:induction false} NothingToAddIn(es: Entries, from: nat, base: nat, path: Text, files: Files)
    requires !HasFileIn(es)
    ensures ChildrenFiles(es, from, base, path, files) == files
    decreases es
  {
    if es.Entry? {
      NothingToAdd(es.child, from, base, ChildPath(path, DecodeText(es.name)), files);
      NothingToAddIn(es.rest, from + |TreeData(es.child)|, base, path, files);
    }
  }

  /** What an entry without a marked file adds, it adds under its own name. */
  lemma FirstAdds(es: Entries, from: nat, base: nat, path: Text, files: Files)
    requires es.Entry? && (StartsWithBom(es.name) ==> !HasFile(es.child))
    ensures TreeFiles(es.child, from, base, ChildPath(path, DecodeText(es.name)), files)
         == TreeFiles(es.child, from, base, ChildPath(path, es.name), files)
  {
    if StartsWithBom(es.name) {
      NothingToAdd(es.child, from, base, ChildPath(path, DecodeText(es.name)), files);
      NothingToAdd(es.child, from, base, ChildPath(path, es.name), files);
    }
  }

  // ----- Paths below a path -----

  predicate AtOrUnder(path: Text, k: Text) {
    |path| <= |k| && k[..|path|] == path && (|k| == |path| || k[|path|] == 47)
  }

  /** What every child path of `path` starts with. */
  function Stem(path: Text): Text {
    if path == [] || path == [47] then path else path + [47]
  }

  lemma ChildIsStem(path: Text, name: Text)
    ensures ChildPath(path, name) == Stem(path) + name
  {
  }

  lemma {:induction false} SiblingsApart(path: Text, n: Text, m: Text, k: Text)
    requires GoodName(n) && GoodName(m) && n != m && AtOrUnder(ChildPath(path, n), k)
    ensures !AtOrUnder(ChildPath(path, m), k)
  {
    ChildIsStem(path, n);
    ChildIsStem(path, m);
    if AtOrUnder(ChildPath(path, m), k) {
      Segments(Stem(path), n, m, k);
    }
  }

  lemma Segments(b: Text, n: Text, m: Text, k: Text)
    requires GoodName(n) && GoodName(m) && AtOrUnder(b + n, k) && AtOrUnder(b + m, k)
    ensures n == m
  {
    var rest := k[|b|..];
    assert rest[..|n|] == k[..|b + n|][|b|..] == n;
    assert rest[..|m|] == k[..|b + m|][|b|..] == m;
  }

  /** A path with a name in it, below the roots. */
  predicate Proper(path: Text) {
    path != [] && path != [47]
  }

  lemma ChildIsProper(path: Text, name: Text)
    requires GoodName(name)
    ensures Proper(ChildPath(path, name))
  {
    ChildIsStem(path, name);
    var c := Stem(path) + name;
    assert c[|c| - 1] == name[|name| - 1] != 47;
  }

  lemma ChildIsUnder(path: Text, name: Text, k: Text)
    requires Proper(path) && AtOrUnder(ChildPath(path, name), k)
    ensures AtOrUnder(path, k) && k != path
  {
    var c := path + [47] + name;
    assert k[..|c|] == c;
    assert k[..|path|] == c[..|path|] == path;
    assert k[|path|] == c[|path|];
  }

  lemma {:induction false} PathIsUnder(path: Text, p: Names)
    requires Proper(path) && GoodNames(p)
    ensures AtOrUnder(path, PathOf(path, p))
    decreases p
  {
    if p.Under? {
      ChildIsProper(path, p.name);
      PathIsUnder(ChildPath(path, p.name), p.rest);
      ChildIsUnder(path, p.name, PathOf(path, p));
    }
  }

  predicate GoodNames(p: Names) {
    p.Under? ==> GoodName(p.name) && GoodNames(p.rest)
  }

  // ----- The fold leaves other paths alone -----

  predicate SameAtKey(a: Files, b: Files, k: Text) {
    (k in a <==> k in b) && (k in a ==> a[k] == b[k])
  }

  /** `k` is not in the part of the tree that any of the entries `es` of `path` covers. */
  predicate NoneUnder(es: Entries, path: Text, k: Text) {
    es.Entry? ==> !AtOrUnder(ChildPath(path, es.name), k) && NoneUnder(es.rest, path, k)
  }

  lemma {:induction false} TreeFrame(t: Tree, from: nat, base: nat, path: Text, files: Files, k: Text)
    requires Proper(path) && GoodTree(t) && Unmarked(t) && !AtOrUnder(path, k)
    ensures SameAtKey(TreeFiles(t, from, base, path, files), files, k)
    decreases t
  {
    if t.Dir? {
      NotUnder(t.entries, path, k);
      ChildrenFrame(t.entries, from, base, path, files, k);
    }
  }

  lemma {:induction false} NotUnder(es: Entries, path: Text, k: Text)
    requires Proper(path) && !AtOrUnder(path, k)
    ensures NoneUnder(es, path, k)
  {
    if es.Entry? {
      if AtOrUnder(ChildPath(path, es.name), k) {
        ChildIsUnder(path, es.name, k);
      }
      NotUnder(es.rest, path, k);
    }
  }

  lemma {:induction false} ChildrenFrame(es: Entries, from: nat, base: nat, path: Text, files: Files, k: Text)
    requires GoodEntries(es) && UnmarkedIn(es) && NoneUnder(es, path, k)
    ensures SameAtKey(ChildrenFiles(es, from, base, path, files), files, k)
    decreases es
  {
    if es.Entry? {
      FirstAdds(es, from, base, path, files);
      var child := ChildPath(path, es.name);
      var mid := TreeFiles(es.child, from, base, child, files);
      ChildIsProper(path, es.name);
      TreeFrame(es.child, from, base, child, files, k);
      ChildrenFrame(es.rest, from + |TreeData(es.child)|, base, path, mid, k);
    }
  }

  lemma {:induction false} OthersApart(es: Entries, path: Text, name: Text, k: Text)
    requires GoodEntries(es) && GoodName(name) && !HasName(es, name) && AtOrUnder(ChildPath(path, name), k)
    ensures NoneUnder(es, path, k)
  {
    if es.Entry? {
      SiblingsApart(path, name, es.name, k);
      OthersApart(es.rest, path, name, k);
    }
  }

  // ----- Every file of the tree is there -----

  lemma BeBytesSnoc(v: nat, x: Byte, n: nat)
    ensures BeBytes(v * 256 + x, n + 1) == BeBytes(v, n) + [x]
  {
    assert (v * 256 + x) / 256 == v && (v * 256 + x) % 256 == x;
  }

  lemma {:induction false} BeBytesOfValue(b: seq<Byte>)
    ensures BeBytes(BeValue(b), |b|) == b
  {
    if b != [] {
      var front, last := b[..|b| - 1], b[|b| - 1];
      BeBytesOfValue(front);
      BeBytesSnoc(BeValue(front), last, |front|);
      assert b == front + [last];
    }
  }

  lemma ProtoBytes()
    ensures BeBytes(0x5f5f70726f746f5f5f, 9) == [0x5f, 0x5f, 0x70, 0x72, 0x6f, 0x74, 0x6f, 0x5f, 0x5f]
  {
    assert BeBytes(0x5f5f70, 3) == [0x5f, 0x5f, 0x70];
    assert BeBytes(0x5f5f70726f, 5) == [0x5f, 0x5f, 0x70, 0x72, 0x6f];
    assert BeBytes(0x5f5f70726f746f, 7) == [0x5f, 0x5f, 0x70, 0x72, 0x6f, 0x74, 0x6f];
  }

  lemma ProtoHasNoSlash(k: Text, i: nat)
    requires IsProto(k) && i < |k|
    ensures k[i] != 47
  {
    BeBytesOfValue(k);
    ProtoBytes();
  }

  /** Only a file directly under an empty prefix can have the path `__proto__`. */
  lemma NestedNotProto(path: Text, name: Text)
    requires path != []
    ensures !IsProto(ChildPath(path, name))
  {
    var c := ChildPath(path, name);
    if IsProto(c) {
      if path == [47] {
        ProtoHasNoSlash(c, 0);
      } else {
        ProtoHasNoSlash(c, |path|);
      }
    }
  }

  predicate Storable(es: Entries, path: Text) {
    es.Entry? ==> (es.child.File? ==> !IsProto(ChildPath(path, es.name))) && Storable(es.rest, path)
  }

  lemma {:induction false} StorableBelow(es: Entries, path: Text)
    requires path != []
    ensures Storable(es, path)
  {
    if es.Entry? {
      NestedNotProto(path, es.name);
      StorableBelow(es.rest, path);
    }
  }

  lemma {:induction false} StorableTop(es: Entries)
    requires NoProtoFile(es)
    ensures Storable(es, [])
  {
    if es.Entry? {
      StorableTop(es.rest);
    }
  }

  predicate Holds(files: Files, k: Text, bytes: seq<Byte>) {
    k in files && files[k].bytes == bytes
  }

  lemma {:induction false} TreeHit(t: Tree, from: nat, base: nat, path: Text, files: Files, p: Names)
    requires GoodTree(t) && Unmarked(t) && Proper(path) && (t.File? ==> !IsProto(path)) && Lookup(t, p).Some?
    ensures Holds(TreeFiles(t, from, base, path, files), PathOf(path, p), Lookup(t, p).value)
    ensures GoodNames(p)
    decreases t
  {
    if t.Dir? {
      StorableBelow(t.entries, path);
      ChildrenHit(t.entries, from, base, path, files, p.name, p.rest);
    }
  }

  lemma {:induction false} ChildrenHit(es: Entries, from: nat, base: nat, path: Text, files: Files, name: Text, p: Names)
    requires GoodEntries(es) && UnmarkedIn(es) && Storable(es, path) && LookupIn(es, name, p).Some?
    ensures Holds(ChildrenFiles(es, from, base, path, files), PathOf(ChildPath(path, name), p), LookupIn(es, name, p).value)
    ensures GoodName(name) && GoodNames(p) && HasName(es, name)
    decreases es
  {
    var child := ChildPath(path, es.name);
    var mid := TreeFiles(es.child, from, base, child, files);
    var more := from + |TreeData(es.child)|;
    FirstAdds(es, from, base, path, files);
    if es.name == name {
      ChildIsProper(path, name);
      TreeHit(es.child, from, base, child, files, p);
      PathIsUnder(child, p);
      OthersApart(es.rest, path, name, PathOf(child, p));
      ChildrenFrame(es.rest, more, base, path, mid, PathOf(child, p));
    } else {
      ChildrenHit(es.rest, more, base, path, mid, name, p);
    }
  }

  // ----- and nothing else is -----

  /** The path the parser gives a file: each name as it is decoded. */
  function DecodedPath(path: Text, p: Names): Text
    decreases p
  {
    if p.Here? then path else DecodedPath(ChildPath(path, DecodeText(p.name)), p.rest)
  }

  lemma {:induction false} TreeKey(t: Tree, from: nat, base: nat, path: Text, files: Files, k: Text) returns (p: Names)
    requires GoodTree(t) && k in TreeFiles(t, from, base, path, files) && k !in files
    ensures Lookup(t, p).Some? && k == DecodedPath(path, p) && GoodNames(p)
    decreases t
  {
    if t.File? {
      p := Here;
    } else {
      var name, rest := ChildrenKey(t.entries, from, base, path, files, k);
      p := Under(name, rest);
    }
  }

  lemma {:induction false} ChildrenKey(es: Entries, from: nat, base: nat, path: Text, files: Files, k: Text)
    returns (name: Text, p: Names)
    requires GoodEntries(es) && k in ChildrenFiles(es, from, base, path, files) && k !in files
    ensures LookupIn(es, name, p).Some? && k == DecodedPath(ChildPath(path, DecodeText(name)), p) && HasName(es, name)
    ensures GoodName(name) && GoodNames(p)
    decreases es
  {
    var child := ChildPath(path, DecodeText(es.name));
    var mid := TreeFiles(es.child, from, base, child, files);
    if k in mid {
      name := es.name;
      p := TreeKey(es.child, from, base, child, files, k);
    } else {
      name, p := ChildrenKey(es.rest, from + |TreeData(es.child)|, base, path, mid, k);
    }
  }

  predicate Marked(p: Names) {
    p.Under? && (StartsWithBom(p.name) || Marked(p.rest))
  }

  lemma {:induction false} PlainPath(path: Text, p: Names)
    requires !Marked(p)
    ensures DecodedPath(path, p) == PathOf(path, p)
    decreases p
  {
    if p.Under? {
      PlainPath(ChildPath(path, p.name), p.rest);
    }
  }

  lemma {:induction false} FileBelow(t: Tree, p: Names)
    requires Lookup(t, p).Some?
    ensures HasFile(t)
    decreases t
  {
    if t.Dir? {
      FileBelowIn(t.entries, p.name, p.rest);
    }
  }

  lemma {:induction false} FileBelowIn(es: Entries, name: Text, p: Names)
    requires LookupIn(es, name, p).Some?
    ensures HasFileIn(es)
    decreases es
  {
    if es.name == name {
      FileBelow(es.child, p);
    } else {
      FileBelowIn(es.rest, name, p);
    }
  }

  lemma {:induction false} UnmarkedFile(t: Tree, p: Names)
    requires Unmarked(t) && Lookup(t, p).Some?
    ensures !Marked(p)
    decreases t
  {
    if t.Dir? {
      UnmarkedFileIn(t.entries, p.name, p.rest);
    }
  }

  lemma {:induction false} UnmarkedFileIn(es: Entries, name: Text, p: Names)
    requires UnmarkedIn(es) && LookupIn(es, name, p).Some?
    ensures !StartsWithBom(name) && !Marked(p)
    decreases es
  {
    if es.name == name {
      FileBelow(es.child, p);
      UnmarkedFile(es.child, p);
    } else {
      UnmarkedFileIn(es.rest, name, p);
    }
  }

  // ----- The theorem -----

  /** A package prefix: empty for atoms, a slash for volumes. */
  predicate Prefix(prefix: Text) {
    prefix == [] || prefix == [47]
  }

  /** `files` is the tree's map from paths to bytes. */
  ghost predicate Exactly(files: Files, t: Tree, prefix: Text) {
    && (forall p :: Lookup(t, p).Some? ==> Holds(files, PathOf(prefix, p), Lookup(t, p).value))
    && (forall k :: k in files ==> exists p :: Lookup(t, p).Some? && k == PathOf(prefix, p))
  }

  lemma TreeFilesExactly(es: Entries, base: nat, prefix: Text)
    requires GoodEntries(es) && UnmarkedIn(es) && Storable(es, prefix)
    ensures Exactly(TreeFiles(Dir(es), 0, base, prefix, map[]), Dir(es), prefix)
  {
    var t := Dir(es);
    var files := TreeFiles(t, 0, base, prefix, map[]);
    forall p | Lookup(t, p).Some? ensures Holds(files, PathOf(prefix, p), Lookup(t, p).value) {
      ChildrenHit(es, 0, base, prefix, map[], p.name, p.rest);
    }
    forall k | k in files ensures exists p :: Lookup(t, p).Some? && k == PathOf(prefix, p) {
      var p := TreeKey(t, 0, base, prefix, map[], k);
      UnmarkedFile(t, p);
      PlainPath(prefix, p);
    }
  }

  // ----- `__proto__` never becomes a key -----

  lemma {:induction false} NeverProto(t: Tree, from: nat, base: nat, path: Text, files: Files, k: Text)
    requires IsProto(k) && k !in files
    ensures k !in TreeFiles(t, from, base, path, files)
    decreases t
  {
    if t.Dir? {
      NeverProtoIn(t.entries, from, base, path, files, k);
    }
  }

  lemma {:induction false} NeverProtoIn(es: Entries, from: nat, base: nat, path: Text, files: Files, k: Text)
    requires IsProto(k) && k !in files
    ensures k !in ChildrenFiles(es, from, base, path, files)
    decreases es
  {
    if es.Entry? {
      var child := ChildPath(path, DecodeText(es.name));
      NeverProto(es.child, from, base, child, files, k);
      NeverProtoIn(es.rest, from + |TreeData(es.child)|, base, path, TreeFiles(es.child, from, base, child, files), k);
    }
  }

  lemma {:induction false} ProtoFile(es: Entries) returns (name: Text)
    requires GoodEntries(es) && !NoProtoFile(es)
    ensures IsProto(name) && HasName(es, name) && LookupIn(es, name, Here).Some?
  {
    if es.child.File? && IsProto(es.name) {
      name := es.name;
    } else {
      name := ProtoFile(es.rest);
    }
  }

  lemma ProtoLost(es: Entries, base: nat)
    requires GoodEntries(es) && !NoProtoFile(es)
    ensures !Exactly(TreeFiles(Dir(es), 0, base, [], map[]), Dir(es), [])
  {
    var name := ProtoFile(es);
    var p := Under(name, Here);
    assert PathOf([], p) == name;
    NeverProto(Dir(es), 0, base, [], map[], name);
    assert Lookup(Dir(es), p).Some?;
  }

  // ----- Nor does a path with a mark in it -----

  lemma ChildLength(path: Text, name: Text)
    ensures |ChildPath(path, name)| == |Stem(path)| + |name|
    ensures |Stem(path)| <= |path| + 1 && (Proper(path) ==> |Stem(path)| == |path| + 1)
  {
  }

  lemma {:induction false} DecodedShorter(decoded: Text, path: Text, p: Names)
    requires Proper(path) && |decoded| <= |path| && GoodNames(p)
    ensures |DecodedPath(decoded, p)| <= |PathOf(path, p)|
    ensures Marked(p) || |decoded| < |path| ==> |DecodedPath(decoded, p)| < |PathOf(path, p)|
    decreases p
  {
    if p.Under? {
      ChildLength(decoded, DecodeText(p.name));
      ChildLength(path, p.name);
      ChildIsProper(path, p.name);
      DecodedShorter(ChildPath(decoded, DecodeText(p.name)), ChildPath(path, p.name), p.rest);
    }
  }

  lemma MarkedShorter(prefix: Text, p: Names)
    requires Marked(p) && GoodNames(p)
    ensures |DecodedPath(prefix, p)| < |PathOf(prefix, p)|
  {
    ChildLength(prefix, DecodeText(p.name));
    ChildLength(prefix, p.name);
    ChildIsProper(prefix, p.name);
    DecodedShorter(ChildPath(prefix, DecodeText(p.name)), ChildPath(prefix, p.name), p.rest);
  }

  lemma {:induction false} PathsApart(path: Text, p: Names, q: Names)
    requires GoodNames(p) && GoodNames(q) && PathOf(path, p) == PathOf(path, q)
    requires Proper(path) || (p.Under? && q.Under?)
    ensures p == q
    decreases p
  {
    if p.Under? && q.Under? {
      var k := PathOf(path, p);
      ChildIsProper(path, p.name);
      ChildIsProper(path, q.name);
      PathIsUnder(ChildPath(path, p.name), p.rest);
      PathIsUnder(ChildPath(path, q.name), q.rest);
      ChildIsStem(path, p.name);
      ChildIsStem(path, q.name);
      Segments(Stem(path), p.name, q.name, k);
      PathsApart(ChildPath(path, p.name), p.rest, q.rest);
    } else if p.Under? {
      BelowIsLonger(path, p);
    } else if q.Under? {
      BelowIsLonger(path, q);
    }
  }

  lemma BelowIsLonger(path: Text, p: Names)
    requires Proper(path) && p.Under? && GoodNames(p)
    ensures |PathOf(path, p)| > |path|
  {
    ChildIsProper(path, p.name);
    PathIsUnder(ChildPath(path, p.name), p.rest);
    ChildIsUnder(path, p.name, PathOf(path, p));
  }

  function Longest(t: Tree): nat {
    if t.File? then 0 else LongestIn(t.entries)
  }

  function LongestIn(es: Entries): nat {
    if es.Empty? then 0 else 1 + |es.name| + Longest(es.child) + LongestIn(es.rest)
  }

  lemma {:induction false} NoLongerPath(t: Tree, path: Text, p: Names)
    requires GoodTree(t) && Lookup(t, p).Some?
    ensures |PathOf(path, p)| <= |path| + Longest(t) && GoodNames(p)
    decreases t
  {
    if t.Dir? {
      NoLongerPathIn(t.entries, path, p.name, p.rest);
    }
  }

  lemma {:induction false} NoLongerPathIn(es: Entries, path: Text, name: Text, p: Names)
    requires GoodEntries(es) && LookupIn(es, name, p).Some?
    ensures |PathOf(ChildPath(path, name), p)| <= |path| + LongestIn(es) && GoodName(name) && GoodNames(p)
    decreases es
  {
    if es.name == name {
      ChildLength(path, name);
      NoLongerPath(es.child, ChildPath(path, name), p);
    } else {
      NoLongerPathIn(es.rest, path, name, p);
    }
  }

  /** If the path of a marked file were a key, a longer one would be marked too. */
  lemma {:induction false} MarkedLost(es: Entries, base: nat, prefix: Text, p: Names)
    requires GoodEntries(es) && Lookup(Dir(es), p).Some? && Marked(p)
    ensures !Exactly(TreeFiles(Dir(es), 0, base, prefix, map[]), Dir(es), prefix)
    decreases |prefix| + LongestIn(es) - |PathOf(prefix, p)|
  {
    var t := Dir(es);
    var files := TreeFiles(t, 0, base, prefix, map[]);
    if PathOf(prefix, p) in files {
      NoLongerPath(t, prefix, p);
      var q := TreeKey(t, 0, base, prefix, map[], PathOf(prefix, p));
      NoLongerPath(t, prefix, q);
      if Marked(q) {
        MarkedShorter(prefix, q);
        MarkedLost(es, base, prefix, q);
      } else {
        PlainPath(prefix, q);
        PathsApart(prefix, p, q);
        assert false;
      }
    } else {
      assert !Holds(files, PathOf(prefix, p), Lookup(t, p).value);
    }
  }

  lemma {:induction false} SomeFile(t: Tree) returns (p: Names)
    requires GoodTree(t) && HasFile(t)
    ensures Lookup(t, p).Some?
    decreases t
  {
    if t.File? {
      p := Here;
    } else {
      var name, rest := SomeFileIn(t.entries);
      p := Under(name, rest);
    }
  }

  lemma {:induction false} SomeFileIn(es: Entries) returns (name: Text, p: Names)
    requires GoodEntries(es) && HasFileIn(es)
    ensures LookupIn(es, name, p).Some? && HasName(es, name)
    decreases es
  {
    if HasFile(es.child) {
      name := es.name;
      p := SomeFile(es.child);
    } else {
      name, p := SomeFileIn(es.rest);
    }
  }

  lemma {:induction false} SomeMarked(t: Tree) returns (p: Names)
    requires GoodTree(t) && !Unmarked(t)
    ensures Lookup(t, p).Some? && Marked(p)
    decreases t
  {
    var name, rest := SomeMarkedIn(t.entries);
    p := Under(name, rest);
  }

  lemma {:induction false} SomeMarkedIn(es: Entries) returns (name: Text, p: Names)
    requires GoodEntries(es) && !UnmarkedIn(es)
    ensures LookupIn(es, name, p).Some? && (StartsWithBom(name) || Marked(p)) && HasName(es, name)
    decreases es
  {
    if StartsWithBom(es.name) && HasFile(es.child) {
      name := es.name;
      p := SomeFile(es.child);
    } else if !Unmarked(es.child) {
      name := es.name;
      p := SomeMarked(es.child);
    } else {
      name, p := SomeMarkedIn(es.rest);
    }
  }

  /** Every file of the tree survives: no name on its path starts with a byte-order mark, and,
      under an empty prefix, it is not a top-level `__proto__`. */
  predicate Survives(es: Entries, prefix: Text) {
    UnmarkedIn(es) && (prefix == [47] || NoProtoFile(es))
  }

  lemma TreeFilesFate(es: Entries, base: nat, prefix: Text)
    requires GoodEntries(es) && Prefix(prefix)
    ensures Exactly(TreeFiles(Dir(es), 0, base, prefix, map[]), Dir(es), prefix) <==> Survives(es, prefix)
  {
    if !UnmarkedIn(es) {
      var p := SomeMarked(Dir(es));
      MarkedLost(es, base, prefix, p);
    } else if prefix == [47] {
      StorableBelow(es, prefix);
      TreeFilesExactly(es, base, prefix);
    } else if NoProtoFile(es) {
      StorableTop(es);
      TreeFilesExactly(es, base, prefix);
    } else {
      ProtoLost(es, base);
    }
  }

  /** Parsing what the writer built from a tree with distinct, non-empty, slash-free names
      succeeds, and gives exactly the tree's map from paths to bytes if and only if no file is at
      a path with a name that starts with a byte-order mark and, with an empty prefix, no
      top-level file is called `__proto__`. */
  lemma FilesExactly(v3: bool, es: Entries, base: nat, prefix: Text)
    requires GoodEntries(es) && Prefix(prefix) && Sized(Written(v3, Dir(es), base))
    ensures var r := ParseVolume(Written(v3, Dir(es), base), prefix);
            r.Parsed? && (Exactly(r.state.files, Dir(es), prefix) <==> Survives(es, prefix))
  {
    VolumeRoundTrip(v3, Dir(es), base, prefix);
    TreeFilesFate(es, base, prefix);
  }

  lemma MarkedTreeSized(v3: bool, es: Entries, base: nat)
    requires es == Entry([0xef, 0xbb, 0xbf, 97], File([1]), Empty)
    ensures Sized(Written(v3, Dir(es), base)) && GoodEntries(es) && !UnmarkedIn(es)
  {
    assert StartsWithBom(es.name);
    assert BlockSize(v3, Empty) == 0 && ChildrenSize(v3, Empty) == 0 && ChildrenData(Empty) == [];
    assert TreeSize(v3, es.child) == 17 + FileMetaSize(v3);
    assert TreeSize(v3, Dir(es)) <= MAX_SAFE;
    assert TreeData(Dir(es)) == TreeData(es.child) + ChildrenData(Empty);
  }

  /** One byte-order mark is enough: in either version, what is parsed from the volume written for a
      tree with one file, a mark and `a`, is not that tree. */
  lemma MarkedNameLost(v3: bool, base: nat)
    ensures var es := Entry([0xef, 0xbb, 0xbf, 97], File([1]), Empty);
            var r := ParseVolume(Written(v3, Dir(es), base), [47]);
            GoodEntries(es) && r.Parsed? && !Exactly(r.state.files, Dir(es), [47])
  {
    var es := Entry([0xef, 0xbb, 0xbf, 97], File([1]), Empty);
    MarkedTreeSized(v3, es, base);
    FilesExactly(v3, es, base, [47]);
  }
}
