/** Parsing the buffers the volume writer builds gives back the tree. */
module WebcRoundTrip {
  import opened Bytes
  import opened WebcVolume
  import opened WebcHeader

  /** The files of a tree whose data starts at `from`, added one by one to `files`. */
  function TreeFiles(t: Tree, from: nat, base: nat, path: Text, files: Files): Files {
    match t
    case File(bytes) => Put(files, path, FileRecord(bytes, Zeros(32), base + from, |bytes|))
    case Dir(es) => ChildrenFiles(es, from, base, path, files)
  }

  function ChildrenFiles(es: Entries, from: nat, base: nat, path: Text, files: Files): Files {
    if es.Empty? then files
    else
      ChildrenFiles(es.rest, from + |TreeData(es.child)|, base, path,
                    TreeFiles(es.child, from, base, ChildPath(path, DecodeText(es.name)), files))
  }

  predicate Below(seen: set<nat>, n: nat) {
    forall i :: i in seen ==> i < n
  }

  // ----- What is where, and what it parses to -----

  predicate AskTree(u: int, t: Tree) {
    true
  }

  predicate AskEntries(u: int, es: Entries) {
    true
  }

  ghost predicate TreeAt(v: Volume, t: Tree, at: nat, from: nat) {
    forall u {:trigger AskTree(u, t)} :: AskTree(u, t) ==>
      HasAt(v.header, at, TreeHeader(v.v3, t, at, from)) && HasAt(v.data, from, TreeData(t))
  }

  ghost predicate ChildrenAt(v: Volume, es: Entries, at: nat, from: nat) {
    forall u {:trigger AskEntries(u, es)} :: AskEntries(u, es) ==>
      HasAt(v.header, at, ChildrenHeader(v.v3, es, at, from)) && HasAt(v.data, from, ChildrenData(es))
  }

  ghost predicate BlockAt(v: Volume, es: Entries, cursor: nat, at: nat) {
    forall u {:trigger AskEntries(u, es)} :: AskEntries(u, es) ==> HasAt(v.header, cursor, Block(v.v3, es, at))
  }

  ghost predicate Parses(v: Volume, off: nat, path: Text, st: State, st': State) {
    forall u {:trigger AskReader(u)} :: AskReader(u) ==> ParseEntry(v, off, path, st) == Parsed(st')
  }

  ghost predicate EntriesParse(v: Volume, cursor: nat, end: nat, path: Text, st: State, st': State) {
    forall u {:trigger AskReader(u)} :: AskReader(u) ==>
      cursor <= |v.header| && end <= |v.header| && ParseEntries(v, cursor, end, path, st) == Parsed(st')
  }

  ghost predicate EntryReads(v: Volume, cursor: nat, child: nat, name: Text, next: nat) {
    forall u {:trigger AskReader(u)} :: AskReader(u) ==> ReadEntry(v.header, v.v3, cursor) == EntryHead(child, name, next)
  }

  /** The buffers are small enough for every offset in them to be a safe integer. */
  predicate Sized(v: Volume) {
    |v.header| <= 9007199254740991 && |v.data| <= 9007199254740991
  }

  // ----- Reading the pieces -----

  lemma NumberAt(b: seq<Byte>, off: nat, n: nat)
    requires HasAt(b, off, U64(n)) && n <= MAX_SAFE
    ensures ReadU64(b, off) == Num(n)
  {
    HasAtSlice(b, off, U64(n));
    U64RoundTrip(n);
  }

  lemma FileParts(v: Volume, off: nat, from: nat, to: nat)
    requires HasAt(v.header, off, FileHeader(v.v3, from, to)) && Sized(v) && from <= to <= MAX_SAFE
    ensures off < |v.header| && v.header[off] == TAG_FILE
    ensures ReadU64(v.header, off + 1) == Num(from) && ReadU64(v.header, off + 9) == Num(to)
    ensures HasAt(v.header, off + 17, Zeros(FileMetaSize(v.v3)))
  {
    var meta := Zeros(FileMetaSize(v.v3));
    HasAtSplit(v.header, off, [TAG_FILE], U64(from) + (U64(to) + meta));
    HasAtSplit(v.header, off + 1, U64(from), U64(to) + meta);
    HasAtSplit(v.header, off + 9, U64(to), meta);
    assert SameAt(v.header, off, [TAG_FILE], 0);
    NumberAt(v.header, off + 1, from);
    NumberAt(v.header, off + 9, to);
  }

  lemma FileAtReads(v: Volume, off: nat, from: nat, bytes: seq<Byte>)
    requires HasAt(v.header, off, FileHeader(v.v3, from, from + |bytes|)) && HasAt(v.data, from, bytes) && Sized(v)
    ensures off < |v.header| && v.header[off] == TAG_FILE
    ensures ReadFile(v, off) == FileAt(FileRecord(bytes, Zeros(32), v.dataOffset + from, |bytes|))
  {
    FileParts(v, off, from, from + |bytes|);
    ChecksumAt(v, off + 17);
    HasAtSlice(v.data, from, bytes);
    FileReads(v, off, from, from + |bytes|);
  }

  lemma FileReads(v: Volume, off: nat, from: nat, to: nat)
    requires ReadU64(v.header, off + 1) == Num(from) && ReadU64(v.header, off + 9) == Num(to) && from <= to <= |v.data|
    requires off + 17 + FileMetaSize(v.v3) <= |v.header|
    ensures ReadFile(v, off) == FileAt(FileRecord(v.data[from..to], v.header[off + 17..off + 49], v.dataOffset + from, to - from))
  {
  }

  lemma ChecksumAt(v: Volume, off: nat)
    requires HasAt(v.header, off, Zeros(FileMetaSize(v.v3)))
    ensures off + 32 <= |v.header| && v.header[off..off + 32] == Zeros(32)
  {
    var rest := Zeros(FileMetaSize(v.v3) - 32);
    assert Zeros(32) + rest == Zeros(FileMetaSize(v.v3));
    HasAtSplit(v.header, off, Zeros(32), rest);
    HasAtSlice(v.header, off, Zeros(32));
  }

  lemma DirAtReads(v: Volume, off: nat, length: nat)
    requires HasAt(v.header, off, Front(v.v3, length)) && Sized(v)
    requires off + 9 + length <= |v.header|
    ensures off < |v.header| && v.header[off] == TAG_DIRECTORY
    ensures ReadDir(v.header, v.v3, off) == DirBlock(off + 9 + DirMetaSize(v.v3), off + 9 + length)
  {
    var meta := Zeros(DirMetaSize(v.v3));
    HasAtSplit(v.header, off, [TAG_DIRECTORY], U64(length) + meta);
    HasAtSplit(v.header, off + 1, U64(length), meta);
    assert SameAt(v.header, off, [TAG_DIRECTORY], 0);
    NumberAt(v.header, off + 1, length);
  }

  lemma HeadParts(b: seq<Byte>, cursor: nat, first: seq<Byte>, hash: seq<Byte>, second: seq<Byte>, name: seq<Byte>)
    requires HasAt(b, cursor, first + (hash + (second + name)))
    ensures HasAt(b, cursor, first) && HasAt(b, cursor + |first| + |hash|, second)
    ensures HasAt(b, cursor + |first| + |hash| + |second|, name)
  {
    HasAtSplit(b, cursor, first, hash + (second + name));
    HasAtSplit(b, cursor + |first|, hash, second + name);
    HasAtSplit(b, cursor + |first| + |hash|, second, name);
  }

  lemma EntryHeadReads(b: seq<Byte>, v3: bool, cursor: nat, child: nat, mid: nat, name: Text)
    requires ReadU64(b, cursor) == Num(child) && mid == cursor + 8 + HashSize(v3) && ReadU64(b, mid) == Num(|name|)
    requires mid + 8 + |name| <= |b| && b[mid + 8..mid + 8 + |name|] == name
    ensures ReadEntry(b, v3, cursor) == EntryHead(child, DecodeText(name), mid + 8 + |name|)
  {
  }

  lemma HeadAtReads(v: Volume, cursor: nat, name: Text, at: nat)
    requires HasAt(v.header, cursor, Head(v.v3, name, at)) && at <= MAX_SAFE && Sized(v)
    ensures ReadEntry(v.header, v.v3, cursor) == EntryHead(at, DecodeText(name), cursor + HeadSize(v.v3, name))
  {
    var mid := cursor + 8 + HashSize(v.v3);
    HeadParts(v.header, cursor, U64(at), Zeros(HashSize(v.v3)), U64(|name|), name);
    NumberAt(v.header, cursor, at);
    NumberAt(v.header, mid, |name|);
    HasAtSlice(v.header, mid + 8, name);
    EntryHeadReads(v.header, v.v3, cursor, at, mid, name);
  }

  // ----- Taking the layout apart -----

  lemma DirAt(v: Volume, es: Entries, at: nat, from: nat)
    requires TreeAt(v, Dir(es), at, from) && Sized(v)
    ensures BlockAt(v, es, at + 9 + DirMetaSize(v.v3), at + ChildStart(v.v3, es))
    ensures ChildrenAt(v, es, at + ChildStart(v.v3, es), from)
    ensures at < |v.header| && v.header[at] == TAG_DIRECTORY
    ensures ReadDir(v.header, v.v3, at) == DirBlock(at + 9 + DirMetaSize(v.v3), at + ChildStart(v.v3, es))
  {
    DirParts(v, es, at, from);
    DirAtReads(v, at, DirMetaSize(v.v3) + BlockSize(v.v3, es));
  }

  lemma ThreeParts(b: seq<Byte>, at: nat, first: seq<Byte>, second: seq<Byte>, third: seq<Byte>)
    requires HasAt(b, at, (first + second) + third)
    ensures HasAt(b, at, first) && HasAt(b, at + |first|, second) && HasAt(b, at + |first| + |second|, third)
  {
    HasAtSplit(b, at, first + second, third);
    HasAtSplit(b, at, first, second);
  }

  lemma DirLayout(v: Volume, es: Entries, at: nat, from: nat, first: nat)
    requires TreeAt(v, Dir(es), at, from) && first == at + ChildStart(v.v3, es)
    ensures HasAt(v.header, at, (DirFront(v.v3, es) + Block(v.v3, es, first)) + ChildrenHeader(v.v3, es, first, from))
    ensures HasAt(v.data, from, ChildrenData(es))
  {
    assert AskTree(0, Dir(es));
  }

  lemma DirParts(v: Volume, es: Entries, at: nat, from: nat)
    requires TreeAt(v, Dir(es), at, from)
    ensures HasAt(v.header, at, DirFront(v.v3, es)) && at + ChildStart(v.v3, es) <= |v.header|
    ensures BlockAt(v, es, at + 9 + DirMetaSize(v.v3), at + ChildStart(v.v3, es))
    ensures ChildrenAt(v, es, at + ChildStart(v.v3, es), from)
  {
    var first := at + ChildStart(v.v3, es);
    DirLayout(v, es, at, from, first);
    ThreeParts(v.header, at, DirFront(v.v3, es), Block(v.v3, es, first), ChildrenHeader(v.v3, es, first, from));
  }

  lemma EntryAt(v: Volume, es: Entries, cursor: nat, end: nat, at: nat, from: nat) returns (next: nat, later: nat, more: nat)
    requires es.Entry? && BlockAt(v, es, cursor, at) && ChildrenAt(v, es, at, from) && Sized(v)
    requires cursor + BlockSize(v.v3, es) == end
    ensures EntryReads(v, cursor, at, DecodeText(es.name), next) && TreeAt(v, es.child, at, from)
    ensures BlockAt(v, es.rest, next, later) && ChildrenAt(v, es.rest, later, more)
    ensures next + BlockSize(v.v3, es.rest) == end && cursor < end
    ensures later == at + TreeSize(v.v3, es.child) && later + ChildrenSize(v.v3, es.rest) == at + ChildrenSize(v.v3, es)
    ensures more == from + |TreeData(es.child)|
  {
    next, later := cursor + HeadSize(v.v3, es.name), at + TreeSize(v.v3, es.child);
    more := from + |TreeData(es.child)|;
    BlockParts(v, es, cursor, at);
    ChildrenParts(v, es, at, from);
    HeadAtReads(v, cursor, es.name, at);
  }

  lemma BlockParts(v: Volume, es: Entries, cursor: nat, at: nat)
    requires es.Entry? && BlockAt(v, es, cursor, at)
    ensures HasAt(v.header, cursor, Head(v.v3, es.name, at))
    ensures BlockAt(v, es.rest, cursor + HeadSize(v.v3, es.name), at + TreeSize(v.v3, es.child))
  {
    assert AskEntries(0, es);
    HasAtSplit(v.header, cursor, Head(v.v3, es.name, at), Block(v.v3, es.rest, at + TreeSize(v.v3, es.child)));
  }

  lemma ChildrenParts(v: Volume, es: Entries, at: nat, from: nat)
    requires es.Entry? && ChildrenAt(v, es, at, from)
    ensures TreeAt(v, es.child, at, from) && at <= |v.header|
    ensures ChildrenAt(v, es.rest, at + TreeSize(v.v3, es.child), from + |TreeData(es.child)|)
  {
    assert AskEntries(0, es);
    HasAtSplit(v.header, at, TreeHeader(v.v3, es.child, at, from),
               ChildrenHeader(v.v3, es.rest, at + TreeSize(v.v3, es.child), from + |TreeData(es.child)|));
    HasAtSplit(v.data, from, TreeData(es.child), ChildrenData(es.rest));
  }

  // ----- Single steps of the parser -----

  lemma FileStep(v: Volume, bytes: seq<Byte>, at: nat, from: nat, path: Text, st: State)
    requires TreeAt(v, File(bytes), at, from) && at !in st.seen && Sized(v)
    ensures Parses(v, at, path, st, State(TreeFiles(File(bytes), from, v.dataOffset, path, st.files), st.seen + {at}))
  {
    assert HasAt(v.header, at, FileHeader(v.v3, from, from + |bytes|)) && HasAt(v.data, from, bytes) by {
      assert AskTree(0, File(bytes));
    }
    FileAtReads(v, at, from, bytes);
  }

  lemma DirStep(v: Volume, at: nat, block: nat, end: nat, path: Text, st: State, st': State)
    requires at !in st.seen && at < |v.header| && v.header[at] == TAG_DIRECTORY
    requires ReadDir(v.header, v.v3, at) == DirBlock(block, end)
    requires EntriesParse(v, block, end, path, State(st.files, st.seen + {at}), st')
    ensures Parses(v, at, path, st, st')
  {
    assert AskReader(0);
  }

  lemma EntryStep(v: Volume, cursor: nat, end: nat, path: Text, child: nat, name: Text, next: nat, st: State, mid: State, st': State)
    requires cursor < end && EntryReads(v, cursor, child, name, next)
    requires Parses(v, child, ChildPath(path, name), st, mid) && EntriesParse(v, next, end, path, mid, st')
    ensures EntriesParse(v, cursor, end, path, st, st')
  {
    assert AskReader(0);
  }

  lemma LastStep(v: Volume, end: nat, path: Text, st: State)
    requires end <= |v.header|
    ensures EntriesParse(v, end, end, path, st, st)
  {
  }

  // ----- The round trip -----

  lemma BelowStep(seen: set<nat>, at: nat, n: nat)
    requires Below(seen, at) && at < n
    ensures Below(seen + {at}, n) && at !in seen
  {
  }

  ghost predicate Gives(t: Tree, from: nat, base: nat, path: Text, files: Files, files': Files) {
    forall u {:trigger AskHead(u)} :: AskHead(u) ==> files' == TreeFiles(t, from, base, path, files)
  }

  ghost predicate ChildrenGive(es: Entries, from: nat, base: nat, path: Text, files: Files, files': Files) {
    forall u {:trigger AskHead(u)} :: AskHead(u) ==> files' == ChildrenFiles(es, from, base, path, files)
  }

  lemma DirGives(es: Entries, from: nat, base: nat, path: Text, files: Files, files': Files)
    requires ChildrenGive(es, from, base, path, files, files')
    ensures Gives(Dir(es), from, base, path, files, files')
  {
    assert AskHead(0);
  }

  lemma EntryGives(es: Entries, from: nat, more: nat, base: nat, path: Text, files: Files, mid: Files, files': Files)
    requires es.Entry? && Gives(es.child, from, base, ChildPath(path, DecodeText(es.name)), files, mid)
    requires more == from + |TreeData(es.child)| && ChildrenGive(es.rest, more, base, path, mid, files')
    ensures ChildrenGive(es, from, base, path, files, files')
  {
    assert AskHead(0);
  }

  lemma {:induction false} ParseTree(v: Volume, t: Tree, at: nat, from: nat, path: Text, st: State) returns (st': State)
    requires TreeAt(v, t, at, from) && Below(st.seen, at) && Sized(v)
    ensures Parses(v, at, path, st, st')
    ensures Gives(t, from, v.dataOffset, path, st.files, st'.files)
    ensures Below(st'.seen, at + TreeSize(v.v3, t))
    decreases t
  {
    BelowStep(st.seen, at, at + TreeSize(v.v3, t));
    match t
    case File(bytes) =>
      FileStep(v, bytes, at, from, path, st);
      st' := State(TreeFiles(File(bytes), from, v.dataOffset, path, st.files), st.seen + {at});
    case Dir(es) =>
      DirAt(v, es, at, from);
      var block, first := at + 9 + DirMetaSize(v.v3), at + ChildStart(v.v3, es);
      BelowStep(st.seen, at, first);
      st' := ParseChildren(v, es, block, first, first, from, path, State(st.files, st.seen + {at}));
      DirStep(v, at, block, first, path, st, st');
      DirGives(es, from, v.dataOffset, path, st.files, st'.files);
  }

  lemma {:induction false} ParseChildren(v: Volume, es: Entries, cursor: nat, end: nat, at: nat, from: nat, path: Text, st: State)
    returns (st': State)
    requires BlockAt(v, es, cursor, at) && ChildrenAt(v, es, at, from) && cursor + BlockSize(v.v3, es) == end <= |v.header|
    requires Below(st.seen, at) && Sized(v)
    ensures EntriesParse(v, cursor, end, path, st, st')
    ensures ChildrenGive(es, from, v.dataOffset, path, st.files, st'.files)
    ensures Below(st'.seen, at + ChildrenSize(v.v3, es))
    decreases es
  {
    if es.Empty? {
      st' := st;
      assert cursor == end;
      LastStep(v, cursor, path, st);
    } else {
      var next, later, more := EntryAt(v, es, cursor, end, at, from);
      var mid := ParseTree(v, es.child, at, from, ChildPath(path, DecodeText(es.name)), st);
      st' := ParseChildren(v, es.rest, next, end, later, more, path, mid);
      EntryStep(v, cursor, end, path, at, DecodeText(es.name), next, st, mid, st');
      EntryGives(es, from, more, v.dataOffset, path, st.files, mid.files, st'.files);
    }
  }

  /** The volume a writer that serialized `t` leaves behind. */
  function Written(v3: bool, t: Tree, base: nat): Volume {
    Volume(TreeHeader(v3, t, 0, 0), TreeData(t), base, v3)
  }

  /** For every tree, in both versions, parsing what the writer built succeeds - no loop is
      reported - and gives the tree's files. */
  lemma VolumeRoundTrip(v3: bool, t: Tree, base: nat, prefix: Text)
    requires Sized(Written(v3, t, base))
    ensures var r := ParseVolume(Written(v3, t, base), prefix);
            r.Parsed? && r.state.files == TreeFiles(t, 0, base, prefix, map[])
  {
    var v := Written(v3, t, base);
    WrittenAt(v3, t, base);
    var st := ParseTree(v, t, 0, 0, prefix, State(map[], {}));
    assert AskReader(0) && AskHead(0);
  }

  lemma WrittenAt(v3: bool, t: Tree, base: nat)
    ensures TreeAt(Written(v3, t, base), t, 0, 0)
  {
    var v := Written(v3, t, base);
    assert HasAt(v.header, 0, v.header) && HasAt(v.data, 0, v.data);
  }
}
