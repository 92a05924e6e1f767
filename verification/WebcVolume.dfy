/** WebC volumes as the fixture writer lays them out: directory trees, the header and data
    buffers, and the writer that fills them with back-patched offsets. */
module WebcVolume {
  import opened Bytes

  datatype Tree = File(bytes: seq<Byte>) | Dir(entries: Entries)

  /** The entries of a directory, in the order they are written. */
  datatype Entries = Empty | Entry(name: Text, child: Tree, rest: Entries)

  const TAG_DIRECTORY: Byte := 30
  const TAG_FILE: Byte := 31

  // ----- Layout -----

  /** Timestamps and checksum of a version 3 directory. */
  function DirMetaSize(v3: bool): nat {
    if v3 then 56 else 0
  }

  function HashSize(v3: bool): nat {
    if v3 then 32 else 0
  }

  function FileMetaSize(v3: bool): nat {
    if v3 then 56 else 32
  }

  function HeadSize(v3: bool, name: Text): nat {
    16 + HashSize(v3) + |name|
  }

  function BlockSize(v3: bool, es: Entries): nat {
    if es.Empty? then 0 else HeadSize(v3, es.name) + BlockSize(v3, es.rest)
  }

  /** Where the first child starts, relative to its directory. */
  function ChildStart(v3: bool, es: Entries): nat {
    9 + DirMetaSize(v3) + BlockSize(v3, es)
  }

  function TreeSize(v3: bool, t: Tree): (n: nat)
    ensures n > 0
  {
    match t
    case File(_) => 17 + FileMetaSize(v3)
    case Dir(es) => ChildStart(v3, es) + ChildrenSize(v3, es)
  }

  function ChildrenSize(v3: bool, es: Entries): nat {
    if es.Empty? then 0 else TreeSize(v3, es.child) + ChildrenSize(v3, es.rest)
  }

  /** One directory entry: the offset of the child in the header, then its name. */
  function Head(v3: bool, name: Text, at: nat): (b: seq<Byte>)
    ensures |b| == HeadSize(v3, name)
  {
    U64(at) + (Zeros(HashSize(v3)) + (U64(|name|) + name))
  }

  /** The entries of a directory whose first child is at `at`. */
  function Block(v3: bool, es: Entries, at: nat): (b: seq<Byte>)
    ensures |b| == BlockSize(v3, es)
  {
    if es.Empty? then [] else Head(v3, es.name, at) + Block(v3, es.rest, at + TreeSize(v3, es.child))
  }

  function FileHeader(v3: bool, from: nat, to: nat): (b: seq<Byte>)
    ensures |b| == 17 + FileMetaSize(v3)
  {
    [TAG_FILE] + (U64(from) + (U64(to) + Zeros(FileMetaSize(v3))))
  }

  /** The start of a directory whose entries, with what precedes them, take `length` bytes. */
  function Front(v3: bool, length: nat): (b: seq<Byte>)
    ensures |b| == 9 + DirMetaSize(v3)
  {
    [TAG_DIRECTORY] + (U64(length) + Zeros(DirMetaSize(v3)))
  }

  /** A directory up to its entries. */
  function DirFront(v3: bool, es: Entries): (b: seq<Byte>)
    ensures |b| == 9 + DirMetaSize(v3)
  {
    Front(v3, DirMetaSize(v3) + BlockSize(v3, es))
  }

  function DirHeader(v3: bool, es: Entries, at: nat): (b: seq<Byte>)
    ensures |b| == ChildStart(v3, es)
  {
    DirFront(v3, es) + Block(v3, es, at)
  }

  /** The header bytes of `t` when they start at `at` and its data starts at `from`. */
  function TreeHeader(v3: bool, t: Tree, at: nat, from: nat): (b: seq<Byte>)
    ensures |b| == TreeSize(v3, t)
  {
    match t
    case File(bytes) => FileHeader(v3, from, from + |bytes|)
    case Dir(es) =>
      var first := at + ChildStart(v3, es);
      DirHeader(v3, es, first) + ChildrenHeader(v3, es, first, from)
  }

  function ChildrenHeader(v3: bool, es: Entries, at: nat, from: nat): (b: seq<Byte>)
    ensures |b| == ChildrenSize(v3, es)
  {
    if es.Empty? then []
    else
      TreeHeader(v3, es.child, at, from) +
      ChildrenHeader(v3, es.rest, at + TreeSize(v3, es.child), from + |TreeData(es.child)|)
  }

  /** The file contents, one after the other. */
  function TreeData(t: Tree): seq<Byte> {
    match t
    case File(bytes) => bytes
    case Dir(es) => ChildrenData(es)
  }

  function ChildrenData(es: Entries): seq<Byte> {
    if es.Empty? then [] else TreeData(es.child) + ChildrenData(es.rest)
  }

  // ----- The writer -----

  /** `b` with the eight bytes at `at` replaced by `v`. */
  function Patched(b: seq<Byte>, at: nat, v: nat): (r: seq<Byte>)
    requires at + 8 <= |b|
    ensures |r| == |b|
  {
    b[..at] + U64(v) + b[at + 8..]
  }

  lemma PatchInside(pre: seq<Byte>, old8: seq<Byte>, post: seq<Byte>, v: nat)
    requires |old8| == 8
    ensures Patched(pre + (old8 + post), |pre|, v) == pre + (U64(v) + post)
  {
    var b := pre + (old8 + post);
    assert b[..|pre|] == pre;
    assert b[|pre| + 8..] == post;
  }

  /** The entries block before any offset is patched in. */
  function Blank(v3: bool, es: Entries): (b: seq<Byte>)
    ensures |b| == BlockSize(v3, es)
  {
    if es.Empty? then [] else Head(v3, es.name, 0) + Blank(v3, es.rest)
  }

  /** A patch still to be made: where, and for which entry. */
  datatype Patches = Done | Patch(at: nat, child: Tree, rest: Patches)

  /** The patches of `es` when its block starts at `at`. */
  function PatchesOf(v3: bool, es: Entries, at: nat): Patches {
    if es.Empty? then Done else Patch(at, es.child, PatchesOf(v3, es.rest, at + HeadSize(v3, es.name)))
  }

  function PushPatch(ps: Patches, at: nat, child: Tree): Patches {
    if ps.Done? then Patch(at, child, Done) else Patch(ps.at, ps.child, PushPatch(ps.rest, at, child))
  }

  function JoinPatches(ps: Patches, qs: Patches): Patches {
    if ps.Done? then qs else Patch(ps.at, ps.child, JoinPatches(ps.rest, qs))
  }

  lemma {:induction false} PushIsJoin(ps: Patches, at: nat, child: Tree, qs: Patches)
    ensures JoinPatches(PushPatch(ps, at, child), qs) == JoinPatches(ps, Patch(at, child, qs))
  {
    if ps.Patch? {
      PushIsJoin(ps.rest, at, child, qs);
    }
  }

  lemma {:induction false} JoinDone(ps: Patches)
    ensures JoinPatches(ps, Done) == ps
  {
    if ps.Patch? {
      JoinDone(ps.rest);
    }
  }

  lemma HeadParts(v3: bool, pre: seq<Byte>, name: Text)
    ensures pre + U64(0) + Zeros(HashSize(v3)) + U64(|name|) + name == pre + Head(v3, name, 0)
  {
    Regroup4(pre, U64(0), Zeros(HashSize(v3)), U64(|name|), name);
  }

  lemma Regroup4(a: seq<Byte>, b: seq<Byte>, c: seq<Byte>, d: seq<Byte>, e: seq<Byte>)
    ensures a + b + c + d + e == a + (b + (c + (d + e)))
  {
  }

  lemma NothingMore(a: seq<Byte>)
    ensures a + Zeros(0) == a
  {
  }

  /** A directory with its entries, once its length is patched in. */
  lemma PatchLength(v3: bool, pre: seq<Byte>, entries: seq<Byte>, length: nat)
    ensures Patched(pre + [TAG_DIRECTORY] + U64(0) + Zeros(DirMetaSize(v3)) + entries, |pre| + 1, length)
         == (pre + Front(v3, length)) + entries
  {
    PatchThird(pre, [TAG_DIRECTORY], U64(0), Zeros(DirMetaSize(v3)), entries, length);
  }

  lemma PatchThird(a: seq<Byte>, b: seq<Byte>, c: seq<Byte>, d: seq<Byte>, e: seq<Byte>, v: nat)
    requires |c| == 8
    ensures Patched(a + b + c + d + e, |a| + |b|, v) == (a + (b + (U64(v) + d))) + e
  {
    assert a + b + c + d + e == (a + b) + (c + (d + e));
    PatchInside(a + b, c, d + e, v);
    assert (a + b) + (U64(v) + (d + e)) == (a + (b + (U64(v) + d))) + e;
  }

  /** `total` is `front`, then the entries of `es`, then its children from `at` on. */
  ghost predicate Whole(v3: bool, total: seq<Byte>, front: seq<Byte>, es: Entries, at: nat, from: nat) {
    forall u {:trigger AskHead(u)} :: AskHead(u) ==>
      total == front + (Block(v3, es, at) + ChildrenHeader(v3, es, at, from))
  }

  lemma DirLaid(v3: bool, es: Entries, at: nat, from: nat, first: nat)
    requires first == at + ChildStart(v3, es)
    ensures TreeHeader(v3, Dir(es), at, from) == (DirFront(v3, es) + Block(v3, es, first)) + ChildrenHeader(v3, es, first, from)
  {
  }

  lemma WholeIs(v3: bool, total: seq<Byte>, front: seq<Byte>, es: Entries, first: nat, from: nat)
    requires total == front + (Block(v3, es, first) + ChildrenHeader(v3, es, first, from))
    ensures Whole(v3, total, front, es, first, from)
  {
  }

  lemma DirWhole(v3: bool, pre: seq<Byte>, es: Entries, at: nat, from: nat)
    ensures Whole(v3, pre + TreeHeader(v3, Dir(es), at, from), pre + DirFront(v3, es), es, at + ChildStart(v3, es), from)
  {
    var first := at + ChildStart(v3, es);
    DirLaid(v3, es, at, from, first);
    Regroup3(pre, DirFront(v3, es), Block(v3, es, first), ChildrenHeader(v3, es, first, from));
    WholeIs(v3, pre + TreeHeader(v3, Dir(es), at, from), pre + DirFront(v3, es), es, first, from);
  }

  lemma FrontSize(v3: bool, pre: seq<Byte>, es: Entries)
    ensures |(pre + DirFront(v3, es)) + Blank(v3, es)| == |pre| + ChildStart(v3, es)
  {
  }

  lemma Regroup3(a: seq<Byte>, b: seq<Byte>, c: seq<Byte>, d: seq<Byte>)
    ensures (a + b) + (c + d) == a + ((b + c) + d)
  {
  }

  lemma BlankStep(v3: bool, pre: seq<Byte>, es: Entries)
    requires es.Entry?
    ensures pre + Blank(v3, es) == (pre + Head(v3, es.name, 0)) + Blank(v3, es.rest)
  {
  }

  lemma DataStep(pre: seq<Byte>, es: Entries)
    requires es.Entry?
    ensures pre + ChildrenData(es) == (pre + TreeData(es.child)) + ChildrenData(es.rest)
  {
  }

  lemma Regroup(a: seq<Byte>, b: seq<Byte>, c: seq<Byte>, d: seq<Byte>, e: seq<Byte>, f: seq<Byte>)
    ensures a + ((b + c) + (d + (e + f))) == (a + b) + (c + ((d + e) + f))
  {
    assert a + ((b + c) + (d + (e + f))) == a + b + c + d + e + f;
    assert (a + b) + (c + ((d + e) + f)) == a + b + c + d + e + f;
  }

  /** Patching the first blank entry of a block with the offset of the child just written. */
  lemma PatchHead(v3: bool, pre: seq<Byte>, name: Text, blank: seq<Byte>, tail: seq<Byte>, child: seq<Byte>, start: nat)
    ensures |pre| + 8 <= |pre + ((Head(v3, name, 0) + blank) + tail) + child|
    ensures Patched(pre + ((Head(v3, name, 0) + blank) + tail) + child, |pre|, start)
         == (pre + Head(v3, name, start)) + (blank + (tail + child))
  {
    PatchFirst(pre, U64(0), Zeros(HashSize(v3)) + (U64(|name|) + name), blank, tail, child, start);
  }

  lemma PatchFirst(a: seq<Byte>, b: seq<Byte>, c: seq<Byte>, d: seq<Byte>, e: seq<Byte>, f: seq<Byte>, v: nat)
    requires |b| == 8
    ensures Patched(a + (((b + c) + d) + e) + f, |a|, v) == (a + (U64(v) + c)) + (d + (e + f))
  {
    var post := c + (d + (e + f));
    assert a + (((b + c) + d) + e) + f == a + (b + post);
    PatchInside(a, b, post, v);
    assert a + (U64(v) + post) == (a + (U64(v) + c)) + (d + (e + f));
  }

  /** The whole directory, given what is already in place: `pre` up to the entries still to be
      patched, `tail` the children already written. */
  ghost function Finished(v3: bool, pre: seq<Byte>, es: Entries, tail: seq<Byte>, at: nat, from: nat): seq<Byte> {
    pre + (Block(v3, es, at) + (tail + ChildrenHeader(v3, es, at, from)))
  }

  lemma FinishedStep(v3: bool, pre: seq<Byte>, es: Entries, tail: seq<Byte>, at: nat, from: nat)
    requires es.Entry?
    ensures Finished(v3, pre, es, tail, at, from)
         == Finished(v3, pre + Head(v3, es.name, at), es.rest, tail + TreeHeader(v3, es.child, at, from),
                     at + TreeSize(v3, es.child), from + |TreeData(es.child)|)
  {
    var next, more := at + TreeSize(v3, es.child), from + |TreeData(es.child)|;
    FinishedParts(v3, pre, es, tail, at, from, next, more);
    Regroup(pre, Head(v3, es.name, at), Block(v3, es.rest, next), tail, TreeHeader(v3, es.child, at, from),
            ChildrenHeader(v3, es.rest, next, more));
  }

  lemma FinishedParts(v3: bool, pre: seq<Byte>, es: Entries, tail: seq<Byte>, at: nat, from: nat, next: nat, more: nat)
    requires es.Entry? && next == at + TreeSize(v3, es.child) && more == from + |TreeData(es.child)|
    ensures Finished(v3, pre, es, tail, at, from)
         == pre + ((Head(v3, es.name, at) + Block(v3, es.rest, next))
                   + (tail + (TreeHeader(v3, es.child, at, from) + ChildrenHeader(v3, es.rest, next, more))))
  {
  }

  lemma FinishedEnd(v3: bool, pre: seq<Byte>, tail: seq<Byte>, at: nat, from: nat)
    ensures Finished(v3, pre, Empty, tail, at, from) == pre + tail
  {
    assert [] + (tail + []) == tail;
  }

  /** The loop over the patches: `done` is final, the entries `left` are still blank, `tail`
      are the children written so far; the next child goes to `at`, its data to `from`. */
  datatype Progress = Progress(left: Entries, done: seq<Byte>, tail: seq<Byte>, at: nat, from: nat)

  predicate AskProgress(u: int, left: Entries) {
    true
  }

  ghost predicate InProgress(v3: bool, header: seq<Byte>, data: seq<Byte>, p: Progress, total: seq<Byte>, content: seq<Byte>) {
    forall u {:trigger AskProgress(u, p.left)} :: AskProgress(u, p.left) ==>
      && p.at == |header| && p.from == |data|
      && header == p.done + (Blank(v3, p.left) + p.tail)
      && Finished(v3, p.done, p.left, p.tail, p.at, p.from) == total
      && data + ChildrenData(p.left) == content
  }

  lemma ProgressStart(v3: bool, header: seq<Byte>, data: seq<Byte>, at: nat, from: nat, es: Entries, pre: seq<Byte>, total: seq<Byte>)
    requires at == |header| && from == |data| && header == pre + Blank(v3, es) && Whole(v3, total, pre, es, at, from)
    ensures InProgress(v3, header, data, Progress(es, pre, [], at, from), total, data + ChildrenData(es))
  {
    assert AskHead(0);
    assert Blank(v3, es) + [] == Blank(v3, es);
    assert [] + ChildrenHeader(v3, es, at, from) == ChildrenHeader(v3, es, at, from);
  }

  lemma ProgressNow(v3: bool, h: seq<Byte>, d: seq<Byte>, p: Progress, total: seq<Byte>, content: seq<Byte>)
    requires p.left.Entry? && InProgress(v3, h, d, p, total, content)
    ensures p.at == |h| && p.from == |d|
    ensures h == p.done + ((Head(v3, p.left.name, 0) + Blank(v3, p.left.rest)) + p.tail)
  {
    assert AskProgress(0, p.left);
  }

  function NextProgress(v3: bool, p: Progress): Progress
    requires p.left.Entry?
  {
    var child := p.left.child;
    Progress(p.left.rest, p.done + Head(v3, p.left.name, p.at), p.tail + TreeHeader(v3, child, p.at, p.from),
             p.at + TreeSize(v3, child), p.from + |TreeData(child)|)
  }

  lemma ProgressSize(v3: bool, h: seq<Byte>, p: Progress, h': seq<Byte>, child: seq<Byte>)
    requires p.left.Entry? && h == p.done + (Blank(v3, p.left) + p.tail) && |child| == TreeSize(v3, p.left.child)
    requires h' == (p.done + Head(v3, p.left.name, p.at)) + (Blank(v3, p.left.rest) + (p.tail + child))
    ensures |h'| == |h| + TreeSize(v3, p.left.child)
  {
    BlankSize(v3, p.left);
  }

  lemma ProgressIs(v3: bool, header: seq<Byte>, data: seq<Byte>, p: Progress, total: seq<Byte>, content: seq<Byte>)
    requires p.at == |header| && p.from == |data| && header == p.done + (Blank(v3, p.left) + p.tail)
    requires Finished(v3, p.done, p.left, p.tail, p.at, p.from) == total && data + ChildrenData(p.left) == content
    ensures InProgress(v3, header, data, p, total, content)
  {
  }

  lemma ProgressStep(v3: bool, h: seq<Byte>, d: seq<Byte>, p: Progress, h': seq<Byte>, d': seq<Byte>,
    total: seq<Byte>, content: seq<Byte>)
    requires p.left.Entry? && InProgress(v3, h, d, p, total, content)
    requires h' == (p.done + Head(v3, p.left.name, p.at)) +
                   (Blank(v3, p.left.rest) + (p.tail + TreeHeader(v3, p.left.child, p.at, p.from)))
    requires d' == d + TreeData(p.left.child)
    ensures InProgress(v3, h', d', NextProgress(v3, p), total, content)
  {
    assert AskProgress(0, p.left);
    ProgressSize(v3, h, p, h', TreeHeader(v3, p.left.child, p.at, p.from));
    FinishedStep(v3, p.done, p.left, p.tail, p.at, p.from);
    DataStep(d, p.left);
    ProgressIs(v3, h', d', NextProgress(v3, p), total, content);
  }

  lemma BlankSize(v3: bool, es: Entries)
    requires es.Entry?
    ensures |Blank(v3, es)| == HeadSize(v3, es.name) + |Blank(v3, es.rest)|
  {
  }

  lemma ProgressEnd(v3: bool, h: seq<Byte>, d: seq<Byte>, p: Progress, total: seq<Byte>, content: seq<Byte>)
    requires p.left.Empty? && InProgress(v3, h, d, p, total, content)
    ensures h == total && d == content
  {
    assert AskProgress(0, p.left);
    FinishedEnd(v3, p.done, p.tail, p.at, p.from);
    assert [] + p.tail == p.tail;
    assert d + [] == d;
  }

  class Writer {
    const v3: bool
    var header: seq<Byte>
    var data: seq<Byte>

    constructor (v3: bool)
      ensures this.v3 == v3 && header == [] && data == []
    {
      this.v3 := v3;
      header, data := [], [];
    }

    method PatchU64(at: nat, value: nat)
      requires at + 8 <= |header|
      modifies this`header
      ensures header == Patched(old(header), at, value)
    {
      var bytes := U64(value);
      header := header[..at] + bytes + header[at + 8..];
    }

    method SerializeFile(bytes: seq<Byte>) returns (start: nat)
      modifies this
      ensures start == |old(header)|
      ensures header == old(header) + FileHeader(v3, |old(data)|, |old(data)| + |bytes|)
      ensures data == old(data) + bytes
    {
      var dataStart := |data|;
      data := data + bytes;
      var dataEnd := |data|;
      start := |header|;
      header := header + [TAG_FILE];
      header := header + U64(dataStart);
      header := header + U64(dataEnd);
      ghost var before := header;
      header := header + Zeros(32);
      if v3 {
        header := header + Zeros(24);
      }
      assert header == before + Zeros(FileMetaSize(v3));
      Regroup4(old(header), [TAG_FILE], U64(dataStart), U64(dataEnd), Zeros(FileMetaSize(v3)));
    }

    /** One directory entry, its offset left zero. */
    method WriteHead(name: Text)
      modifies this`header
      ensures header == old(header) + Head(v3, name, 0)
    {
      header := header + U64(0);
      NothingMore(header);
      if v3 {
        header := header + Zeros(32);
      }
      header := header + U64(|name|);
      header := header + name;
      HeadParts(v3, old(header), name);
    }

    /** Appends one blank entry for each of `es`, and notes where each offset goes. */
    method WriteEntries(es: Entries) returns (patches: Patches)
      modifies this`header
      ensures header == old(header) + Blank(v3, es)
      ensures patches == PatchesOf(v3, es, |old(header)|)
    {
      patches := Done;
      var todo := es;
      ghost var all := PatchesOf(v3, es, |header|);
      ghost var total := header + Blank(v3, es);
      while todo.Entry?
        invariant header + Blank(v3, todo) == total
        invariant JoinPatches(patches, PatchesOf(v3, todo, |header|)) == all
        decreases todo
      {
        var offset := |header|;
        BlankStep(v3, header, todo);
        PushIsJoin(patches, offset, todo.child, PatchesOf(v3, todo.rest, offset + HeadSize(v3, todo.name)));
        WriteHead(todo.name);
        patches := PushPatch(patches, offset, todo.child);
        todo := todo.rest;
      }
      assert header + [] == header;
      JoinDone(patches);
    }

    /** Writes a child after everything so far, then patches its offset in at `slot`. */
    method WriteChild(slot: nat, child: Tree, ghost at: nat, ghost from: nat,
      ghost done: seq<Byte>, ghost name: Text, ghost blank: seq<Byte>, ghost tail: seq<Byte>)
      requires at == |header| && from == |data|
      requires slot == |done| && header == done + ((Head(v3, name, 0) + blank) + tail)
      modifies this
      ensures header == (done + Head(v3, name, at)) + (blank + (tail + TreeHeader(v3, child, at, from)))
      ensures data == old(data) + TreeData(child)
      decreases child, 4
    {
      PatchHead(v3, done, name, blank, tail, TreeHeader(v3, child, at, from), at);
      var start := SerializeEntry(child, at, from);
      PatchU64(slot, start);
    }

    /** One turn of the loop over the patches. */
    method NextChild(slot: nat, child: Tree, ghost p: Progress, ghost total: seq<Byte>, ghost content: seq<Byte>)
      returns (ghost p': Progress)
      requires p.left.Entry? && slot == |p.done| && child == p.left.child
      requires InProgress(v3, header, data, p, total, content)
      modifies this
      ensures InProgress(v3, header, data, p', total, content)
      ensures p'.left == p.left.rest && |p'.done| == slot + HeadSize(v3, p.left.name)
      decreases child, 5
    {
      ProgressNow(v3, header, data, p, total, content);
      WriteChild(slot, child, p.at, p.from, p.done, p.left.name, Blank(v3, p.left.rest), p.tail);
      ProgressStep(v3, old(header), old(data), p, header, data, total, content);
      p' := NextProgress(v3, p);
    }

    /** Writes the children one by one, patching the offset of each into its entry. */
    method WriteChildren(ghost es: Entries, patches: Patches, ghost pre: seq<Byte>, ghost at: nat, ghost from: nat, ghost total: seq<Byte>)
      requires at == |header| && from == |data|
      requires patches == PatchesOf(v3, es, |pre|) && header == pre + Blank(v3, es)
      requires Whole(v3, total, pre, es, at, from)
      modifies this
      ensures header == total
      ensures data == old(data) + ChildrenData(es)
      decreases es, 1
    {
      var todo := patches;
      ghost var content := data + ChildrenData(es);
      ghost var p := Progress(es, pre, [], at, from);
      ProgressStart(v3, header, data, at, from, es, pre, total);
      while todo.Patch?
        invariant todo == PatchesOf(v3, p.left, |p.done|)
        invariant InProgress(v3, header, data, p, total, content)
        invariant p.left == es || p.left < es
        decreases todo
      {
        p := NextChild(todo.at, todo.child, p, total, content);
        todo := todo.rest;
      }
      ProgressEnd(v3, header, data, p, total, content);
    }

    /** The tag, room for the length, and what version 3 adds. */
    method WriteStart() returns (lengthOffset: nat, entriesStart: nat)
      modifies this`header
      ensures lengthOffset == |old(header)| + 1 && entriesStart == |old(header)| + 9
      ensures header == old(header) + [TAG_DIRECTORY] + U64(0) + Zeros(DirMetaSize(v3))
    {
      header := header + [TAG_DIRECTORY];
      lengthOffset := |header|;
      header := header + U64(0);
      entriesStart := |header|;
      NothingMore(header);
      if v3 {
        header := header + Zeros(56);
      }
    }

    /** The directory up to its children: its length patched in, its entries still blank. */
    method WriteFront(es: Entries) returns (patches: Patches)
      modifies this`header
      ensures header == (old(header) + DirFront(v3, es)) + Blank(v3, es)
      ensures patches == PatchesOf(v3, es, |old(header) + DirFront(v3, es)|)
    {
      var lengthOffset, entriesStart := WriteStart();
      ghost var start := header;
      patches := WriteEntries(es);
      assert header == start + Blank(v3, es);
      PatchLength(v3, old(header), Blank(v3, es), DirMetaSize(v3) + BlockSize(v3, es));
      PatchU64(lengthOffset, |header| - entriesStart);
    }

    /** A directory whose layout is `total`. */
    method WriteDirectory(es: Entries, ghost front: seq<Byte>, ghost first: nat, ghost from: nat, ghost total: seq<Byte>)
      requires front == header + DirFront(v3, es) && first == |header| + ChildStart(v3, es) && from == |data|
      requires Whole(v3, total, front, es, first, from)
      modifies this
      ensures header == total && data == old(data) + ChildrenData(es)
      decreases es, 2
    {
      FrontSize(v3, header, es);
      var patches := WriteFront(es);
      WriteChildren(es, patches, front, first, from, total);
    }

    method SerializeDirectory(es: Entries, ghost at: nat, ghost from: nat) returns (start: nat)
      requires at == |header| && from == |data|
      modifies this
      ensures start == at
      ensures header == old(header) + TreeHeader(v3, Dir(es), at, from)
      ensures data == old(data) + TreeData(Dir(es))
      decreases es, 3
    {
      start := |header|;
      ghost var total := header + TreeHeader(v3, Dir(es), at, from);
      DirWhole(v3, header, es, at, from);
      WriteDirectory(es, header + DirFront(v3, es), at + ChildStart(v3, es), from, total);
    }

    method SerializeEntry(t: Tree, ghost at: nat, ghost from: nat) returns (start: nat)
      requires at == |header| && from == |data|
      modifies this
      ensures start == at
      ensures header == old(header) + TreeHeader(v3, t, at, from)
      ensures data == old(data) + TreeData(t)
      decreases t, 3
    {
      match t
      case File(bytes) => start := SerializeFile(bytes);
      case Dir(es) => start := SerializeDirectory(es, at, from);
    }
  }
}
