/** Directory listings as `fd_readdir` hands them out: serialized entries, cut off where the
    guest's buffer ends, resumed at a cookie. */
module Readdir {
  import opened Bytes

  /** A child; its name in UTF-8. */
  datatype Child = Child(name: Text, isDirectory: bool)

  datatype Children = Nil | Cons(head: Child, tail: Children)

  function Count(es: Children): nat {
    if es.Nil? then 0 else 1 + Count(es.tail)
  }

  function Drop(es: Children, n: nat): Children {
    if es.Nil? || n == 0 then es else Drop(es.tail, n - 1)
  }

  const DIRENT_SIZE: nat := 24
  const DIRECTORY: Byte := 3
  const REGULAR_FILE: Byte := 4

  /** The fixed part of an entry: the cookie after it, twice, the length of its name, its type. */
  function Dirent(e: Child, next: nat): (b: seq<Byte>)
    ensures |b| == DIRENT_SIZE
  {
    LeBytes(next, 8) + (LeBytes(next, 8) + (LeBytes(|e.name|, 4) + ([if e.isDirectory then DIRECTORY else REGULAR_FILE] + [0, 0, 0])))
  }

  function EntryBytes(e: Child, next: nat): (b: seq<Byte>)
    ensures |b| == DIRENT_SIZE + |e.name|
  {
    Dirent(e, next) + e.name
  }

  /** All entries, the first of them with the cookie `at`. */
  function Serialized(es: Children, at: nat): seq<Byte> {
    if es.Nil? then [] else EntryBytes(es.head, at + 1) + Serialized(es.tail, at + 1)
  }

  function Prefix(b: seq<Byte>, room: nat): seq<Byte> {
    if |b| <= room then b else b[..room]
  }

  // ----- The call -----

  /** `copyPartial`: as much of `source` as there is room for. */
  function CopyPartial(output: seq<Byte>, source: seq<Byte>, room: nat): seq<Byte>
    requires |output| <= room
  {
    output + Prefix(source, room - |output|)
  }

  lemma CopyWhole(output: seq<Byte>, source: seq<Byte>, rest: seq<Byte>, room: nat)
    requires |output| + |source| <= room
    ensures CopyPartial(output, source, room) == output + source
    ensures output + Prefix(source + rest, room - |output|) == (output + source) + Prefix(rest, room - |output + source|)
  {
  }

  lemma CopyCut(output: seq<Byte>, source: seq<Byte>, rest: seq<Byte>, room: nat)
    requires |output| <= room < |output| + |source|
    ensures output + Prefix(source + rest, room - |output|) == CopyPartial(output, source, room)
    ensures |CopyPartial(output, source, room)| == room
  {
    var n := room - |output|;
    assert (source + rest)[..n] == source[..n];
  }

  lemma NothingLeft(output: seq<Byte>, room: nat)
    requires |output| <= room
    ensures output + Prefix([], room - |output|) == output
  {
  }

  // What the entries serialize to is passed around unopened.

  predicate AskEntry(u: int) {
    true
  }

  predicate AskFrom(at: nat, u: int) {
    true
  }

  ghost predicate DirentIs(b: seq<Byte>, e: Child, next: nat) {
    |b| == DIRENT_SIZE && forall u {:trigger AskEntry(u)} :: AskEntry(u) ==> b == Dirent(e, next)
  }

  ghost predicate EntryIs(b: seq<Byte>, e: Child, next: nat) {
    |b| == DIRENT_SIZE + |e.name| && forall u {:trigger AskEntry(u)} :: AskEntry(u) ==> b == EntryBytes(e, next)
  }

  ghost predicate AllIs(b: seq<Byte>, es: Children, at: nat) {
    forall u {:trigger AskFrom(at, u)} :: AskFrom(at, u) ==> b == Serialized(es, at)
  }

  lemma AllUnfolds(b: seq<Byte>, es: Children, at: nat) returns (first: seq<Byte>, rest: seq<Byte>)
    requires AllIs(b, es, at) && es.Cons?
    ensures b == first + rest && EntryIs(first, es.head, at + 1) && AllIs(rest, es.tail, at + 1)
  {
    assert AskFrom(at, 0);
    first, rest := EntryBytes(es.head, at + 1), Serialized(es.tail, at + 1);
  }

  lemma AllEnds(b: seq<Byte>, es: Children, at: nat)
    requires AllIs(b, es, at) && es.Nil?
    ensures b == []
  {
    assert AskFrom(at, 0);
  }

  lemma EntryJoins(first: seq<Byte>, dirent: seq<Byte>, e: Child, next: nat)
    requires EntryIs(first, e, next) && DirentIs(dirent, e, next)
    ensures first == dirent + e.name
  {
    assert AskEntry(0);
  }

  method DirentBytes(e: Child, next: nat) returns (b: seq<Byte>)
    ensures DirentIs(b, e, next)
  {
    b := Dirent(e, next);
  }

  /** One piece after the other, the second only if the first fits. */
  method CopyPieces(output: seq<Byte>, dirent: seq<Byte>, name: seq<Byte>, room: nat, ghost rest: seq<Byte>) returns (out: seq<Byte>, whole: bool)
    requires |output| <= room
    ensures whole == (|output| + |dirent| + |name| <= room)
    ensures whole ==> out == output + (dirent + name)
    ensures !whole ==> out == output + Prefix((dirent + name) + rest, room - |output|)
    ensures |out| <= room
  {
    assert (dirent + name) + rest == dirent + (name + rest);
    out := CopyPartial(output, dirent, room);
    if |out| - |output| != |dirent| {
      CopyCut(output, dirent, name + rest, room);
      return out, false;
    }
    CopyWhole(output, dirent, name + rest, room);
    var before := out;
    out := CopyPartial(out, name, room);
    if |out| - |before| != |name| {
      CopyCut(before, name, rest, room);
      return out, false;
    }
    assert out == output + (dirent + name);
    whole := true;
  }

  predicate AskCopied(u: int, left: seq<Byte>) {
    true
  }

  /** With `out` copied and `left` to go, the whole comes to as much of `bytes` as there is room for. */
  ghost predicate Copied(out: seq<Byte>, left: seq<Byte>, room: nat, bytes: seq<Byte>) {
    forall u {:trigger AskCopied(u, left)} :: AskCopied(u, left) ==> |out| <= room && out + Prefix(left, room - |out|) == Prefix(bytes, room)
  }

  lemma CopiedNothing(bytes: seq<Byte>, room: nat)
    ensures Copied([], bytes, room, bytes)
  {
    assert [] + Prefix(bytes, room) == Prefix(bytes, room);
  }

  lemma CopiedMore(before: seq<Byte>, out: seq<Byte>, first: seq<Byte>, rest: seq<Byte>, left: seq<Byte>, room: nat, bytes: seq<Byte>)
    requires Copied(before, left, room, bytes) && left == first + rest && out == before + first && |out| <= room
    ensures Copied(out, rest, room, bytes)
  {
    assert AskCopied(0, left);
    CopyWhole(before, first, rest, room);
  }

  lemma CopiedLast(before: seq<Byte>, out: seq<Byte>, left: seq<Byte>, room: nat, bytes: seq<Byte>)
    requires Copied(before, left, room, bytes) && |before| <= room && out == before + Prefix(left, room - |before|)
    ensures out == Prefix(bytes, room)
  {
    assert AskCopied(0, left);
  }

  lemma CopiedAll(out: seq<Byte>, left: seq<Byte>, room: nat, bytes: seq<Byte>)
    requires Copied(out, left, room, bytes) && left == []
    ensures out == Prefix(bytes, room)
  {
    assert AskCopied(0, left);
    NothingLeft(out, room);
  }

  /** The loop over the entries still to be copied, which serialize to `left`. */
  method CopyEntries(entries: Children, at: nat, room: nat, ghost bytes: seq<Byte>) returns (out: seq<Byte>)
    requires AllIs(bytes, entries, at)
    ensures out == Prefix(bytes, room)
  {
    var todo, index := entries, at;
    ghost var left := bytes;
    out := [];
    CopiedNothing(bytes, room);
    while todo.Cons?
      invariant AllIs(left, todo, index) && |out| <= room && Copied(out, left, room, bytes)
      decreases todo
    {
      ghost var first, rest := AllUnfolds(left, todo, index);
      ghost var before := out;
      var dirent := DirentBytes(todo.head, index + 1);
      EntryJoins(first, dirent, todo.head, index + 1);
      var whole;
      out, whole := CopyPieces(out, dirent, todo.head.name, room, rest);
      if !whole {
        CopiedLast(before, out, left, room, bytes);
        return;
      }
      CopiedMore(before, out, first, rest, left, room, bytes);
      left, todo, index := rest, todo.tail, index + 1;
    }
    AllEnds(left, todo, index);
    CopiedAll(out, left, room, bytes);
  }

  /** `fd_readdir` from a cookie: exactly the longest part of the serialized entries that fits;
      a cookie that is not a safe integer is refused. */
  method FdReaddir(entries: Children, room: nat, cookie: int) returns (r: Option<seq<Byte>>)
    ensures r == if 0 <= cookie <= MAX_SAFE then Some(Prefix(Serialized(Drop(entries, cookie), cookie), room)) else None
  {
    if cookie < 0 || cookie > MAX_SAFE {
      return None;
    }
    ghost var bytes := Serialized(Drop(entries, cookie), cookie);
    var out := CopyEntries(Drop(entries, cookie), cookie, room, bytes);
    r := Some(out);
  }

  // ----- What a guest makes of it -----

  /** A complete entry in a buffer: the cookie after it, its name, its type. */
  datatype Record = Record(next: nat, name: Text, kind: Byte)

  datatype Records = NoRecord | OneRecord(first: Record, rest: Records)

  /** The complete entries of a buffer. */
  function Parse(b: seq<Byte>): Records
    decreases |b|
  {
    if |b| < DIRENT_SIZE then NoRecord
    else
      var length := LeValue(b[16..20]);
      if |b| < DIRENT_SIZE + length then NoRecord
      else OneRecord(Record(LeValue(b[..8]), b[24..24 + length], b[20]), Parse(b[24 + length..]))
  }

  function RecordOf(e: Child, next: nat): Record {
    Record(next, e.name, if e.isDirectory then DIRECTORY else REGULAR_FILE)
  }

  /** The first `n` entries, as records. */
  function RecordsOf(es: Children, at: nat, n: nat): Records {
    if es.Nil? || n == 0 then NoRecord else OneRecord(RecordOf(es.head, at + 1), RecordsOf(es.tail, at + 1, n - 1))
  }

  /** How many entries fit completely. */
  function Fitting(es: Children, room: nat): (n: nat)
    ensures n <= Count(es)
  {
    if es.Nil? || DIRENT_SIZE + |es.head.name| > room then 0
    else 1 + Fitting(es.tail, room - DIRENT_SIZE - |es.head.name|)
  }


  /** Name lengths and cookies fit the fields they are written to. */
  predicate Representable(es: Children, at: nat) {
    at + Count(es) <= 9007199254740991 && NamesFit(es)
  }

  predicate NamesFit(es: Children) {
    es.Cons? ==> |es.head.name| < 4294967296 && NamesFit(es.tail)
  }

  lemma Four(v: nat)
    requires v < TWO32
    ensures LeValue(LeBytes(v, 4)) == v
  {
    assert Pow256(4) == TWO32 by {
      assert Pow256(1) == 256 && Pow256(2) == 65536;
    }
    LeValueOfBytes(v, 4);
  }

  lemma Eight(v: nat)
    requires v <= MAX_SAFE
    ensures LeValue(LeBytes(v, 8)) == v
  {
    SafeFitsEightBytes();
    LeValueOfBytes(v, 8);
  }

  /** An entry byte for byte: the cookie after it, twice, the length of its name, 3 for a directory or
      4 for a file, three zeros and the name. */
  lemma EntryInBytes(e: Child, next: nat)
    ensures EntryBytes(e, next) ==
            (Word(next) + (Word(next) + (HalfWord(|e.name|) + [if e.isDirectory then 3 else 4, 0, 0, 0]))) + e.name
  {
    U64Bytes(next);
    WordIs(next);
    HalfWordIs(|e.name|);
    var kind: Byte := if e.isDirectory then 3 else 4;
    assert [kind] + [0, 0, 0] == [kind, 0, 0, 0];
  }

  lemma DirentParts(e: Child, next: nat, rest: seq<Byte>)
    ensures var b := EntryBytes(e, next) + rest;
            && b[..8] == LeBytes(next, 8) && b[16..20] == LeBytes(|e.name|, 4)
            && b[20] == (if e.isDirectory then DIRECTORY else REGULAR_FILE)
            && b[24..24 + |e.name|] == e.name && b[24 + |e.name|..] == rest
  {
    var kind: seq<Byte> := [if e.isDirectory then DIRECTORY else REGULAR_FILE];
    DirentSplit(LeBytes(next, 8), LeBytes(|e.name|, 4), kind, e.name, rest);
  }

  lemma DirentSplit(eight: seq<Byte>, four: seq<Byte>, kind: seq<Byte>, name: seq<Byte>, rest: seq<Byte>)
    requires |eight| == 8 && |four| == 4 && |kind| == 1
    ensures var b := ((eight + (eight + (four + (kind + [0, 0, 0])))) + name) + rest;
            && |b| == 24 + |name| + |rest|
            && b[..8] == eight && b[16..20] == four && b[20] == kind[0] && b[24..24 + |name|] == name && b[24 + |name|..] == rest
  {
  }

  lemma ParseStep(e: Child, next: nat, rest: seq<Byte>)
    requires |e.name| < TWO32 && next <= MAX_SAFE
    ensures Parse(EntryBytes(e, next) + rest) == OneRecord(RecordOf(e, next), Parse(rest))
  {
    DirentParts(e, next, rest);
    Four(|e.name|);
    Eight(next);
  }

  /** Less than a whole entry holds no record. */
  lemma ParseCut(e: Child, next: nat, rest: seq<Byte>, room: nat)
    requires |e.name| < TWO32 && room < |EntryBytes(e, next)|
    ensures Parse((EntryBytes(e, next) + rest)[..room]) == NoRecord
  {
    var all := EntryBytes(e, next) + rest;
    var b := all[..room];
    if room >= DIRENT_SIZE {
      DirentParts(e, next, rest);
      Four(|e.name|);
      assert b[16..20] == all[16..20];
    }
  }

  lemma PrefixWhole(first: seq<Byte>, rest: seq<Byte>, room: nat)
    requires |first| <= room
    ensures Prefix(first + rest, room) == first + Prefix(rest, room - |first|)
  {
  }

  lemma PrefixCut(first: seq<Byte>, rest: seq<Byte>, room: nat)
    requires |first| > room
    ensures Prefix(first + rest, room) == (first + rest)[..room]
  {
  }

  /** A buffer holds exactly the entries that fit, in order, each with the cookie to resume at. */
  lemma BufferParses(es: Children, at: nat, room: nat)
    requires Representable(es, at)
    ensures Parse(Prefix(Serialized(es, at), room)) == RecordsOf(es, at, Fitting(es, room))
  {
    BytesParse(es, at, room, Serialized(es, at));
    assert AskEntry(0);
  }

  ghost predicate ParsesTo(b: seq<Byte>, rs: Records) {
    forall u {:trigger AskEntry(u)} :: AskEntry(u) ==> Parse(b) == rs
  }

  lemma FirstParses(first: seq<Byte>, rest: seq<Byte>, e: Child, next: nat, rs: Records)
    requires EntryIs(first, e, next) && |e.name| < TWO32 && next <= MAX_SAFE && ParsesTo(rest, rs)
    ensures ParsesTo(first + rest, OneRecord(RecordOf(e, next), rs))
  {
    assert AskEntry(0);
    ParseStep(e, next, rest);
  }

  lemma CutParses(first: seq<Byte>, rest: seq<Byte>, e: Child, next: nat, room: nat)
    requires EntryIs(first, e, next) && |e.name| < TWO32 && room < |first|
    ensures ParsesTo((first + rest)[..room], NoRecord)
  {
    assert AskEntry(0);
    ParseCut(e, next, rest, room);
  }

  lemma NoneParses()
    ensures ParsesTo([], NoRecord)
  {
  }

  lemma {:induction false} BytesParse(es: Children, at: nat, room: nat, b: seq<Byte>)
    requires Representable(es, at) && AllIs(b, es, at)
    ensures ParsesTo(Prefix(b, room), RecordsOf(es, at, Fitting(es, room)))
    decreases es
  {
    if es.Nil? {
      AllEnds(b, es, at);
      NoneParses();
    } else {
      var first, rest := AllUnfolds(b, es, at);
      if |first| <= room {
        PrefixWhole(first, rest, room);
        BytesParse(es.tail, at + 1, room - |first|, rest);
        FirstParses(first, Prefix(rest, room - |first|), es.head, at + 1, RecordsOf(es.tail, at + 1, Fitting(es.tail, room - |first|)));
      } else {
        PrefixCut(first, rest, room);
        CutParses(first, rest, es.head, at + 1, room);
      }
    }
  }

  // ----- Listing a whole directory -----

  function Concat(a: Records, b: Records): Records {
    if a.NoRecord? then b else OneRecord(a.first, Concat(a.rest, b))
  }

  /** What a guest collects that resumes at the last complete entry's cookie until a buffer holds
      none. */
  function Collect(entries: Children, cookie: nat, room: nat): Records
    decreases Count(Drop(entries, cookie))
  {
    var left := Drop(entries, cookie);
    var n := Fitting(left, room);
    if n == 0 then NoRecord
    else
      DropMore(entries, cookie, n);
      Concat(Parse(Prefix(Serialized(left, cookie), room)), Collect(entries, cookie + n, room))
  }

  lemma {:induction false} DropMore(es: Children, m: nat, n: nat)
    ensures Drop(es, m + n) == Drop(Drop(es, m), n)
    ensures n <= Count(Drop(es, m)) ==> Count(Drop(es, m + n)) == Count(Drop(es, m)) - n
    decreases m
  {
    if m > 0 && es.Cons? {
      DropMore(es.tail, m - 1, n);
    } else if m == 0 {
      DropCount(es, n);
    } else {
      assert Drop(es, n) == es;
    }
  }

  lemma {:induction false} DropCount(es: Children, n: nat)
    ensures n <= Count(es) ==> Count(Drop(es, n)) == Count(es) - n
    decreases n
  {
    if n > 0 && es.Cons? {
      DropCount(es.tail, n - 1);
    }
  }

  predicate AllFit(es: Children, room: nat) {
    es.Cons? ==> DIRENT_SIZE + |es.head.name| <= room && AllFit(es.tail, room)
  }

  lemma {:induction false} RecordsSplit(es: Children, at: nat, n: nat)
    requires n <= Count(es)
    ensures RecordsOf(es, at, Count(es)) == Concat(RecordsOf(es, at, n), RecordsOf(Drop(es, n), at + n, Count(es) - n))
    decreases n
  {
    if n > 0 {
      RecordsSplit(es.tail, at + 1, n - 1);
    }
  }

  lemma {:induction false} RepresentableDrop(es: Children, at: nat, n: nat)
    requires Representable(es, at) && n <= Count(es)
    ensures Representable(Drop(es, n), at + n)
    decreases n
  {
    if n > 0 {
      RepresentableDrop(es.tail, at + 1, n - 1);
    }
  }

  lemma {:induction false} AllFitDrop(es: Children, room: nat, n: nat)
    requires AllFit(es, room)
    ensures AllFit(Drop(es, n), room)
    decreases n
  {
    if n > 0 && es.Cons? {
      AllFitDrop(es.tail, room, n - 1);
    }
  }

  lemma CollectStep(entries: Children, cookie: nat, room: nat)
    requires Representable(Drop(entries, cookie), cookie)
    ensures var left := Drop(entries, cookie);
            var n := Fitting(left, room);
            Collect(entries, cookie, room) ==
              if n == 0 then NoRecord else Concat(RecordsOf(left, cookie, n), Collect(entries, cookie + n, room))
  {
    BufferParses(Drop(entries, cookie), cookie, room);
  }

  lemma {:induction false} CollectsAll(entries: Children, cookie: nat, room: nat)
    requires Representable(Drop(entries, cookie), cookie) && AllFit(Drop(entries, cookie), room)
    ensures Collect(entries, cookie, room) == RecordsOf(Drop(entries, cookie), cookie, Count(Drop(entries, cookie)))
    decreases Count(Drop(entries, cookie))
  {
    var left := Drop(entries, cookie);
    var n := Fitting(left, room);
    CollectStep(entries, cookie, room);
    if n > 0 {
      DropMore(entries, cookie, n);
      RecordsSplit(left, cookie, n);
      RepresentableDrop(left, cookie, n);
      AllFitDrop(left, room, n);
      CollectsAll(entries, cookie + n, room);
    }
  }

  function Size(rs: Records): nat {
    if rs.NoRecord? then 0 else 1 + Size(rs.rest)
  }

  lemma {:induction false} SizeConcat(a: Records, b: Records)
    ensures Size(Concat(a, b)) == Size(a) + Size(b)
  {
    if a.OneRecord? {
      SizeConcat(a.rest, b);
    }
  }

  lemma {:induction false} SizeOf(es: Children, at: nat, n: nat)
    requires n <= Count(es)
    ensures Size(RecordsOf(es, at, n)) == n
    decreases n
  {
    if n > 0 {
      SizeOf(es.tail, at + 1, n - 1);
    }
  }

  lemma {:induction false} FittingTail(es: Children, room: nat, more: nat)
    requires !AllFit(es, more) && room <= more
    ensures Fitting(es, room) < Count(es) && !AllFit(Drop(es, Fitting(es, room)), more)
    decreases es
  {
    if DIRENT_SIZE + |es.head.name| <= room {
      FittingTail(es.tail, room - DIRENT_SIZE - |es.head.name|, more);
    }
  }

  /** An entry that never fits is never reached. */
  lemma {:induction false} CollectsLess(entries: Children, cookie: nat, room: nat)
    requires Representable(Drop(entries, cookie), cookie) && !AllFit(Drop(entries, cookie), room)
    ensures Size(Collect(entries, cookie, room)) < Count(Drop(entries, cookie))
    decreases Count(Drop(entries, cookie))
  {
    var left := Drop(entries, cookie);
    var n := Fitting(left, room);
    FittingTail(left, room, room);
    CollectStep(entries, cookie, room);
    if n > 0 {
      DropMore(entries, cookie, n);
      SizeOf(left, cookie, n);
      RepresentableDrop(left, cookie, n);
      CollectsLess(entries, cookie + n, room);
      SizeConcat(RecordsOf(left, cookie, n), Collect(entries, cookie + n, room));
    }
  }

  /** Resuming at the last complete cookie lists every child of an unchanged directory, once and in
      order, if and only if the buffer is large enough for each of them. */
  lemma ListsEveryChild(entries: Children, room: nat)
    requires Representable(entries, 0)
    ensures Collect(entries, 0, room) == RecordsOf(entries, 0, Count(entries)) <==> AllFit(entries, room)
  {
    if AllFit(entries, room) {
      CollectsAll(entries, 0, room);
    } else {
      CollectsLess(entries, 0, room);
      SizeOf(entries, 0, Count(entries));
    }
  }
}
