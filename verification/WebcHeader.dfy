/** Volume headers as the metadata parser reads them: a recursive walk over offsets chosen by
    the header itself, guarded by the set of offsets already seen. */
module WebcHeader {
  import opened Bytes
  import opened WebcVolume

  /** A file of a volume: its bytes, its checksum, and where the bytes are in the package. */
  datatype FileRecord = FileRecord(bytes: seq<Byte>, checksum: seq<Byte>, offset: nat, length: nat)

  type Files = map<Text, FileRecord>

  datatype Error = Truncated | TooLarge | Loop | BadTag | BadLength | BadSpan

  /** What a walk works on: the buffers, where the data buffer is in the package, the version. */
  datatype Volume = Volume(header: seq<Byte>, data: seq<Byte>, dataOffset: nat, v3: bool)

  datatype State = State(files: Files, seen: set<nat>)

  datatype Outcome = Parsed(state: State) | Failed(error: Error, visited: set<nat>)

  // ----- Pieces -----

  datatype Number = Num(value: nat) | BadNum(error: Error)

  function ReadU64(b: seq<Byte>, off: nat): (r: Number)
    ensures r.Num? ==> off + 8 <= |b| && r.value <= MAX_SAFE
  {
    if off + 8 > |b| then BadNum(Truncated)
    else
      var v := LeValue(b[off..off + 8]);
      if v > MAX_SAFE then BadNum(TooLarge) else Num(v)
  }

  const SLASH: Byte := 47

  function ChildPath(parent: Text, name: Text): Text {
    if parent == [] then name
    else if parent == [SLASH] then [SLASH] + name
    else parent + [SLASH] + name
  }

  /** `files[path] = record` on a plain object, on which `__proto__` is not a property. */
  function Put(files: Files, path: Text, record: FileRecord): Files {
    if IsProto(path) then files else files[path := record]
  }

  /** A directory's entries: where they start and where they end. */
  datatype DirRead = DirBlock(from: nat, to: nat) | BadDir(error: Error)

  function ReadDir(b: seq<Byte>, v3: bool, off: nat): (r: DirRead)
    ensures r.DirBlock? ==> r.from <= |b| && r.to <= |b|
  {
    var len := ReadU64(b, off + 1);
    if len.BadNum? then BadDir(len.error)
    else if off + 9 + len.value > |b| then BadDir(Truncated)
    else if off + 9 + DirMetaSize(v3) > |b| then BadDir(Truncated)
    else DirBlock(off + 9 + DirMetaSize(v3), off + 9 + len.value)
  }

  /** One directory entry. */
  datatype EntryRead = EntryHead(child: nat, name: Text, next: nat) | BadEntry(error: Error)

  function ReadEntry(b: seq<Byte>, v3: bool, cursor: nat): (r: EntryRead)
    ensures r.EntryHead? ==> cursor < r.next <= |b|
  {
    var child := ReadU64(b, cursor);
    if child.BadNum? then BadEntry(child.error)
    else
      var at := cursor + 8 + HashSize(v3);
      var len := ReadU64(b, at);
      if len.BadNum? then BadEntry(len.error)
      else if at + 8 + len.value > |b| then BadEntry(Truncated)
      else EntryHead(child.value, DecodeText(b[at + 8..at + 8 + len.value]), at + 8 + len.value)
  }

  datatype FileRead = FileAt(record: FileRecord) | BadFile(error: Error)

  function ReadFile(v: Volume, off: nat): (r: FileRead)
    ensures r.FileAt? ==> SpanOk(v, r.record)
  {
    var from, to := ReadU64(v.header, off + 1), ReadU64(v.header, off + 9);
    if from.BadNum? then BadFile(from.error)
    else if to.BadNum? then BadFile(to.error)
    else if off + 49 > |v.header| then BadFile(Truncated)
    else if v.v3 && off + 73 > |v.header| then BadFile(Truncated)
    else if from.value > to.value || to.value > |v.data| then BadFile(BadSpan)
    else FileAt(FileRecord(v.data[from.value..to.value], v.header[off + 17..off + 49],
                           v.dataOffset + from.value, to.value - from.value))
  }

  /** The record's span, moved into the data buffer, holds the record's bytes. */
  predicate SpanOk(v: Volume, r: FileRecord) {
    && v.dataOffset <= r.offset
    && r.offset - v.dataOffset + r.length <= |v.data|
    && r.bytes == v.data[r.offset - v.dataOffset..r.offset - v.dataOffset + r.length]
  }

  /** A file entry is read if and only if it is there to its end, with the times of version 3, and its
      range lies in the data. */
  lemma FileExactly(v: Volume, off: nat)
    ensures
      ReadFile(v, off).FileAt? <==>
        && off + (if v.v3 then 73 else 49) <= |v.header|
        && LeValue(v.header[off + 1..off + 9]) <= LeValue(v.header[off + 9..off + 17]) <= |v.data|
        && LeValue(v.header[off + 1..off + 9]) <= 9007199254740991 && LeValue(v.header[off + 9..off + 17]) <= 9007199254740991
    ensures ReadFile(v, off).FileAt? ==>
              ReadFile(v, off).record.checksum == v.header[off + 17..off + 49] &&
              ReadFile(v, off).record.offset == v.dataOffset + LeValue(v.header[off + 1..off + 9])
  {
  }

  // ----- The walk -----

  /** The offsets of `b` not seen yet: each entry visited uses one up. */
  function Unseen(b: seq<Byte>, seen: set<nat>): set<nat> {
    set i: nat | i < |b| && i !in seen
  }

  lemma UnseenShrinks(b: seq<Byte>, seen: set<nat>, off: nat)
    requires off < |b| && off !in seen
    ensures |Unseen(b, seen + {off})| < |Unseen(b, seen)|
  {
    assert Unseen(b, seen + {off}) == Unseen(b, seen) - {off};
  }

  lemma UnseenMonotone(b: seq<Byte>, seen: set<nat>, more: set<nat>)
    requires seen <= more
    ensures |Unseen(b, more)| <= |Unseen(b, seen)|
  {
    SubsetSize(Unseen(b, more), Unseen(b, seen));
  }

  function ParseEntry(v: Volume, off: nat, path: Text, st: State): (r: Outcome)
    ensures r.Parsed? ==> st.seen <= r.state.seen
    decreases |Unseen(v.header, st.seen)|, 0, 0
  {
    if off in st.seen then Failed(Loop, st.seen)
    else if off >= |v.header| then Failed(Truncated, st.seen + {off})
    else
      var seen := st.seen + {off};
      if v.header[off] == TAG_FILE then
        var f := ReadFile(v, off);
        if f.BadFile? then Failed(f.error, seen) else Parsed(State(Put(st.files, path, f.record), seen))
      else if v.header[off] == TAG_DIRECTORY then
        var d := ReadDir(v.header, v.v3, off);
        if d.BadDir? then Failed(d.error, seen)
        else
          UnseenShrinks(v.header, st.seen, off);
          ParseEntries(v, d.from, d.to, path, State(st.files, seen))
      else Failed(BadTag, seen)
  }

  function ParseEntries(v: Volume, cursor: nat, end: nat, path: Text, st: State): (r: Outcome)
    requires cursor <= |v.header| && end <= |v.header|
    ensures r.Parsed? ==> st.seen <= r.state.seen
    decreases |Unseen(v.header, st.seen)|, 1, |v.header| - cursor
  {
    if cursor == end then Parsed(st)
    else if cursor > end then Failed(BadLength, st.seen)
    else
      var e := ReadEntry(v.header, v.v3, cursor);
      if e.BadEntry? then Failed(e.error, st.seen)
      else
        var r := ParseEntry(v, e.child, ChildPath(path, e.name), st);
        if r.Failed? then r
        else
          UnseenMonotone(v.header, st.seen, r.state.seen);
          ParseEntries(v, e.next, end, path, r.state)
  }

  function ParseVolume(v: Volume, prefix: Text): Outcome {
    ParseEntry(v, 0, prefix, State(map[], {}))
  }

  // ----- What holds of every header -----

  predicate AllSpansOk(v: Volume, files: Files) {
    forall p :: p in files ==> SpanOk(v, files[p])
  }

  /** Whatever the header says, a parsed file's span holds the bytes the parser attached to it. */
  lemma {:induction false} EntrySpans(v: Volume, off: nat, path: Text, st: State)
    requires AllSpansOk(v, st.files)
    ensures var r := ParseEntry(v, off, path, st); r.Parsed? ==> AllSpansOk(v, r.state.files)
    decreases |Unseen(v.header, st.seen)|, 0, 0
  {
    if off !in st.seen && off < |v.header| && v.header[off] == TAG_DIRECTORY {
      var d := ReadDir(v.header, v.v3, off);
      if d.DirBlock? {
        UnseenShrinks(v.header, st.seen, off);
        EntriesSpans(v, d.from, d.to, path, State(st.files, st.seen + {off}));
      }
    }
  }

  lemma {:induction false} EntriesSpans(v: Volume, cursor: nat, end: nat, path: Text, st: State)
    requires cursor <= |v.header| && end <= |v.header| && AllSpansOk(v, st.files)
    ensures var r := ParseEntries(v, cursor, end, path, st); r.Parsed? ==> AllSpansOk(v, r.state.files)
    decreases |Unseen(v.header, st.seen)|, 1, |v.header| - cursor
  {
    if cursor < end {
      var e := ReadEntry(v.header, v.v3, cursor);
      if e.EntryHead? {
        EntrySpans(v, e.child, ChildPath(path, e.name), st);
        var r := ParseEntry(v, e.child, ChildPath(path, e.name), st);
        if r.Parsed? {
          UnseenMonotone(v.header, st.seen, r.state.seen);
          EntriesSpans(v, e.next, end, path, r.state);
        }
      }
    }
  }

  lemma VolumeSpans(v: Volume, prefix: Text)
    ensures var r := ParseVolume(v, prefix); r.Parsed? ==> AllSpansOk(v, r.state.files)
  {
    EntrySpans(v, 0, prefix, State(map[], {}));
  }

  /** The offsets a walk visited, with at most one of them outside the header. */
  function Visited(r: Outcome): set<nat> {
    if r.Parsed? then r.state.seen else r.visited
  }

  predicate Within(v: Volume, seen: set<nat>, visited: set<nat>, stray: nat) {
    forall i :: i in visited ==> i in seen || i < |v.header| || i == stray
  }

  lemma {:induction false} EntryVisits(v: Volume, off: nat, path: Text, st: State) returns (stray: nat)
    ensures var r := ParseEntry(v, off, path, st); Within(v, st.seen, Visited(r), if r.Parsed? then 0 else stray) || |v.header| == 0
    decreases |Unseen(v.header, st.seen)|, 0, 0
  {
    stray := off;
    if off !in st.seen && off < |v.header| && v.header[off] == TAG_DIRECTORY {
      var d := ReadDir(v.header, v.v3, off);
      if d.DirBlock? {
        UnseenShrinks(v.header, st.seen, off);
        stray := EntriesVisits(v, d.from, d.to, path, State(st.files, st.seen + {off}));
      }
    }
  }

  lemma {:induction false} EntriesVisits(v: Volume, cursor: nat, end: nat, path: Text, st: State) returns (stray: nat)
    requires cursor <= |v.header| && end <= |v.header|
    ensures var r := ParseEntries(v, cursor, end, path, st);
            Within(v, st.seen, Visited(r), if r.Parsed? then 0 else stray) || |v.header| == 0
    decreases |Unseen(v.header, st.seen)|, 1, |v.header| - cursor
  {
    stray := 0;
    if cursor < end {
      var e := ReadEntry(v.header, v.v3, cursor);
      if e.EntryHead? {
        stray := EntryVisits(v, e.child, ChildPath(path, e.name), st);
        var r := ParseEntry(v, e.child, ChildPath(path, e.name), st);
        if r.Parsed? {
          UnseenMonotone(v.header, st.seen, r.state.seen);
          stray := EntriesVisits(v, e.next, end, path, r.state);
        }
      }
    }
  }

  lemma {:induction false} BelowSize(s: set<nat>, n: nat)
    requires forall i :: i in s ==> i < n
    ensures |s| <= n
  {
    if n == 0 {
      assert s == {};
    } else {
      BelowSize(s - {n - 1}, n - 1);
      SubsetSize(s, (s - {n - 1}) + {n - 1});
    }
  }

  /** Cyclic headers included, a walk visits at most one offset more than the header has. */
  lemma VolumeVisits(v: Volume, prefix: Text)
    ensures |Visited(ParseVolume(v, prefix))| <= |v.header| + 1
  {
    var visited := Visited(ParseVolume(v, prefix));
    if |v.header| == 0 {
      assert visited == {0};
    } else {
      var stray := EntryVisits(v, 0, prefix, State(map[], {}));
      BelowSize(set i | i in visited && i < |v.header|, |v.header|);
      SubsetSize(visited, (set i | i in visited && i < |v.header|) + {stray});
    }
  }
}
