/** The header walk as the parser runs it: one `files` object and one set of seen offsets,
    both updated in place by every recursive call. */
module WebcParser {
  import opened Bytes
  import opened WebcVolume
  import opened WebcHeader

  /** The unsigned integer of eight bytes, accumulated from the most significant one. */
  method Uint64Le(b: seq<Byte>, off: nat) returns (r: Number)
    ensures r == ReadU64(b, off)
  {
    if off + 8 > |b| {
      return BadNum(Truncated);
    }
    var bytes := b[off..off + 8];
    var value, index := 0, 0;
    while index < 8
      invariant 0 <= index <= 8
      invariant value == LeValue(bytes[8 - index..])
    {
      assert bytes[8 - 1 - index..][1..] == bytes[8 - index..];
      value := 256 * value + bytes[8 - 1 - index];
      index := index + 1;
    }
    assert bytes[0..] == bytes;
    r := if value > MAX_SAFE then BadNum(TooLarge) else Num(value);
  }

  class Parser {
    const v: Volume
    var files: Files
    var seen: set<nat>

    constructor (v: Volume)
      ensures this.v == v && files == map[] && seen == {}
    {
      this.v := v;
      files, seen := map[], {};
    }

    /** The parser's state after a call that threw `error`, or returned, is the one `spec` gives. */
    ghost predicate Agrees(error: Option<Error>, spec: Outcome)
      reads this
    {
      if spec.Parsed? then error == None && files == spec.state.files && seen == spec.state.seen
      else error == Some(spec.error) && seen == spec.visited
    }

    method ParseHeaderEntry(off: nat, path: Text) returns (error: Option<Error>)
      modifies this
      ensures Agrees(error, ParseEntry(v, off, path, State(old(files), old(seen))))
      ensures old(seen) <= seen
      decreases |Unseen(v.header, seen)|, 0
    {
      if off in seen {
        return Some(Loop);
      }
      seen := seen + {off};
      if off >= |v.header| {
        return Some(Truncated);
      }
      if v.header[off] == TAG_DIRECTORY {
        UnseenShrinks(v.header, old(seen), off);
        error := ParseDirectory(off, path);
      } else if v.header[off] == TAG_FILE {
        var f := ReadFile(v, off);
        if f.BadFile? {
          return Some(f.error);
        }
        files := Put(files, path, f.record);
        error := None;
      } else {
        error := Some(BadTag);
      }
    }

    method ParseDirectory(off: nat, path: Text) returns (error: Option<Error>)
      requires off < |v.header|
      modifies this
      ensures
        var d := ReadDir(v.header, v.v3, off);
        if d.BadDir? then error == Some(d.error) && seen == old(seen)
        else Agrees(error, ParseEntries(v, d.from, d.to, path, State(old(files), old(seen))))
      ensures old(seen) <= seen
      decreases |Unseen(v.header, seen)|, 1
    {
      var d := ReadDir(v.header, v.v3, off);
      if d.BadDir? {
        return Some(d.error);
      }
      var cursor := d.from;
      ghost var spec := ParseEntries(v, d.from, d.to, path, State(files, seen));
      while cursor < d.to
        invariant cursor <= |v.header|
        invariant old(seen) <= seen
        invariant ParseEntries(v, cursor, d.to, path, State(files, seen)) == spec
        decreases |v.header| - cursor
      {
        var e := ReadEntry(v.header, v.v3, cursor);
        if e.BadEntry? {
          return Some(e.error);
        }
        UnseenMonotone(v.header, old(seen), seen);
        var thrown := ParseHeaderEntry(e.child, ChildPath(path, e.name));
        if thrown.Some? {
          return thrown;
        }
        cursor := e.next;
      }
      error := if cursor != d.to then Some(BadLength) else None;
    }
  }
}
