/** The reader object of the metadata parser: a byte buffer and an offset that each read
    advances. Every method agrees with the reading function of the same name. */
module CborReader {
  import opened Bytes
  import opened Cbor

  datatype Outcome<+T> = Returned(value: T) | Thrown(error: Error)

  /** A method that returned `r` and left the offset at `next` did what the reading function says. */
  ghost predicate Agrees<T>(r: Outcome<T>, next: nat, spec: Read<T>) {
    if spec.Fail? then r == Thrown(spec.error) else r == Returned(spec.value) && next == spec.next
  }

  /** `items` already pushed, then what is still to be read. */
  ghost function Joined(items: List<Value>, rest: Read<List<Value>>): Read<List<Value>> {
    if rest.Fail? then rest else Done(Append(items, rest.value), rest.next)
  }

  lemma JoinStep(items: List<Value>, b: seq<Byte>, off: nat, count: nat, depth: nat)
    requires off <= |b| && count > 0
    ensures var v := ReadValue(b, off, depth + 1);
            Joined(items, ReadItems(b, off, count, depth)) ==
              if v.Fail? then Fail(v.error)
              else Joined(Append(items, Cons(v.value, Nil)), ReadItems(b, v.next, count - 1, depth))
  {
    var v := ReadValue(b, off, depth + 1);
    if v.Done? {
      var rest := ReadItems(b, v.next, count - 1, depth);
      if rest.Done? {
        AppendAssoc(items, v.value, rest.value);
      }
    }
  }

  lemma JoinEnd(items: List<Value>, b: seq<Byte>, off: nat, depth: nat)
    requires off <= |b|
    ensures Joined(items, ReadItems(b, off, 0, depth)) == Done(items, off)
  {
    AppendNil(items);
  }

  predicate AskRest(u: int, count: nat) {
    true
  }

  predicate AskAssigned(u: int) {
    true
  }

  /** Reading the object from the start comes to reading `count` more entries from `off` on. */
  ghost predicate ComesTo(all: Read<List<Field>>, b: seq<Byte>, off: nat, count: nat, depth: nat, acc: List<Field>) {
    forall u {:trigger AskRest(u, count)} :: AskRest(u, count) ==> off <= |b| && all == ReadFields(b, off, count, depth, acc)
  }

  lemma EntriesStart(b: seq<Byte>, off: nat, count: nat, depth: nat) returns (all: Read<List<Field>>)
    requires off <= |b|
    ensures ComesTo(all, b, off, count, depth, Nil)
  {
    all := ReadFields(b, off, count, depth, Nil);
  }

  lemma MapReads(all: Read<List<Field>>, b: seq<Byte>, off: nat, count: nat, depth: nat, r: Outcome<List<Field>>, next: nat)
    requires ComesTo(all, b, off, count, depth, Nil) && Agrees(r, next, all)
    ensures off <= |b| && Agrees(r, next, ReadFields(b, off, count, depth, Nil))
  {
    assert AskRest(0, count);
  }

  lemma KeyThrown(all: Read<List<Field>>, b: seq<Byte>, off: nat, count: nat, depth: nat, acc: List<Field>, error: Error)
    requires off <= |b| && count > 0 && ComesTo(all, b, off, count, depth, acc)
    requires ReadValue(b, off, depth + 1) == Fail(error)
    ensures all == Fail(error)
  {
    assert AskRest(0, count);
  }

  lemma ValueThrown(all: Read<List<Field>>, b: seq<Byte>, off: nat, count: nat, depth: nat, acc: List<Field>, key: Value, mid: nat, error: Error)
    requires off <= mid <= |b| && count > 0 && ComesTo(all, b, off, count, depth, acc)
    requires ReadValue(b, off, depth + 1) == Done(key, mid) && ReadValue(b, mid, depth + 1) == Fail(error)
    ensures all == Fail(error)
  {
    assert AskRest(0, count);
  }

  ghost predicate Assigned(acc': List<Field>, acc: List<Field>, key: Value, raw: seq<Byte>, v: Value) {
    forall u {:trigger AskAssigned(u)} :: AskAssigned(u) ==> acc' == Assign(acc, KeyOf(key, raw), v)
  }

  method AssignField(acc: List<Field>, key: Value, raw: seq<Byte>, v: Value) returns (acc': List<Field>)
    ensures Assigned(acc', acc, key, raw, v)
  {
    acc' := Assign(acc, KeyOf(key, raw), v);
  }

  lemma EntryRead(all: Read<List<Field>>, b: seq<Byte>, off: nat, count: nat, depth: nat, acc: List<Field>, key: Value, mid: nat, v: Value, next: nat, raw: seq<Byte>, acc': List<Field>)
    requires off <= mid <= |b| && next <= |b| && count > 0 && ComesTo(all, b, off, count, depth, acc)
    requires ReadValue(b, off, depth + 1) == Done(key, mid) && ReadValue(b, mid, depth + 1) == Done(v, next)
    requires raw == b[off..mid] && Assigned(acc', acc, key, raw, v)
    ensures ComesTo(all, b, next, count - 1, depth, acc')
  {
    assert AskRest(0, count) && AskRest(0, count - 1) && AskAssigned(0);
  }

  lemma EntriesEnd(all: Read<List<Field>>, b: seq<Byte>, off: nat, depth: nat, acc: List<Field>)
    requires ComesTo(all, b, off, 0, depth, acc)
    ensures all == Done(acc, off)
  {
    assert AskRest(0, 0);
  }

  lemma {:induction false} BeValuePush(b: seq<Byte>, x: Byte)
    ensures BeValue(b + [x]) == 256 * BeValue(b) + x as int
  {
    assert (b + [x])[..|b|] == b;
  }

  class Reader {
    const bytes: seq<Byte>
    var offset: nat

    constructor (bytes: seq<Byte>)
      ensures this.bytes == bytes && offset == 0
    {
      this.bytes := bytes;
      offset := 0;
    }

    method ReadByte() returns (r: Outcome<Byte>)
      requires offset <= |bytes|
      modifies this`offset
      ensures old(offset) < |bytes| ==> offset == old(offset) + 1 && r == Returned(bytes[old(offset)])
      ensures old(offset) == |bytes| ==> offset == old(offset) && r == Thrown(Truncated)
    {
      if offset == |bytes| {
        return Thrown(Truncated);
      }
      r := Returned(bytes[offset]);
      offset := offset + 1;
    }

    method ReadBytes(length: nat) returns (r: Outcome<seq<Byte>>)
      requires offset <= |bytes|
      modifies this`offset
      ensures old(offset) + length <= |bytes| ==>
        offset == old(offset) + length && r == Returned(bytes[old(offset)..offset])
      ensures old(offset) + length > |bytes| ==> offset == old(offset) && r == Thrown(Truncated)
    {
      if offset + length > |bytes| {
        return Thrown(Truncated);
      }
      r := Returned(bytes[offset..offset + length]);
      offset := offset + length;
    }

    /** The unsigned integer of the next `width` bytes, most significant first. */
    method ReadUnsigned(width: nat) returns (r: Outcome<nat>)
      requires offset <= |bytes|
      modifies this`offset
      ensures old(offset) + width > |bytes| ==> offset == old(offset) && r == Thrown(Truncated)
      ensures old(offset) + width <= |bytes| ==>
        && offset == old(offset) + width
        && var n := BeValue(bytes[old(offset)..offset]);
        r == if n > MAX_SAFE then Thrown(TooLarge) else Returned(n)
    {
      var cut := ReadBytes(width);
      if cut.Thrown? {
        return Thrown(cut.error);
      }
      var value: nat := 0;
      var index := 0;
      while index < width
        invariant 0 <= index <= width == |cut.value|
        invariant value == BeValue(cut.value[..index]) && offset == old(offset) + width
      {
        BeValuePush(cut.value[..index], cut.value[index]);
        assert cut.value[..index + 1] == cut.value[..index] + [cut.value[index]];
        value := 256 * value + cut.value[index] as int;
        index := index + 1;
      }
      assert cut.value[..width] == cut.value;
      r := if value > MAX_SAFE then Thrown(TooLarge) else Returned(value);
    }

    method ReadArgument(additional: nat) returns (r: Outcome<nat>)
      requires offset <= |bytes|
      modifies this`offset
      ensures old(offset) <= offset <= |bytes|
      ensures Agrees(r, offset, Cbor.ReadArgument(bytes, old(offset), additional))
    {
      if additional < 24 {
        r := Returned(additional);
      } else if additional > 27 {
        r := Thrown(BadLength);
      } else {
        r := ReadUnsigned(WidthOf(additional));
      }
    }

    method ReadSimple(additional: nat) returns (r: Outcome<Value>)
      requires offset <= |bytes|
      modifies this`offset
      ensures old(offset) <= offset <= |bytes|
      ensures Agrees(r, offset, Cbor.ReadSimple(bytes, old(offset), additional))
    {
      if additional < 20 || additional > 27 {
        r := Thrown(BadSimple);
      } else if additional < 24 {
        r := Returned(if additional == 20 then Bool(false) else if additional == 21 then Bool(true)
                      else if additional == 22 then Null else Undefined);
      } else {
        var cut := ReadBytes(WidthOf(additional));
        r := if cut.Thrown? then Thrown(cut.error)
             else Returned(if additional == 24 then Int(cut.value[0]) else Float(cut.value));
      }
    }

    method ReadValue(depth: nat) returns (r: Outcome<Value>)
      requires offset <= |bytes|
      modifies this`offset
      ensures old(offset) <= offset <= |bytes| && (r.Returned? ==> old(offset) < offset)
      ensures Agrees(r, offset, Cbor.ReadValue(bytes, old(offset), depth))
      decreases |bytes| - offset, 0
    {
      if depth > MAX_DEPTH {
        return Thrown(TooDeep);
      }
      var initial := ReadByte();
      if initial.Thrown? {
        return Thrown(initial.error);
      }
      var major, additional := initial.value / 32, initial.value % 32;
      if major == 7 {
        r := ReadSimple(additional);
        return;
      }
      var n := ReadArgument(additional);
      if n.Thrown? {
        return Thrown(n.error);
      }
      r := ReadBody(major, n.value, depth);
    }

    method ReadBody(major: nat, n: nat, depth: nat) returns (r: Outcome<Value>)
      requires offset <= |bytes|
      modifies this`offset
      ensures old(offset) <= offset <= |bytes|
      ensures Agrees(r, offset, Cbor.ReadBody(bytes, old(offset), major, n, depth))
      decreases |bytes| - offset, 2
    {
      match major
      case 0 => r := Returned(Int(n));
      case 1 => r := Returned(Int(-1 - n));
      case 2 =>
        var cut := ReadBytes(n);
        r := if cut.Thrown? then Thrown(cut.error) else Returned(Blob(cut.value));
      case 3 =>
        var cut := ReadBytes(n);
        r := if cut.Thrown? then Thrown(cut.error) else Returned(Str(DecodeText(cut.value)));
      case 4 =>
        var items := ReadArray(n, depth);
        r := if items.Thrown? then Thrown(items.error) else Returned(Arr(items.value));
      case 5 =>
        var fields := ReadMap(n, depth);
        r := if fields.Thrown? then Thrown(fields.error) else Returned(Obj(fields.value));
      case _ =>
        var inner := ReadValue(depth + 1);
        r := if inner.Thrown? then Thrown(inner.error) else Returned(Tagged(n, inner.value));
    }

    method ReadArray(length: nat, depth: nat) returns (r: Outcome<List<Value>>)
      requires offset <= |bytes|
      modifies this`offset
      ensures old(offset) <= offset <= |bytes|
      ensures Agrees(r, offset, ReadItems(bytes, old(offset), length, depth))
      decreases |bytes| - offset, 1
    {
      ghost var all := ReadItems(bytes, offset, length, depth);
      var items := Nil;
      var index := 0;
      assert Joined(items, all) == all;
      while index < length
        invariant 0 <= index <= length
        invariant old(offset) <= offset <= |bytes|
        invariant all == Joined(items, ReadItems(bytes, offset, length - index, depth))
      {
        JoinStep(items, bytes, offset, length - index, depth);
        var v := ReadValue(depth + 1);
        if v.Thrown? {
          return Thrown(v.error);
        }
        items := Append(items, Cons(v.value, Nil));
        index := index + 1;
      }
      JoinEnd(items, bytes, offset, depth);
      r := Returned(items);
    }

    method ReadMap(length: nat, depth: nat) returns (r: Outcome<List<Field>>)
      requires offset <= |bytes|
      modifies this`offset
      ensures old(offset) <= offset <= |bytes|
      ensures Agrees(r, offset, ReadFields(bytes, old(offset), length, depth, Nil))
      decreases |bytes| - offset, 1
    {
      ghost var from := offset;
      ghost var all := EntriesStart(bytes, from, length, depth);
      var fields := Nil;
      var index := 0;
      ghost var left := length;
      while index < length
        invariant 0 <= index <= length && left == length - index
        invariant old(offset) <= offset <= |bytes|
        invariant ComesTo(all, bytes, offset, left, depth, fields)
      {
        var start := offset;
        var key := ReadValue(depth + 1);
        if key.Thrown? {
          KeyThrown(all, bytes, start, left, depth, fields, key.error);
          MapReads(all, bytes, from, length, depth, Thrown(key.error), offset);
          return Thrown(key.error);
        }
        var mid := offset;
        var raw := bytes[start..mid];
        var v := ReadValue(depth + 1);
        if v.Thrown? {
          ValueThrown(all, bytes, start, left, depth, fields, key.value, mid, v.error);
          MapReads(all, bytes, from, length, depth, Thrown(v.error), offset);
          return Thrown(v.error);
        }
        var longer := AssignField(fields, key.value, raw, v.value);
        EntryRead(all, bytes, start, left, depth, fields, key.value, mid, v.value, offset, raw, longer);
        fields := longer;
        index := index + 1;
        left := left - 1;
      }
      EntriesEnd(all, bytes, offset, depth, fields);
      r := Returned(fields);
      MapReads(all, bytes, from, length, depth, r, offset);
    }
  }
}
