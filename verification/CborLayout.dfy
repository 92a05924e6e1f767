/** The encoding told with numerals (sections 3, 3.1 and 3.3 of RFC 8949), and how the reader takes
    the heads that the writer never produces. */
module CborLayout {
  import opened Bytes
  import opened Cbor

  /** A major type and its argument in 0, 1, 2 or 4 further bytes, the most significant first. */
  function HeadLaid(major: nat, n: nat): seq<Byte>
    requires major < 8
  {
    if n < 24 then [0x20 * major + n]
    else if n < 0x100 then [0x20 * major + 24, n]
    else if n < 0x1_0000 then [0x20 * major + 25, n / 0x100, n % 0x100]
    else [0x20 * major + 26, n / 0x100_0000 % 0x100, n / 0x1_0000 % 0x100, n / 0x100 % 0x100, n % 0x100]
  }

  function ValueLaid(v: Value): seq<Byte> {
    match v
    case Null => [0xf6]
    case Undefined => [0xf6]
    case Bool(b) => [if b then 0xf5 else 0xf4]
    case Int(n) => if n >= 0 then HeadLaid(0, n) else HeadLaid(1, -1 - n)
    case Float(_) => [0xa0]
    case Blob(bytes) => HeadLaid(2, |bytes|) + bytes
    case Str(s) => HeadLaid(3, |s|) + s
    case Arr(items) => HeadLaid(4, Length(items)) + ItemsLaid(items)
    case Obj(fields) => HeadLaid(5, Kept(fields)) + FieldsLaid(fields)
  }

  function ItemsLaid(items: List<Value>): seq<Byte> {
    if items.Nil? then [] else ValueLaid(items.head) + ItemsLaid(items.tail)
  }

  /** How many fields are not undefined. */
  function Kept(fields: List<Field>): nat {
    if fields.Nil? then 0 else (if fields.head.value == Undefined then 0 else 1) + Kept(fields.tail)
  }

  function FieldsLaid(fields: List<Field>): seq<Byte> {
    if fields.Nil? then []
    else if fields.head.value == Undefined then FieldsLaid(fields.tail)
    else (HeadLaid(3, |fields.head.key|) + fields.head.key) + (ValueLaid(fields.head.value) + FieldsLaid(fields.tail))
  }

  lemma Quotients(n: nat)
    ensures n / 0x100 / 0x100 == n / 0x1_0000 && n / 0x1_0000 / 0x100 == n / 0x100_0000
  {
  }

  lemma LastByte(n: nat, high: nat, k: nat)
    requires high == n / 0x100
    ensures BeBytes(n, k + 1) == BeBytes(high, k) + [n % 0x100]
  {
  }

  lemma FourBytes(n: nat)
    ensures BeBytes(n, 0) == [] && BeBytes(n, 1) == [n % 0x100] && BeBytes(n, 2) == [n / 0x100 % 0x100, n % 0x100]
    ensures BeBytes(n, 4) == [n / 0x100_0000 % 0x100, n / 0x1_0000 % 0x100, n / 0x100 % 0x100, n % 0x100]
  {
    Quotients(n);
    FourSteps(n, n / 0x100, n / 0x1_0000, n / 0x100_0000);
  }

  lemma FourSteps(n: nat, a: nat, b: nat, c: nat)
    requires a == n / 0x100 && b == a / 0x100 && c == b / 0x100
    ensures BeBytes(n, 0) == [] && BeBytes(n, 1) == [n % 0x100] && BeBytes(n, 2) == [a % 0x100, n % 0x100]
    ensures BeBytes(n, 4) == [c % 0x100, b % 0x100, a % 0x100, n % 0x100]
  {
    LastByte(n, a, 0);
    LastByte(n, a, 1);
    LastByte(a, b, 0);
    LastByte(c, c / 0x100, 0);
    LastByte(b, c, 1);
    LastByte(a, b, 2);
    LastByte(n, a, 3);
  }

  lemma Above24(h: nat, low: nat)
    ensures (0x1_0000_0000 * h + low) / 0x100_0000 % 0x100 == low / 0x100_0000 % 0x100
  {
  }

  lemma Above16(h: nat, low: nat)
    ensures (0x1_0000_0000 * h + low) / 0x1_0000 % 0x100 == low / 0x1_0000 % 0x100
  {
    var q := low / 0x1_0000;
    assert (0x1_0000_0000 * h + low) / 0x1_0000 == 0x1_0000 * h + q;
    MultipleDrops(h, q);
  }

  lemma MultipleDrops(h: nat, q: nat)
    ensures (0x1_0000 * h + q) % 0x100 == q % 0x100
  {
  }

  lemma Above8(h: nat, low: nat)
    ensures (0x1_0000_0000 * h + low) / 0x100 % 0x100 == low / 0x100 % 0x100
    ensures (0x1_0000_0000 * h + low) % 0x100 == low % 0x100
  {
  }

  lemma LowBytes(n: nat)
    ensures BeBytes(n % 0x1_0000_0000, 4) == BeBytes(n, 4)
  {
    var h, low := n / 0x1_0000_0000, n % 0x1_0000_0000;
    FourBytes(n);
    FourBytes(low);
    Above24(h, low);
    Above16(h, low);
    Above8(h, low);
  }

  lemma HeadIs(major: nat, n: nat)
    requires major < 8
    ensures Head(major, n) == HeadLaid(major, n)
  {
    FourBytes(n);
    LowBytes(n);
  }

  lemma {:induction false} KeptIs(fields: List<Field>)
    ensures Length(Defined(fields)) == Kept(fields)
    decreases fields
  {
    if fields.Cons? {
      KeptIs(fields.tail);
    }
  }

  /** What the writer writes, byte for byte. */
  lemma {:induction false} EncodeIs(v: Value)
    ensures Encode(v) == ValueLaid(v)
    decreases v, 1
  {
    match v
    case Int(n) =>
      if n >= 0 {
        HeadIs(0, n);
      } else {
        HeadIs(1, -1 - n);
      }
    case Float(_) => HeadIs(5, 0);
    case Blob(bytes) => HeadIs(2, |bytes|);
    case Str(s) => HeadIs(3, |s|);
    case Arr(items) =>
      HeadIs(4, Length(items));
      ItemsAre(items);
    case Obj(fields) =>
      KeptIs(fields);
      HeadIs(5, Kept(fields));
      FieldsAre(fields);
    case _ =>
  }

  lemma {:induction false} ItemsAre(items: List<Value>)
    ensures EncodeItems(items) == ItemsLaid(items)
    decreases items, 0
  {
    if items.Cons? {
      EncodeIs(items.head);
      ItemsAre(items.tail);
    }
  }

  lemma {:induction false} FieldsAre(fields: List<Field>)
    ensures EncodeFields(fields) == FieldsLaid(fields)
    decreases fields, 0
  {
    if fields.Cons? {
      HeadIs(3, |fields.head.key|);
      EncodeIs(fields.head.value);
      FieldsAre(fields.tail);
    }
  }

  // ----- Heads that are only read -----

  function Quad(a: nat, b: nat, c: nat, d: nat): nat {
    0x100_0000 * a + 0x1_0000 * b + 0x100 * c + d
  }

  lemma FourValue(b: seq<Byte>)
    requires |b| == 4
    ensures BeValue(b) == Quad(b[0], b[1], b[2], b[3])
  {
    assert b[..3][..2] == b[..2] && b[..2][..1] == b[..1] && b[..1][..0] == [];
    assert BeValue(b[..1]) == b[0];
    assert BeValue(b[..2]) == 0x100 * BeValue(b[..1]) + b[1];
    assert BeValue(b[..3]) == 0x100 * BeValue(b[..2]) + b[2];
  }

  lemma HighValue(b: seq<Byte>)
    requires |b| == 8
    ensures BeValue(b) == 0x1_0000_0000 * BeValue(b[..4]) + Quad(b[4], b[5], b[6], b[7])
  {
    assert b[..7][..6] == b[..6] && b[..6][..5] == b[..5] && b[..5][..4] == b[..4];
    assert BeValue(b[..5]) == 0x100 * BeValue(b[..4]) + b[4];
    assert BeValue(b[..6]) == 0x100 * BeValue(b[..5]) + b[5];
    assert BeValue(b[..7]) == 0x100 * BeValue(b[..6]) + b[6];
  }

  /** The additional information 27 announces eight bytes, the most significant first; what exceeds
      2^53 - 1 is refused, and so is what is cut off. Above 27 nothing is announced. */
  lemma EightByteArgument(b: seq<Byte>, off: nat)
    requires off <= |b|
    ensures
      var r := ReadArgument(b, off, 27);
      if off + 8 > |b| then r == Fail(Truncated)
      else
        var n := 0x1_0000_0000 * Quad(b[off], b[off + 1], b[off + 2], b[off + 3])
                 + Quad(b[off + 4], b[off + 5], b[off + 6], b[off + 7]);
        r == if n >= 0x20_0000_0000_0000 then Fail(TooLarge) else Done(n, off + 8)
    ensures forall more | 28 <= more :: ReadArgument(b, off, more) == Fail(BadLength)
  {
    if off + 8 <= |b| {
      var c := b[off..off + 8];
      FourValue(c[..4]);
      HighValue(c);
    }
  }

  /** The simple values false, true, null and undefined, one further byte that is kept as its number,
      and the floating-point numbers of two, four and eight bytes; any other is refused. */
  lemma SimpleValues(b: seq<Byte>, off: nat, info: nat)
    requires off <= |b|
    ensures
      var r := ReadSimple(b, off, info);
      match info
      case 20 => r == Done(Bool(false), off)
      case 21 => r == Done(Bool(true), off)
      case 22 => r == Done(Null, off)
      case 23 => r == Done(Undefined, off)
      case 24 => r == if off + 1 > |b| then Fail(Truncated) else Done(Int(b[off]), off + 1)
      case 25 => r == if off + 2 > |b| then Fail(Truncated) else Done(Float(b[off..off + 2]), off + 2)
      case 26 => r == if off + 4 > |b| then Fail(Truncated) else Done(Float(b[off..off + 4]), off + 4)
      case 27 => r == if off + 8 > |b| then Fail(Truncated) else Done(Float(b[off..off + 8]), off + 8)
      case _ => r == Fail(BadSimple)
  {
  }

  /** The first byte of a value: its top three bits are the major type, the others the additional
      information. A tag comes before the value it is for, one level down. */
  lemma HeadsRead(b: seq<Byte>, off: nat, depth: nat, major: nat, info: nat)
    requires off < |b| && depth <= 128 && major < 8 && info < 32 && b[off] == 0x20 * major + info
    ensures major == 7 ==> ReadValue(b, off, depth) == ReadSimple(b, off + 1, info)
    ensures
      var n := ReadArgument(b, off + 1, info);
      major == 6 ==>
        if n.Fail? then ReadValue(b, off, depth) == Fail(n.error)
        else
          var item := ReadValue(b, n.next, depth + 1);
          ReadValue(b, off, depth) ==
            if item.Fail? then item
            else Done(Obj(Cons(Field([0x74, 0x61, 0x67], Int(n.value)), Cons(Field([0x76, 0x61, 0x6c, 0x75, 0x65], item.value), Nil))), item.next)
  {
    assert b[off] / 32 == major && b[off] % 32 == info;
  }

  lemma DeepRefused(b: seq<Byte>, off: nat, depth: nat)
    requires off <= |b| && depth > 128
    ensures ReadValue(b, off, depth) == Fail(TooDeep)
  {
  }
}
