/** The CBOR subset used for WebC manifests: the encoder of the fixture writer
    and the reader of the metadata parser (section 3 of RFC 8949). */
module Cbor {
  import opened Bytes

  datatype List<+T> = Nil | Cons(head: T, tail: List<T>)

  function Length<T>(l: List<T>): nat {
    if l.Nil? then 0 else 1 + Length(l.tail)
  }

  function Append<T>(l: List<T>, m: List<T>): List<T> {
    if l.Nil? then m else Cons(l.head, Append(l.tail, m))
  }

  datatype Field = Field(key: Text, value: Value)

  /** A JavaScript value as the reader builds it. `Float` is a number read from
      its IEEE bytes, kept as those bytes. */
  datatype Value =
    | Null
    | Undefined
    | Bool(b: bool)
    | Int(n: int)
    | Float(bits: seq<Byte>)
    | Blob(bytes: seq<Byte>)
    | Str(s: Text)
    | Arr(items: List<Value>)
    | Obj(fields: List<Field>)

  datatype Error = Truncated | TooLarge | TooDeep | BadSimple | BadLength

  /** Outcome of reading at an offset: a value and the offset after it, or a failure. */
  datatype Read<+T> = Done(value: T, next: nat) | Fail(error: Error) {
    /** This value, wherever it ended. */
    ghost predicate Holds(v: T) {
      Done? && value == v
    }

    /** Exactly this value, ending exactly there. */
    ghost predicate Is(v: T, end: nat) {
      Done? && value == v && next == end
    }
  }

  const MAX_DEPTH: nat := 128

  // ----- Writer -----

  /** Bytes the argument takes after the initial byte. */
  function ArgumentWidth(n: nat): nat {
    if n < 24 then 0 else if n < 256 then 1 else if n < 65536 then 2 else 4
  }

  /** What the JavaScript shifts see of a number. */
  function Low32(n: nat): nat {
    if n < TWO32 then n else n % TWO32
  }

  /** `cborLength`: the initial byte and the argument, of which only the low 32 bits are
      written. */
  function Head(major: nat, n: nat): (b: seq<Byte>)
    requires major < 8
    ensures |b| == 1 + ArgumentWidth(n)
  {
    var w := ArgumentWidth(n);
    [32 * major + (if w == 0 then n else if w == 1 then 24 else if w == 2 then 25 else 26)] + BeBytes(Low32(n), w)
  }

  /** The fields `Object.entries(value).filter(...)` keeps. */
  function Defined(fields: List<Field>): (r: List<Field>)
    ensures Length(r) <= Length(fields)
  {
    match fields
    case Nil => Nil
    case Cons(f, rest) => if f.value == Undefined then Defined(rest) else Cons(f, Defined(rest))
  }

  function Encode(v: Value): (b: seq<Byte>)
    ensures 1 <= |b|
  {
    match v
    case Null => [0xf6]
    case Undefined => [0xf6]
    case Bool(b) => [if b then 0xf5 else 0xf4]
    case Int(n) => if n >= 0 then Head(0, n) else Head(1, -1 - n)
    case Float(_) => Head(5, 0)  // a number has no own entries
    case Blob(bytes) => Head(2, |bytes|) + bytes
    case Str(s) => EncodeText(s)
    case Arr(items) => Head(4, Length(items)) + EncodeItems(items)
    case Obj(fields) => Head(5, Length(Defined(fields))) + EncodeFields(fields)
  }

  function EncodeText(s: Text): (b: seq<Byte>)
    ensures 1 <= |b|
  {
    Head(3, |s|) + s
  }

  function EncodeItems(items: List<Value>): seq<Byte> {
    match items
    case Nil => []
    case Cons(v, rest) => Encode(v) + EncodeItems(rest)
  }

  function EncodeFields(fields: List<Field>): seq<Byte> {
    match fields
    case Nil => []
    case Cons(f, rest) =>
      if f.value == Undefined then EncodeFields(rest)
      else EncodeText(f.key) + (Encode(f.value) + EncodeFields(rest))
  }

  // ----- Reader -----

  /** Bytes of the argument that follows the initial byte. */
  function WidthOf(additional: nat): nat {
    if additional < 24 then 0 else if additional == 24 then 1 else if additional == 25 then 2 else if additional == 26 then 4 else 8
  }

  function ReadArgument(b: seq<Byte>, off: nat, additional: nat): (r: Read<nat>)
    requires off <= |b|
    ensures r.Done? ==> off <= r.next <= |b|
  {
    var w := WidthOf(additional);
    if additional > 27 then Fail(BadLength)
    else if off + w > |b| then Fail(Truncated)
    else
      var n := if w == 0 then additional else BeValue(b[off..off + w]);
      if n > MAX_SAFE then Fail(TooLarge) else Done(n, off + w)
  }

  function ReadSimple(b: seq<Byte>, off: nat, additional: nat): (r: Read<Value>)
    requires off <= |b|
    ensures r.Done? ==> off <= r.next <= |b|
  {
    if additional < 20 || additional > 27 then Fail(BadSimple)
    else if additional < 24 then
      Done(if additional == 20 then Bool(false) else if additional == 21 then Bool(true) else if additional == 22 then Null else Undefined, off)
    else
      var w := WidthOf(additional);
      if off + w > |b| then Fail(Truncated)
      else Done(if w == 1 then Int(b[off]) else Float(b[off..off + w]), off + w)
  }

  /** `value[key] = item` on a plain object: assigning `__proto__` sets no own
      property, an existing key keeps its place, a new one goes last. */
  function Assign(fields: List<Field>, key: Text, value: Value): List<Field> {
    if IsProto(key) then fields else Put(fields, key, value)
  }

  function Put(fields: List<Field>, key: Text, value: Value): List<Field> {
    match fields
    case Nil => Cons(Field(key, value), Nil)
    case Cons(f, rest) => if f.key == key then Cons(Field(key, value), rest) else Cons(f, Put(rest, key, value))
  }

  /** The property name a key gives. `String(key)` of a key that is not text is represented
      by that key's own encoding after a byte that no text contains. */
  function KeyOf(v: Value, raw: seq<Byte>): Text {
    if v.Str? then v.s else [0xff] + raw
  }

  /** The object `{ tag, value }` a tagged item is read as. */
  function Tagged(tag: nat, value: Value): Value {
    Obj(Cons(Field([0x74, 0x61, 0x67], Int(tag)), Cons(Field([0x76, 0x61, 0x6c, 0x75, 0x65], value), Nil)))
  }

  function ReadValue(b: seq<Byte>, off: nat, depth: nat): (r: Read<Value>)
    requires off <= |b|
    ensures r.Done? ==> off < r.next <= |b|
    decreases |b| - off, 0
  {
    if depth > MAX_DEPTH then Fail(TooDeep)
    else if off == |b| then Fail(Truncated)
    else
      var major, additional := b[off] / 32, b[off] % 32;
      if major == 7 then ReadSimple(b, off + 1, additional)
      else
        var n := ReadArgument(b, off + 1, additional);
        if n.Fail? then Fail(n.error) else ReadBody(b, n.next, major, n.value, depth)
  }

  /** What follows the head, for the major types 0 to 6. */
  function ReadBody(b: seq<Byte>, off: nat, major: nat, n: nat, depth: nat): (r: Read<Value>)
    requires off <= |b|
    ensures r.Done? ==> off <= r.next <= |b|
    decreases |b| - off, 2
  {
    match major
    case 0 => Done(Int(n), off)
    case 1 => Done(Int(-1 - n), off)
    case 2 => if off + n > |b| then Fail(Truncated) else Done(Blob(b[off..off + n]), off + n)
    case 3 => if off + n > |b| then Fail(Truncated) else Done(Str(DecodeText(b[off..off + n])), off + n)
    case 4 =>
      var r := ReadItems(b, off, n, depth);
      if r.Fail? then Fail(r.error) else Done(Arr(r.value), r.next)
    case 5 =>
      var r := ReadFields(b, off, n, depth, Nil);
      if r.Fail? then Fail(r.error) else Done(Obj(r.value), r.next)
    case _ =>
      var r := ReadValue(b, off, depth + 1);
      if r.Fail? then Fail(r.error)
      else Done(Tagged(n, r.value), r.next)
  }

  function ReadItems(b: seq<Byte>, off: nat, count: nat, depth: nat): (r: Read<List<Value>>)
    requires off <= |b|
    ensures r.Done? ==> off <= r.next <= |b|
    decreases |b| - off, 1
  {
    if count == 0 then Done(Nil, off)
    else
      var v := ReadValue(b, off, depth + 1);
      if v.Fail? then Fail(v.error)
      else
        var rest := ReadItems(b, v.next, count - 1, depth);
        if rest.Fail? then rest else Done(Cons(v.value, rest.value), rest.next)
  }

  function ReadFields(b: seq<Byte>, off: nat, count: nat, depth: nat, acc: List<Field>): (r: Read<List<Field>>)
    requires off <= |b|
    ensures r.Done? ==> off <= r.next <= |b|
    decreases |b| - off, 1
  {
    if count == 0 then Done(acc, off)
    else
      var k := ReadValue(b, off, depth + 1);
      if k.Fail? then Fail(k.error)
      else
        var v := ReadValue(b, k.next, depth + 1);
        if v.Fail? then Fail(v.error)
        else ReadFields(b, v.next, count - 1, depth, Assign(acc, KeyOf(k.value, b[off..k.next]), v.value))
  }

  // ----- Which values come back -----

  function Max(a: nat, b: nat): nat {
    if a < b then b else a
  }

  /** How deep the containers of `v` nest; a value read at depth `d` reaches `d + Height(v)`. */
  function Height(v: Value): nat {
    match v
    case Arr(items) => ItemsHeight(items)
    case Obj(fields) => FieldsHeight(fields)
    case _ => 0
  }

  function ItemsHeight(items: List<Value>): nat {
    match items
    case Nil => 0
    case Cons(v, rest) => Max(1 + Height(v), ItemsHeight(rest))
  }

  function FieldsHeight(fields: List<Field>): nat {
    match fields
    case Nil => 0
    case Cons(f, rest) => Max(1 + Height(f.value), FieldsHeight(rest))
  }

  predicate HasKey(fields: List<Field>, key: Text) {
    fields.Cons? && (fields.head.key == key || HasKey(fields.tail, key))
  }

  function Pow2(n: nat): (p: nat)
    ensures p > 0
  {
    if n == 0 then 1 else 2 * Pow2(n - 1)
  }

  /** How many bits of an IEEE number of this many bytes are its fraction. */
  function FractionBits(width: nat): nat {
    if width == 2 then 10 else if width == 4 then 23 else 52
  }

  function Bias(width: nat): nat {
    if width == 2 then 15 else if width == 4 then 127 else 1023
  }

  /** The exponent and the fraction of an IEEE number. */
  function Exponent(bits: seq<Byte>): nat {
    BeValue(bits) / Pow2(FractionBits(|bits|)) % (2 * Bias(|bits|) + 2)
  }

  function Fraction(bits: seq<Byte>): nat {
    BeValue(bits) % Pow2(FractionBits(|bits|))
  }

  /** The number with these bits is an integer: zero, or one whose fraction has no bits below the
      point. A script cannot tell it from that integer. */
  predicate Integral(bits: seq<Byte>) {
    var e, m, places, bias := Exponent(bits), Fraction(bits), FractionBits(|bits|), Bias(|bits|);
    if e == 0 then m == 0
    else if e == 2 * bias + 1 || e < bias then false
    else e - bias >= places || m % Pow2(places - (e - bias)) == 0
  }

  /** Half a precision number: 2.0 is one of those, 0.5 is not. */
  lemma TwoAndAHalf()
    ensures Integral([0x40, 0x00]) && !Integral([0x38, 0x00])
  {
    assert Pow2(10) == 1024 by { assert Pow2(5) == 32; }
    assert BeValue([0x40, 0x00]) == 16384 by { assert [0x40, 0x00][..1] == [0x40] && BeValue([0x40]) == 0x40; }
    assert BeValue([0x38, 0x00]) == 14336 by { assert [0x38, 0x00][..1] == [0x38] && BeValue([0x38]) == 0x38; }
  }

  /** Facts that hold of every JavaScript value: object keys are distinct, texts, arrays and objects
      have fewer than 2^32 elements, and a number that is an integer is one. */
  predicate Script(v: Value) {
    match v
    case Float(bits) => !Integral(bits)
    case Str(s) => |s| < 4294967296
    case Arr(items) => Length(items) < 4294967296 && ScriptItems(items)
    case Obj(fields) => Length(fields) < 4294967296 && ScriptFields(fields)
    case _ => true
  }

  predicate ScriptItems(items: List<Value>) {
    items.Cons? ==> Script(items.head) && ScriptItems(items.tail)
  }

  predicate ScriptFields(fields: List<Field>) {
    fields.Cons? ==>
      && |fields.head.key| < 4294967296
      && Script(fields.head.value)
      && !HasKey(fields.tail, fields.head.key)
      && ScriptFields(fields.tail)
  }

  /** The values the writer can represent. */
  predicate Encodable(v: Value) {
    match v
    case Undefined => false
    case Float(_) => false
    case Int(n) => -4294967296 <= n < 4294967296
    case Blob(bytes) => |bytes| < 4294967296
    case Str(s) => !StartsWithBom(s)
    case Arr(items) => EncodableItems(items)
    case Obj(fields) => EncodableFields(fields)
    case _ => true
  }

  predicate PlainKey(key: Text) {
    !IsProto(key) && !StartsWithBom(key)
  }

  predicate EncodableItems(items: List<Value>) {
    items.Cons? ==> Encodable(items.head) && EncodableItems(items.tail)
  }

  predicate EncodableFields(fields: List<Field>) {
    fields.Cons? ==> PlainKey(fields.head.key) && Encodable(fields.head.value) && EncodableFields(fields.tail)
  }

  /** The reader, started at `off`, returns exactly `v` and stops at `end`. */
  ghost predicate ReadsBack(b: seq<Byte>, off: nat, depth: nat, v: Value, end: nat) {
    off <= |b| && ReadValue(b, off, depth).Is(v, end)
  }

  // The same facts and their opposites, and what is written where, in the form the proofs
  // pass around.

  ghost predicate Written(b: seq<Byte>, off: nat, v: Value, end: nat) {
    forall u {:trigger AskWriter(u)} :: AskWriter(u) ==> HasAt(b, off, Encode(v)) && end == off + |Encode(v)|
  }

  ghost predicate ItemsWritten(b: seq<Byte>, off: nat, items: List<Value>, end: nat) {
    forall u {:trigger AskWriter(u)} :: AskWriter(u) ==> HasAt(b, off, EncodeItems(items)) && end == off + |EncodeItems(items)|
  }

  ghost predicate FieldsWritten(b: seq<Byte>, off: nat, fields: List<Field>, end: nat) {
    forall u {:trigger AskWriter(u)} :: AskWriter(u) ==> HasAt(b, off, EncodeFields(fields)) && end == off + |EncodeFields(fields)|
  }

  ghost predicate Reads(b: seq<Byte>, off: nat, depth: nat, v: Value, end: nat) {
    forall u {:trigger AskReader(u)} :: AskReader(u) ==> off <= |b| && ReadValue(b, off, depth).Is(v, end)
  }

  ghost predicate Misreads(b: seq<Byte>, off: nat, depth: nat, v: Value) {
    forall u {:trigger AskReader(u)} :: AskReader(u) ==> off <= |b| && !ReadValue(b, off, depth).Holds(v)
  }

  ghost predicate ItemsRead(b: seq<Byte>, off: nat, count: nat, depth: nat, items: List<Value>, end: nat) {
    forall u {:trigger AskReader(u)} :: AskReader(u) ==> off <= |b| && ReadItems(b, off, count, depth).Is(items, end)
  }

  ghost predicate ItemsMisread(b: seq<Byte>, off: nat, count: nat, depth: nat, items: List<Value>) {
    forall u {:trigger AskReader(u)} :: AskReader(u) ==> off <= |b| && !ReadItems(b, off, count, depth).Holds(items)
  }

  ghost predicate FieldsRead(b: seq<Byte>, off: nat, count: nat, depth: nat, acc: List<Field>, fields: List<Field>, end: nat) {
    forall u {:trigger AskReader(u)} :: AskReader(u) ==> off <= |b| && ReadFields(b, off, count, depth, acc).Is(fields, end)
  }

  predicate AskFields(u: int, count: nat) {
    true
  }

  ghost predicate FieldsHold(b: seq<Byte>, off: nat, count: nat, depth: nat, acc: List<Field>, fields: List<Field>) {
    forall u {:trigger AskFields(u, count)} :: AskFields(u, count) ==> off <= |b| && ReadFields(b, off, count, depth, acc).Holds(fields)
  }

  ghost predicate FieldsMisread(b: seq<Byte>, off: nat, count: nat, depth: nat, acc: List<Field>, fields: List<Field>) {
    forall u {:trigger AskFields(u, count)} :: AskFields(u, count) ==> off <= |b| && !ReadFields(b, off, count, depth, acc).Holds(fields)
  }

  // ----- Round trip -----

  lemma ArgumentValue(n: nat)
    requires n >= 24
    ensures BeValue(BeBytes(Low32(n), ArgumentWidth(n))) == Low32(n) <= MAX_SAFE
  {
    Powers();
    BeValueOfBytes(Low32(n), ArgumentWidth(n));
  }

  lemma Powers()
    ensures Pow256(1) == 256 && Pow256(2) == 65536 && Pow256(4) == TWO32
  {
    assert Pow256(2) == 65536;
    assert Pow256(3) == 16777216;
  }

  /** Reading a head gives back the major type, and the argument modulo 2^32. */
  lemma HeadReads(b: seq<Byte>, off: nat, major: nat, n: nat)
    requires major < 7
    requires HasAt(b, off, Head(major, n))
    ensures off < |b| && b[off] / 32 == major
    ensures ReadArgument(b, off + 1, b[off] % 32).Is(Low32(n), off + |Head(major, n)|)
  {
    var head := Head(major, n);
    var w := ArgumentWidth(n);
    var arg := BeBytes(Low32(n), w);
    assert head == [head[0]] + arg;
    HasAtSplit(b, off, [head[0]], arg);
    assert SameAt(b, off, [head[0]], 0);
    if n >= 24 {
      HasAtSlice(b, off + 1, arg);
      ArgumentValue(n);
    }
  }

  /** The reader at a head goes on to the body, with the argument modulo 2^32. */
  lemma ReadAtHead(b: seq<Byte>, off: nat, depth: nat, major: nat, n: nat, body: seq<Byte>)
    requires major < 7 && depth <= MAX_DEPTH && HasAt(b, off, Head(major, n) + body)
    ensures HasAt(b, off + |Head(major, n)|, body)
    ensures ReadValue(b, off, depth) == ReadBody(b, off + |Head(major, n)|, major, Low32(n), depth)
  {
    HasAtSplit(b, off, Head(major, n), body);
    HeadReads(b, off, major, n);
  }

  // ----- Leaves -----

  lemma TextReads(b: seq<Byte>, off: nat, depth: nat, s: Text)
    requires depth <= MAX_DEPTH && |s| < TWO32 && HasAt(b, off, EncodeText(s))
    ensures Reads(b, off, depth, Str(DecodeText(s)), off + |EncodeText(s)|)
  {
    ReadAtHead(b, off, depth, 3, |s|, s);
    StrBody(b, off + |Head(3, |s|)|, s, depth);
  }

  lemma StrBody(b: seq<Byte>, off: nat, bytes: seq<Byte>, depth: nat)
    requires HasAt(b, off, bytes)
    ensures ReadBody(b, off, 3, |bytes|, depth).Is(Str(DecodeText(bytes)), off + |bytes|)
  {
    HasAtSlice(b, off, bytes);
  }

  lemma BlobBody(b: seq<Byte>, off: nat, bytes: seq<Byte>, depth: nat)
    requires HasAt(b, off, bytes)
    ensures ReadBody(b, off, 2, |bytes|, depth).Is(Blob(bytes), off + |bytes|)
  {
    HasAtSlice(b, off, bytes);
  }

  lemma SimpleReads(b: seq<Byte>, off: nat, depth: nat, x: Byte)
    requires depth <= MAX_DEPTH && HasAt(b, off, [x]) && 0xf4 <= x <= 0xf6
    ensures Reads(b, off, depth, if x == 0xf4 then Bool(false) else if x == 0xf5 then Bool(true) else Null, off + 1)
  {
    assert SameAt(b, off, [x], 0);
  }

  /** Integers come back modulo 2^32, on either side of zero. */
  lemma IntReads(b: seq<Byte>, off: nat, depth: nat, n: int)
    requires depth <= MAX_DEPTH && HasAt(b, off, Encode(Int(n)))
    ensures Reads(b, off, depth, Int(if n >= 0 then Low32(n) else -1 - Low32(-1 - n)), off + |Encode(Int(n))|)
  {
    if n >= 0 {
      assert Head(0, n) + [] == Head(0, n);
      ReadAtHead(b, off, depth, 0, n, []);
    } else {
      assert Head(1, -1 - n) + [] == Head(1, -1 - n);
      ReadAtHead(b, off, depth, 1, -1 - n, []);
    }
  }

  lemma BlobReads(b: seq<Byte>, off: nat, depth: nat, bytes: seq<Byte>)
    requires depth <= MAX_DEPTH && HasAt(b, off, Head(2, |bytes|) + bytes)
    ensures var len := Low32(|bytes|); Reads(b, off, depth, Blob(bytes[..len]), off + |Head(2, |bytes|)| + len)
  {
    ReadAtHead(b, off, depth, 2, |bytes|, bytes);
    var at, len := off + |Head(2, |bytes|)|, Low32(|bytes|);
    assert bytes[..len] + bytes[len..] == bytes;
    HasAtSplit(b, at, bytes[..len], bytes[len..]);
    BlobBody(b, at, bytes[..len], depth);
  }

  lemma EmptyObjReads(b: seq<Byte>, off: nat, depth: nat)
    requires depth <= MAX_DEPTH && HasAt(b, off, Head(5, 0))
    ensures Reads(b, off, depth, Obj(Nil), off + 1)
  {
    assert Head(5, 0) + [] == Head(5, 0);
    ReadAtHead(b, off, depth, 5, 0, []);
  }

  /** What is read is one thing: a value that is read back is not some other value. */
  lemma ReadsOnce(b: seq<Byte>, off: nat, depth: nat, v: Value, end: nat, w: Value)
    requires Reads(b, off, depth, v, end) && v != w
    ensures Misreads(b, off, depth, w)
  {
    assert AskReader(0);
  }

  lemma TooDeepMisreads(b: seq<Byte>, off: nat, depth: nat, v: Value)
    requires off <= |b| && depth > MAX_DEPTH
    ensures Misreads(b, off, depth, v)
  {
  }

  /** A leaf the writer can represent comes back... */
  lemma LeafReads(b: seq<Byte>, off: nat, depth: nat, v: Value, end: nat)
    requires Written(b, off, v, end) && Script(v) && Encodable(v)
    requires !v.Arr? && !v.Obj? && depth <= MAX_DEPTH
    ensures Reads(b, off, depth, v, end)
  {
    assert AskWriter(0);
    match v
    case Null => SimpleReads(b, off, depth, 0xf6);
    case Bool(x) => SimpleReads(b, off, depth, if x then 0xf5 else 0xf4);
    case Int(n) => IntReads(b, off, depth, n);
    case Blob(bytes) => BlobReads(b, off, depth, bytes); assert bytes[..|bytes|] == bytes;
    case Str(s) => TextReads(b, off, depth, s);
  }

  /** ...and one it cannot does not. */
  lemma LeafMisreads(b: seq<Byte>, off: nat, depth: nat, v: Value, end: nat)
    requires Written(b, off, v, end) && Script(v) && !Encodable(v)
    requires !v.Arr? && !v.Obj? && depth <= MAX_DEPTH
    ensures Misreads(b, off, depth, v)
  {
    assert AskWriter(0);
    match v
    case Undefined =>
      SimpleReads(b, off, depth, 0xf6);
      ReadsOnce(b, off, depth, Null, off + 1, v);
    case Float(_) =>
      EmptyObjReads(b, off, depth);
      ReadsOnce(b, off, depth, Obj(Nil), off + 1, v);
    case Int(n) =>
      IntReads(b, off, depth, n);
      ReadsOnce(b, off, depth, Int(if n >= 0 then Low32(n) else -1 - Low32(-1 - n)), off + |Encode(v)|, v);
    case Blob(bytes) =>
      BlobReads(b, off, depth, bytes);
      var len := Low32(|bytes|);
      ReadsOnce(b, off, depth, Blob(bytes[..len]), off + |Head(2, |bytes|)| + len, v);
    case Str(s) =>
      TextReads(b, off, depth, s);
      ReadsOnce(b, off, depth, Str(DecodeText(s)), off + |EncodeText(s)|, v);
  }

  // ----- Containers: where the parts are written -----

  /** `part` is at `off`, and ends at `end`. */
  ghost predicate PartAt(b: seq<Byte>, off: nat, part: seq<Byte>, end: nat) {
    HasAt(b, off, part) && end == off + |part|
  }

  lemma ArrAt(b: seq<Byte>, off: nat, items: List<Value>, end: nat) returns (at: nat)
    requires Written(b, off, Arr(items), end) && Length(items) < TWO32
    ensures ItemsWritten(b, at, items, end) && ArrStarts(b, off, Length(items), at)
  {
    assert PartAt(b, off, Head(4, Length(items)) + EncodeItems(items), end) by { assert AskWriter(0); }
    at := SplitHead(b, off, 4, Length(items), EncodeItems(items), end);
  }

  lemma ObjAt(b: seq<Byte>, off: nat, fields: List<Field>, end: nat) returns (at: nat)
    requires Written(b, off, Obj(fields), end) && Length(fields) < TWO32
    ensures FieldsWritten(b, at, fields, end) && ObjStarts(b, off, Length(Defined(fields)), at)
  {
    var n := Length(Defined(fields));
    assert PartAt(b, off, Head(5, n) + EncodeFields(fields), end) by { assert AskWriter(0); }
    at := SplitHead(b, off, 5, n, EncodeFields(fields), end);
  }

  lemma SplitHead(b: seq<Byte>, off: nat, major: nat, n: nat, body: seq<Byte>, end: nat) returns (at: nat)
    requires (major == 4 || major == 5) && n < TWO32 && PartAt(b, off, Head(major, n) + body, end)
    ensures PartAt(b, at, body, end)
    ensures major == 4 ==> ArrStarts(b, off, n, at)
    ensures major == 5 ==> ObjStarts(b, off, n, at)
  {
    at := off + |Head(major, n)|;
    HasAtSplit(b, off, Head(major, n), body);
    HeadStarts(b, off, major, n);
  }

  /** The reader at `off` goes on to read `n` items at `at`. */
  ghost predicate ArrStarts(b: seq<Byte>, off: nat, n: nat, at: nat) {
    forall depth: nat {:trigger AskHead(depth)} :: AskHead(depth) && depth <= MAX_DEPTH ==>
      off <= |b| && at <= |b| && ReadValue(b, off, depth) == ReadBody(b, at, 4, n, depth)
  }

  ghost predicate ObjStarts(b: seq<Byte>, off: nat, n: nat, at: nat) {
    forall depth: nat {:trigger AskHead(depth)} :: AskHead(depth) && depth <= MAX_DEPTH ==>
      off <= |b| && at <= |b| && ReadValue(b, off, depth) == ReadBody(b, at, 5, n, depth)
  }

  lemma HeadStarts(b: seq<Byte>, off: nat, major: nat, n: nat)
    requires major == 4 || major == 5
    requires HasAt(b, off, Head(major, n)) && n < TWO32
    ensures major == 4 ==> ArrStarts(b, off, n, off + |Head(4, n)|)
    ensures major == 5 ==> ObjStarts(b, off, n, off + |Head(5, n)|)
  {
    forall depth: nat {:trigger AskHead(depth)} | depth <= MAX_DEPTH
      ensures off <= |b| && ReadValue(b, off, depth) == ReadBody(b, off + |Head(major, n)|, major, n, depth)
    {
      assert Head(major, n) + [] == Head(major, n);
      ReadAtHead(b, off, depth, major, n, []);
    }
  }

  lemma ItemAt(b: seq<Byte>, off: nat, v: Value, rest: List<Value>, end: nat) returns (mid: nat)
    requires ItemsWritten(b, off, Cons(v, rest), end)
    ensures Written(b, off, v, mid) && ItemsWritten(b, mid, rest, end)
  {
    assert AskWriter(0);
    mid := off + |Encode(v)|;
    HasAtSplit(b, off, Encode(v), EncodeItems(rest));
  }

  /** One entry: its key, then its value, then the rest. */
  lemma FieldAt(b: seq<Byte>, off: nat, f: Field, rest: List<Field>, end: nat) returns (mid: nat, next: nat)
    requires FieldsWritten(b, off, Cons(f, rest), end) && f.value != Undefined
    ensures HasAt(b, off, EncodeText(f.key)) && mid == off + |EncodeText(f.key)|
    ensures Written(b, mid, f.value, next) && FieldsWritten(b, next, rest, end)
  {
    assert AskWriter(0);
    var key, value := EncodeText(f.key), Encode(f.value);
    mid := off + |key|;
    next := mid + |value|;
    HasAtSplit(b, off, key, value + EncodeFields(rest));
    HasAtSplit(b, mid, value, EncodeFields(rest));
  }

  lemma KeyAt(b: seq<Byte>, off: nat, depth: nat, f: Field, rest: List<Field>, end: nat) returns (mid: nat, next: nat)
    requires FieldsWritten(b, off, Cons(f, rest), end) && f.value != Undefined
    requires depth < MAX_DEPTH && |f.key| < TWO32
    ensures Reads(b, off, depth + 1, Str(DecodeText(f.key)), mid)
    ensures Written(b, mid, f.value, next) && FieldsWritten(b, next, rest, end)
  {
    mid, next := FieldAt(b, off, f, rest, end);
    TextReads(b, off, depth + 1, f.key);
  }

  lemma InBounds(b: seq<Byte>, off: nat, v: Value, end: nat)
    requires Written(b, off, v, end)
    ensures off <= |b|
  {
    assert AskWriter(0);
  }

  lemma FieldsInBounds(b: seq<Byte>, off: nat, fields: List<Field>, end: nat)
    requires FieldsWritten(b, off, fields, end)
    ensures off <= |b|
  {
    assert AskWriter(0);
  }

  // ----- Containers: one step of the reader -----

  lemma ArrBody(b: seq<Byte>, off: nat, n: nat, depth: nat)
    requires off <= |b|
    ensures var r := ReadItems(b, off, n, depth);
            var v := ReadBody(b, off, 4, n, depth);
            if r.Fail? then v.Fail? else v.Is(Arr(r.value), r.next)
  {
  }

  lemma ObjBody(b: seq<Byte>, off: nat, n: nat, depth: nat)
    requires off <= |b|
    ensures var r := ReadFields(b, off, n, depth, Nil);
            var v := ReadBody(b, off, 5, n, depth);
            if r.Fail? then v.Fail? else v.Is(Obj(r.value), r.next)
  {
  }

  lemma ArrReads(b: seq<Byte>, off: nat, depth: nat, n: nat, at: nat, items: List<Value>, end: nat)
    requires ArrStarts(b, off, n, at) && depth <= MAX_DEPTH
    ensures ItemsRead(b, at, n, depth, items, end) ==> Reads(b, off, depth, Arr(items), end)
    ensures ItemsMisread(b, at, n, depth, items) ==> Misreads(b, off, depth, Arr(items))
  {
    assert AskHead(depth);
    assert AskReader(0);
    ArrBody(b, at, n, depth);
  }

  lemma ObjReads(b: seq<Byte>, off: nat, depth: nat, n: nat, at: nat, fields: List<Field>, end: nat)
    requires ObjStarts(b, off, n, at) && depth <= MAX_DEPTH
    ensures FieldsRead(b, at, n, depth, Nil, fields, end) ==> Reads(b, off, depth, Obj(fields), end)
    ensures FieldsMisread(b, at, n, depth, Nil, fields) ==> Misreads(b, off, depth, Obj(fields))
  {
    assert AskHead(depth);
    assert AskReader(0) && AskFields(0, n);
    ObjBody(b, at, n, depth);
  }

  lemma NoItems(b: seq<Byte>, off: nat, depth: nat, end: nat)
    requires ItemsWritten(b, off, Nil, end)
    ensures ItemsRead(b, off, 0, depth, Nil, end)
  {
    assert AskWriter(0) && AskReader(0);
  }

  lemma NoFields(b: seq<Byte>, off: nat, depth: nat, acc: List<Field>, end: nat)
    requires FieldsWritten(b, off, Nil, end)
    ensures FieldsRead(b, off, 0, depth, acc, acc, end)
  {
    assert AskWriter(0) && AskReader(0);
  }

  lemma ItemStep(b: seq<Byte>, off: nat, depth: nat, items: List<Value>, mid: nat, end: nat)
    requires items.Cons? && Reads(b, off, depth + 1, items.head, mid)
    requires ItemsRead(b, mid, Length(items.tail), depth, items.tail, end)
    ensures ItemsRead(b, off, Length(items), depth, items, end)
  {
    assert AskReader(0);
  }

  lemma WrongItem(b: seq<Byte>, off: nat, depth: nat, items: List<Value>)
    requires items.Cons? && Misreads(b, off, depth + 1, items.head)
    ensures ItemsMisread(b, off, Length(items), depth, items)
  {
    assert AskReader(0);
  }

  lemma WrongItems(b: seq<Byte>, off: nat, depth: nat, items: List<Value>, mid: nat)
    requires items.Cons? && Reads(b, off, depth + 1, items.head, mid)
    requires ItemsMisread(b, mid, Length(items.tail), depth, items.tail)
    ensures ItemsMisread(b, off, Length(items), depth, items)
  {
    assert AskReader(0);
  }

  lemma FieldStep(b: seq<Byte>, off: nat, count: nat, depth: nat, acc: List<Field>, key: Text, mid: nat)
    requires count > 0 && Reads(b, off, depth + 1, Str(key), mid)
    ensures off <= |b| && mid <= |b|
    ensures var v := ReadValue(b, mid, depth + 1);
            var r := ReadFields(b, off, count, depth, acc);
            if v.Fail? then r.Fail? else r == ReadFields(b, v.next, count - 1, depth, Assign(acc, key, v.value))
  {
    assert AskReader(0);
  }

  /** Reading an entry whose key is new appends it. */
  lemma FreshFieldStep(b: seq<Byte>, off: nat, count: nat, depth: nat, acc: List<Field>, f: Field, mid: nat, next: nat)
    requires count > 0 && Reads(b, off, depth + 1, Str(f.key), mid) && Reads(b, mid, depth + 1, f.value, next)
    requires !HasKey(acc, f.key) && !IsProto(f.key)
    ensures off <= |b| && next <= |b|
    ensures ReadFields(b, off, count, depth, acc) == ReadFields(b, next, count - 1, depth, Append(acc, Cons(f, Nil)))
  {
    FieldStep(b, off, count, depth, acc, f.key, mid);
    PutFresh(acc, f.key, f.value);
    assert AskReader(0);
  }

  lemma GoodFieldStep(b: seq<Byte>, off: nat, count: nat, depth: nat, acc: List<Field>, f: Field, mid: nat, next: nat,
    result: List<Field>, end: nat)
    requires count > 0 && Reads(b, off, depth + 1, Str(f.key), mid) && Reads(b, mid, depth + 1, f.value, next)
    requires !HasKey(acc, f.key) && !IsProto(f.key)
    ensures FieldsRead(b, next, count - 1, depth, Append(acc, Cons(f, Nil)), result, end)
        ==> FieldsRead(b, off, count, depth, acc, result, end)
    ensures FieldsMisread(b, next, count - 1, depth, Append(acc, Cons(f, Nil)), result)
        ==> FieldsMisread(b, off, count, depth, acc, result)
  {
    FreshFieldStep(b, off, count, depth, acc, f, mid, next);
    assert AskReader(0) && AskFields(0, count - 1);
  }

  lemma {:induction false} AllDefined(fields: List<Field>)
    requires EncodableFields(fields)
    ensures Defined(fields) == fields
  {
    if fields.Cons? {
      AllDefined(fields.tail);
    }
  }

  /** None of the keys of `fields` is in `acc`. */
  predicate FreshKeys(acc: List<Field>, fields: List<Field>) {
    fields.Cons? ==> !HasKey(acc, fields.head.key) && FreshKeys(acc, fields.tail)
  }

  lemma {:induction false} FreshKeysStep(acc: List<Field>, f: Field, fields: List<Field>)
    requires FreshKeys(acc, fields) && !HasKey(fields, f.key)
    ensures FreshKeys(Append(acc, Cons(f, Nil)), fields)
  {
    if fields.Cons? {
      HasKeyAppend(acc, f, fields.head.key);
      FreshKeysStep(acc, f, fields.tail);
    }
  }

  lemma {:induction false} FreshFromNil(fields: List<Field>)
    ensures FreshKeys(Nil, fields)
  {
    if fields.Cons? {
      FreshFromNil(fields.tail);
    }
  }

  lemma {:induction false} HasKeyAppend(acc: List<Field>, f: Field, key: Text)
    ensures HasKey(Append(acc, Cons(f, Nil)), key) <==> HasKey(acc, key) || f.key == key
  {
    if acc.Cons? {
      HasKeyAppend(acc.tail, f, key);
    }
  }

  lemma {:induction false} PutFresh(acc: List<Field>, key: Text, v: Value)
    requires !HasKey(acc, key)
    ensures Put(acc, key, v) == Append(acc, Cons(Field(key, v), Nil))
  {
    if acc.Cons? {
      PutFresh(acc.tail, key, v);
    }
  }

  lemma {:induction false} AppendAssoc<T>(acc: List<T>, x: T, more: List<T>)
    ensures Append(Append(acc, Cons(x, Nil)), more) == Append(acc, Cons(x, more))
  {
    if acc.Cons? {
      AppendAssoc(acc.tail, x, more);
    }
  }

  lemma {:induction false} AppendNil<T>(acc: List<T>)
    ensures Append(acc, Nil) == acc
  {
    if acc.Cons? {
      AppendNil(acc.tail);
    }
  }

  // ----- Values inside the domain -----

  /** Every encodable value, shallow enough for the depth it is read at, comes back. */
  lemma {:induction false} ReadAfterWrite(b: seq<Byte>, off: nat, depth: nat, v: Value, end: nat)
    requires Written(b, off, v, end) && Script(v)
    requires Encodable(v) && depth + Height(v) <= MAX_DEPTH
    ensures Reads(b, off, depth, v, end)
    decreases v, 1
  {
    match v
    case Arr(items) =>
      var at := ArrAt(b, off, items, end);
      ItemsReadBack(b, at, depth, items, end);
      ArrReads(b, off, depth, Length(items), at, items, end);
    case Obj(fields) =>
      AllDefined(fields);
      FreshFromNil(fields);
      var at := ObjAt(b, off, fields, end);
      FieldsReadBack(b, at, Length(fields), depth, fields, Nil, end);
      ObjReads(b, off, depth, Length(fields), at, fields, end);
    case _ => LeafReads(b, off, depth, v, end);
  }

  lemma {:induction false} ItemsReadBack(b: seq<Byte>, off: nat, depth: nat, items: List<Value>, end: nat)
    requires ItemsWritten(b, off, items, end) && ScriptItems(items)
    requires EncodableItems(items) && depth + ItemsHeight(items) <= MAX_DEPTH
    ensures ItemsRead(b, off, Length(items), depth, items, end)
    decreases items, 0
  {
    match items
    case Nil => NoItems(b, off, depth, end);
    case Cons(v, rest) =>
      var mid := ItemAt(b, off, v, rest, end);
      ReadAfterWrite(b, off, depth + 1, v, mid);
      ItemsReadBack(b, mid, depth, rest, end);
      ItemStep(b, off, depth, items, mid, end);
  }

  lemma {:induction false} FieldsReadBack(b: seq<Byte>, off: nat, count: nat, depth: nat, fields: List<Field>, acc: List<Field>, end: nat)
    requires FieldsWritten(b, off, fields, end) && ScriptFields(fields) && count == Length(fields)
    requires EncodableFields(fields) && FreshKeys(acc, fields)
    requires depth + FieldsHeight(fields) <= MAX_DEPTH
    ensures FieldsRead(b, off, count, depth, acc, Append(acc, fields), end)
    decreases fields, 0
  {
    match fields
    case Nil => AppendNil(acc); NoFields(b, off, depth, acc, end);
    case Cons(f, rest) =>
      var mid, next := KeyAt(b, off, depth, f, rest, end);
      ReadAfterWrite(b, mid, depth + 1, f.value, next);
      FreshKeysStep(acc, f, rest);
      FieldsReadBack(b, next, count - 1, depth, rest, Append(acc, Cons(f, Nil)), end);
      AppendAssoc(acc, f, rest);
      GoodFieldStep(b, off, count, depth, acc, f, mid, next, Append(acc, fields), end);
  }

  // ----- Values outside the domain -----

  /** A value the writer cannot represent, or one nested too deep, is never read back. */
  lemma {:induction false} NoReadBack(b: seq<Byte>, off: nat, depth: nat, v: Value, end: nat)
    requires Written(b, off, v, end) && Script(v)
    requires !Encodable(v) || depth + Height(v) > MAX_DEPTH
    ensures Misreads(b, off, depth, v)
    decreases v, 1
  {
    if depth > MAX_DEPTH {
      InBounds(b, off, v, end);
      TooDeepMisreads(b, off, depth, v);
    } else {
      match v
      case Arr(items) =>
        var at := ArrAt(b, off, items, end);
        ItemsNotReadBack(b, at, depth, items, end);
        ArrReads(b, off, depth, Length(items), at, items, end);
      case Obj(fields) =>
        var at := ObjAt(b, off, fields, end);
        if Length(Defined(fields)) == Length(fields) {
          FreshFromNil(fields);
          FieldsNotReadBack(b, at, Length(Defined(fields)), depth, fields, Nil, end);
        } else {
          FieldsInBounds(b, at, fields, end);
          TooFewFields(b, at, Length(Defined(fields)), depth, Nil, fields);
        }
        ObjReads(b, off, depth, Length(Defined(fields)), at, fields, end);
      case _ => LeafMisreads(b, off, depth, v, end);
    }
  }

  lemma {:induction false} ItemsNotReadBack(b: seq<Byte>, off: nat, depth: nat, items: List<Value>, end: nat)
    requires ItemsWritten(b, off, items, end) && ScriptItems(items)
    requires !EncodableItems(items) || depth + ItemsHeight(items) > MAX_DEPTH
    requires depth <= MAX_DEPTH
    ensures ItemsMisread(b, off, Length(items), depth, items)
    decreases items, 0
  {
    var v, rest := items.head, items.tail;
    var mid := ItemAt(b, off, v, rest, end);
    if Encodable(v) && depth + 1 + Height(v) <= MAX_DEPTH {
      ReadAfterWrite(b, off, depth + 1, v, mid);
      ItemsNotReadBack(b, mid, depth, rest, end);
      WrongItems(b, off, depth, items, mid);
    } else {
      NoReadBack(b, off, depth + 1, v, mid);
      WrongItem(b, off, depth, items);
    }
  }

  predicate Prefix(p: List<Field>, l: List<Field>) {
    p.Cons? ==> l.Cons? && p.head == l.head && Prefix(p.tail, l.tail)
  }

  lemma {:induction false} PrefixTrans(p: List<Field>, l: List<Field>, m: List<Field>)
    requires Prefix(p, l) && Prefix(l, m)
    ensures Prefix(p, m)
  {
    if p.Cons? {
      PrefixTrans(p.tail, l.tail, m.tail);
    }
  }

  lemma {:induction false} PrefixRefl(p: List<Field>)
    ensures Prefix(p, p)
  {
    if p.Cons? {
      PrefixRefl(p.tail);
    }
  }

  /** An assignment adds at most one field, and one that adds a field changes no other. */
  lemma {:induction false} PutGrowth(acc: List<Field>, key: Text, v: Value)
    ensures Length(Put(acc, key, v)) <= Length(acc) + 1
    ensures Length(Put(acc, key, v)) == Length(acc) + 1 ==> Prefix(acc, Put(acc, key, v))
  {
    if acc.Cons? {
      PutGrowth(acc.tail, key, v);
    }
  }

  lemma AssignGrowth(acc: List<Field>, key: Text, v: Value)
    ensures Grows(acc, 1, Assign(acc, key, v))
  {
    PutGrowth(acc, key, v);
  }

  /** `n` assignments to the fields `acc` may give the fields `result`: at most `n` more, and
      if exactly `n` more then what was there before is untouched. */
  ghost predicate Grows(acc: List<Field>, n: nat, result: List<Field>) {
    forall u {:trigger AskHead(u)} :: AskHead(u) ==>
      && Length(result) <= Length(acc) + n
      && (Length(result) == Length(acc) + n ==> Prefix(acc, result))
  }

  lemma GrowsStep(acc: List<Field>, acc': List<Field>, n: nat, result: List<Field>)
    requires n > 0 && Grows(acc, 1, acc') && Grows(acc', n - 1, result)
    ensures Grows(acc, n, result)
  {
    assert AskHead(0);
    if Length(result) == Length(acc) + n {
      PrefixTrans(acc, acc', result);
    }
  }

  lemma GrowsNone(acc: List<Field>)
    ensures Grows(acc, 0, acc)
  {
    PrefixRefl(acc);
  }

  /** The fields after the next entry, if the reader gets to the end. */
  lemma NextField(b: seq<Byte>, off: nat, count: nat, depth: nat, acc: List<Field>, result: List<Field>)
    returns (acc': List<Field>, next: nat)
    requires count > 0 && FieldsHold(b, off, count, depth, acc, result)
    ensures FieldsHold(b, next, count - 1, depth, acc', result) && Grows(acc, 1, acc')
  {
    assert AskFields(0, count);
    var k := ReadValue(b, off, depth + 1);
    var r := ReadValue(b, k.next, depth + 1);
    var key := KeyOf(k.value, b[off..k.next]);
    acc', next := Assign(acc, key, r.value), r.next;
    AssignGrowth(acc, key, r.value);
  }

  lemma LastField(b: seq<Byte>, off: nat, depth: nat, acc: List<Field>, result: List<Field>)
    requires FieldsHold(b, off, 0, depth, acc, result)
    ensures acc == result
  {
    assert AskFields(0, 0);
  }

  lemma {:induction false} FieldsGrowth(b: seq<Byte>, off: nat, count: nat, depth: nat, acc: List<Field>, result: List<Field>)
    requires FieldsHold(b, off, count, depth, acc, result)
    ensures Grows(acc, count, result)
    decreases count
  {
    if count == 0 {
      LastField(b, off, depth, acc, result);
      GrowsNone(acc);
    } else {
      var acc', next := NextField(b, off, count, depth, acc, result);
      FieldsGrowth(b, next, count - 1, depth, acc', result);
      GrowsStep(acc, acc', count, result);
    }
  }

  lemma Misread(b: seq<Byte>, off: nat, count: nat, depth: nat, acc: List<Field>, fields: List<Field>)
    requires off <= |b|
    ensures FieldsMisread(b, off, count, depth, acc, fields) || FieldsHold(b, off, count, depth, acc, fields)
  {
  }

  lemma {:induction false} AppendLength(acc: List<Field>, fields: List<Field>)
    ensures Length(Append(acc, fields)) == Length(acc) + Length(fields)
  {
    if acc.Cons? {
      AppendLength(acc.tail, fields);
    }
  }

  lemma {:induction false} PrefixAgrees(acc: List<Field>, f: Field, g: Field, rest: List<Field>)
    requires Prefix(Append(acc, Cons(f, Nil)), Append(acc, Cons(g, rest)))
    ensures f == g
  {
    if acc.Cons? {
      PrefixAgrees(acc.tail, f, g, rest);
    }
  }

  lemma TooFewFields(b: seq<Byte>, off: nat, n: nat, depth: nat, acc: List<Field>, fields: List<Field>)
    requires off <= |b| && Length(acc) + n < Length(fields)
    ensures FieldsMisread(b, off, n, depth, acc, fields)
  {
    assert AskHead(0);
    Misread(b, off, n, depth, acc, fields);
    if FieldsHold(b, off, n, depth, acc, fields) {
      FieldsGrowth(b, off, n, depth, acc, fields);
    }
  }

  /** A read that stores another entry in place of `f` cannot end with the fields written. */
  lemma WrongFirst(b: seq<Byte>, next: nat, count: nat, depth: nat, acc: List<Field>, f: Field, g: Field, rest: List<Field>)
    requires next <= |b| && g != f && count == Length(rest)
    ensures FieldsMisread(b, next, count, depth, Append(acc, Cons(g, Nil)), Append(acc, Cons(f, rest)))
  {
    var acc', all := Append(acc, Cons(g, Nil)), Append(acc, Cons(f, rest));
    Misread(b, next, count, depth, acc', all);
    if FieldsHold(b, next, count, depth, acc', all) {
      FieldsGrowth(b, next, count, depth, acc', all);
      assert AskHead(0);
      AppendLength(acc, Cons(f, rest));
      AppendLength(acc, Cons(g, Nil));
      PrefixAgrees(acc, g, f, rest);
    }
  }

  lemma {:induction false} PutExisting(acc: List<Field>, key: Text, v: Value)
    requires HasKey(acc, key)
    ensures Length(Put(acc, key, v)) == Length(acc)
  {
    if acc.head.key != key {
      PutExisting(acc.tail, key, v);
    }
  }

  /** An entry that is dropped, or whose key or value changes, is enough to lose the object. */
  lemma BadFieldStep(b: seq<Byte>, off: nat, count: nat, depth: nat, acc: List<Field>, fields: List<Field>, mid: nat)
    requires fields.Cons? && !HasKey(acc, fields.head.key) && count == Length(fields)
    requires Reads(b, off, depth + 1, Str(DecodeText(fields.head.key)), mid)
    requires !PlainKey(fields.head.key) || Misreads(b, mid, depth + 1, fields.head.value)
    ensures FieldsMisread(b, off, count, depth, acc, Append(acc, fields))
  {
    var key := DecodeText(fields.head.key);
    var read := ValueAfter(b, off, depth, Str(key), mid);
    if read.Done? {
      BadValue(b, mid, depth, fields.head, key, read);
      BadAssign(b, read.next, count - 1, depth, acc, fields, key, read.value);
      MisreadLater(b, off, count, depth, acc, Append(acc, fields), key, mid, read);
    } else {
      MisreadNow(b, off, count, depth, acc, Append(acc, fields), key, mid, read);
    }
  }

  ghost predicate ValueIs(b: seq<Byte>, off: nat, depth: nat, r: Read<Value>) {
    forall u {:trigger AskReader(u)} :: AskReader(u) ==> off <= |b| && ReadValue(b, off, depth) == r
  }

  lemma ValueAfter(b: seq<Byte>, off: nat, depth: nat, key: Value, mid: nat) returns (r: Read<Value>)
    requires Reads(b, off, depth + 1, key, mid)
    ensures ValueIs(b, mid, depth + 1, r) && (r.Done? ==> r.next <= |b|)
  {
    assert AskReader(0);
    r := ReadValue(b, mid, depth + 1);
  }

  lemma BadValue(b: seq<Byte>, mid: nat, depth: nat, f: Field, key: Text, r: Read<Value>)
    requires ValueIs(b, mid, depth + 1, r) && r.Done? && key == DecodeText(f.key)
    requires !PlainKey(f.key) || Misreads(b, mid, depth + 1, f.value)
    ensures Field(key, r.value) != f || IsProto(key)
  {
    assert AskReader(0);
  }

  lemma MisreadNow(b: seq<Byte>, off: nat, count: nat, depth: nat, acc: List<Field>, fields: List<Field>, key: Text, mid: nat, r: Read<Value>)
    requires count > 0 && Reads(b, off, depth + 1, Str(key), mid) && r.Fail? && ValueIs(b, mid, depth + 1, r)
    ensures FieldsMisread(b, off, count, depth, acc, fields)
  {
    FieldStep(b, off, count, depth, acc, key, mid);
    assert AskReader(0);
  }

  lemma MisreadLater(b: seq<Byte>, off: nat, count: nat, depth: nat, acc: List<Field>, fields: List<Field>, key: Text, mid: nat, r: Read<Value>)
    requires count > 0 && Reads(b, off, depth + 1, Str(key), mid) && r.Done? && ValueIs(b, mid, depth + 1, r)
    requires FieldsMisread(b, r.next, count - 1, depth, Assign(acc, key, r.value), fields)
    ensures FieldsMisread(b, off, count, depth, acc, fields)
  {
    FieldStep(b, off, count, depth, acc, key, mid);
    assert AskReader(0) && AskFields(0, count - 1);
  }

  lemma BadAssign(b: seq<Byte>, next: nat, count: nat, depth: nat, acc: List<Field>, fields: List<Field>, key: Text, v: Value)
    requires fields.Cons? && next <= |b| && count == Length(fields.tail)
    requires Field(key, v) != fields.head || IsProto(key)
    ensures FieldsMisread(b, next, count, depth, Assign(acc, key, v), Append(acc, fields))
  {
    if IsProto(key) || HasKey(acc, key) {
      if !IsProto(key) {
        PutExisting(acc, key, v);
      }
      AppendLength(acc, fields);
      TooFewFields(b, next, count, depth, Assign(acc, key, v), Append(acc, fields));
    } else {
      PutFresh(acc, key, v);
      WrongFirst(b, next, count, depth, acc, fields.head, Field(key, v), fields.tail);
    }
  }

  lemma {:induction false} FieldsNotReadBack(b: seq<Byte>, off: nat, count: nat, depth: nat, fields: List<Field>, acc: List<Field>, end: nat)
    requires FieldsWritten(b, off, fields, end) && ScriptFields(fields) && count == Length(fields)
    requires Length(Defined(fields)) == Length(fields) && FreshKeys(acc, fields)
    requires !EncodableFields(fields) || depth + FieldsHeight(fields) > MAX_DEPTH
    requires depth <= MAX_DEPTH
    ensures FieldsMisread(b, off, count, depth, acc, Append(acc, fields))
    decreases fields, 0
  {
    var f, rest := fields.head, fields.tail;
    if depth == MAX_DEPTH {
      FieldsInBounds(b, off, fields, end);
      FieldsTooDeep(b, off, count, depth, acc, Append(acc, fields));
    } else {
      var mid, next := KeyAt(b, off, depth, f, rest, end);
      if !PlainKey(f.key) || !Encodable(f.value) || depth + 1 + Height(f.value) > MAX_DEPTH {
        if PlainKey(f.key) {
          NoReadBack(b, mid, depth + 1, f.value, next);
        }
        BadFieldStep(b, off, count, depth, acc, fields, mid);
      } else {
        ReadAfterWrite(b, mid, depth + 1, f.value, next);
        FreshKeysStep(acc, f, rest);
        FieldsNotReadBack(b, next, count - 1, depth, rest, Append(acc, Cons(f, Nil)), end);
        GoodThenBad(b, off, count, depth, acc, f, rest, mid, next);
      }
    }
  }

  /** A field that is read, before fields that are not. */
  lemma GoodThenBad(b: seq<Byte>, off: nat, count: nat, depth: nat, acc: List<Field>, f: Field, rest: List<Field>, mid: nat, next: nat)
    requires count > 0 && Reads(b, off, depth + 1, Str(f.key), mid) && Reads(b, mid, depth + 1, f.value, next)
    requires !HasKey(acc, f.key) && !IsProto(f.key)
    requires FieldsMisread(b, next, count - 1, depth, Append(acc, Cons(f, Nil)), Append(Append(acc, Cons(f, Nil)), rest))
    ensures FieldsMisread(b, off, count, depth, acc, Append(acc, Cons(f, rest)))
  {
    AppendAssoc(acc, f, rest);
    GoodFieldStep(b, off, count, depth, acc, f, mid, next, Append(acc, Cons(f, rest)), 0);
  }

  lemma FieldsTooDeep(b: seq<Byte>, off: nat, count: nat, depth: nat, acc: List<Field>, fields: List<Field>)
    requires off <= |b| && depth >= MAX_DEPTH && count > 0
    ensures FieldsMisread(b, off, count, depth, acc, fields)
  {
    assert ReadValue(b, off, depth + 1).Fail?;
  }

  // ----- The theorem -----

  lemma WrittenFirst(v: Value, suffix: seq<Byte>)
    ensures Written(Encode(v) + suffix, 0, v, |Encode(v)|)
  {
    HasAtOfConcat([], Encode(v), suffix);
    assert [] + Encode(v) + suffix == Encode(v) + suffix;
  }

  /** The round trip, exactly: written before any suffix, a JavaScript value is read back,
      with the reader stopping at the suffix, if and only if it is encodable and nests at
      most 128 deep. */
  lemma RoundTrip(v: Value, suffix: seq<Byte>)
    requires Script(v)
    ensures ReadsBack(Encode(v) + suffix, 0, 0, v, |Encode(v)|) <==> Encodable(v) && Height(v) <= 128
  {
    var b := Encode(v) + suffix;
    WrittenFirst(v, suffix);
    if Encodable(v) && Height(v) <= 128 {
      ReadAfterWrite(b, 0, 0, v, |Encode(v)|);
    } else {
      NoReadBack(b, 0, 0, v, |Encode(v)|);
    }
    assert AskReader(0);
  }

  /** Three ways a manifest value is silently changed: an integer loses its high bits... */
  lemma LossyInteger(suffix: seq<Byte>)
    ensures ReadsBack(Encode(Int(4294967296)) + suffix, 0, 0, Int(0), 5)
  {
    HasAtOfConcat([], Encode(Int(4294967296)), suffix);
    assert [] + Encode(Int(4294967296)) + suffix == Encode(Int(4294967296)) + suffix;
    IntReads(Encode(Int(4294967296)) + suffix, 0, 0, 4294967296);
    assert AskReader(0);
  }

  /** ...a text loses its byte-order mark... */
  lemma LossyText(suffix: seq<Byte>)
    ensures ReadsBack(Encode(Str([0xef, 0xbb, 0xbf])) + suffix, 0, 0, Str([]), 4)
  {
    var s: Text := [0xef, 0xbb, 0xbf];
    HasAtOfConcat([], EncodeText(s), suffix);
    assert [] + EncodeText(s) + suffix == Encode(Str(s)) + suffix;
    TextReads(Encode(Str(s)) + suffix, 0, 0, s);
    assert AskReader(0);
  }

  /** ...and a `__proto__` entry is dropped. */
  lemma LossyProto(key: Text, suffix: seq<Byte>)
    requires IsProto(key) && !StartsWithBom(key)
    ensures var b := Encode(Obj(Cons(Field(key, Null), Nil)));
            ReadsBack(b + suffix, 0, 0, Obj(Nil), |b|)
  {
    var f := Field(key, Null);
    var fields := Cons(f, Nil);
    var e := Encode(Obj(fields));
    var b := e + suffix;
    WrittenFirst(Obj(fields), suffix);
    var at := ObjAt(b, 0, fields, |e|);
    var mid, next := KeyAt(b, at, 0, f, Nil, |e|);
    ReadAfterWrite(b, mid, 1, Null, next);
    ProtoStep(b, at, 0, key, mid, next, |e|);
    ObjReads(b, 0, 0, 1, at, Nil, |e|);
    assert AskReader(0);
  }

  lemma ProtoStep(b: seq<Byte>, off: nat, depth: nat, key: Text, mid: nat, next: nat, end: nat)
    requires Reads(b, off, depth + 1, Str(key), mid) && Reads(b, mid, depth + 1, Null, next) && IsProto(key)
    requires FieldsWritten(b, next, Nil, end)
    ensures FieldsRead(b, off, 1, depth, Nil, Nil, end)
  {
    FieldStep(b, off, 1, depth, Nil, key, mid);
    NoFields(b, next, depth, Nil, end);
    assert AskWriter(0) && AskReader(0);
  }
}
