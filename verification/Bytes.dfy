/** Byte strings, and the integer and text encodings the WebC container uses. */
module Bytes {

  type Byte = x: int | 0 <= x < 256

  datatype Result<+T, +E> = Ok(value: T) | Err(error: E)

  datatype Option<+T> = None | Some(value: T)

  /** Text is represented by its UTF-8 bytes. */
  type Text = seq<Byte>

  predicate StartsWithBom(t: Text) {
    |t| >= 3 && t[0] == 0xef && t[1] == 0xbb && t[2] == 0xbf
  }

  /** `TextDecoder.decode` on well-formed UTF-8: a leading byte-order mark is dropped. */
  function DecodeText(bytes: seq<Byte>): (t: Text)
    ensures t == bytes <==> !StartsWithBom(bytes)
  {
    if StartsWithBom(bytes) then bytes[3..] else bytes
  }

  /** The mark is the three bytes ef bb bf, and is dropped once. */
  lemma MarkDropped(t: Text)
    ensures DecodeText([0xef, 0xbb, 0xbf] + t) == t
    ensures (|t| < 3 || t[..3] != [0xef, 0xbb, 0xbf]) ==> DecodeText(t) == t
  {
    assert ([0xef, 0xbb, 0xbf] + t)[3..] == t;
    if StartsWithBom(t) {
      assert t[..3] == [0xef, 0xbb, 0xbf];
    }
  }

  /** `Number.MAX_SAFE_INTEGER`. */
  const MAX_SAFE: nat := 9007199254740991

  const TWO32: nat := 4294967296

  lemma SubsetSize<T>(a: set<T>, b: set<T>)
    requires a <= b
    ensures |a| <= |b|
  {
    assert b == a + (b - a);
  }

  function Pow256(n: nat): (p: nat)
    ensures p > 0
  {
    if n == 0 then 1 else 256 * Pow256(n - 1)
  }

  /** The `n` low-order bytes of `v`, least significant first. */
  function LeBytes(v: nat, n: nat): (b: seq<Byte>)
    ensures |b| == n
  {
    if n == 0 then [] else [v % 256] + LeBytes(v / 256, n - 1)
  }

  function LeValue(b: seq<Byte>): nat {
    if b == [] then 0 else b[0] + 256 * LeValue(b[1..])
  }

  lemma {:induction false} LeValueOfBytes(v: nat, n: nat)
    requires v < Pow256(n)
    ensures LeValue(LeBytes(v, n)) == v
  {
    if n != 0 {
      LeValueOfBytes(v / 256, n - 1);
      assert LeBytes(v, n)[1..] == LeBytes(v / 256, n - 1);
    }
  }

  /** The `n` low-order bytes of `v`, most significant first. */
  function BeBytes(v: nat, n: nat): (b: seq<Byte>)
    ensures |b| == n
  {
    if n == 0 then [] else BeBytes(v / 256, n - 1) + [v % 256]
  }

  /** Big-endian value of a byte string. */
  function BeValue(b: seq<Byte>): nat {
    if b == [] then 0 else 256 * BeValue(b[..|b| - 1]) + b[|b| - 1]
  }

  lemma {:induction false} BeValueOfBytes(v: nat, n: nat)
    requires v < Pow256(n)
    ensures BeValue(BeBytes(v, n)) == v
  {
    if n != 0 {
      BeValueOfBytes(v / 256, n - 1);
      assert BeBytes(v, n)[..n - 1] == BeBytes(v / 256, n - 1);
    }
  }

  /** `__proto__`: the nine bytes 5f 5f 70 72 6f 74 6f 5f 5f, as one big-endian number. */
  predicate IsProto(key: Text) {
    |key| == 9 && BeValue(key) == 0x5f5f70726f746f5f5f
  }

  lemma SafeFitsEightBytes()
    ensures MAX_SAFE < Pow256(8)
  {
    assert Pow256(4) == 4294967296 by {
      assert Pow256(1) == 256 && Pow256(2) == 65536;
    }
    assert Pow256(6) == 281474976710656 by { assert Pow256(5) == 1099511627776; }
  }

  /** Byte `i` of `v`, counting from the least significant. */
  function Digit(v: nat, i: nat): Byte {
    if i == 0 then v % 256 else Digit(v / 256, i - 1)
  }

  function U64(v: nat): (b: seq<Byte>)
    ensures |b| == 8
  {
    seq(8, i requires 0 <= i => Digit(v, i))
  }

  lemma {:induction false} LeBytesDigit(v: nat, n: nat, i: nat)
    requires i < n
    ensures LeBytes(v, n)[i] == Digit(v, i)
  {
    if i > 0 {
      LeBytesDigit(v / 256, n - 1, i - 1);
    }
  }

  lemma U64Bytes(v: nat)
    ensures U64(v) == LeBytes(v, 8)
  {
    forall i | 0 <= i < 8 ensures U64(v)[i] == LeBytes(v, 8)[i] {
      LeBytesDigit(v, 8, i);
    }
  }

  lemma U64RoundTrip(v: nat)
    requires v <= MAX_SAFE
    ensures LeValue(U64(v)) == v
  {
    U64Bytes(v);
    SafeFitsEightBytes();
    LeValueOfBytes(v, 8);
  }

  /** Eight bytes, the least significant first. */
  function Word(n: nat): (b: seq<Byte>)
    ensures |b| == 8
  {
    [n % 0x100, n / 0x100 % 0x100, n / 0x1_0000 % 0x100, n / 0x100_0000 % 0x100,
     n / 0x1_0000_0000 % 0x100, n / 0x100_0000_0000 % 0x100, n / 0x1_0000_0000_0000 % 0x100, n / 0x100_0000_0000_0000 % 0x100]
  }

  lemma LowDigits(n: nat)
    ensures Digit(n, 0) == n % 0x100 && Digit(n, 1) == n / 0x100 % 0x100
    ensures Digit(n, 2) == n / 0x1_0000 % 0x100 && Digit(n, 3) == n / 0x100_0000 % 0x100
  {
    var a, b := n / 0x100, n / 0x1_0000;
    assert a / 0x100 == b && b / 0x100 == n / 0x100_0000;
    assert Digit(n, 1) == Digit(a, 0);
    assert Digit(n, 2) == Digit(a, 1) == Digit(b, 0);
    assert Digit(n, 3) == Digit(a, 2) == Digit(b, 1) == Digit(n / 0x100_0000, 0);
  }

  lemma DigitShift(n: nat, i: nat)
    ensures Digit(n, i + 4) == Digit(n / 0x1_0000_0000, i)
  {
    var a, b, c := n / 0x100, n / 0x1_0000, n / 0x100_0000;
    assert a / 0x100 == b && b / 0x100 == c && c / 0x100 == n / 0x1_0000_0000;
    assert Digit(n, i + 4) == Digit(a, i + 3);
    assert Digit(a, i + 3) == Digit(b, i + 2);
    assert Digit(b, i + 2) == Digit(c, i + 1);
    assert Digit(c, i + 1) == Digit(c / 0x100, i);
  }

  lemma WordIs(n: nat)
    ensures U64(n) == Word(n)
  {
    var high := n / 0x1_0000_0000;
    LowDigits(n);
    LowDigits(high);
    DigitShift(n, 0);
    DigitShift(n, 1);
    DigitShift(n, 2);
    DigitShift(n, 3);
    assert high / 0x100 == n / 0x100_0000_0000 && high / 0x1_0000 == n / 0x1_0000_0000_0000 && high / 0x100_0000 == n / 0x100_0000_0000_0000;
    var u := U64(n);
    assert u[0] == Digit(n, 0) && u[1] == Digit(n, 1) && u[2] == Digit(n, 2) && u[3] == Digit(n, 3);
    assert u[4] == Digit(n, 4) && u[5] == Digit(n, 5) && u[6] == Digit(n, 6) && u[7] == Digit(n, 7);
  }

  /** Four bytes, the least significant first. */
  function HalfWord(n: nat): (b: seq<Byte>)
    ensures |b| == 4
  {
    [n % 0x100, n / 0x100 % 0x100, n / 0x1_0000 % 0x100, n / 0x100_0000 % 0x100]
  }

  lemma HalfWordIs(n: nat)
    ensures LeBytes(n, 4) == HalfWord(n)
  {
    LowDigits(n);
    LeBytesDigit(n, 4, 0);
    LeBytesDigit(n, 4, 1);
    LeBytesDigit(n, 4, 2);
    LeBytesDigit(n, 4, 3);
  }

  function Zeros(n: nat): (b: seq<Byte>)
    ensures |b| == n
  {
    seq(n, _ => 0)
  }

  ghost predicate SameAt(b: seq<Byte>, off: nat, part: seq<Byte>, i: nat)
    requires i < |part| && off + |part| <= |b|
  {
    b[off + i] == part[i]
  }

  // Facts about the recursive codecs are stated behind a quantifier with one of these
  // predicates as its trigger, so that a proof unfolds a codec only where it asks to.

  predicate AskWriter(u: int) {
    true
  }

  predicate AskReader(u: int) {
    true
  }

  predicate AskHead(u: int) {
    true
  }

  /** `b` holds `part` at `off`. Instances are drawn by naming `SameAt`. */
  ghost predicate HasAt(b: seq<Byte>, off: nat, part: seq<Byte>) {
    off + |part| <= |b| && forall i: nat {:trigger SameAt(b, off, part, i)} :: i < |part| ==> SameAt(b, off, part, i)
  }

  lemma HasAtSplit(b: seq<Byte>, off: nat, first: seq<Byte>, second: seq<Byte>)
    requires HasAt(b, off, first + second)
    ensures HasAt(b, off, first)
    ensures HasAt(b, off + |first|, second)
  {
    var all := first + second;
    forall i: nat | i < |first| ensures SameAt(b, off, first, i) {
      assert SameAt(b, off, all, i);
    }
    forall i: nat {:trigger SameAt(b, off + |first|, second, i)} | i < |second| ensures SameAt(b, off + |first|, second, i) {
      assert SameAt(b, off, all, |first| + i);
    }
  }

  lemma HasAtOfConcat(pre: seq<Byte>, part: seq<Byte>, post: seq<Byte>)
    ensures HasAt(pre + part + post, |pre|, part)
  {
    var b := pre + part + post;
    forall i: nat | i < |part| ensures SameAt(b, |pre|, part, i) {
      assert b[|pre| + i] == (pre + part)[|pre| + i] == part[i];
    }
  }

  /** The slice where `part` is held is `part`. */
  lemma HasAtSlice(b: seq<Byte>, off: nat, part: seq<Byte>)
    requires HasAt(b, off, part)
    ensures b[off..off + |part|] == part
  {
    var cut := b[off..off + |part|];
    assert forall i: nat {:trigger cut[i]} :: i < |part| && SameAt(b, off, part, i) ==> cut[i] == part[i];
  }
}
