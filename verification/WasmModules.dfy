/** Modules in the binary format of the WebAssembly Core Specification (sections 5.2.2, 5.3, 5.5.2
    and 5.5.5), as far as their imports go, and what the scanner finds in them. The format is written
    down in its own numerals and shares nothing with the scanner. */
module WasmModules {
  import opened Bytes
  import opened WasmImports

  // ----- The format -----

  /** Bytes that encode an unsigned 32-bit integer: groups of seven bits, the least significant
      first, all but the last marked, five at most. Padding is allowed. */
  predicate IsLeb(b: seq<Byte>, v: nat) {
    1 <= |b| <= 5 && v < 0x1_0000_0000 && v < Pow128(|b|) && b == Leb(v, |b|)
  }

  /** `v` in `width` groups of seven bits. */
  function Leb(v: nat, width: nat): (b: seq<Byte>)
    requires width >= 1
    ensures |b| == width
  {
    if width == 1 then [v % 128] else [128 + v % 128] + Leb(v / 128, width - 1)
  }

  /** An integer as it is written. */
  datatype Num = Num(value: nat, bytes: seq<Byte>)

  predicate AskNum(u: int) {
    true
  }

  ghost predicate NumOk(n: Num) {
    forall u {:trigger AskNum(u)} :: AskNum(u) ==> IsLeb(n.bytes, n.value)
  }

  /** A name and its length as it is written. */
  datatype Name = Name(bytes: Text, size: Num)

  ghost predicate NameOk(n: Name) {
    NumOk(n.size) && n.size.value == |n.bytes|
  }

  function NameBytes(n: Name): seq<Byte> {
    n.size.bytes + n.bytes
  }

  /** The limits of a memory or table: `shared` and `wide`, which is 64-bit, are what the flags
      say, and `others` are the flags above them. */
  datatype Bounds = Bounds(flags: Num, initial: Num, maximum: Option<Num>, shared: bool, wide: bool, others: nat)

  function Flags(bounded: bool, shared: bool, wide: bool, others: nat): nat {
    (if bounded then 1 else 0) + (if shared then 2 else 0) + (if wide then 4 else 0) + 8 * others
  }

  ghost predicate BoundsOk(l: Bounds) {
    && NumOk(l.flags) && NumOk(l.initial) && (l.maximum.Some? ==> NumOk(l.maximum.value))
    && l.flags.value == Flags(l.maximum.Some?, l.shared, l.wide, l.others)
  }

  function BoundsBytes(l: Bounds): seq<Byte> {
    l.flags.bytes + (l.initial.bytes + if l.maximum.Some? then l.maximum.value.bytes else [])
  }

  datatype Desc =
    | Function(t: Num)
    | Table(reftype: Byte, limits: Bounds)
    | Memory(limits: Bounds)
    | Global(valtype: Byte, mutability: Byte)
    | Tag(attribute: Num, t: Num)

  ghost predicate DescOk(d: Desc) {
    match d
    case Function(t) => NumOk(t)
    case Table(_, limits) => BoundsOk(limits)
    case Memory(limits) => BoundsOk(limits)
    case Global(_, _) => true
    case Tag(attribute, t) => NumOk(attribute) && NumOk(t)
  }

  function Kind(d: Desc): Byte {
    match d
    case Function(_) => 0
    case Table(_, _) => 1
    case Memory(_) => 2
    case Global(_, _) => 3
    case Tag(_, _) => 4
  }

  function DescBytes(d: Desc): seq<Byte> {
    match d
    case Function(t) => t.bytes
    case Table(reftype, limits) => [reftype] + BoundsBytes(limits)
    case Memory(limits) => BoundsBytes(limits)
    case Global(valtype, mutability) => [valtype, mutability]
    case Tag(attribute, t) => attribute.bytes + t.bytes
  }

  datatype Entry = Entry(moduleName: Name, name: Name, desc: Desc)

  ghost predicate EntryOk(e: Entry) {
    NameOk(e.moduleName) && NameOk(e.name) && DescOk(e.desc)
  }

  function EntryBytes(e: Entry): seq<Byte> {
    NameBytes(e.moduleName) + (NameBytes(e.name) + ([Kind(e.desc)] + DescBytes(e.desc)))
  }

  datatype Entries = NoEntry | OneEntry(entry: Entry, rest: Entries)

  function Length(es: Entries): nat {
    if es.NoEntry? then 0 else 1 + Length(es.rest)
  }

  ghost predicate EntriesOk(es: Entries) {
    es.OneEntry? ==> EntryOk(es.entry) && EntriesOk(es.rest)
  }

  function EntriesBytes(es: Entries): seq<Byte> {
    if es.NoEntry? then [] else EntryBytes(es.entry) + EntriesBytes(es.rest)
  }

  /** A section: the imports, or anything else. */
  datatype Part = ImportPart(entries: Entries, count: Num, size: Num) | OtherPart(id: Byte, payload: seq<Byte>, size: Num)

  function Payload(p: Part): seq<Byte> {
    match p
    case ImportPart(es, count, _) => count.bytes + EntriesBytes(es)
    case OtherPart(_, payload, _) => payload
  }

  function Id(p: Part): Byte {
    if p.ImportPart? then 2 else p.id
  }

  ghost predicate PartOk(p: Part) {
    && NumOk(p.size) && p.size.value == |Payload(p)|
    && (if p.ImportPart? then NumOk(p.count) && p.count.value == Length(p.entries) && EntriesOk(p.entries) else p.id != 2)
  }

  function PartBytes(p: Part): seq<Byte> {
    [Id(p)] + (p.size.bytes + Payload(p))
  }

  datatype Parts = NoPart | OnePart(part: Part, rest: Parts)

  ghost predicate PartsOk(ps: Parts) {
    ps.OnePart? ==> PartOk(ps.part) && PartsOk(ps.rest)
  }

  function PartsBytes(ps: Parts): seq<Byte> {
    if ps.NoPart? then [] else PartBytes(ps.part) + PartsBytes(ps.rest)
  }

  function ModuleBytes(version: seq<Byte>, ps: Parts): seq<Byte> {
    [0x00, 0x61, 0x73, 0x6d] + (version + PartsBytes(ps))
  }

  // ----- What is to be found -----

  /** The memory an import declares, with its names as they are written. */
  function MemoryOf(e: Entry): seq<Import> {
    if e.desc.Memory? then [MemoryNamed(e.desc.limits, e.moduleName.bytes, e.name.bytes)] else []
  }

  function MemoryNamed(l: Bounds, m: Text, n: Text): Import {
    Import(m, n, l.initial.value, if l.maximum.Some? then Some(l.maximum.value.value) else None, l.shared)
  }

  function MemoriesOf(es: Entries): seq<Import> {
    if es.NoEntry? then [] else MemoryOf(es.entry) + MemoriesOf(es.rest)
  }

  /** The memory imports of a module, in order. */
  function AllMemories(ps: Parts): seq<Import> {
    if ps.NoPart? then []
    else (if ps.part.ImportPart? then MemoriesOf(ps.part.entries) else []) + AllMemories(ps.rest)
  }

  /** The imports in a list, in order. */
  function Items(a: Imports): seq<Import> {
    if a.Nil? then [] else [a.head] + Items(a.tail)
  }

  // What the scanner makes of them: its text decoder drops a mark at the start of a name.

  function MemoryRead(e: Entry): Imports {
    if e.desc.Memory? then Cons(MemoryNamed(e.desc.limits, DecodeText(e.moduleName.bytes), DecodeText(e.name.bytes)), Nil) else Nil
  }

  function MemoriesRead(es: Entries): Imports {
    if es.NoEntry? then Nil else Append(MemoryRead(es.entry), MemoriesRead(es.rest))
  }

  function AllMemoriesRead(ps: Parts): Imports {
    if ps.NoPart? then Nil
    else Append(if ps.part.ImportPart? then MemoriesRead(ps.part.entries) else Nil, AllMemoriesRead(ps.rest))
  }

  predicate Wide(e: Entry) {
    e.desc.Memory? && e.desc.limits.wide
  }

  predicate NoneWide(es: Entries) {
    es.OneEntry? ==> !Wide(es.entry) && NoneWide(es.rest)
  }

  predicate NoneWideIn(ps: Parts) {
    ps.OnePart? ==> (ps.part.ImportPart? ==> NoneWide(ps.part.entries)) && NoneWideIn(ps.rest)
  }

  // ----- Integers -----

  /** The integer at `off`, read up to `end`, is `v` and ends at `next`. */
  ghost predicate VarIs(data: seq<Byte>, off: nat, end: nat, v: nat, next: nat) {
    end <= |data| && forall u {:trigger AskNum(u)} :: AskNum(u) ==> ReadVar(data, off, end) == Done(v, next)
  }

  lemma {:induction false} GroupsMove(data: seq<Byte>, off: nat, b: seq<Byte>, i: nat)
    requires i <= |b| && HasAt(data, off, b)
    ensures Groups(data, off + i, |b| - i) == Groups(b, i, |b| - i)
    decreases |b| - i
  {
    if i < |b| {
      assert SameAt(data, off, b, i);
      GroupsMove(data, off, b, i + 1);
    }
  }

  lemma {:induction false} LebEnds(data: seq<Byte>, off: nat, end: nat, b: seq<Byte>, i: nat, last: nat)
    requires i < |b| && HasAt(data, off, b) && off + |b| <= end <= |data| && off + |b| <= last
    requires b[|b| - 1] < 128 && forall j :: 0 <= j < |b| - 1 ==> b[j] >= 128
    ensures VarEnd(data, off + i, end, last) == Some(off + |b|)
    decreases |b| - i
  {
    assert SameAt(data, off, b, i);
    if i < |b| - 1 {
      LebEnds(data, off, end, b, i + 1, last);
    }
  }

  /** A written integer is read back, whatever follows it. */
  lemma NumReads(data: seq<Byte>, off: nat, end: nat, n: Num)
    requires NumOk(n) && off + |n.bytes| <= end <= |data| && HasAt(data, off, n.bytes)
    ensures VarIs(data, off, end, n.value, off + |n.bytes|)
  {
    var b := n.bytes;
    LebShape(n);
    var next := LebEnd(data, off, end, b);
    var v := LebValue(data, off, b);
    VarFound(data, off, end, next, v);
  }

  lemma LebShape(n: Num)
    requires NumOk(n)
    ensures var b := n.bytes;
            && 1 <= |b| <= 5 && b[|b| - 1] < 128 && (forall j :: 0 <= j < |b| - 1 ==> b[j] >= 128)
            && Groups(b, 0, |b|) == n.value < TWO32
  {
    assert AskNum(0);
    LebGroups(n.value, |n.bytes|);
  }

  lemma LebEnd(data: seq<Byte>, off: nat, end: nat, b: seq<Byte>) returns (next: nat)
    requires 1 <= |b| <= 5 && HasAt(data, off, b) && off + |b| <= end <= |data|
    requires b[|b| - 1] < 128 && forall j :: 0 <= j < |b| - 1 ==> b[j] >= 128
    ensures next == off + |b| && VarEnd(data, off, end, off + 5) == Some(next)
  {
    next := off + |b|;
    LebEnds(data, off, end, b, 0, off + 5);
  }

  lemma LebValue(data: seq<Byte>, off: nat, b: seq<Byte>) returns (v: nat)
    requires HasAt(data, off, b)
    ensures v == Groups(b, 0, |b|) == Groups(data, off, |b|)
  {
    v := Groups(b, 0, |b|);
    GroupsMove(data, off, b, 0);
  }

  lemma VarFound(data: seq<Byte>, off: nat, end: nat, next: nat, v: nat)
    requires end <= |data| && VarEnd(data, off, end, off + 5) == Some(next) && Groups(data, off, next - off) == v < TWO32
    ensures VarIs(data, off, end, v, next)
  {
  }

  // Every integer below 2^32 can be written in any number of bytes, up to five, that holds it.

  lemma {:induction false} LebGroups(v: nat, width: nat)
    requires width >= 1 && v < Pow128(width)
    ensures var b := Leb(v, width);
            Groups(b, 0, width) == v && b[width - 1] < 128 && forall i :: 0 <= i < width - 1 ==> b[i] >= 128
    decreases width
  {
    var b := Leb(v, width);
    if width == 1 {
      assert Pow128(0) == 1;
      assert Groups(b, 1, 0) == 0;
    } else {
      HighBelow(v, width);
      LebGroups(v / 128, width - 1);
      var tail := Leb(v / 128, width - 1);
      assert b == [128 + v % 128] + tail;
      assert forall i: nat | i < |tail| :: SameAt(b, 1, tail, i);
      GroupsMove(b, 1, tail, 0);
    }
  }

  lemma HighBelow(v: nat, width: nat)
    requires width >= 1 && v < Pow128(width)
    ensures v / 128 < Pow128(width - 1)
  {
  }

  lemma PaddedOk(v: nat, width: nat)
    requires 1 <= width <= 5 && v < Pow128(width) && v < TWO32
    ensures NumOk(Num(v, Leb(v, width)))
  {
  }

  // ----- Names and limits -----

  lemma NameStep(data: seq<Byte>, off: nat, end: nat, length: nat, at: nat, text: seq<Byte>)
    requires VarIs(data, off, end, length, at) && length == |text| && at + length <= end && HasAt(data, at, text)
    ensures ReadName(data, off, end) == Done(DecodeText(text), at + length)
  {
    assert AskNum(0);
    HasAtSlice(data, at, text);
  }

  lemma NameReads(data: seq<Byte>, off: nat, end: nat, n: Name)
    requires NameOk(n) && off + |NameBytes(n)| <= end <= |data| && HasAt(data, off, NameBytes(n))
    ensures ReadName(data, off, end) == Done(DecodeText(n.bytes), off + |NameBytes(n)|)
  {
    HasAtSplit(data, off, n.size.bytes, n.bytes);
    NumReads(data, off, end, n.size);
    NameStep(data, off, end, n.size.value, off + |n.size.bytes|, n.bytes);
  }

  function LimitsOf(l: Bounds): Limits {
    Limits(l.flags.value, l.initial.value, if l.maximum.Some? then Some(l.maximum.value.value) else None)
  }

  lemma LimitsUnbounded(data: seq<Byte>, off: nat, end: nat, flags: nat, a: nat, initial: nat, b: nat)
    requires VarIs(data, off, end, flags, a) && VarIs(data, a, end, initial, b) && flags % 2 == 0
    ensures ReadLimits(data, off, end) == Done(Limits(flags, initial, None), b)
  {
    assert AskNum(0);
  }

  lemma LimitsBounded(data: seq<Byte>, off: nat, end: nat, flags: nat, a: nat, initial: nat, b: nat, maximum: nat, c: nat)
    requires VarIs(data, off, end, flags, a) && VarIs(data, a, end, initial, b) && flags % 2 == 1 && VarIs(data, b, end, maximum, c)
    ensures ReadLimits(data, off, end) == Done(Limits(flags, initial, Some(maximum)), c)
  {
    assert AskNum(0);
  }

  lemma BoundsRead(data: seq<Byte>, off: nat, end: nat, l: Bounds)
    requires BoundsOk(l) && off + |BoundsBytes(l)| <= end <= |data| && HasAt(data, off, BoundsBytes(l))
    ensures ReadLimits(data, off, end) == Done(LimitsOf(l), off + |BoundsBytes(l)|)
  {
    var maximum := if l.maximum.Some? then l.maximum.value.bytes else [];
    HasAtSplit(data, off, l.flags.bytes, l.initial.bytes + maximum);
    var a := off + |l.flags.bytes|;
    HasAtSplit(data, a, l.initial.bytes, maximum);
    var b := a + |l.initial.bytes|;
    NumReads(data, off, end, l.flags);
    NumReads(data, a, end, l.initial);
    FlagsRead(l.maximum.Some?, l.shared, l.wide, l.others);
    if l.maximum.Some? {
      NumReads(data, b, end, l.maximum.value);
      LimitsBounded(data, off, end, l.flags.value, a, l.initial.value, b, l.maximum.value.value, b + |maximum|);
    } else {
      LimitsUnbounded(data, off, end, l.flags.value, a, l.initial.value, b);
    }
  }

  lemma FunctionSkips(data: seq<Byte>, off: nat, end: nat, v: nat, next: nat)
    requires VarIs(data, off, end, v, next)
    ensures SkipDescriptor(data, off, end, 0) == Done((), next)
  {
    assert AskNum(0);
  }

  lemma TagSkips(data: seq<Byte>, off: nat, end: nat, v: nat, mid: nat, w: nat, next: nat)
    requires VarIs(data, off, end, v, mid) && VarIs(data, mid, end, w, next)
    ensures SkipDescriptor(data, off, end, 4) == Done((), next)
  {
    assert AskNum(0);
  }

  lemma DescSkips(data: seq<Byte>, off: nat, end: nat, d: Desc)
    requires DescOk(d) && !d.Memory? && off + |DescBytes(d)| <= end <= |data| && HasAt(data, off, DescBytes(d))
    ensures SkipDescriptor(data, off, end, Kind(d)) == Done((), off + |DescBytes(d)|)
  {
    match d
    case Function(t) =>
      NumReads(data, off, end, t);
      FunctionSkips(data, off, end, t.value, off + |t.bytes|);
    case Table(reftype, limits) => TableSkips(data, off, end, reftype, limits);
    case Global(_, _) =>
    case Tag(attribute, t) => TagReads(data, off, end, attribute, t);
  }

  lemma TagReads(data: seq<Byte>, off: nat, end: nat, attribute: Num, t: Num)
    requires NumOk(attribute) && NumOk(t) && off + |attribute.bytes| + |t.bytes| <= end <= |data|
    requires HasAt(data, off, attribute.bytes + t.bytes)
    ensures SkipDescriptor(data, off, end, 4) == Done((), off + |attribute.bytes| + |t.bytes|)
  {
    HasAtSplit(data, off, attribute.bytes, t.bytes);
    var mid := off + |attribute.bytes|;
    NumReads(data, off, end, attribute);
    NumReads(data, mid, end, t);
    TagSkips(data, off, end, attribute.value, mid, t.value, mid + |t.bytes|);
  }

  lemma TableSkips(data: seq<Byte>, off: nat, end: nat, reftype: Byte, l: Bounds)
    requires BoundsOk(l) && off + 1 + |BoundsBytes(l)| <= end <= |data| && HasAt(data, off, [reftype] + BoundsBytes(l))
    ensures SkipDescriptor(data, off, end, 1) == Done((), off + 1 + |BoundsBytes(l)|)
  {
    HasAtSplit(data, off, [reftype], BoundsBytes(l));
    BoundsRead(data, off + 1, end, l);
  }

  // ----- Imports -----

  ghost predicate EntryGives(data: seq<Byte>, off: nat, end: nat, r: Read<Imports>) {
    forall u {:trigger AskEntry(u)} :: AskEntry(u) ==> end <= |data| && ReadImport(data, off, end) == r
  }

  /** What the scanner makes of one import that ends at `next`. */
  function DescGives(d: Desc, m: Text, n: Text, next: nat): Read<Imports> {
    if !d.Memory? then Done(Nil, next)
    else if d.limits.wide then Fail(Memory64)
    else Done(Cons(MemoryNamed(d.limits, m, n), Nil), next)
  }

  /** The scanner's tests of the flags see what the format puts there. */
  lemma FlagsRead(bounded: bool, shared: bool, wide: bool, others: nat)
    ensures var flags := Flags(bounded, shared, wide, others);
            (flags % 2 == 1 <==> bounded) && (IsShared(flags) <==> shared) && (IsMemory64(flags) <==> wide)
  {
    var low := (if bounded then 1 else 0) + (if shared then 2 else 0) + (if wide then 4 else 0);
    LowFlags(low, others);
  }

  /** The flags above the three do not show in them. */
  lemma LowFlags(low: nat, others: nat)
    requires low < 8
    ensures (low + 8 * others) % 2 == low % 2
    ensures (low + 8 * others) / 2 % 2 == low / 2 % 2
    ensures (low + 8 * others) / 4 % 2 == low / 4 % 2
  {
    assert (low + 8 * others) / 2 == low / 2 + 4 * others;
    assert (low + 8 * others) / 4 == low / 4 + 2 * others;
    EvenDrops(low, 4 * others);
    EvenDrops(low / 2, 2 * others);
    EvenDrops(low / 4, others);
  }

  lemma EvenDrops(n: nat, k: nat)
    ensures (n + 2 * k) % 2 == n % 2
  {
  }

  lemma MemoryReads(data: seq<Byte>, at: nat, end: nat, m: Text, n: Text, l: Limits, next: nat)
    requires at < end <= |data| && data[at] == 2 && ReadLimits(data, at + 1, end) == Done(l, next)
    ensures ReadDescriptor(data, at, end, m, n) ==
            if IsMemory64(l.flags) then Fail(Memory64) else Done(Cons(Import(m, n, l.initial, l.maximum, IsShared(l.flags)), Nil), next)
  {
  }

  lemma OtherReads(data: seq<Byte>, at: nat, end: nat, m: Text, n: Text, kind: Byte, next: nat)
    requires at < end <= |data| && data[at] == kind != 2 && SkipDescriptor(data, at + 1, end, kind) == Done((), next)
    ensures ReadDescriptor(data, at, end, m, n) == Done(Nil, next)
  {
  }

  lemma DescReads(data: seq<Byte>, at: nat, end: nat, m: Text, n: Text, d: Desc)
    requires end <= |data| && DescOk(d) && at + 1 + |DescBytes(d)| <= end && data[at] == Kind(d) && HasAt(data, at + 1, DescBytes(d))
    ensures ReadDescriptor(data, at, end, m, n) == DescGives(d, m, n, at + 1 + |DescBytes(d)|)
  {
    if d.Memory? {
      MemoryDesc(data, at, end, m, n, d.limits);
    } else {
      OtherDesc(data, at, end, m, n, d);
    }
  }

  lemma MemoryDesc(data: seq<Byte>, at: nat, end: nat, m: Text, n: Text, l: Bounds)
    requires BoundsOk(l) && end <= |data| && at + 1 + |BoundsBytes(l)| <= end && data[at] == 2 && HasAt(data, at + 1, BoundsBytes(l))
    ensures ReadDescriptor(data, at, end, m, n) == DescGives(Memory(l), m, n, at + 1 + |BoundsBytes(l)|)
  {
    BoundsRead(data, at + 1, end, l);
    FlagsRead(l.maximum.Some?, l.shared, l.wide, l.others);
    MemoryReads(data, at, end, m, n, LimitsOf(l), at + 1 + |BoundsBytes(l)|);
  }

  lemma OtherDesc(data: seq<Byte>, at: nat, end: nat, m: Text, n: Text, d: Desc)
    requires !d.Memory? && DescOk(d) && end <= |data|
    requires at + 1 + |DescBytes(d)| <= end && data[at] == Kind(d) && HasAt(data, at + 1, DescBytes(d))
    ensures ReadDescriptor(data, at, end, m, n) == Done(Nil, at + 1 + |DescBytes(d)|)
  {
    DescSkips(data, at + 1, end, d);
    OtherReads(data, at, end, m, n, Kind(d), at + 1 + |DescBytes(d)|);
  }

  lemma ImportReads(data: seq<Byte>, off: nat, end: nat, m: Text, n: Text, mid: nat, at: nat, r: Read<Imports>)
    requires end <= |data| && ReadName(data, off, end) == Done(m, mid) && ReadName(data, mid, end) == Done(n, at)
    requires ReadDescriptor(data, at, end, m, n) == r
    ensures EntryGives(data, off, end, r)
  {
  }

  function EntryResult(e: Entry, next: nat): Read<Imports> {
    DescGives(e.desc, DecodeText(e.moduleName.bytes), DecodeText(e.name.bytes), next)
  }

  lemma EntryReads(data: seq<Byte>, off: nat, end: nat, e: Entry)
    requires EntryOk(e) && end <= |data| && off + |EntryBytes(e)| <= end && HasAt(data, off, EntryBytes(e))
    ensures EntryGives(data, off, end, EntryResult(e, off + |EntryBytes(e)|))
  {
    var first, second, desc := NameBytes(e.moduleName), NameBytes(e.name), DescBytes(e.desc);
    EntryParts(data, off, first, second, Kind(e.desc), desc);
    var mid, at := off + |first|, off + |first| + |second|;
    NameReads(data, off, end, e.moduleName);
    NameReads(data, mid, end, e.name);
    DescReads(data, at, end, DecodeText(e.moduleName.bytes), DecodeText(e.name.bytes), e.desc);
    ImportReads(data, off, end, DecodeText(e.moduleName.bytes), DecodeText(e.name.bytes), mid, at, EntryResult(e, at + 1 + |desc|));
  }

  lemma EntryParts(data: seq<Byte>, off: nat, first: seq<Byte>, second: seq<Byte>, kind: Byte, desc: seq<Byte>)
    requires HasAt(data, off, first + (second + ([kind] + desc)))
    ensures HasAt(data, off, first) && HasAt(data, off + |first|, second)
    ensures off + |first| + |second| < |data| && data[off + |first| + |second|] == kind
    ensures HasAt(data, off + |first| + |second| + 1, desc)
  {
    HasAtSplit(data, off, first, second + ([kind] + desc));
    HasAtSplit(data, off + |first|, second, [kind] + desc);
    var at := off + |first| + |second|;
    HasAtSplit(data, at, [kind], desc);
    assert SameAt(data, at, [kind], 0);
  }

  ghost predicate EntriesAt(data: seq<Byte>, off: nat, es: Entries, end: nat) {
    forall u {:trigger AskWriter(u)} :: AskWriter(u) ==> HasAt(data, off, EntriesBytes(es)) && end == off + |EntriesBytes(es)|
  }

  ghost predicate EntriesGive(data: seq<Byte>, off: nat, end: nat, count: nat, r: Read<Imports>) {
    forall u {:trigger AskImport(count, u)} :: AskImport(count, u) ==> end <= |data| && ReadImports(data, off, end, count) == r
  }

  lemma EntryAt(data: seq<Byte>, off: nat, es: Entries, end: nat) returns (next: nat)
    requires es.OneEntry? && EntriesAt(data, off, es, end)
    ensures next == off + |EntryBytes(es.entry)| <= end && HasAt(data, off, EntryBytes(es.entry)) && EntriesAt(data, next, es.rest, end)
  {
    assert AskWriter(0);
    HasAtSplit(data, off, EntryBytes(es.entry), EntriesBytes(es.rest));
    next := off + |EntryBytes(es.entry)|;
  }

  lemma EntriesStep(data: seq<Byte>, off: nat, end: nat, count: nat, first: Read<Imports>, rest: Read<Imports>)
    requires end <= |data| && count > 0 && EntryGives(data, off, end, first)
    requires first.Done? ==> EntriesGive(data, first.next, end, count - 1, rest)
    ensures EntriesGive(data, off, end, count, if first.Fail? then first else Before(first.value, rest))
  {
    assert AskEntry(0) && AskImport(count - 1, 0);
  }

  lemma EntriesNone(data: seq<Byte>, off: nat, es: Entries, end: nat)
    requires end <= |data| && EntriesAt(data, off, es, end) && es.NoEntry?
    ensures off == end && EntriesGive(data, off, end, 0, Done(Nil, end))
  {
    assert AskWriter(0);
  }

  /** What the scanner makes of a list of imports that ends at `end`. */
  function EntriesResult(es: Entries, end: nat): Read<Imports> {
    if NoneWide(es) then Done(MemoriesRead(es), end) else Fail(Memory64)
  }

  lemma ResultStep(es: Entries, next: nat, end: nat)
    requires es.OneEntry?
    ensures var first, rest := EntryResult(es.entry, next), EntriesResult(es.rest, end);
            && EntriesResult(es, end) == (if first.Fail? then first else Before(first.value, rest))
            && (first.Done? ==> first.next == next)
  {
  }

  predicate AskResult(u: int, es: Entries) {
    true
  }

  ghost predicate ResultIs(es: Entries, end: nat, r: Read<Imports>) {
    forall u {:trigger AskResult(u, es)} :: AskResult(u, es) ==> r == EntriesResult(es, end)
  }

  ghost predicate FirstIs(es: Entries, next: nat, first: Read<Imports>) {
    forall u {:trigger AskResult(u, es)} :: AskResult(u, es) ==> es.OneEntry? && first == EntryResult(es.entry, next)
  }

  lemma FirstRead(data: seq<Byte>, off: nat, es: Entries, next: nat, end: nat) returns (first: Read<Imports>)
    requires es.OneEntry? && EntryOk(es.entry) && end <= |data| && next == off + |EntryBytes(es.entry)| <= end
    requires HasAt(data, off, EntryBytes(es.entry))
    ensures EntryGives(data, off, end, first) && FirstIs(es, next, first) && (first.Done? ==> first.next == next)
  {
    EntryReads(data, off, end, es.entry);
    first := EntryResult(es.entry, next);
  }

  lemma NoneResult(es: Entries, end: nat)
    requires es.NoEntry?
    ensures ResultIs(es, end, Done(Nil, end))
  {
  }

  lemma {:induction false} EntriesRead(data: seq<Byte>, off: nat, es: Entries, end: nat) returns (r: Read<Imports>)
    requires end <= |data| && EntriesAt(data, off, es, end) && EntriesOk(es)
    ensures EntriesGive(data, off, end, Length(es), r) && ResultIs(es, end, r)
    decreases es
  {
    if es.NoEntry? {
      EntriesNone(data, off, es, end);
      NoneResult(es, end);
      r := Done(Nil, end);
    } else {
      var next := EntryAt(data, off, es, end);
      var first := FirstRead(data, off, es, next, end);
      var rest := EntriesRead(data, next, es.rest, end);
      r := if first.Fail? then first else Before(first.value, rest);
      EntriesStep(data, off, end, Length(es), first, rest);
      ResultFits(es, next, end, first, rest, r);
    }
  }

  lemma ResultFits(es: Entries, next: nat, end: nat, first: Read<Imports>, rest: Read<Imports>, r: Read<Imports>)
    requires es.OneEntry? && FirstIs(es, next, first) && ResultIs(es.rest, end, rest)
    requires r == if first.Fail? then first else Before(first.value, rest)
    ensures ResultIs(es, end, r)
  {
    assert AskResult(0, es) && AskResult(0, es.rest);
    ResultStep(es, next, end);
  }

  // ----- Sections -----

  ghost predicate SectionGives(data: seq<Byte>, from: nat, end: nat, r: Read<Imports>) {
    forall u {:trigger AskEntry(u)} :: AskEntry(u) ==> from <= end <= |data| && ReadImportSection(data, from, end) == r
  }

  lemma ImportSectionReads(data: seq<Byte>, from: nat, p: Part, end: nat)
    requires p.ImportPart? && PartOk(p) && end <= |data| && HasAt(data, from, Payload(p)) && end == from + |Payload(p)|
    ensures SectionGives(data, from, end, EntriesResult(p.entries, end))
  {
    var count := p.count;
    var at := from + |count.bytes|;
    CountAt(data, from, count, p.entries, end);
    var r := EntriesRead(data, at, p.entries, end);
    assert AskResult(0, p.entries);
    SectionFromEntries(data, from, end, count.value, at, r);
  }

  lemma CountAt(data: seq<Byte>, from: nat, count: Num, es: Entries, end: nat)
    requires NumOk(count) && HasAt(data, from, count.bytes + EntriesBytes(es))
    requires end == from + |count.bytes| + |EntriesBytes(es)|
    ensures VarIs(data, from, |data|, count.value, from + |count.bytes|)
    ensures EntriesAt(data, from + |count.bytes|, es, end)
  {
    HasAtSplit(data, from, count.bytes, EntriesBytes(es));
    NumReads(data, from, |data|, count);
  }

  lemma SectionFromEntries(data: seq<Byte>, from: nat, end: nat, count: nat, at: nat, r: Read<Imports>)
    requires from <= end <= |data| && VarIs(data, from, |data|, count, at) && EntriesGive(data, at, end, count, r)
    ensures SectionGives(data, from, end, r)
  {
    assert AskImport(count, 0) && AskNum(0);
  }

  lemma HeadReads(data: seq<Byte>, off: nat, p: Part, b: seq<Byte>) returns (from: nat, end: nat)
    requires PartOk(p) && PartIs(b, p) && HasAt(data, off, b)
    ensures off < from <= end == off + |b| <= |data| && end == from + |Payload(p)|
    ensures ReadSectionHead(data, off) == Done(Section(Id(p), from, end), end)
    ensures HasAt(data, from, Payload(p))
  {
    assert AskHead(0);
    var payload := Payload(p);
    from, end := HeadParts(data, off, Id(p), p.size, payload);
  }

  lemma HeadParts(data: seq<Byte>, off: nat, id: Byte, size: Num, payload: seq<Byte>) returns (from: nat, end: nat)
    requires NumOk(size) && size.value == |payload| && HasAt(data, off, [id] + (size.bytes + payload))
    ensures from == off + 1 + |size.bytes| && end == from + |payload| <= |data|
    ensures ReadSectionHead(data, off) == Done(Section(id, from, end), end)
    ensures HasAt(data, from, payload)
  {
    HasAtSplit(data, off, [id], size.bytes + payload);
    assert SameAt(data, off, [id], 0);
    HasAtSplit(data, off + 1, size.bytes, payload);
    NumReads(data, off + 1, |data|, size);
    from, end := off + 1 + |size.bytes|, off + 1 + |size.bytes| + size.value;
    HeadStep(data, off, id, size.value, from);
  }

  lemma HeadStep(data: seq<Byte>, off: nat, id: Byte, size: nat, from: nat)
    requires off < |data| && data[off] == id && VarIs(data, off + 1, |data|, size, from) && from + size <= |data|
    ensures ReadSectionHead(data, off) == Done(Section(id, from, from + size), from + size)
  {
    assert AskNum(0);
  }

  ghost predicate Scans(data: seq<Byte>, off: nat, r: Scan) {
    forall u {:trigger AskReader(u)} :: AskReader(u) ==> ScanSections(data, off) == r
  }

  ghost predicate PartsAt(data: seq<Byte>, off: nat, ps: Parts) {
    forall u {:trigger AskWriter(u)} :: AskWriter(u) ==> HasAt(data, off, PartsBytes(ps)) && |data| == off + |PartsBytes(ps)|
  }

  ghost predicate PartIs(b: seq<Byte>, p: Part) {
    forall u {:trigger AskHead(u)} :: AskHead(u) ==> b == PartBytes(p)
  }

  ghost predicate PartsAre(b: seq<Byte>, ps: Parts) {
    forall u {:trigger AskHead(u)} :: AskHead(u) ==> b == PartsBytes(ps)
  }

  lemma PartsUnfold(ps: Parts) returns (first: seq<Byte>, rest: seq<Byte>)
    requires ps.OnePart?
    ensures PartIs(first, ps.part) && PartsAre(rest, ps.rest) && PartsAre(first + rest, ps)
  {
    first, rest := PartBytes(ps.part), PartsBytes(ps.rest);
  }

  lemma OpenParts(data: seq<Byte>, off: nat, ps: Parts, b: seq<Byte>)
    requires PartsAt(data, off, ps) && PartsAre(b, ps)
    ensures HasAt(data, off, b) && |data| == off + |b|
  {
    assert AskWriter(0) && AskHead(0);
  }

  lemma CloseParts(data: seq<Byte>, off: nat, ps: Parts, b: seq<Byte>)
    requires PartsAre(b, ps) && HasAt(data, off, b) && |data| == off + |b|
    ensures PartsAt(data, off, ps)
  {
    assert AskHead(0);
  }

  lemma PartAt(data: seq<Byte>, off: nat, ps: Parts) returns (part: seq<Byte>)
    requires ps.OnePart? && PartsAt(data, off, ps)
    ensures PartIs(part, ps.part) && HasAt(data, off, part) && PartsAt(data, off + |part|, ps.rest)
  {
    var rest;
    part, rest := PartsUnfold(ps);
    OpenParts(data, off, ps, part + rest);
    HasAtSplit(data, off, part, rest);
    CloseParts(data, off + |part|, ps.rest, rest);
  }

  /** What the scanner makes of one section. */
  function PartGives(p: Part): Scan {
    if p.OtherPart? then Found(Nil) else if NoneWide(p.entries) then Found(MemoriesRead(p.entries)) else Refused(Memory64)
  }

  lemma ScanStep(data: seq<Byte>, off: nat, s: Section, here: Scan, rest: Scan)
    requires off < |data| && ReadSectionHead(data, off) == Done(s, s.end)
    requires s.id == 2 ==>
               SectionGives(data, s.from, s.end, if here.Found? then Done(here.imports, s.end) else Fail(here.error))
    requires s.id != 2 ==> here == Found(Nil)
    requires here.Found? ==> Scans(data, s.end, rest)
    ensures Scans(data, off, if here.Refused? then here else BeforeScan(here.imports, rest))
  {
    assert AskEntry(0) && AskReader(0);
  }

  lemma ScanEnd(data: seq<Byte>, off: nat, ps: Parts)
    requires PartsAt(data, off, ps) && ps.NoPart?
    ensures Scans(data, off, Found(Nil))
  {
    assert AskWriter(0);
  }

  /** What the scanner makes of all of them. */
  function PartsGive(ps: Parts): Scan {
    if NoneWideIn(ps) then Found(AllMemoriesRead(ps)) else Refused(Memory64)
  }

  lemma PartsGiveStep(ps: Parts)
    requires ps.OnePart?
    ensures var here := PartGives(ps.part);
            PartsGive(ps) == if here.Refused? then here else BeforeScan(here.imports, PartsGive(ps.rest))
  {
  }

  predicate AskParts(u: int, ps: Parts) {
    true
  }

  ghost predicate PartsResult(ps: Parts, r: Scan) {
    forall u {:trigger AskParts(u, ps)} :: AskParts(u, ps) ==> r == PartsGive(ps)
  }

  lemma PartsResultStep(ps: Parts, rest: Scan) returns (here: Scan, r: Scan)
    requires ps.OnePart? && PartsResult(ps.rest, rest)
    ensures here == PartGives(ps.part) && r == (if here.Refused? then here else BeforeScan(here.imports, rest)) && PartsResult(ps, r)
  {
    assert AskParts(0, ps.rest);
    PartsGiveStep(ps);
    here := PartGives(ps.part);
    r := if here.Refused? then here else BeforeScan(here.imports, rest);
  }

  lemma PartScan(data: seq<Byte>, off: nat, p: Part, part: seq<Byte>, here: Scan, rest: Scan) returns (end: nat)
    requires PartOk(p) && PartIs(part, p) && HasAt(data, off, part) && here == PartGives(p)
    ensures end == off + |part|
    ensures Scans(data, end, rest) ==> Scans(data, off, if here.Refused? then here else BeforeScan(here.imports, rest))
  {
    var from;
    from, end := HeadReads(data, off, p, part);
    if p.ImportPart? {
      ImportSectionReads(data, from, p, end);
    }
    if Scans(data, end, rest) {
      ScanStep(data, off, Section(Id(p), from, end), here, rest);
    }
  }

  lemma {:induction false} PartsScan(data: seq<Byte>, off: nat, ps: Parts) returns (r: Scan)
    requires PartsAt(data, off, ps) && PartsOk(ps)
    ensures Scans(data, off, r) && PartsResult(ps, r)
    decreases ps
  {
    if ps.NoPart? {
      ScanEnd(data, off, ps);
      r := Found(Nil);
    } else {
      var part := PartAt(data, off, ps);
      var rest := PartsScan(data, off + |part|, ps.rest);
      var here;
      here, r := PartsResultStep(ps, rest);
      var end := PartScan(data, off, ps.part, part, here, rest);
    }
  }

  /** Whatever sections a module has, in whatever order, and however its integers are padded, the
      scanner finds its 32-bit memory imports with their names as it decodes them; a 64-bit one
      makes it refuse the module. */
  lemma ScanReads(version: seq<Byte>, ps: Parts)
    requires |version| == 4 && PartsOk(ps)
    ensures ScanModule(ModuleBytes(version, ps)) == if NoneWideIn(ps) then Found(AllMemoriesRead(ps)) else Refused(Memory64)
  {
    var data := ModuleBytes(version, ps);
    Layout(version, PartsBytes(ps));
    assert PartsAt(data, 8, ps);
    var r := PartsScan(data, 8, ps);
    assert AskParts(0, ps);
    ScanHead(data, r);
  }

  lemma Layout(version: seq<Byte>, rest: seq<Byte>)
    requires |version| == 4
    ensures var data := [0x00, 0x61, 0x73, 0x6d] + (version + rest);
            |data| == 8 + |rest| && data[..4] == [0x00, 0x61, 0x73, 0x6d] && HasAt(data, 8, rest)
  {
    var data := [0x00, 0x61, 0x73, 0x6d] + (version + rest);
    assert forall i: nat | i < |rest| :: SameAt(data, 8, rest, i);
  }

  lemma ScanHead(data: seq<Byte>, r: Scan)
    requires |data| >= 4 && data[..4] == [0x00, 0x61, 0x73, 0x6d] && Scans(data, 8, r)
    ensures ScanModule(data) == r
  {
    assert AskReader(0);
  }

  // ----- Names that are read as they are written -----

  predicate Unmarked(e: Entry) {
    e.desc.Memory? ==> !StartsWithBom(e.moduleName.bytes) && !StartsWithBom(e.name.bytes)
  }

  predicate NoneMarked(es: Entries) {
    es.OneEntry? ==> Unmarked(es.entry) && NoneMarked(es.rest)
  }

  /** No memory import has a module or field name that starts with a byte-order mark. */
  predicate NoneMarkedIn(ps: Parts) {
    ps.OnePart? ==> (ps.part.ImportPart? ==> NoneMarked(ps.part.entries)) && NoneMarkedIn(ps.rest)
  }

  lemma {:induction false} ItemsAppend(a: Imports, b: Imports)
    ensures Items(Append(a, b)) == Items(a) + Items(b)
    decreases a
  {
    if a.Cons? {
      ItemsAppend(a.tail, b);
    }
  }

  lemma ConcatSame(a: seq<Import>, a': seq<Import>, b: seq<Import>, b': seq<Import>)
    requires |a| == |a'|
    ensures a + b == a' + b' <==> a == a' && b == b'
  {
    if a + b == a' + b' {
      assert a == (a + b)[..|a|] && b == (a + b)[|a|..];
      assert a' == (a' + b')[..|a|] && b' == (a' + b')[|a|..];
    }
  }

  lemma MemoryAsWritten(e: Entry)
    ensures Items(MemoryRead(e)) == MemoryOf(e) <==> Unmarked(e)
    ensures |Items(MemoryRead(e))| == |MemoryOf(e)|
  {
    if e.desc.Memory? {
      assert Items(Nil) == [];
      var l := e.desc.limits;
      var r := MemoryNamed(l, DecodeText(e.moduleName.bytes), DecodeText(e.name.bytes));
      assert Items(MemoryRead(e)) == [r] && [r][0] == r;
      assert MemoryOf(e)[0] == MemoryNamed(l, e.moduleName.bytes, e.name.bytes);
    }
  }

  lemma {:induction false} MemoriesAsWritten(es: Entries)
    ensures Items(MemoriesRead(es)) == MemoriesOf(es) <==> NoneMarked(es)
    ensures |Items(MemoriesRead(es))| == |MemoriesOf(es)|
    decreases es
  {
    if es.OneEntry? {
      MemoryAsWritten(es.entry);
      MemoriesAsWritten(es.rest);
      ItemsAppend(MemoryRead(es.entry), MemoriesRead(es.rest));
      ConcatSame(Items(MemoryRead(es.entry)), MemoryOf(es.entry), Items(MemoriesRead(es.rest)), MemoriesOf(es.rest));
    }
  }

  lemma {:induction false} AllAsWritten(ps: Parts)
    ensures Items(AllMemoriesRead(ps)) == AllMemories(ps) <==> NoneMarkedIn(ps)
    decreases ps
  {
    if ps.OnePart? {
      AllAsWritten(ps.rest);
      if ps.part.ImportPart? {
        MemoriesAsWritten(ps.part.entries);
        ItemsAppend(MemoriesRead(ps.part.entries), AllMemoriesRead(ps.rest));
        ConcatSame(Items(MemoriesRead(ps.part.entries)), MemoriesOf(ps.part.entries), Items(AllMemoriesRead(ps.rest)), AllMemories(ps.rest));
      }
    }
  }

  /** Whatever sections a module has, in whatever order, and however its integers are padded: if no
      memory is a 64-bit one, the scanner finds exactly its memory imports, in order, with their
      names, their limits and whether they are shared, if and only if none of those names starts
      with a byte-order mark; and if one is, it refuses the module. */
  lemma ScanExactly(version: seq<Byte>, ps: Parts)
    requires |version| == 4 && PartsOk(ps)
    ensures var r := ScanModule(ModuleBytes(version, ps));
            && (NoneWideIn(ps) ==> r.Found? && (Items(r.imports) == AllMemories(ps) <==> NoneMarkedIn(ps)))
            && (!NoneWideIn(ps) ==> r == Refused(Memory64))
  {
    ScanReads(version, ps);
    AllAsWritten(ps);
  }

  // ----- Modules that are cut off or malformed -----

  /** The bytes at `off` have the form of an integer of `width` bytes that ends before `end`. */
  predicate HasForm(data: seq<Byte>, off: nat, end: nat, width: nat) {
    1 <= width <= 5 && off + width <= end <= |data| && data[off + width - 1] < 128 && forall i :: off <= i < off + width - 1 ==> data[i] >= 128
  }

  lemma {:induction false} EndFound(data: seq<Byte>, cursor: nat, end: nat, last: nat, next: nat)
    requires cursor < next <= end <= |data| && next <= last
    requires data[next - 1] < 128 && forall i :: cursor <= i < next - 1 ==> data[i] >= 128
    ensures VarEnd(data, cursor, end, last) == Some(next)
    decreases next - cursor
  {
    if cursor + 1 < next {
      EndFound(data, cursor + 1, end, last, next);
    }
  }

  lemma {:induction false} EndForm(data: seq<Byte>, cursor: nat, end: nat, last: nat)
    requires end <= |data| && VarEnd(data, cursor, end, last).Some?
    ensures var next := VarEnd(data, cursor, end, last).value;
            cursor < next <= last && data[next - 1] < 128 && forall i :: cursor <= i < next - 1 ==> data[i] >= 128
    decreases last - cursor
  {
    if data[cursor] >= 128 {
      EndForm(data, cursor + 1, end, last);
    }
  }

  /** An integer is read if and only if one of one to five bytes is there; otherwise it is refused. */
  lemma VarExactly(data: seq<Byte>, off: nat, end: nat, width: nat)
    requires end <= |data|
    ensures HasForm(data, off, end, width) ==> ReadVar(data, off, end).Done? && ReadVar(data, off, end).next == off + width
    ensures ReadVar(data, off, end).Done? ==> HasForm(data, off, end, ReadVar(data, off, end).next - off)
    ensures ReadVar(data, off, end).Fail? ==> ReadVar(data, off, end) == Fail(BadVarUint)
  {
    if HasForm(data, off, end, width) {
      EndFound(data, off, end, off + 5, off + width);
    }
    if ReadVar(data, off, end).Done? {
      EndForm(data, off, end, off + 5);
    }
  }

  /** What a descriptor needs: a kind, which is one of five, and what that kind announces. */
  lemma DescriptorNeeds(data: seq<Byte>, off: nat, end: nat, m: Text, n: Text)
    requires end <= |data|
    ensures off >= end ==> ReadDescriptor(data, off, end, m, n) == Fail(Truncated)
    ensures off < end && data[off] > 4 ==> ReadDescriptor(data, off, end, m, n) == Fail(BadKind)
    ensures off + 1 == end && data[off] in {0, 2, 4} ==> ReadDescriptor(data, off, end, m, n) == Fail(BadVarUint)
    ensures off + 1 == end && data[off] in {1, 3} ==> ReadDescriptor(data, off, end, m, n) == Fail(Truncated)
    ensures off + 2 == end && data[off] == 1 ==> ReadDescriptor(data, off, end, m, n) == Fail(BadVarUint)
    ensures off + 2 == end && data[off] == 3 ==> ReadDescriptor(data, off, end, m, n) == Fail(Truncated)
  {
  }

  /** What a section needs: its length, and as many bytes. */
  lemma SectionNeeds(data: seq<Byte>, off: nat)
    requires off < |data|
    ensures
      var length := ReadVar(data, off + 1, |data|);
      ReadSectionHead(data, off) ==
        if length.Fail? then Fail(BadVarUint)
        else if |data| - length.next < length.value then Fail(Truncated)
        else Done(Section(data[off], length.next, length.next + length.value), length.next + length.value)
  {
    VarExactly(data, off + 1, |data|, 0);
  }

  function Small(v: nat): Num {
    Num(v, [v % 128])
  }

  lemma SmallOk(v: nat)
    requires v < 128
    ensures NumOk(Small(v))
  {
    assert Pow128(1) == 128 by { assert Pow128(0) == 1; }
    PaddedOk(v, 1);
  }

  /** A module whose one import is a memory `e` `m`, with a mark before the `m`. */
  function MarkedEntry(): Entry {
    Entry(Name([0x65], Small(1)), Name([0xef, 0xbb, 0xbf, 0x6d], Small(4)), Memory(Bounds(Small(0), Small(1), None, false, false, 0)))
  }

  function MarkedModule(): Parts {
    OnePart(ImportPart(OneEntry(MarkedEntry(), NoEntry), Small(1), Small(11)), NoPart)
  }

  lemma MarkedOk()
    ensures PartsOk(MarkedModule()) && NoneWideIn(MarkedModule())
  {
    SmallOk(0);
    SmallOk(1);
    SmallOk(4);
    SmallOk(11);
    var e := MarkedEntry();
    assert EntriesBytes(NoEntry) == [];
    assert |EntryBytes(e)| == 10;
    assert |Payload(MarkedModule().part)| == 11;
  }

  /** That name is found without its mark. */
  lemma MarkedImportRenamed(version: seq<Byte>)
    requires |version| == 4
    ensures ScanModule(ModuleBytes(version, MarkedModule())) == Found(Cons(Import([0x65], [0x6d], 1, None, false), Nil))
    ensures AllMemories(MarkedModule()) == [Import([0x65], [0xef, 0xbb, 0xbf, 0x6d], 1, None, false)]
  {
    MarkedOk();
    ScanReads(version, MarkedModule());
    var e, l := MarkedEntry(), MarkedEntry().desc.limits;
    assert DecodeText(e.name.bytes) == [0x6d] && DecodeText(e.moduleName.bytes) == [0x65];
    assert MemoriesRead(NoEntry) == Nil && MemoriesOf(NoEntry) == [] && AllMemories(NoPart) == [] && AllMemoriesRead(NoPart) == Nil;
    AppendNil(MemoryRead(e));
  }
}
