/** The scanner that looks for imported memories in a WebAssembly module before it is compiled. */
module WasmImports {
  import opened Bytes


  datatype Error = BadVarUint | Truncated | BadKind | Memory64 | BadMagic

  datatype Read<+T> = Done(value: T, next: nat) | Fail(error: Error)

  datatype Limits = Limits(flags: nat, initial: nat, maximum: Option<nat>)

  datatype Import = Import(moduleName: Text, name: Text, initial: nat, maximum: Option<nat>, shared: bool)

  datatype Imports = Nil | Cons(head: Import, tail: Imports)

  function Append(a: Imports, b: Imports): Imports {
    if a.Nil? then b else Cons(a.head, Append(a.tail, b))
  }

  const IMPORT_SECTION: Byte := 2
  const KIND_FUNCTION: Byte := 0
  const KIND_TABLE: Byte := 1
  const KIND_MEMORY: Byte := 2
  const KIND_GLOBAL: Byte := 3
  const KIND_TAG: Byte := 4

  /** Where an integer ends: after the first byte below 128, at `last` at the latest. */
  function VarEnd(data: seq<Byte>, cursor: nat, end: nat, last: nat): (r: Option<nat>)
    requires end <= |data|
    ensures r.Some? ==> cursor < r.value <= end
    decreases last - cursor
  {
    if cursor >= end || cursor >= last then None
    else if data[cursor] < 128 then Some(cursor + 1)
    else VarEnd(data, cursor + 1, end, last)
  }

  /** The value of `n` groups of seven bits, the least significant first. */
  function Groups(data: seq<Byte>, off: nat, n: nat): nat
    requires off + n <= |data|
    decreases n
  {
    if n == 0 then 0 else data[off] % 128 + 128 * Groups(data, off + 1, n - 1)
  }

  /** `readWasmVarUint32`: what does not fit in 32 bits is shifted out. */
  function ReadVar(data: seq<Byte>, off: nat, end: nat): (r: Read<nat>)
    requires end <= |data|
    ensures r.Done? ==> off < r.next <= end && r.value < TWO32
  {
    var next := VarEnd(data, off, end, off + 5);
    if next.None? then Fail(BadVarUint) else Done(Groups(data, off, next.value - off) % TWO32, next.value)
  }

  function ReadName(data: seq<Byte>, off: nat, end: nat): (r: Read<Text>)
    requires end <= |data|
    ensures r.Done? ==> off < r.next <= end
  {
    var n := ReadVar(data, off, end);
    if n.Fail? then Fail(n.error)
    else if n.next + n.value > end then Fail(Truncated)
    else Done(DecodeText(data[n.next..n.next + n.value]), n.next + n.value)
  }

  function ReadLimits(data: seq<Byte>, off: nat, end: nat): (r: Read<Limits>)
    requires end <= |data|
    ensures r.Done? ==> off < r.next <= end
  {
    var flags := ReadVar(data, off, end);
    if flags.Fail? then Fail(flags.error)
    else
      var initial := ReadVar(data, flags.next, end);
      if initial.Fail? then Fail(initial.error)
      else if flags.value % 2 == 0 then Done(Limits(flags.value, initial.value, None), initial.next)
      else
        var maximum := ReadVar(data, initial.next, end);
        if maximum.Fail? then Fail(maximum.error)
        else Done(Limits(flags.value, initial.value, Some(maximum.value)), maximum.next)
  }

  predicate IsShared(flags: nat) {
    flags / 2 % 2 == 1
  }

  predicate IsMemory64(flags: nat) {
    flags / 4 % 2 == 1
  }

  /** `skipWasmImportDescriptor`: where the descriptor ends. */
  function SkipDescriptor(data: seq<Byte>, off: nat, end: nat, kind: Byte): (r: Read<()>)
    requires end <= |data|
    ensures r.Done? ==> off <= r.next <= end
  {
    if kind == KIND_FUNCTION then
      var t := ReadVar(data, off, end);
      if t.Fail? then Fail(t.error) else Done((), t.next)
    else if kind == KIND_TAG then
      var attribute := ReadVar(data, off, end);
      if attribute.Fail? then Fail(attribute.error)
      else
        var t := ReadVar(data, attribute.next, end);
        if t.Fail? then Fail(t.error) else Done((), t.next)
    else if kind == KIND_TABLE then
      if off + 1 > end then Fail(Truncated)
      else
        var limits := ReadLimits(data, off + 1, end);
        if limits.Fail? then Fail(limits.error) else Done((), limits.next)
    else if kind == KIND_GLOBAL then
      if off + 2 > end then Fail(Truncated) else Done((), off + 2)
    else Fail(BadKind)
  }

  /** The descriptor of an import: the memory it declares, if it is one, and where it ends. */
  function ReadDescriptor(data: seq<Byte>, off: nat, end: nat, m: Text, n: Text): (r: Read<Imports>)
    requires end <= |data|
    ensures r.Done? ==> off < r.next <= end
  {
    if off + 1 > end then Fail(Truncated)
    else if data[off] == KIND_MEMORY then
      var limits := ReadLimits(data, off + 1, end);
      if limits.Fail? then Fail(limits.error)
      else if IsMemory64(limits.value.flags) then Fail(Memory64)
      else
        var l := limits.value;
        Done(Cons(Import(m, n, l.initial, l.maximum, IsShared(l.flags)), Nil), limits.next)
    else
      var skipped := SkipDescriptor(data, off + 1, end, data[off]);
      if skipped.Fail? then Fail(skipped.error) else Done(Nil, skipped.next)
  }

  function ReadImport(data: seq<Byte>, off: nat, end: nat): (r: Read<Imports>)
    requires end <= |data|
    ensures r.Done? ==> off < r.next <= end
  {
    var m := ReadName(data, off, end);
    if m.Fail? then Fail(m.error)
    else
      var n := ReadName(data, m.next, end);
      if n.Fail? then Fail(n.error) else ReadDescriptor(data, n.next, end, m.value, n.value)
  }

  function ReadImports(data: seq<Byte>, off: nat, end: nat, count: nat): Read<Imports>
    requires end <= |data|
    decreases count
  {
    if count == 0 then Done(Nil, off)
    else
      var first := ReadImport(data, off, end);
      if first.Fail? then first
      else
        var rest := ReadImports(data, first.next, end, count - 1);
        if rest.Fail? then rest else Done(Append(first.value, rest.value), rest.next)
  }

  /** `parseWasmImportSection`. The count is not held to the section, as the rest is. */
  function ReadImportSection(data: seq<Byte>, off: nat, end: nat): Read<Imports>
    requires off <= end <= |data|
  {
    var count := ReadVar(data, off, |data|);
    if count.Fail? then Fail(count.error) else ReadImports(data, count.next, end, count.value)
  }

  datatype Section = Section(id: Byte, from: nat, end: nat)

  function ReadSectionHead(data: seq<Byte>, off: nat): (r: Read<Section>)
    requires off < |data|
    ensures r.Done? ==> off < r.value.from <= r.value.end <= |data|
  {
    var length := ReadVar(data, off + 1, |data|);
    if length.Fail? then Fail(length.error)
    else if length.next + length.value > |data| then Fail(Truncated)
    else Done(Section(data[off], length.next, length.next + length.value), length.next + length.value)
  }

  datatype Scan = Found(imports: Imports) | Refused(error: Error)

  function ScanSections(data: seq<Byte>, off: nat): Scan
    decreases |data| - off
  {
    if off >= |data| then Found(Nil)
    else
      var head := ReadSectionHead(data, off);
      if head.Fail? then Refused(head.error)
      else
        var s := head.value;
        var here := if s.id == IMPORT_SECTION then ReadImportSection(data, s.from, s.end) else Done(Nil, s.end);
        if here.Fail? then Refused(here.error)
        else
          var rest := ScanSections(data, s.end);
          if rest.Refused? then rest else Found(Append(here.value, rest.imports))
  }

  const MAGIC: seq<Byte> := [0x00, 0x61, 0x73, 0x6d]

  /** `importedMemoryImports`. */
  function ScanModule(data: seq<Byte>): Scan {
    if |data| < 4 || data[..4] != MAGIC then Refused(BadMagic) else ScanSections(data, 8)
  }

  // ----- The loops -----

  lemma {:induction false} AppendNil(a: Imports)
    ensures Append(a, Nil) == a
  {
    if a.Cons? {
      AppendNil(a.tail);
    }
  }

  lemma {:induction false} AppendAssoc(a: Imports, b: Imports, c: Imports)
    ensures Append(Append(a, b), c) == Append(a, Append(b, c))
  {
    if a.Cons? {
      AppendAssoc(a.tail, b, c);
    }
  }

  function Pow128(k: nat): (p: nat)
    ensures p > 0
  {
    if k == 0 then 1 else 128 * Pow128(k - 1)
  }

  /** One more group, above those already there. */
  lemma {:induction false} GroupAdded(data: seq<Byte>, off: nat, n: nat)
    requires off + n < |data|
    ensures Groups(data, off, n + 1) == Groups(data, off, n) + data[off + n] % 128 * Pow128(n)
    decreases n
  {
    if n > 0 {
      GroupAdded(data, off + 1, n - 1);
      Spread(data[off + n] % 128, Pow128(n - 1));
    }
  }

  lemma Spread(x: nat, p: nat)
    ensures 128 * (x * p) == x * (128 * p)
  {
  }

  lemma GroupWraps(before: nat, group: nat)
    ensures (before % TWO32 + group) % TWO32 == (before + group) % TWO32
  {
  }

  /** The integer collected group by group. The groups do not overlap, so the bitwise or of the
      source is a sum. */
  method ReadWasmVarUint32(data: seq<Byte>, off: nat, end: nat) returns (r: Read<nat>)
    requires end <= |data|
    ensures r == ReadVar(data, off, end)
  {
    var result, k, cursor: nat := 0, 0, off;
    var scale := 1;
    while cursor < end
      invariant 0 <= k < 5 && scale == Pow128(k) && cursor == off + k && (off <= end ==> cursor <= end)
      invariant off + k <= |data| ==> result == Groups(data, off, k) % TWO32
      invariant VarEnd(data, cursor, end, off + 5) == VarEnd(data, off, end, off + 5)
      decreases 5 - k
    {
      var byte := data[cursor];
      GroupAdded(data, off, k);
      GroupWraps(Groups(data, off, k), byte % 128 * scale);
      cursor := cursor + 1;
      result := (result + byte % 128 * scale) % TWO32;
      if byte < 128 {
        return Done(result, cursor);
      }
      k, scale := k + 1, 128 * scale;
      if k >= 5 {
        break;
      }
    }
    r := Fail(BadVarUint);
  }

  /** What is collected so far, before what is still to be read. */
  ghost function Before(found: Imports, rest: Read<Imports>): Read<Imports> {
    if rest.Fail? then rest else Done(Append(found, rest.value), rest.next)
  }

  /** Opens the facts below about the list of imports with `key` entries left. */
  predicate AskImport(key: nat, u: int) {
    true
  }

  predicate AskEntry(u: int) {
    true
  }

  /** The loop over the imports: with `found` collected and `left` more from `cursor` on, the
      section gives `all`. */
  ghost predicate Remaining(data: seq<Byte>, cursor: nat, end: nat, left: nat, found: Imports, all: Read<Imports>)
    requires end <= |data|
  {
    forall u {:trigger AskImport(left, u)} :: AskImport(left, u) ==> Before(found, ReadImports(data, cursor, end, left)) == all
  }

  ghost predicate ImportIs(data: seq<Byte>, off: nat, end: nat, r: Read<Imports>)
    requires end <= |data|
  {
    forall u {:trigger AskEntry(u)} :: AskEntry(u) ==> r == ReadImport(data, off, end)
  }

  method NextImport(data: seq<Byte>, off: nat, end: nat) returns (r: Read<Imports>)
    requires end <= |data|
    ensures ImportIs(data, off, end, r)
  {
    r := ReadImport(data, off, end);
  }

  lemma ImportStep(data: seq<Byte>, off: nat, end: nat, left: nat, found: Imports, all: Read<Imports>, first: Read<Imports>)
    requires end <= |data| && left > 0 && Remaining(data, off, end, left, found, all) && ImportIs(data, off, end, first)
    ensures first.Fail? ==> all == first
    ensures first.Done? ==> Remaining(data, first.next, end, left - 1, Append(found, first.value), all)
  {
    assert AskImport(left, 0) && AskEntry(0);
    if first.Done? {
      var rest := ReadImports(data, first.next, end, left - 1);
      if rest.Done? {
        AppendAssoc(found, first.value, rest.value);
      }
    }
  }

  lemma ImportsEnd(data: seq<Byte>, cursor: nat, end: nat, found: Imports, all: Read<Imports>)
    requires end <= |data| && Remaining(data, cursor, end, 0, found, all)
    ensures all == Done(found, cursor)
  {
    assert AskImport(0, 0);
    AppendNil(found);
  }

  method ParseImports(data: seq<Byte>, off: nat, end: nat, count: nat, imports: Imports, ghost all: Read<Imports>) returns (r: Read<Imports>)
    requires end <= |data| && Remaining(data, off, end, count, imports, all)
    ensures r == all
  {
    var cursor, found, left := off, imports, count;
    while left > 0
      invariant Remaining(data, cursor, end, left, found, all)
      decreases left
    {
      var next := NextImport(data, cursor, end);
      ImportStep(data, cursor, end, left, found, all, next);
      if next.Fail? {
        return next;
      }
      found, cursor, left := Append(found, next.value), next.next, left - 1;
    }
    ImportsEnd(data, cursor, end, found, all);
    r := Done(found, cursor);
  }

  method ParseWasmImportSection(data: seq<Byte>, off: nat, end: nat, imports: Imports) returns (r: Read<Imports>)
    requires off <= end <= |data|
    ensures r == Before(imports, ReadImportSection(data, off, end))
  {
    var count := ReadWasmVarUint32(data, off, |data|);
    if count.Fail? {
      return Fail(count.error);
    }
    ghost var all := Before(imports, ReadImports(data, count.next, end, count.value));
    r := ParseImports(data, count.next, end, count.value, imports, all);
  }

  ghost function BeforeScan(found: Imports, rest: Scan): Scan {
    if rest.Refused? then rest else Found(Append(found, rest.imports))
  }

  method ImportedMemoryImports(data: seq<Byte>) returns (r: Scan)
    ensures r == ScanModule(data)
  {
    if |data| < 4 || data[..4] != MAGIC {
      return Refused(BadMagic);
    }
    var imports, off := Nil, 8;
    while off < |data|
      invariant off >= 8 && BeforeScan(imports, ScanSections(data, off)) == ScanSections(data, 8)
      decreases |data| - off
    {
      var head := ReadSectionHead(data, off);
      if head.Fail? {
        return Refused(head.error);
      }
      var s := head.value;
      if s.id == IMPORT_SECTION {
        ghost var here := ReadImportSection(data, s.from, s.end);
        ghost var rest := ScanSections(data, s.end);
        var parsed := ParseWasmImportSection(data, s.from, s.end, imports);
        if parsed.Fail? {
          return Refused(parsed.error);
        }
        if rest.Found? {
          AppendAssoc(imports, here.value, rest.imports);
        }
        imports := parsed.value;
      }
      off := s.end;
    }
    AppendNil(imports);
    r := Found(imports);
  }
}
