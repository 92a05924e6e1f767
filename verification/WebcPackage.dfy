/** A whole WebC package: the section reader, and cutting a file's span out of the package. */
module WebcPackage {
  import opened Bytes
  import opened WebcVolume
  import opened WebcHeader
  import Cbor

  const TAG_MANIFEST: Byte := 1
  const TAG_INDEX: Byte := 2
  const TAG_ATOMS: Byte := 3
  const TAG_VOLUME: Byte := 4

  /** What the section loop has collected. */
  datatype Sections = Sections(manifest: Option<seq<Byte>>, atoms: Option<Files>, volumes: map<Text, Files>)

  datatype SectionRead = SectionAt(tag: Byte, from: nat, end: nat) | BadSection(error: Error)

  datatype FilesRead = FilesAt(files: Files) | BadFiles(error: Error)

  datatype Collected = Collected(sections: Sections) | Rejected(error: Error)

  function SectionHashSize(v3: bool, tag: Byte): nat {
    if v3 && tag != TAG_INDEX then 32 else 0
  }

  function ReadSection(b: seq<Byte>, v3: bool, off: nat): (r: SectionRead)
    requires off < |b|
    ensures r.SectionAt? ==> off < r.from <= r.end <= |b|
  {
    var at := off + 1 + SectionHashSize(v3, b[off]);
    var length := ReadU64(b, at);
    if at > |b| then BadSection(Truncated)
    else if length.BadNum? then BadSection(length.error)
    else if at + 8 + length.value > |b| then BadSection(Truncated)
    else SectionAt(b[off], at + 8, at + 8 + length.value)
  }

  /** The header and data buffers of a payload that starts at `base` in the package. */
  datatype Parts = Parts(volume: Volume) | BadParts(error: Error)

  function ReadParts(payload: seq<Byte>, base: nat, v3: bool): (r: Parts)
    ensures r.Parts? ==> base <= r.volume.dataOffset && HasAt(payload, r.volume.dataOffset - base, r.volume.data)
  {
    var headerLength := ReadU64(payload, 0);
    if headerLength.BadNum? then BadParts(headerLength.error)
    else
      var mid := 8 + headerLength.value;
      if mid > |payload| then BadParts(Truncated)
      else
        var dataLength := ReadU64(payload, mid);
        if dataLength.BadNum? then BadParts(dataLength.error)
        else
          var from := mid + 8;
          if from + dataLength.value > |payload| then BadParts(Truncated)
          else
            var data := payload[from..from + dataLength.value];
            assert forall i: nat | i < |data| :: SameAt(payload, from, data, i);
            Parts(Volume(payload[8..mid], data, base + from, v3))
  }

  function ParsePayload(payload: seq<Byte>, base: nat, prefix: Text, v3: bool): FilesRead {
    var parts := ReadParts(payload, base, v3);
    if parts.BadParts? then BadFiles(parts.error)
    else
      var r := ParseVolume(parts.volume, prefix);
      if r.Failed? then BadFiles(r.error) else FilesAt(r.state.files)
  }

  datatype Named = Named(name: Text, files: Files) | Nameless(error: Error)

  function ParseNamed(payload: seq<Byte>, base: nat, v3: bool): Named {
    var length := ReadU64(payload, 0);
    if length.BadNum? then Nameless(length.error)
    else
      var at := 8 + length.value;
      if at > |payload| then Nameless(Truncated)
      else
        NamedWith(payload[8..at], ParsePayload(payload[at..], base + at, [SLASH], v3))
  }

  function NamedWith(name: seq<Byte>, r: FilesRead): Named {
    if r.BadFiles? then Nameless(r.error) else Named(DecodeText(name), r.files)
  }

  lemma NamedUnfolds(payload: seq<Byte>, base: nat, v3: bool, length: nat, name: seq<Byte>, rest: seq<Byte>, at: nat)
    requires ReadU64(payload, 0) == Num(length) && 8 + length <= |payload| && at == base + 8 + length
    requires name == payload[8..8 + length] && rest == payload[8 + length..]
    ensures ParseNamed(payload, base, v3) == NamedWith(name, ParsePayload(rest, at, [SLASH], v3))
  {
  }

  /** `sections.volumes[name] = volume` on a plain object. */
  function PutVolume(volumes: map<Text, Files>, name: Text, files: Files): map<Text, Files> {
    if IsProto(name) then volumes else volumes[name := files]
  }

  /** What one section adds. */
  function Absorb(s: Sections, tag: Byte, payload: seq<Byte>, base: nat, v3: bool): Collected {
    if tag == TAG_MANIFEST then Collected(s.(manifest := Some(payload)))
    else if tag == TAG_ATOMS then
      var r := ParsePayload(payload, base, [], v3);
      if r.BadFiles? then Rejected(r.error) else Collected(s.(atoms := Some(r.files)))
    else if tag == TAG_VOLUME then
      var r := ParseNamed(payload, base, v3);
      if r.Nameless? then Rejected(r.error) else Collected(s.(volumes := PutVolume(s.volumes, r.name, r.files)))
    else Collected(s)
  }

  function ReadSections(b: seq<Byte>, v3: bool, off: nat, s: Sections): Collected
    requires off <= |b|
    decreases |b| - off
  {
    if off == |b| then Collected(s)
    else
      var next := ReadSection(b, v3, off);
      if next.BadSection? then Rejected(next.error)
      else
        var r := Absorb(s, next.tag, b[next.from..next.end], next.from, v3);
        if r.Rejected? then r else ReadSections(b, v3, next.end, r.sections)
  }

  const NO_SECTIONS := Sections(None, None, map[])

  /** The section loop. */
  method ReadWebcSections(b: seq<Byte>, v3: bool) returns (r: Collected)
    requires |b| >= 8
    ensures r == ReadSections(b, v3, 8, NO_SECTIONS)
  {
    var sections, offset := NO_SECTIONS, 8;
    while offset < |b|
      invariant 8 <= offset <= |b|
      invariant ReadSections(b, v3, offset, sections) == ReadSections(b, v3, 8, NO_SECTIONS)
    {
      var next := ReadSection(b, v3, offset);
      if next.BadSection? {
        return Rejected(next.error);
      }
      var absorbed := Absorb(sections, next.tag, b[next.from..next.end], next.from, v3);
      if absorbed.Rejected? {
        return absorbed;
      }
      sections, offset := absorbed.sections, next.end;
    }
    r := Collected(sections);
  }

  // ----- Spans -----

  /** The bytes of a span, cut from the package; `None` is the invalid-span error. */
  function BytesFromSpan(b: seq<Byte>, offset: int, length: int): (r: Option<seq<Byte>>) {
    if offset < 0 || length < 0 || offset > MAX_SAFE || length > MAX_SAFE || offset + length > |b| then None
    else Some(b[offset..offset + length])
  }

  /** Every file's span, cut from the package, gives the bytes attached to the file. */
  predicate SpansHold(b: seq<Byte>, files: Files) {
    forall p :: p in files ==> BytesFromSpan(b, files[p].offset, files[p].length) == Some(files[p].bytes)
  }

  predicate SectionsHold(b: seq<Byte>, s: Sections) {
    && (s.atoms.Some? ==> SpansHold(b, s.atoms.value))
    && (forall name :: name in s.volumes ==> SpansHold(b, s.volumes[name]))
  }

  lemma HasAtTrans(b: seq<Byte>, at: nat, part: seq<Byte>, off: nat, inner: seq<Byte>)
    requires HasAt(b, at, part) && HasAt(part, off, inner)
    ensures HasAt(b, at + off, inner)
  {
    forall i: nat {:trigger SameAt(b, at + off, inner, i)} | i < |inner| ensures SameAt(b, at + off, inner, i) {
      assert SameAt(part, off, inner, i) && SameAt(b, at, part, off + i);
    }
  }

  lemma SpanInPackage(b: seq<Byte>, v: Volume, r: FileRecord)
    requires |b| <= MAX_SAFE && HasAt(b, v.dataOffset, v.data) && SpanOk(v, r)
    ensures BytesFromSpan(b, r.offset, r.length) == Some(r.bytes)
  {
    var from := r.offset - v.dataOffset;
    var cut := b[r.offset..r.offset + r.length];
    forall i: nat {:trigger cut[i]} | i < r.length ensures cut[i] == r.bytes[i] {
      assert SameAt(b, v.dataOffset, v.data, from + i);
    }
    assert cut == r.bytes;
  }

  lemma PayloadSpans(b: seq<Byte>, payload: seq<Byte>, base: nat, prefix: Text, v3: bool)
    requires |b| <= MAX_SAFE && HasAt(b, base, payload)
    ensures var r := ParsePayload(payload, base, prefix, v3); r.FilesAt? ==> SpansHold(b, r.files)
  {
    var r, parts := ParsePayload(payload, base, prefix, v3), ReadParts(payload, base, v3);
    if r.FilesAt? {
      var v := parts.volume;
      VolumeSpans(v, prefix);
      HasAtTrans(b, base, payload, v.dataOffset - base, v.data);
      forall p | p in r.files ensures BytesFromSpan(b, r.files[p].offset, r.files[p].length) == Some(r.files[p].bytes) {
        SpanInPackage(b, v, r.files[p]);
      }
    }
  }

  lemma SliceHasAt(b: seq<Byte>, from: nat, to: nat)
    requires from <= to <= |b|
    ensures HasAt(b, from, b[from..to])
  {
    var part := b[from..to];
    forall i: nat | i < |part| ensures SameAt(b, from, part, i) {
    }
  }

  lemma NamedSpans(b: seq<Byte>, payload: seq<Byte>, base: nat, v3: bool)
    requires |b| <= MAX_SAFE && HasAt(b, base, payload)
    ensures var r := ParseNamed(payload, base, v3); r.Named? ==> SpansHold(b, r.files)
  {
    var length := ReadU64(payload, 0);
    if length.Num? && 8 + length.value <= |payload| {
      var at := 8 + length.value;
      var rest := payload[at..];
      SliceHasAt(payload, at, |payload|);
      HasAtTrans(b, base, payload, at, rest);
      PayloadSpans(b, rest, base + at, [SLASH], v3);
      NamedUnfolds(payload, base, v3, length.value, payload[8..at], rest, base + at);
    }
  }

  lemma AbsorbSpans(b: seq<Byte>, s: Sections, tag: Byte, payload: seq<Byte>, base: nat, v3: bool)
    requires |b| <= MAX_SAFE && HasAt(b, base, payload) && SectionsHold(b, s)
    ensures var r := Absorb(s, tag, payload, base, v3); r.Collected? ==> SectionsHold(b, r.sections)
  {
    if tag == TAG_ATOMS {
      PayloadSpans(b, payload, base, [], v3);
    } else if tag == TAG_VOLUME {
      NamedSpans(b, payload, base, v3);
    }
  }

  lemma {:induction false} SectionsSpans(b: seq<Byte>, v3: bool, off: nat, s: Sections)
    requires |b| <= MAX_SAFE && off <= |b| && SectionsHold(b, s)
    ensures var r := ReadSections(b, v3, off, s); r.Collected? ==> SectionsHold(b, r.sections)
    decreases |b| - off
  {
    if off < |b| {
      var next := ReadSection(b, v3, off);
      if next.SectionAt? {
        SliceHasAt(b, next.from, next.end);
        var payload := b[next.from..next.end];
        AbsorbSpans(b, s, next.tag, payload, next.from, v3);
        var r := Absorb(s, next.tag, payload, next.from, v3);
        if r.Collected? {
          SectionsSpans(b, v3, next.end, r.sections);
        }
      }
    }
  }

  /** Whatever bytes the section reader accepts, every atom's and every volume file's span, cut
      from the package, gives the bytes the parser attached to it. */
  lemma PackageSpans(b: seq<Byte>, v3: bool)
    requires 8 <= |b| <= 9007199254740991
    ensures var r := ReadSections(b, v3, 8, NO_SECTIONS); r.Collected? ==> SectionsHold(b, r.sections)
  {
    SectionsSpans(b, v3, 8, NO_SECTIONS);
  }

  // ----- The package -----

  /** The version text of a package, unless the magic bytes or the version are missing. */
  function DetectVersion(b: seq<Byte>): Option<Text> {
    if |b| < 8 || b[..5] != [0x00, 0x77, 0x65, 0x62, 0x63] then None else Some(DecodeText(b[5..8]))
  }

  const V2: Text := [48, 48, 50]
  const V3: Text := [48, 48, 51]

  datatype PackageError =
    | NoVersion
    | Unsupported
    | InSections(error: Error)
    | NoManifest
    | InManifest(cbor: Cbor.Error)
    | TrailingData

  datatype Package = Package(manifest: Cbor.Value, atoms: Option<Files>, volumes: map<Text, Files>)

  /** `decodeCbor`: one value and nothing after it. */
  function DecodeManifest(b: seq<Byte>): Result<Cbor.Value, PackageError> {
    var r := Cbor.ReadValue(b, 0, 0);
    if r.Fail? then Err(InManifest(r.error)) else if r.next != |b| then Err(TrailingData) else Ok(r.value)
  }

  /** The parts of a package, before the manifest is interpreted. */
  function ReadPackage(b: seq<Byte>): Result<Package, PackageError> {
    var version := DetectVersion(b);
    if version.None? || version.value == [] then Err(NoVersion)
    else if version.value != V2 && version.value != V3 then Err(Unsupported)
    else
      var r := ReadSections(b, version.value == V3, 8, NO_SECTIONS);
      if r.Rejected? then Err(InSections(r.error))
      else if r.sections.manifest.None? then Err(NoManifest)
      else
        var m := DecodeManifest(r.sections.manifest.value);
        if m.Err? then Err(m.error) else Ok(Package(m.value, r.sections.atoms, r.sections.volumes))
  }
}
