/** Reading a package the fixture writer built gives back its manifest, its atoms and its volumes. */
module WebcPackageRoundTrip {
  import opened Bytes
  import opened WebcVolume
  import opened WebcHeader
  import opened WebcRoundTrip
  import opened WebcPaths
  import opened WebcPackage
  import Cbor

  // ----- The writer -----

  datatype Volumes = NoVolume | OneVolume(name: Text, entries: Entries, rest: Volumes)

  function Section(v3: bool, tag: Byte, payload: seq<Byte>): (b: seq<Byte>)
    ensures |b| == 9 + SectionHashSize(v3, tag) + |payload|
  {
    [tag] + (Zeros(SectionHashSize(v3, tag)) + (U64(|payload|) + payload))
  }

  function Payload(header: seq<Byte>, data: seq<Byte>): (b: seq<Byte>)
    ensures |b| == 16 + |header| + |data|
  {
    U64(|header|) + (header + (U64(|data|) + data))
  }

  function TreePayload(v3: bool, es: Entries): seq<Byte> {
    Payload(TreeHeader(v3, Dir(es), 0, 0), TreeData(Dir(es)))
  }

  function NamedPayload(v3: bool, name: Text, es: Entries): seq<Byte> {
    U64(|name|) + (name + TreePayload(v3, es))
  }

  function VolumeSections(v3: bool, vols: Volumes): seq<Byte> {
    if vols.NoVolume? then []
    else Section(v3, TAG_VOLUME, NamedPayload(v3, vols.name, vols.entries)) + VolumeSections(v3, vols.rest)
  }

  function AtomSections(v3: bool, atoms: Option<Entries>): seq<Byte> {
    if atoms.None? then [] else Section(v3, TAG_ATOMS, TreePayload(v3, atoms.value))
  }

  function Start(v3: bool): (b: seq<Byte>)
    ensures |b| == 8
  {
    [0x00, 0x77, 0x65, 0x62, 0x63] + (if v3 then V3 else V2)
  }

  function PackageOf(v3: bool, manifest: seq<Byte>, atoms: Option<Entries>, vols: Volumes): seq<Byte> {
    Start(v3) + (Section(v3, TAG_INDEX, Cbor.Encode(Cbor.Obj(Cbor.Nil))) +
      (Section(v3, TAG_MANIFEST, manifest) + (AtomSections(v3, atoms) + VolumeSections(v3, vols))))
  }

  function PackageBytes(v3: bool, manifest: Cbor.Value, atoms: Option<Entries>, vols: Volumes): seq<Byte> {
    PackageOf(v3, Cbor.Encode(manifest), atoms, vols)
  }

  // ----- Facts as the proofs pass them around -----

  ghost predicate SectionReads(b: seq<Byte>, v3: bool, off: nat, tag: Byte, payload: seq<Byte>, from: nat, end: nat) {
    && off < from <= end <= |b|
    && ReadSection(b, v3, off) == SectionAt(tag, from, end) && b[from..end] == payload
  }

  /** The loop at `off` with `s` goes on as at `off'` with `s'`. */
  ghost predicate Goes(b: seq<Byte>, v3: bool, off: nat, s: Sections, off': nat, s': Sections) {
    && off <= off' <= |b|
    && (forall u {:trigger AskReader(u)} :: AskReader(u) ==> ReadSections(b, v3, off, s) == ReadSections(b, v3, off', s'))
  }

  ghost predicate TreeIs(files: Files, es: Entries, prefix: Text) {
    forall u {:trigger AskHead(u)} :: AskHead(u) ==> Exactly(files, Dir(es), prefix)
  }

  /** The files are the tree's, if and only if every file of it survives. */
  ghost predicate TreeFate(files: Files, es: Entries, prefix: Text) {
    TreeIs(files, es, prefix) <==> Survives(es, prefix)
  }

  ghost predicate IsWritten(header: seq<Byte>, data: seq<Byte>, v3: bool, es: Entries) {
    forall u {:trigger AskWriter(u)} :: AskWriter(u) ==> header == TreeHeader(v3, Dir(es), 0, 0) && data == TreeData(Dir(es))
  }

  ghost predicate VolumeGives(v: Volume, prefix: Text, files: Files) {
    forall u {:trigger AskReader(u)} :: AskReader(u) ==> ParseVolume(v, prefix).Parsed? && ParseVolume(v, prefix).state.files == files
  }

  ghost predicate PayloadGives(payload: seq<Byte>, base: nat, prefix: Text, v3: bool, files: Files) {
    forall u {:trigger AskReader(u)} :: AskReader(u) ==> ParsePayload(payload, base, prefix, v3) == FilesAt(files)
  }

  ghost predicate NamedGives(payload: seq<Byte>, base: nat, v3: bool, name: Text, files: Files) {
    forall u {:trigger AskReader(u)} :: AskReader(u) ==> ParseNamed(payload, base, v3) == Named(name, files)
  }

  ghost predicate PayloadIs(payload: seq<Byte>, v3: bool, es: Entries) {
    forall u {:trigger AskWriter(u)} :: AskWriter(u) ==> payload == TreePayload(v3, es)
  }

  // ----- Reading the pieces -----

  lemma SectionAtReads(b: seq<Byte>, v3: bool, off: nat, tag: Byte, payload: seq<Byte>) returns (from: nat, end: nat)
    requires HasAt(b, off, Section(v3, tag, payload)) && |b| <= MAX_SAFE
    ensures SectionReads(b, v3, off, tag, payload, from, end) && end == off + |Section(v3, tag, payload)|
  {
    var hash := Zeros(SectionHashSize(v3, tag));
    HasAtSplit(b, off, [tag], hash + (U64(|payload|) + payload));
    assert SameAt(b, off, [tag], 0);
    HasAtSplit(b, off + 1, hash, U64(|payload|) + payload);
    var at := off + 1 + |hash|;
    HasAtSplit(b, at, U64(|payload|), payload);
    NumberAt(b, at, |payload|);
    HasAtSlice(b, at + 8, payload);
    from, end := at + 8, at + 8 + |payload|;
  }

  lemma AtStart(b: seq<Byte>)
    ensures HasAt(b, 0, b)
  {
    assert forall i: nat | i < |b| :: SameAt(b, 0, b, i);
  }

  lemma PayloadReads(header: seq<Byte>, data: seq<Byte>, base: nat, v3: bool)
    requires |Payload(header, data)| <= MAX_SAFE
    ensures ReadParts(Payload(header, data), base, v3) == Parts(Volume(header, data, base + 16 + |header|, v3))
  {
    var b := Payload(header, data);
    AtStart(b);
    HasAtSplit(b, 0, U64(|header|), header + (U64(|data|) + data));
    NumberAt(b, 0, |header|);
    HasAtSplit(b, 8, header, U64(|data|) + data);
    HasAtSlice(b, 8, header);
    var mid := 8 + |header|;
    HasAtSplit(b, mid, U64(|data|), data);
    NumberAt(b, mid, |data|);
    HasAtSlice(b, mid + 8, data);
  }

  lemma PayloadStep(payload: seq<Byte>, base: nat, prefix: Text, v3: bool, v: Volume, files: Files)
    requires ReadParts(payload, base, v3) == Parts(v) && VolumeGives(v, prefix, files)
    ensures PayloadGives(payload, base, prefix, v3, files)
  {
    assert AskReader(0);
  }

  lemma VolumeReads(v3: bool, es: Entries, v: Volume, prefix: Text) returns (files: Files)
    requires IsWritten(v.header, v.data, v3, es) && v.v3 == v3 && Sized(v) && GoodEntries(es) && Prefix(prefix)
    ensures VolumeGives(v, prefix, files) && TreeFate(files, es, prefix)
  {
    assert v == Written(v3, Dir(es), v.dataOffset) by { assert AskWriter(0); }
    FilesExactly(v3, es, v.dataOffset, prefix);
    files := ParseVolume(v, prefix).state.files;
    TreeIsExactly(files, es, prefix);
  }

  lemma TreeIsExactly(files: Files, es: Entries, prefix: Text)
    ensures TreeIs(files, es, prefix) <==> Exactly(files, Dir(es), prefix)
  {
    assert AskHead(0);
  }

  lemma PartsOf(payload: seq<Byte>, v3: bool, es: Entries) returns (header: seq<Byte>, data: seq<Byte>)
    requires PayloadIs(payload, v3, es)
    ensures IsWritten(header, data, v3, es) && payload == Payload(header, data)
  {
    assert AskWriter(0);
    header, data := TreeHeader(v3, Dir(es), 0, 0), TreeData(Dir(es));
  }

  lemma TreeReads(v3: bool, es: Entries, payload: seq<Byte>, base: nat, prefix: Text) returns (files: Files)
    requires PayloadIs(payload, v3, es) && |payload| <= MAX_SAFE && GoodEntries(es) && Prefix(prefix)
    ensures PayloadGives(payload, base, prefix, v3, files) && TreeFate(files, es, prefix)
  {
    var header, data := PartsOf(payload, v3, es);
    PayloadReads(header, data, base, v3);
    var v := Volume(header, data, base + 16 + |header|, v3);
    files := VolumeReads(v3, es, v, prefix);
    PayloadStep(payload, base, prefix, v3, v, files);
  }

  lemma NameReads(name: Text, rest: seq<Byte>, b: seq<Byte>)
    requires b == U64(|name|) + (name + rest) && |b| <= MAX_SAFE
    ensures |b| >= 8 + |name| && ReadU64(b, 0) == Num(|name|) && b[8..8 + |name|] == name && b[8 + |name|..] == rest
  {
    AtStart(b);
    HasAtSplit(b, 0, U64(|name|), name + rest);
    NumberAt(b, 0, |name|);
    HasAtSplit(b, 8, name, rest);
    HasAtSlice(b, 8, name);
    HasAtSlice(b, 8 + |name|, rest);
    assert b[8 + |name|..8 + |name| + |rest|] == b[8 + |name|..];
  }

  lemma NamedStep(name: Text, rest: seq<Byte>, b: seq<Byte>, base: nat, v3: bool, files: Files)
    requires b == U64(|name|) + (name + rest) && |b| <= MAX_SAFE
    requires PayloadGives(rest, base + 8 + |name|, [47], v3, files)
    ensures NamedGives(b, base, v3, DecodeText(name), files)
  {
    NameReads(name, rest, b);
    NamedIs(b, base, v3, name, rest, files);
  }

  lemma NamedIs(b: seq<Byte>, base: nat, v3: bool, name: Text, rest: seq<Byte>, files: Files)
    requires |b| >= 8 + |name| && ReadU64(b, 0) == Num(|name|) && b[8..8 + |name|] == name && b[8 + |name|..] == rest
    requires PayloadGives(rest, base + 8 + |name|, [47], v3, files)
    ensures NamedGives(b, base, v3, DecodeText(name), files)
  {
    NamedUnfolds(b, base, v3, |name|, name, rest, base + 8 + |name|);
    GivesNamed(b, base, v3, name, rest, base + 8 + |name|, files);
  }

  lemma GivesNamed(b: seq<Byte>, base: nat, v3: bool, name: Text, rest: seq<Byte>, at: nat, files: Files)
    requires ParseNamed(b, base, v3) == NamedWith(name, ParsePayload(rest, at, [47], v3))
    requires PayloadGives(rest, at, [47], v3, files)
    ensures NamedGives(b, base, v3, DecodeText(name), files)
  {
    assert AskReader(0);
  }

  lemma NamedReads(v3: bool, name: Text, es: Entries, rest: seq<Byte>, b: seq<Byte>, base: nat) returns (files: Files)
    requires PayloadIs(rest, v3, es) && b == U64(|name|) + (name + rest) && |b| <= MAX_SAFE && GoodEntries(es)
    ensures NamedGives(b, base, v3, DecodeText(name), files) && TreeFate(files, es, [47])
  {
    files := TreeReads(v3, es, rest, base + 8 + |name|, [47]);
    NamedStep(name, rest, b, base, v3, files);
  }

  // ----- Turns of the section loop -----

  lemma GoesTrans(b: seq<Byte>, v3: bool, o1: nat, s1: Sections, o2: nat, s2: Sections, o3: nat, s3: Sections)
    requires Goes(b, v3, o1, s1, o2, s2) && Goes(b, v3, o2, s2, o3, s3)
    ensures Goes(b, v3, o1, s1, o3, s3)
  {
    assert AskReader(0);
  }

  lemma SectionStep(b: seq<Byte>, v3: bool, off: nat, s: Sections, tag: Byte, payload: seq<Byte>, from: nat, end: nat, s': Sections)
    requires SectionReads(b, v3, off, tag, payload, from, end)
    requires Absorb(s, tag, payload, from, v3) == Collected(s')
    ensures Goes(b, v3, off, s, end, s')
  {
  }

  lemma VolumeStep(b: seq<Byte>, v3: bool, off: nat, s: Sections, payload: seq<Byte>, from: nat, end: nat, name: Text, files: Files)
    requires SectionReads(b, v3, off, TAG_VOLUME, payload, from, end)
    requires NamedGives(payload, from, v3, name, files)
    ensures Goes(b, v3, off, s, end, s.(volumes := PutVolume(s.volumes, name, files)))
  {
    assert AskReader(0);
    SectionStep(b, v3, off, s, TAG_VOLUME, payload, from, end, s.(volumes := PutVolume(s.volumes, name, files)));
  }

  lemma AtomsStep(b: seq<Byte>, v3: bool, off: nat, s: Sections, payload: seq<Byte>, from: nat, end: nat, files: Files)
    requires SectionReads(b, v3, off, TAG_ATOMS, payload, from, end)
    requires PayloadGives(payload, from, [], v3, files)
    ensures Goes(b, v3, off, s, end, s.(atoms := Some(files)))
  {
    assert AskReader(0);
    SectionStep(b, v3, off, s, TAG_ATOMS, payload, from, end, s.(atoms := Some(files)));
  }

  // ----- The volumes -----

  predicate HasVolume(vols: Volumes, name: Text) {
    vols.OneVolume? && (vols.name == name || HasVolume(vols.rest, name))
  }

  /** Distinct names, and entries with distinct, non-empty, slash-free ones. */
  predicate GoodVolumes(vols: Volumes) {
    vols.OneVolume? ==> !HasVolume(vols.rest, vols.name) && GoodEntries(vols.entries) && GoodVolumes(vols.rest)
  }

  function EntriesOf(vols: Volumes, name: Text): Entries
    requires HasVolume(vols, name)
  {
    if vols.name == name then vols.entries else EntriesOf(vols.rest, name)
  }

  /** A volume name that is its own decoding and that an object can hold. */
  predicate GoodVolumeName(name: Text) {
    !StartsWithBom(name) && !IsProto(name)
  }

  predicate AllNamed(vols: Volumes) {
    vols.OneVolume? ==> GoodVolumeName(vols.name) && AllNamed(vols.rest)
  }

  /** Every volume keeps its name and its files. */
  predicate AllSurvive(vols: Volumes) {
    vols.OneVolume? ==> GoodVolumeName(vols.name) && Survives(vols.entries, [47]) && AllSurvive(vols.rest)
  }

  /** What the loop makes of the volumes: each goes under its decoded name. */
  ghost predicate VolumesPut(found: map<Text, Files>, before: map<Text, Files>, vols: Volumes)
    decreases vols
  {
    if vols.NoVolume? then found == before
    else exists files :: TreeFate(files, vols.entries, [47])
                      && VolumesPut(found, PutVolume(before, DecodeText(vols.name), files), vols.rest)
  }

  predicate AskPut(u: int, vols: Volumes) {
    true
  }

  ghost predicate Puts(found: map<Text, Files>, before: map<Text, Files>, vols: Volumes) {
    forall u {:trigger AskPut(u, vols)} :: AskPut(u, vols) ==> VolumesPut(found, before, vols)
  }

  lemma PutsFirst(found: map<Text, Files>, before: map<Text, Files>, vols: Volumes, next: map<Text, Files>, files: Files)
    requires vols.OneVolume? && TreeFate(files, vols.entries, [47])
    requires next == PutVolume(before, DecodeText(vols.name), files) && Puts(found, next, vols.rest)
    ensures Puts(found, before, vols)
  {
    assert AskPut(0, vols.rest);
  }

  lemma PutsNone(found: map<Text, Files>, vols: Volumes)
    requires vols.NoVolume?
    ensures Puts(found, found, vols)
  {
  }

  /** `found` is `before` plus exactly the volumes of the package, each with its own files. */
  ghost predicate VolumesRead(found: map<Text, Files>, before: map<Text, Files>, vols: Volumes) {
    forall name {:trigger HasVolume(vols, name)} ::
      if HasVolume(vols, name) then name in found && TreeIs(found[name], EntriesOf(vols, name), [47])
      else (name in found <==> name in before) && (name in found ==> found[name] == before[name])
  }

  lemma {:induction false} VolumesSurvive(found: map<Text, Files>, before: map<Text, Files>, vols: Volumes)
    requires VolumesPut(found, before, vols) && GoodVolumes(vols) && AllSurvive(vols)
    ensures VolumesRead(found, before, vols)
    decreases vols
  {
    if vols.OneVolume? {
      var files :| TreeFate(files, vols.entries, [47]) && VolumesPut(found, PutVolume(before, DecodeText(vols.name), files), vols.rest);
      VolumesSurvive(found, before[vols.name := files], vols.rest);
      VolumesReadStep(found, before, vols, files);
    }
  }

  lemma VolumesReadStep(found: map<Text, Files>, before: map<Text, Files>, vols: Volumes, files: Files)
    requires vols.OneVolume? && !HasVolume(vols.rest, vols.name) && TreeIs(files, vols.entries, [47])
    requires VolumesRead(found, before[vols.name := files], vols.rest)
    ensures VolumesRead(found, before, vols)
  {
    forall name ensures
      if HasVolume(vols, name) then name in found && TreeIs(found[name], EntriesOf(vols, name), [47])
      else (name in found <==> name in before) && (name in found ==> found[name] == before[name])
    {
      assert HasVolume(vols.rest, name) || !HasVolume(vols.rest, name);
    }
  }

  // ----- Volumes that are lost -----

  /** A key that was not there before is the decoded name of some volume. */
  lemma {:induction false} VolumeCameFrom(found: map<Text, Files>, before: map<Text, Files>, vols: Volumes, k: Text) returns (name: Text)
    requires VolumesPut(found, before, vols) && k in found && k !in before
    ensures HasVolume(vols, name) && DecodeText(name) == k && !IsProto(k)
    decreases vols
  {
    var files :| TreeFate(files, vols.entries, [47]) && VolumesPut(found, PutVolume(before, DecodeText(vols.name), files), vols.rest);
    var next := PutVolume(before, DecodeText(vols.name), files);
    if k in next {
      name := vols.name;
    } else {
      name := VolumeCameFrom(found, next, vols.rest, k);
    }
  }

  function LongestName(vols: Volumes): nat {
    if vols.NoVolume? then 0 else |vols.name| + LongestName(vols.rest)
  }

  lemma {:induction false} NoLongerName(vols: Volumes, name: Text)
    requires HasVolume(vols, name)
    ensures |name| <= LongestName(vols)
    decreases vols
  {
    if vols.name != name {
      NoLongerName(vols.rest, name);
    }
  }

  /** The name of a volume that is lost is no key, unless a longer name is lost instead. */
  lemma {:induction false} NameLost(found: map<Text, Files>, vols: Volumes, name: Text)
    requires VolumesPut(found, map[], vols) && HasVolume(vols, name) && !GoodVolumeName(name)
    ensures !VolumesRead(found, map[], vols)
    decreases LongestName(vols) - |name|
  {
    if name in found {
      NoLongerName(vols, name);
      var other := VolumeCameFrom(found, map[], vols, name);
      NoLongerName(vols, other);
      NameLost(found, vols, other);
    }
  }

  lemma {:induction false} BadName(vols: Volumes) returns (name: Text)
    requires !AllNamed(vols)
    ensures HasVolume(vols, name) && !GoodVolumeName(name)
    decreases vols
  {
    if !GoodVolumeName(vols.name) {
      name := vols.name;
    } else {
      name := BadName(vols.rest);
    }
  }

  /** With the names kept, a volume that is not put again keeps its files. */
  lemma {:induction false} PutOnce(found: map<Text, Files>, before: map<Text, Files>, vols: Volumes, k: Text)
    requires VolumesPut(found, before, vols) && AllNamed(vols) && !HasVolume(vols, k) && k in before
    ensures k in found && found[k] == before[k]
    decreases vols
  {
    if vols.OneVolume? {
      var files :| TreeFate(files, vols.entries, [47]) && VolumesPut(found, PutVolume(before, DecodeText(vols.name), files), vols.rest);
      PutOnce(found, PutVolume(before, DecodeText(vols.name), files), vols.rest, k);
    }
  }

  lemma {:induction false} FilesLost(found: map<Text, Files>, before: map<Text, Files>, vols: Volumes) returns (name: Text)
    requires VolumesPut(found, before, vols) && GoodVolumes(vols) && AllNamed(vols) && !AllSurvive(vols)
    ensures HasVolume(vols, name) && name in found && !TreeIs(found[name], EntriesOf(vols, name), [47])
    decreases vols
  {
    var files :| TreeFate(files, vols.entries, [47]) && VolumesPut(found, PutVolume(before, DecodeText(vols.name), files), vols.rest);
    var next := PutVolume(before, DecodeText(vols.name), files);
    if !Survives(vols.entries, [47]) {
      name := vols.name;
      PutOnce(found, next, vols.rest, name);
    } else {
      name := FilesLost(found, next, vols.rest);
    }
  }

  lemma VolumesFate(found: map<Text, Files>, vols: Volumes)
    requires Puts(found, map[], vols) && GoodVolumes(vols)
    ensures VolumesRead(found, map[], vols) <==> AllSurvive(vols)
  {
    assert AskPut(0, vols);
    if AllSurvive(vols) {
      VolumesSurvive(found, map[], vols);
    } else if AllNamed(vols) {
      var name := FilesLost(found, map[], vols);
      assert HasVolume(vols, name);
    } else {
      var name := BadName(vols);
      NameLost(found, vols, name);
    }
  }

  ghost predicate VolumesAt(b: seq<Byte>, v3: bool, off: nat, vols: Volumes, end: nat) {
    forall u {:trigger AskWriter(u)} :: AskWriter(u) ==>
      HasAt(b, off, VolumeSections(v3, vols)) && off + |VolumeSections(v3, vols)| == end
  }

  lemma VolumesAtEnd(b: seq<Byte>, v3: bool, off: nat, vols: Volumes, end: nat)
    requires VolumesAt(b, v3, off, vols, end) && vols.NoVolume?
    ensures off == end
  {
    assert AskWriter(0);
  }

  lemma VolumeAt(b: seq<Byte>, v3: bool, off: nat, vols: Volumes, end: nat) returns (rest: seq<Byte>, payload: seq<Byte>, next: nat)
    requires VolumesAt(b, v3, off, vols, end) && vols.OneVolume?
    ensures PayloadIs(rest, v3, vols.entries) && payload == U64(|vols.name|) + (vols.name + rest)
    ensures HasAt(b, off, Section(v3, TAG_VOLUME, payload)) && next == off + |Section(v3, TAG_VOLUME, payload)|
    ensures VolumesAt(b, v3, next, vols.rest, end)
  {
    assert AskWriter(0);
    rest := TreePayload(v3, vols.entries);
    payload := NamedPayload(v3, vols.name, vols.entries);
    var section := Section(v3, TAG_VOLUME, payload);
    HasAtSplit(b, off, section, VolumeSections(v3, vols.rest));
    next := off + |section|;
  }

  lemma FirstVolume(b: seq<Byte>, v3: bool, off: nat, s: Sections, vols: Volumes, end: nat) returns (mid: Sections, at: nat, files: Files)
    requires |b| <= MAX_SAFE && VolumesAt(b, v3, off, vols, end) && vols.OneVolume? && GoodEntries(vols.entries)
    ensures Goes(b, v3, off, s, at, mid) && at <= end && VolumesAt(b, v3, at, vols.rest, end)
    ensures TreeFate(files, vols.entries, [47]) && mid == s.(volumes := PutVolume(s.volumes, DecodeText(vols.name), files))
  {
    var rest, payload, next := VolumeAt(b, v3, off, vols, end);
    var from;
    from, at := SectionAtReads(b, v3, off, TAG_VOLUME, payload);
    files := NamedReads(v3, vols.name, vols.entries, rest, payload, from);
    mid := s.(volumes := PutVolume(s.volumes, DecodeText(vols.name), files));
    VolumeStep(b, v3, off, s, payload, from, at, DecodeText(vols.name), files);
    VolumesFit(b, v3, next, vols.rest, end);
  }

  lemma {:induction false} VolumesReadBack(b: seq<Byte>, v3: bool, off: nat, s: Sections, vols: Volumes, end: nat)
    returns (s': Sections)
    requires |b| <= MAX_SAFE && off <= end <= |b| && VolumesAt(b, v3, off, vols, end) && GoodVolumes(vols)
    ensures Goes(b, v3, off, s, end, s')
    ensures s'.manifest == s.manifest && s'.atoms == s.atoms && Puts(s'.volumes, s.volumes, vols)
    decreases vols
  {
    if vols.NoVolume? {
      s' := s;
      VolumesAtEnd(b, v3, off, vols, end);
      PutsNone(s.volumes, vols);
    } else {
      var mid, at, files := FirstVolume(b, v3, off, s, vols, end);
      s' := VolumesReadBack(b, v3, at, mid, vols.rest, end);
      GoesTrans(b, v3, off, s, at, mid, end, s');
      PutsFirst(s'.volumes, s.volumes, vols, mid.volumes, files);
    }
  }

  lemma VolumesFit(b: seq<Byte>, v3: bool, off: nat, vols: Volumes, end: nat)
    requires VolumesAt(b, v3, off, vols, end)
    ensures off <= end
  {
    assert AskWriter(0);
  }

  // ----- The package -----

  ghost predicate AtomsRead(found: Option<Files>, atoms: Option<Entries>) {
    && (found.Some? <==> atoms.Some?)
    && (atoms.Some? ==> TreeIs(found.value, atoms.value, []))
  }

  predicate GoodAtoms(atoms: Option<Entries>) {
    atoms.Some? ==> GoodEntries(atoms.value)
  }

  predicate AtomsSurvive(atoms: Option<Entries>) {
    atoms.Some? ==> Survives(atoms.value, [])
  }

  ghost predicate AtomsFate(found: Option<Files>, atoms: Option<Entries>) {
    forall u {:trigger AskPut(u, NoVolume)} :: AskPut(u, NoVolume) ==> (AtomsRead(found, atoms) <==> AtomsSurvive(atoms))
  }

  lemma NoAtoms()
    ensures AtomsFate(None, None)
  {
  }

  lemma SomeAtoms(files: Files, es: Entries)
    requires TreeFate(files, es, [])
    ensures AtomsFate(Some(files), Some(es))
  {
  }

  lemma AtomsReadBack(b: seq<Byte>, v3: bool, off: nat, s: Sections, es: Entries, payload: seq<Byte>) returns (s': Sections, end: nat)
    requires HasAt(b, off, Section(v3, TAG_ATOMS, payload)) && PayloadIs(payload, v3, es)
    requires |b| <= MAX_SAFE && GoodEntries(es)
    ensures Goes(b, v3, off, s, end, s') && end == off + |Section(v3, TAG_ATOMS, payload)|
    ensures s'.manifest == s.manifest && s'.volumes == s.volumes && AtomsFate(s'.atoms, Some(es))
  {
    var from;
    from, end := SectionAtReads(b, v3, off, TAG_ATOMS, payload);
    var files := TreeReads(v3, es, payload, from, []);
    AtomsStep(b, v3, off, s, payload, from, end, files);
    s' := s.(atoms := Some(files));
    SomeAtoms(files, es);
  }

  lemma ManifestReadBack(b: seq<Byte>, v3: bool, index: seq<Byte>, main: seq<Byte>, at: nat, end: nat)
    requires |b| <= MAX_SAFE && HasAt(b, 8, Section(v3, TAG_INDEX, index)) && at == 8 + |Section(v3, TAG_INDEX, index)|
    requires HasAt(b, at, Section(v3, TAG_MANIFEST, main)) && end == at + |Section(v3, TAG_MANIFEST, main)|
    ensures Goes(b, v3, 8, NO_SECTIONS, end, NO_SECTIONS.(manifest := Some(main)))
  {
    var from, _ := SectionAtReads(b, v3, 8, TAG_INDEX, index);
    SectionStep(b, v3, 8, NO_SECTIONS, TAG_INDEX, index, from, at, NO_SECTIONS);
    var from', _ := SectionAtReads(b, v3, at, TAG_MANIFEST, main);
    SectionStep(b, v3, at, NO_SECTIONS, TAG_MANIFEST, main, from', end, NO_SECTIONS.(manifest := Some(main)));
    GoesTrans(b, v3, 8, NO_SECTIONS, at, NO_SECTIONS, end, NO_SECTIONS.(manifest := Some(main)));
  }

  ghost predicate AtomsAre(b: seq<Byte>, v3: bool, atoms: Option<Entries>) {
    forall u {:trigger AskWriter(u)} :: AskWriter(u) ==> b == AtomSections(v3, atoms)
  }

  lemma RestReadsBack(b: seq<Byte>, v3: bool, off: nat, s: Sections, third: seq<Byte>, atoms: Option<Entries>, vols: Volumes)
    returns (s': Sections)
    requires |b| <= MAX_SAFE && HasAt(b, off, third) && AtomsAre(third, v3, atoms)
    requires VolumesAt(b, v3, off + |third|, vols, |b|) && GoodAtoms(atoms) && GoodVolumes(vols)
    requires s.atoms == None && s.volumes == map[]
    ensures Goes(b, v3, off, s, |b|, s')
    ensures s'.manifest == s.manifest && AtomsFate(s'.atoms, atoms) && Puts(s'.volumes, map[], vols)
  {
    var mid, at := s, off;
    if atoms.Some? {
      var payload := AtomsPayload(third, v3, atoms.value);
      mid, at := AtomsReadBack(b, v3, off, s, atoms.value, payload);
    } else {
      assert third == [] by { assert AskWriter(0); }
      NoAtoms();
    }
    VolumesFit(b, v3, at, vols, |b|);
    s' := VolumesReadBack(b, v3, at, mid, vols, |b|);
    GoesTrans(b, v3, off, s, at, mid, |b|, s');
  }

  lemma AtomsPayload(third: seq<Byte>, v3: bool, es: Entries) returns (payload: seq<Byte>)
    requires AtomsAre(third, v3, Some(es))
    ensures PayloadIs(payload, v3, es) && third == Section(v3, TAG_ATOMS, payload)
  {
    assert AskWriter(0);
    payload := TreePayload(v3, es);
  }

  lemma PackageParts(b: seq<Byte>, start: seq<Byte>, first: seq<Byte>, second: seq<Byte>, third: seq<Byte>, fourth: seq<Byte>)
    requires b == start + (first + (second + (third + fourth)))
    ensures HasAt(b, 0, start) && HasAt(b, |start|, first) && HasAt(b, |start| + |first|, second)
    ensures HasAt(b, |start| + |first| + |second|, third) && HasAt(b, |start| + |first| + |second| + |third|, fourth)
    ensures |b| == |start| + |first| + |second| + |third| + |fourth|
  {
    AtStart(b);
    HasAtSplit(b, 0, start, first + (second + (third + fourth)));
    HasAtSplit(b, |start|, first, second + (third + fourth));
    HasAtSplit(b, |start| + |first|, second, third + fourth);
    HasAtSplit(b, |start| + |first| + |second|, third, fourth);
  }

  /** The sections of a package, told apart. */
  lemma PackageIs(b: seq<Byte>, v3: bool, main: seq<Byte>, atoms: Option<Entries>, vols: Volumes)
    returns (index: seq<Byte>, third: seq<Byte>, fourth: seq<Byte>)
    requires b == PackageOf(v3, main, atoms, vols)
    ensures b == Start(v3) + (Section(v3, TAG_INDEX, index) + (Section(v3, TAG_MANIFEST, main) + (third + fourth)))
    ensures AtomsAre(third, v3, atoms) && VolumesAre(fourth, v3, vols)
  {
    index := Cbor.Encode(Cbor.Obj(Cbor.Nil));
    third, fourth := AtomSections(v3, atoms), VolumeSections(v3, vols);
  }

  ghost predicate VolumesAre(b: seq<Byte>, v3: bool, vols: Volumes) {
    forall u {:trigger AskWriter(u)} :: AskWriter(u) ==> b == VolumeSections(v3, vols)
  }

  lemma VolumesThere(b: seq<Byte>, v3: bool, off: nat, fourth: seq<Byte>, vols: Volumes)
    requires VolumesAre(fourth, v3, vols) && HasAt(b, off, fourth) && |b| == off + |fourth|
    ensures VolumesAt(b, v3, off, vols, |b|)
  {
    assert AskWriter(0);
  }

  lemma PackageAt(b: seq<Byte>, v3: bool, main: seq<Byte>, atoms: Option<Entries>, vols: Volumes)
    returns (index: seq<Byte>, third: seq<Byte>, at: nat, off: nat)
    requires b == PackageOf(v3, main, atoms, vols)
    ensures HasAt(b, 0, Start(v3)) && HasAt(b, 8, Section(v3, TAG_INDEX, index)) && at == 8 + |Section(v3, TAG_INDEX, index)|
    ensures HasAt(b, at, Section(v3, TAG_MANIFEST, main)) && off == at + |Section(v3, TAG_MANIFEST, main)|
    ensures HasAt(b, off, third) && AtomsAre(third, v3, atoms) && VolumesAt(b, v3, off + |third|, vols, |b|)
  {
    var fourth;
    index, third, fourth := PackageIs(b, v3, main, atoms, vols);
    at, off := SectionsAt(b, Start(v3), Section(v3, TAG_INDEX, index), Section(v3, TAG_MANIFEST, main), third, fourth);
    VolumesThere(b, v3, off + |third|, fourth, vols);
  }

  lemma SectionsAt(b: seq<Byte>, start: seq<Byte>, first: seq<Byte>, second: seq<Byte>, third: seq<Byte>, fourth: seq<Byte>)
    returns (at: nat, off: nat)
    requires b == start + (first + (second + (third + fourth))) && |start| == 8
    ensures HasAt(b, 0, start) && HasAt(b, 8, first) && at == 8 + |first| && HasAt(b, at, second) && off == at + |second|
    ensures HasAt(b, off, third) && HasAt(b, off + |third|, fourth) && |b| == off + |third| + |fourth|
  {
    PackageParts(b, start, first, second, third, fourth);
    at, off := 8 + |first|, 8 + |first| + |second|;
  }

  lemma SectionsReadBack(b: seq<Byte>, v3: bool, main: seq<Byte>, atoms: Option<Entries>, vols: Volumes) returns (s: Sections)
    requires b == PackageOf(v3, main, atoms, vols) && |b| <= MAX_SAFE && GoodAtoms(atoms) && GoodVolumes(vols)
    ensures HasAt(b, 0, Start(v3)) && Goes(b, v3, 8, NO_SECTIONS, |b|, s)
    ensures s.manifest == Some(main) && AtomsFate(s.atoms, atoms) && Puts(s.volumes, map[], vols)
  {
    var index, third, at, off := PackageAt(b, v3, main, atoms, vols);
    ManifestReadBack(b, v3, index, main, at, off);
    var mid := NO_SECTIONS.(manifest := Some(main));
    s := RestReadsBack(b, v3, off, mid, third, atoms, vols);
    GoesTrans(b, v3, 8, NO_SECTIONS, off, mid, |b|, s);
  }

  lemma VersionReads(v3: bool, b: seq<Byte>)
    requires HasAt(b, 0, Start(v3))
    ensures |b| >= 8 && DetectVersion(b) == Some(if v3 then V3 else V2)
  {
    HasAtSlice(b, 0, Start(v3));
    assert b[..5] == b[0..8][..5];
    assert b[5..8] == b[0..8][5..8] == if v3 then V3 else V2;
  }

  lemma SectionsGive(b: seq<Byte>, v3: bool, s: Sections)
    requires |b| >= 8 && DetectVersion(b) == Some(if v3 then V3 else V2) && s.manifest.Some?
    requires Goes(b, v3, 8, NO_SECTIONS, |b|, s)
    ensures var r, m := ReadPackage(b), DecodeManifest(s.manifest.value);
            if m.Err? then r == Err(m.error) else r == Ok(Package(m.value, s.atoms, s.volumes))
  {
    assert AskReader(0);
    assert V2 != [] && V3 != [] && V2[2] != V3[2];
  }

  lemma ManifestDecodes(manifest: Cbor.Value)
    requires Cbor.Script(manifest)
    ensures DecodeManifest(Cbor.Encode(manifest)) == Ok(manifest) <==> Cbor.Encodable(manifest) && Cbor.Height(manifest) <= 128
  {
    Cbor.RoundTrip(manifest, []);
    assert Cbor.Encode(manifest) + [] == Cbor.Encode(manifest);
  }

  /** In both versions, a package built from a manifest, atoms and volumes is read back with
      that manifest if and only if the manifest is encodable and nests at most 128 deep, with
      exactly its atoms if and only if no atom's path has a byte-order mark at the start of a name
      and none is called `__proto__`, and with exactly its volumes if and only if no volume is
      called `__proto__` and no mark is at the start of a volume's name or of a name on a file's
      path in it. */
  lemma PackageRoundTrip(v3: bool, manifest: Cbor.Value, atoms: Option<Entries>, vols: Volumes)
    requires |PackageBytes(v3, manifest, atoms, vols)| <= 9007199254740991 && GoodAtoms(atoms) && GoodVolumes(vols) && Cbor.Script(manifest)
    ensures var r := ReadPackage(PackageBytes(v3, manifest, atoms, vols));
            && (r.Ok? ==> (AtomsRead(r.value.atoms, atoms) <==> AtomsSurvive(atoms)))
            && (r.Ok? ==> (VolumesRead(r.value.volumes, map[], vols) <==> AllSurvive(vols)))
            && (r.Ok? && r.value.manifest == manifest <==> Cbor.Encodable(manifest) && Cbor.Height(manifest) <= 128)
  {
    var b := PackageBytes(v3, manifest, atoms, vols);
    var s := SectionsReadBack(b, v3, Cbor.Encode(manifest), atoms, vols);
    VersionReads(v3, b);
    SectionsGive(b, v3, s);
    ManifestDecodes(manifest);
    VolumesFate(s.volumes, vols);
    assert AskPut(0, NoVolume);
  }
}
