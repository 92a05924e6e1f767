/** The bytes of a package, told with numerals: what the writer of the other modules writes is what
    stands here. */
module WebcLayout {
  import opened Bytes
  import opened WebcVolume
  import opened WebcPackage
  import opened WebcPackageRoundTrip
  import Cbor

  function Nulls(n: nat): (b: seq<Byte>)
    ensures |b| == n && forall i :: 0 <= i < n ==> b[i] == 0
  {
    if n == 0 then [] else Nulls(n - 1) + [0]
  }

  lemma NullsAre(n: nat)
    ensures Zeros(n) == Nulls(n)
  {
  }

  // ----- Volumes -----

  /** The length of a directory's entries. */
  function EntriesLength(v3: bool, es: Entries): nat {
    if es.Empty? then 0 else 16 + (if v3 then 32 else 0) + |es.name| + EntriesLength(v3, es.rest)
  }

  function TreeLength(v3: bool, t: Tree): nat {
    match t
    case File(_) => if v3 then 73 else 49
    case Dir(es) => (if v3 then 65 else 9) + EntriesLength(v3, es) + ChildrenLength(v3, es)
  }

  function ChildrenLength(v3: bool, es: Entries): nat {
    if es.Empty? then 0 else TreeLength(v3, es.child) + ChildrenLength(v3, es.rest)
  }

  /** A file: 31, where its bytes begin and end, a checksum and, in version 3, three times. A
      directory: 30, the length of the rest of it up to its children, in version 3 three times and a
      checksum, an entry for each child, and then the children. */
  function TreeLaid(v3: bool, t: Tree, at: nat, from: nat): seq<Byte> {
    match t
    case File(bytes) => [31] + (Word(from) + (Word(from + |bytes|) + Nulls(if v3 then 56 else 32)))
    case Dir(es) =>
      var meta := if v3 then 56 else 0;
      var first := at + 9 + meta + EntriesLength(v3, es);
      ([30] + (Word(meta + EntriesLength(v3, es)) + Nulls(meta)) + EntriesLaid(v3, es, first)) + ChildrenLaid(v3, es, first, from)
  }

  /** An entry: where the child begins, in version 3 a checksum, and the name with its length. */
  function EntriesLaid(v3: bool, es: Entries, at: nat): seq<Byte> {
    if es.Empty? then []
    else (Word(at) + (Nulls(if v3 then 32 else 0) + (Word(|es.name|) + es.name)))
         + EntriesLaid(v3, es.rest, at + TreeLength(v3, es.child))
  }

  function ChildrenLaid(v3: bool, es: Entries, at: nat, from: nat): seq<Byte> {
    if es.Empty? then []
    else TreeLaid(v3, es.child, at, from) + ChildrenLaid(v3, es.rest, at + TreeLength(v3, es.child), from + |DataLaid(es.child)|)
  }

  function DataLaid(t: Tree): seq<Byte> {
    match t
    case File(bytes) => bytes
    case Dir(es) => ChildrenDataLaid(es)
  }

  function ChildrenDataLaid(es: Entries): seq<Byte> {
    if es.Empty? then [] else DataLaid(es.child) + ChildrenDataLaid(es.rest)
  }

  lemma {:induction false} LengthsAre(v3: bool, t: Tree)
    ensures TreeLength(v3, t) == TreeSize(v3, t) && DataLaid(t) == TreeData(t)
    decreases t, 1
  {
    if t.Dir? {
      ChildrenLengthsAre(v3, t.entries);
    }
  }

  lemma {:induction false} ChildrenLengthsAre(v3: bool, es: Entries)
    ensures EntriesLength(v3, es) == BlockSize(v3, es) && ChildrenLength(v3, es) == ChildrenSize(v3, es)
    ensures ChildrenDataLaid(es) == ChildrenData(es)
    decreases es, 0
  {
    if es.Entry? {
      LengthsAre(v3, es.child);
      ChildrenLengthsAre(v3, es.rest);
    }
  }

  lemma HeadIs(v3: bool, name: Text, at: nat)
    ensures Head(v3, name, at) == Word(at) + (Nulls(if v3 then 32 else 0) + (Word(|name|) + name))
  {
    WordIs(at);
    WordIs(|name|);
    NullsAre(if v3 then 32 else 0);
  }

  lemma {:induction false} EntriesAre(v3: bool, es: Entries, at: nat)
    ensures EntriesLaid(v3, es, at) == Block(v3, es, at)
    decreases es
  {
    if es.Entry? {
      HeadIs(v3, es.name, at);
      LengthsAre(v3, es.child);
      EntriesAre(v3, es.rest, at + TreeLength(v3, es.child));
    }
  }

  lemma FileIs(v3: bool, from: nat, to: nat)
    ensures FileHeader(v3, from, to) == [31] + (Word(from) + (Word(to) + Nulls(if v3 then 56 else 32)))
  {
    WordIs(from);
    WordIs(to);
    NullsAre(if v3 then 56 else 32);
  }

  lemma FrontIs(v3: bool, length: nat)
    ensures Front(v3, length) == [30] + (Word(length) + Nulls(if v3 then 56 else 0))
  {
    WordIs(length);
    NullsAre(if v3 then 56 else 0);
  }

  lemma LaidDir(v3: bool, es: Entries, at: nat, from: nat, first: nat, front: seq<Byte>)
    requires first == at + 9 + (if v3 then 56 else 0) + EntriesLength(v3, es)
    requires front == [30] + (Word((if v3 then 56 else 0) + EntriesLength(v3, es)) + Nulls(if v3 then 56 else 0))
    ensures TreeLaid(v3, Dir(es), at, from) == (front + EntriesLaid(v3, es, first)) + ChildrenLaid(v3, es, first, from)
  {
  }

  lemma DirIsLaid(v3: bool, es: Entries, at: nat, from: nat, first: nat)
    requires first == at + ChildStart(v3, es) && ChildrenHeader(v3, es, first, from) == ChildrenLaid(v3, es, first, from)
    ensures TreeHeader(v3, Dir(es), at, from) == TreeLaid(v3, Dir(es), at, from)
  {
    var front, block := FrontAndBlock(v3, es, at, first);
    DirLaid(v3, es, at, from, first);
    LaidDir(v3, es, at, from, first, front);
  }

  lemma FrontAndBlock(v3: bool, es: Entries, at: nat, first: nat) returns (front: seq<Byte>, block: seq<Byte>)
    requires first == at + ChildStart(v3, es)
    ensures front == DirFront(v3, es) && block == Block(v3, es, first) == EntriesLaid(v3, es, first)
    ensures front == [30] + (Word((if v3 then 56 else 0) + EntriesLength(v3, es)) + Nulls(if v3 then 56 else 0))
    ensures first == at + 9 + (if v3 then 56 else 0) + EntriesLength(v3, es)
  {
    front := LaidFront(v3, es);
    block := LaidBlock(v3, es, first);
    StartIs(v3, es);
  }

  lemma StartIs(v3: bool, es: Entries)
    ensures ChildStart(v3, es) == 9 + (if v3 then 56 else 0) + EntriesLength(v3, es)
  {
    ChildrenLengthsAre(v3, es);
  }

  lemma LaidFront(v3: bool, es: Entries) returns (front: seq<Byte>)
    ensures front == DirFront(v3, es)
    ensures front == [30] + (Word((if v3 then 56 else 0) + EntriesLength(v3, es)) + Nulls(if v3 then 56 else 0))
  {
    var length := (if v3 then 56 else 0) + EntriesLength(v3, es);
    ChildrenLengthsAre(v3, es);
    FrontIs(v3, length);
    front := Front(v3, length);
  }

  lemma LaidBlock(v3: bool, es: Entries, first: nat) returns (block: seq<Byte>)
    ensures block == Block(v3, es, first) == EntriesLaid(v3, es, first)
  {
    EntriesAre(v3, es, first);
    block := Block(v3, es, first);
  }

  lemma LaidChild(v3: bool, es: Entries, at: nat, from: nat, later: nat, more: nat, child: seq<Byte>, rest: seq<Byte>)
    requires es.Entry? && later == at + TreeLength(v3, es.child) && more == from + |DataLaid(es.child)|
    requires child == TreeLaid(v3, es.child, at, from) && rest == ChildrenLaid(v3, es.rest, later, more)
    ensures ChildrenLaid(v3, es, at, from) == child + rest
  {
  }

  lemma HeaderChild(v3: bool, es: Entries, at: nat, from: nat, later: nat, more: nat, child: seq<Byte>, rest: seq<Byte>)
    requires es.Entry? && later == at + TreeSize(v3, es.child) && more == from + |TreeData(es.child)|
    requires child == TreeHeader(v3, es.child, at, from) && rest == ChildrenHeader(v3, es.rest, later, more)
    ensures ChildrenHeader(v3, es, at, from) == child + rest
  {
  }

  lemma FileIsLaid(v3: bool, bytes: seq<Byte>, at: nat, from: nat)
    ensures TreeHeader(v3, File(bytes), at, from) == TreeLaid(v3, File(bytes), at, from)
  {
    FileIs(v3, from, from + |bytes|);
  }

  lemma {:induction false} TreeIsLaid(v3: bool, t: Tree, at: nat, from: nat)
    ensures TreeHeader(v3, t, at, from) == TreeLaid(v3, t, at, from)
    decreases t, 1
  {
    if t.File? {
      FileIsLaid(v3, t.bytes, at, from);
    } else {
      var first := at + ChildStart(v3, t.entries);
      ChildrenAreLaid(v3, t.entries, first, from);
      DirIsLaid(v3, t.entries, at, from, first);
    }
  }

  lemma {:induction false} ChildrenAreLaid(v3: bool, es: Entries, at: nat, from: nat)
    ensures ChildrenHeader(v3, es, at, from) == ChildrenLaid(v3, es, at, from)
    decreases es, 0
  {
    if es.Entry? {
      LengthsAre(v3, es.child);
      var later, more := at + TreeLength(v3, es.child), from + |DataLaid(es.child)|;
      TreeIsLaid(v3, es.child, at, from);
      ChildrenAreLaid(v3, es.rest, later, more);
      var child, rest := TreeLaid(v3, es.child, at, from), ChildrenLaid(v3, es.rest, later, more);
      LaidChild(v3, es, at, from, later, more, child, rest);
      HeaderChild(v3, es, at, from, later, more, child, rest);
    }
  }

  // ----- Packages -----

  /** A tag, in version 3 a checksum of every section but the index, and the payload with its length. */
  function SectionLaid(v3: bool, tag: Byte, payload: seq<Byte>): seq<Byte> {
    [tag] + (Nulls(if v3 && tag != 2 then 32 else 0) + (Word(|payload|) + payload))
  }

  function PayloadLaid(v3: bool, es: Entries): seq<Byte> {
    var header, data := TreeLaid(v3, Dir(es), 0, 0), DataLaid(Dir(es));
    Word(|header|) + (header + (Word(|data|) + data))
  }

  function VolumesLaid(v3: bool, vols: Volumes): seq<Byte> {
    if vols.NoVolume? then []
    else SectionLaid(v3, 4, Word(|vols.name|) + (vols.name + PayloadLaid(v3, vols.entries))) + VolumesLaid(v3, vols.rest)
  }

  /** NUL, `webc`, `002` or `003`, the index, an empty object, the manifest, the atoms and the
      volumes. */
  function PackageLaid(v3: bool, manifest: seq<Byte>, atoms: Option<Entries>, vols: Volumes): seq<Byte> {
    ([0x00, 0x77, 0x65, 0x62, 0x63] + (if v3 then [0x30, 0x30, 0x33] else [0x30, 0x30, 0x32]))
    + (SectionLaid(v3, 2, [0xa0]) +
       (SectionLaid(v3, 1, manifest) +
        ((if atoms.None? then [] else SectionLaid(v3, 3, PayloadLaid(v3, atoms.value))) + VolumesLaid(v3, vols))))
  }

  lemma SectionIs(v3: bool, tag: Byte, payload: seq<Byte>)
    ensures Section(v3, tag, payload) == SectionLaid(v3, tag, payload)
  {
    WordIs(|payload|);
    NullsAre(if v3 && tag != 2 then 32 else 0);
  }

  lemma PayloadIsLaid(v3: bool, es: Entries)
    ensures TreePayload(v3, es) == PayloadLaid(v3, es)
  {
    TreeIsLaid(v3, Dir(es), 0, 0);
    LengthsAre(v3, Dir(es));
    WordIs(|TreeLaid(v3, Dir(es), 0, 0)|);
    WordIs(|DataLaid(Dir(es))|);
  }

  lemma {:induction false} VolumesAreLaid(v3: bool, vols: Volumes)
    ensures VolumeSections(v3, vols) == VolumesLaid(v3, vols)
    decreases vols
  {
    if vols.OneVolume? {
      PayloadIsLaid(v3, vols.entries);
      WordIs(|vols.name|);
      SectionIs(v3, 4, NamedPayload(v3, vols.name, vols.entries));
      VolumesAreLaid(v3, vols.rest);
    }
  }

  /** Every package of the round trip, byte for byte. */
  lemma PackageIsLaid(v3: bool, manifest: seq<Byte>, atoms: Option<Entries>, vols: Volumes)
    ensures PackageOf(v3, manifest, atoms, vols) == PackageLaid(v3, manifest, atoms, vols)
  {
    var empty := Cbor.Encode(Cbor.Obj(Cbor.Nil));
    assert empty == [0xa0] by {
      assert BeBytes(0, 0) == [];
    }
    SectionIs(v3, 2, empty);
    SectionIs(v3, 1, manifest);
    if atoms.Some? {
      PayloadIsLaid(v3, atoms.value);
      SectionIs(v3, 3, TreePayload(v3, atoms.value));
    }
    VolumesAreLaid(v3, vols);
  }
}
