/** What the writes of a run do to a file's bytes. */
module FileContents {
  import opened Bytes
  import Paths
  import opened Namespace
  import NamespaceRuns

  function Flattened(chunks: Chunks): seq<Byte> {
    if chunks.NoChunk? then [] else chunks.bytes + Flattened(chunks.rest)
  }

  /** The byte at `i` of a file, zero past its end. */
  function ByteAt(bytes: seq<Byte>, i: nat): Byte {
    if i < |bytes| then bytes[i] else 0
  }

  lemma GrownAt(bytes: seq<Byte>, size: nat, i: nat)
    ensures ByteAt(Grown(bytes, size), i) == ByteAt(bytes, i)
  {
  }

  /** A write changes exactly the bytes it covers; a gap before it reads as zeros. */
  lemma OverlaidAt(bytes: seq<Byte>, offset: nat, chunk: seq<Byte>, i: nat)
    ensures var r := Overlaid(bytes, offset, chunk);
            && |r| == (if |bytes| < offset + |chunk| then offset + |chunk| else |bytes|)
            && ByteAt(r, i) == if offset <= i < offset + |chunk| then chunk[i - offset] else ByteAt(bytes, i)
  {
    GrownAt(bytes, offset + |chunk|, i);
  }

  /** The same, as a relation. */
  ghost predicate Covers(r: seq<Byte>, bytes: seq<Byte>, offset: nat, chunk: seq<Byte>) {
    && |r| == (if |bytes| < offset + |chunk| then offset + |chunk| else |bytes|)
    && forall i: nat :: ByteAt(r, i) == if offset <= i < offset + |chunk| then chunk[i - offset] else ByteAt(bytes, i)
  }

  lemma OverlaidCovers(bytes: seq<Byte>, offset: nat, chunk: seq<Byte>)
    ensures Covers(Overlaid(bytes, offset, chunk), bytes, offset, chunk)
  {
    forall i: nat ensures ByteAt(Overlaid(bytes, offset, chunk), i) ==
      if offset <= i < offset + |chunk| then chunk[i - offset] else ByteAt(bytes, i)
    {
      OverlaidAt(bytes, offset, chunk, i);
    }
    OverlaidAt(bytes, offset, chunk, 0);
  }

  lemma OnlyOneCovers(r: seq<Byte>, s: seq<Byte>, bytes: seq<Byte>, offset: nat, chunk: seq<Byte>)
    requires Covers(r, bytes, offset, chunk) && Covers(s, bytes, offset, chunk)
    ensures r == s
  {
    forall i | 0 <= i < |r| ensures r[i] == s[i] {
      assert ByteAt(r, i) == ByteAt(s, i);
    }
  }

  lemma CoversTwice(r: seq<Byte>, mid: seq<Byte>, bytes: seq<Byte>, offset: nat, a: seq<Byte>, b: seq<Byte>)
    requires Covers(mid, bytes, offset, a) && Covers(r, mid, offset + |a|, b)
    ensures Covers(r, bytes, offset, a + b)
  {
  }

  predicate AskLaid(u: int, bytes: seq<Byte>) {
    true
  }

  ghost predicate Laid(r: seq<Byte>, bytes: seq<Byte>, offset: nat, chunk: seq<Byte>) {
    forall u {:trigger AskLaid(u, bytes)} :: AskLaid(u, bytes) ==> r == Overlaid(bytes, offset, chunk)
  }

  lemma LaidTwice(r: seq<Byte>, mid: seq<Byte>, bytes: seq<Byte>, offset: nat, a: seq<Byte>, at: nat, b: seq<Byte>, ab: seq<Byte>)
    requires Laid(mid, bytes, offset, a) && at == offset + |a| && Laid(r, mid, at, b) && ab == a + b
    ensures Laid(r, bytes, offset, ab)
  {
    LaidCovers(mid, bytes, offset, a);
    LaidCovers(r, mid, at, b);
    CoversTwice(r, mid, bytes, offset, a, b);
    CoversLaid(r, bytes, offset, ab);
  }

  lemma LaidCovers(r: seq<Byte>, bytes: seq<Byte>, offset: nat, chunk: seq<Byte>)
    requires Laid(r, bytes, offset, chunk)
    ensures Covers(r, bytes, offset, chunk)
  {
    assert AskLaid(0, bytes);
    OverlaidCovers(bytes, offset, chunk);
  }

  lemma CoversLaid(r: seq<Byte>, bytes: seq<Byte>, offset: nat, chunk: seq<Byte>)
    requires Covers(r, bytes, offset, chunk)
    ensures Laid(r, bytes, offset, chunk)
  {
    OverlaidCovers(bytes, offset, chunk);
    OnlyOneCovers(r, Overlaid(bytes, offset, chunk), bytes, offset, chunk);
  }

  // ----- Chunk after chunk -----

  predicate AskWrites(u: int, chunks: Chunks) {
    true
  }

  ghost predicate Writes(r: seq<Byte>, bytes: seq<Byte>, offset: nat, chunks: Chunks) {
    forall u {:trigger AskWrites(u, chunks)} :: AskWrites(u, chunks) ==> r == WrittenBytes(bytes, offset, chunks)
  }

  lemma WrittenUnfolds(bytes: seq<Byte>, offset: nat, chunks: Chunks)
    requires chunks.Chunk?
    ensures WrittenBytes(bytes, offset, chunks) == WrittenBytes(Overlaid(bytes, offset, chunks.bytes), offset + |chunks.bytes|, chunks.rest)
  {
  }

  lemma WritesFirst(r: seq<Byte>, bytes: seq<Byte>, offset: nat, chunks: Chunks) returns (next: seq<Byte>, at: nat)
    requires chunks.Chunk? && Writes(r, bytes, offset, chunks)
    ensures Laid(next, bytes, offset, chunks.bytes) && at == offset + |chunks.bytes| && Writes(r, next, at, chunks.rest)
  {
    assert AskWrites(0, chunks);
    WrittenUnfolds(bytes, offset, chunks);
    next, at := Overlaid(bytes, offset, chunks.bytes), offset + |chunks.bytes|;
  }

  lemma WritesNothing(r: seq<Byte>, bytes: seq<Byte>, offset: nat, chunks: Chunks)
    requires chunks.NoChunk? && Writes(r, bytes, offset, chunks)
    ensures r == bytes
  {
    assert AskWrites(0, chunks);
  }

  lemma FlattenedStep(chunks: Chunks)
    requires chunks.Chunk?
    ensures Flattened(chunks) == chunks.bytes + Flattened(chunks.rest)
    ensures chunks.rest.NoChunk? ==> Flattened(chunks) == chunks.bytes
  {
  }

  lemma {:induction false} WritesLay(r: seq<Byte>, bytes: seq<Byte>, offset: nat, chunks: Chunks)
    requires chunks.Chunk? && Writes(r, bytes, offset, chunks)
    ensures Laid(r, bytes, offset, Flattened(chunks))
    decreases chunks
  {
    var next, at := WritesFirst(r, bytes, offset, chunks);
    FlattenedStep(chunks);
    if chunks.rest.Chunk? {
      WritesLay(r, next, at, chunks.rest);
      LaidTwice(r, next, bytes, offset, chunks.bytes, at, Flattened(chunks.rest), Flattened(chunks));
    } else {
      WritesNothing(r, next, at, chunks.rest);
    }
  }

  /** Writing chunk after chunk, growing the file as needed, is writing them all at once. */
  lemma WrittenAtOnce(bytes: seq<Byte>, offset: nat, chunks: Chunks)
    requires chunks.Chunk?
    ensures WrittenBytes(bytes, offset, chunks) == Overlaid(bytes, offset, Flattened(chunks))
  {
    var r := WrittenBytes(bytes, offset, chunks);
    WritesLay(r, bytes, offset, chunks);
    assert AskLaid(0, bytes);
  }

  /** The `changed` flag is raised exactly when bytes were written or the file grew; when it is
      not, the contents are as they were. */
  lemma {:induction false} ChangedExactly(bytes: seq<Byte>, offset: nat, chunks: Chunks)
    ensures WriteChanges(bytes, offset, chunks) <==>
            Flattened(chunks) != [] || (chunks.Chunk? && offset > |bytes|)
    ensures !WriteChanges(bytes, offset, chunks) ==> WrittenBytes(bytes, offset, chunks) == bytes
    decreases chunks
  {
    if chunks.Chunk? && chunks.bytes == [] && offset <= |bytes| {
      assert Overlaid(bytes, offset, []) == bytes;
      ChangedExactly(bytes, offset, chunks.rest);
      assert chunks.bytes + Flattened(chunks.rest) == Flattened(chunks.rest);
    }
  }

  /** Setting the size keeps the bytes up to it and fills with zeros. */
  lemma ResizedAt(bytes: seq<Byte>, size: nat, i: nat)
    ensures var r := Grown(bytes, size)[..size];
            |r| == size && ByteAt(r, i) == if i < size then ByteAt(bytes, i) else 0
  {
    GrownAt(bytes, size, i);
  }

  /** What a write through one descriptor does to every path: the file that the descriptor holds
      gets the bytes, and no other file changes. */
  lemma WriteReaches(w: Space, fd: nat, offset: nat, chunks: Chunks, k: Paths.Path)
    requires NamespaceRuns.Coherent(w) && fd in w.opens && w.opens[fd].OpenFile? && w.opens[fd].rights.write && chunks.Chunk?
    requires k in w.files
    ensures var r := Write(w, fd, offset, chunks);
            && r.errno == Success && k in r.space.files && r.space.files[k] == w.files[k]
            && r.space.records[w.files[k]].bytes ==
               if w.opens[fd].path == Some(k) then Overlaid(w.records[w.files[k]].bytes, offset, Flattened(chunks))
               else w.records[w.files[k]].bytes
  {
    var o := w.opens[fd];
    assert NamespaceRuns.Attached(w, o) && NamespaceRuns.Detached(w, o);
    var bytes := w.records[o.record].bytes;
    WrittenAtOnce(bytes, offset, chunks);
    ChangedExactly(bytes, offset, chunks);
  }
}
