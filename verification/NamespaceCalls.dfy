/** What each workspace call does to every path and every open descriptor, and when it goes ahead. */
module NamespaceCalls {
  import opened Bytes
  import opened Paths
  import opened Namespace
  import opened NamespaceRuns
  import opened NamespaceExport
  import opened FileContents

  // ----- Paths as texts -----

  lemma UnderExactly(p: Path, k: Path)
    ensures Under(p, k) <==> exists rest :: k == p + "/" + rest
  {
    if Under(p, k) {
      assert k == p + "/" + k[|p| + 1..];
    }
  }

  lemma ParentExactly(front: Path, name: string)
    requires '/' !in name
    ensures Nested(front + "/" + name) && Parent(front + "/" + name) == front
    ensures !Nested(name)
  {
    var k := front + "/" + name;
    forall j | |front| < j < |k| ensures k[j] != '/' {
      assert k[j] == name[j - |front| - 1];
    }
    LastSlashIs(k, |front|);
    assert k[..|front|] == front;
  }

  // ----- When a call goes ahead -----

  /** Something is under `p`. */
  ghost predicate Populated(w: Space, p: Path) {
    exists k :: (k in w.dirs || k in w.files) && Under(p, k)
  }

  /** `p` is where something may be: its parent is a directory, or it needs none. */
  predicate Placed(w: Space, p: Path) {
    Nested(p) ==> Parent(p) in w.dirs && Parent(p) !in w.files
  }

  /** A directory, also one that is only the prefix of other paths. */
  ghost predicate IsDirectory(w: Space, p: Path) {
    p !in w.files && (p in w.dirs || Populated(w, p))
  }

  lemma PopulatedExactly(w: Space, p: Path)
    ensures HasChildren(w, p) <==> Populated(w, p)
  {
  }

  /** Why a call is refused: what has to be the case for each error. */
  ghost predicate Explains(w: Space, c: Call, e: Errno) {
    match e
    case Success => true
    case BadF => (c.DoWrite? || c.DoResize? || c.DoAllocate? || c.DoSetRights? || c.DoClose? || c.DoDup?) && c.fd !in w.opens
    case Exists => (c.DoMakeDirectory? && (c.p in w.dirs || c.p in w.files)) || (c.DoOpen? && c.p in w.files && c.create && c.excl)
    case IsDir =>
      (match c
       case DoOpen(_, p, _, _, _, _) => p in w.dirs || Populated(w, p)
       case DoUnlink(p) => p in w.dirs || Populated(w, p)
       case DoRename(p, q) => p in w.files && IsDirectory(w, q)
       case DoWrite(fd, _, _) => fd in w.opens && w.opens[fd].OpenDir?
       case DoResize(fd, _) => fd in w.opens && w.opens[fd].OpenDir?
       case DoAllocate(fd, _) => fd in w.opens && w.opens[fd].OpenDir?
       case _ => false)
    case NotDir =>
      (match c
       case DoOpenDirectory(_, p) => p in w.files
       case DoRemoveDirectory(_, p) => p in w.files || (Nested(p) && Parent(p) in w.files)
       case DoRename(p, q) => (IsDirectory(w, p) && q in w.files) || (Nested(q) && Parent(q) in w.files)
       case DoOpen(_, p, _, _, _, _) => Nested(p) && Parent(p) in w.files
       case DoMakeDirectory(p) => Nested(p) && Parent(p) in w.files
       case _ => false)
    case NotEmpty => (c.DoRemoveDirectory? && Populated(w, c.p)) || (c.DoRename? && IsDirectory(w, c.p) && Populated(w, c.q))
    case Invalid => c.DoRename? && IsDirectory(w, c.p) && Under(c.p, c.q)
    case NoEntry =>
      (match c
       case DoOpen(_, p, create, _, _, _) => !Placed(w, p) || (p !in w.files && !create)
       case DoOpenDirectory(_, p) => p !in w.dirs && !Populated(w, p)
       case DoMakeDirectory(p) => !Placed(w, p)
       case DoUnlink(p) => p !in w.files
       case DoRemoveDirectory(_, p) => !Placed(w, p) || p !in w.dirs
       case DoRename(p, q) => (p !in w.files && !IsDirectory(w, p)) || !Placed(w, q)
       case _ => false)
    case NotCapable =>
      (match c
       case DoOpen(_, _, create, _, trunc, rights) => (create || trunc) && !rights.write && !rights.allocate
       case DoRemoveDirectory(base, p) => p == base
       case DoRename(p, q) => p == "" || q == ""
       case DoWrite(fd, _, _) => fd in w.opens && w.opens[fd].OpenFile? && !w.opens[fd].rights.write
       case DoResize(fd, _) => fd in w.opens && w.opens[fd].OpenFile? && !w.opens[fd].rights.resize
       case DoAllocate(fd, _) => fd in w.opens && w.opens[fd].OpenFile? && !w.opens[fd].rights.allocate
       case DoSetRights(fd, rights) => fd in w.opens && w.opens[fd].OpenFile? && !rights.Within(w.opens[fd].rights)
       case _ => false)
  }

  lemma HeldKnown(w: Space, fd: nat)
    requires Coherent(w) && fd in w.opens && w.opens[fd].OpenFile?
    ensures w.opens[fd].record < |w.records|
  {
    assert Attached(w, w.opens[fd]) && Detached(w, w.opens[fd]);
  }

  lemma RefusedOpen(w: Space, c: Call)
    requires Coherent(w) && (c.DoOpen? || c.DoOpenDirectory?)
    ensures var r := Step(w, c); (r.errno != Success ==> r.space == w) && Explains(w, c, r.errno)
  {
    PopulatedExactly(w, c.p);
  }

  lemma RefusedRemoval(w: Space, c: Call)
    requires Coherent(w) && (c.DoMakeDirectory? || c.DoUnlink? || c.DoRemoveDirectory?)
    ensures var r := Step(w, c); (r.errno != Success ==> r.space == w) && Explains(w, c, r.errno)
  {
    PopulatedExactly(w, c.p);
  }

  lemma RefusedRename(w: Space, p: Path, q: Path)
    requires Coherent(w)
    ensures var r := Step(w, DoRename(p, q)); (r.errno != Success ==> r.space == w) && Explains(w, DoRename(p, q), r.errno)
  {
    PopulatedExactly(w, p);
    PopulatedExactly(w, q);
  }

  lemma RefusedData(w: Space, c: Call)
    requires Coherent(w) && (c.DoWrite? || c.DoResize? || c.DoAllocate?)
    ensures var r := Step(w, c); (r.errno != Success ==> r.space == w) && Explains(w, c, r.errno)
  {
    if c.fd in w.opens && w.opens[c.fd].OpenFile? {
      HeldKnown(w, c.fd);
    }
  }

  /** A call that is refused changes nothing, and its error tells why. */
  lemma RefusedExplained(w: Space, c: Call)
    requires Coherent(w)
    ensures var r := Step(w, c); (r.errno != Success ==> r.space == w) && Explains(w, c, r.errno)
  {
    if c.DoOpen? || c.DoOpenDirectory? {
      RefusedOpen(w, c);
    } else if c.DoMakeDirectory? || c.DoUnlink? || c.DoRemoveDirectory? {
      RefusedRemoval(w, c);
    } else if c.DoRename? {
      RefusedRename(w, c.p, c.q);
    } else if c.DoWrite? || c.DoResize? || c.DoAllocate? {
      RefusedData(w, c);
    }
  }

  // ----- What a call does -----

  /** Every path but `p` is as it was. */
  ghost predicate OthersStay(w: Space, w': Space, p: Path)
    requires RecordsKnown(w) && RecordsKnown(w')
  {
    forall k :: k != p ==> ThingAt(w', k) == ThingAt(w, k)
  }

  /** An open finds a file that is there and keeps its bytes, unless it truncates; or it makes an
      empty one. */
  lemma OpenDoes(w: Space, fd: nat, p: Path, create: bool, excl: bool, trunc: bool, rights: Rights)
    requires Coherent(w)
    ensures
      var r := Step(w, DoOpen(fd, p, create, excl, trunc, rights));
      var w' := r.space;
      var made := p !in w.files;
      && Coherent(w')
      && (r.errno == Success <==>
            && (create || trunc ==> rights.write || rights.allocate)
            && p !in w.dirs && !Populated(w, p) && Placed(w, p)
            && (if made then create else !(create && excl)))
      && (r.errno == Success ==>
            && OthersStay(w, w', p)
            && ThingAt(w', p) == (if made || trunc then FileOf([], false) else ThingAt(w, p))
            && w'.opens == w.opens[fd := OpenFile(Some(p), w'.files[p], rights)]
            && w'.dirty == (w.dirty || made || trunc))
  {
    OpenPathCoherent(w, fd, p, create, excl, trunc, rights);
    OpenSucceeds(w, fd, p, create, excl, trunc, rights);
    if OpenPath(w, fd, p, create, excl, trunc, rights).errno == Success {
      OpenThings(w, fd, p, create, excl, trunc, rights);
    }
  }

  lemma OpenSucceeds(w: Space, fd: nat, p: Path, create: bool, excl: bool, trunc: bool, rights: Rights)
    ensures OpenPath(w, fd, p, create, excl, trunc, rights).errno == Success <==>
              && (create || trunc ==> rights.write || rights.allocate)
              && p !in w.dirs && !Populated(w, p) && Placed(w, p)
              && (if p !in w.files then create else !(create && excl))
  {
    PopulatedExactly(w, p);
  }

  lemma OpenThings(w: Space, fd: nat, p: Path, create: bool, excl: bool, trunc: bool, rights: Rights)
    requires Coherent(w) && OpenPath(w, fd, p, create, excl, trunc, rights).errno == Success
    requires Coherent(OpenPath(w, fd, p, create, excl, trunc, rights).space)
    ensures
      var w' := OpenPath(w, fd, p, create, excl, trunc, rights).space;
      var made := p !in w.files;
      && OthersStay(w, w', p)
      && p in w'.files && ThingAt(w', p) == (if made || trunc then FileOf([], false) else ThingAt(w, p))
      && w'.opens == w.opens[fd := OpenFile(Some(p), w'.files[p], rights)]
      && w'.dirty == (w.dirty || made || trunc)
  {
  }

  lemma OpenDirectoryDoes(w: Space, fd: nat, p: Path)
    requires Coherent(w)
    ensures
      var r := Step(w, DoOpenDirectory(fd, p));
      && (r.errno == Success <==> p !in w.files && (p == "" || p in w.dirs || Populated(w, p)))
      && (r.errno == Success ==> r.space == w.(opens := w.opens[fd := OpenDir(Some(p))]))
  {
    PopulatedExactly(w, p);
  }

  lemma MakeDirectoryDoes(w: Space, p: Path)
    requires Coherent(w)
    ensures
      var r := Step(w, DoMakeDirectory(p));
      var w' := r.space;
      && Coherent(w')
      && (r.errno == Success <==> p !in w.dirs && p !in w.files && Placed(w, p))
      && (r.errno == Success ==> OthersStay(w, w', p) && ThingAt(w', p) == Directory && w'.opens == w.opens && w'.dirty)
  {
    StepCoherent(w, DoMakeDirectory(p));
  }

  /** The descriptors at `p` of one kind lose their path, all others stay. */
  ghost predicate LosePath(opens: map<nat, Open>, opens': map<nat, Open>, p: Path, file: bool) {
    && opens'.Keys == opens.Keys
    && forall fd :: fd in opens ==>
         opens'[fd] == if opens[fd].path == Some(p) && opens[fd].OpenFile? == file then opens[fd].(path := None) else opens[fd]
  }

  lemma UnlinkDoes(w: Space, p: Path)
    requires Coherent(w)
    ensures
      var r := Step(w, DoUnlink(p));
      var w' := r.space;
      && Coherent(w')
      && (r.errno == Success <==> p in w.files && p !in w.dirs && !Populated(w, p))
      && (r.errno == Success ==>
            OthersStay(w, w', p) && ThingAt(w', p) == Absent && w'.records == w.records && LosePath(w.opens, w'.opens, p, true) && w'.dirty)
  {
    PopulatedExactly(w, p);
    UnlinkCoherent(w, p);
  }

  lemma RemoveDirectoryDoes(w: Space, base: Path, p: Path)
    requires Coherent(w)
    ensures
      var r := Step(w, DoRemoveDirectory(base, p));
      var w' := r.space;
      && Coherent(w')
      && (r.errno == Success <==> p != base && p in w.dirs && p !in w.files && !Populated(w, p) && Placed(w, p))
      && (r.errno == Success ==>
            OthersStay(w, w', p) && ThingAt(w', p) == Absent && LosePath(w.opens, w'.opens, p, false) && w'.dirty)
  {
    PopulatedExactly(w, p);
    RemoveDirectoryCoherent(w, base, p);
  }

  // ----- Rename -----

  /** A rename goes ahead when there is something to rename, and the target is vacant and has a
      parent, or is a file for a file, or an empty directory for a directory. */
  lemma RenameGoesAhead(w: Space, p: Path, q: Path)
    requires Coherent(w)
    ensures
      Step(w, DoRename(p, q)).errno == Success <==>
        && p != "" && q != "" && (p in w.files || IsDirectory(w, p))
        && (p != q ==>
              if p in w.files then q in w.files || (!IsDirectory(w, q) && Placed(w, q))
              else q !in w.files && !Under(p, q) && (if IsDirectory(w, q) then !Populated(w, q) else Placed(w, q)))
  {
    PopulatedExactly(w, p);
    PopulatedExactly(w, q);
  }

  /** Renaming anything to its own name changes nothing. */
  lemma RenameToItself(w: Space, p: Path)
    requires Coherent(w)
    ensures Step(w, DoRename(p, p)).space == w
  {
  }

  /** A descriptor after a file was renamed. */
  function Renamed(o: Open, p: Path, q: Path): Open {
    if o.OpenDir? then o
    else if o.path == Some(p) then o.(path := Some(q))
    else if o.path == Some(q) then o.(path := None)
    else o
  }

  /** After a file was renamed, its bytes are at the target and part of the workspace, nothing but a
      directory can be left at its old path, and every other path is as before. Descriptors of the
      file follow it, and those of a file it replaced lose their path. */
  lemma RenameFileDoes(w: Space, p: Path, q: Path)
    requires Coherent(w) && p in w.files && p != q && Step(w, DoRename(p, q)).errno == Success
    ensures
      var w' := Step(w, DoRename(p, q)).space;
      && Coherent(w')
      && ThingAt(w', q) == FileOf(w.records[w.files[p]].bytes, false)
      && ThingAt(w', p) == (if p in w.dirs then Directory else Absent)
      && (forall k :: k != p && k != q ==> ThingAt(w', k) == ThingAt(w, k))
      && w'.opens.Keys == w.opens.Keys
      && (forall fd :: fd in w.opens ==> w'.opens[fd] == Renamed(w.opens[fd], p, q))
      && (q in w.files ==> w'.records[w.files[q]].path == None)
      && w'.dirty
  {
    RenameFileCoherent(w, p, q);
    RenameFileThings(w, p, q);
    forall fd | fd in w.opens ensures RenameFile(w, p, q).opens[fd] == Renamed(w.opens[fd], p, q) {
      RenameFileOpen(w, p, q, fd);
    }
  }

  lemma RenameFileThings(w: Space, p: Path, q: Path)
    requires Coherent(w) && p in w.files && p != q && Coherent(RenameFile(w, p, q))
    ensures
      var w' := RenameFile(w, p, q);
      && ThingAt(w', q) == FileOf(w.records[w.files[p]].bytes, false)
      && ThingAt(w', p) == (if p in w.dirs then Directory else Absent)
      && (forall k :: k != p && k != q ==> ThingAt(w', k) == ThingAt(w, k))
      && (q in w.files ==> w'.records[w.files[q]].path == None)
  {
  }

  lemma RenameFileOpen(w: Space, p: Path, q: Path, fd: nat)
    requires Coherent(w) && p in w.files && p != q && fd in w.opens
    ensures RenameFile(w, p, q).opens[fd] == Renamed(w.opens[fd], p, q)
  {
    var o := w.opens[fd];
    assert Attached(w, o) && Detached(w, o);
    if o.OpenFile? {
      assert o.record == w.files[p] <==> o.path == Some(p);
      assert q in w.files ==> (o.record == w.files[q] <==> o.path == Some(q));
    }
  }

  /** What is under `p` is the text of `p` and a rest that starts with a slash. */
  predicate IsRest(rest: string) {
    rest == "" || rest[0] == '/'
  }

  lemma RestAtOrUnder(p: Path, rest: string)
    requires IsRest(rest)
    ensures AtOrUnder(p, p + rest)
  {
    if rest == "" {
      assert p + rest == p;
    } else {
      assert (p + rest)[..|p|] == p;
    }
  }

  lemma NotUnderTarget(w: Space, p: Path, q: Path, k: Path)
    requires IsDirectory(w, p) && Clear(w, p, q) && AtOrUnder(p, k)
    ensures !AtOrUnder(q, k)
  {
    if AtOrUnder(q, k) {
      Comparable(p, q, k);
      if Under(q, p) && p !in w.dirs {
        var l :| (l in w.dirs || l in w.files) && Under(p, l);
        UnderTrans(q, p, l);
      }
    }
  }

  /** Of two prefixes of one path one is under the other. */
  lemma Comparable(p: Path, q: Path, k: Path)
    requires AtOrUnder(p, k) && AtOrUnder(q, k)
    ensures AtOrUnder(p, q) || Under(q, p)
  {
    if |p| < |q| {
      assert q[..|p|] == k[..|q|][..|p|] == p;
      assert q[|p|] == k[|p|];
    } else if |q| < |p| {
      assert p[..|q|] == k[..|p|][..|q|] == q;
      assert p[|q|] == k[|q|];
    } else {
      assert p == k[..|p|] == k[..|q|] == q;
    }
  }

  /** After a directory was renamed, what was at the old prefix is at the new one, nothing is left at
      the old one, and every other path is as before. */
  lemma RenameDirectoryDoes(w: Space, p: Path, q: Path, rest: string, k: Path)
    requires Coherent(w) && p !in w.files && p != q && Step(w, DoRename(p, q)).errno == Success && IsRest(rest)
    requires !AtOrUnder(p, k) && !AtOrUnder(q, k)
    ensures
      var w' := Step(w, DoRename(p, q)).space;
      && Coherent(w')
      && ThingAt(w', q + rest) == ThingAt(w, p + rest)
      && ThingAt(w', p + rest) == Absent
      && ThingAt(w', k) == ThingAt(w, k)
      && w'.dirty
  {
    RenameSubstitutes(w, p, q);
    StatusMeansClear(w, p, q);
    PopulatedExactly(w, p);
    RestAtOrUnder(p, rest);
    RestAtOrUnder(q, rest);
    RebasedFront(q, p, rest);
    NotUnderTarget(w, p, q, p + rest);
  }

  /** An open directory at the target loses its path; descriptors of what was moved follow it. */
  lemma RenameDirectoryOpens(w: Space, p: Path, q: Path, fd: nat)
    requires Coherent(w) && p !in w.files && p != q && Step(w, DoRename(p, q)).errno == Success && fd in w.opens
    ensures
      var w' := Step(w, DoRename(p, q)).space;
      var o := w.opens[fd];
      && w'.opens.Keys == w.opens.Keys
      && w'.opens[fd] ==
         if o == OpenDir(Some(q)) then OpenDir(None)
         else if o.path.Some? && AtOrUnder(p, o.path.value) then o.(path := Some(q + o.path.value[|p|..]))
         else o
  {
    var o := w.opens[fd];
    StatusMeansClear(w, p, q);
    if o.path.Some? && o.path.value == p {
      assert q + p[|p|..] == q;
    }
  }

  // ----- File contents -----

  /** A call on the file held by `fd`: the file at its path, if it has one, has these bytes, and is
      part of the workspace once it was changed; every other path and every descriptor is as before. */
  ghost predicate Sets(w: Space, w': Space, fd: nat, bytes: seq<Byte>, changed: bool)
    requires Coherent(w) && Coherent(w') && fd in w.opens && w.opens[fd].OpenFile? && w.opens[fd].record < |w.records|
  {
    var o := w.opens[fd];
    && |w'.records| == |w.records| && w'.records[o.record].bytes == bytes && w'.opens == w.opens
    && w'.dirty == (w.dirty || changed)
    && forall k :: ThingAt(w', k) ==
         if o.path == Some(k) && changed then FileOf(bytes, false) else ThingAt(w, k)
  }

  lemma SetContentsSets(w: Space, fd: nat, bytes: seq<Byte>)
    requires Coherent(w) && fd in w.opens && w.opens[fd].OpenFile? && w.opens[fd].record < |w.records|
    ensures Coherent(SetContents(w, w.opens[fd].record, bytes))
    ensures Sets(w, SetContents(w, w.opens[fd].record, bytes), fd, bytes, true)
  {
    var o := w.opens[fd];
    ContentsCoherent(w, o.record, bytes);
    var w' := SetContents(w, o.record, bytes);
    assert Attached(w, o) && Detached(w, o);
    forall k ensures ThingAt(w', k) == if o.path == Some(k) then FileOf(bytes, false) else ThingAt(w, k) {
      assert k in w.files ==> (w.files[k] == o.record <==> o.path == Some(k));
    }
  }

  /** A write puts the chunks, one after the other, at the offset. */
  lemma WriteDoes(w: Space, fd: nat, offset: nat, chunks: Chunks) returns (bytes: seq<Byte>)
    requires Coherent(w)
    ensures
      var r := Step(w, DoWrite(fd, offset, chunks));
      && (r.errno == Success <==> fd in w.opens && w.opens[fd].OpenFile? && w.opens[fd].rights.write)
      && (r.errno == Success ==>
            && Coherent(r.space) && w.opens[fd].record < |w.records|
            && var before := w.records[w.opens[fd].record].bytes;
            var changed := Flattened(chunks) != [] || (chunks.Chunk? && offset > |before|);
            && Sets(w, r.space, fd, bytes, changed)
            && (if changed then Covers(bytes, before, offset, Flattened(chunks)) else bytes == before))
  {
    bytes := [];
    DataCoherent(w, DoWrite(fd, offset, chunks));
    if fd in w.opens && w.opens[fd].OpenFile? {
      HeldKnown(w, fd);
      var before := w.records[w.opens[fd].record].bytes;
      bytes := before;
      ChangedExactly(before, offset, chunks);
      if w.opens[fd].rights.write && WriteChanges(before, offset, chunks) {
        bytes := WrittenBytes(before, offset, chunks);
        WrittenAtOnce(before, offset, chunks);
        OverlaidCovers(before, offset, Flattened(chunks));
        SetContentsSets(w, fd, bytes);
      }
    }
  }

  /** Setting the size keeps the bytes up to it and fills with zeros. */
  lemma ResizeDoes(w: Space, fd: nat, size: nat) returns (bytes: seq<Byte>)
    requires Coherent(w)
    ensures
      var r := Step(w, DoResize(fd, size));
      && (r.errno == Success <==> fd in w.opens && w.opens[fd].OpenFile? && w.opens[fd].rights.resize)
      && (r.errno == Success ==>
            && Coherent(r.space) && w.opens[fd].record < |w.records|
            && var before := w.records[w.opens[fd].record].bytes;
            && Sets(w, r.space, fd, bytes, |before| != size)
            && |bytes| == size && forall i: nat | i < size :: bytes[i] == ByteAt(before, i))
  {
    bytes := [];
    DataCoherent(w, DoResize(fd, size));
    if fd in w.opens && w.opens[fd].OpenFile? {
      HeldKnown(w, fd);
      bytes := w.records[w.opens[fd].record].bytes;
      if w.opens[fd].rights.resize && |bytes| != size {
        bytes := Grown(bytes, size)[..size];
        SetContentsSets(w, fd, bytes);
      }
    }
  }

  /** Allocating grows the file with zeros to where the range ends, and never shrinks it. */
  lemma AllocateDoes(w: Space, fd: nat, size: nat) returns (bytes: seq<Byte>)
    requires Coherent(w)
    ensures
      var r := Step(w, DoAllocate(fd, size));
      && (r.errno == Success <==> fd in w.opens && w.opens[fd].OpenFile? && w.opens[fd].rights.allocate)
      && (r.errno == Success ==>
            && Coherent(r.space) && w.opens[fd].record < |w.records|
            && var before := w.records[w.opens[fd].record].bytes;
            && Sets(w, r.space, fd, bytes, size > |before|)
            && |bytes| == (if size > |before| then size else |before|)
            && forall i: nat | i < |bytes| :: bytes[i] == ByteAt(before, i))
  {
    bytes := [];
    DataCoherent(w, DoAllocate(fd, size));
    if fd in w.opens && w.opens[fd].OpenFile? {
      HeldKnown(w, fd);
      bytes := w.records[w.opens[fd].record].bytes;
      if w.opens[fd].rights.allocate && size > |bytes| {
        bytes := Grown(bytes, size);
        SetContentsSets(w, fd, bytes);
      }
    }
  }

  /** The other calls on descriptors change nothing but descriptors. */
  lemma DescriptorsDo(w: Space, fd: nat, to: nat, rights: Rights)
    ensures
      var r := CloseFd(w, fd);
      if fd in w.opens then r == Answer(w.(opens := w.opens - {fd}), Success) else r == Answer(w, BadF)
    ensures
      var r := DupFd(w, fd, to);
      if fd in w.opens then r == Answer(w.(opens := w.opens[to := w.opens[fd]]), Success) else r == Answer(w, BadF)
    ensures
      var r := SetRights(w, fd, rights);
      fd in w.opens && w.opens[fd].OpenFile? && (rights.write ==> w.opens[fd].rights.write)
        && (rights.resize ==> w.opens[fd].rights.resize) && (rights.allocate ==> w.opens[fd].rights.allocate) ==>
        r == Answer(w.(opens := w.opens[fd := w.opens[fd].(rights := rights)]), Success)
  {
  }
}
