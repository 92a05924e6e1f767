/** What every run of workspace calls keeps: the records and descriptors agree with the paths,
    and the part of the workspace that is exported is a tree. */
module NamespaceRuns {
  import opened Bytes
  import opened Paths
  import opened Namespace

  // ----- Records, paths and descriptors agree -----

  /** Each path's record knows that path, so no two paths share a record. */
  predicate PathsKnown(w: Space) {
    forall k :: k in w.files ==> w.files[k] < |w.records| && w.records[w.files[k]].path == Some(k)
  }

  /** A descriptor with a path holds the record at that path... */
  predicate Attached(w: Space, o: Open) {
    o.OpenFile? && o.path.Some? ==> o.path.value in w.files && w.files[o.path.value] == o.record
  }

  /** ...and one without holds a record that is at no path. */
  predicate Detached(w: Space, o: Open) {
    o.OpenFile? && o.path.None? ==> o.record < |w.records| && forall k :: k in w.files ==> w.files[k] != o.record
  }

  predicate Coherent(w: Space) {
    && PathsKnown(w)
    && (forall fd :: fd in w.opens ==> Attached(w, w.opens[fd]) && Detached(w, w.opens[fd]))
  }

  lemma OpenPathCoherent(w: Space, fd: nat, p: Path, create: bool, excl: bool, trunc: bool, rights: Rights)
    requires Coherent(w)
    ensures Coherent(OpenPath(w, fd, p, create, excl, trunc, rights).space)
  {
  }

  lemma UnlinkCoherent(w: Space, p: Path)
    requires Coherent(w)
    ensures Coherent(Unlink(w, p).space)
  {
  }

  lemma RemoveDirectoryCoherent(w: Space, base: Path, p: Path)
    requires Coherent(w)
    ensures Coherent(RemoveDirectory(w, base, p).space)
  {
  }

  lemma RenameFileCoherent(w: Space, p: Path, q: Path)
    requires Coherent(w) && p in w.files && p != q
    ensures Coherent(RenameFile(w, p, q))
  {
  }

  lemma MovedFileFrom(w: Space, p: Path, q: Path, k': Path) returns (k: Path)
    requires Vacant(w, q) && k' in MovedFiles(w, p, q)
    ensures k in w.files && Moved(k, p, q) == k' && MovedFiles(w, p, q)[k'] == w.files[k]
  {
    k :| k in w.files && Moved(k, p, q) == k' && MovedFiles(w, p, q)[k'] == w.files[k];
  }

  lemma MovedFileAt(w: Space, p: Path, q: Path, k: Path)
    requires Vacant(w, q) && k in w.files
    ensures Moved(k, p, q) in MovedFiles(w, p, q) && MovedFiles(w, p, q)[Moved(k, p, q)] == w.files[k]
  {
    var l := MovedFileFrom(w, p, q, Moved(k, p, q));
    MovedInjective(w, p, q, k, l);
  }

  lemma MovedRecordAt(w: Space, p: Path, q: Path, k: Path)
    requires PathsKnown(w) && k in w.files
    ensures MovedRecords(w, p, q)[w.files[k]].path == Some(Moved(k, p, q))
  {
  }

  lemma RenameDirectoryKnown(w: Space, p: Path, q: Path)
    requires PathsKnown(w) && Vacant(w, q)
    ensures PathsKnown(RenameDirectory(w, p, q))
  {
    var w' := RenameDirectory(w, p, q);
    forall k' | k' in w'.files ensures w'.files[k'] < |w'.records| && w'.records[w'.files[k']].path == Some(k') {
      var k := MovedFileFrom(w, p, q, k');
      MovedRecordAt(w, p, q, k);
    }
  }

  lemma MovedOpenCoherent(w: Space, p: Path, q: Path, fd: nat)
    requires Coherent(w) && Vacant(w, q) && fd in w.opens
    ensures var w' := RenameDirectory(w, p, q); Attached(w', w'.opens[fd]) && Detached(w', w'.opens[fd])
  {
    var w' := RenameDirectory(w, p, q);
    var o := w.opens[fd];
    if o.OpenFile? && o.path.Some? {
      MovedFileAt(w, p, q, o.path.value);
    } else if o.OpenFile? {
      MovedDetached(w, p, q, o);
    }
  }

  lemma MovedDetached(w: Space, p: Path, q: Path, o: Open)
    requires Vacant(w, q) && Detached(w, o) && o.OpenFile? && o.path.None?
    ensures Detached(RenameDirectory(w, p, q), o)
  {
    var w' := RenameDirectory(w, p, q);
    forall k' | k' in w'.files ensures w'.files[k'] != o.record {
      var k := MovedFileFrom(w, p, q, k');
    }
  }

  lemma RenameDirectoryCoherent(w: Space, p: Path, q: Path)
    requires Coherent(w) && Vacant(w, q)
    ensures Coherent(RenameDirectory(w, p, q))
  {
    RenameDirectoryKnown(w, p, q);
    var w' := RenameDirectory(w, p, q);
    forall fd | fd in w'.opens ensures Attached(w', w'.opens[fd]) && Detached(w', w'.opens[fd]) {
      MovedOpenCoherent(w, p, q, fd);
    }
  }

  lemma RenameCoherent(w: Space, p: Path, q: Path)
    requires Coherent(w)
    ensures Coherent(Rename(w, p, q).space)
  {
    if p != "" && q != "" && p != q && RenameStatus(w, p, q) == Success {
      if p in w.files {
        RenameFileCoherent(w, p, q);
      } else {
        RenameDirectoryCoherent(w, p, q);
      }
    }
  }

  /** New contents for a record change no path. */
  lemma ContentsCoherent(w: Space, id: nat, bytes: seq<Byte>)
    requires Coherent(w) && id < |w.records|
    ensures Coherent(SetContents(w, id, bytes))
  {
  }

  lemma DataCoherent(w: Space, c: Call)
    requires Coherent(w) && (c.DoWrite? || c.DoResize? || c.DoAllocate?)
    ensures Coherent(Step(w, c).space)
  {
    if c.fd in w.opens && w.opens[c.fd].OpenFile? && w.opens[c.fd].record < |w.records| {
      var id := w.opens[c.fd].record;
      var w' := Step(w, c).space;
      if w' != w {
        ContentsCoherent(w, id, w'.records[id].bytes);
        assert w' == SetContents(w, id, w'.records[id].bytes);
      }
    }
  }

  lemma StepCoherent(w: Space, c: Call)
    requires Coherent(w)
    ensures Coherent(Step(w, c).space)
  {
    match c {
      case DoOpen(fd, p, create, excl, trunc, rights) => OpenPathCoherent(w, fd, p, create, excl, trunc, rights);
      case DoUnlink(p) => UnlinkCoherent(w, p);
      case DoRemoveDirectory(base, p) => RemoveDirectoryCoherent(w, base, p);
      case DoRename(p, q) => RenameCoherent(w, p, q);
      case DoWrite(_, _, _) => DataCoherent(w, c);
      case DoResize(_, _) => DataCoherent(w, c);
      case DoAllocate(_, _) => DataCoherent(w, c);
      case _ =>
    }
  }

  // ----- The exported part is a tree -----

  /** A file may be at `p`: no directory is there, and its parent, if it is nested, is one. */
  predicate Fits(w: Space, p: Path) {
    p !in w.dirs && (Nested(p) ==> Parent(p) in w.dirs)
  }

  predicate HeldOpen(w: Space, p: Path) {
    exists fd :: fd in w.opens && w.opens[fd].OpenFile? && w.opens[fd].path == Some(p)
  }

  /** The file at `p` is exported, or could come to be through an open descriptor. */
  predicate Owned(w: Space, p: Path) {
    p in w.files && w.files[p] < |w.records| && (!w.records[w.files[p]].fallback || HeldOpen(w, p))
  }

  predicate DirsNested(w: Space) {
    forall d :: d in w.dirs && Nested(d) ==> Parent(d) in w.dirs
  }

  /** Directories have parents, and owned files are where a file may be. Packaged files that
      were never touched may be anywhere. */
  predicate Tree(w: Space) {
    DirsNested(w) && forall p :: p in w.files && Owned(w, p) ==> Fits(w, p)
  }

  lemma OpenPathTree(w: Space, fd: nat, p: Path, create: bool, excl: bool, trunc: bool, rights: Rights)
    requires Coherent(w) && Tree(w)
    ensures Tree(OpenPath(w, fd, p, create, excl, trunc, rights).space)
  {
    var w' := OpenPath(w, fd, p, create, excl, trunc, rights).space;
    forall k | k in w'.files && Owned(w', k) ensures Fits(w', k) {
      if k != p && k in w.files {
        assert Owned(w, k);
      }
    }
  }

  lemma MakeDirectoryTree(w: Space, p: Path)
    requires Coherent(w) && Tree(w)
    ensures Tree(MakeDirectory(w, p).space)
  {
    var w' := MakeDirectory(w, p).space;
    forall k | k in w'.files && Owned(w', k) ensures Fits(w', k) {
      assert Owned(w, k);
    }
  }

  lemma UnlinkTree(w: Space, p: Path)
    requires Coherent(w) && Tree(w)
    ensures Tree(Unlink(w, p).space)
  {
    var w' := Unlink(w, p).space;
    forall k | k in w'.files && Owned(w', k) ensures Fits(w', k) {
      assert Owned(w, k);
    }
  }

  /** A directory without children is nobody's parent. */
  lemma ChildlessNoParent(w: Space, p: Path, k: Path)
    requires !HasChildren(w, p) && Nested(k) && (k in w.dirs || k in w.files)
    ensures Parent(k) != p
  {
    ParentUnder(k);
  }

  lemma RemoveDirectoryTree(w: Space, base: Path, p: Path)
    requires Coherent(w) && Tree(w)
    ensures Tree(RemoveDirectory(w, base, p).space)
  {
    var w' := RemoveDirectory(w, base, p).space;
    if w' != w {
      forall d | d in w'.dirs && Nested(d) ensures Parent(d) in w'.dirs {
        ChildlessNoParent(w, p, d);
      }
      forall k | k in w'.files && Owned(w', k) ensures Fits(w', k) {
        assert Owned(w, k);
        if Nested(k) {
          ChildlessNoParent(w, p, k);
        }
      }
    }
  }

  /** Renaming a file keeps the tree exactly when a file may be at the target. Only a packaged
      file that does not fit can be in the way. */
  lemma RenameFileTree(w: Space, p: Path, q: Path)
    requires Coherent(w) && Tree(w) && p in w.files && p != q
    ensures Tree(RenameFile(w, p, q)) <==> Fits(w, q)
  {
    var w' := RenameFile(w, p, q);
    assert Owned(w', q);
    if Fits(w, q) {
      forall k | k in w'.files && Owned(w', k) ensures Fits(w', k) {
        if k != q {
          RenamedOwned(w, p, q, k);
        }
      }
    }
  }

  lemma RenamedOwned(w: Space, p: Path, q: Path, k: Path)
    requires Coherent(w) && p in w.files && p != q && k != q && Owned(RenameFile(w, p, q), k)
    ensures Owned(w, k)
  {
    var w' := RenameFile(w, p, q);
    if HeldOpen(w', k) {
      var fd :| fd in w'.opens && w'.opens[fd].OpenFile? && w'.opens[fd].path == Some(k);
      assert w.opens[fd].path == Some(k);
    }
  }

  // ----- Directory rename -----

  /** A directory rename goes ahead: what its checks establish in any workspace... */
  predicate Clear(w: Space, p: Path, q: Path) {
    p !in w.files && Vacant(w, q) && !AtOrUnder(p, q)
  }

  lemma StatusMeansClear(w: Space, p: Path, q: Path)
    requires p != q && p !in w.files && RenameStatus(w, p, q) == Success
    ensures Clear(w, p, q)
  {
  }

  /** ...and in a tree. */
  predicate CanMove(w: Space, p: Path, q: Path) {
    Clear(w, p, q) && (Nested(q) ==> Parent(q) in w.dirs)
  }

  lemma StatusMeansCanMove(w: Space, p: Path, q: Path)
    requires Tree(w) && p != q && p !in w.files && RenameStatus(w, p, q) == Success
    ensures CanMove(w, p, q)
  {
  }

  lemma MovedDirAt(w: Space, p: Path, q: Path, d: Path)
    requires d in w.dirs && d != q
    ensures Moved(d, p, q) in MovedDirs(w, p, q)
  {
  }

  lemma MovedDirFrom(w: Space, p: Path, q: Path, d': Path) returns (d: Path)
    requires d' in MovedDirs(w, p, q)
    ensures d in w.dirs && d != q && Moved(d, p, q) == d'
  {
    d :| d in w.dirs && d != q && Moved(d, p, q) == d';
  }

  /** If `k`'s parent is a directory before the move, the moved `k`'s parent is one after it. */
  lemma MovedParent(w: Space, p: Path, q: Path, k: Path)
    requires CanMove(w, p, q) && k != q && (k in w.dirs || k in w.files)
    requires Nested(k) ==> Parent(k) in w.dirs
    ensures var k' := Moved(k, p, q); Nested(k') ==> Parent(k') in MovedDirs(w, p, q)
  {
    var k' := Moved(k, p, q);
    if Under(p, k) {
      RebaseParent(k, p, q);
      ChildlessNoParent(w, q, k);
      MovedDirAt(w, p, q, Parent(k));
    } else if k == p {
      if Nested(q) {
        ParentUnder(q);
        StayingParent(p, q);
        MovedDirAt(w, p, q, Parent(q));
      }
    } else if Nested(k) {
      ChildlessNoParent(w, q, k);
      StayingParent(p, k);
      MovedDirAt(w, p, q, Parent(k));
    }
  }

  lemma MovedOwned(w: Space, p: Path, q: Path, k: Path)
    requires Coherent(w) && CanMove(w, p, q) && k in w.files && Owned(RenameDirectory(w, p, q), Moved(k, p, q))
    ensures Owned(w, k)
  {
    var w' := RenameDirectory(w, p, q);
    var k' := Moved(k, p, q);
    MovedFileAt(w, p, q, k);
    if HeldOpen(w', k') {
      MovedHeld(w, p, q, k);
    }
  }

  lemma MovedHeld(w: Space, p: Path, q: Path, k: Path)
    requires Coherent(w) && CanMove(w, p, q) && k in w.files && HeldOpen(RenameDirectory(w, p, q), Moved(k, p, q))
    ensures HeldOpen(w, k)
  {
    var w' := RenameDirectory(w, p, q);
    var fd :| fd in w'.opens && w'.opens[fd].OpenFile? && w'.opens[fd].path == Some(Moved(k, p, q));
    var l := w.opens[fd].path.value;
    assert Attached(w, w.opens[fd]);
    MovedInjective(w, p, q, k, l);
  }

  lemma RenameDirectoryDirs(w: Space, p: Path, q: Path)
    requires Tree(w) && CanMove(w, p, q)
    ensures DirsNested(RenameDirectory(w, p, q))
  {
    var w' := RenameDirectory(w, p, q);
    forall d' | d' in w'.dirs && Nested(d') ensures Parent(d') in w'.dirs {
      var d := MovedDirFrom(w, p, q, d');
      MovedParent(w, p, q, d);
    }
  }

  lemma MovedFits(w: Space, p: Path, q: Path, k: Path)
    requires CanMove(w, p, q) && k in w.files && Fits(w, k)
    ensures Fits(RenameDirectory(w, p, q), Moved(k, p, q))
  {
    var k' := Moved(k, p, q);
    MovedParent(w, p, q, k);
    if k' in MovedDirs(w, p, q) {
      var d := MovedDirFrom(w, p, q, k');
      MovedInjective(w, p, q, k, d);
    }
  }

  lemma RenameDirectoryTree(w: Space, p: Path, q: Path)
    requires Coherent(w) && Tree(w) && CanMove(w, p, q)
    ensures Tree(RenameDirectory(w, p, q))
  {
    RenameDirectoryDirs(w, p, q);
    var w' := RenameDirectory(w, p, q);
    forall k' | k' in w'.files && Owned(w', k') ensures Fits(w', k') {
      var k := MovedFileFrom(w, p, q, k');
      MovedOwned(w, p, q, k);
      MovedFits(w, p, q, k);
    }
  }

  // ----- Calls on descriptors -----

  /** Changing a record's contents through a descriptor exports at most what was already held open. */
  lemma ContentsTree(w: Space, fd: nat, bytes: seq<Byte>)
    requires Coherent(w) && Tree(w) && fd in w.opens && w.opens[fd].OpenFile? && w.opens[fd].record < |w.records|
    ensures Tree(SetContents(w, w.opens[fd].record, bytes))
  {
    var o := w.opens[fd];
    var w' := SetContents(w, o.record, bytes);
    forall k | k in w'.files && Owned(w', k) ensures Fits(w', k) {
      if w.files[k] == o.record {
        assert o.path == Some(k);
        assert HeldOpen(w, k);
      }
      assert Owned(w, k);
    }
  }

  /** Descriptors that are open afterwards, at a path, were open there before. */
  lemma OpensTree(w: Space, opens: map<nat, Open>)
    requires Coherent(w) && Tree(w)
    requires forall fd :: fd in opens && opens[fd].OpenFile? && opens[fd].path.Some? ==> HeldOpen(w, opens[fd].path.value)
    ensures Tree(w.(opens := opens))
  {
    var w' := w.(opens := opens);
    forall k | k in w'.files && Owned(w', k) ensures Fits(w', k) {
      if HeldOpen(w', k) {
        var fd :| fd in w'.opens && w'.opens[fd].OpenFile? && w'.opens[fd].path == Some(k);
        assert HeldOpen(w, k);
      }
      assert Owned(w, k);
    }
  }

  lemma OpensStay(w: Space, fd: nat)
    requires fd in w.opens && w.opens[fd].OpenFile? && w.opens[fd].path.Some?
    ensures HeldOpen(w, w.opens[fd].path.value)
  {
  }

  lemma DescriptorTree(w: Space, c: Call)
    requires Coherent(w) && Tree(w)
    requires c.DoOpenDirectory? || c.DoSetRights? || c.DoClose? || c.DoDup?
    ensures Tree(Step(w, c).space)
  {
    var w' := Step(w, c).space;
    forall fd | fd in w'.opens && w'.opens[fd].OpenFile? && w'.opens[fd].path.Some?
      ensures HeldOpen(w, w'.opens[fd].path.value)
    {
      OpensStay(w, if c.DoDup? && fd == c.to && c.fd in w.opens then c.fd else fd);
    }
    OpensTree(w, w'.opens);
  }

  lemma DataTree(w: Space, c: Call)
    requires Coherent(w) && Tree(w)
    requires c.DoWrite? || c.DoResize? || c.DoAllocate?
    ensures Tree(Step(w, c).space)
  {
    var w' := Step(w, c).space;
    if w' != w {
      ContentsTree(w, c.fd, w'.records[w.opens[c.fd].record].bytes);
    }
  }

  // ----- Every call -----

  /** Renaming a file onto a packaged file that is itself misplaced: the one call that puts an
      exported file where none may be. */
  predicate Misplaces(w: Space, c: Call) {
    && c.DoRename? && c.p != "" && c.q != "" && c.p != c.q
    && c.p in w.files && c.q in w.files && !Fits(w, c.q)
  }

  lemma RenameTree(w: Space, p: Path, q: Path)
    requires Coherent(w) && Tree(w)
    ensures Tree(Rename(w, p, q).space) <==> !Misplaces(w, DoRename(p, q))
  {
    if p != "" && q != "" && p != q && RenameStatus(w, p, q) == Success {
      if p in w.files {
        RenameFileTree(w, p, q);
      } else {
        StatusMeansCanMove(w, p, q);
        RenameDirectoryTree(w, p, q);
      }
    }
  }

  lemma StepTree(w: Space, c: Call)
    requires Coherent(w) && Tree(w)
    ensures Tree(Step(w, c).space) <==> !Misplaces(w, c)
  {
    match c {
      case DoOpen(fd, p, create, excl, trunc, rights) => OpenPathTree(w, fd, p, create, excl, trunc, rights);
      case DoMakeDirectory(p) => MakeDirectoryTree(w, p);
      case DoUnlink(p) => UnlinkTree(w, p);
      case DoRemoveDirectory(base, p) => RemoveDirectoryTree(w, base, p);
      case DoRename(p, q) => RenameTree(w, p, q);
      case DoWrite(_, _, _) => DataTree(w, c);
      case DoResize(_, _) => DataTree(w, c);
      case DoAllocate(_, _) => DataTree(w, c);
      case _ => DescriptorTree(w, c);
    }
  }

  // ----- Whole runs -----

  function Run(w: Space, cs: Calls): Space
    requires Coherent(w)
    decreases cs
  {
    if cs.Done? then w
    else
      StepCoherent(w, cs.call);
      Run(Step(w, cs.call).space, cs.rest)
  }

  /** In every run of one runtime, records, paths and descriptors agree. */
  lemma {:induction false} RunCoherent(w: Space, cs: Calls)
    requires Coherent(w)
    ensures Coherent(Run(w, cs))
    decreases cs
  {
    if cs.Then? {
      StepCoherent(w, cs.call);
      RunCoherent(Step(w, cs.call).space, cs.rest);
    }
  }

  predicate AlwaysTree(w: Space, cs: Calls)
    requires Coherent(w)
    decreases cs
  {
    Tree(w) && (cs.Then? ==> (StepCoherent(w, cs.call); AlwaysTree(Step(w, cs.call).space, cs.rest)))
  }

  predicate NeverMisplaces(w: Space, cs: Calls)
    requires Coherent(w)
    decreases cs
  {
    cs.Then? ==> !Misplaces(w, cs.call) && (StepCoherent(w, cs.call); NeverMisplaces(Step(w, cs.call).space, cs.rest))
  }

  /** The workspace is a tree after every call of a run if and only if no call renames a file
      onto a misplaced packaged file. */
  lemma {:induction false} RunTree(w: Space, cs: Calls)
    requires Coherent(w) && Tree(w)
    ensures AlwaysTree(w, cs) <==> NeverMisplaces(w, cs)
    decreases cs
  {
    if cs.Then? {
      StepTree(w, cs.call);
      StepCoherent(w, cs.call);
      var w' := Step(w, cs.call).space;
      if Tree(w') {
        RunTree(w', cs.rest);
      }
    }
  }

  // ----- Files that all fit -----

  /** If the packaged files are where files may be, as they are when there are none, nothing is
      ever misplaced. */
  predicate AllFit(w: Space) {
    forall p :: p in w.files ==> Fits(w, p)
  }

  lemma RenameDirectoryAllFit(w: Space, p: Path, q: Path)
    requires CanMove(w, p, q) && AllFit(w)
    ensures AllFit(RenameDirectory(w, p, q))
  {
    var w' := RenameDirectory(w, p, q);
    forall k' | k' in w'.files ensures Fits(w', k') {
      var k := MovedFileFrom(w, p, q, k');
      MovedFits(w, p, q, k);
    }
  }

  lemma RemoveDirectoryAllFit(w: Space, base: Path, p: Path)
    requires AllFit(w)
    ensures AllFit(RemoveDirectory(w, base, p).space)
  {
    var w' := RemoveDirectory(w, base, p).space;
    if w' != w {
      forall k | k in w'.files ensures Fits(w', k) {
        if Nested(k) {
          ChildlessNoParent(w, p, k);
        }
      }
    }
  }

  lemma RenameAllFit(w: Space, p: Path, q: Path)
    requires Coherent(w) && Tree(w) && AllFit(w)
    ensures AllFit(Rename(w, p, q).space)
  {
    if p != "" && q != "" && p != q && RenameStatus(w, p, q) == Success && p !in w.files {
      StatusMeansCanMove(w, p, q);
      RenameDirectoryAllFit(w, p, q);
    }
  }

  lemma StepAllFit(w: Space, c: Call)
    requires Coherent(w) && Tree(w) && AllFit(w)
    ensures AllFit(Step(w, c).space)
  {
    match c {
      case DoRemoveDirectory(base, p) => RemoveDirectoryAllFit(w, base, p);
      case DoRename(p, q) => RenameAllFit(w, p, q);
      case _ =>
    }
  }

  lemma {:induction false} RunAllFit(w: Space, cs: Calls)
    requires Coherent(w) && Tree(w) && AllFit(w)
    ensures NeverMisplaces(w, cs) && AlwaysTree(w, cs)
    decreases cs
  {
    if cs.Then? {
      StepTree(w, cs.call);
      StepCoherent(w, cs.call);
      StepAllFit(w, cs.call);
      RunAllFit(Step(w, cs.call).space, cs.rest);
    }
  }
}
