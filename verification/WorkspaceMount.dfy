/** Mounting, from end to end: a snapshot is loaded into a fresh store, which normalizes its paths
    and checks its graph; that store is exported, and its paths are normalized again. */
module WorkspaceMount {
  import opened Bytes
  import opened Paths
  import opened StorePaths
  import S = Store
  import R = StoreRuns
  import M = MemoryStore
  import opened StoreSnapshots
  import opened Namespace
  import opened NamespaceRuns
  import opened NamespaceExport
  import opened WorkspaceRemount

  /** `r` is what mounting gives: nothing when the fresh store refuses the snapshot, otherwise the
      workspace made from what that store exports, in whatever order. */
  ghost predicate Mounts(s0: S.Snapshot, now: int, ps: Packaged, r: Option<Space>) {
    var loaded := S.LoadSnapshot(s0, now);
    if loaded.Refused? then r.None? else exists s :: Exports(s, loaded.value) && r == Remount(s, ps)
  }

  /** The paths of a snapshot as they are normalized. */
  ghost predicate Normalized(s0: S.Snapshot) {
    R.DirKeys(s0.dirs) && R.FileKeys(s0.files)
  }

  lemma NormalizedKey(path: string)
    ensures Normalize(path).Some? ==> IsKey(Normalize(path).value)
  {
  }

  lemma {:induction false} DirsNormalized(es: M.RawDirs)
    ensures R.DirKeys(M.DirsRead(es))
    decreases es
  {
    if es.RawDir? {
      M.DirHead(es, Normalize(es.path));
      NormalizedKey(es.path);
      DirsNormalized(es.rest);
    }
  }

  lemma {:induction false} FilesNormalized(es: M.RawFiles)
    ensures R.FileKeys(M.FilesRead(es))
    decreases es
  {
    if es.RawFile? {
      M.FileHead(es, Normalize(es.path));
      NormalizedKey(es.path);
      FilesNormalized(es.rest);
    }
  }

  /** Every snapshot the loader reads has normalized paths. */
  lemma SnapshotNormalized(raw: M.RawSnapshot)
    ensures Normalized(M.SnapshotRead(raw))
  {
    DirsNormalized(raw.dirs);
    FilesNormalized(raw.files);
  }

  /** `writableWorkspaceMountFromSnapshot`: a fresh store takes the snapshot and is exported, and the
      loops make the workspace. */
  method MountSnapshot(raw: M.RawSnapshot, now: int, packaged: Packaged) returns (r: Option<Space>)
    ensures Mounts(M.SnapshotRead(raw), now, packaged, r)
  {
    if !S.ValidTime(now) {
      return None;
    }
    var memory := new M.MemoryStore(now);
    var outcome := memory.ImportSnapshot(raw, S.Clock(map[], now));
    if outcome.Threw? {
      return None;
    }
    SnapshotNormalized(raw);
    R.LoadRecords(M.SnapshotRead(raw), now);
    var exported := memory.ExportSnapshot();
    r := RemountSnapshot(exported, packaged);
  }

  /** What a fresh store holds after a load. */
  lemma FreshStore(s0: S.Snapshot, now: int)
    requires Normalized(s0) && S.LoadSnapshot(s0, now).Loaded?
    ensures var c := S.LoadSnapshot(s0, now).value; S.Tree(c) && S.Records(c)
  {
    R.LoadRecords(s0, now);
  }

  lemma FreshExport(s0: S.Snapshot, now: int, ps: Packaged, r: Option<Space>) returns (s: S.Snapshot)
    requires Mounts(s0, now, ps, r) && S.LoadSnapshot(s0, now).Loaded?
    ensures Exports(s, S.LoadSnapshot(s0, now).value) && r == Remount(s, ps)
  {
    s :| Exports(s, S.LoadSnapshot(s0, now).value) && r == Remount(s, ps);
  }

  /** A mounted workspace is coherent, clean, and has nothing open. */
  lemma MountCoherent(s0: S.Snapshot, now: int, ps: Packaged, w: Space)
    requires Mounts(s0, now, ps, Some(w))
    ensures Coherent(w) && !w.dirty && w.opens == map[]
  {
    var s := FreshExport(s0, now, ps, Some(w));
    RemountCoherent(s, ps);
  }

  /** A mount succeeds if and only if the fresh store loads the snapshot and every path in it is read
      again; its directories and exported files are then the paths that those are read as. */
  lemma MountLands(s0: S.Snapshot, now: int, ps: Packaged, r: Option<Space>, x: Path)
    requires Normalized(s0) && Mounts(s0, now, ps, r)
    ensures var loaded := S.LoadSnapshot(s0, now);
            && (r.Some? <==> loaded.Loaded? && AllReread(loaded.value.dirs.Keys) && AllReread(loaded.value.files.Keys))
            && (r.Some? ==> (x in r.value.dirs <==> Lands(loaded.value.dirs.Keys, x)))
            && (r.Some? ==> (x in ExportedFiles(r.value) <==> Lands(loaded.value.files.Keys, x)))
  {
    if S.LoadSnapshot(s0, now).Loaded? {
      FreshStore(s0, now);
      var s := FreshExport(s0, now, ps, r);
      RemountLands(S.LoadSnapshot(s0, now).value, s, ps, x);
    }
  }

  /** A mounted workspace is a tree if and only if what the fresh store loaded mounts well. */
  lemma MountTree(s0: S.Snapshot, now: int, ps: Packaged, w: Space)
    requires Normalized(s0) && Mounts(s0, now, ps, Some(w))
    ensures S.LoadSnapshot(s0, now).Loaded? && (Tree(w) <==> MountsWell(S.LoadSnapshot(s0, now).value))
  {
    FreshStore(s0, now);
    var s := FreshExport(s0, now, ps, Some(w));
    RemountTree(S.LoadSnapshot(s0, now).value, s, ps);
  }

  // ----- From a store to its workspace -----

  lemma ReadIsKey(k: Path, at: Option<Path>)
    requires ReadsAs(k, at)
    ensures at.Some? ==> IsKey(at.value)
  {
    assert AskKey(0);
  }

  lemma {:induction false} DirsReadAreKeys(es: S.DirEntries, dirs: map<Path, S.DirRecord>)
    requires DirsOnly(es, dirs)
    ensures R.DirKeys(es)
    decreases es
  {
    if es.DirEntry? {
      var k :| k in dirs && ReadsAs(k, es.at) && es.mtime == dirs[k].mtime;
      ReadIsKey(k, es.at);
      DirsReadAreKeys(es.rest, dirs);
    }
  }

  lemma {:induction false} FilesReadAreKeys(es: S.FileEntries, files: map<Path, S.FileRecord>)
    requires FilesOnly(es, files)
    ensures R.FileKeys(es)
    decreases es
  {
    if es.FileEntry? {
      var k :| k in files && ReadsAs(k, es.at) && es.mtime == files[k].mtime && es.content == files[k].content;
      ReadIsKey(k, es.at);
      FilesReadAreKeys(es.rest, files);
    }
  }

  lemma ExportNormalized(c0: S.Contents, s0: S.Snapshot)
    requires Exports(s0, c0)
    ensures Normalized(s0)
  {
    DirsReadAreKeys(s0.dirs, c0.dirs);
    FilesReadAreKeys(s0.files, c0.files);
  }

  /** What is mounted with white space at its end comes, through both readings, from a longer path of
      the store that has some too. */
  lemma SpacedDirFromLonger(c0: S.Contents, s0: S.Snapshot, now: int, k: Path) returns (n: Path)
    requires S.Records(c0) && Exports(s0, c0) && Spaced(k) && Normalized(s0) && S.LoadSnapshot(s0, now).Loaded?
    requires Lands(S.LoadSnapshot(s0, now).value.dirs.Keys, k)
    ensures n in c0.dirs && Spaced(n) && |k| < |n|
  {
    var c := S.LoadSnapshot(s0, now).value;
    FreshStore(s0, now);
    var m :| m in c.dirs.Keys && Reread(m) == Some(k);
    assert S.DirOk(m, c.dirs[m]);
    LongerThan(m, k);
    R.LoadParts(s0, now);
    n := DirCameFrom(s0.dirs, R.OnlyRoot(now), c0.dirs, m);
    assert S.DirOk(n, c0.dirs[n]);
    SpacedFromLonger(m, n);
  }

  lemma LongerThan(m: Path, k: Path)
    requires IsKey(m) && Reread(m) == Some(k) && Spaced(k)
    ensures Spaced(m) && |k| < |m|
  {
    KeyReads(m, Some(k));
    SpacedFromLonger(k, m);
  }

  lemma SpacedFileFromLonger(c0: S.Contents, s0: S.Snapshot, now: int, k: Path) returns (n: Path)
    requires S.Records(c0) && Exports(s0, c0) && Spaced(k) && Normalized(s0) && S.LoadSnapshot(s0, now).Loaded?
    requires Lands(S.LoadSnapshot(s0, now).value.files.Keys, k)
    ensures n in c0.files && Spaced(n) && |k| < |n|
  {
    var c := S.LoadSnapshot(s0, now).value;
    FreshStore(s0, now);
    var m :| m in c.files.Keys && Reread(m) == Some(k);
    assert S.FileOk(m, c.files[m]);
    LongerThan(m, k);
    R.LoadParts(s0, now);
    n := FileCameFrom(s0.files, map[], c0.files, m);
    assert S.FileOk(n, c0.files[n]);
    SpacedFromLonger(m, n);
  }

  lemma SpacedNotHeld(c0: S.Contents, s0: S.Snapshot, now: int, ps: Packaged, r: Option<Space>)
    requires S.Records(c0) && Exports(s0, c0) && Normalized(s0) && Mounts(s0, now, ps, r)
    requires !NoneSpaced(c0.dirs.Keys) || !NoneSpaced(c0.files.Keys)
    ensures !(r.Some? && HoldsStore(r.value, c0))
  {
    if r.Some? {
      if !NoneSpaced(c0.dirs.Keys) {
        var k := LongestSpaced(c0.dirs.Keys);
        MountLands(s0, now, ps, r, k);
        if k in r.value.dirs {
          var n := SpacedDirFromLonger(c0, s0, now, k);
        }
      } else {
        var k := LongestSpaced(c0.files.Keys);
        MountLands(s0, now, ps, r, k);
        if k in ExportedFiles(r.value) {
          var n := SpacedFileFromLonger(c0, s0, now, k);
        }
      }
    }
  }

  /** Mounting what a store exports gives a workspace with the store's directories, files and
      contents, if and only if no path in the store ends in white space. */
  lemma MountExactly(c0: S.Contents, s0: S.Snapshot, now: int, ps: Packaged, r: Option<Space>)
    requires S.Tree(c0) && S.Records(c0) && Exports(s0, c0) && S.ValidTime(now) && Mounts(s0, now, ps, r)
    ensures r.Some? && HoldsStore(r.value, c0) <==> NoneSpaced(c0.dirs.Keys) && NoneSpaced(c0.files.Keys)
  {
    if NoneSpaced(c0.dirs.Keys) && NoneSpaced(c0.files.Keys) {
      SnapshotRoundTrip(c0, s0, now);
      var s := FreshExport(s0, now, ps, r);
      RemountExactly(c0, s, ps);
    } else {
      ExportNormalized(c0, s0);
      SpacedNotHeld(c0, s0, now, ps, r);
    }
  }

  /** Such a store mounts well. */
  lemma PlainStoreMountsWell(c0: S.Contents, s0: S.Snapshot, now: int)
    requires S.Tree(c0) && S.Records(c0) && Exports(s0, c0) && S.ValidTime(now)
    requires NoneSpaced(c0.dirs.Keys) && NoneSpaced(c0.files.Keys)
    ensures S.LoadSnapshot(s0, now) == S.Loaded(c0) && MountsWell(c0)
  {
    SnapshotRoundTrip(c0, s0, now);
    PlainDirectoriesMount(c0);
    forall f | f in c0.files && Reread(f).Some? ensures Reread(f).value !in c0.dirs {
      assert S.FileOk(f, c0.files[f]);
      RereadSelf(f);
    }
  }
}
