/** The second half of mounting: a run's workspace is made from the export of the fresh store that
    loaded a snapshot, and from the packaged files. The paths of that export are normalized once
    more, so the workspace need not be what the fresh store holds, nor even a tree. */
module WorkspaceRemount {
  import opened Bytes
  import opened Paths
  import opened Names
  import opened StorePaths
  import S = Store
  import M = MemoryStore
  import opened StoreSnapshots
  import opened Namespace
  import opened NamespaceRuns
  import opened NamespaceExport

  datatype Packaged = NoPackaged | OnePackaged(path: Path, bytes: seq<Byte>, rest: Packaged)

  function MountDirs(es: S.DirEntries, dirs: set<Path>): Option<set<Path>>
    decreases es
  {
    if es.NoDir? then Some(dirs) else if es.at.None? then None else MountDirs(es.rest, dirs + {es.at.value})
  }

  function AddFile(w: Space, k: Path, bytes: seq<Byte>, fallback: bool): Space {
    w.(files := w.files[k := |w.records|], records := w.records + [Rec(Some(k), bytes, fallback)])
  }

  function MountFiles(es: S.FileEntries, w: Space): Option<Space>
    decreases es
  {
    if es.NoFile? then Some(w)
    else if es.at.None? then None
    else MountFiles(es.rest, AddFile(w, es.at.value, es.content, false))
  }

  function AddPackaged(ps: Packaged, w: Space): Space
    decreases ps
  {
    if ps.NoPackaged? then w
    else AddPackaged(ps.rest, if ps.path in w.files then w else AddFile(w, ps.path, ps.bytes, true))
  }

  /** The workspace of what the fresh store exported; `None` when one of its paths is refused. */
  function Remount(s: S.Snapshot, ps: Packaged): Option<Space> {
    var dirs := MountDirs(s.dirs, {""});
    if dirs.None? then None
    else
      var w := MountFiles(s.files, Space(dirs.value, map[], [], map[], false));
      if w.None? then None else Some(AddPackaged(ps, w.value))
  }

  /** The three loops. */
  method RemountSnapshot(s: M.RawSnapshot, packaged: Packaged) returns (r: Option<Space>)
    ensures r == Remount(M.SnapshotRead(s), packaged)
  {
    var dirs: set<Path> := {""};
    var todo := s.dirs;
    while todo.RawDir?
      invariant MountDirs(M.DirsRead(todo), dirs) == MountDirs(M.DirsRead(s.dirs), {""})
      decreases todo
    {
      var n := NormalizeWorkspacePath(todo.path);
      DirMounts(todo, dirs, n);
      if n.None? {
        return None;
      }
      dirs := dirs + {n.value};
      todo := todo.rest;
    }
    r := MountAllFiles(s.files, Space(dirs, map[], [], map[], false));
    if r.Some? {
      r := Some(AddPackaged(packaged, r.value));
    }
  }

  method MountAllFiles(es: M.RawFiles, before: Space) returns (r: Option<Space>)
    ensures r == MountFiles(M.FilesRead(es), before)
  {
    var w, todo := before, es;
    while todo.RawFile?
      invariant MountFiles(M.FilesRead(todo), w) == MountFiles(M.FilesRead(es), before)
      decreases todo
    {
      var n := NormalizeWorkspacePath(todo.path);
      FileMounts(todo, w, n);
      if n.None? {
        return None;
      }
      w := AddFile(w, n.value, todo.content, false);
      todo := todo.rest;
    }
    r := Some(w);
  }

  lemma DirMounts(es: M.RawDirs, dirs: set<Path>, n: Option<Path>)
    requires es.RawDir? && n == Normalize(es.path)
    ensures MountDirs(M.DirsRead(es), dirs) == if n.None? then None else MountDirs(M.DirsRead(es.rest), dirs + {n.value})
  {
    M.DirHead(es, n);
  }

  lemma FileMounts(es: M.RawFiles, w: Space, n: Option<Path>)
    requires es.RawFile? && n == Normalize(es.path)
    ensures MountFiles(M.FilesRead(es), w) == if n.None? then None else MountFiles(M.FilesRead(es.rest), AddFile(w, n.value, es.content, false))
  {
    M.FileHead(es, n);
  }

  // ----- What is mounted where -----

  predicate DirAt(es: S.DirEntries, d: Path) {
    es.DirEntry? && (es.at == Some(d) || DirAt(es.rest, d))
  }

  predicate DirsReadable(es: S.DirEntries) {
    es.DirEntry? ==> es.at.Some? && DirsReadable(es.rest)
  }

  predicate FileAt(es: S.FileEntries, f: Path) {
    es.FileEntry? && (es.at == Some(f) || FileAt(es.rest, f))
  }

  predicate FilesReadable(es: S.FileEntries) {
    es.FileEntry? ==> es.at.Some? && FilesReadable(es.rest)
  }

  lemma {:induction false} MountedDirs(es: S.DirEntries, dirs: set<Path>, d: Path)
    ensures var r := MountDirs(es, dirs);
            (r.Some? <==> DirsReadable(es)) && (r.Some? ==> (d in r.value <==> d in dirs || DirAt(es, d)))
    decreases es
  {
    if es.DirEntry? && es.at.Some? {
      MountedDirs(es.rest, dirs + {es.at.value}, d);
    }
  }

  /** Every file so far is exported, and its record knows its path. */
  predicate AllExported(w: Space) {
    PathsKnown(w) && forall k :: k in w.files ==> !w.records[w.files[k]].fallback
  }

  lemma {:induction false} MountedFiles(es: S.FileEntries, w: Space, f: Path)
    requires AllExported(w)
    ensures var r := MountFiles(es, w);
            && (r.Some? <==> FilesReadable(es))
            && (r.Some? ==> AllExported(r.value) && (f in r.value.files <==> f in w.files || FileAt(es, f)))
            && (r.Some? ==> r.value == w.(files := r.value.files, records := r.value.records))
    decreases es
  {
    if es.FileEntry? && es.at.Some? {
      MountedFiles(es.rest, AddFile(w, es.at.value, es.content, false), f);
    }
  }

  lemma AllAreExported(w: Space)
    requires AllExported(w)
    ensures ExportedFiles(w).Keys == w.files.Keys
  {
  }

  lemma AddFallback(w: Space, k: Path, bytes: seq<Byte>)
    requires PathsKnown(w) && k !in w.files
    ensures var w' := AddFile(w, k, bytes, true); PathsKnown(w') && ExportedFiles(w') == ExportedFiles(w)
  {
  }

  /** Packaged files are not exported, and take no path that is taken. */
  lemma {:induction false} PackagedAdded(ps: Packaged, w: Space)
    requires PathsKnown(w)
    ensures var w' := AddPackaged(ps, w);
            && PathsKnown(w') && ExportedFiles(w') == ExportedFiles(w)
            && w' == w.(files := w'.files, records := w'.records)
    decreases ps
  {
    if ps.OnePackaged? {
      if ps.path !in w.files {
        AddFallback(w, ps.path, ps.bytes);
      }
      PackagedAdded(ps.rest, if ps.path in w.files then w else AddFile(w, ps.path, ps.bytes, true));
    }
  }

  /** What a mount gives, in terms of the snapshot's entries. */
  lemma MountedParts(s: S.Snapshot, ps: Packaged, k: Path)
    ensures var r := Remount(s, ps);
            && (r.Some? <==> DirsReadable(s.dirs) && FilesReadable(s.files))
            && (r.Some? ==> (k in r.value.dirs <==> k == "" || DirAt(s.dirs, k)))
            && (r.Some? ==> (k in ExportedFiles(r.value) <==> FileAt(s.files, k)))
  {
    MountedDirs(s.dirs, {""}, k);
    var dirs := MountDirs(s.dirs, {""});
    if dirs.Some? {
      var empty := Space(dirs.value, map[], [], map[], false);
      MountedFiles(s.files, empty, k);
      var w := MountFiles(s.files, empty);
      if w.Some? {
        AllAreExported(w.value);
        PackagedAdded(ps, w.value);
      }
    }
  }

  /** Whatever the export, the workspace is coherent, clean, and has nothing open. */
  lemma RemountCoherent(s: S.Snapshot, ps: Packaged)
    requires Remount(s, ps).Some?
    ensures var w := Remount(s, ps).value; Coherent(w) && !w.dirty && w.opens == map[]
  {
    var empty := Space(MountDirs(s.dirs, {""}).value, map[], [], map[], false);
    MountedFiles(s.files, empty, "");
    PackagedAdded(ps, MountFiles(s.files, empty).value);
  }

  // ----- In terms of the store -----

  /** Some key of these is read again as `x`. */
  ghost predicate Lands(keys: set<Path>, x: Path) {
    exists k :: k in keys && Reread(k) == Some(x)
  }

  lemma KeyReads(k: Path, at: Option<Path>)
    requires IsKey(k)
    ensures ReadsAs(k, at) <==> at == Reread(k)
  {
    assert AskKey(0);
    ReadsAsReread(k);
  }

  lemma {:induction false} DirListedAt(es: S.DirEntries, dirs: map<Path, S.DirRecord>, k: Path)
    requires DirListed(es, dirs, k) && IsKey(k)
    ensures Reread(k).Some? ==> DirAt(es, Reread(k).value)
    ensures Reread(k).None? ==> !DirsReadable(es)
    decreases es
  {
    if ReadsAs(k, es.at) {
      KeyReads(k, es.at);
    } else {
      DirListedAt(es.rest, dirs, k);
    }
  }

  lemma {:induction false} DirAtListed(es: S.DirEntries, dirs: map<Path, S.DirRecord>, x: Path) returns (k: Path)
    requires DirsOnly(es, dirs) && (forall k :: k in dirs ==> IsKey(k)) && DirAt(es, x)
    ensures k in dirs && Reread(k) == Some(x)
    decreases es
  {
    if es.at == Some(x) {
      k :| k in dirs && ReadsAs(k, es.at) && es.mtime == dirs[k].mtime;
      KeyReads(k, es.at);
    } else {
      k := DirAtListed(es.rest, dirs, x);
    }
  }

  lemma {:induction false} UnreadDir(es: S.DirEntries, dirs: map<Path, S.DirRecord>) returns (k: Path)
    requires DirsOnly(es, dirs) && (forall k :: k in dirs ==> IsKey(k)) && !DirsReadable(es)
    ensures k in dirs && Reread(k).None?
    decreases es
  {
    if es.at.None? {
      k :| k in dirs && ReadsAs(k, es.at) && es.mtime == dirs[k].mtime;
      KeyReads(k, es.at);
    } else {
      k := UnreadDir(es.rest, dirs);
    }
  }

  lemma {:induction false} FileListedAt(es: S.FileEntries, files: map<Path, S.FileRecord>, k: Path)
    requires FileListed(es, files, k) && IsKey(k)
    ensures Reread(k).Some? ==> FileAt(es, Reread(k).value)
    ensures Reread(k).None? ==> !FilesReadable(es)
    decreases es
  {
    if ReadsAs(k, es.at) {
      KeyReads(k, es.at);
    } else {
      FileListedAt(es.rest, files, k);
    }
  }

  lemma {:induction false} FileAtListed(es: S.FileEntries, files: map<Path, S.FileRecord>, x: Path) returns (k: Path)
    requires FilesOnly(es, files) && (forall k :: k in files ==> IsKey(k)) && FileAt(es, x)
    ensures k in files && Reread(k) == Some(x)
    decreases es
  {
    if es.at == Some(x) {
      k :| k in files && ReadsAs(k, es.at) && es.mtime == files[k].mtime && es.content == files[k].content;
      KeyReads(k, es.at);
    } else {
      k := FileAtListed(es.rest, files, x);
    }
  }

  lemma {:induction false} UnreadFile(es: S.FileEntries, files: map<Path, S.FileRecord>) returns (k: Path)
    requires FilesOnly(es, files) && (forall k :: k in files ==> IsKey(k)) && !FilesReadable(es)
    ensures k in files && Reread(k).None?
    decreases es
  {
    if es.at.None? {
      k :| k in files && ReadsAs(k, es.at) && es.mtime == files[k].mtime && es.content == files[k].content;
      KeyReads(k, es.at);
    } else {
      k := UnreadFile(es.rest, files);
    }
  }

  ghost predicate AllReread(keys: set<Path>) {
    forall k :: k in keys ==> Reread(k).Some?
  }

  lemma DirsMounted(es: S.DirEntries, dirs: map<Path, S.DirRecord>, x: Path)
    requires DirsOnly(es, dirs) && (forall k :: k in dirs ==> DirListed(es, dirs, k) && IsKey(k))
    ensures DirAt(es, x) <==> Lands(dirs.Keys, x)
    ensures DirsReadable(es) <==> AllReread(dirs.Keys)
  {
    if DirAt(es, x) {
      var k := DirAtListed(es, dirs, x);
    }
    if Lands(dirs.Keys, x) {
      var k :| k in dirs.Keys && Reread(k) == Some(x);
      DirListedAt(es, dirs, k);
    }
    if !DirsReadable(es) {
      var k := UnreadDir(es, dirs);
    }
    if !AllReread(dirs.Keys) {
      var k :| k in dirs.Keys && Reread(k).None?;
      DirListedAt(es, dirs, k);
    }
  }

  lemma FilesMounted(es: S.FileEntries, files: map<Path, S.FileRecord>, x: Path)
    requires FilesOnly(es, files) && (forall k :: k in files ==> FileListed(es, files, k) && IsKey(k))
    ensures FileAt(es, x) <==> Lands(files.Keys, x)
    ensures FilesReadable(es) <==> AllReread(files.Keys)
  {
    if FileAt(es, x) {
      var k := FileAtListed(es, files, x);
    }
    if Lands(files.Keys, x) {
      var k :| k in files.Keys && Reread(k) == Some(x);
      FileListedAt(es, files, k);
    }
    if !FilesReadable(es) {
      var k := UnreadFile(es, files);
    }
    if !AllReread(files.Keys) {
      var k :| k in files.Keys && Reread(k).None?;
      FileListedAt(es, files, k);
    }
  }

  /** It is made if and only if every path is read again; its directories and exported files are
      then the paths that the fresh store's are read as. */
  lemma RemountLands(c: S.Contents, s: S.Snapshot, ps: Packaged, x: Path)
    requires S.Tree(c) && S.Records(c) && Exports(s, c)
    ensures var r := Remount(s, ps);
            && (r.Some? <==> AllReread(c.dirs.Keys) && AllReread(c.files.Keys))
            && (r.Some? ==> (x in r.value.dirs <==> Lands(c.dirs.Keys, x)))
            && (r.Some? ==> (x in ExportedFiles(r.value) <==> Lands(c.files.Keys, x)))
  {
    assert forall k :: k in c.dirs ==> S.DirOk(k, c.dirs[k]);
    assert forall k :: k in c.files ==> S.FileOk(k, c.files[k]);
    MountedParts(s, ps, x);
    DirsMounted(s.dirs, c.dirs, x);
    FilesMounted(s.files, c.files, x);
    assert Reread("") == Some("");
  }

  // ----- When the workspace is the store -----

  /** The workspace has the store's directories, files and contents. */
  ghost predicate HoldsStore(w: Space, c: S.Contents) {
    && w.dirs == c.dirs.Keys && ExportedFiles(w).Keys == c.files.Keys
    && forall f :: f in c.files ==> ExportedFiles(w)[f] == c.files[f].content
  }

  predicate ContentsFrom(w: Space, files: map<Path, S.FileRecord>) {
    forall k :: k in w.files ==> w.files[k] < |w.records| && k in files && w.records[w.files[k]].bytes == files[k].content
  }

  lemma ContentsAdded(w: Space, files: map<Path, S.FileRecord>, k: Path)
    requires ContentsFrom(w, files) && k in files
    ensures ContentsFrom(AddFile(w, k, files[k].content, false), files)
  {
  }

  lemma FirstFile(es: S.FileEntries, files: map<Path, S.FileRecord>) returns (k: Path)
    requires FilesOnly(es, files) && (forall k :: k in files ==> IsKey(k)) && NoneSpaced(files.Keys) && es.FileEntry?
    ensures k in files && es.at == Some(k) && es.content == files[k].content
  {
    k :| k in files && ReadsAs(k, es.at) && es.mtime == files[k].mtime && es.content == files[k].content;
    PlainReads(k, es.at);
  }

  lemma {:induction false} ContentsMounted(es: S.FileEntries, w: Space, files: map<Path, S.FileRecord>)
    requires FilesOnly(es, files) && (forall k :: k in files ==> IsKey(k)) && NoneSpaced(files.Keys)
    requires ContentsFrom(w, files) && MountFiles(es, w).Some?
    ensures ContentsFrom(MountFiles(es, w).value, files)
    decreases es
  {
    if es.FileEntry? {
      var k := FirstFile(es, files);
      ContentsAdded(w, files, k);
      ContentsMounted(es.rest, AddFile(w, k, es.content, false), files);
    }
  }

  lemma PlainLands(keys: set<Path>, x: Path)
    requires (forall k :: k in keys ==> IsKey(k)) && NoneSpaced(keys)
    ensures AllReread(keys) && (Lands(keys, x) <==> x in keys)
  {
    forall k | k in keys ensures Reread(k) == Some(k) {
      RereadSelf(k);
    }
  }

  lemma RereadSelf(k: Path)
    requires IsKey(k)
    ensures Reread(k) == Some(k) <==> !Spaced(k)
    ensures Spaced(k) && Reread(k).Some? ==> |Reread(k).value| < |k|
  {
    assert AskKey(0);
    ReadsAsReread(k);
    NormalizesBackExactly(k);
  }

  lemma SpacedDoesNotLand(keys: set<Path>) returns (k: Path)
    requires (forall k :: k in keys ==> IsKey(k)) && !NoneSpaced(keys)
    ensures k in keys && !Lands(keys, k)
  {
    k := LongestSpaced(keys);
    if Lands(keys, k) {
      var l :| l in keys && Reread(l) == Some(k);
      RereadSelf(l);
      RereadSelf(k);
    }
  }

  lemma PathsHold(c: S.Contents, s: S.Snapshot, ps: Packaged, x: Path)
    requires S.Tree(c) && S.Records(c) && Exports(s, c) && NoneSpaced(c.dirs.Keys) && NoneSpaced(c.files.Keys)
    ensures Remount(s, ps).Some? && (x in Remount(s, ps).value.dirs <==> x in c.dirs)
    ensures x in ExportedFiles(Remount(s, ps).value) <==> x in c.files
  {
    assert forall k :: k in c.dirs ==> S.DirOk(k, c.dirs[k]);
    assert forall k :: k in c.files ==> S.FileOk(k, c.files[k]);
    RemountLands(c, s, ps, x);
    PlainLands(c.dirs.Keys, x);
    PlainLands(c.files.Keys, x);
  }

  lemma ContentsHold(c: S.Contents, s: S.Snapshot, ps: Packaged, f: Path)
    requires S.Records(c) && Exports(s, c) && NoneSpaced(c.files.Keys) && Remount(s, ps).Some?
    requires f in c.files && f in ExportedFiles(Remount(s, ps).value)
    ensures ExportedFiles(Remount(s, ps).value)[f] == c.files[f].content
  {
    assert forall k :: k in c.files ==> S.FileOk(k, c.files[k]);
    var empty := Space(MountDirs(s.dirs, {""}).value, map[], [], map[], false);
    ContentsMounted(s.files, empty, c.files);
    MountedFiles(s.files, empty, f);
    PackagedAdded(ps, MountFiles(s.files, empty).value);
  }

  lemma RemountHolds(c: S.Contents, s: S.Snapshot, ps: Packaged)
    requires S.Tree(c) && S.Records(c) && Exports(s, c) && NoneSpaced(c.dirs.Keys) && NoneSpaced(c.files.Keys)
    ensures Remount(s, ps).Some? && HoldsStore(Remount(s, ps).value, c)
  {
    PathsHold(c, s, ps, "");
    var w := Remount(s, ps).value;
    forall x ensures (x in w.dirs <==> x in c.dirs) && (x in ExportedFiles(w) <==> x in c.files) {
      PathsHold(c, s, ps, x);
    }
    forall f | f in c.files ensures ExportedFiles(w)[f] == c.files[f].content {
      ContentsHold(c, s, ps, f);
    }
  }

  /** It is what the fresh store holds, if and only if no path in that ends in white space. */
  lemma RemountExactly(c: S.Contents, s: S.Snapshot, ps: Packaged)
    requires S.Tree(c) && S.Records(c) && Exports(s, c)
    ensures Remount(s, ps).Some? && HoldsStore(Remount(s, ps).value, c) <==> NoneSpaced(c.dirs.Keys) && NoneSpaced(c.files.Keys)
  {
    assert forall k :: k in c.dirs ==> S.DirOk(k, c.dirs[k]);
    assert forall k :: k in c.files ==> S.FileOk(k, c.files[k]);
    if !NoneSpaced(c.dirs.Keys) {
      var k := SpacedDoesNotLand(c.dirs.Keys);
      RemountLands(c, s, ps, k);
    } else if !NoneSpaced(c.files.Keys) {
      var k := SpacedDoesNotLand(c.files.Keys);
      RemountLands(c, s, ps, k);
    } else {
      RemountHolds(c, s, ps);
    }
  }

  // ----- When the workspace is a tree -----

  /** Every path that keeps its parent finds it mounted, and no file is mounted where a directory
      is. */
  ghost predicate MountsWell(c: S.Contents) {
    && (forall k :: (k in c.dirs || k in c.files) && k != "" && Reread(k) != Some(Parent(k)) ==> Lands(c.dirs.Keys, Parent(k)))
    && (forall f :: f in c.files && Reread(f).Some? ==> !Lands(c.dirs.Keys, Reread(f).value))
  }

  lemma ParentOfAppended(p: Path, n: string)
    requires forall i :: 0 <= i < |n| ==> n[i] != '/'
    ensures Nested(p + "/" + n) && Parent(p + "/" + n) == p
  {
    var rest := "/" + n;
    assert forall i :: 0 < i < |rest| ==> rest[i] == n[i - 1];
    SlashAfter(p, rest, 0);
    assert p + rest == p + "/" + n && p + rest[..0] == p;
  }

  lemma SlashFreeParent(n: string)
    requires forall i :: 0 <= i < |n| ==> n[i] != '/'
    ensures !Nested(n) && Parent(n) == ""
  {
  }

  /** A path is read again as its parent, or as a path with the same parent. */
  lemma RereadShape(k: Path)
    requires k != "" && Reread(k).Some?
    ensures var x := Reread(k).value;
            x == Parent(k) || (Parent(x) == Parent(k) && (Nested(x) <==> Nested(k)))
  {
    NameFree(k);
    TrimEndTrims(LastName(k));
    PrefixFree(TrimEnd(LastName(k)), LastName(k));
    ShapeWith(k, TrimEnd(LastName(k)));
  }

  lemma ShapeWith(k: Path, t: string)
    requires RereadWith(k, t).Some? && forall i :: 0 <= i < |t| ==> t[i] != '/'
    ensures var x := RereadWith(k, t).value;
            x == Parent(k) || (Parent(x) == Parent(k) && (Nested(x) <==> Nested(k)))
  {
    ParentOfAppended(Parent(k), t);
    SlashFreeParent(t);
  }

  /** A mounted path finds its parent mounted. */
  lemma ParentLands(c: S.Contents, k: Path, x: Path)
    requires S.Tree(c) && MountsWell(c) && (k in c.dirs || k in c.files) && k != "" && Reread(k) == Some(x) && Nested(x)
    ensures Lands(c.dirs.Keys, Parent(x))
  {
    RereadShape(k);
    if x == Parent(k) {
      assert x in c.dirs && x != "";
      if Reread(x) == Some(Parent(x)) {
        assert x in c.dirs.Keys;
      }
    }
  }

  lemma WellIsTree(c: S.Contents, s: S.Snapshot, ps: Packaged)
    requires S.Tree(c) && S.Records(c) && Exports(s, c) && Remount(s, ps).Some? && MountsWell(c)
    ensures Tree(Remount(s, ps).value)
  {
    var w := Remount(s, ps).value;
    RemountCoherent(s, ps);
    forall d | d in w.dirs && Nested(d) ensures Parent(d) in w.dirs {
      RemountLands(c, s, ps, d);
      RemountLands(c, s, ps, Parent(d));
      var k :| k in c.dirs.Keys && Reread(k) == Some(d);
      ParentLands(c, k, d);
    }
    forall f | f in w.files && Owned(w, f) ensures Fits(w, f) {
      assert f in ExportedFiles(w);
      RemountLands(c, s, ps, f);
      RemountLands(c, s, ps, Parent(f));
      var k :| k in c.files.Keys && Reread(k) == Some(f);
      if Nested(f) {
        ParentLands(c, k, f);
      }
    }
  }

  lemma MountedFits(c: S.Contents, s: S.Snapshot, ps: Packaged, f: Path)
    requires S.Tree(c) && S.Records(c) && Exports(s, c) && Remount(s, ps).Some? && Tree(Remount(s, ps).value)
    requires f in c.files && Reread(f).Some?
    ensures Fits(Remount(s, ps).value, Reread(f).value) && !Lands(c.dirs.Keys, Reread(f).value)
  {
    var w, x := Remount(s, ps).value, Reread(f).value;
    RemountCoherent(s, ps);
    RemountLands(c, s, ps, x);
    assert f in c.files.Keys;
    assert x in ExportedFiles(w);
    assert Owned(w, x);
  }

  lemma TreeIsWell(c: S.Contents, s: S.Snapshot, ps: Packaged)
    requires S.Tree(c) && S.Records(c) && Exports(s, c) && Remount(s, ps).Some? && Tree(Remount(s, ps).value)
    ensures MountsWell(c)
  {
    var w := Remount(s, ps).value;
    RemountLands(c, s, ps, "");
    forall f | f in c.files && Reread(f).Some? ensures !Lands(c.dirs.Keys, Reread(f).value) {
      MountedFits(c, s, ps, f);
    }
    forall k | (k in c.dirs || k in c.files) && k != "" && Reread(k) != Some(Parent(k)) ensures Lands(c.dirs.Keys, Parent(k)) {
      var x := Reread(k).value;
      RereadShape(k);
      RemountLands(c, s, ps, x);
      RemountLands(c, s, ps, Parent(k));
      if Nested(k) {
        if k in c.dirs {
          assert k in c.dirs.Keys;
        } else {
          MountedFits(c, s, ps, k);
        }
      } else {
        assert "" in c.dirs.Keys && Reread("") == Some("");
      }
    }
  }

  /** It is a tree if and only if the fresh store mounts well. */
  lemma RemountTree(c: S.Contents, s: S.Snapshot, ps: Packaged)
    requires S.Tree(c) && S.Records(c) && Exports(s, c) && Remount(s, ps).Some?
    ensures Tree(Remount(s, ps).value) <==> MountsWell(c)
  {
    if MountsWell(c) {
      WellIsTree(c, s, ps);
    }
    if Tree(Remount(s, ps).value) {
      TreeIsWell(c, s, ps);
    }
  }

  /** When no directory ends in white space, only a file that is trimmed to a directory's path is in
      the way. */
  lemma PlainDirectoriesMount(c: S.Contents)
    requires S.Tree(c) && S.Records(c) && NoneSpaced(c.dirs.Keys)
    ensures MountsWell(c) <==> forall f :: f in c.files && Reread(f).Some? ==> Reread(f).value !in c.dirs
  {
    assert forall k :: k in c.dirs ==> S.DirOk(k, c.dirs[k]);
    forall x ensures Lands(c.dirs.Keys, x) <==> x in c.dirs {
      PlainLands(c.dirs.Keys, x);
    }
  }
}
