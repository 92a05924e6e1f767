/** Back from the runtime to the store: what a run exports is imported again. */
module WorkspaceImport {
  import opened Bytes
  import opened Paths
  import opened Names
  import opened StorePaths
  import S = Store
  import R = StoreRuns
  import opened StoreSnapshots
  import opened N = Namespace
  import NR = NamespaceRuns
  import opened NamespaceExport
  import opened WorkspaceRemount
  import opened WorkspaceMount
  import M = MemoryStore

  // ----- Names -----

  ghost predicate IsWell(k: Path) {
    forall u {:trigger AskKey(u)} :: AskKey(u) ==> WellFormed(k)
  }

  /** Every path is well-formed, as every path that a guest's text resolves to is. */
  ghost predicate WellNamed(w: Space) {
    (forall d :: d in w.dirs ==> IsWell(d)) && (forall f :: f in w.files ==> IsWell(f))
  }

  ghost predicate WellCall(c: N.Call) {
    match c
    case DoOpen(_, p, _, _, _, _) => IsWell(p)
    case DoMakeDirectory(p) => IsWell(p)
    case DoRename(_, q) => IsWell(q)
    case _ => true
  }

  ghost predicate WellCalls(cs: N.Calls) {
    cs.Then? ==> WellCall(cs.call) && WellCalls(cs.rest)
  }

  lemma MovedWell(k: Path, p: Path, q: Path)
    requires IsWell(k) && IsWell(q) && q != "" && p != ""
    ensures IsWell(Moved(k, p, q))
  {
    assert AskKey(0);
    if AtOrUnder(p, k) {
      RebaseSegmented(k, p, q);
    }
  }

  lemma RenameDirectoryNames(w: Space, p: Path, q: Path)
    requires WellNamed(w) && IsWell(q) && q != "" && p != "" && Vacant(w, q)
    ensures WellNamed(RenameDirectory(w, p, q))
  {
    var w' := RenameDirectory(w, p, q);
    forall d' | d' in w'.dirs ensures IsWell(d') {
      var d := NR.MovedDirFrom(w, p, q, d');
      MovedWell(d, p, q);
    }
    forall f' | f' in w'.files ensures IsWell(f') {
      var f := NR.MovedFileFrom(w, p, q, f');
      MovedWell(f, p, q);
    }
  }

  lemma RenameNames(w: Space, p: Path, q: Path)
    requires RecordsKnown(w) && WellNamed(w) && IsWell(q)
    ensures WellNamed(Rename(w, p, q).space)
  {
    if p != "" && q != "" && p != q && RenameStatus(w, p, q) == Success && p !in w.files {
      RenameDirectoryNames(w, p, q);
    }
  }

  lemma OpenNames(w: Space, fd: nat, p: Path, create: bool, excl: bool, trunc: bool, rights: Rights)
    requires WellNamed(w) && IsWell(p)
    ensures WellNamed(OpenPath(w, fd, p, create, excl, trunc, rights).space)
  {
  }

  lemma StepNames(w: Space, c: N.Call)
    requires RecordsKnown(w) && WellNamed(w) && WellCall(c)
    ensures WellNamed(Step(w, c).space)
  {
    match c {
      case DoOpen(fd, p, create, excl, trunc, rights) => OpenNames(w, fd, p, create, excl, trunc, rights);
      case DoRename(p, q) => RenameNames(w, p, q);
      case _ =>
    }
  }

  /** A path the store gives back: plain names, no backslash, no white space at the end. */
  ghost predicate GoodPath(k: Path) {
    IsKey(k) && !Spaced(k)
  }

  /** Every path that is exported is one. */
  ghost predicate ReadableNames(w: Space) {
    (forall d :: d in w.dirs ==> GoodPath(d)) && (forall f :: f in ExportedFiles(w) ==> GoodPath(f))
  }

  lemma KeyOrBackslash(k: Path)
    requires IsWell(k)
    ensures IsKey(k) <==> !HasBackslash(k)
  {
    assert AskKey(0);
  }

  // ----- What the runtime exports, as a store would hold it -----

  function ContentsOf(w: Space, times: map<Path, int>): S.Contents {
    S.Contents(map d | d in w.dirs :: S.DirRecord(0, WorkspacePath(d)),
               map f | f in ExportedFiles(w) ::
                 S.FileRecord(ExportedFiles(w)[f], if f in times then times[f] else 0, WorkspacePath(f)))
  }

  predicate ValidTimes(times: map<Path, int>) {
    forall f :: f in times ==> S.ValidTime(times[f])
  }

  lemma ExportRecords(w: Space, times: map<Path, int>)
    requires ValidTimes(times)
    ensures var c := ContentsOf(w, times);
            && (forall d :: d in c.dirs && IsKey(d) ==> S.DirOk(d, c.dirs[d]))
            && (forall f :: f in c.files && IsKey(f) ==> S.FileOk(f, c.files[f]))
  {
    var c := ContentsOf(w, times);
    forall d | d in c.dirs && IsKey(d) ensures S.DirOk(d, c.dirs[d]) {
      R.NewPath(d);
    }
    forall f | f in c.files && IsKey(f) ensures S.FileOk(f, c.files[f]) {
      R.NewPath(f);
    }
  }

  // ----- Importing it -----

  lemma {:induction false} LoadKeepsKeys(es: S.DirEntries, acc: map<Path, S.DirRecord>, k: Path)
    requires k in acc
    ensures var r := S.LoadDirs(es, acc); r.Loaded? ==> k in r.value
    decreases es
  {
    if es.DirEntry? && es.at.Some? && S.ValidTime(es.mtime) {
      LoadKeepsKeys(es.rest, acc[es.at.value := S.DirRecord(es.mtime, WorkspacePath(es.at.value))], k);
    }
  }

  function WithRoot(dirs: map<Path, S.DirRecord>): map<Path, S.DirRecord> {
    if "" in dirs then dirs else dirs["" := S.DirRecord(0, WorkspacePath(""))]
  }

  lemma {:induction false} OnlyWithRoot(es: S.DirEntries, dirs: map<Path, S.DirRecord>)
    requires DirsOnly(es, dirs)
    ensures DirsOnly(es, WithRoot(dirs))
    decreases es
  {
    if es.DirEntry? {
      var k :| k in dirs && ReadsAs(k, es.at) && es.mtime == dirs[k].mtime;
      assert k in WithRoot(dirs) && WithRoot(dirs)[k] == dirs[k];
      OnlyWithRoot(es.rest, dirs);
    }
  }

  lemma AllWithRoot(dirs: map<Path, S.DirRecord>)
    requires AllDirs(dirs)
    ensures AllDirs(WithRoot(dirs))
  {
    R.RootKey();
    R.NewPath("");
  }

  lemma {:induction false} ListedWithRoot(es: S.DirEntries, dirs: map<Path, S.DirRecord>, k: Path)
    requires DirListed(es, dirs, k)
    ensures DirListed(es, WithRoot(dirs), k)
    decreases es
  {
    if !(ReadsAs(k, es.at) && es.mtime == dirs[k].mtime) {
      ListedWithRoot(es.rest, dirs, k);
    }
  }

  /** The directories load with their own paths, and the root. */
  lemma DirsImport(es: S.DirEntries, dirs: map<Path, S.DirRecord>, now: int)
    requires AllDirs(dirs) && DirsOnly(es, dirs) && (forall k :: k in dirs ==> DirListed(es, dirs, k))
    ensures var r := S.LoadDirs(es, R.OnlyRoot(now)); r.Loaded? && r.value.Keys == dirs.Keys + {""}
  {
    var all := WithRoot(dirs);
    AllWithRoot(dirs);
    OnlyWithRoot(es, dirs);
    DirsLoad(es, R.OnlyRoot(now), all);
    LoadKeepsKeys(es, R.OnlyRoot(now), "");
    var r := S.LoadDirs(es, R.OnlyRoot(now));
    forall k | k in dirs ensures k in r.value {
      ListedWithRoot(es, dirs, k);
      DirLoads(es, R.OnlyRoot(now), all, k);
    }
  }

  /** A file at the root cannot be loaded. */
  lemma {:induction false} RootFileRefused(es: S.FileEntries, acc: map<Path, S.FileRecord>, files: map<Path, S.FileRecord>)
    requires FileListed(es, files, "")
    ensures S.LoadFiles(es, acc).Refused?
    decreases es
  {
    if ReadsAs("", es.at) && es.mtime == files[""].mtime && es.content == files[""].content {
      R.RootKey();
      PlainReads("", es.at);
    } else if es.at.Some? && es.at.value != "" && S.ValidTime(es.mtime) {
      RootFileRefused(es.rest, acc[es.at.value := S.FileRecord(es.content, es.mtime, WorkspacePath(es.at.value))], files);
    }
  }

  lemma ImportParts(s: S.Snapshot, now: int)
    requires S.ValidTime(now) && s.version == 1 && PathOf(s.root, "")
    requires S.LoadDirs(s.dirs, R.OnlyRoot(now)).Loaded?
    ensures var d, f, r := S.LoadDirs(s.dirs, R.OnlyRoot(now)), S.LoadFiles(s.files, map[]), S.LoadSnapshot(s, now);
            && (f.Refused? ==> r.Refused?)
            && (f.Loaded? && S.Graph(d.value.Keys, f.value.Keys) ==> r == S.Loaded(S.Contents(d.value, f.value)))
            && (f.Loaded? && !S.Graph(d.value.Keys, f.value.Keys) ==> r.Refused?)
  {
    assert AskKey(0);
  }

  /** What the store's graph check sees of an export. */
  predicate ExportIsGraph(w: Space) {
    S.Graph(w.dirs + {""}, ExportedFiles(w).Keys)
  }

  /** The import was taken, with exactly the directories, the files and the contents exported. */
  ghost predicate TakenExactly(r: S.Load<S.Contents>, w: Space, times: map<Path, int>) {
    r.Loaded? && r.value.dirs.Keys == w.dirs + {""} && r.value.files == ContentsOf(w, times).files
  }

  lemma ReadableImports(w: Space, times: map<Path, int>, s: S.Snapshot, now: int)
    requires ReadableNames(w) && ValidTimes(times) && S.ValidTime(now) && Exports(s, ContentsOf(w, times))
    ensures var r := S.LoadSnapshot(s, now);
            (r.Loaded? <==> ExportIsGraph(w)) && (r.Loaded? ==> TakenExactly(r, w, times))
  {
    var c := ContentsOf(w, times);
    ExportRecords(w, times);
    DirsImport(s.dirs, c.dirs, now);
    ImportParts(s, now);
    if "" in ExportedFiles(w) {
      RootFileRefused(s.files, map[], c.files);
    } else {
      FilesReadBack(s.files, c.files);
      assert c.files.Keys == ExportedFiles(w).Keys && c.dirs.Keys == w.dirs;
    }
  }

  // ----- Names that do not come back -----

  lemma BackslashReads(k: Path, at: Option<Path>)
    requires HasBackslash(k) && ReadsAs(k, at)
    ensures at.None?
  {
    assert AskKey(0);
    BackslashNotRead(k);
  }

  lemma {:induction false} BackslashDirRefused(es: S.DirEntries, acc: map<Path, S.DirRecord>, dirs: map<Path, S.DirRecord>, k: Path)
    requires DirListed(es, dirs, k) && HasBackslash(k)
    ensures S.LoadDirs(es, acc).Refused?
    decreases es
  {
    if ReadsAs(k, es.at) {
      BackslashReads(k, es.at);
    } else if es.at.Some? && S.ValidTime(es.mtime) {
      BackslashDirRefused(es.rest, acc[es.at.value := S.DirRecord(es.mtime, WorkspacePath(es.at.value))], dirs, k);
    }
  }

  lemma {:induction false} BackslashFileRefused(es: S.FileEntries, acc: map<Path, S.FileRecord>, files: map<Path, S.FileRecord>, k: Path)
    requires FileListed(es, files, k) && HasBackslash(k)
    ensures S.LoadFiles(es, acc).Refused?
    decreases es
  {
    if ReadsAs(k, es.at) {
      BackslashReads(k, es.at);
    } else if es.at.Some? && es.at.value != "" && S.ValidTime(es.mtime) {
      BackslashFileRefused(es.rest, acc[es.at.value := S.FileRecord(es.content, es.mtime, WorkspacePath(es.at.value))], files, k);
    }
  }

  lemma SpacedDirGone(es: S.DirEntries, dirs: map<Path, S.DirRecord>, now: int)
    requires (forall k :: k in dirs ==> IsKey(k)) && DirsOnly(es, dirs) && !NoneSpaced(dirs.Keys)
    ensures var r := S.LoadDirs(es, R.OnlyRoot(now)); r.Loaded? ==> r.value.Keys != dirs.Keys + {""}
  {
    var k := LongestSpaced(dirs.Keys);
    var r := S.LoadDirs(es, R.OnlyRoot(now));
    if r.Loaded? && k in r.value {
      var l := DirCameFrom(es, R.OnlyRoot(now), dirs, k);
      SpacedFromLonger(k, l);
    }
  }

  lemma UnreadableLost(w: Space, times: map<Path, int>, s: S.Snapshot, now: int)
    requires WellNamed(w) && !ReadableNames(w) && ValidTimes(times) && Exports(s, ContentsOf(w, times))
    ensures !TakenExactly(S.LoadSnapshot(s, now), w, times)
  {
    var c := ContentsOf(w, times);
    ExportRecords(w, times);
    R.LoadParts(s, now);
    assert c.dirs.Keys == w.dirs && c.files.Keys == ExportedFiles(w).Keys;
    if d :| d in c.dirs && !IsKey(d) {
      KeyOrBackslash(d);
      BackslashDirRefused(s.dirs, R.OnlyRoot(now), c.dirs, d);
    } else if f :| f in c.files && !IsKey(f) {
      KeyOrBackslash(f);
      BackslashFileRefused(s.files, map[], c.files, f);
    } else if !NoneSpaced(c.dirs.Keys) {
      SpacedDirGone(s.dirs, c.dirs, now);
    } else {
      SpacedFileLost(s.files, c.files);
    }
  }

  /** The store takes an export exactly, if and only if it is a graph and every path in it is one
      that the store reads back; and when every path is, it takes it at all only then. */
  lemma ExportImports(w: Space, times: map<Path, int>, s: S.Snapshot, now: int)
    requires WellNamed(w) && ValidTimes(times) && S.ValidTime(now) && Exports(s, ContentsOf(w, times))
    ensures var r := S.LoadSnapshot(s, now);
            && (TakenExactly(r, w, times) <==> ExportIsGraph(w) && ReadableNames(w))
            && (ReadableNames(w) ==> (r.Loaded? <==> ExportIsGraph(w)))
  {
    if ReadableNames(w) {
      ReadableImports(w, times, s, now);
    } else {
      UnreadableLost(w, times, s, now);
    }
  }

  /** A coherent tree exports a graph, if and only if no file is at the root. */
  lemma TreeIsGraph(w: Space)
    requires NR.Coherent(w) && NR.Tree(w)
    ensures ExportIsGraph(w) <==> "" !in ExportedFiles(w)
  {
    forall f | f in ExportedFiles(w) ensures NR.Fits(w, f) {
      assert NR.Owned(w, f);
    }
  }

  // ----- Whole runs -----

  lemma {:induction false} RunReady(w: Space, cs: N.Calls)
    requires NR.Coherent(w) && NR.Tree(w) && WellNamed(w) && WellCalls(cs) && NR.NeverMisplaces(w, cs)
    ensures var w' := NR.Run(w, cs); NR.Coherent(w') && NR.Tree(w') && WellNamed(w')
    decreases cs
  {
    if cs.Then? {
      NR.StepCoherent(w, cs.call);
      NR.StepTree(w, cs.call);
      StepNames(w, cs.call);
      RunReady(Step(w, cs.call).space, cs.rest);
    }
  }

  ghost predicate WellPackaged(ps: Packaged) {
    ps.OnePackaged? ==> IsWell(ps.path) && WellPackaged(ps.rest)
  }

  lemma {:induction false} PackagedNames(ps: Packaged, w: Space)
    requires WellPackaged(ps) && WellNamed(w)
    ensures WellNamed(AddPackaged(ps, w))
    decreases ps
  {
    if ps.OnePackaged? {
      PackagedNames(ps.rest, if ps.path in w.files then w else AddFile(w, ps.path, ps.bytes, true));
    }
  }

  lemma RereadWell(k: Path, x: Path)
    requires IsKey(k) && Reread(k) == Some(x)
    ensures IsWell(x)
  {
    assert AskKey(0);
    ReadsAsReread(k);
  }

  /** A workspace made from an export has well-formed paths. */
  lemma RemountedNames(c: S.Contents, s: S.Snapshot, ps: Packaged)
    requires S.Tree(c) && S.Records(c) && Exports(s, c) && WellPackaged(ps) && Remount(s, ps).Some?
    ensures WellNamed(Remount(s, ps).value)
  {
    var w := Remount(s, NoPackaged).value;
    assert forall k :: k in c.dirs ==> S.DirOk(k, c.dirs[k]);
    assert forall k :: k in c.files ==> S.FileOk(k, c.files[k]);
    MountedAll(s);
    forall d | d in w.dirs ensures IsWell(d) {
      RemountLands(c, s, NoPackaged, d);
      var k :| k in c.dirs.Keys && Reread(k) == Some(d);
      RereadWell(k, d);
    }
    forall f | f in w.files ensures IsWell(f) {
      RemountLands(c, s, NoPackaged, f);
      var k :| k in c.files.Keys && Reread(k) == Some(f);
      RereadWell(k, f);
    }
    PackagedNames(ps, w);
  }

  lemma MountedAll(s: S.Snapshot)
    requires Remount(s, NoPackaged).Some?
    ensures ExportedFiles(Remount(s, NoPackaged).value).Keys == Remount(s, NoPackaged).value.files.Keys
  {
    var empty := Space(MountDirs(s.dirs, {""}).value, map[], [], map[], false);
    MountedFiles(s.files, empty, "");
    AllAreExported(MountFiles(s.files, empty).value);
  }

  lemma MountedNames(s0: S.Snapshot, now: int, ps: Packaged, w: Space)
    requires Normalized(s0) && Mounts(s0, now, ps, Some(w)) && WellPackaged(ps)
    ensures WellNamed(w)
  {
    FreshStore(s0, now);
    var s := FreshExport(s0, now, ps, Some(w));
    RemountedNames(S.LoadSnapshot(s0, now).value, s, ps);
  }

  /** The workspace after a run of calls from a mounted one. */
  ghost function RunMounted(s0: S.Snapshot, now0: int, ps: Packaged, w: Space, cs: N.Calls): Space
    requires Mounts(s0, now0, ps, Some(w))
  {
    MountCoherent(s0, now0, ps, w);
    NR.Run(w, cs)
  }

  ghost predicate MountedNeverMisplaces(s0: S.Snapshot, now0: int, ps: Packaged, w: Space, cs: N.Calls)
    requires Mounts(s0, now0, ps, Some(w))
  {
    MountCoherent(s0, now0, ps, w);
    NR.NeverMisplaces(w, cs)
  }

  /** From any snapshot that mounts, and whose loaded contents mount well, after any run of calls
      that does not misplace a file, the store takes the export exactly, if and only if no file is
      at the root and every exported path is one it reads back. */
  lemma RunImports(s0: S.Snapshot, now0: int, ps: Packaged, w: Space, cs: N.Calls, times: map<Path, int>, s: S.Snapshot, now: int)
    requires Normalized(s0) && Mounts(s0, now0, ps, Some(w)) && WellPackaged(ps)
    requires S.LoadSnapshot(s0, now0).Loaded? && MountsWell(S.LoadSnapshot(s0, now0).value)
    requires WellCalls(cs) && MountedNeverMisplaces(s0, now0, ps, w, cs)
    requires ValidTimes(times) && S.ValidTime(now) && Exports(s, ContentsOf(RunMounted(s0, now0, ps, w, cs), times))
    ensures var w', r := RunMounted(s0, now0, ps, w, cs), S.LoadSnapshot(s, now);
            && (TakenExactly(r, w', times) <==> "" !in ExportedFiles(w') && ReadableNames(w'))
            && (ReadableNames(w') ==> (r.Loaded? <==> "" !in ExportedFiles(w')))
  {
    MountCoherent(s0, now0, ps, w);
    MountTree(s0, now0, ps, w);
    MountedNames(s0, now0, ps, w);
    RunReady(w, cs);
    var w' := RunMounted(s0, now0, ps, w, cs);
    TreeIsGraph(w');
    ExportImports(w', times, s, now);
  }

  lemma {:induction false} NoLeadingSlash(k: Path)
    requires Segmented(k)
    ensures k[0] != '/'
    decreases |k|
  {
    if Nested(k) {
      NoLeadingSlash(Parent(k));
      assert Parent(k)[0] == k[0];
    }
  }

  predicate Rooted(w: Space) {
    "" in w.dirs && "" !in w.files
  }

  /** Nothing counts as a child of the root. */
  lemma RootChildless(w: Space)
    requires WellNamed(w)
    ensures !HasChildren(w, "")
  {
    forall k | k in w.dirs || k in w.files ensures !Under("", k) {
      assert AskKey(0);
      if k != "" {
        NoLeadingSlash(k);
      }
    }
  }

  /** Removing the root is refused only to calls made from the root itself. From any other
      directory it succeeds, full or not, and a file can then be made in its place: everything the
      run did is then refused by the store. */
  lemma RootFileLosesRun(w: Space, base: Path, fd: nat, rights: Rights, times: map<Path, int>, s: S.Snapshot, now: int)
    requires NR.Coherent(w) && WellNamed(w) && Rooted(w) && base != "" && (rights.write || rights.allocate)
    ensures
      var w1 := RemoveDirectory(w, base, "");
      var w2 := OpenPath(w1.space, fd, "", true, false, false, rights);
      && w1.errno == Success && w2.errno == Success
      && (Exports(s, ContentsOf(w2.space, times)) ==> S.LoadSnapshot(s, now).Refused?)
  {
    RootChildless(w);
    var w1 := RemoveDirectory(w, base, "").space;
    assert !HasChildren(w1, "");
    var w2 := OpenPath(w1, fd, "", true, false, false, rights).space;
    assert "" in ExportedFiles(w2);
    if Exports(s, ContentsOf(w2, times)) {
      RootFileNotLoaded(s, ContentsOf(w2, times), now);
    }
  }

  lemma RootFileNotLoaded(s: S.Snapshot, c: S.Contents, now: int)
    requires "" in c.files && Exports(s, c)
    ensures S.LoadSnapshot(s, now).Refused?
  {
    RootFileRefused(s.files, map[], c.files);
  }

  // ----- A file out of place -----

  lemma LetterName(n: string)
    requires n != "" && forall i :: 0 <= i < |n| ==> 'a' <= n[i] <= 'z'
    ensures PlainName(n) && !Nested(n) && Parent(n) == "" && !HasBackslash(n) && !EndsInSpace(n) && IsKey(n)
  {
    assert !Nested(n);
  }

  lemma FolderPrintable(p: Path, n: string, k: Path)
    requires Segmented(p) && !HasBackslash(p) && k == p + "/" + n && n != "" && forall i :: 0 <= i < |n| ==> 'a' <= n[i] <= 'z'
    ensures Printable(k) && !EndsInSpace(k)
  {
    SegmentedNoNul(p);
    var rest := "/" + n;
    assert forall i :: 0 <= i < |rest| ==> rest[i] == if i == 0 then '/' else n[i - 1];
    PrintableAppended(p, rest);
    assert k == p + rest && k[|k| - 1] == n[|n| - 1];
  }

  lemma InFolder(p: Path, n: string, k: Path)
    requires IsKey(p) && p != "" && k == p + "/" + n
    requires n != "" && forall i :: 0 <= i < |n| ==> 'a' <= n[i] <= 'z'
    ensures Nested(k) && Parent(k) == p && IsKey(k) && !EndsInSpace(k)
  {
    LetterName(n);
    assert Storable(p) by { assert AskKey(0); }
    AppendedName(p, n);
    FolderPrintable(p, n, k);
    assert Segmented(k);
  }

  /** An export with a file whose parent is not exported is refused. */
  lemma OrphanRefused(w: Space, f: Path, times: map<Path, int>, s: S.Snapshot, now: int)
    requires ReadableNames(w) && f in ExportedFiles(w) && Parent(f) !in w.dirs && Parent(f) != ""
    requires ValidTimes(times) && S.ValidTime(now) && Exports(s, ContentsOf(w, times))
    ensures S.LoadSnapshot(s, now).Refused?
  {
    ReadableImports(w, times, s, now);
    assert f in ExportedFiles(w).Keys;
  }

  /** A file `y`, and a packaged file `pkg/x` without a directory `pkg`. */
  function Misplaced(y: Path, x: Path): Space {
    Space({""}, map[y := 0, x := 1], [Rec(Some(y), [1], false), Rec(Some(x), [2], true)], map[], false)
  }

  /** Renaming `y` to `pkg/x` succeeds, is no tree any more, and the store refuses the export. */
  lemma MisplacedFileRefused(y: Path, pkg: Path, x: Path, times: map<Path, int>, s: S.Snapshot, now: int)
    requires y == "y" && pkg == "pkg" && x == "pkg/x" && ValidTimes(times) && S.ValidTime(now)
    ensures
      var w := Misplaced(y, x);
      && NR.Coherent(w) && NR.Tree(w) && NR.Misplaces(w, DoRename(y, x)) && Rename(w, y, x).errno == Success
      && !NR.Tree(Rename(w, y, x).space)
      && (Exports(s, ContentsOf(Rename(w, y, x).space, times)) ==> S.LoadSnapshot(s, now).Refused?)
  {
    LetterName(y);
    LetterName(pkg);
    InFolder(pkg, "x", x);
    R.RootKey();
    MisplacedRefused(y, x, times, s, now);
  }

  lemma MisplacedRefused(y: Path, x: Path, times: map<Path, int>, s: S.Snapshot, now: int)
    requires !Nested(y) && y != "" && Nested(x) && Parent(x) != "" && GoodPath("") && GoodPath(x)
    requires ValidTimes(times) && S.ValidTime(now)
    ensures
      var w := Misplaced(y, x);
      && NR.Coherent(w) && NR.Tree(w) && NR.Misplaces(w, DoRename(y, x)) && Rename(w, y, x).errno == Success
      && !NR.Tree(Rename(w, y, x).space)
      && (Exports(s, ContentsOf(Rename(w, y, x).space, times)) ==> S.LoadSnapshot(s, now).Refused?)
  {
    var w := Misplaced(y, x);
    MisplacedTree(w, y, x);
    NR.StepTree(w, DoRename(y, x));
    var w' := Rename(w, y, x).space;
    MisplacedExport(w, w', y, x);
    if Exports(s, ContentsOf(w', times)) {
      OrphanRefused(w', x, times, s, now);
    }
  }

  lemma MisplacedExport(w: Space, w': Space, y: Path, x: Path)
    requires w == Misplaced(y, x) && !Nested(y) && y != "" && Nested(x) && Parent(x) != "" && GoodPath("") && GoodPath(x)
    requires w' == RenameFile(w, y, x)
    ensures ReadableNames(w') && x in ExportedFiles(w') && Parent(x) !in w'.dirs
  {
    assert w'.files == map[x := 0];
  }

  lemma MisplacedTree(w: Space, y: Path, x: Path)
    requires w == Misplaced(y, x) && !Nested(y) && Nested(x) && Parent(x) != "" && y != ""
    ensures NR.Coherent(w) && NR.Tree(w) && Rename(w, y, x) == Answer(RenameFile(w, y, x), Success) && NR.Misplaces(w, DoRename(y, x))
  {
  }

  // ----- A directory that is trimmed -----

  lemma SpacedName(t: string, d: Path)
    requires t != "" && (forall i :: 0 <= i < |t| ==> 'a' <= t[i] <= 'z') && d == t + " "
    ensures PlainName(d) && !HasBackslash(d) && Trims(t, d)
  {
    assert forall i :: 0 <= i < |d| ==> d[i] == (if i < |t| then t[i] else ' ');
    assert d[..|t|] == t;
  }

  lemma FlatReread(t: string, d: Path)
    requires PlainName(d) && PlainName(t) && Trims(t, d)
    ensures Reread(d) == Some(t) && !Nested(d) && Parent(d) == ""
  {
    PlainNotNested(d);
    assert LastName(d) == d;
    TrimsIs(t, d);
  }

  lemma TrimmedLetter(t: string, d: Path)
    requires t != "" && (forall i :: 0 <= i < |t| ==> 'a' <= t[i] <= 'z') && d == t + " "
    ensures Reread(d) == Some(t) && IsKey(d) && !Nested(d) && Parent(d) == ""
  {
    LetterName(t);
    SpacedName(t, d);
    FlatReread(t, d);
  }

  /** A store with the directory `a ` and the file `a /x`. */
  function Spacious(d: Path, f: Path, now: int): S.Contents {
    S.Contents(map["" := S.DirRecord(now, WorkspacePath("")), d := S.DirRecord(0, WorkspacePath(d))],
               map[f := S.FileRecord([1], 0, WorkspacePath(f))])
  }

  predicate AskTrim(u: int) {
    true
  }

  /** `d` is read again as `t`, and `f`, which is in it, as itself. */
  ghost predicate Trimmable(t: Path, d: Path, f: Path) {
    RereadIs("", "") && RereadIs(d, t) && RereadIs(f, f)
  }

  ghost predicate Spacing(t: Path, d: Path, f: Path) {
    && t != d && d != "" && f != d && f != "" && Parent(d) == "" && Nested(f) && Parent(f) == d
    && IsKey(d) && GoodPath("") && GoodPath(t) && GoodPath(f)
  }

  lemma LetterTrimmable(t: string, d: Path, f: Path)
    requires t == "a" && d == t + " " && f == d + "/" + "x"
    ensures Trimmable(t, d, f) && Spacing(t, d, f)
  {
    LetterName(t);
    TrimmedLetter(t, d);
    InFolder(d, "x", f);
    RereadSelf(f);
    R.RootKey();
  }

  lemma SpaciousStore(t: Path, d: Path, f: Path, now: int)
    requires Spacing(t, d, f) && S.ValidTime(now)
    ensures S.Tree(Spacious(d, f, now)) && S.Records(Spacious(d, f, now))
  {
    R.NewPath("");
    R.NewPath(d);
    R.NewPath(f);
  }

  ghost predicate RereadIs(k: Path, x: Path) {
    forall u {:trigger AskTrim(u)} :: AskTrim(u) ==> Reread(k) == Some(x)
  }

  lemma OneLands(keys: set<Path>, k: Path, x: Path)
    requires k in keys && RereadIs(k, x)
    ensures Lands(keys, x)
  {
    assert AskTrim(0);
    assert k in keys && Reread(k) == Some(x);
  }

  lemma NotRead(k: Path, y: Path, x: Path)
    requires RereadIs(k, y)
    ensures Reread(k).Some? && (Reread(k) == Some(x) <==> x == y)
  {
    assert AskTrim(0);
  }

  lemma TwoRead(a: Path, b: Path, ra: Path, rb: Path)
    requires RereadIs(a, ra) && RereadIs(b, rb)
    ensures AllReread({a, b})
  {
    forall k | k in {a, b} ensures Reread(k).Some? {
      NotRead(k, if k == a then ra else rb, ra);
    }
  }

  lemma NoneLands(a: Path, b: Path, x: Path, ra: Path, rb: Path)
    requires RereadIs(a, ra) && RereadIs(b, rb) && x != ra && x != rb
    ensures !Lands({a, b}, x)
  {
    forall k | k in {a, b} ensures Reread(k) != Some(x) {
      NotRead(k, if k == a then ra else rb, x);
    }
  }

  lemma TwoLand(a: Path, b: Path, x: Path, ra: Path, rb: Path)
    requires RereadIs(a, ra) && RereadIs(b, rb)
    ensures Lands({a, b}, x) <==> x == ra || x == rb
  {
    if x == ra {
      OneLands({a, b}, a, x);
    } else if x == rb {
      OneLands({a, b}, b, x);
    } else {
      NoneLands(a, b, x, ra, rb);
    }
  }

  lemma SpaciousLands(t: Path, d: Path, f: Path, now: int, x: Path)
    requires Trimmable(t, d, f) && Spacing(t, d, f)
    ensures var c := Spacious(d, f, now);
            && AllReread(c.dirs.Keys) && AllReread(c.files.Keys)
            && (Lands(c.dirs.Keys, x) <==> x == "" || x == t) && (Lands(c.files.Keys, x) <==> x == f)
  {
    var c := Spacious(d, f, now);
    assert c.dirs.Keys == {"", d} && c.files.Keys == {f, f};
    TwoRead("", d, "", t);
    TwoRead(f, f, f, f);
    TwoLand("", d, x, "", t);
    TwoLand(f, f, x, f, f);
  }

  lemma SpaciousAt(t: Path, d: Path, f: Path, now: int, s0: S.Snapshot, x: Path)
    requires Trimmable(t, d, f) && Spacing(t, d, f) && S.ValidTime(now) && Exports(s0, Spacious(d, f, now))
    ensures var r := Remount(s0, NoPackaged);
            r.Some? && (x in r.value.dirs <==> x == "" || x == t) && (x in ExportedFiles(r.value) <==> x == f)
  {
    SpaciousStore(t, d, f, now);
    SpaciousLands(t, d, f, now, x);
    RemountLands(Spacious(d, f, now), s0, NoPackaged, x);
  }

  lemma SpaciousMount(t: Path, d: Path, f: Path, now: int, s0: S.Snapshot)
    requires Trimmable(t, d, f) && Spacing(t, d, f) && S.ValidTime(now) && Exports(s0, Spacious(d, f, now))
    ensures Remount(s0, NoPackaged).Some?
    ensures var w := Remount(s0, NoPackaged).value; w.dirs == {"", t} && ExportedFiles(w).Keys == {f}
  {
    SpaciousAt(t, d, f, now, s0, t);
    var w := Remount(s0, NoPackaged).value;
    forall x ensures (x in w.dirs <==> x == "" || x == t) && (x in ExportedFiles(w) <==> x == f) {
      SpaciousAt(t, d, f, now, s0, x);
    }
  }

  lemma OrphanNoTree(w: Space, f: Path)
    requires NR.Coherent(w) && f in ExportedFiles(w) && Nested(f) && Parent(f) !in w.dirs
    ensures !NR.Tree(w)
  {
    assert NR.Owned(w, f);
  }

  /** The texts `/workspace/a /` and `/workspace/a /x`. */
  function SpaciousSnapshot(d: Path, f: Path): M.RawSnapshot {
    M.RawSnapshot(1, MOUNT, M.RawDir(WorkspacePath(d) + "/", 0, M.NoRawDir), M.RawFile(WorkspacePath(f), [1], 0, M.NoRawFile))
  }

  /** The snapshot with its paths read. */
  function SpaciousRead(d: Path, f: Path): S.Snapshot {
    S.Snapshot(1, MOUNT, S.DirEntry(Some(d), 0, S.NoDir), S.FileEntry(Some(f), [1], 0, S.NoFile))
  }

  lemma SpaciousIsRead(t: Path, d: Path, f: Path)
    requires Spacing(t, d, f)
    ensures M.SnapshotRead(SpaciousSnapshot(d, f)) == SpaciousRead(d, f)
  {
    assert Storable(d) && Storable(f) by { assert AskKey(0); }
    SlashedReads(d);
    NormalizesBackExactly(f);
    M.DirHead(SpaciousSnapshot(d, f).dirs, Some(d));
    M.FileHead(SpaciousSnapshot(d, f).files, Some(f));
  }

  lemma SpaciousLoads(t: Path, d: Path, f: Path, now: int)
    requires Spacing(t, d, f) && S.ValidTime(now)
    ensures S.LoadSnapshot(SpaciousRead(d, f), now) == S.Loaded(Spacious(d, f, now))
  {
    var s0 := SpaciousRead(d, f);
    SpaciousStore(t, d, f, now);
    var dirs := R.OnlyRoot(now)[d := S.DirRecord(0, WorkspacePath(d))];
    assert S.LoadDirs(s0.dirs.rest, dirs) == S.Loaded(dirs);
    assert S.LoadDirs(s0.dirs, R.OnlyRoot(now)) == S.Loaded(Spacious(d, f, now).dirs);
    var files := map[f := S.FileRecord([1], 0, WorkspacePath(f))];
    assert S.LoadFiles(s0.files.rest, files) == S.Loaded(files);
    assert S.LoadFiles(s0.files, map[]) == S.Loaded(Spacious(d, f, now).files);
  }

  /** The fresh store takes that snapshot, with the directory `a ` and the file in it. The directory
      is then mounted as `a`, which leaves the file without one: the workspace is no tree, and the
      store refuses what it exports. */
  lemma SpacedDirectoryUproots(t: string, d: Path, f: Path, now0: int, r: Option<Space>, times: map<Path, int>, s: S.Snapshot, now: int)
    requires t == "a" && d == t + " " && f == d + "/" + "x" && S.ValidTime(now0) && ValidTimes(times) && S.ValidTime(now)
    requires Mounts(M.SnapshotRead(SpaciousSnapshot(d, f)), now0, NoPackaged, r)
    ensures r.Some? && !NR.Tree(r.value)
    ensures Exports(s, ContentsOf(r.value, times)) ==> S.LoadSnapshot(s, now).Refused?
  {
    LetterTrimmable(t, d, f);
    SpaciousIsRead(t, d, f);
    SpaciousLoads(t, d, f, now0);
    var s0 := FreshExport(SpaciousRead(d, f), now0, NoPackaged, r);
    TrimmedUproots(t, d, f, now0, s0, times, s, now);
  }

  lemma TrimmedUproots(t: Path, d: Path, f: Path, now0: int, s0: S.Snapshot, times: map<Path, int>, s: S.Snapshot, now: int)
    requires Trimmable(t, d, f) && Spacing(t, d, f) && S.ValidTime(now0) && Exports(s0, Spacious(d, f, now0))
    requires ValidTimes(times) && S.ValidTime(now)
    ensures
      var r := Remount(s0, NoPackaged);
      && r.Some? && !NR.Tree(r.value)
      && (Exports(s, ContentsOf(r.value, times)) ==> S.LoadSnapshot(s, now).Refused?)
  {
    SpaciousMount(t, d, f, now0, s0);
    var w := Remount(s0, NoPackaged).value;
    RemountCoherent(s0, NoPackaged);
    assert f in ExportedFiles(w).Keys;
    OrphanNoTree(w, f);
    if Exports(s, ContentsOf(w, times)) {
      OrphanRefused(w, f, times, s, now);
    }
  }
}
