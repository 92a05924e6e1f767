/** What each store call that returns leaves at every path, and when it returns. */
module StoreCalls {
  import opened Bytes
  import opened Paths
  import opened StorePaths
  import opened Store
  import opened StoreRuns

  /** A time the store accepts. */
  predicate RightTime(t: int) {
    0 <= t <= 9007199254740991
  }

  lemma TimesAre(t: int)
    ensures ValidTime(t) <==> RightTime(t)
  {
  }

  /** Something is under `k`. */
  ghost predicate Populated(c: Contents, k: Path) {
    exists l :: (l in c.dirs || l in c.files) && Under(k, l)
  }

  /** In a tree a new path needs its parent to be a directory. */
  lemma ParentNeeded(c: Contents, k: Path)
    requires Tree(c)
    ensures ParentProblem(c, k).None? <==> Parent(k) in c.dirs
    ensures ParentProblem(c, k).Some? ==>
              ParentProblem(c, k) == Some(if Parent(k) in c.files then NotDirectory else NotFound)
  {
  }

  lemma PopulatedExactly(c: Contents, k: Path)
    requires k != ""
    ensures HasChildren(c, k) <==> Populated(c, k)
  {
  }

  // ----- Files -----

  /** A write puts the content at the path, with the time and the full path; nothing else changes. */
  lemma WriteDoes(c: Contents, n: Option<Path>, content: seq<Byte>, clock: Clock)
    requires Tree(c)
    ensures
      var r := Step(c, DoWriteFile(n, content), clock);
      if n.None? || n.value == "" then r == Turn(c, Threw(InvalidPath))
      else
        var k := n.value;
        && (r.outcome.Returned? <==> k !in c.dirs && Parent(k) in c.dirs && RightTime(clock.At(k)))
        && (if r.outcome.Returned? then r.contents == Contents(c.dirs, c.files[k := FileRecord(content, clock.At(k), WorkspacePath(k))])
            else r.contents == c)
        && (r.outcome == Threw(NotFile) <==> k in c.dirs)
  {
    if n.Some? {
      ParentNeeded(c, n.value);
    }
  }

  lemma DeleteDoes(c: Contents, n: Option<Path>, clock: Clock)
    requires Tree(c)
    ensures
      var r := Step(c, DoDeleteFile(n), clock);
      if n.None? then r == Turn(c, Threw(InvalidPath))
      else if n.value in c.files then r == Turn(Contents(c.dirs, map f | f in c.files && f != n.value :: c.files[f]), Returned)
      else r == Turn(c, Threw(if n.value in c.dirs then NotFile else NotFound))
  {
  }

  // ----- Directories -----

  lemma CreateDoes(c: Contents, n: Option<Path>, clock: Clock)
    requires Tree(c)
    ensures
      var r := Step(c, DoCreateDirectory(n, false), clock);
      if n.None? then r == Turn(c, Threw(InvalidPath))
      else
        var k := n.value;
        && (r.outcome.Returned? <==> k == "" || (k !in c.files && k !in c.dirs && Parent(k) in c.dirs && RightTime(clock.At(k))))
        && r.contents == (if r.outcome.Returned? && k != "" then Contents(c.dirs[k := DirRecord(clock.At(k), WorkspacePath(k))], c.files) else c)
        && (r.outcome == Threw(AlreadyExists) ==> k in c.dirs)
  {
    if n.Some? {
      ParentNeeded(c, n.value);
    }
  }

  /** Recursive creation returns if no path down to `k` is a file and the clock is right for those
      that are missing, and then all of them are directories; nothing else changes. */
  lemma CreateAllDoes(c: Contents, k: Path, clock: Clock)
    requires Tree(c) && k != ""
    ensures
      var r := Step(c, DoCreateDirectory(Some(k), true), clock);
      && r.contents.files == c.files
      && (r.outcome.Returned? <==> forall d :: AtOrUnder(d, k) ==> d !in c.files && (d in c.dirs || RightTime(clock.At(d))))
      && (r.outcome.Returned? ==>
            && (forall d :: d in r.contents.dirs <==> d in c.dirs || AtOrUnder(d, k))
            && (forall d :: d in r.contents.dirs ==>
                  r.contents.dirs[d] == if d in c.dirs then c.dirs[d] else DirRecord(clock.At(d), WorkspacePath(d))))
  {
    var r := EnsureDirectory(c, k, clock);
    EnsureTree(c, k, clock);
    EnsureFiles(c, k, clock);
    if forall d :: AtOrUnder(d, k) ==> d !in c.files && (d in c.dirs || RightTime(clock.At(d))) {
      EnsureReturns(c, k, clock);
      assert AtOrUnder(k, k);
    }
    if r.outcome.Returned? {
      forall d | AtOrUnder(d, k) ensures d in r.contents.dirs {
        DirsAbove(r.contents, d, k);
      }
      forall d ensures d in c.dirs ==> d in r.contents.dirs && r.contents.dirs[d] == c.dirs[d]
        ensures d in r.contents.dirs ==>
                  d in c.dirs || (AtOrUnder(d, k) && r.contents.dirs[d] == DirRecord(clock.At(d), WorkspacePath(d)) && RightTime(clock.At(d)))
      {
        EnsureAdds(c, k, clock, d);
      }
    }
  }

  /** Deleting a directory takes everything at it or under it, and it has to be empty unless the call
      is recursive. */
  lemma DeleteDirectoryDoes(c: Contents, n: Option<Path>, recursive: bool, clock: Clock)
    requires Tree(c)
    ensures
      var r := Step(c, DoDeleteDirectory(n, recursive), clock);
      if n.None? || n.value == "" then r == Turn(c, Threw(InvalidPath))
      else if n.value !in c.dirs then r == Turn(c, Threw(NotFound))
      else if !recursive && Populated(c, n.value) then r == Turn(c, Threw(NotEmpty))
      else
        && r.outcome == Returned
        && r.contents.dirs == (map d | d in c.dirs && !AtOrUnder(n.value, d) :: c.dirs[d])
        && r.contents.files == (map f | f in c.files && !AtOrUnder(n.value, f) :: c.files[f])
  {
    if n.Some? && n.value != "" {
      PopulatedExactly(c, n.value);
    }
  }

  // ----- Rename -----

  /** A rename needs something to rename, a vacant target with a parent, a directory that does not go
      into itself, and the right time for everything that moves. */
  lemma RenameReturns(c: Contents, p: Path, q: Path, clock: Clock)
    requires Tree(c) && p != "" && q != ""
    ensures
      Step(c, DoRename(Some(p), Some(q)), clock).outcome.Returned? <==>
        && Parent(q) in c.dirs && q !in c.files && q !in c.dirs
        && (if p in c.files then RightTime(clock.At(q)) else p in c.dirs && !Under(p, q))
        && (p in c.dirs ==>
              && (forall d :: d in c.dirs && AtOrUnder(p, d) ==> RightTime(clock.At(q + d[|p|..])))
              && (forall f :: f in c.files && AtOrUnder(p, f) ==> RightTime(clock.At(q + f[|p|..]))))
  {
    ParentNeeded(c, q);
    forall k | AtOrUnder(p, k) ensures Rebase(k, p, q) == q + k[|p|..] {
      if k == p {
        assert k[|p|..] == "" && q + "" == q;
      }
    }
  }

  /** A file keeps its content when it is renamed, and gets a new time and full path. */
  lemma RenameFileDoes(c: Contents, p: Path, q: Path, clock: Clock)
    requires Tree(c) && p in c.files && Step(c, DoRename(Some(p), Some(q)), clock).outcome.Returned?
    ensures Step(c, DoRename(Some(p), Some(q)), clock).contents ==
            Contents(c.dirs, (c.files - {p})[q := FileRecord(c.files[p].content, clock.At(q), WorkspacePath(q))])
  {
  }

  lemma RestAtOrUnder(p: Path, rest: string)
    requires rest == "" || rest[0] == '/'
    ensures AtOrUnder(p, p + rest)
  {
    if rest == "" {
      assert p + rest == p;
    } else {
      assert (p + rest)[..|p|] == p;
    }
  }

  /** What was under a renamed directory is under its new path, with a new time and full path; nothing
      is left under the old one, and the records elsewhere are as they were. */
  lemma RenameDirectoryDoes(c: Contents, p: Path, q: Path, clock: Clock, rest: string, k: Path)
    requires Tree(c) && p in c.dirs && Step(c, DoRename(Some(p), Some(q)), clock).outcome.Returned?
    requires (rest == "" || rest[0] == '/') && !AtOrUnder(p, k) && !AtOrUnder(q, k)
    ensures
      var c' := Step(c, DoRename(Some(p), Some(q)), clock).contents;
      && (q + rest in c'.dirs <==> p + rest in c.dirs) && (q + rest in c'.files <==> p + rest in c.files)
      && (q + rest in c'.dirs ==> c'.dirs[q + rest] == DirRecord(clock.At(q + rest), WorkspacePath(q + rest)))
      && (q + rest in c'.files ==>
            c'.files[q + rest] == FileRecord(c.files[p + rest].content, clock.At(q + rest), WorkspacePath(q + rest)))
      && p + rest !in c'.dirs && p + rest !in c'.files
      && (k in c'.dirs <==> k in c.dirs) && (k in c'.files <==> k in c.files)
      && (k in c.dirs ==> c'.dirs[k] == c.dirs[k]) && (k in c.files ==> c'.files[k] == c.files[k])
  {
    ReturnedMeansCanMove(c, p, q, clock);
    RestAtOrUnder(p, rest);
    RestAtOrUnder(q, rest);
    RebasedFront(q, p, rest);
    RebasedFront(p, q, rest);
    NotUnderTarget(c, p, q, p + rest);
    RenameFileThings(c, p, q, clock, q + rest);
    RenameDirThings(c, p, q, clock, q + rest);
    RenameFileThings(c, p, q, clock, p + rest);
    RenameDirThings(c, p, q, clock, p + rest);
    RenameFileThings(c, p, q, clock, k);
    RenameDirThings(c, p, q, clock, k);
  }

  lemma NotUnderTarget(c: Contents, p: Path, q: Path, k: Path)
    requires CanMove(c, p, q) && AtOrUnder(p, k)
    ensures !AtOrUnder(q, k)
  {
    if AtOrUnder(q, k) {
      OneWay(p, q, k);
    }
  }

  // ----- Import -----

  /** The record an import makes for `k`: of the entries for one path the last counts. */
  function LastFile(es: FileEntries, k: Path): Option<FileRecord> {
    if es.NoFile? then None
    else if LastFile(es.rest, k).Some? then LastFile(es.rest, k)
    else if es.at == Some(k) then Some(FileRecord(es.content, es.mtime, WorkspacePath(k)))
    else None
  }

  function LastDir(es: DirEntries, k: Path): Option<DirRecord> {
    if es.NoDir? then None
    else if LastDir(es.rest, k).Some? then LastDir(es.rest, k)
    else if es.at == Some(k) then Some(DirRecord(es.mtime, WorkspacePath(k)))
    else None
  }

  predicate FilesAcceptable(es: FileEntries) {
    es.FileEntry? ==> es.at.Some? && es.at.value != "" && RightTime(es.mtime) && FilesAcceptable(es.rest)
  }

  predicate DirsAcceptable(es: DirEntries) {
    es.DirEntry? ==> es.at.Some? && RightTime(es.mtime) && DirsAcceptable(es.rest)
  }

  function Found<T>(files: map<Path, T>, k: Path): Option<T> {
    if k in files then Some(files[k]) else None
  }

  lemma {:induction false} FilesLoaded(es: FileEntries, files: map<Path, FileRecord>, k: Path)
    ensures var r := LoadFiles(es, files);
            && (r.Loaded? <==> FilesAcceptable(es))
            && (r.Loaded? ==> Found(r.value, k) == if LastFile(es, k).Some? then LastFile(es, k) else Found(files, k))
    decreases es
  {
    if es.FileEntry? && es.at.Some? {
      FilesLoaded(es.rest, files[es.at.value := FileRecord(es.content, es.mtime, WorkspacePath(es.at.value))], k);
    }
  }

  lemma {:induction false} DirsLoaded(es: DirEntries, dirs: map<Path, DirRecord>, k: Path)
    ensures var r := LoadDirs(es, dirs);
            && (r.Loaded? <==> DirsAcceptable(es))
            && (r.Loaded? ==> Found(r.value, k) == if LastDir(es, k).Some? then LastDir(es, k) else Found(dirs, k))
    decreases es
  {
    if es.DirEntry? && es.at.Some? {
      DirsLoaded(es.rest, dirs[es.at.value := DirRecord(es.mtime, WorkspacePath(es.at.value))], k);
    }
  }

  predicate GivesDir(s: Snapshot, k: Path) {
    k == "" || LastDir(s.dirs, k).Some?
  }

  predicate GivesFile(s: Snapshot, k: Path) {
    LastFile(s.files, k).Some?
  }

  /** No path has two kinds and every parent is a directory. */
  ghost predicate GivesTree(s: Snapshot) {
    && (forall k :: GivesFile(s, k) ==> !GivesDir(s, k) && GivesDir(s, Parent(k)))
    && (forall k :: GivesDir(s, k) && k != "" ==> GivesDir(s, Parent(k)))
  }

  lemma GraphGiven(dirs: set<Path>, files: set<Path>, s: Snapshot)
    requires forall k :: k in dirs <==> GivesDir(s, k)
    requires forall k :: k in files <==> GivesFile(s, k)
    ensures Graph(dirs, files) <==> GivesTree(s)
  {
    assert GivesDir(s, "");
    if Graph(dirs, files) {
      forall k | GivesFile(s, k) ensures !GivesDir(s, k) && GivesDir(s, Parent(k)) {
        assert k in files;
      }
      forall k | GivesDir(s, k) && k != "" ensures GivesDir(s, Parent(k)) {
        assert k in dirs;
      }
    }
  }

  /** Everything the entries need one by one. */
  predicate Acceptable(s: Snapshot, clock: Clock) {
    s.version == 1 && s.root == WorkspacePath("") && RightTime(clock.At("")) && DirsAcceptable(s.dirs) && FilesAcceptable(s.files)
  }

  lemma KeysGiven(s: Snapshot, root: DirRecord, k: Path)
    requires DirsAcceptable(s.dirs) && FilesAcceptable(s.files)
    ensures var dirs, files := LoadDirs(s.dirs, map["" := root]), LoadFiles(s.files, map[]);
            dirs.Loaded? && files.Loaded? && (k in dirs.value <==> GivesDir(s, k)) && (k in files.value <==> GivesFile(s, k))
  {
    DirsLoaded(s.dirs, map["" := root], k);
    FilesLoaded(s.files, map[], k);
    var dirs, files := LoadDirs(s.dirs, map["" := root]).value, LoadFiles(s.files, map[]).value;
    assert k in dirs <==> Found(dirs, k).Some?;
    assert k in files <==> Found(files, k).Some?;
  }

  lemma LoadsExactly(s: Snapshot, clock: Clock)
    ensures LoadSnapshot(s, clock.At("")).Loaded? <==> Acceptable(s, clock) && GivesTree(s)
  {
    var root := DirRecord(clock.At(""), WorkspacePath(""));
    DirsLoaded(s.dirs, map["" := root], "");
    FilesLoaded(s.files, map[], "");
    if Acceptable(s, clock) {
      var dirs, files := LoadDirs(s.dirs, map["" := root]).value, LoadFiles(s.files, map[]).value;
      forall k ensures k in dirs <==> GivesDir(s, k) ensures k in files <==> GivesFile(s, k) {
        KeysGiven(s, root, k);
      }
      GraphGiven(dirs.Keys, files.Keys, s);
    }
  }

  /** An import returns if and only if every entry is acceptable and together they give a tree; the
      store then holds at every path what the last entry for it says, and the root. Otherwise it
      throws and changes nothing. */
  lemma ImportDoes(c: Contents, s: Snapshot, clock: Clock, k: Path)
    requires Tree(c)
    ensures
      var r := Step(c, DoImport(s), clock);
      && (r.outcome.Returned? <==> Acceptable(s, clock) && GivesTree(s))
      && (r.outcome.Threw? ==> r.contents == c)
      && (r.outcome.Returned? ==>
            && Found(r.contents.files, k) == LastFile(s.files, k)
            && Found(r.contents.dirs, k) ==
               if LastDir(s.dirs, k).Some? then LastDir(s.dirs, k)
               else if k == "" then Some(DirRecord(clock.At(""), WorkspacePath(""))) else None)
  {
    LoadsExactly(s, clock);
    DirsLoaded(s.dirs, map["" := DirRecord(clock.At(""), WorkspacePath(""))], k);
    FilesLoaded(s.files, map[], k);
  }

  /** The full path of a key. */
  lemma FullPaths(k: Path)
    ensures WorkspacePath(k) == if k == "" then "/workspace" else "/workspace/" + k
  {
    assert "/workspace" + "/" == "/workspace/";
  }
}
