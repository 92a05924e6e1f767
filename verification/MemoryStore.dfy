/** The workspace store as it runs: two maps that the methods update in place or rebuild in
    loops. Each method does what the function of the same name says, on the path as normalized. */
module MemoryStore {
  import opened Bytes
  import opened Paths
  import opened Names
  import opened StorePaths
  import opened Store
  import opened StoreRuns
  import opened StoreSnapshots

  // ----- Snapshots as texts -----

  datatype RawDirs = NoRawDir | RawDir(path: string, mtime: int, rest: RawDirs)

  datatype RawFiles = NoRawFile | RawFile(path: string, content: seq<Byte>, mtime: int, rest: RawFiles)

  datatype RawSnapshot = RawSnapshot(version: int, root: string, dirs: RawDirs, files: RawFiles)

  function DirsRead(es: RawDirs): DirEntries {
    if es.NoRawDir? then NoDir else DirEntry(Normalize(es.path), es.mtime, DirsRead(es.rest))
  }

  function FilesRead(es: RawFiles): FileEntries {
    if es.NoRawFile? then NoFile else FileEntry(Normalize(es.path), es.content, es.mtime, FilesRead(es.rest))
  }

  /** The snapshot as the loader sees it. */
  function SnapshotRead(s: RawSnapshot): Snapshot {
    Snapshot(s.version, s.root, DirsRead(s.dirs), FilesRead(s.files))
  }

  // ----- Loops over keys -----

  /** `m` without the keys at or below `k`, but for those in `todo`. */
  ghost predicate PartlyPruned<T>(m: map<Path, T>, before: map<Path, T>, k: Path, todo: set<Path>) {
    && (forall x :: x in m ==> x in before && m[x] == before[x])
    && (forall x :: x in before ==> (x in m <==> x in todo || !(x == k || IsChildPath(k, x))))
  }

  lemma PrunedDone<T>(m: map<Path, T>, before: map<Path, T>, k: Path)
    requires PartlyPruned(m, before, k, {})
    ensures m == map x | x in before && !(x == k || IsChildPath(k, x)) :: before[x]
  {
  }

  ghost predicate DirsPartlyMoved(moved: map<Path, DirRecord>, c: Contents, p: Path, q: Path, clock: Clock, todo: set<Path>)
    requires Vacant(c, q)
  {
    && (forall k' :: k' in moved ==> k' in MovedDirs(c, p, q, clock) && moved[k'] == MovedDirs(c, p, q, clock)[k'])
    && (forall k :: k in c.dirs && k !in todo ==> Moved(k, p, q) in moved)
  }

  lemma DirsMoveStep(moved: map<Path, DirRecord>, c: Contents, p: Path, q: Path, clock: Clock, todo: set<Path>, k: Path)
    requires Vacant(c, q) && k in todo && k in c.dirs && DirsPartlyMoved(moved, c, p, q, clock, todo)
    ensures DirsPartlyMoved(moved[Moved(k, p, q) := MovedDir(c.dirs[k], k, p, q, clock)], c, p, q, clock, todo - {k})
  {
    DirAt(c, p, q, clock, k);
  }

  lemma DirsMoved(moved: map<Path, DirRecord>, c: Contents, p: Path, q: Path, clock: Clock)
    requires Vacant(c, q) && DirsPartlyMoved(moved, c, p, q, clock, {})
    ensures moved == MovedDirs(c, p, q, clock)
  {
    forall k' | k' in MovedDirs(c, p, q, clock) ensures k' in moved {
      var k := DirFrom(c, p, q, clock, k');
    }
  }

  ghost predicate FilesPartlyMoved(moved: map<Path, FileRecord>, c: Contents, p: Path, q: Path, clock: Clock, todo: set<Path>)
    requires Vacant(c, q)
  {
    && (forall k' :: k' in moved ==> k' in MovedFiles(c, p, q, clock) && moved[k'] == MovedFiles(c, p, q, clock)[k'])
    && (forall k :: k in c.files && k !in todo ==> Moved(k, p, q) in moved)
  }

  lemma FilesMoveStep(moved: map<Path, FileRecord>, c: Contents, p: Path, q: Path, clock: Clock, todo: set<Path>, k: Path)
    requires Vacant(c, q) && k in todo && k in c.files && FilesPartlyMoved(moved, c, p, q, clock, todo)
    ensures FilesPartlyMoved(moved[Moved(k, p, q) := MovedFile(c.files[k], k, p, q, clock)], c, p, q, clock, todo - {k})
  {
    FileAt(c, p, q, clock, k);
  }

  lemma FilesMoved(moved: map<Path, FileRecord>, c: Contents, p: Path, q: Path, clock: Clock)
    requires Vacant(c, q) && FilesPartlyMoved(moved, c, p, q, clock, {})
    ensures moved == MovedFiles(c, p, q, clock)
  {
    forall k' | k' in MovedFiles(c, p, q, clock) ensures k' in moved {
      var k := FileFrom(c, p, q, clock, k');
    }
  }

  // ----- Walking down a path -----

  lemma {:induction false} SplitPlain(k: Path)
    requires Segmented(k)
    ensures PlainNames(Split(k))
    decreases |k|
  {
    if Nested(k) {
      SplitPlain(Parent(k));
    }
  }

  /** The path of the first `i + 1` names, and the one above it. */
  lemma Deeper(parts: seq<string>, i: nat)
    requires PlainNames(parts) && i < |parts|
    ensures var k := Join(parts[..i + 1]);
            if i == 0 then k == parts[0] && !Nested(k)
            else k == Join(parts[..i]) + "/" + parts[i] && Nested(k) && Parent(k) == Join(parts[..i]) && Join(parts[..i]) != ""
  {
    if i == 0 {
      assert parts[..1] == [parts[0]];
    } else {
      assert parts[..i + 1][..i] == parts[..i];
      AppendedName(Join(parts[..i]), parts[i]);
      JoinSegmented(parts[..i]);
    }
  }

  lemma JustAbove(parts: seq<string>, n: nat)
    requires PlainNames(parts) && 2 <= n <= |parts|
    ensures Nested(Join(parts[..n])) && Join(parts[..n - 1]) == Parent(Join(parts[..n]))
  {
    Deeper(parts, n - 1);
  }

  predicate AskMade(u: int, n: nat) {
    true
  }

  /** Making the directories down to `k`, `n` names deep, gives `t`. */
  ghost predicate Made(c: Contents, k: Path, clock: Clock, t: Turn, n: nat) {
    forall u {:trigger AskMade(u, n)} :: AskMade(u, n) ==> t == Store.EnsureDirectory(c, k, clock)
  }

  lemma MadeIs(c: Contents, k: Path, clock: Clock, t: Turn, n: nat)
    requires Made(c, k, clock, t, n)
    ensures t == Store.EnsureDirectory(c, k, clock)
  {
    assert AskMade(0, n);
  }

  lemma MadeOne(c: Contents, k: Path, above: Path, clock: Clock, before: Contents, t: Turn, n: nat)
    requires if n == 0 then !Nested(k) && before == c
             else Nested(k) && Parent(k) == above && Made(c, above, clock, Turn(before, Returned), n)
    requires t == Store.EnsureOne(before, k, clock)
    ensures Made(c, k, clock, t, n + 1)
  {
    assert AskMade(0, n);
  }

  /** Once making a directory threw, so does making any below it. */
  lemma {:induction false} TopDownThrows(c: Contents, parts: seq<string>, i: nat, n: nat, clock: Clock, t: Turn)
    requires PlainNames(parts) && i < n <= |parts| && t.outcome.Threw?
    requires Made(c, Join(parts[..i + 1]), clock, t, i + 1)
    ensures Made(c, Join(parts[..n]), clock, t, n)
    decreases n
  {
    if n > i + 1 {
      TopDownThrows(c, parts, i, n - 1, clock, t);
      JustAbove(parts, n);
      BelowThrows(c, Join(parts[..n]), Join(parts[..n - 1]), clock, t, n - 1);
    }
  }

  lemma BelowThrows(c: Contents, k: Path, above: Path, clock: Clock, t: Turn, n: nat)
    requires Nested(k) && above == Parent(k) && Made(c, above, clock, t, n) && t.outcome.Threw?
    ensures Made(c, k, clock, t, n + 1)
  {
    assert AskMade(0, n);
  }

  // ----- Exporting -----

  lemma ReadsItself(k: Path, path: string)
    requires PathOf(path, k)
    ensures ReadsAs(k, Normalize(path))
  {
  }

  /** The entries so far list every directory but those in `todo`, and nothing else. */
  ghost predicate DirsPartlyListed(es: RawDirs, dirs: map<Path, DirRecord>, todo: set<Path>) {
    DirsOnly(DirsRead(es), dirs) && forall k :: k in dirs && k !in todo ==> DirListed(DirsRead(es), dirs, k)
  }

  ghost predicate FilesPartlyListed(es: RawFiles, files: map<Path, FileRecord>, todo: set<Path>) {
    FilesOnly(FilesRead(es), files) && forall k :: k in files && k !in todo ==> FileListed(FilesRead(es), files, k)
  }

  lemma ListDir(es: RawDirs, dirs: map<Path, DirRecord>, todo: set<Path>, k: Path)
    requires DirsPartlyListed(es, dirs, todo) && k in todo && k in dirs && PathOf(dirs[k].path, k)
    ensures DirsPartlyListed(RawDir(dirs[k].path, dirs[k].mtime, es), dirs, todo - {k})
  {
    ReadsItself(k, dirs[k].path);
    ListedMore(DirEntry(Normalize(dirs[k].path), dirs[k].mtime, DirsRead(es)), dirs, k, todo);
  }

  lemma ListedMore(es: DirEntries, dirs: map<Path, DirRecord>, k: Path, todo: set<Path>)
    requires es.DirEntry? && k in dirs && ReadsAs(k, es.at) && es.mtime == dirs[k].mtime && DirsOnly(es.rest, dirs)
    requires forall l :: l in dirs && l !in todo ==> DirListed(es.rest, dirs, l)
    ensures DirsOnly(es, dirs) && forall l :: l in dirs && l !in todo - {k} ==> DirListed(es, dirs, l)
  {
  }

  lemma ListFile(es: RawFiles, files: map<Path, FileRecord>, todo: set<Path>, k: Path)
    requires FilesPartlyListed(es, files, todo) && k in todo && k in files && PathOf(files[k].path, k)
    ensures FilesPartlyListed(RawFile(files[k].path, files[k].content, files[k].mtime, es), files, todo - {k})
  {
    ReadsItself(k, files[k].path);
    FileListedMore(FileEntry(Normalize(files[k].path), files[k].content, files[k].mtime, FilesRead(es)), files, k, todo);
  }

  lemma FileListedMore(es: FileEntries, files: map<Path, FileRecord>, k: Path, todo: set<Path>)
    requires es.FileEntry? && k in files && ReadsAs(k, es.at) && es.mtime == files[k].mtime && es.content == files[k].content
    requires FilesOnly(es.rest, files) && forall l :: l in files && l !in todo ==> FileListed(es.rest, files, l)
    ensures FilesOnly(es, files) && forall l :: l in files && l !in todo - {k} ==> FileListed(es, files, l)
  {
  }

  lemma ExportsWhole(dirs: RawDirs, files: RawFiles, c: Contents)
    requires DirsPartlyListed(dirs, c.dirs, {}) && FilesPartlyListed(files, c.files, {})
    ensures Exports(SnapshotRead(RawSnapshot(1, MOUNT, dirs, files)), c)
  {
  }

  // ----- Loading -----

  lemma LoadDirStep(es: RawDirs, acc: map<Path, DirRecord>, n: Option<Path>)
    requires es.RawDir? && n == Normalize(es.path)
    ensures LoadDirs(DirsRead(es), acc) ==
            if n.None? then Refused(InvalidPath)
            else if !ValidTime(es.mtime) then Refused(InvalidSnapshot)
            else LoadDirs(DirsRead(es.rest), acc[n.value := DirRecord(es.mtime, WorkspacePath(n.value))])
  {
    DirHead(es, n);
    LoadDirHead(n, es.mtime, DirsRead(es.rest), acc);
  }

  lemma DirHead(es: RawDirs, n: Option<Path>)
    requires es.RawDir? && n == Normalize(es.path)
    ensures DirsRead(es) == DirEntry(n, es.mtime, DirsRead(es.rest))
  {
  }

  lemma LoadDirHead(n: Option<Path>, mtime: int, rest: DirEntries, acc: map<Path, DirRecord>)
    ensures LoadDirs(DirEntry(n, mtime, rest), acc) ==
            if n.None? then Refused(InvalidPath)
            else if !ValidTime(mtime) then Refused(InvalidSnapshot)
            else LoadDirs(rest, acc[n.value := DirRecord(mtime, WorkspacePath(n.value))])
  {
  }

  lemma LoadFileStep(es: RawFiles, acc: map<Path, FileRecord>, n: Option<Path>)
    requires es.RawFile? && n == Normalize(es.path)
    ensures LoadFiles(FilesRead(es), acc) ==
            if n.None? then Refused(InvalidPath)
            else if n.value == "" || !ValidTime(es.mtime) then Refused(InvalidSnapshot)
            else LoadFiles(FilesRead(es.rest), acc[n.value := FileRecord(es.content, es.mtime, WorkspacePath(n.value))])
  {
    FileHead(es, n);
    LoadFileHead(n, es.content, es.mtime, FilesRead(es.rest), acc);
  }

  lemma FileHead(es: RawFiles, n: Option<Path>)
    requires es.RawFile? && n == Normalize(es.path)
    ensures FilesRead(es) == FileEntry(n, es.content, es.mtime, FilesRead(es.rest))
  {
  }

  lemma LoadFileHead(n: Option<Path>, content: seq<Byte>, mtime: int, rest: FileEntries, acc: map<Path, FileRecord>)
    ensures LoadFiles(FileEntry(n, content, mtime, rest), acc) ==
            if n.None? then Refused(InvalidPath)
            else if n.value == "" || !ValidTime(mtime) then Refused(InvalidSnapshot)
            else LoadFiles(rest, acc[n.value := FileRecord(content, mtime, WorkspacePath(n.value))])
  {
  }

  class MemoryStore {
    var directories: map<Path, DirRecord>
    var files: map<Path, FileRecord>

    function Now(): Contents
      reads this
    {
      Contents(directories, files)
    }

    constructor (now: int)
      ensures Now() == Fresh(now)
    {
      directories, files := map["" := DirRecord(now, MOUNT)], map[];
    }

    method WriteFile(n: Option<Path>, content: seq<Byte>, clock: Clock) returns (outcome: Outcome)
      modifies this
      ensures Turn(Now(), outcome) == Store.WriteFile(old(Now()), n, content, clock)
    {
      if n.None? || n.value == "" {
        return Threw(InvalidPath);
      }
      if n.value in directories {
        return Threw(NotFile);
      }
      var problem := ParentProblem(Now(), n.value);
      if problem.Some? {
        return Threw(problem.value);
      }
      if !ValidTime(clock.At(n.value)) {
        return Threw(InvalidSnapshot);
      }
      files := files[n.value := FileRecord(content, clock.At(n.value), WorkspacePath(n.value))];
      outcome := Returned;
    }

    method DeleteFile(n: Option<Path>) returns (outcome: Outcome)
      modifies this
      ensures Turn(Now(), outcome) == Store.DeleteFile(old(Now()), n)
    {
      if n.None? {
        return Threw(InvalidPath);
      }
      if n.value !in files {
        return Threw(if n.value in directories then NotFile else NotFound);
      }
      files := files - {n.value};
      outcome := Returned;
    }

    method EnsureOne(k: Path, clock: Clock) returns (outcome: Outcome)
      modifies this
      ensures Turn(Now(), outcome) == Store.EnsureOne(old(Now()), k, clock)
    {
      if k in files {
        return Threw(NotDirectory);
      }
      if k !in directories {
        if !ValidTime(clock.At(k)) {
          return Threw(InvalidSnapshot);
        }
        directories := directories[k := DirRecord(clock.At(k), WorkspacePath(k))];
      }
      outcome := Returned;
    }

    /** Makes the missing directories of `k` from the top down. */
    method EnsureDirectory(k: Path, clock: Clock) returns (outcome: Outcome)
      requires Segmented(k)
      modifies this
      ensures Turn(Now(), outcome) == Store.EnsureDirectory(old(Now()), k, clock)
    {
      var parts := Split(k);
      SplitPlain(k);
      SplitJoins(k);
      var current := "";
      ghost var c := Now();
      for i := 0 to |parts|
        invariant current == Join(parts[..i])
        invariant i == 0 ==> Now() == c
        invariant i > 0 ==> Made(c, current, clock, Turn(Now(), Returned), i)
      {
        Deeper(parts, i);
        ghost var above, before := current, Now();
        current := if current != "" then current + "/" + parts[i] else parts[i];
        outcome := EnsureOne(current, clock);
        MadeOne(c, current, above, clock, before, Turn(Now(), outcome), i);
        if outcome.Threw? {
          TopDownThrows(c, parts, i, |parts|, clock, Turn(Now(), outcome));
          assert parts[..|parts|] == parts;
          MadeIs(c, k, clock, Turn(Now(), outcome), |parts|);
          return;
        }
      }
      assert parts[..|parts|] == parts;
      outcome := Returned;
      MadeIs(c, k, clock, Turn(Now(), outcome), |parts|);
    }

    method CreateDirectory(n: Option<Path>, recursive: bool, clock: Clock) returns (outcome: Outcome)
      requires n.Some? ==> IsKey(n.value)
      modifies this
      ensures Turn(Now(), outcome) == Store.CreateDirectory(old(Now()), n, recursive, clock)
    {
      if n.None? {
        return Threw(InvalidPath);
      }
      if n.value == "" {
        return Returned;
      }
      if n.value in files {
        return Threw(NotDirectory);
      }
      if recursive {
        assert Segmented(n.value) by { assert AskKey(0); }
        outcome := EnsureDirectory(n.value, clock);
        return;
      }
      var problem := ParentProblem(Now(), n.value);
      if problem.Some? {
        return Threw(problem.value);
      }
      if n.value in directories {
        return Threw(AlreadyExists);
      }
      if !ValidTime(clock.At(n.value)) {
        return Threw(InvalidSnapshot);
      }
      directories := directories[n.value := DirRecord(clock.At(n.value), WorkspacePath(n.value))];
      outcome := Returned;
    }

    method DeleteDirectoryTree(k: Path)
      modifies this
      ensures Now() == WithoutTree(old(Now()), k)
    {
      var todo := files.Keys;
      while todo != {}
        invariant directories == old(directories)
        invariant todo <= old(files).Keys && PartlyPruned(files, old(files), k, todo)
        decreases todo
      {
        var f :| f in todo;
        if f == k || IsChildPath(k, f) {
          files := files - {f};
        }
        todo := todo - {f};
      }
      PrunedDone(files, old(files), k);
      todo := directories.Keys;
      ghost var left := files;
      while todo != {}
        invariant files == left
        invariant todo <= old(directories).Keys && PartlyPruned(directories, old(directories), k, todo)
        decreases todo
      {
        var d :| d in todo;
        if d == k || IsChildPath(k, d) {
          directories := directories - {d};
        }
        todo := todo - {d};
      }
      PrunedDone(directories, old(directories), k);
    }

    method DeleteDirectory(n: Option<Path>, recursive: bool) returns (outcome: Outcome)
      modifies this
      ensures Turn(Now(), outcome) == Store.DeleteDirectory(old(Now()), n, recursive)
    {
      if n.None? || n.value == "" {
        return Threw(InvalidPath);
      }
      if n.value !in directories {
        return Threw(NotFound);
      }
      if !recursive && HasChildren(Now(), n.value) {
        return Threw(NotEmpty);
      }
      DeleteDirectoryTree(n.value);
      outcome := Returned;
    }

    /** Builds the moved maps beside the old ones, then takes them over. */
    method RenameDirectory(p: Path, q: Path, clock: Clock) returns (outcome: Outcome)
      requires Vacant(Now(), q) && p != q
      modifies this
      ensures Turn(Now(), outcome) == Store.RenameDirectory(old(Now()), p, q, clock)
    {
      if Under(p, q) {
        return Threw(InvalidPath);
      }
      var movedDirectories, timed := MoveDirectories(p, q, clock);
      if !timed {
        return Threw(InvalidSnapshot);
      }
      var movedFiles;
      movedFiles, timed := MoveFiles(p, q, clock);
      if !timed {
        return Threw(InvalidSnapshot);
      }
      directories := movedDirectories;
      files := movedFiles;
      outcome := Returned;
    }

    /** `timed` is false when the clock is wrong for some directory, at which the loop throws. */
    method MoveDirectories(p: Path, q: Path, clock: Clock) returns (moved: map<Path, DirRecord>, timed: bool)
      requires Vacant(Now(), q)
      ensures timed <==> forall d :: d in directories && AtOrUnder(p, d) ==> ValidTime(clock.At(Rebase(d, p, q)))
      ensures timed ==> moved == MovedDirs(Now(), p, q, clock)
    {
      moved := map[];
      var todo := directories.Keys;
      while todo != {}
        invariant todo <= directories.Keys && DirsPartlyMoved(moved, Now(), p, q, clock, todo)
        invariant forall d :: d in directories && d !in todo && AtOrUnder(p, d) ==> ValidTime(clock.At(Rebase(d, p, q)))
        decreases todo
      {
        var d :| d in todo;
        DirsMoveStep(moved, Now(), p, q, clock, todo, d);
        if AtOrUnder(p, d) {
          if !ValidTime(clock.At(Rebase(d, p, q))) {
            return moved, false;
          }
          moved := moved[Rebase(d, p, q) := DirRecord(clock.At(Rebase(d, p, q)), WorkspacePath(Rebase(d, p, q)))];
        } else {
          moved := moved[d := directories[d]];
        }
        todo := todo - {d};
      }
      DirsMoved(moved, Now(), p, q, clock);
      timed := true;
    }

    method MoveFiles(p: Path, q: Path, clock: Clock) returns (moved: map<Path, FileRecord>, timed: bool)
      requires Vacant(Now(), q)
      ensures timed <==> forall f :: f in files && AtOrUnder(p, f) ==> ValidTime(clock.At(Rebase(f, p, q)))
      ensures timed ==> moved == MovedFiles(Now(), p, q, clock)
    {
      moved := map[];
      var todo := files.Keys;
      while todo != {}
        invariant todo <= files.Keys && FilesPartlyMoved(moved, Now(), p, q, clock, todo)
        invariant forall f :: f in files && f !in todo && AtOrUnder(p, f) ==> ValidTime(clock.At(Rebase(f, p, q)))
        decreases todo
      {
        var f :| f in todo;
        FilesMoveStep(moved, Now(), p, q, clock, todo, f);
        if AtOrUnder(p, f) {
          if !ValidTime(clock.At(Rebase(f, p, q))) {
            return moved, false;
          }
          moved := moved[Rebase(f, p, q) := FileRecord(files[f].content, clock.At(Rebase(f, p, q)), WorkspacePath(Rebase(f, p, q)))];
        } else {
          moved := moved[f := files[f]];
        }
        todo := todo - {f};
      }
      FilesMoved(moved, Now(), p, q, clock);
      timed := true;
    }

    method Rename(n: Option<Path>, m: Option<Path>, clock: Clock) returns (outcome: Outcome)
      requires Tree(Now())
      modifies this
      ensures Turn(Now(), outcome) == Store.Rename(old(Now()), n, m, clock)
    {
      if n.None? || m.None? || n.value == "" || m.value == "" {
        return Threw(InvalidPath);
      }
      var p, q := n.value, m.value;
      var problem := ParentProblem(Now(), q);
      if problem.Some? {
        return Threw(problem.value);
      }
      if q in files || q in directories {
        return Threw(AlreadyExists);
      }
      if p in files {
        var record := files[p];
        files := files - {p};
        if !ValidTime(clock.At(q)) {
          return Threw(InvalidSnapshot);
        }
        files := files[q := record.(mtime := clock.At(q), path := WorkspacePath(q))];
        return Returned;
      }
      if p in directories {
        FreshIsVacant(Now(), q);
        outcome := RenameDirectory(p, q, clock);
        return;
      }
      outcome := Threw(NotFound);
    }

    /** Lists the records; the order they are sorted into plays no part. */
    method ExportSnapshot() returns (s: RawSnapshot)
      requires Records(Now())
      ensures Exports(SnapshotRead(s), Now())
    {
      var dirs := ListDirectories();
      var entries := ListFiles();
      s := RawSnapshot(1, MOUNT, dirs, entries);
      ExportsWhole(dirs, entries, Now());
    }

    method ListDirectories() returns (es: RawDirs)
      requires Records(Now())
      ensures DirsPartlyListed(es, directories, {})
    {
      es := NoRawDir;
      var todo := directories.Keys;
      while todo != {}
        invariant todo <= directories.Keys && DirsPartlyListed(es, directories, todo)
        decreases todo
      {
        var k :| k in todo;
        assert DirOk(k, directories[k]);
        ListDir(es, directories, todo, k);
        es := RawDir(directories[k].path, directories[k].mtime, es);
        todo := todo - {k};
      }
    }

    method ListFiles() returns (es: RawFiles)
      requires Records(Now())
      ensures FilesPartlyListed(es, files, {})
    {
      es := NoRawFile;
      var todo := files.Keys;
      while todo != {}
        invariant todo <= files.Keys && FilesPartlyListed(es, files, todo)
        decreases todo
      {
        var k :| k in todo;
        assert FileOk(k, files[k]);
        ListFile(es, files, todo, k);
        es := RawFile(files[k].path, files[k].content, files[k].mtime, es);
        todo := todo - {k};
      }
    }

    static method LoadDirectories(es: RawDirs, now: int) returns (r: Load<map<Path, DirRecord>>)
      ensures r == LoadDirs(DirsRead(es), OnlyRoot(now))
    {
      var next := OnlyRoot(now);
      var todo := es;
      while todo.RawDir?
        invariant LoadDirs(DirsRead(todo), next) == LoadDirs(DirsRead(es), OnlyRoot(now))
        decreases todo
      {
        var n := NormalizeWorkspacePath(todo.path);
        LoadDirStep(todo, next, n);
        if n.None? {
          return Refused(InvalidPath);
        }
        if !ValidTime(todo.mtime) {
          return Refused(InvalidSnapshot);
        }
        next := next[n.value := DirRecord(todo.mtime, WorkspacePath(n.value))];
        todo := todo.rest;
      }
      r := Loaded(next);
    }

    static method LoadFileEntries(es: RawFiles) returns (r: Load<map<Path, FileRecord>>)
      ensures r == LoadFiles(FilesRead(es), map[])
    {
      var next: map<Path, FileRecord> := map[];
      var todo := es;
      while todo.RawFile?
        invariant LoadFiles(FilesRead(todo), next) == LoadFiles(FilesRead(es), map[])
        decreases todo
      {
        var n := NormalizeWorkspacePath(todo.path);
        LoadFileStep(todo, next, n);
        if n.None? {
          return Refused(InvalidPath);
        }
        if n.value == "" || !ValidTime(todo.mtime) {
          return Refused(InvalidSnapshot);
        }
        next := next[n.value := FileRecord(todo.content, todo.mtime, WorkspacePath(n.value))];
        todo := todo.rest;
      }
      r := Loaded(next);
    }

    /** Loads beside the store, checks the graph, and only then takes the new maps over. */
    method ImportSnapshot(s: RawSnapshot, clock: Clock) returns (outcome: Outcome)
      modifies this
      ensures Turn(Now(), outcome) == Store.ImportSnapshot(old(Now()), SnapshotRead(s), clock)
    {
      var now := clock.At("");
      if !ValidTime(now) || s.version != 1 || s.root != MOUNT {
        return Threw(InvalidSnapshot);
      }
      var nextDirectories := LoadDirectories(s.dirs, now);
      if nextDirectories.Refused? {
        return Threw(nextDirectories.error);
      }
      var nextFiles := LoadFileEntries(s.files);
      if nextFiles.Refused? {
        return Threw(nextFiles.error);
      }
      if !Graph(nextDirectories.value.Keys, nextFiles.value.Keys) {
        return Threw(InvalidSnapshot);
      }
      directories := nextDirectories.value;
      files := nextFiles.value;
      outcome := Returned;
    }
  }
}
