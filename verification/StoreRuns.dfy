/** What every sequence of store calls keeps, what a call that throws leaves behind, and what a
    directory rename and a snapshot round trip do. */
module StoreRuns {
  import opened Bytes
  import opened Paths
  import opened Names
  import opened StorePaths
  import opened Store

  // ----- Recursive creation -----

  lemma EnsureOneTree(c: Contents, k: Path, clock: Clock)
    requires Tree(c) && Parent(k) in c.dirs
    ensures Tree(EnsureOne(c, k, clock).contents)
  {
  }

  lemma {:induction false} EnsureTree(c: Contents, k: Path, clock: Clock)
    requires Tree(c)
    ensures var r := EnsureDirectory(c, k, clock);
            Tree(r.contents) && r.contents.files == c.files && (r.outcome.Returned? ==> k in r.contents.dirs)
    decreases |k|
  {
    if Nested(k) {
      EnsureTree(c, Parent(k), clock);
      var above := EnsureDirectory(c, Parent(k), clock);
      if above.outcome.Returned? {
        EnsureOneTree(above.contents, k, clock);
      }
    } else {
      EnsureOneTree(c, k, clock);
    }
  }

  /** Recursive creation adds only missing directories on the way, and changes no record. */
  lemma {:induction false} EnsureAdds(c: Contents, k: Path, clock: Clock, d: Path)
    ensures var dirs := EnsureDirectory(c, k, clock).contents.dirs;
            && (d in c.dirs ==> d in dirs && dirs[d] == c.dirs[d])
            && (d in dirs ==> d in c.dirs || (AtOrUnder(d, k) && dirs[d] == DirRecord(clock.At(d), WorkspacePath(d)) && ValidTime(clock.At(d))))
    decreases |k|
  {
    if Nested(k) {
      EnsureAdds(c, Parent(k), clock, d);
      if d in EnsureDirectory(c, Parent(k), clock).contents.dirs && d !in c.dirs {
        AboveParent(d, k);
      }
    }
  }

  lemma {:induction false} EnsureExisting(c: Contents, k: Path, clock: Clock)
    requires Tree(c) && k in c.dirs
    ensures EnsureDirectory(c, k, clock) == Turn(c, Returned)
    decreases |k|
  {
    if Nested(k) {
      EnsureExisting(c, Parent(k), clock);
    }
  }

  lemma {:induction false} EnsureFiles(c: Contents, k: Path, clock: Clock)
    ensures EnsureDirectory(c, k, clock).contents.files == c.files
    decreases |k|
  {
    if Nested(k) {
      EnsureFiles(c, Parent(k), clock);
    }
  }

  /** If nothing on the way is a file and the clock is right for all that is missing, recursive
      creation returns. */
  lemma {:induction false} EnsureReturns(c: Contents, k: Path, clock: Clock)
    requires forall d :: AtOrUnder(d, k) && d !in c.dirs ==> d !in c.files && ValidTime(clock.At(d))
    requires Graph(c.dirs.Keys, c.files.Keys)
    ensures EnsureDirectory(c, k, clock).outcome.Returned?
    decreases |k|
  {
    EnsureFiles(c, k, clock);
    if Nested(k) {
      forall d | AtOrUnder(d, Parent(k)) ensures AtOrUnder(d, k) {
        AboveParent(d, k);
      }
      EnsureReturns(c, Parent(k), clock);
      EnsureFiles(c, Parent(k), clock);
      EnsureAdds(c, Parent(k), clock, k);
    }
  }

  /** The topmost directory that is missing on the way to `k`. */
  lemma {:induction false} FirstMissing(c: Contents, k: Path) returns (t: Path)
    requires Tree(c) && k !in c.dirs
    ensures AtOrUnder(t, k) && t !in c.dirs && Parent(t) in c.dirs
    decreases |k|
  {
    if Nested(k) && Parent(k) !in c.dirs {
      t := FirstMissing(c, Parent(k));
      AboveParent(t, k);
    } else {
      t := k;
    }
  }

  /** Everything above a directory is a directory. */
  lemma {:induction false} DirsAbove(c: Contents, d: Path, k: Path)
    requires Tree(c) && k in c.dirs && AtOrUnder(d, k)
    ensures d in c.dirs
    decreases |k|
  {
    if d != k {
      UnderParent(d, k);
      DirsAbove(c, d, Parent(k));
    }
  }

  /** Of two paths at or above a third, one is at or above the other. */
  lemma OneWay(d: Path, t: Path, k: Path)
    requires AtOrUnder(d, k) && AtOrUnder(t, k)
    ensures AtOrUnder(t, d) || Under(d, t)
  {
    if |t| <= |d| {
      assert d[..|t|] == k[..|d|][..|t|] == k[..|t|] == t;
    } else {
      assert t[..|d|] == k[..|t|][..|d|] == k[..|d|] == d;
    }
  }

  /** Making the directories down to `k` stops midway: the first that is missing can be made, and
      for a later one the clock is wrong. */
  ghost predicate StopsMidway(c: Contents, k: Path, clock: Clock) {
    exists t, d :: StopsBetween(c, t, d, k, clock)
  }

  ghost predicate StopsBetween(c: Contents, t: Path, d: Path, k: Path, clock: Clock) {
    && Parent(t) in c.dirs && t !in c.dirs && t !in c.files && ValidTime(clock.At(t))
    && Under(t, d) && AtOrUnder(d, k) && !ValidTime(clock.At(d))
  }

  /** From a first missing directory that can be made, only the clock can stop the creation. */
  lemma OnlyTheClock(c: Contents, t: Path, k: Path, clock: Clock) returns (d: Path)
    requires Tree(c) && AtOrUnder(t, k) && t !in c.dirs && t !in c.files && Parent(t) in c.dirs && ValidTime(clock.At(t))
    requires EnsureDirectory(c, k, clock).outcome.Threw?
    ensures Under(t, d) && AtOrUnder(d, k) && !ValidTime(clock.At(d))
  {
    if forall d :: AtOrUnder(d, k) && d !in c.dirs ==> d !in c.files && ValidTime(clock.At(d)) {
      EnsureReturns(c, k, clock);
      assert false;
    }
    d :| AtOrUnder(d, k) && d !in c.dirs && !(d !in c.files && ValidTime(clock.At(d)));
    OneWay(d, t, k);
    if Under(d, t) {
      UnderParent(d, t);
      DirsAbove(c, d, Parent(t));
      assert false;
    }
    if d in c.files {
      NothingBelow(c, t, d);
    }
  }

  /** Recursive creation that throws changed nothing, if and only if it did not stop midway: had
      it made a directory, nothing but the clock could be in the way below. */
  lemma {:induction false} EnsureAtomic(c: Contents, k: Path, clock: Clock)
    requires Tree(c) && EnsureDirectory(c, k, clock).outcome.Threw?
    ensures EnsureDirectory(c, k, clock).contents == c <==> !StopsMidway(c, k, clock)
    decreases |k|
  {
    if k in c.dirs {
      EnsureExisting(c, k, clock);
    } else if !Nested(k) || Parent(k) in c.dirs {
      StopsAtOnce(c, k, clock);
    } else {
      var above := EnsureDirectory(c, Parent(k), clock);
      if above.outcome.Threw? {
        EnsureAtomic(c, Parent(k), clock);
        StopsAbove(c, k, clock);
      } else {
        StopsHere(c, k, clock);
      }
    }
  }

  /** Only the last directory is missing: nothing is made before the throw. */
  lemma StopsAtOnce(c: Contents, k: Path, clock: Clock)
    requires Tree(c) && k !in c.dirs && (!Nested(k) || Parent(k) in c.dirs) && EnsureDirectory(c, k, clock).outcome.Threw?
    ensures EnsureDirectory(c, k, clock).contents == c && !StopsMidway(c, k, clock)
  {
    if Nested(k) {
      EnsureExisting(c, Parent(k), clock);
    }
    if StopsMidway(c, k, clock) {
      var t, d :| StopsBetween(c, t, d, k, clock);
      UnderAbove(t, d, k);
      UnderParent(t, k);
      DirsAbove(c, t, Parent(k));
    }
  }

  lemma UnderAbove(t: Path, d: Path, k: Path)
    requires Under(t, d) && AtOrUnder(d, k)
    ensures Under(t, k)
  {
    if d != k {
      UnderTrans(t, d, k);
    }
  }

  /** The throw comes from above: the reason is there too. */
  lemma StopsAbove(c: Contents, k: Path, clock: Clock)
    requires Tree(c) && Nested(k) && EnsureDirectory(c, Parent(k), clock).outcome.Threw?
    ensures StopsMidway(c, k, clock) <==> StopsMidway(c, Parent(k), clock)
  {
    if StopsMidway(c, k, clock) {
      var t, d :| StopsBetween(c, t, d, k, clock);
      UnderAbove(t, d, k);
      UnderParent(t, k);
      var e := OnlyTheClock(c, t, Parent(k), clock);
      assert StopsBetween(c, t, e, Parent(k), clock);
    }
    if StopsMidway(c, Parent(k), clock) {
      var t, d :| StopsBetween(c, t, d, Parent(k), clock);
      AboveParent(d, k);
      assert StopsBetween(c, t, d, k, clock);
    }
  }

  /** The directories above were made, then the clock was wrong. */
  lemma StopsHere(c: Contents, k: Path, clock: Clock)
    requires Tree(c) && k !in c.dirs && Nested(k) && Parent(k) !in c.dirs
    requires EnsureDirectory(c, Parent(k), clock).outcome.Returned? && EnsureDirectory(c, k, clock).outcome.Threw?
    ensures EnsureDirectory(c, k, clock).contents != c && StopsMidway(c, k, clock)
  {
    EnsureTree(c, Parent(k), clock);
    assert Parent(k) in EnsureDirectory(c, k, clock).contents.dirs;
    var t := FirstMissing(c, Parent(k));
    AboveParent(t, k);
    EnsureMade(c, t, Parent(k), clock);
    var d := OnlyTheClock(c, t, k, clock);
    assert StopsBetween(c, t, d, k, clock);
  }

  /** A missing directory on the way to one that was made was made itself. */
  lemma EnsureMade(c: Contents, t: Path, k: Path, clock: Clock)
    requires Tree(c) && EnsureDirectory(c, k, clock).outcome.Returned? && AtOrUnder(t, k) && t !in c.dirs
    ensures t !in c.files && ValidTime(clock.At(t))
  {
    var c' := EnsureDirectory(c, k, clock).contents;
    EnsureTree(c, k, clock);
    DirsAbove(c', t, k);
    EnsureAdds(c, k, clock, t);
  }

  // ----- Recursive deletion -----

  lemma SurvivorParent(c: Contents, k: Path, l: Path)
    requires Tree(c) && k != "" && l != "" && (l in c.dirs || l in c.files) && !(l == k || IsChildPath(k, l))
    ensures Parent(l) in WithoutTree(c, k).dirs
  {
    if AtOrUnder(k, Parent(l)) {
      if Nested(l) {
        AboveParent(k, l);
      }
    }
  }

  lemma WithoutTreeTree(c: Contents, k: Path)
    requires Tree(c) && k != ""
    ensures Tree(WithoutTree(c, k))
  {
    var c' := WithoutTree(c, k);
    forall f | f in c'.files ensures f !in c'.dirs && Parent(f) in c'.dirs {
      SurvivorParent(c, k, f);
    }
    forall d | d in c'.dirs && d != "" ensures Parent(d) in c'.dirs {
      SurvivorParent(c, k, d);
    }
  }

  // ----- Rename -----

  lemma DirFrom(c: Contents, p: Path, q: Path, clock: Clock, k': Path) returns (k: Path)
    requires Vacant(c, q) && k' in MovedDirs(c, p, q, clock)
    ensures k in c.dirs && Moved(k, p, q) == k' && MovedDirs(c, p, q, clock)[k'] == MovedDir(c.dirs[k], k, p, q, clock)
  {
    k :| k in c.dirs && Moved(k, p, q) == k' && MovedDirs(c, p, q, clock)[k'] == MovedDir(c.dirs[k], k, p, q, clock);
  }

  lemma FileFrom(c: Contents, p: Path, q: Path, clock: Clock, k': Path) returns (k: Path)
    requires Vacant(c, q) && k' in MovedFiles(c, p, q, clock)
    ensures k in c.files && Moved(k, p, q) == k' && MovedFiles(c, p, q, clock)[k'] == MovedFile(c.files[k], k, p, q, clock)
  {
    k :| k in c.files && Moved(k, p, q) == k' && MovedFiles(c, p, q, clock)[k'] == MovedFile(c.files[k], k, p, q, clock);
  }

  lemma DirAt(c: Contents, p: Path, q: Path, clock: Clock, k: Path)
    requires Vacant(c, q) && k in c.dirs
    ensures var k' := Moved(k, p, q);
            k' in MovedDirs(c, p, q, clock) && MovedDirs(c, p, q, clock)[k'] == MovedDir(c.dirs[k], k, p, q, clock)
  {
    var l := DirFrom(c, p, q, clock, Moved(k, p, q));
    MovedApart(c, p, q, k, l);
  }

  lemma FileAt(c: Contents, p: Path, q: Path, clock: Clock, k: Path)
    requires Vacant(c, q) && k in c.files
    ensures var k' := Moved(k, p, q);
            k' in MovedFiles(c, p, q, clock) && MovedFiles(c, p, q, clock)[k'] == MovedFile(c.files[k], k, p, q, clock)
  {
    var l := FileFrom(c, p, q, clock, Moved(k, p, q));
    MovedApart(c, p, q, k, l);
  }

  /** What the checks before a directory rename establish. */
  ghost predicate CanMove(c: Contents, p: Path, q: Path) {
    p in c.dirs && p != "" && q != "" && Vacant(c, q) && !Under(p, q) && Parent(q) in c.dirs
  }

  /** The parent of a moved path is there after the move. */
  lemma MovedParent(c: Contents, p: Path, q: Path, clock: Clock, k: Path)
    requires Tree(c) && CanMove(c, p, q) && k != "" && (k in c.dirs || k in c.files)
    ensures Parent(Moved(k, p, q)) in MovedDirs(c, p, q, clock)
  {
    if Under(p, k) {
      RebaseParent(k, p, q);
      DirAt(c, p, q, clock, Parent(k));
    } else if k == p {
      StayingParent(p, q);
      DirAt(c, p, q, clock, Parent(q));
    } else {
      StayingParent(p, k);
      DirAt(c, p, q, clock, Parent(k));
    }
  }

  lemma MovedGraph(c: Contents, p: Path, q: Path, clock: Clock)
    requires Tree(c) && CanMove(c, p, q)
    ensures Graph(MovedDirs(c, p, q, clock).Keys, MovedFiles(c, p, q, clock).Keys)
  {
    var dirs, files := MovedDirs(c, p, q, clock), MovedFiles(c, p, q, clock);
    DirAt(c, p, q, clock, "");
    forall f' | f' in files ensures f' !in dirs && Parent(f') in dirs {
      var f := FileFrom(c, p, q, clock, f');
      MovedParent(c, p, q, clock, f);
      if f' in dirs {
        var d := DirFrom(c, p, q, clock, f');
        MovedApart(c, p, q, f, d);
      }
    }
    forall d' | d' in dirs && d' != "" ensures Parent(d') in dirs {
      var d := DirFrom(c, p, q, clock, d');
      MovedParent(c, p, q, clock, d);
    }
  }

  lemma RenameTree(c: Contents, n: Option<Path>, m: Option<Path>, clock: Clock)
    requires Tree(c)
    ensures Tree(Rename(c, n, m, clock).contents)
  {
    if n.Some? && m.Some? && n.value != "" && m.value != "" {
      var p, q := n.value, m.value;
      if p in c.dirs && p !in c.files && ParentProblem(c, q).None? && q !in c.files && q !in c.dirs && !Under(p, q) {
        FreshIsVacant(c, q);
        MovedGraph(c, p, q, clock);
      }
    }
  }

  // ----- Every call keeps the tree -----

  lemma StepTree(c: Contents, call: Call, clock: Clock)
    requires Tree(c)
    ensures Tree(Step(c, call, clock).contents)
  {
    match call {
      case DoWriteFile(n, content) =>
      case DoDeleteFile(n) =>
      case DoCreateDirectory(n, recursive) => if n.Some? { EnsureTree(c, n.value, clock); }
      case DoDeleteDirectory(n, recursive) => if n.Some? && n.value != "" { WithoutTreeTree(c, n.value); }
      case DoRename(n, m) => RenameTree(c, n, m, clock);
      case DoImport(snapshot) =>
    }
  }

  // ----- and the records -----

  /** The keys a call names. */
  ghost predicate CallKeys(call: Call) {
    match call
    case DoWriteFile(n, _) => n.Some? ==> IsKey(n.value)
    case DoDeleteFile(n) => n.Some? ==> IsKey(n.value)
    case DoCreateDirectory(n, _) => n.Some? ==> IsKey(n.value)
    case DoDeleteDirectory(n, _) => n.Some? ==> IsKey(n.value)
    case DoRename(n, m) => (n.Some? ==> IsKey(n.value)) && (m.Some? ==> IsKey(m.value))
    case DoImport(s) => DirKeys(s.dirs) && FileKeys(s.files)
  }

  ghost predicate DirKeys(es: DirEntries) {
    es.DirEntry? ==> (es.at.Some? ==> IsKey(es.at.value)) && DirKeys(es.rest)
  }

  ghost predicate FileKeys(es: FileEntries) {
    es.FileEntry? ==> (es.at.Some? ==> IsKey(es.at.value)) && FileKeys(es.rest)
  }

  lemma NewPath(k: Path)
    ensures PathOf(WorkspacePath(k), k)
  {
  }

  lemma {:induction false} KeyAbove(d: Path, k: Path)
    requires IsKey(k) && AtOrUnder(d, k) && d != ""
    ensures IsKey(d)
    decreases |k|
  {
    if d != k {
      UnderParent(d, k);
      ParentKey(k);
      KeyAbove(d, Parent(k));
    }
  }

  lemma ParentKey(k: Path)
    requires IsKey(k) && Nested(k)
    ensures IsKey(Parent(k))
  {
    assert AskKey(0);
    var p := Parent(k);
    assert Segmented(p);
    assert forall i :: 0 <= i < |p| ==> p[i] == k[i];
  }

  lemma RootKey()
    ensures IsKey("")
  {
  }

  lemma EnsureRecords(c: Contents, k: Path, clock: Clock)
    requires Records(c) && IsKey(k)
    ensures Records(EnsureDirectory(c, k, clock).contents)
  {
    var c' := EnsureDirectory(c, k, clock).contents;
    forall d | d in c'.dirs ensures DirOk(d, c'.dirs[d]) {
      EnsureAdds(c, k, clock, d);
      if d !in c.dirs {
        NewPath(d);
        if d == "" {
          RootKey();
        } else {
          KeyAbove(d, k);
        }
      }
    }
    EnsureFiles(c, k, clock);
  }

  lemma RebaseKey(k: Path, p: Path, q: Path)
    requires IsKey(k) && IsKey(q) && q != "" && k != "" && AtOrUnder(p, k)
    ensures IsKey(Rebase(k, p, q))
  {
    assert AskKey(0);
    RebaseStorable(k, p, q);
  }

  lemma {:induction false} RebaseStorable(k: Path, p: Path, q: Path)
    requires Storable(k) && Storable(q) && q != "" && k != "" && AtOrUnder(p, k)
    ensures Storable(Rebase(k, p, q))
  {
    RebaseSegmented(k, p, q);
    var r := Rebase(k, p, q);
    if k != p {
      forall i | 0 <= i < |r| ensures r[i] != '\\' {
        assert r[i] == if i < |q| then q[i] else k[i - |q| + |p|];
      }
    }
  }

  lemma RenameDirectoryRecords(c: Contents, p: Path, q: Path, clock: Clock)
    requires Records(c) && CanMove(c, p, q) && AllTimed(c, p, q, clock) && IsKey(q)
    ensures Records(RenameDirectory(c, p, q, clock).contents)
  {
    var c' := RenameDirectory(c, p, q, clock).contents;
    forall d' | d' in c'.dirs ensures DirOk(d', c'.dirs[d']) {
      var d := DirFrom(c, p, q, clock, d');
      if AtOrUnder(p, d) {
        RebaseKey(d, p, q);
        NewPath(Rebase(d, p, q));
      }
    }
    forall f' | f' in c'.files ensures FileOk(f', c'.files[f']) {
      var f := FileFrom(c, p, q, clock, f');
      if AtOrUnder(p, f) {
        RebaseKey(f, p, q);
        NewPath(Rebase(f, p, q));
      }
    }
  }

  lemma RenameFileRecords(c: Contents, p: Path, q: Path, clock: Clock)
    requires Records(c) && p in c.files && IsKey(q)
    ensures Records(RenameFile(c, p, q, clock).contents)
  {
    NewPath(q);
  }

  lemma RenameRecords(c: Contents, n: Option<Path>, m: Option<Path>, clock: Clock)
    requires Tree(c) && Records(c) && (m.Some? ==> IsKey(m.value))
    ensures Records(Rename(c, n, m, clock).contents)
  {
    var r := Rename(c, n, m, clock);
    if n.Some? && m.Some? && r.contents != c {
      var p, q := n.value, m.value;
      if p in c.files {
        RenameFileRecords(c, p, q, clock);
      } else {
        FreshIsVacant(c, q);
        RenameDirectoryRecords(c, p, q, clock);
      }
    }
  }

  lemma {:induction false} LoadDirsRecords(es: DirEntries, dirs: map<Path, DirRecord>)
    requires DirKeys(es) && forall d :: d in dirs ==> DirOk(d, dirs[d])
    ensures var r := LoadDirs(es, dirs); r.Loaded? ==> forall d :: d in r.value ==> DirOk(d, r.value[d])
    decreases es
  {
    if es.DirEntry? && es.at.Some? && ValidTime(es.mtime) {
      var k := es.at.value;
      NewPath(k);
      LoadDirsRecords(es.rest, dirs[k := DirRecord(es.mtime, WorkspacePath(k))]);
    }
  }

  lemma {:induction false} LoadFilesRecords(es: FileEntries, files: map<Path, FileRecord>)
    requires FileKeys(es) && forall f :: f in files ==> FileOk(f, files[f])
    ensures var r := LoadFiles(es, files); r.Loaded? ==> forall f :: f in r.value ==> FileOk(f, r.value[f])
    decreases es
  {
    if es.FileEntry? && es.at.Some? && es.at.value != "" && ValidTime(es.mtime) {
      var k := es.at.value;
      NewPath(k);
      LoadFilesRecords(es.rest, files[k := FileRecord(es.content, es.mtime, WorkspacePath(k))]);
    }
  }

  /** What a store starts an import with. */
  function OnlyRoot(now: int): map<Path, DirRecord> {
    map["" := DirRecord(now, WorkspacePath(""))]
  }

  lemma LoadParts(s: Snapshot, now: int)
    ensures var r := LoadSnapshot(s, now);
            r.Loaded? ==> ValidTime(now) && LoadDirs(s.dirs, OnlyRoot(now)) == Loaded(r.value.dirs)
                          && LoadFiles(s.files, map[]) == Loaded(r.value.files)
  {
  }

  lemma OnlyRootRecords(now: int)
    requires ValidTime(now)
    ensures forall d :: d in OnlyRoot(now) ==> DirOk(d, OnlyRoot(now)[d])
  {
    NewPath("");
    RootKey();
  }

  lemma LoadRecords(s: Snapshot, now: int)
    requires DirKeys(s.dirs) && FileKeys(s.files)
    ensures var r := LoadSnapshot(s, now); r.Loaded? ==> Records(r.value)
  {
    LoadParts(s, now);
    if ValidTime(now) {
      OnlyRootRecords(now);
      LoadDirsRecords(s.dirs, OnlyRoot(now));
      LoadFilesRecords(s.files, map[]);
    }
  }

  lemma WriteRecords(c: Contents, n: Option<Path>, content: seq<Byte>, clock: Clock)
    requires Records(c) && (n.Some? ==> IsKey(n.value))
    ensures Records(WriteFile(c, n, content, clock).contents)
  {
    if n.Some? && ValidTime(clock.At(n.value)) {
      AddFileRecords(c, n.value, content, clock.At(n.value));
    }
  }

  lemma AddFileRecords(c: Contents, k: Path, content: seq<Byte>, now: int)
    requires Records(c) && IsKey(k) && ValidTime(now)
    ensures Records(c.(files := c.files[k := FileRecord(content, now, WorkspacePath(k))]))
  {
    NewPath(k);
  }

  lemma CreateRecords(c: Contents, n: Option<Path>, recursive: bool, clock: Clock)
    requires Records(c) && (n.Some? ==> IsKey(n.value))
    ensures Records(CreateDirectory(c, n, recursive, clock).contents)
  {
    if n.Some? && recursive {
      EnsureRecords(c, n.value, clock);
    } else if n.Some? && ValidTime(clock.At(n.value)) {
      AddDirRecords(c, n.value, clock.At(n.value));
    }
  }

  lemma AddDirRecords(c: Contents, k: Path, now: int)
    requires Records(c) && IsKey(k) && ValidTime(now)
    ensures Records(c.(dirs := c.dirs[k := DirRecord(now, WorkspacePath(k))]))
  {
    NewPath(k);
  }

  lemma DeleteRecords(c: Contents, n: Option<Path>, recursive: bool)
    requires Records(c)
    ensures Records(DeleteFile(c, n).contents) && Records(DeleteDirectory(c, n, recursive).contents)
  {
  }

  lemma StepRecords(c: Contents, call: Call, clock: Clock)
    requires Tree(c) && Records(c) && CallKeys(call)
    ensures Records(Step(c, call, clock).contents)
  {
    match call {
      case DoWriteFile(n, content) => WriteRecords(c, n, content, clock);
      case DoDeleteFile(n) => DeleteRecords(c, n, false);
      case DoCreateDirectory(n, recursive) => CreateRecords(c, n, recursive, clock);
      case DoDeleteDirectory(n, recursive) => DeleteRecords(c, n, recursive);
      case DoRename(n, m) => RenameRecords(c, n, m, clock);
      case DoImport(snapshot) => LoadRecords(snapshot, clock.At(""));
    }
  }

  // ----- Every run -----

  ghost predicate AllKeys(calls: Calls) {
    calls.Then? ==> CallKeys(calls.call) && AllKeys(calls.rest)
  }

  function Run(c: Contents, calls: Calls): Contents
    requires Tree(c)
    decreases calls
  {
    if calls.Done? then c
    else
      StepTree(c, calls.call, calls.clock);
      Run(Step(c, calls.call, calls.clock).contents, calls.rest)
  }

  /** Every store a sequence of calls reaches has its root, one kind per path, a directory above
      every path, and records that name their own keys. */
  lemma {:induction false} RunKeeps(c: Contents, calls: Calls)
    requires Tree(c) && Records(c) && AllKeys(calls)
    ensures Tree(Run(c, calls)) && Records(Run(c, calls))
    decreases calls
  {
    if calls.Then? {
      StepTree(c, calls.call, calls.clock);
      StepRecords(c, calls.call, calls.clock);
      RunKeeps(Step(c, calls.call, calls.clock).contents, calls.rest);
    }
  }

  lemma FreshKeeps(now: int)
    requires ValidTime(now)
    ensures Tree(Fresh(now)) && Records(Fresh(now))
  {
    RootKey();
    NewPath("");
  }

  /** In particular every store that began with its root only. */
  lemma RunFromFresh(now: int, calls: Calls)
    requires ValidTime(now) && AllKeys(calls)
    ensures Tree(Fresh(now)) && Tree(Run(Fresh(now), calls)) && Records(Run(Fresh(now), calls))
  {
    FreshKeeps(now);
    RunKeeps(Fresh(now), calls);
  }

  // ----- A call that throws -----

  /** The call renames a file and the clock is wrong: the file is taken out before the clock is
      read. */
  predicate LosesFile(c: Contents, call: Call, clock: Clock) {
    && call.DoRename?
    && var n, m := call.at, call.to;
    && n.Some? && m.Some? && n.value != "" && m.value != "" && !ValidTime(clock.At(m.value))
    && n.value in c.files && ParentProblem(c, m.value).None? && m.value !in c.files && m.value !in c.dirs
  }

  /** The call makes directories down to one, and the clock is right for the first that is missing
      and wrong for a later one: the first stays. */
  ghost predicate LeavesDirectory(c: Contents, call: Call, clock: Clock) {
    && call.DoCreateDirectory? && call.recursive
    && call.at.Some? && call.at.value != "" && call.at.value !in c.files && StopsMidway(c, call.at.value, clock)
  }

  /** A call that throws changes nothing, if and only if it is neither of these. */
  lemma ThrowsAtomically(c: Contents, call: Call, clock: Clock)
    requires Tree(c) && Step(c, call, clock).outcome.Threw?
    ensures Step(c, call, clock).contents == c <==> !LosesFile(c, call, clock) && !LeavesDirectory(c, call, clock)
  {
    if call.DoCreateDirectory? && call.recursive {
      var n := call.at;
      if n.Some? && n.value != "" && n.value !in c.files {
        EnsureAtomic(c, n.value, clock);
      }
    }
    if LosesFile(c, call, clock) {
      assert call.at.value !in Step(c, call, clock).contents.files;
    }
  }

  lemma TopLevel(k: Path)
    requires |k| == 1 && k[0] != '/'
    ensures !Nested(k) && Parent(k) == ""
  {
  }

  /** The first: a store with one file `a`, renamed to `b` while the clock says -1, is empty. */
  lemma RenameLosesFile(content: seq<Byte>)
    ensures
      var c := Fresh(0).(files := map["a" := FileRecord(content, 0, WorkspacePath("a"))]);
      var call, clock := DoRename(Some("a"), Some("b")), Clock(map[], -1);
      Tree(c) && LosesFile(c, call, clock) && Step(c, call, clock) == Turn(Fresh(0), Threw(InvalidSnapshot))
  {
    TopLevel("a");
    TopLevel("b");
    var c := Fresh(0).(files := map["a" := FileRecord(content, 0, WorkspacePath("a"))]);
    assert c.files - {"a"} == map[];
  }

  /** The second: making `a/b` in an empty store, with the clock right for `a` and wrong for `a/b`,
      throws and leaves `a`. */
  lemma CreationLeavesDirectory(a: Path, k: Path)
    requires a == "a" && k == "a/b"
    ensures
      var call, clock := DoCreateDirectory(Some(k), true), Clock(map[a := 0], -1);
      var r := Step(Fresh(0), call, clock);
      Tree(Fresh(0)) && LeavesDirectory(Fresh(0), call, clock) && r.outcome.Threw? && r.contents.dirs.Keys == {"", a}
  {
    var clock := Clock(map[a := 0], -1);
    TopLevel(a);
    LastSlashIs(k, 1);
    assert Parent(k) == a;
    assert EnsureDirectory(Fresh(0), a, clock) == EnsureOne(Fresh(0), a, clock);
    ParentUnder(k);
    assert StopsBetween(Fresh(0), a, k, k, clock);
  }

  // ----- A directory rename is prefix substitution -----

  datatype Thing = AFile(content: seq<Byte>) | ADirectory | Nothing

  function ThingAt(c: Contents, k: Path): Thing {
    if k in c.files then AFile(c.files[k].content) else if k in c.dirs then ADirectory else Nothing
  }

  lemma RenameFileThings(c: Contents, p: Path, q: Path, clock: Clock, k: Path)
    requires CanMove(c, p, q)
    ensures var files := MovedFiles(c, p, q, clock);
            var o := Origin(k, p, q);
            && (k in files <==> o.Some? && o.value in c.files)
            && (k in files ==> files[k] == MovedFile(c.files[o.value], o.value, p, q, clock))
  {
    var files := MovedFiles(c, p, q, clock);
    if k in files {
      var f := FileFrom(c, p, q, clock, k);
      MovedOrigin(f, p, q);
    } else if Origin(k, p, q).Some? && Origin(k, p, q).value in c.files {
      OriginMoves(k, p, q);
      FileAt(c, p, q, clock, Origin(k, p, q).value);
    }
  }

  lemma RenameDirThings(c: Contents, p: Path, q: Path, clock: Clock, k: Path)
    requires CanMove(c, p, q)
    ensures var dirs := MovedDirs(c, p, q, clock);
            var o := Origin(k, p, q);
            && (k in dirs <==> o.Some? && o.value in c.dirs)
            && (k in dirs ==> dirs[k] == MovedDir(c.dirs[o.value], o.value, p, q, clock))
  {
    var dirs := MovedDirs(c, p, q, clock);
    if k in dirs {
      var d := DirFrom(c, p, q, clock, k);
      MovedOrigin(d, p, q);
    } else if Origin(k, p, q).Some? && Origin(k, p, q).value in c.dirs {
      OriginMoves(k, p, q);
      DirAt(c, p, q, clock, Origin(k, p, q).value);
    }
  }

  lemma ReturnedMeansCanMove(c: Contents, p: Path, q: Path, clock: Clock)
    requires Tree(c) && p in c.dirs && Rename(c, Some(p), Some(q), clock).outcome.Returned?
    ensures CanMove(c, p, q) && Rename(c, Some(p), Some(q), clock) == RenameDirectory(c, p, q, clock)
  {
    FreshIsVacant(c, q);
  }

  /** Renaming a directory is exactly prefix substitution, and the records of everything that did
      not move, their times included, are as they were. */
  lemma RenameSubstitutes(c: Contents, p: Path, q: Path, clock: Clock)
    requires Tree(c) && p in c.dirs && Rename(c, Some(p), Some(q), clock).outcome.Returned?
    ensures var c' := Rename(c, Some(p), Some(q), clock).contents;
            && (forall k :: ThingAt(c', k) == if Origin(k, p, q).Some? then ThingAt(c, Origin(k, p, q).value) else Nothing)
            && (forall k :: k in c'.files && !AtOrUnder(q, k) ==> k in c.files && c'.files[k] == c.files[k])
            && (forall k :: k in c'.dirs && !AtOrUnder(q, k) ==> k in c.dirs && c'.dirs[k] == c.dirs[k])
  {
    ReturnedMeansCanMove(c, p, q, clock);
    var c' := Rename(c, Some(p), Some(q), clock).contents;
    forall k ensures ThingAt(c', k) == if Origin(k, p, q).Some? then ThingAt(c, Origin(k, p, q).value) else Nothing {
      RenameFileThings(c, p, q, clock, k);
      RenameDirThings(c, p, q, clock, k);
    }
    forall k | k in c'.files && !AtOrUnder(q, k) ensures k in c.files && c'.files[k] == c.files[k] {
      RenameFileThings(c, p, q, clock, k);
    }
    forall k | k in c'.dirs && !AtOrUnder(q, k) ensures k in c.dirs && c'.dirs[k] == c.dirs[k] {
      RenameDirThings(c, p, q, clock, k);
    }
  }
}
