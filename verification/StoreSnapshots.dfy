/** Exporting a store and importing the snapshot gives the store back, unless a path ends in
    white space. */
module StoreSnapshots {
  import opened Bytes
  import opened Paths
  import opened Names
  import opened StorePaths
  import opened Store
  import opened StoreRuns

  // ----- What an exported path is read as -----

  ghost predicate ReadsAs(k: Path, at: Option<Path>) {
    forall u {:trigger AskKey(u)} :: AskKey(u) ==> at == Normalize(WorkspacePath(k))
  }

  predicate Spaced(k: Path) {
    EndsInSpace(k)
  }

  lemma PlainReads(k: Path, at: Option<Path>)
    requires IsKey(k) && !Spaced(k) && ReadsAs(k, at)
    ensures at == Some(k)
  {
    assert AskKey(0);
    NormalizesBackExactly(k);
  }

  lemma SpacedReads(k: Path, at: Option<Path>)
    requires IsKey(k) && Spaced(k) && ReadsAs(k, at) && at.Some?
    ensures |at.value| < |k|
  {
    assert AskKey(0);
    NormalizesBackExactly(k);
  }

  // ----- Exported snapshots -----

  /** One of the entries stands for the directory at `k`. */
  ghost predicate DirListed(es: DirEntries, dirs: map<Path, DirRecord>, k: Path) {
    k in dirs && es.DirEntry? && ((ReadsAs(k, es.at) && es.mtime == dirs[k].mtime) || DirListed(es.rest, dirs, k))
  }

  /** Every entry stands for some directory. */
  ghost predicate DirsOnly(es: DirEntries, dirs: map<Path, DirRecord>) {
    es.DirEntry? ==> (exists k :: k in dirs && ReadsAs(k, es.at) && es.mtime == dirs[k].mtime) && DirsOnly(es.rest, dirs)
  }

  ghost predicate FileListed(es: FileEntries, files: map<Path, FileRecord>, k: Path) {
    && k in files && es.FileEntry?
    && ((ReadsAs(k, es.at) && es.mtime == files[k].mtime && es.content == files[k].content) || FileListed(es.rest, files, k))
  }

  ghost predicate FilesOnly(es: FileEntries, files: map<Path, FileRecord>) {
    es.FileEntry? ==>
      && (exists k :: k in files && ReadsAs(k, es.at) && es.mtime == files[k].mtime && es.content == files[k].content)
      && FilesOnly(es.rest, files)
  }

  /** `s` lists the records of the store, in any order. */
  ghost predicate Exports(s: Snapshot, c: Contents) {
    && s.version == 1 && PathOf(s.root, "")
    && DirsOnly(s.dirs, c.dirs) && (forall k :: k in c.dirs ==> DirListed(s.dirs, c.dirs, k))
    && FilesOnly(s.files, c.files) && (forall k :: k in c.files ==> FileListed(s.files, c.files, k))
  }

  // ----- Loading a list of records without spaced paths -----

  predicate NoneSpaced(keys: set<Path>) {
    forall k :: k in keys ==> !Spaced(k)
  }

  /** The loader's map so far holds only records of the store, but for the time of the root. */
  ghost predicate DirsSoFar(acc: map<Path, DirRecord>, dirs: map<Path, DirRecord>) {
    forall k :: k in acc ==> k in dirs && (k != "" ==> acc[k] == dirs[k])
  }

  lemma SameDir(k: Path, r: DirRecord)
    requires DirOk(k, r)
    ensures r == DirRecord(r.mtime, WorkspacePath(k))
  {
    assert AskKey(0);
  }

  lemma SameFile(k: Path, r: FileRecord)
    requires FileOk(k, r)
    ensures r == FileRecord(r.content, r.mtime, WorkspacePath(k))
  {
    assert AskKey(0);
  }

  ghost predicate AllDirs(dirs: map<Path, DirRecord>) {
    forall k :: k in dirs ==> DirOk(k, dirs[k]) && !Spaced(k)
  }

  ghost predicate AllFiles(files: map<Path, FileRecord>) {
    forall k :: k in files ==> FileOk(k, files[k]) && !Spaced(k) && k != ""
  }

  /** The first entry, loaded. */
  lemma DirStep(es: DirEntries, acc: map<Path, DirRecord>, dirs: map<Path, DirRecord>) returns (k: Path)
    requires AllDirs(dirs) && DirsOnly(es, dirs) && es.DirEntry?
    ensures k in dirs && es.at == Some(k)
    ensures LoadDirs(es, acc) == LoadDirs(es.rest, acc[k := dirs[k]])
  {
    k :| k in dirs && ReadsAs(k, es.at) && es.mtime == dirs[k].mtime;
    PlainReads(k, es.at);
    SameDir(k, dirs[k]);
  }

  lemma FileStep(es: FileEntries, acc: map<Path, FileRecord>, files: map<Path, FileRecord>) returns (k: Path)
    requires AllFiles(files) && FilesOnly(es, files) && es.FileEntry?
    ensures k in files && es.at == Some(k)
    ensures LoadFiles(es, acc) == LoadFiles(es.rest, acc[k := files[k]])
  {
    k :| k in files && ReadsAs(k, es.at) && es.mtime == files[k].mtime && es.content == files[k].content;
    PlainReads(k, es.at);
    SameFile(k, files[k]);
  }

  lemma {:induction false} DirsLoad(es: DirEntries, acc: map<Path, DirRecord>, dirs: map<Path, DirRecord>)
    requires AllDirs(dirs) && DirsOnly(es, dirs) && DirsSoFar(acc, dirs)
    ensures var r := LoadDirs(es, acc); r.Loaded? && DirsSoFar(r.value, dirs)
    decreases es
  {
    if es.DirEntry? {
      var k := DirStep(es, acc, dirs);
      DirsLoad(es.rest, acc[k := dirs[k]], dirs);
    }
  }

  /** A directory that is in the map already, or still to come, is in the loaded map as it was. */
  lemma {:induction false} DirLoads(es: DirEntries, acc: map<Path, DirRecord>, dirs: map<Path, DirRecord>, k: Path)
    requires AllDirs(dirs) && DirsOnly(es, dirs) && k in dirs
    requires DirListed(es, dirs, k) || (k in acc && acc[k] == dirs[k])
    ensures var r := LoadDirs(es, acc); r.Loaded? ==> k in r.value && r.value[k] == dirs[k]
    decreases es
  {
    if es.DirEntry? {
      var l := DirStep(es, acc, dirs);
      if ReadsAs(k, es.at) {
        PlainReads(k, es.at);
      }
      DirLoads(es.rest, acc[l := dirs[l]], dirs, k);
    }
  }

  lemma {:induction false} FilesLoad(es: FileEntries, acc: map<Path, FileRecord>, files: map<Path, FileRecord>)
    requires AllFiles(files) && FilesOnly(es, files)
    requires forall k :: k in acc ==> k in files && acc[k] == files[k]
    ensures var r := LoadFiles(es, acc); r.Loaded? && forall k :: k in r.value ==> k in files && r.value[k] == files[k]
    decreases es
  {
    if es.FileEntry? {
      var k := FileStep(es, acc, files);
      FilesLoad(es.rest, acc[k := files[k]], files);
    }
  }

  lemma {:induction false} FileLoads(es: FileEntries, acc: map<Path, FileRecord>, files: map<Path, FileRecord>, k: Path)
    requires AllFiles(files) && FilesOnly(es, files) && k in files
    requires FileListed(es, files, k) || (k in acc && acc[k] == files[k])
    ensures var r := LoadFiles(es, acc); r.Loaded? ==> k in r.value && r.value[k] == files[k]
    decreases es
  {
    if es.FileEntry? {
      var l := FileStep(es, acc, files);
      if ReadsAs(k, es.at) {
        PlainReads(k, es.at);
      }
      FileLoads(es.rest, acc[l := files[l]], files, k);
    }
  }

  lemma DirsReadBack(es: DirEntries, dirs: map<Path, DirRecord>, now: int)
    requires AllDirs(dirs) && "" in dirs && DirsOnly(es, dirs) && (forall k :: k in dirs ==> DirListed(es, dirs, k))
    ensures LoadDirs(es, OnlyRoot(now)) == Loaded(dirs)
  {
    DirsLoad(es, OnlyRoot(now), dirs);
    var r := LoadDirs(es, OnlyRoot(now));
    forall k | k in dirs ensures k in r.value && r.value[k] == dirs[k] {
      DirLoads(es, OnlyRoot(now), dirs, k);
    }
    assert r.value == dirs;
  }

  lemma FilesReadBack(es: FileEntries, files: map<Path, FileRecord>)
    requires AllFiles(files) && FilesOnly(es, files) && (forall k :: k in files ==> FileListed(es, files, k))
    ensures LoadFiles(es, map[]) == Loaded(files)
  {
    FilesLoad(es, map[], files);
    var r := LoadFiles(es, map[]);
    forall k | k in files ensures k in r.value && r.value[k] == files[k] {
      FileLoads(es, map[], files, k);
    }
    assert r.value == files;
  }

  lemma LoadWhole(s: Snapshot, now: int, c: Contents)
    requires ValidTime(now) && s.version == 1 && PathOf(s.root, "") && Tree(c)
    requires LoadDirs(s.dirs, OnlyRoot(now)) == Loaded(c.dirs) && LoadFiles(s.files, map[]) == Loaded(c.files)
    ensures LoadSnapshot(s, now) == Loaded(c)
  {
    assert AskKey(0);
  }

  // ----- A spaced path does not come back -----

  lemma {:induction false} LongestSpaced(keys: set<Path>) returns (k: Path)
    requires exists l :: l in keys && Spaced(l)
    ensures k in keys && Spaced(k) && forall l :: l in keys && Spaced(l) ==> |l| <= |k|
    decreases |keys|
  {
    k :| k in keys && Spaced(k);
    var rest := keys - {k};
    if exists l :: l in rest && Spaced(l) && |l| > |k| {
      k := LongestSpaced(rest);
    }
  }

  lemma {:induction false} DirCameFrom(es: DirEntries, acc: map<Path, DirRecord>, dirs: map<Path, DirRecord>, k: Path) returns (l: Path)
    requires DirsOnly(es, dirs) && k !in acc && LoadDirs(es, acc).Loaded? && k in LoadDirs(es, acc).value
    ensures l in dirs && ReadsAs(l, Some(k))
    decreases es
  {
    l :| l in dirs && ReadsAs(l, es.at) && es.mtime == dirs[l].mtime;
    if es.at.value != k {
      l := DirCameFrom(es.rest, acc[es.at.value := DirRecord(es.mtime, WorkspacePath(es.at.value))], dirs, k);
    }
  }

  lemma {:induction false} FileCameFrom(es: FileEntries, acc: map<Path, FileRecord>, files: map<Path, FileRecord>, k: Path) returns (l: Path)
    requires FilesOnly(es, files) && k !in acc && LoadFiles(es, acc).Loaded? && k in LoadFiles(es, acc).value
    ensures l in files && ReadsAs(l, Some(k))
    decreases es
  {
    l :| l in files && ReadsAs(l, es.at) && es.mtime == files[l].mtime && es.content == files[l].content;
    if es.at.value != k {
      l := FileCameFrom(es.rest, acc[es.at.value := FileRecord(es.content, es.mtime, WorkspacePath(es.at.value))], files, k);
    }
  }

  lemma SpacedFromLonger(k: Path, l: Path)
    requires Spaced(k) && IsKey(l) && ReadsAs(l, Some(k))
    ensures Spaced(l) && |k| < |l|
  {
    if !Spaced(l) {
      PlainReads(l, Some(k));
    } else {
      SpacedReads(l, Some(k));
    }
  }

  lemma SpacedDirLost(es: DirEntries, dirs: map<Path, DirRecord>, now: int)
    requires (forall k :: k in dirs ==> DirOk(k, dirs[k])) && DirsOnly(es, dirs) && !NoneSpaced(dirs.Keys)
    ensures LoadDirs(es, OnlyRoot(now)) != Loaded(dirs)
  {
    var k := LongestSpaced(dirs.Keys);
    if LoadDirs(es, OnlyRoot(now)) == Loaded(dirs) {
      var l := DirCameFrom(es, OnlyRoot(now), dirs, k);
      SpacedFromLonger(k, l);
    }
  }

  lemma SpacedFileLost(es: FileEntries, files: map<Path, FileRecord>)
    requires (forall k :: k in files ==> FileOk(k, files[k])) && FilesOnly(es, files) && !NoneSpaced(files.Keys)
    ensures LoadFiles(es, map[]) != Loaded(files)
  {
    var k := LongestSpaced(files.Keys);
    if LoadFiles(es, map[]) == Loaded(files) {
      var l := FileCameFrom(es, map[], files, k);
      SpacedFromLonger(k, l);
    }
  }

  // ----- The theorem -----

  /** Importing what a store exported gives back the same paths, contents and times if and only
      if no path in it ends in white space. */
  lemma SnapshotRoundTrip(c: Contents, s: Snapshot, now: int)
    requires Tree(c) && Records(c) && Exports(s, c) && ValidTime(now)
    ensures LoadSnapshot(s, now) == Loaded(c) <==> NoneSpaced(c.dirs.Keys) && NoneSpaced(c.files.Keys)
  {
    LoadParts(s, now);
    if !NoneSpaced(c.dirs.Keys) {
      SpacedDirLost(s.dirs, c.dirs, now);
    } else if !NoneSpaced(c.files.Keys) {
      SpacedFileLost(s.files, c.files);
    } else {
      DirsReadBack(s.dirs, c.dirs, now);
      FilesReadBack(s.files, c.files);
      LoadWhole(s, now, c);
    }
  }

  /** Such a path is one call away: trimming a text looks at its end only, which a slash hides. */
  lemma SlashHidesSpace(s: string, a: string)
    requires s == "a /" && a == "a "
    ensures Normalize(s) == Some(a) && Spaced(a)
  {
    assert s == a + "/" + "";
    SplitAppended(a, "");
    SplitSingle(a);
    SingleKept(a);
    KeptAppended([a], "");
    NothingTrimmed(s);
    RelativeText(s);
    NormalizesTo(s, s, s);
  }

  lemma RelativeText(s: string)
    requires s == "a /"
    ensures Printable(s) && BelowMount(s) == Some(s)
  {
    assert s[0] == 'a' && MOUNT[0] == '/';
    assert (MOUNT + "/")[0] == '/';
  }
}
