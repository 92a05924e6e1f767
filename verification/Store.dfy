/** The in-memory workspace store: directories and files by relative path, each record with its
    full path and a time. */
module Store {
  import opened Bytes
  import opened Paths
  import opened Names
  import opened StorePaths

  datatype DirRecord = DirRecord(mtime: int, path: string)

  datatype FileRecord = FileRecord(content: seq<Byte>, mtime: int, path: string)

  datatype Contents = Contents(dirs: map<Path, DirRecord>, files: map<Path, FileRecord>)

  datatype Error = InvalidPath | NotFile | NotDirectory | NotFound | AlreadyExists | NotEmpty | InvalidSnapshot

  datatype Outcome = Returned | Threw(error: Error)

  datatype Turn = Turn(contents: Contents, outcome: Outcome)

  /** `nonNegativeTime` accepts it. */
  predicate ValidTime(t: int) {
    0 <= t <= MAX_SAFE
  }

  /** What the clock says during a call. A call reads it once for each record it makes, so its
      readings, in whatever order they are taken, are told apart by the paths of the records. */
  datatype Clock = Clock(readings: map<Path, int>, otherwise: int) {
    function At(k: Path): int {
      if k in readings then readings[k] else otherwise
    }
  }

  /** `isChildPath`: everything but the root is below the root. */
  predicate IsChildPath(parent: Path, child: Path) {
    if parent == "" then child != "" else Under(parent, child)
  }

  /** `requireParentDirectory`. */
  function ParentProblem(c: Contents, k: Path): Option<Error> {
    if Parent(k) in c.files then Some(NotDirectory)
    else if Parent(k) !in c.dirs then Some(NotFound)
    else None
  }

  predicate HasChildren(c: Contents, k: Path) {
    (exists f :: f in c.files && IsChildPath(k, f)) || (exists d :: d in c.dirs && d != k && IsChildPath(k, d))
  }

  // ----- Calls -----

  // Each call names its path by what `Normalize` makes of the text: a key, or `None` for an
  // invalid path.

  function WriteFile(c: Contents, n: Option<Path>, content: seq<Byte>, clock: Clock): Turn {
    if n.None? || n.value == "" then Turn(c, Threw(InvalidPath))
    else
      var k := n.value;
      if k in c.dirs then Turn(c, Threw(NotFile))
      else if ParentProblem(c, k).Some? then Turn(c, Threw(ParentProblem(c, k).value))
      else if !ValidTime(clock.At(k)) then Turn(c, Threw(InvalidSnapshot))
      else Turn(c.(files := c.files[k := FileRecord(content, clock.At(k), WorkspacePath(k))]), Returned)
  }

  function DeleteFile(c: Contents, n: Option<Path>): Turn {
    if n.None? then Turn(c, Threw(InvalidPath))
    else if n.value !in c.files then Turn(c, Threw(if n.value in c.dirs then NotFile else NotFound))
    else Turn(c.(files := c.files - {n.value}), Returned)
  }

  /** `ensureDirectory`: the missing directories down to `k`, from the top. */
  function EnsureDirectory(c: Contents, k: Path, clock: Clock): Turn
    decreases |k|
  {
    var above := if Nested(k) then EnsureDirectory(c, Parent(k), clock) else Turn(c, Returned);
    if above.outcome.Threw? then above else EnsureOne(above.contents, k, clock)
  }

  function EnsureOne(c: Contents, k: Path, clock: Clock): Turn {
    if k in c.files then Turn(c, Threw(NotDirectory))
    else if k in c.dirs then Turn(c, Returned)
    else if !ValidTime(clock.At(k)) then Turn(c, Threw(InvalidSnapshot))
    else Turn(c.(dirs := c.dirs[k := DirRecord(clock.At(k), WorkspacePath(k))]), Returned)
  }

  function CreateDirectory(c: Contents, n: Option<Path>, recursive: bool, clock: Clock): Turn {
    if n.None? then Turn(c, Threw(InvalidPath))
    else
      var k := n.value;
      if k == "" then Turn(c, Returned)
      else if k in c.files then Turn(c, Threw(NotDirectory))
      else if recursive then EnsureDirectory(c, k, clock)
      else if ParentProblem(c, k).Some? then Turn(c, Threw(ParentProblem(c, k).value))
      else if k in c.dirs then Turn(c, Threw(AlreadyExists))
      else if !ValidTime(clock.At(k)) then Turn(c, Threw(InvalidSnapshot))
      else Turn(c.(dirs := c.dirs[k := DirRecord(clock.At(k), WorkspacePath(k))]), Returned)
  }

  function WithoutTree(c: Contents, k: Path): Contents {
    Contents(map d | d in c.dirs && !(d == k || IsChildPath(k, d)) :: c.dirs[d],
             map f | f in c.files && !(f == k || IsChildPath(k, f)) :: c.files[f])
  }

  function DeleteDirectory(c: Contents, n: Option<Path>, recursive: bool): Turn {
    if n.None? || n.value == "" then Turn(c, Threw(InvalidPath))
    else if n.value !in c.dirs then Turn(c, Threw(NotFound))
    else if !recursive && HasChildren(c, n.value) then Turn(c, Threw(NotEmpty))
    else Turn(WithoutTree(c, n.value), Returned)
  }

  // ----- Rename -----

  /** The record at `k` is gone before the clock is read for its new one. */
  function RenameFile(c: Contents, p: Path, q: Path, clock: Clock): Turn
    requires p in c.files
  {
    var left := c.(files := c.files - {p});
    if !ValidTime(clock.At(q)) then Turn(left, Threw(InvalidSnapshot))
    else Turn(left.(files := left.files[q := c.files[p].(mtime := clock.At(q), path := WorkspacePath(q))]), Returned)
  }

  /** `validateWorkspaceGraph`, and the root. */
  predicate Graph(dirs: set<Path>, files: set<Path>) {
    && "" in dirs
    && (forall f :: f in files ==> f !in dirs && Parent(f) in dirs)
    && (forall d :: d in dirs && d != "" ==> Parent(d) in dirs)
  }

  predicate Tree(c: Contents) {
    Graph(c.dirs.Keys, c.files.Keys)
  }

  ghost predicate DirOk(k: Path, r: DirRecord) {
    IsKey(k) && PathOf(r.path, k) && ValidTime(r.mtime)
  }

  ghost predicate FileOk(k: Path, r: FileRecord) {
    IsKey(k) && PathOf(r.path, k) && ValidTime(r.mtime)
  }

  /** Records name their own keys. */
  ghost predicate Records(c: Contents) {
    && (forall d :: d in c.dirs ==> DirOk(d, c.dirs[d]))
    && (forall f :: f in c.files ==> FileOk(f, c.files[f]))
  }

  /** Nothing is at or under `q`. */
  ghost predicate Vacant(c: Contents, q: Path) {
    forall k :: k in c.dirs || k in c.files ==> !AtOrUnder(q, k)
  }

  lemma {:induction false} NothingBelow(c: Contents, q: Path, k: Path)
    requires Tree(c) && q !in c.dirs && q !in c.files && (k in c.dirs || k in c.files)
    ensures !AtOrUnder(q, k)
    decreases |k|
  {
    if Under(q, k) {
      UnderParent(q, k);
      NothingBelow(c, q, Parent(k));
    }
  }

  /** A fresh target has no descendants. */
  lemma FreshIsVacant(c: Contents, q: Path)
    requires Tree(c) && q !in c.dirs && q !in c.files
    ensures Vacant(c, q)
  {
    forall k | k in c.dirs || k in c.files ensures !AtOrUnder(q, k) {
      NothingBelow(c, q, k);
    }
  }

  lemma MovedApart(c: Contents, p: Path, q: Path, k: Path, l: Path)
    requires Vacant(c, q) && (k in c.dirs || k in c.files) && (l in c.dirs || l in c.files)
    requires Moved(k, p, q) == Moved(l, p, q)
    ensures k == l
  {
    if AtOrUnder(p, k) && AtOrUnder(p, l) {
      RebaseInjective(k, l, p, q);
    } else if AtOrUnder(p, k) {
      RebaseUnder(k, p, q);
    } else if AtOrUnder(p, l) {
      RebaseUnder(l, p, q);
    }
  }

  function MovedDirs(c: Contents, p: Path, q: Path, clock: Clock): map<Path, DirRecord>
    requires Vacant(c, q)
  {
    assert forall k, l | k in c.dirs && l in c.dirs && Moved(k, p, q) == Moved(l, p, q) :: k == l by {
      forall k, l | k in c.dirs && l in c.dirs && Moved(k, p, q) == Moved(l, p, q) ensures k == l {
        MovedApart(c, p, q, k, l);
      }
    }
    map d | d in c.dirs :: Moved(d, p, q) := MovedDir(c.dirs[d], d, p, q, clock)
  }

  function MovedDir(r: DirRecord, d: Path, p: Path, q: Path, clock: Clock): DirRecord {
    if AtOrUnder(p, d) then DirRecord(clock.At(Rebase(d, p, q)), WorkspacePath(Rebase(d, p, q))) else r
  }

  function MovedFiles(c: Contents, p: Path, q: Path, clock: Clock): map<Path, FileRecord>
    requires Vacant(c, q)
  {
    assert forall k, l | k in c.files && l in c.files && Moved(k, p, q) == Moved(l, p, q) :: k == l by {
      forall k, l | k in c.files && l in c.files && Moved(k, p, q) == Moved(l, p, q) ensures k == l {
        MovedApart(c, p, q, k, l);
      }
    }
    map f | f in c.files :: Moved(f, p, q) := MovedFile(c.files[f], f, p, q, clock)
  }

  function MovedFile(r: FileRecord, f: Path, p: Path, q: Path, clock: Clock): FileRecord {
    if AtOrUnder(p, f) then FileRecord(r.content, clock.At(Rebase(f, p, q)), WorkspacePath(Rebase(f, p, q))) else r
  }

  /** The clock is right for every record that moves. */
  predicate AllTimed(c: Contents, p: Path, q: Path, clock: Clock) {
    && (forall d :: d in c.dirs && AtOrUnder(p, d) ==> ValidTime(clock.At(Rebase(d, p, q))))
    && (forall f :: f in c.files && AtOrUnder(p, f) ==> ValidTime(clock.At(Rebase(f, p, q))))
  }

  function RenameDirectory(c: Contents, p: Path, q: Path, clock: Clock): Turn
    requires Vacant(c, q)
  {
    if Under(p, q) then Turn(c, Threw(InvalidPath))
    else if !AllTimed(c, p, q, clock) then Turn(c, Threw(InvalidSnapshot))
    else Turn(Contents(MovedDirs(c, p, q, clock), MovedFiles(c, p, q, clock)), Returned)
  }

  function Rename(c: Contents, n: Option<Path>, m: Option<Path>, clock: Clock): Turn
    requires Tree(c)
  {
    if n.None? || m.None? || n.value == "" || m.value == "" then Turn(c, Threw(InvalidPath))
    else
      var p, q := n.value, m.value;
      if ParentProblem(c, q).Some? then Turn(c, Threw(ParentProblem(c, q).value))
      else if q in c.files || q in c.dirs then Turn(c, Threw(AlreadyExists))
      else if p in c.files then RenameFile(c, p, q, clock)
      else if p in c.dirs then
        FreshIsVacant(c, q);
        RenameDirectory(c, p, q, clock)
      else Turn(c, Threw(NotFound))
  }

  // ----- Snapshots -----

  /** The entries of a snapshot, in its order, each with its normalized path. */
  datatype DirEntries = NoDir | DirEntry(at: Option<Path>, mtime: int, rest: DirEntries)

  datatype FileEntries = NoFile | FileEntry(at: Option<Path>, content: seq<Byte>, mtime: int, rest: FileEntries)

  datatype Snapshot = Snapshot(version: int, root: string, dirs: DirEntries, files: FileEntries)

  datatype Load<T> = Loaded(value: T) | Refused(error: Error)

  function LoadDirs(es: DirEntries, dirs: map<Path, DirRecord>): Load<map<Path, DirRecord>>
    decreases es
  {
    if es.NoDir? then Loaded(dirs)
    else
      var n := es.at;
      if n.None? then Refused(InvalidPath)
      else if !ValidTime(es.mtime) then Refused(InvalidSnapshot)
      else LoadDirs(es.rest, dirs[n.value := DirRecord(es.mtime, WorkspacePath(n.value))])
  }

  function LoadFiles(es: FileEntries, files: map<Path, FileRecord>): Load<map<Path, FileRecord>>
    decreases es
  {
    if es.NoFile? then Loaded(files)
    else
      var n := es.at;
      if n.None? then Refused(InvalidPath)
      else if n.value == "" || !ValidTime(es.mtime) then Refused(InvalidSnapshot)
      else LoadFiles(es.rest, files[n.value := FileRecord(es.content, es.mtime, WorkspacePath(n.value))])
  }

  /** `loadSnapshot`, up to the point where the store takes the new contents over. */
  function LoadSnapshot(s: Snapshot, now: int): Load<Contents> {
    if !ValidTime(now) || s.version != 1 || s.root != MOUNT then Refused(InvalidSnapshot)
    else
      var dirs := LoadDirs(s.dirs, map["" := DirRecord(now, WorkspacePath(""))]);
      if dirs.Refused? then Refused(dirs.error)
      else
        var files := LoadFiles(s.files, map[]);
        if files.Refused? then Refused(files.error)
        else if !Graph(dirs.value.Keys, files.value.Keys) then Refused(InvalidSnapshot)
        else Loaded(Contents(dirs.value, files.value))
  }

  function ImportSnapshot(c: Contents, s: Snapshot, clock: Clock): Turn {
    var r := LoadSnapshot(s, clock.At(""));
    if r.Refused? then Turn(c, Threw(r.error)) else Turn(r.value, Returned)
  }

  // ----- Runs -----

  datatype Call =
    | DoWriteFile(at: Option<Path>, content: seq<Byte>)
    | DoDeleteFile(at: Option<Path>)
    | DoCreateDirectory(at: Option<Path>, recursive: bool)
    | DoDeleteDirectory(at: Option<Path>, recursive: bool)
    | DoRename(at: Option<Path>, to: Option<Path>)
    | DoImport(snapshot: Snapshot)

  function Step(c: Contents, call: Call, clock: Clock): Turn
    requires Tree(c)
  {
    match call
    case DoWriteFile(n, content) => WriteFile(c, n, content, clock)
    case DoDeleteFile(n) => DeleteFile(c, n)
    case DoCreateDirectory(n, recursive) => CreateDirectory(c, n, recursive, clock)
    case DoDeleteDirectory(n, recursive) => DeleteDirectory(c, n, recursive)
    case DoRename(n, m) => Rename(c, n, m, clock)
    case DoImport(snapshot) => ImportSnapshot(c, snapshot, clock)
  }

  /** A store before its first call. */
  function Fresh(now: int): Contents {
    Contents(map["" := DirRecord(now, MOUNT)], map[])
  }

  datatype Calls = Done | Then(call: Call, clock: Clock, rest: Calls)
}
