/** The writable workspace of one runtime: directories and files by path, file records shared
    between the path map and the open descriptors, and the dirty flag. A record is a heap object
    in the runtime; here it is an index into one sequence. */
module Namespace {
  import opened Bytes
  import opened Paths

  /** `path` is where the record thinks it is; `fallback` marks a packaged file that is not part
      of the workspace until it is changed. */
  datatype Rec = Rec(path: Option<Path>, bytes: seq<Byte>, fallback: bool)

  /** The rights of a file descriptor that let it change the file. */
  datatype Rights = Rights(write: bool, resize: bool, allocate: bool) {
    predicate Within(r: Rights) {
      (write ==> r.write) && (resize ==> r.resize) && (allocate ==> r.allocate)
    }
  }

  /** An open workspace descriptor; its path is `None` once its file or directory is gone. */
  datatype Open = OpenFile(path: Option<Path>, record: nat, rights: Rights) | OpenDir(path: Option<Path>)

  datatype Space = Space(dirs: set<Path>, files: map<Path, nat>, records: seq<Rec>, opens: map<nat, Open>, dirty: bool)

  datatype Errno = Success | NotCapable | IsDir | NotDir | NoEntry | Exists | NotEmpty | Invalid | BadF

  datatype Answer = Answer(space: Space, errno: Errno)

  // ----- Looking things up -----

  /** `pathHasChildren`. */
  predicate HasChildren(w: Space, p: Path) {
    (exists d :: d in w.dirs && Under(p, d)) || (exists f :: f in w.files && Under(p, f))
  }

  datatype Kind = AFile | ADirectory | Nothing

  function KindOf(w: Space, p: Path): Kind {
    if p in w.files then AFile else if p in w.dirs || HasChildren(w, p) then ADirectory else Nothing
  }

  /** `scratchParentStatus`: a path without a slash needs no parent. */
  function ParentStatus(w: Space, p: Path): Errno {
    if !Nested(p) then Success
    else if Parent(p) in w.files then NotDir
    else if Parent(p) !in w.dirs then NoEntry
    else Success
  }

  // ----- Calls -----

  function OpenPath(w: Space, fd: nat, p: Path, create: bool, excl: bool, trunc: bool, rights: Rights): Answer {
    if (create || trunc) && !rights.write && !rights.allocate then Answer(w, NotCapable)
    else if p in w.dirs || HasChildren(w, p) then Answer(w, IsDir)
    else if ParentStatus(w, p) != Success then Answer(w, ParentStatus(w, p))
    else if p !in w.files then
      if !create then Answer(w, NoEntry)
      else
        var id := |w.records|;
        Answer(w.(files := w.files[p := id], records := w.records + [Rec(Some(p), [], false)],
                  opens := w.opens[fd := OpenFile(Some(p), id, rights)], dirty := true), Success)
    else if create && excl then Answer(w, Exists)
    else Answer(Attach(if trunc then Truncate(w, w.files[p]) else w, fd, p, w.files[p], rights), Success)
  }

  function Attach(w: Space, fd: nat, p: Path, id: nat, rights: Rights): Space {
    w.(opens := w.opens[fd := OpenFile(Some(p), id, rights)])
  }

  function Truncate(w: Space, id: nat): Space {
    if id < |w.records| then w.(records := w.records[id := w.records[id].(bytes := [], fallback := false)], dirty := true) else w
  }

  function OpenDirectory(w: Space, fd: nat, p: Path): Answer {
    if p in w.files then Answer(w, NotDir)
    else if p != "" && p !in w.dirs && !HasChildren(w, p) then Answer(w, NoEntry)
    else Answer(w.(opens := w.opens[fd := OpenDir(Some(p))]), Success)
  }

  function MakeDirectory(w: Space, p: Path): Answer {
    if p in w.dirs || p in w.files then Answer(w, Exists)
    else if ParentStatus(w, p) != Success then Answer(w, ParentStatus(w, p))
    else Answer(w.(dirs := w.dirs + {p}, dirty := true), Success)
  }

  /** `detachOpenWorkspaceFile` and `detachOpenWorkspaceDirectory`. */
  function DetachFile(opens: map<nat, Open>, p: Path): map<nat, Open> {
    map fd | fd in opens :: if opens[fd].OpenFile? && opens[fd].path == Some(p) then opens[fd].(path := None) else opens[fd]
  }

  function DetachDir(opens: map<nat, Open>, p: Path): map<nat, Open> {
    map fd | fd in opens :: if opens[fd].OpenDir? && opens[fd].path == Some(p) then opens[fd].(path := None) else opens[fd]
  }

  function Unlink(w: Space, p: Path): Answer {
    if p in w.dirs || HasChildren(w, p) then Answer(w, IsDir)
    else if p !in w.files then Answer(w, NoEntry)
    else Answer(w.(files := w.files - {p}, opens := DetachFile(w.opens, p), dirty := true), Success)
  }

  /** `base` is the directory the call is relative to: only that one is protected. */
  function RemoveDirectory(w: Space, base: Path, p: Path): Answer {
    if p == base then Answer(w, NotCapable)
    else if p in w.files then Answer(w, NotDir)
    else if ParentStatus(w, p) != Success then Answer(w, ParentStatus(w, p))
    else if p !in w.dirs then Answer(w, if HasChildren(w, p) then NotEmpty else NoEntry)
    else if HasChildren(w, p) then Answer(w, NotEmpty)
    else Answer(w.(dirs := w.dirs - {p}, opens := DetachDir(w.opens, p), dirty := true), Success)
  }

  // ----- Rename -----

  function RetargetFile(opens: map<nat, Open>, moved: nat, q: Path, replaced: Option<nat>): map<nat, Open> {
    map fd | fd in opens ::
      if opens[fd].OpenFile? && opens[fd].record == moved then opens[fd].(path := Some(q))
      else if opens[fd].OpenFile? && replaced == Some(opens[fd].record) then opens[fd].(path := None)
      else opens[fd]
  }

  function RenameFile(w: Space, p: Path, q: Path): Space
    requires p in w.files && w.files[p] < |w.records| && (q in w.files ==> w.files[q] < |w.records|)
  {
    var id := w.files[p];
    var replaced := if q in w.files then Some(w.files[q]) else None;
    var records := if replaced.Some? && replaced.value != id then w.records[replaced.value := w.records[replaced.value].(path := None)]
                   else w.records;
    w.(files := (w.files - {p})[q := id],
       records := records[id := records[id].(path := Some(q), fallback := false)],
       opens := RetargetFile(w.opens, id, q, replaced),
       dirty := true)
  }

  /** Nothing is at or under `q`, except possibly a directory at `q` itself. */
  predicate Vacant(w: Space, q: Path) {
    q !in w.files && !HasChildren(w, q)
  }

  /** A directory rename does not merge paths. */
  lemma MovedInjective(w: Space, p: Path, q: Path, k: Path, l: Path)
    requires Vacant(w, q) && k in w.dirs - {q} + w.files.Keys && l in w.dirs - {q} + w.files.Keys
    requires Moved(k, p, q) == Moved(l, p, q)
    ensures k == l
  {
    if AtOrUnder(p, k) && AtOrUnder(p, l) {
      RebaseInjective(k, l, p, q);
    } else if AtOrUnder(p, k) {
      RebaseUnder(k, p, q);
    } else if AtOrUnder(p, l) {
      RebaseUnder(l, p, q);
    }
  }

  function MovedDirs(w: Space, p: Path, q: Path): set<Path> {
    set d | d in w.dirs && d != q :: Moved(d, p, q)
  }

  function MovedFiles(w: Space, p: Path, q: Path): map<Path, nat>
    requires Vacant(w, q)
  {
    assert forall k, l | k in w.files && l in w.files && Moved(k, p, q) == Moved(l, p, q) :: k == l by {
      forall k, l | k in w.files && l in w.files && Moved(k, p, q) == Moved(l, p, q) ensures k == l {
        MovedInjective(w, p, q, k, l);
      }
    }
    map k | k in w.files :: Moved(k, p, q) := w.files[k]
  }

  function MovedRecords(w: Space, p: Path, q: Path): seq<Rec> {
    seq(|w.records|, id requires 0 <= id < |w.records| =>
      var r := w.records[id];
      if r.path.Some? && r.path.value in w.files && w.files[r.path.value] == id && AtOrUnder(p, r.path.value)
      then r.(path := Some(Rebase(r.path.value, p, q))) else r)
  }

  function MovedOpens(opens: map<nat, Open>, p: Path, q: Path): map<nat, Open> {
    map fd | fd in opens ::
      var o := opens[fd];
      if o.path.Some? && AtOrUnder(p, o.path.value) then o.(path := Some(Rebase(o.path.value, p, q))) else o
  }

  function RenameDirectory(w: Space, p: Path, q: Path): Space
    requires Vacant(w, q)
  {
    w.(dirs := MovedDirs(w, p, q), files := MovedFiles(w, p, q), records := MovedRecords(w, p, q),
       opens := MovedOpens(DetachDir(w.opens, q), p, q), dirty := true)
  }

  /** The checks of `path_rename`; `Success` means that it goes ahead. */
  function RenameStatus(w: Space, p: Path, q: Path): Errno {
    var from, to := KindOf(w, p), KindOf(w, q);
    if from.Nothing? then NoEntry
    else if from.ADirectory? && Under(p, q) then Invalid
    else if to.Nothing? then ParentStatus(w, q)
    else if from.AFile? then if to.ADirectory? then IsDir else Success
    else if to.AFile? then NotDir
    else if HasChildren(w, q) then NotEmpty
    else Success
  }

  predicate RecordsKnown(w: Space) {
    forall k :: k in w.files ==> w.files[k] < |w.records|
  }

  function Rename(w: Space, p: Path, q: Path): Answer
    requires RecordsKnown(w)
  {
    if p == "" || q == "" then Answer(w, NotCapable)
    else if p == q then Answer(w, if KindOf(w, p).Nothing? then NoEntry else Success)
    else if RenameStatus(w, p, q) != Success then Answer(w, RenameStatus(w, p, q))
    else if p in w.files then Answer(RenameFile(w, p, q), Success)
    else Answer(RenameDirectory(w, p, q), Success)
  }

  // ----- File contents -----

  function Grown(bytes: seq<Byte>, size: nat): (r: seq<Byte>)
    ensures |r| == if |bytes| < size then size else |bytes|
  {
    if |bytes| < size then bytes + Zeros(size - |bytes|) else bytes
  }

  /** The bytes after `chunk` was written at `offset`. */
  function Overlaid(bytes: seq<Byte>, offset: nat, chunk: seq<Byte>): seq<Byte> {
    var b := Grown(bytes, offset + |chunk|);
    b[..offset] + chunk + b[offset + |chunk|..]
  }

  datatype Chunks = NoChunk | Chunk(bytes: seq<Byte>, rest: Chunks)

  function WrittenBytes(bytes: seq<Byte>, offset: nat, chunks: Chunks): seq<Byte>
    decreases chunks
  {
    if chunks.NoChunk? then bytes else WrittenBytes(Overlaid(bytes, offset, chunks.bytes), offset + |chunks.bytes|, chunks.rest)
  }

  /** The `changed` flag of the write loop. */
  predicate WriteChanges(bytes: seq<Byte>, offset: nat, chunks: Chunks)
    decreases chunks
  {
    chunks.Chunk? &&
      (offset + |chunks.bytes| > |bytes| || chunks.bytes != [] ||
       WriteChanges(Overlaid(bytes, offset, chunks.bytes), offset + |chunks.bytes|, chunks.rest))
  }

  /** New contents for an open file, which is then part of the workspace, and the dirty flag. */
  function SetContents(w: Space, id: nat, bytes: seq<Byte>): Space
    requires id < |w.records|
  {
    w.(records := w.records[id := w.records[id].(bytes := bytes, fallback := false)], dirty := true)
  }

  function Write(w: Space, fd: nat, offset: nat, chunks: Chunks): Answer {
    if fd !in w.opens then Answer(w, BadF)
    else
      var o := w.opens[fd];
      if o.OpenDir? then Answer(w, IsDir)
      else if !o.rights.write || o.record >= |w.records| then Answer(w, NotCapable)
      else
        var bytes := w.records[o.record].bytes;
        if WriteChanges(bytes, offset, chunks)
        then Answer(SetContents(w, o.record, WrittenBytes(bytes, offset, chunks)), Success)
        else Answer(w, Success)
  }

  function Resize(w: Space, fd: nat, size: nat): Answer {
    if fd !in w.opens then Answer(w, BadF)
    else
      var o := w.opens[fd];
      if o.OpenDir? then Answer(w, IsDir)
      else if !o.rights.resize || o.record >= |w.records| then Answer(w, NotCapable)
      else
        var bytes := w.records[o.record].bytes;
        if |bytes| == size then Answer(w, Success)
        else Answer(SetContents(w, o.record, Grown(bytes, size)[..size]), Success)
  }

  /** `size` is where the allocated range ends, zero for an empty one. */
  function Allocate(w: Space, fd: nat, size: nat): Answer {
    if fd !in w.opens then Answer(w, BadF)
    else
      var o := w.opens[fd];
      if o.OpenDir? then Answer(w, IsDir)
      else if !o.rights.allocate || o.record >= |w.records| then Answer(w, NotCapable)
      else
        var bytes := w.records[o.record].bytes;
        if size <= |bytes| then Answer(w, Success) else Answer(SetContents(w, o.record, Grown(bytes, size)), Success)
  }

  function SetRights(w: Space, fd: nat, rights: Rights): Answer {
    if fd !in w.opens then Answer(w, BadF)
    else
      var o := w.opens[fd];
      if o.OpenDir? then Answer(w, Success)
      else if !rights.Within(o.rights) then Answer(w, NotCapable)
      else Answer(w.(opens := w.opens[fd := o.(rights := rights)]), Success)
  }

  function CloseFd(w: Space, fd: nat): Answer {
    if fd in w.opens then Answer(w.(opens := w.opens - {fd}), Success) else Answer(w, BadF)
  }

  function DupFd(w: Space, fd: nat, to: nat): Answer {
    if fd in w.opens then Answer(w.(opens := w.opens[to := w.opens[fd]]), Success) else Answer(w, BadF)
  }

  // ----- Runs -----

  datatype Call =
    | DoOpen(fd: nat, p: Path, create: bool, excl: bool, trunc: bool, rights: Rights)
    | DoOpenDirectory(fd: nat, p: Path)
    | DoMakeDirectory(p: Path)
    | DoUnlink(p: Path)
    | DoRemoveDirectory(base: Path, p: Path)
    | DoRename(p: Path, q: Path)
    | DoWrite(fd: nat, offset: nat, chunks: Chunks)
    | DoResize(fd: nat, size: nat)
    | DoAllocate(fd: nat, size: nat)
    | DoSetRights(fd: nat, rights: Rights)
    | DoClose(fd: nat)
    | DoDup(fd: nat, to: nat)

  function Step(w: Space, c: Call): Answer
    requires RecordsKnown(w)
  {
    match c
    case DoOpen(fd, p, create, excl, trunc, rights) => OpenPath(w, fd, p, create, excl, trunc, rights)
    case DoOpenDirectory(fd, p) => OpenDirectory(w, fd, p)
    case DoMakeDirectory(p) => MakeDirectory(w, p)
    case DoUnlink(p) => Unlink(w, p)
    case DoRemoveDirectory(base, p) => RemoveDirectory(w, base, p)
    case DoRename(p, q) => Rename(w, p, q)
    case DoWrite(fd, offset, chunks) => Write(w, fd, offset, chunks)
    case DoResize(fd, size) => Resize(w, fd, size)
    case DoAllocate(fd, size) => Allocate(w, fd, size)
    case DoSetRights(fd, rights) => SetRights(w, fd, rights)
    case DoClose(fd) => CloseFd(w, fd)
    case DoDup(fd, to) => DupFd(w, fd, to)
  }

  datatype Calls = Done | Then(call: Call, rest: Calls)
}
