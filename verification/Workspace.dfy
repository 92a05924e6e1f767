/** The workspace calls as the runtime makes them: the directory set, the file map, the file
    records and the open descriptors updated in place. Each method does what the function of
    the same name says. */
module Workspace {
  import opened Bytes
  import opened Paths
  import opened Namespace
  import opened NamespaceRuns

  /** `opens` with the descriptors in `todo` still as they were. */
  predicate PartlyDone(opens: map<nat, Open>, before: map<nat, Open>, after: map<nat, Open>, todo: set<nat>)
    requires before.Keys == after.Keys
  {
    opens.Keys == before.Keys && forall fd :: fd in opens ==> opens[fd] == if fd in todo then before[fd] else after[fd]
  }

  /** Whether `k`'s record is one the loop over the files has already moved. */
  predicate RecordsPartlyDone(records: seq<Rec>, w: Space, p: Path, q: Path, todo: set<Path>) {
    && |records| == |w.records|
    && forall id :: 0 <= id < |records| ==>
         records[id] == if w.records[id].path.Some? && w.records[id].path.value in todo then w.records[id]
                        else MovedRecords(w, p, q)[id]
  }

  lemma RecordsStep(records: seq<Rec>, w: Space, p: Path, q: Path, todo: set<Path>, k: Path)
    requires PathsKnown(w) && k in todo && k in w.files && RecordsPartlyDone(records, w, p, q, todo)
    ensures var id := w.files[k];
            var next := if AtOrUnder(p, k) then records[id := records[id].(path := Some(Rebase(k, p, q)))] else records;
            RecordsPartlyDone(next, w, p, q, todo - {k})
  {
    MovedRecordAt(w, p, q, k);
  }

  /** The files collected once those in `todo` are left. */
  predicate FilesPartlyDone(moved: map<Path, nat>, w: Space, p: Path, q: Path, todo: set<Path>)
    requires Vacant(w, q)
  {
    && (forall k' :: k' in moved ==> k' in MovedFiles(w, p, q) && moved[k'] == MovedFiles(w, p, q)[k'])
    && (forall k :: k in w.files && k !in todo ==> Moved(k, p, q) in moved)
  }

  lemma FilesStep(moved: map<Path, nat>, w: Space, p: Path, q: Path, todo: set<Path>, k: Path)
    requires Vacant(w, q) && k in todo && k in w.files && FilesPartlyDone(moved, w, p, q, todo)
    ensures FilesPartlyDone(moved[Moved(k, p, q) := w.files[k]], w, p, q, todo - {k})
  {
    MovedFileAt(w, p, q, k);
  }

  lemma FilesDone(moved: map<Path, nat>, w: Space, p: Path, q: Path)
    requires Vacant(w, q) && FilesPartlyDone(moved, w, p, q, {})
    ensures moved == MovedFiles(w, p, q)
  {
    forall k' | k' in MovedFiles(w, p, q) ensures k' in moved {
      var k := MovedFileFrom(w, p, q, k');
    }
  }

  lemma FilesStart(w: Space, p: Path, q: Path)
    requires Vacant(w, q) && PathsKnown(w)
    ensures FilesPartlyDone(map[], w, p, q, w.files.Keys) && RecordsPartlyDone(w.records, w, p, q, w.files.Keys)
  {
  }

  lemma RecordsDone(records: seq<Rec>, w: Space, p: Path, q: Path)
    requires RecordsPartlyDone(records, w, p, q, {})
    ensures records == MovedRecords(w, p, q)
  {
  }

  class Workspace {
    var dirs: set<Path>
    var files: map<Path, nat>
    var records: seq<Rec>
    var opens: map<nat, Open>
    var dirty: bool

    function Now(): Space
      reads this
    {
      Space(dirs, files, records, opens, dirty)
    }

    /** Mounts the directories and files of a snapshot, and the packaged files it does not have. */
    constructor (dirs: set<Path>, files: map<Path, nat>, records: seq<Rec>)
      ensures Now() == Space(dirs, files, records, map[], false)
    {
      this.dirs, this.files, this.records, opens, dirty := dirs, files, records, map[], false;
    }

    method PathHasChildren(p: Path) returns (r: bool)
      ensures r == HasChildren(Now(), p)
    {
      var todo := dirs;
      while todo != {}
        invariant todo <= dirs
        invariant forall d :: d in dirs && d !in todo ==> !Under(p, d)
        decreases todo
      {
        var d :| d in todo;
        if Under(p, d) {
          return true;
        }
        todo := todo - {d};
      }
      todo := files.Keys;
      while todo != {}
        invariant todo <= files.Keys
        invariant forall f :: f in files && f !in todo ==> !Under(p, f)
        decreases todo
      {
        var f :| f in todo;
        if Under(p, f) {
          return true;
        }
        todo := todo - {f};
      }
      r := false;
    }

    method DetachOpenWorkspaceFile(p: Path)
      modifies this`opens
      ensures opens == DetachFile(old(opens), p)
    {
      var todo := opens.Keys;
      ghost var after := DetachFile(opens, p);
      while todo != {}
        invariant todo <= opens.Keys && after.Keys == old(opens).Keys
        invariant PartlyDone(opens, old(opens), after, todo)
        decreases todo
      {
        var fd :| fd in todo;
        if opens[fd].OpenFile? && opens[fd].path == Some(p) {
          opens := opens[fd := opens[fd].(path := None)];
        }
        todo := todo - {fd};
      }
    }

    method DetachOpenWorkspaceDirectory(p: Path)
      modifies this`opens
      ensures opens == DetachDir(old(opens), p)
    {
      var todo := opens.Keys;
      ghost var after := DetachDir(opens, p);
      while todo != {}
        invariant todo <= opens.Keys && after.Keys == old(opens).Keys
        invariant PartlyDone(opens, old(opens), after, todo)
        decreases todo
      {
        var fd :| fd in todo;
        if opens[fd] == OpenDir(Some(p)) {
          opens := opens[fd := OpenDir(None)];
        }
        todo := todo - {fd};
      }
    }

    method OpenWorkspaceFile(fd: nat, p: Path, create: bool, excl: bool, trunc: bool, rights: Rights) returns (errno: Errno)
      requires Coherent(Now())
      modifies this
      ensures Answer(Now(), errno) == OpenPath(old(Now()), fd, p, create, excl, trunc, rights)
    {
      if (create || trunc) && !rights.write && !rights.allocate {
        return NotCapable;
      }
      var hasChildren := PathHasChildren(p);
      if p in dirs || hasChildren {
        return IsDir;
      }
      if ParentStatus(Now(), p) != Success {
        return ParentStatus(Now(), p);
      }
      var mutated := false;
      if p !in files {
        if !create {
          return NoEntry;
        }
        files := files[p := |records|];
        records := records + [Rec(Some(p), [], false)];
        mutated := true;
      } else if create && excl {
        return Exists;
      }
      var id := files[p];
      if trunc {
        records := records[id := records[id].(bytes := [], fallback := false)];
        mutated := true;
      }
      if mutated {
        dirty := true;
      }
      opens := opens[fd := OpenFile(Some(p), id, rights)];
      errno := Success;
    }

    method CreateWorkspaceDirectory(p: Path) returns (errno: Errno)
      modifies this
      ensures Answer(Now(), errno) == MakeDirectory(old(Now()), p)
    {
      if p in dirs || p in files {
        return Exists;
      }
      if ParentStatus(Now(), p) != Success {
        return ParentStatus(Now(), p);
      }
      dirs := dirs + {p};
      dirty := true;
      errno := Success;
    }

    method UnlinkWorkspaceFile(p: Path) returns (errno: Errno)
      modifies this
      ensures Answer(Now(), errno) == Unlink(old(Now()), p)
    {
      var hasChildren := PathHasChildren(p);
      if p in dirs || hasChildren {
        return IsDir;
      }
      if p !in files {
        return NoEntry;
      }
      DetachOpenWorkspaceFile(p);
      files := files - {p};
      dirty := true;
      errno := Success;
    }

    method RemoveWorkspaceDirectory(base: Path, p: Path) returns (errno: Errno)
      modifies this
      ensures Answer(Now(), errno) == RemoveDirectory(old(Now()), base, p)
    {
      if p == base {
        return NotCapable;
      }
      if p in files {
        return NotDir;
      }
      if ParentStatus(Now(), p) != Success {
        return ParentStatus(Now(), p);
      }
      var hasChildren := PathHasChildren(p);
      if p !in dirs {
        return if hasChildren then NotEmpty else NoEntry;
      }
      if hasChildren {
        return NotEmpty;
      }
      DetachOpenWorkspaceDirectory(p);
      dirs := dirs - {p};
      dirty := true;
      errno := Success;
    }

    /** Points the descriptors of a renamed file at its new path, and those of the file it
        replaced at none. */
    method RetargetOpenFiles(moved: nat, q: Path, replaced: Option<nat>)
      modifies this`opens
      ensures opens == RetargetFile(old(opens), moved, q, replaced)
    {
      var todo := opens.Keys;
      ghost var after := RetargetFile(opens, moved, q, replaced);
      while todo != {}
        invariant todo <= opens.Keys && after.Keys == old(opens).Keys
        invariant PartlyDone(opens, old(opens), after, todo)
        decreases todo
      {
        var fd :| fd in todo;
        if opens[fd].OpenFile? {
          if opens[fd].record == moved {
            opens := opens[fd := opens[fd].(path := Some(q))];
          } else if replaced == Some(opens[fd].record) {
            opens := opens[fd := opens[fd].(path := None)];
          }
        }
        todo := todo - {fd};
      }
    }

    method RenameWorkspaceFile(p: Path, q: Path)
      requires Coherent(Now()) && p in files && p != q
      modifies this
      ensures Now() == RenameFile(old(Now()), p, q)
    {
      var id := files[p];
      var replaced := if q in files then Some(files[q]) else None;
      if replaced.Some? && replaced.value != id {
        records := records[replaced.value := records[replaced.value].(path := None)];
      }
      files := files - {p};
      records := records[id := records[id].(fallback := false)];
      records := records[id := records[id].(path := Some(q))];
      files := files[q := id];
      RetargetOpenFiles(id, q, replaced);
      dirty := true;
    }

    /** The directories with their new prefix, collected one by one. */
    method MoveDirs(p: Path, q: Path)
      modifies this`dirs
      ensures dirs == MovedDirs(old(Now()), p, q)
    {
      var todo := dirs - {q};
      var moved: set<Path> := {};
      ghost var done: set<Path> := {};
      while todo != {}
        invariant todo !! done && todo + done == old(dirs) - {q}
        invariant moved == set d | d in done :: Moved(d, p, q)
        decreases todo
      {
        var d :| d in todo;
        if AtOrUnder(p, d) {
          moved := moved + {Rebase(d, p, q)};
        } else {
          moved := moved + {d};
        }
        todo, done := todo - {d}, done + {d};
      }
      assert done == old(dirs) - {q};
      assert moved == MovedDirs(old(Now()), p, q);
      dirs := moved;
    }

    /** The files with their new prefix, and the records told about it. */
    method MoveFiles(p: Path, q: Path, ghost w: Space)
      requires files == w.files && records == w.records && PathsKnown(w) && Vacant(w, q)
      modifies this`files, this`records
      ensures files == MovedFiles(w, p, q) && records == MovedRecords(w, p, q)
    {
      var todo := files.Keys;
      var moved: map<Path, nat> := map[];
      FilesStart(w, p, q);
      while todo != {}
        invariant todo <= files.Keys && files == w.files && |records| == |w.records|
        invariant FilesPartlyDone(moved, w, p, q, todo) && RecordsPartlyDone(records, w, p, q, todo)
        decreases todo
      {
        var k :| k in todo;
        FilesStep(moved, w, p, q, todo, k);
        RecordsStep(records, w, p, q, todo, k);
        var id := files[k];
        if AtOrUnder(p, k) {
          records := records[id := records[id].(path := Some(Rebase(k, p, q)))];
          moved := moved[Rebase(k, p, q) := id];
        } else {
          moved := moved[k := id];
        }
        todo := todo - {k};
      }
      FilesDone(moved, w, p, q);
      RecordsDone(records, w, p, q);
      files := moved;
    }

    method MoveOpens(p: Path, q: Path)
      modifies this`opens
      ensures opens == MovedOpens(old(opens), p, q)
    {
      var todo := opens.Keys;
      ghost var after := MovedOpens(opens, p, q);
      while todo != {}
        invariant todo <= opens.Keys && after.Keys == old(opens).Keys
        invariant PartlyDone(opens, old(opens), after, todo)
        decreases todo
      {
        var fd :| fd in todo;
        var o := opens[fd];
        if o.path.Some? && AtOrUnder(p, o.path.value) {
          opens := opens[fd := o.(path := Some(Rebase(o.path.value, p, q)))];
        }
        todo := todo - {fd};
      }
    }

    method RenameWorkspaceDirectory(p: Path, q: Path)
      requires Coherent(Now()) && Vacant(Now(), q)
      modifies this
      ensures Now() == RenameDirectory(old(Now()), p, q)
    {
      DetachOpenWorkspaceDirectory(q);
      MoveDirs(p, q);
      MoveFiles(p, q, old(Now()));
      MoveOpens(p, q);
      dirty := true;
    }

    method RenameWorkspacePath(p: Path, q: Path) returns (errno: Errno)
      requires Coherent(Now())
      modifies this
      ensures Answer(Now(), errno) == Rename(old(Now()), p, q)
    {
      if p == "" || q == "" {
        return NotCapable;
      }
      var from, to := KindOf(Now(), p), KindOf(Now(), q);
      if p == q {
        return if from.Nothing? then NoEntry else Success;
      }
      if from.Nothing? {
        return NoEntry;
      }
      if from.ADirectory? && Under(p, q) {
        return Invalid;
      }
      if to.Nothing? {
        if ParentStatus(Now(), q) != Success {
          return ParentStatus(Now(), q);
        }
      } else if from.AFile? {
        if to.ADirectory? {
          return IsDir;
        }
      } else if to.AFile? {
        return NotDir;
      } else {
        var hasChildren := PathHasChildren(q);
        if hasChildren {
          return NotEmpty;
        }
      }
      if from.AFile? {
        RenameWorkspaceFile(p, q);
      } else {
        RenameWorkspaceDirectory(p, q);
      }
      errno := Success;
    }

    /** One chunk at `at`, growing the file if it ends past its end. */
    static method WriteChunk(bytes: seq<Byte>, at: nat, chunk: seq<Byte>) returns (r: seq<Byte>, changed: bool)
      ensures r == Overlaid(bytes, at, chunk)
      ensures changed == (at + |chunk| > |bytes| || chunk != [])
      ensures !changed ==> r == bytes
    {
      r, changed := bytes, false;
      var end := at + |chunk|;
      if end > |r| {
        r := r + Zeros(end - |r|);
        changed := true;
      }
      r := r[..at] + chunk + r[end..];
      if chunk != [] {
        changed := true;
      }
    }

    /** The chunks one after the other from `offset` on, and whether they changed anything. */
    static method WriteChunks(bytes: seq<Byte>, offset: nat, chunks: Chunks) returns (r: seq<Byte>, changed: bool)
      ensures r == WrittenBytes(bytes, offset, chunks) && changed == WriteChanges(bytes, offset, chunks)
      ensures !changed ==> r == bytes
    {
      r, changed := bytes, false;
      var at: nat, todo := offset, chunks;
      while todo.Chunk?
        invariant WrittenBytes(r, at, todo) == WrittenBytes(bytes, offset, chunks)
        invariant changed || WriteChanges(r, at, todo) <==> WriteChanges(bytes, offset, chunks)
        invariant !changed ==> r == bytes
        decreases todo
      {
        var wrote;
        r, wrote := WriteChunk(r, at, todo.bytes);
        changed := changed || wrote;
        at, todo := at + |todo.bytes|, todo.rest;
      }
    }

    method WriteOpenFileAt(id: nat, offset: nat, chunks: Chunks)
      requires id < |records|
      modifies this`records, this`dirty
      ensures
        var w, bytes := old(Now()), old(records)[id].bytes;
        Now() == if WriteChanges(bytes, offset, chunks) then SetContents(w, id, WrittenBytes(bytes, offset, chunks)) else w
    {
      var bytes, changed := WriteChunks(records[id].bytes, offset, chunks);
      if changed {
        records := records[id := records[id].(bytes := bytes)];
        records := records[id := records[id].(fallback := false)];
        dirty := true;
      }
    }

    /** What the open file at `fd` is, or why it cannot be changed. */
    method OpenFileFor(fd: nat, right: Rights -> bool) returns (errno: Errno, id: nat)
      ensures errno == if fd !in opens then BadF else if opens[fd].OpenDir? then IsDir
                       else if !right(opens[fd].rights) || opens[fd].record >= |records| then NotCapable else Success
      ensures errno == Success ==> id == opens[fd].record < |records|
    {
      id := 0;
      if fd !in opens {
        return BadF, id;
      }
      if opens[fd].OpenDir? {
        return IsDir, id;
      }
      if !right(opens[fd].rights) || opens[fd].record >= |records| {
        return NotCapable, id;
      }
      return Success, opens[fd].record;
    }

    method FdPwrite(fd: nat, offset: nat, chunks: Chunks) returns (errno: Errno)
      modifies this`records, this`dirty
      ensures Answer(Now(), errno) == Write(old(Now()), fd, offset, chunks)
    {
      var id;
      errno, id := OpenFileFor(fd, (r: Rights) => r.write);
      if errno == Success {
        WriteOpenFileAt(id, offset, chunks);
      }
    }

    /** A new buffer of the given size, with as much of the old one as there is room for. */
    method ResizeOpenFile(id: nat, size: nat) returns (changed: bool)
      requires id < |records|
      modifies this`records
      ensures changed == (|old(records)[id].bytes| != size)
      ensures records == old(records)[id := old(records)[id].(bytes := Grown(old(records)[id].bytes, size)[..size])]
    {
      var bytes := records[id].bytes;
      if |bytes| == size {
        assert bytes[..size] == bytes;
        return false;
      }
      var kept := if |bytes| < size then |bytes| else size;
      var next := bytes[..kept] + Zeros(size - kept);
      assert next == Grown(bytes, size)[..size];
      records := records[id := records[id].(bytes := next)];
      changed := true;
    }

    method MarkOpenFileDirty(id: nat)
      requires id < |records|
      modifies this`records, this`dirty
      ensures Now() == SetContents(old(Now()), id, old(records)[id].bytes)
    {
      records := records[id := records[id].(fallback := false)];
      dirty := true;
    }

    method FdFilestatSetSize(fd: nat, size: nat) returns (errno: Errno)
      modifies this`records, this`dirty
      ensures Answer(Now(), errno) == Resize(old(Now()), fd, size)
    {
      var id;
      errno, id := OpenFileFor(fd, (r: Rights) => r.resize);
      if errno == Success {
        var changed := ResizeOpenFile(id, size);
        if changed {
          MarkOpenFileDirty(id);
        } else {
          assert old(records)[id].bytes[..size] == old(records)[id].bytes;
        }
      }
    }

    method FdAllocate(fd: nat, size: nat) returns (errno: Errno)
      modifies this`records, this`dirty
      ensures Answer(Now(), errno) == Allocate(old(Now()), fd, size)
    {
      var id;
      errno, id := OpenFileFor(fd, (r: Rights) => r.allocate);
      if errno == Success && size > |records[id].bytes| {
        assert Grown(records[id].bytes, size)[..size] == Grown(records[id].bytes, size);
        var changed := ResizeOpenFile(id, size);
        if changed {
          MarkOpenFileDirty(id);
        }
      }
    }

    method OpenWorkspaceDirectory(fd: nat, p: Path) returns (errno: Errno)
      modifies this`opens
      ensures Answer(Now(), errno) == OpenDirectory(old(Now()), fd, p)
    {
      if p in files {
        return NotDir;
      }
      var below := PathHasChildren(p);
      if p != "" && p !in dirs && !below {
        return NoEntry;
      }
      opens := opens[fd := OpenDir(Some(p))];
      errno := Success;
    }
  }
}
