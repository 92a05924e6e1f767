/** The descriptor calls as the runtime makes them: `openFiles` and the pipes updated in place,
    one statement at a time. Each method does what the function of the same name says. */
module Kernel {
  import opened Bytes
  import opened Descriptors
  import DescriptorRuns

  lemma AdjustedStep(pipes: seq<Pipe>, files: map<nat, Desc>, fd: nat, d: Desc, delta: int)
    requires fd !in files && (delta == 1 || delta == -1)
    ensures AdjustedAll(pipes, files[fd := d], delta) == Adjusted(AdjustedAll(pipes, files, delta), d, delta)
  {
    var less, more := AdjustedAll(pipes, files, delta), AdjustedAll(pipes, files[fd := d], delta);
    forall id | 0 <= id < |pipes| ensures more[id] == Adjusted(less, d, delta)[id] {
      DescriptorRuns.FileEndsSet(files, fd, d, id, ReadEnd);
      DescriptorRuns.FileEndsSet(files, fd, d, id, WriteEnd);
    }
  }

  lemma AdjustedNone(pipes: seq<Pipe>, delta: int)
    ensures AdjustedAll(pipes, map[], delta) == pipes
  {
    forall id | 0 <= id < |pipes| ensures AdjustedAll(pipes, map[], delta)[id] == pipes[id] {
      assert FileEnds(map[], id, ReadEnd) == {} && FileEnds(map[], id, WriteEnd) == {};
    }
  }

  /** The descriptors of `files` at the numbers in `fds`. */
  function Part(files: map<nat, Desc>, fds: set<nat>): map<nat, Desc> {
    map fd | fd in files && fd in fds :: files[fd]
  }

  lemma PartStep(files: map<nat, Desc>, fds: set<nat>, fd: nat)
    requires fd in files && fd !in fds
    ensures Part(files, fds + {fd}) == Part(files, fds)[fd := files[fd]]
  {
  }

  lemma PartEnds(files: map<nat, Desc>)
    ensures Part(files, files.Keys) == files && Part(files, {}) == map[]
  {
  }

  // ----- Closing a whole table -----

  lemma EndsAtLeast(s: State, rt: nat, id: nat, e: End)
    requires rt in s.tables
    ensures Ends(s.tables, id, e) >= |FileEnds(s.tables[rt].files, id, e)|
  {
    DescriptorRuns.EndsUpdate(s.tables, rt, s.tables[rt].(files := map[]), id, e);
    assert FileEnds(map[], id, e) == {};
  }

  lemma StillOpen(files: map<nat, Desc>, closed: set<nat>, fd: nat, id: nat, e: End)
    requires fd in files && fd !in closed && IsEnd(files[fd], id, e)
    ensures |FileEnds(Part(files, closed), id, e)| < |FileEnds(files, id, e)|
  {
    var some, all := FileEnds(Part(files, closed), id, e), FileEnds(files, id, e);
    assert some <= all - {fd};
    SubsetSize(some, all - {fd});
  }

  /** However many of a runtime's descriptors are closed already, closing the next never meets a zero
      counter either. */
  lemma ClampIdleMidway(s: State, rt: nat, closed: set<nat>, fd: nat)
    requires Counted(s) && rt in s.tables && fd in s.tables[rt].files && fd !in closed
    ensures
      var d, pipes := s.tables[rt].files[fd], AdjustedAll(s.pipes, Part(s.tables[rt].files, closed), -1);
      d.PipeEnd? && d.pipe < |pipes| ==> Count(pipes[d.pipe], d.end) > 0
  {
    var files := s.tables[rt].files;
    var d := files[fd];
    if d.PipeEnd? && d.pipe < |s.pipes| {
      assert Count(s.pipes[d.pipe], d.end) == Ends(s.tables, d.pipe, d.end);
      EndsAtLeast(s, rt, d.pipe, d.end);
      StillOpen(files, closed, fd, d.pipe, d.end);
    }
  }

  // ----- Guest buffers -----

  /** The guest's buffers, one after the other. */
  function Flat(chunks: seq<seq<Byte>>): seq<Byte> {
    if chunks == [] then [] else Flat(chunks[..|chunks| - 1]) + chunks[|chunks| - 1]
  }

  /** What buffers of these sizes hold together. */
  function Room(sizes: seq<nat>): nat {
    if sizes == [] then 0 else Room(sizes[..|sizes| - 1]) + sizes[|sizes| - 1]
  }

  lemma FlatPush(chunks: seq<seq<Byte>>, i: nat)
    requires i < |chunks|
    ensures Flat(chunks[..i + 1]) == Flat(chunks[..i]) + chunks[i]
  {
    assert chunks[..i + 1][..i] == chunks[..i];
  }

  lemma {:induction false} FlatGrows(chunks: seq<seq<Byte>>, i: nat)
    requires i <= |chunks|
    ensures |Flat(chunks[..i])| <= |Flat(chunks)|
    decreases |chunks| - i
  {
    if i < |chunks| {
      FlatPush(chunks, i);
      FlatGrows(chunks, i + 1);
    } else {
      assert chunks[..i] == chunks;
    }
  }

  lemma {:induction false} RoomGrows(sizes: seq<nat>, i: nat)
    requires i <= |sizes|
    ensures Room(sizes[..i]) <= Room(sizes)
    decreases |sizes| - i
  {
    if i < |sizes| {
      assert sizes[..i + 1][..i] == sizes[..i];
      RoomGrows(sizes, i + 1);
    } else {
      assert sizes[..i] == sizes;
    }
  }

  lemma FlatAppend(filled: seq<seq<Byte>>, part: seq<Byte>)
    ensures Flat(filled + [part]) == Flat(filled) + part
  {
    assert (filled + [part])[..|filled|] == filled;
  }

  /** The buffers are filled in turn: one is left short only by the last. */
  predicate InTurn(filled: seq<seq<Byte>>, sizes: seq<nat>) {
    && |filled| <= |sizes|
    && forall i :: 0 <= i < |filled| ==> |filled[i]| <= sizes[i] && (i + 1 < |filled| ==> |filled[i]| == sizes[i])
  }

  predicate AskScattered(u: int, filled: seq<seq<Byte>>) {
    true
  }

  /** The buffers reached got the input from `start` on, and all that fits unless it ran out. */
  ghost predicate Scattered(input: seq<Byte>, start: nat, sizes: seq<nat>, total: nat, filled: seq<seq<Byte>>) {
    forall u {:trigger AskScattered(u, filled)} :: AskScattered(u, filled) ==>
      && start + total <= |input| && InTurn(filled, sizes) && Flat(filled) == input[start..start + total]
      && total <= Room(sizes[..|filled|])
      && (start + total < |input| ==> total == Room(sizes[..|filled|]) && (filled != [] ==> |filled[|filled| - 1]| == sizes[|filled| - 1]))
  }

  lemma ScatterStart(input: seq<Byte>, start: nat, sizes: seq<nat>)
    requires start <= |input|
    ensures Scattered(input, start, sizes, 0, [])
  {
    assert sizes[..0] == [];
  }

  lemma RoomStep(sizes: seq<nat>, i: nat)
    requires i < |sizes|
    ensures Room(sizes[..i + 1]) == Room(sizes[..i]) + sizes[i]
  {
    assert sizes[..i + 1][..i] == sizes[..i];
  }

  lemma ScatterMore(input: seq<Byte>, start: nat, sizes: seq<nat>, total: nat, filled: seq<seq<Byte>>, length: nat)
    requires Scattered(input, start, sizes, total, filled) && |filled| < |sizes| && start + total < |input|
    requires length == if sizes[|filled|] < |input| - (start + total) then sizes[|filled|] else |input| - (start + total)
    ensures Scattered(input, start, sizes, total + length, filled + [input[start + total..start + total + length]])
  {
    var part := input[start + total..start + total + length];
    assert AskScattered(0, filled);
    FlatAppend(filled, part);
    RoomStep(sizes, |filled|);
    assert input[start..start + total] + part == input[start..start + total + length];
  }

  lemma ScatterDone(input: seq<Byte>, start: nat, sizes: seq<nat>, total: nat, filled: seq<seq<Byte>>)
    requires Scattered(input, start, sizes, total, filled) && |filled| <= |sizes|
    requires |filled| == |sizes| || start + total >= |input|
    ensures total == (if Room(sizes) < |input| - start then Room(sizes) else |input| - start)
    ensures start + total <= |input| && Flat(filled) == input[start..start + total] && InTurn(filled, sizes)
  {
    assert AskScattered(0, filled);
    RoomGrows(sizes, |filled|);
    assert |filled| == |sizes| ==> sizes[..|filled|] == sizes;
  }

  /** Scatters the input from `start` on over buffers of the given sizes; `filled` is what each
      buffer reached was given. */
  method ReadIntoIovs(input: seq<Byte>, start: nat, sizes: seq<nat>) returns (total: nat, filled: seq<seq<Byte>>)
    ensures start + total <= |input| || total == 0
    ensures start <= |input| ==> total == (if Room(sizes) < |input| - start then Room(sizes) else |input| - start)
    ensures start <= |input| ==> Flat(filled) == input[start..start + total]
    ensures InTurn(filled, sizes)
  {
    total, filled := 0, [];
    var index := 0;
    if start <= |input| {
      ScatterStart(input, start, sizes);
    }
    while index < |sizes| && start + total < |input|
      invariant 0 <= index == |filled| <= |sizes|
      invariant start <= |input| ==> Scattered(input, start, sizes, total, filled)
      invariant start > |input| ==> total == 0 && filled == []
    {
      var available := |input| - (start + total);
      var readLength := if sizes[index] < available then sizes[index] else available;
      ScatterMore(input, start, sizes, total, filled, readLength);
      filled := filled + [input[start + total..start + total + readLength]];
      total := total + readLength;
      index := index + 1;
    }
    if start <= |input| {
      ScatterDone(input, start, sizes, total, filled);
    }
  }

  /** `next.set(chunk, offset)`. */
  method SetAt(next: array<Byte>, offset: nat, chunk: seq<Byte>)
    requires offset + |chunk| <= next.Length
    modifies next
    ensures next[..offset + |chunk|] == old(next[..offset]) + chunk
  {
    ghost var before := next[..offset];
    forall i | 0 <= i < |chunk| {
      next[offset + i] := chunk[i];
    }
    assert next[..offset] == before;
  }

  /** Copies the pipe's bytes and then each chunk into one new buffer. */
  method Gather(bytes: seq<Byte>, chunks: seq<seq<Byte>>, total: nat) returns (all: seq<Byte>)
    requires total == |Flat(chunks)|
    ensures all == bytes + Flat(chunks)
  {
    var next := new Byte[|bytes| + total](_ => 0);
    SetAt(next, 0, bytes);
    var offset := |bytes|;
    for k := 0 to |chunks|
      invariant offset == |bytes| + |Flat(chunks[..k])| <= next.Length
      invariant next[..offset] == bytes + Flat(chunks[..k])
    {
      FlatPush(chunks, k);
      FlatGrows(chunks, k + 1);
      SetAt(next, offset, chunks[k]);
      offset := offset + |chunks[k]|;
    }
    assert chunks[..|chunks|] == chunks;
    all := next[..];
    assert next[..offset] == all;
  }

  class Kernel {
    var tables: map<nat, Table>
    var pipes: seq<Pipe>

    constructor (preopen: bool)
      ensures Now() == Start(preopen)
    {
      tables := map[0 := Table(map[], if preopen then FIRST_FILE_FD + 1 else FIRST_FILE_FD, preopen)];
      pipes := [];
    }

    ghost function Now(): State
      reads this
    {
      State(tables, pipes)
    }

    method RetainOpenFile(d: Desc)
      modifies this`pipes
      ensures pipes == Adjusted(old(pipes), d, 1)
    {
      if !d.PipeEnd? || d.pipe >= |pipes| {
        return;
      }
      var p := pipes[d.pipe];
      if d.end == ReadEnd {
        pipes := pipes[d.pipe := p.(readers := p.readers + 1)];
      } else {
        pipes := pipes[d.pipe := p.(writers := p.writers + 1)];
      }
    }

    method CloseOpenFile(d: Desc)
      modifies this`pipes
      ensures pipes == Adjusted(old(pipes), d, -1)
    {
      if !d.PipeEnd? || d.pipe >= |pipes| {
        return;
      }
      var p := pipes[d.pipe];
      if d.end == ReadEnd {
        pipes := pipes[d.pipe := p.(readers := if p.readers > 0 then p.readers - 1 else 0)];
      } else {
        pipes := pipes[d.pipe := p.(writers := if p.writers > 0 then p.writers - 1 else 0)];
      }
    }

    /** Retains every descriptor of `rt`, one by one, into the table of the new runtime `child`. */
    method InheritOpenFiles(rt: nat, child: nat)
      requires rt in tables
      modifies this
      ensures Now() == Fork(old(Now()), rt, child)
    {
      var t := tables[rt];
      var copy: map<nat, Desc> := map[];
      var todo := t.files.Keys;
      ghost var done: set<nat> := {};
      PartEnds(t.files);
      AdjustedNone(pipes, 1);
      while todo != {}
        invariant todo !! done && todo + done == t.files.Keys
        invariant copy == Part(t.files, done)
        invariant pipes == AdjustedAll(old(pipes), copy, 1)
        invariant tables == old(tables)
        decreases todo
      {
        var fd :| fd in todo;
        PartStep(t.files, done, fd);
        AdjustedStep(old(pipes), copy, fd, t.files[fd], 1);
        RetainOpenFile(t.files[fd]);
        copy := copy[fd := t.files[fd]];
        todo, done := todo - {fd}, done + {fd};
      }
      assert done == t.files.Keys;
      tables := tables[child := Table(copy, t.next, t.preopen)];
    }

    /** Closes every descriptor of `rt`, one by one, and drops its table. */
    method CloseAllOpenFiles(rt: nat)
      requires rt in tables
      modifies this
      ensures Now() == Exit(old(Now()), rt)
    {
      var t := tables[rt];
      var todo := t.files.Keys;
      ghost var done: set<nat> := {};
      PartEnds(t.files);
      AdjustedNone(pipes, -1);
      while todo != {}
        invariant todo !! done && todo + done == t.files.Keys
        invariant pipes == AdjustedAll(old(pipes), Part(t.files, done), -1)
        invariant tables == old(tables)
        decreases todo
      {
        var fd :| fd in todo;
        PartStep(t.files, done, fd);
        AdjustedStep(old(pipes), Part(t.files, done), fd, t.files[fd], -1);
        CloseOpenFile(t.files[fd]);
        todo, done := todo - {fd}, done + {fd};
      }
      assert done == t.files.Keys;
      tables := tables - {rt};
    }

    method FdClose(rt: nat, fd: int) returns (reply: Reply)
      requires rt in tables
      modifies this
      ensures Turn(Now(), reply) == Close(old(Now()), rt, fd)
    {
      var t := tables[rt];
      if fd !in t.files {
        return Refused(BadF);
      }
      CloseOpenFile(t.files[fd]);
      tables := tables[rt := t.(files := t.files - {fd})];
      reply := Success;
    }

    method FdRenumber(rt: nat, fd: int, to: int) returns (reply: Reply)
      requires rt in tables
      modifies this
      ensures Turn(Now(), reply) == Renumber(old(Now()), rt, fd, to)
    {
      var t := tables[rt];
      if fd !in t.files {
        return Refused(if InUse(t, fd) then NotCapable else BadF);
      }
      if to < FIRST_FILE_FD && !IsStdioFd(to) {
        return Refused(NotCapable);
      }
      if IsStdioFd(to) && !MayReplaceStdio(t.files[fd]) {
        return Refused(NotCapable);
      }
      if fd == to {
        return Success;
      }
      if to in t.files {
        CloseOpenFile(t.files[to]);
      }
      var files := t.files - {fd};
      files := files[to := t.files[fd]];
      assert files == (t.files - {to} - {fd})[to := t.files[fd]];
      assert to !in t.files ==> t.files - {to} == t.files;
      tables := tables[rt := t.(files := files, next := if to >= FIRST_FILE_FD && to >= t.next then to + 1 else t.next)];
      reply := Success;
    }

    method DuplicateFd(rt: nat, fd: int) returns (reply: Reply)
      requires rt in tables
      modifies this
      ensures Turn(Now(), reply) == Dup(old(Now()), rt, fd)
    {
      var t := tables[rt];
      var d := Duplicate(t, fd);
      if d.None? {
        return Refused(BadF);
      }
      var to, next := AllocateDynamicFileFd(t, FIRST_FILE_FD);
      RetainOpenFile(d.value);
      tables := tables[rt := t.(files := t.files[to := d.value], next := next)];
      reply := Fd(to);
    }

    method DuplicateFdTo(rt: nat, fd: int, target: int) returns (reply: Reply)
      requires rt in tables
      modifies this
      ensures Turn(Now(), reply) == Dup2(old(Now()), rt, fd, target)
    {
      var t := tables[rt];
      var to := target % TWO32;
      if !InUse(t, fd) {
        return Refused(BadF);
      }
      if to < FIRST_FILE_FD && !IsStdioFd(to) {
        return Refused(NotCapable);
      }
      if fd == to {
        return Fd(to);
      }
      var d := Duplicate(t, fd);
      if IsStdioFd(to) && !MayReplaceStdio(d.value) {
        return Refused(NotCapable);
      }
      if to in t.files {
        CloseOpenFile(t.files[to]);
      }
      RetainOpenFile(d.value);
      assert t.files[to := d.value] == (t.files - {to})[to := d.value];
      tables := tables[rt := t.(files := t.files[to := d.value], next := if to >= FIRST_FILE_FD && to >= t.next then to + 1 else t.next)];
      reply := Fd(to);
    }

    /** Puts a descriptor at the lowest free number from `min` on. */
    method OpenAtLowest(rt: nat, min: nat, d: Desc) returns (fd: nat)
      requires rt in tables
      modifies this`tables
      ensures fd == Lowest(old(tables)[rt], From(min)) && fd >= FIRST_FILE_FD
      ensures Now() == SetFd(Reserve(old(Now()), rt, fd), rt, fd, d)
    {
      var t := tables[rt];
      var next;
      fd, next := AllocateDynamicFileFd(t, min);
      tables := tables[rt := t.(files := t.files[fd := d], next := next)];
    }

    method FdPipe(rt: nat) returns (reply: Reply)
      requires rt in tables
      modifies this
      ensures Turn(Now(), reply) == MakePipe(old(Now()), rt)
    {
      var id := |pipes|;
      pipes := pipes + [Pipe([], 1, 1)];
      var read := OpenAtLowest(rt, FIRST_FILE_FD, PipeEnd(id, ReadEnd, true));
      var write := OpenAtLowest(rt, read + 1, PipeEnd(id, WriteEnd, true));
      reply := TwoFds(read, write);
    }

    /** The last step of every open: the next number, whatever is free below it. */
    method InstallOpened(rt: nat, workspace: bool) returns (reply: Reply)
      requires rt in tables && tables[rt].next >= FIRST_FILE_FD
      modifies this`tables
      ensures Turn(Now(), reply) == Open(old(Now()), rt, workspace)
    {
      var t := tables[rt];
      var openedFd := t.next;
      tables := tables[rt := t.(files := t.files[openedFd := Plain(workspace)], next := openedFd + 1)];
      reply := Fd(openedFd);
    }

    method FdFdstatSetRights(rt: nat, fd: int, transfer: bool) returns (reply: Reply)
      requires rt in tables
      modifies this`tables
      ensures Turn(Now(), reply) == SetRights(old(Now()), rt, fd, transfer)
    {
      var t := tables[rt];
      if !InUse(t, fd) {
        return Refused(BadF);
      }
      if fd in t.files && t.files[fd].PipeEnd? {
        if transfer && !t.files[fd].transfer {
          return Refused(NotCapable);
        }
        tables := tables[rt := t.(files := t.files[fd := t.files[fd].(transfer := transfer)])];
      }
      reply := Success;
    }

    method FdWritePipe(rt: nat, fd: int, chunks: seq<seq<Byte>>) returns (reply: Reply)
      requires OnPipe(Now(), rt, fd)
      modifies this`pipes
      ensures Turn(Now(), reply) == WritePipe(old(Now()), rt, fd, Flat(chunks))
    {
      var d := tables[rt].files[fd];
      var p := pipes[d.pipe];
      if d.end != WriteEnd {
        return Refused(BadF);
      }
      if !d.transfer {
        return Refused(NotCapable);
      }
      if p.readers <= 0 {
        return Refused(BrokenPipe);
      }
      var total := |Flat(chunks)|;
      if |p.bytes| + total > PIPE_BUFFER_LIMIT {
        return Refused(Again);
      }
      var next := Gather(p.bytes, chunks, total);
      pipes := pipes[d.pipe := p.(bytes := next)];
      reply := Written(total);
    }

    /** `sizes` are the guest's buffers, `filled` what they are given. */
    method FdReadPipe(rt: nat, fd: int, sizes: seq<nat>) returns (reply: Reply, filled: seq<seq<Byte>>)
      requires OnPipe(Now(), rt, fd)
      modifies this`pipes
      ensures Turn(Now(), reply) == ReadPipe(old(Now()), rt, fd, Room(sizes))
      ensures InTurn(filled, sizes) && Flat(filled) == if reply.Received? then reply.bytes else []
    {
      filled := [];
      var d := tables[rt].files[fd];
      var p := pipes[d.pipe];
      if d.end != ReadEnd {
        return Refused(BadF), filled;
      }
      if !d.transfer {
        return Refused(NotCapable), filled;
      }
      if |p.bytes| == 0 {
        return if p.writers > 0 then Refused(Again) else Received([]), filled;
      }
      var total;
      total, filled := ReadIntoIovs(p.bytes, 0, sizes);
      pipes := pipes[d.pipe := p.(bytes := p.bytes[total..])];
      reply := Received(p.bytes[..total]);
    }

    method ReadPipeInputBytes(rt: nat, fd: int) returns (reply: Reply)
      requires OnPipe(Now(), rt, fd)
      modifies this`pipes
      ensures Turn(Now(), reply) == DrainPipe(old(Now()), rt, fd)
    {
      var d := tables[rt].files[fd];
      var p := pipes[d.pipe];
      if d.end != ReadEnd || !d.transfer {
        return Thrown;
      }
      assert p.bytes[|p.bytes|..] == [];
      pipes := pipes[d.pipe := p.(bytes := [])];
      reply := Received(p.bytes);
    }

    method WriteBytesToPipe(rt: nat, fd: int, bytes: seq<Byte>) returns (reply: Reply)
      requires OnPipe(Now(), rt, fd)
      modifies this`pipes
      ensures Turn(Now(), reply) == CapturePipe(old(Now()), rt, fd, bytes)
    {
      var d := tables[rt].files[fd];
      var p := pipes[d.pipe];
      if bytes == [] {
        return Success;
      }
      if d.end != WriteEnd || p.readers <= 0 || |p.bytes| + |bytes| > PIPE_BUFFER_LIMIT {
        return Thrown;
      }
      pipes := pipes[d.pipe := p.(bytes := p.bytes + bytes)];
      reply := Success;
    }
  }
}
