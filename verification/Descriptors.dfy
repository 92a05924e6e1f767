/** The descriptor tables of a root runtime and its copied-fork children, and the pipes they
    share. A pipe is a heap object in the runtime; here it is an index into one sequence. */
module Descriptors {
  import opened Bytes

  datatype End = ReadEnd | WriteEnd

  /** An open descriptor. `transfer` is the read right of a read end, the write right of a
      write end. `Plain` is a file or directory, `workspace` telling its mount. */
  datatype Desc = PipeEnd(pipe: nat, end: End, transfer: bool) | Stdio(target: int) | Plain(workspace: bool)

  datatype Pipe = Pipe(bytes: seq<Byte>, readers: nat, writers: nat)

  datatype Table = Table(files: map<nat, Desc>, next: nat, preopen: bool)

  datatype State = State(tables: map<nat, Table>, pipes: seq<Pipe>)

  datatype Errno = BadF | NotCapable | BrokenPipe | Again

  datatype Reply =
    | Success
    | Fd(number: nat)
    | TwoFds(read: nat, write: nat)
    | Written(count: nat)
    | Received(bytes: seq<Byte>)
    | Refused(errno: Errno)
    | Thrown
    | Elsewhere

  datatype Turn = Turn(state: State, reply: Reply)

  const FIRST_FILE_FD: nat := 5
  const PIPE_BUFFER_LIMIT: nat := 1048576
  const TWO31: nat := 2147483648

  // ----- Descriptor numbers -----

  predicate IsStdioFd(fd: int) {
    0 <= fd <= 2
  }

  /** `fdStat(fd)` is not null. */
  predicate InUse(t: Table, fd: int) {
    fd in t.files || 0 <= fd < FIRST_FILE_FD || (t.preopen && fd == FIRST_FILE_FD)
  }

  /** The number a guest reads back after the host stored `n` as 32 bits and the guest passed
      it on: an import sees 32-bit integers as signed. */
  function GuestFd(n: nat): int {
    var low := n % TWO32;
    if low < TWO31 then low else low - TWO32
  }

  /** The lowest number from `from` on that is not in use. */
  function Lowest(t: Table, from: nat): (fd: nat)
    ensures fd >= from && !InUse(t, fd)
    ensures forall k :: from <= k < fd ==> InUse(t, k)
    decreases Above(t, from)
  {
    if InUse(t, from) then
      AboveShrinks(t, from);
      Lowest(t, from + 1)
    else from
  }

  /** The numbers in use from `from` on. */
  function Above(t: Table, from: nat): set<nat> {
    set k | k in t.files.Keys + {0, 1, 2, 3, 4, 5} && k >= from && InUse(t, k)
  }

  lemma AboveShrinks(t: Table, from: nat)
    requires InUse(t, from)
    ensures Above(t, from + 1) < Above(t, from)
  {
    assert from in Above(t, from);
  }

  /** Where the search for a number begins: the minimum is taken as 32 bits. */
  function From(min: nat): (from: nat)
    ensures from >= FIRST_FILE_FD
  {
    var low := min % TWO32;
    if low < FIRST_FILE_FD then FIRST_FILE_FD else low
  }

  method AllocateDynamicFileFd(t: Table, min: nat) returns (fd: nat, next: nat)
    ensures fd == Lowest(t, From(min))
    ensures next == if fd >= t.next then fd + 1 else t.next
  {
    fd := min % TWO32;
    if fd < FIRST_FILE_FD {
      fd := FIRST_FILE_FD;
    }
    ghost var from := fd;
    while InUse(t, fd)
      invariant Lowest(t, fd) == Lowest(t, from)
      decreases Above(t, fd)
    {
      AboveShrinks(t, fd);
      fd := fd + 1;
    }
    next := if fd >= t.next then fd + 1 else t.next;
  }

  // ----- Reference counts -----

  function Clamp(n: int): nat {
    if n < 0 then 0 else n
  }

  function Count(p: Pipe, e: End): nat {
    if e.ReadEnd? then p.readers else p.writers
  }

  function Adjust(p: Pipe, e: End, delta: int): Pipe {
    if e.ReadEnd? then p.(readers := Clamp(p.readers + delta)) else p.(writers := Clamp(p.writers + delta))
  }

  function Adjusted(pipes: seq<Pipe>, d: Desc, delta: int): seq<Pipe> {
    if d.PipeEnd? && d.pipe < |pipes| then pipes[d.pipe := Adjust(pipes[d.pipe], d.end, delta)] else pipes
  }

  function SetFd(s: State, rt: nat, fd: nat, d: Desc): State
    requires rt in s.tables
  {
    var t := s.tables[rt];
    s.(tables := s.tables[rt := t.(files := t.files[fd := d])])
  }

  function DeleteFd(s: State, rt: nat, fd: nat): State
    requires rt in s.tables
  {
    var t := s.tables[rt];
    s.(tables := s.tables[rt := t.(files := t.files - {fd})])
  }

  /** `retainOpenFile`, then `openFiles.set`. */
  function Install(s: State, rt: nat, fd: nat, d: Desc): State
    requires rt in s.tables
  {
    SetFd(s.(pipes := Adjusted(s.pipes, d, 1)), rt, fd, d)
  }

  /** `closeOpenFile`, then `openFiles.delete`. */
  function Remove(s: State, rt: nat, fd: nat): State
    requires rt in s.tables && fd in s.tables[rt].files
  {
    DeleteFd(s.(pipes := Adjusted(s.pipes, s.tables[rt].files[fd], -1)), rt, fd)
  }

  function Vacate(s: State, rt: nat, fd: nat): (s': State)
    requires rt in s.tables
    ensures rt in s'.tables
  {
    if fd in s.tables[rt].files then Remove(s, rt, fd) else s
  }

  function Reserve(s: State, rt: nat, fd: nat): State
    requires rt in s.tables
  {
    var t := s.tables[rt];
    if fd >= FIRST_FILE_FD && fd >= t.next then s.(tables := s.tables[rt := t.(next := fd + 1)]) else s
  }

  // ----- Calls on descriptors -----

  function Open(s: State, rt: nat, workspace: bool): Turn
    requires rt in s.tables
  {
    var fd := s.tables[rt].next;
    Turn(Reserve(SetFd(s, rt, fd, Plain(workspace)), rt, fd), Fd(fd))
  }

  /** A descriptor at the lowest free number from `from` on. */
  function OpenFrom(s: State, rt: nat, from: nat, d: Desc): (s': State)
    requires rt in s.tables
    ensures rt in s'.tables
  {
    var fd := Lowest(s.tables[rt], from);
    SetFd(Reserve(s, rt, fd), rt, fd, d)
  }

  function MakePipe(s: State, rt: nat): Turn
    requires rt in s.tables
  {
    var id := |s.pipes|;
    var read := Lowest(s.tables[rt], FIRST_FILE_FD);
    var s1 := OpenFrom(s.(pipes := s.pipes + [Pipe([], 1, 1)]), rt, FIRST_FILE_FD, PipeEnd(id, ReadEnd, true));
    var write := Lowest(s1.tables[rt], From(read + 1));
    Turn(OpenFrom(s1, rt, From(read + 1), PipeEnd(id, WriteEnd, true)), TwoFds(read, write))
  }

  /** What `dup` of `fd` would install; the standard and preopened descriptors are built on demand. */
  function Duplicate(t: Table, fd: int): Option<Desc> {
    if fd in t.files then Some(t.files[fd])
    else if IsStdioFd(fd) then Some(Stdio(fd))
    else if fd == 3 then Some(Plain(true))
    else if fd == 4 || (t.preopen && fd == FIRST_FILE_FD) then Some(Plain(false))
    else None
  }

  /** Only a workspace file or directory, a pipe or a standard stream may take a standard number. */
  predicate MayReplaceStdio(d: Desc) {
    d.PipeEnd? || d.Stdio? || d.workspace
  }

  function Dup(s: State, rt: nat, fd: int): Turn
    requires rt in s.tables
  {
    var d := Duplicate(s.tables[rt], fd);
    if d.None? then Turn(s, Refused(BadF))
    else
      var to := Lowest(s.tables[rt], FIRST_FILE_FD);
      Turn(Install(Reserve(s, rt, to), rt, to, d.value), Fd(to))
  }

  function Dup2(s: State, rt: nat, fd: int, target: int): Turn
    requires rt in s.tables
  {
    var to := target % TWO32;
    var d := Duplicate(s.tables[rt], fd);
    if d.None? then Turn(s, Refused(BadF))
    else if to < FIRST_FILE_FD && !IsStdioFd(to) then Turn(s, Refused(NotCapable))
    else if fd == to then Turn(s, Fd(to))
    else if IsStdioFd(to) && !MayReplaceStdio(d.value) then Turn(s, Refused(NotCapable))
    else Turn(Reserve(Install(Vacate(s, rt, to), rt, to, d.value), rt, to), Fd(to))
  }

  function Renumber(s: State, rt: nat, fd: int, to: int): Turn
    requires rt in s.tables
  {
    var t := s.tables[rt];
    if fd !in t.files then Turn(s, Refused(if InUse(t, fd) then NotCapable else BadF))
    else if to < FIRST_FILE_FD && !IsStdioFd(to) then Turn(s, Refused(NotCapable))
    else if IsStdioFd(to) && !MayReplaceStdio(t.files[fd]) then Turn(s, Refused(NotCapable))
    else if fd == to then Turn(s, Success)
    else Turn(Reserve(SetFd(DeleteFd(Vacate(s, rt, to), rt, fd), rt, to, t.files[fd]), rt, to), Success)
  }

  function Close(s: State, rt: nat, fd: int): Turn
    requires rt in s.tables
  {
    if fd in s.tables[rt].files then Turn(Remove(s, rt, fd), Success) else Turn(s, Refused(BadF))
  }

  /** Rights can be given up, never taken. */
  function SetRights(s: State, rt: nat, fd: int, transfer: bool): Turn
    requires rt in s.tables
  {
    var t := s.tables[rt];
    if !InUse(t, fd) then Turn(s, Refused(BadF))
    else if fd in t.files && t.files[fd].PipeEnd? then
      if transfer && !t.files[fd].transfer then Turn(s, Refused(NotCapable))
      else Turn(SetFd(s, rt, fd, t.files[fd].(transfer := transfer)), Success)
    else Turn(s, Success)
  }

  /** The descriptors of a table that are this end of this pipe. */
  function FileEnds(files: map<nat, Desc>, id: nat, e: End): set<nat> {
    set fd | fd in files && IsEnd(files[fd], id, e)
  }

  predicate IsEnd(d: Desc, id: nat, e: End) {
    d.PipeEnd? && d.pipe == id && d.end == e
  }

  /** The pipes after every descriptor of `files` was retained, or closed. */
  function AdjustedAll(pipes: seq<Pipe>, files: map<nat, Desc>, delta: int): seq<Pipe> {
    seq(|pipes|, id requires 0 <= id < |pipes| =>
      Adjust(Adjust(pipes[id], ReadEnd, delta * |FileEnds(files, id, ReadEnd)|), WriteEnd, delta * |FileEnds(files, id, WriteEnd)|))
  }

  /** A copied-fork child starts with duplicates of its parent's descriptors... */
  function Fork(s: State, rt: nat, child: nat): State
    requires rt in s.tables
  {
    State(s.tables[child := s.tables[rt]], AdjustedAll(s.pipes, s.tables[rt].files, 1))
  }

  /** ...and closes all of its own when it ends. */
  function Exit(s: State, rt: nat): State
    requires rt in s.tables
  {
    State(s.tables - {rt}, AdjustedAll(s.pipes, s.tables[rt].files, -1))
  }

  // ----- Calls on pipes -----

  predicate OnPipe(s: State, rt: nat, fd: int) {
    rt in s.tables && fd in s.tables[rt].files && s.tables[rt].files[fd].PipeEnd? && s.tables[rt].files[fd].pipe < |s.pipes|
  }

  function WritePipe(s: State, rt: nat, fd: int, bytes: seq<Byte>): Turn
    requires OnPipe(s, rt, fd)
  {
    var d := s.tables[rt].files[fd];
    var p := s.pipes[d.pipe];
    if d.end != WriteEnd then Turn(s, Refused(BadF))
    else if !d.transfer then Turn(s, Refused(NotCapable))
    else if p.readers <= 0 then Turn(s, Refused(BrokenPipe))
    else if |p.bytes| + |bytes| > PIPE_BUFFER_LIMIT then Turn(s, Refused(Again))
    else Turn(s.(pipes := s.pipes[d.pipe := Appended(p, bytes)]), Written(|bytes|))
  }

  function Appended(p: Pipe, bytes: seq<Byte>): Pipe {
    p.(bytes := p.bytes + bytes)
  }

  function Consumed(p: Pipe, n: nat): Pipe
    requires n <= |p.bytes|
  {
    p.(bytes := p.bytes[n..])
  }

  /** `room` is what the guest's buffers hold. */
  function ReadPipe(s: State, rt: nat, fd: int, room: nat): Turn
    requires OnPipe(s, rt, fd)
  {
    var d := s.tables[rt].files[fd];
    var p := s.pipes[d.pipe];
    if d.end != ReadEnd then Turn(s, Refused(BadF))
    else if !d.transfer then Turn(s, Refused(NotCapable))
    else if |p.bytes| == 0 then Turn(s, if p.writers > 0 then Refused(Again) else Received([]))
    else
      var n := if room < |p.bytes| then room else |p.bytes|;
      Turn(s.(pipes := s.pipes[d.pipe := Consumed(p, n)]), Received(p.bytes[..n]))
  }

  /** The standard input an exec hands to its command: all the pipe holds. */
  function DrainPipe(s: State, rt: nat, fd: int): Turn
    requires OnPipe(s, rt, fd)
  {
    var d := s.tables[rt].files[fd];
    var p := s.pipes[d.pipe];
    if d.end != ReadEnd || !d.transfer then Turn(s, Thrown)
    else Turn(s.(pipes := s.pipes[d.pipe := Consumed(p, |p.bytes|)]), Received(p.bytes))
  }

  /** The captured output of an exec, written without regard to rights. */
  function CapturePipe(s: State, rt: nat, fd: int, bytes: seq<Byte>): Turn
    requires OnPipe(s, rt, fd)
  {
    var d := s.tables[rt].files[fd];
    var p := s.pipes[d.pipe];
    if bytes == [] then Turn(s, Success)
    else if d.end != WriteEnd || p.readers <= 0 || |p.bytes| + |bytes| > PIPE_BUFFER_LIMIT then Turn(s, Thrown)
    else Turn(s.(pipes := s.pipes[d.pipe := Appended(p, bytes)]), Success)
  }

  // ----- The invariant -----

  /** How many of the runtimes' descriptors are this end of this pipe. */
  ghost function EndsIn(tables: map<nat, Table>, rts: set<nat>, id: nat, e: End): nat
    requires rts <= tables.Keys
  {
    if rts == {} then 0
    else
      var rt :| rt in rts;
      |FileEnds(tables[rt].files, id, e)| + EndsIn(tables, rts - {rt}, id, e)
  }

  /** Over all live tables. */
  ghost function Ends(tables: map<nat, Table>, id: nat, e: End): nat {
    EndsIn(tables, tables.Keys, id, e)
  }

  /** The counters count the open ends. */
  ghost predicate Counted(s: State) {
    forall id, e {:trigger Count(s.pipes[id], e)} :: 0 <= id < |s.pipes| ==> Count(s.pipes[id], e) == Ends(s.tables, id, e)
  }

  predicate Known(s: State) {
    forall rt, fd :: rt in s.tables && fd in s.tables[rt].files && s.tables[rt].files[fd].PipeEnd? ==>
      s.tables[rt].files[fd].pipe < |s.pipes|
  }

  /** Every descriptor has a standard number or a dynamic one below `next`. */
  predicate TableOk(t: Table) {
    && (if t.preopen then FIRST_FILE_FD < t.next else FIRST_FILE_FD <= t.next)
    && forall fd :: fd in t.files ==> IsStdioFd(fd) || FIRST_FILE_FD <= fd < t.next
  }

  predicate Numbered(s: State) {
    forall rt :: rt in s.tables ==> TableOk(s.tables[rt])
  }

  predicate Bounded(s: State) {
    forall id :: 0 <= id < |s.pipes| ==> |s.pipes[id].bytes| <= PIPE_BUFFER_LIMIT
  }

  ghost predicate Inv(s: State) {
    Counted(s) && Known(s) && Numbered(s) && Bounded(s)
  }

  // ----- Runs -----

  datatype Call =
    | DoOpen(workspace: bool)
    | DoPipe
    | DoDup(fd: int)
    | DoDup2(fd: int, target: int)
    | DoRenumber(fd: int, to: int)
    | DoClose(fd: int)
    | DoSetRights(fd: int, transfer: bool)
    | DoFork(child: nat)
    | DoExit
    | DoWrite(fd: int, bytes: seq<Byte>)
    | DoRead(fd: int, room: nat)
    | DoDrain(fd: int)
    | DoCapture(fd: int, bytes: seq<Byte>)

  /** A live runtime makes a call. */
  datatype Event = Event(rt: nat, call: Call)

  /** Reads and writes of other descriptors are answered elsewhere and leave this state alone. */
  function Transfer(s: State, rt: nat, c: Call): Turn
    requires rt in s.tables && (c.DoWrite? || c.DoRead? || c.DoDrain? || c.DoCapture?)
  {
    if !OnPipe(s, rt, c.fd) then Turn(s, Elsewhere)
    else
      match c
      case DoWrite(fd, bytes) => WritePipe(s, rt, fd, bytes)
      case DoRead(fd, room) => ReadPipe(s, rt, fd, room)
      case DoDrain(fd) => DrainPipe(s, rt, fd)
      case DoCapture(fd, bytes) => CapturePipe(s, rt, fd, bytes)
  }

  function Step(s: State, ev: Event): Turn {
    var rt := ev.rt;
    if rt !in s.tables then Turn(s, Thrown)
    else
      match ev.call
      case DoOpen(workspace) => Open(s, rt, workspace)
      case DoPipe => MakePipe(s, rt)
      case DoDup(fd) => Dup(s, rt, fd)
      case DoDup2(fd, target) => Dup2(s, rt, fd, target)
      case DoRenumber(fd, to) => Renumber(s, rt, fd, to)
      case DoClose(fd) => Close(s, rt, fd)
      case DoSetRights(fd, transfer) => SetRights(s, rt, fd, transfer)
      case DoFork(child) => if child in s.tables then Turn(s, Thrown) else Turn(Fork(s, rt, child), Success)
      case DoExit => Turn(Exit(s, rt), Success)
      case _ => Transfer(s, rt, ev.call)
  }

  datatype Events = Done | Next(event: Event, rest: Events)

  function Run(s: State, evs: Events): State
    decreases evs
  {
    if evs.Done? then s else Run(Step(s, evs.event).state, evs.rest)
  }

  /** The root runtime before its first call. */
  function Start(preopen: bool): State {
    State(map[0 := Table(map[], if preopen then FIRST_FILE_FD + 1 else FIRST_FILE_FD, preopen)], [])
  }
}
