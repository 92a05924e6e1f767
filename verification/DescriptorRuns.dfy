/** What every run of descriptor and pipe calls keeps, whatever runtimes make them in whatever order. */
module DescriptorRuns {
  import opened Bytes
  import opened Descriptors

  // ----- Counting ends -----

  lemma {:induction false} EndsSplit(tables: map<nat, Table>, rts: set<nat>, rt: nat, id: nat, e: End)
    requires rts <= tables.Keys && rt in rts
    ensures EndsIn(tables, rts, id, e) == |FileEnds(tables[rt].files, id, e)| + EndsIn(tables, rts - {rt}, id, e)
  {
    var first :| first in rts && EndsIn(tables, rts, id, e) == |FileEnds(tables[first].files, id, e)| + EndsIn(tables, rts - {first}, id, e);
    if first != rt {
      EndsSplit(tables, rts - {first}, rt, id, e);
      EndsSplit(tables, rts - {rt}, first, id, e);
      assert rts - {first} - {rt} == rts - {rt} - {first};
    }
  }

  predicate SameFiles(tables: map<nat, Table>, tables': map<nat, Table>, rts: set<nat>)
    requires rts <= tables.Keys && rts <= tables'.Keys
  {
    forall rt :: rt in rts ==> tables[rt].files == tables'[rt].files
  }

  lemma {:induction false} EndsSame(tables: map<nat, Table>, tables': map<nat, Table>, rts: set<nat>, id: nat, e: End)
    requires rts <= tables.Keys && rts <= tables'.Keys && SameFiles(tables, tables', rts)
    ensures EndsIn(tables, rts, id, e) == EndsIn(tables', rts, id, e)
  {
    if rts != {} {
      var rt :| rt in rts;
      EndsSplit(tables, rts, rt, id, e);
      EndsSplit(tables', rts, rt, id, e);
      EndsSame(tables, tables', rts - {rt}, id, e);
    }
  }

  /** Replacing one table moves the number of ends by the difference. */
  lemma EndsUpdate(tables: map<nat, Table>, rt: nat, t: Table, id: nat, e: End)
    requires rt in tables
    ensures Ends(tables[rt := t], id, e) == Ends(tables, id, e) - |FileEnds(tables[rt].files, id, e)| + |FileEnds(t.files, id, e)|
  {
    var tables' := tables[rt := t];
    assert tables'.Keys == tables.Keys;
    EndsSplit(tables, tables.Keys, rt, id, e);
    EndsSplit(tables', tables.Keys, rt, id, e);
    EndsSame(tables, tables', tables.Keys - {rt}, id, e);
  }

  lemma EndsWith(tables: map<nat, Table>, child: nat, t: Table, id: nat, e: End)
    requires child !in tables
    ensures Ends(tables[child := t], id, e) == Ends(tables, id, e) + |FileEnds(t.files, id, e)|
  {
    var tables' := tables[child := t];
    assert tables'.Keys == tables.Keys + {child};
    EndsSplit(tables', tables'.Keys, child, id, e);
    assert tables'.Keys - {child} == tables.Keys;
    EndsSame(tables, tables', tables.Keys, id, e);
  }

  lemma EndsWithout(tables: map<nat, Table>, rt: nat, id: nat, e: End)
    requires rt in tables
    ensures Ends(tables - {rt}, id, e) == Ends(tables, id, e) - |FileEnds(tables[rt].files, id, e)|
  {
    assert (tables - {rt})[rt := tables[rt]] == tables;
    EndsWith(tables - {rt}, rt, tables[rt], id, e);
  }

  lemma FileEndsSet(files: map<nat, Desc>, fd: nat, d: Desc, id: nat, e: End)
    requires fd !in files
    ensures |FileEnds(files[fd := d], id, e)| == |FileEnds(files, id, e)| + if IsEnd(d, id, e) then 1 else 0
  {
    var before, after := FileEnds(files, id, e), FileEnds(files[fd := d], id, e);
    if IsEnd(d, id, e) {
      assert after == before + {fd};
    } else {
      assert after == before;
    }
  }

  lemma EndsSet(s: State, rt: nat, fd: nat, d: Desc, id: nat, e: End)
    requires rt in s.tables && fd !in s.tables[rt].files
    ensures Ends(SetFd(s, rt, fd, d).tables, id, e) == Ends(s.tables, id, e) + if IsEnd(d, id, e) then 1 else 0
  {
    var t := s.tables[rt];
    FileEndsSet(t.files, fd, d, id, e);
    EndsUpdate(s.tables, rt, t.(files := t.files[fd := d]), id, e);
  }

  lemma EndsDelete(s: State, rt: nat, fd: nat, id: nat, e: End)
    requires rt in s.tables && fd in s.tables[rt].files
    ensures Ends(DeleteFd(s, rt, fd).tables, id, e) == Ends(s.tables, id, e) - if IsEnd(s.tables[rt].files[fd], id, e) then 1 else 0
  {
    var t := s.tables[rt];
    var less := t.files - {fd};
    assert less[fd := t.files[fd]] == t.files;
    FileEndsSet(less, fd, t.files[fd], id, e);
    EndsUpdate(s.tables, rt, t.(files := less), id, e);
  }

  lemma EndsReserve(s: State, rt: nat, fd: nat, id: nat, e: End)
    requires rt in s.tables
    ensures Ends(Reserve(s, rt, fd).tables, id, e) == Ends(s.tables, id, e)
  {
    if fd >= FIRST_FILE_FD && fd >= s.tables[rt].next {
      EndsUpdate(s.tables, rt, s.tables[rt].(next := fd + 1), id, e);
    }
  }

  // ----- The counters stay right -----

  lemma InstallCounted(s: State, rt: nat, fd: nat, d: Desc)
    requires Counted(s) && rt in s.tables && fd !in s.tables[rt].files
    ensures Counted(Install(s, rt, fd, d))
  {
    var s' := Install(s, rt, fd, d);
    forall id, e | 0 <= id < |s'.pipes| ensures Count(s'.pipes[id], e) == Ends(s'.tables, id, e) {
      EndsSet(s, rt, fd, d, id, e);
      assert Count(s.pipes[id], e) == Ends(s.tables, id, e);
    }
  }

  /** Closing never meets a zero counter: the clamp has nothing to do. */
  lemma ClampIdle(s: State, rt: nat, fd: nat)
    requires Counted(s) && rt in s.tables && fd in s.tables[rt].files
    ensures var d := s.tables[rt].files[fd]; d.PipeEnd? && d.pipe < |s.pipes| ==> Count(s.pipes[d.pipe], d.end) > 0
  {
    var d := s.tables[rt].files[fd];
    if d.PipeEnd? && d.pipe < |s.pipes| {
      EndsDelete(s, rt, fd, d.pipe, d.end);
      assert Count(s.pipes[d.pipe], d.end) == Ends(s.tables, d.pipe, d.end);
    }
  }

  lemma RemoveCounted(s: State, rt: nat, fd: nat)
    requires Counted(s) && rt in s.tables && fd in s.tables[rt].files
    ensures Counted(Remove(s, rt, fd))
  {
    ClampIdle(s, rt, fd);
    var s' := Remove(s, rt, fd);
    forall id, e | 0 <= id < |s'.pipes| ensures Count(s'.pipes[id], e) == Ends(s'.tables, id, e) {
      EndsDelete(s, rt, fd, id, e);
      assert Count(s.pipes[id], e) == Ends(s.tables, id, e);
    }
  }

  lemma ReserveCounted(s: State, rt: nat, fd: nat)
    requires Counted(s) && rt in s.tables
    ensures Counted(Reserve(s, rt, fd))
  {
    var s' := Reserve(s, rt, fd);
    forall id, e | 0 <= id < |s'.pipes| ensures Count(s'.pipes[id], e) == Ends(s'.tables, id, e) {
      EndsReserve(s, rt, fd, id, e);
      assert Count(s.pipes[id], e) == Ends(s.tables, id, e);
    }
  }

  /** Moving a descriptor is a duplicate and a close. */
  lemma MoveCounted(s: State, rt: nat, fd: nat, to: nat)
    requires Counted(s) && rt in s.tables && fd in s.tables[rt].files && to !in s.tables[rt].files
    ensures Counted(SetFd(DeleteFd(s, rt, fd), rt, to, s.tables[rt].files[fd]))
  {
    var d := s.tables[rt].files[fd];
    var s' := SetFd(DeleteFd(s, rt, fd), rt, to, d);
    forall id, e | 0 <= id < |s'.pipes| ensures Count(s'.pipes[id], e) == Ends(s'.tables, id, e) {
      EndsDelete(s, rt, fd, id, e);
      EndsSet(DeleteFd(s, rt, fd), rt, to, d, id, e);
      assert Count(s.pipes[id], e) == Ends(s.tables, id, e);
    }
  }

  lemma ForkCounted(s: State, rt: nat, child: nat)
    requires Counted(s) && rt in s.tables && child !in s.tables
    ensures Counted(Fork(s, rt, child))
  {
    var s' := Fork(s, rt, child);
    forall id, e | 0 <= id < |s'.pipes| ensures Count(s'.pipes[id], e) == Ends(s'.tables, id, e) {
      EndsWith(s.tables, child, s.tables[rt], id, e);
      assert Count(s.pipes[id], e) == Ends(s.tables, id, e);
    }
  }

  lemma ExitCounted(s: State, rt: nat)
    requires Counted(s) && rt in s.tables
    ensures Counted(Exit(s, rt))
  {
    var s' := Exit(s, rt);
    forall id, e | 0 <= id < |s'.pipes| ensures Count(s'.pipes[id], e) == Ends(s'.tables, id, e) {
      EndsWithout(s.tables, rt, id, e);
      assert Count(s.pipes[id], e) == Ends(s.tables, id, e);
    }
  }

  lemma {:induction false} NoEnds(tables: map<nat, Table>, rts: set<nat>, id: nat, e: End)
    requires rts <= tables.Keys
    requires forall rt, fd :: rt in rts && fd in tables[rt].files ==> !IsEnd(tables[rt].files[fd], id, e)
    ensures EndsIn(tables, rts, id, e) == 0
  {
    if rts != {} {
      var rt :| rt in rts;
      assert FileEnds(tables[rt].files, id, e) == {} by {
        var files := tables[rt].files;
        assert forall fd :: fd in files ==> !IsEnd(files[fd], id, e);
      }
      EndsSplit(tables, rts, rt, id, e);
      NoEnds(tables, rts - {rt}, id, e);
    }
  }

  /** Some live table holds this end of this pipe. */
  ghost predicate OpenSomewhere(s: State, id: nat, e: End) {
    exists rt, fd :: rt in s.tables && fd in s.tables[rt].files && IsEnd(s.tables[rt].files[fd], id, e)
  }

  lemma EndsPositive(s: State, id: nat, e: End)
    ensures Ends(s.tables, id, e) > 0 <==> OpenSomewhere(s, id, e)
  {
    if OpenSomewhere(s, id, e) {
      var rt, fd :| rt in s.tables && fd in s.tables[rt].files && IsEnd(s.tables[rt].files[fd], id, e);
      EndsSplit(s.tables, s.tables.Keys, rt, id, e);
      assert fd in FileEnds(s.tables[rt].files, id, e);
    } else {
      NoEnds(s.tables, s.tables.Keys, id, e);
    }
  }

  // ----- Each call keeps the invariant -----

  lemma InstallKeeps(s: State, rt: nat, fd: nat, d: Desc)
    requires Inv(s) && rt in s.tables && fd !in s.tables[rt].files && (d.PipeEnd? ==> d.pipe < |s.pipes|)
    requires IsStdioFd(fd) || FIRST_FILE_FD <= fd < s.tables[rt].next
    ensures Inv(Install(s, rt, fd, d))
  {
    InstallCounted(s, rt, fd, d);
  }

  lemma ReserveKeeps(s: State, rt: nat, fd: nat)
    requires Inv(s) && rt in s.tables
    ensures Inv(Reserve(s, rt, fd))
  {
    ReserveCounted(s, rt, fd);
  }

  lemma RemoveKeeps(s: State, rt: nat, fd: nat)
    requires Inv(s) && rt in s.tables && fd in s.tables[rt].files
    ensures Inv(Remove(s, rt, fd))
  {
    RemoveCounted(s, rt, fd);
  }

  lemma MoveKeeps(s: State, rt: nat, fd: nat, to: nat)
    requires Inv(s) && rt in s.tables && fd in s.tables[rt].files && to !in s.tables[rt].files
    requires IsStdioFd(to) || FIRST_FILE_FD <= to < s.tables[rt].next
    ensures Inv(SetFd(DeleteFd(s, rt, fd), rt, to, s.tables[rt].files[fd]))
  {
    MoveCounted(s, rt, fd, to);
  }

  /** Reserving a number and filling the slot commute. */
  lemma ReserveSet(s: State, rt: nat, fd: nat, k: nat, d: Desc)
    requires rt in s.tables
    ensures Reserve(SetFd(s, rt, fd, d), rt, k) == SetFd(Reserve(s, rt, k), rt, fd, d)
  {
  }

  lemma OpenKeeps(s: State, rt: nat, workspace: bool)
    requires Inv(s) && rt in s.tables
    ensures Inv(Open(s, rt, workspace).state)
  {
    var fd := s.tables[rt].next;
    ReserveKeeps(s, rt, fd);
    InstallKeeps(Reserve(s, rt, fd), rt, fd, Plain(workspace));
    ReserveSet(s, rt, fd, fd, Plain(workspace));
  }

  lemma DupKeeps(s: State, rt: nat, fd: int)
    requires Inv(s) && rt in s.tables
    ensures Inv(Dup(s, rt, fd).state)
  {
    var d := Duplicate(s.tables[rt], fd);
    if d.Some? {
      var to := Lowest(s.tables[rt], FIRST_FILE_FD);
      ReserveKeeps(s, rt, to);
      InstallKeeps(Reserve(s, rt, to), rt, to, d.value);
    }
  }

  lemma VacateKeeps(s: State, rt: nat, fd: nat)
    requires Inv(s) && rt in s.tables
    ensures var s' := Vacate(s, rt, fd);
            && Inv(s') && fd !in s'.tables[rt].files && |s'.pipes| == |s.pipes| && s'.tables[rt].next == s.tables[rt].next
            && s'.tables[rt].files == s.tables[rt].files - {fd}
  {
    if fd in s.tables[rt].files {
      RemoveKeeps(s, rt, fd);
    }
  }

  lemma Dup2Keeps(s: State, rt: nat, fd: int, target: int)
    requires Inv(s) && rt in s.tables
    ensures Inv(Dup2(s, rt, fd, target).state)
  {
    var to := target % TWO32;
    var d := Duplicate(s.tables[rt], fd);
    var r := Dup2(s, rt, fd, target);
    if r.state != s {
      VacateKeeps(s, rt, to);
      var s1 := Vacate(s, rt, to);
      ReserveKeeps(s1, rt, to);
      InstallKeeps(Reserve(s1, rt, to), rt, to, d.value);
      ReserveSet(s1.(pipes := Adjusted(s1.pipes, d.value, 1)), rt, to, to, d.value);
    }
  }

  lemma RenumberKeeps(s: State, rt: nat, fd: int, to: int)
    requires Inv(s) && rt in s.tables
    ensures Inv(Renumber(s, rt, fd, to).state)
  {
    var r := Renumber(s, rt, fd, to);
    if r.state != s {
      var d := s.tables[rt].files[fd];
      VacateKeeps(s, rt, to);
      var s1 := Vacate(s, rt, to);
      ReserveKeeps(s1, rt, to);
      MoveKeeps(Reserve(s1, rt, to), rt, fd, to);
      ReserveSet(DeleteFd(s1, rt, fd), rt, to, to, d);
      assert Reserve(DeleteFd(s1, rt, fd), rt, to) == DeleteFd(Reserve(s1, rt, to), rt, fd);
    }
  }

  /** A new pipe that nobody holds yet. */
  lemma NewPipeKeeps(s: State)
    requires Inv(s)
    ensures Inv(s.(pipes := s.pipes + [Pipe([], 0, 0)]))
  {
    var s' := s.(pipes := s.pipes + [Pipe([], 0, 0)]);
    forall id, e | 0 <= id < |s'.pipes| ensures Count(s'.pipes[id], e) == Ends(s'.tables, id, e) {
      if id < |s.pipes| {
        assert Count(s.pipes[id], e) == Ends(s.tables, id, e);
      } else {
        NoEnds(s.tables, s.tables.Keys, id, e);
      }
    }
  }

  /** One end of a pipe, installed at the lowest number from `from` on. */
  function PlaceEnd(s: State, rt: nat, from: nat, d: Desc): State
    requires rt in s.tables
  {
    var fd := Lowest(s.tables[rt], from);
    Install(Reserve(s, rt, fd), rt, fd, d)
  }

  lemma PlaceEndKeeps(s: State, rt: nat, from: nat, d: Desc)
    requires Inv(s) && rt in s.tables && from >= FIRST_FILE_FD && d.PipeEnd? && d.pipe < |s.pipes|
    ensures Inv(PlaceEnd(s, rt, from, d))
  {
    var fd := Lowest(s.tables[rt], from);
    ReserveKeeps(s, rt, fd);
    InstallKeeps(Reserve(s, rt, fd), rt, fd, d);
  }

  /** Making a pipe places its two ends one after the other. */
  lemma MakePipePlaces(s: State, rt: nat)
    requires rt in s.tables
    ensures
      var a := s.(pipes := s.pipes + [Pipe([], 0, 0)]);
      var b := PlaceEnd(a, rt, FIRST_FILE_FD, PipeEnd(|s.pipes|, ReadEnd, true));
      MakePipe(s, rt).state == PlaceEnd(b, rt, From(Lowest(s.tables[rt], FIRST_FILE_FD) + 1), PipeEnd(|s.pipes|, WriteEnd, true))
  {
    var id := |s.pipes|;
    var none, one, both := s.pipes + [Pipe([], 0, 0)], s.pipes + [Pipe([], 1, 0)], s.pipes + [Pipe([], 1, 1)];
    var from := From(Lowest(s.tables[rt], FIRST_FILE_FD) + 1);
    var a := OpenFrom(s.(pipes := none), rt, FIRST_FILE_FD, PipeEnd(id, ReadEnd, true));
    PlacedEnd(s.(pipes := none), rt, FIRST_FILE_FD, PipeEnd(id, ReadEnd, true), one);
    PlacedEnd(a.(pipes := one), rt, from, PipeEnd(id, WriteEnd, true), both);
    OtherPipes(s.(pipes := none), rt, FIRST_FILE_FD, PipeEnd(id, ReadEnd, true), both);
    OtherPipes(a.(pipes := one), rt, from, PipeEnd(id, WriteEnd, true), both);
  }

  /** One placed end, with the pipes as they then are. */
  lemma PlacedEnd(s: State, rt: nat, from: nat, d: Desc, pipes: seq<Pipe>)
    requires rt in s.tables && pipes == Adjusted(s.pipes, d, 1)
    ensures PlaceEnd(s, rt, from, d) == OpenFrom(s, rt, from, d).(pipes := pipes)
  {
  }

  /** What the pipes hold plays no part in where a descriptor goes. */
  lemma OtherPipes(s: State, rt: nat, from: nat, d: Desc, pipes: seq<Pipe>)
    requires rt in s.tables
    ensures OpenFrom(s.(pipes := pipes), rt, from, d) == OpenFrom(s, rt, from, d).(pipes := pipes)
  {
  }

  lemma MakePipeKeeps(s: State, rt: nat)
    requires Inv(s) && rt in s.tables
    ensures Inv(MakePipe(s, rt).state)
  {
    var a := s.(pipes := s.pipes + [Pipe([], 0, 0)]);
    NewPipeKeeps(s);
    PlaceEndKeeps(a, rt, FIRST_FILE_FD, PipeEnd(|s.pipes|, ReadEnd, true));
    var b := PlaceEnd(a, rt, FIRST_FILE_FD, PipeEnd(|s.pipes|, ReadEnd, true));
    PlaceEndKeeps(b, rt, From(Lowest(s.tables[rt], FIRST_FILE_FD) + 1), PipeEnd(|s.pipes|, WriteEnd, true));
    MakePipePlaces(s, rt);
  }

  lemma SetRightsKeeps(s: State, rt: nat, fd: int, transfer: bool)
    requires Inv(s) && rt in s.tables
    ensures Inv(SetRights(s, rt, fd, transfer).state)
  {
    var s' := SetRights(s, rt, fd, transfer).state;
    if s' != s {
      var t, t' := s.tables[rt], s'.tables[rt];
      forall id, e | 0 <= id < |s'.pipes| ensures Count(s'.pipes[id], e) == Ends(s'.tables, id, e) {
        assert FileEnds(t'.files, id, e) == FileEnds(t.files, id, e);
        EndsUpdate(s.tables, rt, t', id, e);
        assert Count(s.pipes[id], e) == Ends(s.tables, id, e);
      }
    }
  }

  lemma ForkKeeps(s: State, rt: nat, child: nat)
    requires Inv(s) && rt in s.tables && child !in s.tables
    ensures Inv(Fork(s, rt, child))
  {
    ForkCounted(s, rt, child);
  }

  lemma ExitKeeps(s: State, rt: nat)
    requires Inv(s) && rt in s.tables
    ensures Inv(Exit(s, rt))
  {
    ExitCounted(s, rt);
  }

  /** Changing what a pipe holds, but not its counters. */
  lemma DataKeeps(s: State, id: nat, p: Pipe)
    requires Inv(s) && id < |s.pipes| && |p.bytes| <= PIPE_BUFFER_LIMIT
    requires p.readers == s.pipes[id].readers && p.writers == s.pipes[id].writers
    ensures Inv(s.(pipes := s.pipes[id := p]))
  {
    var s' := s.(pipes := s.pipes[id := p]);
    forall k, e | 0 <= k < |s'.pipes| ensures Count(s'.pipes[k], e) == Ends(s'.tables, k, e) {
      assert Count(s.pipes[k], e) == Ends(s.tables, k, e);
    }
  }

  lemma TransferKeeps(s: State, rt: nat, c: Call)
    requires Inv(s) && rt in s.tables && (c.DoWrite? || c.DoRead? || c.DoDrain? || c.DoCapture?)
    ensures Inv(Transfer(s, rt, c).state)
  {
    var s' := Transfer(s, rt, c).state;
    if s' != s {
      var id := s.tables[rt].files[c.fd].pipe;
      DataKeeps(s, id, s'.pipes[id]);
    }
  }

  lemma StepKeeps(s: State, ev: Event)
    requires Inv(s)
    ensures Inv(Step(s, ev).state)
  {
    var rt := ev.rt;
    if rt in s.tables {
      match ev.call {
        case DoOpen(workspace) => OpenKeeps(s, rt, workspace);
        case DoPipe => MakePipeKeeps(s, rt);
        case DoDup(fd) => DupKeeps(s, rt, fd);
        case DoDup2(fd, target) => Dup2Keeps(s, rt, fd, target);
        case DoRenumber(fd, to) => RenumberKeeps(s, rt, fd, to);
        case DoClose(fd) => if fd in s.tables[rt].files { RemoveKeeps(s, rt, fd); }
        case DoSetRights(fd, transfer) => SetRightsKeeps(s, rt, fd, transfer);
        case DoFork(child) => if child !in s.tables { ForkKeeps(s, rt, child); }
        case DoExit => ExitKeeps(s, rt);
        case _ => TransferKeeps(s, rt, ev.call);
      }
    }
  }

  lemma StartOk(preopen: bool)
    ensures Inv(Start(preopen))
  {
  }

  // ----- Whole runs -----

  /** Every state a run of the root runtime and its children reaches has right counters, known
      pipes, numbered descriptors and bounded buffers. */
  lemma {:induction false} RunKeeps(preopen: bool, evs: Events)
    ensures Inv(Run(Start(preopen), evs))
  {
    StartOk(preopen);
    RunKeepsFrom(Start(preopen), evs);
  }

  lemma {:induction false} RunKeepsFrom(s: State, evs: Events)
    requires Inv(s)
    ensures Inv(Run(s, evs))
    decreases evs
  {
    if evs.Next? {
      StepKeeps(s, evs.event);
      RunKeepsFrom(Step(s, evs.event).state, evs.rest);
    }
  }

  // ----- Conservation -----

  function Held(s: State, id: nat): seq<Byte> {
    if id < |s.pipes| then s.pipes[id].bytes else []
  }

  predicate OnThisPipe(s: State, rt: nat, fd: int, id: nat) {
    OnPipe(s, rt, fd) && s.tables[rt].files[fd].pipe == id
  }

  /** What a call put into the pipe, going by the call and its reply. */
  function Into(s: State, ev: Event, id: nat): seq<Byte> {
    var reply := Step(s, ev).reply;
    match ev.call
    case DoWrite(fd, bytes) => if OnThisPipe(s, ev.rt, fd, id) && reply.Written? then bytes else []
    case DoCapture(fd, bytes) => if OnThisPipe(s, ev.rt, fd, id) && reply.Success? then bytes else []
    case _ => []
  }

  /** What a call took out of it. */
  function OutOf(s: State, ev: Event, id: nat): seq<Byte> {
    var reply := Step(s, ev).reply;
    match ev.call
    case DoRead(fd, _) => if OnThisPipe(s, ev.rt, fd, id) && reply.Received? then reply.bytes else []
    case DoDrain(fd) => if OnThisPipe(s, ev.rt, fd, id) && reply.Received? then reply.bytes else []
    case _ => []
  }

  /** `r` added `x` to the pipe and took `y` from it. */
  predicate Moves(s: State, r: Turn, id: nat, x: seq<Byte>, y: seq<Byte>) {
    Held(s, id) + x == y + Held(r.state, id)
  }

  lemma MovesNothing(s: State, r: Turn, id: nat)
    requires Held(r.state, id) == Held(s, id)
    ensures Moves(s, r, id, [], [])
  {
    assert Held(s, id) + [] == [] + Held(s, id);
  }

  lemma WriteConserves(s: State, rt: nat, fd: int, bytes: seq<Byte>, id: nat)
    requires OnPipe(s, rt, fd)
    ensures var r := WritePipe(s, rt, fd, bytes);
            Moves(s, r, id, if OnThisPipe(s, rt, fd, id) && r.reply.Written? then bytes else [], [])
  {
    var r := WritePipe(s, rt, fd, bytes);
    if OnThisPipe(s, rt, fd, id) && r.reply.Written? {
      assert [] + Held(r.state, id) == Held(s, id) + bytes;
    } else {
      MovesNothing(s, r, id);
    }
  }

  lemma CaptureConserves(s: State, rt: nat, fd: int, bytes: seq<Byte>, id: nat)
    requires OnPipe(s, rt, fd)
    ensures var r := CapturePipe(s, rt, fd, bytes);
            Moves(s, r, id, if OnThisPipe(s, rt, fd, id) && r.reply.Success? then bytes else [], [])
  {
    var r := CapturePipe(s, rt, fd, bytes);
    if OnThisPipe(s, rt, fd, id) && r.reply.Success? {
      assert [] + Held(r.state, id) == Held(s, id) + bytes;
    } else {
      MovesNothing(s, r, id);
    }
  }

  lemma ReadConserves(s: State, rt: nat, fd: int, room: nat, id: nat)
    requires OnPipe(s, rt, fd)
    ensures var r := ReadPipe(s, rt, fd, room);
            Moves(s, r, id, [], if OnThisPipe(s, rt, fd, id) && r.reply.Received? then r.reply.bytes else [])
  {
    var r := ReadPipe(s, rt, fd, room);
    if OnThisPipe(s, rt, fd, id) && r.reply.Received? {
      assert Held(s, id) + [] == r.reply.bytes + Held(r.state, id);
    } else {
      MovesNothing(s, r, id);
    }
  }

  lemma DrainConserves(s: State, rt: nat, fd: int, id: nat)
    requires OnPipe(s, rt, fd)
    ensures var r := DrainPipe(s, rt, fd);
            Moves(s, r, id, [], if OnThisPipe(s, rt, fd, id) && r.reply.Received? then r.reply.bytes else [])
  {
    var r := DrainPipe(s, rt, fd);
    if OnThisPipe(s, rt, fd, id) && r.reply.Received? {
      assert Held(s, id) + [] == r.reply.bytes + Held(r.state, id);
    } else {
      MovesNothing(s, r, id);
    }
  }

  predicate Transfers(c: Call) {
    c.DoWrite? || c.DoRead? || c.DoDrain? || c.DoCapture?
  }

  lemma TransferConserves(s: State, rt: nat, c: Call, id: nat)
    requires rt in s.tables && Transfers(c)
    ensures Moves(s, Transfer(s, rt, c), id, Into(s, Event(rt, c), id), OutOf(s, Event(rt, c), id))
  {
    if !OnPipe(s, rt, c.fd) {
      MovesNothing(s, Transfer(s, rt, c), id);
    } else {
      match c {
        case DoWrite(fd, bytes) => WriteConserves(s, rt, fd, bytes, id);
        case DoCapture(fd, bytes) => CaptureConserves(s, rt, fd, bytes, id);
        case DoRead(fd, room) => ReadConserves(s, rt, fd, room, id);
        case DoDrain(fd) => DrainConserves(s, rt, fd, id);
      }
    }
  }

  /** Calls on descriptors leave alone what the pipes hold. */
  ghost predicate SameHeld(s: State, s': State) {
    |s.pipes| <= |s'.pipes| && forall id: nat :: Held(s, id) == Held(s', id)
  }

  lemma AdjustedHeld(s: State, rt: nat, fd: nat)
    requires rt in s.tables
    ensures SameHeld(s, Vacate(s, rt, fd))
  {
  }

  lemma DescriptorCallsHold(s: State, rt: nat, c: Call)
    requires rt in s.tables && (c.DoDup? || c.DoDup2? || c.DoRenumber? || c.DoClose?)
    ensures SameHeld(s, Step(s, Event(rt, c)).state)
  {
    match c
    case DoDup(fd) =>
    case DoDup2(fd, target) => Dup2Holds(s, rt, fd, target);
    case DoRenumber(fd, to) => RenumberHolds(s, rt, fd, to);
    case DoClose(fd) =>
  }

  lemma Dup2Holds(s: State, rt: nat, fd: int, target: int)
    requires rt in s.tables
    ensures SameHeld(s, Dup2(s, rt, fd, target).state)
  {
    AdjustedHeld(s, rt, target % TWO32);
  }

  lemma RenumberHolds(s: State, rt: nat, fd: int, target: int)
    requires rt in s.tables
    ensures SameHeld(s, Renumber(s, rt, fd, target).state)
  {
    if target >= 0 {
      AdjustedHeld(s, rt, target);
    }
  }

  lemma OthersHold(s: State, ev: Event)
    requires !Transfers(ev.call)
    ensures SameHeld(s, Step(s, ev).state)
  {
    var c := ev.call;
    if ev.rt in s.tables && (c.DoDup? || c.DoDup2? || c.DoRenumber? || c.DoClose?) {
      DescriptorCallsHold(s, ev.rt, c);
    }
  }

  lemma StepConserves(s: State, ev: Event, id: nat)
    ensures Moves(s, Step(s, ev), id, Into(s, ev, id), OutOf(s, ev, id))
  {
    if !Transfers(ev.call) {
      OthersHold(s, ev);
      MovesNothing(s, Step(s, ev), id);
    } else if ev.rt in s.tables {
      TransferConserves(s, ev.rt, ev.call, id);
    } else {
      MovesNothing(s, Step(s, ev), id);
    }
  }

  /** Everything a run put into the pipe, in order. */
  function AllInto(s: State, evs: Events, id: nat): seq<Byte>
    decreases evs
  {
    if evs.Done? then [] else Into(s, evs.event, id) + AllInto(Step(s, evs.event).state, evs.rest, id)
  }

  function AllOutOf(s: State, evs: Events, id: nat): seq<Byte>
    decreases evs
  {
    if evs.Done? then [] else OutOf(s, evs.event, id) + AllOutOf(Step(s, evs.event).state, evs.rest, id)
  }

  /** Over any run, what was written to a pipe is what was read from it, in the same order,
      followed by what it still holds. */
  lemma {:induction false} RunConserves(s: State, evs: Events, id: nat)
    ensures Held(s, id) + AllInto(s, evs, id) == AllOutOf(s, evs, id) + Held(Run(s, evs), id)
    decreases evs
  {
    if evs.Done? {
      assert Held(s, id) + [] == [] + Held(s, id);
    } else {
      var s' := Step(s, evs.event).state;
      StepConserves(s, evs.event, id);
      RunConserves(s', evs.rest, id);
      Shift(Held(s, id), Into(s, evs.event, id), OutOf(s, evs.event, id), Held(s', id),
            AllInto(s', evs.rest, id), AllOutOf(s', evs.rest, id), Held(Run(s', evs.rest), id));
    }
  }

  lemma Shift(a: seq<Byte>, x: seq<Byte>, y: seq<Byte>, b: seq<Byte>, x': seq<Byte>, y': seq<Byte>, c: seq<Byte>)
    requires a + x == y + b && b + x' == y' + c
    ensures a + (x + x') == (y + y') + c
  {
    assert a + (x + x') == (a + x) + x';
    assert (y + y') + c == y + (y' + c);
    assert y + (b + x') == (y + b) + x';
  }

  /** No number is issued while it is in use, and the issued number is in use afterwards. */
  lemma IssuedFresh(s: State, ev: Event)
    requires Inv(s) && ev.rt in s.tables && (ev.call.DoOpen? || ev.call.DoDup? || ev.call.DoPipe?)
    ensures
      var r := Step(s, ev);
      var t, t' := s.tables[ev.rt], r.state.tables[ev.rt];
      match r.reply
      case Fd(n) => !InUse(t, n) && t'.files.Keys == t.files.Keys + {n} && n < t'.next
      case TwoFds(a, b) =>
        && a != b && !InUse(t, a) && !InUse(t, b) && t'.files.Keys == t.files.Keys + {a, b}
        && t'.files[a] == PipeEnd(|s.pipes|, ReadEnd, true) && t'.files[b] == PipeEnd(|s.pipes|, WriteEnd, true)
      case Refused(_) => ev.call.DoDup? && !InUse(t, ev.call.fd) && r.state == s
      case _ => false
  {
  }

  /** The number the guest gets from `path_open` reaches the new descriptor if and only if it is
      below 2^31; past that, the guest's number names something else or nothing. */
  lemma OpenReaches(s: State, rt: nat, workspace: bool)
    requires Inv(s) && rt in s.tables
    ensures
      var r := Open(s, rt, workspace);
      var n := GuestFd(r.reply.number);
      (n in r.state.tables[rt].files && !InUse(s.tables[rt], n)) <==> s.tables[rt].next < 2147483648
  {
  }

  /** A guest gets there with one call: duplicating a descriptor to -1 uses the number 2^32 - 1,
      and the next open is reported as descriptor 0. */
  lemma WrapsToStdin(s: State, rt: nat)
    requires Inv(s) && rt in s.tables && s.tables[rt].next < 4294967296
    ensures
      var s1 := Dup2(s, rt, 3, -1).state;
      Dup2(s, rt, 3, -1).reply == Fd(4294967295) && rt in s1.tables && Open(s1, rt, true).reply == Fd(4294967296) && GuestFd(4294967296) == 0
  {
  }

  /** An empty read is end-of-file exactly when no table anywhere holds a write end... */
  lemma EndOfFile(s: State, rt: nat, fd: int, room: nat)
    requires Inv(s) && OnPipe(s, rt, fd)
    requires var d := s.tables[rt].files[fd]; d.end == ReadEnd && d.transfer && s.pipes[d.pipe].bytes == []
    ensures
      var d := s.tables[rt].files[fd];
      var r := Transfer(s, rt, DoRead(fd, room));
      r.state == s && r.reply == if OpenSomewhere(s, d.pipe, WriteEnd) then Refused(Again) else Received([])
  {
    var d := s.tables[rt].files[fd];
    EndsPositive(s, d.pipe, WriteEnd);
    assert Count(s.pipes[d.pipe], WriteEnd) == Ends(s.tables, d.pipe, WriteEnd);
  }

  /** ...and a write is refused as broken exactly when none holds a read end. */
  lemma Broken(s: State, rt: nat, fd: int, bytes: seq<Byte>)
    requires Inv(s) && OnPipe(s, rt, fd)
    requires var d := s.tables[rt].files[fd]; d.end == WriteEnd && d.transfer
    ensures
      var d := s.tables[rt].files[fd];
      var r := Transfer(s, rt, DoWrite(fd, bytes));
      r.reply == Refused(BrokenPipe) <==> !OpenSomewhere(s, d.pipe, ReadEnd)
  {
    var d := s.tables[rt].files[fd];
    EndsPositive(s, d.pipe, ReadEnd);
    assert Count(s.pipes[d.pipe], ReadEnd) == Ends(s.tables, d.pipe, ReadEnd);
  }
}
