/** What each call answers and what it leaves behind, told without the functions that compute it:
    the table as a map, the pipe as its bytes, the limits as numerals. */
module DescriptorCalls {
  import opened Bytes
  import opened Descriptors
  import opened DescriptorRuns

  // ----- Tables -----

  /** What a guest finds at a number: what was put there, or one of the standard streams, the
      workspace, the package and the root that every table starts with. */
  function WhatIsAt(t: Table, fd: int): Option<Desc> {
    if fd in t.files then Some(t.files[fd])
    else
      match fd
      case 0 => Some(Stdio(0))
      case 1 => Some(Stdio(1))
      case 2 => Some(Stdio(2))
      case 3 => Some(Plain(true))
      case 4 => Some(Plain(false))
      case 5 => if t.preopen then Some(Plain(false)) else None
      case _ => None
  }

  lemma InUseExactly(t: Table, fd: int)
    ensures InUse(t, fd) <==> WhatIsAt(t, fd).Some?
    ensures Duplicate(t, fd) == WhatIsAt(t, fd)
  {
  }

  /** The lowest number, from 5 on, at which there is nothing. */
  ghost predicate IsLowest(t: Table, from: nat, n: nat) {
    n >= from && WhatIsAt(t, n).None? && forall k | from <= k < n :: WhatIsAt(t, k).Some?
  }

  lemma LowestIs(t: Table, from: nat)
    ensures IsLowest(t, from, Lowest(t, from))
  {
    var n := Lowest(t, from);
    InUseExactly(t, n);
    forall k | from <= k < n ensures WhatIsAt(t, k).Some? {
      InUseExactly(t, k);
    }
  }

  /** Only the table of `rt` is different: it holds `files`, and its counter is past `n` if it was
      not before and `n` is dynamic. */
  ghost predicate Leaves(s: State, s': State, rt: nat, files: map<nat, Desc>, n: int) {
    && rt in s.tables
    && s'.tables == s.tables[rt := Table(files, if n >= 5 && n >= s.tables[rt].next then n + 1 else s.tables[rt].next, s.tables[rt].preopen)]
  }

  /** A duplicate of what is at `fd` is put at the lowest free number, or there is nothing there. */
  lemma DupCopies(s: State, rt: nat, fd: int)
    requires rt in s.tables
    ensures
      var t, r := s.tables[rt], Step(s, Event(rt, DoDup(fd)));
      match WhatIsAt(t, fd)
      case None => r == Turn(s, Refused(BadF))
      case Some(d) => r.reply.Fd? && IsLowest(t, 5, r.reply.number) && Leaves(s, r.state, rt, t.files[r.reply.number := d], r.reply.number)
  {
    InUseExactly(s.tables[rt], fd);
    LowestIs(s.tables[rt], 5);
  }

  /** A descriptor may be put at the numbers from 5 on, and at the standard ones unless it is in
      the package. */
  predicate MayBeAt(d: Desc, n: int) {
    n >= 5 || (0 <= n <= 2 && d != Plain(false))
  }

  /** A duplicate of what is at `fd` is put at `to`, the target modulo 2^32; a descriptor is already
      a duplicate of itself. */
  lemma Dup2Copies(s: State, rt: nat, fd: int, target: int)
    requires rt in s.tables
    ensures
      var t, to, r := s.tables[rt], target % 4294967296, Step(s, Event(rt, DoDup2(fd, target)));
      match WhatIsAt(t, fd)
      case None => r == Turn(s, Refused(BadF))
      case Some(d) =>
        if fd == to && to !in {3, 4} then r == Turn(s, Fd(to))
        else if !MayBeAt(d, to) then r == Turn(s, Refused(NotCapable))
        else r.reply == Fd(to) && Leaves(s, r.state, rt, t.files[to := d], to)
  {
    InUseExactly(s.tables[rt], fd);
    var t, to := s.tables[rt], target % 4294967296;
    if WhatIsAt(t, fd).Some? {
      var d := WhatIsAt(t, fd).value;
      assert (t.files - {to})[to := d] == t.files[to := d];
    }
  }

  /** A descriptor of the table is moved to `to`. */
  lemma RenumberMoves(s: State, rt: nat, fd: int, to: int)
    requires rt in s.tables
    ensures
      var t, r := s.tables[rt], Step(s, Event(rt, DoRenumber(fd, to)));
      if fd !in t.files then r == Turn(s, Refused(if WhatIsAt(t, fd).Some? then NotCapable else BadF))
      else if !MayBeAt(t.files[fd], to) then r == Turn(s, Refused(NotCapable))
      else if fd == to then r == Turn(s, Success)
      else r.reply == Success && Leaves(s, r.state, rt, (t.files - {fd})[to := t.files[fd]], to)
  {
    var t := s.tables[rt];
    InUseExactly(t, fd);
    if fd in t.files && to >= 0 {
      assert (t.files - {to} - {fd})[to := t.files[fd]] == (t.files - {fd})[to := t.files[fd]];
    }
  }

  lemma CloseRemoves(s: State, rt: nat, fd: int)
    requires rt in s.tables
    ensures
      var t, r := s.tables[rt], Step(s, Event(rt, DoClose(fd)));
      if fd !in t.files then r == Turn(s, Refused(BadF)) else r.reply == Success && Leaves(s, r.state, rt, t.files - {fd}, -1)
  {
  }

  /** An open takes the counter's number. */
  lemma OpenAdds(s: State, rt: nat, workspace: bool)
    requires Inv(s) && rt in s.tables
    ensures
      var t, r := s.tables[rt], Step(s, Event(rt, DoOpen(workspace)));
      r.reply == Fd(t.next) && r.state.pipes == s.pipes && Leaves(s, r.state, rt, t.files[t.next := Plain(workspace)], t.next)
  {
  }

  /** The ends of a new, empty pipe are put at the lowest free number and the lowest after it; a
      number past 2^32 - 1 starts the search again. */
  lemma PipeAdds(s: State, rt: nat)
    requires rt in s.tables
    ensures
      var t, r := s.tables[rt], Step(s, Event(rt, DoPipe));
      && r.reply.TwoFds? && r.state.pipes == s.pipes + [Pipe([], 1, 1)]
      && var a, b, id := r.reply.read, r.reply.write, |s.pipes|;
      var t1 := t.(files := t.files[a := PipeEnd(id, ReadEnd, true)]);
      && IsLowest(t, 5, a) && IsLowest(t1, if (a + 1) % 4294967296 < 5 then 5 else (a + 1) % 4294967296, b)
      && r.state.tables.Keys == s.tables.Keys && (forall k | k in s.tables && k != rt :: r.state.tables[k] == s.tables[k])
      && r.state.tables[rt].files == t.files[a := PipeEnd(id, ReadEnd, true)][b := PipeEnd(id, WriteEnd, true)]
  {
    LowestIs(s.tables[rt], 5);
    PipeSecond(s, rt);
  }

  lemma PipeSecond(s: State, rt: nat)
    requires rt in s.tables
    ensures
      var t, r := s.tables[rt], MakePipe(s, rt);
      var a := Lowest(t, 5);
      r.reply.TwoFds? && IsLowest(t.(files := t.files[a := PipeEnd(|s.pipes|, ReadEnd, true)]),
                                  if (a + 1) % 4294967296 < 5 then 5 else (a + 1) % 4294967296, r.reply.write)
  {
    var t := s.tables[rt];
    var a := Lowest(t, 5);
    var t1 := OpenFrom(s.(pipes := s.pipes + [Pipe([], 1, 1)]), rt, 5, PipeEnd(|s.pipes|, ReadEnd, true)).tables[rt];
    LowestIs(t1, From(a + 1));
    var b := Lowest(t1, From(a + 1));
    var t2 := t.(files := t.files[a := PipeEnd(|s.pipes|, ReadEnd, true)]);
    forall k: nat ensures WhatIsAt(t1, k) == WhatIsAt(t2, k) {
    }
  }

  /** The right to transfer can be given up and not taken back. */
  lemma RightsGiveUp(s: State, rt: nat, fd: int, transfer: bool)
    requires rt in s.tables
    ensures
      var t, r := s.tables[rt], Step(s, Event(rt, DoSetRights(fd, transfer)));
      && r.state.pipes == s.pipes
      && match WhatIsAt(t, fd)
         case None => r == Turn(s, Refused(BadF))
         case Some(PipeEnd(id, e, had)) =>
           if transfer && !had then r == Turn(s, Refused(NotCapable))
           else r.reply == Success && Leaves(s, r.state, rt, t.files[fd := PipeEnd(id, e, transfer)], -1)
         case Some(_) => r == Turn(s, Success)
  {
    InUseExactly(s.tables[rt], fd);
  }

  /** A copied-fork child has exactly the descriptors of its parent, and when it ends they are gone;
      no other table changes. */
  lemma ForkCopies(s: State, rt: nat, child: nat)
    requires rt in s.tables
    ensures Step(s, Event(rt, DoExit)).state.tables == s.tables - {rt}
    ensures Step(s, Event(rt, DoFork(child))).state.tables == if child in s.tables then s.tables else s.tables[child := s.tables[rt]]
  {
  }

  /** Before its first call a root runtime has an empty table and no pipe; a preopened root takes 5. */
  lemma StartIs(preopen: bool)
    ensures Start(preopen) == State(map[0 := Table(map[], if preopen then 6 else 5, preopen)], [])
  {
  }

  /** What a guest makes of a number: 32 bits, as a signed integer. */
  lemma GuestNumber(n: nat)
    ensures -2147483648 <= GuestFd(n) < 2147483648 && (n - GuestFd(n)) % 4294967296 == 0
  {
  }

  // ----- Pipes -----

  /** The call is on this end of a pipe, and the descriptor may be used for it. */
  predicate Usable(s: State, rt: nat, fd: int, e: End) {
    OnPipe(s, rt, fd) && s.tables[rt].files[fd].end == e && s.tables[rt].files[fd].transfer
  }

  function PipeOf(s: State, rt: nat, fd: int): (id: nat)
    requires OnPipe(s, rt, fd)
    ensures id < |s.pipes|
  {
    s.tables[rt].files[fd].pipe
  }

  /** Only the bytes in that pipe are different. */
  ghost predicate Holds(s: State, s': State, id: nat, bytes: seq<Byte>) {
    id < |s.pipes| && s' == s.(pipes := s.pipes[id := Pipe(bytes, s.pipes[id].readers, s.pipes[id].writers)])
  }

  lemma CountersTell(s: State, id: nat)
    requires Inv(s) && id < |s.pipes|
    ensures s.pipes[id].readers > 0 <==> OpenSomewhere(s, id, ReadEnd)
    ensures s.pipes[id].writers > 0 <==> OpenSomewhere(s, id, WriteEnd)
  {
    EndsPositive(s, id, ReadEnd);
    EndsPositive(s, id, WriteEnd);
    assert Count(s.pipes[id], ReadEnd) == Ends(s.tables, id, ReadEnd);
    assert Count(s.pipes[id], WriteEnd) == Ends(s.tables, id, WriteEnd);
  }

  /** A read is given the front of what the pipe holds, as much as there is room for; with room, it
      is given nothing exactly at the end of the file. It has to come back later if the pipe is empty
      and some table holds a write end. */
  lemma ReadTakes(s: State, rt: nat, fd: int, room: nat)
    requires Inv(s) && Usable(s, rt, fd, ReadEnd)
    ensures
      var id, r := PipeOf(s, rt, fd), Step(s, Event(rt, DoRead(fd, room)));
      var held := s.pipes[id].bytes;
      && (r.reply == Refused(Again) <==> held == [] && OpenSomewhere(s, id, WriteEnd))
      && (if r.reply == Refused(Again) then r.state == s
          else
            && r.reply.Received? && |r.reply.bytes| <= room
            && exists left :: held == r.reply.bytes + left && Holds(s, r.state, id, left) && (|r.reply.bytes| < room ==> left == []))
      && (room > 0 ==> (r.reply == Received([]) <==> held == [] && !OpenSomewhere(s, id, WriteEnd)))
  {
    var id, r := PipeOf(s, rt, fd), Step(s, Event(rt, DoRead(fd, room)));
    var held := s.pipes[id].bytes;
    CountersTell(s, id);
    if held == [] {
      assert s.pipes[id := Pipe([], s.pipes[id].readers, s.pipes[id].writers)] == s.pipes;
      assert r.reply.Received? ==> held == r.reply.bytes + [] && Holds(s, r.state, id, []);
    } else {
      var n := |r.reply.bytes|;
      assert held == r.reply.bytes + held[n..];
      assert Holds(s, r.state, id, held[n..]);
    }
  }

  /** An exec takes all of it. */
  lemma DrainTakes(s: State, rt: nat, fd: int)
    requires OnPipe(s, rt, fd)
    ensures
      var id, r := PipeOf(s, rt, fd), Step(s, Event(rt, DoDrain(fd)));
      if Usable(s, rt, fd, ReadEnd) then r.reply == Received(s.pipes[id].bytes) && Holds(s, r.state, id, [])
      else r == Turn(s, Thrown)
  {
    var bytes := s.pipes[PipeOf(s, rt, fd)].bytes;
    assert bytes[|bytes|..] == [];
  }

  /** A write goes through, all of it, if and only if some table holds a read end and the pipe then
      holds at most 1 MiB. */
  lemma WriteAdds(s: State, rt: nat, fd: int, bytes: seq<Byte>)
    requires Inv(s) && Usable(s, rt, fd, WriteEnd)
    ensures
      var id, r := PipeOf(s, rt, fd), Step(s, Event(rt, DoWrite(fd, bytes)));
      var all := s.pipes[id].bytes + bytes;
      if !OpenSomewhere(s, id, ReadEnd) then r == Turn(s, Refused(BrokenPipe))
      else if |all| > 1048576 then r == Turn(s, Refused(Again))
      else r.reply == Written(|bytes|) && Holds(s, r.state, id, all)
  {
    CountersTell(s, PipeOf(s, rt, fd));
  }

  /** The wrong end, and an end without the right, are refused. */
  lemma WrongEnds(s: State, rt: nat, fd: int, room: nat, bytes: seq<Byte>)
    requires OnPipe(s, rt, fd)
    ensures !Usable(s, rt, fd, ReadEnd) ==>
              Step(s, Event(rt, DoRead(fd, room))) == Turn(s, Refused(if s.tables[rt].files[fd].end == ReadEnd then NotCapable else BadF))
    ensures !Usable(s, rt, fd, WriteEnd) ==>
              Step(s, Event(rt, DoWrite(fd, bytes))) == Turn(s, Refused(if s.tables[rt].files[fd].end == WriteEnd then NotCapable else BadF))
  {
  }

  /** Captured output goes through, all of it, under the same condition, whatever the right of the
      descriptor; nothing always does. */
  lemma CaptureAdds(s: State, rt: nat, fd: int, bytes: seq<Byte>)
    requires Inv(s) && OnPipe(s, rt, fd)
    ensures
      var id, r := PipeOf(s, rt, fd), Step(s, Event(rt, DoCapture(fd, bytes)));
      var all := s.pipes[id].bytes + bytes;
      if bytes == [] then r == Turn(s, Success)
      else if s.tables[rt].files[fd].end == WriteEnd && OpenSomewhere(s, id, ReadEnd) && |all| <= 1048576
      then r.reply == Success && Holds(s, r.state, id, all)
      else r == Turn(s, Thrown)
  {
    CountersTell(s, PipeOf(s, rt, fd));
  }
}
