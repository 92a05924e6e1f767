/** What the calls of a run answer, and what the log says about them. */
module ProcessReplies {
  import opened Bytes
  import opened Processes
  import opened ProcessRuns

  /** Every state a run reaches has the invariant. */
  lemma ReachedOk(steps: Steps)
    requires Possible(START, steps)
    ensures Inv(Run(START, steps))
  {
    StartOk();
    RunKeepsFrom(START, steps);
  }

  /** `s'` comes after `s`, with these events in between. */
  ghost predicate Adds(s: State, s': State, events: seq<Event>) {
    s'.log == s.log + events
  }

  // ----- Replies and the log -----

  lemma ForkTells(s: State, copy: bool)
    requires Inv(s) && Enabled(s, DoFork(copy))
    ensures
      var r := ProcFork(s, copy);
      if s.rewind.Some? then exists v :: r.reply == Value(v) && Adds(s, r.state, [Resumed(s.current, v)])
      else if s.vfork.Some? then r == Turn(s, Unsupported)
      else r.reply == Begun && Adds(s, r.state, [Forked(s.current, s.next)])
  {
    if s.rewind.Some? {
      var v := s.rewind.value.value;
      assert Adds(s, ProcFork(s, copy).state, [Resumed(s.current, v)]);
    }
  }

  lemma JoinTells(s: State, which: Option<nat>, nonBlocking: bool)
    requires Inv(s) && Enabled(s, DoJoin(which, nonBlocking))
    ensures
      var r := ProcJoin(s, which, nonBlocking);
      && !r.reply.Value? && !r.reply.Begun? && !r.reply.Over?
      && (if r.reply.Status? then Adds(s, r.state, [Joined(s.current, r.reply.pid, r.reply.status)]) else r.state == s)
  {
  }

  lemma TurnTells(s: State, code: int)
    requires Inv(s) && Enabled(s, DoFinishTurn(code))
    ensures
      var r := FinishTurn(s, code);
      && r.reply == Begun
      && Adds(s, r.state, if s.unwind.value.CopyForkChild? then [Resumed(s.unwind.value.child, 0), Recorded(s.unwind.value.child, code)] else [])
  {
    if !s.unwind.value.CopyForkChild? {
      FinishKeeps(s, code);
    }
  }

  lemma ExitTells(s: State, step: Step)
    requires Inv(s) && Enabled(s, step) && (step.DoExit2? || step.DoExec?)
    ensures
      var r := Next(s, step);
      if s.vfork.Some? then r.reply == Begun && Adds(s, r.state, [Recorded(s.current, step.code % 4294967296)])
      else r.reply == Over && r.state == s.(over := true)
  {
  }

  /** One event is not two, and none is not one. */
  lemma AddsOnce(s: State, s': State, events: seq<Event>, e: Event)
    requires Adds(s, s', events)
    ensures Adds(s, s', [e]) <==> events == [e]
  {
    if Adds(s, s', [e]) {
      assert s'.log[|s.log|..] == events;
      assert s'.log[|s.log|..] == [e];
    }
  }

  lemma StepTells(s: State, step: Step) returns (events: seq<Event>)
    requires Inv(s) && Enabled(s, step)
    ensures
      var r := Next(s, step);
      && Adds(s, r.state, events)
      && (forall v :: r.reply == Value(v) <==> events == [Resumed(s.current, v)])
      && (forall pid, st :: r.reply == Status(pid, st) <==> events == [Joined(s.current, pid, st)])
      && (r.reply.Over? <==> r.state.over)
  {
    var r := Next(s, step);
    match step
    case DoFork(copy) =>
      ForkTells(s, copy);
      events := if s.rewind.Some? then [Resumed(s.current, r.reply.value)]
                else if s.vfork.Some? then [] else [Forked(s.current, s.next)];
    case DoJoin(which, nonBlocking) =>
      JoinTells(s, which, nonBlocking);
      events := if r.reply.Status? then [Joined(s.current, r.reply.pid, r.reply.status)] else [];
    case DoFinishTurn(code) =>
      TurnTells(s, code);
      var child := s.unwind.value.child;
      events := if s.unwind.value.CopyForkChild? then [Resumed(child, 0), Recorded(child, code)] else [];
    case DoEnd =>
      events := [];
    case _ =>
      ExitTells(s, step);
      events := if s.vfork.Some? then [Recorded(s.current, step.code % 4294967296)] else [];
  }

  /** At every point of every run, a fork returns `v` to the guest exactly when the log says that
      the process then running was resumed with `v`, and a join hands over a status exactly when the
      log says so; nothing else is ever logged as one event. */
  lemma RepliesAreLogged(steps: Steps, step: Step)
    requires Possible(START, steps) && Enabled(Run(START, steps), step)
    ensures
      var s := Run(START, steps);
      var r := Next(s, step);
      && s.log <= r.state.log
      && (forall v :: r.reply == Value(v) <==> r.state.log == s.log + [Resumed(s.current, v)])
      && (forall pid, st :: r.reply == Status(pid, st) <==> r.state.log == s.log + [Joined(s.current, pid, st)])
  {
    ReachedOk(steps);
    var s := Run(START, steps);
    var r := Next(s, step);
    var events := StepTells(s, step);
    forall v ensures r.reply == Value(v) <==> r.state.log == s.log + [Resumed(s.current, v)] {
      AddsOnce(s, r.state, events, Resumed(s.current, v));
    }
    forall pid, st ensures r.reply == Status(pid, st) <==> r.state.log == s.log + [Joined(s.current, pid, st)] {
      AddsOnce(s, r.state, events, Joined(s.current, pid, st));
    }
  }

  /** What is recorded of a process is what it ended with: 32 bits of it for a vfork child that
      exits or execs, all of it for a copied child. Elsewhere an exit or an exec ends the run. */
  lemma CodesAreRecorded(steps: Steps, step: Step)
    requires Possible(START, steps) && Enabled(Run(START, steps), step)
    ensures
      var s := Run(START, steps);
      var r := Next(s, step);
      && (step.DoExit2? || step.DoExec? ==>
            if s.vfork.Some? then r.state.log == s.log + [Recorded(s.current, step.code % 4294967296)] && !r.state.over
            else r.reply == Over && r.state == s.(over := true))
      && (step.DoFinishTurn? ==>
            && r.reply == Begun
            && r.state.log == (if s.unwind.value.CopyForkChild?
                               then s.log + [Resumed(s.unwind.value.child, 0), Recorded(s.unwind.value.child, step.code)]
                               else s.log))
  {
    ReachedOk(steps);
    var s := Run(START, steps);
    match step
    case DoExit2(_) => ExitTells(s, step);
    case DoExec(_) => ExitTells(s, step);
    case DoFinishTurn(code) =>
      TurnTells(s, code);
      assert s.log + [] == s.log;
    case _ =>
  }

  // ----- Joins, going by the log -----

  /** The log says that this child has exited and its parent, which may join it, is running again. */
  predicate Joinable(log: seq<Event>, parent: nat, pid: nat) {
    pid >= 2 && StageOf(log, pid).Returned? && StageOf(log, pid).parent == parent
  }

  lemma JoinableExited(s: State, pid: nat)
    requires Inv(s) && s.unwind.None? && s.rewind.None?
    ensures Joinable(s.log, s.current, pid) <==> IsExitedChild(s.processes, s.current, pid)
    ensures Joinable(s.log, s.current, pid) ==> s.processes[pid].life.code == StageOf(s.log, pid).code && pid < s.next
  {
    if pid >= 2 {
      assert Agrees(s, pid);
    }
  }

  /** While a process makes calls of its own, none of its children is running. */
  lemma ChildrenExited(s: State, pid: nat)
    requires Inv(s) && s.unwind.None? && s.rewind.None? && pid in s.processes && s.processes[pid].parent == s.current
    ensures IsExitedChild(s.processes, s.current, pid) && pid < s.next
  {
  }

  /** A join of a given process hands over the status of a joinable child, modulo 65536; any other
      process it does not know. */
  lemma JoinOfOne(steps: Steps, pid: nat, nonBlocking: bool)
    requires Possible(START, steps) && Enabled(Run(START, steps), DoJoin(Some(pid), nonBlocking))
    ensures
      var s := Run(START, steps);
      ProcJoin(s, Some(pid), nonBlocking).reply ==
      if Joinable(s.log, s.current, pid) then Status(pid, StageOf(s.log, pid).code % 65536) else Nothing
  {
    ReachedOk(steps);
    var s := Run(START, steps);
    JoinableExited(s, pid);
  }

  /** A join of any process hands over the status of the first joinable child to be forked, and
      knows no child if there is none. */
  lemma JoinOfAny(steps: Steps, nonBlocking: bool)
    requires Possible(START, steps) && Enabled(Run(START, steps), DoJoin(None, nonBlocking))
    ensures
      var s := Run(START, steps);
      match ProcJoin(s, None, nonBlocking).reply
      case Status(pid, status) =>
        && Joinable(s.log, s.current, pid) && status == StageOf(s.log, pid).code % 65536
        && forall k | 0 <= k < pid :: !Joinable(s.log, s.current, k)
      case NoChild => forall k :: !Joinable(s.log, s.current, k)
      case _ => false
  {
    ReachedOk(steps);
    var s := Run(START, steps);
    forall k: nat ensures Joinable(s.log, s.current, k) <==> IsExitedChild(s.processes, s.current, k) {
      JoinableExited(s, k);
    }
    forall k: nat ensures Joinable(s.log, s.current, k) ==> k < s.next && s.processes[k].life.code == StageOf(s.log, k).code {
      JoinableExited(s, k);
    }
    forall k | k in s.processes && s.processes[k].parent == s.current
      ensures IsExitedChild(s.processes, s.current, k) && k < s.next
    {
      ChildrenExited(s, k);
    }
  }

  // ----- A fork from beginning to end -----

  /** Takes one step. */
  ghost predicate Goes(s: State, step: Step, s': State, reply: Reply) {
    Enabled(s, step) && Next(s, step) == Turn(s', reply)
  }

  /** Wherever no fork is in progress, a vfork begins; once the guest has unwound, the fork it makes
      returns 0, in a child that no event knew. */
  lemma VforkResumesChild(s: State, code: int, again: bool) returns (s1: State, s2: State, s3: State)
    requires Inv(s) && !s.over && s.unwind.None? && s.rewind.None? && s.vfork.None?
    ensures Goes(s, DoFork(false), s1, Begun) && Goes(s1, DoFinishTurn(code), s2, Begun) && Goes(s2, DoFork(again), s3, Value(0))
    ensures Inv(s3) && s3.log == s.log + [Forked(s.current, s.next), Resumed(s.next, 0)] && StageOf(s.log, s.next) == Unborn
    ensures s3.current == s.next && s3.vfork == Some(Vfork(s.next, s.current)) && s3.unwind.None? && s3.rewind.None? && !s3.over
  {
    s1 := ProcFork(s, false).state;
    ForkKeeps(s, false);
    s2 := FinishTurn(s1, code).state;
    FinishKeeps(s1, code);
    s3 := ProcFork(s2, again).state;
    ResumeKeeps(s2, again);
    assert Agrees(s, s.next);
  }

  /** When that child exits, the fork its parent unwound from returns the child's pid in the parent,
      after the exit was recorded; the parent can then join the child. */
  lemma ExitResumesParent(s: State, exit: int, code: int, again: bool) returns (s1: State, s2: State, s3: State)
    requires Inv(s) && !s.over && s.unwind.None? && s.rewind.None? && s.vfork.Some?
    ensures Goes(s, DoExit2(exit), s1, Begun) && Goes(s1, DoFinishTurn(code), s2, Begun) && Goes(s2, DoFork(again), s3, Value(s.current))
    ensures Inv(s3) && s3.log == s.log + [Recorded(s.current, exit % 4294967296), Resumed(s.vfork.value.parent, s.current)]
    ensures s3.current == s.vfork.value.parent && s3.vfork.None? && s3.unwind.None? && s3.rewind.None? && !s3.over
  {
    s1 := ProcExit2(s, exit).state;
    Exit2Keeps(s, exit);
    s2 := FinishTurn(s1, code).state;
    FinishKeeps(s1, code);
    s3 := ProcFork(s2, again).state;
    ResumeKeeps(s2, again);
  }

  /** The same when it execs, in one turn less. */
  lemma ExecResumesParent(s: State, exit: int, again: bool) returns (s1: State, s2: State)
    requires Inv(s) && !s.over && s.unwind.None? && s.rewind.None? && s.vfork.Some?
    ensures Goes(s, DoExec(exit), s1, Begun) && Goes(s1, DoFork(again), s2, Value(s.current))
    ensures Inv(s2) && s2.log == s.log + [Recorded(s.current, exit % 4294967296), Resumed(s.vfork.value.parent, s.current)]
    ensures s2.current == s.vfork.value.parent && s2.vfork.None? && s2.unwind.None? && s2.rewind.None? && !s2.over
  {
    s1 := ProcExec(s, exit).state;
    ExecKeeps(s, exit);
    s2 := ProcFork(s1, again).state;
    ResumeKeeps(s1, again);
  }

  /** A copying fork runs the child to its end within the turn and then returns its pid to the
      parent. */
  lemma CopyResumesParent(s: State, exit: int, again: bool) returns (s1: State, s2: State, s3: State)
    requires Inv(s) && !s.over && s.unwind.None? && s.rewind.None? && s.vfork.None?
    ensures Goes(s, DoFork(true), s1, Begun) && Goes(s1, DoFinishTurn(exit), s2, Begun) && Goes(s2, DoFork(again), s3, Value(s.next))
    ensures Inv(s3) && StageOf(s.log, s.next) == Unborn
    ensures s3.log == s.log + [Forked(s.current, s.next), Resumed(s.next, 0), Recorded(s.next, exit), Resumed(s.current, s.next)]
    ensures s3.current == s.current && s3.vfork.None? && s3.unwind.None? && s3.rewind.None? && !s3.over
  {
    s1 := ProcFork(s, true).state;
    ForkKeeps(s, true);
    s2 := FinishTurn(s1, exit).state;
    CopyKeeps(s1, exit);
    s3 := ProcFork(s2, again).state;
    ResumeKeeps(s2, again);
    assert Agrees(s, s.next);
  }

  /** From either, a join of that child hands over the status, once. */
  lemma ThenJoined(s: State, pid: nat, nonBlocking: bool) returns (s1: State)
    requires Inv(s) && !s.over && s.unwind.None? && s.rewind.None? && Joinable(s.log, s.current, pid)
    ensures Goes(s, DoJoin(Some(pid), nonBlocking), s1, Status(pid, StageOf(s.log, pid).code % 65536))
    ensures Inv(s1) && StageOf(s1.log, pid) == Reaped && Goes(s1, DoJoin(Some(pid), nonBlocking), s1, Nothing)
  {
    JoinableExited(s, pid);
    s1 := ProcJoin(s, Some(pid), nonBlocking).state;
    ProcJoinKeeps(s, Some(pid), nonBlocking);
    assert Agrees(s1, pid);
  }
}
