/** The life of every process, as the log of a run tells it. */
module ProcessRuns {
  import opened Bytes
  import opened Processes

  /** Where a pid stands, and who forked it. Nothing leads out of `Broken`. */
  datatype Stage =
    | Unborn
    | Born(parent: nat)
    | Live(parent: nat)
    | Dead(parent: nat, code: int)
    | Returned(parent: nat, code: int)
    | Reaped
    | Broken

  /** One process's life has one order: it is forked, resumed with zero, recorded as exited; the
      process that forked it is resumed with its pid, and is given its status. Each of them once. */
  function Advance(st: Stage, e: Event, pid: nat): Stage {
    match e
    case Forked(parent, child) => if child != pid then st else if st.Unborn? then Born(parent) else Broken
    case Resumed(process, value) =>
      if value == 0 && process == pid then (if st.Born? then Live(st.parent) else Broken)
      else if value == pid then (if st.Dead? && process == st.parent then Returned(st.parent, st.code) else Broken)
      else st
    case Recorded(p, code) => if p != pid then st else if st.Live? then Dead(st.parent, code) else Broken
    case Joined(parent, p, status) =>
      if p != pid then st
      else if st.Returned? && parent == st.parent && status == st.code % 65536 then Reaped
      else Broken
  }

  function StageOf(log: seq<Event>, pid: nat): Stage {
    if log == [] then Unborn else Advance(StageOf(log[..|log| - 1], pid), log[|log| - 1], pid)
  }

  lemma StageLogged(log: seq<Event>, e: Event, pid: nat)
    ensures StageOf(log + [e], pid) == Advance(StageOf(log, pid), e, pid)
  {
    assert (log + [e])[..|log|] == log;
  }

  // ----- The table and the log agree -----

  /** The child a fork in progress is about, and its stage. */
  function InProgress(s: State): Option<nat> {
    if s.unwind.Some? then Some(s.unwind.value.child)
    else if s.rewind.Some? then Some(if s.rewind.value.value == 0 then s.rewind.value.process else s.rewind.value.value)
    else if s.vfork.Some? then Some(s.vfork.value.child)
    else None
  }

  /** The stage the tables give a pid. */
  function Expected(s: State, pid: nat): Stage {
    if pid >= s.next then Unborn
    else if pid !in s.processes then Reaped
    else
      var p := s.processes[pid];
      if p.life.Exited? then
        if InProgress(s) == Some(pid) then Dead(p.parent, p.life.code) else Returned(p.parent, p.life.code)
      else if s.unwind.Some? || s.rewind.Some? then Born(p.parent)
      else Live(p.parent)
  }

  predicate Agrees(s: State, pid: nat) {
    StageOf(s.log, pid) == Expected(s, pid)
  }

  predicate Children(s: State) {
    forall pid :: pid in s.processes && pid != ROOT ==>
      2 <= pid < s.next && s.processes[pid].parent == ROOT && (s.processes[pid].life.Running? ==> InProgress(s) == Some(pid))
  }

  /** The root is always there; the child a fork is about is in the table. */
  predicate Settled(s: State) {
    && s.next >= 2 && ROOT in s.processes && s.processes[ROOT] == Process(0, Running)
    && (InProgress(s).Some? ==> InProgress(s).value in s.processes && InProgress(s).value >= 2)
    && !(s.unwind.Some? && s.rewind.Some?)
  }

  /** Who runs, and in what state the child is, at each point of a fork. */
  predicate Phase(s: State) {
    if s.unwind.Some? then
      var child := s.unwind.value.child;
      child in s.processes &&
      if s.unwind.value.VforkParent? then
        s.vfork == Some(Vfork(child, ROOT)) && s.current == child && s.processes[child].life.Exited?
      else s.vfork.None? && s.current == ROOT && s.unwind.value.parent == ROOT && s.processes[child].life.Running?
    else if s.rewind.Some? then
      var r := s.rewind.value;
      s.current == r.process &&
      if r.value == 0 then s.vfork == Some(Vfork(r.process, ROOT)) && r.process in s.processes && s.processes[r.process].life.Running?
      else s.vfork.None? && r.process == ROOT && r.value in s.processes && s.processes[r.value].life.Exited?
    else if s.vfork.Some? then
      var child := s.vfork.value.child;
      s.vfork.value.parent == ROOT && s.current == child && child in s.processes && s.processes[child].life.Running?
    else s.current == ROOT
  }

  ghost predicate Inv(s: State) {
    Settled(s) && Children(s) && Phase(s) && (forall pid :: pid >= 2 ==> Agrees(s, pid))
  }

  lemma StartOk()
    ensures Inv(START)
  {
  }

  lemma ForkKeeps(s: State, copy: bool)
    requires Inv(s) && s.unwind.None? && s.rewind.None?
    ensures Inv(ProcFork(s, copy).state)
  {
    var s' := ProcFork(s, copy).state;
    if s' != s {
      forall pid | pid >= 2 ensures Agrees(s', pid) {
        StageLogged(s.log, Forked(s.current, s.next), pid);
        assert Agrees(s, pid);
      }
    }
  }

  lemma ResumeKeeps(s: State, copy: bool)
    requires Inv(s) && s.rewind.Some?
    ensures Inv(ProcFork(s, copy).state)
  {
    var s' := ProcFork(s, copy).state;
    var r := s.rewind.value;
    forall pid | pid >= 2 ensures Agrees(s', pid) {
      StageLogged(s.log, Resumed(r.process, r.value), pid);
      assert Agrees(s, pid);
    }
  }

  lemma Exit2Keeps(s: State, code: int)
    requires Inv(s) && InVforkChild(s) && s.unwind.None? && s.rewind.None?
    ensures Inv(ProcExit2(s, code).state)
  {
    var s' := ProcExit2(s, code).state;
    forall pid | pid >= 2 ensures Agrees(s', pid) {
      StageLogged(s.log, Recorded(s.current, code % TWO32), pid);
      assert Agrees(s, pid);
    }
  }

  /** An exec does at once what an exit and the end of its turn do. */
  lemma ExecKeeps(s: State, code: int)
    requires Inv(s) && InVforkChild(s) && s.unwind.None? && s.rewind.None?
    ensures Inv(ProcExec(s, code).state)
  {
    var s' := ProcExit2(s, code).state;
    Exit2Keeps(s, code);
    FinishKeeps(s', code);
    assert FinishTurn(s', code).state == ProcExec(s, code).state;
  }

  lemma JoinKeeps(s: State, pid: nat)
    requires Inv(s) && s.unwind.None? && s.rewind.None? && pid in s.processes && s.processes[pid].life.Exited?
    requires s.processes[pid].parent == s.current
    ensures Inv(Join(s, pid).state)
  {
    var s' := Join(s, pid).state;
    forall k | k >= 2 ensures Agrees(s', k) {
      StageLogged(s.log, Joined(s.current, pid, s.processes[pid].life.code % 65536), k);
      assert Agrees(s, k);
    }
  }

  lemma FinishKeeps(s: State, code: int)
    requires Inv(s) && s.unwind.Some? && !s.unwind.value.CopyForkChild?
    ensures Inv(FinishTurn(s, code).state) && FinishTurn(s, code).reply == Begun
  {
    var s' := FinishTurn(s, code).state;
    forall pid | pid >= 2 ensures Agrees(s', pid) {
      assert Agrees(s, pid);
    }
  }

  lemma CopyAgrees(s: State, code: int, pid: nat)
    requires Settled(s) && Children(s) && Phase(s) && s.unwind.Some? && s.unwind.value.CopyForkChild?
    requires pid >= 2 && Agrees(s, pid)
    ensures Agrees(FinishTurn(s, code).state, pid)
  {
    var child := s.unwind.value.child;
    StageLogged(s.log, Resumed(child, 0), pid);
    StageLogged(s.log + [Resumed(child, 0)], Recorded(child, code), pid);
  }

  lemma CopyKeeps(s: State, code: int)
    requires Inv(s) && s.unwind.Some? && s.unwind.value.CopyForkChild?
    ensures Inv(FinishTurn(s, code).state)
  {
    var s' := FinishTurn(s, code).state;
    forall pid | pid >= 2 ensures Agrees(s', pid) {
      assert Agrees(s, pid);
      CopyAgrees(s, code, pid);
    }
  }

  lemma OverKeeps(s: State)
    requires Inv(s)
    ensures Inv(s.(over := true))
  {
    forall pid | pid >= 2 ensures Agrees(s.(over := true), pid) {
      assert Agrees(s, pid);
    }
  }

  lemma ProcJoinKeeps(s: State, which: Option<nat>, nonBlocking: bool)
    requires Inv(s) && s.unwind.None? && s.rewind.None?
    ensures Inv(ProcJoin(s, which, nonBlocking).state)
  {
    if which.None? {
      var child := LowestExited(s.processes, s.current, 0, s.next);
      if child.Some? {
        JoinKeeps(s, child.value);
      }
    } else if which.value in s.processes && s.processes[which.value].parent == s.current && s.processes[which.value].life.Exited? {
      JoinKeeps(s, which.value);
    }
  }

  lemma NextKeeps(s: State, step: Step)
    requires Inv(s) && Enabled(s, step)
    ensures Inv(Next(s, step).state)
  {
    OverKeeps(s);
    match step {
      case DoFork(copy) => if s.rewind.Some? { ResumeKeeps(s, copy); } else { ForkKeeps(s, copy); }
      case DoExit2(code) => if InVforkChild(s) { Exit2Keeps(s, code); }
      case DoExec(code) => if InVforkChild(s) { ExecKeeps(s, code); }
      case DoJoin(which, nonBlocking) => ProcJoinKeeps(s, which, nonBlocking);
      case DoFinishTurn(code) => if s.unwind.value.CopyForkChild? { CopyKeeps(s, code); } else { FinishKeeps(s, code); }
      case DoEnd =>
    }
  }

  lemma {:induction false} RunKeepsFrom(s: State, steps: Steps)
    requires Inv(s) && Possible(s, steps)
    ensures Inv(Run(s, steps))
    decreases steps
  {
    if steps.Then? {
      NextKeeps(s, steps.step);
      RunKeepsFrom(Next(s, steps.step).state, steps.rest);
    }
  }

  /** In every run of a root runtime, every pid lives its life in order: it is new when it is
      forked, it is resumed with zero first, the process that forked it is resumed with its pid only
      after its exit was recorded, and that process is given its status, modulo 65536, at most
      once. */
  lemma LivesInOrder(steps: Steps, pid: nat)
    requires Possible(START, steps) && pid >= 2
    ensures !StageOf(Run(START, steps).log, pid).Broken?
  {
    StartOk();
    RunKeepsFrom(START, steps);
    assert Agrees(Run(START, steps), pid);
  }

  // ----- What that means for the log -----

  function Rank(st: Stage): nat {
    match st
    case Unborn => 0
    case Born(_) => 1
    case Live(_) => 2
    case Dead(_, _) => 3
    case Returned(_, _) => 4
    case Reaped => 5
    case Broken => 6
  }

  /** The stage after the first `n` events. */
  function StageAt(log: seq<Event>, n: nat, pid: nat): Stage
    requires n <= |log|
  {
    StageOf(log[..n], pid)
  }

  lemma StageNext(log: seq<Event>, n: nat, pid: nat)
    requires n < |log|
    ensures StageAt(log, n + 1, pid) == Advance(StageAt(log, n, pid), log[n], pid)
  {
    assert log[..n + 1] == log[..n] + [log[n]];
    StageLogged(log[..n], log[n], pid);
  }

  lemma {:induction false} RanksRise(log: seq<Event>, i: nat, j: nat, pid: nat)
    requires i <= j <= |log|
    ensures Rank(StageAt(log, i, pid)) <= Rank(StageAt(log, j, pid))
    decreases j - i
  {
    if i < j {
      StageNext(log, j - 1, pid);
      RanksRise(log, i, j - 1, pid);
    }
  }

  /** A pid known as exited was recorded so, with that code. */
  lemma {:induction false} RecordedBefore(log: seq<Event>, n: nat, pid: nat) returns (i: nat)
    requires n <= |log| && (StageAt(log, n, pid).Dead? || StageAt(log, n, pid).Returned?)
    ensures i < n && log[i] == Recorded(pid, StageAt(log, n, pid).code)
    decreases n
  {
    if n > 0 {
      StageNext(log, n - 1, pid);
      if log[n - 1] == Recorded(pid, StageAt(log, n, pid).code) {
        i := n - 1;
      } else {
        i := RecordedBefore(log, n - 1, pid);
      }
    }
  }

  predicate HasParent(st: Stage) {
    st.Born? || st.Live? || st.Dead? || st.Returned?
  }

  /** The parent of a pid is the process that forked it. */
  lemma {:induction false} ForkedBefore(log: seq<Event>, n: nat, pid: nat) returns (i: nat)
    requires n <= |log| && HasParent(StageAt(log, n, pid))
    ensures i < n && log[i] == Forked(StageAt(log, n, pid).parent, pid)
    decreases n
  {
    if n > 0 {
      StageNext(log, n - 1, pid);
      if log[n - 1] == Forked(StageAt(log, n, pid).parent, pid) {
        i := n - 1;
      } else {
        i := ForkedBefore(log, n - 1, pid);
      }
    }
  }

  predicate InOrder(log: seq<Event>, pid: nat) {
    !StageOf(log, pid).Broken?
  }

  lemma WholeAt(log: seq<Event>, n: nat, pid: nat)
    requires InOrder(log, pid) && n <= |log|
    ensures !StageAt(log, n, pid).Broken?
  {
    assert log[..|log|] == log;
    RanksRise(log, n, |log|, pid);
  }

  /** The status of a child is handed over at most once... */
  lemma JoinedOnce(log: seq<Event>, pid: nat, i: nat, j: nat)
    requires InOrder(log, pid) && i < j < |log| && log[i].Joined? && log[i].pid == pid
    ensures !(log[j].Joined? && log[j].pid == pid)
  {
    WholeAt(log, i + 1, pid);
    WholeAt(log, j + 1, pid);
    StageNext(log, i, pid);
    StageNext(log, j, pid);
    RanksRise(log, i + 1, j, pid);
  }

  /** ...to the process that forked it, and is the recorded exit code, modulo 65536... */
  lemma JoinedStatus(log: seq<Event>, pid: nat, i: nat) returns (fork: nat, exit: nat)
    requires InOrder(log, pid) && i < |log| && log[i].Joined? && log[i].pid == pid
    ensures fork < i && log[fork] == Forked(log[i].parent, pid)
    ensures exit < i && log[exit].Recorded? && log[exit].pid == pid && log[i].status == log[exit].code % 65536
  {
    WholeAt(log, i + 1, pid);
    StageNext(log, i, pid);
    fork := ForkedBefore(log, i, pid);
    exit := RecordedBefore(log, i, pid);
  }

  /** ...and the process that is resumed with a pid is the one that forked it, after that child's
      exit was recorded. */
  lemma ResumedAfterExit(log: seq<Event>, pid: nat, i: nat) returns (fork: nat, exit: nat)
    requires InOrder(log, pid) && pid >= 2 && i < |log| && log[i].Resumed? && log[i].value == pid
    ensures fork < i && log[fork] == Forked(log[i].process, pid)
    ensures exit < i && log[exit].Recorded? && log[exit].pid == pid
  {
    WholeAt(log, i + 1, pid);
    StageNext(log, i, pid);
    fork := ForkedBefore(log, i, pid);
    exit := RecordedBefore(log, i, pid);
  }

  /** A fork issues a pid no earlier event knows, and while a vfork child runs none is issued. */
  lemma ForkIsFresh(s: State, copy: bool, steps: Steps)
    requires Possible(START, steps) && s == Run(START, steps) && Enabled(s, DoFork(copy)) && s.rewind.None?
    ensures
      var r := ProcFork(s, copy);
      if s.vfork.Some? then r == Turn(s, Unsupported)
      else r.reply == Begun && s.next >= 2 && s.next !in s.processes && StageOf(s.log, s.next) == Unborn
           && r.state.log == s.log + [Forked(s.current, s.next)]
  {
    StartOk();
    RunKeepsFrom(START, steps);
    assert Agrees(s, s.next);
  }
}
