/** The process table of a root runtime: fork, vfork, exit, exec and join, driven by the turns in
    which the guest unwinds its stack to the host and rewinds it again. The guest keeps to the
    asyncify contract: it makes no call while it unwinds, and the first call it makes while it
    rewinds is the fork it unwound from. */
module Processes {
  import opened Bytes

  const ROOT: nat := 1

  datatype Life = Running | Exited(code: int)

  datatype Process = Process(parent: nat, life: Life)

  /** What a pending unwind is for. */
  datatype Unwind = VforkChild(child: nat, parent: nat) | CopyForkChild(child: nat, parent: nat) | VforkParent(child: nat)

  /** The fork to be resumed: the process it resumes in, and the value it returns there. */
  datatype Rewind = Rewind(value: nat, process: nat)

  datatype Vfork = Vfork(child: nat, parent: nat)

  /** What a guest can tell happened, and what the host records. */
  datatype Event =
    | Forked(parent: nat, child: nat)
    | Resumed(process: nat, value: nat)
    | Recorded(pid: nat, code: int)
    | Joined(parent: nat, pid: nat, status: nat)

  datatype State = State(current: nat, next: nat, processes: map<nat, Process>, vfork: Option<Vfork>,
                         unwind: Option<Unwind>, rewind: Option<Rewind>, over: bool, log: seq<Event>)

  const START := State(ROOT, ROOT + 1, map[ROOT := Process(0, Running)], None, None, None, false, [])

  datatype Reply = Begun | Value(value: nat) | Unsupported | NoChild | Nothing | Alive(pid: nat) | Status(pid: nat, status: nat) | Over

  datatype Turn = Turn(state: State, reply: Reply)

  // ----- Helpers -----

  function Logged(s: State, e: Event): State {
    s.(log := s.log + [e])
  }

  /** `markProcessExited`. */
  function MarkExited(s: State, pid: nat, code: int): State {
    if pid !in s.processes then s
    else Logged(s.(processes := s.processes[pid := s.processes[pid].(life := Exited(code))]), Recorded(pid, code))
  }

  /** `beginForkRewind`. */
  function BeginRewind(s: State, value: nat, process: nat): State {
    s.(rewind := Some(Rewind(value, process)), current := process)
  }

  /** `beginVforkParentRewind`, which throws unless that child is the active one. */
  function RewindParent(s: State, child: nat): Option<State> {
    if s.vfork.None? || s.vfork.value.child != child then None
    else Some(BeginRewind(s.(vfork := None), child, s.vfork.value.parent))
  }

  predicate InVforkChild(s: State) {
    s.vfork.Some? && s.current == s.vfork.value.child
  }

  function Stop(s: State): Turn {
    Turn(s.(over := true), Over)
  }

  // ----- Calls of the guest -----

  function ProcFork(s: State, copy: bool): Turn {
    if s.rewind.Some? then
      var r := s.rewind.value;
      Turn(Logged(s.(rewind := None, current := r.process), Resumed(r.process, r.value)), Value(r.value))
    else if s.vfork.Some? then Turn(s, Unsupported)
    else
      var child := s.next;
      var s' := s.(next := child + 1, processes := s.processes[child := Process(s.current, Running)],
                   unwind := Some(if copy then CopyForkChild(child, s.current) else VforkChild(child, s.current)));
      Turn(Logged(s', Forked(s.current, child)), Begun)
  }

  /** `proc_exit2`: ends a vfork child and goes back to its parent, or ends the run. */
  function ProcExit2(s: State, code: int): Turn {
    if !InVforkChild(s) then Stop(s)
    else Turn(MarkExited(s, s.current, code % TWO32).(unwind := Some(VforkParent(s.current))), Begun)
  }

  /** `proc_exec`: the command replaced the process and ended with `code`. */
  function ProcExec(s: State, code: int): Turn {
    if !InVforkChild(s) then Stop(s)
    else
      var r := RewindParent(MarkExited(s, s.current, code % TWO32), s.current);
      if r.None? then Stop(s) else Turn(r.value, Begun)
  }

  predicate IsExitedChild(processes: map<nat, Process>, parent: nat, pid: nat) {
    pid in processes && processes[pid].parent == parent && processes[pid].life.Exited?
  }

  /** `findExitedChild`: children are recorded in the order of their pids, so it is the lowest. */
  function LowestExited(processes: map<nat, Process>, parent: nat, from: nat, end: nat): (r: Option<nat>)
    ensures r.Some? ==> from <= r.value < end && IsExitedChild(processes, parent, r.value)
    ensures forall k :: from <= k < (if r.Some? then r.value else end) ==> !IsExitedChild(processes, parent, k)
    decreases end - from
  {
    if from >= end then None
    else if IsExitedChild(processes, parent, from) then Some(from)
    else LowestExited(processes, parent, from + 1, end)
  }

  predicate HasChild(s: State, parent: nat) {
    exists pid :: pid in s.processes && s.processes[pid].parent == parent
  }

  /** `writeJoinedChild`: the low 16 bits of the exit code, and the record is gone. */
  function Join(s: State, pid: nat): Turn
    requires pid in s.processes && s.processes[pid].life.Exited?
  {
    var status := s.processes[pid].life.code % 65536;
    var left := if pid == ROOT then s.processes else s.processes - {pid};
    Turn(Logged(s.(processes := left), Joined(s.current, pid, status)), Status(pid, status))
  }

  /** `proc_join` of any child, or of a given one. */
  function ProcJoin(s: State, which: Option<nat>, nonBlocking: bool): Turn {
    if which.None? then
      var child := LowestExited(s.processes, s.current, 0, s.next);
      if child.Some? then Join(s, child.value)
      else if HasChild(s, s.current) then Turn(s, Unsupported)
      else Turn(s, NoChild)
    else
      var pid := which.value;
      if pid !in s.processes || s.processes[pid].parent != s.current then Turn(s, Nothing)
      else if s.processes[pid].life.Exited? then Join(s, pid)
      else if nonBlocking then Turn(s, Alive(pid))
      else Turn(s, Unsupported)
  }

  // ----- The host's side of a turn -----

  /** `finishContinuationTurn`, once the guest has unwound. `code` is what a copied child ended with. */
  function FinishTurn(s: State, code: int): Turn
    requires s.unwind.Some?
  {
    var s' := s.(unwind := None);
    match s.unwind.value
    case VforkChild(child, parent) => Turn(BeginRewind(s'.(vfork := Some(Vfork(child, parent))), 0, child), Begun)
    case CopyForkChild(child, parent) =>
      Turn(BeginRewind(MarkExited(Logged(s', Resumed(child, 0)), child, code), child, parent), Begun)
    case VforkParent(child) =>
      var r := RewindParent(s', child);
      if r.None? then Stop(s) else Turn(r.value, Begun)
  }

  // ----- Runs -----

  datatype Step =
    | DoFork(copy: bool)
    | DoExit2(code: int)
    | DoExec(code: int)
    | DoJoin(which: Option<nat>, nonBlocking: bool)
    | DoFinishTurn(code: int)
    | DoEnd

  /** What can happen next. */
  predicate Enabled(s: State, step: Step) {
    && !s.over
    && (s.unwind.Some? ==> step.DoFinishTurn? || step.DoEnd?)
    && (s.rewind.Some? ==> step.DoFork? || step.DoEnd?)
    && (step.DoFinishTurn? ==> s.unwind.Some?)
  }

  function Next(s: State, step: Step): Turn
    requires Enabled(s, step)
  {
    match step
    case DoFork(copy) => ProcFork(s, copy)
    case DoExit2(code) => ProcExit2(s, code)
    case DoExec(code) => ProcExec(s, code)
    case DoJoin(which, nonBlocking) => ProcJoin(s, which, nonBlocking)
    case DoFinishTurn(code) => FinishTurn(s, code)
    case DoEnd => Stop(s)
  }

  datatype Steps = Done | Then(step: Step, rest: Steps)

  predicate Possible(s: State, steps: Steps)
    decreases steps
  {
    steps.Then? ==> Enabled(s, steps.step) && Possible(Next(s, steps.step).state, steps.rest)
  }

  function Run(s: State, steps: Steps): State
    requires Possible(s, steps)
    decreases steps
  {
    if steps.Done? then s else Run(Next(s, steps.step).state, steps.rest)
  }

  // ----- The runtime object -----

  /** The fields of the runtime that hold processes, changed in place. */
  class ProcessTable {
    var current: nat
    var next: nat
    var processes: map<nat, Process>
    var vfork: Option<Vfork>
    var unwind: Option<Unwind>
    var rewind: Option<Rewind>
    var over: bool
    ghost var log: seq<Event>

    ghost function Now(): State
      reads this
    {
      State(current, next, processes, vfork, unwind, rewind, over, log)
    }

    constructor ()
      ensures Now() == START
    {
      current, next := ROOT, ROOT + 1;
      processes := map[ROOT := Process(0, Running)];
      vfork, unwind, rewind, over := None, None, None, false;
      log := [];
    }

    method MarkProcessExited(pid: nat, code: int)
      modifies this`processes, this`log
      ensures Now() == MarkExited(old(Now()), pid, code)
    {
      if pid !in processes {
        return;
      }
      processes := processes[pid := processes[pid].(life := Exited(code))];
      log := log + [Recorded(pid, code)];
    }

    method BeginForkRewind(value: nat, process: nat)
      modifies this`rewind, this`current
      ensures Now() == BeginRewind(old(Now()), value, process)
    {
      rewind := Some(Rewind(value, process));
      current := process;
    }

    method BeginVforkParentRewind(child: nat) returns (ok: bool)
      modifies this`vfork, this`rewind, this`current
      ensures ok == RewindParent(old(Now()), child).Some?
      ensures Now() == if ok then RewindParent(old(Now()), child).value else old(Now())
    {
      if vfork.None? || vfork.value.child != child {
        return false;
      }
      var parent := vfork.value.parent;
      vfork := None;
      BeginForkRewind(child, parent);
      ok := true;
    }

    method Fork(copy: bool) returns (reply: Reply)
      modifies this
      ensures Turn(Now(), reply) == ProcFork(old(Now()), copy)
    {
      if rewind.Some? {
        var pending := rewind.value;
        rewind := None;
        current := pending.process;
        log := log + [Resumed(pending.process, pending.value)];
        return Value(pending.value);
      }
      if vfork.Some? {
        return Unsupported;
      }
      var parent, child := current, next;
      next := next + 1;
      processes := processes[child := Process(parent, Running)];
      log := log + [Forked(parent, child)];
      unwind := Some(if copy then CopyForkChild(child, parent) else VforkChild(child, parent));
      reply := Begun;
    }

    method Exit2(code: int) returns (reply: Reply)
      modifies this
      ensures Turn(Now(), reply) == ProcExit2(old(Now()), code)
    {
      if vfork.None? || current != vfork.value.child {
        over := true;
        return Over;
      }
      MarkProcessExited(vfork.value.child, code % TWO32);
      unwind := Some(VforkParent(vfork.value.child));
      reply := Begun;
    }

    method FinishContinuationTurn(code: int) returns (reply: Reply)
      requires unwind.Some?
      modifies this
      ensures Turn(Now(), reply) == FinishTurn(old(Now()), code)
    {
      var action := unwind.value;
      reply := Begun;
      match action {
        case VforkChild(child, parent) =>
          unwind := None;
          vfork := Some(Vfork(child, parent));
          BeginForkRewind(0, child);
        case CopyForkChild(child, parent) =>
          unwind := None;
          log := log + [Resumed(child, 0)];
          MarkProcessExited(child, code);
          BeginForkRewind(child, parent);
        case VforkParent(child) =>
          unwind := None;
          var ok := BeginVforkParentRewind(child);
          if !ok {
            unwind := Some(action);
            over := true;
            reply := Over;
          }
      }
    }

    /** The command has replaced the vfork child and ended with `code`. */
    method Exec(code: int) returns (reply: Reply)
      modifies this
      ensures Turn(Now(), reply) == ProcExec(old(Now()), code)
    {
      if vfork.None? || current != vfork.value.child {
        over := true;
        return Over;
      }
      var child := vfork.value.child;
      MarkProcessExited(child, code % TWO32);
      var ok := BeginVforkParentRewind(child);
      reply := Begun;
    }

    method FindExitedChild(parent: nat) returns (r: Option<nat>)
      ensures r == LowestExited(processes, parent, 0, next)
    {
      var pid := 0;
      while pid < next
        invariant pid <= next
        invariant LowestExited(processes, parent, 0, next) == LowestExited(processes, parent, pid, next)
      {
        if IsExitedChild(processes, parent, pid) {
          return Some(pid);
        }
        pid := pid + 1;
      }
      r := None;
    }

    /** Reports the status of a child and drops its record. */
    method WriteJoinedChild(pid: nat) returns (reply: Reply)
      requires pid in processes && processes[pid].life.Exited?
      modifies this`processes, this`log
      ensures Turn(Now(), reply) == Join(old(Now()), pid)
    {
      var status := processes[pid].life.code % 65536;
      log := log + [Joined(current, pid, status)];
      if pid != ROOT {
        processes := processes - {pid};
      }
      reply := Status(pid, status);
    }

    method ProcessJoin(which: Option<nat>, nonBlocking: bool) returns (reply: Reply)
      modifies this`processes, this`log
      ensures Turn(Now(), reply) == ProcJoin(old(Now()), which, nonBlocking)
    {
      if which.None? {
        var child := FindExitedChild(current);
        if child.Some? {
          reply := WriteJoinedChild(child.value);
          return;
        }
        return if exists k :: k in processes && processes[k].parent == current then Unsupported else NoChild;
      }
      var pid := which.value;
      if pid !in processes || processes[pid].parent != current {
        return Nothing;
      }
      if processes[pid].life.Exited? {
        reply := WriteJoinedChild(pid);
        return;
      }
      reply := if nonBlocking then Alive(pid) else Unsupported;
    }
  }
}
