/** The standard input of a browser command: chunks pushed on one side, promises handed to the
    readers on the other. */
module CommandInput {
  import opened Bytes

  type Chunk = seq<Byte>

  /** A promise handed to a reader, by the order of the reads. */
  datatype Promise = Waiting | Data(chunk: Chunk) | Null | Rejected(error: nat)

  /** `waiters` are the promises still to be settled; `pushed` are the non-empty chunks accepted
      so far. Errors are told apart by numbers. */
  datatype State = State(chunks: seq<Chunk>, waiters: seq<nat>, closed: bool, error: Option<nat>,
                         promises: seq<Promise>, pushed: seq<Chunk>)

  datatype Reply = Accepted | AlreadyClosed | Failed(error: nat) | Promised(id: nat)

  datatype Turn = Turn(state: State, reply: Reply)

  const START := State([], [], false, None, [], [])

  function Settle(promises: seq<Promise>, id: nat, p: Promise): (r: seq<Promise>)
    ensures |r| == |promises|
  {
    if id < |promises| then promises[id := p] else promises
  }

  function SettleAll(promises: seq<Promise>, ids: seq<nat>, p: Promise): (r: seq<Promise>)
    ensures |r| == |promises|
    decreases |ids|
  {
    if ids == [] then promises else SettleAll(Settle(promises, ids[0], p), ids[1..], p)
  }

  function Push(s: State, chunk: Chunk): Turn {
    if s.closed then Turn(s, AlreadyClosed)
    else if s.error.Some? then Turn(s, Failed(s.error.value))
    else if chunk == [] then Turn(s, Accepted)
    else if s.waiters != [] then
      Turn(s.(waiters := s.waiters[1..], promises := Settle(s.promises, s.waiters[0], Data(chunk)), pushed := s.pushed + [chunk]), Accepted)
    else Turn(s.(chunks := s.chunks + [chunk], pushed := s.pushed + [chunk]), Accepted)
  }

  function End(s: State): Turn {
    if s.closed then Turn(s, AlreadyClosed)
    else Turn(s.(closed := true, waiters := [], promises := SettleAll(s.promises, s.waiters, Null)), Accepted)
  }

  function Fail(s: State, error: nat): Turn {
    if s.error.Some? then Turn(s, Accepted)
    else Turn(s.(error := Some(error), waiters := [], promises := SettleAll(s.promises, s.waiters, Rejected(error))), Accepted)
  }

  function ReadChunk(s: State): Turn {
    var id := |s.promises|;
    if s.chunks != [] then Turn(s.(chunks := s.chunks[1..], promises := s.promises + [Data(s.chunks[0])]), Promised(id))
    else if s.error.Some? then Turn(s.(promises := s.promises + [Rejected(s.error.value)]), Promised(id))
    else if s.closed then Turn(s.(promises := s.promises + [Null]), Promised(id))
    else Turn(s.(waiters := s.waiters + [id], promises := s.promises + [Waiting]), Promised(id))
  }

  datatype Call = DoPush(chunk: Chunk) | DoEnd | DoFail(error: nat) | DoRead

  function Step(s: State, c: Call): Turn {
    match c
    case DoPush(chunk) => Push(s, chunk)
    case DoEnd => End(s)
    case DoFail(error) => Fail(s, error)
    case DoRead => ReadChunk(s)
  }

  datatype Calls = Done | Then(call: Call, rest: Calls)

  function Run(s: State, cs: Calls): State
    decreases cs
  {
    if cs.Done? then s else Run(Step(s, cs.call).state, cs.rest)
  }

  // ----- What every interleaving keeps -----

  /** The chunks the readers got, in the order of their reads. */
  function Received(promises: seq<Promise>): seq<Chunk> {
    if promises == [] then []
    else
      var last, rest := promises[|promises| - 1], Received(promises[..|promises| - 1]);
      if last.Data? then rest + [last.chunk] else rest
  }

  /** The last reads, and only those, are waiting, in order. */
  predicate Queued(s: State) {
    && |s.waiters| <= |s.promises|
    && (forall i :: 0 <= i < |s.waiters| ==> s.waiters[i] == |s.promises| - |s.waiters| + i)
    && (forall i :: 0 <= i < |s.promises| ==> (s.promises[i].Waiting? <==> i >= |s.promises| - |s.waiters|))
  }

  /** Readers wait only on an open, error-free and empty stream. */
  predicate WaitersIdle(s: State) {
    s.waiters != [] ==> s.chunks == [] && !s.closed && s.error.None?
  }

  /** Nobody is told that the stream is over before it is, and drained. */
  predicate NullAfterEnd(s: State) {
    (exists i :: 0 <= i < |s.promises| && s.promises[i].Null?) ==> s.closed && s.chunks == []
  }

  /** What the readers got, then what is queued, is what was pushed. */
  predicate InOrder(s: State) {
    Received(s.promises) + s.chunks == s.pushed
  }

  predicate Inv(s: State) {
    Queued(s) && WaitersIdle(s) && NullAfterEnd(s) && InOrder(s)
  }

  lemma ReceivedPush(promises: seq<Promise>, p: Promise)
    ensures Received(promises + [p]) == if p.Data? then Received(promises) + [p.chunk] else Received(promises)
  {
    assert (promises + [p])[..|promises|] == promises;
  }

  /** Promises without data at the end add nothing. */
  lemma {:induction false} ReceivedTail(promises: seq<Promise>, n: nat)
    requires n <= |promises| && forall i :: n <= i < |promises| ==> !promises[i].Data?
    ensures Received(promises) == Received(promises[..n])
    decreases |promises|
  {
    if n < |promises| {
      var front := promises[..|promises| - 1];
      ReceivedTail(front, n);
      assert front[..n] == promises[..n];
    } else {
      assert promises[..n] == promises;
    }
  }

  /** The oldest waiter gets the chunk, after everything received before. */
  lemma ReceivedSettle(promises: seq<Promise>, n: nat, chunk: Chunk)
    requires n < |promises| && forall i :: n <= i < |promises| ==> promises[i].Waiting?
    ensures Received(promises[n := Data(chunk)]) == Received(promises) + [chunk]
  {
    var after := promises[n := Data(chunk)];
    ReceivedTail(after, n + 1);
    ReceivedTail(promises, n);
    assert after[..n + 1] == promises[..n] + [Data(chunk)];
    ReceivedPush(promises[..n], Data(chunk));
  }

  lemma PushKeeps(s: State, chunk: Chunk)
    requires Inv(s)
    ensures Inv(Push(s, chunk).state)
  {
    if !s.closed && s.error.None? && chunk != [] {
      if s.waiters != [] {
        var n := |s.promises| - |s.waiters|;
        ReceivedSettle(s.promises, n, chunk);
        assert s.chunks == [] && Received(s.promises) + [] == Received(s.promises);
        assert Received(s.promises) + [chunk] + [] == s.pushed + [chunk];
      } else {
        assert Received(s.promises) + (s.chunks + [chunk]) == (Received(s.promises) + s.chunks) + [chunk];
      }
    }
  }

  /** Settling the waiters gives each of them, and nobody else, the same answer. */
  lemma {:induction false} SettledAll(promises: seq<Promise>, ids: seq<nat>, p: Promise, n: nat)
    requires n + |ids| == |promises| && forall i :: 0 <= i < |ids| ==> ids[i] == n + i
    ensures SettleAll(promises, ids, p) == promises[..n] + seq(|ids|, _ => p)
    decreases |ids|
  {
    if ids != [] {
      var next := promises[n := p];
      SettledAll(next, ids[1..], p, n + 1);
      assert next[..n + 1] == promises[..n] + [p];
      assert [p] + seq(|ids| - 1, _ => p) == seq(|ids|, _ => p);
    } else {
      assert promises[..n] + [] == promises;
    }
  }

  lemma SettledShape(s: State, p: Promise)
    requires Inv(s) && !p.Data?
    ensures var r := SettleAll(s.promises, s.waiters, p);
            var n := |s.promises| - |s.waiters|;
            && Received(r) == Received(s.promises) && |r| == |s.promises|
            && (forall i :: 0 <= i < n ==> r[i] == s.promises[i]) && (forall i :: n <= i < |r| ==> r[i] == p)
  {
    var n := |s.promises| - |s.waiters|;
    SettledAll(s.promises, s.waiters, p, n);
    var r := SettleAll(s.promises, s.waiters, p);
    ReceivedTail(r, n);
    ReceivedTail(s.promises, n);
    assert r[..n] == s.promises[..n];
  }

  lemma EndKeeps(s: State)
    requires Inv(s)
    ensures Inv(End(s).state)
  {
    SettledShape(s, Null);
  }

  lemma FailKeeps(s: State, error: nat)
    requires Inv(s)
    ensures Inv(Fail(s, error).state)
  {
    SettledShape(s, Rejected(error));
  }

  /** One more answer at the end, and nobody waiting. */
  lemma AnswerAdded(s: State, s': State, p: Promise)
    requires Queued(s) && NullAfterEnd(s) && s.waiters == [] && !p.Waiting? && (p.Null? ==> s.closed && s.chunks == [])
    requires s'.promises == s.promises + [p] && s'.waiters == [] && s'.closed == s.closed && (s.chunks == [] ==> s'.chunks == [])
    ensures Queued(s') && NullAfterEnd(s')
  {
    assert forall i :: 0 <= i < |s'.promises| ==> s'.promises[i] == if i < |s.promises| then s.promises[i] else p;
  }

  /** A read that is answered at once. */
  lemma AnsweredKeeps(s: State, p: Promise)
    requires Inv(s) && s.waiters == [] && !p.Waiting? && !p.Data? && (p.Null? ==> s.closed && s.chunks == [])
    ensures Inv(s.(promises := s.promises + [p]))
  {
    ReceivedPush(s.promises, p);
    AnswerAdded(s, s.(promises := s.promises + [p]), p);
  }

  lemma TakenOrder(received: seq<Chunk>, chunks: seq<Chunk>)
    requires chunks != []
    ensures received + [chunks[0]] + chunks[1..] == received + chunks
  {
  }

  lemma TakenKeeps(s: State)
    requires Inv(s) && s.chunks != []
    ensures Inv(ReadChunk(s).state)
  {
    var p := Data(s.chunks[0]);
    ReceivedPush(s.promises, p);
    TakenOrder(Received(s.promises), s.chunks);
    AnswerAdded(s, s.(chunks := s.chunks[1..], promises := s.promises + [p]), p);
  }

  lemma WaitKeeps(s: State)
    requires Inv(s) && s.chunks == [] && s.error.None? && !s.closed
    ensures Inv(ReadChunk(s).state)
  {
    ReceivedPush(s.promises, Waiting);
  }

  lemma ReadKeeps(s: State)
    requires Inv(s)
    ensures Inv(ReadChunk(s).state)
  {
    if s.chunks != [] {
      TakenKeeps(s);
    } else if s.error.Some? {
      AnsweredKeeps(s, Rejected(s.error.value));
    } else if s.closed {
      AnsweredKeeps(s, Null);
    } else {
      WaitKeeps(s);
    }
  }

  /** A promise is settled once: whatever happens later, its answer stays. */
  lemma AnswerStays(s: State, c: Call, id: nat)
    requires Inv(s) && id < |s.promises| && !s.promises[id].Waiting?
    ensures var s' := Step(s, c).state; id < |s'.promises| && s'.promises[id] == s.promises[id]
  {
    if c.DoEnd? {
      SettledShape(s, Null);
    } else if c.DoFail? {
      SettledShape(s, Rejected(c.error));
    }
  }

  /** In every interleaving of pushes, ends, failures and reads. */
  lemma {:induction false} RunKeeps(s: State, cs: Calls)
    requires Inv(s)
    ensures Inv(Run(s, cs))
    decreases cs
  {
    if cs.Then? {
      match cs.call {
        case DoPush(chunk) => PushKeeps(s, chunk);
        case DoEnd => EndKeeps(s);
        case DoFail(error) => FailKeeps(s, error);
        case DoRead => ReadKeeps(s);
      }
      RunKeeps(Step(s, cs.call).state, cs.rest);
    }
  }

  /** What the accepted non-empty pushes of a run were. */
  function Accepts(s: State, cs: Calls): seq<Chunk>
    decreases cs
  {
    if cs.Done? then []
    else
      var t := Step(s, cs.call);
      (if cs.call.DoPush? && t.reply == Accepted && cs.call.chunk != [] then [cs.call.chunk] else []) + Accepts(t.state, cs.rest)
  }

  lemma {:induction false} PushedAreAccepted(s: State, cs: Calls)
    ensures Run(s, cs).pushed == s.pushed + Accepts(s, cs)
    decreases cs
  {
    if cs.Then? {
      var s' := Step(s, cs.call).state;
      PushedAreAccepted(s', cs.rest);
      var first := if cs.call.DoPush? && Step(s, cs.call).reply == Accepted && cs.call.chunk != [] then [cs.call.chunk] else [];
      assert s'.pushed == s.pushed + first;
      assert s.pushed + (first + Accepts(s', cs.rest)) == (s.pushed + first) + Accepts(s', cs.rest);
    }
  }

  /** The k-th read that delivers data delivers the k-th non-empty accepted chunk; and once a
      reader saw the end, every accepted chunk has been delivered. */
  lemma ReadersSeePushes(cs: Calls)
    ensures
      var s := Run(START, cs);
      var got, all := Received(s.promises), Accepts(START, cs);
      && |got| <= |all| && (forall k :: 0 <= k < |got| ==> got[k] == all[k])
      && ((exists i :: 0 <= i < |s.promises| && s.promises[i].Null?) ==> got == all && s.closed)
      && (s.waiters != [] ==> got == all && !s.closed && s.error.None?)
  {
    RunKeeps(START, cs);
    PushedAreAccepted(START, cs);
    var s := Run(START, cs);
    var got, all := Received(s.promises), Accepts(START, cs);
    assert START.pushed + all == all;
    assert got + s.chunks == all;
    assert s.chunks == [] ==> got + [] == got;
  }

  // ----- Every answer, going by the calls before it -----

  function Ended(cs: Calls): bool {
    cs.Then? && (cs.call.DoEnd? || Ended(cs.rest))
  }

  function FirstFailure(cs: Calls): Option<nat> {
    if cs.Done? then None else if cs.call.DoFail? then Some(cs.call.error) else FirstFailure(cs.rest)
  }

  function Reads(cs: Calls): nat {
    if cs.Done? then 0 else (if cs.call.DoRead? then 1 else 0) + Reads(cs.rest)
  }

  lemma {:induction false} RunRemembers(s: State, cs: Calls)
    ensures
      var s' := Run(s, cs);
      && (s'.closed <==> s.closed || Ended(cs))
      && s'.error == (if s.error.Some? then s.error else FirstFailure(cs))
      && |s'.promises| == |s.promises| + Reads(cs)
    decreases cs
  {
    if cs.Then? {
      RunRemembers(Step(s, cs.call).state, cs.rest);
    }
  }

  /** After any calls, a push is accepted unless the stream was ended, which is what it is told then,
      or failed, and then it is told the first failure; an end is accepted once, a failure always;
      and a read is handed the promise with its own number. */
  lemma RepliesExactly(cs: Calls, c: Call)
    ensures
      var reply := Step(Run(START, cs), c).reply;
      match c
      case DoPush(_) =>
        reply == if Ended(cs) then AlreadyClosed else if FirstFailure(cs).Some? then Failed(FirstFailure(cs).value) else Accepted
      case DoEnd => reply == if Ended(cs) then AlreadyClosed else Accepted
      case DoFail(_) => reply == Accepted
      case DoRead => reply == Promised(Reads(cs)) && |Run(START, cs).promises| == Reads(cs)
  {
    RunRemembers(START, cs);
  }

  /** The accepted chunks that no reader has got. */
  function Undelivered(cs: Calls): seq<Chunk> {
    var got, all := |Received(Run(START, cs).promises)|, Accepts(START, cs);
    if got <= |all| then all[got..] else []
  }

  lemma UndeliveredQueued(cs: Calls)
    ensures Undelivered(cs) == Run(START, cs).chunks
  {
    RunKeeps(START, cs);
    PushedAreAccepted(START, cs);
    assert START.pushed + Accepts(START, cs) == Accepts(START, cs);
    var s := Run(START, cs);
    assert Received(s.promises) + s.chunks == Accepts(START, cs);
  }

  /** A new read is answered at once with the oldest undelivered chunk; without one, with the first
      failure; without that, with null if the stream was ended; and otherwise it waits. Earlier
      answers stay. */
  lemma ReadAnswered(cs: Calls)
    ensures
      Step(Run(START, cs), DoRead).state.promises == Run(START, cs).promises +
        [if Undelivered(cs) != [] then Data(Undelivered(cs)[0])
         else if FirstFailure(cs).Some? then Rejected(FirstFailure(cs).value)
         else if Ended(cs) then Null
         else Waiting]
  {
    UndeliveredQueued(cs);
    RunRemembers(START, cs);
  }

  /** An accepted chunk goes to the oldest waiting read, if there is one; an end answers every waiting
      read with null, and a first failure rejects them all. No other answer changes. */
  lemma WaitersAnswered(cs: Calls, c: Call, id: nat)
    requires id < Reads(cs) == |Run(START, cs).promises| && !c.DoRead?
    ensures
      var before, after := Run(START, cs).promises, Step(Run(START, cs), c).state.promises;
      && |after| == |before|
      && after[id] ==
         if !before[id].Waiting? then before[id]
         else
           match c
           case DoPush(chunk) => if chunk != [] && (forall k :: 0 <= k < id ==> !before[k].Waiting?) then Data(chunk) else Waiting
           case DoEnd => Null
           case DoFail(error) => Rejected(error)
  {
    RunKeeps(START, cs);
    var s := Run(START, cs);
    var n := |s.promises| - |s.waiters|;
    if s.waiters == [] {
      assert !s.promises[id].Waiting?;
    } else {
      assert s.waiters[0] == n && s.promises[n].Waiting?;
    }
    if c.DoEnd? {
      SettledShape(s, Null);
    } else if c.DoFail? {
      SettledShape(s, Rejected(c.error));
    }
  }

  // ----- The stream object -----

  class CommandInputStream {
    var chunks: seq<Chunk>
    var waiters: seq<nat>
    var closed: bool
    var error: Option<nat>
    var promises: seq<Promise>
    ghost var pushed: seq<Chunk>

    ghost function Now(): State
      reads this
    {
      State(chunks, waiters, closed, error, promises, pushed)
    }

    constructor ()
      ensures Now() == START
    {
      chunks, waiters, closed, error, promises := [], [], false, None, [];
      pushed := [];
    }

    method PushChunk(chunk: Chunk) returns (reply: Reply)
      modifies this
      ensures Turn(Now(), reply) == Push(old(Now()), chunk)
    {
      if closed {
        return AlreadyClosed;
      }
      if error.Some? {
        return Failed(error.value);
      }
      reply := Accepted;
      if chunk == [] {
        return;
      }
      pushed := pushed + [chunk];
      if waiters != [] {
        var waiter := waiters[0];
        waiters := waiters[1..];
        promises := Settle(promises, waiter, Data(chunk));
        return;
      }
      chunks := chunks + [chunk];
    }

    /** Takes the waiters off the queue and answers them one by one. */
    method SettleWaiters(p: Promise)
      modifies this`waiters, this`promises
      ensures waiters == [] && promises == SettleAll(old(promises), old(waiters), p)
    {
      var todo := waiters;
      waiters := [];
      while todo != []
        invariant SettleAll(promises, todo, p) == SettleAll(old(promises), old(waiters), p) && waiters == []
        decreases |todo|
      {
        promises := Settle(promises, todo[0], p);
        todo := todo[1..];
      }
    }

    method Close() returns (reply: Reply)
      modifies this
      ensures Turn(Now(), reply) == End(old(Now()))
    {
      if closed {
        return AlreadyClosed;
      }
      closed := true;
      SettleWaiters(Null);
      reply := Accepted;
    }

    method Abort(reason: nat) returns (reply: Reply)
      modifies this
      ensures Turn(Now(), reply) == Fail(old(Now()), reason)
    {
      reply := Accepted;
      if error.Some? {
        return;
      }
      error := Some(reason);
      SettleWaiters(Rejected(reason));
    }

    method Read() returns (reply: Reply)
      modifies this
      ensures Turn(Now(), reply) == ReadChunk(old(Now()))
    {
      var id := |promises|;
      reply := Promised(id);
      if chunks != [] {
        promises := promises + [Data(chunks[0])];
        chunks := chunks[1..];
      } else if error.Some? {
        promises := promises + [Rejected(error.value)];
      } else if closed {
        promises := promises + [Null];
      } else {
        promises := promises + [Waiting];
        waiters := waiters + [id];
      }
    }
  }
}
