/** The gateway stream reader: newline-separated frames cut out of arbitrary chunks, and the
    state machine they drive. JSON and base64 are taken as given: `parse` says what a line is. */
module Gateway {
  import opened Bytes

  type Line = seq<Byte>

  /** What a line decodes to. A response has headers unless they are malformed, a chunk has a
      body unless its base64 is. */
  datatype Frame =
    | ResponseFrame(status: int, headers: Option<nat>)
    | ChunkFrame(body: Option<seq<Byte>>)
    | EndFrame
    | ErrorFrame
    | UnknownFrame
    | NotAFrame

  datatype Error = AfterEnd | SecondResponse | BadResponse | BeforeResponse | BadChunk | BodyTooLarge
    | GatewayError | Malformed | FrameTooLarge | PartialFrame | Unfinished

  /** What the reader asks of the response writer. */
  datatype Action = Start(status: int, headers: nat) | Write(chunk: seq<Byte>) | Finish(status: int, headers: nat)

  datatype Head = Head(status: int, headers: nat)

  datatype Machine = Machine(head: Option<Head>, completed: bool, total: nat, actions: seq<Action>, failure: Option<Error>)

  const START := Machine(None, false, 0, [], None)

  predicate ValidStatus(status: int) {
    100 <= status <= 599
  }

  function Failing(m: Machine, e: Error): Machine {
    m.(failure := Some(e))
  }

  /** `applyFrame`. */
  function Apply(m: Machine, f: Frame, limit: nat): Machine {
    if f.NotAFrame? then Failing(m, Malformed)
    else if m.completed then Failing(m, AfterEnd)
    else
      match f
      case ResponseFrame(status, headers) =>
        if m.head.Some? then Failing(m, SecondResponse)
        else if !ValidStatus(status) || headers.None? then Failing(m, BadResponse)
        else m.(head := Some(Head(status, headers.value)), actions := m.actions + [Start(status, headers.value)])
      case ChunkFrame(body) =>
        if m.head.None? then Failing(m, BeforeResponse)
        else if body.None? then Failing(m, BadChunk)
        else if m.total + |body.value| > limit then Failing(m, BodyTooLarge)
        else m.(total := m.total + |body.value|, actions := m.actions + [Write(body.value)])
      case EndFrame => if m.head.None? then Failing(m, BeforeResponse) else m.(completed := true)
      case ErrorFrame => Failing(m, GatewayError)
      case _ => Failing(m, Malformed)
  }

  // ----- Lines -----

  const NEWLINE: Byte := 10
  const RETURN: Byte := 13

  function FirstNewline(b: seq<Byte>): (i: int)
    ensures -1 <= i < |b|
    ensures i >= 0 ==> b[i] == NEWLINE
    ensures forall j :: 0 <= j < (if i < 0 then |b| else i) ==> b[j] != NEWLINE
  {
    if b == [] then -1
    else if b[0] == NEWLINE then 0
    else
      var i := FirstNewline(b[1..]);
      if i < 0 then -1 else i + 1
  }

  predicate Blank(line: Line) {
    forall i :: 0 <= i < |line| ==> line[i] in {9, 10, 13, 32}
  }

  /** A line without the carriage return before its newline. */
  function Bare(line: Line): Line {
    if line != [] && line[|line| - 1] == RETURN then line[..|line| - 1] else line
  }

  function ApplyLine(parse: Line -> Frame, m: Machine, line: Line, limit: nat): Machine {
    if Blank(Bare(line)) then m else Apply(m, parse(Bare(line)), limit)
  }

  // ----- The reader -----

  datatype Reader = Reader(buffer: seq<Byte>, machine: Machine)

  function AfterLine(parse: Line -> Frame, r: Reader, limit: nat): (next: Reader)
    requires FirstNewline(r.buffer) >= 0
    ensures |next.buffer| < |r.buffer|
  {
    var i := FirstNewline(r.buffer);
    Reader(r.buffer[i + 1..], ApplyLine(parse, r.machine, r.buffer[..i], limit))
  }

  /** Applies every complete line of the buffer, up to the first that fails. */
  function Drain(parse: Line -> Frame, r: Reader, limit: nat): Reader
    decreases |r.buffer|
  {
    if FirstNewline(r.buffer) < 0 || r.machine.failure.Some? then r
    else Drain(parse, AfterLine(parse, r, limit), limit)
  }

  datatype Limits = Limits(frame: nat, body: nat)

  function Feed(parse: Line -> Frame, r: Reader, chunk: seq<Byte>, limits: Limits): Reader {
    var buffer := r.buffer + chunk;
    if r.machine.failure.Some? then r
    else if |buffer| > limits.frame then Reader(buffer, Failing(r.machine, FrameTooLarge))
    else Drain(parse, Reader(buffer, r.machine), limits.body)
  }

  datatype Chunks = NoChunk | Chunk(bytes: seq<Byte>, rest: Chunks)

  function FeedAll(parse: Line -> Frame, r: Reader, chunks: Chunks, limits: Limits): Reader
    decreases chunks
  {
    if chunks.NoChunk? then r else FeedAll(parse, Feed(parse, r, chunks.bytes, limits), chunks.rest, limits)
  }

  /** What happens when the stream is over. */
  function Close(r: Reader): Machine {
    var m := r.machine;
    if m.failure.Some? then m
    else if !Blank(r.buffer) then Failing(m, PartialFrame)
    else if !m.completed || m.head.None? then Failing(m, Unfinished)
    else m.(actions := m.actions + [Finish(m.head.value.status, m.head.value.headers)])
  }

  /** `readGatewayStreamResponse`: what was asked of the writer, and the failure, if any. */
  function Read(parse: Line -> Frame, chunks: Chunks, limits: Limits): Machine {
    Close(FeedAll(parse, Reader([], START), chunks, limits))
  }

  function Joined(chunks: Chunks): seq<Byte> {
    if chunks.NoChunk? then [] else chunks.bytes + Joined(chunks.rest)
  }

  /** The same stream in one piece, without a frame limit. */
  function ReadWhole(parse: Line -> Frame, b: seq<Byte>, limit: nat): Machine {
    Close(Drain(parse, Reader(b, START), limit))
  }

  // ----- Chunking does not matter -----

  lemma NewlineStays(b: seq<Byte>, c: seq<Byte>)
    requires FirstNewline(b) >= 0
    ensures FirstNewline(b + c) == FirstNewline(b)
  {
    var i := FirstNewline(b);
    assert (b + c)[i] == NEWLINE;
    assert forall j :: 0 <= j < i ==> (b + c)[j] == b[j];
  }

  predicate AskNext(u: int) {
    true
  }

  /** `m'` is the machine after the line. Opened only where the line's effect matters. */
  ghost predicate Next(parse: Line -> Frame, m: Machine, line: Line, limit: nat, m': Machine) {
    forall u {:trigger AskNext(u)} :: AskNext(u) ==> m' == ApplyLine(parse, m, line, limit)
  }

  ghost predicate Drains(parse: Line -> Frame, b: seq<Byte>, m: Machine, limit: nat, d: Reader) {
    forall u {:trigger AskNext(u)} :: AskNext(u) ==> d == Drain(parse, Reader(b, m), limit)
  }

  lemma DrainDone(parse: Line -> Frame, b: seq<Byte>, m: Machine, limit: nat)
    requires FirstNewline(b) < 0 || m.failure.Some?
    ensures Drains(parse, b, m, limit, Reader(b, m))
  {
  }

  lemma LineStep(parse: Line -> Frame, m: Machine, line: Line, limit: nat) returns (m': Machine)
    ensures Next(parse, m, line, limit, m')
  {
    m' := ApplyLine(parse, m, line, limit);
  }

  lemma DrainStep(parse: Line -> Frame, b: seq<Byte>, i: nat, line: Line, rest: seq<Byte>, m: Machine, m': Machine, limit: nat, d: Reader)
    requires FirstNewline(b) == i && m.failure.None? && line == b[..i] && rest == b[i + 1..]
    requires Next(parse, m, line, limit, m') && Drains(parse, rest, m', limit, d)
    ensures Drains(parse, b, m, limit, d)
  {
    assert AskNext(0);
    DrainUnfolds(parse, Reader(b, m), Reader(rest, m'), limit);
  }

  lemma DrainUnfolds(parse: Line -> Frame, r: Reader, next: Reader, limit: nat)
    requires FirstNewline(r.buffer) >= 0 && r.machine.failure.None? && next == AfterLine(parse, r, limit)
    ensures Drain(parse, r, limit) == Drain(parse, next, limit)
  {
  }

  /** Draining, then appending and draining again, is appending and then draining. */
  lemma {:induction false} DrainAppends(parse: Line -> Frame, b: seq<Byte>, m: Machine, c: seq<Byte>, limit: nat) returns (d: Reader, e: Reader)
    ensures Drains(parse, b, m, limit, d) && Drains(parse, d.buffer + c, d.machine, limit, e) && Drains(parse, b + c, m, limit, e)
    decreases |b|
  {
    var i := FirstNewline(b);
    if i < 0 || m.failure.Some? {
      d := Reader(b, m);
      DrainDone(parse, b, m, limit);
      e := Drain(parse, Reader(b + c, m), limit);
    } else {
      var line, rest := b[..i], b[i + 1..];
      NewlineStays(b, c);
      assert (b + c)[..i] == line && (b + c)[i + 1..] == rest + c;
      var m' := LineStep(parse, m, line, limit);
      d, e := DrainAppends(parse, rest, m', c, limit);
      DrainStep(parse, b, i, line, rest, m, m', limit, d);
      DrainStep(parse, b + c, i, line, rest + c, m, m', limit, e);
    }
  }

  lemma DrainAppend(parse: Line -> Frame, r: Reader, c: seq<Byte>, limit: nat)
    ensures var d := Drain(parse, r, limit);
            Drain(parse, Reader(r.buffer + c, r.machine), limit) == Drain(parse, Reader(d.buffer + c, d.machine), limit)
  {
    var d, e := DrainAppends(parse, r.buffer, r.machine, c, limit);
    assert AskNext(0);
    assert r == Reader(r.buffer, r.machine);
  }

  /** A failure of the frame machine, or none; not the frame limit. */
  predicate NoFrameLimit(m: Machine) {
    m.failure != Some(FrameTooLarge)
  }

  lemma {:induction false} FeedFailed(parse: Line -> Frame, r: Reader, chunks: Chunks, limits: Limits)
    requires r.machine.failure.Some?
    ensures FeedAll(parse, r, chunks, limits) == r
    decreases chunks
  {
    if chunks.Chunk? {
      FeedFailed(parse, r, chunks.rest, limits);
    }
  }

  lemma AppendMore(parse: Line -> Frame, buffer: seq<Byte>, m: Machine, first: seq<Byte>, rest: seq<Byte>, limit: nat)
    ensures var d := Drain(parse, Reader(buffer + first, m), limit);
            Drain(parse, Reader(buffer + (first + rest), m), limit) == Drain(parse, Reader(d.buffer + rest, d.machine), limit)
  {
    var all := buffer + first;
    assert all + rest == buffer + (first + rest);
    DrainAppend(parse, Reader(all, m), rest, limit);
  }

  /** Feeding chunks is draining their concatenation, as far as the machine goes. */
  lemma {:induction false} FeedIsDrain(parse: Line -> Frame, r: Reader, chunks: Chunks, limits: Limits)
    requires NoFrameLimit(FeedAll(parse, r, chunks, limits).machine)
    requires r.machine.failure.None? ==> Drain(parse, r, limits.body) == r
    ensures var f := FeedAll(parse, r, chunks, limits);
            var d := Drain(parse, Reader(r.buffer + Joined(chunks), r.machine), limits.body);
            f.machine == d.machine && (f.machine.failure.None? ==> f.buffer == d.buffer)
    decreases chunks
  {
    if r.machine.failure.Some? {
      FeedFailed(parse, r, chunks, limits);
    } else if chunks.NoChunk? {
      assert r.buffer + [] == r.buffer;
    } else {
      var next := Feed(parse, r, chunks.bytes, limits);
      AppendMore(parse, r.buffer, r.machine, chunks.bytes, Joined(chunks.rest), limits.body);
      if |r.buffer + chunks.bytes| > limits.frame {
        FeedFailed(parse, next, chunks.rest, limits);
      } else {
        DrainTwice(parse, Reader(r.buffer + chunks.bytes, r.machine), limits.body);
        FeedIsDrain(parse, next, chunks.rest, limits);
      }
    }
  }

  lemma DrainTwice(parse: Line -> Frame, r: Reader, limit: nat)
    ensures var d := Drain(parse, r, limit); Drain(parse, d, limit) == d
  {
    DrainAppend(parse, r, [], limit);
    var d := Drain(parse, r, limit);
    assert r.buffer + [] == r.buffer && d.buffer + [] == d.buffer;
  }

  // ----- Which streams succeed -----

  datatype Frames = NoFrame | OneFrame(frame: Frame, rest: Frames)

  /** The frames of a stream: its complete lines that are not blank. */
  function FramesOf(parse: Line -> Frame, b: seq<Byte>): Frames
    decreases |b|
  {
    var i := FirstNewline(b);
    if i < 0 then NoFrame
    else if Blank(Bare(b[..i])) then FramesOf(parse, b[i + 1..])
    else OneFrame(parse(Bare(b[..i])), FramesOf(parse, b[i + 1..]))
  }

  /** What follows the last newline. */
  function Tail(b: seq<Byte>): seq<Byte>
    decreases |b|
  {
    var i := FirstNewline(b);
    if i < 0 then b else Tail(b[i + 1..])
  }

  function ApplyAll(m: Machine, fs: Frames, limit: nat): Machine
    decreases fs
  {
    if fs.NoFrame? || m.failure.Some? then m else ApplyAll(Apply(m, fs.frame, limit), fs.rest, limit)
  }

  ghost predicate Applies(m: Machine, fs: Frames, limit: nat, m': Machine) {
    forall u {:trigger AskNext(u)} :: AskNext(u) ==> m' == ApplyAll(m, fs, limit)
  }

  lemma ApplyStep(parse: Line -> Frame, b: seq<Byte>, i: nat, m: Machine, m': Machine, limit: nat, d: Machine)
    requires FirstNewline(b) == i && m.failure.None? && Next(parse, m, b[..i], limit, m')
    requires Applies(m', FramesOf(parse, b[i + 1..]), limit, d)
    ensures Applies(m, FramesOf(parse, b), limit, d)
  {
    assert AskNext(0);
    var fs := FramesOf(parse, b[i + 1..]);
    if !Blank(Bare(b[..i])) {
      ApplyUnfolds(m, parse(Bare(b[..i])), fs, limit);
    }
  }

  lemma ApplyUnfolds(m: Machine, f: Frame, fs: Frames, limit: nat)
    requires m.failure.None?
    ensures ApplyAll(m, OneFrame(f, fs), limit) == ApplyAll(Apply(m, f, limit), fs, limit)
  {
  }

  lemma ApplyDone(m: Machine, fs: Frames, limit: nat)
    requires fs.NoFrame? || m.failure.Some?
    ensures Applies(m, fs, limit, m)
  {
  }

  lemma {:induction false} DrainApplies(parse: Line -> Frame, b: seq<Byte>, m: Machine, limit: nat) returns (d: Reader)
    ensures Drains(parse, b, m, limit, d) && Applies(m, FramesOf(parse, b), limit, d.machine)
    ensures d.machine.failure.None? ==> d.buffer == Tail(b)
    decreases |b|
  {
    var i := FirstNewline(b);
    if i < 0 || m.failure.Some? {
      d := Reader(b, m);
      DrainDone(parse, b, m, limit);
      ApplyDone(m, FramesOf(parse, b), limit);
    } else {
      var m' := LineStep(parse, m, b[..i], limit);
      d := DrainApplies(parse, b[i + 1..], m', limit);
      DrainStep(parse, b, i, b[..i], b[i + 1..], m, m', limit, d);
      ApplyStep(parse, b, i, m, m', limit, d.machine);
    }
  }

  lemma DrainIsApplyAll(parse: Line -> Frame, b: seq<Byte>, m: Machine, limit: nat)
    ensures var d := Drain(parse, Reader(b, m), limit);
            && d.machine == ApplyAll(m, FramesOf(parse, b), limit)
            && (d.machine.failure.None? ==> d.buffer == Tail(b))
  {
    var d := DrainApplies(parse, b, m, limit);
    assert AskNext(0);
  }

  // ----- The frame limit -----

  /** No frame of the stream so far fails. */
  predicate Unfailed(parse: Line -> Frame, b: seq<Byte>, limit: nat) {
    ApplyAll(START, FramesOf(parse, b), limit).failure.None?
  }

  /** After `seen`, some chunk together with the unfinished line before it exceeds the frame limit,
      and no frame completed before that chunk fails. */
  predicate Overflows(parse: Line -> Frame, seen: seq<Byte>, chunks: Chunks, limits: Limits)
    decreases chunks
  {
    && chunks.Chunk? && Unfailed(parse, seen, limits.body)
    && (|Tail(seen)| + |chunks.bytes| > limits.frame || Overflows(parse, seen + chunks.bytes, chunks.rest, limits))
  }

  lemma {:induction false} FramesKeepToLimit(m: Machine, fs: Frames, limit: nat)
    requires NoFrameLimit(m)
    ensures NoFrameLimit(ApplyAll(m, fs, limit))
    decreases fs
  {
    if fs.OneFrame? && m.failure.None? {
      FramesKeepToLimit(Apply(m, fs.frame, limit), fs.rest, limit);
    }
  }

  lemma {:induction false} FeedOverflows(parse: Line -> Frame, seen: seq<Byte>, r: Reader, chunks: Chunks, limits: Limits)
    requires r == Drain(parse, Reader(seen, START), limits.body)
    ensures !NoFrameLimit(FeedAll(parse, r, chunks, limits).machine) <==> Overflows(parse, seen, chunks, limits)
    decreases chunks
  {
    DrainIsApplyAll(parse, seen, START, limits.body);
    FramesKeepToLimit(START, FramesOf(parse, seen), limits.body);
    if r.machine.failure.Some? {
      FeedFailed(parse, r, chunks, limits);
    } else if chunks.Chunk? {
      var next := Feed(parse, r, chunks.bytes, limits);
      if |r.buffer + chunks.bytes| > limits.frame {
        FeedFailed(parse, next, chunks.rest, limits);
      } else {
        DrainAppend(parse, Reader(seen, START), chunks.bytes, limits.body);
        FeedOverflows(parse, seen + chunks.bytes, next, chunks.rest, limits);
      }
    }
  }

  /** The frame limit fires if and only if some chunk overflows. */
  lemma LimitFires(parse: Line -> Frame, chunks: Chunks, limits: Limits)
    ensures Read(parse, chunks, limits).failure == Some(FrameTooLarge) <==> Overflows(parse, [], chunks, limits)
  {
    assert Drain(parse, Reader([], START), limits.body) == Reader([], START);
    FeedOverflows(parse, [], Reader([], START), chunks, limits);
  }

  /** However the stream is cut, if no chunk overflows the reader does to the writer exactly what it
      would do with the stream in one piece, and fails as it would. */
  lemma ChunkingIrrelevant(parse: Line -> Frame, chunks: Chunks, limits: Limits)
    requires !Overflows(parse, [], chunks, limits)
    ensures Read(parse, chunks, limits) == ReadWhole(parse, Joined(chunks), limits.body)
  {
    var r := Reader([], START);
    assert Drain(parse, r, limits.body) == r;
    LimitFires(parse, chunks, limits);
    FeedIsDrain(parse, r, chunks, limits);
    assert [] + Joined(chunks) == Joined(chunks);
  }

  lemma SameStreamSameReading(parse: Line -> Frame, one: Chunks, other: Chunks, limits: Limits)
    requires Joined(one) == Joined(other)
    requires !Overflows(parse, [], one, limits) && !Overflows(parse, [], other, limits)
    ensures Read(parse, one, limits) == Read(parse, other, limits)
  {
    ChunkingIrrelevant(parse, one, limits);
    ChunkingIrrelevant(parse, other, limits);
  }

  /** The limit itself does depend on the chunks: it is compared before lines are taken off. */
  lemma LimitDependsOnChunks(parse: Line -> Frame)
    ensures
      var limits := Limits(1, 0);
      var one, two := Chunk([10, 10], NoChunk), Chunk([10], Chunk([10], NoChunk));
      && Joined(one) == Joined(two)
      && Read(parse, one, limits).failure == Some(FrameTooLarge)
      && Read(parse, two, limits).failure == Some(Unfinished)
  {
    var limits := Limits(1, 0);
    var r := Reader([], START);
    assert Joined(Chunk([10], NoChunk)) == [10];
    assert FirstNewline([10]) == 0 && [10][1..] == [] && [10][..0] == [];
    assert Drain(parse, Reader([10], START), 0) == r;
    assert [] + [10] == [10];
    assert Feed(parse, r, [10], limits) == r;
  }

  datatype Bodies = NoBody | Body(bytes: seq<Byte>, rest: Bodies)

  function Size(bodies: Bodies): nat {
    if bodies.NoBody? then 0 else |bodies.bytes| + Size(bodies.rest)
  }

  function Writes(bodies: Bodies): seq<Action> {
    if bodies.NoBody? then [] else [Write(bodies.bytes)] + Writes(bodies.rest)
  }

  /** The frames of a response: its head, its body, its end. */
  function BodyFrames(bodies: Bodies): Frames {
    if bodies.NoBody? then OneFrame(EndFrame, NoFrame) else OneFrame(ChunkFrame(Some(bodies.bytes)), BodyFrames(bodies.rest))
  }

  function ResponseFrames(status: int, headers: nat, bodies: Bodies): Frames {
    OneFrame(ResponseFrame(status, Some(headers)), BodyFrames(bodies))
  }

  /** The machine after the head, with `total` bytes written. */
  predicate InBody(m: Machine) {
    m.head.Some? && !m.completed && m.failure.None?
  }

  predicate Complete(m: Machine) {
    m.failure.None? && m.completed && m.head.Some?
  }

  lemma {:induction false} BodyApplies(m: Machine, bodies: Bodies, limit: nat)
    requires InBody(m) && m.total + Size(bodies) <= limit
    ensures var d := ApplyAll(m, BodyFrames(bodies), limit);
            Complete(d) && d.head == m.head && d.actions == m.actions + Writes(bodies)
    decreases bodies
  {
    if bodies.Body? {
      var next := Apply(m, ChunkFrame(Some(bodies.bytes)), limit);
      BodyApplies(next, bodies.rest, limit);
      assert m.actions + [Write(bodies.bytes)] + Writes(bodies.rest) == m.actions + Writes(bodies);
    }
  }

  lemma {:induction false} StaysFailed(m: Machine, fs: Frames, limit: nat)
    requires m.failure.Some? || (m.completed && fs.OneFrame?)
    ensures ApplyAll(m, fs, limit).failure.Some?
  {
  }

  lemma {:induction false} CompleteMeansBody(m: Machine, fs: Frames, limit: nat) returns (bodies: Bodies)
    requires InBody(m) && m.total <= limit && Complete(ApplyAll(m, fs, limit))
    ensures fs == BodyFrames(bodies) && m.total + Size(bodies) <= limit
    decreases fs
  {
    bodies := NoBody;
    if fs.OneFrame? {
      var next := Apply(m, fs.frame, limit);
      if next.failure.Some? || (next.completed && fs.rest.OneFrame?) {
        StaysFailed(next, fs.rest, limit);
      } else if InBody(next) {
        var rest := CompleteMeansBody(next, fs.rest, limit);
        bodies := Body(fs.frame.body.value, rest);
      }
    }
  }

  /** A response of valid status within the body limit. */
  ghost predicate IsResponse(fs: Frames, limit: nat) {
    exists status, headers, bodies :: fs == ResponseFrames(status, headers, bodies) && ValidStatus(status) && Size(bodies) <= limit
  }

  lemma ResponseApplies(status: int, headers: nat, bodies: Bodies, limit: nat)
    requires ValidStatus(status) && Size(bodies) <= limit
    ensures var d := ApplyAll(START, ResponseFrames(status, headers, bodies), limit);
            Complete(d) && d.head == Some(Head(status, headers)) && d.actions == [Start(status, headers)] + Writes(bodies)
  {
    var m := Apply(START, ResponseFrame(status, Some(headers)), limit);
    assert m == Machine(Some(Head(status, headers)), false, 0, [Start(status, headers)], None);
    BodyApplies(m, bodies, limit);
  }

  lemma CompleteMeansResponse(fs: Frames, limit: nat)
    requires Complete(ApplyAll(START, fs, limit))
    ensures IsResponse(fs, limit)
  {
    if fs.OneFrame? {
      var m := Apply(START, fs.frame, limit);
      if m.failure.Some? {
        StaysFailed(m, fs.rest, limit);
      } else {
        var bodies := CompleteMeansBody(m, fs.rest, limit);
        assert fs == ResponseFrames(fs.frame.status, fs.frame.headers.value, bodies);
      }
    }
  }

  /** The reader succeeds if and only if the stream is a response, its chunks and its end, within
      the body limit, with nothing but white space after the last line... */
  lemma SucceedsExactly(parse: Line -> Frame, b: seq<Byte>, limit: nat)
    ensures ReadWhole(parse, b, limit).failure.None? <==> IsResponse(FramesOf(parse, b), limit) && Blank(Tail(b))
  {
    DrainIsApplyAll(parse, b, START, limit);
    var fs := FramesOf(parse, b);
    if IsResponse(fs, limit) {
      var status, headers, bodies :| fs == ResponseFrames(status, headers, bodies) && ValidStatus(status) && Size(bodies) <= limit;
      ResponseApplies(status, headers, bodies, limit);
    } else if Complete(ApplyAll(START, fs, limit)) {
      CompleteMeansResponse(fs, limit);
    }
  }

  /** ...and then starts the response, writes the chunks in order and finishes it, once. */
  lemma SuccessActions(parse: Line -> Frame, b: seq<Byte>, limit: nat, status: int, headers: nat, bodies: Bodies)
    requires FramesOf(parse, b) == ResponseFrames(status, headers, bodies) && ReadWhole(parse, b, limit).failure.None?
    ensures ReadWhole(parse, b, limit).actions == [Start(status, headers)] + Writes(bodies) + [Finish(status, headers)]
    ensures Size(bodies) <= limit
  {
    SucceedsExactly(parse, b, limit);
    var st, h, bs :| ResponseFrames(status, headers, bodies) == ResponseFrames(st, h, bs) && ValidStatus(st) && Size(bs) <= limit;
    BodyFramesInjective(bodies, bs);
    DrainIsApplyAll(parse, b, START, limit);
    ResponseApplies(status, headers, bodies, limit);
  }

  lemma {:induction false} BodyFramesInjective(a: Bodies, b: Bodies)
    requires BodyFrames(a) == BodyFrames(b)
    ensures a == b
    decreases a
  {
    if a.Body? && b.Body? {
      BodyFramesInjective(a.rest, b.rest);
    }
  }

  // ----- Streams as lines -----

  /** Lines that end in a newline, some with a carriage return before it. */
  datatype Lines = NoLine | OneLine(text: Line, returned: bool, rest: Lines)

  predicate NoNewline(b: seq<Byte>) {
    forall i :: 0 <= i < |b| ==> b[i] != 10
  }

  predicate LinesOk(lines: Lines) {
    lines.OneLine? ==>
      && NoNewline(lines.text) && (lines.returned || lines.text == [] || lines.text[|lines.text| - 1] != 13)
      && LinesOk(lines.rest)
  }

  function Ending(returned: bool): seq<Byte> {
    if returned then [13, 10] else [10]
  }

  function LinesBytes(lines: Lines): seq<Byte> {
    if lines.NoLine? then []
    else lines.text + (Ending(lines.returned) + LinesBytes(lines.rest))
  }

  /** Nothing but tabs, spaces and carriage returns, and newlines where there can be any. */
  predicate White(b: seq<Byte>) {
    forall i :: 0 <= i < |b| ==> b[i] == 9 || b[i] == 10 || b[i] == 13 || b[i] == 32
  }

  /** What each line that is not white is parsed as. */
  function FramesIn(parse: Line -> Frame, lines: Lines): Frames {
    if lines.NoLine? then NoFrame
    else if White(lines.text) then FramesIn(parse, lines.rest)
    else OneFrame(parse(lines.text), FramesIn(parse, lines.rest))
  }

  lemma FirstNewlineIs(b: seq<Byte>, i: nat)
    requires i < |b| && b[i] == 10 && NoNewline(b[..i])
    ensures FirstNewline(b) == i
  {
    assert forall j :: 0 <= j < i ==> b[..i][j] != 10;
  }

  lemma NoFirstNewline(b: seq<Byte>)
    requires NoNewline(b)
    ensures FirstNewline(b) == -1
  {
  }

  lemma WhiteIsBlank(b: seq<Byte>)
    ensures Blank(b) <==> White(b)
  {
  }

  lemma LineCut(text: Line, returned: bool, rest: seq<Byte>) returns (line: Line)
    requires NoNewline(text) && (returned || text == [] || text[|text| - 1] != 13)
    ensures var b := text + (Ending(returned) + rest);
            && FirstNewline(b) == |line| && b[..|line|] == line && b[|line| + 1..] == rest && Bare(line) == text
  {
    line := text + if returned then [13] else [];
    var b := text + (Ending(returned) + rest);
    assert b == line + ([10] + rest);
    assert b[..|line|] == line && b[|line| + 1..] == rest;
    FirstNewlineIs(b, |line|);
    assert Bare(line) == text;
  }

  lemma FramesUnfold(parse: Line -> Frame, b: seq<Byte>, i: nat, text: Line, rest: seq<Byte>)
    requires FirstNewline(b) == i && Bare(b[..i]) == text && b[i + 1..] == rest
    ensures FramesOf(parse, b) == if Blank(text) then FramesOf(parse, rest) else OneFrame(parse(text), FramesOf(parse, rest))
    ensures Tail(b) == Tail(rest)
  {
  }

  lemma LinesUnfold(lines: Lines, tail: seq<Byte>) returns (rest: seq<Byte>)
    requires lines.OneLine?
    ensures rest == LinesBytes(lines.rest) + tail
    ensures LinesBytes(lines) + tail == lines.text + (Ending(lines.returned) + rest)
  {
    rest := LinesBytes(lines.rest) + tail;
    Regroup(lines.text, Ending(lines.returned), LinesBytes(lines.rest), tail);
  }

  lemma Regroup(a: seq<Byte>, b: seq<Byte>, c: seq<Byte>, d: seq<Byte>)
    ensures (a + (b + c)) + d == a + (b + (c + d))
  {
  }

  /** What the frames of a stream and its tail are. */
  ghost predicate Cuts(parse: Line -> Frame, b: seq<Byte>, fs: Frames, tail: seq<Byte>) {
    forall u {:trigger AskNext(u)} :: AskNext(u) ==> FramesOf(parse, b) == fs && Tail(b) == tail
  }

  lemma CutsLine(parse: Line -> Frame, b: seq<Byte>, text: Line, returned: bool, rest: seq<Byte>, fs: Frames, tail: seq<Byte>)
    requires NoNewline(text) && (returned || text == [] || text[|text| - 1] != 13)
    requires b == text + (Ending(returned) + rest) && Cuts(parse, rest, fs, tail)
    ensures Cuts(parse, b, if White(text) then fs else OneFrame(parse(text), fs), tail)
  {
    var line := LineCut(text, returned, rest);
    WhiteIsBlank(text);
    FramesUnfold(parse, b, |line|, text, rest);
    assert AskNext(0);
  }

  lemma CutsTail(parse: Line -> Frame, tail: seq<Byte>)
    requires NoNewline(tail)
    ensures Cuts(parse, tail, NoFrame, tail)
  {
    NoFirstNewline(tail);
  }

  lemma {:induction false} LinesCut(parse: Line -> Frame, lines: Lines, tail: seq<Byte>, b: seq<Byte>)
    requires LinesOk(lines) && NoNewline(tail) && b == LinesBytes(lines) + tail
    ensures Cuts(parse, b, FramesIn(parse, lines), tail)
    decreases lines
  {
    if lines.NoLine? {
      assert b == tail;
      CutsTail(parse, tail);
    } else {
      var rest := LinesUnfold(lines, tail);
      LinesCut(parse, lines.rest, tail, rest);
      CutsLine(parse, b, lines.text, lines.returned, rest, FramesIn(parse, lines.rest), tail);
    }
  }

  /** The frames of a stream are what its lines are parsed as, and its tail is what follows them. */
  lemma FramesExactly(parse: Line -> Frame, lines: Lines, tail: seq<Byte>)
    requires LinesOk(lines) && NoNewline(tail)
    ensures FramesOf(parse, LinesBytes(lines) + tail) == FramesIn(parse, lines)
    ensures Tail(LinesBytes(lines) + tail) == tail
  {
    LinesCut(parse, lines, tail, LinesBytes(lines) + tail);
    assert AskNext(0);
  }

  lemma LineFound(b: seq<Byte>) returns (text: Line, returned: bool, rest: seq<Byte>)
    requires FirstNewline(b) >= 0
    ensures NoNewline(text) && (returned || text == [] || text[|text| - 1] != 13)
    ensures b == text + (Ending(returned) + rest) && |rest| < |b|
  {
    var i := FirstNewline(b);
    var line := b[..i];
    text, returned, rest := Bare(line), line != [] && line[|line| - 1] == 13, b[i + 1..];
    assert line == text + if returned then [13] else [];
    assert b == line + ([10] + rest);
  }

  /** Every stream is such lines and a tail. */
  lemma {:induction false} StreamIsLines(b: seq<Byte>) returns (lines: Lines, tail: seq<Byte>)
    ensures LinesOk(lines) && NoNewline(tail) && b == LinesBytes(lines) + tail
    decreases |b|
  {
    if FirstNewline(b) < 0 {
      lines, tail := NoLine, b;
      assert [] + b == b;
    } else {
      var text, returned, rest := LineFound(b);
      var more;
      more, tail := StreamIsLines(rest);
      lines := OneLine(text, returned, more);
      var same := LinesUnfold(lines, tail);
    }
  }

  /** The reader succeeds if and only if the lines that are not white are a response of valid status,
      its chunks and its end, within the body limit, and what follows the last line is white. */
  lemma SucceedsOnLines(parse: Line -> Frame, lines: Lines, tail: seq<Byte>, limit: nat)
    requires LinesOk(lines) && NoNewline(tail)
    ensures ReadWhole(parse, LinesBytes(lines) + tail, limit).failure.None? <==> IsResponse(FramesIn(parse, lines), limit) && White(tail)
  {
    FramesExactly(parse, lines, tail);
    WhiteIsBlank(tail);
    SucceedsExactly(parse, LinesBytes(lines) + tail, limit);
  }

  // ----- Frames that fail -----

  /** Chunks, and then other frames. */
  function ChunksThen(bodies: Bodies, fs: Frames): Frames {
    if bodies.NoBody? then fs else OneFrame(ChunkFrame(Some(bodies.bytes)), ChunksThen(bodies.rest, fs))
  }

  lemma {:induction false} ChunksApply(m: Machine, bodies: Bodies, fs: Frames, limit: nat) returns (m': Machine)
    requires InBody(m) && m.total + Size(bodies) <= limit
    ensures m' == Machine(m.head, false, m.total + Size(bodies), m.actions + Writes(bodies), None)
    ensures ApplyAll(m, ChunksThen(bodies, fs), limit) == ApplyAll(m', fs, limit)
    decreases bodies
  {
    if bodies.NoBody? {
      assert m.actions + [] == m.actions;
      m' := m;
    } else {
      var next := Apply(m, ChunkFrame(Some(bodies.bytes)), limit);
      m' := ChunksApply(next, bodies.rest, fs, limit);
      assert m.actions + [Write(bodies.bytes)] + Writes(bodies.rest) == m.actions + Writes(bodies);
    }
  }

  /** What is wrong with a frame that comes first. */
  function WrongFirst(f: Frame): Option<Error> {
    match f
    case ResponseFrame(status, headers) => if 100 <= status <= 599 && headers.Some? then None else Some(BadResponse)
    case ChunkFrame(_) => Some(BeforeResponse)
    case EndFrame => Some(BeforeResponse)
    case ErrorFrame => Some(GatewayError)
    case _ => Some(Malformed)
  }

  /** What is wrong with a frame that comes after the response and `total` bytes of its body. */
  function WrongLater(f: Frame, total: nat, limit: nat): Option<Error> {
    match f
    case ResponseFrame(_, _) => Some(SecondResponse)
    case ChunkFrame(None) => Some(BadChunk)
    case ChunkFrame(Some(bytes)) => if total + |bytes| > limit then Some(BodyTooLarge) else None
    case EndFrame => None
    case ErrorFrame => Some(GatewayError)
    case _ => Some(Malformed)
  }

  /** The first frame is wrong for that reason, and then nothing is done; or it is the response. */
  lemma FirstFails(f: Frame, fs: Frames, limit: nat)
    ensures Apply(START, f, limit).failure == WrongFirst(f)
    ensures WrongFirst(f).Some? ==> ApplyAll(START, OneFrame(f, fs), limit) == START.(failure := WrongFirst(f))
  {
  }

  function Before(status: int, headers: nat, bodies: Bodies, fs: Frames): Frames {
    OneFrame(ResponseFrame(status, Some(headers)), ChunksThen(bodies, fs))
  }

  lemma BeforeApplies(status: int, headers: nat, bodies: Bodies, fs: Frames, limit: nat) returns (m: Machine)
    requires 100 <= status <= 599 && Size(bodies) <= limit
    ensures m == Machine(Some(Head(status, headers)), false, Size(bodies), [Start(status, headers)] + Writes(bodies), None)
    ensures ApplyAll(START, Before(status, headers, bodies, fs), limit) == ApplyAll(m, fs, limit)
  {
    var first := Apply(START, ResponseFrame(status, Some(headers)), limit);
    assert first == Machine(Some(Head(status, headers)), false, 0, [Start(status, headers)], None);
    m := ChunksApply(first, bodies, fs, limit);
    ApplyUnfolds(START, ResponseFrame(status, Some(headers)), ChunksThen(bodies, fs), limit);
  }

  /** After the response and chunks within the limit, the next frame is wrong for that reason or not
      at all, and a wrong one ends the reading: all that was done is to start the response and write
      those chunks, in order... */
  lemma FailsAsItShould(status: int, headers: nat, bodies: Bodies, f: Frame, fs: Frames, limit: nat)
    requires 100 <= status <= 599 && Size(bodies) <= limit
    ensures ApplyAll(START, Before(status, headers, bodies, OneFrame(f, NoFrame)), limit).failure == WrongLater(f, Size(bodies), limit)
    ensures
      var m := ApplyAll(START, Before(status, headers, bodies, OneFrame(f, fs)), limit);
      WrongLater(f, Size(bodies), limit).Some? ==>
        m.failure == WrongLater(f, Size(bodies), limit) && m.actions == [Start(status, headers)] + Writes(bodies)
  {
    var alone := BeforeApplies(status, headers, bodies, OneFrame(f, NoFrame), limit);
    ApplyUnfolds(alone, f, NoFrame, limit);
    var at := BeforeApplies(status, headers, bodies, OneFrame(f, fs), limit);
    if WrongLater(f, Size(bodies), limit).Some? {
      FailedAtOnce(at, f, fs, limit);
    }
  }

  /** ...and after the end every frame is wrong. */
  lemma FailsAfterEnd(status: int, headers: nat, bodies: Bodies, f: Frame, fs: Frames, limit: nat)
    requires 100 <= status <= 599 && Size(bodies) <= limit
    ensures
      var m := ApplyAll(START, Before(status, headers, bodies, OneFrame(EndFrame, OneFrame(f, fs))), limit);
      m.failure == Some(if f.NotAFrame? then Malformed else AfterEnd) && m.actions == [Start(status, headers)] + Writes(bodies)
  {
    var end := BeforeApplies(status, headers, bodies, OneFrame(EndFrame, OneFrame(f, fs)), limit);
    ApplyUnfolds(end, EndFrame, OneFrame(f, fs), limit);
    FailedAtOnce(end.(completed := true), f, fs, limit);
  }

  lemma FailedAtOnce(m: Machine, f: Frame, fs: Frames, limit: nat)
    requires m.failure.None? && Apply(m, f, limit).failure.Some?
    ensures ApplyAll(m, OneFrame(f, fs), limit) == Apply(m, f, limit)
  {
  }

  /** A stream whose frames are all right so far fails for its tail, or for want of an end. */
  lemma EndsAsItShould(parse: Line -> Frame, b: seq<Byte>, limit: nat)
    requires ApplyAll(START, FramesOf(parse, b), limit).failure.None?
    ensures
      var m, r := ApplyAll(START, FramesOf(parse, b), limit), ReadWhole(parse, b, limit);
      if !White(Tail(b)) then r == m.(failure := Some(PartialFrame))
      else if !m.completed then r == m.(failure := Some(Unfinished))
      else r.failure.None?
  {
    DrainIsApplyAll(parse, b, START, limit);
    WhiteIsBlank(Tail(b));
    CompletedHasHead(START, FramesOf(parse, b), limit);
  }

  lemma {:induction false} CompletedHasHead(m: Machine, fs: Frames, limit: nat)
    requires m.completed ==> m.head.Some?
    ensures ApplyAll(m, fs, limit).completed ==> ApplyAll(m, fs, limit).head.Some?
    decreases fs
  {
    if fs.OneFrame? && m.failure.None? {
      CompletedHasHead(Apply(m, fs.frame, limit), fs.rest, limit);
    }
  }

  // ----- What every reading keeps to -----

  predicate Unfinishing(actions: seq<Action>) {
    forall i :: 0 <= i < |actions| ==> !actions[i].Finish?
  }

  /** The bytes given to the writer. */
  function Volume(actions: seq<Action>): nat {
    if actions == [] then 0
    else
      var last := actions[|actions| - 1];
      Volume(actions[..|actions| - 1]) + if last.Write? then |last.chunk| else 0
  }

  /** Nothing finished yet, and what was written is counted and within the limit. */
  predicate Modest(m: Machine, limit: nat) {
    Unfinishing(m.actions) && Volume(m.actions) == m.total <= limit
  }

  lemma VolumeAdds(actions: seq<Action>, a: Action)
    ensures Volume(actions + [a]) == Volume(actions) + if a.Write? then |a.chunk| else 0
  {
    assert (actions + [a])[..|actions|] == actions;
  }

  lemma AddedModest(m: Machine, m': Machine, a: Action, limit: nat)
    requires Modest(m, limit) && !a.Finish? && m'.actions == m.actions + [a]
    requires m'.total == m.total + (if a.Write? then |a.chunk| else 0) <= limit
    ensures Modest(m', limit)
  {
    VolumeAdds(m.actions, a);
  }

  lemma ApplyModest(m: Machine, f: Frame, limit: nat)
    requires Modest(m, limit)
    ensures Modest(Apply(m, f, limit), limit)
  {
    var m' := Apply(m, f, limit);
    if m'.actions != m.actions {
      AddedModest(m, m', if f.ResponseFrame? then Start(f.status, f.headers.value) else Write(f.body.value), limit);
    }
  }

  lemma LineModest(parse: Line -> Frame, r: Reader, limit: nat)
    requires FirstNewline(r.buffer) >= 0 && Modest(r.machine, limit)
    ensures Modest(AfterLine(parse, r, limit).machine, limit)
  {
    ApplyModest(r.machine, parse(Bare(r.buffer[..FirstNewline(r.buffer)])), limit);
  }

  lemma {:induction false} DrainModest(parse: Line -> Frame, r: Reader, limit: nat)
    requires Modest(r.machine, limit)
    ensures Modest(Drain(parse, r, limit).machine, limit)
    decreases |r.buffer|
  {
    if FirstNewline(r.buffer) >= 0 && r.machine.failure.None? {
      LineModest(parse, r, limit);
      DrainModest(parse, AfterLine(parse, r, limit), limit);
    }
  }

  lemma {:induction false} FeedAllModest(parse: Line -> Frame, r: Reader, chunks: Chunks, limits: Limits)
    requires Modest(r.machine, limits.body)
    ensures Modest(FeedAll(parse, r, chunks, limits).machine, limits.body)
    decreases chunks
  {
    if chunks.Chunk? {
      DrainModest(parse, Reader(r.buffer + chunks.bytes, r.machine), limits.body);
      FeedAllModest(parse, Feed(parse, r, chunks.bytes, limits), chunks.rest, limits);
    }
  }

  /** Whatever the stream and its chunks, no more is written than the body limit allows, and the
      response is finished only as the last action of a reading that did not fail. */
  lemma ReadingKeepsTo(parse: Line -> Frame, chunks: Chunks, limits: Limits)
    ensures var m := Read(parse, chunks, limits);
            && Volume(m.actions) <= limits.body
            && (m.failure.Some? ==> Unfinishing(m.actions))
            && (m.failure.None? ==> m.actions != [] && m.actions[|m.actions| - 1].Finish? && Unfinishing(m.actions[..|m.actions| - 1]))
  {
    FeedAllModest(parse, Reader([], START), chunks, limits);
    var r := FeedAll(parse, Reader([], START), chunks, limits);
    if Close(r).failure.None? {
      var h := r.machine.head.value;
      VolumeAdds(r.machine.actions, Finish(h.status, h.headers));
    }
  }

  // ----- The reading loop -----

  predicate AskSame(u: int, b: seq<Byte>) {
    true
  }

  /** Draining the rest comes to draining the whole. */
  ghost predicate DrainsSame(parse: Line -> Frame, b: seq<Byte>, m: Machine, limit: nat, r: Reader) {
    forall u {:trigger AskSame(u, b)} :: AskSame(u, b) ==> Drain(parse, Reader(b, m), limit) == Drain(parse, r, limit)
  }

  lemma DrainsAll(parse: Line -> Frame, r: Reader, limit: nat)
    ensures DrainsSame(parse, r.buffer, r.machine, limit, r)
  {
    assert r == Reader(r.buffer, r.machine);
  }

  lemma DrainsLine(parse: Line -> Frame, b: seq<Byte>, m: Machine, limit: nat, r: Reader, next: seq<Byte>, m': Machine)
    requires DrainsSame(parse, b, m, limit, r) && FirstNewline(b) >= 0 && m.failure.None?
    requires next == b[FirstNewline(b) + 1..] && m' == ApplyLine(parse, m, b[..FirstNewline(b)], limit)
    ensures DrainsSame(parse, next, m', limit, r)
  {
    assert AskSame(0, b);
    DrainUnfolds(parse, Reader(b, m), Reader(next, m'), limit);
  }

  lemma DrainsEnd(parse: Line -> Frame, b: seq<Byte>, m: Machine, limit: nat, r: Reader)
    requires DrainsSame(parse, b, m, limit, r) && (FirstNewline(b) < 0 || m.failure.Some?)
    ensures Reader(b, m) == Drain(parse, r, limit)
  {
    assert AskSame(0, b);
  }

  /** The inner loop: takes complete lines off the buffer. */
  method DrainLines(parse: Line -> Frame, r: Reader, limit: nat) returns (d: Reader)
    ensures d == Drain(parse, r, limit)
  {
    var buffer, m := r.buffer, r.machine;
    DrainsAll(parse, r, limit);
    while true
      invariant DrainsSame(parse, buffer, m, limit, r)
      decreases |buffer|
    {
      var newline := FirstNewline(buffer);
      if newline == -1 || m.failure.Some? {
        break;
      }
      ghost var whole, before := buffer, m;
      var line := buffer[..newline];
      buffer := buffer[newline + 1..];
      if line != [] && line[|line| - 1] == RETURN {
        line := line[..|line| - 1];
      }
      if !Blank(line) {
        m := Apply(m, parse(line), limit);
      }
      DrainsLine(parse, whole, before, limit, r, buffer, m);
    }
    DrainsEnd(parse, buffer, m, limit, r);
    d := Reader(buffer, m);
  }

  method ReadGatewayStreamResponse(parse: Line -> Frame, chunks: Chunks, limits: Limits) returns (m: Machine)
    ensures m == Read(parse, chunks, limits)
  {
    var r := Reader([], START);
    var todo := chunks;
    while todo.Chunk?
      invariant FeedAll(parse, r, todo, limits) == FeedAll(parse, Reader([], START), chunks, limits)
      decreases todo
    {
      if r.machine.failure.None? {
        r := r.(buffer := r.buffer + todo.bytes);
        if |r.buffer| > limits.frame {
          r := r.(machine := Failing(r.machine, FrameTooLarge));
        } else {
          r := DrainLines(parse, r, limits.body);
        }
      }
      todo := todo.rest;
    }
    m := Close(r);
  }
}
