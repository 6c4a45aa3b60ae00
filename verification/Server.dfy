/**
 One server connection: a reader dispatches frames to concurrent handlers, a writer sends the
 one-byte answers back in arrival order, and a bounded number of frames is in flight.
 */
module Server {
  import opened Bytes
  import opened Codec

  // ---------------------------------------------------------------- the shared pipeline object

  datatype Pipe = Pipe(next: nat, results: map<nat, byte>, closed: bool)

  datatype Poll = Ready(ack: byte) | Ended | Wait

  /** connPipeline. A wait on the condition variable is answered by `Wait`: the caller is woken and asks again. */
  class ConnPipeline {
    var next: nat
    var results: map<nat, byte>
    var closed: bool

    ghost function Value(): Pipe
      reads this
    {
      Pipe(next, results, closed)
    }

    constructor ()
      ensures Value() == Pipe(0, map[], false)
    {
      next, results, closed := 0, map[], false;
    }

    method SetResult(i: nat, ack: byte)
      modifies this
      ensures Value() == SetResultOf(old(Value()), i, ack)
    {
      results := results[i := ack];
    }

    method NextResult(i: nat) returns (r: Poll)
      modifies this
      ensures (Value(), r) == TakeOf(old(Value()), i)
    {
      if i in results {
        r := Ready(results[i]);
        results := results - {i};
        return;
      }
      return if closed then Ended else Wait;
    }

    method Close()
      modifies this
      ensures Value() == old(Value()).(closed := true)
    {
      closed := true;
    }

    method Advance()
      modifies this
      ensures Value() == old(Value()).(next := old(next) + 1)
    {
      next := next + 1;
    }

    method AwaitInflight(i: nat, max: nat) returns (room: bool, again: bool)
      ensures room <==> HasRoom(Value(), i, max)
      ensures again <==> !room && !closed
    {
      if i - next >= max {
        return false, !closed;
      }
      return true, false;
    }
  }

  function SetResultOf(p: Pipe, i: nat, ack: byte): Pipe {
    p.(results := p.results[i := ack])
  }

  function TakeOf(p: Pipe, i: nat): (Pipe, Poll) {
    if i in p.results then (p.(results := p.results - {i}), Ready(p.results[i]))
    else (p, if p.closed then Ended else Wait)
  }

  predicate HasRoom(p: Pipe, i: nat, max: nat) {
    i - p.next < max
  }

  // ---------------------------------------------------------------- the connection as a machine

  datatype Reader = Reading | Holding | Exiting | Gone
  datatype Writer = Waiting | Writing(ack: byte) | Advancing | Stopped

  /** A byte on the wire: the answer to some frame, or the nack that a bad header provokes. */
  datatype Sent = Answer(ack: byte) | BadHeader

  datatype Conn = Conn(
    pipe: Pipe,
    reader: Reader,
    idx: nat,                 // frames dispatched
    writer: Writer,
    wIdx: nat,                // the frame the writer is at
    running: set<nat>,        // handlers at work
    answers: map<nat, byte>,  // what the handlers returned
    wire: seq<Sent>)

  datatype Step =
    | ReadFrame | ReadBadHeader | ReadFails | Dispatch | GiveUp | Exit
    | Finish(i: nat, ack: byte)
    | Take | Stop | Write(ok: bool) | Advance

  function Fresh(): Conn {
    Conn(Pipe(0, map[], false), Reading, 0, Waiting, 0, {}, map[], [])
  }

  predicate Enabled(c: Conn, max: nat, step: Step) {
    match step
    case ReadFrame => c.reader.Reading?
    case ReadBadHeader => c.reader.Reading?
    case ReadFails => c.reader.Reading?
    case Dispatch => c.reader.Holding? && HasRoom(c.pipe, c.idx, max)
    case GiveUp => c.reader.Holding? && !HasRoom(c.pipe, c.idx, max) && c.pipe.closed
    case Exit => c.reader.Exiting?
    case Finish(i, _) => i in c.running
    case Take => c.writer.Waiting? && TakeOf(c.pipe, c.wIdx).1.Ready?
    case Stop => c.writer.Waiting? && TakeOf(c.pipe, c.wIdx).1.Ended?
    case Write(_) => c.writer.Writing?
    case Advance => c.writer.Advancing?
  }

  function Apply(c: Conn, max: nat, step: Step): Conn
    requires Enabled(c, max, step)
  {
    match step
    case ReadFrame => c.(reader := Holding)
    case ReadBadHeader => c.(reader := Exiting, wire := c.wire + [BadHeader])
    case ReadFails => c.(reader := Exiting)
    case Dispatch => c.(reader := Reading, running := c.running + {c.idx}, idx := c.idx + 1)
    case GiveUp => c.(reader := Exiting)
    case Exit => c.(reader := Gone, pipe := c.pipe.(closed := true))
    case Finish(i, ack) =>
      c.(pipe := SetResultOf(c.pipe, i, ack), running := c.running - {i}, answers := c.answers[i := ack])
    case Take => c.(pipe := TakeOf(c.pipe, c.wIdx).0, writer := Writing(TakeOf(c.pipe, c.wIdx).1.ack))
    case Stop => c.(writer := Stopped)
    case Write(ok) =>
      if ok then c.(wire := c.wire + [Answer(c.writer.ack)], writer := Advancing)
      else c.(pipe := c.pipe.(closed := true), writer := Stopped)
    case Advance => c.(pipe := c.pipe.(next := c.pipe.next + 1), writer := Waiting, wIdx := c.wIdx + 1)
  }

  function After(max: nat, steps: seq<Step>): Conn {
    if |steps| == 0 then Fresh()
    else
      var c := After(max, steps[..|steps| - 1]);
      if Enabled(c, max, steps[|steps| - 1]) then Apply(c, max, steps[|steps| - 1]) else c
  }

  // ---------------------------------------------------------------- the invariant

  /** The pipelined answers among the bytes on the wire. */
  function Answers(wire: seq<Sent>): seq<byte> {
    if |wire| == 0 then []
    else Answers(wire[..|wire| - 1]) + if wire[|wire| - 1].Answer? then [wire[|wire| - 1].ack] else []
  }

  function BadHeaders(wire: seq<Sent>): nat {
    if |wire| == 0 then 0
    else BadHeaders(wire[..|wire| - 1]) + if wire[|wire| - 1].BadHeader? then 1 else 0
  }

  /** Answers written so far. */
  function Written(c: Conn): nat {
    if c.writer.Advancing? then c.wIdx + 1 else c.wIdx
  }

  /** Results taken out of the pipeline so far, at least. */
  function Taken(c: Conn): nat {
    if c.writer.Waiting? then c.wIdx else c.wIdx + 1
  }

  ghost predicate Inv(c: Conn, max: nat) {
    && c.pipe.next == c.wIdx
    && (forall i :: i in c.running || i in c.answers <==> 0 <= i < c.idx)
    && (forall i :: i in c.running ==> i !in c.answers)
    && (forall i :: i in c.pipe.results ==> i in c.answers && c.pipe.results[i] == c.answers[i])
    && (forall i :: 0 <= i < Written(c) ==> i in c.answers)
    && (forall i :: i in c.pipe.results && !c.writer.Stopped? ==> i >= Taken(c))
    && (forall i :: i in c.answers && i >= Taken(c) ==> i in c.pipe.results)
    && (c.writer.Writing? ==> c.wIdx in c.answers && c.writer.ack == c.answers[c.wIdx])
    && |Answers(c.wire)| == Written(c)
    && (forall i :: 0 <= i < Written(c) ==> Answers(c.wire)[i] == c.answers[i])
    && BadHeaders(c.wire) <= 1 && (c.reader.Reading? || c.reader.Holding? ==> BadHeaders(c.wire) == 0)
    && c.idx <= c.wIdx + max
  }

  lemma WireGrows(wire: seq<Sent>, s: Sent)
    ensures Answers(wire + [s]) == Answers(wire) + if s.Answer? then [s.ack] else []
    ensures BadHeaders(wire + [s]) == BadHeaders(wire) + if s.BadHeader? then 1 else 0
  {
    assert (wire + [s])[..|wire|] == wire;
  }

  lemma InvStep(c: Conn, max: nat, step: Step)
    requires Inv(c, max) && Enabled(c, max, step)
    ensures Inv(Apply(c, max, step), max)
  {
    if step.Finish? || step.Take? || step.Stop? || step.Write? || step.Advance? {
      AnsweringKeeps(c, max, step);
    } else {
      ReadingKeeps(c, max, step);
    }
  }

  lemma ReadingKeeps(c: Conn, max: nat, step: Step)
    requires Inv(c, max) && Enabled(c, max, step)
    requires !(step.Finish? || step.Take? || step.Stop? || step.Write? || step.Advance?)
    ensures Inv(Apply(c, max, step), max)
  {
    hide Answers, BadHeaders;
    if step.ReadBadHeader? {
      WireGrows(c.wire, BadHeader);
    }
  }

  lemma AnsweringKeeps(c: Conn, max: nat, step: Step)
    requires Inv(c, max) && Enabled(c, max, step)
    requires step.Finish? || step.Take? || step.Stop? || step.Write? || step.Advance?
    ensures Inv(Apply(c, max, step), max)
  {
    hide Answers, BadHeaders;
    if step.Write? && step.ok {
      WireGrows(c.wire, Answer(c.writer.ack));
    }
  }

  lemma {:induction false} InvAlways(max: nat, steps: seq<Step>)
    ensures Inv(After(max, steps), max)
  {
    hide Inv, Apply, Enabled;
    if |steps| == 0 {
      assert Inv(Fresh(), max) by { Start(max); }
    } else {
      var c, step := After(max, steps[..|steps| - 1]), steps[|steps| - 1];
      InvAlways(max, steps[..|steps| - 1]);
      if Enabled(c, max, step) {
        InvStep(c, max, step);
      }
    }
  }

  lemma Start(max: nat)
    ensures Inv(Fresh(), max)
  {
  }

  /**
   Ordered acknowledgements with bounded flight, in every interleaving of reader, handlers and
   writer: the answers on the wire are the handler results of frames 0, 1, 2, ... in that order;
   frames dispatched minus answers written never exceeds the limit; and at most one other byte,
   the nack for a bad header, is ever sent.
   */
  lemma AcksInOrder(max: nat, steps: seq<Step>)
    ensures var c := After(max, steps);
            && |Answers(c.wire)| <= c.idx <= |Answers(c.wire)| + max
            && (forall i :: 0 <= i < |Answers(c.wire)| ==> i in c.answers && Answers(c.wire)[i] == c.answers[i])
            && |c.wire| == |Answers(c.wire)| + BadHeaders(c.wire) && BadHeaders(c.wire) <= 1
  {
    hide After, Answers, BadHeaders;
    InvAlways(max, steps);
    var c := After(max, steps);
    WireLength(c.wire);
    assert Written(c) > 0 ==> Written(c) - 1 in c.answers;
  }

  lemma {:induction false} WireLength(wire: seq<Sent>)
    ensures |wire| == |Answers(wire)| + BadHeaders(wire)
  {
    if |wire| > 0 {
      WireLength(wire[..|wire| - 1]);
    }
  }

  // ---------------------------------------------------------------- nothing finished is dropped

  lemma OneMoreStep(max: nat, steps: seq<Step>, step: Step)
    ensures var c := After(max, steps);
            After(max, steps + [step]) == if Enabled(c, max, step) then Apply(c, max, step) else c
  {
    hide Enabled, Apply;
    assert (steps + [step])[..|steps|] == steps;
  }

  /** The writer gives up cleanly only on a frame whose handler has not finished. */
  lemma StopsOnlyAtUnfinished(max: nat, steps: seq<Step>)
    requires Enabled(After(max, steps), max, Stop)
    ensures After(max, steps).wIdx !in After(max, steps).answers
  {
    hide After, Answers, BadHeaders;
    InvAlways(max, steps);
  }

  /** What the writer does next, if the connection takes its bytes. */
  function WriterStep(c: Conn): Step {
    match c.writer
    case Writing(_) => Write(true)
    case Advancing => Advance
    case _ => Take
  }

  function WriterWork(c: Conn): int {
    3 * (c.idx - c.wIdx) - match c.writer case Writing(_) => 1 case Advancing => 2 case _ => 0
  }

  /**
   Whatever happened before, closing included: once all handlers have finished, the writer alone, if it
   has not stopped, gets every dispatched frame its answer.
   */
  lemma {:induction false} EveryFinishedFrameIsAnswered(max: nat, steps: seq<Step>) returns (more: seq<Step>)
    requires After(max, steps).running == {} && !After(max, steps).writer.Stopped?
    ensures var c, c' := After(max, steps), After(max, steps + more);
            && c'.idx == c.idx && c'.answers == c.answers && |Answers(c'.wire)| == c.idx
            && forall i :: 0 <= i < c.idx ==> i in c.answers && Answers(c'.wire)[i] == c.answers[i]
    decreases WriterWork(After(max, steps))
  {
    hide After, Answers, BadHeaders;
    InvAlways(max, steps);
    var c := After(max, steps);
    AllFinished(c, max);
    if c.writer.Waiting? && c.wIdx == c.idx {
      more := [];
      assert steps + more == steps;
    } else {
      var step := WriterStep(c);
      OneMoreStep(max, steps, step);
      var rest := EveryFinishedFrameIsAnswered(max, steps + [step]);
      more := [step] + rest;
      assert steps + more == steps + [step] + rest;
    }
  }

  lemma AllFinished(c: Conn, max: nat)
    requires Inv(c, max) && c.running == {} && !c.writer.Stopped?
    ensures forall i :: 0 <= i < c.idx ==> i in c.answers
    ensures c.wIdx <= c.idx && (!c.writer.Waiting? ==> c.wIdx < c.idx)
    ensures !(c.writer.Waiting? && c.wIdx == c.idx) ==> Enabled(c, max, WriterStep(c))
  {
    hide Answers, BadHeaders;
    assert Written(c) > 0 ==> Written(c) - 1 in c.answers;
  }

  /** For instance: the answer of a frame whose handler finishes after the reader is gone still goes out. */
  lemma AnsweredAfterClosing(ack: byte)
    ensures var c := After(1, [ReadFrame, Dispatch, ReadFails, Exit, Finish(0, ack), Take, Write(true)]);
            c.pipe.closed && c.wire == [Answer(ack)]
  {
    var run := [];
    assert After(1, run) == Fresh();
    OneMoreStep(1, run, ReadFrame);
    run := run + [ReadFrame];
    OneMoreStep(1, run, Dispatch);
    run := run + [Dispatch];
    OneMoreStep(1, run, ReadFails);
    run := run + [ReadFails];
    OneMoreStep(1, run, Exit);
    run := run + [Exit];
    OneMoreStep(1, run, Finish(0, ack));
    run := run + [Finish(0, ack)];
    OneMoreStep(1, run, Take);
    run := run + [Take];
    OneMoreStep(1, run, Write(true));
    assert run + [Write(true)] == [ReadFrame, Dispatch, ReadFails, Exit, Finish(0, ack), Take, Write(true)];
  }
}
