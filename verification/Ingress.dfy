/** Standard input: one future routes lines, one dispatches requests from a bounded queue, and
    responses bypass the queue. The two futures are polled by one task, so everything between two
    await points is one step; the host may stop the connection and any writer may close the stream
    between any two steps.
 */
module Ingress {
  import opened Wrappers

  const QUEUE_CAPACITY := 64

  /** A request or notification, or the error reply to a malformed one. */
  datatype Message = Call(body: string) | Fault(body: string)

  /** One non-empty or empty input line, as the envelope parser classifies it. `Forwarded` carries a
      request, a notification or an error reply; a response's id is known only if it is a number. */
  datatype Line = Blank | Dropped | Response(id: Option<nat>) | Forwarded(message: Message)

  datatype Polled = Got(line: Line) | Eof | Pending | ReadError

  datatype Outcome = Ended | ReadFailed | Overflow

  datatype Reader = Looping | Idle | Done(outcome: Outcome)

  /** `Leaving(true)` is a dispatcher that found the queue empty and its sender gone. */
  datatype Dispatcher = Reading | Leaving(drained: bool) | Waiting(drained: bool) | Exited(code: int, drained: bool)

  /** `probe` is the line read before the connection started; `eof` records that input ended. */
  datatype State = State(probe: Option<Line>, consumed: seq<Line>, eof: bool, routed: seq<nat>, queue: seq<Message>,
                         dispatched: seq<Message>, closed: bool, stopped: bool, reader: Reader, dispatcher: Dispatcher)

  datatype Event = Round(polled: Polled) | Wake | Turn | CloseStream | Exit | HostStops | WriterCloses

  // ---------------------------------------------------------------- one step

  predicate Enabled(s: State, e: Event) {
    match e
    case Round(_) => s.reader == Looping
    case Wake => s.reader == Idle
    case Turn => s.dispatcher == Reading && (s.closed || s.stopped || s.queue != [] || s.reader.Done?)
    case CloseStream => s.dispatcher.Leaving?
    case Exit => s.dispatcher.Waiting? && s.reader.Done?
    case HostStops => true
    case WriterCloses => true
  }

  /** A message for the queue: the receiver is dropped only when the dispatcher has returned. */
  function Forward(s: State, m: Message): State {
    if s.dispatcher.Exited? then s.(reader := Done(Ended))
    else if |s.queue| >= QUEUE_CAPACITY then s.(closed := true, reader := Done(Overflow))
    else s.(queue := s.queue + [m])
  }

  function Consume(s: State, line: Line): State {
    var s1 := s.(consumed := s.consumed + [line], probe := None);
    match line
    case Blank => s1
    case Dropped => s1
    case Response(id) => if id.Some? then s1.(routed := s1.routed + [id.value]) else s1
    case Forwarded(m) => Forward(s1, m)
  }

  function RoundStep(s: State, polled: Polled): State {
    if s.stopped || s.closed then s.(closed := true, reader := Done(Ended))
    else if s.probe.Some? then Consume(s, s.probe.value)
    else match polled
      case Got(line) => Consume(s, line)
      case Eof => s.(eof := true, reader := Done(Ended))
      case Pending => s.(reader := Idle)
      case ReadError => s.(closed := true, reader := Done(ReadFailed))
  }

  function WakeStep(s: State): State {
    if s.closed then s.(reader := Done(Ended))
    else if s.stopped then s.(closed := true, reader := Done(Ended))
    else s.(reader := Looping)
  }

  function TurnStep(s: State): State {
    if s.closed || s.stopped then s.(dispatcher := Leaving(false))
    else if s.queue != [] then s.(queue := s.queue[1..], dispatched := s.dispatched + [s.queue[0]])
    else s.(dispatcher := Leaving(true))
  }

  function ExitCode(outcome: Outcome): int {
    if outcome == Ended then 0 else 2
  }

  function Next(s: State, e: Event): State
    requires Enabled(s, e)
  {
    match e
    case Round(polled) => RoundStep(s, polled)
    case Wake => WakeStep(s)
    case Turn => TurnStep(s)
    case CloseStream => s.(closed := true, dispatcher := Waiting(s.dispatcher.drained))
    case Exit => s.(dispatcher := Exited(ExitCode(s.reader.outcome), s.dispatcher.drained))
    case HostStops => s.(stopped := true)
    case WriterCloses => s.(closed := true)
  }

  function Start(probe: Option<Line>): State {
    State(probe, [], false, [], [], [], false, false, Looping, Reading)
  }

  ghost predicate Run(s: State, es: seq<Event>)
    decreases |es|
  {
    es == [] || (Enabled(s, es[0]) && Run(Next(s, es[0]), es[1..]))
  }

  ghost function End(s: State, es: seq<Event>): State
    requires Run(s, es)
    decreases |es|
  {
    if es == [] then s else End(Next(s, es[0]), es[1..])
  }

  // ---------------------------------------------------------------- what the input asked for

  /** The messages that the consumed lines forward, in order. */
  function Messages(lines: seq<Line>): seq<Message> {
    if lines == [] then []
    else
      var rest := Messages(lines[..|lines| - 1]);
      match lines[|lines| - 1]
      case Forwarded(m) => rest + [m]
      case _ => rest
  }

  /** The ids of the responses among them. */
  function Answers(lines: seq<Line>): seq<nat> {
    if lines == [] then []
    else
      var rest := Answers(lines[..|lines| - 1]);
      match lines[|lines| - 1]
      case Response(Some(id)) => rest + [id]
      case _ => rest
  }

  lemma OneMore(lines: seq<Line>, line: Line)
    ensures Messages(lines + [line]) == if line.Forwarded? then Messages(lines) + [line.message] else Messages(lines)
    ensures Answers(lines + [line]) ==
            if line.Response? && line.id.Some? then Answers(lines) + [line.id.value] else Answers(lines)
  {
    assert (lines + [line])[..|lines|] == lines;
  }

  // ---------------------------------------------------------------- the invariant

  /** Nothing forwarded is lost or reordered, except the one line that overflowed the queue. */
  ghost predicate QueueInv(s: State) {
    && |s.queue| <= QUEUE_CAPACITY
    && if s.reader == Done(Overflow) then
         && s.consumed != [] && s.consumed[|s.consumed| - 1].Forwarded?
         && s.dispatched + s.queue == Messages(s.consumed[..|s.consumed| - 1])
       else s.dispatched + s.queue == Messages(s.consumed)
  }

  ghost predicate EndInv(s: State) {
    && s.routed == Answers(s.consumed)
    && (s.reader.Done? && s.reader.outcome != Ended ==> s.closed)
    && (s.reader == Done(Ended) ==> s.eof || s.closed)
    && (s.eof ==> s.reader == Done(Ended))
    && match s.dispatcher
       case Reading => true
       case Leaving(drained) => if drained then s.queue == [] && s.eof else s.closed || s.stopped
       case Waiting(drained) => s.closed && (drained ==> s.queue == [] && s.eof)
       case Exited(code, drained) =>
         && s.reader.Done? && code == ExitCode(s.reader.outcome)
         && (drained ==> s.queue == [] && s.eof)
  }

  ghost predicate Inv(s: State) {
    QueueInv(s) && EndInv(s)
  }

  lemma ConsumeKeeps(s: State, line: Line)
    requires Inv(s) && s.reader == Looping && !s.closed
    ensures Inv(Consume(s, line))
  {
    OneMore(s.consumed, line);
    var c := s.consumed + [line];
    assert c[|c| - 1] == line && c[..|c| - 1] == s.consumed;
    hide Messages, Answers;
    if line.Forwarded? && |s.queue| < QUEUE_CAPACITY {
      assert s.dispatched + (s.queue + [line.message]) == (s.dispatched + s.queue) + [line.message];
    }
  }

  lemma TurnKeeps(s: State)
    requires Inv(s) && Enabled(s, Turn)
    ensures Inv(TurnStep(s))
  {
    hide Messages, Answers;
    if s.queue != [] {
      assert (s.dispatched + [s.queue[0]]) + s.queue[1..] == s.dispatched + s.queue;
    }
  }

  lemma StepKeeps(s: State, e: Event)
    requires Inv(s) && Enabled(s, e)
    ensures Inv(Next(s, e))
  {
    hide Messages, Answers, Consume, TurnStep;
    if e.Turn? {
      TurnKeeps(s);
    } else if e.Round? && !s.stopped && !s.closed {
      if s.probe.Some? { ConsumeKeeps(s, s.probe.value); }
      else if e.polled.Got? { ConsumeKeeps(s, e.polled.line); }
    }
  }

  lemma {:induction false} Always(s: State, es: seq<Event>)
    requires Inv(s) && Run(s, es)
    ensures Inv(End(s, es))
    decreases |es|
  {
    hide Inv, Next, Enabled;
    if es != [] {
      StepKeeps(s, es[0]);
      Always(Next(s, es[0]), es[1..]);
    }
  }

  // ---------------------------------------------------------------- the promises

  /** The lines that a run of the connection was given: the one read before it started and each line that a
      round read while the stream was open and nobody had stopped the host. */
  ghost function GivenLines(s: State, es: seq<Event>): seq<Line>
    requires Run(s, es)
    decreases |es|
  {
    if es == [] then []
    else
      var first := if !es[0].Round? || s.stopped || s.closed then []
                   else if s.probe.Some? then [s.probe.value]
                   else if es[0].polled.Got? then [es[0].polled.line]
                   else [];
      first + GivenLines(Next(s, es[0]), es[1..])
  }

  /** No line is lost on its way in: what was consumed is what the run was given, in order. */
  lemma {:induction false} LinesAreConsumed(s: State, es: seq<Event>)
    requires Run(s, es)
    ensures End(s, es).consumed == s.consumed + GivenLines(s, es)
    decreases |es|
  {
    if es == [] {
      assert s.consumed + [] == s.consumed;
    } else {
      LinesAreConsumed(Next(s, es[0]), es[1..]);
      StepConsumes(s, es[0]);
      hide Next, Enabled;
      Grouped(s.consumed, Next(s, es[0]).consumed[|s.consumed|..], GivenLines(Next(s, es[0]), es[1..]));
    }
  }

  lemma StepConsumes(s: State, e: Event)
    requires Enabled(s, e)
    ensures Next(s, e).consumed ==
            s.consumed + if !e.Round? || s.stopped || s.closed then []
                         else if s.probe.Some? then [s.probe.value]
                         else if e.polled.Got? then [e.polled.line]
                         else []
    ensures s.consumed <= Next(s, e).consumed
  {
    assert s.consumed + [] == s.consumed;
  }

  lemma Grouped(a: seq<Line>, b: seq<Line>, c: seq<Line>)
    ensures (a + b) + c == a + (b + c)
  {
  }

  /** While the stream is open and the host runs, a turn of the dispatcher with work takes the oldest
      message, and one without work leaves only after the end of input. */
  lemma TurnTakesOldest(s: State)
    requires Enabled(s, Turn) && !s.closed && !s.stopped
    ensures var s' := Next(s, Turn);
            if s.queue != [] then s'.queue == s.queue[1..] && s'.dispatched == s.dispatched + [s.queue[0]]
                                  && s'.dispatcher == Reading
            else s'.dispatcher == Leaving(true) && s'.dispatched == s.dispatched
  {
  }

  /** What closes the stream: a writer, the dispatcher on its way out, a read failure, an overflow, and the
      reader when it sees that the host was stopped. */
  lemma StreamCloses(s: State, e: Event)
    requires Enabled(s, e)
    ensures Next(s, e).closed <==>
              || s.closed || e == WriterCloses || e == CloseStream || (s.stopped && (e.Round? || e.Wake?))
              || (e.Round? && Next(s, e).reader.Done? && Next(s, e).reader.outcome != Ended)
    ensures Next(s, e).stopped <==> s.stopped || e == HostStops
  {
  }

  /** Input that is not there yet makes the reader wait, and takes nothing. */
  lemma PendingWaits(s: State)
    requires s.reader == Looping && !s.closed && !s.stopped && s.probe == None
    ensures Next(s, Round(Pending)) == s.(reader := Idle) && Enabled(Next(s, Round(Pending)), Wake)
  {
  }

  /** A reader that waited goes on with the next round, or ends with the stream or the host. */
  lemma WakeGoesOn(s: State)
    requires Enabled(s, Wake)
    ensures var s' := Next(s, Wake);
            && (s'.reader == Looping <==> !s.closed && !s.stopped)
            && (s'.reader == Done(Ended) <==> s.closed || s.stopped) && (s.stopped ==> s'.closed)
            && s' == s.(reader := s'.reader, closed := s.closed || s.stopped)
  {
  }

  /** In every reachable state the dispatched messages are a prefix of what the input forwards, at
      most 64 wait, and every response read so far has been routed, whatever the queue holds. */
  lemma DispatchedInOrder(probe: Option<Line>, es: seq<Event>)
    requires Run(Start(probe), es)
    ensures var s := End(Start(probe), es);
            && s.dispatched <= s.dispatched + s.queue <= Messages(s.consumed)
            && |s.queue| <= QUEUE_CAPACITY && s.routed == Answers(s.consumed)
  {
    Always(Start(probe), es);
    var s := End(Start(probe), es);
    hide Run, End;
    if s.reader == Done(Overflow) {
      var last := |s.consumed| - 1;
      assert s.consumed == s.consumed[..last] + [s.consumed[last]];
      OneMore(s.consumed[..last], s.consumed[last]);
    }
  }

  /** After the end of input a dispatcher that was neither stopped nor closed empties the queue:
      when it leaves, every message of the input has been dispatched. */
  lemma EofDrains(probe: Option<Line>, es: seq<Event>)
    requires Run(Start(probe), es)
    ensures var s := End(Start(probe), es);
            && (s.dispatcher == Leaving(true) || s.dispatcher == Waiting(true) || s.dispatcher == Exited(0, true) ==>
                  s.dispatched == Messages(s.consumed) && s.eof)
            && (s.dispatcher == Leaving(false) ==> s.closed || s.stopped)
            && (s.dispatcher.Exited? && s.dispatcher.drained ==> s.dispatcher.code == 0)
  {
    Always(Start(probe), es);
    var s := End(Start(probe), es);
    hide Run, End;
    assert s.queue == [] ==> s.dispatched + s.queue == s.dispatched;
  }

  /** Leaving the loop undisturbed means that input had ended by itself and all of it was
      dispatched. */
  lemma UndisturbedLeaves(s: State)
    requires Inv(s) && Enabled(s, Turn) && !s.closed && !s.stopped && Next(s, Turn).dispatcher != Reading
    ensures s.eof && s.dispatched == Messages(s.consumed) && Next(s, Turn).dispatcher == Leaving(true)
  {
    assert s.dispatched + s.queue == s.dispatched;
  }

  predicate Quiet(es: seq<Event>) {
    forall k :: 0 <= k < |es| ==> es[k] != HostStops && es[k] != WriterCloses
  }

  /** What holds while nobody stops the host or closes the stream from outside. */
  ghost predicate QuietInv(s: State) {
    && !s.stopped
    && (s.closed ==> (s.reader.Done? && s.reader.outcome != Ended) || s.dispatcher.Waiting? || s.dispatcher.Exited?)
    && (s.dispatcher != Reading && !s.dispatcher.drained ==> s.reader.Done? && s.reader.outcome != Ended)
  }

  lemma {:induction false} QuietAlways(s: State, es: seq<Event>)
    requires Inv(s) && QuietInv(s) && Run(s, es) && Quiet(es)
    ensures QuietInv(End(s, es)) && Inv(End(s, es))
    decreases |es|
  {
    hide Messages, Answers, QueueInv, Consume;
    if es != [] {
      StepKeeps(s, es[0]);
      QuietStep(s, es[0]);
      hide Inv, QuietInv, Next, Enabled;
      assert Quiet(es[1..]) by { assert forall k :: 0 <= k < |es[1..]| ==> es[1..][k] == es[k + 1]; }
      QuietAlways(Next(s, es[0]), es[1..]);
    }
  }

  lemma QuietStep(s: State, e: Event)
    requires Inv(s) && QuietInv(s) && Enabled(s, e) && e != HostStops && e != WriterCloses
    ensures QuietInv(Next(s, e))
  {
    hide Messages, Answers, QueueInv;
  }

  /** Input that ends cleanly, with nobody stopping or closing from outside, is dispatched to the
      last message before the connection exits, and the exit code is 0. */
  lemma CleanEofDrainsAll(probe: Option<Line>, es: seq<Event>)
    requires Run(Start(probe), es) && Quiet(es) && End(Start(probe), es).eof
    ensures var s := End(Start(probe), es);
            s.dispatcher.Exited? ==> s.dispatched == Messages(s.consumed) && s.dispatcher.code == 0
  {
    QuietAlways(Start(probe), es);
    var s := End(Start(probe), es);
    hide Run, End, Messages, Answers;
    assert s.queue == [] ==> s.dispatched + s.queue == s.dispatched;
  }

  /** The exit code is 2 exactly after a read failure or a queue overflow, and 0 otherwise. */
  lemma ExitCodes(probe: Option<Line>, es: seq<Event>)
    requires Run(Start(probe), es) && End(Start(probe), es).dispatcher.Exited?
    ensures var s := End(Start(probe), es);
            s.dispatcher.code == if s.reader == Done(ReadFailed) || s.reader == Done(Overflow) then 2 else 0
  {
    Always(Start(probe), es);
  }

  /** The queue overflows exactly at the 65th waiting message, and then the stream is closed; while
      the dispatcher is alive the receiver is never gone. */
  lemma OverflowExactly(s: State, line: Line)
    requires Inv(s) && s.reader == Looping && !s.closed && !s.stopped && s.probe.None?
    ensures var s' := Next(s, Round(Got(line)));
            && (s'.reader == Done(Overflow) <==> line.Forwarded? && |s.queue| == QUEUE_CAPACITY)
            && (s'.reader == Done(Overflow) ==> s'.closed && s'.queue == s.queue)
            && (s'.reader != Done(Overflow) ==> s'.reader == Looping)
  {
    hide Messages, Answers;
  }

  // ---------------------------------------------------------------- the connection object

  class Connection {
    var probe: Option<Line>
    ghost var consumed: seq<Line>
    ghost var eof: bool
    var routed: seq<nat>
    var queue: seq<Message>
    var dispatched: seq<Message>
    var closed: bool
    var stopped: bool
    var reader: Reader
    var dispatcher: Dispatcher

    ghost function Abstract(): State
      reads this
    {
      State(probe, consumed, eof, routed, queue, dispatched, closed, stopped, reader, dispatcher)
    }

    constructor (first: Option<Line>)
      ensures Abstract() == Start(first) && Inv(Abstract())
    {
      probe := first;
      consumed, eof, routed, queue, dispatched := [], false, [], [], [];
      closed, stopped, reader, dispatcher := false, false, Looping, Reading;
    }

    /** One round of the ingress loop, up to its next await. */
    method IngressRound(polled: Polled)
      requires Inv(Abstract()) && Enabled(Abstract(), Round(polled))
      modifies this
      ensures Abstract() == RoundStep(old(Abstract()), polled) && Inv(Abstract())
    {
      StepKeeps(Abstract(), Round(polled));
      hide Inv, Consume;
      if stopped || closed {
        closed := true;
        reader := Done(Ended);
        return;
      }
      if probe.Some? {
        ConsumeLine(probe.value);
        return;
      }
      match polled {
        case Eof =>
          eof := true;
          reader := Done(Ended);
        case Pending =>
          reader := Idle;
        case ReadError =>
          closed := true;
          reader := Done(ReadFailed);
        case Got(line) =>
          ConsumeLine(line);
      }
    }

    method ConsumeLine(line: Line)
      modifies this
      ensures Abstract() == Consume(old(Abstract()), line)
    {
      probe := None;
      consumed := consumed + [line];
      match line {
        case Blank =>
        case Dropped =>
        case Response(id) =>
          if id.Some? { routed := routed + [id.value]; }
        case Forwarded(m) =>
          if dispatcher.Exited? {
            reader := Done(Ended);
          } else if |queue| >= 64 {
            closed := true;
            reader := Done(Overflow);
          } else {
            queue := queue + [m];
          }
      }
    }

    /** One turn of the dispatch loop: take the next message or leave. */
    method DispatchTurn() returns (next: Option<Message>)
      requires Inv(Abstract()) && Enabled(Abstract(), Turn)
      modifies this
      ensures Abstract() == TurnStep(old(Abstract())) && Inv(Abstract())
      ensures next.Some? ==> dispatched == old(dispatched) + [next.value]
      ensures next.None? ==> dispatched == old(dispatched) && dispatcher != Reading
    {
      StepKeeps(Abstract(), Turn);
      hide Inv;
      next := None;
      if closed {
        dispatcher := Leaving(false);
        return;
      }
      if stopped {
        dispatcher := Leaving(false);
        return;
      }
      if queue != [] {
        next := Some(queue[0]);
        dispatched := dispatched + [queue[0]];
        queue := queue[1..];
      } else {
        dispatcher := Leaving(true);
      }
    }
  }
}
