/** The protocol around the output stream: any number of writers, the output mutex, the sticky
    closed flag, and futures that may be dropped or fail at any byte. Every event is one
    indivisible action of one task, and any enabled event may come next.
 */
module WriterStream {
  import opened Wrappers
  import opened RequestTable

  /** Where a writing task is. A request also waits for its response and then drops its guard. */
  datatype Phase =
    | Starting                // a request without an id
    | Numbered                // it has an id
    | Queued                  // waits for the output mutex
    | Checking                // holds the mutex, has not looked at the closed flag
    | Emitting(count: nat)    // so many bytes of the frame are out
    | Abandoning              // the frame's guard is dropped incomplete: it is about to close
    | Leaving                 // the guard is gone, the mutex still held
    | Awaiting                // waits for the response
    | Retiring                // the request's guard is about to be dropped
    | Over

  datatype Job = Job(line: string, request: bool, limit: Option<nat>, id: Option<Id>, phase: Phase, sent: bool,
                     result: Option<Response>)

  /** `frames` records who finished a frame, `torn` whose frame was left incomplete. */
  datatype State = State(jobs: map<Task, Job>, lock: Option<Task>, out: string, frames: seq<Task>, torn: Option<Task>,
                         table: Table, delivered: map<Id, Response>)

  datatype Event =
    | Spawn(t: Task, line: string, request: bool, limit: Option<nat>)
    | TakeId(t: Task)
    | AskAdmission(t: Task)
    | Acquire(t: Task)
    | Check(t: Task)
    | Emit(t: Task, count: nat)
    | Finish(t: Task)
    | Break(t: Task)
    | CloseInDrop(t: Task)
    | Release(t: Task)
    | Drop(t: Task)
    | Receive(t: Task)
    | Retire(t: Task)
    | Close
    | Resolve(id: Id, response: Response)

  /** One line of output: its only line break is its last byte. */
  predicate Frame(line: string) {
    line != "" && line[|line| - 1] == '\n' && '\n' !in line[..|line| - 1]
  }

  predicate In(s: State, t: Task, phase: Phase) {
    t in s.jobs && s.jobs[t].phase == phase
  }

  predicate Enabled(s: State, e: Event) {
    match e
    case Spawn(t, line, _, _) => t !in s.jobs && Frame(line)
    case TakeId(t) => In(s, t, Starting)
    case AskAdmission(t) => In(s, t, Numbered) && s.jobs[t].id.Some?
    case Acquire(t) => In(s, t, Queued) && s.lock == None
    case Check(t) => In(s, t, Checking)
    case Emit(t, n) =>
      t in s.jobs && s.jobs[t].phase.Emitting? && 0 < n && s.jobs[t].phase.count + n <= |s.jobs[t].line|
    case Finish(t) => t in s.jobs && s.jobs[t].phase == Emitting(|s.jobs[t].line|)
    case Break(t) => t in s.jobs && s.jobs[t].phase.Emitting?
    case CloseInDrop(t) => In(s, t, Abandoning)
    case Release(t) => In(s, t, Leaving)
    case Drop(t) => In(s, t, Queued) || In(s, t, Awaiting)
    case Receive(t) => In(s, t, Awaiting) && s.jobs[t].id.Some? &&
      (s.jobs[t].id.value in s.delivered || s.jobs[t].id.value !in s.table.pending)
    case Retire(t) => In(s, t, Retiring) && s.jobs[t].id.Some?
    case Close => true
    case Resolve(_, _) => true
  }

  function Moved(s: State, t: Task, phase: Phase): map<Task, Job>
    requires t in s.jobs
  {
    s.jobs[t := s.jobs[t].(phase := phase)]
  }

  /** After the write, a request waits if its frame is out; otherwise the call returns. */
  function AfterWrite(j: Job): Phase {
    if !j.request then Over else if j.sent then Awaiting else Retiring
  }

  function Next(s: State, e: Event): State
    requires Enabled(s, e)
  {
    match e
    case Spawn(t, line, request, limit) =>
      s.(jobs := s.jobs[t := Job(line, request, limit, None, if request then Starting else Queued, false, None)])
    case TakeId(t) =>
      s.(jobs := s.jobs[t := s.jobs[t].(id := Some(s.table.next), phase := Numbered)],
         table := s.table.(next := s.table.next + 1))
    case AskAdmission(t) =>
      var v := Verdict(s.table);
      if v == Admitted then
        s.(jobs := Moved(s, t, Queued), table := Admit(s.table, s.jobs[t].id.value, Entry(t, s.jobs[t].limit)))
      else
        s.(jobs := s.jobs[t := s.jobs[t].(phase := Over, result := Some(Failed(v.why)))])
    case Acquire(t) => s.(jobs := Moved(s, t, Checking), lock := Some(t))
    case Check(t) => s.(jobs := Moved(s, t, if s.table.closed then Abandoning else Emitting(0)))
    case Emit(t, n) =>
      var k := s.jobs[t].phase.count;
      s.(jobs := Moved(s, t, Emitting(k + n)), out := s.out + s.jobs[t].line[k..k + n])
    case Finish(t) => s.(jobs := s.jobs[t := s.jobs[t].(phase := Leaving, sent := true)], frames := s.frames + [t])
    case Break(t) => s.(jobs := Moved(s, t, Abandoning), torn := Some(t))
    case CloseInDrop(t) => s.(jobs := Moved(s, t, Leaving), table := Closed(s.table))
    case Release(t) => s.(jobs := Moved(s, t, AfterWrite(s.jobs[t])), lock := None)
    case Drop(t) => s.(jobs := Moved(s, t, if s.jobs[t].request then Retiring else Over))
    case Receive(t) =>
      var id := s.jobs[t].id.value;
      var r := if id in s.delivered then s.delivered[id] else Failed(Disconnected);
      s.(jobs := s.jobs[t := s.jobs[t].(phase := Retiring, result := Some(r))])
    case Retire(t) => s.(jobs := Moved(s, t, Over), table := Without(s.table, s.jobs[t].id.value))
    case Close => s.(table := Closed(s.table))
    case Resolve(id, response) =>
      var d := Delivery(s.table, id, response);
      s.(table := Without(s.table, id), delivered := if d.Some? then s.delivered[id := d.value] else s.delivered)
  }

  function Start(): State {
    State(map[], None, "", [], None, Table(map[], false, 1), map[])
  }

  ghost predicate Run(s: State, es: seq<Event>)
    decreases |es|
  {
    es == [] || (Enabled(s, es[0]) && Run(Next(s, es[0]), es[1..]))
  }

  ghost function End(s: State, es: seq<Event>): State
    requires Run(s, es)
    decreases |es|
  {
    if es == [] then s else End(Next(s, es[0]), es[1..])
  }

  // ---------------------------------------------------------------- the output invariant

  predicate Holds(p: Phase) {
    p.Checking? || p.Emitting? || p.Abandoning? || p.Leaving?
  }

  ghost predicate LockInv(s: State) {
    && (forall t :: t in s.jobs ==> (Holds(s.jobs[t].phase) <==> s.lock == Some(t)))
    && (s.lock.Some? ==> s.lock.value in s.jobs)
  }

  function Whole(jobs: map<Task, Job>, frames: seq<Task>): string
    requires forall t :: t in frames ==> t in jobs
  {
    if frames == [] then "" else Whole(jobs, frames[..|frames| - 1]) + jobs[frames[|frames| - 1]].line
  }

  ghost predicate FramesInv(s: State) {
    && (forall t :: t in s.frames ==> t in s.jobs)
    && (forall t :: t in s.jobs ==> Frame(s.jobs[t].line) && (s.jobs[t].sent <==> t in s.frames))
    && (forall i, j :: 0 <= i < j < |s.frames| ==> s.frames[i] != s.frames[j])
    && (forall t :: t in s.jobs && s.jobs[t].sent ==>
          s.jobs[t].phase in {Leaving, Awaiting, Retiring, Over})
  }

  /** The bytes behind the last finished frame. */
  function Tail(s: State): string
    requires (forall t :: t in s.frames ==> t in s.jobs) && Whole(s.jobs, s.frames) <= s.out
  {
    s.out[|Whole(s.jobs, s.frames)|..]
  }

  predicate Midway(s: State) {
    s.lock.Some? && s.lock.value in s.jobs && s.jobs[s.lock.value].phase.Emitting?
  }

  ghost predicate TornInv(s: State) {
    match s.torn
    case None => true
    case Some(u) =>
      && u in s.jobs && !s.jobs[u].sent && s.jobs[u].phase in {Abandoning, Leaving, Retiring, Over}
      && (s.table.closed || In(s, u, Abandoning))
  }

  ghost predicate TailInv(s: State) {
    && (forall t :: t in s.frames ==> t in s.jobs) && Whole(s.jobs, s.frames) <= s.out
    && if Midway(s) then
         var j := s.jobs[s.lock.value];
         s.torn == None && j.phase.count <= |j.line| && Tail(s) == j.line[..j.phase.count]
       else if s.torn.Some? then s.torn.value in s.jobs && Tail(s) <= s.jobs[s.torn.value].line
       else Tail(s) == ""
  }

  ghost predicate OutInv(s: State) {
    LockInv(s) && FramesInv(s) && TornInv(s) && TailInv(s)
  }

  lemma {:induction false} WholeSame(a: map<Task, Job>, b: map<Task, Job>, frames: seq<Task>)
    requires forall t :: t in frames ==> t in a && t in b && a[t].line == b[t].line
    ensures Whole(a, frames) == Whole(b, frames)
    decreases |frames|
  {
    if frames != [] { WholeSame(a, b, frames[..|frames| - 1]); }
  }

  lemma WholeMore(jobs: map<Task, Job>, frames: seq<Task>, t: Task)
    requires t in jobs && forall u :: u in frames ==> u in jobs
    ensures Whole(jobs, frames + [t]) == Whole(jobs, frames) + jobs[t].line
  {
    assert (frames + [t])[..|frames|] == frames;
  }

  /** The jobs of `b` are those of `a` with one job changed, whose line stays. */
  ghost predicate OneChanged(a: State, b: State, t: Task) {
    t in b.jobs && b.jobs.Keys == a.jobs.Keys + {t} &&
    (forall u :: u in a.jobs && u != t ==> b.jobs[u] == a.jobs[u]) &&
    (t in a.jobs ==> b.jobs[t].line == a.jobs[t].line)
  }

  function Who(e: Event): Option<Task> {
    match e
    case Close => None
    case Resolve(_, _) => None
    case _ => Some(e.t)
  }

  lemma StepChangesOne(s: State, e: Event)
    requires Enabled(s, e)
    ensures Who(e).Some? ==> OneChanged(s, Next(s, e), Who(e).value)
    ensures Who(e).None? ==> Next(s, e).jobs == s.jobs && Next(s, e).lock == s.lock
  {
    if Who(e).Some? {
      var t := Who(e).value;
      assert Next(s, e).jobs == s.jobs[t := Next(s, e).jobs[t]];
    }
  }

  lemma LockKept(s: State, e: Event)
    requires Enabled(s, e) && LockInv(s)
    ensures LockInv(Next(s, e))
  {
    hide Admit, Verdict, Closed, Without, Delivery, Frame;
  }

  lemma FramesKept(s: State, e: Event)
    requires Enabled(s, e) && FramesInv(s)
    ensures FramesInv(Next(s, e))
  {
    hide Admit, Verdict, Closed, Without, Delivery, Frame;
    if e.Finish? {
      FrameAdded(s, e.t);
    }
  }

  lemma FrameAdded(s: State, t: Task)
    requires Enabled(s, Finish(t)) && FramesInv(s)
    ensures FramesInv(Next(s, Finish(t)))
  {
    hide Frame;
    var s' := Next(s, Finish(t));
    assert t !in s.frames;
    forall i, j | 0 <= i < j < |s'.frames| ensures s'.frames[i] != s'.frames[j] {
      if j == |s.frames| { assert s'.frames[i] in s.frames; }
    }
  }

  lemma TornKept(s: State, e: Event)
    requires Enabled(s, e) && TornInv(s) && FramesInv(s)
    ensures TornInv(Next(s, e))
  {
    hide Verdict, Delivery, Frame;
  }

  lemma TailSpawned(s: State, e: Event)
    requires Enabled(s, e) && OutInv(s) && e.Spawn?
    ensures TailInv(Next(s, e))
  {
    hide Frame;
    var s' := Next(s, e);
    WholeSame(s.jobs, s'.jobs, s.frames);
    hide Whole;
  }

  lemma TailChecked(s: State, e: Event)
    requires Enabled(s, e) && OutInv(s) && e.Check?
    ensures TailInv(Next(s, e))
  {
    hide Frame;
    WholeSame(s.jobs, Next(s, e).jobs, s.frames);
    hide Whole;
  }

  lemma TailEmitted(s: State, e: Event)
    requires Enabled(s, e) && OutInv(s) && e.Emit?
    ensures TailInv(Next(s, e))
  {
    hide Frame;
    WholeSame(s.jobs, Next(s, e).jobs, s.frames);
    hide Whole;
    var j := s.jobs[e.t];
    var k := j.phase.count;
    assert Midway(s) && s.lock == Some(e.t);
    assert j.line[..k + e.count] == j.line[..k] + j.line[k..k + e.count];
  }

  lemma TailFinished(s: State, e: Event)
    requires Enabled(s, e) && OutInv(s) && e.Finish?
    ensures TailInv(Next(s, e))
  {
    hide Frame;
    var s' := Next(s, e);
    WholeSame(s.jobs, s'.jobs, s.frames);
    WholeMore(s'.jobs, s.frames, e.t);
    hide Whole;
    assert Midway(s) && s.lock == Some(e.t);
    assert Tail(s) == s.jobs[e.t].line;
  }

  lemma TailBroken(s: State, e: Event)
    requires Enabled(s, e) && OutInv(s) && e.Break?
    ensures TailInv(Next(s, e))
  {
    hide Frame;
    WholeSame(s.jobs, Next(s, e).jobs, s.frames);
    hide Whole;
    assert Midway(s) && s.lock == Some(e.t);
  }

  /** The other events touch neither the output nor a task in the middle of its frame. */
  lemma TailUntouched(s: State, e: Event)
    requires Enabled(s, e) && OutInv(s)
    requires !(e.Spawn? || e.Check? || e.Emit? || e.Finish? || e.Break?)
    ensures var s' := Next(s, e);
            && s'.out == s.out && s'.frames == s.frames && s'.torn == s.torn && s'.jobs.Keys == s.jobs.Keys
            && (forall t :: t in s.jobs ==> s'.jobs[t].line == s.jobs[t].line)
            && (Midway(s') <==> Midway(s))
            && (Midway(s) ==> s'.lock == s.lock && s'.jobs[s.lock.value] == s.jobs[s.lock.value])
  {
    hide Admit, Verdict, Closed, Without, Delivery, Frame, Whole, TailInv, TornInv, FramesInv;
    StepChangesOne(s, e);
  }

  lemma TailSame(s: State, s': State)
    requires TailInv(s) && s'.out == s.out && s'.frames == s.frames && s'.torn == s.torn && s'.jobs.Keys == s.jobs.Keys
    requires forall t :: t in s.jobs ==> s'.jobs[t].line == s.jobs[t].line
    requires (Midway(s') <==> Midway(s)) &&
             (Midway(s) ==> s'.lock == s.lock && s'.jobs[s.lock.value] == s.jobs[s.lock.value])
    ensures TailInv(s')
  {
    WholeSame(s.jobs, s'.jobs, s.frames);
    hide Whole, Midway;
  }

  lemma TailKept(s: State, e: Event)
    requires Enabled(s, e) && OutInv(s)
    ensures TailInv(Next(s, e))
  {
    hide *;
    if e.Spawn? { TailSpawned(s, e); }
    else if e.Check? { TailChecked(s, e); }
    else if e.Emit? { TailEmitted(s, e); }
    else if e.Finish? { TailFinished(s, e); }
    else if e.Break? { TailBroken(s, e); }
    else {
      OutParts(s);
      TailUntouched(s, e);
      TailSame(s, Next(s, e));
    }
  }

  lemma OutKept(s: State, e: Event)
    requires Enabled(s, e) && OutInv(s)
    ensures OutInv(Next(s, e))
  {
    hide *;
    OutParts(s);
    LockKept(s, e);
    FramesKept(s, e);
    TornKept(s, e);
    TailKept(s, e);
    OutWhole(Next(s, e));
  }

  lemma OutParts(s: State)
    requires OutInv(s)
    ensures LockInv(s) && FramesInv(s) && TornInv(s) && TailInv(s)
  {
    hide LockInv, FramesInv, TornInv, TailInv;
  }

  lemma OutWhole(s: State)
    requires LockInv(s) && FramesInv(s) && TornInv(s) && TailInv(s)
    ensures OutInv(s)
  {
    hide LockInv, FramesInv, TornInv, TailInv;
  }

  /** Whatever the interleaving, failures, drops and closes: the output is the whole frames of
      different tasks, then at most one piece of a frame that was not finished. */
  lemma {:induction false} OutAlways(s: State, es: seq<Event>)
    requires OutInv(s) && Run(s, es)
    ensures OutInv(End(s, es))
    decreases |es|
  {
    hide OutInv, Next, Enabled;
    if es != [] {
      OutKept(s, es[0]);
      OutAlways(Next(s, es[0]), es[1..]);
    }
  }

  lemma StartIsGood()
    ensures OutInv(Start()) && RequestInv(Start())
  {
  }

  lemma TornStep(s: State, e: Event)
    requires OutInv(s) && s.torn.Some? && Enabled(s, e)
    ensures Next(s, e).out == s.out && Next(s, e).frames == s.frames && Next(s, e).torn == s.torn
  {
    hide Admit, Verdict, Closed, Without, Delivery, Frame, Whole;
    MidwayActs(s, e);
  }

  /** Only the task in the middle of its frame can write, finish or break it. */
  lemma MidwayActs(s: State, e: Event)
    requires Enabled(s, e) && LockInv(s)
    ensures e.Emit? || e.Finish? || e.Break? ==> Midway(s) && s.lock == Some(e.t)
  {
  }

  /** Once a frame is left incomplete, no byte is ever written again. */
  lemma {:induction false} NothingFollows(s: State, es: seq<Event>)
    requires OutInv(s) && s.torn.Some? && Run(s, es)
    ensures End(s, es).out == s.out && End(s, es).frames == s.frames
    decreases |es|
  {
    hide OutInv, Next, Enabled;
    if es != [] {
      OutKept(s, es[0]);
      TornStep(s, es[0]);
      NothingFollows(Next(s, es[0]), es[1..]);
    }
  }

  /** The stream is closed before the mutex is free again. */
  lemma ClosedBeforeReleased(s: State)
    requires OutInv(s) && s.torn.Some? && !In(s, s.torn.value, Abandoning)
    ensures s.table.closed
  {
    hide Whole;
  }

  lemma ClosedStep(s: State, e: Event)
    requires OutInv(s) && s.table.closed && !Midway(s) && Enabled(s, e)
    ensures var s' := Next(s, e); s'.out == s.out && s'.table.closed && !Midway(s')
  {
    hide Frame, Whole, TailInv, TornInv, FramesInv, Delivery;
    MidwayActs(s, e);
  }

  /** Closing is sticky, and silences every task that is not in the middle of a frame. */
  lemma {:induction false} ClosedIsFinal(s: State, es: seq<Event>)
    requires OutInv(s) && s.table.closed && !Midway(s) && Run(s, es)
    ensures End(s, es).out == s.out && End(s, es).table.closed
    decreases |es|
  {
    hide OutInv, Next, Enabled, Midway;
    if es != [] {
      OutKept(s, es[0]);
      ClosedStep(s, es[0]);
      ClosedIsFinal(Next(s, es[0]), es[1..]);
    }
  }

  // ---------------------------------------------------------------- what the client reads

  /** The complete lines of a text, each with its line break. */
  function Lines(x: string): seq<string> {
    if '\n' !in x then []
    else
      var k := Break(x);
      [x[..k + 1]] + Lines(x[k + 1..])
  }

  function Break(x: string): (k: nat)
    requires '\n' in x
    ensures k < |x| && x[k] == '\n' && '\n' !in x[..k]
  {
    if x[0] == '\n' then 0 else 1 + Break(x[1..])
  }

  lemma {:induction false} BreakAt(x: string, n: nat)
    requires n < |x| && x[n] == '\n' && '\n' !in x[..n]
    ensures Break(x) == n
    decreases n
  {
    if n > 0 {
      assert x[0] == x[..n][0] && x[1..][..n - 1] == x[..n][1..];
      BreakAt(x[1..], n - 1);
    }
  }

  lemma FirstLine(line: string, rest: string)
    requires Frame(line)
    ensures Lines(line + rest) == [line] + Lines(rest)
  {
    var x := line + rest;
    var n := |line| - 1;
    assert x[n] == '\n' && x[..n] == line[..n];
    BreakAt(x, n);
    hide Break;
    assert x[..n + 1] == line && x[n + 1..] == rest;
  }

  /** A text that ends with a line break begins with a frame. */
  lemma TakeLine(a: string) returns (line: string, rest: string)
    requires a != "" && a[|a| - 1] == '\n'
    ensures Frame(line) && a == line + rest && |rest| < |a|
    ensures rest == "" || rest[|rest| - 1] == '\n'
  {
    assert '\n' in a;
    var k := Break(a);
    line, rest := a[..k + 1], a[k + 1..];
    assert line[..|line| - 1] == a[..k];
  }

  lemma {:induction false} LinesAppend(a: string, b: string)
    requires a == "" || a[|a| - 1] == '\n'
    ensures Lines(a + b) == Lines(a) + Lines(b)
    decreases |a|
  {
    hide Lines, Frame;
    if a == "" {
      NoLines("");
      assert a + b == b;
    } else {
      var line, rest := TakeLine(a);
      assert a + b == line + (rest + b);
      FirstLine(line, rest + b);
      FirstLine(line, rest);
      LinesAppend(rest, b);
    }
  }

  function Texts(jobs: map<Task, Job>, ts: seq<Task>): seq<string>
    requires forall t :: t in ts ==> t in jobs
  {
    if ts == [] then [] else Texts(jobs, ts[..|ts| - 1]) + [jobs[ts[|ts| - 1]].line]
  }

  lemma {:induction false} WholeLines(jobs: map<Task, Job>, ts: seq<Task>)
    requires forall t :: t in ts ==> t in jobs && Frame(jobs[t].line)
    ensures Lines(Whole(jobs, ts)) == Texts(jobs, ts)
    ensures Whole(jobs, ts) == "" || Whole(jobs, ts)[|Whole(jobs, ts)| - 1] == '\n'
    decreases |ts|
  {
    hide Lines, Break, Frame;
    if ts == [] {
      NoLines("");
    } else {
      var front, line := ts[..|ts| - 1], jobs[ts[|ts| - 1]].line;
      WholeLines(jobs, front);
      LinesAppend(Whole(jobs, front), line);
      OneLine(line);
    }
  }

  lemma OneLine(line: string)
    requires Frame(line)
    ensures Lines(line) == [line] && line[|line| - 1] == '\n' && line != ""
  {
    FirstLine(line, "");
    assert line + "" == line;
    NoLines("");
  }

  lemma NoLines(x: string)
    requires '\n' !in x
    ensures Lines(x) == []
  {
  }

  lemma PrefixLines(tail: string, line: string)
    requires tail <= line && Frame(line)
    ensures Lines(tail) == if tail == line then [line] else []
  {
    if tail == line {
      FirstLine(line, "");
      assert line + "" == line;
      NoLines("");
    } else {
      assert tail <= line[..|line| - 1];
      NoLines(tail);
    }
  }

  /** Whose frame the bytes behind the finished frames belong to. */
  function TailOwner(s: State): Option<Task> {
    if Midway(s) then s.lock else s.torn
  }

  /** A client that splits the output at line breaks reads only whole frames, one per task: the
      finished ones in order, and perhaps one more whose write did not report success. */
  lemma ClientReadsFrames(s: State) returns (ts: seq<Task>)
    requires OutInv(s)
    ensures ts == s.frames ||
            (TailOwner(s).Some? && TailOwner(s).value !in s.frames && ts == s.frames + [TailOwner(s).value])
    ensures forall t :: t in ts ==> t in s.jobs
    ensures Lines(s.out) == Texts(s.jobs, ts)
  {
    OutParts(s);
    var tail := TailFacts(s);
    hide *;
    WholeLines(s.jobs, s.frames);
    LinesAppend(Whole(s.jobs, s.frames), tail);
    ts := s.frames;
    if TailOwner(s).Some? {
      var u := TailOwner(s).value;
      PrefixLines(tail, s.jobs[u].line);
      if tail == s.jobs[u].line {
        ts := s.frames + [u];
        TextsMore(s.jobs, s.frames, u);
      }
    } else {
      NoLines("");
    }
  }

  lemma TailFacts(s: State) returns (tail: string)
    requires OutInv(s)
    ensures forall t :: t in s.frames ==> t in s.jobs && Frame(s.jobs[t].line)
    ensures s.out == Whole(s.jobs, s.frames) + tail
    ensures Whole(s.jobs, s.frames) == "" || Whole(s.jobs, s.frames)[|Whole(s.jobs, s.frames)| - 1] == '\n'
    ensures match TailOwner(s)
            case None => tail == ""
            case Some(u) => u in s.jobs && u !in s.frames && Frame(s.jobs[u].line) && tail <= s.jobs[u].line
  {
    hide Lines, Frame;
    OutParts(s);
    WholeLines(s.jobs, s.frames);
    hide Whole;
    tail := Tail(s);
  }

  lemma TextsMore(jobs: map<Task, Job>, ts: seq<Task>, t: Task)
    requires t in jobs && forall u :: u in ts ==> u in jobs
    ensures Texts(jobs, ts + [t]) == Texts(jobs, ts) + [jobs[t].line]
  {
    assert (ts + [t])[..|ts|] == ts;
  }

  // ---------------------------------------------------------------- requests

  predicate Live(p: Phase) {
    p == Queued || Holds(p) || p == Awaiting || p == Retiring
  }

  /** The job's own id, and where its phase says it can be. */
  ghost predicate IdInv(s: State) {
    && (forall t :: t in s.jobs ==>
          var j := s.jobs[t];
          && (j.id.Some? <==> j.request && j.phase != Starting)
          && (!j.request ==> j.phase == Queued || Holds(j.phase) || j.phase == Over)
          && (j.id.Some? ==> j.id.value < s.table.next))
    && (forall t, u :: t in s.jobs && u in s.jobs && t != u && s.jobs[t].id.Some? ==> s.jobs[t].id != s.jobs[u].id)
  }

  ghost predicate EntryInv(s: State) {
    && Bounded(s.table)
    && forall id :: id in s.table.pending ==>
         var e := s.table.pending[id];
         e.waiter in s.jobs && s.jobs[e.waiter].id == Some(id) && s.jobs[e.waiter].limit == e.limit &&
         Live(s.jobs[e.waiter].phase)
  }

  ghost predicate DeliveryInv(s: State) {
    && (forall id :: id in s.delivered ==> id < s.table.next && id !in s.table.pending)
    && (forall t :: t in s.jobs && s.jobs[t].id.Some? && s.jobs[t].phase == Numbered ==>
          s.jobs[t].id.value !in s.delivered)
  }

  /** A request that waits is in the table, or has its answer, or the stream is closed. */
  ghost predicate SettledInv(s: State) {
    forall t :: t in s.jobs && s.jobs[t].id.Some? && Live(s.jobs[t].phase) && s.jobs[t].phase != Retiring ==>
      var id := s.jobs[t].id.value;
      id in s.table.pending || id in s.delivered || s.table.closed
  }

  ghost predicate RequestInv(s: State) {
    IdInv(s) && EntryInv(s) && DeliveryInv(s) && SettledInv(s)
  }

  lemma IdKept(s: State, e: Event)
    requires Enabled(s, e) && IdInv(s) && FramesInv(s)
    ensures IdInv(Next(s, e))
  {
    hide Verdict, Delivery, Frame, Whole;
    if Who(e).Some? {
      StepChangesOne(s, e);
      if e.TakeId? { TakeIdKept(s, e); } else { IdSame(s, e); }
    }
  }

  lemma TakeIdKept(s: State, e: Event)
    requires Enabled(s, e) && IdInv(s) && e.TakeId?
    ensures IdInv(Next(s, e))
  {
  }

  lemma IdSame(s: State, e: Event)
    requires Enabled(s, e) && IdInv(s) && FramesInv(s) && Who(e).Some? && !e.TakeId?
    ensures IdInv(Next(s, e))
  {
    hide FramesInv, Next, Enabled, IdInv, Holds;
    StepChangesOne(s, e);
    JobKept(s, e);
    SameNext(s, e);
    IdOneChanged(s, Next(s, e), e.t);
  }

  lemma SameNext(s: State, e: Event)
    requires Enabled(s, e) && !e.TakeId?
    ensures Next(s, e).table.next == s.table.next
    ensures e.Spawn? ==> e.t !in s.jobs
    ensures Who(e).Some? && !e.Spawn? ==> e.t in s.jobs
  {
    hide Frame, Verdict, Delivery, Whole;
  }

  lemma IdOneChanged(s: State, s': State, t: Task)
    requires IdInv(s) && OneChanged(s, s', t) && s'.table.next == s.table.next
    requires var j := s'.jobs[t];
             && (j.id.Some? <==> j.request && j.phase != Starting)
             && (!j.request ==> j.phase == Queued || Holds(j.phase) || j.phase == Over)
             && (if t in s.jobs then j.id == s.jobs[t].id else j.id == None)
    ensures IdInv(s')
  {
    hide Holds;
  }

  /** What an event of a task does to that task, apart from taking an id. */
  lemma JobKept(s: State, e: Event)
    requires Enabled(s, e) && IdInv(s) && Who(e).Some? && !e.TakeId?
    ensures var j := Next(s, e).jobs[e.t];
            && (j.id.Some? <==> j.request && j.phase != Starting)
            && (!j.request ==> j.phase == Queued || Holds(j.phase) || j.phase == Over)
            && (e.Spawn? ==> j.id == None)
            && (!e.Spawn? ==> j.id == s.jobs[e.t].id && j.request == s.jobs[e.t].request &&
                              j.limit == s.jobs[e.t].limit)
  {
    hide Verdict, Delivery, Frame, Whole, Admit, Without, Closed;
  }

  lemma EntrySame(s: State, s': State, t: Task)
    requires EntryInv(s) && Bounded(s'.table) && t in s'.jobs
    requires s'.table.pending.Keys <= s.table.pending.Keys
    requires forall id :: id in s'.table.pending ==> s'.table.pending[id] == s.table.pending[id]
    requires forall u :: u in s.jobs && u != t ==> u in s'.jobs && s'.jobs[u] == s.jobs[u]
    requires t in s.jobs ==> s'.jobs[t].id == s.jobs[t].id && s'.jobs[t].limit == s.jobs[t].limit
    requires t in s.jobs && !Live(s'.jobs[t].phase) ==> s.jobs[t].id.None? || s.jobs[t].id.value !in s'.table.pending
    ensures EntryInv(s')
  {
    hide Bounded, Live;
  }

  lemma EntryKept(s: State, e: Event)
    requires Enabled(s, e) && IdInv(s) && EntryInv(s)
    ensures EntryInv(Next(s, e))
  {
    if e.TakeId? { TakeIdEntry(s, e); }
    else if e.AskAdmission? { AdmitEntry(s, e); }
    else if e.Resolve? { WithoutKeeps(s.table, e.id); }
    else if Who(e).Some? { JobEntry(s, e); }
  }

  lemma TakeIdEntry(s: State, e: Event)
    requires Enabled(s, e) && IdInv(s) && EntryInv(s) && e.TakeId?
    ensures EntryInv(Next(s, e))
  {
  }

  lemma AdmitEntry(s: State, e: Event)
    requires Enabled(s, e) && IdInv(s) && EntryInv(s) && e.AskAdmission?
    ensures EntryInv(Next(s, e))
  {
    AdmitKeeps(s.table, s.jobs[e.t].id.value, Entry(e.t, s.jobs[e.t].limit));
    AdmissionIs(s, e.t);
    hide Bounded, Next, Admit, Verdict, IdInv;
    assert Live(Queued);
  }

  lemma JobEntry(s: State, e: Event)
    requires Enabled(s, e) && IdInv(s) && EntryInv(s) && Who(e).Some? && !e.TakeId? && !e.AskAdmission?
    ensures EntryInv(Next(s, e))
  {
    StepChangesOne(s, e);
    JobKept(s, e);
    JobTable(s, e);
    hide Next, Enabled, IdInv, Bounded, Live, EntryInv;
    EntrySame(s, Next(s, e), e.t);
  }

  lemma JobTable(s: State, e: Event)
    requires Enabled(s, e) && IdInv(s) && EntryInv(s) && Who(e).Some? && !e.TakeId? && !e.AskAdmission?
    ensures var s' := Next(s, e);
            && Bounded(s'.table) && s'.table.pending.Keys <= s.table.pending.Keys
            && (forall id :: id in s'.table.pending ==> s'.table.pending[id] == s.table.pending[id])
            && (e.t in s.jobs && !Live(s'.jobs[e.t].phase) ==>
               s.jobs[e.t].id.None? || s.jobs[e.t].id.value !in s'.table.pending)
  {
    hide Frame, Whole, Verdict, Delivery, Admit;
    if e.Retire? { WithoutKeeps(s.table, s.jobs[e.t].id.value); }
  }

  lemma DeliveryKept(s: State, e: Event)
    requires Enabled(s, e) && IdInv(s) && EntryInv(s) && DeliveryInv(s)
    ensures DeliveryInv(Next(s, e))
  {
    hide *;
    if e.TakeId? { TakeIdDelivery(s, e); }
    else if e.AskAdmission? { AdmitDelivery(s, e); }
    else if e.Resolve? { ResolveDelivery(s, e); }
    else if e.Close? { CloseKept(s); }
    else { JobDeliveryKept(s, e); }
  }

  lemma CloseKept(s: State)
    requires DeliveryInv(s)
    ensures Enabled(s, Close) && DeliveryInv(Next(s, Close)) && SettledInv(Next(s, Close))
  {
  }

  lemma JobDeliveryKept(s: State, e: Event)
    requires Enabled(s, e) && IdInv(s) && EntryInv(s) && DeliveryInv(s)
    requires !e.TakeId? && !e.AskAdmission? && !e.Resolve? && !e.Close?
    ensures DeliveryInv(Next(s, e))
  {
    hide *;
    OwnEvent(e);
    StepChangesOne(s, e);
    JobKept(s, e);
    JobTable(s, e);
    JobDelivery(s, e);
    DeliverySame(s, Next(s, e), e.t);
  }

  lemma OwnEvent(e: Event)
    requires !e.Resolve? && !e.Close?
    ensures Who(e) == Some(e.t)
  {
  }

  lemma DeliverySame(s: State, s': State, t: Task)
    requires DeliveryInv(s) && OneChanged(s, s', t) && s'.jobs[t].phase != Numbered
    requires s'.delivered == s.delivered && s'.table.next == s.table.next &&
             s'.table.pending.Keys <= s.table.pending.Keys
    ensures DeliveryInv(s')
  {
  }

  lemma TakeIdDelivery(s: State, e: Event)
    requires Enabled(s, e) && IdInv(s) && EntryInv(s) && DeliveryInv(s) && e.TakeId?
    ensures DeliveryInv(Next(s, e))
  {
  }

  lemma AdmitDelivery(s: State, e: Event)
    requires Enabled(s, e) && IdInv(s) && EntryInv(s) && DeliveryInv(s) && e.AskAdmission?
    ensures DeliveryInv(Next(s, e))
  {
    hide EntryInv;
  }

  lemma ResolveDelivery(s: State, e: Event)
    requires Enabled(s, e) && IdInv(s) && EntryInv(s) && DeliveryInv(s) && e.Resolve?
    ensures DeliveryInv(Next(s, e))
  {
    hide Judged;
  }

  lemma JobDelivery(s: State, e: Event)
    requires Enabled(s, e) && Who(e).Some? && !e.TakeId? && !e.AskAdmission?
    ensures Next(s, e).delivered == s.delivered && Next(s, e).table.next == s.table.next
    ensures Next(s, e).jobs[e.t].phase != Numbered
    ensures Next(s, e).table.closed == (s.table.closed || e.CloseInDrop?)
    ensures !e.CloseInDrop? && !e.Retire? ==> Next(s, e).table == s.table
  {
    hide Frame, Verdict, Delivery, Whole;
  }

  lemma SettledKept(s: State, e: Event)
    requires Enabled(s, e) && IdInv(s) && EntryInv(s) && DeliveryInv(s) && SettledInv(s)
    ensures SettledInv(Next(s, e))
  {
    hide *;
    if e.TakeId? { TakeIdSettled(s, e); }
    else if e.AskAdmission? { AdmitSettled(s, e); }
    else if e.Resolve? { ResolveSettled(s, e); }
    else if e.Retire? { RetireSettled(s, e); }
    else if e.Close? { CloseKept(s); }
    else { JobSettledKept(s, e); }
  }

  lemma JobSettledKept(s: State, e: Event)
    requires Enabled(s, e) && IdInv(s) && SettledInv(s)
    requires !e.TakeId? && !e.AskAdmission? && !e.Resolve? && !e.Close? && !e.Retire?
    ensures SettledInv(Next(s, e))
  {
    hide *;
    OwnEvent(e);
    StepChangesOne(s, e);
    JobKept(s, e);
    JobDelivery(s, e);
    JobSettled(s, e);
    SameNext(s, e);
    ClosedAfter(s, e);
    SettledSame(s, Next(s, e), e.t);
  }

  lemma ClosedAfter(s: State, e: Event)
    requires Enabled(s, e)
    ensures e.CloseInDrop? ==> Next(s, e).table.closed
  {
  }

  lemma SettledSame(s: State, s': State, t: Task)
    requires SettledInv(s) && OneChanged(s, s', t) && s'.delivered == s.delivered
    requires s'.table == s.table || s'.table.closed
    requires t in s.jobs ==> s'.jobs[t].id == s.jobs[t].id
    requires var j := s'.jobs[t];
             j.id.Some? && Live(j.phase) && j.phase != Retiring ==>
               t in s.jobs && Live(s.jobs[t].phase) && s.jobs[t].phase != Retiring
    ensures SettledInv(s')
  {
    hide Live;
  }

  lemma TakeIdSettled(s: State, e: Event)
    requires Enabled(s, e) && SettledInv(s) && e.TakeId?
    ensures SettledInv(Next(s, e))
  {
  }

  lemma AdmitSettled(s: State, e: Event)
    requires Enabled(s, e) && SettledInv(s) && e.AskAdmission?
    ensures SettledInv(Next(s, e))
  {
  }

  lemma ResolveSettled(s: State, e: Event)
    requires Enabled(s, e) && SettledInv(s) && e.Resolve?
    ensures SettledInv(Next(s, e))
  {
    hide Judged;
  }

  lemma RetireSettled(s: State, e: Event)
    requires Enabled(s, e) && SettledInv(s) && IdInv(s) && e.Retire?
    ensures SettledInv(Next(s, e))
  {
  }

  /** Only admission makes a request live. */
  lemma JobSettled(s: State, e: Event)
    requires Enabled(s, e) && IdInv(s) && Who(e).Some? && !e.TakeId? && !e.AskAdmission?
    ensures var j := Next(s, e).jobs[e.t];
            j.id.Some? && Live(j.phase) && j.phase != Retiring ==>
              e.t in s.jobs && Live(s.jobs[e.t].phase) && s.jobs[e.t].phase != Retiring
  {
    hide Frame, Verdict, Delivery, Whole, Closed, Without;
  }

  lemma RequestKept(s: State, e: Event)
    requires Enabled(s, e) && FramesInv(s) && RequestInv(s)
    ensures RequestInv(Next(s, e))
  {
    hide Next, Enabled, FramesInv, IdInv, EntryInv, DeliveryInv, SettledInv;
    IdKept(s, e);
    EntryKept(s, e);
    DeliveryKept(s, e);
    SettledKept(s, e);
  }

  /** In every reachable state: a closed stream has no pending request, at most 64 are pending,
      no two requests ever share an id, and every entry belongs to a request that is not over. */
  lemma {:induction false} RequestsAlways(s: State, es: seq<Event>)
    requires OutInv(s) && RequestInv(s) && Run(s, es)
    ensures RequestInv(End(s, es))
    decreases |es|
  {
    hide OutInv, RequestInv, FramesInv, Next, Enabled;
    if es != [] {
      OutParts(s);
      OutKept(s, es[0]);
      RequestKept(s, es[0]);
      RequestsAlways(Next(s, es[0]), es[1..]);
    }
  }

  /** A request that ended in any way leaves no entry behind. */
  lemma EndedLeavesNothing(s: State, t: Task)
    requires RequestInv(s) && t in s.jobs && s.jobs[t].phase == Over && s.jobs[t].id.Some?
    ensures s.jobs[t].id.value !in s.table.pending
  {
  }

  lemma EntryIsLive(s: State, id: Id)
    requires RequestInv(s) && id in s.table.pending
    ensures s.table.pending[id].waiter in s.jobs && s.jobs[s.table.pending[id].waiter].phase != Over
  {
  }

  lemma NoneLeftBehind(s: State)
    requires RequestInv(s) && forall t :: t in s.jobs ==> s.jobs[t].phase == Over
    ensures s.table.pending == map[]
  {
    hide RequestInv;
    forall id ensures id !in s.table.pending {
      if id in s.table.pending {
        EntryIsLive(s, id);
        assert false;
      }
    }
  }

  /** A reply is handed over only when some request waits under exactly that id; it goes to the
      one request that was issued the id, unchanged unless it is a success over that request's
      budget, and no id is answered twice. Nothing else delivers. */
  lemma RepliesReachTheirRequest(s: State, e: Event)
    requires Enabled(s, e) && RequestInv(s) && Next(s, e).delivered != s.delivered
    ensures e.Resolve? && e.id in s.table.pending && e.id !in s.delivered
    ensures e.id !in Next(s, e).table.pending && e.id in Next(s, e).delivered
    ensures Next(s, e).delivered == s.delivered[e.id := Next(s, e).delivered[e.id]]
    ensures Answers(s.table.pending[e.id].limit, e.response, Next(s, e).delivered[e.id])
    ensures var t := s.table.pending[e.id].waiter;
            && t in s.jobs && s.jobs[t].id == Some(e.id) && s.jobs[t].limit == s.table.pending[e.id].limit
            && forall u :: u in s.jobs && s.jobs[u].id == Some(e.id) ==> u == t
  {
    hide Frame, Whole, Judged, SettledInv;
    if !e.Resolve? {
      DeliveryOnlyByResolve(s, e);
    } else if e.id in s.table.pending {
      JudgedAnswers(s.table.pending[e.id], e.response);
    }
  }

  /** Every reply to a pending id is handed over, and so is the cancellation of one. */
  lemma PendingIsAnswered(s: State, id: Id, response: Response)
    requires RequestInv(s) && id in s.table.pending
    ensures var s' := Next(s, Resolve(id, response));
            && s'.delivered.Keys == s.delivered.Keys + {id} && id !in s.delivered
            && s'.table.pending == s.table.pending - {id}
            && Answers(s.table.pending[id].limit, response, s'.delivered[id])
  {
    hide Judged, SettledInv, IdInv, EntryInv;
    JudgedAnswers(s.table.pending[id], response);
  }

  /** What a request that asks for admission is told: admitted it waits for the output under its id,
      refused it is over, with the reason, and nothing else changes. */
  lemma AdmissionIs(s: State, t: Task)
    requires Enabled(s, AskAdmission(t))
    ensures var s', j := Next(s, AskAdmission(t)), s.jobs[t];
            && s' == s.(jobs := s'.jobs, table := s'.table) && t in s'.jobs
            && (if s.table.closed then
                  s'.table == s.table && s'.jobs[t].phase == Over && s'.jobs[t].result == Some(Failed(Disconnected))
                else if 64 <= |s.table.pending| then
                  s'.table == s.table && s'.jobs[t].phase == Over && s'.jobs[t].result == Some(Failed(Capacity))
                else
                  && s'.jobs[t].phase == Queued && s'.jobs[t].id == j.id
                  && s'.table == s.table.(pending := s.table.pending[j.id.value := Entry(t, j.limit)]))
  {
    hide Frame;
  }

  /** On an open stream with a free mutex a queued frame goes out whole: its bytes are the next bytes of
      the output, and the mutex is free again. A request then waits for its answer. */
  lemma OpenStreamWrites(s: State, t: Task)
    requires In(s, t, Queued) && s.lock == None && !s.table.closed && s.jobs[t].line != ""
    ensures var es := [Acquire(t), Check(t), Emit(t, |s.jobs[t].line|), Finish(t), Release(t)];
            && Run(s, es)
            && var s' := End(s, es);
               && s'.out == s.out + s.jobs[t].line && s'.frames == s.frames + [t] && s'.lock == None
               && s'.torn == s.torn && s'.table == s.table && t in s'.jobs
               && s'.jobs[t].phase == if s.jobs[t].request then Awaiting else Over
  {
    var line := s.jobs[t].line;
    var es := [Acquire(t), Check(t), Emit(t, |line|), Finish(t), Release(t)];
    var s1 := Next(s, Acquire(t));
    var s2 := Next(s1, Check(t));
    assert s2.jobs[t].phase == Emitting(0) && s2.jobs[t].line == line;
    hide Verdict, Delivery, Closed, Without, Admit, Frame;
    var s3 := Next(s2, Emit(t, |line|));
    assert line[0..0 + |line|] == line;
    var s4 := Next(s3, Finish(t));
    var s5 := Next(s4, Release(t));
    hide Next, Enabled;
    RunFive(s, es[0], es[1], es[2], es[3], es[4]);
  }

  lemma RunNone(s: State)
    ensures Run(s, []) && End(s, []) == s
  {
  }

  lemma RunFirst(s: State, e: Event, rest: seq<Event>)
    requires Enabled(s, e) && (rest == [] || Run(Next(s, e), rest))
    ensures Run(Next(s, e), rest) && Run(s, [e] + rest) && End(s, [e] + rest) == End(Next(s, e), rest)
  {
    hide Next, Enabled;
    assert ([e] + rest)[1..] == rest;
  }

  lemma RunFive(s: State, a: Event, b: Event, c: Event, d: Event, e: Event)
    requires Enabled(s, a) && Enabled(Next(s, a), b) && Enabled(Next(Next(s, a), b), c)
    requires Enabled(Next(Next(Next(s, a), b), c), d) && Enabled(Next(Next(Next(Next(s, a), b), c), d), e)
    ensures Run(s, [a, b, c, d, e])
    ensures End(s, [a, b, c, d, e]) == Next(Next(Next(Next(Next(s, a), b), c), d), e)
  {
    hide *;
    var s1 := Next(s, a);
    var s2 := Next(s1, b);
    var s3 := Next(s2, c);
    var s4 := Next(s3, d);
    assert [e] + [] == [e] && [d] + [e] == [d, e] && [c] + [d, e] == [c, d, e] && [b] + [c, d, e] == [b, c, d, e];
    assert [a] + [b, c, d, e] == [a, b, c, d, e];
    RunFirst(s4, e, []);
    RunFirst(s3, d, [e]);
    RunFirst(s2, c, [d, e]);
    RunFirst(s1, b, [c, d, e]);
    RunFirst(s, a, [b, c, d, e]);
    RunNone(Next(s4, e));
  }

  lemma DeliveryOnlyByResolve(s: State, e: Event)
    requires Enabled(s, e) && !e.Resolve?
    ensures Next(s, e).delivered == s.delivered
  {
    hide Frame, Whole, Verdict, Admit, Closed, Without;
  }

  /** An answer, once delivered, is never replaced. */
  lemma {:induction false} DeliveredForGood(s: State, es: seq<Event>, id: Id)
    requires OutInv(s) && RequestInv(s) && Run(s, es) && id in s.delivered
    ensures id in End(s, es).delivered && End(s, es).delivered[id] == s.delivered[id]
    decreases |es|
  {
    hide OutInv, RequestInv, FramesInv, Next, Enabled;
    if es != [] {
      OutParts(s);
      OutKept(s, es[0]);
      RequestKept(s, es[0]);
      if Next(s, es[0]).delivered != s.delivered { RepliesReachTheirRequest(s, es[0]); }
      DeliveredForGood(Next(s, es[0]), es[1..], id);
    }
  }

  /** A request is told its own answer; it is told that the client is gone only if the stream is
      closed. */
  lemma ReceivedIsDelivered(s: State, t: Task)
    requires RequestInv(s) && Enabled(s, Receive(t))
    ensures var r := Next(s, Receive(t)).jobs[t].result;
            var id := s.jobs[t].id.value;
            if id in s.delivered then r == Some(s.delivered[id])
            else r == Some(Failed(Disconnected)) && s.table.closed
  {
    hide IdInv, EntryInv, DeliveryInv;
  }
}
