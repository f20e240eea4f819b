/** The life of the tool calls that a guest program makes, on values: any guest, any host. */
module BridgeCalls {
  import opened Wrappers

  const MAX_JSON := 1_048_576
  const MAX_CALLS := 128
  const MAX_ACTIVE := 8

  datatype Result<T> = Ok(value: T) | Err(error: string)

  /** What `check` looks at besides the bridge itself. */
  datatype Env = Env(cancelled: bool, expired: bool, outOfMemory: bool)

  datatype Call = Call(id: string, token: nat, name: string)

  datatype Outcome = StartFailed | CallDone | CallError | CallCancelled

  datatype Record = Record(name: string, outcome: Outcome)

  /** The requests that the host sees about calls. */
  datatype HostOp =
    | Started(name: string)
    | Polled(id: string, finished: bool)
    | Cancelled(id: string)
    | Disposed(id: string)
    | Released(id: string)

  /** The call whose result ended the program, and whether it was an error. */
  datatype Terminal = Terminal(token: nat, isError: bool)

  datatype State = State(names: set<string>, pending: seq<Call>, records: seq<Record>, started: nat,
                         fatal: Option<string>, seen: set<string>, terminal: Option<Terminal>, trace: seq<HostOp>)

  /** The guest's argument text: its length, and whether it parses and is an object. */
  datatype Args = Args(bytes: nat, parses: bool, isObject: bool)

  /** The host's answer to a start. `regular` says: small enough, running, and no result yet. */
  datatype StartReply = StartError(error: string) | StartAccepted(id: Option<string>, regular: bool)

  /** The host's answer to a poll. In a finished one, `retained` says that the result reference was
      valid and there was room for it, `disposed` that the host confirmed the disposal, and
      `readable` that a small result could be read and released. */
  datatype PollReply =
    | PollError(error: string)
    | PollRejected(error: string)     // too large, wrong identity or an invalid status
    | Running
    | Finished(failed: bool, isError: bool, retained: bool, disposed: bool, terminate: bool, readable: bool)

  function Start(names: set<string>): State {
    State(names, [], [], 0, None, {}, None, [])
  }

  // ---------------------------------------------------------------- check and start

  function Check(s: State, env: Env): Option<string> {
    if env.cancelled then Some("codemode cancelled")
    else if env.expired then Some("codemode deadline exceeded")
    else if env.outOfMemory then Some("codemode memory budget exceeded")
    else s.fatal
  }

  const NO_REQUEST_ID := "host start returned no valid requestId; uncertain start not retried"
  const REUSED_ID := "host reused request identity"
  const BAD_STATUS := "invalid host start status"
  const START_FAILED := "host start failed (not retried): "

  function Fail(s: State, error: string): (State, Result<nat>) {
    (s.(fatal := Some(error)), Err(error))
  }

  /** Taking the host's answer: its request id must be new. */
  function Accept(s: State, name: string, reply: StartReply): (State, Result<nat>)
    requires reply.StartAccepted?
  {
    var id := reply.id;
    if id.None? || id.value == "" then
      Fail(s, NO_REQUEST_ID)
    else if id.value in s.seen then
      Fail(s, REUSED_ID)
    else
      var s1 := s.(seen := s.seen + {id.value}, pending := s.pending + [Call(id.value, s.started, name)]);
      if reply.regular then (s1, Ok(s1.started)) else Fail(s1, BAD_STATUS)
  }

  /** The part of a start behind its validation. */
  function StartOnHost(s: State, name: string, reply: StartReply): (State, Result<nat>) {
    var s1 := s.(started := s.started + 1, trace := s.trace + [Started(name)]);
    match reply
    case StartError(e) =>
      Fail(s1.(records := s1.records + [Record(name, StartFailed)]), START_FAILED + e)
    case StartAccepted(_, _) => Accept(s1, name, reply)
  }

  function StartCall(s: State, env: Env, name: string, args: Args, reply: StartReply): (State, Result<nat>) {
    if Check(s, env).Some? then (s, Err(Check(s, env).value))
    else if name !in s.names then (s, Err("tool is not in this invocation's effective catalog"))
    else if args.bytes > MAX_JSON then Fail(s, "tool arguments exceed 1 MiB")
    else if !args.parses then (s, Err("invalid tool argument JSON"))
    else if !args.isObject then (s, Err("tool arguments must be an object"))
    else if s.started >= MAX_CALLS || |s.pending| >= MAX_ACTIVE then
      Fail(s, "tool call budget exceeded (128 total / 8 active)")
    else StartOnHost(s, name, reply)
  }

  // ---------------------------------------------------------------- one poll and the poll pass

  datatype Verdict = Continue | Stop(error: string) | Terminate

  function Without(calls: seq<Call>, i: nat): seq<Call>
    requires i < |calls|
  {
    calls[..i] + calls[i + 1..]
  }

  function FinishOne(s: State, i: nat, reply: PollReply): (State, Verdict)
    requires i < |s.pending| && reply.Finished?
  {
    var call := s.pending[i];
    if !reply.failed && !reply.retained then
      (s.(fatal := Some("invalid result reference")), Stop("invalid result reference"))
    else
      var s1 := s.(pending := Without(s.pending, i), trace := s.trace + [Disposed(call.id)],
                   records := s.records + [Record(call.name,
                                                  if reply.failed || reply.isError then CallError else CallDone)]);
      if !reply.disposed then (s1, Stop("host dispose failed"))
      else if reply.failed then (s1, Stop("host lifecycle failed"))
      else if reply.terminate then (s1.(terminal := Some(Terminal(call.token, reply.isError))), Terminate)
      else if !reply.readable then (s1.(fatal := Some("invalid native result")), Stop("invalid native result"))
      else (s1, Continue)
  }

  function PollOne(s: State, i: nat, reply: PollReply): (State, Verdict)
    requires i < |s.pending|
  {
    var s1 := s.(trace := s.trace + [Polled(s.pending[i].id, reply.Finished?)]);
    match reply
    case PollError(e) => (s1, Stop(e))
    case PollRejected(e) => (s1, Stop(e))
    case Running => (s1, Continue)
    case Finished(_, _, _, _, _, _) => FinishOne(s1, i, reply)
  }

  /** Visit the calls below index `i`, last first; `replies` holds the host's answer by position. */
  function PollBelow(s: State, i: nat, replies: seq<PollReply>): (State, Verdict)
    requires i <= |s.pending| && i <= |replies|
    decreases i
  {
    if i == 0 then (s, Continue)
    else
      var (s1, v) := PollOne(s, i - 1, replies[i - 1]);
      if v == Continue then PollBelow(s1, i - 1, replies) else (s1, v)
  }

  function PollPass(s: State, replies: seq<PollReply>): (State, Verdict)
    requires |replies| == |s.pending|
  {
    PollBelow(s, |s.pending|, replies)
  }

  // ---------------------------------------------------------------- cleanup

  function Cleanup(s: State): State
    decreases |s.pending|
  {
    if s.pending == [] then s
    else
      var c := s.pending[0];
      Cleanup(s.(pending := s.pending[1..], trace := s.trace + [Cancelled(c.id), Disposed(c.id), Released(c.id)],
                 records := s.records + [Record(c.name, CallCancelled)]))
  }

  // ---------------------------------------------------------------- runs

  /** What can happen to the bridge, in any order: the guest is an arbitrary caller, and `Latch` is
      any of its operations that fails for good. */
  datatype Event =
    | GuestStarts(env: Env, name: string, args: Args, reply: StartReply)
    | Latch(error: string)
    | Poll(replies: seq<PollReply>)
    | CleanUp

  predicate Enabled(s: State, e: Event) {
    e.Poll? ==> |e.replies| == |s.pending|
  }

  function Next(s: State, e: Event): State
    requires Enabled(s, e)
  {
    match e
    case GuestStarts(env, name, args, reply) => StartCall(s, env, name, args, reply).0
    case Latch(error) => s.(fatal := Some(error))
    case Poll(replies) => PollPass(s, replies).0
    case CleanUp => Cleanup(s)
  }

  ghost predicate Run(s: State, es: seq<Event>)
    decreases |es|
  {
    es == [] || (Enabled(s, es[0]) && Run(Next(s, es[0]), es[1..]))
  }

  ghost function End(s: State, es: seq<Event>): State
    requires Run(s, es)
    decreases |es|
  {
    if es == [] then s else End(Next(s, es[0]), es[1..])
  }

  // ---------------------------------------------------------------- budgets

  ghost predicate Budgeted(s: State) {
    |s.records| + |s.pending| <= s.started <= MAX_CALLS && |s.pending| <= MAX_ACTIVE
  }

  /** A start reaches the host only for an unfailed bridge with room, a known tool and valid
      arguments; otherwise it changes nothing but the latch. */
  predicate Startable(s: State, env: Env, name: string, args: Args) {
    && !env.cancelled && !env.expired && !env.outOfMemory && s.fatal == None
    && name in s.names && args.bytes <= MAX_JSON && args.parses && args.isObject
    && s.started < MAX_CALLS && |s.pending| < MAX_ACTIVE
  }

  lemma StartCases(s: State, env: Env, name: string, args: Args, reply: StartReply)
    ensures var r := StartCall(s, env, name, args, reply);
            if Startable(s, env, name, args) then r == StartOnHost(s, name, reply)
            else r.1.Err? && r.0 == s.(fatal := r.0.fatal) && (s.fatal.Some? ==> r.0.fatal == s.fatal)
  {
    hide StartOnHost;
  }

  /** A start whose checks all pass is counted, and the host is asked once. Its answer is accepted exactly
      when it carries a new request id and a regular status; a new id is pending even when the status is
      not regular, so that cleanup disposes of it, and every refusal is latched. */
  lemma HostAnswer(s: State, name: string, reply: StartReply)
    ensures var (s', r) := StartOnHost(s, name, reply);
            var accepted := NewId(s.seen, reply);
            && s'.started == s.started + 1 && s'.trace == s.trace + [Started(name)]
            && s'.names == s.names && s'.terminal == s.terminal
            && (r.Ok? <==> accepted && reply.regular) && (r.Ok? ==> r.value == s.started + 1)
            && s'.fatal == (if r.Ok? then s.fatal else Some(r.error))
            && s'.pending == (if accepted then s.pending + [Call(reply.id.value, s.started + 1, name)] else s.pending)
            && s'.seen == (if accepted then s.seen + {reply.id.value} else s.seen)
            && s'.records == if reply.StartError? then s.records + [Record(name, StartFailed)] else s.records
  {
    hide START_FAILED;
    if reply.StartAccepted? {
      AcceptAnswer(s.(started := s.started + 1, trace := s.trace + [Started(name)]), name, reply);
      hide Accept, NewId;
    }
  }

  predicate NewId(seen: set<string>, reply: StartReply) {
    reply.StartAccepted? && reply.id.Some? && reply.id.value != "" && reply.id.value !in seen
  }

  lemma AcceptAnswer(s: State, name: string, reply: StartReply)
    requires reply.StartAccepted?
    ensures var (s', r) := Accept(s, name, reply);
            && (r.Ok? <==> NewId(s.seen, reply) && reply.regular) && (r.Ok? ==> r.value == s.started)
            && s'.fatal == (if r.Ok? then s.fatal else Some(r.error))
            && s' == s.(fatal := s'.fatal,
                        pending := if NewId(s.seen, reply) then s.pending + [Call(reply.id.value, s.started, name)]
                                   else s.pending,
                        seen := if NewId(s.seen, reply) then s.seen + {reply.id.value} else s.seen)
  {
    hide NO_REQUEST_ID, REUSED_ID, BAD_STATUS;
  }

  /** A start that does not reach the host latches a failure exactly when an argument text over the
      limit, or one call too many, was what kept it back. */
  lemma RefusalLatches(s: State, env: Env, name: string, args: Args, reply: StartReply)
    requires !Startable(s, env, name, args)
    ensures var (s', r) := StartCall(s, env, name, args, reply);
            var checked := !env.cancelled && !env.expired && !env.outOfMemory && s.fatal == None && name in s.names;
            var noRoom := s.started >= MAX_CALLS || |s.pending| >= MAX_ACTIVE;
            && r.Err?
            && s'.fatal == if checked && (args.bytes > MAX_JSON || (args.parses && args.isObject && noRoom))
                           then Some(r.error) else s.fatal
  {
    hide StartOnHost;
  }

  lemma StartBudget(s: State, env: Env, name: string, args: Args, reply: StartReply)
    requires Budgeted(s)
    ensures Budgeted(StartCall(s, env, name, args, reply).0)
  {
    hide StartCall, Startable, StartOnHost;
    StartCases(s, env, name, args, reply);
    if Startable(s, env, name, args) { HostBudget(s, env, name, args, reply); }
  }

  lemma HostBudget(s: State, env: Env, name: string, args: Args, reply: StartReply)
    requires Budgeted(s) && Startable(s, env, name, args)
    ensures Budgeted(StartOnHost(s, name, reply).0)
  {
  }

  /** What one poll leaves alone. */
  lemma PollOneFrame(s: State, i: nat, reply: PollReply)
    requires i < |s.pending|
    ensures var (s', v) := PollOne(s, i, reply);
            && i <= |s'.pending| && s'.pending[..i] == s.pending[..i] && s'.seen == s.seen
            && s'.started == s.started && s'.names == s.names
            && |s'.records| + |s'.pending| == |s.records| + |s.pending| && |s'.pending| <= |s.pending|
            && (s.fatal.Some? ==> s'.fatal.Some?)
  {
  }

  lemma {:induction false} PollBudget(s: State, i: nat, replies: seq<PollReply>)
    requires i <= |s.pending| && i <= |replies| && Budgeted(s)
    ensures Budgeted(PollBelow(s, i, replies).0)
    decreases i
  {
    hide PollOne;
    if i > 0 {
      PollOneFrame(s, i - 1, replies[i - 1]);
      var (s1, v) := PollOne(s, i - 1, replies[i - 1]);
      if v == Continue { PollBudget(s1, i - 1, replies); }
    }
  }

  lemma {:induction false} CleanupBudget(s: State)
    requires Budgeted(s)
    ensures Budgeted(Cleanup(s)) && Cleanup(s).pending == [] && Cleanup(s).fatal == s.fatal && Cleanup(s).seen == s.seen
    decreases |s.pending|
  {
    if s.pending != [] {
      var c := s.pending[0];
      CleanupBudget(s.(pending := s.pending[1..], trace := s.trace + [Cancelled(c.id), Disposed(c.id), Released(c.id)],
                       records := s.records + [Record(c.name, CallCancelled)]));
    }
  }

  // ---------------------------------------------------------------- disposal

  function Ids(calls: seq<Call>): seq<string> {
    seq(|calls|, k requires 0 <= k < |calls| => calls[k].id)
  }

  /** How often the host was told to dispose of the id. */
  function Disposals(trace: seq<HostOp>, id: string): nat {
    if trace == [] then 0
    else Disposals(trace[..|trace| - 1], id) + if trace[|trace| - 1] == Disposed(id) then 1 else 0
  }

  /** Every disposal directly follows a finished poll or a cancel of the same call. */
  ghost predicate Justified(trace: seq<HostOp>) {
    forall k :: 0 <= k < |trace| && trace[k].Disposed? ==>
      k > 0 && (trace[k - 1] == Polled(trace[k].id, true) || trace[k - 1] == Cancelled(trace[k].id))
  }

  /** Accepted ids are pending once and not yet disposed, or not pending and disposed once. */
  ghost predicate Accounted(s: State) {
    && (forall i, j :: 0 <= i < j < |s.pending| ==> s.pending[i].id != s.pending[j].id)
    && (forall i :: 0 <= i < |s.pending| ==> s.pending[i].id in s.seen)
    && (forall id :: Disposals(s.trace, id) == if id in s.seen && id !in Ids(s.pending) then 1 else 0)
    && Justified(s.trace)
  }

  lemma DisposalsMore(trace: seq<HostOp>, op: HostOp, id: string)
    ensures Disposals(trace + [op], id) == Disposals(trace, id) + if op == Disposed(id) then 1 else 0
  {
    assert (trace + [op])[..|trace|] == trace;
  }

  lemma JustifiedMore(trace: seq<HostOp>, op: HostOp)
    requires Justified(trace)
    requires op.Disposed? ==>
               trace != [] && (trace[|trace| - 1] == Polled(op.id, true) || trace[|trace| - 1] == Cancelled(op.id))
    ensures Justified(trace + [op])
  {
  }

  /** An operation that is no disposal leaves the account as it is. */
  lemma Quiet(s: State, s': State, op: HostOp)
    requires Accounted(s) && !op.Disposed? && s'.trace == s.trace + [op] && s'.pending == s.pending && s'.seen == s.seen
    ensures Accounted(s')
  {
    forall id ensures Disposals(s'.trace, id) == Disposals(s.trace, id) { DisposalsMore(s.trace, op, id); }
    hide Disposals;
    JustifiedMore(s.trace, op);
  }

  /** Disposing of the pending call `i` right after its last poll or its cancel. */
  lemma DisposedOf(s: State, s': State, i: nat)
    requires Accounted(s) && i < |s.pending| && s.trace != []
    requires s.trace[|s.trace| - 1] == Polled(s.pending[i].id, true) ||
             s.trace[|s.trace| - 1] == Cancelled(s.pending[i].id)
    requires s'.trace == s.trace + [Disposed(s.pending[i].id)] && s'.pending == Without(s.pending, i) &&
             s'.seen == s.seen
    ensures Accounted(s')
  {
    var c := s.pending[i];
    forall id ensures Disposals(s'.trace, id) == if id in s'.seen && id !in Ids(s'.pending) then 1 else 0 {
      DisposalsMore(s.trace, Disposed(c.id), id);
      IdsWithout(s.pending, i, id);
      assert Ids(s.pending)[i] == c.id;
    }
    hide Disposals, Ids;
    JustifiedMore(s.trace, Disposed(c.id));
  }

  lemma IdsWithout(calls: seq<Call>, i: nat, id: string)
    requires i < |calls| && forall a, b :: 0 <= a < b < |calls| ==> calls[a].id != calls[b].id
    ensures id in Ids(Without(calls, i)) <==> id in Ids(calls) && id != calls[i].id
  {
    var rest := Without(calls, i);
    if id in Ids(calls) && id != calls[i].id {
      var k :| 0 <= k < |calls| && Ids(calls)[k] == id;
      assert Ids(rest)[if k < i then k else k - 1] == id;
    }
    if id in Ids(rest) {
      var k :| 0 <= k < |rest| && Ids(rest)[k] == id;
      assert Ids(calls)[if k < i then k else k + 1] == id;
    }
  }

  lemma StartAccounted(s: State, env: Env, name: string, args: Args, reply: StartReply)
    requires Accounted(s)
    ensures Accounted(StartCall(s, env, name, args, reply).0)
  {
    hide StartCall, Startable, Accounted, StartOnHost;
    StartCases(s, env, name, args, reply);
    var r := StartCall(s, env, name, args, reply).0;
    if Startable(s, env, name, args) {
      HostAccounted(s, name, reply);
    } else {
      AccountSame(s, r);
    }
  }

  lemma HostAccounted(s: State, name: string, reply: StartReply)
    requires Accounted(s)
    ensures Accounted(StartOnHost(s, name, reply).0)
  {
    hide Accounted;
    var s1 := s.(trace := s.trace + [Started(name)]);
    var r := StartOnHost(s, name, reply).0;
    Quiet(s, s1, Started(name));
    if reply.StartAccepted? && reply.id.Some? && reply.id.value != "" && reply.id.value !in s.seen {
      var c := Call(reply.id.value, s.started + 1, name);
      Accepted(s1, c);
      AccountSame(s1.(seen := s1.seen + {c.id}, pending := s1.pending + [c]), r);
    } else {
      AccountSame(s1, r);
    }
  }

  lemma FreshId(s: State, id: string)
    requires Accounted(s) && id !in s.seen
    ensures id !in Ids(s.pending)
  {
    hide Disposals, Justified;
  }

  lemma Accepted(s: State, c: Call)
    requires Accounted(s) && c.id !in s.seen
    ensures Accounted(s.(seen := s.seen + {c.id}, pending := s.pending + [c]))
  {
    hide Disposals, Justified;
    assert Ids(s.pending + [c]) == Ids(s.pending) + [c.id];
    FreshId(s, c.id);
    hide Ids;
  }

  lemma PollOneAccounted(s: State, i: nat, reply: PollReply)
    requires i < |s.pending| && Accounted(s)
    ensures Accounted(PollOne(s, i, reply).0)
  {
    hide Accounted, Without;
    var op := Polled(s.pending[i].id, reply.Finished?);
    var s1 := s.(trace := s.trace + [op]);
    Quiet(s, s1, op);
    var r := PollOne(s, i, reply).0;
    if reply.Finished? && (reply.failed || reply.retained) {
      var s2 := s1.(pending := Without(s.pending, i), trace := s1.trace + [Disposed(s.pending[i].id)]);
      DisposedOf(s1, s2, i);
      AccountSame(s2, r);
    } else {
      AccountSame(s1, r);
    }
  }

  /** The account only looks at the pending calls, the accepted ids and the trace. */
  lemma AccountSame(s: State, s': State)
    requires Accounted(s) && s.pending == s'.pending && s.seen == s'.seen && s.trace == s'.trace
    ensures Accounted(s')
  {
    hide Disposals, Ids, Justified;
  }

  lemma {:induction false} PollAccounted(s: State, i: nat, replies: seq<PollReply>)
    requires i <= |s.pending| && i <= |replies| && Accounted(s)
    ensures Accounted(PollBelow(s, i, replies).0)
    decreases i
  {
    hide PollOne, Accounted;
    if i > 0 {
      PollOneAccounted(s, i - 1, replies[i - 1]);
      PollOneFrame(s, i - 1, replies[i - 1]);
      var (s1, v) := PollOne(s, i - 1, replies[i - 1]);
      if v == Continue { PollAccounted(s1, i - 1, replies); }
    }
  }

  lemma CancelAccounted(s: State)
    requires s.pending != [] && Accounted(s)
    ensures var c := s.pending[0];
            Accounted(s.(pending := s.pending[1..],
                         trace := s.trace + [Cancelled(c.id), Disposed(c.id), Released(c.id)],
                         records := s.records + [Record(c.name, CallCancelled)]))
  {
    hide Accounted;
    var c := s.pending[0];
    var s1 := s.(trace := s.trace + [Cancelled(c.id)]);
    Quiet(s, s1, Cancelled(c.id));
    var s2 := s1.(pending := Without(s.pending, 0), trace := s1.trace + [Disposed(c.id)]);
    DisposedOf(s1, s2, 0);
    var s3 := s2.(trace := s2.trace + [Released(c.id)]);
    Quiet(s2, s3, Released(c.id));
    assert s3.trace == s.trace + [Cancelled(c.id), Disposed(c.id), Released(c.id)];
    assert s3.pending == s.pending[1..];
    AccountSame(s3, s.(pending := s.pending[1..], trace := s.trace + [Cancelled(c.id), Disposed(c.id), Released(c.id)],
                       records := s.records + [Record(c.name, CallCancelled)]));
  }

  lemma {:induction false} CleanupAccounted(s: State)
    requires Accounted(s)
    ensures Accounted(Cleanup(s))
    decreases |s.pending|
  {
    hide Accounted;
    if s.pending != [] {
      var c := s.pending[0];
      CancelAccounted(s);
      CleanupAccounted(s.(pending := s.pending[1..],
                          trace := s.trace + [Cancelled(c.id), Disposed(c.id), Released(c.id)],
                          records := s.records + [Record(c.name, CallCancelled)]));
    }
  }

  // ---------------------------------------------------------------- every run

  ghost predicate Good(s: State) {
    Budgeted(s) && Accounted(s)
  }

  lemma StepKeeps(s: State, e: Event)
    requires Good(s) && Enabled(s, e)
    ensures Good(Next(s, e))
  {
    hide StartCall, PollBelow, Cleanup, Budgeted, Accounted;
    match e
    case GuestStarts(env, name, args, reply) =>
      StartBudget(s, env, name, args, reply);
      StartAccounted(s, env, name, args, reply);
    case Latch(error) =>
      LatchBudget(s, error);
      AccountSame(s, s.(fatal := Some(error)));
    case Poll(replies) =>
      PollBudget(s, |s.pending|, replies);
      PollAccounted(s, |s.pending|, replies);
    case CleanUp =>
      CleanupBudget(s);
      CleanupAccounted(s);
  }

  lemma LatchBudget(s: State, error: string)
    requires Budgeted(s)
    ensures Budgeted(s.(fatal := Some(error)))
  {
  }

  lemma {:induction false} Always(s: State, es: seq<Event>)
    requires Good(s) && Run(s, es)
    ensures Good(End(s, es))
    decreases |es|
  {
    hide Good, Next, Enabled;
    if es != [] {
      StepKeeps(s, es[0]);
      Always(Next(s, es[0]), es[1..]);
    }
  }

  lemma StartIsGood(names: set<string>)
    ensures Good(Start(names))
  {
  }

  /** In every reachable state recorded and pending calls together are at most the started ones,
      those at most 128, and at most 8 are pending. */
  lemma CallsAreBounded(names: set<string>, es: seq<Event>)
    requires Run(Start(names), es)
    ensures var s := End(Start(names), es);
            |s.records| + |s.pending| <= s.started <= MAX_CALLS && |s.pending| <= MAX_ACTIVE
  {
    StartIsGood(names);
    Always(Start(names), es);
    hide Run, End, Start;
  }

  /** Whatever the guest and the host did: once the invocation is cleaned up, every accepted request
      id has been disposed exactly once, no other id ever was, and each disposal followed a finished
      poll or a cancel of its own call. */
  lemma DisposedExactlyOnce(names: set<string>, es: seq<Event>)
    requires Run(Start(names), es)
    ensures var s := Cleanup(End(Start(names), es));
            && s.pending == []
            && (forall id :: Disposals(s.trace, id) == if id in s.seen then 1 else 0)
            && Justified(s.trace)
  {
    StartIsGood(names);
    Always(Start(names), es);
    var s := End(Start(names), es);
    CleanupBudget(s);
    CleanupAccounted(s);
    hide Run, End, Start, Disposals, Justified, Cleanup;
    assert Ids([]) == [];
  }

  /** Cleaning up twice is cleaning up once. */
  lemma CleanupTwice(s: State)
    requires Budgeted(s)
    ensures Cleanup(Cleanup(s)) == Cleanup(s)
  {
    CleanupBudget(s);
  }

  function Drained(calls: seq<Call>): seq<HostOp> {
    if calls == [] then []
    else [Cancelled(calls[0].id), Disposed(calls[0].id), Released(calls[0].id)] + Drained(calls[1..])
  }

  /** What cleanup leaves: each call that was pending is cancelled, disposed and released, in order, and
      recorded as cancelled under its name; nothing else changes. */
  lemma {:induction false} CleanupIs(s: State)
    ensures Cleanup(s) == s.(pending := [], trace := s.trace + Drained(s.pending),
                             records := s.records + seq(|s.pending|, k requires 0 <= k < |s.pending| =>
                                                                       Record(s.pending[k].name, CallCancelled)))
    decreases |s.pending|
  {
    var records := seq(|s.pending|, k requires 0 <= k < |s.pending| => Record(s.pending[k].name, CallCancelled));
    if s.pending == [] {
      assert s.trace + [] == s.trace && s.records + [] == s.records;
    } else {
      var c, rest := s.pending[0], s.pending[1..];
      var ops := [Cancelled(c.id), Disposed(c.id), Released(c.id)];
      CleanupIs(s.(pending := rest, trace := s.trace + ops, records := s.records + [Record(c.name, CallCancelled)]));
      assert records == [Record(c.name, CallCancelled)] +
             seq(|rest|, k requires 0 <= k < |rest| => Record(rest[k].name, CallCancelled));
      Regroup(s.trace, ops, Drained(rest));
      Regroup(s.records, [Record(c.name, CallCancelled)],
              seq(|rest|, k requires 0 <= k < |rest| => Record(rest[k].name, CallCancelled)));
    }
  }

  // ---------------------------------------------------------------- the program's end

  /** Some poll pass of the run ended at a terminating result. */
  ghost predicate EndedBy(s: State, es: seq<Event>)
    requires Run(s, es)
    decreases |es|
  {
    es != [] && ((es[0].Poll? && PollPass(s, es[0].replies).1 == Terminate) || EndedBy(Next(s, es[0]), es[1..]))
  }

  lemma StepTerminal(s: State, e: Event)
    requires Enabled(s, e)
    ensures Next(s, e).terminal.Some? <==>
              s.terminal.Some? || (e.Poll? && PollPass(s, e.replies).1 == Terminate)
  {
    hide PollBelow, Cleanup, StartCall;
    match e
    case GuestStarts(env, name, args, reply) => StartTerminal(s, env, name, args, reply);
    case Latch(_) =>
    case Poll(replies) =>
      var m := PassEnds(s, |s.pending|, replies);
      hide EndsProgram, GoesOn, RecordsDown, Unsettled;
    case CleanUp => CleanupIs(s);
  }

  lemma StartTerminal(s: State, env: Env, name: string, args: Args, reply: StartReply)
    ensures StartCall(s, env, name, args, reply).0.terminal == s.terminal
  {
    hide StartCall, StartOnHost;
    StartCases(s, env, name, args, reply);
    HostAnswer(s, name, reply);
  }

  /** The bridge remembers a terminating result exactly when one arrived. */
  lemma {:induction false} TerminalExactly(s: State, es: seq<Event>)
    requires Run(s, es)
    ensures End(s, es).terminal.Some? <==> s.terminal.Some? || EndedBy(s, es)
    decreases |es|
  {
    hide Next, Enabled, PollPass;
    if es != [] {
      StepTerminal(s, es[0]);
      TerminalExactly(Next(s, es[0]), es[1..]);
    }
  }

  // ---------------------------------------------------------------- the sticky failure

  /** How many starts the host was asked for. */
  function Starts(trace: seq<HostOp>): nat {
    if trace == [] then 0 else Starts(trace[..|trace| - 1]) + if trace[|trace| - 1].Started? then 1 else 0
  }

  lemma StartsMore(trace: seq<HostOp>, op: HostOp)
    ensures Starts(trace + [op]) == Starts(trace) + if op.Started? then 1 else 0
  {
    assert (trace + [op])[..|trace|] == trace;
  }

  lemma PollOneStarts(s: State, i: nat, reply: PollReply)
    requires i < |s.pending|
    ensures Starts(PollOne(s, i, reply).0.trace) == Starts(s.trace)
  {
    hide Starts, Without;
    var op := Polled(s.pending[i].id, reply.Finished?);
    StartsMore(s.trace, op);
    StartsMore(s.trace + [op], Disposed(s.pending[i].id));
  }

  lemma {:induction false} PollStarts(s: State, i: nat, replies: seq<PollReply>)
    requires i <= |s.pending| && i <= |replies|
    ensures var r := PollBelow(s, i, replies).0;
            Starts(r.trace) == Starts(s.trace) && r.started == s.started && (s.fatal.Some? ==> r.fatal.Some?)
    decreases i
  {
    hide PollOne, Starts;
    if i > 0 {
      PollOneFrame(s, i - 1, replies[i - 1]);
      PollOneStarts(s, i - 1, replies[i - 1]);
      var (s1, v) := PollOne(s, i - 1, replies[i - 1]);
      if v == Continue { PollStarts(s1, i - 1, replies); }
    }
  }

  lemma {:induction false} CleanupStarts(s: State)
    ensures Starts(Cleanup(s).trace) == Starts(s.trace) && Cleanup(s).fatal == s.fatal &&
            Cleanup(s).started == s.started
    decreases |s.pending|
  {
    if s.pending != [] {
      var c := s.pending[0];
      StartsMore(s.trace, Cancelled(c.id));
      StartsMore(s.trace + [Cancelled(c.id)], Disposed(c.id));
      StartsMore(s.trace + [Cancelled(c.id)] + [Disposed(c.id)], Released(c.id));
      var trace := s.trace + [Cancelled(c.id), Disposed(c.id), Released(c.id)];
      assert s.trace + [Cancelled(c.id)] + [Disposed(c.id)] + [Released(c.id)] == trace;
      hide Starts;
      CleanupStarts(s.(pending := s.pending[1..], trace := trace,
                      records := s.records + [Record(c.name, CallCancelled)]));
    }
  }

  /** Each step starts at most one call on the host and counts it; after a failure it starts none,
      and the failure stays. */
  lemma StepStarts(s: State, e: Event)
    requires Enabled(s, e)
    ensures Starts(Next(s, e).trace) - Starts(s.trace) == Next(s, e).started - s.started
    ensures s.fatal.Some? ==> Next(s, e).fatal.Some? && Next(s, e).started == s.started
  {
    hide Starts, PollBelow, Cleanup;
    match e
    case GuestStarts(env, name, args, reply) =>
      StartCases(s, env, name, args, reply);
      StartsMore(s.trace, Started(name));
      hide StartCall;
    case Latch(_) =>
    case Poll(replies) => PollStarts(s, |s.pending|, replies);
    case CleanUp => CleanupStarts(s);
  }

  /** Once any failure is latched, no further host start is issued and the latch stays set,
      whatever the guest catches and whatever it does next. */
  lemma {:induction false} NoStartAfterFailure(s: State, es: seq<Event>)
    requires s.fatal.Some? && Run(s, es)
    ensures End(s, es).fatal.Some? && Starts(End(s, es).trace) == Starts(s.trace)
    decreases |es|
  {
    hide Next, Enabled, Starts;
    if es != [] {
      StepStarts(s, es[0]);
      NoStartAfterFailure(Next(s, es[0]), es[1..]);
    }
  }

  lemma {:induction false} StartsAreCounted(s: State, es: seq<Event>)
    requires Run(s, es) && Starts(s.trace) == s.started
    ensures Starts(End(s, es).trace) == End(s, es).started
    decreases |es|
  {
    hide Next, Enabled, Starts;
    if es != [] {
      StepStarts(s, es[0]);
      StartsAreCounted(Next(s, es[0]), es[1..]);
    }
  }

  // ---------------------------------------------------------------- one poll pass

  function Visits(trace: seq<HostOp>): seq<string> {
    if trace == [] then []
    else
      var rest := Visits(trace[..|trace| - 1]);
      if trace[|trace| - 1].Polled? then rest + [trace[|trace| - 1].id] else rest
  }

  lemma VisitsMore(trace: seq<HostOp>, op: HostOp)
    ensures Visits(trace + [op]) == if op.Polled? then Visits(trace) + [op.id] else Visits(trace)
  {
    assert (trace + [op])[..|trace|] == trace;
  }

  lemma PollOneVisits(s: State, i: nat, reply: PollReply)
    requires i < |s.pending|
    ensures Visits(PollOne(s, i, reply).0.trace) == Visits(s.trace) + [s.pending[i].id]
    ensures PollOne(s, i, reply).1 == Continue ==>
              PollOne(s, i, reply).0.pending == if reply.Running? then s.pending else Without(s.pending, i)
  {
    hide Visits, Without;
    var op := Polled(s.pending[i].id, reply.Finished?);
    VisitsMore(s.trace, op);
    VisitsMore(s.trace + [op], Disposed(s.pending[i].id));
  }

  /** A finished call leaves the table, unless its result could not be retained. */
  predicate Settles(reply: PollReply) {
    reply.Finished? && (reply.failed || reply.retained)
  }

  predicate Succeeds(reply: PollReply) {
    reply.Finished? && !reply.failed && reply.retained && reply.disposed
  }

  /** The result that ends the program. */
  predicate EndsProgram(reply: PollReply) {
    Succeeds(reply) && reply.terminate
  }

  /** The pass goes on behind a running call and behind a result that was handed to the program. */
  predicate GoesOn(reply: PollReply) {
    reply.Running? || (Succeeds(reply) && !reply.terminate && reply.readable)
  }

  function RecordOf(call: Call, reply: PollReply): Record
    requires Settles(reply)
  {
    Record(call.name, if reply.failed || reply.isError then CallError else CallDone)
  }

  /** What one poll does, by the host's answer. */
  lemma PollLaw(s: State, i: nat, reply: PollReply)
    requires i < |s.pending|
    ensures var (s', v) := PollOne(s, i, reply);
            && (v == Continue <==> GoesOn(reply)) && (v == Terminate <==> EndsProgram(reply))
            && s'.pending == (if Settles(reply) then Without(s.pending, i) else s.pending)
            && s'.records == (if Settles(reply) then s.records + [RecordOf(s.pending[i], reply)] else s.records)
            && s'.trace == s.trace + [Polled(s.pending[i].id, reply.Finished?)] +
                           (if Settles(reply) then [Disposed(s.pending[i].id)] else [])
            && s'.terminal == if EndsProgram(reply) then Some(Terminal(s.pending[i].token, reply.isError))
                              else s.terminal
    ensures PollOne(s, i, reply).0.fatal != s.fatal ==>
              reply.Finished? && !reply.failed && (!reply.retained || !reply.readable)
  {
    hide Without;
  }

  /** The records of the calls from `hi - 1` down to `lo` that settled. */
  function RecordsDown(calls: seq<Call>, replies: seq<PollReply>, lo: nat, hi: nat): seq<Record>
    requires lo <= hi <= |calls| && hi <= |replies|
    decreases hi
  {
    if hi == lo then []
    else
      (if Settles(replies[hi - 1]) then [RecordOf(calls[hi - 1], replies[hi - 1])] else [])
      + RecordsDown(calls, replies, lo, hi - 1)
  }

  /** The calls from `lo` to `hi - 1` that did not settle, in order. */
  function Unsettled(calls: seq<Call>, replies: seq<PollReply>, lo: nat, hi: nat): seq<Call>
    requires lo <= hi <= |calls| && hi <= |replies|
    decreases hi
  {
    if hi == lo then []
    else Unsettled(calls, replies, lo, hi - 1) + if Settles(replies[hi - 1]) then [] else [calls[hi - 1]]
  }

  lemma {:induction false} PrefixDecides(a: seq<Call>, b: seq<Call>, replies: seq<PollReply>, lo: nat, hi: nat)
    requires lo <= hi <= |a| && hi <= |b| && hi <= |replies| && a[..hi] == b[..hi]
    ensures RecordsDown(a, replies, lo, hi) == RecordsDown(b, replies, lo, hi)
    ensures Unsettled(a, replies, lo, hi) == Unsettled(b, replies, lo, hi)
    decreases hi
  {
    hide Settles;
    if hi > lo {
      assert a[hi - 1] == a[..hi][hi - 1] == b[hi - 1];
      assert a[..hi - 1] == a[..hi][..hi - 1] == b[..hi - 1];
      PrefixDecides(a, b, replies, lo, hi - 1);
    }
  }

  /** A pass over the calls below `i` that visited `m` of them with the verdict `v`: it goes on exactly
      behind answers that let it, so it ends at the first other answer, with that answer's verdict. */
  ghost predicate PassVerdict(i: nat, replies: seq<PollReply>, m: nat, v: Verdict) {
    && m <= i <= |replies|
    && (forall k :: i - m < k < i ==> GoesOn(replies[k]))
    && (v == Continue <==> m == i && (m > 0 ==> GoesOn(replies[i - m])))
    && (v != Continue ==> m > 0 && !GoesOn(replies[i - m]))
    && (v == Terminate <==> m > 0 && EndsProgram(replies[i - m]))
  }

  /** What such a pass leaves: each settled call is recorded under its name, in the order of the visits,
      exactly the calls that did not settle stay pending, in order, and a call that ended the program
      is remembered. */
  ghost predicate PassState(s: State, i: nat, replies: seq<PollReply>, m: nat, s': State) {
    && m <= i <= |s.pending| && i <= |replies|
    && s'.records == s.records + RecordsDown(s.pending, replies, i - m, i)
    && s'.pending == s.pending[..i - m] + (Unsettled(s.pending, replies, i - m, i) + s.pending[i..])
    && s'.terminal == if m > 0 && EndsProgram(replies[i - m])
                      then Some(Terminal(s.pending[i - m].token, replies[i - m].isError)) else s.terminal
  }

  lemma {:induction false} PassEnds(s: State, i: nat, replies: seq<PollReply>) returns (m: nat)
    requires i <= |s.pending| && i <= |replies|
    ensures PassVerdict(i, replies, m, PollBelow(s, i, replies).1)
    ensures PassState(s, i, replies, m, PollBelow(s, i, replies).0)
    ensures |Visits(PollBelow(s, i, replies).0.trace)| == |Visits(s.trace)| + m
    decreases i
  {
    hide PollOne, Visits, PassVerdict, PassState;
    m := 0;
    if i == 0 {
      PassNone(s, replies);
    } else {
      PollOneFrame(s, i - 1, replies[i - 1]);
      PollOneVisits(s, i - 1, replies[i - 1]);
      PollLaw(s, i - 1, replies[i - 1]);
      var (s1, v) := PollOne(s, i - 1, replies[i - 1]);
      if v == Continue {
        var rest := PassEnds(s1, i - 1, replies);
        var (s', v') := PollBelow(s1, i - 1, replies);
        VerdictMore(i, replies, rest, v');
        StateMore(s, i, replies, rest, s');
        m := rest + 1;
      } else {
        PassStops(s, i, replies);
        m := 1;
      }
    }
  }

  lemma PassNone(s: State, replies: seq<PollReply>)
    ensures PassVerdict(0, replies, 0, Continue) && PassState(s, 0, replies, 0, s)
  {
    assert s.pending == s.pending[..0] + ([] + s.pending[0..]);
  }

  lemma PassStops(s: State, i: nat, replies: seq<PollReply>)
    requires 0 < i <= |s.pending| && i <= |replies| && PollOne(s, i - 1, replies[i - 1]).1 != Continue
    ensures PassVerdict(i, replies, 1, PollOne(s, i - 1, replies[i - 1]).1)
    ensures PassState(s, i, replies, 1, PollOne(s, i - 1, replies[i - 1]).0)
  {
    PollLaw(s, i - 1, replies[i - 1]);
    hide PollOne, Settles, GoesOn, EndsProgram, RecordOf, Without;
    Downwards(s.pending, replies, i - 1, i);
    Downwards(s.pending, replies, i - 1, i - 1);
    SettledParts(s.pending, i - 1, Settles(replies[i - 1]));
  }

  lemma SettledParts(calls: seq<Call>, i: nat, settled: bool)
    requires i < |calls|
    ensures (if settled then Without(calls, i) else calls) ==
            calls[..i] + ((if settled then [] else [calls[i]]) + calls[i + 1..])
  {
    assert [] + calls[i + 1..] == calls[i + 1..];
  }

  lemma Downwards(calls: seq<Call>, replies: seq<PollReply>, lo: nat, hi: nat)
    requires lo <= hi <= |calls| && hi <= |replies|
    ensures lo == hi ==> RecordsDown(calls, replies, lo, hi) == [] && Unsettled(calls, replies, lo, hi) == []
    ensures lo < hi ==>
              && RecordsDown(calls, replies, lo, hi) ==
                 (if Settles(replies[hi - 1]) then [RecordOf(calls[hi - 1], replies[hi - 1])] else [])
                 + RecordsDown(calls, replies, lo, hi - 1)
              && Unsettled(calls, replies, lo, hi) ==
                 Unsettled(calls, replies, lo, hi - 1) + if Settles(replies[hi - 1]) then [] else [calls[hi - 1]]
  {
    hide Settles, RecordOf;
  }

  lemma VerdictMore(i: nat, replies: seq<PollReply>, rest: nat, v: Verdict)
    requires 0 < i <= |replies| && GoesOn(replies[i - 1]) && PassVerdict(i - 1, replies, rest, v)
    ensures PassVerdict(i, replies, rest + 1, v)
  {
    GoesOnLasts(replies[i - 1]);
    hide GoesOn, EndsProgram;
  }

  lemma GoesOnLasts(reply: PollReply)
    requires GoesOn(reply)
    ensures !EndsProgram(reply)
  {
  }

  lemma StateMore(s: State, i: nat, replies: seq<PollReply>, rest: nat, s': State)
    requires 0 < i <= |s.pending| && i <= |replies| && PollOne(s, i - 1, replies[i - 1]).1 == Continue
    requires PassState(PollOne(s, i - 1, replies[i - 1]).0, i - 1, replies, rest, s')
    ensures PassState(s, i, replies, rest + 1, s')
  {
    var reply := replies[i - 1];
    PollLaw(s, i - 1, reply);
    PollOneFrame(s, i - 1, reply);
    var s1 := PollOne(s, i - 1, reply).0;
    var lo := i - 1 - rest;
    hide *;
    GoesOnLasts(reply);
    PrefixDecides(s1.pending, s.pending, replies, lo, i - 1);
    Downwards(s.pending, replies, lo, i);
    SamePrefix(s1.pending, s.pending, i - 1, lo);
    SettledTail(s.pending, i - 1, Settles(reply));
    NoRecords(s.records);
    StateParts(s, i, replies, rest, s1, s', if Settles(reply) then [RecordOf(s.pending[i - 1], reply)] else [],
               if Settles(reply) then [] else [s.pending[i - 1]]);
  }

  lemma SamePrefix(a: seq<Call>, b: seq<Call>, n: nat, lo: nat)
    requires lo <= n <= |a| && n <= |b| && a[..n] == b[..n]
    ensures a[..lo] == b[..lo] && (lo < n ==> a[lo] == b[lo])
  {
    assert a[..n][..lo] == a[..lo] && b[..n][..lo] == b[..lo];
    assert lo < n ==> a[..n][lo] == a[lo] && b[..n][lo] == b[lo];
  }

  lemma StateParts(s: State, i: nat, replies: seq<PollReply>, rest: nat, s1: State, s': State,
                   more: seq<Record>, mid: seq<Call>)
    requires 0 < i <= |s.pending| && i <= |replies| && i - 1 <= |s1.pending|
    requires PassState(s1, i - 1, replies, rest, s') && s1.terminal == s.terminal && !EndsProgram(replies[i - 1])
    requires s1.records == s.records + more && s1.pending[i - 1..] == mid + s.pending[i..]
    requires var lo := i - 1 - rest;
             && s1.pending[..lo] == s.pending[..lo] && (rest > 0 ==> s1.pending[lo] == s.pending[lo])
             && RecordsDown(s.pending, replies, lo, i) == more + RecordsDown(s1.pending, replies, lo, i - 1)
             && Unsettled(s.pending, replies, lo, i) == Unsettled(s1.pending, replies, lo, i - 1) + mid
    ensures PassState(s, i, replies, rest + 1, s')
  {
    hide Settles, EndsProgram, RecordOf, RecordsDown, Unsettled;
    var lo := i - 1 - rest;
    Regroup(s.records, more, RecordsDown(s1.pending, replies, lo, i - 1));
    Regroup(Unsettled(s1.pending, replies, lo, i - 1), mid, s.pending[i..]);
  }

  lemma NoRecords(records: seq<Record>)
    ensures records + [] == records
  {
  }

  lemma Regroup<T>(a: seq<T>, b: seq<T>, c: seq<T>)
    ensures (a + b) + c == a + (b + c)
  {
  }

  lemma SettledTail(calls: seq<Call>, i: nat, settled: bool)
    requires i < |calls|
    ensures var after := if settled then Without(calls, i) else calls;
            i <= |after| && after[i..] == (if settled then [] else [calls[i]]) + calls[i + 1..]
  {
    assert [] + calls[i + 1..] == calls[i + 1..];
  }

  /** The ids of `calls`, last first. */
  function Backwards(calls: seq<Call>): seq<string> {
    if calls == [] then [] else [calls[|calls| - 1].id] + Backwards(calls[..|calls| - 1])
  }

  /** The calls that the host says are still running. */
  function StillRunning(calls: seq<Call>, replies: seq<PollReply>): seq<Call>
    requires |calls| <= |replies|
  {
    if calls == [] then []
    else
      var n := |calls| - 1;
      var rest := StillRunning(calls[..n], replies);
      if replies[n].Running? then rest + [calls[n]] else rest
  }

  /** A pass visits the pending calls from the last to the first, each at most once although
      finished calls are removed on the way. If it is not cut short by an error or a terminating
      result it visits each exactly once, and exactly the running ones stay pending, in order. */
  lemma {:induction false} PassVisits(s: State, i: nat, replies: seq<PollReply>) returns (m: nat)
    requires i <= |s.pending| && i <= |replies|
    ensures m <= i == |Backwards(s.pending[..i])|
    ensures var (s', v) := PollBelow(s, i, replies);
            && Visits(s'.trace) == Visits(s.trace) + Backwards(s.pending[..i])[..m]
            && (v == Continue ==> m == i && s'.pending == StillRunning(s.pending[..i], replies) + s.pending[i..])
    decreases i
  {
    hide PollOne, Visits;
    BackwardsLength(s.pending[..i]);
    m := 0;
    if i > 0 {
      var reply := replies[i - 1];
      PollOneFrame(s, i - 1, reply);
      PollOneVisits(s, i - 1, reply);
      var (s1, v) := PollOne(s, i - 1, reply);
      assert s.pending[..i][..i - 1] == s.pending[..i - 1];
      m := 1;
      if v == Continue {
        var rest := PassVisits(s1, i - 1, replies);
        m := rest + 1;
        VisitsJoin(Visits(s.trace), s.pending[i - 1].id, Backwards(s.pending[..i - 1]), rest);
        PendingJoin(s.pending, i - 1, reply, s1.pending, StillRunning(s.pending[..i - 1], replies));
      } else {
        assert Backwards(s.pending[..i])[..1] == [s.pending[i - 1].id];
      }
    }
  }

  lemma VisitsJoin(a: seq<string>, id: string, b: seq<string>, m: nat)
    requires m <= |b|
    ensures a + [id] + b[..m] == a + ([id] + b)[..m + 1]
  {
  }

  lemma PendingJoin(pending: seq<Call>, i: nat, reply: PollReply, after: seq<Call>, running: seq<Call>)
    requires i < |pending| && after == if reply.Running? then pending else Without(pending, i)
    ensures running + after[i..] == (if reply.Running? then running + [pending[i]] else running) + pending[i + 1..]
  {
  }

  lemma {:induction false} BackwardsLength(calls: seq<Call>)
    ensures |Backwards(calls)| == |calls|
    decreases |calls|
  {
    if calls != [] { BackwardsLength(calls[..|calls| - 1]); }
  }
}
