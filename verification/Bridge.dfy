/** The bridge object: its fields, its operations, and the two loops around it. */
module Bridge {
  import opened Wrappers
  import opened BridgeCalls
  import opened BridgeOutput

  class Bridge {
    var names: set<string>
    var pending: seq<Call>
    var records: seq<Record>
    var started: nat
    var fatal: Option<string>
    var seen: set<string>
    var terminal: Option<Terminal>
    ghost var trace: seq<HostOp>

    var emitted: seq<string>
    var emittedBytes: nat
    var outputParts: nat
    var outputBlocks: nat
    var outputBytes: nat
    var hasEmission: bool
    var selected: bool
    var selectedReference: Option<nat>

    ghost function Calls(): State
      reads this
    {
      State(names, pending, records, started, fatal, seen, terminal, trace)
    }

    ghost function Out(): Output
      reads this
    {
      Output(emitted, emittedBytes, outputParts, outputBlocks, outputBytes, hasEmission, selected, selectedReference)
    }

    constructor (names: set<string>)
      ensures Calls() == Start(names) && Good(Calls()) && Out() == NoOutput() && Exact(Out())
    {
      this.names := names;
      pending, records, started, fatal, seen, terminal, trace := [], [], 0, None, {}, None, [];
      emitted, emittedBytes, outputParts, outputBlocks, outputBytes := [], 0, 0, 0, 0;
      hasEmission, selected, selectedReference := false, false, None;
      new;
      StartIsGood(names);
      NothingIsExact();
    }

    method CheckAll(env: Env) returns (error: Option<string>)
      ensures error == Check(Calls(), env)
    {
      if env.cancelled { return Some("codemode cancelled"); }
      if env.expired { return Some("codemode deadline exceeded"); }
      if env.outOfMemory { return Some("codemode memory budget exceeded"); }
      return fatal;
    }

    /** `start`: validate, count, ask the host, and accept its request id. */
    method StartTool(env: Env, name: string, args: Args, reply: StartReply) returns (r: Result<nat>)
      requires Good(Calls())
      modifies this
      ensures (Calls(), r) == StartCall(old(Calls()), env, name, args, reply) && Good(Calls())
      ensures Out() == old(Out())
    {
      StepKeeps(Calls(), GuestStarts(env, name, args, reply));
      hide Good;
      var error := CheckAll(env);
      if error.Some? { return Err(error.value); }
      if name !in names { return Err("tool is not in this invocation's effective catalog"); }
      if args.bytes > MAX_JSON { r := FailWith("tool arguments exceed 1 MiB"); return; }
      if !args.parses { return Err("invalid tool argument JSON"); }
      if !args.isObject { return Err("tool arguments must be an object"); }
      if started >= MAX_CALLS || |pending| >= MAX_ACTIVE {
        r := FailWith("tool call budget exceeded (128 total / 8 active)");
        return;
      }
      r := StartChecked(name, reply);
    }

    method FailWith(error: string) returns (r: Result<nat>)
      modifies `fatal
      ensures fatal == Some(error) && r == Err(error)
    {
      fatal := Some(error);
      return Err(error);
    }

    method StartChecked(name: string, reply: StartReply) returns (r: Result<nat>)
      modifies this
      ensures (Calls(), r) == StartOnHost(old(Calls()), name, reply) && Out() == old(Out())
    {
      started := started + 1;
      var token := started;
      trace := trace + [Started(name)];
      if reply.StartError? {
        records := records + [Record(name, StartFailed)];
        r := FailWith(START_FAILED + reply.error);
        return;
      }
      r := AcceptReply(name, token, reply);
    }

    method AcceptReply(name: string, token: nat, reply: StartReply) returns (r: Result<nat>)
      requires reply.StartAccepted? && token == started
      modifies this
      ensures (Calls(), r) == Accept(old(Calls()), name, reply) && Out() == old(Out())
    {
      if reply.id == None || reply.id.value == "" {
        r := FailWith(NO_REQUEST_ID);
        return;
      }
      var id := reply.id.value;
      if id in seen {
        r := FailWith(REUSED_ID);
        return;
      }
      seen := seen + {id};
      pending := pending + [Call(id, token, name)];
      if !reply.regular {
        r := FailWith(BAD_STATUS);
        return;
      }
      return Ok(token);
    }

    /** The poll pass: from the last pending call to the first, removing finished ones in place. */
    method PollAll(replies: seq<PollReply>) returns (v: Verdict)
      requires Good(Calls()) && |replies| == |pending|
      modifies this
      ensures (Calls(), v) == PollPass(old(Calls()), replies) && Good(Calls()) && Out() == old(Out())
    {
      PollKeeps(Calls(), replies);
      hide *;
      var i := |pending|;
      v := Continue;
      while i > 0
        invariant 0 <= i <= |pending| && i <= |replies|
        invariant v == Continue && PollBelow(Calls(), i, replies) == PollPass(old(Calls()), replies)
        invariant Out() == old(Out())
      {
        i := i - 1;
        PollOneFrame(Calls(), i, replies[i]);
        PollStep(Calls(), i, replies);
        v := PollCall(i, replies[i]);
        if v != Continue { return; }
      }
      PollEnds(Calls(), replies);
    }

    method PollCall(i: nat, reply: PollReply) returns (v: Verdict)
      requires i < |pending|
      modifies this
      ensures (Calls(), v) == PollOne(old(Calls()), i, reply) && Out() == old(Out())
    {
      var call := pending[i];
      trace := trace + [Polled(call.id, reply.Finished?)];
      match reply {
        case PollError(e) => return Stop(e);
        case PollRejected(e) => return Stop(e);
        case Running => return Continue;
        case Finished(failed, isError, retained, disposed, terminate, readable) =>
          if !failed && !retained {
            fatal := Some("invalid result reference");
            return Stop("invalid result reference");
          }
          pending := pending[..i] + pending[i + 1..];
          trace := trace + [Disposed(call.id)];
          records := records + [Record(call.name, if failed || isError then CallError else CallDone)];
          if !disposed { return Stop("host dispose failed"); }
          if failed { return Stop("host lifecycle failed"); }
          if terminate {
            terminal := Some(Terminal(call.token, isError));
            return Terminate;
          }
          if !readable {
            fatal := Some("invalid native result");
            return Stop("invalid native result");
          }
          return Continue;
      }
    }

    /** `cleanup`: drain the pending calls, cancelling and disposing each. */
    method CleanUpCalls()
      requires Good(Calls())
      modifies this
      ensures Calls() == Cleanup(old(Calls())) && Good(Calls()) && pending == [] && Out() == old(Out())
    {
      StepKeeps(Calls(), CleanUp);
      hide Good;
      while pending != []
        invariant Cleanup(Calls()) == Cleanup(old(Calls())) && Out() == old(Out())
        decreases |pending|
      {
        var call := pending[0];
        pending := pending[1..];
        trace := trace + [Cancelled(call.id), Disposed(call.id), Released(call.id)];
        records := records + [Record(call.name, CallCancelled)];
      }
    }

    method BudgetOutput(count: nat, bytes: nat) returns (ok: bool)
      modifies this
      ensures ok <==> OutputBudget(old(Out()), count, bytes).Some?
      ensures ok <==> Room(old(Out()), count, bytes)
      ensures ok ==> Out() == OutputBudget(old(Out()), count, bytes).value && Calls() == old(Calls())
      ensures !ok ==> Out() == old(Out()) && fatal.Some? && Calls() == old(Calls()).(fatal := fatal)
    {
      if outputParts >= 128 || outputBlocks + count > MAX_BLOCKS
         || outputBytes + bytes + Framing(outputBlocks + count) > MEMORY - OUTPUT_DIAGNOSTIC_RESERVE {
        fatal := Some("native output budget exceeded");
        return false;
      }
      outputBlocks := outputBlocks + count;
      outputBytes := outputBytes + bytes;
      return true;
    }

    /** An operation on the output that succeeds gives the new output; one that fails latches the
        failure and leaves the output alone; a bridge that already failed does neither. */
    twostate predicate OutputLaw(env: Env, r: Option<Output>, ok: bool)
      reads this
    {
      if Check(old(Calls()), env).Some? then !ok && Calls() == old(Calls()) && Out() == old(Out())
      else if r.Some? then ok && Out() == r.value && Calls() == old(Calls())
      else !ok && Out() == old(Out()) && fatal.Some? && Calls() == old(Calls()).(fatal := fatal)
    }

    method EmitBlocks(env: Env, size: nat, blocks: Option<seq<string>>) returns (ok: bool)
      requires Exact(Out())
      modifies this
      ensures OutputLaw(env, Emit(old(Out()), size, blocks), ok) && Exact(Out())
    {
      AfterIsExact(Out(), Emits(size, blocks));
      hide Exact, Encoded;
      var error := CheckAll(env);
      if error.Some? { return false; }
      if selected || selectedReference.Some? {
        fatal := Some("tools.emit cannot be combined with tools.result");
        return false;
      }
      if size > MAX_JSON { fatal := Some("native emitted content exceeds 1 MiB"); return false; }
      if blocks.None? { fatal := Some("invalid emitted content"); return false; }
      hide Check;
      ok := AppendBlocks(blocks.value);
    }

    method AppendBlocks(more: seq<string>) returns (ok: bool)
      modifies this
      ensures ok <==> AppendBudget(old(Out()), more).Some?
      ensures ok ==> Out() == AppendBudget(old(Out()), more).value && Calls() == old(Calls())
      ensures !ok ==> Out() == old(Out()) && fatal.Some? && Calls() == old(Calls()).(fatal := fatal)
    {
      var bytes := BlockBytes(more);
      if |emitted| + |more| > MAX_BLOCKS || emittedBytes + bytes + Framing(|emitted| + |more|) > MAX_JSON {
        fatal := Some("native emitted content budget exceeded (128 blocks / 1 MiB)");
        return false;
      }
      ok := BudgetOutput(|more|, bytes);
      if !ok { return; }
      outputParts := outputParts + 1;
      emittedBytes := emittedBytes + bytes;
      hasEmission := true;
      emitted := emitted + more;
    }

    method SelectOwn(env: Env, size: nat, valid: bool) returns (ok: bool)
      requires Exact(Out())
      modifies this
      ensures OutputLaw(env, SelectResult(old(Out()), size, valid), ok) && Exact(Out())
    {
      AfterIsExact(Out(), Selects(size, valid));
      hide Exact, Encoded;
      var error := CheckAll(env);
      if error.Some? { return false; }
      if selected || selectedReference.Some? || hasEmission {
        fatal := Some("tools.result requires exactly one selection");
        return false;
      }
      if size > MAX_JSON { fatal := Some("native result selection exceeds 1 MiB"); return false; }
      if !valid { fatal := Some("tools.result requires a finalized native result"); return false; }
      selected := true;
      return true;
    }
  }

  /** A failure latched at any moment: whatever the guest does next, no further call is started on
      the host and the invocation does not end as completed. */
  lemma FailureIsFinal(s: State, es: seq<Event>, o: Output, terminated: bool, env: Env, returned: bool,
                       terminalReference: bool, content: Content, a: Attachments)
    requires s.fatal.Some? && Run(s, es)
    ensures var last := Cleanup(End(s, es));
            && Starts(last.trace) == Starts(s.trace)
            && Decide(o, FirstStatus(terminated, env, last.fatal, returned), terminalReference, content, a).status
               != Completed
  {
    hide *;
    NoStartAfterFailure(s, es);
    CleanupStarts(End(s, es));
    CompletedMeansClean(o, terminated, env, Cleanup(End(s, es)).fatal, returned, terminalReference, content, a);
  }

  /** The status at the end of a run, from what the run left in the bridge. */
  function Final(s: State, o: Output, env: Env, returned: bool, content: Content, a: Attachments): Decision {
    Decide(o, FirstStatus(s.terminal.Some?, env, s.fatal, returned), s.terminal.Some?, content, a)
  }

  /** Over every run of calls and every output the guest made: the invocation is terminated exactly when a
      poll pass met a terminating result, and completed exactly when none did, nothing failed or stopped
      it, and the program returned with content that can join the output, unless attachments were lost. */
  lemma FinalOfRun(names: set<string>, es: seq<Event>, outputs: seq<OutputEvent>, env: Env, returned: bool,
                   content: Content, a: Attachments)
    requires Run(Start(names), es)
    ensures var s := Cleanup(End(Start(names), es));
            var o := AfterAll(NoOutput(), outputs);
            var status := Final(s, o, env, returned, content, a).status;
            var kept, ended := a.any ==> a.live, EndedBy(Start(names), es);
            && Exact(o)
            && (status == Terminated <==> kept && ended)
            && (status == StatusCancelled <==> kept && !ended && env.cancelled)
            && (status == TimedOut <==> kept && !ended && !env.cancelled && env.expired)
            && (status == Completed <==> && kept && CleanReturn(ended, env, End(Start(names), es).fatal, returned)
                                         && (content == NoContent || Joins(o, content)))
  {
    hide *;
    var last := End(Start(names), es);
    TerminalExactly(Start(names), es);
    CleanupIs(last);
    NothingIsExact();
    OutputStaysExact(NoOutput(), outputs);
    StatusExactly(AfterAll(NoOutput(), outputs), last.terminal.Some?, env, last.fatal, returned, content, a);
    StartsOpen(names);
    FinalIs(Cleanup(last), AfterAll(NoOutput(), outputs), env, returned, content, a);
  }

  lemma StartsOpen(names: set<string>)
    ensures Start(names).terminal == None
  {
  }

  lemma FinalIs(s: State, o: Output, env: Env, returned: bool, content: Content, a: Attachments)
    ensures Final(s, o, env, returned, content, a) ==
            Decide(o, FirstStatus(s.terminal.Some?, env, s.fatal, returned), s.terminal.Some?, content, a)
  {
    hide Decide, FirstStatus;
  }

  lemma PollKeeps(s: State, replies: seq<PollReply>)
    requires Good(s) && |replies| == |s.pending|
    ensures Good(PollPass(s, replies).0) && PollPass(s, replies) == PollBelow(s, |s.pending|, replies)
  {
    StepKeeps(s, Poll(replies));
    hide Good, PollBelow;
  }

  lemma PollStep(s: State, i: nat, replies: seq<PollReply>)
    requires i < |s.pending| && i < |replies|
    ensures var (s1, v) := PollOne(s, i, replies[i]);
            && i <= |s1.pending|
            && PollBelow(s, i + 1, replies) == if v == Continue then PollBelow(s1, i, replies) else (s1, v)
  {
    PollOneFrame(s, i, replies[i]);
    hide PollOne;
  }

  lemma PollEnds(s: State, replies: seq<PollReply>)
    ensures PollBelow(s, 0, replies) == (s, Continue)
  {
  }

  /** The bytes of the blocks, summed one by one. */
  method BlockBytes(blocks: seq<string>) returns (bytes: nat)
    ensures bytes == Bytes(blocks)
  {
    bytes := 0;
    assert blocks[..0] == [];
    for i := 0 to |blocks|
      invariant bytes == Bytes(blocks[..i])
    {
      assert blocks[..i + 1] == blocks[..i] + [blocks[i]];
      BytesAppend(blocks[..i], [blocks[i]]);
      bytes := bytes + |blocks[i]|;
    }
    assert blocks[..|blocks|] == blocks;
  }
}
