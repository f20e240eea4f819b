/** What a guest program emits or selects as its output, the exact byte budget of it, and the
    decision about the final status. A content block is its JSON encoding.
 */
module BridgeOutput {
  import opened Wrappers
  import opened BridgeCalls

  const MAX_BLOCKS := 128
  const MAX_PARTS := 128
  const MEMORY := 33_554_432
  const OUTPUT_DIAGNOSTIC_RESERVE := 4096

  datatype Output = Output(emitted: seq<string>, emittedBytes: nat, parts: nat, blocks: nat, bytes: nat,
                           hasEmission: bool, selected: bool, selectedReference: Option<nat>)

  function NoOutput(): Output {
    Output([], 0, 0, 0, 0, false, false, None)
  }

  // ---------------------------------------------------------------- the encoded array

  function Joined(blocks: seq<string>): string {
    if blocks == [] then "" else if |blocks| == 1 then blocks[0] else blocks[0] + "," + Joined(blocks[1..])
  }

  /** The JSON array of the blocks. */
  function Encoded(blocks: seq<string>): string {
    "[" + Joined(blocks) + "]"
  }

  function Bytes(blocks: seq<string>): nat {
    if blocks == [] then 0 else |blocks[0]| + Bytes(blocks[1..])
  }

  /** Framing of an array of `n` elements: commas and brackets. */
  function Framing(n: nat): nat {
    (if n == 0 then 0 else n - 1) + 2
  }

  lemma {:induction false} EncodedSize(blocks: seq<string>)
    ensures |Encoded(blocks)| == Bytes(blocks) + Framing(|blocks|)
  {
    if |blocks| > 1 {
      EncodedSize(blocks[1..]);
    } else if |blocks| == 1 {
      assert blocks[1..] == [];
    }
  }

  lemma {:induction false} BytesAppend(a: seq<string>, b: seq<string>)
    ensures Bytes(a + b) == Bytes(a) + Bytes(b)
    decreases |a|
  {
    if a == [] {
      assert a + b == b;
    } else {
      assert (a + b)[1..] == a[1..] + b;
      BytesAppend(a[1..], b);
    }
  }

  // ---------------------------------------------------------------- the operations

  /** Room for more blocks in the whole output, or a failure. */
  function OutputBudget(o: Output, count: nat, bytes: nat): Option<Output> {
    if o.parts >= MAX_PARTS || o.blocks + count > MAX_BLOCKS
       || o.bytes + bytes + Framing(o.blocks + count) > MEMORY - OUTPUT_DIAGNOSTIC_RESERVE
    then None
    else Some(o.(blocks := o.blocks + count, bytes := o.bytes + bytes))
  }

  predicate HasSelection(o: Output) {
    o.selected || o.selectedReference.Some?
  }

  /** `emit`: `size` is the length of the guest's text, `blocks` what it validates to. */
  function Emit(o: Output, size: nat, blocks: Option<seq<string>>): Option<Output> {
    if HasSelection(o) || size > MAX_JSON || blocks.None? then None else AppendBudget(o, blocks.value)
  }

  function AppendBudget(o: Output, more: seq<string>): Option<Output> {
    if |o.emitted| + |more| > MAX_BLOCKS || o.emittedBytes + Bytes(more) + Framing(|o.emitted| + |more|) > MAX_JSON
    then None
    else match OutputBudget(o, |more|, Bytes(more))
      case None => None
      case Some(b) =>
        Some(b.(parts := b.parts + 1, emittedBytes := b.emittedBytes + Bytes(more), hasEmission := true,
            emitted := b.emitted + more))
  }

  /** `emit_reference`, once the host has measured the selected blocks. */
  function EmitReference(o: Output, count: nat, bytes: nat): Option<Output> {
    if HasSelection(o) then None
    else match OutputBudget(o, count, bytes)
      case None => None
      case Some(b) => Some(b.(parts := b.parts + 1, hasEmission := true))
  }

  function SelectResult(o: Output, size: nat, valid: bool): Option<Output> {
    if HasSelection(o) || o.hasEmission || size > MAX_JSON || !valid then None else Some(o.(selected := true))
  }

  /** `held`: the token names a retained reference. */
  function SelectReference(o: Output, token: nat, held: bool): Option<Output> {
    if !held || HasSelection(o) || o.hasEmission then None else Some(o.(selectedReference := Some(token)))
  }

  /** Promoting the content of the program's own result into the output. */
  function Promote(o: Output, blocks: seq<string>): Option<Output> {
    if o.emittedBytes + Bytes(blocks) + Framing(|o.emitted| + |blocks|) > MAX_JSON then None
    else match OutputBudget(o, |blocks|, Bytes(blocks))
      case None => None
      case Some(b) => Some(b.(parts := b.parts + 1, emitted := b.emitted + blocks))
  }

  // ---------------------------------------------------------------- the budget

  /** Another part of so many blocks and bytes leaves the whole output within its limits. */
  predicate Room(o: Output, count: nat, bytes: nat) {
    && o.parts + 1 <= 128 && o.blocks + count <= 128
    && o.bytes + bytes + Framing(o.blocks + count) + 4096 <= 33_554_432
  }

  /** The running counter is the exact encoded size of what was emitted, and that fits. */
  ghost predicate Exact(o: Output) {
    && o.emittedBytes == Bytes(o.emitted)
    && |Encoded(o.emitted)| == o.emittedBytes + Framing(|o.emitted|) <= MAX_JSON
    && |o.emitted| <= o.blocks <= MAX_BLOCKS && o.emittedBytes <= o.bytes && o.parts <= MAX_PARTS
    && o.bytes + Framing(o.blocks) <= MEMORY - OUTPUT_DIAGNOSTIC_RESERVE
    && (o.hasEmission ==> !HasSelection(o)) && !(o.selected && o.selectedReference.Some?)
    && (o.emitted != [] ==> o.hasEmission)
  }

  lemma NothingIsExact()
    ensures Exact(NoOutput())
  {
  }

  /** The counters of one more part, and that the guest has emitted something. */
  predicate Counted(o: Output, r: Output, count: nat, bytes: nat) {
    r.parts == o.parts + 1 && r.blocks == o.blocks + count && r.bytes == o.bytes + bytes && r.hasEmission
  }

  /** An emission keeps the budget exact, adds just its blocks at the end, and is refused exactly
      when the encoded array or the whole output would grow too large. */
  lemma EmitIsExact(o: Output, size: nat, blocks: seq<string>)
    requires Exact(o)
    ensures var all := o.emitted + blocks;
            var r := Emit(o, size, Some(blocks));
            && (r.Some? ==> Exact(r.value) && r.value.emitted == all && Counted(o, r.value, |blocks|, Bytes(blocks)))
            && (r.Some? <==> && !HasSelection(o) && size <= 1_048_576 && |all| <= 128
                             && |Encoded(all)| <= 1_048_576 && Room(o, |blocks|, Bytes(blocks)))
  {
    BytesAppend(o.emitted, blocks);
    EncodedSize(o.emitted + blocks);
    hide Bytes, Encoded;
  }

  /** Emitting a reference, selecting an own result and selecting a reference: each succeeds exactly when it
      is valid, has room and does not meet an output of the other kind, and changes nothing else. */
  lemma OthersExactly(o: Output, count: nat, bytes: nat, size: nat, valid: bool)
    ensures var r := EmitReference(o, count, bytes);
            && (r.Some? <==> !o.selected && o.selectedReference == None && Room(o, count, bytes))
            && (r.Some? ==> Counted(o, r.value, count, bytes)
                            && r.value == o.(parts := r.value.parts, blocks := r.value.blocks,
                                             bytes := r.value.bytes, hasEmission := true))
    ensures var r := SelectResult(o, size, valid);
            && (r.Some? <==> valid && size <= 1_048_576 && !o.selected && o.selectedReference == None && !o.hasEmission)
            && (r.Some? ==> r.value == o.(selected := true))
    ensures var r := SelectReference(o, count, valid);
            && (r.Some? <==> valid && !o.selected && o.selectedReference == None && !o.hasEmission)
            && (r.Some? ==> r.value == o.(selectedReference := Some(count)))
  {
  }

  lemma OthersKeepExact(o: Output, count: nat, bytes: nat, size: nat, valid: bool)
    requires Exact(o)
    ensures SelectReference(o, count, valid).Some? ==>
              Exact(SelectReference(o, count, valid).value) &&
              SelectReference(o, count, valid).value.emitted == o.emitted
    ensures EmitReference(o, count, bytes).Some? ==>
              Exact(EmitReference(o, count, bytes).value) && EmitReference(o, count, bytes).value.emitted == o.emitted
    ensures SelectResult(o, size, valid).Some? ==>
              Exact(SelectResult(o, size, valid).value) && SelectResult(o, size, valid).value.emitted == o.emitted
  {
    hide Bytes, Encoded;
  }

  datatype OutputEvent =
    | Emits(size: nat, blocks: Option<seq<string>>)
    | EmitsReference(count: nat, bytes: nat)
    | Selects(size: nat, valid: bool)
    | SelectsReference(token: nat, held: bool)

  /** A failed operation leaves the output as it was. */
  function After(o: Output, e: OutputEvent): Output {
    var r := match e
      case Emits(size, blocks) => Emit(o, size, blocks)
      case EmitsReference(count, bytes) => EmitReference(o, count, bytes)
      case Selects(size, valid) => SelectResult(o, size, valid)
      case SelectsReference(token, held) => SelectReference(o, token, held);
    if r.Some? then r.value else o
  }

  function AfterAll(o: Output, es: seq<OutputEvent>): Output
    decreases |es|
  {
    if es == [] then o else AfterAll(After(o, es[0]), es[1..])
  }

  lemma AfterIsExact(o: Output, e: OutputEvent)
    requires Exact(o)
    ensures Exact(After(o, e)) && o.emitted <= After(o, e).emitted
  {
    hide Exact, Emit, EmitReference, SelectResult, SelectReference;
    match e
    case Emits(size, blocks) => if blocks.Some? { EmitIsExact(o, size, blocks.value); } else { NoBlocks(o, size); }
    case EmitsReference(count, bytes) => OthersKeepExact(o, count, bytes, 0, false);
    case Selects(size, valid) => OthersKeepExact(o, 0, 0, size, valid);
    case SelectsReference(token, held) => OthersKeepExact(o, token, 0, 0, held);
  }

  lemma NoBlocks(o: Output, size: nat)
    ensures Emit(o, size, None).None?
  {
  }

  /** After every sequence of output operations the counter is the exact encoded size, so the
      accepted output always encodes within 1 MiB. */
  lemma {:induction false} OutputStaysExact(o: Output, es: seq<OutputEvent>)
    requires Exact(o)
    ensures Exact(AfterAll(o, es)) && o.emitted <= AfterAll(o, es).emitted
    decreases |es|
  {
    hide Exact, After;
    if es != [] {
      AfterIsExact(o, es[0]);
      OutputStaysExact(After(o, es[0]), es[1..]);
    }
  }

  /** The byte check behind the promotion, as the code writes it. */
  predicate Recheck(selected: seq<string>) {
    |selected| > MAX_BLOCKS || |Encoded(selected)| > MAX_JSON
  }

  /** It never fires: neither on what was emitted nor on what a promotion adds. */
  lemma RecheckNeverFires(o: Output, blocks: seq<string>)
    requires Exact(o)
    ensures !Recheck(o.emitted)
    ensures Promote(o, blocks).Some? ==> !Recheck(Promote(o, blocks).value.emitted)
  {
    BytesAppend(o.emitted, blocks);
    EncodedSize(o.emitted + blocks);
    hide Bytes, Encoded;
  }

  // ---------------------------------------------------------------- the final status

  datatype Status = Completed | Terminated | StatusCancelled | TimedOut | StatusError

  /** How the run ended: the first decision of the invocation. */
  function FirstStatus(terminated: bool, env: Env, fatal: Option<string>, returned: bool): Status {
    if terminated then Terminated
    else if env.cancelled then StatusCancelled
    else if env.expired then TimedOut
    else if env.outOfMemory then StatusError
    else if fatal.Some? then StatusError
    else if returned then Completed
    else StatusError
  }

  /** Content in the program's result: none, invalid, or blocks. */
  datatype Content = NoContent | BadContent | Blocks(blocks: seq<string>)

  /** What happens to the attachments after cleanup: whether there are any, and whether their owner
      is still alive. */
  datatype Attachments = Attachments(any: bool, live: bool)

  datatype Decision = Decision(status: Status, selected: seq<string>, hasSelection: bool)

  /** The output together with the status, up to the byte check. */
  function Selected(o: Output, first: Status, terminalReference: bool, content: Content): Decision {
    var exact := o.selected && first == Completed;
    if (exact || o.selectedReference.Some?) && first == Completed && content != NoContent then
      Decision(StatusError, o.emitted, o.hasEmission)
    else if !exact && o.selectedReference.None? && !terminalReference &&
            (first == Completed || first == Terminated) then
      match content
      case NoContent => Decision(first, o.emitted, o.hasEmission)
      case BadContent => Decision(StatusError, o.emitted, o.hasEmission)
      case Blocks(blocks) =>
        if Promote(o, blocks).None? then Decision(StatusError, o.emitted, true)
        else Decision(first, o.emitted + blocks, true)
    else Decision(first, o.emitted, o.hasEmission)
  }

  function Checked(d: Decision): Decision {
    if Recheck(d.selected) then Decision(StatusError, [], false) else d
  }

  function Decide(o: Output, first: Status, terminalReference: bool, content: Content, a: Attachments): Decision {
    var d := Checked(Selected(o, first, terminalReference, content));
    if a.any && !a.live then d.(status := StatusError) else d
  }

  /** The program came to its own end: it returned, and nothing failed, stopped or ended it before. */
  predicate CleanReturn(terminated: bool, env: Env, fatal: Option<string>, returned: bool) {
    returned && fatal == None && !terminated && !env.cancelled && !env.expired && !env.outOfMemory
  }

  /** The content of the program's own result joins the output. */
  predicate Joins(o: Output, content: Content) {
    && content.Blocks? && !HasSelection(o)
    && |Encoded(o.emitted + content.blocks)| <= 1_048_576 && Room(o, |content.blocks|, Bytes(content.blocks))
  }

  /** The final status and the selected blocks, exactly. A terminating result wins over everything but
      lost attachments; then a cancellation, then the deadline; the invocation is completed if and only
      if the program returned cleanly and the content of its result, if any, can join the output; all
      else is an error. What was emitted is always selected. */
  lemma StatusExactly(o: Output, terminated: bool, env: Env, fatal: Option<string>, returned: bool,
                      content: Content, a: Attachments)
    requires Exact(o)
    ensures var d := Decide(o, FirstStatus(terminated, env, fatal, returned), terminated, content, a);
            var kept, clean := a.any ==> a.live, CleanReturn(terminated, env, fatal, returned);
            && (d.status == Terminated <==> kept && terminated)
            && (d.status == StatusCancelled <==> kept && !terminated && env.cancelled)
            && (d.status == TimedOut <==> kept && !terminated && !env.cancelled && env.expired)
            && (d.status == Completed <==> kept && clean && (content == NoContent || Joins(o, content)))
            && d.selected == (if clean && Joins(o, content) then o.emitted + content.blocks else o.emitted)
            && (d.hasSelection <==> o.hasEmission || (clean && content.Blocks? && !HasSelection(o)))
  {
    RecheckNeverFires(o, if content.Blocks? then content.blocks else []);
    if content.Blocks? { PromoteExactly(o, content.blocks); }
    hide Exact, Recheck, Encoded, Room, Promote;
  }

  lemma PromoteExactly(o: Output, blocks: seq<string>)
    requires Exact(o)
    ensures var r := Promote(o, blocks);
            && (r.Some? <==> |Encoded(o.emitted + blocks)| <= 1_048_576 && Room(o, |blocks|, Bytes(blocks)))
            && (r.Some? ==> r.value.emitted == o.emitted + blocks)
  {
    BytesAppend(o.emitted, blocks);
    EncodedSize(o.emitted + blocks);
    hide Bytes, Encoded;
  }

  /** The final status is never "completed" after a latched failure, a cancellation, the deadline
      or a memory failure, and never "terminated" unless a terminating result arrived. Nothing later
      turns another status into either. */
  lemma CompletedMeansClean(o: Output, terminated: bool, env: Env, fatal: Option<string>, returned: bool,
                            terminalReference: bool, content: Content, a: Attachments)
    ensures var s := Decide(o, FirstStatus(terminated, env, fatal, returned), terminalReference, content, a).status;
            && (s == Completed ==>
                  fatal == None && returned && !terminated && !env.cancelled && !env.expired && !env.outOfMemory &&
                  (a.any ==> a.live))
            && (s == Terminated ==> terminated)
  {
    hide Promote, Recheck;
  }
}
