/** The guest's bounded allocator: one running counter against the table of live blocks, in checked
    64-bit machine arithmetic, with a sticky failure latch.
 */
module Heap {
  import opened Wrappers

  /** `usize` has 64 bits. */
  const WORD_LIMIT := 0x1_0000_0000_0000_0000
  /** The largest size that a layout of alignment 8 may have: `isize::MAX` rounded down to it. */
  const LAYOUT_LIMIT := 0x7FFF_FFFF_FFFF_FFF8

  const ALIGN := 8
  const HEADER := 8
  const EXTRA_OVERHEAD := 16
  const BLOCK_OVERHEAD := HEADER + EXTRA_OVERHEAD

  newtype Word = x: int | 0 <= x < 0x1_0000_0000_0000_0000

  // ---------------------------------------------------------------- checked arithmetic

  function CheckedAdd(a: Word, b: Word): Option<Word> {
    if a as int + b as int < WORD_LIMIT then Some(a + b) else None
  }

  function CheckedSub(a: Word, b: Word): Option<Word> {
    if b <= a then Some(a - b) else None
  }

  function CheckedMul(a: Word, b: Word): Option<Word> {
    if a as int * b as int < WORD_LIMIT then Some((a as int * b as int) as Word) else None
  }

  /** The payload as the delegate rounds it. */
  function RoundUp(size: nat): nat {
    (size + 7) / 8 * 8
  }

  /** What a block of that size costs, or nothing when the size cannot be laid out. */
  function Charge(size: Word): Option<Word> {
    match CheckedAdd(size, 7)
    case None => None
    case Some(padded) =>
      match CheckedAdd(padded / 8 * 8, 8)
      case None => None
      case Some(allocation) =>
        if allocation as int <= LAYOUT_LIMIT then CheckedAdd(allocation, 16) else None
  }

  /** The counter after `old` was given back and `new` taken, if that stays within the limit. */
  function ReplacementLive(live: Word, limit: Word, old_: Word, new_: Word): Option<Word> {
    match CheckedSub(live, old_)
    case None => None
    case Some(rest) =>
      match CheckedAdd(rest, new_)
      case None => None
      case Some(total) => if total <= limit then Some(total) else None
  }

  /** The cost of a block in mathematical integers. */
  function Cost(size: nat): nat {
    RoundUp(size) + BLOCK_OVERHEAD
  }

  /** Sizes whose header and rounded payload the delegate can lay out. */
  predicate CanLayOut(size: nat) {
    RoundUp(size) + HEADER <= LAYOUT_LIMIT
  }

  /** The checked arithmetic refuses exactly the sizes that cannot be laid out, and otherwise gives
      the true cost; so the delegate's unchecked rounding and header addition cannot overflow. */
  lemma ChargeIsCost(size: Word)
    ensures Charge(size).Some? <==> CanLayOut(size as int)
    ensures Charge(size).Some? ==> Charge(size).value as int == Cost(size as int)
  {
    var p := CheckedAdd(size, 7);
    if p.Some? {
      var padded := p.value;
      assert padded as int / 8 * 8 <= padded as int;
      assert (padded / 8 * 8) as int == RoundUp(size as int);
    }
  }

  lemma ReplacementIsExact(live: Word, limit: Word, old_: Word, new_: Word)
    requires old_ <= live
    ensures ReplacementLive(live, limit, old_, new_).Some? <==> live as int - old_ as int + new_ as int <= limit as int
    ensures ReplacementLive(live, limit, old_, new_).Some? ==>
              ReplacementLive(live, limit, old_, new_).value as int == live as int - old_ as int + new_ as int
  {
  }

  // ---------------------------------------------------------------- the block table

  type Pointer = nat
  const NULL: Pointer := 0

  /** Live blocks and the size each was last given. */
  type Blocks = map<Pointer, nat>

  ghost function Total(blocks: Blocks): nat
    decreases |blocks|
  {
    if blocks == map[] then 0
    else
      var p :| p in blocks;
      Cost(blocks[p]) + Total(blocks - {p})
  }

  lemma {:induction false} TotalWithout(blocks: Blocks, p: Pointer)
    requires p in blocks
    ensures Total(blocks) == Cost(blocks[p]) + Total(blocks - {p})
    decreases |blocks|
  {
    var q :| q in blocks && Total(blocks) == Cost(blocks[q]) + Total(blocks - {q});
    if q != p {
      TotalWithout(blocks - {q}, p);
      TotalWithout(blocks - {p}, q);
      assert blocks - {q} - {p} == blocks - {p} - {q};
    }
  }

  lemma TotalWith(blocks: Blocks, p: Pointer, size: nat)
    requires p !in blocks
    ensures Total(blocks[p := size]) == Total(blocks) + Cost(size)
  {
    TotalWithout(blocks[p := size], p);
    assert blocks[p := size] - {p} == blocks;
  }

  lemma TotalMoved(blocks: Blocks, p: Pointer, q: Pointer, size: nat)
    requires p in blocks && (q == p || q !in blocks)
    ensures Total((blocks - {p})[q := size]) == Total(blocks) - Cost(blocks[p]) + Cost(size)
  {
    TotalWithout(blocks, p);
    TotalWith(blocks - {p}, q, size);
  }

  // ---------------------------------------------------------------- one call

  datatype State = State(limit: Word, live: Word, failed: bool, blocks: Blocks)

  datatype Call = Alloc(size: Word) | Calloc(count: Word, each: Word)
                | Realloc(block: Pointer, to: Word) | Dealloc(block: Pointer)

  /** What one call leaves behind and returns. */
  datatype Step = Step(after: State, result: Pointer)

  function Refuse(s: State): Step {
    Step(s.(failed := true), NULL)
  }

  function Grant(s: State, size: nat, live: Option<Word>, answer: Pointer): Step {
    if live.None? || answer == NULL then Refuse(s)
    else Step(s.(live := live.value, blocks := s.blocks[answer := size]), answer)
  }

  function AllocStep(s: State, size: Word, answer: Pointer): Step {
    if size == 0 then Step(s, NULL)
    else match Charge(size)
      case None => Refuse(s)
      case Some(charge) => Grant(s, size as nat, ReplacementLive(s.live, s.limit, 0, charge), answer)
  }

  function CallocStep(s: State, count: Word, each: Word, answer: Pointer): Step {
    if count == 0 || each == 0 then Step(s, NULL)
    else match CheckedMul(count, each)
      case None => Refuse(s)
      case Some(size) => AllocStep(s, size, answer)
  }

  /** The payload that the delegate reports for a live block, with the charged overhead. */
  function Held(s: State, block: Pointer): nat
    requires block in s.blocks
  {
    RoundUp(s.blocks[block]) + BLOCK_OVERHEAD
  }

  function DeallocStep(s: State, block: Pointer): Step
    requires Sound(s) && (block == NULL || block in s.blocks)
  {
    if block == NULL then Step(s, NULL)
    else
      HeldFits(s, block);
      Step(s.(live := s.live - Held(s, block) as Word, blocks := s.blocks - {block}), NULL)
  }

  function ReallocStep(s: State, block: Pointer, to: Word, answer: Pointer): Step
    requires Sound(s) && (block == NULL || block in s.blocks)
  {
    if block == NULL then AllocStep(s, to, answer)
    else if to == 0 then DeallocStep(s, block)
    else match Charge(to)
      case None => Refuse(s)
      case Some(charge) =>
        HeldFits(s, block);
        var live := ReplacementLive(s.live, s.limit, Held(s, block) as Word, charge);
        if live.None? || answer == NULL then Refuse(s)
        else Step(s.(live := live.value, blocks := (s.blocks - {block})[answer := to as nat]), answer)
  }

  function Apply(s: State, call: Call, answer: Pointer): Step
    requires Sound(s) && Legal(s, call, answer)
  {
    match call
    case Alloc(size) => AllocStep(s, size, answer)
    case Calloc(count, each) => CallocStep(s, count, each, answer)
    case Realloc(block, to) => ReallocStep(s, block, to, answer)
    case Dealloc(block) => DeallocStep(s, block)
  }

  /** Callers pass null or a live block, and the delegate never hands out a live block again. */
  predicate Legal(s: State, call: Call, answer: Pointer) {
    match call
    case Alloc(_) => answer !in s.blocks
    case Calloc(_, _) => answer !in s.blocks
    case Realloc(block, _) => (block == NULL || block in s.blocks) && (answer !in s.blocks || answer == block)
    case Dealloc(block) => block == NULL || block in s.blocks
  }

  // ---------------------------------------------------------------- what every call keeps

  /** The counter is the exact cost of the live blocks and within the limit. */
  ghost predicate Sound(s: State) {
    && s.live as int == Total(s.blocks) && s.live <= s.limit && NULL !in s.blocks
    && forall p :: p in s.blocks ==> 0 < s.blocks[p] && CanLayOut(s.blocks[p])
  }

  lemma HeldFits(s: State, block: Pointer)
    requires Sound(s) && block in s.blocks
    ensures Held(s, block) == Cost(s.blocks[block]) <= s.live as int < WORD_LIMIT
  {
    TotalWithout(s.blocks, block);
  }

  /** The call asks for memory. */
  predicate Requests(call: Call) {
    match call
    case Alloc(size) => size != 0
    case Calloc(count, each) => count != 0 && each != 0
    case Realloc(_, to) => to != 0
    case Dealloc(_) => false
  }

  /** How many bytes it asks for, in mathematical integers. */
  function Wanted(call: Call): nat {
    match call
    case Alloc(size) => size as nat
    case Calloc(count, each) => count as nat * each as nat
    case Realloc(_, to) => to as nat
    case Dealloc(_) => 0
  }

  /** The block that the call gives up when it succeeds. */
  function Freed(call: Call): set<Pointer> {
    match call
    case Realloc(block, _) => {block}
    case Dealloc(block) => {block}
    case _ => {}
  }

  /** The budget and the layout limit allow the request. */
  ghost predicate Affordable(s: State, call: Call) {
    CanLayOut(Wanted(call)) && Total(s.blocks - Freed(call)) + Cost(Wanted(call)) <= s.limit as int
  }

  /** What a call ought to do, told by the block table alone. The counter of a sound state follows. */
  ghost predicate Lawful(s: State, call: Call, answer: Pointer, r: Step) {
    && Sound(r.after) && r.after.limit == s.limit
    && if !Requests(call) then
         r.result == NULL && r.after.blocks == s.blocks - Freed(call) && r.after.failed == s.failed
       else if Affordable(s, call) && answer != NULL then
         && r.result == answer && r.after.failed == s.failed
         && r.after.blocks == (s.blocks - Freed(call))[answer := Wanted(call)]
       else
         r == Step(s.(failed := true), NULL)
  }

  lemma RefuseKeeps(s: State)
    requires Sound(s)
    ensures Sound(s.(failed := true))
  {
  }

  lemma NoFree(s: State)
    requires Sound(s)
    ensures s.blocks - {NULL} == s.blocks && s.blocks - {} == s.blocks
  {
  }

  lemma Granted(s: State, freed: set<Pointer>, old_: Word, answer: Pointer, size: nat, live: Word)
    requires Sound(s) && answer != NULL && 0 < size && CanLayOut(size)
    requires (freed == {} && old_ == 0 && answer !in s.blocks)
          || (exists p :: p in s.blocks && freed == {p} && old_ as int == Cost(s.blocks[p])
                       && (answer == p || answer !in s.blocks))
    requires live as int == s.live as int - old_ as int + Cost(size) && live <= s.limit
    ensures Sound(s.(live := live, blocks := (s.blocks - freed)[answer := size]))
  {
    hide Cost, CanLayOut, Total;
    NoFree(s);
    if freed == {} {
      TotalWith(s.blocks, answer, size);
    } else {
      var p :| p in s.blocks && freed == {p} && old_ as int == Cost(s.blocks[p]) &&
          (answer == p || answer !in s.blocks);
      TotalMoved(s.blocks, p, answer, size);
    }
  }

  lemma AllocLaw(s: State, call: Call, size: Word, answer: Pointer)
    requires Sound(s) && answer !in s.blocks && Freed(call) == {} && Requests(call) && Wanted(call) == size as nat &&
             size != 0
    ensures Lawful(s, call, answer, AllocStep(s, size, answer))
  {
    hide CanLayOut, Cost, Total, Sound;
    ChargeIsCost(size);
    RefuseKeeps(s);
    NoFree(s);
    SoundFacts(s);
    if Charge(size).Some? {
      ReplacementIsExact(s.live, s.limit, 0, Charge(size).value);
      var live := ReplacementLive(s.live, s.limit, 0, Charge(size).value);
      hide Charge, ReplacementLive;
      if live.Some? && answer != NULL { Granted(s, {}, 0, answer, size as nat, live.value); }
    }
  }

  lemma SoundFacts(s: State)
    requires Sound(s)
    ensures s.live as int == Total(s.blocks) && s.live <= s.limit && NULL !in s.blocks
  {
    hide Total, CanLayOut;
  }

  lemma CallocLaw(s: State, call: Call, answer: Pointer)
    requires Sound(s) && answer !in s.blocks && call.Calloc?
    ensures Lawful(s, call, answer, CallocStep(s, call.count, call.each, answer))
  {
    hide CanLayOut, Cost, Total, Sound, AllocStep;
    RefuseKeeps(s);
    NoFree(s);
    if Requests(call) {
      Product(call.count, call.each);
      if call.count as int * call.each as int < WORD_LIMIT {
        AllocLaw(s, call, (call.count as int * call.each as int) as Word, answer);
      } else {
        TooWide(Wanted(call));
      }
    }
  }

  lemma Product(a: Word, b: Word)
    requires a != 0 && b != 0
    ensures a as int * b as int > 0
  {
  }

  lemma TooWide(n: nat)
    requires n >= WORD_LIMIT
    ensures !CanLayOut(n)
  {
  }

  lemma DeallocLaw(s: State, call: Call, block: Pointer)
    requires Sound(s) && (block == NULL || block in s.blocks) && Freed(call) == {block} && !Requests(call)
    ensures forall answer :: Lawful(s, call, answer, DeallocStep(s, block))
  {
    NoFree(s);
    if block != NULL {
      HeldFits(s, block);
      TotalWithout(s.blocks, block);
      hide Cost, CanLayOut, Held;
    }
  }

  lemma ReallocLaw(s: State, call: Call, answer: Pointer)
    requires Sound(s) && Legal(s, call, answer) && call.Realloc?
    ensures Lawful(s, call, answer, ReallocStep(s, call.block, call.to, answer))
  {
    hide CanLayOut, Cost, Total, Sound, AllocStep, DeallocStep;
    NoFree(s);
    SoundFacts(s);
    RefuseKeeps(s);
    if call.block == NULL {
      if call.to != 0 {
        AllocLaw(s, Alloc(call.to), call.to, answer);
        SameRequest(s, call, Alloc(call.to), answer, AllocStep(s, call.to, answer));
      } else {
        AllocNothing(s, answer);
      }
    } else if call.to == 0 {
      DeallocLaw(s, call, call.block);
    } else {
      ReplaceLaw(s, call, answer);
    }
  }

  lemma AllocNothing(s: State, answer: Pointer)
    ensures AllocStep(s, 0, answer) == Step(s, NULL)
  {
  }

  lemma SameRequest(s: State, a: Call, b: Call, answer: Pointer, r: Step)
    requires Lawful(s, b, answer, r) && Requests(a) == Requests(b) && Wanted(a) == Wanted(b)
    requires s.blocks - Freed(a) == s.blocks - Freed(b)
    ensures Lawful(s, a, answer, r)
  {
    hide CanLayOut, Cost, Total, Sound, Freed, Requests, Wanted;
  }

  lemma ReplaceLaw(s: State, call: Call, answer: Pointer)
    requires Sound(s) && Legal(s, call, answer) && call.Realloc? && call.block != NULL && call.to != 0
    ensures Lawful(s, call, answer, ReallocStep(s, call.block, call.to, answer))
  {
    hide CanLayOut, Cost, Total, Sound;
    SoundFacts(s);
    RefuseKeeps(s);
    ChargeIsCost(call.to);
    HeldFits(s, call.block);
    TotalWithout(s.blocks, call.block);
    if Charge(call.to).Some? {
      var old_ := Held(s, call.block) as Word;
      ReplacementIsExact(s.live, s.limit, old_, Charge(call.to).value);
      var live := ReplacementLive(s.live, s.limit, old_, Charge(call.to).value);
      hide Charge, ReplacementLive, Held;
      if live.Some? && answer != NULL { Granted(s, {call.block}, old_, answer, call.to as nat, live.value); }
    }
  }

  /** The checked machine arithmetic does what the block table says, for every legal call. */
  lemma CallLaw(s: State, call: Call, answer: Pointer)
    requires Sound(s) && Legal(s, call, answer)
    ensures Lawful(s, call, answer, Apply(s, call, answer))
  {
    hide Lawful, Sound, Cost, CanLayOut, AllocStep, ReallocStep, DeallocStep, CallocStep, Total;
    match call
    case Alloc(size) =>
      if size != 0 { AllocLaw(s, call, size, answer); } else { AllocNothing(s, answer); NothingAsked(s, call, answer); }
    case Calloc(_, _) => CallocLaw(s, call, answer);
    case Realloc(_, _) => ReallocLaw(s, call, answer);
    case Dealloc(block) => DeallocLaw(s, call, block);
  }

  lemma NothingAsked(s: State, call: Call, answer: Pointer)
    requires Sound(s) && !Requests(call) && Freed(call) == {}
    ensures Lawful(s, call, answer, Step(s, NULL))
  {
    hide Sound, Affordable;
    NoFree(s);
  }

  predicate Refused(s: State, call: Call, answer: Pointer)
    requires Sound(s) && Legal(s, call, answer)
  {
    Requests(call) && Apply(s, call, answer).result == NULL
  }

  /** Giving a block a smaller or equal size is never refused by the budget. */
  lemma ShrinkIsGranted(s: State, block: Pointer, to: Word, answer: Pointer)
    requires Sound(s) && block in s.blocks && 0 < to as int <= s.blocks[block]
    requires answer != NULL && Legal(s, Realloc(block, to), answer)
    ensures Apply(s, Realloc(block, to), answer).result == answer
  {
    CallLaw(s, Realloc(block, to), answer);
    TotalWithout(s.blocks, block);
    SmallerCost(to as int, s.blocks[block]);
    hide Apply, Cost, Total, CanLayOut;
  }

  lemma SmallerCost(a: nat, b: nat)
    requires a <= b
    ensures Cost(a) <= Cost(b) && (CanLayOut(b) ==> CanLayOut(a))
  {
  }

  /** Freeing a block just allocated restores the table and the counter. */
  lemma AllocThenFree(s: State, size: Word, answer: Pointer)
    requires Sound(s) && Legal(s, Alloc(size), answer)
    ensures var got := Apply(s, Alloc(size), answer);
            && Sound(got.after) && Legal(got.after, Dealloc(got.result), NULL)
            && Apply(got.after, Dealloc(got.result), NULL).after == s.(failed := got.after.failed)
  {
    hide Apply, Cost, Total, CanLayOut;
    CallLaw(s, Alloc(size), answer);
    var got := Apply(s, Alloc(size), answer);
    CallLaw(got.after, Dealloc(got.result), NULL);
    var end := Apply(got.after, Dealloc(got.result), NULL).after;
    NoFree(got.after);
    assert end.blocks == s.blocks;
  }

  // ---------------------------------------------------------------- whole runs

  /** A call with the delegate's answer. */
  datatype Event = Event(call: Call, answer: Pointer)

  ghost predicate LegalRun(s: State, run: seq<Event>)
    requires Sound(s)
    decreases |run|
  {
    run == [] || (
      Legal(s, run[0].call, run[0].answer) && (
        CallLaw(s, run[0].call, run[0].answer);
        LegalRun(Apply(s, run[0].call, run[0].answer).after, run[1..])))
  }

  ghost function After(s: State, run: seq<Event>): State
    requires Sound(s) && LegalRun(s, run)
    decreases |run|
  {
    if run == [] then s
    else
      CallLaw(s, run[0].call, run[0].answer);
      After(Apply(s, run[0].call, run[0].answer).after, run[1..])
  }

  ghost predicate SomeRefused(s: State, run: seq<Event>)
    requires Sound(s) && LegalRun(s, run)
    decreases |run|
  {
    run != [] && (
      CallLaw(s, run[0].call, run[0].answer);
      Refused(s, run[0].call, run[0].answer) || SomeRefused(Apply(s, run[0].call, run[0].answer).after, run[1..]))
  }

  /** After every legal run the counter is the exact cost of the live blocks and within the limit,
      and the latch is set exactly if it was set before or some request was refused. */
  lemma {:induction false} RunLaw(s: State, run: seq<Event>)
    requires Sound(s) && LegalRun(s, run)
    ensures Sound(After(s, run)) && After(s, run).limit == s.limit
    ensures After(s, run).failed <==> s.failed || SomeRefused(s, run)
    decreases |run|
  {
    hide Sound, Apply, Legal, Affordable;
    if run != [] {
      CallLaw(s, run[0].call, run[0].answer);
      RunLaw(Apply(s, run[0].call, run[0].answer).after, run[1..]);
    }
  }

  // ---------------------------------------------------------------- the allocator object

  class GuestHeap {
    const limit: Word
    var live: Word
    var failed: bool
    ghost var blocks: Blocks

    ghost function Abstract(): State
      reads this
    {
      State(limit, live, failed, blocks)
    }

    constructor (limit: Word)
      ensures Abstract() == State(limit, 0, false, map[]) && Sound(Abstract())
    {
      this.limit := limit;
      live := 0;
      failed := false;
      blocks := map[];
    }

    method Alloc(size: Word, answer: Pointer) returns (result: Pointer)
      requires Sound(Abstract()) && answer !in blocks
      modifies this
      ensures Step(Abstract(), result) == AllocStep(old(Abstract()), size, answer) && Sound(Abstract())
    {
      CallLaw(Abstract(), Call.Alloc(size), answer);
      hide Sound, Lawful, CanLayOut, Cost, Total;
      result := NULL;
      if size == 0 { return; }
      var charge := Charge(size);
      if charge.None? { failed := true; return; }
      var newLive := ReplacementLive(live, limit, 0, charge.value);
      if newLive.None? { failed := true; return; }
      if answer == NULL { failed := true; return; }
      live := newLive.value;
      blocks := blocks[answer := size as nat];
      result := answer;
    }

    method Calloc(count: Word, each: Word, answer: Pointer) returns (result: Pointer)
      requires Sound(Abstract()) && answer !in blocks
      modifies this
      ensures Step(Abstract(), result) == CallocStep(old(Abstract()), count, each, answer) && Sound(Abstract())
    {
      CallLaw(Abstract(), Call.Calloc(count, each), answer);
      hide Sound, Lawful, CanLayOut, Cost, Total;
      result := NULL;
      if count == 0 || each == 0 { return; }
      Product(count, each);
      var total := CheckedMul(count, each);
      if total.None? { failed := true; return; }
      var charge := Charge(total.value);
      if charge.None? { failed := true; return; }
      var newLive := ReplacementLive(live, limit, 0, charge.value);
      if newLive.None? { failed := true; return; }
      if answer == NULL { failed := true; return; }
      live := newLive.value;
      blocks := blocks[answer := total.value as nat];
      result := answer;
    }

    /** `usable` is what the delegate reports for the block. Neither the addition nor the
        subtraction can leave the machine word. */
    method Dealloc(block: Pointer, usable: Word)
      requires Sound(Abstract()) && (block == NULL || block in blocks)
      requires block in blocks ==> usable as nat == RoundUp(blocks[block])
      modifies this
      ensures Abstract() == DeallocStep(old(Abstract()), block).after && Sound(Abstract())
    {
      CallLaw(Abstract(), Call.Dealloc(block), NULL);
      if block == NULL { return; }
      HeldFits(Abstract(), block);
      hide Sound, Lawful, CanLayOut, Total;
      var charge := usable + BLOCK_OVERHEAD as Word;
      blocks := blocks - {block};
      live := live - charge;
    }

    method Realloc(block: Pointer, to: Word, usable: Word, answer: Pointer) returns (result: Pointer)
      requires Sound(Abstract()) && Legal(Abstract(), Call.Realloc(block, to), answer)
      requires block in blocks ==> usable as nat == RoundUp(blocks[block])
      modifies this
      ensures Step(Abstract(), result) == ReallocStep(old(Abstract()), block, to, answer) && Sound(Abstract())
    {
      CallLaw(Abstract(), Call.Realloc(block, to), answer);
      if block == NULL {
        result := Alloc(to, answer);
        return;
      }
      result := NULL;
      if to == 0 {
        Dealloc(block, usable);
        return;
      }
      HeldFits(Abstract(), block);
      hide Sound, Lawful, CanLayOut, Total;
      var charge := Charge(to);
      if charge.None? { failed := true; return; }
      var held := usable + BLOCK_OVERHEAD as Word;
      var newLive := ReplacementLive(live, limit, held, charge.value);
      if newLive.None? { failed := true; return; }
      if answer == NULL { failed := true; return; }
      live := newLive.value;
      blocks := (blocks - {block})[answer := to as nat];
      result := answer;
    }
  }
}
