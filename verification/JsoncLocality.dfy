/** What a scanner did on a text is what it does on every extension of that text.

    `p` is the part of the document in front of the insertion point and `x` any document that
    starts with it. The lemmas say which results carry over unchanged and, where a scan ran
    to the end of `p`, where it goes on in `x`.
 */
module JsoncLocality {
  import opened Wrappers
  import opened JsoncScan

  /** How the trivia that starts at `i` meets the end of the text. */
  datatype Tail = Stops | Bare | Blank | Line | Block | OpenBlock

  function TriviaTail(b: string, i: nat): (t: Tail)
    requires i <= |b|
    ensures t == Stops <==> SkipTrivia(b, i) < |b|
    ensures t == Bare ==> i == |b|
    decreases |b| - i
  {
    if i == |b| then Bare
    else if IsBlank(b[i]) then
      if i + 1 == |b| then Blank else TriviaTail(b, i + 1)
    else if LineStart(b, i) then
      var e := LineEnd(b, i + 2);
      if e == |b| then Line else TriviaTail(b, e)
    else if BlockStart(b, i) then
      match BlockEnd(b, i + 2)
      case None => OpenBlock
      case Some(e) => if e == |b| then Block else TriviaTail(b, e)
    else Stops
  }

  /** `x` starts with `p`, and what follows cannot turn a final slash into a comment. */
  ghost predicate Extends(p: string, x: string) {
    p <= x && (|p| < |x| ==> x[|p|] != '/' && x[|p|] != '*')
  }

  /** A quote or a slash lies in `x[from..to]`. */
  ghost predicate HasToken(x: string, from: nat, to: nat) {
    exists q :: from <= q < to && q < |x| && (x[q] == '"' || x[q] == '/')
  }

  lemma {:induction false} LineEndExtends(p: string, x: string, i: nat)
    requires Extends(p, x) && i <= |p|
    ensures LineEnd(x, i) == if LineEnd(p, i) < |p| then LineEnd(p, i) else LineEnd(x, |p|)
    decreases |p| - i
  {
    if i < |p| && p[i] != '\n' { LineEndExtends(p, x, i + 1); }
  }

  lemma {:induction false} BlockEndExtends(p: string, x: string, i: nat)
    requires Extends(p, x) && i <= |p| && BlockEnd(p, i).Some?
    ensures BlockEnd(x, i) == BlockEnd(p, i)
    decreases |p| - i
  {
    if !(p[i] == '*' && p[i + 1] == '/') { BlockEndExtends(p, x, i + 1); }
  }

  lemma {:induction false} BlockEndRunsOn(p: string, x: string, i: nat)
    requires Extends(p, x) && i <= |p| && BlockEnd(p, i).None?
    ensures BlockEnd(x, i).Some? ==> BlockEnd(x, i).value > |p|
    decreases |p| - i
  {
    if i + 1 < |p| { BlockEndRunsOn(p, x, i + 1); }
  }

  /** Trivia that stops inside `p` stops there in `x`; trivia that reaches the end of `p`
      continues at that end, or at the end of the line when it got there in a line comment. */
  lemma {:induction false} SkipTriviaExtends(p: string, x: string, i: nat)
    requires Extends(p, x) && i <= |p|
    ensures match TriviaTail(p, i)
            case Stops => SkipTrivia(x, i) == SkipTrivia(p, i)
            case Line => SkipTrivia(x, i) == SkipTrivia(x, LineEnd(x, |p|))
            case OpenBlock => SkipTrivia(x, i) == |x| || HasToken(x, |p|, SkipTrivia(x, i))
            case _ => SkipTrivia(x, i) == SkipTrivia(x, |p|)
    decreases |p| - i
  {
    if i < |p| {
      if IsBlank(p[i]) {
        SkipTriviaExtends(p, x, i + 1);
      } else if LineStart(p, i) {
        LineEndExtends(p, x, i + 2);
        if LineEnd(p, i + 2) < |p| { SkipTriviaExtends(p, x, LineEnd(p, i + 2)); }
      } else if BlockStart(p, i) {
        if BlockEnd(p, i + 2).Some? {
          BlockEndExtends(p, x, i + 2);
          SkipTriviaExtends(p, x, BlockEnd(p, i + 2).value);
        } else {
          BlockEndRunsOn(p, x, i + 2);
          assert BlockEnd(x, i + 2).Some? ==> x[BlockEnd(x, i + 2).value - 1] == '/';
        }
      }
    }
  }

  lemma {:induction false} StringEndExtends(p: string, x: string, i: nat)
    requires p <= x && StringEnd(p, i).Some?
    ensures StringEnd(x, i) == StringEnd(p, i)
    decreases |p| - i
  {
    if p[i] == '\\' { StringEndExtends(p, x, i + 2); }
    else if p[i] != '"' { StringEndExtends(p, x, i + 1); }
  }

  /** A string left open by `p` has its closing quote, if any, behind `p`. */
  lemma {:induction false} StringEndRunsOn(p: string, x: string, i: nat)
    requires p <= x && StringEnd(p, i).None?
    ensures StringEnd(x, i).Some? ==> StringEnd(x, i).value > |p|
    decreases |p| - i
  {
    if i < |p| {
      if p[i] == '\\' { StringEndRunsOn(p, x, i + 2); }
      else { StringEndRunsOn(p, x, i + 1); }
    }
  }

  lemma SkipStringExtends(p: string, x: string, i: nat)
    requires p <= x && SkipString(p, i).Some?
    ensures SkipString(x, i) == SkipString(p, i)
  {
    StringEndExtends(p, x, i + 1);
  }

  /** How a delimiter scan meets the end of the text: already closed, still open at a depth
      (possibly inside a line comment), or cut inside a string or a block comment. */
  datatype ScanEnd = Closed(at: nat) | Open(depth: nat, line: bool) | Cut

  function ScanTo(b: string, i: nat, o: char, c: char, depth: nat): (r: ScanEnd)
    requires i <= |b| && depth >= 1
    ensures r.Open? ==> r.depth >= 1
    decreases |b| - i
  {
    if i == |b| then Open(depth, false)
    else if b[i] == '"' then
      match SkipString(b, i)
      case None => Cut
      case Some(j) => ScanTo(b, j, o, c, depth)
    else if LineStart(b, i) || BlockStart(b, i) then
      if TriviaTail(b, i) == OpenBlock then Cut
      else if TriviaTail(b, i) == Line then Open(depth, true)
      else ScanTo(b, SkipTrivia(b, i), o, c, depth)
    else if b[i] == o then ScanTo(b, i + 1, o, c, depth + 1)
    else if b[i] == c then
      if depth == 1 then Closed(i) else ScanTo(b, i + 1, o, c, depth - 1)
    else ScanTo(b, i + 1, o, c, depth)
  }

  /** Stepping over a run of trivia never changes a delimiter scan. */
  lemma {:induction false} ScanSkipsTrivia(b: string, i: nat, o: char, c: char, depth: nat)
    requires i <= |b| && depth >= 1 && IsOpener(o) && c == Closer(o)
    ensures Scan(b, i, o, c, depth) == Scan(b, SkipTrivia(b, i), o, c, depth)
    decreases |b| - i
  {
    if i < |b| && IsBlank(b[i]) { ScanSkipsTrivia(b, i + 1, o, c, depth); }
  }

  /** The position in `x` at which a scan that ran over `p` goes on. */
  function Resume(x: string, at: nat, line: bool): (r: nat)
    requires at <= |x|
    ensures at <= r <= |x|
  {
    if line then LineEnd(x, at) else at
  }

  /** The scan of `x` from `i` follows the scan of its prefix `p` as far as that goes. */
  ghost predicate ScanFollows(p: string, x: string, i: nat, o: char, c: char, depth: nat)
    requires Extends(p, x) && i <= |p| && depth >= 1
  {
    var r := Scan(x, i, o, c, depth);
    match ScanTo(p, i, o, c, depth)
    case Closed(at) => r == Some(at)
    case Open(k, line) => r == Scan(x, Resume(x, |p|, line), o, c, k)
    case Cut => r.Some? ==> HasToken(x, |p|, r.value)
  }

  lemma ScanFollowsString(p: string, x: string, i: nat, o: char, c: char, depth: nat)
    requires Extends(p, x) && i < |p| && depth >= 1 && p[i] == '"'
    requires SkipString(p, i).Some? ==> ScanFollows(p, x, SkipString(p, i).value, o, c, depth)
    ensures ScanFollows(p, x, i, o, c, depth)
  {
    if SkipString(p, i).Some? {
      SkipStringExtends(p, x, i);
    } else {
      StringEndRunsOn(p, x, i + 1);
      assert SkipString(x, i).Some? ==> x[SkipString(x, i).value - 1] == '"';
    }
  }

  lemma ScanFollowsTrivia(p: string, x: string, i: nat, o: char, c: char, depth: nat)
    requires Extends(p, x) && i < |p| && depth >= 1 && IsOpener(o) && c == Closer(o)
    requires LineStart(p, i) || BlockStart(p, i)
    requires TriviaTail(p, i) == Stops ==> ScanFollows(p, x, SkipTrivia(p, i), o, c, depth)
    ensures ScanFollows(p, x, i, o, c, depth)
  {
    SkipTriviaExtends(p, x, i);
    var tail := TriviaTail(p, i);
    if tail == Line {
      ScanSkipsTrivia(x, LineEnd(x, |p|), o, c, depth);
    } else if tail == Blank || tail == Block {
      ScanSkipsTrivia(x, |p|, o, c, depth);
    }
  }

  lemma {:induction false} ScanExtends(p: string, x: string, i: nat, o: char, c: char, depth: nat)
    requires Extends(p, x) && i <= |p| && depth >= 1 && IsOpener(o) && c == Closer(o)
    ensures ScanFollows(p, x, i, o, c, depth)
    decreases |p| - i
  {
    if i < |p| {
      if p[i] == '"' {
        if SkipString(p, i).Some? { ScanExtends(p, x, SkipString(p, i).value, o, c, depth); }
        ScanFollowsString(p, x, i, o, c, depth);
      } else if LineStart(p, i) || BlockStart(p, i) {
        if TriviaTail(p, i) == Stops { ScanExtends(p, x, SkipTrivia(p, i), o, c, depth); }
        ScanFollowsTrivia(p, x, i, o, c, depth);
      } else {
        assert !LineStart(x, i) && !BlockStart(x, i);
        if p[i] == o {
          ScanExtends(p, x, i + 1, o, c, depth + 1);
        } else if p[i] == c {
          if depth > 1 { ScanExtends(p, x, i + 1, o, c, depth - 1); }
        } else {
          ScanExtends(p, x, i + 1, o, c, depth);
        }
      }
    }
  }

  // ---------------------------------------------------------------- member walk over a prefix

  /** Where the member walk of an object stands when the text ends: a new member may start, a
      key has no colon yet, a colon has no value yet, or a value has just ended. */
  datatype Slot = NeedsMember | NeedsColon | NeedsValue | AfterValue

  datatype WalkEnd =
    | Found(at: nat)                       // the key was met; its value starts here
    | Stuck                                // the walk gives up inside the text
    | RunsOff                              // the text ends inside a string, bracket or block comment
    | EndsAt(slot: Slot, from: nat)        // only trivia from `from` to the end of the text

  function AtEnd(p: string, from: nat, slot: Slot): (r: WalkEnd)
    requires from <= |p|
  {
    if TriviaTail(p, from) == OpenBlock then RunsOff else EndsAt(slot, from)
  }

  ghost predicate GoodEnd(p: string, r: WalkEnd) {
    r.EndsAt? ==> r.from <= |p| && SkipTrivia(p, r.from) == |p| && TriviaTail(p, r.from) != OpenBlock
  }

  /** The member walk over a text that stops in front of the closing brace; `t` is the position
      just behind the opening brace or a comma. */
  function Walk(p: string, t: nat, key: string): (r: WalkEnd)
    requires t <= |p|
    ensures GoodEnd(p, r)
    decreases |p| - t, 1
  {
    var i := SkipTrivia(p, t);
    if i == |p| then AtEnd(p, t, NeedsMember)
    else if p[i] != '"' then Stuck
    else match SkipString(p, i)
      case None => RunsOff
      case Some(keyEnd) => WalkKey(p, keyEnd, p[i + 1..keyEnd - 1] == key, key)
  }

  function WalkKey(p: string, keyEnd: nat, hit: bool, key: string): (r: WalkEnd)
    requires keyEnd <= |p|
    ensures GoodEnd(p, r)
    decreases |p| - keyEnd, 2
  {
    var after := SkipTrivia(p, keyEnd);
    if after == |p| then AtEnd(p, keyEnd, NeedsColon)
    else if p[after] != ':' then Stuck
    else if hit then Found(SkipTrivia(p, after + 1))
    else WalkValue(p, after + 1, key)
  }

  function WalkValue(p: string, t: nat, key: string): (r: WalkEnd)
    requires t <= |p|
    ensures GoodEnd(p, r)
    decreases |p| - t, 1
  {
    var value := SkipTrivia(p, t);
    if value == |p| then AtEnd(p, t, NeedsValue)
    else match SkipValue(p, value)
      case None => RunsOff
      case Some(end) => WalkNext(p, end, key)
  }

  function WalkNext(p: string, end: nat, key: string): (r: WalkEnd)
    requires end <= |p|
    ensures GoodEnd(p, r)
    decreases |p| - end, 0
  {
    var next := SkipTrivia(p, end);
    if next == |p| then AtEnd(p, end, AfterValue)
    else if p[next] == ',' then Walk(p, next + 1, key)
    else Stuck
  }

  lemma {:induction false} ScalarEndExtends(p: string, x: string, i: nat)
    requires p <= x && i <= |p|
    ensures ScalarEnd(x, i) == if ScalarEnd(p, i) < |p| then ScalarEnd(p, i) else ScalarEnd(x, |p|)
    decreases |p| - i
  {
    if i < |p| && !ScalarStop(p[i]) { ScalarEndExtends(p, x, i + 1); }
  }

  lemma {:induction false} ScanToClosed(p: string, i: nat, o: char, c: char, depth: nat)
    requires i <= |p| && depth >= 1 && Scan(p, i, o, c, depth).Some?
    ensures ScanTo(p, i, o, c, depth) == Closed(Scan(p, i, o, c, depth).value)
    decreases |p| - i
  {
    if p[i] == '"' { ScanToClosed(p, SkipString(p, i).value, o, c, depth); }
    else if LineStart(p, i) || BlockStart(p, i) { ScanToClosed(p, SkipTrivia(p, i), o, c, depth); }
    else if p[i] == o { ScanToClosed(p, i + 1, o, c, depth + 1); }
    else if p[i] == c { if depth > 1 { ScanToClosed(p, i + 1, o, c, depth - 1); } }
    else { ScanToClosed(p, i + 1, o, c, depth); }
  }

  /** A value that ends inside `p` ends there in `x` as well; one that ends with `p` does so when
      it is followed by something that ends a scalar. */
  lemma SkipValueExtends(p: string, x: string, i: nat)
    requires Extends(p, x) && p < x && i < |p| && SkipValue(p, i).Some?
    requires SkipValue(p, i).value < |p| || ScalarStop(x[|p|])
    ensures SkipValue(x, i) == SkipValue(p, i)
  {
    if p[i] == '"' {
      SkipStringExtends(p, x, i);
    } else if IsOpener(p[i]) {
      SkipBracket(p, x, i);
    } else {
      ScalarEndExtends(p, x, i);
    }
  }

  /** A value cut by the end of `p` ends behind `p` in `x`, if at all. */
  lemma SkipValueRunsOn(p: string, x: string, i: nat)
    requires Extends(p, x) && i < |p| && SkipValue(p, i).None?
    ensures SkipValue(x, i).Some? ==> SkipValue(x, i).value >= |p|
  {
    if p[i] == '"' {
      StringEndRunsOn(p, x, i + 1);
    } else {
      ScanExtends(p, p, i + 1, p[i], Closer(p[i]), 1);
      ScanExtends(p, x, i + 1, p[i], Closer(p[i]), 1);
    }
  }

  /** Where `x` continues a walk that ended at the end of its prefix `p`. */
  function AfterTrivia(p: string, x: string, from: nat): (r: nat)
    requires from <= |p| <= |x|
    ensures |p| <= r <= |x|
  {
    SkipTrivia(x, Resume(x, |p|, TriviaTail(p, from) == Line))
  }

  lemma TriviaGoesOn(p: string, x: string, from: nat)
    requires Extends(p, x) && from <= |p|
    ensures SkipTrivia(p, from) < |p| ==> SkipTrivia(x, from) == SkipTrivia(p, from)
    ensures SkipTrivia(p, from) == |p| && TriviaTail(p, from) != OpenBlock ==>
              SkipTrivia(x, from) == AfterTrivia(p, x, from)
    ensures SkipTrivia(p, from) == |p| ==> SkipTrivia(x, from) >= |p|
  {
    SkipTriviaExtends(p, x, from);
  }

  /** A lookup with result `r` in `x` follows the outcome `w` of the walk over its prefix `p`. */
  ghost predicate Follows(p: string, x: string, close: nat, key: string, w: WalkEnd, r: Option<nat>)
    requires p < x && (w.EndsAt? ==> w.from <= |p|)
  {
    match w
    case Found(at) => if at < |p| then r == Some(at) else r.Some? && r.value >= |p|
    case Stuck => r.None?
    case RunsOff => r.Some? ==> r.value >= |p|
    case EndsAt(slot, from) =>
      var on := AfterTrivia(p, x, from);
      match slot
      case NeedsMember => r == Lookup(x, on, close, key)
      case NeedsColon => r.None? || (on < |x| && x[on] == ':' && r.value >= |p|)
      case NeedsValue => r == LookupFromValue(x, on, close, key)
      case AfterValue =>
        if ScalarStop(x[|p|]) then r == LookupFromNext(x, on, close, key) else r.Some? ==> r.value >= |p|
  }

  ghost predicate Separated(p: string, x: string, close: nat) {
    Extends(p, x) && p < x && |p| <= close
  }

  lemma {:induction false} LookupExtends(p: string, x: string, t: nat, close: nat, key: string)
    requires Separated(p, x, close) && t <= |p|
    ensures Follows(p, x, close, key, Walk(p, t, key), Lookup(x, SkipTrivia(x, t), close, key))
    decreases |p| - t, 1
  {
    hide SkipTrivia, TriviaTail, AfterTrivia, StringEnd, LookupFromKey, WalkKey;
    TriviaGoesOn(p, x, t);
    var i := SkipTrivia(p, t);
    if i < |p| && p[i] == '"' {
      if SkipString(p, i).Some? {
        SkipStringExtends(p, x, i);
        var keyEnd := SkipString(p, i).value;
        assert x[i + 1..keyEnd - 1] == p[i + 1..keyEnd - 1];
        LookupExtendsKey(p, x, keyEnd, p[i + 1..keyEnd - 1] == key, close, key);
      } else {
        StringEndRunsOn(p, x, i + 1);
      }
    }
  }

  lemma {:induction false} LookupExtendsKey(p: string, x: string, keyEnd: nat, hit: bool, close: nat, key: string)
    requires Separated(p, x, close) && keyEnd <= |p|
    ensures Follows(p, x, close, key, WalkKey(p, keyEnd, hit, key), LookupFromKey(x, keyEnd, hit, close, key))
    decreases |p| - keyEnd, 2
  {
    hide SkipTrivia, TriviaTail, AfterTrivia, LookupFromValue, WalkValue;
    TriviaGoesOn(p, x, keyEnd);
    var after := SkipTrivia(p, keyEnd);
    if after < |p| && p[after] == ':' {
      if hit {
        TriviaGoesOn(p, x, after + 1);
      } else {
        LookupExtendsValue(p, x, after + 1, close, key);
      }
    }
  }

  lemma {:induction false} LookupExtendsValue(p: string, x: string, t: nat, close: nat, key: string)
    requires Separated(p, x, close) && t <= |p|
    ensures Follows(p, x, close, key, WalkValue(p, t, key), LookupFromValue(x, SkipTrivia(x, t), close, key))
    decreases |p| - t, 1
  {
    hide SkipTrivia, TriviaTail, SkipValue, WalkNext, LookupFromNext;
    TriviaGoesOn(p, x, t);
    var value := SkipTrivia(p, t);
    if value < |p| {
      if SkipValue(p, value).None? {
        SkipValueRunsOn(p, x, value);
      } else if SkipValue(p, value).value < |p| || ScalarStop(x[|p|]) {
        SkipValueExtends(p, x, value);
        LookupExtendsNext(p, x, SkipValue(p, value).value, close, key);
      } else {
        WalkNextAtEnd(p, key);
        SkipScalar(p, x, value);
      }
    }
  }

  lemma SkipScalar(p: string, x: string, value: nat)
    requires Extends(p, x) && value < |p| < |x| && SkipValue(p, value) == Some(|p|) && !ScalarStop(x[|p|])
    ensures SkipValue(x, value).Some? ==> SkipValue(x, value).value >= |p|
  {
    if p[value] == '"' { SkipStringExtends(p, x, value); }
    else if IsOpener(p[value]) { SkipBracket(p, x, value); }
    else { ScalarEndExtends(p, x, value); }
  }

  lemma SkipBracket(p: string, x: string, value: nat)
    requires Extends(p, x) && value < |p| && IsOpener(p[value]) && SkipValue(p, value).Some?
    ensures SkipValue(x, value) == SkipValue(p, value)
  {
    ScanToClosed(p, value + 1, p[value], Closer(p[value]), 1);
    ScanExtends(p, x, value + 1, p[value], Closer(p[value]), 1);
  }

  lemma WalkNextAtEnd(p: string, key: string)
    ensures WalkNext(p, |p|, key) == EndsAt(AfterValue, |p|)
  {
  }

  lemma {:induction false} LookupExtendsNext(p: string, x: string, end: nat, close: nat, key: string)
    requires Separated(p, x, close) && end <= |p|
    ensures Follows(p, x, close, key, WalkNext(p, end, key), LookupFromNext(x, SkipTrivia(x, end), close, key))
    decreases |p| - end, 0
  {
    hide SkipTrivia, TriviaTail, AfterTrivia, Lookup, Walk;
    TriviaGoesOn(p, x, end);
    var next := SkipTrivia(p, end);
    if next < |p| && p[next] == ',' {
      LookupExtends(p, x, next + 1, close, key);
    }
  }
}
