/** The index scanners that find their way through a commented JSON document.

    A document is a string in which every character stands for one UTF-8 byte; the scanners
    only ever compare bytes with ASCII characters, so bytes of multi-byte characters are
    "other". Each scanner is a function (the specification) and a method with the source's
    loop, proved equal to it.
 */
module JsoncScan {
  import opened Wrappers

  predicate IsBlank(c: char) {
    c == ' ' || c == '\t' || c == '\n' || c == '\r' || c == '\U{0C}'
  }

  // ---------------------------------------------------------------- trivia

  function LineEnd(b: string, i: nat): (r: nat)
    requires i <= |b|
    ensures i <= r <= |b|
    ensures r < |b| ==> b[r] == '\n'
    decreases |b| - i
  {
    if i < |b| && b[i] != '\n' then LineEnd(b, i + 1) else i
  }

  /** Just past the first block-comment terminator at or after `i`. */
  function BlockEnd(b: string, i: nat): (r: Option<nat>)
    requires i <= |b|
    ensures r.Some? ==> i + 2 <= r.value <= |b| && b[r.value - 2] == '*' && b[r.value - 1] == '/'
    decreases |b| - i
  {
    if i + 1 >= |b| then None
    else if b[i] == '*' && b[i + 1] == '/' then Some(i + 2)
    else BlockEnd(b, i + 1)
  }

  predicate LineStart(b: string, i: nat) {
    i + 1 < |b| && b[i] == '/' && b[i + 1] == '/'
  }

  predicate BlockStart(b: string, i: nat) {
    i + 1 < |b| && b[i] == '/' && b[i + 1] == '*'
  }

  function SkipTrivia(b: string, i: nat): (r: nat)
    requires i <= |b|
    ensures i <= r <= |b|
    ensures r < |b| ==> !IsBlank(b[r]) && !LineStart(b, r) && !BlockStart(b, r)
    ensures LineStart(b, i) || BlockStart(b, i) ==> i < r
    decreases |b| - i
  {
    if i < |b| && IsBlank(b[i]) then SkipTrivia(b, i + 1)
    else if LineStart(b, i) then SkipTrivia(b, LineEnd(b, i + 2))
    else if BlockStart(b, i) then
      match BlockEnd(b, i + 2)
      case Some(e) => SkipTrivia(b, e)
      case None => |b|
    else i
  }

  // ---------------------------------------------------------------- strings and values

  /** From inside a string: just past the closing quote. */
  function StringEnd(b: string, i: nat): (r: Option<nat>)
    ensures r.Some? ==> i < r.value <= |b| && b[r.value - 1] == '"'
    decreases |b| - i
  {
    if i >= |b| then None
    else if b[i] == '\\' then StringEnd(b, i + 2)
    else if b[i] == '"' then Some(i + 1)
    else StringEnd(b, i + 1)
  }

  function SkipString(b: string, i: nat): (r: Option<nat>)
    ensures r.Some? ==> i + 2 <= r.value <= |b| && b[i] == '"' && b[r.value - 1] == '"'
  {
    if i < |b| && b[i] == '"' then StringEnd(b, i + 1) else None
  }

  /** The delimiter scan of `matching_delim` once it is inside at least one opening. */
  function Scan(b: string, i: nat, o: char, c: char, depth: nat): (r: Option<nat>)
    requires i <= |b| && depth >= 1
    ensures r.Some? ==> i <= r.value < |b| && b[r.value] == c
    decreases |b| - i
  {
    if i == |b| then None
    else if b[i] == '"' then
      match SkipString(b, i)
      case None => None
      case Some(j) => Scan(b, j, o, c, depth)
    else if LineStart(b, i) || BlockStart(b, i) then Scan(b, SkipTrivia(b, i), o, c, depth)
    else if b[i] == o then Scan(b, i + 1, o, c, depth + 1)
    else if b[i] == c then
      if depth == 1 then Some(i) else Scan(b, i + 1, o, c, depth - 1)
    else Scan(b, i + 1, o, c, depth)
  }

  function Closer(o: char): char {
    if o == '{' then '}' else ']'
  }

  predicate IsOpener(c: char) {
    c == '{' || c == '['
  }

  /** Index of the delimiter that closes the one at `open`. */
  function Match(b: string, open: nat): (r: Option<nat>)
    ensures r.Some? ==> open < r.value < |b| && IsOpener(b[open]) && b[r.value] == Closer(b[open])
  {
    if open < |b| && IsOpener(b[open]) then Scan(b, open + 1, b[open], Closer(b[open]), 1) else None
  }

  predicate ScalarStop(c: char) {
    c == ',' || c == '}' || c == ']' || IsBlank(c)
  }

  function ScalarEnd(b: string, i: nat): (r: nat)
    requires i <= |b|
    ensures i <= r <= |b|
    ensures r < |b| ==> ScalarStop(b[r])
    ensures forall k :: i <= k < r ==> !ScalarStop(b[k])
    decreases |b| - i
  {
    if i < |b| && !ScalarStop(b[i]) then ScalarEnd(b, i + 1) else i
  }

  function SkipValue(b: string, i: nat): (r: Option<nat>)
    requires i <= |b|
    ensures r.Some? ==> i <= r.value <= |b|
  {
    if i == |b| then None
    else if b[i] == '"' then SkipString(b, i)
    else if IsOpener(b[i]) then
      match Match(b, i)
      case None => None
      case Some(close) => Some(close + 1)
    else Some(ScalarEnd(b, i))
  }

  // ---------------------------------------------------------------- member lookup

  /** The loop of `member_value`, entered at a position where a member may start; the three
      functions below are its later stages. */
  function Lookup(b: string, i: nat, close: nat, key: string): (r: Option<nat>)
    requires i <= |b|
    ensures r.Some? ==> i < r.value <= |b|
    decreases |b| - i, 1
  {
    if i < close && i < |b| && b[i] == '"' && SkipString(b, i).Some? then
      var keyEnd := SkipString(b, i).value;
      LookupFromKey(b, keyEnd, b[i + 1..keyEnd - 1] == key, close, key)
    else None
  }

  function LookupFromKey(b: string, keyEnd: nat, hit: bool, close: nat, key: string): (r: Option<nat>)
    requires keyEnd <= |b|
    ensures r.Some? ==> keyEnd < r.value <= |b|
    decreases |b| - keyEnd, 1
  {
    var after := SkipTrivia(b, keyEnd);
    if !(after < |b| && b[after] == ':') then None
    else if hit then Some(SkipTrivia(b, after + 1))
    else LookupFromValue(b, SkipTrivia(b, after + 1), close, key)
  }

  function LookupFromValue(b: string, value: nat, close: nat, key: string): (r: Option<nat>)
    requires value <= |b|
    ensures r.Some? ==> value < r.value <= |b|
    decreases |b| - value, 1
  {
    match SkipValue(b, value)
    case None => None
    case Some(end) => LookupFromNext(b, SkipTrivia(b, end), close, key)
  }

  function LookupFromNext(b: string, next: nat, close: nat, key: string): (r: Option<nat>)
    requires next <= |b|
    ensures r.Some? ==> next < r.value <= |b|
    decreases |b| - next, 0
  {
    if next < |b| && b[next] == ',' then Lookup(b, SkipTrivia(b, next + 1), close, key) else None
  }

  function MemberValue(b: string, open: nat, close: nat, key: string): (r: Option<nat>)
    requires open < |b|
    ensures r.Some? ==> open < r.value <= |b|
  {
    Lookup(b, SkipTrivia(b, open + 1), close, key)
  }

  function RootObject(b: string): (r: Option<(nat, nat)>)
    ensures r.Some? ==> r.value.0 < r.value.1 < |b| && b[r.value.0] == '{' && b[r.value.1] == '}'
  {
    var start := SkipTrivia(b, 0);
    if start < |b| && b[start] == '{' then
      match Match(b, start)
      case None => None
      case Some(close) => Some((start, close))
    else None
  }

  // ---------------------------------------------------------------- the source's loops

  method SkipTriviaLoop(b: string, from: nat) returns (i: nat)
    requires from <= |b|
    ensures i == SkipTrivia(b, from)
  {
    i := from;
    while true
      invariant from <= i <= |b|
      invariant SkipTrivia(b, i) == SkipTrivia(b, from)
      decreases |b| - i
    {
      while i < |b| && IsBlank(b[i])
        invariant from <= i <= |b|
        invariant SkipTrivia(b, i) == SkipTrivia(b, from)
      {
        i := i + 1;
      }
      if LineStart(b, i) {
        ghost var start := i + 2;
        i := i + 2;
        while i < |b| && b[i] != '\n'
          invariant start <= i <= |b|
          invariant LineEnd(b, i) == LineEnd(b, start)
        {
          i := i + 1;
        }
      } else if BlockStart(b, i) {
        ghost var start := i + 2;
        i := i + 2;
        while i + 1 < |b| && !(b[i] == '*' && b[i + 1] == '/')
          invariant start <= i <= |b|
          invariant BlockEnd(b, i) == BlockEnd(b, start)
        {
          i := i + 1;
        }
        i := if i + 2 <= |b| then i + 2 else |b|;
      } else {
        return;
      }
    }
  }

  method SkipStringLoop(b: string, from: nat) returns (r: Option<nat>)
    ensures r == SkipString(b, from)
  {
    if !(from < |b| && b[from] == '"') {
      return None;
    }
    var i := from + 1;
    while i < |b|
      invariant StringEnd(b, i) == SkipString(b, from)
    {
      if b[i] == '\\' {
        i := i + 2;
      } else if b[i] == '"' {
        return Some(i + 1);
      } else {
        i := i + 1;
      }
    }
    return None;
  }

  method MatchingDelimLoop(b: string, open: nat) returns (r: Option<nat>)
    ensures r == Match(b, open)
  {
    if !(open < |b| && IsOpener(b[open])) {
      return None;
    }
    var closer := Closer(b[open]);
    var depth: nat := 0;
    var i := open;
    while i < |b|
      invariant open <= i <= |b|
      invariant i == open || depth >= 1
      invariant if i == open then depth == 0 else Scan(b, i, b[open], closer, depth) == Match(b, open)
    {
      if b[i] == '"' {
        var end := SkipStringLoop(b, i);
        if end == None { return None; }
        i := end.value;
      } else if LineStart(b, i) || BlockStart(b, i) {
        i := SkipTriviaLoop(b, i);
      } else {
        if b[i] == b[open] {
          depth := depth + 1;
        } else if b[i] == closer {
          depth := depth - 1;
          if depth == 0 { return Some(i); }
        }
        i := i + 1;
      }
    }
    return None;
  }

  method SkipValueLoop(b: string, i: nat) returns (r: Option<nat>)
    requires i <= |b|
    ensures r == SkipValue(b, i)
  {
    if i == |b| {
      return None;
    }
    if b[i] == '"' {
      r := SkipStringLoop(b, i);
    } else if IsOpener(b[i]) {
      var close := MatchingDelimLoop(b, i);
      r := if close.None? then None else Some(close.value + 1);
    } else {
      var j := i;
      while j < |b| && !ScalarStop(b[j])
        invariant i <= j <= |b|
        invariant ScalarEnd(b, j) == ScalarEnd(b, i)
      {
        j := j + 1;
      }
      r := Some(j);
    }
  }

  /** One round of the walk: past the key at `i` and its colon, to the value. */
  method KeyRound(b: string, i: nat, close: nat, key: string) returns (hit: bool, value: Option<nat>)
    requires i < close && i < |b| && b[i] == '"'
    ensures value.Some? ==> i < value.value <= |b|
    ensures Lookup(b, i, close, key) ==
            if value.None? then None else if hit then value else LookupFromValue(b, value.value, close, key)
  {
    hit := false;
    var keyEnd := SkipStringLoop(b, i);
    if keyEnd == None { return false, None; }
    var after := SkipTriviaLoop(b, keyEnd.value);
    if !(after < |b| && b[after] == ':') { return false, None; }
    var v := SkipTriviaLoop(b, after + 1);
    return b[i + 1..keyEnd.value - 1] == key, Some(v);
  }

  method MemberValueLoop(b: string, open: nat, close: nat, key: string) returns (r: Option<nat>)
    requires open < |b|
    ensures r == MemberValue(b, open, close, key)
  {
    var i := SkipTriviaLoop(b, open + 1);
    ghost var target := MemberValue(b, open, close, key);
    while i < close && i < |b| && b[i] == '"'
      invariant i <= |b|
      invariant Lookup(b, i, close, key) == target
      decreases |b| - i
    {
      var hit, value := KeyRound(b, i, close, key);
      if value == None || hit { return value; }
      var end := SkipValueLoop(b, value.value);
      if end == None { return None; }
      var next := SkipTriviaLoop(b, end.value);
      assert LookupFromNext(b, next, close, key) == target;
      if next < |b| && b[next] == ',' {
        i := SkipTriviaLoop(b, next + 1);
      } else {
        return None;
      }
    }
    return None;
  }
}
