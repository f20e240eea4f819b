/** What a second registration finds after the first one has spliced its member in.

    Everything is stated for an arbitrary document. The splice keeps the text `p` in front of
    the closing brace (up to white space), so the second run's scans follow their scans of `p`
    and then meet the inserted member.
 */
module JsoncSecondRun {
  import opened Wrappers
  import opened JsoncScan
  import opened JsoncLocality
  import opened JsoncTree
  import opened JsoncSplice
  import opened JsoncMemberText

  /** Will the member walk find a member that is spliced in behind `p`, where it stands at `w`?
      The comma test only looks at the last byte of `p`; it is right unless that byte belongs to
      a comment, and even then when the comma lands in a line comment where none was needed, or
      behind a block comment where one was needed. */
  predicate Insertable(p: string, w: WalkEnd) {
    w.EndsAt? && w.from <= |p| &&
    var line := TriviaTail(p, w.from) == Line;
    match w.slot
    case NeedsMember => line || !NeedsComma(p)
    case NeedsColon => false
    case NeedsValue => !line && NeedsComma(p)
    case AfterValue => !line && NeedsComma(p)
  }

  // ---------------------------------------------------------------- lookups in the new text

  /** `x` is `p`, a comma if needed, the item `ins` from `a` to `e`, and a closing brace. */
  ghost predicate SplicedIn(p: string, x: string, ins: Item, a: nat, e: nat) {
    && p != "" && p < x && a == |p| + |Comma(p)| && a < e < |x|
    && (NeedsComma(p) ==> x[|p|] == ',')
    && At(x, a, ItemText(ins), e) && ItemOk(ins, true)
    && x[a] == '\n' && x[e] == '}'
  }

  lemma LandsAt(p: string, x: string, ins: Item, a: nat, e: nat, from: nat)
    requires SplicedIn(p, x, ins, a, e) && from <= |p|
    ensures AfterTrivia(p, x, from) ==
            if TriviaTail(p, from) == Line || !NeedsComma(p) then SkipTrivia(x, a) else |p|
  {
    hide At, ItemText, ItemOk, TriviaTail, BlockEnd;
    if TriviaTail(p, from) == Line {
      assert LineEnd(x, a) == a;
      assert LineEnd(x, |p|) == a;
    }
  }

  /** The stations of the lookup around the inserted member. */
  lemma InsertedStations(x: string, ins: Item, a: nat, e: nat, close: nat, key: string) returns (i: nat)
    requires At(x, a, ItemText(ins), e) && ItemOk(ins, true) && e < |x| && x[e] == '}' && e <= close
    requires KeyText(ins) == key
    ensures i == SkipTrivia(x, a) && i < |x| && x[i] == '"'
    ensures Lookup(x, i, close, key) == Some(a + |HeadText(ins.head)|)
    ensures LookupFromValue(x, i, close, key) == None
    ensures LookupFromNext(x, i, close, key) == None
  {
    hide *;
    var value, end := ItemParts(x, a, ins, true, e);
    assert ItemStop(x, e) by { BraceStops(x, e); }
    ItemKeyed(ins);
    ValueStages(x, value, ins, true, end, e);
    AtEnds(x, a, HeadText(ins.head), value);
    AtEnds(x, value, Text(ins.value), end);
    LookupHead(x, a, ins.head, value, close, key);
    var i', keyEnd, after := KeyStages(x, a, ins.head, value);
    i := i';
    KeyAsValue(x, i, keyEnd, after, close, key);
  }

  lemma BraceStops(x: string, e: nat)
    requires e < |x| && x[e] == '}'
    ensures ItemStop(x, e)
  {
  }

  lemma KeyAsValue(x: string, i: nat, keyEnd: nat, after: nat, close: nat, key: string)
    requires i < |x| && x[i] == '"' && SkipString(x, i) == Some(keyEnd) && keyEnd <= |x|
    requires after == SkipTrivia(x, keyEnd) && after < |x| && x[after] == ':'
    ensures LookupFromValue(x, i, close, key) == None && LookupFromNext(x, i, close, key) == None
  {
    hide SkipString, SkipTrivia, Lookup;
  }

  lemma CommaStations(x: string, i: nat, close: nat, key: string)
    requires i < |x| && x[i] == ','
    ensures Lookup(x, i, close, key) == None
    ensures LookupFromValue(x, i, close, key) == Lookup(x, SkipTrivia(x, i + 1), close, key)
    ensures LookupFromNext(x, i, close, key) == Lookup(x, SkipTrivia(x, i + 1), close, key)
  {
    assert ScalarEnd(x, i) == i;
    assert SkipTrivia(x, i) == i;
    hide SkipTrivia, SkipString, Lookup;
    assert SkipValue(x, i) == Some(i);
  }

  lemma SlotLookup(p: string, x: string, i: nat, found: Option<nat>, close: nat, key: string, w: WalkEnd,
                   r: Option<nat>)
    requires p < x && w.EndsAt? && w.from <= |p| && ScalarStop(x[|p|])
    requires Follows(p, x, close, key, w, r)
    requires AfterTrivia(p, x, w.from) == if TriviaTail(p, w.from) == Line || !NeedsComma(p) then i else |p|
    requires i < |x| && x[i] == '"' && Lookup(x, i, close, key) == found
    requires LookupFromValue(x, i, close, key) == None && LookupFromNext(x, i, close, key) == None
    requires NeedsComma(p) ==>
      x[|p|] == ',' && Lookup(x, |p|, close, key) == None &&
      LookupFromValue(x, |p|, close, key) == found && LookupFromNext(x, |p|, close, key) == found
    ensures r == if Insertable(p, w) then found else None
  {
    hide Lookup, LookupFromValue, LookupFromNext, AfterTrivia, TriviaTail, NeedsComma;
  }

  lemma SplicedShape(p: string, x: string, ins: Item, a: nat, e: nat, close: nat)
    requires SplicedIn(p, x, ins, a, e) && e <= close
    ensures p < x && a < e && Separated(p, x, close) && ScalarStop(x[|p|])
    ensures At(x, a, ItemText(ins), e) && ItemOk(ins, true) && e < |x| && x[e] == '}'
    ensures NeedsComma(p) ==> x[|p|] == ',' && a == |p| + 1
  {
    hide At, ItemText, ItemOk, NeedsComma;
  }

  /** The lookup of the inserted key in the new text. */
  lemma SecondLookup(p: string, x: string, ins: Item, a: nat, e: nat, t: nat, close: nat, key: string)
    requires SplicedIn(p, x, ins, a, e) && t <= |p| && e <= close && KeyText(ins) == key
    requires !Walk(p, t, key).RunsOff? && !Walk(p, t, key).Found?
    ensures Lookup(x, SkipTrivia(x, t), close, key) ==
            if Insertable(p, Walk(p, t, key)) then Some(a + |HeadText(ins.head)|) else None
  {
    hide *;
    SplicedShape(p, x, ins, a, e, close);
    LookupExtends(p, x, t, close, key);
    var w := Walk(p, t, key);
    var r := Lookup(x, SkipTrivia(x, t), close, key);
    if w.EndsAt? {
      WalkEndsInside(p, t, key);
      LandsAt(p, x, ins, a, e, w.from);
      var i := InsertedStations(x, ins, a, e, close, key);
      if NeedsComma(p) { CommaStations(x, |p|, close, key); }
      SlotLookup(p, x, i, Some(a + |HeadText(ins.head)|), close, key, w, r);
    } else {
      StuckLookup(p, x, close, key, w, r);
    }
  }

  lemma WalkEndsInside(p: string, t: nat, key: string)
    requires t <= |p| && Walk(p, t, key).EndsAt?
    ensures Walk(p, t, key).from <= |p|
  {
    hide Walk;
  }

  lemma StuckLookup(p: string, x: string, close: nat, key: string, w: WalkEnd, r: Option<nat>)
    requires p < x && w.Stuck? && Follows(p, x, close, key, w, r)
    ensures r == None && !Insertable(p, w)
  {
  }

  // ---------------------------------------------------------------- braces in the new text

  lemma {:induction false} WhiteScan(d: string, i: nat, c: nat, k: nat)
    requires i <= c < |d| && d[c] == '}' && k >= 1
    requires forall n :: i <= n < c ==> WhiteByte(d[n])
    ensures Scan(d, i, '{', '}', k) == Scan(d, c, '{', '}', k)
    decreases c - i
  {
    if i < c { WhiteScan(d, i + 1, c, k); }
  }

  /** Behind `p` there is only white space and then the brace `c` that closes `d[open]`: the scan
      has run through `p` outside strings and block comments, back at the depth of that object. */
  lemma KeptScan(d: string, p: string, open: nat, c: nat)
    requires p <= d && open < |p| <= c < |d| && d[open] == '{' && d[c] == '}'
    requires forall n :: |p| <= n < c ==> WhiteByte(d[n])
    requires Match(d, open) == Some(c)
    ensures ScanTo(p, open + 1, '{', '}', 1).Open? && ScanTo(p, open + 1, '{', '}', 1).depth == 1
  {
    assert Extends(p, d);
    assert Scan(d, open + 1, '{', '}', 1) == Some(c);
    hide ScanTo, SkipString, SkipTrivia;
    ScanExtends(p, d, open + 1, '{', '}', 1);
    match ScanTo(p, open + 1, '{', '}', 1)
    case Closed(at) => ClosedInside(p, open + 1, 1, at);
    case Cut => assert false;
    case Open(k, line) =>
      var r := Resume(d, |p|, line);
      if r <= c {
        WhiteScan(d, r, c, k);
      }
  }

  lemma {:induction false} ClosedInside(p: string, i: nat, k: nat, at: nat)
    requires i <= |p| && k >= 1 && ScanTo(p, i, '{', '}', k) == Closed(at)
    ensures at < |p|
  {
    ScanIsScanTo(p, i, '{', '}', k);
  }

  /** The inserted member is balanced, so the object's brace is found behind it. */
  lemma ScanSpliced(p: string, x: string, ins: Item, a: nat, e: nat, open: nat)
    requires SplicedIn(p, x, ins, a, e) && open < |p| && x[open] == '{'
    requires ScanTo(p, open + 1, '{', '}', 1).Open? && ScanTo(p, open + 1, '{', '}', 1).depth == 1
    ensures Match(x, open) == Some(e)
  {
    hide *;
    SplicedShape(p, x, ins, a, e, e);
    var line := ScanTo(p, open + 1, '{', '}', 1).line;
    ResumeSpliced(p, x, ins, a, e, line);
    ObjectBraces();
    SeparatedExtends(p, x, e);
    ScanExtends(p, x, open + 1, '{', '}', 1);
    OpenScan(p, x, open + 1, line);
    ScanItem(x, a, ins, true, e, '{', '}', 1);
    ScanIsScanTo(x, a, '{', '}', 1);
    ScanIsScanTo(x, e, '{', '}', 1);
    BraceCloses(x, e);
    MatchIsScan(x, open);
  }

  lemma ObjectBraces()
    ensures IsOpener('{') && '}' == Closer('{')
  {
  }

  lemma SeparatedExtends(p: string, x: string, close: nat)
    requires Separated(p, x, close)
    ensures Extends(p, x)
  {
  }

  lemma OpenScan(p: string, x: string, i: nat, line: bool)
    requires Extends(p, x) && i <= |p| && ScanTo(p, i, '{', '}', 1) == Open(1, line)
    requires ScanFollows(p, x, i, '{', '}', 1)
    ensures Scan(x, i, '{', '}', 1) == Scan(x, Resume(x, |p|, line), '{', '}', 1)
  {
    hide ScanTo, Scan, Resume;
  }

  lemma BraceCloses(x: string, e: nat)
    requires e < |x| && x[e] == '}'
    ensures Scan(x, e, '{', '}', 1) == Some(e)
  {
  }

  lemma MatchIsScan(x: string, open: nat)
    requires open < |x| && x[open] == '{'
    ensures Match(x, open) == Scan(x, open + 1, '{', '}', 1)
  {
    hide Scan;
  }

  lemma ResumeSpliced(p: string, x: string, ins: Item, a: nat, e: nat, line: bool)
    requires SplicedIn(p, x, ins, a, e)
    ensures Scan(x, Resume(x, |p|, line), '{', '}', 1) == Scan(x, a, '{', '}', 1)
  {
    hide At, ItemText, ItemOk;
    if line {
      assert LineEnd(x, a) == a;
      assert LineEnd(x, |p|) == a;
    } else if NeedsComma(p) {
      assert x[|p|] == ',' && a == |p| + 1;
    }
  }

  // ---------------------------------------------------------------- an enclosing object

  lemma {:induction false} ScanNests(x: string, i: nat, m: nat, k: nat)
    requires i <= |x| && m >= 1 && k >= 1 && Scan(x, i, '{', '}', m).Some?
    ensures Scan(x, i, '{', '}', m + k) == Scan(x, Scan(x, i, '{', '}', m).value + 1, '{', '}', k)
    decreases |x| - i
  {
    if x[i] == '"' { ScanNests(x, SkipString(x, i).value, m, k); }
    else if LineStart(x, i) || BlockStart(x, i) { ScanNests(x, SkipTrivia(x, i), m, k); }
    else if x[i] == '{' { ScanNests(x, i + 1, m + 1, k); }
    else if x[i] == '}' { if m > 1 { ScanNests(x, i + 1, m - 1, k); } }
    else { ScanNests(x, i + 1, m, k); }
  }

  /** `x` from `i` on and `y` from `j` on are the same text. */
  ghost predicate SameRest(x: string, i: nat, y: string, j: nat) {
    i <= |x| && j <= |y| && x[i..] == y[j..]
  }

  lemma SameNext(x: string, i: nat, y: string, j: nat, n: nat)
    requires SameRest(x, i, y, j)
    ensures |x| - i == |y| - j
    ensures i + n < |x| ==> x[i + n] == y[j + n]
    ensures i + n <= |x| ==> SameRest(x, i + n, y, j + n)
  {
    assert |x[i..]| == |y[j..]|;
    if i + n < |x| { assert x[i..][n] == y[j..][n]; }
    if i + n <= |x| { assert x[i + n..] == x[i..][n..] && y[j + n..] == y[j..][n..]; }
  }

  lemma {:induction false} LineEndSame(x: string, i: nat, y: string, j: nat)
    requires SameRest(x, i, y, j)
    ensures SameRest(x, LineEnd(x, i), y, LineEnd(y, j))
    decreases |x| - i
  {
    SameNext(x, i, y, j, 0);
    SameNext(x, i, y, j, 1);
    hide SameRest;
    if i < |x| && x[i] != '\n' { LineEndSame(x, i + 1, y, j + 1); }
  }

  lemma {:induction false} BlockEndSame(x: string, i: nat, y: string, j: nat)
    requires SameRest(x, i, y, j)
    ensures BlockEnd(x, i).Some? <==> BlockEnd(y, j).Some?
    ensures BlockEnd(x, i).Some? ==> SameRest(x, BlockEnd(x, i).value, y, BlockEnd(y, j).value)
    decreases |x| - i
  {
    SameNext(x, i, y, j, 0);
    SameNext(x, i, y, j, 1);
    SameNext(x, i, y, j, 2);
    hide SameRest;
    if i + 1 < |x| && !(x[i] == '*' && x[i + 1] == '/') { BlockEndSame(x, i + 1, y, j + 1); }
  }

  lemma {:induction false} SkipTriviaSame(x: string, i: nat, y: string, j: nat)
    requires SameRest(x, i, y, j)
    ensures SameRest(x, SkipTrivia(x, i), y, SkipTrivia(y, j))
    decreases |x| - i
  {
    SameNext(x, i, y, j, 0);
    SameNext(x, i, y, j, 1);
    SameNext(x, i, y, j, 2);
    SameEnds(x, i, y, j);
    hide SameRest;
    if i < |x| && IsBlank(x[i]) {
      SkipTriviaSame(x, i + 1, y, j + 1);
    } else if LineStart(x, i) {
      LineEndSame(x, i + 2, y, j + 2);
      SkipTriviaSame(x, LineEnd(x, i + 2), y, LineEnd(y, j + 2));
    } else if BlockStart(x, i) {
      BlockEndSame(x, i + 2, y, j + 2);
      if BlockEnd(x, i + 2).Some? {
        SkipTriviaSame(x, BlockEnd(x, i + 2).value, y, BlockEnd(y, j + 2).value);
      }
    }
  }

  lemma SameEnds(x: string, i: nat, y: string, j: nat)
    requires SameRest(x, i, y, j)
    ensures SameRest(x, |x|, y, |y|)
  {
  }

  lemma {:induction false} StringEndSame(x: string, i: nat, y: string, j: nat)
    requires SameRest(x, i, y, j)
    ensures StringEnd(x, i).Some? <==> StringEnd(y, j).Some?
    ensures StringEnd(x, i).Some? ==> SameRest(x, StringEnd(x, i).value, y, StringEnd(y, j).value)
    decreases |x| - i
  {
    SameNext(x, i, y, j, 0);
    SameNext(x, i, y, j, 1);
    SameNext(x, i, y, j, 2);
    hide SameRest;
    if i < |x| {
      if x[i] == '\\' {
        if i + 2 <= |x| { StringEndSame(x, i + 2, y, j + 2); }
      } else if x[i] != '"' {
        StringEndSame(x, i + 1, y, j + 1);
      }
    }
  }

  lemma SameHere(x: string, i: nat, y: string, j: nat)
    requires SameRest(x, i, y, j)
    ensures i <= |x| && j <= |y| && |x| - i == |y| - j && (i < |x| ==> x[i] == y[j])
    ensures LineStart(x, i) == LineStart(y, j) && BlockStart(x, i) == BlockStart(y, j)
  {
    SameNext(x, i, y, j, 0);
    SameNext(x, i, y, j, 1);
    hide SameRest;
  }

  /** A delimiter scan only depends on the text from where it starts. */
  lemma {:induction false} ScanSame(x: string, i: nat, y: string, j: nat, k: nat)
    requires SameRest(x, i, y, j) && k >= 1
    ensures Scan(x, i, '{', '}', k).Some? <==> Scan(y, j, '{', '}', k).Some?
    decreases |x| - i
  {
    SameHere(x, i, y, j);
    SameNext(x, i, y, j, 1);
    hide SameRest, SkipTrivia, StringEnd, LineStart, BlockStart;
    if i < |x| {
      if x[i] == '"' {
        StringEndSame(x, i + 1, y, j + 1);
        if SkipString(x, i).Some? { ScanSame(x, SkipString(x, i).value, y, SkipString(y, j).value, k); }
      } else if LineStart(x, i) || BlockStart(x, i) {
        SkipTriviaSame(x, i, y, j);
        ScanSame(x, SkipTrivia(x, i), y, SkipTrivia(y, j), k);
      } else if x[i] == '{' {
        ScanSame(x, i + 1, y, j + 1, k + 1);
      } else if x[i] == '}' {
        if k > 1 { ScanSame(x, i + 1, y, j + 1, k - 1); }
      } else {
        ScanSame(x, i + 1, y, j + 1, k);
      }
    }
  }
}
