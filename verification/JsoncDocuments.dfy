/** Registration on well-formed documents: every JSONC document printed from a syntax tree, with
    any blanks and comments, and anything at all behind its root object.
 */
module JsoncDocuments {
  import opened Wrappers
  import opened JsoncScan
  import opened JsoncLocality
  import opened JsoncTree
  import opened JsoncSplice
  import opened JsoncMemberText
  import opened JsoncSecondRun
  import opened JsoncRegister

  // ---------------------------------------------------------------- the last comment of a gap

  datatype Note = NoNote | LineLast | BlockLast

  function LastNote(ps: seq<Piece>): Note {
    if ps == [] then NoNote
    else if LastNote(ps[1..]) != NoNote then LastNote(ps[1..])
    else match ps[0]
      case Gap(_) => NoNote
      case LineNote(_) => LineLast
      case BlockNote(_) => BlockLast
  }

  /** The comma test is right: no comment stands directly before the brace, or it is a line comment
      where no comma was missing, or a block comment where one was. */
  predicate CommaTestRight(items: Items) {
    match LastNote(FinalGap(items))
    case NoNote => true
    case LineLast => FinalSlot(items) == NeedsMember
    case BlockLast => FinalSlot(items) == AfterValue
  }

  lemma {:induction false} NoteIsKept(d: string, q: nat, ps: seq<Piece>, c: nat) returns (k: nat)
    requires At(d, q, TriviaText(ps), c) && LastNote(ps) != NoNote
    ensures q <= k < c && !WhiteByte(d[k])
    decreases |ps|
  {
    var m := Split(d, q, PieceText(ps[0]), TriviaText(ps[1..]), c);
    if LastNote(ps[1..]) != NoNote {
      k := NoteIsKept(d, m, ps[1..], c);
    } else {
      assert d[q] == PieceText(ps[0])[0];
      k := q;
    }
  }

  /** `p` is `d` up to white space in front of `c`. */
  ghost predicate KeptOf(p: string, d: string, c: nat) {
    && p <= d && |p| <= c < |d| && (forall k :: |p| <= k < c ==> WhiteByte(d[k]))
    && (p != "" ==> !IsBlank(p[|p| - 1]))
  }

  /** How the kept text ends when a gap with its comments stood in front of the brace. */
  ghost predicate GapEnds(p: string, q: nat, note: Note) {
    && q <= |p| && SkipTrivia(p, q) == |p|
    && match note
       case NoNote => q == |p|
       case LineLast => q < |p| && TriviaTail(p, q) == Line
       case BlockLast => q < |p| && TriviaTail(p, q) == Block && p[|p| - 1] == '/'
  }

  lemma GapPiece(p: string, d: string, q: nat, ch: char, ps: seq<Piece>, c: nat)
    requires KeptOf(p, d, c) && q < |p| && p[q] == ch && IsBlank(ch)
    requires GapEnds(p, q + 1, LastNote(ps))
    ensures GapEnds(p, q, LastNote(ps))
  {
    hide LastNote, LineEnd, BlockEnd, WhiteByte;
    assert TriviaTail(p, q) == if q + 1 == |p| then Blank else TriviaTail(p, q + 1);
  }

  lemma BlockPiece(p: string, q: nat, e: nat, t: string, ps: seq<Piece>)
    requires BlockStart(p, q) && BlockEnd(p, q + 2) == Some(e) && GapEnds(p, e, LastNote(ps))
    ensures GapEnds(p, q, if LastNote(ps) == NoNote then BlockLast else LastNote(ps))
  {
    hide LastNote, BlockEnd;
    assert SkipTrivia(p, q) == SkipTrivia(p, e);
    assert TriviaTail(p, q) == if e == |p| then Block else TriviaTail(p, e);
  }

  lemma LinePiece(p: string, q: nat, e: nat, ps: seq<Piece>)
    requires LineStart(p, q) && LineEnd(p, q + 2) == e - 1 && 0 < e <= |p| && p[e - 1] == '\n' && !IsBlank(p[|p| - 1])
    requires GapEnds(p, e, LastNote(ps))
    ensures GapEnds(p, q, LastNote(ps)) && LastNote(ps) != NoNote
  {
    hide LastNote, LineEnd;
    assert SkipTrivia(p, q) == SkipTrivia(p, e - 1) == SkipTrivia(p, e);
    assert TriviaTail(p, q) == TriviaTail(p, e - 1);
    assert IsBlank(p[e - 1]) && e != |p|;
    assert TriviaTail(p, e - 1) == if e == |p| then Blank else TriviaTail(p, e);
  }

  lemma LineCut(p: string, d: string, q: nat, e: nat)
    requires p <= d && q + 2 <= |p| <= e - 1 && LineStart(d, q) && LineEnd(d, q + 2) == e - 1 && e <= |d|
    ensures GapEnds(p, q, LineLast)
  {
    assert Extends(p, d) || |p| < |d|;
    LineCutEnd(p, d, q + 2, e - 1);
  }

  lemma {:induction false} LineCutEnd(p: string, d: string, i: nat, e: nat)
    requires p <= d && i <= |p| <= e <= |d| && LineEnd(d, i) == e
    ensures LineEnd(p, i) == |p|
    decreases |p| - i
  {
    if i < |p| { LineCutEnd(p, d, i + 1, e); }
  }

  lemma AtKept(p: string, d: string, a: nat, t: string, e: nat)
    requires p <= d && At(d, a, t, e) && e <= |p|
    ensures At(p, a, t, e)
  {
  }

  /** The trivia in front of the brace, seen in the kept text. */
  lemma {:induction false} GapKept(p: string, d: string, q: nat, ps: seq<Piece>, c: nat)
    requires KeptOf(p, d, c) && q <= |p| && At(d, q, TriviaText(ps), c) && TriviaOk(ps)
    ensures GapEnds(p, q, LastNote(ps))
    decreases |ps|
  {
    if ps == [] {
      assert q == c;
    } else {
      var e := Split(d, q, PieceText(ps[0]), TriviaText(ps[1..]), c);
      match ps[0]
      case Gap(ch) => GapKeptBlank(p, d, q, ps, c, e);
      case LineNote(t) => GapKeptLine(p, d, q, ps, c, e);
      case BlockNote(t) => GapKeptBlock(p, d, q, ps, c, e);
    }
  }

  lemma {:induction false} GapKeptBlank(p: string, d: string, q: nat, ps: seq<Piece>, c: nat, e: nat)
    requires KeptOf(p, d, c) && q <= |p| && At(d, q, TriviaText(ps), c) && TriviaOk(ps)
    requires ps != [] && ps[0].Gap? && At(d, q, PieceText(ps[0]), e) && At(d, e, TriviaText(ps[1..]), c)
    ensures GapEnds(p, q, LastNote(ps))
    decreases |ps|, 0
  {
    assert d[q] == PieceText(ps[0])[0] && e == q + 1;
    hide TriviaText, PieceText, SkipTrivia, TriviaTail;
    assert LastNote(ps) == LastNote(ps[1..]);
    if |p| == q {
      if LastNote(ps) != NoNote {
        var k := NoteIsKept(d, e, ps[1..], c);
      }
      SkipAtEnd(p);
    } else {
      assert p[q] == d[q];
      GapKept(p, d, e, ps[1..], c);
      GapPiece(p, d, q, d[q], ps[1..], c);
    }
  }

  lemma SkipAtEnd(p: string)
    ensures SkipTrivia(p, |p|) == |p| && TriviaTail(p, |p|) == Bare
  {
  }

  lemma {:induction false} GapKeptLine(p: string, d: string, q: nat, ps: seq<Piece>, c: nat, e: nat)
    requires KeptOf(p, d, c) && q <= |p| && At(d, q, TriviaText(ps), c) && TriviaOk(ps)
    requires ps != [] && ps[0].LineNote? && At(d, q, PieceText(ps[0]), e) && At(d, e, TriviaText(ps[1..]), c)
    ensures GapEnds(p, q, LastNote(ps))
    decreases |ps|, 0
  {
    hide TriviaText, PieceText, PieceOk, LastNote, SkipTrivia, TriviaTail, At, LineEnd, WhiteByte;
    LineFacts(d, q, ps[0], e);
    AtEnds(d, e, TriviaText(ps[1..]), c);
    assert |p| >= q + 2;
    LineIsLast(ps);
    if |p| <= e - 1 {
      if LastNote(ps[1..]) != NoNote {
        var k := NoteIsKept(d, e, ps[1..], c);
      }
      LineCut(p, d, q, e);
    } else {
      GapKept(p, d, e, ps[1..], c);
      LineEndWithin(p, d, q + 2, e - 1);
      LinePiece(p, q, e, ps[1..]);
    }
  }

  lemma LineFacts(d: string, q: nat, p: Piece, e: nat)
    requires p.LineNote? && PieceOk(p) && At(d, q, PieceText(p), e)
    ensures q + 2 < e <= |d| && LineStart(d, q) && LineEnd(d, q + 2) == e - 1 && d[e - 1] == '\n'
    ensures !WhiteByte(d[q]) && !WhiteByte(d[q + 1])
  {
    hide LineEnd;
    assert PieceText(p) == "//" + (p.text + "\n");
    LineNoteEnds(d, q, p.text, e);
  }

  lemma LineIsLast(ps: seq<Piece>)
    requires ps != [] && ps[0].LineNote?
    ensures LastNote(ps) == if LastNote(ps[1..]) != NoNote then LastNote(ps[1..]) else LineLast
  {
  }

  lemma {:induction false} LineEndWithin(p: string, d: string, i: nat, e: nat)
    requires p <= d && i <= e < |p| && LineEnd(d, i) == e
    ensures LineEnd(p, i) == e
    decreases e - i
  {
    if i < e { LineEndWithin(p, d, i + 1, e); }
  }

  lemma {:induction false} GapKeptBlock(p: string, d: string, q: nat, ps: seq<Piece>, c: nat, e: nat)
    requires KeptOf(p, d, c) && q <= |p| && At(d, q, TriviaText(ps), c) && TriviaOk(ps)
    requires ps != [] && ps[0].BlockNote? && At(d, q, PieceText(ps[0]), e) && At(d, e, TriviaText(ps[1..]), c)
    ensures GapEnds(p, q, LastNote(ps))
    decreases |ps|, 0
  {
    hide *;
    BlockHead(ps);
    BlockFacts(d, q, ps[0], e);
    AtEnds(d, e, TriviaText(ps[1..]), c);
    BlackKept(p, d, c, e);
    AtKept(p, d, q, PieceText(ps[0]), e);
    BlockFacts(p, q, ps[0], e);
    GapKept(p, d, e, ps[1..], c);
    BlockPiece(p, q, e, ps[0].text, ps[1..]);
  }

  lemma BlockHead(ps: seq<Piece>)
    requires ps != [] && ps[0].BlockNote? && TriviaOk(ps)
    ensures LastNote(ps) == if LastNote(ps[1..]) != NoNote then LastNote(ps[1..]) else BlockLast
    ensures PieceOk(ps[0]) && TriviaOk(ps[1..])
  {
    hide PieceOk;
  }

  lemma BlockFacts(d: string, q: nat, p: Piece, e: nat)
    requires p.BlockNote? && PieceOk(p) && At(d, q, PieceText(p), e)
    ensures q + 2 < e <= |d| && BlockStart(d, q) && BlockEnd(d, q + 2) == Some(e) && !WhiteByte(d[e - 1])
  {
    hide BlockEnd;
    assert PieceText(p) == "/*" + (p.text + "*/");
    BlockNoteEnds(d, q, p.text, e);
    assert PieceText(p)[|PieceText(p)| - 1] == d[e - 1];
  }

  lemma BlackKept(p: string, d: string, c: nat, e: nat)
    requires KeptOf(p, d, c) && 0 < e <= c && !WhiteByte(d[e - 1])
    ensures p <= d && e <= |p|
  {
    hide WhiteByte;
  }

  // ---------------------------------------------------------------- the object that is edited

  /** The last token of the items, or the opening brace, is kept. */
  lemma {:induction false} LastTokenBlack(d: string, a: nat, items: Items, q: nat)
    requires 0 < a && At(d, a, ItemsText(items), q) && ItemsOk(items, true) && FinalGap(items) == []
    requires d[a - 1] == '{' || d[a - 1] == ','
    ensures a <= q <= |d| && !WhiteByte(d[q - 1])
    ensures FinalSlot(items) == NeedsMember ==> d[q - 1] == '{' || d[q - 1] == ','
    ensures FinalSlot(items) == AfterValue ==> d[q - 1] != '{' && d[q - 1] != ','
    decreases items
  {
    match items
    case End(_) =>
    case Last(it) =>
      LastItemBlack(d, a, items, it, q);
    case More(it, rest) =>
      hide *;
      var m, n := CommaPlace(d, a, items, q);
      LastTokenBlack(d, n, rest, q);
  }

  lemma LastItemBlack(d: string, a: nat, items: Items, it: Item, q: nat)
    requires items == Last(it) && 0 < a && At(d, a, ItemsText(items), q) && ItemsOk(items, true) &&
             FinalGap(items) == []
    ensures a <= q <= |d| && !WhiteByte(d[q - 1]) && d[q - 1] != '{' && d[q - 1] != ','
    ensures FinalSlot(items) == AfterValue
  {
    ItemValueOk(it);
    hide At, HeadText, Text, TriviaText, ItemText, Ok, HeadOk, WhiteByte;
    var value, end := ItemParts(d, a, it, true, q);
    ValueLast(d, value, it.value, end);
  }

  lemma CommaPlace(d: string, a: nat, items: Items, q: nat) returns (m: nat, n: nat)
    requires items.More? && 0 < a && At(d, a, ItemsText(items), q) && ItemsOk(items, true) && FinalGap(items) == []
    ensures a <= m && n == m + 1 <= |d| && d[m] == ',' && d[n - 1] == ',' && At(d, n, ItemsText(items.rest), q)
    ensures ItemsOk(items.rest, true) && FinalGap(items.rest) == [] && FinalSlot(items.rest) == FinalSlot(items)
  {
    hide ItemText, ItemOk;
    m := Split(d, a, ItemText(items.item), "," + ItemsText(items.rest), q);
    n := Split(d, m, ",", ItemsText(items.rest), q);
    assert d[m] == ","[0];
  }

  lemma ValueLast(d: string, a: nat, v: Value, e: nat)
    requires At(d, a, Text(v), e) && Ok(v)
    ensures a < e <= |d| && !WhiteByte(d[e - 1]) && d[e - 1] != '{' && d[e - 1] != ','
  {
    match v
    case Scalar(t) =>
      assert d[e - 1] == t[|t| - 1] && t[|t| - 1] in t;
    case Str(us) =>
      assert d[e - 1] == Quoted(us)[|Quoted(us)| - 1];
    case Arr(items) =>
      hide ItemsText;
      assert Text(v)[|Text(v)| - 1] == ']' && d[e - 1] == Text(v)[|Text(v)| - 1];
    case Obj(items) =>
      hide ItemsText;
      assert Text(v)[|Text(v)| - 1] == '}' && d[e - 1] == Text(v)[|Text(v)| - 1];
  }

  lemma {:induction false} ScalarGap(items: Items)
    requires ItemsOk(items, true) && EndsInScalar(items) && FinalGap(items) != []
    ensures FinalGap(items)[0].Gap? && EndsInScalar(Cropped(items))
    decreases items
  {
    hide HeadOk, Ok, TriviaOk;
    if items.More? { ScalarGap(items.rest); }
  }

  lemma {:induction false} CroppedScalar(items: Items)
    ensures EndsInScalar(Cropped(items)) == EndsInScalar(items)
    decreases items
  {
    if items.More? { CroppedScalar(items.rest); }
  }

  /** The walk over the kept text of a printed object ends where the tree says. */
  lemma KeptWalk(d: string, a: nat, items: Items, c: nat, key: string)
    requires 0 < a && At(d, a, ItemsText(items), c) && ItemsOk(items, true) && c < |d|
    requires d[a - 1] == '{' && d[c] == '}' && Find(items, key, a).None?
    ensures var p := Kept(d, c);
            a <= |p| && !Walk(p, a, key).RunsOff? && (Insertable(p, Walk(p, a, key)) <==> CommaTestRight(items))
  {
    hide *;
    CroppedText(items);
    CroppedOk(items, true);
    CroppedFind(items, key, a);
    CroppedScalar(items);
    var p := Kept(d, c);
    var q := Split(d, a, ItemsText(Cropped(items)), TriviaText(FinalGap(items)), c);
    LastTokenBlack(d, a, Cropped(items), q);
    KeptIs(d, c);
    AtEnds(d, q, TriviaText(FinalGap(items)), c);
    BlackIsKept(p, d, c, q);
    AtKept(p, d, a, ItemsText(Cropped(items)), q);
    GapKept(p, d, q, FinalGap(items), c);
    if EndsInScalar(items) && q < c {
      GapNotEmpty(d, q, FinalGap(items), c);
      ScalarGap(items);
      GapBlank(d, q, FinalGap(items), c);
    }
    RestIs(p, d, q, LastNote(FinalGap(items)), EndsInScalar(items));
    WalkItems(p, a, Cropped(items), q, key);
    CommaVerdict(p, q, items, LastNote(FinalGap(items)), Walk(p, a, key));
  }

  lemma KeptIs(d: string, c: nat)
    requires c < |d|
    ensures KeptOf(Kept(d, c), d, c)
  {
    hide TrimEnd, WhiteByte;
  }

  lemma BlackIsKept(p: string, d: string, c: nat, q: nat)
    requires KeptOf(p, d, c) && 0 < q <= c && !WhiteByte(d[q - 1])
    ensures q <= |p| && p <= d && p[q - 1] == d[q - 1] && |p| <= c < |d|
  {
    hide WhiteByte;
  }

  lemma GapNotEmpty(d: string, q: nat, ps: seq<Piece>, c: nat)
    requires At(d, q, TriviaText(ps), c) && q < c
    ensures ps != []
  {
  }

  lemma GapBlank(d: string, q: nat, ps: seq<Piece>, c: nat)
    requires At(d, q, TriviaText(ps), c) && ps != [] && ps[0].Gap? && TriviaOk(ps)
    ensures q < |d| && IsBlank(d[q])
  {
    assert d[q] == TriviaText(ps)[0];
  }

  lemma RestIs(p: string, d: string, q: nat, note: Note, scalar: bool)
    requires GapEnds(p, q, note) && p <= d && (scalar && q < |p| ==> IsBlank(d[q]))
    ensures TrivialRest(p, q, scalar)
  {
    hide SkipTrivia;
    if q == |p| { SkipAtEnd(p); }
  }

  lemma CommaVerdict(p: string, q: nat, items: Items, note: Note, w: WalkEnd)
    requires w == EndsAt(FinalSlot(items), q) && 0 < q && GapEnds(p, q, note) && note == LastNote(FinalGap(items))
    requires FinalSlot(items) == NeedsMember ==> p[q - 1] == '{' || p[q - 1] == ','
    requires FinalSlot(items) == AfterValue ==> p[q - 1] != '{' && p[q - 1] != ','
    ensures Insertable(p, w) <==> CommaTestRight(items)
  {
    hide SkipTrivia, LastNote, FinalGap;
    SlotKinds(items);
    if q == |p| { SkipAtEnd(p); }
  }

  lemma {:induction false} SlotKinds(items: Items)
    ensures FinalSlot(items) == NeedsMember || FinalSlot(items) == AfterValue
    decreases items
  {
    if items.More? { SlotKinds(items.rest); }
  }

  // ---------------------------------------------------------------- whole documents

  /** Leading blanks and comments, the root object, and anything behind it. */
  function DocText(pre: seq<Piece>, items: Items, tail: string): string {
    TriviaText(pre) + (Text(Obj(items)) + tail)
  }

  /** The value of the first member with that key. */
  function Get(items: Items, key: string): Option<Value> {
    match items
    case End(_) => None
    case Last(it) => if KeyText(it) == key then Some(it.value) else None
    case More(it, rest) => if KeyText(it) == key then Some(it.value) else Get(rest, key)
  }

  lemma {:induction false} GetIsFind(items: Items, key: string, a: nat)
    ensures Get(items, key) == match Find(items, key, a) case None => None case Some((_, v)) => Some(v)
    decreases items
  {
    hide KeyText, HeadText, ItemText;
    if items.More? { GetIsFind(items.rest, key, a + |ItemText(items.item)| + 1); }
  }

  /** The root object of a document, as the scanners see it. */
  lemma DocParts(pre: seq<Piece>, items: Items, tail: string) returns (open: nat, close: nat)
    requires TriviaOk(pre) && ItemsOk(items, true)
    ensures var d := DocText(pre, items, tail);
            && RootObject(d) == Some((open, close)) && open < close < |d| && d[open] == '{' && d[close] == '}'
            && At(d, open + 1, ItemsText(items), close)
            && SkipTrivia(d, 0) == open
    ensures forall key ::
              MemberValue(DocText(pre, items, tail), open, close, key) == Position(Find(items, key, open + 1))
  {
    hide *;
    var d := DocText(pre, items, tail);
    DocAt(pre, items, tail);
    open := Split(d, 0, TriviaText(pre), Text(Obj(items)) + tail, |d|);
    var end := Split(d, open, Text(Obj(items)), tail, |d|);
    AtEnds(d, open, Text(Obj(items)), end);
    ObjectOk(items);
    MatchAt(d, open, Obj(items), end);
    SkipTriviaAt(d, 0, pre, open);
    ValueStart(d, open, Obj(items), end);
    close := ObjectInside(d, open, items, end);
    RootFound(d, open, close);
    forall key ensures MemberValue(d, open, close, key) == Position(Find(items, key, open + 1)) {
      LookupItems(d, open + 1, items, close, close, key);
      MemberFromLookup(d, open, close, key);
    }
  }

  lemma DocAt(pre: seq<Piece>, items: Items, tail: string)
    ensures At(DocText(pre, items, tail), 0, TriviaText(pre) + (Text(Obj(items)) + tail), |DocText(pre, items, tail)|)
  {
    hide TriviaText, Text;
  }

  lemma ObjectOk(items: Items)
    requires ItemsOk(items, true)
    ensures Ok(Obj(items))
  {
  }

  lemma ObjectInside(d: string, open: nat, items: Items, end: nat) returns (close: nat)
    requires At(d, open, Text(Obj(items)), end)
    ensures close + 1 == end && end <= |d| && open < close && d[open] == '{' && d[close] == '}'
    ensures At(d, open + 1, ItemsText(items), close)
  {
    hide ItemsText;
    assert Text(Obj(items)) == "{" + (ItemsText(items) + "}");
    var m := Split(d, open, "{", ItemsText(items) + "}", end);
    close := Split(d, m, ItemsText(items), "}", end);
    assert d[open] == "{"[0] && d[close] == "}"[0];
  }

  /** The root's delimiter scan reaches the value of a member outside strings and comments. */
  lemma {:induction false} ScanReaches(q: string, d: string, a: nat, items: Items, e: nat, key: string)
    requires At(d, a, ItemsText(items), e) && ItemsOk(items, true) && Find(items, key, a).Some?
    requires q <= d && |q| == Find(items, key, a).value.0
    ensures a <= |q| && ScanTo(q, a, '{', '}', 1) == Open(1, false)
    decreases items
  {
    match items
    case Last(it) =>
      var value, end := ItemParts(d, a, it, true, e);
      ScanReachesHead(q, d, a, it, value);
    case More(it, rest) =>
      var m := Split(d, a, ItemText(it), "," + ItemsText(rest), e);
      var n := Split(d, m, ",", ItemsText(rest), e);
      assert d[m] == ","[0] && n == m + 1;
      if KeyText(it) == key {
        var value, end := ItemParts(d, a, it, true, m);
        ScanReachesHead(q, d, a, it, value);
      } else {
        FindMore(items, key, a, n);
        ScanReaches(q, d, n, rest, e, key);
        AtEnds(d, a, ItemText(it), m);
        ScanReachesMore(q, d, a, it, m, n);
      }
  }

  lemma ScanReachesHead(q: string, d: string, a: nat, it: Item, value: nat)
    requires ItemOk(it, true) && At(d, a, HeadText(it.head), value) && q <= d && |q| == value
    ensures a <= |q| && ScanTo(q, a, '{', '}', 1) == Open(1, false)
  {
    hide *;
    ItemKeyed(it);
    AtEnds(d, a, HeadText(it.head), value);
    AtKept(q, d, a, HeadText(it.head), value);
    ObjectBraces();
    ScanHead(q, a, it.head, true, value, '{', '}', 1);
    ScanToEnd(q);
  }

  lemma ScanToEnd(q: string)
    ensures ScanTo(q, |q|, '{', '}', 1) == Open(1, false)
  {
  }

  lemma ScanReachesMore(q: string, d: string, a: nat, it: Item, m: nat, n: nat)
    requires ItemOk(it, true) && At(d, a, ItemText(it), m) && q <= d && m < n == m + 1 <= |q| && d[m] == ','
    requires ScanTo(q, n, '{', '}', 1) == Open(1, false)
    ensures a <= |q| && ScanTo(q, a, '{', '}', 1) == Open(1, false)
  {
    hide *;
    AtEnds(d, a, ItemText(it), m);
    AtKept(q, d, a, ItemText(it), m);
    ObjectBraces();
    ScanItem(q, a, it, true, m, '{', '}', 1);
    assert q[m] == d[m];
    ScanComma(q, m);
  }

  lemma ScanComma(q: string, m: nat)
    requires m < |q| && q[m] == ','
    ensures ScanTo(q, m, '{', '}', 1) == ScanTo(q, m + 1, '{', '}', 1)
  {
  }

  // ---------------------------------------------------------------- the law for documents

  /** What the first run does with a document, and whether a second run then leaves it alone. */
  lemma DocumentLaw(pre: seq<Piece>, items: Items, tail: string, reg: Registration)
    requires TriviaOk(pre) && ItemsOk(items, true)
    ensures var r := EnsureRegistered(DocText(pre, items, tail), reg);
            match Get(items, AGENT_SERVERS)
            case None =>
              r.Updated? && (EnsureRegistered(r.text, reg) == AlreadyRegistered <==> CommaTestRight(items))
            case Some(Obj(servers)) =>
              if Get(servers, SERVER_ID).Some? then r == AlreadyRegistered
              else r.Updated? && (EnsureRegistered(r.text, reg) == AlreadyRegistered <==> CommaTestRight(servers))
            case Some(_) => r == Refused(ServersNotAnObject)
  {
    hide *;
    var d := DocText(pre, items, tail);
    var open, close := DocParts(pre, items, tail);
    GetIsFind(items, AGENT_SERVERS, open + 1);
    assert MemberValue(d, open, close, AGENT_SERVERS) == Position(Find(items, AGENT_SERVERS, open + 1));
    if Find(items, AGENT_SERVERS, open + 1).None? {
      RootLaw(d, items, open, close, reg);
    } else {
      FindAt(d, open + 1, items, close, AGENT_SERVERS);
      var (at, v) := Find(items, AGENT_SERVERS, open + 1).value;
      MemberFound(d, items, open, close, at, v);
      if v.Obj? {
        ServersLaw(d, items, open, close, at, v.items, reg);
      } else {
        NotAnObjectLaw(d, open, close, at, v, reg);
      }
    }
  }

  lemma MemberFound(d: string, items: Items, open: nat, close: nat, at: nat, v: Value)
    requires open < |d| && MemberValue(d, open, close, AGENT_SERVERS) == Position(Find(items, AGENT_SERVERS, open + 1))
    requires Find(items, AGENT_SERVERS, open + 1) == Some((at, v))
    ensures MemberValue(d, open, close, AGENT_SERVERS) == Some(at)
  {
    hide MemberValue, Find;
  }

  lemma RootLaw(d: string, items: Items, open: nat, close: nat, reg: Registration)
    requires ItemsOk(items, true) && RootObject(d) == Some((open, close)) && open < close < |d|
    requires d[open] == '{' && d[close] == '}' && At(d, open + 1, ItemsText(items), close)
    requires MemberValue(d, open, close, AGENT_SERVERS) == Position(Find(items, AGENT_SERVERS, open + 1))
    requires Find(items, AGENT_SERVERS, open + 1).None?
    ensures var r := EnsureRegistered(d, reg);
            r.Updated? && (EnsureRegistered(r.text, reg) == AlreadyRegistered <==> CommaTestRight(items))
  {
    hide *;
    KeptWalk(d, open + 1, items, close, AGENT_SERVERS);
    RootCaseIs(d, items, open, close);
    SecondRunAtRoot(d, reg, open, close);
  }

  lemma RootCaseIs(d: string, items: Items, open: nat, close: nat)
    requires RootObject(d) == Some((open, close)) && open < |d|
    requires MemberValue(d, open, close, AGENT_SERVERS) == Position(Find(items, AGENT_SERVERS, open + 1))
    requires Find(items, AGENT_SERVERS, open + 1).None?
    ensures RootCase(d, open, close)
  {
    hide MemberValue, Find, RootObject;
  }

  lemma NotAnObjectLaw(d: string, open: nat, close: nat, at: nat, v: Value, reg: Registration)
    requires RootObject(d) == Some((open, close)) && open < |d|
    requires MemberValue(d, open, close, AGENT_SERVERS) == Some(at)
    requires Ok(v) && !v.Obj? && At(d, at, Text(v), at + |Text(v)|)
    ensures EnsureRegistered(d, reg) == Refused(ServersNotAnObject)
  {
    hide RootObject, MemberValue, Match, Splice;
    assert v.Scalar? ==> v.text[0] in v.text;
    assert d[at] == Text(v)[0];
  }

  lemma ServersLaw(d: string, items: Items, open: nat, close: nat, at: nat, servers: Items, reg: Registration)
    requires ItemsOk(items, true) && RootObject(d) == Some((open, close)) && open < close < |d| && d[open] == '{'
    requires At(d, open + 1, ItemsText(items), close)
    requires Find(items, AGENT_SERVERS, open + 1) == Some((at, Obj(servers)))
    requires MemberValue(d, open, close, AGENT_SERVERS) == Some(at)
    requires Ok(Obj(servers)) && At(d, at, Text(Obj(servers)), at + |Text(Obj(servers))|) && SkipTrivia(d, 0) == open
    ensures var r := EnsureRegistered(d, reg);
            if Get(servers, SERVER_ID).Some? then r == AlreadyRegistered
            else r.Updated? && (EnsureRegistered(r.text, reg) == AlreadyRegistered <==> CommaTestRight(servers))
  {
    hide *;
    var end := ObjectInside(d, at, servers, at + |Text(Obj(servers))|);
    MatchAt(d, at, Obj(servers), end + 1);
    ObjectItemsOk(servers);
    LookupItems(d, at + 1, servers, end, end, SERVER_ID);
    MemberFromLookup(d, at, end, SERVER_ID);
    GetIsFind(servers, SERVER_ID, at + 1);
    if Find(servers, SERVER_ID, at + 1).None? {
      KeptWalk(d, at + 1, servers, end, SERVER_ID);
      NestedCaseIs(d, servers, open, close, at, end);
      var q := d[..at];
      FoundTuple(items, open + 1, at, Obj(servers));
      ScanReaches(q, d, open + 1, items, close, AGENT_SERVERS);
      SeesIs(d, open, at);
      SecondRunNested(d, reg, open, close, at, end);
    } else {
      RegisteredIs(d, servers, open, close, at, end, reg);
    }
  }

  lemma FoundTuple(items: Items, a: nat, at: nat, v: Value)
    requires Find(items, AGENT_SERVERS, a) == Some((at, v))
    ensures Find(items, AGENT_SERVERS, a).value.0 == at
  {
    hide Find;
  }

  lemma ObjectItemsOk(items: Items)
    requires Ok(Obj(items))
    ensures ItemsOk(items, true)
  {
  }

  lemma NestedCaseIs(d: string, servers: Items, open: nat, close: nat, at: nat, end: nat)
    requires RootObject(d) == Some((open, close)) && open < |d|
    requires MemberValue(d, open, close, AGENT_SERVERS) == Some(at)
    requires at < |d| && d[at] == '{' && Match(d, at) == Some(end)
    requires MemberValue(d, at, end, SERVER_ID) == Position(Find(servers, SERVER_ID, at + 1))
    requires Find(servers, SERVER_ID, at + 1).None?
    ensures NestedCase(d, open, close, at, end)
  {
    hide MemberValue, Find, RootObject, Match;
  }

  lemma SeesIs(d: string, open: nat, at: nat)
    requires open < at <= |d| && ScanTo(d[..at], open + 1, '{', '}', 1) == Open(1, false)
    ensures RootSees(d, open, at)
  {
    hide ScanTo;
  }

  lemma RegisteredIs(d: string, servers: Items, open: nat, close: nat, at: nat, end: nat, reg: Registration)
    requires RootObject(d) == Some((open, close)) && open < |d|
    requires MemberValue(d, open, close, AGENT_SERVERS) == Some(at)
    requires at < |d| && d[at] == '{' && Match(d, at) == Some(end)
    requires MemberValue(d, at, end, SERVER_ID) == Position(Find(servers, SERVER_ID, at + 1))
    requires Find(servers, SERVER_ID, at + 1).Some?
    ensures EnsureRegistered(d, reg) == AlreadyRegistered
  {
    hide MemberValue, Find, RootObject, Match, Splice;
  }

  /** A comment directly in front of the brace: `{"a":1 //c` and a line break, and then the brace.
      The comma test takes the comment's last byte for the end of a member without a comma, and the
      comma it adds lands behind the comment marker. */
  function CommentedItem(): Item {
    Item(Key([], [Plain('a')], [], []), Scalar("1"), [Gap(' '), LineNote("c")])
  }

  lemma CommentedItemOk()
    ensures ItemOk(CommentedItem(), true) && KeyText(CommentedItem()) == "a" &&
            LastNote(CommentedItem().post) == LineLast
  {
    assert [Plain('a')][1..] == [] && [Gap(' '), LineNote("c")][1..] == [LineNote("c")] && [LineNote("c")][1..] == [];
    assert LastNote([LineNote("c")]) == LineLast;
    assert TriviaOk([LineNote("c")]);
    assert forall c :: c in "1" ==> c == '1';
  }

  lemma CommentBreaksSecondRun(reg: Registration)
    ensures var d := DocText([], Last(CommentedItem()), "");
            && EnsureRegistered(d, reg).Updated?
            && EnsureRegistered(EnsureRegistered(d, reg).text, reg) != AlreadyRegistered
  {
    hide *;
    CommentedItemOk();
    CommentedDocument();
    DocumentLaw([], Last(CommentedItem()), "", reg);
  }

  lemma CommentedDocument()
    requires ItemOk(CommentedItem(), true) && KeyText(CommentedItem()) == "a" &&
             LastNote(CommentedItem().post) == LineLast
    ensures TriviaOk([]) && ItemsOk(Last(CommentedItem()), true)
    ensures Get(Last(CommentedItem()), AGENT_SERVERS) == None && !CommaTestRight(Last(CommentedItem()))
  {
    hide CommentedItem, ItemOk, KeyText, LastNote;
    assert "a" != AGENT_SERVERS;
  }
}
