/** What registration makes of a well-formed document: again a well-formed document, whose root
    object gained one member and kept every other, if and only if the comma test was right.
 */
module JsoncEdits {
  import opened Wrappers
  import opened JsoncScan
  import opened JsoncLocality
  import opened JsoncTree
  import opened JsoncSplice
  import opened JsoncMemberText
  import opened JsoncRegister
  import opened JsoncDocuments
  import opened JsoncMeaning

  // ---------------------------------------------------------------- editing a tree

  /** The items with `last` behind them, and `post` in place of the trivia behind the old last value. */
  function Grown(items: Items, post: seq<Piece>, last: Item): Items {
    match items
    case End(_) => Last(last)
    case Last(it) => More(Item(it.head, it.value, post), Last(last))
    case More(it, rest) => More(it, Grown(rest, post, last))
  }

  /** The items with another value for the first member with that key. */
  function WithValue(items: Items, key: string, v: Value): Items {
    match items
    case End(_) => items
    case Last(it) => if KeyText(it) == key then Last(Item(it.head, v, it.post)) else items
    case More(it, rest) =>
      if KeyText(it) == key then More(Item(it.head, v, it.post), rest) else More(it, WithValue(rest, key, v))
  }

  lemma {:induction false} GrownGet(items: Items, post: seq<Piece>, last: Item, k: string)
    ensures Get(Grown(items, post, last), k) ==
            if Get(items, k).None? && KeyText(last) == k then Some(last.value) else Get(items, k)
    decreases items
  {
    hide UnitsText;
    if items.More? { GrownGet(items.rest, post, last, k); }
  }

  lemma {:induction false} WithValueGet(items: Items, key: string, v: Value, k: string)
    requires Get(items, key).Some?
    ensures Get(WithValue(items, key, v), k) == if k == key then Some(v) else Get(items, k)
    decreases items
  {
    hide UnitsText;
    if items.More? && KeyText(items.item) != key { WithValueGet(items.rest, key, v, k); }
  }

  lemma {:induction false} GrownOk(items: Items, post: seq<Piece>, last: Item)
    requires ItemsOk(items, true) && ItemOk(last, true) && TriviaOk(post)
    requires post != [] ==> FinalGap(items) != [] && post[0] == FinalGap(items)[0]
    ensures ItemsOk(Grown(items, post, last), true)
    decreases items
  {
    hide HeadOk, Ok, TriviaOk;
    if items.More? { GrownOk(items.rest, post, last); }
  }

  lemma {:induction false} WithValueOk(items: Items, key: string, v: Value)
    requires ItemsOk(items, true) && Ok(v) && v.Obj?
    ensures ItemsOk(WithValue(items, key, v), true)
    decreases items
  {
    hide HeadOk, Ok, TriviaOk, UnitsText;
    if items.More? { WithValueOk(items.rest, key, v); }
  }

  /** The text that `Grown` puts behind the last token. */
  function GrownEnd(items: Items, post: seq<Piece>, last: Item): string {
    if FinalSlot(items) == AfterValue then TriviaText(post) + ("," + ItemText(last)) else ItemText(last)
  }

  lemma {:induction false} GrownText(items: Items, post: seq<Piece>, last: Item)
    ensures ItemsText(Grown(items, post, last)) == ItemsText(Cropped(items)) + GrownEnd(items, post, last)
    decreases items
  {
    match items
    case End(_) =>
      hide ItemText;
    case Last(it) =>
      GrownLastText(it, post, last);
    case More(it, rest) =>
      GrownText(rest, post, last);
      hide ItemText, GrownEnd;
      assert GrownEnd(items, post, last) == GrownEnd(rest, post, last) by { GrownEndMore(it, rest, post, last); }
      Regroup(ItemText(it), ",", ItemsText(Cropped(rest)), GrownEnd(rest, post, last));
  }

  lemma GrownEndMore(it: Item, rest: Items, post: seq<Piece>, last: Item)
    ensures GrownEnd(More(it, rest), post, last) == GrownEnd(rest, post, last)
  {
    hide ItemText, TriviaText;
  }

  lemma GrownLastText(it: Item, post: seq<Piece>, last: Item)
    ensures ItemsText(Grown(Last(it), post, last)) == ItemsText(Cropped(Last(it))) + GrownEnd(Last(it), post, last)
  {
    hide Text, HeadText, TriviaText;
    assert TriviaText([]) == "" by { OneBlank(); }
    var bare, kept := Item(it.head, it.value, []), Item(it.head, it.value, post);
    Regroup(HeadText(it.head), Text(it.value), "", TriviaText(post));
    assert TriviaText(post) == "" + TriviaText(post);
    assert ItemText(kept) == ItemText(bare) + TriviaText(post);
    hide ItemText;
    assert ItemsText(Grown(Last(it), post, last)) == ItemText(kept) + ("," + ItemText(last));
  }

  // ---------------------------------------------------------------- what is kept of a gap

  /** A line comment whose line break was trimmed away. */
  function OpenText(open: Option<string>): string {
    match open
    case None => ""
    case Some(t) => "//" + t
  }

  ghost predicate GapShape(front: seq<Piece>, open: Option<string>, ps: seq<Piece>) {
    && TriviaOk(front) && (front != [] ==> ps != [] && front[0] == ps[0])
    && (open.Some? <==> LastNote(ps) == LineLast) && (open.Some? ==> '\n' !in open.value)
    && (LastNote(ps) == NoNote ==> front == [])
  }

  /** The kept part of the trivia in front of the brace is trivia again, up to its last comment. */
  lemma {:induction false} GapTree(p: string, d: string, q: nat, ps: seq<Piece>, c: nat)
    returns (front: seq<Piece>, open: Option<string>)
    requires KeptOf(p, d, c) && q <= |p| && At(d, q, TriviaText(ps), c) && TriviaOk(ps)
    ensures GapShape(front, open, ps) && p[q..] == TriviaText(front) + OpenText(open)
    decreases |ps|
  {
    if LastNote(ps) == NoNote {
      front, open := NoGap(p, d, q, ps, c);
    } else {
      var k := NoteIsKept(d, q, ps, c);
      var e := Split(d, q, PieceText(ps[0]), TriviaText(ps[1..]), c);
      hide *;
      PieceIsKept(p, d, q, ps, c, e, k);
      if e <= |p| {
        front, open := GapTree(p, d, e, ps[1..], c);
        JoinPiece(p, d, q, ps, e, front, open);
        front := [ps[0]] + front;
      } else {
        LineIsOpen(p, d, q, ps, e);
        front, open := [], Some(p[q + 2..]);
      }
    }
  }

  lemma NoGap(p: string, d: string, q: nat, ps: seq<Piece>, c: nat) returns (front: seq<Piece>, open: Option<string>)
    requires KeptOf(p, d, c) && q <= |p| && At(d, q, TriviaText(ps), c) && TriviaOk(ps) && LastNote(ps) == NoNote
    ensures GapShape(front, open, ps) && p[q..] == TriviaText(front) + OpenText(open)
  {
    GapKept(p, d, q, ps, c);
    front, open := [], None;
  }

  /** Only a line comment that is the last comment can be kept in part. */
  lemma PieceIsKept(p: string, d: string, q: nat, ps: seq<Piece>, c: nat, e: nat, k: nat)
    requires KeptOf(p, d, c) && TriviaOk(ps) && ps != [] && LastNote(ps) != NoNote
    requires q <= k < c && !WhiteByte(d[k])
    requires At(d, q, PieceText(ps[0]), e) && At(d, e, TriviaText(ps[1..]), c)
    ensures p <= d && q < |p| && TriviaOk(ps[1..])
    ensures e <= |p| && ps[0].LineNote? ==> LastNote(ps[1..]) != NoNote
    ensures |p| < e ==> ps[0].LineNote? && PieceOk(ps[0]) && q + 2 <= |p| && LastNote(ps[1..]) == NoNote
  {
    hide TriviaText, WhiteByte;
    match ps[0]
    case Gap(_) =>
    case BlockNote(_) =>
      BlockFacts(d, q, ps[0], e);
    case LineNote(_) =>
      LineFacts(d, q, ps[0], e);
      if LastNote(ps[1..]) != NoNote {
        var j := NoteIsKept(d, e, ps[1..], c);
      } else if e <= |p| {
        assert p[e - 1] == d[e - 1];
        GapKept(p, d, e, ps[1..], c);
      }
  }

  lemma JoinPiece(p: string, d: string, q: nat, ps: seq<Piece>, e: nat, front: seq<Piece>, open: Option<string>)
    requires p <= d && e <= |p| && ps != [] && TriviaOk(ps) && At(d, q, PieceText(ps[0]), e)
    requires e <= |p| && ps[0].LineNote? ==> LastNote(ps[1..]) != NoNote
    requires LastNote(ps) != NoNote
    requires GapShape(front, open, ps[1..]) && p[e..] == TriviaText(front) + OpenText(open)
    ensures q <= |p| && GapShape([ps[0]] + front, open, ps)
    ensures p[q..] == TriviaText([ps[0]] + front) + OpenText(open)
  {
    hide *;
    PieceSlice(p, d, q, PieceText(ps[0]), e);
    JoinShape(ps, front, open);
    TriviaFirst(ps[0], front);
    assert p[q..] == PieceText(ps[0]) + (TriviaText(front) + OpenText(open));
  }

  lemma PieceSlice(p: string, d: string, q: nat, t: string, e: nat)
    requires p <= d && e <= |p| && At(d, q, t, e)
    ensures q <= e && p[q..] == t + p[e..]
  {
    assert p[q..e] == t;
  }

  lemma TriviaFirst(piece: Piece, rest: seq<Piece>)
    ensures TriviaText([piece] + rest) == PieceText(piece) + TriviaText(rest)
  {
    assert ([piece] + rest)[1..] == rest;
  }

  lemma JoinShape(ps: seq<Piece>, front: seq<Piece>, open: Option<string>)
    requires ps != [] && TriviaOk(ps) && LastNote(ps) != NoNote && GapShape(front, open, ps[1..])
    requires ps[0].LineNote? ==> LastNote(ps[1..]) != NoNote
    ensures GapShape([ps[0]] + front, open, ps)
  {
    hide PieceOk;
    assert ([ps[0]] + front)[1..] == front;
    assert LastNote(ps) == if LastNote(ps[1..]) != NoNote then LastNote(ps[1..]) else BlockLast;
    hide LastNote;
  }

  lemma LineIsOpen(p: string, d: string, q: nat, ps: seq<Piece>, e: nat)
    requires p <= d && q + 2 <= |p| < e && ps != [] && ps[0].LineNote? && PieceOk(ps[0])
    requires At(d, q, PieceText(ps[0]), e) && LastNote(ps[1..]) == NoNote
    ensures GapShape([], Some(p[q + 2..]), ps) && p[q..] == TriviaText([]) + OpenText(Some(p[q + 2..]))
  {
    var t := ps[0].text;
    assert PieceText(ps[0]) == "//" + (t + "\n");
    forall k | q + 2 <= k < |p| ensures p[k] != '\n' {
      assert PieceText(ps[0])[k - q] == t[k - q - 2];
    }
    assert PieceText(ps[0])[0] == p[q] && PieceText(ps[0])[1] == p[q + 1];
    assert p[q..] == "//" + p[q + 2..];
  }

  // ---------------------------------------------------------------- the added member

  /** The member as it is spliced in, behind the trivia `lead`. */
  function Led(lead: seq<Piece>, key: string, v: Value, post: seq<Piece>): Item {
    Item(Key(lead, Letters(key), [], [Gap(' ')]), v, post)
  }

  lemma LedText(lead: seq<Piece>, key: string, v: Value, closeIndent: nat)
    requires '"' !in key && '\\' !in key && Ok(v) && !v.Scalar? && TriviaOk(lead)
    ensures var it := Led(lead, key, v, NewLine(closeIndent));
            && ItemOk(it, true) && KeyText(it) == key
            && ItemText(it) == TriviaText(lead) + (("\"" + key + "\": " + Text(v)) + ("\n" + Spaces(closeIndent)))
  {
    NewLineOk(closeIndent);
    LettersOk(key);
    OneBlank();
    hide TriviaText, TriviaOk, UnitsText, Ok, Text, NewLine, Spaces, Letters;
    var it := Led(lead, key, v, NewLine(closeIndent));
    LedHead(TriviaText(lead), key);
    assert HeadText(it.head) == TriviaText(lead) + ("\"" + key + "\": ");
    LedLayout(TriviaText(lead), "\"" + key + "\": ", Text(v), "\n" + Spaces(closeIndent));
  }

  lemma LedHead(lead: string, key: string)
    ensures lead + (("\"" + key + "\"") + ("" + (":" + " "))) == lead + ("\"" + key + "\": ")
  {
    assert ("\"" + key + "\"") + ("" + (":" + " ")) == "\"" + key + "\": ";
  }

  lemma LedLayout(lead: string, key: string, v: string, end: string)
    ensures (lead + key) + (v + end) == lead + ((key + v) + end)
  {
  }

  lemma {:induction false} TriviaJoin(a: seq<Piece>, b: seq<Piece>)
    requires TriviaOk(a) && TriviaOk(b)
    ensures TriviaText(a + b) == TriviaText(a) + TriviaText(b) && TriviaOk(a + b)
    decreases |a|
  {
    hide PieceText, PieceOk;
    if a == [] {
      assert a + b == b;
    } else {
      hide *;
      OkFirst(a);
      TriviaJoin(a[1..], b);
      FirstOfBoth(a, b);
      TriviaFirst(a[0], a[1..]);
      TriviaFirst(a[0], a[1..] + b);
      OkBehind(a[0], a[1..] + b);
      Grouped(PieceText(a[0]), TriviaText(a[1..]), TriviaText(b));
    }
  }

  lemma OkFirst(ps: seq<Piece>)
    requires ps != [] && TriviaOk(ps)
    ensures PieceOk(ps[0]) && TriviaOk(ps[1..])
  {
  }

  lemma OkBehind(piece: Piece, rest: seq<Piece>)
    requires PieceOk(piece) && TriviaOk(rest)
    ensures TriviaOk([piece] + rest)
  {
    hide PieceOk;
    assert ([piece] + rest)[1..] == rest;
  }

  lemma FirstOfBoth(a: seq<Piece>, b: seq<Piece>)
    requires a != []
    ensures a == [a[0]] + a[1..] && a + b == [a[0]] + (a[1..] + b)
  {
  }

  lemma Grouped(a: string, b: string, c: string)
    ensures a + (b + c) == (a + b) + c
  {
  }

  /** A line comment that swallows `comma` and ends with the line break in front of the member. */
  lemma LineLead(front: seq<Piece>, t: string, indent: nat) returns (lead: seq<Piece>)
    requires TriviaOk(front) && '\n' !in t
    ensures TriviaOk(lead) && TriviaText(lead) == TriviaText(front) + ("//" + t + "\n" + Spaces(indent))
  {
    GapsOk(indent);
    var note := [LineNote(t)] + Gaps(indent);
    assert note[1..] == Gaps(indent);
    assert TriviaText(note) == ("//" + t + "\n") + Spaces(indent);
    TriviaJoin(front, note);
    lead := front + note;
  }

  /** What is spliced in behind a gap of that shape: the kept part, the comma and the new member. */
  ghost predicate EndFits(slot: Slot, open: Option<string>, comma: string) {
    && (slot == NeedsMember || slot == AfterValue) && (comma == "" || comma == ",")
    && (slot == AfterValue ==> comma == "," && open == None)
    && (slot == NeedsMember && open == None ==> comma == "")
  }

  ghost predicate MemberIs(member: string, key: string, v: Value) {
    '"' !in key && '\\' !in key && Ok(v) && !v.Scalar? && member == "\"" + key + "\": " + Text(v)
  }

  lemma OpenEnd(front: seq<Piece>, t: string, comma: string, key: string, v: Value, member: string,
                indent: nat, closeIndent: nat)
    returns (last: Item)
    requires TriviaOk(front) && '\n' !in t && (comma == "" || comma == ",") && MemberIs(member, key, v)
    ensures ItemOk(last, true) && KeyText(last) == key && last.value == v
    ensures (TriviaText(front) + ("//" + t)) + (comma + Inserted(member, indent, closeIndent)) == ItemText(last)
  {
    hide TriviaText, TriviaOk, Ok, Text, Spaces, ItemText, ItemOk, KeyText, Letters, NewLine;
    var lead := LineLead(front, t + comma, indent);
    LedText(lead, key, v, closeIndent);
    last := Led(lead, key, v, NewLine(closeIndent));
    LineLayout(TriviaText(front), t, comma, Spaces(indent), member, "\n" + Spaces(closeIndent));
    InsertedParts(member, indent, closeIndent);
  }

  lemma InsertedParts(member: string, indent: nat, closeIndent: nat)
    ensures Inserted(member, indent, closeIndent) == "\n" + Spaces(indent) + member + ("\n" + Spaces(closeIndent))
  {
    hide Spaces;
  }

  lemma PlainEnd(key: string, v: Value, member: string, indent: nat, closeIndent: nat) returns (last: Item)
    requires MemberIs(member, key, v)
    ensures ItemOk(last, true) && KeyText(last) == key && last.value == v
    ensures Inserted(member, indent, closeIndent) == ItemText(last)
  {
    hide TriviaText, TriviaOk, Ok, Text, Spaces, ItemText, ItemOk, KeyText, Letters, NewLine;
    NewLineOk(indent);
    LedText(NewLine(indent), key, v, closeIndent);
    last := Led(NewLine(indent), key, v, NewLine(closeIndent));
    InsertedParts(member, indent, closeIndent);
    PlainLayout(Spaces(indent), member, "\n" + Spaces(closeIndent));
  }

  lemma EndOfEdit(items: Items, front: seq<Piece>, open: Option<string>, comma: string,
                  key: string, v: Value, member: string, indent: nat, closeIndent: nat)
    returns (last: Item)
    requires EndFits(FinalSlot(items), open, comma) && (comma == "" || comma == ",") && MemberIs(member, key, v)
    requires TriviaOk(front) && (open.Some? ==> '\n' !in open.value)
    requires FinalSlot(items) == NeedsMember && open == None ==> front == []
    ensures ItemOk(last, true) && KeyText(last) == key && last.value == v
    ensures (TriviaText(front) + OpenText(open)) + (comma + Inserted(member, indent, closeIndent)) ==
            GrownEnd(items, front, last)
  {
    hide *;
    match open {
      case Some(t) =>
        last := OpenEnd(front, t, comma, key, v, member, indent, closeIndent);
        OpenIsEnd(items, front, t, comma, last);
      case None =>
        last := PlainEnd(key, v, member, indent, closeIndent);
        PlainIsEnd(items, front, comma, last);
    }
  }

  lemma OpenIsEnd(items: Items, front: seq<Piece>, t: string, comma: string, last: Item)
    requires EndFits(FinalSlot(items), Some(t), comma)
    ensures OpenText(Some(t)) == "//" + t && GrownEnd(items, front, last) == ItemText(last)
  {
    hide ItemText, TriviaText;
  }

  lemma PlainIsEnd(items: Items, front: seq<Piece>, comma: string, last: Item)
    requires EndFits(FinalSlot(items), None, comma)
    requires FinalSlot(items) == NeedsMember ==> front == []
    ensures (TriviaText(front) + OpenText(None)) + (comma + ItemText(last)) == GrownEnd(items, front, last)
  {
    hide ItemText;
    assert TriviaText([]) == "";
    hide TriviaText;
  }

  lemma LineLayout(front: string, t: string, comma: string, s: string, body: string, end: string)
    ensures (front + ("//" + t)) + (comma + ("\n" + s + body + end)) ==
            (front + ("//" + (t + comma) + "\n" + s)) + (body + end)
  {
  }

  lemma PlainLayout(s: string, body: string, end: string)
    ensures "\n" + s + body + end == ("\n" + s) + (body + end)
  {
  }

  // ---------------------------------------------------------------- the object that is edited

  lemma CommaFits(p: string, q: nat, items: Items, front: seq<Piece>, open: Option<string>)
    requires 0 < q && GapEnds(p, q, LastNote(FinalGap(items))) && GapShape(front, open, FinalGap(items))
    requires CommaTestRight(items)
    requires FinalSlot(items) == NeedsMember ==> p[q - 1] == '{' || p[q - 1] == ','
    requires FinalSlot(items) == AfterValue ==> p[q - 1] != '{' && p[q - 1] != ','
    ensures EndFits(FinalSlot(items), open, Comma(p)) && (Comma(p) == "" || Comma(p) == ",")
    ensures FinalSlot(items) == NeedsMember && open == None ==> front == []
  {
    SlotKinds(items);
    hide SkipTrivia, TriviaOk, LastNote, FinalGap, FinalSlot;
  }

  ghost predicate MemberSet(grown: Items, items: Items, key: string, v: Value) {
    ItemsOk(grown, true) && forall k :: Get(grown, k) == if k == key then Some(v) else Get(items, k)
  }

  lemma GrownGains(items: Items, front: seq<Piece>, last: Item, key: string, v: Value)
    requires ItemsOk(items, true) && ItemOk(last, true) && KeyText(last) == key && last.value == v
    requires TriviaOk(front) && (front != [] ==> FinalGap(items) != [] && front[0] == FinalGap(items)[0])
    requires Get(items, key).None?
    ensures MemberSet(Grown(items, front, last), items, key, v)
  {
    hide Get, Grown, ItemsOk, ItemOk, KeyText, TriviaOk, FinalGap;
    GrownOk(items, front, last);
    forall k ensures Get(Grown(items, front, last), k) == if k == key then Some(v) else Get(items, k) {
      GrownGet(items, front, last, k);
    }
  }

  lemma ShapeParts(front: seq<Piece>, open: Option<string>, ps: seq<Piece>)
    requires GapShape(front, open, ps)
    ensures TriviaOk(front) && (front != [] ==> ps != [] && front[0] == ps[0])
    ensures open.Some? ==> '\n' !in open.value
  {
    hide TriviaOk, LastNote;
  }

  /** Splicing a member into a printed object, in any text, prints the object that gained it. */
  lemma EditedObject(d: string, a: nat, items: Items, c: nat, key: string, v: Value, member: string,
                     indent: nat, closeIndent: nat)
    returns (grown: Items)
    requires 0 < a && At(d, a, ItemsText(items), c) && ItemsOk(items, true) && c < |d| && d[a - 1] == '{'
    requires CommaTestRight(items) && Get(items, key).None? && MemberIs(member, key, v)
    ensures a <= c && Splice(d, c, member, indent, closeIndent) == d[..a] + ItemsText(grown) + d[c..]
    ensures MemberSet(grown, items, key, v)
  {
    hide *;
    CroppedText(items);
    CroppedOk(items, true);
    var p := Kept(d, c);
    var q := Split(d, a, ItemsText(Cropped(items)), TriviaText(FinalGap(items)), c);
    LastTokenBlack(d, a, Cropped(items), q);
    KeptIs(d, c);
    AtEnds(d, q, TriviaText(FinalGap(items)), c);
    BlackIsKept(p, d, c, q);
    GapKept(p, d, q, FinalGap(items), c);
    var front, open := GapTree(p, d, q, FinalGap(items), c);
    CommaFits(p, q, items, front, open);
    ShapeParts(front, open, FinalGap(items));
    var last := EndOfEdit(items, front, open, Comma(p), key, v, member, indent, closeIndent);
    grown := Grown(items, front, last);
    GrownText(items, front, last);
    GrownGains(items, front, last, key, v);
    EditedText(d, p, a, ItemsText(Cropped(items)), q, c, Comma(p), Inserted(member, indent, closeIndent));
    SpliceIs(d, c, member, indent, closeIndent);
    assert p[q..] + (Comma(p) + Inserted(member, indent, closeIndent)) == GrownEnd(items, front, last);
  }

  lemma SpliceIs(d: string, c: nat, member: string, indent: nat, closeIndent: nat)
    requires c <= |d|
    ensures Splice(d, c, member, indent, closeIndent) ==
            Kept(d, c) + Comma(Kept(d, c)) + Inserted(member, indent, closeIndent) + d[c..]
  {
    hide Kept, Comma, Inserted;
  }

  lemma EditedText(d: string, p: string, a: nat, core: string, q: nat, c: nat, comma: string, inserted: string)
    requires p <= d && At(d, a, core, q) && q <= |p| && c <= |d|
    ensures p + comma + inserted + d[c..] == d[..a] + (core + (p[q..] + (comma + inserted))) + d[c..]
  {
    assert p[a..q] == core;
    assert p == d[..a] + (core + p[q..]);
  }

  // ---------------------------------------------------------------- whole documents

  /** `text` is `d[a..e]` with `t` in place of `d[at..after]`. */
  ghost predicate Swapped(text: string, d: string, a: nat, at: nat, t: string, after: nat, e: nat) {
    a <= at <= after <= e <= |d| && text == d[a..at] + t + d[after..e]
  }

  /** Replacing the value of the first member with a key replaces its text in place. */
  lemma {:induction false} WithValueText(d: string, a: nat, items: Items, e: nat, key: string, at: nat, was: Value,
                                         v: Value)
    requires At(d, a, ItemsText(items), e) && Find(items, key, a) == Some((at, was))
    ensures Swapped(ItemsText(WithValue(items, key, v)), d, a, at, Text(v), at + |Text(was)|, e)
    decreases items
  {
    if items.Last? {
      LastSwapped(d, a, items, e, key, at, was, v);
    } else {
      hide *;
      FindSome(items, key, a);
      var m, n := ItemsParts(d, a, items, e);
      if KeyText(items.item) == key {
        FirstSwapped(d, a, items, m, n, e, key, at, was, v);
      } else {
        LaterFound(items, key, a, n, at, was);
        WithValueText(d, n, items.rest, e, key, at, was, v);
        LaterSwapped(d, a, items, m, n, e, key, at, was, v);
      }
    }
  }

  lemma FindSome(items: Items, key: string, a: nat)
    requires Find(items, key, a).Some? && !items.Last?
    ensures items.More?
  {
    hide KeyText, HeadText, ItemText;
  }

  lemma LastSwapped(d: string, a: nat, items: Items, e: nat, key: string, at: nat, was: Value, v: Value)
    requires items.Last? && At(d, a, ItemsText(items), e) && Find(items, key, a) == Some((at, was))
    ensures Swapped(ItemsText(WithValue(items, key, v)), d, a, at, Text(v), at + |Text(was)|, e)
  {
    hide HeadText, Text, TriviaText, KeyText, ItemText, At, Swapped;
    ItemSwapped(d, a, items.item, e, v);
  }

  /** Where the first item, the comma and the other items stand. */
  ghost predicate CommaAt(d: string, a: nat, items: Items, m: nat, n: nat, e: nat) {
    && items.More? && a <= m < n <= e <= |d| && n == a + |ItemText(items.item)| + 1
    && d[a..m] == ItemText(items.item) && d[m..n] == "," && d[n..e] == ItemsText(items.rest)
  }

  lemma ItemsParts(d: string, a: nat, items: Items, e: nat) returns (m: nat, n: nat)
    requires items.More? && At(d, a, ItemsText(items), e)
    ensures CommaAt(d, a, items, m, n, e)
    ensures At(d, a, ItemText(items.item), m) && At(d, n, ItemsText(items.rest), e)
  {
    hide ItemText, At;
    m := Split(d, a, ItemText(items.item), "," + ItemsText(items.rest), e);
    n := Split(d, m, ",", ItemsText(items.rest), e);
    SliceOf(d, a, ItemText(items.item), m);
    SliceOf(d, m, ",", n);
    SliceOf(d, n, ItemsText(items.rest), e);
    AtEnds(d, a, ItemText(items.item), m);
    AtEnds(d, m, ",", n);
  }

  lemma FirstSwapped(d: string, a: nat, items: Items, m: nat, n: nat, e: nat, key: string, at: nat,
                     was: Value, v: Value)
    requires CommaAt(d, a, items, m, n, e) && At(d, a, ItemText(items.item), m)
    requires KeyText(items.item) == key && Find(items, key, a) == Some((at, was))
    ensures Swapped(ItemsText(WithValue(items, key, v)), d, a, at, Text(v), at + |Text(was)|, e)
  {
    hide KeyText, HeadText, ItemText, Text, Swapped, At;
    ItemSwapped(d, a, items.item, m, v);
    hide ItemsText;
    SwapFirst(ItemText(Item(items.item.head, v, items.item.post)), d, a, at, Text(v), at + |Text(was)|, m, n, e);
  }

  lemma LaterFound(items: Items, key: string, a: nat, n: nat, at: nat, was: Value)
    requires items.More? && KeyText(items.item) != key && n == a + |ItemText(items.item)| + 1
    requires Find(items, key, a) == Some((at, was))
    ensures Find(items.rest, key, n) == Some((at, was))
  {
    hide KeyText, ItemText;
  }

  lemma LaterSwapped(d: string, a: nat, items: Items, m: nat, n: nat, e: nat, key: string, at: nat,
                     was: Value, v: Value)
    requires CommaAt(d, a, items, m, n, e) && KeyText(items.item) != key
    requires Swapped(ItemsText(WithValue(items.rest, key, v)), d, n, at, Text(v), at + |Text(was)|, e)
    ensures Swapped(ItemsText(WithValue(items, key, v)), d, a, at, Text(v), at + |Text(was)|, e)
  {
    hide KeyText, ItemText, Text, Swapped;
    var text := ItemsText(WithValue(items.rest, key, v));
    assert ItemsText(WithValue(items, key, v)) == ItemText(items.item) + ("," + text);
    hide WithValue, ItemsText;
    SwapLater(text, d, a, m, n, at, Text(v), at + |Text(was)|, e);
  }

  lemma SliceOf(d: string, a: nat, t: string, e: nat)
    requires At(d, a, t, e)
    ensures a <= e <= |d| && d[a..e] == t
  {
  }

  lemma ItemSwapped(d: string, a: nat, it: Item, e: nat, v: Value)
    requires At(d, a, ItemText(it), e)
    ensures var at := a + |HeadText(it.head)|;
            Swapped(ItemText(Item(it.head, v, it.post)), d, a, at, Text(v), at + |Text(it.value)|, e)
  {
    hide At, HeadText, Text, TriviaText;
    var m := Split(d, a, HeadText(it.head), Text(it.value) + TriviaText(it.post), e);
    var n := Split(d, m, Text(it.value), TriviaText(it.post), e);
    AtEnds(d, a, HeadText(it.head), m);
    AtEnds(d, m, Text(it.value), n);
    SliceOf(d, a, HeadText(it.head), m);
    SliceOf(d, n, TriviaText(it.post), e);
  }

  lemma SwapFirst(text: string, d: string, a: nat, at: nat, t: string, after: nat, m: nat, n: nat, e: nat)
    requires Swapped(text, d, a, at, t, after, m) && m <= n <= e <= |d| && d[m..n] == ","
    ensures Swapped(text + ("," + d[n..e]), d, a, at, t, after, e)
  {
    assert d[m..n] + d[n..e] == d[m..e];
    assert d[after..m] + d[m..e] == d[after..e];
  }

  lemma SwapLater(text: string, d: string, a: nat, m: nat, n: nat, at: nat, t: string, after: nat, e: nat)
    requires Swapped(text, d, n, at, t, after, e) && a <= m <= n && d[m..n] == ","
    ensures Swapped(d[a..m] + ("," + text), d, a, at, t, after, e)
  {
    assert d[a..m] + (d[m..n] + d[n..at]) == d[a..at];
  }

  /** The object that a first run edits: the agent servers, or the root when there are none. */
  function EditedItems(items: Items): Items {
    match Get(items, AGENT_SERVERS)
    case Some(Obj(servers)) => servers
    case _ => items
  }

  lemma RootDoc(pre: seq<Piece>, items: Items, tail: string, grown: Items, open: nat, close: nat)
    requires var d := DocText(pre, items, tail);
             At(d, open + 1, ItemsText(items), close) && open == |TriviaText(pre)|
    ensures open < close < |DocText(pre, items, tail)|
    ensures var d := DocText(pre, items, tail);
            d[..open + 1] + ItemsText(grown) + d[close..] == DocText(pre, grown, tail)
  {
    hide TriviaText, ItemsText;
    var d := DocText(pre, items, tail);
    assert d == (TriviaText(pre) + "{") + (ItemsText(items) + ("}" + tail));
    assert d[..open + 1] == TriviaText(pre) + "{";
    assert d[close..] == "}" + tail;
  }

  lemma DocOpens(pre: seq<Piece>, items: Items, tail: string, open: nat)
    requires TriviaOk(pre) && ItemsOk(items, true) && SkipTrivia(DocText(pre, items, tail), 0) == open
    ensures open == |TriviaText(pre)|
  {
    hide *;
    var d := DocText(pre, items, tail);
    DocAt(pre, items, tail);
    var m := Split(d, 0, TriviaText(pre), Text(Obj(items)) + tail, |d|);
    var end := Split(d, m, Text(Obj(items)), tail, |d|);
    AtEnds(d, 0, TriviaText(pre), m);
    ObjectOk(items);
    SkipTriviaAt(d, 0, pre, m);
    ValueStart(d, m, Obj(items), end);
  }

  lemma RootEdited(pre: seq<Piece>, items: Items, tail: string, open: nat, close: nat, reg: Registration)
    returns (grown: Items)
    requires TriviaOk(pre) && ItemsOk(items, true) && CommaTestRight(items) && Get(items, AGENT_SERVERS).None?
    requires var d := DocText(pre, items, tail);
             RootCase(d, open, close) && At(d, open + 1, ItemsText(items), close) && SkipTrivia(d, 0) == open
    ensures EnsureRegistered(DocText(pre, items, tail), reg) == Updated(DocText(pre, grown, tail))
    ensures MemberSet(grown, items, AGENT_SERVERS, ServersValue(reg))
  {
    hide *;
    var d := DocText(pre, items, tail);
    FirstAtRoot(d, reg, open, close);
    RootFacts(d, open, close);
    BlockIs(reg);
    grown := EditedObject(d, open + 1, items, close, AGENT_SERVERS, ServersValue(reg), ServersBlock(reg), 2, 0);
    DocOpens(pre, items, tail, open);
    RootDoc(pre, items, tail, grown, open, close);
  }

  lemma BlockIs(reg: Registration)
    ensures MemberIs(ServersBlock(reg), AGENT_SERVERS, ServersValue(reg))
  {
    hide Member, ServerValue, InsertedItem, ItemOk, ItemText, KeyText, Spaces;
    MemberItem(reg);
    SpacesFourTwo();
    BlockItem(reg);
    BlockLayout(Spaces(4), Member(reg, 4), Spaces(2));
    assert Text(ServersValue(reg)) == "{" + (Inserted(Member(reg, 4), 4, 2) + "}");
  }

  lemma MemberTextIs(reg: Registration)
    ensures MemberIs(Member(reg, 4), SERVER_ID, ServerValue(reg, 4))
  {
    hide Member, ServerValue, Text, Ok;
    ServerValueOk(reg, 4);
    ServerValueText(reg, 4);
    ServerValueIsObject(reg);
    assert "\"rpi\": " == "\"" + SERVER_ID + "\": ";
  }

  lemma ServersEdited(pre: seq<Piece>, items: Items, tail: string, open: nat, close: nat, at: nat, servers: Items,
                      end: nat, reg: Registration)
    returns (grown: Items, root: Items)
    requires TriviaOk(pre) && ItemsOk(items, true) && ItemsOk(servers, true) && CommaTestRight(servers)
    requires Get(servers, SERVER_ID).None? && Get(items, AGENT_SERVERS) == Some(Obj(servers))
    requires Find(items, AGENT_SERVERS, open + 1) == Some((at, Obj(servers)))
    requires var d := DocText(pre, items, tail);
             && NestedCase(d, open, close, at, end) && At(d, open + 1, ItemsText(items), close)
             && At(d, at + 1, ItemsText(servers), end) && SkipTrivia(d, 0) == open
    ensures EnsureRegistered(DocText(pre, items, tail), reg) == Updated(DocText(pre, root, tail))
    ensures MemberSet(grown, servers, SERVER_ID, ServerValue(reg, 4))
    ensures MemberSet(root, items, AGENT_SERVERS, Obj(grown))
  {
    hide *;
    var d := DocText(pre, items, tail);
    NestedFacts(d, reg, open, close, at, end);
    MemberTextIs(reg);
    grown := EditedObject(d, at + 1, servers, end, SERVER_ID, ServerValue(reg, 4), Member(reg, 4), 4, 2);
    root := WithValue(items, AGENT_SERVERS, Obj(grown));
    WithValueSet(items, grown, servers, ServerValue(reg, 4), root);
    DocOpens(pre, items, tail, open);
    RootDoc(pre, items, tail, root, open, close);
    AtEnds(d, at + 1, ItemsText(servers), end);
    ObjectText(servers);
    ObjectText(grown);
    WithValueText(d, open + 1, items, close, AGENT_SERVERS, at, Obj(servers), Obj(grown));
    NestedText(ItemsText(root), d, open, at, ItemsText(grown), end, close);
  }

  lemma ObjectText(items: Items)
    ensures Text(Obj(items)) == "{" + ItemsText(items) + "}"
  {
    hide ItemsText;
  }

  lemma WithValueSet(items: Items, grown: Items, servers: Items, v: Value, root: Items)
    requires ItemsOk(items, true) && MemberSet(grown, servers, SERVER_ID, v) && Get(items, AGENT_SERVERS).Some?
    requires root == WithValue(items, AGENT_SERVERS, Obj(grown))
    ensures MemberSet(root, items, AGENT_SERVERS, Obj(grown))
  {
    hide Get, WithValue, ItemsOk;
    assert Ok(Obj(grown));
    WithValueOk(items, AGENT_SERVERS, Obj(grown));
    forall k ensures Get(root, k) == if k == AGENT_SERVERS then Some(Obj(grown)) else Get(items, k) {
      WithValueGet(items, AGENT_SERVERS, Obj(grown), k);
    }
  }

  lemma NestedText(root: string, d: string, open: nat, at: nat, text: string, end: nat, close: nat)
    requires open < at < end < |d| && d[at] == '{' && d[end] == '}' && close <= |d|
    requires Swapped(root, d, open + 1, at, "{" + text + "}", end + 1, close)
    ensures open < close && d[..at + 1] + text + d[end..] == d[..open + 1] + root + d[close..]
  {
    assert d[..open + 1] + d[open + 1..at] + "{" == d[..at + 1];
    assert "}" + (d[end + 1..close] + d[close..]) == d[end..];
  }

  /** An update whose comma test was right prints a well-formed document that differs in one member:
      the agent's, which means the launch object of the command line. What stands before and behind the
      root object stays. */
  lemma EditedDocument(pre: seq<Piece>, items: Items, tail: string, reg: Registration)
    returns (root: Items, servers: Items)
    requires TriviaOk(pre) && ItemsOk(items, true) && CommaTestRight(EditedItems(items))
    requires EnsureRegistered(DocText(pre, items, tail), reg).Updated?
    ensures EnsureRegistered(DocText(pre, items, tail), reg) == Updated(DocText(pre, root, tail))
    ensures MemberSet(root, items, AGENT_SERVERS, Obj(servers))
    ensures match Get(items, AGENT_SERVERS)
            case None => Obj(servers) == ServersValue(reg)
            case Some(was) => was.Obj? && MemberSet(servers, was.items, SERVER_ID, ServerValue(reg, 4))
    ensures Get(servers, SERVER_ID).Some? && Meaning(Get(servers, SERVER_ID).value) == Some(LaunchObject(reg))
  {
    hide *;
    LaunchObjectWritten(reg, 4);
    var d := DocText(pre, items, tail);
    var open, close := DocParts(pre, items, tail);
    GetIsFind(items, AGENT_SERVERS, open + 1);
    DocumentLaw(pre, items, tail, reg);
    assert MemberValue(d, open, close, AGENT_SERVERS) == Position(Find(items, AGENT_SERVERS, open + 1));
    EditedIs(items);
    if Find(items, AGENT_SERVERS, open + 1).None? {
      RootCaseIs(d, items, open, close);
      root := RootEdited(pre, items, tail, open, close, reg);
      servers := ServersItems(reg);
      BlockServers(reg);
    } else {
      FindAt(d, open + 1, items, close, AGENT_SERVERS);
      var (at, v) := Find(items, AGENT_SERVERS, open + 1).value;
      MemberFound(d, items, open, close, at, v);
      ObjectItemsOk(v.items);
      var end := ObjectInside(d, at, v.items, at + |Text(v)|);
      MatchAt(d, at, v, end + 1);
      LookupItems(d, at + 1, v.items, end, end, SERVER_ID);
      MemberFromLookup(d, at, end, SERVER_ID);
      GetIsFind(v.items, SERVER_ID, at + 1);
      NestedCaseIs(d, v.items, open, close, at, end);
      servers, root := ServersEdited(pre, items, tail, open, close, at, v.items, end, reg);
      SetMember(servers, v.items, ServerValue(reg, 4));
    }
  }

  lemma SetMember(grown: Items, items: Items, v: Value)
    requires MemberSet(grown, items, SERVER_ID, v)
    ensures Get(grown, SERVER_ID) == Some(v)
  {
    hide Get, ItemsOk;
  }

  lemma EditedIs(items: Items)
    ensures EditedItems(items) == match Get(items, AGENT_SERVERS) case Some(Obj(servers)) => servers case _ => items
  {
    hide Get;
  }

  lemma ServersItems(reg: Registration) returns (servers: Items)
    ensures Obj(servers) == ServersValue(reg)
  {
    servers := ServersValue(reg).items;
  }

  /** The text is a well-formed document in which the editor finds the agent with that command line. */
  ghost predicate LaunchesAgent(text: string, reg: Registration) {
    exists pre, items, tail ::
      TriviaOk(pre) && ItemsOk(items, true) && text == DocText(pre, items, tail) && NamesAgent(items, reg)
  }

  predicate NamesAgent(items: Items, reg: Registration) {
    match Get(items, AGENT_SERVERS)
    case Some(Obj(servers)) =>
      Get(servers, SERVER_ID).Some? && Meaning(Get(servers, SERVER_ID).value) == Some(LaunchObject(reg))
    case _ => false
  }

  /** An update leaves a well-formed document that launches the agent exactly when the comma test
      was right. */
  lemma LaunchesExactly(pre: seq<Piece>, items: Items, tail: string, reg: Registration)
    requires TriviaOk(pre) && ItemsOk(items, true) && EnsureRegistered(DocText(pre, items, tail), reg).Updated?
    ensures LaunchesAgent(EnsureRegistered(DocText(pre, items, tail), reg).text, reg) <==>
            CommaTestRight(EditedItems(items))
  {
    hide *;
    var r := EnsureRegistered(DocText(pre, items, tail), reg);
    DocumentLaw(pre, items, tail, reg);
    EditedIs(items);
    if CommaTestRight(EditedItems(items)) {
      var root, servers := EditedDocument(pre, items, tail, reg);
      NamesAfter(root, items, servers, reg);
      LaunchesIs(pre, root, tail, reg);
    }
    if LaunchesAgent(r.text, reg) {
      LaunchedIsRegistered(r.text, reg);
    }
  }

  lemma NamesAfter(root: Items, items: Items, servers: Items, reg: Registration)
    requires MemberSet(root, items, AGENT_SERVERS, Obj(servers))
    requires Get(servers, SERVER_ID).Some? && Meaning(Get(servers, SERVER_ID).value) == Some(LaunchObject(reg))
    ensures ItemsOk(root, true) && NamesAgent(root, reg)
  {
    hide ItemsOk, Get, Meaning, LaunchObject;
  }

  lemma BlockServers(reg: Registration)
    ensures ServersValue(reg).Obj? && Get(ServersValue(reg).items, SERVER_ID) == Some(ServerValue(reg, 4))
  {
    MemberItem(reg);
    InsertedValue(SERVER_ID, ServerValue(reg, 4), 4, 2);
    hide *;
    ServersShape(reg);
    GetLast(InsertedItem(SERVER_ID, ServerValue(reg, 4), 4, 2), SERVER_ID);
  }

  lemma ServersShape(reg: Registration)
    ensures ServersValue(reg) == Obj(Last(InsertedItem(SERVER_ID, ServerValue(reg, 4), 4, 2)))
  {
    hide InsertedItem, ServerValue;
  }

  lemma GetLast(it: Item, key: string)
    requires KeyText(it) == key
    ensures Get(Last(it), key) == Some(it.value)
  {
    hide KeyText;
  }

  lemma InsertedValue(key: string, v: Value, indent: nat, closeIndent: nat)
    ensures InsertedItem(key, v, indent, closeIndent).value == v
  {
    hide NewLine;
  }

  lemma LaunchesIs(pre: seq<Piece>, items: Items, tail: string, reg: Registration)
    requires TriviaOk(pre) && ItemsOk(items, true) && NamesAgent(items, reg)
    ensures LaunchesAgent(DocText(pre, items, tail), reg)
  {
    hide TriviaOk, ItemsOk, NamesAgent, DocText;
  }

  lemma LaunchedIsRegistered(text: string, reg: Registration)
    requires LaunchesAgent(text, reg)
    ensures EnsureRegistered(text, reg) == AlreadyRegistered
  {
    hide TriviaOk, ItemsOk, DocText, Get, EnsureRegistered, CommaTestRight, Meaning, LaunchObject;
    var pre, items, tail :|
      TriviaOk(pre) && ItemsOk(items, true) && text == DocText(pre, items, tail) && NamesAgent(items, reg);
    DocumentLaw(pre, items, tail, reg);
  }
}
