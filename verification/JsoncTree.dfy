/** JSONC syntax trees with blanks and comments at every place the grammar allows them, their
    text, and the proof that the scanners agree with the tree: each skipper stops exactly at the
    end of what it skips, counting one kind of delimiter agrees with true nesting, and a key is
    found exactly when the tree has it.
 */
module JsoncTree {
  import opened Wrappers
  import opened JsoncScan
  import opened JsoncLocality

  datatype Piece = Gap(c: char) | LineNote(text: string) | BlockNote(text: string)

  /** A piece of a string literal: an ordinary character or a backslash pair. */
  datatype Unit = Plain(c: char) | Escape(c: char)

  datatype Value = Scalar(text: string) | Str(units: seq<Unit>) | Arr(items: Items) | Obj(items: Items)

  datatype Head = NoKey(pre: seq<Piece>) | Key(pre: seq<Piece>, units: seq<Unit>, mid: seq<Piece>, gap: seq<Piece>)

  datatype Item = Item(head: Head, value: Value, post: seq<Piece>)

  /** Elements of an array or members of an object; `More(item, End(gap))` is a trailing comma. */
  datatype Items = End(gap: seq<Piece>) | Last(item: Item) | More(item: Item, rest: Items)

  // ---------------------------------------------------------------- text of a tree

  function PieceText(p: Piece): string {
    match p
    case Gap(c) => [c]
    case LineNote(t) => "//" + t + "\n"
    case BlockNote(t) => "/*" + t + "*/"
  }

  function TriviaText(ps: seq<Piece>): string {
    if ps == [] then "" else PieceText(ps[0]) + TriviaText(ps[1..])
  }

  function UnitText(u: Unit): string {
    match u
    case Plain(c) => [c]
    case Escape(c) => ['\\', c]
  }

  function UnitsText(us: seq<Unit>): string {
    if us == [] then "" else UnitText(us[0]) + UnitsText(us[1..])
  }

  function Quoted(us: seq<Unit>): string {
    "\"" + UnitsText(us) + "\""
  }

  function HeadText(h: Head): string {
    match h
    case NoKey(pre) => TriviaText(pre)
    case Key(pre, units, mid, gap) =>
      TriviaText(pre) + (Quoted(units) + (TriviaText(mid) + (":" + TriviaText(gap))))
  }

  function Text(v: Value): string {
    match v
    case Scalar(t) => t
    case Str(us) => Quoted(us)
    case Arr(items) => "[" + (ItemsText(items) + "]")
    case Obj(items) => "{" + (ItemsText(items) + "}")
  }

  function ItemText(it: Item): string {
    HeadText(it.head) + (Text(it.value) + TriviaText(it.post))
  }

  function ItemsText(items: Items): string {
    match items
    case End(gap) => TriviaText(gap)
    case Last(it) => ItemText(it)
    case More(it, rest) => ItemText(it) + ("," + ItemsText(rest))
  }

  // ---------------------------------------------------------------- well-formed trees

  ghost predicate PieceOk(p: Piece) {
    match p
    case Gap(c) => IsBlank(c)
    case LineNote(t) => '\n' !in t
    case BlockNote(t) => BlockEnd(t + "*/", 0) == Some(|t| + 2)
  }

  ghost predicate TriviaOk(ps: seq<Piece>) {
    ps == [] || (PieceOk(ps[0]) && TriviaOk(ps[1..]))
  }

  ghost predicate UnitsOk(us: seq<Unit>) {
    forall u :: u in us && u.Plain? ==> u.c != '"' && u.c != '\\'
  }

  /** Characters of numbers, `true`, `false` and `null`. */
  predicate ScalarChar(c: char) {
    'a' <= c <= 'z' || 'A' <= c <= 'Z' || '0' <= c <= '9' || c == '+' || c == '-' || c == '.'
  }

  ghost predicate ScalarOk(t: string) {
    t != "" && forall c :: c in t ==> ScalarChar(c)
  }

  ghost predicate HeadOk(h: Head, keyed: bool) {
    match h
    case NoKey(pre) => !keyed && TriviaOk(pre)
    case Key(pre, units, mid, gap) => keyed && TriviaOk(pre) && UnitsOk(units) && TriviaOk(mid) && TriviaOk(gap)
  }

  ghost predicate Ok(v: Value) {
    match v
    case Scalar(t) => ScalarOk(t)
    case Str(us) => UnitsOk(us)
    case Arr(items) => ItemsOk(items, false)
    case Obj(items) => ItemsOk(items, true)
  }

  /** A scalar may not be glued to a comment: `skip_value` would swallow the comment's start. */
  ghost predicate ItemOk(it: Item, keyed: bool) {
    && HeadOk(it.head, keyed) && Ok(it.value) && TriviaOk(it.post)
    && (it.value.Scalar? && it.post != [] ==> it.post[0].Gap?)
  }

  ghost predicate ItemsOk(items: Items, keyed: bool) {
    match items
    case End(gap) => TriviaOk(gap)
    case Last(it) => ItemOk(it, keyed)
    case More(it, rest) => ItemOk(it, keyed) && ItemsOk(rest, keyed)
  }

  // ---------------------------------------------------------------- text at a position

  /** `t` is the text of `x` from `a` to `e`. */
  ghost predicate At(x: string, a: nat, t: string, e: nat) {
    e == a + |t| && e <= |x| && forall k {:trigger t[k]} :: 0 <= k < |t| ==> x[a + k] == t[k]
  }

  lemma Split(x: string, a: nat, s: string, t: string, e: nat) returns (m: nat)
    requires At(x, a, s + t, e)
    ensures At(x, a, s, m) && At(x, m, t, e)
  {
    m := a + |s|;
    forall k | 0 <= k < |s| ensures x[a + k] == s[k] {
      assert (s + t)[k] == s[k];
    }
    forall k | 0 <= k < |t| ensures x[m + k] == t[k] {
      assert (s + t)[|s| + k] == t[k];
    }
  }

  lemma AtEnds(x: string, a: nat, t: string, e: nat)
    requires At(x, a, t, e)
    ensures e == a + |t| <= |x|
  {
  }

  // ---------------------------------------------------------------- trivia

  lemma {:induction false} LineEndAt(x: string, a: nat, t: string, e: nat)
    requires At(x, a, t + "\n", e + 1) && '\n' !in t
    ensures LineEnd(x, a) == e && x[e] == '\n'
    decreases |t|
  {
    assert (t + "\n")[0] == x[a] && (t + "\n")[|t|] == x[e];
    if t != "" {
      assert t + "\n" == t[..1] + (t[1..] + "\n");
      var m := Split(x, a, t[..1], t[1..] + "\n", e + 1);
      assert t[0] in t && forall c :: c in t[1..] ==> c in t;
      LineEndAt(x, m, t[1..], e);
    }
  }

  lemma {:induction false} BlockEndAt(x: string, a: nat, t: string, e: nat, k: nat)
    requires At(x, a, t, e) && k <= |t| && BlockEnd(t, k).Some?
    ensures BlockEnd(x, a + k) == Some(a + BlockEnd(t, k).value)
    decreases |t| - k
  {
    assert t[k] == x[a + k] && t[k + 1] == x[a + k + 1];
    if !(t[k] == '*' && t[k + 1] == '/') { BlockEndAt(x, a, t, e, k + 1); }
  }

  lemma LineNoteEnds(x: string, a: nat, t: string, e: nat)
    requires At(x, a, "//" + (t + "\n"), e) && '\n' !in t
    ensures LineStart(x, a) && LineEnd(x, a + 2) == e - 1 && x[e - 1] == '\n'
  {
    var m := Split(x, a, "//", t + "\n", e);
    assert "//"[0] == x[a] && "//"[1] == x[a + 1];
    LineEndAt(x, m, t, e - 1);
  }

  lemma BlockNoteEnds(x: string, a: nat, t: string, e: nat)
    requires At(x, a, "/*" + (t + "*/"), e) && BlockEnd(t + "*/", 0) == Some(|t| + 2)
    ensures BlockStart(x, a) && BlockEnd(x, a + 2) == Some(e)
  {
    var m := Split(x, a, "/*", t + "*/", e);
    assert "/*"[0] == x[a] && "/*"[1] == x[a + 1];
    BlockEndAt(x, m, t + "*/", e, 0);
  }

  /** Where a piece of trivia ends is where the scanners think it ends. */
  lemma PieceEnds(x: string, a: nat, p: Piece, e: nat)
    requires At(x, a, PieceText(p), e) && PieceOk(p)
    ensures SkipTrivia(x, a) == SkipTrivia(x, e)
    ensures e < |x| ==> TriviaTail(x, a) == TriviaTail(x, e)
    ensures e == |x| ==> TriviaTail(x, a) == Blank || TriviaTail(x, a) == Block
  {
    match p
    case Gap(c) =>
      assert x[a] == PieceText(p)[0];
    case LineNote(t) =>
      assert PieceText(p) == "//" + (t + "\n");
      LineNoteEnds(x, a, t, e);
    case BlockNote(t) =>
      assert PieceText(p) == "/*" + (t + "*/");
      BlockNoteEnds(x, a, t, e);
  }

  lemma {:induction false} SkipTriviaAt(x: string, a: nat, ps: seq<Piece>, e: nat)
    requires At(x, a, TriviaText(ps), e) && TriviaOk(ps)
    ensures SkipTrivia(x, a) == SkipTrivia(x, e)
    decreases |ps|
  {
    if ps != [] {
      var m := Split(x, a, PieceText(ps[0]), TriviaText(ps[1..]), e);
      PieceEnds(x, a, ps[0], m);
      SkipTriviaAt(x, m, ps[1..], e);
    }
  }

  // ---------------------------------------------------------------- strings

  lemma {:induction false} StringEndAt(x: string, a: nat, us: seq<Unit>, e: nat)
    requires At(x, a, UnitsText(us) + "\"", e) && UnitsOk(us)
    ensures StringEnd(x, a) == Some(e)
    decreases |us|
  {
    assert (UnitsText(us) + "\"")[0] == x[a];
    if us != [] {
      assert us[0] in us && forall u :: u in us[1..] ==> u in us;
      assert UnitsText(us) + "\"" == UnitText(us[0]) + (UnitsText(us[1..]) + "\"");
      var m := Split(x, a, UnitText(us[0]), UnitsText(us[1..]) + "\"", e);
      StringEndAt(x, m, us[1..], e);
    }
  }

  lemma SkipStringAt(x: string, a: nat, us: seq<Unit>, e: nat)
    requires At(x, a, Quoted(us), e) && UnitsOk(us)
    ensures SkipString(x, a) == Some(e) && a + 2 <= e
    ensures x[a] == '"' && x[a + 1..e - 1] == UnitsText(us)
  {
    assert Quoted(us)[0] == x[a];
    assert Quoted(us) == "\"" + (UnitsText(us) + "\"");
    var m := Split(x, a, "\"", UnitsText(us) + "\"", e);
    var m' := Split(x, m, UnitsText(us), "\"", e);
    StringEndAt(x, m, us, e);
    assert forall k :: 0 <= k < |UnitsText(us)| ==> x[a + 1..e - 1][k] == UnitsText(us)[k];
  }

  // ---------------------------------------------------------------- delimiter scans

  lemma {:induction false} ScanIsScanTo(b: string, i: nat, o: char, c: char, depth: nat)
    requires i <= |b| && depth >= 1
    ensures Scan(b, i, o, c, depth) ==
            (if ScanTo(b, i, o, c, depth).Closed? then Some(ScanTo(b, i, o, c, depth).at) else None)
    decreases |b| - i
  {
    if i < |b| {
      if b[i] == '"' {
        if SkipString(b, i).Some? { ScanIsScanTo(b, SkipString(b, i).value, o, c, depth); }
      } else if LineStart(b, i) || BlockStart(b, i) {
        ScanIsScanTo(b, SkipTrivia(b, i), o, c, depth);
      } else if b[i] == o {
        ScanIsScanTo(b, i + 1, o, c, depth + 1);
      } else if b[i] == c {
        if depth > 1 { ScanIsScanTo(b, i + 1, o, c, depth - 1); }
      } else {
        ScanIsScanTo(b, i + 1, o, c, depth);
      }
    }
  }

  lemma {:induction false} ScanToSkipsTrivia(b: string, i: nat, o: char, c: char, depth: nat)
    requires i <= |b| && depth >= 1 && IsOpener(o) && c == Closer(o)
    ensures ScanTo(b, i, o, c, depth) ==
            if TriviaTail(b, i) == OpenBlock then Cut
            else if TriviaTail(b, i) == Line then Open(depth, true)
            else ScanTo(b, SkipTrivia(b, i), o, c, depth)
    decreases |b| - i
  {
    if i < |b| && IsBlank(b[i]) { ScanToSkipsTrivia(b, i + 1, o, c, depth); }
  }

  lemma {:induction false} ScanTrivia(x: string, a: nat, ps: seq<Piece>, e: nat, o: char, c: char, k: nat)
    requires At(x, a, TriviaText(ps), e) && TriviaOk(ps)
    requires k >= 1 && IsOpener(o) && c == Closer(o)
    ensures ScanTo(x, a, o, c, k) == ScanTo(x, e, o, c, k)
    decreases |ps|
  {
    if ps != [] {
      var m := Split(x, a, PieceText(ps[0]), TriviaText(ps[1..]), e);
      PieceEnds(x, a, ps[0], m);
      ScanToSkipsTrivia(x, a, o, c, k);
      ScanToSkipsTrivia(x, m, o, c, k);
      ScanTrivia(x, m, ps[1..], e, o, c, k);
    }
  }

  lemma {:induction false} ScanScalar(x: string, a: nat, t: string, e: nat, o: char, c: char, k: nat)
    requires At(x, a, t, e) && (forall ch :: ch in t ==> ScalarChar(ch))
    requires k >= 1 && IsOpener(o) && c == Closer(o)
    ensures ScanTo(x, a, o, c, k) == ScanTo(x, e, o, c, k)
    decreases |t|
  {
    if t != "" {
      assert x[a] == t[0] && t[0] in t;
      assert t == t[..1] + t[1..];
      var m := Split(x, a, t[..1], t[1..], e);
      ScanScalar(x, m, t[1..], e, o, c, k);
    }
  }

  lemma ScanHead(x: string, a: nat, h: Head, keyed: bool, e: nat, o: char, c: char, k: nat)
    requires At(x, a, HeadText(h), e) && HeadOk(h, keyed)
    requires k >= 1 && IsOpener(o) && c == Closer(o)
    ensures ScanTo(x, a, o, c, k) == ScanTo(x, e, o, c, k)
  {
    match h
    case NoKey(pre) => ScanTrivia(x, a, pre, e, o, c, k);
    case Key(pre, units, mid, gap) =>
      var q := Split(x, a, TriviaText(pre), Quoted(units) + (TriviaText(mid) + (":" + TriviaText(gap))), e);
      var m := Split(x, q, Quoted(units), TriviaText(mid) + (":" + TriviaText(gap)), e);
      var n := Split(x, m, TriviaText(mid), ":" + TriviaText(gap), e);
      var g := Split(x, n, ":", TriviaText(gap), e);
      ScanTrivia(x, a, pre, q, o, c, k);
      SkipStringAt(x, q, units, m);
      ScanTrivia(x, m, mid, n, o, c, k);
      assert x[n] == ":"[0];
      ScanTrivia(x, g, gap, e, o, c, k);
  }

  /** A value is neutral for a delimiter scan: the scan leaves it at the depth it entered. */
  lemma {:induction false} ScanValue(x: string, a: nat, v: Value, e: nat, o: char, c: char, k: nat)
    requires At(x, a, Text(v), e) && Ok(v)
    requires k >= 1 && IsOpener(o) && c == Closer(o)
    ensures ScanTo(x, a, o, c, k) == ScanTo(x, e, o, c, k)
    decreases v, 2
  {
    match v
    case Scalar(t) => ScanScalar(x, a, t, e, o, c, k);
    case Str(us) => SkipStringAt(x, a, us, e);
    case Arr(items) => ScanEnclosed(x, a, "[", items, false, "]", e, o, c, k);
    case Obj(items) => ScanEnclosed(x, a, "{", items, true, "}", e, o, c, k);
  }

  lemma {:induction false} ScanEnclosed(x: string, a: nat, l: string, items: Items, keyed: bool, r: string, e: nat,
                                        o: char, c: char, k: nat)
    requires |l| == 1 && |r| == 1 && IsOpener(l[0]) && r[0] == Closer(l[0])
    requires At(x, a, l + (ItemsText(items) + r), e) && ItemsOk(items, keyed)
    requires k >= 1 && IsOpener(o) && c == Closer(o)
    ensures ScanTo(x, a, o, c, k) == ScanTo(x, e, o, c, k)
    decreases items, 3
  {
    var m := Split(x, a, l, ItemsText(items) + r, e);
    var n := Split(x, m, ItemsText(items), r, e);
    assert x[a] == l[0] && x[n] == r[0];
    ScanItems(x, m, items, keyed, n, o, c, if l[0] == o then k + 1 else k);
  }

  lemma {:induction false} ScanItem(x: string, a: nat, it: Item, keyed: bool, e: nat, o: char, c: char, k: nat)
    requires At(x, a, ItemText(it), e) && ItemOk(it, keyed)
    requires k >= 1 && IsOpener(o) && c == Closer(o)
    ensures ScanTo(x, a, o, c, k) == ScanTo(x, e, o, c, k)
    decreases it, 1
  {
    var m := Split(x, a, HeadText(it.head), Text(it.value) + TriviaText(it.post), e);
    var n := Split(x, m, Text(it.value), TriviaText(it.post), e);
    ScanHead(x, a, it.head, keyed, m, o, c, k);
    ScanValue(x, m, it.value, n, o, c, k);
    ScanTrivia(x, n, it.post, e, o, c, k);
  }

  lemma {:induction false} ScanItems(x: string, a: nat, items: Items, keyed: bool, e: nat, o: char, c: char, k: nat)
    requires At(x, a, ItemsText(items), e) && ItemsOk(items, keyed)
    requires k >= 1 && IsOpener(o) && c == Closer(o)
    ensures ScanTo(x, a, o, c, k) == ScanTo(x, e, o, c, k)
    decreases items, 2
  {
    match items
    case End(gap) => ScanTrivia(x, a, gap, e, o, c, k);
    case Last(it) => ScanItem(x, a, it, keyed, e, o, c, k);
    case More(it, rest) =>
      var m := Split(x, a, ItemText(it), "," + ItemsText(rest), e);
      var n := Split(x, m, ",", ItemsText(rest), e);
      ScanItem(x, a, it, keyed, m, o, c, k);
      assert x[m] == ","[0];
      ScanItems(x, n, rest, keyed, e, o, c, k);
  }

  /** Counting one kind of delimiter finds the true end of an object or array. */
  lemma MatchAt(x: string, a: nat, v: Value, e: nat)
    requires At(x, a, Text(v), e) && Ok(v) && (v.Arr? || v.Obj?)
    ensures Match(x, a) == Some(e - 1) && x[a] == (if v.Obj? then '{' else '[')
  {
    var l, r := if v.Obj? then "{" else "[", if v.Obj? then "}" else "]";
    assert Text(v) == l + (ItemsText(v.items) + r);
    var m := Split(x, a, l, ItemsText(v.items) + r, e);
    var n := Split(x, m, ItemsText(v.items), r, e);
    assert x[a] == l[0] && x[n] == r[0];
    ScanItems(x, m, v.items, v.Obj?, n, l[0], r[0], 1);
    ScanIsScanTo(x, m, l[0], r[0], 1);
  }

  // ---------------------------------------------------------------- values and members

  lemma ValueStart(x: string, a: nat, v: Value, e: nat)
    requires At(x, a, Text(v), e) && Ok(v)
    ensures a < e && SkipTrivia(x, a) == a
  {
    assert v.Scalar? ==> v.text[0] in v.text;
    assert x[a] == Text(v)[0];
  }

  lemma {:induction false} ScalarEndAt(x: string, a: nat, t: string, e: nat)
    requires At(x, a, t, e) && (forall ch :: ch in t ==> ScalarChar(ch))
    requires e < |x| ==> ScalarStop(x[e])
    ensures ScalarEnd(x, a) == e
    decreases |t|
  {
    if t != "" {
      assert x[a] == t[0] && t[0] in t;
      assert t == t[..1] + t[1..];
      var m := Split(x, a, t[..1], t[1..], e);
      ScalarEndAt(x, m, t[1..], e);
    }
  }

  /** `skip_value` stops exactly at the end of every value. */
  lemma SkipValueAt(x: string, a: nat, v: Value, e: nat)
    requires At(x, a, Text(v), e) && Ok(v)
    requires v.Scalar? && e < |x| ==> ScalarStop(x[e])
    ensures SkipValue(x, a) == Some(e)
  {
    ValueStart(x, a, v, e);
    match v
    case Scalar(t) =>
      assert t[0] in t && x[a] == t[0];
      ScalarEndAt(x, a, t, e);
    case Str(us) => SkipStringAt(x, a, us, e);
    case Arr(items) => MatchAt(x, a, v, e);
    case Obj(items) => MatchAt(x, a, v, e);
  }

  /** What may follow an item: a comma, the closing brace, or the end of the text. */
  ghost predicate ItemStop(x: string, e: nat) {
    e == |x| || (e < |x| && (x[e] == ',' || x[e] == '}'))
  }

  lemma KeyStages(x: string, a: nat, h: Head, e: nat) returns (i: nat, keyEnd: nat, after: nat)
    requires At(x, a, HeadText(h), e) && HeadOk(h, true) && SkipTrivia(x, e) == e
    ensures i == SkipTrivia(x, a) && i < e && x[i] == '"' && SkipString(x, i) == Some(keyEnd)
    ensures x[i + 1..keyEnd - 1] == UnitsText(h.units)
    ensures after == SkipTrivia(x, keyEnd) && after < e && x[after] == ':' && SkipTrivia(x, after + 1) == e
  {
    i := Split(x, a, TriviaText(h.pre), Quoted(h.units) + (TriviaText(h.mid) + (":" + TriviaText(h.gap))), e);
    keyEnd := Split(x, i, Quoted(h.units), TriviaText(h.mid) + (":" + TriviaText(h.gap)), e);
    after := Split(x, keyEnd, TriviaText(h.mid), ":" + TriviaText(h.gap), e);
    var g := Split(x, after, ":", TriviaText(h.gap), e);
    assert x[after] == ":"[0];
    SkipStringAt(x, i, h.units, keyEnd);
    SkipTriviaAt(x, a, h.pre, i);
    SkipTriviaAt(x, keyEnd, h.mid, after);
    SkipTriviaAt(x, g, h.gap, e);
  }

  lemma ItemParts(x: string, a: nat, it: Item, keyed: bool, e: nat) returns (value: nat, end: nat)
    requires At(x, a, ItemText(it), e) && ItemOk(it, keyed)
    ensures value == a + |HeadText(it.head)| && At(x, a, HeadText(it.head), value)
    ensures At(x, value, Text(it.value), end) && At(x, end, TriviaText(it.post), e)
    ensures end == value + |Text(it.value)| && end <= e && (it.post == [] ==> end == e)
  {
    value := Split(x, a, HeadText(it.head), Text(it.value) + TriviaText(it.post), e);
    end := Split(x, value, Text(it.value), TriviaText(it.post), e);
  }

  /** From the value of a printed member to the separator behind it. */
  lemma ValueStages(x: string, value: nat, it: Item, keyed: bool, end: nat, e: nat)
    requires ItemOk(it, keyed) && ItemStop(x, e)
    requires At(x, value, Text(it.value), end) && At(x, end, TriviaText(it.post), e)
    ensures SkipValue(x, value) == Some(end) && SkipTrivia(x, end) == e
    ensures value < end && SkipTrivia(x, value) == value
  {
    ValueStart(x, value, it.value, end);
    if it.post != [] { assert x[end] == TriviaText(it.post)[0]; }
    SkipValueAt(x, value, it.value, end);
    SkipTriviaAt(x, end, it.post, e);
  }

  // ---------------------------------------------------------------- lookup

  function KeyText(it: Item): string {
    if it.head.Key? then UnitsText(it.head.units) else ""
  }

  /** The first member with that key, and where its value starts when the text starts at `a`. */
  function Find(items: Items, key: string, a: nat): Option<(nat, Value)> {
    match items
    case End(_) => None
    case Last(it) => if KeyText(it) == key then Some((a + |HeadText(it.head)|, it.value)) else None
    case More(it, rest) =>
      if KeyText(it) == key then Some((a + |HeadText(it.head)|, it.value))
      else Find(rest, key, a + |ItemText(it)| + 1)
  }

  function Position(f: Option<(nat, Value)>): Option<nat> {
    match f
    case None => None
    case Some((at, _)) => Some(at)
  }

  /** A member that the tree has is in the text where `Find` says. */
  lemma {:induction false} FindAt(x: string, a: nat, items: Items, e: nat, key: string)
    requires At(x, a, ItemsText(items), e) && ItemsOk(items, true) && Find(items, key, a).Some?
    ensures var (at, v) := Find(items, key, a).value;
            Ok(v) && At(x, at, Text(v), at + |Text(v)|) && at + |Text(v)| <= e
    decreases items
  {
    hide At, Text, HeadText, TriviaText, Ok, HeadOk;
    match items
    case Last(it) =>
      var value, end := ItemParts(x, a, it, true, e);
    case More(it, rest) =>
      var m := Split(x, a, ItemText(it), "," + ItemsText(rest), e);
      var n := Split(x, m, ",", ItemsText(rest), e);
      AtEnds(x, a, ItemText(it), m);
      AtEnds(x, m, ",", n);
      AtEnds(x, n, ItemsText(rest), e);
      if KeyText(it) == key {
        var value, end := ItemParts(x, a, it, true, m);
      } else {
        FindAt(x, n, rest, e, key);
      }
  }

  /** `member_value` finds exactly the keys of the tree: text inside strings, comments and nested
      values is never taken for a member. */
  lemma {:induction false} LookupItems(x: string, a: nat, items: Items, e: nat, close: nat, key: string)
    requires At(x, a, ItemsText(items), e) && ItemsOk(items, true)
    requires e < |x| && x[e] == '}' && e <= close
    ensures Lookup(x, SkipTrivia(x, a), close, key) == Position(Find(items, key, a))
    decreases items
  {
    match items
    case End(gap) =>
      SkipTriviaAt(x, a, gap, e);
      BraceEnds(x, e, close, key);
    case Last(it) => LookupLast(x, a, items, e, close, key);
    case More(it, rest) =>
      var n := a + |ItemText(it)| + 1;
      var m := Split(x, a, ItemText(it), "," + ItemsText(rest), e);
      var n' := Split(x, m, ",", ItemsText(rest), e);
      assert n == n' && x[m] == ","[0];
      LookupItems(x, n, rest, e, close, key);
      LookupMore(x, a, items, m, n, close, key);
  }

  lemma LookupLast(x: string, a: nat, items: Items, e: nat, close: nat, key: string)
    requires items.Last? && At(x, a, ItemText(items.item), e) && ItemOk(items.item, true) && ItemStop(x, e)
    requires e < |x| && x[e] == '}' && e <= close
    ensures Lookup(x, SkipTrivia(x, a), close, key) == Position(Find(items, key, a))
  {
    hide *;
    var r, next := LookupItem(x, a, items.item, e, close, key);
    BraceEnds(x, e, close, key);
    assert r == if KeyText(items.item) == key then Some(a + |HeadText(items.item.head)|) else None;
    FindLast(items, key, a);
    assert r == Position(Find(items, key, a));
  }

  lemma LookupMore(x: string, a: nat, items: Items, m: nat, n: nat, close: nat, key: string)
    requires items.More? && At(x, a, ItemText(items.item), m) && ItemOk(items.item, true) && ItemStop(x, m)
    requires m == a + |ItemText(items.item)| && m < |x| && x[m] == ',' && n == m + 1 <= close
    requires Lookup(x, SkipTrivia(x, n), close, key) == Position(Find(items.rest, key, n))
    ensures Lookup(x, SkipTrivia(x, a), close, key) == Position(Find(items, key, a))
  {
    hide *;
    var r, next := LookupItem(x, a, items.item, m, close, key);
    CommaTaken(x, m, n, close, key);
    assert next == Position(Find(items.rest, key, n));
    FindMore(items, key, a, n);
    assert r == Position(Find(items, key, a));
  }

  lemma BraceEnds(x: string, e: nat, close: nat, key: string)
    requires e < |x| && x[e] == '}'
    ensures SkipTrivia(x, e) == e && Lookup(x, e, close, key) == None && LookupFromNext(x, e, close, key) == None
  {
  }

  lemma FindLast(items: Items, key: string, a: nat)
    requires items.Last?
    ensures Position(Find(items, key, a)) ==
            if KeyText(items.item) == key then Some(a + |HeadText(items.item.head)|) else None
  {
  }

  lemma CommaTaken(x: string, m: nat, n: nat, close: nat, key: string)
    requires m < |x| && x[m] == ',' && n == m + 1
    ensures LookupFromNext(x, m, close, key) == Lookup(x, SkipTrivia(x, n), close, key)
  {
  }

  lemma FindMore(items: Items, key: string, a: nat, n: nat)
    requires items.More? && n == a + |ItemText(items.item)| + 1
    ensures Position(Find(items, key, a)) ==
            if KeyText(items.item) == key then Some(a + |HeadText(items.item.head)|)
            else Position(Find(items.rest, key, n))
    ensures KeyText(items.item) == key ==>
            Find(items, key, a) == Some((a + |HeadText(items.item.head)|, items.item.value))
    ensures KeyText(items.item) != key ==> Find(items, key, a) == Find(items.rest, key, n)
    ensures FinalSlot(items) == FinalSlot(items.rest)
  {
    hide KeyText, HeadText, ItemText;
  }

  lemma KeyTaken(x: string, keyEnd: nat, after: nat, value: nat, hit: bool, close: nat, key: string)
    requires keyEnd <= |x| && after == SkipTrivia(x, keyEnd) && after < |x| && x[after] == ':'
    requires value == SkipTrivia(x, after + 1)
    ensures LookupFromKey(x, keyEnd, hit, close, key) ==
            if hit then Some(value) else LookupFromValue(x, value, close, key)
  {
    hide SkipTrivia, LookupFromValue;
  }

  lemma LookupHead(x: string, a: nat, h: Head, value: nat, close: nat, key: string)
    requires At(x, a, HeadText(h), value) && HeadOk(h, true) && SkipTrivia(x, value) == value <= close
    ensures Lookup(x, SkipTrivia(x, a), close, key) ==
            if UnitsText(h.units) == key then Some(value) else LookupFromValue(x, value, close, key)
  {
    hide SkipTrivia, SkipString, LookupFromKey, LookupFromValue, TriviaText, UnitsText, At;
    var i, keyEnd, after := KeyStages(x, a, h, value);
    var hit := UnitsText(h.units) == key;
    assert Lookup(x, i, close, key) == LookupFromKey(x, keyEnd, hit, close, key);
    KeyTaken(x, keyEnd, after, value, hit, close, key);
  }

  lemma LookupItem(x: string, a: nat, it: Item, e: nat, close: nat, key: string)
    returns (r: Option<nat>, next: Option<nat>)
    requires At(x, a, ItemText(it), e) && ItemOk(it, true) && ItemStop(x, e) && e < |x| && e <= close
    ensures r == Lookup(x, SkipTrivia(x, a), close, key) && next == LookupFromNext(x, e, close, key)
    ensures r == if KeyText(it) == key then Some(a + |HeadText(it.head)|) else next
  {
    hide Lookup, LookupFromValue, LookupFromNext, SkipTrivia, SkipValue, TriviaText, HeadText, Text;
    var value, end := ItemParts(x, a, it, true, e);
    ValueStages(x, value, it, true, end, e);
    LookupHead(x, a, it.head, value, close, key);
    r, next := Lookup(x, SkipTrivia(x, a), close, key), LookupFromNext(x, e, close, key);
    ValueTaken(x, value, end, e, close, key);
  }

  lemma ValueTaken(x: string, value: nat, end: nat, next: nat, close: nat, key: string)
    requires value <= |x| && SkipValue(x, value) == Some(end) && SkipTrivia(x, end) == next
    ensures LookupFromValue(x, value, close, key) == LookupFromNext(x, next, close, key)
  {
  }

  /** The trivia in front of the closing brace is the last thing in the text of the items. */
  function FinalGap(items: Items): seq<Piece> {
    match items
    case End(gap) => gap
    case Last(it) => it.post
    case More(_, rest) => FinalGap(rest)
  }

  function FinalSlot(items: Items): Slot {
    match items
    case End(_) => NeedsMember
    case Last(_) => AfterValue
    case More(_, rest) => FinalSlot(rest)
  }

  /** The items without their final trivia. */
  function Cropped(items: Items): (r: Items)
    ensures FinalGap(r) == [] && FinalSlot(r) == FinalSlot(items)
  {
    match items
    case End(_) => End([])
    case Last(it) => Last(Item(it.head, it.value, []))
    case More(it, rest) => More(it, Cropped(rest))
  }

  lemma Regroup(h: string, m: string, s: string, gap: string)
    ensures h + (m + (s + gap)) == (h + (m + s)) + gap
  {
  }

  lemma {:induction false} CroppedText(items: Items)
    ensures ItemsText(items) == ItemsText(Cropped(items)) + TriviaText(FinalGap(items))
    decreases items
  {
    match items
    case End(_) =>
    case Last(it) =>
      hide Text, HeadText;
      Regroup(HeadText(it.head), Text(it.value), "", TriviaText(it.post));
      assert TriviaText(it.post) == "" + TriviaText(it.post);
    case More(it, rest) =>
      CroppedText(rest);
      hide ItemText, TriviaText;
      Regroup(ItemText(it), ",", ItemsText(Cropped(rest)), TriviaText(FinalGap(rest)));
  }

  lemma {:induction false} CroppedOk(items: Items, keyed: bool)
    requires ItemsOk(items, keyed)
    ensures ItemsOk(Cropped(items), keyed) && TriviaOk(FinalGap(items))
    decreases items
  {
    hide HeadOk, Ok;
    if items.More? { CroppedOk(items.rest, keyed); }
  }

  lemma {:induction false} CroppedFind(items: Items, key: string, a: nat)
    ensures Find(Cropped(items), key, a).Some? <==> Find(items, key, a).Some?
    decreases items
  {
    hide HeadText, ItemText, UnitsText;
    if items.More? { CroppedFind(items.rest, key, a + |ItemText(items.item)| + 1); }
  }

  lemma KeyPassed(p: string, keyEnd: nat, after: nat, hit: bool, key: string)
    requires keyEnd <= |p| && after == SkipTrivia(p, keyEnd) && after < |p| && p[after] == ':'
    ensures WalkKey(p, keyEnd, hit, key) ==
            if hit then Found(SkipTrivia(p, after + 1)) else WalkValue(p, after + 1, key)
  {
  }

  lemma WalkHead(p: string, a: nat, h: Head, value: nat, key: string) returns (after: nat)
    requires At(p, a, HeadText(h), value) && HeadOk(h, true) && SkipTrivia(p, value) == value
    ensures after < value && SkipTrivia(p, after + 1) == value
    ensures Walk(p, a, key) == if UnitsText(h.units) == key then Found(value) else WalkValue(p, after + 1, key)
  {
    hide SkipTrivia, SkipString, WalkKey, WalkValue, TriviaText, UnitsText, At;
    var i, keyEnd, after' := KeyStages(p, a, h, value);
    after := after';
    var hit := UnitsText(h.units) == key;
    assert Walk(p, a, key) == WalkKey(p, keyEnd, hit, key);
    KeyPassed(p, keyEnd, after, hit, key);
  }

  lemma WalkItem(p: string, a: nat, it: Item, e: nat, key: string)
    requires At(p, a, ItemText(it), e) && ItemOk(it, true) && ItemStop(p, e) && e < |p|
    ensures Walk(p, a, key) == if KeyText(it) == key then Found(a + |HeadText(it.head)|)
                               else if p[e] == ',' then Walk(p, e + 1, key)
                               else Stuck
  {
    hide *;
    var value, end := ItemParts(p, a, it, true, e);
    ItemKeyed(it);
    ValueStages(p, value, it, true, end, e);
    var after := WalkHead(p, a, it.head, value, key);
    WalkedValue(p, after + 1, value, end, key);
    WalkedNext(p, end, e, key);
  }

  lemma ItemKeyed(it: Item)
    requires ItemOk(it, true)
    ensures HeadOk(it.head, true) && it.head.Key? && KeyText(it) == UnitsText(it.head.units)
  {
  }

  lemma WalkedValue(p: string, t: nat, value: nat, end: nat, key: string)
    requires t <= value < |p| && SkipTrivia(p, t) == value && SkipValue(p, value) == Some(end)
    ensures WalkValue(p, t, key) == WalkNext(p, end, key)
  {
    hide SkipTrivia, SkipValue, WalkNext;
  }

  lemma WalkedNext(p: string, end: nat, e: nat, key: string)
    requires end <= |p| && SkipTrivia(p, end) == e < |p|
    ensures WalkNext(p, end, key) == if p[e] == ',' then Walk(p, e + 1, key) else Stuck
  {
    hide SkipTrivia, Walk;
  }

  /** The text after the last token is only trivia, and a scalar in front of it ends there. */
  ghost predicate TrivialRest(p: string, q: nat, scalar: bool) {
    q <= |p| && SkipTrivia(p, q) == |p| && TriviaTail(p, q) != OpenBlock && (scalar && q < |p| ==> ScalarStop(p[q]))
  }

  lemma WalkLast(p: string, a: nat, it: Item, q: nat, key: string)
    requires At(p, a, ItemText(it), q) && ItemOk(it, true) && it.post == [] && TrivialRest(p, q, it.value.Scalar?)
    ensures Walk(p, a, key) == if KeyText(it) == key then Found(a + |HeadText(it.head)|) else EndsAt(AfterValue, q)
  {
    hide *;
    var value, end := ItemParts(p, a, it, true, q);
    ItemKeyed(it);
    ItemValueOk(it);
    RestFacts(p, q, it.value.Scalar?);
    ValueStart(p, value, it.value, end);
    SkipValueAt(p, value, it.value, end);
    var after := WalkHead(p, a, it.head, value, key);
    WalkedValue(p, after + 1, value, end, key);
    WalkedOut(p, end, key);
  }

  lemma ItemValueOk(it: Item)
    requires ItemOk(it, true)
    ensures Ok(it.value)
  {
  }

  lemma RestFacts(p: string, q: nat, scalar: bool)
    requires TrivialRest(p, q, scalar)
    ensures q <= |p| && SkipTrivia(p, q) == |p| && TriviaTail(p, q) != OpenBlock
    ensures scalar && q < |p| ==> ScalarStop(p[q])
  {
    hide SkipTrivia, TriviaTail;
  }

  lemma WalkedOut(p: string, q: nat, key: string)
    requires q <= |p| && SkipTrivia(p, q) == |p| && TriviaTail(p, q) != OpenBlock
    ensures WalkNext(p, q, key) == EndsAt(AfterValue, q)
    ensures Walk(p, q, key) == EndsAt(NeedsMember, q)
  {
    hide SkipTrivia, TriviaTail;
  }

  lemma WalkMore(p: string, a: nat, items: Items, m: nat, n: nat, q: nat, key: string)
    requires items.More? && At(p, a, ItemText(items.item), m) && ItemOk(items.item, true) && ItemStop(p, m)
    requires m == a + |ItemText(items.item)| && m < |p| && p[m] == ',' && n == m + 1
    requires Walk(p, n, key) == if Find(items.rest, key, n).Some? then Found(Find(items.rest, key, n).value.0)
                                   else EndsAt(FinalSlot(items.rest), q)
    ensures Walk(p, a, key) == if Find(items, key, a).Some? then Found(Find(items, key, a).value.0)
                                  else EndsAt(FinalSlot(items), q)
  {
    hide *;
    FindMore(items, key, a, n);
    WalkItem(p, a, items.item, m, key);
  }

  function EndsInScalar(items: Items): bool {
    match items
    case End(_) => false
    case Last(it) => it.value.Scalar?
    case More(_, rest) => EndsInScalar(rest)
  }

  /** A printed object cut behind its last token or in the trivia after it: the walk reaches the
      cut, in the state that the tree says. */
  lemma {:induction false} WalkItems(p: string, a: nat, items: Items, q: nat, key: string)
    requires At(p, a, ItemsText(items), q) && ItemsOk(items, true) && FinalGap(items) == []
    requires TrivialRest(p, q, EndsInScalar(items))
    ensures Walk(p, a, key) == if Find(items, key, a).Some? then Found(Find(items, key, a).value.0)
                                  else EndsAt(FinalSlot(items), q)
    decreases items
  {
    match items
    case End(_) =>
      RestFacts(p, q, false);
      WalkedOut(p, q, key);
    case Last(it) =>
      WalkLast(p, a, it, q, key);
    case More(it, rest) =>
      var n := a + |ItemText(it)| + 1;
      var m := Split(p, a, ItemText(it), "," + ItemsText(rest), q);
      var n' := Split(p, m, ",", ItemsText(rest), q);
      assert n == n' && p[m] == ","[0];
      WalkItems(p, n, rest, q, key);
      WalkMore(p, a, items, m, n, q, key);
  }
}
