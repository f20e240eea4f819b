/** The main results about registering twice. */
module JsoncRegister {
  import opened Wrappers
  import opened JsoncScan
  import opened JsoncLocality
  import opened JsoncTree
  import opened JsoncSplice
  import opened JsoncMemberText
  import opened JsoncSecondRun

  // ---------------------------------------------------------------- the new text

  lemma NewText(d: string, c: nat, member: string, indent: nat, closeIndent: nat, ins: Item) returns (a: nat, e: nat)
    requires c < |d| && d[c] == '}' && Kept(d, c) != ""
    requires Inserted(member, indent, closeIndent) == ItemText(ins) && ItemOk(ins, true)
    ensures var x := Splice(d, c, member, indent, closeIndent);
            SplicedIn(Kept(d, c), x, ins, a, e) && SameRest(x, e, d, c)
  {
    hide ItemText, ItemOk, TrimEnd, NeedsComma, Spaces, Kept;
    var p := Kept(d, c);
    var body := ItemText(ins);
    var x := p + Comma(p) + body + d[c..];
    a := |p| + |Comma(p)|;
    e := a + |body|;
    assert body[0] == '\n';
    assert x[..|p|] == p;
    forall k | 0 <= k < |body| ensures x[a + k] == body[k] {
    }
    assert x[e..] == d[c..];
    assert x[e] == d[c..][0];
  }

  lemma KeepsOpening(d: string, open: nat, c: nat)
    requires open < c < |d| && d[open] == '{'
    ensures open < |Kept(d, c)| && Kept(d, c)[open] == '{'
  {
    hide TrimEnd;
  }

  /** A brace found in `d` behind leading trivia is found in front of the insertion as well. */
  lemma StartKept(p: string, d: string, x: string)
    requires Extends(p, d) && Extends(p, x) && SkipTrivia(d, 0) < |p|
    ensures SkipTrivia(x, 0) == SkipTrivia(d, 0)
  {
    hide SkipTrivia, TriviaTail;
    TriviaGoesOn(p, d, 0);
    TriviaGoesOn(p, x, 0);
  }

  lemma KeptExtends(d: string, c: nat)
    requires c < |d| && d[c] == '}'
    ensures Extends(Kept(d, c), d) && Kept(d, c) < d && Separated(Kept(d, c), d, c)
  {
    hide TrimEnd;
    var p := Kept(d, c);
    assert |p| < c ==> WhiteByte(d[|p|]);
  }

  lemma NotFoundBefore(p: string, d: string, t: nat, close: nat, key: string)
    requires Separated(p, d, close) && t <= |p|
    requires Lookup(d, SkipTrivia(d, t), close, key) == None
    ensures !Walk(p, t, key).Found?
  {
    hide Lookup, Walk, SkipTrivia;
    LookupExtends(p, d, t, close, key);
  }

  lemma BraceKept(d: string, open: nat, c: nat, x: string, ins: Item, a: nat, e: nat)
    requires Match(d, open) == Some(c) && open < |d| && d[open] == '{' && c < |d| && d[c] == '}' && open < c
    requires SplicedIn(Kept(d, c), x, ins, a, e)
    ensures Match(x, open) == Some(e) && open < |Kept(d, c)| && x[open] == '{'
  {
    hide TrimEnd, Match, Scan, ScanTo, At, ItemText, ItemOk;
    KeepsOpening(d, open, c);
    KeptScan(d, Kept(d, c), open, c);
    ScanSpliced(Kept(d, c), x, ins, a, e, open);
  }

  // ---------------------------------------------------------------- a new top-level member

  lemma ServersFound(x: string, reg: Registration, at: nat, end: nat)
    requires At(x, at, Text(ServersValue(reg)), end)
    ensures at < end <= |x| && x[at] == '{' && Match(x, at) == Some(end - 1)
    ensures MemberValue(x, at, end - 1, SERVER_ID).Some?
  {
    hide *;
    var ins := InsertedItem(SERVER_ID, ServerValue(reg, 4), 4, 2);
    BlockItem(reg);
    MemberItem(reg);
    ServersText(reg);
    ServersIsObject(reg);
    AtEnds(x, at, Text(ServersValue(reg)), end);
    MatchAt(x, at, ServersValue(reg), end);
    var m := Split(x, at, "{", ItemsText(Last(ins)) + "}", end);
    var n := Split(x, m, ItemsText(Last(ins)), "}", end);
    AtEnds(x, at, "{", m);
    AtEnds(x, n, "}", end);
    BraceAt(x, n, end);
    LookupItems(x, m, Last(ins), n, n, SERVER_ID);
    LastFound(ins, SERVER_ID, m);
    MemberFromLookup(x, at, n, SERVER_ID);
  }

  lemma ServersText(reg: Registration)
    requires ItemOk(InsertedItem(SERVER_ID, ServerValue(reg, 4), 4, 2), true)
    ensures ItemsOk(Last(InsertedItem(SERVER_ID, ServerValue(reg, 4), 4, 2)), true)
    ensures Text(ServersValue(reg)) ==
            "{" + (ItemsText(Last(InsertedItem(SERVER_ID, ServerValue(reg, 4), 4, 2))) + "}")
  {
    hide ItemOk, ItemText, ServerValue, InsertedItem;
  }

  lemma ServersIsObject(reg: Registration)
    ensures ServersValue(reg).Obj?
  {
  }

  lemma BraceAt(x: string, n: nat, end: nat)
    requires At(x, n, "}", end)
    ensures n < |x| && x[n] == '}'
  {
    assert x[n] == "}"[0];
  }

  lemma LastFound(it: Item, key: string, a: nat)
    requires KeyText(it) == key
    ensures Position(Find(Last(it), key, a)).Some?
  {
    hide KeyText, HeadText;
  }

  lemma MemberFromLookup(x: string, at: nat, close: nat, key: string)
    requires at < |x|
    ensures MemberValue(x, at, close, key) == Lookup(x, SkipTrivia(x, at + 1), close, key)
  {
    hide Lookup, SkipTrivia;
  }

  ghost predicate RootCase(d: string, open: nat, close: nat) {
    RootObject(d) == Some((open, close)) && open < |d| && MemberValue(d, open, close, AGENT_SERVERS) == None
  }

  /** When there are no agent servers yet: after the first run has added them, the second run
      does nothing exactly when the comma test was right. */
  lemma SecondRunAtRoot(d: string, reg: Registration, open: nat, close: nat)
    requires RootCase(d, open, close)
    requires !Walk(Kept(d, close), open + 1, AGENT_SERVERS).RunsOff?
    ensures EnsureRegistered(d, reg).Updated?
    ensures EnsureRegistered(EnsureRegistered(d, reg).text, reg) == AlreadyRegistered <==>
            Insertable(Kept(d, close), Walk(Kept(d, close), open + 1, AGENT_SERVERS))
  {
    hide *;
    FirstAtRoot(d, reg, open, close);
    RootFacts(d, open, close);
    var p := Kept(d, close);
    var x := Splice(d, close, ServersBlock(reg), 2, 0);
    var ins := InsertedItem(AGENT_SERVERS, ServersValue(reg), 2, 0);
    KeepsOpening(d, open, close);
    BlockItem(reg);
    var a, e := NewText(d, close, ServersBlock(reg), 2, 0, ins);
    BraceKept(d, open, close, x, ins, a, e);
    KeptExtends(d, close);
    SplicedShape(p, x, ins, a, e, e);
    SeparatedExtends(p, x, e);
    StartKept(p, d, x);
    RootFound(x, open, e);
    MemberFromLookup(d, open, close, AGENT_SERVERS);
    NotFoundBefore(p, d, open + 1, close, AGENT_SERVERS);
    SecondLookup(p, x, ins, a, e, open + 1, e, AGENT_SERVERS);
    MemberFromLookup(x, open, e, AGENT_SERVERS);
    var value, end := ItemParts(x, a, ins, true, e);
    InsertedValue(AGENT_SERVERS, ServersValue(reg), 2, 0);
    ServersFound(x, reg, value, end);
    SecondOutcomeAtRoot(x, reg, open, e, value, end - 1, Insertable(p, Walk(p, open + 1, AGENT_SERVERS)));
  }

  lemma FirstAtRoot(d: string, reg: Registration, open: nat, close: nat)
    requires RootCase(d, open, close)
    ensures close <= |d| && EnsureRegistered(d, reg) == Updated(Splice(d, close, ServersBlock(reg), 2, 0))
    ensures RootObject(d) == Some((open, close)) && open < |d| && MemberValue(d, open, close, AGENT_SERVERS) == None
  {
    hide MemberValue, Match, Splice, ServersBlock, Member, RootObject;
  }

  lemma RootFacts(d: string, open: nat, close: nat)
    requires RootObject(d) == Some((open, close))
    ensures open < close < |d| && d[open] == '{' && d[close] == '}'
    ensures SkipTrivia(d, 0) == open && Match(d, open) == Some(close)
  {
    hide SkipTrivia, Match;
  }

  lemma RootFound(x: string, open: nat, e: nat)
    requires SkipTrivia(x, 0) == open && open < |x| && x[open] == '{' && Match(x, open) == Some(e)
    ensures RootObject(x) == Some((open, e))
  {
    hide SkipTrivia, Match;
  }

  lemma InsertedValue(key: string, v: Value, indent: nat, closeIndent: nat)
    ensures InsertedItem(key, v, indent, closeIndent).value == v
  {
  }

  lemma SecondOutcomeAtRoot(x: string, reg: Registration, open: nat, e: nat, value: nat, end: nat, found: bool)
    requires RootObject(x) == Some((open, e)) && open < |x|
    requires MemberValue(x, open, e, AGENT_SERVERS) == if found then Some(value) else None
    requires value < |x| && x[value] == '{' && Match(x, value) == Some(end)
    requires MemberValue(x, value, end, SERVER_ID).Some?
    ensures EnsureRegistered(x, reg) == AlreadyRegistered <==> found
  {
    hide MemberValue, Match, Splice, ServersBlock, Member, RootObject;
  }

  // ---------------------------------------------------------------- inside existing agent servers

  ghost predicate NestedCase(d: string, open: nat, close: nat, value: nat, end: nat) {
    && RootObject(d) == Some((open, close)) && open < |d|
    && MemberValue(d, open, close, AGENT_SERVERS) == Some(value)
    && value < |d| && d[value] == '{' && Match(d, value) == Some(end)
    && MemberValue(d, value, end, SERVER_ID) == None
  }

  /** The root's delimiter scan reaches the value of `agent_servers` outside strings and comments.
      A scalar glued to a quote or a comment can make it miss that. */
  predicate RootSees(d: string, open: nat, value: nat) {
    open < value <= |d| &&
    var s := ScanTo(d[..value], open + 1, '{', '}', 1);
    s.Open? && !s.line
  }

  lemma NestedFacts(d: string, reg: Registration, open: nat, close: nat, value: nat, end: nat)
    requires NestedCase(d, open, close, value, end)
    ensures RootObject(d) == Some((open, close)) && open < close < |d| && d[open] == '{'
    ensures SkipTrivia(d, 0) == open && Match(d, open) == Some(close)
    ensures open < value < end < |d| && d[value] == '{' && d[end] == '}' && Match(d, value) == Some(end)
    ensures Lookup(d, SkipTrivia(d, open + 1), close, AGENT_SERVERS) == Some(value)
    ensures Lookup(d, SkipTrivia(d, value + 1), end, SERVER_ID) == None
    ensures EnsureRegistered(d, reg) == Updated(Splice(d, end, Member(reg, 4), 4, 2))
  {
    hide Lookup, SkipTrivia, Splice, ServersBlock, Member, Scan;
  }

  lemma SeenScan(d: string, open: nat, value: nat, x: string) returns (k: nat)
    requires RootSees(d, open, value) && value < |d| && value < |x| && d[..value] == x[..value] &&
             x[value] == d[value] == '{'
    ensures k >= 1 && Scan(d, open + 1, '{', '}', 1) == Scan(d, value, '{', '}', k)
    ensures Scan(x, open + 1, '{', '}', 1) == Scan(x, value, '{', '}', k)
  {
    var q := d[..value];
    assert q <= d && q <= x;
    hide Scan, ScanTo;
    k := ScanTo(q, open + 1, '{', '}', 1).depth;
    ScanExtends(q, d, open + 1, '{', '}', 1);
    ScanExtends(q, x, open + 1, '{', '}', 1);
  }

  lemma ThroughObject(x: string, value: nat, end: nat, k: nat)
    requires value < |x| && x[value] == '{' && Match(x, value) == Some(end) && end < |x| && k >= 1
    ensures Scan(x, value, '{', '}', k) == Scan(x, end + 1, '{', '}', k)
  {
    assert Scan(x, value, '{', '}', k) == Scan(x, value + 1, '{', '}', 1 + k);
    hide Scan;
    ScanNests(x, value + 1, 1, k);
  }

  /** The root object still closes, behind the object that has grown. */
  lemma RootKept(d: string, open: nat, close: nat, value: nat, end: nat, x: string, e: nat)
    requires open < |d| && d[open] == '{' && Match(d, open) == Some(close) && close < |d|
    requires value < |d| && d[value] == '{' && Match(d, value) == Some(end) && end < |d|
    requires RootSees(d, open, value)
    requires value < |x| && d[..value] == x[..value] && x[value] == '{' && Match(x, value) == Some(e) && e < |x|
    requires SameRest(x, e + 1, d, end + 1)
    ensures end < close && open < |x| && x[open] == '{' && Match(x, open).Some? && e < Match(x, open).value
  {
    assert x[open] == x[..value][open] == d[..value][open];
    hide *;
    SawBefore(d, open, value);
    var k := SeenScan(d, open, value, x);
    ThroughObject(d, value, end, k);
    ThroughObject(x, value, e, k);
    ScanSame(x, e + 1, d, end + 1, k);
    MatchIsScan(d, open);
    MatchIsScan(x, open);
  }

  lemma SawBefore(d: string, open: nat, value: nat)
    requires RootSees(d, open, value)
    ensures open < value
  {
    hide ScanTo;
  }

  lemma FoundBefore(p: string, d: string, x: string, t: nat, close: nat, rootClose: nat, key: string, at: nat)
    requires Separated(p, d, close) && Separated(p, x, rootClose) && t <= |p| && at < |p| && ScalarStop(x[|p|])
    requires Lookup(d, SkipTrivia(d, t), close, key) == Some(at)
    ensures Lookup(x, SkipTrivia(x, t), rootClose, key) == Some(at)
  {
    hide Walk, Lookup, LookupFromNext, LookupFromValue, SkipTrivia, AfterTrivia;
    LookupExtends(p, d, t, close, key);
    LookupExtends(p, x, t, rootClose, key);
    FoundInside(p, d, t, close, key, Walk(p, t, key), at);
  }

  lemma FoundInside(p: string, d: string, t: nat, close: nat, key: string, w: WalkEnd, at: nat)
    requires p < d && (w.EndsAt? ==> w.from <= |p|) && at < |p|
    requires Follows(p, d, close, key, w, Some(at))
    ensures w == Found(at)
  {
  }

  lemma SameStart(p: string, d: string, x: string, value: nat)
    requires p <= d && p <= x && value < |p|
    ensures d[..value] == x[..value] && x[value] == d[value]
  {
    assert d[..value] == p[..value] == x[..value];
  }

  lemma NextRest(x: string, e: nat, d: string, c: nat)
    requires SameRest(x, e, d, c) && e < |x|
    ensures SameRest(x, e + 1, d, c + 1)
  {
    SameNext(x, e, d, c, 1);
  }

  lemma SecondOutcomeNested(x: string, reg: Registration, open: nat, close: nat, value: nat, e: nat, found: bool)
    requires RootObject(x) == Some((open, close)) && open < |x|
    requires MemberValue(x, open, close, AGENT_SERVERS) == Some(value)
    requires value < |x| && x[value] == '{' && Match(x, value) == Some(e)
    requires MemberValue(x, value, e, SERVER_ID).Some? <==> found
    ensures EnsureRegistered(x, reg) == AlreadyRegistered <==> found
  {
    hide MemberValue, Match, Splice, ServersBlock, Member, RootObject;
  }

  /** When the agent servers exist and lack this one: after the first run has added it, the second
      run does nothing exactly when the comma test was right. */
  lemma SecondRunNested(d: string, reg: Registration, open: nat, close: nat, value: nat, end: nat)
    requires NestedCase(d, open, close, value, end) && RootSees(d, open, value)
    requires !Walk(Kept(d, end), value + 1, SERVER_ID).RunsOff?
    ensures EnsureRegistered(d, reg).Updated?
    ensures EnsureRegistered(EnsureRegistered(d, reg).text, reg) == AlreadyRegistered <==>
            Insertable(Kept(d, end), Walk(Kept(d, end), value + 1, SERVER_ID))
  {
    hide *;
    NestedFacts(d, reg, open, close, value, end);
    var p := Kept(d, end);
    var x := Splice(d, end, Member(reg, 4), 4, 2);
    var ins := InsertedItem(SERVER_ID, ServerValue(reg, 4), 4, 2);
    KeepsOpening(d, value, end);
    MemberItem(reg);
    var a, e := NewText(d, end, Member(reg, 4), 4, 2, ins);
    BraceKept(d, value, end, x, ins, a, e);
    KeptExtends(d, end);
    SplicedShape(p, x, ins, a, e, e);
    SameStart(p, d, x, value);
    NextRest(x, e, d, end);
    RootKept(d, open, close, value, end, x, e);
    var rootClose := Match(x, open).value;
    WiderClose(p, d, end, close);
    SplicedShape(p, x, ins, a, e, rootClose);
    SeparatedExtends(p, x, rootClose);
    StartKept(p, d, x);
    RootFound(x, open, rootClose);
    FoundBefore(p, d, x, open + 1, close, rootClose, AGENT_SERVERS, value);
    MemberFromLookup(x, open, rootClose, AGENT_SERVERS);
    NotFoundBefore(p, d, value + 1, end, SERVER_ID);
    SecondLookup(p, x, ins, a, e, value + 1, e, SERVER_ID);
    MemberFromLookup(x, value, e, SERVER_ID);
    SecondOutcomeNested(x, reg, open, rootClose, value, e, Insertable(p, Walk(p, value + 1, SERVER_ID)));
  }

  lemma WiderClose(p: string, d: string, end: nat, close: nat)
    requires Separated(p, d, end) && end <= close
    ensures Separated(p, d, close) && Extends(p, d)
  {
  }

  // ---------------------------------------------------------------- the law

  /** Where the first run splices: behind which opening brace, in front of which closing brace,
      and under which key. */
  datatype Site = Site(open: nat, close: nat, key: string)

  function SiteOf(d: string): Option<Site> {
    match RootObject(d)
    case None => None
    case Some((open, close)) =>
      match MemberValue(d, open, close, AGENT_SERVERS)
      case None => Some(Site(open, close, AGENT_SERVERS))
      case Some(value) =>
        if value < |d| && d[value] == '{' && Match(d, value).Some? then
          if MemberValue(d, value, Match(d, value).value, SERVER_ID).None?
          then Some(Site(value, Match(d, value).value, SERVER_ID)) else None
        else None
  }

  function SiteWalk(d: string, s: Site): WalkEnd
    requires s.close <= |d|
  {
    var p := Kept(d, s.close);
    if s.open < |p| then Walk(p, s.open + 1, s.key) else Stuck
  }

  /** The member walk does not run off the kept text inside a string, bracket or block comment,
      and the root's delimiter scan agrees with it about where the edited object starts. */
  predicate Delimited(d: string, s: Site) {
    && s.close <= |d| && !SiteWalk(d, s).RunsOff?
    && (s.key == SERVER_ID ==> RootSees(d, SkipTrivia(d, 0), s.open))
  }

  /** The law of registering twice, for every document the first run changes: the second run
      leaves the text alone if and only if the comma test of the first run was right. */
  lemma SecondRunIsNoOp(d: string, reg: Registration)
    requires EnsureRegistered(d, reg).Updated?
    requires SiteOf(d).Some? && Delimited(d, SiteOf(d).value)
    ensures var s := SiteOf(d).value;
            EnsureRegistered(EnsureRegistered(d, reg).text, reg) == AlreadyRegistered <==>
            Insertable(Kept(d, s.close), SiteWalk(d, s))
  {
    hide Match, MemberValue, RootSees, Walk, Insertable, Splice, ServersBlock, Member, Kept, SkipTrivia;
    var s := SiteOf(d).value;
    var (open, close) := RootObject(d).value;
    RootFacts(d, open, close);
    if s.key == AGENT_SERVERS {
      KeepsOpening(d, open, close);
      SecondRunAtRoot(d, reg, open, close);
    } else {
      KeepsOpening(d, s.open, s.close);
      SecondRunNested(d, reg, open, close, s.open, s.close);
    }
  }

  lemma UpdatedHasSite(d: string, reg: Registration)
    ensures EnsureRegistered(d, reg).Updated? <==> SiteOf(d).Some?
    ensures SiteOf(d).Some? ==> SiteOf(d).value.close <= |d|
  {
    hide Match, MemberValue, RootObject, Splice, ServersBlock, Member;
  }

  /** The refusals, each exactly: the first token opens no object that is closed again; the agent servers
      are an object that is never closed; or they are no object. */
  lemma RefusedExactly(d: string, reg: Registration)
    ensures var start, r := SkipTrivia(d, 0), EnsureRegistered(d, reg);
            && (r == Refused(NotAnObject) <==> !(start < |d| && d[start] == '{' && Match(d, start).Some?))
            && (r != Refused(NotAnObject) ==>
                  var value := MemberValue(d, start, Match(d, start).value, AGENT_SERVERS);
                  && (r == Refused(UnterminatedServers) <==>
                        value.Some? && value.value < |d| && d[value.value] == '{' && Match(d, value.value) == None)
                  && (r == Refused(ServersNotAnObject) <==>
                        value.Some? && !(value.value < |d| && d[value.value] == '{')))
  {
    hide Match, MemberValue, Splice, ServersBlock, Member, SkipTrivia;
  }
}
