/** Registering the agent: the member text, the splice in front of a closing brace, and
    `ensure_registered`, which decides where (and whether) to splice.
 */
module JsoncSplice {
  import opened Wrappers
  import opened JsoncScan
  import opened JsoncTree

  const AGENT_SERVERS := "agent_servers"
  const SERVER_ID := "rpi"

  /** How the editor launches the agent. */
  datatype Registration = Registration(command: string, args: seq<string>)

  datatype Refusal = NotAnObject | UnterminatedServers | ServersNotAnObject

  datatype Outcome = AlreadyRegistered | Updated(text: string) | Refused(why: Refusal)

  // ---------------------------------------------------------------- JSON string literals

  function HexDigit(n: nat): char
    requires n < 16
  {
    "0123456789abcdef"[n]
  }

  /** How the serializer writes one byte of a string. */
  function EscapeUnits(c: char): seq<Unit> {
    if c == '"' || c == '\\' then [Escape(c)]
    else if c == '\U{08}' then [Escape('b')]
    else if c == '\t' then [Escape('t')]
    else if c == '\n' then [Escape('n')]
    else if c == '\U{0C}' then [Escape('f')]
    else if c == '\r' then [Escape('r')]
    else if c < ' ' then
      [Escape('u'), Plain('0'), Plain('0'), Plain(HexDigit(c as int / 16)), Plain(HexDigit(c as int % 16))]
    else [Plain(c)]
  }

  function StringUnits(s: string): (us: seq<Unit>)
    ensures UnitsOk(us)
  {
    if s == "" then [] else EscapeUnits(s[0]) + StringUnits(s[1..])
  }

  function JsonString(s: string): string {
    Quoted(StringUnits(s))
  }

  // ---------------------------------------------------------------- the member

  function Spaces(n: nat): string {
    if n == 0 then "" else " " + Spaces(n - 1)
  }

  function JoinedArgs(args: seq<string>): string {
    if args == [] then ""
    else if |args| == 1 then JsonString(args[0])
    else JsonString(args[0]) + ("," + (" " + JoinedArgs(args[1..])))
  }

  /** `"rpi": { ... }` at indentation `pad`. */
  function Member(reg: Registration, pad: nat): string {
    "\"rpi\": {\n"
    + Spaces(pad + 2) + "\"type\": \"custom\",\n"
    + Spaces(pad + 2) + "\"command\": " + JsonString(reg.command) + ",\n"
    + Spaces(pad + 2) + "\"args\": [" + JoinedArgs(reg.args) + "]\n"
    + Spaces(pad) + "}"
  }

  /** The top-level member that is added when there are no agent servers yet. */
  function ServersBlock(reg: Registration): string {
    "\"agent_servers\": {\n" + "    " + Member(reg, 4) + "\n  }"
  }

  // ---------------------------------------------------------------- the splice

  /** How many trailing bytes of `t` are the UTF-8 form of one Unicode white-space character. */
  function TrailingWhite(t: string): (n: nat)
    ensures n <= |t|
  {
    var k := |t|;
    if k >= 1 && (t[k - 1] == ' ' || '\t' <= t[k - 1] <= '\r') then 1
    else if k >= 2 && t[k - 2] == '\U{C2}' && (t[k - 1] == '\U{85}' || t[k - 1] == '\U{A0}') then 2
    else if k >= 3 && t[k - 3] == '\U{E1}' && t[k - 2] == '\U{9A}' && t[k - 1] == '\U{80}' then 3
    else if k >= 3 && t[k - 3] == '\U{E2}' && t[k - 2] == '\U{80}' &&
      ('\U{80}' <= t[k - 1] <= '\U{8A}' || t[k - 1] == '\U{A8}' || t[k - 1] == '\U{A9}' || t[k - 1] == '\U{AF}') then 3
    else if k >= 3 && t[k - 3] == '\U{E2}' && t[k - 2] == '\U{81}' && t[k - 1] == '\U{9F}' then 3
    else if k >= 3 && t[k - 3] == '\U{E3}' && t[k - 2] == '\U{80}' && t[k - 1] == '\U{80}' then 3
    else 0
  }

  /** A byte of some white-space character. */
  predicate WhiteByte(c: char) {
    c == ' ' || '\t' <= c <= '\r' || c >= '\U{80}'
  }

  /** `trim_end`: the text without trailing Unicode white space. */
  function TrimEnd(t: string): (r: string)
    ensures r <= t
    ensures forall k :: |r| <= k < |t| ==> WhiteByte(t[k])
    ensures TrailingWhite(r) == 0 && (r != "" ==> !IsBlank(r[|r| - 1]))
    decreases |t|
  {
    if TrailingWhite(t) == 0 then t else TrimEnd(t[..|t| - TrailingWhite(t)])
  }

  /** The text in front of the closing brace, as far as the splice keeps it. */
  function Kept(text: string, close: nat): (p: string)
    requires close <= |text|
    ensures p <= text && |p| <= close
    ensures forall k :: |p| <= k < close ==> WhiteByte(text[k])
    ensures p != "" ==> !IsBlank(p[|p| - 1])
  {
    TrimEnd(text[..close])
  }

  /** A comma is needed unless the last byte already is one or opens the object. */
  predicate NeedsComma(p: string) {
    !(p != "" && (p[|p| - 1] == '{' || p[|p| - 1] == ','))
  }

  function Comma(p: string): string {
    if NeedsComma(p) then "," else ""
  }

  function Inserted(member: string, indent: nat, closeIndent: nat): string {
    "\n" + Spaces(indent) + member + "\n" + Spaces(closeIndent)
  }

  function Splice(text: string, close: nat, member: string, indent: nat, closeIndent: nat): string
    requires close <= |text|
  {
    var p := Kept(text, close);
    p + Comma(p) + Inserted(member, indent, closeIndent) + text[close..]
  }

  function EnsureRegistered(text: string, reg: Registration): Outcome {
    match RootObject(text)
    case None => Refused(NotAnObject)
    case Some((open, close)) =>
      match MemberValue(text, open, close, AGENT_SERVERS)
      case None => Updated(Splice(text, close, ServersBlock(reg), 2, 0))
      case Some(value) =>
        if value < |text| && text[value] == '{' then
          match Match(text, value)
          case None => Refused(UnterminatedServers)
          case Some(end) =>
            if MemberValue(text, value, end, SERVER_ID).Some? then AlreadyRegistered
            else Updated(Splice(text, end, Member(reg, 4), 4, 2))
        else Refused(ServersNotAnObject)
  }

  /** `after` is `before` with the white space `before[from..to]` in front of a brace replaced. */
  ghost predicate Replaces(before: string, after: string, from: nat, to: nat, inserted: string) {
    && from <= to < |before| && before[to] == '}'
    && (forall k :: from <= k < to ==> WhiteByte(before[k]))
    && after == before[..from] + inserted + before[to..]
  }

  lemma SpliceReplaces(text: string, close: nat, member: string, indent: nat, closeIndent: nat)
    requires close < |text| && text[close] == '}'
    ensures var p := Kept(text, close);
            Replaces(text, Splice(text, close, member, indent, closeIndent), |p|, close,
                     Comma(p) + Inserted(member, indent, closeIndent))
  {
    hide TrimEnd, Inserted, NeedsComma;
    var p := Kept(text, close);
    assert p == text[..|p|];
    assert p + Comma(p) + Inserted(member, indent, closeIndent) ==
           p + (Comma(p) + Inserted(member, indent, closeIndent));
  }

  /** An update only takes white space away directly in front of one closing brace, and only adds
      the new member with its line breaks and at most one comma; every other byte stays. */
  lemma UpdateOnlyInserts(text: string, reg: Registration)
    requires EnsureRegistered(text, reg).Updated?
    ensures exists from, to, comma | comma == "" || comma == "," ::
              || Replaces(text, EnsureRegistered(text, reg).text, from, to, comma + Inserted(Member(reg, 4), 4, 2))
              || Replaces(text, EnsureRegistered(text, reg).text, from, to, comma + Inserted(ServersBlock(reg), 2, 0))
  {
    hide Match, MemberValue, Splice, Inserted, Member, ServersBlock, Replaces, Kept;
    var (open, close) := RootObject(text).value;
    if MemberValue(text, open, close, AGENT_SERVERS).None? {
      SpliceReplaces(text, close, ServersBlock(reg), 2, 0);
    } else {
      var end := Match(text, MemberValue(text, open, close, AGENT_SERVERS).value).value;
      SpliceReplaces(text, end, Member(reg, 4), 4, 2);
    }
  }

  // ---------------------------------------------------------------- the source's methods

  method SpaceString(n: nat) returns (s: string)
    ensures s == Spaces(n)
  {
    s := "";
    for i := 0 to n
      invariant s == Spaces(i)
    {
      s := " " + s;
    }
  }

  method TrimEndLoop(t: string) returns (n: nat)
    ensures n == |TrimEnd(t)|
  {
    n := |t|;
    assert t[..n] == t;
    while TrailingWhite(t[..n]) != 0
      invariant n <= |t| && TrimEnd(t[..n]) == TrimEnd(t)
      decreases n
    {
      var k := TrailingWhite(t[..n]);
      assert t[..n][..n - k] == t[..n - k];
      n := n - k;
    }
  }

  /** `splice_object`: build the inserted body piece by piece. */
  method SpliceObject(text: string, close: nat, member: string, indent: nat, closeIndent: nat) returns (r: string)
    requires close <= |text|
    ensures r == Splice(text, close, member, indent, closeIndent)
  {
    var n := TrimEndLoop(text[..close]);
    var prefix, suffix := text[..close][..n], text[close..];
    assert prefix == Kept(text, close);
    var body := SpliceBody(prefix, member, indent, closeIndent);
    r := prefix + body + suffix;
    Regrouped(prefix, Comma(prefix), Inserted(member, indent, closeIndent), suffix);
  }

  lemma Regrouped(p: string, comma: string, inserted: string, suffix: string)
    ensures p + (comma + inserted) + suffix == p + comma + inserted + suffix
  {
  }

  method SpliceBody(prefix: string, member: string, indent: nat, closeIndent: nat) returns (body: string)
    ensures body == Comma(prefix) + Inserted(member, indent, closeIndent)
  {
    hide Spaces;
    body := "";
    if prefix == "" || (prefix[|prefix| - 1] != '{' && prefix[|prefix| - 1] != ',') {
      body := body + ",";
    }
    ghost var comma := body;
    body := body + "\n";
    var pad := SpaceString(indent);
    body := body + pad;
    body := body + member;
    body := body + "\n";
    var closePad := SpaceString(closeIndent);
    body := body + closePad;
    assert comma == Comma(prefix);
    BodyParts(comma, pad, member, closePad);
  }

  lemma BodyParts(comma: string, pad: string, member: string, end: string)
    ensures comma + "\n" + pad + member + "\n" + end == comma + ("\n" + pad + member + "\n" + end)
  {
  }

  method EnsureRegisteredInText(text: string, reg: Registration) returns (r: Outcome)
    ensures r == EnsureRegistered(text, reg)
  {
    var start := SkipTriviaLoop(text, 0);
    if !(start < |text| && text[start] == '{') { return Refused(NotAnObject); }
    var rootClose := MatchingDelimLoop(text, start);
    if rootClose == None { return Refused(NotAnObject); }
    var value := MemberValueLoop(text, start, rootClose.value, AGENT_SERVERS);
    if value == None {
      var new_text := SpliceObject(text, rootClose.value, ServersBlock(reg), 2, 0);
      return Updated(new_text);
    }
    if value.value < |text| && text[value.value] == '{' {
      var end := MatchingDelimLoop(text, value.value);
      if end == None { return Refused(UnterminatedServers); }
      var own := MemberValueLoop(text, value.value, end.value, SERVER_ID);
      if own.Some? { return AlreadyRegistered; }
      var new_text := SpliceObject(text, end.value, Member(reg, 4), 4, 2);
      return Updated(new_text);
    }
    return Refused(ServersNotAnObject);
  }
}
