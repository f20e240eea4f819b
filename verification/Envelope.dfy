/** The result envelope of an invocation: native content and diagnostics in one JSON text of at most
    1 MiB, with a compact error in place of what does not fit.
 */
module Envelope {
  import opened Wrappers
  import opened Json
  import Decimal

  const MAX_JSON := 1_048_576

  // ---------------------------------------------------------------- pieces

  /** A byte that continues a UTF-8 character. */
  predicate Continuation(c: char) {
    '\U{80}' <= c < '\U{C0}'
  }

  function Boundary(s: string, end: nat): (r: nat)
    requires end <= |s|
    ensures r <= end && (r == 0 || r == |s| || !Continuation(s[r]))
  {
    if end == 0 || end == |s| || !Continuation(s[end]) then end else Boundary(s, end - 1)
  }

  /** At most `max` bytes of the text, cut between characters. */
  function Bounded(s: string, max: nat): (r: string)
    ensures r <= s && |r| <= max
  {
    s[..Boundary(s, if |s| < max then |s| else max)]
  }

  function Taken(j: Json, name: string): Option<Json> {
    if Has(j, name) then Some(Field(j, name)) else None
  }

  predicate Successful(value: Json) {
    Field(value, "status") == String("completed") || Field(value, "status") == String("terminated")
  }

  function TextBlock(text: string): Json {
    Object([Member("type", String("text")), Member("text", String(text))])
  }

  function Reason(value: Json): string {
    "codemode error: " +
    Bounded(if Field(value, "error").String? then Field(value, "error").text else "codemode failed", 512)
  }

  // ---------------------------------------------------------------- the envelope

  /** The reference that replaces everything else, when it is valid. */
  function Handoff(value: Json): Option<Json> {
    if !Successful(value) then None
    else match Taken(value, "nativeResultReference")
      case None => None
      case Some(r) =>
        if Field(r, "version") == Number("1") && Field(r, "id").String? && Field(r, "id").text != "" then
          Some(Object([Member("$rpiToolResult", Number("1")),
                       Member("isError", Bool(Field(value, "isError") == Bool(true))),
                       Member("resultReference", r)]))
        else None
  }

  /** The summary without the native parts, which move into the envelope. */
  function Diagnostics(value: Json): Json {
    var v := if Successful(value) then Removed(value, "nativeResultReference") else value;
    Removed(Removed(Removed(v, "nativeResult"), "nativeContentParts"), "nativeContent")
  }

  predicate IsError(d: Json) {
    Field(d, "isError") == Bool(true) || (Has(d, "status") && !Successful(d))
  }

  predicate Terminates(d: Json) {
    Field(d, "terminate") == Bool(true)
  }

  function Content(d: Json, content: Option<Json>): Json {
    match content
    case Some(Array(blocks)) => Array(if IsError(d) then blocks + [TextBlock(Reason(d))] else blocks)
    case Some(other) => other
    case None => Array([TextBlock(Encode(d))])
  }

  function Native(d: Json, exact: Option<Json>, content: Json): Json {
    var t := Member("terminate", Bool(Terminates(d)));
    if exact.Some? && Field(d, "status") == String("completed") then
      Object([Member("content", Field(exact.value, "content")), Member("details", Field(exact.value, "details")), t])
    else Object([Member("content", content), Member("details", d), t])
  }

  function Full(d: Json, exact: Option<Json>, parts: Option<Json>, content: Option<Json>): Json {
    var head := [Member("$rpiToolResult", Number("1")), Member("isError", Bool(IsError(d)))];
    if parts.Some? && parts.value.Array? then
      var all := parts.value.items +
        if IsError(d) then [Object([Member("content", Array([TextBlock(Reason(d))]))])] else [];
      Object(head + [Member("result", Object([Member("details", d), Member("terminate", Bool(Terminates(d)))])),
                     Member("contentParts", Array(all))])
    else
      Object(head + [Member("result", Native(d, exact, Content(d, content)))])
  }

  const TOO_LARGE := "encoded codemode output exceeds 1 MiB (including text/structured framing)"

  function SummaryWith(d: Json, logs: Json, calls: Json): Json {
    Object([Member("status", String("error")), Member("result", Null), Member("error", String(TOO_LARGE)),
            Member("logs", logs), Member("calls", calls), Member("durationMs", Field(d, "durationMs")),
            Member("terminate", Bool(Terminates(d)))])
  }

  /** The compact summary keeps logs and calls only while it stays below a quarter of the limit. */
  function Summary(d: Json): Json {
    var s := SummaryWith(d, Field(d, "logs"), Field(d, "calls"));
    if |Encode(s)| > MAX_JSON / 4 then SummaryWith(d, Array([]), Array([])) else s
  }

  function Compact(d: Json): Json {
    var s := Summary(d);
    Object([Member("$rpiToolResult", Number("1")), Member("isError", Bool(true)),
            Member("result", Object([Member("content", Array([TextBlock(Encode(s))])), Member("details", s),
                                     Member("terminate", Bool(Terminates(d)))]))])
  }

  function FullOf(value: Json): Json {
    var v := if Successful(value) then Removed(value, "nativeResultReference") else value;
    var v1 := Removed(v, "nativeResult");
    var v2 := Removed(v1, "nativeContentParts");
    Full(Diagnostics(value), Taken(v, "nativeResult"), Taken(v1, "nativeContentParts"), Taken(v2, "nativeContent"))
  }

  /** `tool_result`, before it is written out. */
  function Envelope(value: Json): Json {
    if Handoff(value).Some? then Handoff(value).value
    else if |Encode(FullOf(value))| <= MAX_JSON then FullOf(value)
    else Compact(Diagnostics(value))
  }

  // ---------------------------------------------------------------- sizes

  lemma MembersCons(m: Member, rest: seq<Member>)
    requires rest != []
    ensures |EncodeMembers([m] + rest)| == |EncodeMember(m)| + 1 + |EncodeMembers(rest)|
  {
    assert ([m] + rest)[1..] == rest;
  }

  lemma MembersOne(m: Member)
    ensures |EncodeMembers([m])| == |EncodeMember(m)|
  {
  }

  lemma MemberSize(name: string, v: Json)
    requires Unescaped(name)
    ensures |EncodeMember(Member(name, v))| == |name| + 3 + |Encode(v)|
  {
    QuotedSize(name);
    hide Encode;
  }

  lemma TwoMembers(a: string, x: Json, b: string, y: Json)
    requires Unescaped(a) && Unescaped(b)
    ensures |Encode(Object([Member(a, x), Member(b, y)]))| == |a| + |b| + 9 + |Encode(x)| + |Encode(y)|
  {
    MemberSize(a, x);
    MemberSize(b, y);
    MembersOne(Member(b, y));
    MembersCons(Member(a, x), [Member(b, y)]);
    ObjectSize([Member(a, x)] + [Member(b, y)]);
    hide *;
    assert [Member(a, x)] + [Member(b, y)] == [Member(a, x), Member(b, y)];
  }

  lemma ThreeMembers(a: string, x: Json, b: string, y: Json, c: string, z: Json)
    requires Unescaped(a) && Unescaped(b) && Unescaped(c)
    ensures |Encode(Object([Member(a, x), Member(b, y), Member(c, z)]))| ==
            |a| + |b| + |c| + 13 + |Encode(x)| + |Encode(y)| + |Encode(z)|
  {
    TwoMembers(b, y, c, z);
    MemberSize(a, x);
    MembersCons(Member(a, x), [Member(b, y), Member(c, z)]);
    ObjectSize([Member(a, x)] + [Member(b, y), Member(c, z)]);
    ObjectSize([Member(b, y), Member(c, z)]);
    hide *;
    assert [Member(a, x)] + [Member(b, y), Member(c, z)] == [Member(a, x), Member(b, y), Member(c, z)];
  }

  lemma ObjectSize(members: seq<Member>)
    ensures |Encode(Object(members))| == 2 + |EncodeMembers(members)|
  {
    hide EncodeMembers;
  }

  lemma ArrayOne(x: Json)
    ensures |Encode(Array([x]))| == 2 + |Encode(x)| && |Encode(Array([]))| == 2
  {
    assert EncodeItems([x]) == Encode(x);
  }

  lemma SmallSizes(b: bool)
    ensures |Encode(Bool(b))| <= 5 && |Encode(Number("1"))| == 1 && |Encode(Null)| == 4
  {
  }

  lemma Names()
    ensures Unescaped("type") && Unescaped("text") && Unescaped("content") && Unescaped("details") &&
            Unescaped("terminate")
    ensures Unescaped("$rpiToolResult") && Unescaped("isError") && Unescaped("result") && Unescaped("status")
    ensures Unescaped("error") && Unescaped("logs") && Unescaped("calls") && Unescaped("durationMs")
  {
  }

  lemma Notice()
    ensures |TOO_LARGE| == 73
  {
  }

  lemma LogsSize(d: Json, logs: Json, calls: Json, tail: seq<Member>)
    requires tail == [Member("logs", logs), Member("calls", calls), Member("durationMs", Field(d, "durationMs")),
                      Member("terminate", Bool(Terminates(d)))]
    ensures |EncodeMembers(tail)| <= |Encode(logs)| + |Encode(calls)| + |Encode(Field(d, "durationMs"))| + 48
  {
    hide *;
    Names();
    SmallSizes(Terminates(d));
    TwoMembers("durationMs", Field(d, "durationMs"), "terminate", Bool(Terminates(d)));
    var two := [Member("durationMs", Field(d, "durationMs")), Member("terminate", Bool(Terminates(d)))];
    ObjectSize(two);
    MemberSize("calls", calls);
    MembersCons(Member("calls", calls), two);
    MemberSize("logs", logs);
    MembersCons(Member("logs", logs), [Member("calls", calls)] + two);
    assert [Member("logs", logs)] + ([Member("calls", calls)] + two) == tail;
  }

  lemma SummarySize(d: Json, logs: Json, calls: Json)
    ensures |Encode(SummaryWith(d, logs, calls))| <= |Encode(logs)| + |Encode(calls)| +
            |Encode(Field(d, "durationMs"))| + 540
  {
    hide *;
    Names();
    Notice();
    SmallSizes(true);
    var tail := [Member("logs", logs), Member("calls", calls), Member("durationMs", Field(d, "durationMs")),
                 Member("terminate", Bool(Terminates(d)))];
    LogsSize(d, logs, calls, tail);
    StringAtMost(TOO_LARGE);
    StringSize("error");
    MemberSize("error", String(TOO_LARGE));
    MembersCons(Member("error", String(TOO_LARGE)), tail);
    MemberSize("result", Null);
    MembersCons(Member("result", Null), [Member("error", String(TOO_LARGE))] + tail);
    MemberSize("status", String("error"));
    var all := [Member("status", String("error"))] +
        ([Member("result", Null)] + ([Member("error", String(TOO_LARGE))] + tail));
    MembersCons(Member("status", String("error")),
                [Member("result", Null)] + ([Member("error", String(TOO_LARGE))] + tail));
    ObjectSize(all);
    SummaryIs(d, logs, calls, all);
  }

  lemma SummaryIs(d: Json, logs: Json, calls: Json, all: seq<Member>)
    requires all == [Member("status", String("error"))] +
             ([Member("result", Null)] + ([Member("error", String(TOO_LARGE))] +
                    [Member("logs", logs), Member("calls", calls), Member("durationMs", Field(d, "durationMs")),
                     Member("terminate", Bool(Terminates(d)))]))
    ensures SummaryWith(d, logs, calls) == Object(all)
  {
    hide Field;
  }

  lemma SummaryOk(d: Json, logs: Json, calls: Json)
    requires WellFormed(d) && WellFormed(logs) && WellFormed(calls)
    ensures WellFormed(SummaryWith(d, logs, calls))
  {
    FieldIsWellFormed(d, "durationMs");
    hide Field, Clean;
  }

  /** A compact envelope is three times its summary, at most, plus a fixed frame. */
  lemma CompactSize(d: Json)
    requires WellFormed(d)
    ensures |Encode(Compact(d))| <= 3 * |Encode(Summary(d))| + 140
  {
    var s := Summary(d);
    SummaryIsOk(d);
    hide *;
    Names();
    SmallSizes(true);
    SmallSizes(Terminates(d));
    EncodedTwice(s);
    StringSize("text");
    TwoMembers("type", String("text"), "text", String(Encode(s)));
    ArrayOne(Object([Member("type", String("text")), Member("text", String(Encode(s)))]));
    var content := Array([Object([Member("type", String("text")), Member("text", String(Encode(s)))])]);
    ThreeMembers("content", content, "details", s, "terminate", Bool(Terminates(d)));
    var result := Object([Member("content", content), Member("details", s), Member("terminate", Bool(Terminates(d)))]);
    ThreeMembers("$rpiToolResult", Number("1"), "isError", Bool(true), "result", result);
    CompactIs(d, s, content, result);
  }

  lemma CompactIs(d: Json, s: Json, content: Json, result: Json)
    requires s == Summary(d)
    requires content == Array([Object([Member("type", String("text")), Member("text", String(Encode(s)))])])
    requires result == Object([Member("content", content), Member("details", s),
                               Member("terminate", Bool(Terminates(d)))])
    ensures Compact(d) == Object([Member("$rpiToolResult", Number("1")), Member("isError", Bool(true)),
                                  Member("result", result)])
  {
    hide Summary, Encode, Terminates;
  }

  lemma SummaryIsOk(d: Json)
    requires WellFormed(d)
    ensures WellFormed(Summary(d))
  {
    FieldIsWellFormed(d, "logs");
    FieldIsWellFormed(d, "calls");
    SummaryOk(d, Field(d, "logs"), Field(d, "calls"));
    EmptyOk();
    SummaryOk(d, Array([]), Array([]));
    hide WellFormed, SummaryWith, Encode, Field;
  }

  lemma EmptyOk()
    ensures WellFormed(Array([]))
  {
  }

  /** The compact summary is a quarter of the limit, at most, or has no logs and calls. */
  lemma SummaryBound(d: Json)
    ensures |Encode(Summary(d))| <= MAX_JSON / 4 || |Encode(Summary(d))| <= |Encode(Field(d, "durationMs"))| + 544
  {
    SummarySize(d, Array([]), Array([]));
    ArrayOne(Null);
    hide SummaryWith, Encode, Field;
  }

  // ---------------------------------------------------------------- the promises

  lemma DiagnosticsOk(value: Json)
    requires WellFormed(value)
    ensures WellFormed(Diagnostics(value)) && Field(Diagnostics(value), "durationMs") == Field(value, "durationMs")
    ensures Field(Diagnostics(value), "terminate") == Field(value, "terminate")
  {
    hide WellFormed, Field, Removed, Successful;
    var v := if Successful(value) then Removed(value, "nativeResultReference") else value;
    RemovedKeeps(value, "nativeResultReference", "durationMs");
    RemovedKeeps(value, "nativeResultReference", "terminate");
    RemovedKeeps(v, "nativeResult", "durationMs");
    RemovedKeeps(v, "nativeResult", "terminate");
    var v1 := Removed(v, "nativeResult");
    RemovedKeeps(v1, "nativeContentParts", "durationMs");
    RemovedKeeps(v1, "nativeContentParts", "terminate");
    var v2 := Removed(v1, "nativeContentParts");
    RemovedKeeps(v2, "nativeContent", "durationMs");
    RemovedKeeps(v2, "nativeContent", "terminate");
  }

  /** What the engine returns: an execution's summary carries its duration as a 64-bit number, and a
      catalog page carries none. */
  predicate FromEngine(value: Json) {
    var d := Field(value, "durationMs");
    d == Null || exists n: nat | n < Decimal.WORD_LIMIT :: d == Number(Decimal.Padded(n, 1))
  }

  lemma ShortDuration(value: Json)
    requires FromEngine(value)
    ensures |Encode(Field(value, "durationMs"))| <= 20
  {
    hide Field;
    var d := Field(value, "durationMs");
    if d != Null {
      var n: nat :| n < Decimal.WORD_LIMIT && d == Number(Decimal.Padded(n, 1));
      Decimal.WordDigits(n);
    }
  }

  /** Every envelope other than the reference hand-off fits in 1 MiB, whatever the invocation
      produced. */
  lemma EnvelopeFits(value: Json)
    requires WellFormed(value) && FromEngine(value) && Handoff(value).None?
    ensures |Encode(Envelope(value))| <= MAX_JSON
  {
    ShortDuration(value);
    DiagnosticsOk(value);
    CompactSize(Diagnostics(value));
    SummaryBound(Diagnostics(value));
    hide *;
    EnvelopeCases(value);
  }

  lemma EnvelopeCases(value: Json)
    requires Handoff(value).None?
    ensures |Encode(FullOf(value))| <= MAX_JSON ==> Envelope(value) == FullOf(value)
    ensures |Encode(FullOf(value))| > MAX_JSON ==> Envelope(value) == Compact(Diagnostics(value))
  {
    hide Encode, FullOf, Compact, Diagnostics, Handoff;
  }

  /** What the host reads off an envelope. */
  function Terminating(envelope: Json): Json {
    Field(Field(envelope, "result"), "terminate")
  }

  lemma FieldCons(m: Member, rest: seq<Member>, name: string)
    ensures FieldOf([m] + rest, name) == if m.name == name then m.value else FieldOf(rest, name)
  {
    assert ([m] + rest)[1..] == rest;
  }

  lemma HeadFields(a: Json, b: Json, r: Json, rest: seq<Member>)
    ensures var e := Object([Member("$rpiToolResult", a), Member("isError", b), Member("result", r)] + rest);
            Field(e, "isError") == b && Field(e, "result") == r
  {
    hide FieldOf;
    var x, y, z := Member("$rpiToolResult", a), Member("isError", b), Member("result", r);
    assert [x, y, z] + rest == [x] + ([y] + ([z] + rest));
    FieldCons(x, [y] + ([z] + rest), "isError");
    FieldCons(y, [z] + rest, "isError");
    FieldCons(x, [y] + ([z] + rest), "result");
    FieldCons(y, [z] + rest, "result");
    FieldCons(z, rest, "result");
  }

  lemma LastField(a: string, x: Json, b: string, y: Json, t: Json)
    requires a != "terminate" && b != "terminate"
    ensures Field(Object([Member(a, x), Member(b, y), Member("terminate", t)]), "terminate") == t
    ensures Field(Object([Member(b, y), Member("terminate", t)]), "terminate") == t
  {
    hide FieldOf;
    var m, n, last := Member(a, x), Member(b, y), Member("terminate", t);
    assert [m, n, last] == [m] + ([n] + ([last] + [])) && [n, last] == [n] + ([last] + []);
    FieldCons(m, [n] + ([last] + []), "terminate");
    FieldCons(n, [last] + [], "terminate");
    FieldCons(last, [], "terminate");
  }

  lemma FullFields(d: Json, exact: Option<Json>, parts: Option<Json>, content: Option<Json>)
    ensures var e := Full(d, exact, parts, content);
            Field(e, "isError") == Bool(IsError(d)) && Terminating(e) == Bool(Terminates(d))
  {
    hide Field, IsError, Terminates, Content;
    var n, t := Number("1"), Bool(Terminates(d));
    assert "content" != "terminate" && "details" != "terminate";
    if parts.Some? && parts.value.Array? {
      var r := Object([Member("details", d), Member("terminate", t)]);
      LastField("content", Null, "details", d, t);
      var all := parts.value.items +
        if IsError(d) then [Object([Member("content", Array([TextBlock(Reason(d))]))])] else [];
      HeadFields(n, Bool(IsError(d)), r, [Member("contentParts", Array(all))]);
      assert [Member("$rpiToolResult", n), Member("isError", Bool(IsError(d)))] +
             [Member("result", r), Member("contentParts", Array(all))]
          == [Member("$rpiToolResult", n), Member("isError", Bool(IsError(d))), Member("result", r)] +
              [Member("contentParts", Array(all))];
    } else {
      var c := Content(d, content);
      LastField("content", c, "details", d, t);
      if exact.Some? {
        LastField("content", Field(exact.value, "content"), "details", Field(exact.value, "details"), t);
      }
      HeadFields(n, Bool(IsError(d)), Native(d, exact, c), []);
      assert [Member("$rpiToolResult", n), Member("isError", Bool(IsError(d)))] +
             [Member("result", Native(d, exact, c))]
          == [Member("$rpiToolResult", n), Member("isError", Bool(IsError(d))),
              Member("result", Native(d, exact, c))] + [];
    }
  }

  lemma CompactFields(d: Json)
    ensures Field(Compact(d), "isError") == Bool(true) && Terminating(Compact(d)) == Bool(Terminates(d))
  {
    hide Field, Summary, Encode, Terminates;
    var s := Summary(d);
    var t := Bool(Terminates(d));
    var r := Object([Member("content", Array([TextBlock(Encode(s))])), Member("details", s), Member("terminate", t)]);
    LastField("content", Array([TextBlock(Encode(s))]), "details", s, t);
    HeadFields(Number("1"), Bool(true), r, []);
    assert [Member("$rpiToolResult", Number("1")), Member("isError", Bool(true)), Member("result", r)] + [] ==
           [Member("$rpiToolResult", Number("1")), Member("isError", Bool(true)), Member("result", r)];
  }

  /** No envelope but the hand-off loses the termination request, a failure is never reported as a
      success, and what does not fit is always reported as an error. */
  lemma EnvelopeKeeps(value: Json)
    requires Handoff(value).None? && WellFormed(value)
    ensures Terminating(Envelope(value)) == Bool(Field(value, "terminate") == Bool(true))
    ensures IsError(Diagnostics(value)) ==> Field(Envelope(value), "isError") == Bool(true)
    ensures |Encode(FullOf(value))| > MAX_JSON ==> Field(Envelope(value), "isError") == Bool(true)
    ensures |Encode(FullOf(value))| <= MAX_JSON ==>
            Field(Envelope(value), "isError") == Bool(IsError(Diagnostics(value)))
  {
    hide Encode, Full, Compact, Diagnostics, Handoff, Field, IsError, WellFormed, Taken;
    DiagnosticsOk(value);
    var v := if Successful(value) then Removed(value, "nativeResultReference") else value;
    var v1 := Removed(v, "nativeResult");
    var v2 := Removed(v1, "nativeContentParts");
    FullFields(Diagnostics(value), Taken(v, "nativeResult"), Taken(v1, "nativeContentParts"),
               Taken(v2, "nativeContent"));
    CompactFields(Diagnostics(value));
  }

  // ---------------------------------------------------------------- the source's method

  /** `tool_result`: take the native fields out of the value one by one, build the envelope, and
      fall back to the compact one. */
  method ToolResult(input: Json) returns (text: string)
    ensures text == Encode(Envelope(input))
  {
    hide Encode, Field, Removed, Content, Native, Summary, IsError, Terminates, Reason;
    var value := input;
    if Field(value, "status") == String("completed") || Field(value, "status") == String("terminated") {
      var reference := Taken(value, "nativeResultReference");
      value := Removed(value, "nativeResultReference");
      if reference.Some? {
        var r := reference.value;
        if Field(r, "version") == Number("1") && Field(r, "id").String? && Field(r, "id").text != "" {
          return Encode(Object([Member("$rpiToolResult", Number("1")),
                                Member("isError", Bool(Field(input, "isError") == Bool(true))),
                                Member("resultReference", r)]));
        }
      }
    }
    assert Handoff(input).None?;
    var exact := Taken(value, "nativeResult");
    value := Removed(value, "nativeResult");
    var parts := Taken(value, "nativeContentParts");
    value := Removed(value, "nativeContentParts");
    var content := Taken(value, "nativeContent");
    value := Removed(value, "nativeContent");
    assert value == Diagnostics(input);
    var isError, terminate := IsError(value), Terminates(value);
    var encoded: string;
    if parts.Some? && parts.value.Array? {
      var all := parts.value.items;
      if isError { all := all + [Object([Member("content", Array([TextBlock(Reason(value))]))])]; }
      PartsShape(value, exact, parts, content, all);
      encoded := Encode(Object([Member("$rpiToolResult", Number("1")), Member("isError", Bool(isError)),
                                Member("result", Object([Member("details", value),
                                                               Member("terminate", Bool(terminate))])),
                                Member("contentParts", Array(all))]));
    } else {
      var native := Native(value, exact, Content(value, content));
      NativeShape(value, exact, parts, content);
      encoded := Encode(Object([Member("$rpiToolResult", Number("1")), Member("isError", Bool(isError)),
                               Member("result", native)]));
    }
    assert encoded == Encode(FullOf(input));
    if |encoded| <= MAX_JSON { return encoded; }
    return Encode(Compact(value));
  }

  lemma PartsShape(d: Json, exact: Option<Json>, parts: Option<Json>, content: Option<Json>, all: seq<Json>)
    requires parts.Some? && parts.value.Array?
    requires all == if IsError(d) then parts.value.items + [Object([Member("content", Array([TextBlock(Reason(d))]))])]
                    else parts.value.items
    ensures Full(d, exact, parts, content) ==
            Object([Member("$rpiToolResult", Number("1")), Member("isError", Bool(IsError(d))),
                    Member("result", Object([Member("details", d), Member("terminate", Bool(Terminates(d)))])),
                    Member("contentParts", Array(all))])
  {
    hide IsError, Terminates, Reason;
    assert parts.value.items + [] == parts.value.items;
  }

  lemma NativeShape(d: Json, exact: Option<Json>, parts: Option<Json>, content: Option<Json>)
    requires !(parts.Some? && parts.value.Array?)
    ensures Full(d, exact, parts, content) ==
            Object([Member("$rpiToolResult", Number("1")), Member("isError", Bool(IsError(d))),
                    Member("result", Native(d, exact, Content(d, content)))])
  {
    hide IsError, Native, Content;
  }
}
