/** What the host reads off the text of an invocation: the value that the text means, and what stands at
    each of its fields, in every shape that the envelope can take.
 */
module EnvelopeReads {
  import opened Wrappers
  import opened Json
  import opened JsonReader
  import opened Envelope

  // ---------------------------------------------------------------- fields of an object

  lemma {:induction false} FieldAt(members: seq<Member>, name: string, k: nat)
    requires k < |members| && members[k].name == name && forall j :: 0 <= j < k ==> members[j].name != name
    ensures FieldOf(members, name) == members[k].value
    decreases k
  {
    if k > 0 { FieldAt(members[1..], name, k - 1); }
  }

  lemma ObjectField(members: seq<Member>, name: string, k: nat)
    requires k < |members| && members[k].name == name && forall j :: 0 <= j < k ==> members[j].name != name
    ensures Field(Object(members), name) == members[k].value && Has(Object(members), name)
  {
    FieldAt(members, name, k);
    assert members[k] in members;
  }

  lemma {:induction false} DropHas(members: seq<Member>, name: string, other: string)
    ensures FieldOf(DropFrom(members, name), other) == if other == name then Null else FieldOf(members, other)
    ensures Has(Object(DropFrom(members, name)), other) <==> other != name && Has(Object(members), other)
    decreases |members|
  {
    if members != [] {
      DropHas(members[1..], name, other);
      var rest := DropFrom(members[1..], name);
      assert members == [members[0]] + members[1..];
      assert forall m :: m in members <==> m == members[0] || m in members[1..];
      assert forall m :: m in [members[0]] + rest <==> m == members[0] || m in rest;
    }
  }

  lemma RemovedReads(j: Json, name: string, other: string)
    ensures Field(Removed(j, name), other) == if other == name then Null else Field(j, other)
    ensures Has(Removed(j, name), other) <==> other != name && Has(j, other)
  {
    if j.Object? {
      DropHas(j.members, name, other);
      assert Object(j.members) == j;
    }
  }

  // ---------------------------------------------------------------- the diagnostics

  /** The fields that move into the envelope. */
  predicate Moves(value: Json, name: string) {
    || name == "nativeResult" || name == "nativeContentParts" || name == "nativeContent"
    || (name == "nativeResultReference" && Succeeded(value))
  }

  predicate Succeeded(value: Json) {
    Field(value, "status") == String("completed") || Field(value, "status") == String("terminated")
  }

  /** `d` shows every field of the value that does not move, and no other. */
  ghost predicate Shows(d: Json, value: Json) {
    forall name ::
      && Field(d, name) == (if Moves(value, name) then Null else Field(value, name))
      && (Has(d, name) <==> !Moves(value, name) && Has(value, name))
  }

  lemma DiagnosticsShow(value: Json)
    ensures Shows(Diagnostics(value), value)
  {
    hide Field, Has, Removed;
    var v := if Successful(value) then Removed(value, "nativeResultReference") else value;
    var v1 := Removed(v, "nativeResult");
    var v2 := Removed(v1, "nativeContentParts");
    forall name
      ensures Field(Diagnostics(value), name) == if Moves(value, name) then Null else Field(value, name)
      ensures Has(Diagnostics(value), name) <==> !Moves(value, name) && Has(value, name)
    {
      RemovedReads(value, "nativeResultReference", name);
      RemovedReads(v, "nativeResult", name);
      RemovedReads(v1, "nativeContentParts", name);
      RemovedReads(v2, "nativeContent", name);
    }
  }

  /** The parts of the envelope are those of the value. */
  lemma TakenParts(value: Json)
    ensures var v := if Successful(value) then Removed(value, "nativeResultReference") else value;
            var v1 := Removed(v, "nativeResult");
            var v2 := Removed(v1, "nativeContentParts");
            && Taken(v, "nativeResult") == Taken(value, "nativeResult")
            && Taken(v1, "nativeContentParts") == Taken(value, "nativeContentParts")
            && Taken(v2, "nativeContent") == Taken(value, "nativeContent")
  {
    hide Field, Has, Removed;
    var v := if Successful(value) then Removed(value, "nativeResultReference") else value;
    var v1 := Removed(v, "nativeResult");
    RemovedReads(value, "nativeResultReference", "nativeResult");
    RemovedReads(value, "nativeResultReference", "nativeContentParts");
    RemovedReads(value, "nativeResultReference", "nativeContent");
    RemovedReads(v, "nativeResult", "nativeContentParts");
    RemovedReads(v, "nativeResult", "nativeContent");
    RemovedReads(v1, "nativeContentParts", "nativeContent");
  }

  /** An invocation is reported as an error when it says so, or when it has a status that is neither
      completed nor terminated. */
  predicate Errs(value: Json) {
    Field(value, "isError") == Bool(true) || (Has(value, "status") && !Succeeded(value))
  }

  lemma DiagnosticsFlags(value: Json)
    ensures IsError(Diagnostics(value)) <==> Errs(value)
    ensures Terminates(Diagnostics(value)) <==> Field(value, "terminate") == Bool(true)
    ensures Field(Diagnostics(value), "status") == Field(value, "status")
    ensures Field(Diagnostics(value), "error") == Field(value, "error")
    ensures Field(Diagnostics(value), "logs") == Field(value, "logs")
    ensures Field(Diagnostics(value), "calls") == Field(value, "calls")
    ensures Field(Diagnostics(value), "durationMs") == Field(value, "durationMs")
  {
    DiagnosticsShow(value);
    hide Field, Has, Diagnostics;
    var d := Diagnostics(value);
    assert Field(d, "isError") == Field(value, "isError") && Field(d, "terminate") == Field(value, "terminate");
    assert Field(d, "status") == Field(value, "status") && (Has(d, "status") <==> Has(value, "status"));
    assert Field(d, "error") == Field(value, "error") && Field(d, "logs") == Field(value, "logs");
    assert Field(d, "calls") == Field(value, "calls") && Field(d, "durationMs") == Field(value, "durationMs");
  }

  // ---------------------------------------------------------------- the reason of a failure

  /** `r` is the longest front of `s` of at most `max` bytes that does not cut a character. */
  predicate CutOf(r: string, s: string, max: nat) {
    && r <= s && |r| <= max && (|s| <= max ==> r == s)
    && (|r| < |s| && r != "" ==> !Continuation(s[|r|]))
    && forall k :: |r| < k < |s| && k <= max ==> Continuation(s[k])
  }

  lemma {:induction false} BoundaryIsLast(s: string, end: nat)
    requires end <= |s|
    ensures forall k :: Boundary(s, end) < k <= end && k < |s| ==> Continuation(s[k])
    ensures end == |s| ==> Boundary(s, end) == end
    decreases end
  {
    if end > 0 && end < |s| && Continuation(s[end]) { BoundaryIsLast(s, end - 1); }
  }

  lemma BoundedIsCut(s: string, max: nat)
    ensures CutOf(Bounded(s, max), s, max)
  {
    BoundaryIsLast(s, if |s| < max then |s| else max);
    hide Continuation, Boundary;
  }

  /** The text block that tells why an invocation failed. */
  ghost predicate TellsReason(block: Json, value: Json) {
    && Field(block, "type") == String("text") && Field(block, "text").String?
    && exists cut :: Field(block, "text").text == "codemode error: " + cut
                     && CutOf(cut, if Field(value, "error").String? then Field(value, "error").text
                                   else "codemode failed", 512)
  }

  lemma BlockReads(text: string)
    ensures Field(TextBlock(text), "type") == String("text") && Field(TextBlock(text), "text") == String(text)
  {
    var members := [Member("type", String("text")), Member("text", String(text))];
    ObjectField(members, "type", 0);
    ObjectField(members, "text", 1);
  }

  lemma ReasonTold(value: Json)
    ensures TellsReason(TextBlock(Reason(Diagnostics(value))), value)
  {
    DiagnosticsFlags(value);
    var error := Field(value, "error");
    var text := if error.String? then error.text else "codemode failed";
    BoundedIsCut(text, 512);
    BlockReads(Reason(Diagnostics(value)));
    hide Field, Diagnostics, Bounded, CutOf;
    assert Reason(Diagnostics(value)) == "codemode error: " + Bounded(text, 512);
  }

  // ---------------------------------------------------------------- the full envelope

  lemma {:induction false} AbsentIsNull(members: seq<Member>, name: string)
    requires !Has(Object(members), name)
    ensures FieldOf(members, name) == Null
    decreases |members|
  {
    if members != [] {
      assert members[0] in members && forall m :: m in members[1..] ==> m in members;
      AbsentIsNull(members[1..], name);
    }
  }

  lemma TakenIsField(j: Json, name: string)
    ensures Taken(j, name) == (if Has(j, name) then Some(Field(j, name)) else None)
    ensures !Has(j, name) ==> Field(j, name) == Null
  {
    if j.Object? && !Has(j, name) { AbsentIsNull(j.members, name); }
  }

  /** Blocks or parts as they were given, and behind those of an error the reason: `Told` of the last. */
  ghost predicate Given(read: seq<Json>, given: seq<Json>, errs: bool) {
    |read| == |given| + (if errs then 1 else 0) && read[..|given|] == given
  }

  /** A part that holds just the reason. */
  ghost predicate ReasonPart(part: Json, value: Json) {
    var content := Field(part, "content");
    content.Array? && |content.items| == 1 && TellsReason(content.items[0], value)
  }

  ghost predicate PartsRead(parts: Json, value: Json) {
    && parts.Array? && Field(value, "nativeContentParts").Array?
    && Given(parts.items, Field(value, "nativeContentParts").items, Errs(value))
    && (Errs(value) ==> ReasonPart(parts.items[|parts.items| - 1], value))
  }

  /** Native content as it was given, with the reason behind the blocks of an error; without native
      content one text block, whose text means the diagnostics. */
  ghost predicate ContentRead(content: Json, details: Json, value: Json) {
    if !Has(value, "nativeContent") then
      && content.Array? && |content.items| == 1 && Field(content.items[0], "type") == String("text")
      && Field(content.items[0], "text").String? && Read(Field(content.items[0], "text").text) == Some(details)
    else if Field(value, "nativeContent").Array? then
      && content.Array? && Given(content.items, Field(value, "nativeContent").items, Errs(value))
      && (Errs(value) ==> TellsReason(content.items[|content.items| - 1], value))
    else content == Field(value, "nativeContent")
  }

  /** What the host reads off a full envelope. Content parts come with the diagnostics alone; an exact
      result of a completed invocation gives its own content and details; otherwise the content stands
      beside the diagnostics. */
  ghost predicate FullRead(e: Json, value: Json) {
    var result := Field(e, "result");
    && Field(e, "$rpiToolResult") == Number("1") && Field(e, "isError") == Bool(Errs(value))
    && Field(result, "terminate") == Bool(Field(value, "terminate") == Bool(true))
    && if Field(value, "nativeContentParts").Array? then
         PartsRead(Field(e, "contentParts"), value) && Shows(Field(result, "details"), value) && !Has(result, "content")
       else
         && !Has(e, "contentParts")
         && if Has(value, "nativeResult") && Field(value, "status") == String("completed") then
              && Field(result, "content") == Field(Field(value, "nativeResult"), "content")
              && Field(result, "details") == Field(Field(value, "nativeResult"), "details")
            else
              && Shows(Field(result, "details"), value)
              && ContentRead(Field(result, "content"), Field(result, "details"), value)
  }

  lemma ResultFields(content: Json, details: Json, t: Json)
    ensures var r := Object([Member("content", content), Member("details", details), Member("terminate", t)]);
            Field(r, "content") == content && Field(r, "details") == details && Field(r, "terminate") == t
    ensures var r := Object([Member("details", details), Member("terminate", t)]);
            Field(r, "details") == details && Field(r, "terminate") == t && !Has(r, "content")
  {
    var three := [Member("content", content), Member("details", details), Member("terminate", t)];
    ObjectField(three, "content", 0);
    ObjectField(three, "details", 1);
    ObjectField(three, "terminate", 2);
    var two := [Member("details", details), Member("terminate", t)];
    ObjectField(two, "details", 0);
    ObjectField(two, "terminate", 1);
  }

  lemma OuterFields(isError: Json, result: Json, parts: Json)
    ensures var e := Object([Member("$rpiToolResult", Number("1")), Member("isError", isError),
                             Member("result", result), Member("contentParts", parts)]);
            && Field(e, "$rpiToolResult") == Number("1") && Field(e, "isError") == isError
            && Field(e, "result") == result && Field(e, "contentParts") == parts
    ensures var e := Object([Member("$rpiToolResult", Number("1")), Member("isError", isError),
                             Member("result", result)]);
            && Field(e, "$rpiToolResult") == Number("1") && Field(e, "isError") == isError
            && Field(e, "result") == result && !Has(e, "contentParts")
  {
    var four := [Member("$rpiToolResult", Number("1")), Member("isError", isError), Member("result", result),
                 Member("contentParts", parts)];
    ObjectField(four, "$rpiToolResult", 0);
    ObjectField(four, "isError", 1);
    ObjectField(four, "result", 2);
    ObjectField(four, "contentParts", 3);
    var three := [Member("$rpiToolResult", Number("1")), Member("isError", isError), Member("result", result)];
    ObjectField(three, "$rpiToolResult", 0);
    ObjectField(three, "isError", 1);
    ObjectField(three, "result", 2);
  }

  lemma PartReads(value: Json)
    ensures ReasonPart(Object([Member("content", Array([TextBlock(Reason(Diagnostics(value)))]))]), value)
  {
    var block := TextBlock(Reason(Diagnostics(value)));
    ReasonTold(value);
    ObjectField([Member("content", Array([block]))], "content", 0);
    hide TellsReason, Field, TextBlock, Reason;
  }

  lemma ContentReads(value: Json)
    requires WellFormed(Diagnostics(value))
    ensures ContentRead(Content(Diagnostics(value), Taken(value, "nativeContent")), Diagnostics(value), value)
  {
    var d := Diagnostics(value);
    TakenIsField(value, "nativeContent");
    DiagnosticsFlags(value);
    ReasonTold(value);
    BlockReads(Encode(d));
    ReadsBack(d);
    hide Field, Has, Diagnostics, Taken, Errs, IsError, TellsReason, TextBlock, Reason, Encode, Read;
  }

  /** A full envelope is read as it was meant, whatever the invocation produced. */
  lemma FullReads(value: Json)
    requires WellFormed(value)
    ensures FullRead(FullOf(value), value)
  {
    hide *;
    var d := Diagnostics(value);
    DiagnosticsOk(value);
    DiagnosticsFlags(value);
    DiagnosticsShow(value);
    FullParts(value);
    var exact, parts, content := Taken(value, "nativeResult"), Taken(value, "nativeContentParts"),
                                 Taken(value, "nativeContent");
    TakenIsField(value, "nativeResult");
    TakenIsField(value, "nativeContentParts");
    if parts.Some? && parts.value.Array? {
      PartsFull(value, d, exact, parts, content);
    } else {
      NativeFull(value, d, exact, parts, content);
    }
  }

  lemma FullParts(value: Json)
    ensures FullOf(value) == Full(Diagnostics(value), Taken(value, "nativeResult"),
                                  Taken(value, "nativeContentParts"), Taken(value, "nativeContent"))
  {
    TakenParts(value);
    hide Full, Diagnostics, Taken, Removed;
  }

  lemma PartsFull(value: Json, d: Json, exact: Option<Json>, parts: Option<Json>, content: Option<Json>)
    requires d == Diagnostics(value) && Shows(d, value) && (IsError(d) <==> Errs(value))
    requires Terminates(d) <==> Field(value, "terminate") == Bool(true)
    requires parts.Some? && parts.value.Array? && parts.value == Field(value, "nativeContentParts")
    ensures FullRead(Full(d, exact, parts, content), value)
  {
    var reason := Object([Member("content", Array([TextBlock(Reason(d))]))]);
    var all := if IsError(d) then parts.value.items + [reason] else parts.value.items;
    PartsShape(d, exact, parts, content, all);
    var result := Object([Member("details", d), Member("terminate", Bool(Terminates(d)))]);
    ResultFields(Null, d, Bool(Terminates(d)));
    OuterFields(Bool(IsError(d)), result, Array(all));
    PartReads(value);
    hide *;
    GivenAll(parts.value.items, reason, all, IsError(d), value);
    FullOfParts(Full(d, exact, parts, content), result, d, value);
  }

  lemma GivenAll(items: seq<Json>, reason: Json, all: seq<Json>, errs: bool, value: Json)
    requires all == (if errs then items + [reason] else items) && ReasonPart(reason, value)
    requires errs == Errs(value) && Field(value, "nativeContentParts") == Array(items)
    ensures PartsRead(Array(all), value)
  {
    hide Field, Errs, ReasonPart;
  }

  lemma FullOfParts(e: Json, result: Json, d: Json, value: Json)
    requires Field(e, "$rpiToolResult") == Number("1") && Field(e, "isError") == Bool(Errs(value))
    requires Field(e, "result") == result && Field(result, "details") == d && !Has(result, "content")
    requires Field(result, "terminate") == Bool(Field(value, "terminate") == Bool(true))
    requires Field(value, "nativeContentParts").Array? && PartsRead(Field(e, "contentParts"), value) && Shows(d, value)
    ensures FullRead(e, value)
  {
    hide Field, Has, Errs, PartsRead, Shows, ContentRead;
  }

  lemma NativeFull(value: Json, d: Json, exact: Option<Json>, parts: Option<Json>, content: Option<Json>)
    requires WellFormed(d) && d == Diagnostics(value) && Shows(d, value) && (IsError(d) <==> Errs(value))
    requires Terminates(d) <==> Field(value, "terminate") == Bool(true)
    requires Field(d, "status") == Field(value, "status")
    requires !(parts.Some? && parts.value.Array?)
    requires parts == None ==> Field(value, "nativeContentParts") == Null
    requires parts.Some? ==> parts.value == Field(value, "nativeContentParts")
    requires exact == (if Has(value, "nativeResult") then Some(Field(value, "nativeResult")) else None)
    requires content == Taken(value, "nativeContent")
    ensures FullRead(Full(d, exact, parts, content), value)
  {
    NativeShape(d, exact, parts, content);
    var c, t := Content(d, content), Bool(Terminates(d));
    ResultFields(c, d, t);
    if exact.Some? { ResultFields(Field(exact.value, "content"), Field(exact.value, "details"), t); }
    OuterFields(Bool(IsError(d)), Native(d, exact, c), Null);
    ContentReads(value);
    hide Field, Has, Diagnostics, Errs, IsError, Terminates, Shows, Full, Content, ContentRead, Taken, PartsRead;
  }

  // ---------------------------------------------------------------- hand-off and compact form

  /** A reference that the host can take over. */
  predicate ReferenceOk(r: Json) {
    Field(r, "version") == Number("1") && Field(r, "id").String? && Field(r, "id").text != ""
  }

  /** Exactly a valid reference of a successful invocation is handed off, alone. */
  lemma HandoffReads(value: Json)
    ensures Handoff(value).Some? <==>
              Succeeded(value) && Has(value, "nativeResultReference") &&
              ReferenceOk(Field(value, "nativeResultReference"))
    ensures Handoff(value).Some? ==>
              var e := Handoff(value).value;
              && Field(e, "$rpiToolResult") == Number("1")
              && Field(e, "isError") == Bool(Field(value, "isError") == Bool(true))
              && Field(e, "resultReference") == Field(value, "nativeResultReference") && !Has(e, "result")
  {
    var r := Field(value, "nativeResultReference");
    var isError := Bool(Field(value, "isError") == Bool(true));
    var members := [Member("$rpiToolResult", Number("1")), Member("isError", isError), Member("resultReference", r)];
    ObjectField(members, "$rpiToolResult", 0);
    ObjectField(members, "isError", 1);
    ObjectField(members, "resultReference", 2);
    assert !Has(Object(members), "result");
    hide Field, Has;
  }

  /** The compact form of an invocation whose envelope is too large: an error that names the limit, with
      the duration and the termination request, and with the logs and calls as long as such a summary
      is within a quarter of the limit. Its one text block means its details. */
  ghost predicate CompactRead(e: Json, value: Json) {
    var result := Field(e, "result");
    var details, content := Field(result, "details"), Field(result, "content");
    var terminate := Bool(Field(value, "terminate") == Bool(true));
    && Field(e, "$rpiToolResult") == Number("1") && Field(e, "isError") == Bool(true)
    && Field(result, "terminate") == terminate && Field(details, "terminate") == terminate
    && Field(details, "status") == String("error") && Field(details, "result") == Null
    && Field(details, "error") == String(TOO_LARGE) && Field(details, "durationMs") == Field(value, "durationMs")
    && (|| (Field(details, "logs") == Field(value, "logs") && Field(details, "calls") == Field(value, "calls")
            && |Encode(details)| <= 262_144)
        || (Field(details, "logs") == Array([]) && Field(details, "calls") == Array([])
            && |Encode(SummaryWith(Diagnostics(value), Field(value, "logs"), Field(value, "calls")))| > 262_144))
    && content.Array? && |content.items| == 1 && Field(content.items[0], "type") == String("text")
    && Field(content.items[0], "text").String? && Read(Field(content.items[0], "text").text) == Some(details)
  }

  lemma SummaryFields(d: Json, logs: Json, calls: Json)
    ensures var s := SummaryWith(d, logs, calls);
            && Field(s, "status") == String("error") && Field(s, "result") == Null
            && Field(s, "error") == String(TOO_LARGE) && Field(s, "logs") == logs
    ensures var s := SummaryWith(d, logs, calls);
            && Field(s, "calls") == calls && Field(s, "durationMs") == Field(d, "durationMs")
            && Field(s, "terminate") == Bool(Terminates(d))
  {
    hide *;
    SummaryHead(d, logs, calls);
    SummaryTail(d, logs, calls);
  }

  lemma SummaryHead(d: Json, logs: Json, calls: Json)
    ensures var s := SummaryWith(d, logs, calls);
            && Field(s, "status") == String("error") && Field(s, "result") == Null
            && Field(s, "error") == String(TOO_LARGE) && Field(s, "logs") == logs
  {
    hide TOO_LARGE, Terminates, Field;
    var members := SummaryWith(d, logs, calls).members;
    ObjectField(members, "status", 0);
    ObjectField(members, "result", 1);
    SummaryMiddle(d, logs, calls);
  }

  lemma SummaryMiddle(d: Json, logs: Json, calls: Json)
    ensures var s := SummaryWith(d, logs, calls); Field(s, "error") == String(TOO_LARGE) && Field(s, "logs") == logs
  {
    hide TOO_LARGE, Terminates, Field;
    var members := SummaryWith(d, logs, calls).members;
    ObjectField(members, "error", 2);
    ObjectField(members, "logs", 3);
  }

  lemma SummaryTail(d: Json, logs: Json, calls: Json)
    ensures var s := SummaryWith(d, logs, calls);
            && Field(s, "calls") == calls && Field(s, "durationMs") == Field(d, "durationMs")
            && Field(s, "terminate") == Bool(Terminates(d))
  {
    hide TOO_LARGE, Terminates, Field;
    var members := SummaryWith(d, logs, calls).members;
    ObjectField(members, "calls", 4);
    ObjectField(members, "durationMs", 5);
    ObjectField(members, "terminate", 6);
  }

  lemma CompactReads(value: Json)
    requires WellFormed(value)
    ensures CompactRead(Compact(Diagnostics(value)), value)
  {
    var d := Diagnostics(value);
    DiagnosticsOk(value);
    DiagnosticsFlags(value);
    SummaryIsOk(d);
    ReadsBack(Summary(d));
    SummaryFields(d, Field(value, "logs"), Field(value, "calls"));
    SummaryFields(d, Array([]), Array([]));
    BlockReads(Encode(Summary(d)));
    var s, t := Summary(d), Bool(Terminates(d));
    ResultFields(Array([TextBlock(Encode(s))]), s, t);
    OuterFields(Bool(true), Object([Member("content", Array([TextBlock(Encode(s))])), Member("details", s),
                                    Member("terminate", t)]), Null);
    hide *;
    SummaryChoice(d, Field(value, "logs"), Field(value, "calls"));
    CompactIs(d, s, Array([TextBlock(Encode(s))]),
              Object([Member("content", Array([TextBlock(Encode(s))])), Member("details", s), Member("terminate", t)]));
    CompactOf(Compact(d), Object([Member("content", Array([TextBlock(Encode(s))])), Member("details", s),
                                  Member("terminate", t)]), s, TextBlock(Encode(s)), value);
  }

  lemma SummaryChoice(d: Json, logs: Json, calls: Json)
    requires Field(d, "logs") == logs && Field(d, "calls") == calls
    ensures var s := SummaryWith(d, logs, calls);
            Summary(d) == if |Encode(s)| > 262_144 then SummaryWith(d, Array([]), Array([])) else s
  {
    hide SummaryWith, Encode, Field;
  }

  lemma CompactOf(e: Json, result: Json, s: Json, block: Json, value: Json)
    requires Field(e, "$rpiToolResult") == Number("1") && Field(e, "isError") == Bool(true)
    requires Field(e, "result") == result
    requires Field(result, "content") == Array([block]) && Field(result, "details") == s
    requires Field(block, "type") == String("text") && Field(block, "text").String?
    requires Read(Field(block, "text").text) == Some(s)
    requires var terminate := Bool(Field(value, "terminate") == Bool(true));
             Field(result, "terminate") == terminate && Field(s, "terminate") == terminate
    requires Field(s, "status") == String("error") && Field(s, "result") == Null
    requires Field(s, "error") == String(TOO_LARGE) && Field(s, "durationMs") == Field(value, "durationMs")
    requires (Field(s, "logs") == Field(value, "logs") && Field(s, "calls") == Field(value, "calls")
              && |Encode(s)| <= 262_144)
          || (Field(s, "logs") == Array([]) && Field(s, "calls") == Array([])
              && |Encode(SummaryWith(Diagnostics(value), Field(value, "logs"), Field(value, "calls")))| > 262_144)
    ensures CompactRead(e, value)
  {
    hide Field, Encode, SummaryWith, Diagnostics, Read, TOO_LARGE;
  }

  // ---------------------------------------------------------------- the text

  lemma MembersOk(members: seq<Member>)
    requires forall m :: m in members ==> WellFormed(m.value)
    ensures WellFormed(Object(members))
  {
    hide WellFormed;
    assert forall i :: 0 <= i < |members| ==> members[i] in members;
    MembersOkAt(members);
  }

  lemma MembersOkAt(members: seq<Member>)
    requires forall i :: 0 <= i < |members| ==> WellFormed(members[i].value)
    ensures WellFormed(Object(members))
  {
  }

  lemma ThreeOk(a: Member, b: Member, c: Member)
    requires WellFormed(a.value) && WellFormed(b.value) && WellFormed(c.value)
    ensures WellFormed(Object([a, b, c]))
  {
    hide WellFormed;
    MembersOk([a, b, c]);
  }

  lemma TwoOk(a: Member, b: Member)
    requires WellFormed(a.value) && WellFormed(b.value)
    ensures WellFormed(Object([a, b]))
  {
    hide WellFormed;
    MembersOk([a, b]);
  }

  lemma FourOk(a: Member, b: Member, c: Member, d: Member)
    requires WellFormed(a.value) && WellFormed(b.value) && WellFormed(c.value) && WellFormed(d.value)
    ensures WellFormed(Object([a, b, c, d]))
  {
    hide WellFormed;
    MembersOk([a, b, c, d]);
  }

  lemma LeavesOk(b: bool, text: string)
    ensures WellFormed(Bool(b)) && WellFormed(Number("1")) && WellFormed(String(text))
  {
  }

  lemma OneOk(item: Json)
    requires WellFormed(item)
    ensures WellFormed(Array([item]))
  {
  }

  lemma PlusOk(items: seq<Json>, last: Json)
    requires WellFormed(Array(items)) && WellFormed(last)
    ensures WellFormed(Array(items + [last]))
  {
  }

  lemma BlockOk(text: string)
    ensures WellFormed(TextBlock(text)) && WellFormed(Array([TextBlock(text)]))
    ensures WellFormed(Object([Member("content", Array([TextBlock(text)]))]))
  {
    LeavesOk(true, "text");
    LeavesOk(true, text);
    TwoOk(Member("type", String("text")), Member("text", String(text)));
    hide WellFormed;
    OneOk(TextBlock(text));
    MembersOk([Member("content", Array([TextBlock(text)]))]);
  }

  lemma TakenOk(value: Json, name: string)
    requires WellFormed(value)
    ensures Taken(value, name).Some? ==> WellFormed(Taken(value, name).value)
  {
    FieldIsWellFormed(value, name);
    hide WellFormed, Field, Has;
  }

  lemma ContentOk(d: Json, content: Option<Json>)
    requires content.Some? ==> WellFormed(content.value)
    ensures WellFormed(Content(d, content))
  {
    BlockOk(Encode(d));
    BlockOk(Reason(d));
    if content.Some? && content.value.Array? { PlusOk(content.value.items, TextBlock(Reason(d))); }
    hide WellFormed, TextBlock, Reason, Encode, IsError;
  }

  lemma FullOk(value: Json)
    requires WellFormed(value)
    ensures WellFormed(FullOf(value))
  {
    hide *;
    var d := Diagnostics(value);
    FullParts(value);
    DiagnosticsOk(value);
    TakenOk(value, "nativeResult");
    TakenOk(value, "nativeContentParts");
    TakenOk(value, "nativeContent");
    var exact, parts, content := Taken(value, "nativeResult"), Taken(value, "nativeContentParts"),
                                 Taken(value, "nativeContent");
    if parts.Some? && parts.value.Array? {
      PartsFullOk(d, exact, parts, content);
    } else {
      ContentOk(d, content);
      NativeFullOk(d, exact, parts, content);
    }
  }

  lemma PartsFullOk(d: Json, exact: Option<Json>, parts: Option<Json>, content: Option<Json>)
    requires WellFormed(d) && parts.Some? && parts.value.Array? && WellFormed(parts.value)
    ensures WellFormed(Full(d, exact, parts, content))
  {
    var reason := Object([Member("content", Array([TextBlock(Reason(d))]))]);
    var all := if IsError(d) then parts.value.items + [reason] else parts.value.items;
    PartsShape(d, exact, parts, content, all);
    BlockOk(Reason(d));
    PlusOk(parts.value.items, reason);
    assert Array(parts.value.items) == parts.value;
    LeavesOk(IsError(d), "");
    LeavesOk(Terminates(d), "");
    hide WellFormed, IsError, Terminates, TextBlock, Reason, Full;
    var result := Object([Member("details", d), Member("terminate", Bool(Terminates(d)))]);
    TwoOk(Member("details", d), Member("terminate", Bool(Terminates(d))));
    FourOk(Member("$rpiToolResult", Number("1")), Member("isError", Bool(IsError(d))), Member("result", result),
           Member("contentParts", Array(all)));
  }

  lemma NativeFullOk(d: Json, exact: Option<Json>, parts: Option<Json>, content: Option<Json>)
    requires WellFormed(d) && WellFormed(Content(d, content)) && !(parts.Some? && parts.value.Array?)
    requires exact.Some? ==> WellFormed(exact.value)
    ensures WellFormed(Full(d, exact, parts, content))
  {
    NativeShape(d, exact, parts, content);
    var t := Member("terminate", Bool(Terminates(d)));
    LeavesOk(IsError(d), "");
    LeavesOk(Terminates(d), "");
    hide WellFormed, IsError, Terminates, Content, Full, Field;
    if exact.Some? {
      FieldIsWellFormed(exact.value, "content");
      FieldIsWellFormed(exact.value, "details");
      ThreeOk(Member("content", Field(exact.value, "content")), Member("details", Field(exact.value, "details")), t);
    }
    ThreeOk(Member("content", Content(d, content)), Member("details", d), t);
    ThreeOk(Member("$rpiToolResult", Number("1")), Member("isError", Bool(IsError(d))),
            Member("result", Native(d, exact, Content(d, content))));
  }

  lemma CompactOk(d: Json)
    requires WellFormed(d)
    ensures WellFormed(Compact(d))
  {
    SummaryIsOk(d);
    LeavesOk(true, "");
    LeavesOk(Terminates(d), "");
    hide WellFormed, Terminates, Encode, Summary, TextBlock;
    var s := Summary(d);
    BlockOk(Encode(s));
    var result := Object([Member("content", Array([TextBlock(Encode(s))])), Member("details", s),
                          Member("terminate", Bool(Terminates(d)))]);
    ThreeOk(Member("content", Array([TextBlock(Encode(s))])), Member("details", s),
            Member("terminate", Bool(Terminates(d))));
    ThreeOk(Member("$rpiToolResult", Number("1")), Member("isError", Bool(true)), Member("result", result));
  }

  lemma HandoffOk(value: Json)
    requires WellFormed(value) && Handoff(value).Some?
    ensures WellFormed(Handoff(value).value)
  {
    TakenOk(value, "nativeResultReference");
    var r := Taken(value, "nativeResultReference");
    if r.Some? {
      LeavesOk(Field(value, "isError") == Bool(true), "");
      ThreeOk(Member("$rpiToolResult", Number("1")), Member("isError", Bool(Field(value, "isError") == Bool(true))),
              Member("resultReference", r.value));
    }
    hide WellFormed, Field, Taken;
  }

  /** The text of every invocation means one JSON value, and that value reads as intended: the reference
      hand-off exactly when there is a valid reference, otherwise the full envelope exactly when it fits,
      and otherwise the compact form. */
  lemma HostReads(value: Json)
    requires WellFormed(value)
    ensures Read(Encode(Envelope.Envelope(value))) == Some(Envelope.Envelope(value))
    ensures Succeeded(value) && Has(value, "nativeResultReference")
              && ReferenceOk(Field(value, "nativeResultReference")) ==>
            && Field(Envelope.Envelope(value), "resultReference") == Field(value, "nativeResultReference")
            && Field(Envelope.Envelope(value), "isError") == Bool(Field(value, "isError") == Bool(true))
    ensures !(Succeeded(value) && Has(value, "nativeResultReference")
              && ReferenceOk(Field(value, "nativeResultReference"))) ==>
            && (|Encode(FullOf(value))| <= 1_048_576 ==> FullRead(Envelope.Envelope(value), value))
            && (|Encode(FullOf(value))| > 1_048_576 ==> CompactRead(Envelope.Envelope(value), value))
  {
    hide *;
    Limit();
    HandoffReads(value);
    if Handoff(value).Some? {
      HandoffOk(value);
      HandoffCase(value);
    } else {
      DiagnosticsOk(value);
      FullReads(value);
      CompactReads(value);
      FullOk(value);
      CompactOk(Diagnostics(value));
      EnvelopeCases(value);
    }
    ReadsBack(Envelope.Envelope(value));
  }

  lemma Limit()
    ensures MAX_JSON == 1_048_576
  {
  }

  lemma HandoffCase(value: Json)
    requires Handoff(value).Some?
    ensures Envelope.Envelope(value) == Handoff(value).value
  {
    hide Handoff, FullOf, Compact, Encode;
  }
}
