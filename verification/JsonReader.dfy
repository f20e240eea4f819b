/** A reader for JSON text without white space, after the grammar of RFC 8259, and the proof that it reads
    every serialized value back: what the serializer writes has exactly one meaning.
 */
module JsonReader {
  import opened Wrappers
  import opened JsoncTree
  import opened JsoncSplice
  import opened JsonStrings
  import opened Json

  // ---------------------------------------------------------------- the reader

  /** The pieces of a literal up to its closing quote, and the text behind it. */
  function ReadUnits(t: string): (r: Option<(seq<Unit>, string)>)
    ensures r.Some? ==> |r.value.1| < |t|
    decreases |t|
  {
    if t == "" then None
    else if t[0] == '"' then Some(([], t[1..]))
    else if t[0] != '\\' then Led(Plain(t[0]), ReadUnits(t[1..]))
    else if |t| == 1 then None
    else Led(Escape(t[1]), ReadUnits(t[2..]))
  }

  function Led(u: Unit, r: Option<(seq<Unit>, string)>): Option<(seq<Unit>, string)> {
    if r.None? then None else Some(([u] + r.value.0, r.value.1))
  }

  /** A string literal: what it means, and the text behind it. */
  function ReadString(t: string): (r: Option<(string, string)>)
    ensures r.Some? ==> |r.value.1| < |t|
  {
    if t == "" || t[0] != '"' || ReadUnits(t[1..]).None? then None
    else
      var (us, rest) := ReadUnits(t[1..]).value;
      if Decoded(us).None? then None else Some((Decoded(us).value, rest))
  }

  function NumberEnd(t: string): (n: nat)
    ensures n <= |t|
  {
    if t == "" || !NumberChar(t[0]) then 0 else 1 + NumberEnd(t[1..])
  }

  /** A value, and the text behind it. */
  function ReadValue(t: string): (r: Option<(Json, string)>)
    ensures r.Some? ==> |r.value.1| < |t|
    decreases |t|, 0
  {
    if t == "" then None
    else if "null" <= t then Some((Null, t[4..]))
    else if "true" <= t then Some((Bool(true), t[4..]))
    else if "false" <= t then Some((Bool(false), t[5..]))
    else if t[0] == '"' then
      match ReadString(t)
      case None => None
      case Some((s, rest)) => Some((String(s), rest))
    else if t[0] == '[' then
      if "[]" <= t then Some((Array([]), t[2..]))
      else match ReadItems(t[1..])
        case None => None
        case Some((items, rest)) => Some((Array(items), rest))
    else if t[0] == '{' then
      if "{}" <= t then Some((Object([]), t[2..]))
      else match ReadMembers(t[1..])
        case None => None
        case Some((members, rest)) => Some((Object(members), rest))
    else if '0' <= t[0] <= '9' || t[0] == '-' then Some((Number(t[..NumberEnd(t)]), t[NumberEnd(t)..]))
    else None
  }

  /** The elements of an array, at least one, up to its bracket. */
  function ReadItems(t: string): (r: Option<(seq<Json>, string)>)
    ensures r.Some? ==> |r.value.1| < |t|
    decreases |t|, 1
  {
    match ReadValue(t)
    case None => None
    case Some((v, rest)) =>
      if "]" <= rest then Some(([v], rest[1..]))
      else if !("," <= rest) then None
      else match ReadItems(rest[1..])
        case None => None
        case Some((items, after)) => Some(([v] + items, after))
  }

  function ReadMember(t: string): (r: Option<(Member, string)>)
    ensures r.Some? ==> |r.value.1| < |t|
    decreases |t|, 1
  {
    match ReadString(t)
    case None => None
    case Some((name, rest)) =>
      if !(":" <= rest) then None
      else match ReadValue(rest[1..])
        case None => None
        case Some((v, after)) => Some((Member(name, v), after))
  }

  /** The members of an object, at least one, up to its brace. */
  function ReadMembers(t: string): (r: Option<(seq<Member>, string)>)
    ensures r.Some? ==> |r.value.1| < |t|
    decreases |t|, 2
  {
    match ReadMember(t)
    case None => None
    case Some((m, rest)) =>
      if "}" <= rest then Some(([m], rest[1..]))
      else if !("," <= rest) then None
      else match ReadMembers(rest[1..])
        case None => None
        case Some((members, after)) => Some(([m] + members, after))
  }

  /** A whole text. */
  function Read(t: string): Option<Json> {
    match ReadValue(t)
    case None => None
    case Some((j, rest)) => if rest == "" then Some(j) else None
  }

  // ---------------------------------------------------------------- literals

  lemma {:induction false} UnitsRead(us: seq<Unit>, rest: string)
    requires UnitsOk(us)
    ensures ReadUnits(UnitsText(us) + ("\"" + rest)) == Some((us, rest))
    decreases |us|
  {
    if us == [] {
      assert UnitsText(us) + ("\"" + rest) == "\"" + rest && ("\"" + rest)[1..] == rest;
    } else {
      assert us[0] in us && forall u :: u in us[1..] ==> u in us;
      UnitsRead(us[1..], rest);
      var tail := UnitsText(us[1..]) + ("\"" + rest);
      hide UnitsText, ReadUnits;
      UnitRead(us[0], tail);
      UnitsUnfold(us, rest);
    }
  }

  lemma UnitRead(u: Unit, tail: string)
    requires u.Plain? ==> u.c != '"' && u.c != '\\'
    ensures ReadUnits(UnitText(u) + tail) == Led(u, ReadUnits(tail))
  {
    var t := UnitText(u) + tail;
    assert t[|UnitText(u)|..] == tail;
    assert t[0] == UnitText(u)[0] && (u.Escape? ==> t[1] == UnitText(u)[1]);
  }

  lemma UnitsUnfold(us: seq<Unit>, rest: string)
    requires us != []
    ensures UnitsText(us) + ("\"" + rest) == UnitText(us[0]) + (UnitsText(us[1..]) + ("\"" + rest))
    ensures us == [us[0]] + us[1..]
  {
    hide UnitText;
  }

  lemma StringReadsBack(s: string, rest: string)
    ensures ReadString(JsonString(s) + rest) == Some((s, rest))
  {
    hide *;
    UnitsRead(StringUnits(s), rest);
    StringReads(s);
    LiteralText(s, rest);
    LiteralReads(JsonString(s) + rest, StringUnits(s), rest);
  }

  lemma LiteralText(s: string, rest: string)
    ensures var t := JsonString(s) + rest;
            t != "" && t[0] == '"' && t[1..] == UnitsText(StringUnits(s)) + ("\"" + rest) && UnitsOk(StringUnits(s))
  {
    hide UnitsText, UnitsOk;
  }

  lemma LiteralReads(t: string, us: seq<Unit>, rest: string)
    requires t != "" && t[0] == '"' && ReadUnits(t[1..]) == Some((us, rest)) && Decoded(us).Some?
    ensures ReadString(t) == Some((Decoded(us).value, rest))
  {
    hide ReadUnits, Decoded;
  }

  /** Behind a value stands the end of the text or a delimiter. */
  predicate Stops(rest: string) {
    rest == "" || rest[0] == ',' || rest[0] == ']' || rest[0] == '}'
  }

  lemma {:induction false} NumberRuns(d: string, rest: string)
    requires (forall c :: c in d ==> NumberChar(c)) && Stops(rest)
    ensures NumberEnd(d + rest) == |d|
    decreases |d|
  {
    if d == "" {
      assert d + rest == rest;
    } else {
      assert (d + rest)[0] == d[0] && d[0] in d && (d + rest)[1..] == d[1..] + rest;
      NumberRuns(d[1..], rest);
    }
  }

  // ---------------------------------------------------------------- the round trip

  /** No two values share their text, and none is the front of another: the reader gives back every
      value that is written, with whatever stands behind it. */
  lemma {:induction false} ValueReadsBack(j: Json, rest: string)
    requires WellFormed(j) && Stops(rest)
    ensures ReadValue(Encode(j) + rest) == Some((j, rest))
    decreases j, 0
  {
    match j
    case Null => WordReads(j, rest);
    case Bool(_) => WordReads(j, rest);
    case Number(d) => NumberReads(d, rest);
    case String(s) => TextReads(s, rest);
    case Array(items) =>
      if items != [] { ItemsReadBack(items, rest); }
      ArrayReads(items, rest);
    case Object(members) =>
      if members != [] { MembersReadBack(members, rest); }
      ObjectReads(members, rest);
  }

  lemma WordReads(j: Json, rest: string)
    requires j.Null? || j.Bool?
    ensures ReadValue(Encode(j) + rest) == Some((j, rest))
  {
    var t := Encode(j) + rest;
    assert Encode(j) <= t && t[|Encode(j)|..] == rest;
    assert t[0] == Encode(j)[0];
    hide ReadString, ReadItems, ReadMembers, NumberEnd;
  }

  lemma NumberReads(d: string, rest: string)
    requires NumberText(d) && Stops(rest)
    ensures ReadValue(d + rest) == Some((Number(d), rest))
  {
    NumberRuns(d, rest);
    var t := d + rest;
    assert t[0] == d[0] && t[..|d|] == d && t[|d|..] == rest;
    hide ReadString, ReadItems, ReadMembers, NumberEnd;
  }

  lemma TextReads(s: string, rest: string)
    ensures ReadValue(JsonString(s) + rest) == Some((String(s), rest))
  {
    StringReadsBack(s, rest);
    var t := JsonString(s) + rest;
    assert t[0] == '"';
    hide ReadString, ReadItems, ReadMembers, NumberEnd, JsonString;
  }

  lemma ValueBegins(j: Json)
    requires WellFormed(j)
    ensures Encode(j) != "" && Encode(j)[0] != ']'
  {
    hide EncodeItems, EncodeMembers, StringUnits, UnitsText;
  }

  lemma {:induction false} ItemsBegin(items: seq<Json>)
    requires items != [] && WellFormed(items[0])
    ensures EncodeItems(items) != "" && EncodeItems(items)[0] != ']'
  {
    ValueBegins(items[0]);
    hide Encode, WellFormed;
  }

  lemma MembersBegin(members: seq<Member>)
    requires members != []
    ensures EncodeMembers(members) != "" && EncodeMembers(members)[0] == '"'
  {
    assert JsonString(members[0].name)[0] == '"';
    hide Encode, JsonString;
  }

  lemma ArrayReads(items: seq<Json>, rest: string)
    requires items != [] ==> WellFormed(items[0])
    requires items != [] ==> ReadItems(EncodeItems(items) + ("]" + rest)) == Some((items, rest))
    ensures ReadValue(Encode(Array(items)) + rest) == Some((Array(items), rest))
  {
    if items != [] { ItemsBegin(items); }
    ArrayText(EncodeItems(items), rest);
    var t := Encode(Array(items)) + rest;
    assert items == [] ==> EncodeItems(items) == "";
    hide ReadString, ReadItems, ReadMembers, NumberEnd, EncodeItems;
    assert t == ("[" + (EncodeItems(items) + "]")) + rest;
  }

  lemma ArrayText(items: string, rest: string)
    ensures var t := ("[" + (items + "]")) + rest;
            && t[0] == '[' && t[1..] == items + ("]" + rest) && (items == "" ==> "[]" <= t && t[2..] == rest)
            && (items != "" ==> t[1] == items[0])
  {
  }

  lemma ObjectReads(members: seq<Member>, rest: string)
    requires members != [] ==> ReadMembers(EncodeMembers(members) + ("}" + rest)) == Some((members, rest))
    ensures ReadValue(Encode(Object(members)) + rest) == Some((Object(members), rest))
  {
    if members != [] { MembersBegin(members); }
    ObjectText(EncodeMembers(members), rest);
    var t := Encode(Object(members)) + rest;
    assert members == [] ==> EncodeMembers(members) == "";
    hide ReadString, ReadItems, ReadMembers, NumberEnd, EncodeMembers;
    assert t == ("{" + (EncodeMembers(members) + "}")) + rest;
  }

  lemma ObjectText(members: string, rest: string)
    ensures var t := ("{" + (members + "}")) + rest;
            && t[0] == '{' && t[1..] == members + ("}" + rest) && (members == "" ==> "{}" <= t && t[2..] == rest)
            && (members != "" ==> t[1] == members[0])
  {
  }

  lemma ItemsMore(first: string, v: Json, tail: string, items: seq<Json>, rest: string)
    requires ReadValue(first + ("," + tail)) == Some((v, "," + tail)) && ReadItems(tail) == Some((items, rest))
    ensures ReadItems(first + ("," + tail)) == Some(([v] + items, rest))
  {
    assert ("," + tail)[0] == ',' && ("," + tail)[1..] == tail;
    hide ReadValue;
  }

  lemma ItemsLast(first: string, v: Json, rest: string)
    requires ReadValue(first + ("]" + rest)) == Some((v, "]" + rest))
    ensures ReadItems(first + ("]" + rest)) == Some(([v], rest))
  {
    assert ("]" + rest)[1..] == rest;
    hide ReadValue;
  }

  lemma ItemsUnfold(items: seq<Json>, rest: string)
    requires items != []
    ensures |items| == 1 ==> EncodeItems(items) == Encode(items[0]) && items == [items[0]]
    ensures |items| > 1 ==>
              EncodeItems(items) + ("]" + rest) == Encode(items[0]) + ("," + (EncodeItems(items[1..]) + ("]" + rest)))
              && items == [items[0]] + items[1..]
  {
    hide *;
    ItemsParts(items);
    if |items| > 1 { Regrouped(Encode(items[0]), EncodeItems(items[1..]), "]" + rest); }
  }

  lemma ItemsParts(items: seq<Json>)
    requires items != []
    ensures EncodeItems(items) ==
            if |items| == 1 then Encode(items[0]) else Encode(items[0]) + ("," + EncodeItems(items[1..]))
  {
    hide Encode;
  }

  lemma Regrouped(a: string, b: string, c: string)
    ensures (a + ("," + b)) + c == a + ("," + (b + c))
  {
  }

  lemma {:induction false} ItemsReadBack(items: seq<Json>, rest: string)
    requires items != [] && forall i :: 0 <= i < |items| ==> WellFormed(items[i])
    ensures ReadItems(EncodeItems(items) + ("]" + rest)) == Some((items, rest))
    decreases items, 1
  {
    hide *;
    ItemsUnfold(items, rest);
    if |items| == 1 {
      StopsAt("]", rest);
      ValueReadsBack(items[0], "]" + rest);
      ItemsLast(Encode(items[0]), items[0], rest);
    } else {
      var tail := EncodeItems(items[1..]) + ("]" + rest);
      StopsAt(",", tail);
      ValueReadsBack(items[0], "," + tail);
      ItemsReadBack(items[1..], rest);
      ItemsMore(Encode(items[0]), items[0], tail, items[1..], rest);
    }
  }

  lemma StopsAt(c: string, rest: string)
    requires c == "," || c == "]" || c == "}"
    ensures Stops(c + rest)
  {
  }

  lemma MemberOf(m: Member, rest: string)
    requires ReadString(JsonString(m.name) + (":" + (Encode(m.value) + rest))) ==
             Some((m.name, ":" + (Encode(m.value) + rest)))
    requires ReadValue(Encode(m.value) + rest) == Some((m.value, rest))
    ensures ReadMember(EncodeMember(m) + rest) == Some((m, rest))
  {
    var after := ":" + (Encode(m.value) + rest);
    hide ReadValue, ReadString, Encode, JsonString;
    assert after[1..] == Encode(m.value) + rest;
    assert EncodeMember(m) + rest == JsonString(m.name) + after;
  }

  lemma {:induction false} MemberReadsBack(m: Member, rest: string)
    requires WellFormed(m.value) && Stops(rest)
    ensures ReadMember(EncodeMember(m) + rest) == Some((m, rest))
    decreases m, 1
  {
    hide *;
    StringReadsBack(m.name, ":" + (Encode(m.value) + rest));
    ValueReadsBack(m.value, rest);
    MemberOf(m, rest);
  }

  lemma MembersMore(first: string, m: Member, tail: string, members: seq<Member>, rest: string)
    requires ReadMember(first + ("," + tail)) == Some((m, "," + tail)) && ReadMembers(tail) == Some((members, rest))
    ensures ReadMembers(first + ("," + tail)) == Some(([m] + members, rest))
  {
    assert ("," + tail)[0] == ',' && ("," + tail)[1..] == tail;
    hide ReadMember;
  }

  lemma MembersLast(first: string, m: Member, rest: string)
    requires ReadMember(first + ("}" + rest)) == Some((m, "}" + rest))
    ensures ReadMembers(first + ("}" + rest)) == Some(([m], rest))
  {
    assert ("}" + rest)[1..] == rest;
    hide ReadMember;
  }

  lemma MembersUnfold(members: seq<Member>, rest: string)
    requires members != []
    ensures |members| == 1 ==> EncodeMembers(members) == EncodeMember(members[0]) && members == [members[0]]
    ensures |members| > 1 ==>
              EncodeMembers(members) + ("}" + rest) ==
              EncodeMember(members[0]) + ("," + (EncodeMembers(members[1..]) + ("}" + rest)))
              && members == [members[0]] + members[1..]
  {
    hide *;
    MembersParts(members);
    if |members| > 1 { Regrouped(EncodeMember(members[0]), EncodeMembers(members[1..]), "}" + rest); }
  }

  lemma MembersParts(members: seq<Member>)
    requires members != []
    ensures EncodeMembers(members) ==
            if |members| == 1 then EncodeMember(members[0])
            else EncodeMember(members[0]) + ("," + EncodeMembers(members[1..]))
  {
    hide EncodeMember;
  }

  lemma {:induction false} MembersReadBack(members: seq<Member>, rest: string)
    requires members != [] && forall i :: 0 <= i < |members| ==> WellFormed(members[i].value)
    ensures ReadMembers(EncodeMembers(members) + ("}" + rest)) == Some((members, rest))
    decreases members, 2
  {
    hide *;
    MembersUnfold(members, rest);
    if |members| == 1 {
      StopsAt("}", rest);
      MemberReadsBack(members[0], "}" + rest);
      MembersLast(EncodeMember(members[0]), members[0], rest);
    } else {
      var tail := EncodeMembers(members[1..]) + ("}" + rest);
      StopsAt(",", tail);
      MemberReadsBack(members[0], "," + tail);
      MembersReadBack(members[1..], rest);
      MembersMore(EncodeMember(members[0]), members[0], tail, members[1..], rest);
    }
  }

  /** Reading what was written gives the value back. */
  lemma ReadsBack(j: Json)
    requires WellFormed(j)
    ensures Read(Encode(j)) == Some(j)
  {
    ValueReadsBack(j, "");
    hide ReadValue, Encode;
    assert Encode(j) + "" == Encode(j);
  }
}
