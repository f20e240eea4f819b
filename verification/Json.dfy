/** JSON values, their serialized text, and the size of that text when it is quoted once more. */
module Json {
  import opened JsoncTree
  import opened JsoncSplice

  /** A number is its digits as the serializer writes them. */
  datatype Json = Null | Bool(value: bool) | Number(digits: string) | String(text: string) | Array(items: seq<Json>)
                | Object(members: seq<Member>)

  datatype Member = Member(name: string, value: Json)

  function Encode(j: Json): string
    decreases j, 0
  {
    match j
    case Null => "null"
    case Bool(b) => if b then "true" else "false"
    case Number(d) => d
    case String(s) => JsonString(s)
    case Array(items) => "[" + (EncodeItems(items) + "]")
    case Object(members) => "{" + (EncodeMembers(members) + "}")
  }

  function EncodeItems(items: seq<Json>): string
    decreases items, 1
  {
    if items == [] then ""
    else if |items| == 1 then Encode(items[0])
    else Encode(items[0]) + ("," + EncodeItems(items[1..]))
  }

  function EncodeMember(m: Member): string
    decreases m, 1
  {
    JsonString(m.name) + (":" + Encode(m.value))
  }

  function EncodeMembers(members: seq<Member>): string
    decreases members, 1
  {
    if members == [] then ""
    else if |members| == 1 then EncodeMember(members[0])
    else EncodeMember(members[0]) + ("," + EncodeMembers(members[1..]))
  }

  /** Digits, sign, point and exponent are all that numbers are made of. */
  predicate NumberChar(c: char) {
    '0' <= c <= '9' || c == '-' || c == '+' || c == '.' || c == 'e' || c == 'E'
  }

  predicate NumberText(d: string) {
    d != "" && ('0' <= d[0] <= '9' || d[0] == '-') && forall c :: c in d ==> NumberChar(c)
  }

  predicate WellFormed(j: Json)
    decreases j
  {
    match j
    case Number(d) => NumberText(d)
    case Array(items) => forall i :: 0 <= i < |items| ==> WellFormed(items[i])
    case Object(members) => forall i :: 0 <= i < |members| ==> WellFormed(members[i].value)
    case _ => true
  }

  /** No control characters. */
  predicate Clean(s: string) {
    forall c :: c in s ==> c >= ' '
  }

  // ---------------------------------------------------------------- encoded text is clean

  lemma EscapeIsClean(c: char)
    ensures Clean(UnitsText(EscapeUnits(c)))
    ensures |UnitsText(EscapeUnits(c))| <= if c >= ' ' then 2 else 6
  {
    hide UnitsText;
    if |EscapeUnits(c)| == 1 {
      OneUnit(EscapeUnits(c)[0]);
    } else {
      ControlUnits(c);
    }
  }

  lemma ControlUnits(c: char)
    requires |EscapeUnits(c)| != 1
    ensures c < ' ' && Clean(UnitsText(EscapeUnits(c))) && |UnitsText(EscapeUnits(c))| == 6
  {
    hide UnitsText;
    var h, l := HexDigit(c as int / 16), HexDigit(c as int % 16);
    FiveUnits(h, l);
    HexIsClean(c as int / 16);
    HexIsClean(c as int % 16);
  }

  lemma HexIsClean(n: nat)
    requires n < 16
    ensures HexDigit(n) >= ' '
  {
  }

  lemma OneUnit(u: Unit)
    ensures UnitsText([u]) == UnitText(u)
  {
    assert [u][1..] == [];
  }

  lemma FiveUnits(h: char, l: char)
    ensures UnitsText([Escape('u'), Plain('0'), Plain('0'), Plain(h), Plain(l)]) == ['\\', 'u', '0', '0', h, l]
  {
    OneUnit(Plain(l));
    UnitsMore(Plain(h), [Plain(l)]);
    UnitsMore(Plain('0'), [Plain(h), Plain(l)]);
    UnitsMore(Plain('0'), [Plain('0'), Plain(h), Plain(l)]);
    UnitsMore(Escape('u'), [Plain('0'), Plain('0'), Plain(h), Plain(l)]);
    hide UnitsText;
    assert [Plain(h)] + [Plain(l)] == [Plain(h), Plain(l)];
    assert [Plain('0')] + [Plain(h), Plain(l)] == [Plain('0'), Plain(h), Plain(l)];
    assert [Plain('0')] + [Plain('0'), Plain(h), Plain(l)] == [Plain('0'), Plain('0'), Plain(h), Plain(l)];
    assert [Escape('u')] + [Plain('0'), Plain('0'), Plain(h), Plain(l)] ==
           [Escape('u'), Plain('0'), Plain('0'), Plain(h), Plain(l)];
  }

  lemma UnitsMore(u: Unit, us: seq<Unit>)
    ensures UnitsText([u] + us) == UnitText(u) + UnitsText(us)
  {
    assert ([u] + us)[1..] == us;
  }

  lemma {:induction false} UnitsAppend(a: seq<Unit>, b: seq<Unit>)
    ensures UnitsText(a + b) == UnitsText(a) + UnitsText(b)
    decreases |a|
  {
    if a == [] {
      assert a + b == b;
    } else {
      assert (a + b)[1..] == a[1..] + b;
      UnitsAppend(a[1..], b);
    }
  }

  lemma CleanParts(a: string, b: string)
    ensures Clean(a + b) <==> Clean(a) && Clean(b)
  {
    assert forall c :: c in a + b <==> c in a || c in b;
  }

  lemma {:induction false} StringIsClean(s: string)
    ensures Clean(UnitsText(StringUnits(s)))
    decreases |s|
  {
    hide Clean, EscapeUnits;
    if s == "" {
      NothingIsClean();
    } else {
      EscapeIsClean(s[0]);
      StringIsClean(s[1..]);
      UnitsAppend(EscapeUnits(s[0]), StringUnits(s[1..]));
      CleanParts(UnitsText(EscapeUnits(s[0])), UnitsText(StringUnits(s[1..])));
    }
  }

  lemma NothingIsClean()
    ensures Clean("") && UnitsText([]) == ""
  {
  }

  lemma QuotedIsClean(s: string)
    ensures Clean(JsonString(s))
  {
    StringIsClean(s);
  }

  lemma {:induction false} EncodedIsClean(j: Json)
    requires WellFormed(j)
    ensures Clean(Encode(j))
    decreases j, 0
  {
    hide Clean, JsonString;
    Punctuation();
    match j
    case Null =>
    case Bool(_) =>
    case Number(d) => NumberIsClean(d);
    case String(s) => QuotedIsClean(s);
    case Array(items) =>
      ItemsAreClean(items);
      CleanParts(EncodeItems(items), "]");
      CleanParts("[", EncodeItems(items) + "]");
    case Object(members) =>
      MembersAreClean(members);
      CleanParts(EncodeMembers(members), "}");
      CleanParts("{", EncodeMembers(members) + "}");
  }

  lemma NumberIsClean(d: string)
    requires NumberText(d)
    ensures Clean(d)
  {
  }

  lemma Punctuation()
    ensures Clean("") && Clean("null") && Clean("true") && Clean("false") && Clean("[") && Clean("]") &&
            Clean("{") && Clean("}")
    ensures Clean(",") && Clean(":")
  {
  }

  lemma {:induction false} ItemsAreClean(items: seq<Json>)
    requires forall i :: 0 <= i < |items| ==> WellFormed(items[i])
    ensures Clean(EncodeItems(items))
    decreases items, 1
  {
    hide Clean, Encode;
    Punctuation();
    if items != [] {
      EncodedIsClean(items[0]);
      if |items| > 1 {
        ItemsAreClean(items[1..]);
        CleanParts(",", EncodeItems(items[1..]));
        CleanParts(Encode(items[0]), "," + EncodeItems(items[1..]));
      }
    }
  }

  lemma {:induction false} MemberIsClean(m: Member)
    requires WellFormed(m.value)
    ensures Clean(EncodeMember(m))
    decreases m, 1
  {
    hide Clean, Encode, JsonString;
    Punctuation();
    QuotedIsClean(m.name);
    EncodedIsClean(m.value);
    CleanParts(":", Encode(m.value));
    CleanParts(JsonString(m.name), ":" + Encode(m.value));
  }

  lemma {:induction false} MembersAreClean(members: seq<Member>)
    requires forall i :: 0 <= i < |members| ==> WellFormed(members[i].value)
    ensures Clean(EncodeMembers(members))
    decreases members, 1
  {
    hide Clean, EncodeMember;
    Punctuation();
    if members != [] {
      MemberIsClean(members[0]);
      if |members| > 1 {
        MembersAreClean(members[1..]);
        CleanParts(",", EncodeMembers(members[1..]));
        CleanParts(EncodeMember(members[0]), "," + EncodeMembers(members[1..]));
      }
    }
  }

  // ---------------------------------------------------------------- quoting once more

  lemma {:induction false} CleanDoubles(s: string)
    requires Clean(s)
    ensures |UnitsText(StringUnits(s))| <= 2 * |s|
    decreases |s|
  {
    hide EscapeUnits;
    if s == "" {
      NothingIsClean();
    } else {
      assert s[0] in s && forall c :: c in s[1..] ==> c in s;
      EscapeIsClean(s[0]);
      CleanDoubles(s[1..]);
      UnitsAppend(EscapeUnits(s[0]), StringUnits(s[1..]));
    }
  }

  /** Writing an encoded value as a JSON string at most doubles it. */
  lemma EncodedTwice(j: Json)
    requires WellFormed(j)
    ensures |Encode(String(Encode(j)))| <= 2 * |Encode(j)| + 2
  {
    EncodedIsClean(j);
    CleanDoubles(Encode(j));
    hide StringUnits, UnitsText;
    assert Encode(String(Encode(j))) == JsonString(Encode(j));
  }

  // ---------------------------------------------------------------- fields

  /** The value of a field; null when there is none or the value is no object. */
  function Field(j: Json, name: string): Json {
    if j.Object? then FieldOf(j.members, name) else Null
  }

  function FieldOf(members: seq<Member>, name: string): Json {
    if members == [] then Null
    else if members[0].name == name then members[0].value
    else FieldOf(members[1..], name)
  }

  function Has(j: Json, name: string): bool {
    j.Object? && exists m :: m in j.members && m.name == name
  }

  function DropFrom(members: seq<Member>, name: string): seq<Member> {
    if members == [] then []
    else if members[0].name == name then DropFrom(members[1..], name)
    else [members[0]] + DropFrom(members[1..], name)
  }

  /** The object without that field. */
  function Removed(j: Json, name: string): Json {
    if j.Object? then Object(DropFrom(j.members, name)) else j
  }

  lemma {:induction false} DropKeeps(members: seq<Member>, name: string, other: string)
    requires forall i :: 0 <= i < |members| ==> WellFormed(members[i].value)
    ensures forall i :: 0 <= i < |DropFrom(members, name)| ==> WellFormed(DropFrom(members, name)[i].value)
    ensures FieldOf(DropFrom(members, name), other) == if other == name then Null else FieldOf(members, other)
    decreases |members|
  {
    hide WellFormed;
    if members != [] { DropKeeps(members[1..], name, other); }
  }

  lemma RemovedKeeps(j: Json, name: string, other: string)
    requires WellFormed(j)
    ensures WellFormed(Removed(j, name)) &&
            Field(Removed(j, name), other) == if other == name then Null else Field(j, other)
  {
    if j.Object? { DropKeeps(j.members, name, other); }
  }

  lemma {:induction false} FieldOfIsWellFormed(members: seq<Member>, name: string)
    requires forall i :: 0 <= i < |members| ==> WellFormed(members[i].value)
    ensures WellFormed(FieldOf(members, name))
    decreases |members|
  {
    if members != [] {
      assert WellFormed(members[0].value);
      hide WellFormed;
      FieldOfIsWellFormed(members[1..], name);
    }
  }

  lemma FieldIsWellFormed(j: Json, name: string)
    requires WellFormed(j)
    ensures WellFormed(Field(j, name))
  {
    if j.Object? { FieldOfIsWellFormed(j.members, name); }
  }

  // ---------------------------------------------------------------- plain text

  /** Nothing in the text needs an escape. */
  predicate Unescaped(s: string) {
    forall c :: c in s ==> c >= ' ' && c != '"' && c != '\\'
  }

  lemma {:induction false} UnescapedSize(s: string)
    requires Unescaped(s)
    ensures |UnitsText(StringUnits(s))| == |s|
    decreases |s|
  {
    hide EscapeUnits, UnitsText;
    if s == "" {
      NothingIsClean();
    } else {
      assert s[0] in s && forall c :: c in s[1..] ==> c in s;
      UnescapedSize(s[1..]);
      PlainUnit(s[0]);
      UnitsMore(Plain(s[0]), StringUnits(s[1..]));
    }
  }

  lemma PlainUnit(c: char)
    requires c >= ' ' && c != '"' && c != '\\'
    ensures EscapeUnits(c) == [Plain(c)] && |UnitText(Plain(c))| == 1
  {
  }

  lemma QuotedSize(s: string)
    requires Unescaped(s)
    ensures |JsonString(s)| == |s| + 2
  {
    UnescapedSize(s);
    hide StringUnits, UnitsText;
  }

  lemma {:induction false} AnySize(s: string)
    ensures |UnitsText(StringUnits(s))| <= 6 * |s|
    decreases |s|
  {
    hide EscapeUnits, UnitsText;
    if s == "" {
      NothingIsClean();
    } else {
      AnySize(s[1..]);
      EscapeIsClean(s[0]);
      UnitsAppend(EscapeUnits(s[0]), StringUnits(s[1..]));
    }
  }

  lemma StringAtMost(s: string)
    ensures |Encode(String(s))| <= 6 * |s| + 2
  {
    AnySize(s);
    hide StringUnits, UnitsText;
    assert Encode(String(s)) == JsonString(s);
  }

  lemma StringSize(s: string)
    requires Unescaped(s)
    ensures |Encode(String(s))| == |s| + 2
  {
    QuotedSize(s);
    hide JsonString;
  }
}
