/** The JSON value that a JSONC syntax tree stands for, whatever blanks and comments it has, and the value
    that registration writes: a launch object holding exactly the given command line.
 */
module JsoncMeaning {
  import opened Wrappers
  import opened JsoncTree
  import opened JsoncSplice
  import opened JsoncMemberText
  import opened JsonStrings
  import J = Json

  // ---------------------------------------------------------------- meaning

  function Meaning(v: Value): Option<J.Json> {
    match v
    case Scalar(t) =>
      if t == "null" then Some(J.Null)
      else if t == "true" || t == "false" then Some(J.Bool(t == "true"))
      else if J.NumberText(t) then Some(J.Number(t))
      else None
    case Str(us) => if Decoded(us).Some? then Some(J.String(Decoded(us).value)) else None
    case Arr(items) => if Elements(items).Some? then Some(J.Array(Elements(items).value)) else None
    case Obj(items) => if Fields(items).Some? then Some(J.Object(Fields(items).value)) else None
  }

  function Elements(items: Items): Option<seq<J.Json>> {
    match items
    case End(_) => Some([])
    case Last(it) => if Meaning(it.value).Some? then Some([Meaning(it.value).value]) else None
    case More(it, rest) =>
      if Meaning(it.value).Some? && Elements(rest).Some? then Some([Meaning(it.value).value] + Elements(rest).value)
      else None
  }

  function FieldMeaning(it: Item): Option<J.Member> {
    if it.head.Key? && Decoded(it.head.units).Some? && Meaning(it.value).Some?
    then Some(J.Member(Decoded(it.head.units).value, Meaning(it.value).value))
    else None
  }

  function Fields(items: Items): Option<seq<J.Member>> {
    match items
    case End(_) => Some([])
    case Last(it) => if FieldMeaning(it).Some? then Some([FieldMeaning(it).value]) else None
    case More(it, rest) =>
      if FieldMeaning(it).Some? && Fields(rest).Some? then Some([FieldMeaning(it).value] + Fields(rest).value)
      else None
  }

  // ---------------------------------------------------------------- the launch object

  function Strings(args: seq<string>): seq<J.Json> {
    seq(|args|, k requires 0 <= k < |args| => J.String(args[k]))
  }

  /** What the editor is to read: the kind of server, the command and its arguments. */
  function LaunchObject(reg: Registration): J.Json {
    J.Object([J.Member("type", J.String("custom")), J.Member("command", J.String(reg.command)),
            J.Member("args", J.Array(Strings(reg.args)))])
  }

  predicate Ordinary(s: string) {
    forall c :: c in s ==> c >= ' ' && c != '"' && c != '\\'
  }

  lemma {:induction false} LettersRead(s: string)
    requires Ordinary(s)
    ensures Decoded(Letters(s)) == Some(s)
    decreases |s|
  {
    if s == "" {
      NothingReads();
    } else {
      assert s[0] in s && forall c :: c in s[1..] ==> c in s;
      LettersRead(s[1..]);
      PlainReads(s[0], Letters(s[1..]));
      hide Decoded;
      assert [s[0]] + s[1..] == s;
    }
  }

  lemma {:induction false} ArgsMean(args: seq<string>, pre: seq<Piece>)
    ensures Elements(ArgItems(args, pre)) == Some(Strings(args))
    decreases |args|
  {
    if args == [] {
      assert Strings(args) == [];
    } else {
      StringReads(args[0]);
      StrMeans(StringUnits(args[0]), args[0]);
      hide Decoded, StringUnits, Meaning;
      if |args| > 1 {
        ArgsMean(args[1..], [Gap(' ')]);
        assert Strings(args) == [J.String(args[0])] + Strings(args[1..]);
      } else {
        assert Strings(args) == [J.String(args[0])];
      }
    }
  }

  lemma FieldMeans(key: string, pad: nat, v: Value, post: seq<Piece>, j: J.Json)
    requires Ordinary(key) && Meaning(v) == Some(j)
    ensures FieldMeaning(Field(key, pad, v, post)) == Some(J.Member(key, j))
  {
    LettersRead(key);
    hide Decoded, Letters, Meaning, NewLine;
  }

  lemma ThreeMean(a: Item, b: Item, c: Item)
    requires FieldMeaning(a).Some? && FieldMeaning(b).Some? && FieldMeaning(c).Some?
    ensures Meaning(Obj(ThreeItems(a, b, c))) ==
            Some(J.Object([FieldMeaning(a).value, FieldMeaning(b).value, FieldMeaning(c).value]))
  {
    hide FieldMeaning;
    assert Fields(Last(c)) == Some([FieldMeaning(c).value]);
    assert Fields(More(b, Last(c))) == Some([FieldMeaning(b).value] + [FieldMeaning(c).value]);
    var x, y, z := FieldMeaning(a).value, FieldMeaning(b).value, FieldMeaning(c).value;
    assert Fields(More(a, More(b, Last(c)))) == Some([x] + ([y] + [z]));
    assert [x] + ([y] + [z]) == [x, y, z];
  }

  /** For every command line, the object that is written means the launch object. */
  lemma LaunchObjectWritten(reg: Registration, pad: nat)
    ensures Meaning(ServerValue(reg, pad)) == Some(LaunchObject(reg))
  {
    assert Ordinary("custom");
    LettersRead("custom");
    StringReads(reg.command);
    ArgsMean(reg.args, []);
    hide *;
    var kind, command, args := Str(Letters("custom")), Str(StringUnits(reg.command)), Arr(ArgItems(reg.args, []));
    StrMeans(Letters("custom"), "custom");
    StrMeans(StringUnits(reg.command), reg.command);
    ArrMeans(ArgItems(reg.args, []), Strings(reg.args));
    OrdinaryKeys();
    FieldMeans("type", pad + 2, kind, [], J.String("custom"));
    FieldMeans("command", pad + 2, command, [], J.String(reg.command));
    FieldMeans("args", pad + 2, args, NewLine(pad), J.Array(Strings(reg.args)));
    ThreeMean(Field("type", pad + 2, kind, []), Field("command", pad + 2, command, []),
              Field("args", pad + 2, args, NewLine(pad)));
    LaunchParts(reg, pad);
  }

  lemma LaunchParts(reg: Registration, pad: nat)
    ensures ServerValue(reg, pad) ==
            Obj(ThreeItems(Field("type", pad + 2, Str(Letters("custom")), []),
                           Field("command", pad + 2, Str(StringUnits(reg.command)), []),
                           Field("args", pad + 2, Arr(ArgItems(reg.args, [])), NewLine(pad))))
    ensures LaunchObject(reg) ==
            J.Object([J.Member("type", J.String("custom")), J.Member("command", J.String(reg.command)),
                      J.Member("args", J.Array(Strings(reg.args)))])
  {
    hide Letters, StringUnits, ArgItems, NewLine, Field, ThreeItems, Strings;
  }

  lemma StrMeans(us: seq<Unit>, s: string)
    requires Decoded(us) == Some(s)
    ensures Meaning(Str(us)) == Some(J.String(s))
  {
    hide Decoded;
  }

  lemma ArrMeans(items: Items, js: seq<J.Json>)
    requires Elements(items) == Some(js)
    ensures Meaning(Arr(items)) == Some(J.Array(js))
  {
    hide Elements;
  }

  lemma OrdinaryKeys()
    ensures Ordinary("type") && Ordinary("command") && Ordinary("args")
  {
  }
}
