/** The text that is spliced in, read as a JSONC syntax tree: the member is one well-formed
    object member whatever the command line contains.
 */
module JsoncMemberText {
  import opened JsoncScan
  import opened JsoncTree
  import opened JsoncSplice

  function Gaps(n: nat): seq<Piece> {
    if n == 0 then [] else [Gap(' ')] + Gaps(n - 1)
  }

  function NewLine(n: nat): seq<Piece> {
    [Gap('\n')] + Gaps(n)
  }

  function Letters(s: string): seq<Unit> {
    if s == "" then [] else [Plain(s[0])] + Letters(s[1..])
  }

  /** `"key": value` on a line of its own. */
  function Field(key: string, pad: nat, v: Value, post: seq<Piece>): Item {
    Item(Key(NewLine(pad), Letters(key), [], [Gap(' ')]), v, post)
  }

  function ArgItems(args: seq<string>, pre: seq<Piece>): Items {
    if args == [] then End(pre)
    else
      var it := Item(NoKey(pre), Str(StringUnits(args[0])), []);
      if |args| == 1 then Last(it) else More(it, ArgItems(args[1..], [Gap(' ')]))
  }

  function ThreeItems(a: Item, b: Item, c: Item): Items {
    More(a, More(b, Last(c)))
  }

  /** The object that describes how to launch the agent. */
  function ServerValue(reg: Registration, pad: nat): Value {
    Obj(ThreeItems(Field("type", pad + 2, Str(Letters("custom")), []),
                   Field("command", pad + 2, Str(StringUnits(reg.command)), []),
                   Field("args", pad + 2, Arr(ArgItems(reg.args, [])), NewLine(pad))))
  }

  /** What is spliced in, apart from the comma: `key` with its value and line breaks. */
  function InsertedItem(key: string, v: Value, indent: nat, closeIndent: nat): Item {
    Field(key, indent, v, NewLine(closeIndent))
  }

  function ServersValue(reg: Registration): Value {
    Obj(Last(InsertedItem(SERVER_ID, ServerValue(reg, 4), 4, 2)))
  }

  // ---------------------------------------------------------------- well-formedness

  lemma {:induction false} GapsOk(n: nat)
    ensures TriviaOk(Gaps(n)) && TriviaText(Gaps(n)) == Spaces(n)
  {
    if n > 0 {
      GapsOk(n - 1);
      assert Gaps(n)[1..] == Gaps(n - 1);
    }
  }

  lemma NewLineOk(n: nat)
    ensures TriviaOk(NewLine(n)) && TriviaText(NewLine(n)) == "\n" + Spaces(n) && NewLine(n)[0].Gap?
  {
    GapsOk(n);
    assert NewLine(n)[1..] == Gaps(n);
  }

  lemma {:induction false} LettersOk(s: string)
    requires '"' !in s && '\\' !in s
    ensures UnitsOk(Letters(s)) && UnitsText(Letters(s)) == s
  {
    if s != "" {
      assert s[0] in s && forall c :: c in s[1..] ==> c in s;
      LettersOk(s[1..]);
      assert Letters(s)[1..] == Letters(s[1..]);
    }
  }

  lemma OneBlank()
    ensures TriviaText([Gap(' ')]) == " " && TriviaOk([Gap(' ')]) && TriviaText([]) == "" && TriviaOk([])
  {
    assert [Gap(' ')][1..] == [];
    assert TriviaText([Gap(' ')]) == " " + TriviaText([]);
  }

  lemma FieldOk(key: string, pad: nat, v: Value, post: seq<Piece>)
    requires '"' !in key && '\\' !in key && Ok(v) && !v.Scalar? && TriviaOk(post)
    ensures ItemOk(Field(key, pad, v, post), true) && KeyText(Field(key, pad, v, post)) == key
    ensures ItemText(Field(key, pad, v, post)) == "\n" + Spaces(pad) + "\"" + key + "\": " + Text(v) + TriviaText(post)
  {
    NewLineOk(pad);
    LettersOk(key);
    OneBlank();
    hide TriviaText, TriviaOk, UnitsText, Ok, Text, NewLine, Spaces;
    var h := Field(key, pad, v, post).head;
    assert HeadText(h) == ("\n" + Spaces(pad)) + (("\"" + key + "\"") + ("" + (":" + " ")));
    assert HeadText(h) == "\n" + Spaces(pad) + "\"" + key + "\": ";
  }

  lemma {:induction false} ArgItemsOk(args: seq<string>, pre: seq<Piece>)
    requires TriviaOk(pre)
    ensures ItemsOk(ArgItems(args, pre), false)
    decreases |args|
  {
    OneBlank();
    hide TriviaOk, StringUnits;
    if args != [] {
      var it := Item(NoKey(pre), Str(StringUnits(args[0])), []);
      assert ItemOk(it, false);
      if |args| > 1 { ArgItemsOk(args[1..], [Gap(' ')]); }
    }
  }

  lemma {:induction false} ArgItemsText(args: seq<string>, pre: seq<Piece>)
    requires args != []
    ensures ItemsText(ArgItems(args, pre)) == TriviaText(pre) + JoinedArgs(args)
    decreases |args|
  {
    OneBlank();
    hide StringUnits, Quoted, TriviaText;
    var it := Item(NoKey(pre), Str(StringUnits(args[0])), []);
    assert ItemText(it) == TriviaText(pre) + JsonString(args[0]);
    if |args| > 1 { ArgItemsText(args[1..], [Gap(' ')]); }
  }

  lemma ArgsText(args: seq<string>)
    ensures Text(Arr(ArgItems(args, []))) == "[" + JoinedArgs(args) + "]"
  {
    OneBlank();
    if args != [] {
      ArgItemsText(args, []);
      assert "" + JoinedArgs(args) == JoinedArgs(args);
    }
    hide ItemsText, JoinedArgs;
    assert "[" + (JoinedArgs(args) + "]") == "[" + JoinedArgs(args) + "]";
  }

  lemma ThreeItemsText(a: Item, b: Item, c: Item)
    ensures ItemsText(ThreeItems(a, b, c)) == ItemText(a) + ("," + (ItemText(b) + ("," + ItemText(c))))
    ensures ItemOk(a, true) && ItemOk(b, true) && ItemOk(c, true) ==> ItemsOk(ThreeItems(a, b, c), true)
  {
    hide ItemText, ItemOk;
    assert ItemsText(More(b, Last(c))) == ItemText(b) + ("," + ItemText(c));
    assert ItemsOk(Last(c), true) == ItemOk(c, true);
  }

  lemma PlainText(s: string)
    requires '"' !in s && '\\' !in s
    ensures Ok(Str(Letters(s))) && Text(Str(Letters(s))) == "\"" + s + "\""
  {
    hide Letters;
    LettersOk(s);
  }

  lemma EscapedText(s: string)
    ensures Ok(Str(StringUnits(s))) && Text(Str(StringUnits(s))) == JsonString(s)
  {
    hide StringUnits;
  }

  lemma ListOk(args: seq<string>)
    ensures Ok(Arr(ArgItems(args, [])))
  {
    hide ArgItems;
    ArgItemsOk(args, []);
  }

  lemma ServerParts(reg: Registration, pad: nat, a: Item, b: Item, c: Item)
    requires a == Field("type", pad + 2, Str(Letters("custom")), [])
    requires b == Field("command", pad + 2, Str(StringUnits(reg.command)), [])
    requires c == Field("args", pad + 2, Arr(ArgItems(reg.args, [])), NewLine(pad))
    ensures ServerValue(reg, pad) == Obj(ThreeItems(a, b, c))
  {
    hide Field, Letters, StringUnits, ArgItems, NewLine, ThreeItems;
  }

  lemma ServerFields(reg: Registration, pad: nat) returns (a: Item, b: Item, c: Item)
    ensures ServerValue(reg, pad) == Obj(ThreeItems(a, b, c))
    ensures ItemOk(a, true) && ItemOk(b, true) && ItemOk(c, true)
    ensures ItemText(a) == "\n" + Spaces(pad + 2) + "\"" + "type" + "\": " + ("\"" + "custom" + "\"") + ""
    ensures ItemText(b) == "\n" + Spaces(pad + 2) + "\"" + "command" + "\": " + JsonString(reg.command) + ""
    ensures ItemText(c) == "\n" + Spaces(pad + 2) + "\"" + "args" + "\": " + ("[" + JoinedArgs(reg.args) + "]") +
            ("\n" + Spaces(pad))
  {
    hide *;
    NewLineOk(pad);
    OneBlank();
    PlainText("custom");
    EscapedText(reg.command);
    ListOk(reg.args);
    ArgsText(reg.args);
    a := Field("type", pad + 2, Str(Letters("custom")), []);
    b := Field("command", pad + 2, Str(StringUnits(reg.command)), []);
    c := Field("args", pad + 2, Arr(ArgItems(reg.args, [])), NewLine(pad));
    FieldOk("type", pad + 2, Str(Letters("custom")), []);
    FieldOk("command", pad + 2, Str(StringUnits(reg.command)), []);
    FieldOk("args", pad + 2, Arr(ArgItems(reg.args, [])), NewLine(pad));
    ServerParts(reg, pad, a, b, c);
  }

  lemma ServerValueOk(reg: Registration, pad: nat)
    ensures Ok(ServerValue(reg, pad))
  {
    hide ItemOk, ItemsOk, ServerValue, ThreeItems;
    var a, b, c := ServerFields(reg, pad);
    ThreeItemsText(a, b, c);
  }

  // ---------------------------------------------------------------- the text is that tree's

  lemma LineOf(s: string, key: string, v: string, t: string)
    ensures "\n" + (s + (key + (v + t))) == ("\n" + s + key + v + "") + t
  {
  }

  lemma LastLine(s: string, args: string, e: string)
    ensures "\n" + (s + ("\"args\": [" + (args + ("]\n" + (e + "}"))))) ==
            ("\n" + s + "\"args\": " + ("[" + args + "]") + ("\n" + e)) + "}"
  {
    var l, r := "\n" + (s + ("\"args\": [" + (args + ("]\n" + (e + "}"))))),
                ("\n" + s + "\"args\": " + ("[" + args + "]") + ("\n" + e)) + "}";
    assert "\"args\": [" == "\"args\": " + "[" && "]\n" == "]" + "\n";
  }

  lemma Nested(a: string, b: string, c: string)
    ensures "{" + ((a + ("," + (b + ("," + c)))) + "}") == "{" + (a + ("," + (b + ("," + (c + "}")))))
  {
  }

  lemma MemberLayout(s: string, command: string, args: string, e: string)
    ensures "\"rpi\": {\n" + s + "\"type\": \"custom\",\n" + s + "\"command\": " + command + ",\n" + s +
            "\"args\": [" + args + "]\n" + e + "}"
         == "\"rpi\": " + ("{" + ((("\n" + s + "\"type\": " + "\"custom\"" + "")
              + ("," + (("\n" + s + "\"command\": " + command + "")
              + ("," + ("\n" + s + "\"args\": " + ("[" + args + "]") + ("\n" + e)))))) + "}"))
  {
    var a := "\n" + s + "\"type\": " + "\"custom\"" + "";
    var b := "\n" + s + "\"command\": " + command + "";
    var c := "\n" + s + "\"args\": " + ("[" + args + "]") + ("\n" + e);
    var tail := s + ("\"args\": [" + (args + ("]\n" + (e + "}"))));
    Nested(a, b, c);
    LastLine(s, args, e);
    var second := "," + ("\n" + tail);
    LineOf(s, "\"command\": ", command, second);
    var middle := s + ("\"command\": " + (command + second));
    LineOf(s, "\"type\": ", "\"custom\"", "," + ("\n" + middle));
    FrontOfLayout(s, middle);
    BackOfLayout(s, command, tail, args, e);
  }

  lemma FrontOfLayout(s: string, middle: string)
    ensures "\"rpi\": " + ("{" + ("\n" + (s + ("\"type\": " + ("\"custom\"" + ("," + ("\n" + middle)))))))
         == "\"rpi\": {\n" + s + "\"type\": \"custom\",\n" + middle
  {
    assert "\"rpi\": {\n" == "\"rpi\": " + "{" + "\n" &&
           "\"type\": \"custom\",\n" == "\"type\": " + "\"custom\"" + "," + "\n";
  }

  lemma BackOfLayout(s: string, command: string, tail: string, args: string, e: string)
    requires tail == s + ("\"args\": [" + (args + ("]\n" + (e + "}"))))
    ensures forall x :: x + (s + ("\"command\": " + (command + ("," + ("\n" + tail)))))
                     == x + s + "\"command\": " + command + ",\n" + s + "\"args\": [" + args + "]\n" + e + "}"
  {
    assert ",\n" == "," + "\n";
  }

  lemma ServerValueText(reg: Registration, pad: nat)
    ensures Member(reg, pad) == "\"rpi\": " + Text(ServerValue(reg, pad))
  {
    hide ItemOk, ItemsText, ItemText, ServerValue, ThreeItems, Member, Spaces, JsonString, JoinedArgs;
    var a, b, c := ServerFields(reg, pad);
    ThreeItemsText(a, b, c);
    ServerLayout(reg, pad, ItemText(a), ItemText(b), ItemText(c));
  }

  lemma ServerLayout(reg: Registration, pad: nat, a: string, b: string, c: string)
    requires a == "\n" + Spaces(pad + 2) + "\"" + "type" + "\": " + ("\"" + "custom" + "\"") + ""
    requires b == "\n" + Spaces(pad + 2) + "\"" + "command" + "\": " + JsonString(reg.command) + ""
    requires c == "\n" + Spaces(pad + 2) + "\"" + "args" + "\": " + ("[" + JoinedArgs(reg.args) + "]") +
             ("\n" + Spaces(pad))
    ensures Member(reg, pad) == "\"rpi\": " + ("{" + ((a + ("," + (b + ("," + c)))) + "}"))
  {
    hide Spaces, JsonString, JoinedArgs;
    var s := Spaces(pad + 2);
    KeyLayout(s, "type");
    KeyLayout(s, "command");
    KeyLayout(s, "args");
    assert "\"" + "custom" + "\"" == "\"custom\"";
    assert "\"" + "type" + "\": " == "\"type\": " && "\"" + "command" + "\": " == "\"command\": " &&
           "\"" + "args" + "\": " == "\"args\": ";
    MemberLayout(s, JsonString(reg.command), JoinedArgs(reg.args), Spaces(pad));
  }

  lemma KeyLayout(s: string, key: string)
    ensures "\n" + s + "\"" + key + "\": " == "\n" + s + ("\"" + key + "\": ")
  {
  }

  /** A member spliced in with its indentation is one printed object member. */
  lemma InsertedText(key: string, v: Value, member: string, indent: nat, closeIndent: nat)
    requires '"' !in key && '\\' !in key && Ok(v) && !v.Scalar? && member == "\"" + key + "\": " + Text(v)
    ensures ItemOk(InsertedItem(key, v, indent, closeIndent), true)
    ensures KeyText(InsertedItem(key, v, indent, closeIndent)) == key
    ensures Inserted(member, indent, closeIndent) == ItemText(InsertedItem(key, v, indent, closeIndent))
  {
    hide TriviaText, TriviaOk, Spaces, Text, Ok, ItemOk, ItemText, Field;
    NewLineOk(closeIndent);
    FieldOk(key, indent, v, NewLine(closeIndent));
    InsertedLayout(Spaces(indent), key, Text(v), Spaces(closeIndent));
  }

  lemma InsertedLayout(s: string, key: string, v: string, e: string)
    ensures "\n" + s + ("\"" + key + "\": " + v) + "\n" + e == "\n" + s + "\"" + key + "\": " + v + ("\n" + e)
  {
  }

  lemma MemberItem(reg: Registration)
    ensures ItemOk(InsertedItem(SERVER_ID, ServerValue(reg, 4), 4, 2), true)
    ensures KeyText(InsertedItem(SERVER_ID, ServerValue(reg, 4), 4, 2)) == SERVER_ID
    ensures Inserted(Member(reg, 4), 4, 2) == ItemText(InsertedItem(SERVER_ID, ServerValue(reg, 4), 4, 2))
  {
    hide Member, ServerValue, Text, Ok, InsertedItem, Inserted, ItemOk, ItemText, KeyText;
    ServerValueOk(reg, 4);
    ServerValueText(reg, 4);
    ServerValueIsObject(reg);
    assert "\"rpi\": " + Text(ServerValue(reg, 4)) == "\"" + SERVER_ID + "\": " + Text(ServerValue(reg, 4));
    InsertedText(SERVER_ID, ServerValue(reg, 4), Member(reg, 4), 4, 2);
  }

  lemma ServerValueIsObject(reg: Registration)
    ensures ServerValue(reg, 4).Obj?
  {
  }

  lemma BlockLayout(s: string, m: string, e: string)
    requires s == "    " && e == "  "
    ensures "\"agent_servers\": {\n" + "    " + m + "\n  }" == "\"" + AGENT_SERVERS + "\": " +
            ("{" + (("\n" + s + m + "\n" + e) + "}"))
  {
  }

  lemma SpacesFourTwo()
    ensures Spaces(4) == "    " && Spaces(2) == "  "
  {
    assert Spaces(1) == " ";
    assert Spaces(2) == "  ";
    assert Spaces(3) == "   ";
  }

  lemma BlockItem(reg: Registration)
    ensures Ok(ServersValue(reg))
    ensures ItemOk(InsertedItem(AGENT_SERVERS, ServersValue(reg), 2, 0), true)
    ensures KeyText(InsertedItem(AGENT_SERVERS, ServersValue(reg), 2, 0)) == AGENT_SERVERS
    ensures Inserted(ServersBlock(reg), 2, 0) == ItemText(InsertedItem(AGENT_SERVERS, ServersValue(reg), 2, 0))
  {
    hide Member, ServerValue, InsertedItem, ItemOk, ItemText, KeyText, Spaces;
    MemberItem(reg);
    SpacesFourTwo();
    BlockLayout(Spaces(4), Member(reg, 4), Spaces(2));
    assert Ok(ServersValue(reg));
    assert Text(ServersValue(reg)) == "{" + (Inserted(Member(reg, 4), 4, 2) + "}");
    InsertedText(AGENT_SERVERS, ServersValue(reg), ServersBlock(reg), 2, 0);
  }
}
