/** What a JSON string literal means: the escapes of section 7 of RFC 8259, read back to UTF-8 bytes, and
    the proof that what the serializer writes means what it was given.
 */
module JsonStrings {
  import opened Wrappers
  import opened JsoncTree
  import opened JsoncSplice

  // ---------------------------------------------------------------- reading

  function HexValue(c: char): (r: Option<nat>)
    ensures r.Some? ==> r.value < 16
  {
    if '0' <= c <= '9' then Some((c - '0') as nat)
    else if 'a' <= c <= 'f' then Some((c - 'a') as nat + 10)
    else if 'A' <= c <= 'F' then Some((c - 'A') as nat + 10)
    else None
  }

  /** The four hexadecimal digits behind a `u`. */
  function CodeUnit(us: seq<Unit>): (r: Option<nat>)
    ensures r.Some? ==> |us| >= 4 && r.value < 0x1_0000
  {
    if |us| < 4 || exists k :: 0 <= k < 4 && (us[k].Escape? || HexValue(us[k].c).None?) then None
    else
      Some(((HexValue(us[0].c).value * 16 + HexValue(us[1].c).value) * 16 + HexValue(us[2].c).value) * 16
           + HexValue(us[3].c).value)
  }

  function Byte(n: nat): char
    requires n < 256
  {
    n as char
  }

  /** The UTF-8 form of a code point. */
  function Utf8(n: nat): string
    requires n < 0x11_0000
  {
    if n < 0x80 then [Byte(n)]
    else if n < 0x800 then [Byte(0xC0 + n / 0x40), Byte(0x80 + n % 0x40)]
    else if n < 0x1_0000 then [Byte(0xE0 + n / 0x1000), Byte(0x80 + n / 0x40 % 0x40), Byte(0x80 + n % 0x40)]
    else
      [Byte(0xF0 + n / 0x4_0000), Byte(0x80 + n / 0x1000 % 0x40), Byte(0x80 + n / 0x40 % 0x40), Byte(0x80 + n % 0x40)]
  }

  predicate LeadingHalf(n: nat) {
    0xD800 <= n < 0xDC00
  }

  predicate TrailingHalf(n: nat) {
    0xDC00 <= n < 0xE000
  }

  /** The character of a one-letter escape. */
  function Letter(c: char): Option<char> {
    if c == '"' || c == '\\' || c == '/' then Some(c)
    else if c == 'b' then Some('\U{08}')
    else if c == 'f' then Some('\U{0C}')
    else if c == 'n' then Some('\n')
    else if c == 'r' then Some('\r')
    else if c == 't' then Some('\t')
    else None
  }

  function Before(t: string, rest: Option<string>): Option<string> {
    if rest.Some? then Some(t + rest.value) else None
  }

  /** What the pieces of a literal mean, if they are valid JSON. */
  function Decoded(us: seq<Unit>): Option<string>
    decreases |us|
  {
    if us == [] then Some("")
    else match us[0]
      case Plain(c) => if c == '"' || c == '\\' || c < ' ' then None else Before([c], Decoded(us[1..]))
      case Escape(c) =>
        if c != 'u' then if Letter(c).Some? then Before([Letter(c).value], Decoded(us[1..])) else None
        else match CodeUnit(us[1..])
          case None => None
          case Some(n) =>
            if !LeadingHalf(n) && !TrailingHalf(n) then Before(Utf8(n), Decoded(us[5..]))
            else if LeadingHalf(n) && |us| >= 11 && us[5] == Escape('u') && CodeUnit(us[6..]).Some?
                    && TrailingHalf(CodeUnit(us[6..]).value)
            then
              var low := CodeUnit(us[6..]).value;
              Before(Utf8(0x1_0000 + (n - 0xD800) * 0x400 + (low - 0xDC00)), Decoded(us[11..]))
            else None
  }

  // ---------------------------------------------------------------- what is written reads back

  lemma HexReads(n: nat)
    requires n < 16
    ensures HexValue(HexDigit(n)) == Some(n)
  {
  }

  lemma PlainReads(c: char, rest: seq<Unit>)
    requires c != '"' && c != '\\' && c >= ' '
    ensures Decoded([Plain(c)] + rest) == Before([c], Decoded(rest))
  {
    assert ([Plain(c)] + rest)[1..] == rest;
    hide CodeUnit, Utf8;
  }

  lemma LetterReads(c: char, rest: seq<Unit>)
    requires c != 'u' && Letter(c).Some?
    ensures Decoded([Escape(c)] + rest) == Before([Letter(c).value], Decoded(rest))
  {
    assert ([Escape(c)] + rest)[1..] == rest;
    hide CodeUnit, Utf8;
  }

  lemma CodeUnitReads(h: nat, l: nat, rest: seq<Unit>)
    requires h < 16 && l < 16
    ensures CodeUnit([Plain('0'), Plain('0'), Plain(HexDigit(h)), Plain(HexDigit(l))] + rest) == Some(h * 16 + l)
  {
    HexReads(h);
    HexReads(l);
    assert HexValue('0') == Some(0);
    hide HexDigit, HexValue;
  }

  lemma HexEscapeReads(h: nat, l: nat, rest: seq<Unit>)
    requires h < 8 && l < 16
    ensures Decoded([Escape('u'), Plain('0'), Plain('0'), Plain(HexDigit(h)), Plain(HexDigit(l))] + rest) ==
            Before([Byte(h * 16 + l)], Decoded(rest))
  {
    var us := [Escape('u'), Plain('0'), Plain('0'), Plain(HexDigit(h)), Plain(HexDigit(l))] + rest;
    assert us[1..] == [Plain('0'), Plain('0'), Plain(HexDigit(h)), Plain(HexDigit(l))] + rest && us[5..] == rest;
    CodeUnitReads(h, l, rest);
    hide CodeUnit, HexDigit, Letter;
  }

  /** One written byte reads back, whatever follows. */
  lemma EscapeReads(c: char, rest: seq<Unit>)
    ensures Decoded(EscapeUnits(c) + rest) == Before([c], Decoded(rest))
  {
    hide Decoded, HexDigit;
    var us := EscapeUnits(c);
    if us[0].Plain? {
      PlainReads(c, rest);
    } else if us[0].c != 'u' {
      assert Letter(us[0].c) == Some(c);
      LetterReads(us[0].c, rest);
    } else {
      HexEscapeReads(c as int / 16, c as int % 16, rest);
    }
  }

  /** Every string, control characters, quotes and backslashes included, is written so that it means
      itself. */
  lemma {:induction false} StringReads(s: string)
    ensures Decoded(StringUnits(s)) == Some(s)
  {
    hide EscapeUnits, Decoded;
    if s == "" {
      NothingReads();
    } else {
      StringReads(s[1..]);
      EscapeReads(s[0], StringUnits(s[1..]));
      assert [s[0]] + s[1..] == s;
    }
  }

  lemma NothingReads()
    ensures Decoded([]) == Some("")
  {
  }
}
