/** Removing the invocation's credential from host replies. The caller never passes an empty key. */
module Redact {
  import opened Wrappers
  import opened Json

  const MARK := "[redacted]"

  // ---------------------------------------------------------------- one string

  predicate OccursAt(s: string, key: string, i: nat) {
    i + |key| <= |s| && s[i..i + |key|] == key
  }

  predicate Contains(s: string, key: string) {
    exists i :: 0 <= i <= |s| && OccursAt(s, key, i)
  }

  /** The leftmost occurrence from `i` on. */
  function FindFrom(s: string, key: string, i: nat): (r: Option<nat>)
    requires i <= |s|
    ensures r.Some? ==> i <= r.value <= |s| && OccursAt(s, key, r.value)
    ensures forall k :: i <= k < (if r.Some? then r.value else |s| + 1) ==> !OccursAt(s, key, k)
    decreases |s| - i
  {
    if OccursAt(s, key, i) then Some(i) else if i == |s| then None else FindFrom(s, key, i + 1)
  }

  /** Every occurrence, left to right and not overlapping, becomes the mark. */
  function Replace(s: string, key: string): string
    requires key != ""
    decreases |s|
  {
    match FindFrom(s, key, 0)
    case None => s
    case Some(i) => s[..i] + (MARK + Replace(s[i + |key|..], key))
  }

  /** One of the texts begins with the other. */
  predicate Fits(a: string, b: string) {
    a <= b || b <= a
  }

  /** The key can begin inside a mark and go on behind it. */
  predicate ClashAt(key: string, o: nat) {
    o < |MARK| && Fits(MARK[o..], key)
  }

  /** The first `t` characters of the key can stand in front of an occurrence, whose mark then
      completes them. */
  predicate ClashBefore(key: string, t: nat) {
    1 <= t < |key| && Fits(MARK, key[t..]) && FindFrom(key[..t] + key, key, 0) == Some(t)
  }

  /** The overlaps of key and mark that let a replaced key come back. */
  predicate Clashes(key: string) {
    || (exists o: nat :: o < |MARK| && ClashAt(key, o))
    || (exists t: nat :: t < |key| && ClashBefore(key, t))
  }

  // ---------------------------------------------------------------- no clash, no key

  lemma OccursInPart(r: string, a: nat, part: string, key: string, j: nat)
    requires a <= j && j + |key| <= a + |part| <= |r| && r[a..a + |part|] == part
    ensures OccursAt(r, key, j) <==> OccursAt(part, key, j - a)
  {
    SliceOfSlice(r, a, part, j, |key|);
  }

  lemma SliceOfSlice(r: string, a: nat, part: string, j: nat, n: nat)
    requires a <= j && j + n <= a + |part| <= |r| && r[a..a + |part|] == part
    ensures r[j..j + n] == part[j - a..j - a + n]
  {
    forall k {:trigger r[j..j + n][k]} | 0 <= k < n ensures r[j..j + n][k] == part[j - a..j - a + n][k] {
      assert r[a..a + |part|][j - a + k] == part[j - a + k];
    }
  }

  /** An occurrence seen from an index inside it. */
  lemma OccursFrom(r: string, key: string, j: nat, at: nat)
    requires OccursAt(r, key, j) && j <= at <= j + |key|
    ensures at <= |r| && key[at - j..] <= r[at..] && r[j..at] == key[..at - j]
  {
    var n := |key|;
    forall k | 0 <= k < n - (at - j) ensures key[at - j..][k] == r[at..][k] {
      assert r[j..j + n][at - j + k] == r[at + k];
    }
    forall k | 0 <= k < at - j ensures r[j..at][k] == key[..at - j][k] {
      assert r[j..j + n][k] == r[j + k];
    }
  }

  lemma PrefixesFit(a: string, b: string, whole: string)
    requires a <= whole && b <= whole
    ensures Fits(a, b)
  {
    if |a| <= |b| { assert a == whole[..|a|] == b[..|a|]; } else { assert b == whole[..|b|] == a[..|b|]; }
  }

  /** An occurrence that begins in the mark. */
  lemma FromMark(p: string, rest: string, key: string, j: nat)
    requires OccursAt(p + (MARK + rest), key, j) && |p| <= j < |p| + |MARK|
    ensures ClashAt(key, j - |p|)
  {
    var r := p + (MARK + rest);
    OccursFrom(r, key, j, j);
    assert key[0..] == key;
    assert r[j..] == MARK[j - |p|..] + rest;
    PrefixesFit(MARK[j - |p|..], key, r[j..]);
  }

  /** An occurrence that begins in front of the mark, where the text held no key. */
  lemma IntoMark(s: string, i: nat, rest: string, key: string, j: nat)
    requires i <= |s| && FindFrom(s, key, 0) == Some(i)
    requires OccursAt(s[..i] + (MARK + rest), key, j) && j < i < j + |key|
    ensures ClashBefore(key, i - j)
  {
    hide *;
    var r, t := s[..i] + (MARK + rest), i - j;
    MarkThere(s, i, rest, j);
    OccursFrom(r, key, j, i);
    PrefixesFit(MARK, key[t..], r[i..]);
    FoundAt(s, key, i);
    TwoSlices(s, j, i, i + |key|);
    FirstInSlice(s, key, i, j, key[..t] + key);
    BeforeClash(key, t);
  }

  lemma MarkThere(s: string, i: nat, rest: string, j: nat)
    requires j <= i <= |s|
    ensures var r := s[..i] + (MARK + rest); i <= |r| && r[i..] == MARK + rest && r[j..i] == s[j..i] && MARK <= r[i..]
  {
  }

  lemma FoundAt(s: string, key: string, i: nat)
    requires FindFrom(s, key, 0) == Some(i)
    ensures i + |key| <= |s| && s[i..i + |key|] == key
  {
  }

  lemma TwoSlices(s: string, a: nat, b: nat, c: nat)
    requires a <= b <= c <= |s|
    ensures s[a..c] == s[a..b] + s[b..c]
  {
  }

  lemma BeforeClash(key: string, t: nat)
    requires 1 <= t < |key| && Fits(MARK, key[t..]) && FindFrom(key[..t] + key, key, 0) == Some(t)
    ensures ClashBefore(key, t)
  {
    hide Fits, FindFrom;
  }

  /** The first occurrence stays the first in a slice that ends with it. */
  lemma FirstInSlice(s: string, key: string, i: nat, j: nat, part: string)
    requires i <= |s| && FindFrom(s, key, 0) == Some(i) && j <= i && i + |key| <= |s| && part == s[j..i + |key|]
    ensures FindFrom(part, key, 0) == Some(i - j)
  {
    hide OccursAt, FindFrom;
    forall k | 0 <= k <= i - j ensures OccursAt(part, key, k) <==> k == i - j {
      FirstOnly(s, key, i, j + k);
      OccursInPart(s, j, part, key, j + k);
    }
    FoundFirst(part, key, i - j);
  }

  lemma FirstOnly(s: string, key: string, i: nat, k: nat)
    requires i <= |s| && FindFrom(s, key, 0) == Some(i) && k <= i
    ensures OccursAt(s, key, k) <==> k == i
  {
  }

  lemma FoundFirst(s: string, key: string, i: nat)
    requires i <= |s| && OccursAt(s, key, i) && forall k :: 0 <= k < i ==> !OccursAt(s, key, k)
    ensures FindFrom(s, key, 0) == Some(i)
  {
    var f := FindFrom(s, key, 0);
    assert f.None? ==> !OccursAt(s, key, i);
  }

  lemma PlaceOfOccurrence(s: string, i: nat, rest: string, key: string, j: nat)
    requires key != "" && !Clashes(key) && i <= |s| && FindFrom(s, key, 0) == Some(i) && !Contains(rest, key)
    ensures !OccursAt(s[..i] + (MARK + rest), key, j)
  {
    hide *;
    var r := s[..i] + (MARK + rest);
    if OccursAt(r, key, j) {
      OccursBounds(r, key, j);
      if j >= i + |MARK| {
        InRest(s[..i], rest, key, j);
      } else if j >= i {
        FromMark(s[..i], rest, key, j);
        Clash(key, j - i);
      } else if j + |key| <= i {
        InFront(s, i, rest, key, j);
      } else {
        IntoMark(s, i, rest, key, j);
        Clash(key, i - j);
      }
      assert false;
    }
  }

  lemma InRest(p: string, rest: string, key: string, j: nat)
    requires OccursAt(p + (MARK + rest), key, j) && j >= |p| + |MARK|
    ensures Contains(rest, key)
  {
    var r := p + (MARK + rest);
    OccursBounds(r, key, j);
    hide OccursAt, Contains;
    assert r[|p| + |MARK|..|p| + |MARK| + |rest|] == rest;
    OccursInPart(r, |p| + |MARK|, rest, key, j);
    Occurs(rest, key, j - |p| - |MARK|);
  }

  /** The text in front of the first occurrence holds none. */
  lemma InFront(s: string, i: nat, rest: string, key: string, j: nat)
    requires i <= |s| && FindFrom(s, key, 0) == Some(i) && j + |key| <= i && j < i
    ensures !OccursAt(s[..i] + (MARK + rest), key, j)
  {
    hide *;
    var p := s[..i];
    MarkThere(s, i, rest, 0);
    FrontSlice(s, i);
    OccursInPart(p + (MARK + rest), 0, p, key, j);
    OccursInPart(s, 0, p, key, j);
    FirstOnly(s, key, i, j);
  }

  lemma FrontSlice(s: string, i: nat)
    requires i <= |s|
    ensures s[0..i] == s[..i]
  {
  }

  lemma OccursBounds(r: string, key: string, j: nat)
    requires OccursAt(r, key, j)
    ensures j + |key| <= |r|
  {
  }

  lemma Occurs(s: string, key: string, i: nat)
    requires OccursAt(s, key, i)
    ensures Contains(s, key)
  {
  }

  lemma Clash(key: string, n: nat)
    requires ClashAt(key, n) || ClashBefore(key, n)
    ensures Clashes(key)
  {
    hide FindFrom;
  }

  /** Without a clash no replaced text contains the key. */
  lemma {:induction false} ReplaceFrees(s: string, key: string)
    requires key != "" && !Clashes(key)
    ensures !Contains(Replace(s, key), key)
    decreases |s|
  {
    hide Clashes;
    var f := FindFrom(s, key, 0);
    if f.Some? {
      var i := f.value;
      var rest := Replace(s[i + |key|..], key);
      ReplaceFrees(s[i + |key|..], key);
      forall j | 0 <= j <= |Replace(s, key)| ensures !OccursAt(Replace(s, key), key, j) {
        PlaceOfOccurrence(s, i, rest, key, j);
      }
    }
  }

  lemma ReplaceNothing(s: string, key: string)
    requires key != "" && !Contains(s, key)
    ensures Replace(s, key) == s
  {
    var f := FindFrom(s, key, 0);
    assert f.None? || OccursAt(s, key, f.value);
  }

  // ---------------------------------------------------------------- every clash has its text

  /** Replacing in a text with one early occurrence and too little behind it for another. */
  lemma ReplaceOne(p: string, key: string, w: string)
    requires key != "" && |w| < |key| && FindFrom(p + key, key, 0) == Some(|p|)
    ensures Replace(p + key + w, key) == p + (MARK + w)
  {
    var s := p + key + w;
    assert s[|p|..|p| + |key|] == key;
    assert s[0..|p + key|] == p + key;
    forall k | 0 <= k < |p| ensures !OccursAt(s, key, k) { OccursInPart(s, 0, p + key, key, k); }
    FoundFirst(s, key, |p|);
    assert s[..|p|] == p && s[|p| + |key|..] == w;
    TooShort(w, key);
    ReplaceNothing(w, key);
  }

  lemma TooShort(w: string, key: string)
    requires |w| < |key|
    ensures !Contains(w, key)
  {
  }

  /** What is left of the key behind the part that the mark covers. */
  function Beyond(a: string, b: string): string {
    if a <= b then b[|a|..] else ""
  }

  lemma FitsBeyond(a: string, b: string)
    requires Fits(a, b) && a != "" && b != ""
    ensures b <= a + Beyond(a, b) && |Beyond(a, b)| < |b|
  {
    if a <= b { assert b == a + b[|a|..]; }
  }

  lemma FoundAtOnce(key: string)
    ensures FindFrom("" + key, key, 0) == Some(|""|)
  {
    assert "" + key == key;
    assert OccursAt(key, key, 0);
    FoundFirst(key, key, 0);
  }

  lemma BehindMark(key: string, o: nat, w: string)
    requires o < |MARK| && key <= MARK[o..] + w
    ensures Contains("" + (MARK + w), key)
  {
    hide Contains;
    var r := "" + (MARK + w);
    assert r[o..] == MARK[o..] + w;
    PrefixOccurs(r, key, o);
  }

  lemma ClashAtFacts(key: string, o: nat)
    requires ClashAt(key, o)
    ensures o < |MARK| && MARK[o..] != "" && Fits(MARK[o..], key)
  {
    hide Fits;
  }

  lemma ClashAtFails(key: string, o: nat) returns (s: string)
    requires key != "" && ClashAt(key, o)
    ensures Contains(Replace(s, key), key)
  {
    hide *;
    ClashAtFacts(key, o);
    FitsBeyond(MARK[o..], key);
    var w := Beyond(MARK[o..], key);
    s := "" + key + w;
    FoundAtOnce(key);
    ReplaceOne("", key, w);
    BehindMark(key, o, w);
  }

  lemma ClashBeforeFacts(key: string, t: nat)
    requires ClashBefore(key, t)
    ensures 1 <= t < |key| && MARK != "" && key[t..] != "" && Fits(MARK, key[t..])
    ensures FindFrom(key[..t] + key, key, 0) == Some(|key[..t]|)
  {
    hide Fits, FindFrom;
  }

  lemma AroundMark(key: string, t: nat, w: string)
    requires t < |key| && key[t..] <= MARK + w
    ensures Contains(key[..t] + (MARK + w), key)
  {
    hide Contains;
    var r := key[..t] + (MARK + w);
    assert key == key[..t] + key[t..] && r[0..] == r;
    assert key <= r;
    PrefixOccurs(r, key, 0);
  }

  lemma ClashBeforeFails(key: string, t: nat) returns (s: string)
    requires ClashBefore(key, t)
    ensures Contains(Replace(s, key), key)
  {
    hide *;
    ClashBeforeFacts(key, t);
    FitsBeyond(MARK, key[t..]);
    var w := Beyond(MARK, key[t..]);
    s := key[..t] + key + w;
    ReplaceOne(key[..t], key, w);
    AroundMark(key, t, w);
  }

  lemma PrefixOccurs(r: string, key: string, i: nat)
    requires i <= |r| && key <= r[i..]
    ensures Contains(r, key)
  {
    assert r[i..][..|key|] == r[i..i + |key|];
    assert OccursAt(r, key, i);
  }

  /** The exact condition: no text keeps or regains the key if and only if key and mark do not
      clash. */
  lemma SafeExactly(key: string)
    requires key != ""
    ensures (forall s :: !Contains(Replace(s, key), key)) <==> !Clashes(key)
  {
    hide Contains, Replace, ClashAt, ClashBefore;
    if Clashes(key) {
      if o: nat :| o < |MARK| && ClashAt(key, o) {
        var s := ClashAtFails(key, o);
        assert Contains(Replace(s, key), key);
      } else {
        var t: nat :| t < |key| && ClashBefore(key, t);
        var s := ClashBeforeFails(key, t);
        assert Contains(Replace(s, key), key);
      }
    } else {
      forall s ensures !Contains(Replace(s, key), key) { ReplaceFrees(s, key); }
    }
  }

  predicate BracketFree(key: string) {
    '[' !in key && ']' !in key
  }

  /** For keys without brackets the replacement is safe on all texts exactly when the key is not
      part of the word in the mark. */
  lemma SafeKeys(key: string)
    requires key != "" && BracketFree(key)
    ensures Clashes(key) <==> Contains("redacted", key)
    ensures (forall s :: !Contains(Replace(s, key), key)) <==> !Contains("redacted", key)
  {
    SafeExactly(key);
    hide Replace, OccursAt, FindFrom, Clashes, ClashAt, ClashBefore;
    if Contains("redacted", key) {
      var i :| 0 <= i <= |"redacted"| && OccursAt("redacted", key, i);
      WordClashes(key, i);
    }
    if Clashes(key) { ClashesInWord(key); }
  }

  lemma ClashesInWord(key: string)
    requires key != "" && BracketFree(key) && Clashes(key)
    ensures Contains("redacted", key)
  {
    hide Contains, ClashAt, ClashBefore;
    if o: nat :| o < |MARK| && ClashAt(key, o) {
      ClashInWord(key, o);
    } else {
      var t: nat :| t < |key| && ClashBefore(key, t);
      NoBracketAhead(key, t);
      assert false;
    }
  }

  lemma WordClashes(key: string, i: nat)
    requires key != "" && OccursAt("redacted", key, i)
    ensures Clashes(key)
  {
    assert MARK[1..9] == "redacted";
    OccursInPart(MARK, 1, "redacted", key, i + 1);
    OccursFrom(MARK, key, i + 1, i + 1);
    assert key[0..] == key;
    Clash(key, i + 1);
  }

  lemma ClashInWord(key: string, o: nat)
    requires key != "" && BracketFree(key) && ClashAt(key, o)
    ensures Contains("redacted", key)
  {
    assert MARK[0] == '[' && MARK[9] == ']' && MARK[1..9] == "redacted";
    var m := MARK[o..];
    assert m[9 - o] == ']';
    EndsBefore(m, key, 9 - o);
    assert key <= m;
    assert key[0] == m[0] == MARK[o];
    PrefixOccursAt(MARK, key, o);
    OccursInPart(MARK, 1, "redacted", key, o);
    Occurs("redacted", key, o - 1);
  }

  lemma SameAt(a: string, b: string, n: nat)
    requires Fits(a, b) && n < |a| && n < |b|
    ensures a[n] == b[n] && b[n] in b
  {
  }

  lemma EndsBefore(m: string, key: string, n: nat)
    requires Fits(m, key) && BracketFree(key) && n < |m| && m[n] == ']'
    ensures |key| <= n
  {
    if n < |key| {
      SameAt(m, key, n);
      assert false;
    }
  }

  lemma PrefixOccursAt(r: string, key: string, i: nat)
    requires i <= |r| && key <= r[i..]
    ensures OccursAt(r, key, i)
  {
    assert r[i..][..|key|] == r[i..i + |key|];
  }

  lemma NoBracketAhead(key: string, t: nat)
    requires BracketFree(key)
    ensures !ClashBefore(key, t)
  {
    hide FindFrom;
    if 1 <= t < |key| {
      assert key[t..][0] == key[t] && MARK[0] == '[';
      assert key[t] in key;
    }
  }

  /** With a bracket in the key the text before an occurrence can join the mark to a new one. */
  lemma BracketKeyFails()
    ensures Clashes("x[") && Replace("xx[", "x[") == "x[redacted]" && Contains("x[redacted]", "x[")
  {
    hide Contains, Replace, Clashes;
    var p, key := "x", "x[";
    JoinedKey();
    Clash(key, 1);
    ReplaceOne(p, key, "");
    assert p + key + "" == "xx[" && p + (MARK + "") == "x[redacted]";
    assert "x[redacted]"[0..] == "x[redacted]" && key <= "x[redacted]";
    PrefixOccurs("x[redacted]", key, 0);
  }

  lemma JoinedKey()
    ensures ClashBefore("x[", 1) && FindFrom("x" + "x[", "x[", 0) == Some(1)
  {
    var key, both := "x[", "x" + "x[";
    assert both[0..2] == "xx" && both[1..3] == key;
    FoundFirst(both, key, 1);
    hide FindFrom;
    assert key[..1] == "x" && key[1..] == "[" && "[" <= MARK;
  }

  // ---------------------------------------------------------------- the tree

  function Redacted(j: Json, key: string): Json
    requires key != ""
    decreases j, 0
  {
    match j
    case String(s) => String(Replace(s, key))
    case Object(members) => Object(RedactedMembers(members, key))
    case Array(items) => Array(RedactedItems(items, key))
    case _ => j
  }

  function RedactedItems(items: seq<Json>, key: string): seq<Json>
    requires key != ""
    decreases items, 1
  {
    if items == [] then [] else [Redacted(items[0], key)] + RedactedItems(items[1..], key)
  }

  /** Properties whose name contains the key are dropped, never renamed. */
  function RedactedMembers(members: seq<Member>, key: string): seq<Member>
    requires key != ""
    decreases members, 1
  {
    if members == [] then []
    else
      var rest := RedactedMembers(members[1..], key);
      if Contains(members[0].name, key) then rest else [Member(members[0].name, Redacted(members[0].value, key))] + rest
  }

  /** No string and no property name at any depth contains the key. */
  predicate Free(j: Json, key: string)
    decreases j
  {
    match j
    case String(s) => !Contains(s, key)
    case Object(members) => forall i :: 0 <= i < |members| ==> FreeMember(members[i], key)
    case Array(items) => forall i :: 0 <= i < |items| ==> Free(items[i], key)
    case _ => true
  }

  predicate FreeMember(m: Member, key: string)
    decreases m
  {
    !Contains(m.name, key) && Free(m.value, key)
  }

  lemma {:induction false} RedactFrees(j: Json, key: string)
    requires key != "" && !Clashes(key)
    ensures Free(Redacted(j, key), key)
    decreases j, 0
  {
    hide Contains, Replace, Clashes;
    match j
    case String(s) => ReplaceFrees(s, key);
    case Object(members) => MembersFree(members, key);
    case Array(items) => ItemsFree(items, key);
    case _ =>
  }

  lemma {:induction false} ItemsFree(items: seq<Json>, key: string)
    requires key != "" && !Clashes(key)
    ensures forall i :: 0 <= i < |RedactedItems(items, key)| ==> Free(RedactedItems(items, key)[i], key)
    decreases items, 1
  {
    hide Contains, Free, Redacted, Clashes;
    if items != [] {
      RedactFrees(items[0], key);
      ItemsFree(items[1..], key);
    }
  }

  lemma {:induction false} MembersFree(members: seq<Member>, key: string)
    requires key != "" && !Clashes(key)
    ensures forall i :: 0 <= i < |RedactedMembers(members, key)| ==> FreeMember(RedactedMembers(members, key)[i], key)
    decreases members, 1
  {
    hide Contains, Redacted, Clashes;
    if members != [] {
      var m := members[0];
      var rest := RedactedMembers(members[1..], key);
      RedactFrees(m.value, key);
      MembersFree(members[1..], key);
      if !Contains(m.name, key) {
        var first := Member(m.name, Redacted(m.value, key));
        assert FreeMember(first, key);
        assert RedactedMembers(members, key) == [first] + rest;
      }
    }
  }

  /** The exact condition for whole trees. */
  lemma TreesSafeExactly(key: string)
    requires key != ""
    ensures (forall j :: Free(Redacted(j, key), key)) <==> !Clashes(key)
  {
    hide *;
    if Clashes(key) {
      var j := TreeFails(key);
    } else {
      forall j ensures Free(Redacted(j, key), key) { RedactFrees(j, key); }
    }
  }

  lemma TreeFails(key: string) returns (j: Json)
    requires key != "" && Clashes(key)
    ensures !Free(Redacted(j, key), key)
  {
    hide Contains, Replace, Clashes;
    SafeExactly(key);
    var s :| Contains(Replace(s, key), key);
    j := String(s);
    assert Redacted(j, key) == String(Replace(s, key));
  }

  /** A tree without the key is left as it is. */
  lemma {:induction false} FreeIsKept(j: Json, key: string)
    requires key != "" && Free(j, key)
    ensures Redacted(j, key) == j
    decreases j, 0
  {
    hide Contains, Replace;
    match j
    case String(s) => ReplaceNothing(s, key);
    case Object(members) => FreeMembers(members, key);
    case Array(items) => FreeItems(items, key);
    case _ =>
  }

  lemma {:induction false} FreeItems(items: seq<Json>, key: string)
    requires key != "" && forall i :: 0 <= i < |items| ==> Free(items[i], key)
    ensures RedactedItems(items, key) == items
    decreases items, 1
  {
    hide Contains, Free, Redacted, Clashes;
    if items != [] {
      FreeIsKept(items[0], key);
      FreeItems(items[1..], key);
    }
  }

  lemma {:induction false} FreeMembers(members: seq<Member>, key: string)
    requires key != "" && forall i :: 0 <= i < |members| ==> FreeMember(members[i], key)
    ensures RedactedMembers(members, key) == members
    decreases members, 1
  {
    hide Contains, Free, Redacted, Clashes;
    if members != [] {
      FreeIsKept(members[0].value, key);
      FreeMembers(members[1..], key);
    }
  }

  /** Redacting twice is redacting once. */
  lemma RedactTwice(j: Json, key: string)
    requires key != "" && !Clashes(key)
    ensures Redacted(Redacted(j, key), key) == Redacted(j, key)
  {
    hide *;
    RedactFrees(j, key);
    FreeIsKept(Redacted(j, key), key);
  }

  // ---------------------------------------------------------------- siblings

  function Names(members: seq<Member>): seq<string> {
    if members == [] then [] else [members[0].name] + Names(members[1..])
  }

  function NamesWithout(names: seq<string>, key: string): seq<string> {
    if names == [] then []
    else if Contains(names[0], key) then NamesWithout(names[1..], key)
    else [names[0]] + NamesWithout(names[1..], key)
  }

  /** No property is renamed, reordered or overwritten: the names that stay are the old ones in
      order, and each holds its own old value, redacted. */
  lemma {:induction false} SiblingsStay(members: seq<Member>, key: string, name: string)
    requires key != ""
    ensures Names(RedactedMembers(members, key)) == NamesWithout(Names(members), key)
    ensures !Contains(name, key) ==>
              Field(Redacted(Object(members), key), name) == Redacted(Field(Object(members), name), key)
    decreases members
  {
    hide Contains;
    NullStays(key);
    if members != [] { SiblingsStay(members[1..], key, name); }
  }

  lemma NullStays(key: string)
    requires key != ""
    ensures Redacted(Null, key) == Null
  {
  }

  /** An array keeps its length, and each place holds its own old item, redacted. */
  lemma {:induction false} ItemsStay(items: seq<Json>, key: string, k: nat)
    requires key != "" && k < |items|
    ensures |RedactedItems(items, key)| == |items| && RedactedItems(items, key)[k] == Redacted(items[k], key)
    decreases items
  {
    hide Redacted;
    if |items| == 1 {
      assert items[1..] == [];
    } else {
      ItemsStay(items[1..], key, if k == 0 then 0 else k - 1);
    }
  }

  // ---------------------------------------------------------------- the text around the key

  function JoinedBy(pieces: seq<string>, mark: string): string {
    if pieces == [] then "" else if |pieces| == 1 then pieces[0] else pieces[0] + (mark + JoinedBy(pieces[1..], mark))
  }

  /** The pieces between the occurrences that a search from the left finds: behind each piece but the last
      stands the first occurrence of the key, and the last piece holds none. */
  ghost predicate SplitAt(pieces: seq<string>, key: string) {
    && pieces != [] && !Contains(pieces[|pieces| - 1], key)
    && forall i :: 0 <= i < |pieces| - 1 ==> FindFrom(pieces[i] + key, key, 0) == Some(|pieces[i]|)
  }

  /** Nothing but the occurrences changes: the text is pieces joined by the key, and the replaced text is
      the same pieces joined by the mark. */
  lemma {:induction false} ReplaceKeepsRest(s: string, key: string) returns (pieces: seq<string>)
    requires key != ""
    ensures SplitAt(pieces, key) && JoinedBy(pieces, key) == s && JoinedBy(pieces, "[redacted]") == Replace(s, key)
    decreases |s|
  {
    var f := FindFrom(s, key, 0);
    if f.None? {
      hide FindFrom;
      NotFound(s, key);
      pieces := [s];
    } else {
      var i := f.value;
      hide *;
      FirstPiece(s, key, i);
      var tail := s[i + |key|..];
      var rest := ReplaceKeepsRest(tail, key);
      SplitMore(s[..i], rest, key);
      NotEmpty(rest, key);
      JoinedMore(s[..i], rest, key);
      JoinedMore(s[..i], rest, "[redacted]");
      ReplaceUnfolds(s, key, i);
      pieces := [s[..i]] + rest;
    }
  }

  lemma NotFound(s: string, key: string)
    requires FindFrom(s, key, 0).None?
    ensures !Contains(s, key)
  {
  }

  lemma NotEmpty(pieces: seq<string>, key: string)
    requires SplitAt(pieces, key)
    ensures pieces != []
  {
    hide FindFrom, Contains;
  }

  lemma ReplaceUnfolds(s: string, key: string, i: nat)
    requires key != "" && FindFrom(s, key, 0) == Some(i) && i + |key| <= |s| && s[i..i + |key|] == key
    ensures Replace(s, key) == s[..i] + ("[redacted]" + Replace(s[i + |key|..], key))
    ensures s == s[..i] + (key + s[i + |key|..])
  {
    hide FindFrom;
    assert s == s[..i] + (s[i..i + |key|] + s[i + |key|..]);
  }

  lemma FirstPiece(s: string, key: string, i: nat)
    requires i <= |s| && FindFrom(s, key, 0) == Some(i)
    ensures i + |key| <= |s| && s[i..i + |key|] == key && FindFrom(s[..i] + key, key, 0) == Some(|s[..i]|)
  {
    var p := s[..i] + key;
    assert s[0..i + |key|] == p;
    forall k | 0 <= k <= i ensures OccursAt(p, key, k) <==> k == i {
      FirstOnly(s, key, i, k);
      OccursInPart(s, 0, p, key, k);
    }
    FoundFirst(p, key, i);
  }

  lemma SplitMore(piece: string, rest: seq<string>, key: string)
    requires SplitAt(rest, key) && FindFrom(piece + key, key, 0) == Some(|piece|)
    ensures SplitAt([piece] + rest, key)
  {
    hide FindFrom, Contains;
    var pieces := [piece] + rest;
    assert pieces[|pieces| - 1] == rest[|rest| - 1];
    assert forall i :: 0 < i < |pieces| ==> pieces[i] == rest[i - 1];
  }

  lemma JoinedMore(piece: string, rest: seq<string>, mark: string)
    requires rest != []
    ensures JoinedBy([piece] + rest, mark) == piece + (mark + JoinedBy(rest, mark))
  {
    assert ([piece] + rest)[1..] == rest;
  }

  // ---------------------------------------------------------------- the source's method

  /** `redact`: rewrite the tree, dropping the properties with the key in their name and then
      rewriting the values that stay. */
  method RedactValue(value: Json, key: string) returns (r: Json)
    requires key != ""
    ensures r == Redacted(value, key)
    decreases value, 0
  {
    hide Replace, Contains;
    match value {
      case String(s) => r := String(Replace(s, key));
      case Object(members) =>
        var kept := RedactMembers(members, key);
        r := Object(kept);
      case Array(items) =>
        var all := RedactItems(items, key);
        r := Array(all);
      case _ => r := value;
    }
  }

  method RedactMembers(members: seq<Member>, key: string) returns (kept: seq<Member>)
    requires key != ""
    ensures kept == RedactedMembers(members, key)
    decreases members, 1
  {
    hide Contains, Redacted;
    kept := [];
    for i := 0 to |members|
      invariant kept + RedactedMembers(members[i..], key) == RedactedMembers(members, key)
    {
      var m := members[i];
      assert members[i..][0] == m && members[i..][1..] == members[i + 1..];
      if !Contains(m.name, key) {
        var v := RedactValue(m.value, key);
        kept := kept + [Member(m.name, v)];
      }
    }
  }

  method RedactItems(items: seq<Json>, key: string) returns (all: seq<Json>)
    requires key != ""
    ensures all == RedactedItems(items, key)
    decreases items, 1
  {
    hide *;
    all := items;
    assert items[0..] == items && all[..0] == [];
    for i := 0 to |items|
      invariant |all| == |items| && all[i..] == items[i..]
      invariant all[..i] + RedactedItems(items[i..], key) == RedactedItems(items, key)
    {
      ItemsFrom(items, i, key);
      var v := RedactValue(items[i], key);
      var next := all[i := v];
      assert next[..i + 1] == all[..i] + [v] && next[i + 1..] == all[i..][1..] == items[i + 1..];
      all := next;
    }
    ItemsEnd(all, items, key);
  }

  lemma ItemsFrom(items: seq<Json>, i: nat, key: string)
    requires key != "" && i < |items|
    ensures RedactedItems(items[i..], key) == [Redacted(items[i], key)] + RedactedItems(items[i + 1..], key)
    ensures items[i..][1..] == items[i + 1..]
  {
    hide Redacted;
    assert items[i..][0] == items[i] && items[i..][1..] == items[i + 1..];
  }

  lemma ItemsEnd(all: seq<Json>, items: seq<Json>, key: string)
    requires key != "" && |all| == |items|
    ensures all[..|items|] + RedactedItems(items[|items|..], key) == all
  {
    assert items[|items|..] == [];
  }
}
