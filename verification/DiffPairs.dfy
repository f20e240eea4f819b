/** The difference shown for an edit that failed: the changed lines, paired so that a rewritten line
    reads old line then file line, and the list of lines where a text occurs.
 */
module DiffPairs {
  const MAX_DIFFERING_LINES := 8
  const MAX_LISTED_LINES := 8

  datatype Tag = Delete | Insert

  datatype Change = Change(tag: Tag, line: nat, text: string)

  // ---------------------------------------------------------------- pairing

  /** How many changes with that tag `changes` begins with. */
  function RunLength(changes: seq<Change>, tag: Tag): (n: nat)
    ensures n <= |changes|
    ensures forall k :: 0 <= k < n ==> changes[k].tag == tag
    ensures n < |changes| ==> changes[n].tag != tag
  {
    if changes == [] || changes[0].tag != tag then 0 else 1 + RunLength(changes[1..], tag)
  }

  /** Deletions and insertions alternating, and then what is left of the longer list. */
  function Weave(deleted: seq<Change>, inserted: seq<Change>): seq<Change>
    decreases |deleted|
  {
    if deleted == [] then inserted
    else if inserted == [] then deleted
    else [deleted[0], inserted[0]] + Weave(deleted[1..], inserted[1..])
  }

  /** How many changes are placed together: a single insertion, or a run of deletions and the run of
      insertions behind it. */
  function BlockLength(changes: seq<Change>): (m: nat)
    requires changes != []
    ensures 0 < m <= |changes|
  {
    if changes[0].tag == Insert then 1
    else
      var d := RunLength(changes, Delete);
      d + RunLength(changes[d..], Insert)
  }

  function Block(changes: seq<Change>): seq<Change>
    requires changes != []
  {
    if changes[0].tag == Insert then changes[..1]
    else
      var d := RunLength(changes, Delete);
      Weave(changes[..d], changes[d..BlockLength(changes)])
  }

  function Paired(changes: seq<Change>): seq<Change>
    decreases |changes|
  {
    if changes == [] then [] else Block(changes) + Paired(changes[BlockLength(changes)..])
  }

  // ---------------------------------------------------------------- what pairing keeps

  /** The changes with that tag, in order. */
  function Only(changes: seq<Change>, tag: Tag): seq<Change> {
    if changes == [] then []
    else if changes[0].tag == tag then [changes[0]] + Only(changes[1..], tag)
    else Only(changes[1..], tag)
  }

  lemma {:induction false} OnlyAppend(a: seq<Change>, b: seq<Change>, tag: Tag)
    ensures Only(a + b, tag) == Only(a, tag) + Only(b, tag)
    decreases |a|
  {
    if a == [] {
      assert a + b == b;
    } else {
      assert (a + b)[1..] == a[1..] + b;
      OnlyAppend(a[1..], b, tag);
    }
  }

  lemma {:induction false} OnlyAll(changes: seq<Change>, own: Tag, tag: Tag)
    requires forall k :: 0 <= k < |changes| ==> changes[k].tag == own
    ensures Only(changes, tag) == if own == tag then changes else []
    decreases |changes|
  {
    if changes != [] { OnlyAll(changes[1..], own, tag); }
  }

  predicate Uniform(changes: seq<Change>, tag: Tag) {
    forall k :: 0 <= k < |changes| ==> changes[k].tag == tag
  }

  /** `r` has the same changes as `changes`, with the deletions and the insertions each in order. */
  ghost predicate Keeps(r: seq<Change>, changes: seq<Change>) {
    && |r| == |changes| && multiset(r) == multiset(changes)
    && Only(r, Delete) == Only(changes, Delete) && Only(r, Insert) == Only(changes, Insert)
  }

  lemma KeepsSelf(changes: seq<Change>)
    ensures Keeps(changes, changes)
  {
  }

  lemma KeepsAppend(a: seq<Change>, a': seq<Change>, b: seq<Change>, b': seq<Change>)
    requires Keeps(a, a') && Keeps(b, b')
    ensures Keeps(a + b, a' + b')
  {
    hide Only;
    OnlyAppend(a, b, Delete);
    OnlyAppend(a, b, Insert);
    OnlyAppend(a', b', Delete);
    OnlyAppend(a', b', Insert);
  }

  /** A change of each kind may be swapped past changes of the other kind. */
  lemma KeepsSwap(x: Change, inserted: seq<Change>)
    requires x.tag == Delete && Uniform(inserted, Insert)
    ensures Keeps(inserted + [x], [x] + inserted)
  {
    hide Only;
    OnlyAll([x], Delete, Delete);
    OnlyAll([x], Delete, Insert);
    OnlyAll(inserted, Insert, Delete);
    OnlyAll(inserted, Insert, Insert);
    OnlyAppend(inserted, [x], Delete);
    OnlyAppend(inserted, [x], Insert);
    OnlyAppend([x], inserted, Delete);
    OnlyAppend([x], inserted, Insert);
  }

  lemma KeepsTrans(a: seq<Change>, b: seq<Change>, c: seq<Change>)
    requires Keeps(a, b) && Keeps(b, c)
    ensures Keeps(a, c)
  {
    hide Only;
  }

  /** One insertion moved in front of the remaining deletions. */
  lemma {:induction false} KeepsMove(deleted: seq<Change>, x: Change)
    requires Uniform(deleted, Delete) && x.tag == Insert
    ensures Keeps([x] + deleted, deleted + [x])
    decreases |deleted|
  {
    hide Only, Keeps;
    if deleted == [] {
      KeepsSelf([x]);
      assert [x] + deleted == [x] && deleted + [x] == [x];
    } else {
      var d, rest := deleted[0], deleted[1..];
      KeepsSwap(d, [x]);
      KeepsSelf(rest);
      KeepsAppend([x] + [d], [d] + [x], rest, rest);
      KeepsMove(rest, x);
      KeepsSelf([d]);
      KeepsAppend([d], [d], [x] + rest, rest + [x]);
      assert [x] + [d] + rest == [x] + deleted && [d] + [x] + rest == [d] + ([x] + rest);
      assert [d] + (rest + [x]) == deleted + [x];
      KeepsTrans([x] + deleted, [d] + ([x] + rest), deleted + [x]);
    }
  }

  /** Weaving neither loses, adds nor reorders within the deletions or the insertions. */
  lemma {:induction false} WeaveKeeps(deleted: seq<Change>, inserted: seq<Change>)
    requires Uniform(deleted, Delete) && Uniform(inserted, Insert)
    ensures Keeps(Weave(deleted, inserted), deleted + inserted)
    decreases |deleted|
  {
    hide Only, Keeps;
    KeepsSelf(deleted + inserted);
    if deleted == [] {
      assert deleted + inserted == inserted;
    } else if inserted == [] {
      assert deleted + inserted == deleted;
    } else {
      var d, ds, x, xs := deleted[0], deleted[1..], inserted[0], inserted[1..];
      WeaveKeeps(ds, xs);
      KeepsSelf([d, x]);
      KeepsAppend([d, x], [d, x], Weave(ds, xs), ds + xs);
      KeepsMove(ds, x);
      KeepsSelf([d]);
      KeepsAppend([d], [d], [x] + ds, ds + [x]);
      KeepsSelf(xs);
      KeepsAppend([d] + ([x] + ds), [d] + (ds + [x]), xs, xs);
      assert [d] + ([x] + ds) + xs == [d, x] + (ds + xs) && [d] + (ds + [x]) + xs == deleted + inserted;
      KeepsTrans(Weave(deleted, inserted), [d, x] + (ds + xs), deleted + inserted);
    }
  }

  lemma RunUniform(changes: seq<Change>, d: nat, m: nat)
    requires d == RunLength(changes, Delete) && m == d + RunLength(changes[d..], Insert) <= |changes|
    ensures Uniform(changes[..d], Delete) && Uniform(changes[d..m], Insert)
    ensures changes[..m] == changes[..d] + changes[d..m]
  {
    hide *;
    PrefixUniform(changes, d, Delete);
    PrefixUniform(changes[d..], m - d, Insert);
    SliceTwice(changes, d, m);
  }

  lemma SliceTwice(changes: seq<Change>, d: nat, m: nat)
    requires d <= m <= |changes|
    ensures changes[d..][..m - d] == changes[d..m] && changes[..m] == changes[..d] + changes[d..m]
  {
  }

  lemma PrefixUniform(changes: seq<Change>, n: nat, tag: Tag)
    requires n == RunLength(changes, tag)
    ensures n <= |changes| && Uniform(changes[..n], tag)
  {
    hide RunLength;
  }

  /** One block has the changes that it was made from. */
  lemma BlockKeeps(changes: seq<Change>)
    requires changes != []
    ensures Keeps(Block(changes), changes[..BlockLength(changes)])
  {
    hide Only, Weave, Keeps, RunLength;
    if changes[0].tag == Insert {
      KeepsSelf(changes[..1]);
    } else {
      var d, m := RunLength(changes, Delete), BlockLength(changes);
      RunUniform(changes, d, m);
      WeaveKeeps(changes[..d], changes[d..m]);
    }
  }

  /** The paired list is a permutation of the changes that keeps the order of the deletions and the
      order of the insertions. */
  lemma {:induction false} PairingKeeps(changes: seq<Change>)
    ensures Keeps(Paired(changes), changes)
    decreases |changes|
  {
    hide Keeps;
    hide Block, BlockLength;
    if changes == [] {
      KeepsSelf([]);
    } else {
      var m := BlockLength(changes);
      BlockKeeps(changes);
      PairingKeeps(changes[m..]);
      KeepsAppend(Block(changes), changes[..m], Paired(changes[m..]), changes[m..]);
      assert changes == changes[..m] + changes[m..];
    }
  }

  // ---------------------------------------------------------------- pairs stand together

  lemma {:induction false} WeaveAt(deleted: seq<Change>, inserted: seq<Change>, k: nat)
    ensures |Weave(deleted, inserted)| == |deleted| + |inserted|
    ensures k < |deleted| && k < |inserted| ==>
              Weave(deleted, inserted)[2 * k] == deleted[k] && Weave(deleted, inserted)[2 * k + 1] == inserted[k]
    decreases |deleted|
  {
    if deleted != [] && inserted != [] {
      WeaveAt(deleted[1..], inserted[1..], if k == 0 then 0 else k - 1);
    }
  }

  /** From `a` on there is a run of deletions up to `b` and of insertions up to `c`, both as long as
      they can be. */
  predicate Rewritten(changes: seq<Change>, a: nat, b: nat, c: nat) {
    && a < b <= c <= |changes| && Uniform(changes[a..b], Delete) && Uniform(changes[b..c], Insert)
    && (a > 0 ==> changes[a - 1].tag == Insert) && (b < |changes| ==> changes[b].tag == Insert)
    && (c < |changes| ==> changes[c].tag == Delete)
  }

  lemma {:induction false} RunIs(changes: seq<Change>, n: nat, tag: Tag)
    requires n <= |changes| && Uniform(changes[..n], tag) && (n < |changes| ==> changes[n].tag != tag)
    ensures RunLength(changes, tag) == n
  {
    assert forall k :: 0 <= k < n ==> changes[k] == changes[..n][k];
  }

  /** The block at the start of a rewritten run. */
  lemma RunAtFront(changes: seq<Change>, b: nat, c: nat)
    requires Rewritten(changes, 0, b, c)
    ensures changes != [] && BlockLength(changes) == c && Block(changes) == Weave(changes[..b], changes[b..c])
  {
    hide RunLength, Weave;
    assert changes[0..b] == changes[..b] && changes[b..][..c - b] == changes[b..c];
    assert changes[..b][0].tag == Delete;
    RunIs(changes, b, Delete);
    RunIs(changes[b..], c - b, Insert);
  }

  /** A rewritten run begins at or behind the end of the first block. */
  lemma FrontBlock(changes: seq<Change>, a: nat, b: nat, c: nat)
    requires Rewritten(changes, a, b, c) && a > 0
    ensures changes != [] && BlockLength(changes) <= a && |Block(changes)| == BlockLength(changes)
  {
    if changes[0].tag == Delete {
      var d, m := RunLength(changes, Delete), BlockLength(changes);
      BlockEnds(changes, a, b, c, d, m - d);
      WeaveAt(changes[..d], changes[d..m], 0);
      hide RunLength, Weave;
    }
  }

  lemma BlockEnds(changes: seq<Change>, a: nat, b: nat, c: nat, d: nat, n: nat)
    requires Rewritten(changes, a, b, c) && a > 0
    requires d == RunLength(changes, Delete) && n == RunLength(changes[d..], Insert)
    ensures d + n <= a
  {
    hide RunLength, Uniform;
    StartsDeleted(changes, a, b, c);
    InRun(changes, Delete, a - 1);
    if d <= a { InRun(changes[d..], Insert, a - d); }
  }

  lemma StartsDeleted(changes: seq<Change>, a: nat, b: nat, c: nat)
    requires Rewritten(changes, a, b, c)
    ensures a < |changes| && changes[a].tag == Delete
  {
    assert changes[a..b][0] == changes[a];
  }

  lemma InRun(changes: seq<Change>, tag: Tag, k: nat)
    ensures k < RunLength(changes, tag) ==> changes[k].tag == tag
  {
    hide RunLength;
  }

  lemma RewrittenBehind(changes: seq<Change>, a: nat, b: nat, c: nat, m: nat)
    requires Rewritten(changes, a, b, c) && m <= a
    ensures Rewritten(changes[m..], a - m, b - m, c - m)
    ensures changes[m..][a - m..b - m] == changes[a..b] && changes[m..][b - m..c - m] == changes[b..c]
  {
    var rest := changes[m..];
    assert rest[a - m..b - m] == changes[a..b] && rest[b - m..c - m] == changes[b..c];
    assert a > m ==> rest[a - m - 1] == changes[a - 1];
  }

  /** A rewritten run keeps its place, and in it the k-th insertion stands right behind the k-th
      deletion. */
  lemma {:induction false} PairsStandTogether(changes: seq<Change>, a: nat, b: nat, c: nat, k: nat)
    requires Rewritten(changes, a, b, c) && a + k < b && b + k < c
    ensures a + 2 * k + 1 < |Paired(changes)|
    ensures Paired(changes)[a + 2 * k] == changes[a + k] && Paired(changes)[a + 2 * k + 1] == changes[b + k]
    decreases |changes|
  {
    hide *;
    FrontBounds(changes, a, b, c);
    PairedIs(changes);
    var m := BlockLength(changes);
    if a == 0 {
      RunAtFront(changes, b, c);
      WeaveAt(changes[..b], changes[b..c], k);
      Inside(Paired(changes), Block(changes), Paired(changes[m..]), 2 * k);
      Inside(Paired(changes), Block(changes), Paired(changes[m..]), 2 * k + 1);
    } else {
      FrontBlock(changes, a, b, c);
      RewrittenBehind(changes, a, b, c, m);
      PairsStandTogether(changes[m..], a - m, b - m, c - m, k);
      Inside(Paired(changes), Block(changes), Paired(changes[m..]), a + 2 * k);
      Inside(Paired(changes), Block(changes), Paired(changes[m..]), a + 2 * k + 1);
      assert changes[m..][a - m + k] == changes[a + k] && changes[m..][b - m + k] == changes[b + k];
    }
  }

  lemma PairedIs(changes: seq<Change>)
    requires changes != []
    ensures Paired(changes) == Block(changes) + Paired(changes[BlockLength(changes)..])
  {
    hide Block, BlockLength;
  }

  lemma Inside(all: seq<Change>, block: seq<Change>, rest: seq<Change>, i: nat)
    requires all == block + rest
    ensures |all| == |block| + |rest|
    ensures i < |block| ==> all[i] == block[i]
    ensures |block| <= i < |all| ==> all[i] == rest[i - |block|]
  {
  }

  lemma FrontBounds(changes: seq<Change>, a: nat, b: nat, c: nat)
    requires Rewritten(changes, a, b, c)
    ensures a < b <= c <= |changes|
  {
    hide Uniform;
  }

  // ---------------------------------------------------------------- what is shown

  /** A shown line, the count of the lines left out, or the note that no whole line differs. */
  datatype Entry = Line(change: Change) | More(count: nat) | InsideLine

  function Shown(changes: seq<Change>): nat {
    if |changes| < MAX_DIFFERING_LINES then |changes| else MAX_DIFFERING_LINES
  }

  ghost predicate Shows(entries: seq<Entry>, ordered: seq<Change>) {
    var n := Shown(ordered);
    && |entries| == (if ordered == [] then 1 else n + if n < |ordered| then 1 else 0)
    && (forall k :: 0 <= k < n ==> entries[k] == Line(ordered[k]))
    && (n < |ordered| ==> entries[n] == More(|ordered| - n))
    && (ordered == [] ==> entries == [InsideLine])
  }

  /** The lines that the entries account for: the shown ones and the counted ones. */
  function Accounted(entries: seq<Entry>): nat {
    if entries == [] then 0
    else Accounted(entries[..|entries| - 1]) + match entries[|entries| - 1]
      case Line(_) => 1
      case More(count) => count
      case InsideLine => 0
  }

  lemma {:induction false} AllLines(entries: seq<Entry>)
    requires forall k :: 0 <= k < |entries| ==> entries[k].Line?
    ensures Accounted(entries) == |entries|
    decreases |entries|
  {
    if entries != [] { AllLines(entries[..|entries| - 1]); }
  }

  /** Shown plus omitted is the total, for every difference. */
  lemma EverythingIsAccounted(entries: seq<Entry>, ordered: seq<Change>)
    requires Shows(entries, ordered)
    ensures Accounted(entries) == |ordered|
  {
    var n := Shown(ordered);
    if n < |ordered| {
      AllLines(entries[..n]);
      assert entries[..|entries| - 1] == entries[..n];
    } else if ordered != [] {
      AllLines(entries);
    } else {
      assert entries[..0] == [];
    }
  }

  // ---------------------------------------------------------------- the source's loops

  /** `differing_lines`: nested run loops that push onto one list, then the capped listing. */
  method DifferingLines(changes: seq<Change>) returns (ordered: seq<Change>, entries: seq<Entry>)
    ensures ordered == Paired(changes) && Shows(entries, ordered)
  {
    ordered := OrderChanges(changes);
    entries := ListChanges(ordered);
  }

  method OrderChanges(changes: seq<Change>) returns (ordered: seq<Change>)
    ensures ordered == Paired(changes)
  {
    hide Weave, RunLength, Block, BlockLength, Paired;
    NothingPaired();
    ordered := [];
    var i := 0;
    while i < |changes|
      invariant i <= |changes| && ordered + Paired(changes[i..]) == Paired(changes)
    {
      ghost var before, rest := ordered, changes[i..];
      PairedIs(rest);
      var block: seq<Change>;
      if changes[i].tag != Delete {
        InsertBlock(rest);
        block := [changes[i]];
        i := i + 1;
      } else {
        var deletedFrom := i;
        i := RunEnd(changes, i, Delete);
        var deletedTo := i;
        var insertedFrom := i;
        i := RunEnd(changes, i, Insert);
        RunBlock(changes, deletedFrom, deletedTo, i);
        block := WeaveRun(changes, deletedFrom, deletedTo, insertedFrom, i);
      }
      ordered := ordered + block;
      assert before + (block + Paired(changes[i..])) == ordered + Paired(changes[i..]);
    }
    assert changes[i..] == [] && ordered + [] == ordered;
  }

  lemma NothingPaired()
    ensures Paired([]) == []
  {
  }

  lemma InsertBlock(rest: seq<Change>)
    requires rest != [] && rest[0].tag == Insert
    ensures BlockLength(rest) == 1 && Block(rest) == [rest[0]]
  {
  }

  lemma RunBlock(changes: seq<Change>, a: nat, b: nat, c: nat)
    requires a < b <= c <= |changes| && changes[a].tag == Delete
    requires b - a == RunLength(changes[a..], Delete) && c - b == RunLength(changes[b..], Insert)
    ensures BlockLength(changes[a..]) == c - a && Block(changes[a..]) == Weave(changes[a..b], changes[b..c])
    ensures changes[a..][c - a..] == changes[c..]
  {
    hide RunLength, Weave;
    SliceShift(changes, a, b, c);
  }

  lemma SliceShift(changes: seq<Change>, a: nat, b: nat, c: nat)
    requires a <= b <= c <= |changes|
    ensures changes[a..][b - a..] == changes[b..] && changes[a..][..b - a] == changes[a..b]
    ensures changes[a..][b - a..c - a] == changes[b..c] && changes[a..][c - a..] == changes[c..]
  {
  }

  method RunEnd(changes: seq<Change>, from: nat, tag: Tag) returns (i: nat)
    requires from <= |changes|
    ensures from <= i <= |changes| && i - from == RunLength(changes[from..], tag)
    ensures from < |changes| && changes[from].tag == tag ==> from < i
  {
    i := from;
    while i < |changes| && changes[i].tag == tag
      invariant from <= i <= |changes| && RunLength(changes[from..], tag) == i - from + RunLength(changes[i..], tag)
    {
      assert changes[i..][1..] == changes[i + 1..];
      i := i + 1;
    }
  }

  method WeaveRun(changes: seq<Change>, deletedFrom: nat, deletedTo: nat, insertedFrom: nat, insertedTo: nat)
    returns (block: seq<Change>)
    requires deletedFrom < deletedTo == insertedFrom <= insertedTo <= |changes|
    ensures block == Weave(changes[deletedFrom..deletedTo], changes[insertedFrom..insertedTo])
  {
    hide *;
    ghost var ds, ins := changes[deletedFrom..deletedTo], changes[insertedFrom..insertedTo];
    var deleted, inserted := deletedTo - deletedFrom, insertedTo - insertedFrom;
    var rounds := if deleted < inserted then inserted else deleted;
    block := [];
    AllWoven(ds, ins, rounds);
    assert [] + Weave(ds, ins) == Weave(ds, ins);
    for k := 0 to rounds
      invariant block + Weave(From(ds, k), From(ins, k)) == Weave(ds, ins)
    {
      WeaveStep(ds, ins, k);
      ghost var before := block;
      block := PushNext(block, changes, deletedFrom, deletedTo, k);
      block := PushNext(block, changes, insertedFrom, insertedTo, k);
      WovenMore(before, NextOf(ds, k), NextOf(ins, k), Weave(From(ds, k + 1), From(ins, k + 1)));
    }
    assert block + [] == block;
  }

  method PushNext(block: seq<Change>, changes: seq<Change>, from: nat, to: nat, k: nat) returns (r: seq<Change>)
    requires from <= to <= |changes|
    ensures r == block + NextOf(changes[from..to], k)
  {
    r := block;
    if from + k < to {
      r := r + [changes[from + k]];
    }
  }

  function NextOf(s: seq<Change>, k: nat): seq<Change> {
    if k < |s| then [s[k]] else []
  }

  lemma AllWoven(ds: seq<Change>, ins: seq<Change>, rounds: nat)
    requires |ds| <= rounds && |ins| <= rounds
    ensures Weave(From(ds, rounds), From(ins, rounds)) == [] && From(ds, 0) == ds && From(ins, 0) == ins
  {
  }

  lemma WovenMore(before: seq<Change>, d: seq<Change>, n: seq<Change>, later: seq<Change>)
    ensures before + (d + n + later) == before + d + n + later
  {
  }

  function From(s: seq<Change>, k: nat): seq<Change> {
    if k <= |s| then s[k..] else []
  }

  lemma WeaveStep(ds: seq<Change>, ins: seq<Change>, k: nat)
    ensures Weave(From(ds, k), From(ins, k)) ==
            NextOf(ds, k) + NextOf(ins, k) + Weave(From(ds, k + 1), From(ins, k + 1))
  {
    if k < |ds| && k >= |ins| { assert ds[k..] == [ds[k]] + ds[k + 1..]; }
    if k < |ins| && k >= |ds| { assert ins[k..] == [ins[k]] + ins[k + 1..]; }
  }

  method ListChanges(ordered: seq<Change>) returns (entries: seq<Entry>)
    ensures Shows(entries, ordered)
  {
    entries := [];
    var omitted := 0;
    for k := 0 to |ordered|
      invariant |entries| == (if k < 8 then k else 8) && omitted == k - |entries|
      invariant forall j :: 0 <= j < |entries| ==> entries[j] == Line(ordered[j])
    {
      if |entries| >= 8 {
        omitted := omitted + 1;
      } else {
        entries := entries + [Line(ordered[k])];
      }
    }
    if omitted > 0 { entries := entries + [More(omitted)]; }
    if entries == [] { entries := [InsideLine]; }
  }

  // ---------------------------------------------------------------- the list of lines

  /** A line and how often it is listed in a row. */
  datatype Count = Count(line: nat, times: nat)

  function Repeat(line: nat, times: nat): seq<nat> {
    if times == 0 then [] else Repeat(line, times - 1) + [line]
  }

  function Expand(counts: seq<Count>): seq<nat> {
    if counts == [] then []
    else Expand(counts[..|counts| - 1]) + Repeat(counts[|counts| - 1].line, counts[|counts| - 1].times)
  }

  /** Every count is of at least one, and neighbours are of different lines. */
  predicate Separate(counts: seq<Count>) {
    && (forall k :: 0 <= k < |counts| ==> counts[k].times > 0)
    && (forall k :: 0 < k < |counts| ==> counts[k - 1].line != counts[k].line)
  }

  /** What the list shows, and how many more lines it only counts. */
  datatype Listing = Listing(shown: seq<Count>, more: nat)

  /** `lines_list`: neighbours on one line are counted together. Expanding the counts gives the
      positions back; neighbouring counts are of different lines, and shown plus omitted is all. */
  method LinesList(positions: seq<nat>) returns (r: Listing, ghost lines: seq<Count>)
    ensures Expand(lines) == positions
    ensures Separate(lines)
    ensures r.shown <= lines && |r.shown| <= MAX_LISTED_LINES && |r.shown| + r.more == |lines|
    ensures r.more > 0 ==> |r.shown| == MAX_LISTED_LINES
  {
    hide Expand;
    var counts: seq<Count> := [];
    NothingCounted();
    for i := 0 to |positions|
      invariant Expand(counts) == positions[..i] && Separate(counts)
    {
      var line := positions[i];
      var n := |counts|;
      assert positions[..i + 1] == positions[..i] + [line];
      if n > 0 && counts[n - 1].line == line {
        Bumped(counts);
        counts := counts[n - 1 := counts[n - 1].(times := counts[n - 1].times + 1)];
      } else {
        Pushed(counts, line);
        counts := counts + [Count(line, 1)];
      }
    }
    assert positions[..|positions|] == positions;
    lines := counts;
    var shown := if |counts| <= MAX_LISTED_LINES then counts else counts[..MAX_LISTED_LINES];
    r := Listing(shown, |counts| - |shown|);
  }

  lemma NothingCounted()
    ensures Expand([]) == []
  {
  }

  lemma Pushed(counts: seq<Count>, line: nat)
    ensures Expand(counts + [Count(line, 1)]) == Expand(counts) + [line]
  {
    assert (counts + [Count(line, 1)])[..|counts|] == counts && Repeat(line, 1) == Repeat(line, 0) + [line];
  }

  lemma Bumped(counts: seq<Count>)
    requires counts != []
    ensures var n := |counts|;
            var c := counts[n - 1];
            Expand(counts[n - 1 := c.(times := c.times + 1)]) == Expand(counts) + [c.line]
  {
    var n := |counts|;
    var c := counts[n - 1];
    var next := counts[n - 1 := c.(times := c.times + 1)];
    assert next[..n - 1] == counts[..n - 1];
    assert Repeat(c.line, c.times + 1) == Repeat(c.line, c.times) + [c.line];
  }
}
