/**
 The counts of added and removed lines in a file summary, read back from the text of the diff.
 */
module DiffCounts {
  import opened Sequences
  import opened Decimal
  import opened Diff
  import opened Hunks
  import opened UnifiedDiff

  // ---- the lines of a body ---------------------------------------------------------------------

  /** Everything between newlines, so at least one, and an empty last one after a final newline. */
  function Split(s: string): (lines: seq<string>)
    ensures lines != []
    decreases |s|
  {
    var i := LineEnd(s);
    if i == |s| then [s] else [s[..i]] + Split(s[i + 1..])
  }

  lemma {:induction false} SplitOneLine(s: string)
    requires OneLine(s)
    ensures Split(s) == [s]
  {
    LineEndFacts(s);
  }

  lemma {:induction false} SplitJoin(x: string, y: string)
    ensures Split(x + "\n" + y) == Split(x) + Split(y)
    decreases |x|
  {
    var i := LineEnd(x);
    LineEndFacts(x);
    var all := x + "\n" + y;
    if i == |x| {
      LineEndOf(x, y);
      assert all[..i] == x && all[i + 1..] == y;
    } else {
      var rest := x[i + 1..];
      assert all == x[..i] + "\n" + (rest + "\n" + y);
      LineEndOf(x[..i], rest + "\n" + y);
      assert all[..i] == x[..i] && all[i + 1..] == rest + "\n" + y;
      SplitJoin(rest, y);
      Assoc([x[..i]], Split(rest), Split(y));
    }
  }

  /** Written lines read back, with the empty piece after the last newline. */
  lemma {:induction false} SplitOfUnlines(lines: seq<string>)
    requires AllOneLine(lines)
    ensures Split(Unlines(lines)) == lines + [""]
  {
    if lines != [] {
      SplitOfUnlines(lines[1..]);
      SplitJoin(lines[0], Unlines(lines[1..]));
      SplitOneLine(lines[0]);
      Assoc([lines[0]], lines[1..], [""]);
      assert [lines[0]] + lines[1..] == lines;
    }
  }

  // ---- counting back --------------------------------------------------------------------------

  predicate Tripled(line: string, c: char) {
    |line| >= 3 && line[0] == c && line[1] == c && line[2] == c
  }

  predicate Doubled(text: string, c: char) {
    |text| >= 2 && text[0] == c && text[1] == c
  }

  /** One for a line that begins with the marker and does not look like a file header. */
  function Marked(line: string, c: char): nat {
    if Tripled(line, '+') || Tripled(line, '-') then 0
    else if line != [] && line[0] == c then 1
    else 0
  }

  function Counted(lines: seq<string>, c: char): nat {
    if lines == [] then 0 else Counted(lines[..|lines| - 1], c) + Marked(lines[|lines| - 1], c)
  }

  method SplitAtNewlines(s: string) returns (lines: seq<string>)
    ensures lines == Split(s)
  {
    lines := [];
    var rest := s;
    var i := LineEnd(rest);
    while i < |rest|
      invariant i == LineEnd(rest)
      invariant lines + Split(rest) == Split(s)
      decreases |rest|
    {
      Assoc(lines, [rest[..i]], Split(rest[i + 1..]));
      lines, rest := lines + [rest[..i]], rest[i + 1..];
      i := LineEnd(rest);
    }
    lines := lines + [rest];
  }

  method CountAddsRemoves(body: string) returns (added: nat, removed: nat)
    ensures added == Counted(Split(body), '+') && removed == Counted(Split(body), '-')
  {
    var lines := SplitAtNewlines(body);
    added, removed := 0, 0;
    var i := 0;
    assert lines[..0] == [];
    while i < |lines|
      invariant i <= |lines|
      invariant added == Counted(lines[..i], '+') && removed == Counted(lines[..i], '-')
    {
      var line := lines[i];
      assert lines[..i + 1][..i] == lines[..i];
      if Tripled(line, '+') || Tripled(line, '-') {
      } else if line != [] && line[0] == '+' {
        added := added + 1;
      } else if line != [] && line[0] == '-' {
        removed := removed + 1;
      }
      i := i + 1;
    }
    assert lines[..i] == lines;
  }

  /** Lines of one kind that do not themselves begin with the doubled marker. */
  function Plainly(ops: seq<Op>, kind: Kind): nat {
    if ops == [] then 0
    else
      var last := ops[|ops| - 1];
      Plainly(ops[..|ops| - 1], kind) +
      if last.kind == kind && !Doubled(last.text, Marker(kind)) then 1 else 0
  }

  lemma {:induction false} CountedConcat(x: seq<string>, y: seq<string>, c: char)
    ensures Counted(x + y, c) == Counted(x, c) + Counted(y, c)
  {
    if y == [] {
      assert x + y == x;
    } else {
      assert (x + y)[..|x + y| - 1] == x + y[..|y| - 1];
      CountedConcat(x, y[..|y| - 1], c);
    }
  }

  lemma {:induction false} PlainlyConcat(x: seq<Op>, y: seq<Op>, kind: Kind)
    ensures Plainly(x + y, kind) == Plainly(x, kind) + Plainly(y, kind)
  {
    if y == [] {
      assert x + y == x;
    } else {
      assert (x + y)[..|x + y| - 1] == x + y[..|y| - 1];
      PlainlyConcat(x, y[..|y| - 1], kind);
    }
  }

  lemma {:induction false} MarkedOp(op: Op, kind: Kind)
    requires !kind.Same?
    ensures Marked([Marker(op.kind)] + op.text, Marker(kind)) ==
      if op.kind == kind && !Doubled(op.text, Marker(kind)) then 1 else 0
  {
    var line := [Marker(op.kind)] + op.text;
    assert |op.text| >= 1 ==> line[1] == op.text[0];
    assert |op.text| >= 2 ==> line[2] == op.text[1];
  }

  lemma {:induction false} PrintedCounts(ops: seq<Op>, kind: Kind)
    requires !kind.Same?
    ensures Counted(Printed(ops), Marker(kind)) == Plainly(ops, kind)
  {
    if ops != [] {
      var init, last := ops[..|ops| - 1], ops[|ops| - 1];
      PrintedCounts(init, kind);
      MarkedOp(last, kind);
      assert Printed(ops)[..|Printed(init)|] == Printed(init);
    }
  }

  lemma {:induction false} NoCountInSameRun(ops: seq<Op>, kind: Kind)
    requires !kind.Same? && SameRun(ops, 0, |ops|)
    ensures Plainly(ops, kind) == 0
  {
    if ops != [] {
      NoCountInSameRun(ops[..|ops| - 1], kind);
    }
  }

  lemma {:induction false} HeaderCounts(h: Hunk, c: char)
    requires c == '+' || c == '-'
    ensures Counted([HunkHeader(h)], c) == 0
  {
    assert HunkHeader(h)[0] == '@';
    assert [HunkHeader(h)][..0] == [];
  }

  lemma {:induction false} HunkCounts(hs: seq<Hunk>, h: Hunk, kind: Kind)
    requires !kind.Same?
    ensures Counted(PrintedHunks(hs + [h]), Marker(kind)) ==
      Counted(PrintedHunks(hs), Marker(kind)) + Plainly(h.lines, kind)
  {
    assert (hs + [h])[..|hs|] == hs;
    CountedConcat(PrintedHunks(hs), [HunkHeader(h)] + Printed(h.lines), Marker(kind));
    CountedConcat([HunkHeader(h)], Printed(h.lines), Marker(kind));
    HeaderCounts(h, Marker(kind));
    PrintedCounts(h.lines, kind);
  }

  lemma {:induction false} CoveredCount(ops: seq<Op>, r: Range, upto: nat, kind: Kind)
    requires !kind.Same? && r.start <= r.end <= upto <= |ops| && SameRun(ops, r.end, upto)
    ensures Plainly(ops[..upto], kind) ==
      Plainly(ops[..r.start], kind) + Plainly(HunkOf(ops, r).lines, kind)
  {
    PlainlyJoin(ops, r.start, r.end, kind);
    PlainlyJoin(ops, r.end, upto, kind);
    NoCountInSameRun(ops[r.end..upto], kind);
  }

  /** Hunks over covering ranges print every change of the covered operations. */
  lemma {:induction false} HunksCount(ops: seq<Op>, rs: seq<Range>, upto: nat, kind: Kind)
    requires upto <= |ops| && Cover(ops, rs, upto) && !kind.Same?
    ensures Counted(PrintedHunks(HunksOf(ops, rs)), Marker(kind)) == Plainly(ops[..upto], kind)
  {
    if rs == [] {
      NoCountInSameRun(ops[..upto], kind);
    } else {
      var init, r := rs[..|rs| - 1], rs[|rs| - 1];
      HunksCount(ops, init, r.start, kind);
      HunkCounts(HunksOf(ops, init), HunkOf(ops, r), kind);
      CoveredCount(ops, r, upto, kind);
    }
  }

  lemma {:induction false} PlainlyJoin(ops: seq<Op>, i: nat, j: nat, kind: Kind)
    requires i <= j <= |ops|
    ensures Plainly(ops[..j], kind) == Plainly(ops[..i], kind) + Plainly(ops[i..j], kind)
  {
    assert ops[..j] == ops[..i] + ops[i..j];
    PlainlyConcat(ops[..i], ops[i..j], kind);
  }

  lemma {:induction false} HunkedCount(ops: seq<Op>, kind: Kind)
    requires !kind.Same?
    ensures Counted(PrintedHunks(Hunked(ops, CONTEXT)), Marker(kind)) == Plainly(ops, kind)
  {
    RangesCover(ops, CONTEXT);
    assert ops[..|ops|] == ops;
    HunksCount(ops, HunkRanges(ops, CONTEXT), |ops|, kind);
  }

  // ---- every printed hunk line is one line -----------------------------------------------------

  lemma {:induction false} DigitsAreOneLine(n: nat)
    ensures OneLine(FormatNat(n))
  {
    FormatIsDigits(n);
    assert forall i | 0 <= i < |FormatNat(n)| :: IsDigit(FormatNat(n)[i]);
  }

  lemma {:induction false} RangeIsOneLine(start: nat, count: nat)
    ensures OneLine(RangeText(start, count))
  {
    DigitsAreOneLine(start);
    DigitsAreOneLine(start + 1);
    DigitsAreOneLine(count);
  }

  lemma {:induction false} HunkHeaderIsOneLine(h: Hunk)
    ensures OneLine(HunkHeader(h))
  {
    hide RangeText;
    RangeIsOneLine(h.oldStart, h.oldCount);
    RangeIsOneLine(h.newStart, h.newCount);
  }

  predicate OneLineOps(ops: seq<Op>) {
    forall op | op in ops :: OneLine(op.text)
  }

  lemma {:induction false} PrintedIsOneLine(ops: seq<Op>)
    requires OneLineOps(ops)
    ensures AllOneLine(Printed(ops))
  {
    if ops != [] {
      PrintedIsOneLine(ops[..|ops| - 1]);
      assert ops[|ops| - 1] in ops;
    }
  }

  lemma {:induction false} HunksAreOneLine(ops: seq<Op>, rs: seq<Range>, upto: nat)
    requires upto <= |ops| && Cover(ops, rs, upto) && OneLineOps(ops)
    ensures AllOneLine(PrintedHunks(HunksOf(ops, rs)))
  {
    hide HunkHeader;
    if rs != [] {
      var init, r := rs[..|rs| - 1], rs[|rs| - 1];
      HunksAreOneLine(ops, init, r.start);
      HunkHeaderIsOneLine(HunkOf(ops, r));
      PrintedIsOneLine(ops[r.start..r.end]);
      assert HunksOf(ops, rs)[..|init|] == HunksOf(ops, init);
    }
  }

  lemma {:induction false} PickHolds(ops: seq<Op>, kinds: set<Kind>, op: Op)
    requires op in ops && op.kind in kinds
    ensures op.text in Pick(ops, kinds)
  {
    PickFirst(ops, kinds);
    if op != ops[0] {
      PickHolds(ops[1..], kinds, op);
    }
  }

  lemma {:induction false} ScriptIsOneLine(before: string, after: string)
    ensures OneLineOps(Diffed(Lines(before), Lines(after)))
  {
    hide Diffed, Pick, Trimmed, Lines;
    var ops := Diffed(Lines(before), Lines(after));
    DiffedIsScript(Lines(before), Lines(after));
    UnlinesOfLines(before);
    UnlinesOfLines(after);
    forall op | op in ops
      ensures OneLine(op.text)
    {
      if op.kind.Added? {
        PickHolds(ops, {Same, Added}, op);
      } else {
        PickHolds(ops, {Same, Removed}, op);
      }
    }
  }

  lemma {:induction false} HunkLinesReadBack(before: string, after: string)
    ensures var lines := PrintedHunks(Hunked(Diffed(Lines(before), Lines(after)), CONTEXT));
      Split(Unlines(lines)) == lines + [""]
  {
    hide Diffed, PrintedHunks, Unlines, Lines;
    var ops := Diffed(Lines(before), Lines(after));
    ScriptIsOneLine(before, after);
    RangesCover(ops, CONTEXT);
    HunksAreOneLine(ops, HunkRanges(ops, CONTEXT), |ops|);
    SplitOfUnlines(PrintedHunks(Hunked(ops, CONTEXT)));
  }

  // ---- the file header: a path may hold newlines --------------------------------------------------

  /** Lines of the path after its first that the count takes for changes. */
  function Extra(path: string, c: char): nat {
    Counted(Split(path)[1..], c)
  }

  lemma {:induction false} SplitAfterPrefix(x: string, path: string)
    requires OneLine(x)
    ensures Split(x + path) == [x + Split(path)[0]] + Split(path)[1..]
    ensures Split(path)[0] <= path
  {
    var i := LineEnd(path);
    LineEndFacts(path);
    if i == |path| {
      assert '\n' !in x + path;
      SplitOneLine(x + path);
    } else {
      LineEndOf(x + path[..i], path[i + 1..]);
      assert x + path == (x + path[..i]) + "\n" + path[i + 1..];
      assert (x + path)[..|x| + i] == x + path[..i];
    }
  }

  lemma {:induction false} HeaderLineCounts(x: string, path: string, c: char)
    requires OneLine(x) && (Tripled(x, '+') || Tripled(x, '-'))
    ensures Counted(Split(x + path), c) == Extra(path, c)
  {
    SplitAfterPrefix(x, path);
    var first := x + Split(path)[0];
    CountedConcat([first], Split(path)[1..], c);
    assert [first][..0] == [];
    assert Marked(first, c) == 0;
  }

  /** Both file headers carry the path, so its extra lines count twice. */
  lemma {:induction false} HeaderTextCounts(path: string, hunks: string, c: char)
    ensures Counted(Split("--- a/" + path + "\n" + ("+++ b/" + path + "\n" + hunks)), c) ==
      2 * Extra(path, c) + Counted(Split(hunks), c)
  {
    hide Split, Extra;
    var first, second := "--- a/" + path, "+++ b/" + path;
    SplitJoin(first, second + "\n" + hunks);
    SplitJoin(second, hunks);
    CountedConcat(Split(first), Split(second) + Split(hunks), c);
    CountedConcat(Split(second), Split(hunks), c);
    HeaderLineCounts("--- a/", path, c);
    HeaderLineCounts("+++ b/", path, c);
  }

  lemma {:induction false} BodyText(path: string, lines: seq<string>)
    ensures Unlines(FileHeader(path) + lines) ==
      "--- a/" + path + "\n" + ("+++ b/" + path + "\n" + Unlines(lines))
  {
    var first, second := "--- a/" + path, "+++ b/" + path;
    var all := [first] + ([second] + lines);
    assert FileHeader(path) + lines == all;
    assert all[1..] == [second] + lines && ([second] + lines)[1..] == lines;
  }

  lemma {:induction false} EmptyPieceCountsNothing(lines: seq<string>, c: char)
    ensures Counted(lines + [""], c) == Counted(lines, c)
  {
    assert (lines + [""])[..|lines|] == lines;
  }

  /**
   The counts read from the body miss exactly the changed lines that begin with a doubled marker, and take
   the marked lines of the path, twice each, for changes.
   */
  lemma {:induction false} CountsOfBody(before: string, after: string, path: string, kind: Kind)
    requires !kind.Same?
    ensures Counted(Split(Body(before, after, path)), Marker(kind)) ==
      Plainly(Diffed(Lines(before), Lines(after)), kind) +
      if Body(before, after, path) == "" then 0 else 2 * Extra(path, Marker(kind))
  {
    hide Diffed, Lines, PrintedHunks, Split, Unlines, Extra, Counted, Plainly, FileHeader;
    var hs := Hunked(Diffed(Lines(before), Lines(after)), CONTEXT);
    BodyEmptyIff(before, after, path);
    HunkedCount(Diffed(Lines(before), Lines(after)), kind);
    HunkLinesReadBack(before, after);
    BodyText(path, PrintedHunks(hs));
    HeaderTextCounts(path, Unlines(PrintedHunks(hs)), Marker(kind));
    EmptyPieceCountsNothing(PrintedHunks(hs), Marker(kind));
    NoHunksPrintNothing();
  }

  lemma {:induction false} NoHunksPrintNothing()
    ensures PrintedHunks([]) == [] && Unlines([]) == ""
  {
  }

  // ---- when the counts are right ------------------------------------------------------------------

  /** Lines of one kind that begin with the doubled marker. */
  function Doubles(ops: seq<Op>, kind: Kind): nat {
    if ops == [] then 0
    else
      var last := ops[|ops| - 1];
      Doubles(ops[..|ops| - 1], kind) + if last.kind == kind && Doubled(last.text, Marker(kind)) then 1 else 0
  }

  predicate NoneDoubled(ops: seq<Op>, kind: Kind) {
    forall op | op in ops && op.kind == kind :: !Doubled(op.text, Marker(kind))
  }

  lemma {:induction false} PlainOrDoubled(ops: seq<Op>, kind: Kind)
    ensures Plainly(ops, kind) + Doubles(ops, kind) == |Pick(ops, {kind})|
    ensures Doubles(ops, kind) == 0 <==> NoneDoubled(ops, kind)
  {
    if ops != [] {
      var init, last := ops[..|ops| - 1], ops[|ops| - 1];
      PlainOrDoubled(init, kind);
      PickLast(ops, {kind});
      assert forall op | op in ops :: op in init || op == last;
    }
  }

  lemma {:induction false} PickLast(ops: seq<Op>, kinds: set<Kind>)
    requires ops != []
    ensures var last := ops[|ops| - 1];
      Pick(ops, kinds) == Pick(ops[..|ops| - 1], kinds) +
                          if last.kind in kinds then [last.text] else []
  {
    var last := ops[|ops| - 1];
    assert ops == ops[..|ops| - 1] + [last];
    PickConcat(ops[..|ops| - 1], [last], kinds);
    PickFirst([last], kinds);
  }

  /**
   The summary's counts are right exactly when the changed lines that begin with a doubled marker are as many
   as the marked lines of the path, counted in both headers.
   */
  lemma {:induction false} CountsAreExactIff(before: string, after: string, path: string, kind: Kind)
    requires !kind.Same?
    ensures var ops, body := Diffed(Lines(before), Lines(after)), Body(before, after, path);
      Counted(Split(body), Marker(kind)) == |Pick(ops, {kind})| <==>
      Doubles(ops, kind) == if body == "" then 0 else 2 * Extra(path, Marker(kind))
  {
    hide Diffed, Lines, Split, Body, Extra, Counted, Plainly, Doubles, Pick;
    CountsOfBody(before, after, path, kind);
    PlainOrDoubled(Diffed(Lines(before), Lines(after)), kind);
  }

  /** For a path without newlines: exactly when no changed line begins with a doubled marker. */
  lemma {:induction false} CountsForOneLinePath(before: string, after: string, path: string, kind: Kind)
    requires !kind.Same? && OneLine(path)
    ensures var ops, body := Diffed(Lines(before), Lines(after)), Body(before, after, path);
      Counted(Split(body), Marker(kind)) == |Pick(ops, {kind})| <==> NoneDoubled(ops, kind)
  {
    hide Diffed, Lines, Body, Plainly, Doubles, Pick, NoneDoubled;
    CountsAreExactIff(before, after, path, kind);
    PlainOrDoubled(Diffed(Lines(before), Lines(after)), kind);
    SplitOneLine(path);
    assert Split(path)[1..] == [];
  }

  /** A new file of one line: its script adds that line. */
  lemma {:induction false} OneLineAdded(line: string)
    requires OneLine(line)
    ensures var ops := Diffed(Lines(""), Lines(line + "\n"));
      (forall op | op in ops :: op == Op(Added, line)) && |Pick(ops, {Added})| > 0
    ensures forall path :: Body("", line + "\n", path) != ""
  {
    hide Diffed, Pick, Trimmed;
    var ops := Diffed(Lines(""), Lines(line + "\n"));
    LineEndOf(line, "");
    assert line + "\n" + "" == line + "\n";
    assert (line + "\n")[..|line|] == line && (line + "\n")[|line| + 1..] == "";
    assert Lines(line + "\n") == [line] + Lines("");
    DiffedIsScript(Lines(""), Lines(line + "\n"));
    forall op | op in ops
      ensures op == Op(Added, line)
    {
      if op.kind.Added? {
        PickHolds(ops, {Same, Added}, op);
      } else {
        PickHolds(ops, {Same, Removed}, op);
      }
    }
    if ops == [] {
      NothingPicked({Same, Added});
    } else {
      PickHolds(ops, {Added}, ops[0]);
    }
    forall path
      ensures Body("", line + "\n", path) != ""
    {
      BodyEmptyIff("", line + "\n", path);
    }
  }

  lemma {:induction false} NothingPicked(kinds: set<Kind>)
    ensures Pick([], kinds) == []
  {
  }

  lemma {:induction false} AllDoubled(ops: seq<Op>, kind: Kind)
    requires forall op | op in ops && op.kind == kind :: Doubled(op.text, Marker(kind))
    ensures Plainly(ops, kind) == 0
  {
    if ops != [] {
      AllDoubled(ops[..|ops| - 1], kind);
      assert ops[|ops| - 1] in ops;
    }
  }

  /** A file that gains the line "++" is reported as unchanged. */
  lemma {:induction false} DoubledLineIsMissed(path: string)
    requires OneLine(path)
    ensures var ops, body := Diffed(Lines(""), Lines("++\n")), Body("", "++\n", path);
      body != "" && |Pick(ops, {Added})| > 0 && Counted(Split(body), '+') == 0 && Counted(Split(body), '-') == 0
  {
    hide Diffed, Lines, Body, Plainly, Pick, Counted;
    assert "++" + "\n" == "++\n";
    OneLineAdded("++");
    var ops := Diffed(Lines(""), Lines("++\n"));
    AllDoubled(ops, Added);
    AllDoubled(ops, Removed);
    CountsOfBody("", "++\n", path, Added);
    CountsOfBody("", "++\n", path, Removed);
    SplitOneLine(path);
    assert Split(path)[1..] == [];
    NothingCounted('+');
    NothingCounted('-');
  }

  lemma {:induction false} NothingCounted(c: char)
    ensures Counted([], c) == 0
  {
  }

  /** With a newline and a plus sign in the path, two lines too many are reported. */
  lemma {:induction false} PathLinesAreCounted()
    ensures var ops, body := Diffed(Lines(""), Lines("a\n")), Body("", "a\n", "x\n+y");
      Counted(Split(body), '+') == |Pick(ops, {Added})| + 2
  {
    hide Diffed, Lines, Body, Plainly, Doubles, Pick;
    assert "a" + "\n" == "a\n";
    OneLineAdded("a");
    var ops := Diffed(Lines(""), Lines("a\n"));
    CountsOfBody("", "a\n", "x\n+y", Added);
    PlainOrDoubled(ops, Added);
    ExtraOfPath();
  }

  lemma {:induction false} ExtraOfPath()
    ensures Extra("x\n+y", '+') == 1
  {
    assert "x" + "\n" + "+y" == "x\n+y";
    SplitJoin("x", "+y");
    SplitOneLine("x");
    SplitOneLine("+y");
    assert Split("x\n+y")[1..] == ["+y"];
    assert ["+y"][..0] == [];
  }
}
