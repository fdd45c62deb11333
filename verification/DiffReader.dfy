/**
 Reading a printed diff back, by the conventions of the unified format, and applying what was read.
 */
module DiffReader {
  import opened Sequences
  import opened Options
  import opened Decimal
  import opened Diff
  import opened Hunks
  import opened UnifiedDiff
  import opened DiffCounts

  // ---- the reader --------------------------------------------------------------------------

  /** The first place of a character, or the length of the text. */
  function IndexOf(s: string, c: char): (i: nat)
    ensures i <= |s|
  {
    if s == "" || s[0] == c then 0 else 1 + IndexOf(s[1..], c)
  }

  function ReadNat(s: string): Option<nat> {
    if s != "" && AllDigits(s) then Some(Value(s)) else None
  }

  /**
   A start and a count of lines, the start counted from 0: "n,m" are m lines from line n on, "n" is one
   line, and "n,0" are no lines behind line n.
   */
  function ReadRange(text: string): Option<(nat, nat)> {
    var i := IndexOf(text, ',');
    var first := ReadNat(text[..i]);
    var count := if i == |text| then Some(1) else ReadNat(text[i + 1..]);
    if first.None? || count.None? then None
    else if count.value == 0 then Some((first.value, 0))
    else if first.value == 0 then None
    else Some((first.value - 1, count.value))
  }

  /** "@@ -old +new @@" */
  function ReadHeader(line: string): Option<Hunk> {
    if |line| < 7 || line[..4] != "@@ -" || line[|line| - 3..] != " @@" then None
    else
      var ranges := line[4..|line| - 3];
      var i := IndexOf(ranges, ' ');
      if i + 2 > |ranges| || ranges[i..i + 2] != " +" then None
      else
        match (ReadRange(ranges[..i]), ReadRange(ranges[i + 2..]))
        case (Some(o), Some(n)) => Some(Hunk(o.0, o.1, n.0, n.1, []))
        case _ => None
  }

  predicate IsOpLine(line: string) {
    line != "" && line[0] in {' ', '-', '+'}
  }

  function ReadOp(line: string): Op
    requires IsOpLine(line)
  {
    Op(if line[0] == '-' then Removed else if line[0] == '+' then Added else Same, line[1..])
  }

  /** The operation lines at the front. */
  function ReadOps(lines: seq<string>): (ops: seq<Op>)
    ensures |ops| <= |lines|
  {
    if lines == [] || !IsOpLine(lines[0]) then [] else [ReadOp(lines[0])] + ReadOps(lines[1..])
  }

  function ReadHunks(lines: seq<string>): Option<seq<Hunk>>
    decreases |lines|
  {
    if lines == [] then Some([])
    else
      var ops := ReadOps(lines[1..]);
      match (ReadHeader(lines[0]), ReadHunks(lines[1 + |ops|..]))
      case (Some(h), Some(rest)) => Some([h.(lines := ops)] + rest)
      case _ => None
  }

  /** The path of both file headers and the hunks behind them; nothing for an empty diff. */
  datatype Patch = NoChange | Patch(path: string, hunks: seq<Hunk>)

  function ReadDiff(body: string): Option<Patch> {
    var lines := Lines(body);
    if lines == [] then Some(NoChange)
    else if |lines| < 2 || |lines[0]| < 6 || lines[0][..6] != "--- a/" || lines[1] != "+++ b/" + lines[0][6..] then None
    else
      match ReadHunks(lines[2..])
      case Some(hs) => Some(Patch(lines[0][6..], hs))
      case None => None
  }

  function HunksRead(p: Patch): seq<Hunk> {
    match p
    case NoChange => []
    case Patch(_, hs) => hs
  }

  // ---- ranges and headers ----------------------------------------------------------------------

  lemma {:induction false} IndexOfAbsent(s: string, c: char)
    requires c !in s
    ensures IndexOf(s, c) == |s|
  {
    if s != "" {
      IndexOfAbsent(s[1..], c);
    }
  }

  lemma {:induction false} IndexOfFirst(x: string, c: char, y: string)
    requires c !in x
    ensures IndexOf(x + [c] + y, c) == |x|
  {
    if x != "" {
      assert (x + [c] + y)[1..] == x[1..] + [c] + y;
      IndexOfFirst(x[1..], c, y);
    }
  }

  lemma {:induction false} DigitsOnly(n: nat, c: char)
    requires !IsDigit(c)
    ensures c !in FormatNat(n)
  {
    FormatIsDigits(n);
  }

  lemma {:induction false} ReadOfFormat(n: nat)
    ensures ReadNat(FormatNat(n)) == Some(n)
  {
    FormatIsDigits(n);
  }

  lemma {:induction false} RangeReadsBack(start: nat, count: nat)
    ensures ReadRange(RangeText(start, count)) == Some((start, count))
  {
    hide FormatNat;
    var text := RangeText(start, count);
    var first := FormatNat(if count == 0 then start else start + 1);
    ReadOfFormat(if count == 0 then start else start + 1);
    DigitsOnly(if count == 0 then start else start + 1, ',');
    if count == 1 {
      IndexOfAbsent(first, ',');
      assert text[..|text|] == first;
    } else {
      ReadOfFormat(count);
      ReadOfFormat(0);
      var second := if count == 0 then "0" else FormatNat(count);
      ZeroDigits();
      IndexOfFirst(first, ',', second);
      assert text == first + [','] + second;
      assert text[..|first|] == first && text[|first| + 1..] == second;
    }
  }

  lemma {:induction false} ZeroDigits()
    ensures FormatNat(0) == "0"
  {
  }

  lemma {:induction false} RangeHasNoBlank(start: nat, count: nat)
    ensures ' ' !in RangeText(start, count)
  {
    hide FormatNat;
    DigitsOnly(start, ' ');
    DigitsOnly(start + 1, ' ');
    DigitsOnly(count, ' ');
  }

  lemma {:induction false} HeaderReadsBack(h: Hunk)
    ensures ReadHeader(HunkHeader(h)) == Some(h.(lines := []))
    ensures !IsOpLine(HunkHeader(h))
  {
    hide RangeText, ReadRange;
    var o, n, line := RangeText(h.oldStart, h.oldCount), RangeText(h.newStart, h.newCount), HunkHeader(h);
    RangeReadsBack(h.oldStart, h.oldCount);
    RangeReadsBack(h.newStart, h.newCount);
    RangeHasNoBlank(h.oldStart, h.oldCount);
    var ranges := line[4..|line| - 3];
    assert line[..4] == "@@ -" && line[|line| - 3..] == " @@";
    assert ranges == o + [' '] + ("+" + n);
    IndexOfFirst(o, ' ', "+" + n);
    assert ranges[|o|..|o| + 2] == " +" && ranges[..|o|] == o && ranges[|o| + 2..] == n;
  }

  // ---- hunks ---------------------------------------------------------------------------------------

  lemma {:induction false} PrintedFirst(ops: seq<Op>)
    requires ops != []
    ensures Printed(ops) == [[Marker(ops[0].kind)] + ops[0].text] + Printed(ops[1..])
  {
    var n := |ops| - 1;
    if n > 0 {
      PrintedFirst(ops[..n]);
      assert ops[1..][..n - 1] == ops[..n][1..];
    } else {
      assert Printed(ops[..0]) == [] && Printed(ops[1..]) == [];
    }
  }

  lemma {:induction false} OpReadsBack(op: Op)
    ensures IsOpLine([Marker(op.kind)] + op.text) && ReadOp([Marker(op.kind)] + op.text) == op
  {
    assert ([Marker(op.kind)] + op.text)[1..] == op.text;
  }

  lemma {:induction false} OpsReadBack(ops: seq<Op>, rest: seq<string>)
    requires rest != [] ==> !IsOpLine(rest[0])
    ensures ReadOps(Printed(ops) + rest) == ops
    ensures |Printed(ops)| == |ops|
  {
    if ops == [] {
      assert Printed(ops) + rest == rest;
    } else {
      var line := [Marker(ops[0].kind)] + ops[0].text;
      PrintedFirst(ops);
      OpReadsBack(ops[0]);
      OpsReadBack(ops[1..], rest);
      assert (Printed(ops) + rest)[1..] == Printed(ops[1..]) + rest;
      assert (Printed(ops) + rest)[0] == line;
    }
  }

  lemma {:induction false} HunksFirst(hs: seq<Hunk>)
    requires hs != []
    ensures PrintedHunks(hs) == [HunkHeader(hs[0])] + Printed(hs[0].lines) + PrintedHunks(hs[1..])
  {
    hide HunkHeader, Printed;
    var n := |hs| - 1;
    var first, last := [HunkHeader(hs[0])] + Printed(hs[0].lines), [HunkHeader(hs[n])] + Printed(hs[n].lines);
    assert PrintedHunks(hs) == PrintedHunks(hs[..n]) + last;
    if n > 0 {
      HunksFirst(hs[..n]);
      var rest := hs[1..];
      assert rest[..n - 1] == hs[..n][1..] && rest[n - 1] == hs[n];
      assert PrintedHunks(rest) == PrintedHunks(rest[..n - 1]) + last;
      hide PrintedHunks;
      Assoc(first, PrintedHunks(rest[..n - 1]), last);
    } else {
      assert PrintedHunks(hs[..0]) == [] && PrintedHunks(hs[1..]) == [];
    }
  }

  lemma {:induction false} OneHunkReads(line: string, body: seq<string>, rest: seq<string>, h: Hunk, hs: seq<Hunk>)
    requires ReadHeader(line) == Some(h.(lines := [])) && ReadOps(body + rest) == h.lines && |body| == |h.lines|
    requires ReadHunks(rest) == Some(hs)
    ensures ReadHunks([line] + body + rest) == Some([h] + hs)
  {
    hide ReadHeader, ReadOps;
    var lines := [line] + body + rest;
    assert lines[1..] == body + rest && lines[1 + |body|..] == rest;
    assert h.(lines := []).(lines := h.lines) == h;
  }

  /** Every list of hunks is read back from its print, whatever its lines. */
  lemma {:induction false} HunksReadBack(hs: seq<Hunk>)
    ensures ReadHunks(PrintedHunks(hs)) == Some(hs)
    ensures hs != [] ==> PrintedHunks(hs) != [] && !IsOpLine(PrintedHunks(hs)[0])
  {
    if hs != [] {
      hide HunkHeader, Printed, ReadHeader, IsOpLine, ReadOps, ReadHunks, PrintedHunks;
      var h, rest := hs[0], PrintedHunks(hs[1..]);
      HunksFirst(hs);
      HeaderReadsBack(h);
      HunksReadBack(hs[1..]);
      if hs[1..] == [] {
        NothingPrinted();
      }
      OpsReadBack(h.lines, rest);
      OneHunkReads(HunkHeader(h), Printed(h.lines), rest, h, hs[1..]);
      assert hs == [h] + hs[1..];
    }
  }

  lemma {:induction false} NothingPrinted()
    ensures PrintedHunks([]) == []
  {
  }

  // ---- the whole body -----------------------------------------------------------------------------------

  lemma {:induction false} HeadersAreOneLine(path: string)
    requires OneLine(path)
    ensures AllOneLine(FileHeader(path))
  {
    forall l | l in FileHeader(path)
      ensures OneLine(l)
    {
      assert l == "--- a/" + path || l == "+++ b/" + path;
    }
  }

  lemma {:induction false} OneLineConcat(a: seq<string>, b: seq<string>)
    requires AllOneLine(a) && AllOneLine(b)
    ensures AllOneLine(a + b)
  {
  }

  lemma {:induction false} BodyIsOneLine(before: string, after: string, path: string)
    requires OneLine(path)
    ensures AllOneLine(BodyLines(before, after, path))
  {
    hide Diffed, HunkRanges, Cover, HunksOf, PrintedHunks, OneLine, Lines;
    var ops := Diffed(Lines(before), Lines(after));
    ScriptIsOneLine(before, after);
    RangesCover(ops, CONTEXT);
    HunksAreOneLine(ops, HunkRanges(ops, CONTEXT), |ops|);
    HeadersAreOneLine(path);
    OneLineConcat(FileHeader(path), PrintedHunks(Hunked(ops, CONTEXT)));
  }

  /** For a path on one line, the reader finds in the text the path and the hunks that were printed. */
  lemma {:induction false} BodyReadsBack(before: string, after: string, path: string)
    requires OneLine(path)
    ensures var hs := Hunked(Diffed(Lines(before), Lines(after)), CONTEXT);
      ReadDiff(Body(before, after, path)) == Some(if hs == [] then NoChange else Patch(path, hs))
  {
    var hs := Hunked(Diffed(Lines(before), Lines(after)), CONTEXT);
    var lines := BodyLines(before, after, path);
    BodyIsOneLine(before, after, path);
    LinesOfUnlines(lines);
    hide Hunked, Diffed, PrintedHunks, Unlines, Lines, ReadHunks, AllOneLine, OneLine, ReadDiff;
    if hs == [] {
      NothingRead(Body(before, after, path));
    } else {
      HunksReadBack(hs);
      HeadersRead(Body(before, after, path), path, PrintedHunks(hs), hs);
    }
  }

  lemma {:induction false} NothingRead(body: string)
    requires Lines(body) == []
    ensures ReadDiff(body) == Some(NoChange)
  {
    hide Lines;
  }

  lemma {:induction false} HeadersRead(body: string, path: string, printed: seq<string>, hs: seq<Hunk>)
    requires Lines(body) == FileHeader(path) + printed && ReadHunks(printed) == Some(hs)
    ensures ReadDiff(body) == Some(Patch(path, hs))
  {
    hide Lines, ReadHunks;
    var lines := Lines(body);
    PathOfHeader(path);
    assert lines[0] == "--- a/" + path && lines[1] == "+++ b/" + path;
    assert lines[2..] == printed;
  }

  lemma {:induction false} PathOfHeader(path: string)
    ensures var line := "--- a/" + path; |line| >= 6 && line[..6] == "--- a/" && line[6..] == path
  {
  }

  /** What is read from the text, applied to the old lines, gives the new ones, and backwards the old ones. */
  lemma {:induction false} PrintedDiffApplies(before: string, after: string, path: string)
    requires OneLine(path)
    ensures var read := ReadDiff(Body(before, after, path));
      read.Some? &&
      var a, b, hs := Lines(before), Lines(after), HunksRead(read.value);
      && Applies(a, hs, |a|) && Patched(a, hs, |a|) == b
      && Applies(b, Reversed(hs), |b|) && Patched(b, Reversed(hs), |b|) == a
      && (read.value.Patch? ==> read.value.path == path)
  {
    BodyReadsBack(before, after, path);
    DiffPatches(Lines(before), Lines(after), CONTEXT);
    hide Lines, Hunked, Diffed, ReadDiff, Body, Applies, Patched, Reversed;
  }
}
