/**
 The text form of a diff: splitting contents into lines, printing the hunks, and counting added and
 removed lines back from the printed body.
 */
module UnifiedDiff {
  import opened Sequences
  import opened Diff
  import opened Hunks
  import opened Decimal

  const CONTEXT := 3

  // ---- lines of a text ---------------------------------------------------------------------

  function LineEnd(s: string): (i: nat)
    ensures i <= |s|
  {
    if s == [] || s[0] == '\n' then 0 else 1 + LineEnd(s[1..])
  }

  predicate OneLine(s: string) { '\n' !in s }

  lemma {:induction false} LineEndFacts(s: string)
    ensures OneLine(s[..LineEnd(s)])
    ensures LineEnd(s) < |s| ==> s[LineEnd(s)] == '\n'
    ensures LineEnd(s) == |s| ==> OneLine(s)
  {
    if s != [] && s[0] != '\n' {
      LineEndFacts(s[1..]);
      assert s[..LineEnd(s)] == [s[0]] + s[1..][..LineEnd(s[1..])];
    }
  }

  lemma {:induction false} LineEndOf(line: string, rest: string)
    requires OneLine(line)
    ensures LineEnd(line + "\n" + rest) == |line|
  {
    if line != [] {
      LineEndOf(line[1..], rest);
      assert (line + "\n" + rest)[1..] == line[1..] + "\n" + rest;
    }
  }

  /** The lines of a text, without a phantom empty line after a final newline. */
  function Lines(s: string): seq<string>
    decreases |s|
  {
    if s == [] then []
    else
      var i := LineEnd(s);
      if i == |s| then [s] else [s[..i]] + Lines(s[i + 1..])
  }

  method SplitLines(s: string) returns (lines: seq<string>)
    ensures lines == Lines(s)
  {
    lines := [];
    var rest := s;
    while rest != []
      invariant lines + Lines(rest) == Lines(s)
      decreases |rest|
    {
      var i := LineEnd(rest);
      if i == |rest| {
        lines := lines + [rest];
        rest := [];
      } else {
        Assoc(lines, [rest[..i]], Lines(rest[i + 1..]));
        lines := lines + [rest[..i]];
        rest := rest[i + 1..];
      }
    }
  }

  /** The text with a final newline, unless it is empty. */
  function Terminated(s: string): string {
    if s == [] || s[|s| - 1] == '\n' then s else s + "\n"
  }

  function Unlines(lines: seq<string>): string {
    if lines == [] then [] else lines[0] + "\n" + Unlines(lines[1..])
  }

  predicate AllOneLine(lines: seq<string>) {
    forall l | l in lines :: OneLine(l)
  }

  lemma {:induction false} UnlinesOfLines(s: string)
    ensures Unlines(Lines(s)) == Terminated(s) && AllOneLine(Lines(s))
    decreases |s|
  {
    if s != [] {
      var i := LineEnd(s);
      LineEndFacts(s);
      if i == |s| {
        assert Unlines([s][1..]) == [];
      } else {
        var rest := s[i + 1..];
        UnlinesOfLines(rest);
        assert Lines(s) == [s[..i]] + Lines(rest);
        assert Lines(s)[1..] == Lines(rest);
        TerminatedTail(s, i);
      }
    }
  }

  lemma {:induction false} TerminatedTail(s: string, i: nat)
    requires i < |s| && s[i] == '\n'
    ensures Terminated(s) == s[..i] + "\n" + Terminated(s[i + 1..])
  {
    assert s == s[..i] + "\n" + s[i + 1..];
  }

  lemma {:induction false} LinesOfUnlines(lines: seq<string>)
    requires AllOneLine(lines)
    ensures Lines(Unlines(lines)) == lines
  {
    if lines != [] {
      var s, rest := Unlines(lines), Unlines(lines[1..]);
      LinesOfUnlines(lines[1..]);
      LineEndOf(lines[0], rest);
      assert s[..|lines[0]|] == lines[0] && s[|lines[0]| + 1..] == rest;
    }
  }

  /** Two texts have the same lines exactly when they agree up to a missing final newline. */
  lemma {:induction false} SameLinesIff(s: string, t: string)
    ensures Lines(s) == Lines(t) <==> Terminated(s) == Terminated(t)
  {
    UnlinesOfLines(s);
    UnlinesOfLines(t);
    LinesOfUnlines(Lines(s));
    LinesOfUnlines(Lines(t));
  }

  // ---- the printed body ----------------------------------------------------------------------

  function RangeText(start: nat, count: nat): string {
    if count == 0 then FormatNat(start) + ",0"
    else if count == 1 then FormatNat(start + 1)
    else FormatNat(start + 1) + "," + FormatNat(count)
  }

  function Marker(kind: Kind): char {
    match kind
    case Same => ' '
    case Removed => '-'
    case Added => '+'
  }

  function Printed(ops: seq<Op>): seq<string> {
    if ops == [] then []
    else Printed(ops[..|ops| - 1]) + [[Marker(ops[|ops| - 1].kind)] + ops[|ops| - 1].text]
  }

  function HunkHeader(h: Hunk): string {
    "@@ -" + RangeText(h.oldStart, h.oldCount) + " +" + RangeText(h.newStart, h.newCount) + " @@"
  }

  function PrintedHunks(hs: seq<Hunk>): seq<string> {
    if hs == [] then []
    else PrintedHunks(hs[..|hs| - 1]) + ([HunkHeader(hs[|hs| - 1])] + Printed(hs[|hs| - 1].lines))
  }

  function FileHeader(path: string): seq<string> { ["--- a/" + path, "+++ b/" + path] }

  /** What is written for the diff of two texts: each item is followed by a newline. */
  function BodyLines(before: string, after: string, path: string): seq<string> {
    var hs := Hunked(Diffed(Lines(before), Lines(after)), CONTEXT);
    if hs == [] then [] else FileHeader(path) + PrintedHunks(hs)
  }

  /** The diff body: empty, or the items joined with their newlines. The path may hold newlines of its own. */
  function Body(before: string, after: string, path: string): string {
    Unlines(BodyLines(before, after, path))
  }

  lemma {:induction false} UnlinesConcat(x: seq<string>, y: seq<string>)
    ensures Unlines(x + y) == Unlines(x) + Unlines(y)
  {
    if x == [] {
      assert x + y == y;
    } else {
      assert (x + y)[1..] == x[1..] + y;
      UnlinesConcat(x[1..], y);
      Assoc(x[0] + "\n", Unlines(x[1..]), Unlines(y));
    }
  }

  /** Writing one more item. */
  lemma {:induction false} UnlinesSnoc(x: seq<string>, line: string)
    ensures Unlines(x + [line]) == Unlines(x) + line + "\n"
  {
    UnlinesConcat(x, [line]);
    assert [line][1..] == [];
    assert Unlines([line]) == line + "\n";
    Assoc(Unlines(x), line, "\n");
  }

  method UnifiedDiff(before: string, after: string, path: string) returns (body: string)
    ensures body == Body(before, after, path)
    ensures body == "" <==> Terminated(before) == Terminated(after)
  {
    var a := SplitLines(before);
    var b := SplitLines(after);
    var ops := LcsOps(a, b);
    var hunks := BuildHunks(ops, CONTEXT);
    BodyEmptyIff(before, after, path);
    hide Unlines, Diffed, Hunked, Terminated, Lines;
    if |hunks| == 0 {
      return "";
    }
    body := PrintFileHeader(path);
    body := PrintHunks(FileHeader(path), body, hunks);
  }

  method PrintFileHeader(path: string) returns (text: string)
    ensures text == Unlines(FileHeader(path))
  {
    text := "--- a/" + path + "\n";
    text := text + ("+++ b/" + path) + "\n";
    var first, second := "--- a/" + path, "+++ b/" + path;
    assert Unlines([first]) == first + "\n" + Unlines([first][1..]);
    UnlinesSnoc([first], second);
  }

  method PrintHunks(ghost header: seq<string>, text: string, hunks: seq<Hunk>) returns (body: string)
    requires text == Unlines(header)
    ensures body == Unlines(header + PrintedHunks(hunks))
  {
    hide Unlines;
    body := text;
    var i := 0;
    assert hunks[..0] == [] && header + [] == header;
    while i < |hunks|
      invariant i <= |hunks|
      invariant body == Unlines(header + PrintedHunks(hunks[..i]))
    {
      var h := hunks[i];
      ghost var written := header + PrintedHunks(hunks[..i]);
      assert hunks[..i + 1][..i] == hunks[..i];
      Assoc(header, PrintedHunks(hunks[..i]), [HunkHeader(h)] + Printed(h.lines));
      Assoc(written, [HunkHeader(h)], Printed(h.lines));
      UnlinesSnoc(written, HunkHeader(h));
      body := PrintLines(written + [HunkHeader(h)], body + HunkHeader(h) + "\n", h.lines);
      i := i + 1;
    }
    assert hunks[..i] == hunks;
  }

  method PrintLines(ghost header: seq<string>, text: string, ops: seq<Op>) returns (body: string)
    requires text == Unlines(header)
    ensures body == Unlines(header + Printed(ops))
  {
    hide Unlines;
    body := text;
    var i := 0;
    assert ops[..0] == [] && header + [] == header;
    while i < |ops|
      invariant i <= |ops|
      invariant body == Unlines(header + Printed(ops[..i]))
    {
      assert ops[..i + 1][..i] == ops[..i];
      ghost var line := [Marker(ops[i].kind)] + ops[i].text;
      UnlinesSnoc(header + Printed(ops[..i]), line);
      Assoc(header, Printed(ops[..i]), [line]);
      body := body + ([Marker(ops[i].kind)] + ops[i].text) + "\n";
      i := i + 1;
    }
    assert ops[..i] == ops;
  }

  /** The diff is empty exactly when the texts agree up to a final newline. */
  lemma {:induction false} BodyEmptyIff(before: string, after: string, path: string)
    ensures Body(before, after, path) == "" <==> Terminated(before) == Terminated(after)
    ensures Body(before, after, path) == "" <==> Hunked(Diffed(Lines(before), Lines(after)), CONTEXT) == []
  {
    DiffPatches(Lines(before), Lines(after), CONTEXT);
    SameLinesIff(before, after);
  }

  /** So it is empty for some texts that differ. */
  lemma {:induction false} FinalNewlineIsInvisible(path: string)
    ensures "a" != "a\n" && Body("a", "a\n", path) == ""
  {
    assert Terminated("a") == "a\n" == Terminated("a\n");
    BodyEmptyIff("a", "a\n", path);
  }
}
