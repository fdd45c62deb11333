/**
 The print wrapper: cells are packed greedily into lines, breaking at white space, with the leading
 white space as hanging indent and oversized words cut into chunks.
 */
module Wrap {
  import opened Sequences

  /** One rune or escape sequence and its display width. */
  datatype Cell = Cell(str: string, w: nat)

  type Cells = seq<Cell>

  predicate Sep(c: Cell) { c.str == " " || c.str == "\t" }

  const BLANK := Cell(" ", 1)

  /** What tokenizing produces: no empty cell, and white space is one column wide. */
  predicate Proper(cells: Cells) {
    forall c | c in cells :: c.str != "" && (Sep(c) ==> c.w == 1)
  }

  function Width(cells: Cells): nat {
    if cells == [] then 0 else Width(cells[..|cells| - 1]) + cells[|cells| - 1].w
  }

  /** The cells that are not white space. */
  function Ink(cells: Cells): Cells {
    if cells == [] then []
    else Ink(cells[..|cells| - 1]) + if Sep(cells[|cells| - 1]) then [] else [cells[|cells| - 1]]
  }

  function Joined(cells: Cells): string {
    if cells == [] then "" else Joined(cells[..|cells| - 1]) + cells[|cells| - 1].str
  }

  function AllCells(lines: seq<Cells>): Cells {
    if lines == [] then [] else AllCells(lines[..|lines| - 1]) + lines[|lines| - 1]
  }

  predicate HasWord(cells: Cells) {
    exists c | c in cells :: !Sep(c)
  }

  // ---- tokenizing -------------------------------------------------------------------------------

  const ESC := '\U{1B}'

  predicate FinalByte(c: char) { '@' <= c <= '~' }

  /** Where the parameters of an escape sequence end. */
  function ParamsEnd(s: string, j: nat): (k: nat)
    requires j <= |s|
    ensures j <= k <= |s|
    decreases |s| - j
  {
    if j < |s| && !FinalByte(s[j]) then ParamsEnd(s, j + 1) else j
  }

  function EscapeEnd(s: string): (j: nat)
    requires s != "" && s[0] == ESC
    ensures 1 <= j <= |s|
  {
    var j := if 1 < |s| && s[1] == '[' then ParamsEnd(s, 2) else 1;
    if j < |s| then j + 1 else j
  }

  function FirstCell(s: string, runeWidth: char -> nat): Cell
    requires s != ""
  {
    if s[0] == ESC then Cell(s[..EscapeEnd(s)], 0)
    else Cell([s[0]], if s[0] == '\t' then 1 else runeWidth(s[0]))
  }

  function Tokens(s: string, runeWidth: char -> nat): Cells {
    if s == "" then []
    else
      var c := FirstCell(s, runeWidth);
      [c] + Tokens(s[|c.str|..], runeWidth)
  }

  method Tokenize(s: string, runeWidth: char -> nat) returns (cells: Cells)
    ensures cells == Tokens(s, runeWidth)
  {
    cells := [];
    var i := 0;
    assert s[0..] == s;
    while i < |s|
      invariant i <= |s|
      invariant cells + Tokens(s[i..], runeWidth) == Tokens(s, runeWidth)
    {
      var c := FirstCell(s[i..], runeWidth);
      assert s[i..][|c.str|..] == s[i + |c.str|..];
      Assoc(cells, [c], Tokens(s[i + |c.str|..], runeWidth));
      cells := cells + [c];
      i := i + |c.str|;
    }
  }

  lemma {:induction false} TokensAreProper(s: string, runeWidth: char -> nat)
    requires runeWidth(' ') == 1
    ensures Proper(Tokens(s, runeWidth))
  {
    if s != "" {
      TokensAreProper(s[|FirstCell(s, runeWidth).str|..], runeWidth);
    }
  }

  lemma {:induction false} JoinedConcat(x: Cells, y: Cells)
    ensures Joined(x + y) == Joined(x) + Joined(y)
  {
    if y == [] {
      assert x + y == x;
    } else {
      assert (x + y)[..|x + y| - 1] == x + y[..|y| - 1];
      JoinedConcat(x, y[..|y| - 1]);
    }
  }

  lemma {:induction false} InkConcat(x: Cells, y: Cells)
    ensures Ink(x + y) == Ink(x) + Ink(y)
  {
    hide Sep;
    if y == [] {
      assert x + y == x;
    } else {
      assert (x + y)[..|x + y| - 1] == x + y[..|y| - 1];
      InkConcat(x, y[..|y| - 1]);
    }
  }

  lemma {:induction false} WidthConcat(x: Cells, y: Cells)
    ensures Width(x + y) == Width(x) + Width(y)
  {
    if y == [] {
      assert x + y == x;
    } else {
      assert (x + y)[..|x + y| - 1] == x + y[..|y| - 1];
      WidthConcat(x, y[..|y| - 1]);
    }
  }

  lemma {:induction false} Concat(x: Cells, y: Cells)
    ensures Ink(x + y) == Ink(x) + Ink(y) && Width(x + y) == Width(x) + Width(y)
  {
    InkConcat(x, y);
    WidthConcat(x, y);
  }

  /** Tokenizing loses nothing. */
  lemma {:induction false} TokensJoin(s: string, runeWidth: char -> nat)
    ensures Joined(Tokens(s, runeWidth)) == s
  {
    if s != "" {
      FirstCellIsPrefix(s, runeWidth);
      hide FirstCell;
      var c := FirstCell(s, runeWidth);
      TokensJoin(s[|c.str|..], runeWidth);
      JoinedConcat([c], Tokens(s[|c.str|..], runeWidth));
      assert [c][..0] == [] && Joined([c]) == c.str;
    }
  }

  lemma {:induction false} FirstCellIsPrefix(s: string, runeWidth: char -> nat)
    requires s != ""
    ensures var c := FirstCell(s, runeWidth).str;
      1 <= |c| <= |s| && s == c + s[|c|..]
  {
  }

  // ---- segments ------------------------------------------------------------------------------------

  /** A run of white space, or a word. */
  datatype Seg = Seg(cells: Cells, w: nat, sep: bool)

  function RunEnd(cells: Cells, j: nat, sep: bool): (k: nat)
    requires j <= |cells|
    ensures j <= k <= |cells|
    decreases |cells| - j
  {
    if j < |cells| && Sep(cells[j]) == sep then RunEnd(cells, j + 1, sep) else j
  }

  function Segs(cells: Cells, i: nat): seq<Seg>
    requires i <= |cells|
    decreases |cells| - i
  {
    if i == |cells| then []
    else
      var sep := Sep(cells[i]);
      var j := RunEnd(cells, i + 1, sep);
      [Seg(cells[i..j], Width(cells[i..j]), sep)] + Segs(cells, j)
  }

  method BuildSegs(cells: Cells) returns (segs: seq<Seg>)
    ensures segs == Segs(cells, 0)
  {
    hide Sep;
    segs := [];
    var i := 0;
    while i < |cells|
      invariant i <= |cells|
      invariant segs + Segs(cells, i) == Segs(cells, 0)
    {
      var sep := Sep(cells[i]);
      var j, w := i + 1, cells[i].w;
      assert cells[i..i + 1][..0] == [];
      while j < |cells| && Sep(cells[j]) == sep
        invariant i < j <= |cells|
        invariant RunEnd(cells, j, sep) == RunEnd(cells, i + 1, sep)
        invariant w == Width(cells[i..j])
      {
        assert cells[i..j + 1][..j - i] == cells[i..j];
        w := w + cells[j].w;
        j := j + 1;
      }
      Assoc(segs, [Seg(cells[i..j], w, sep)], Segs(cells, j));
      segs := segs + [Seg(cells[i..j], w, sep)];
      i := j;
    }
  }

  /** A segment's width is the sum of its cells', and its cells are all of one class. */
  predicate GoodSeg(g: Seg) {
    g.w == Width(g.cells) && g.cells != [] && forall c | c in g.cells :: Sep(c) == g.sep
  }

  function SegCells(segs: seq<Seg>): Cells {
    if segs == [] then [] else segs[0].cells + SegCells(segs[1..])
  }

  lemma {:induction false} RunEndFacts(cells: Cells, j: nat, sep: bool)
    requires j <= |cells|
    ensures forall k | j <= k < RunEnd(cells, j, sep) :: Sep(cells[k]) == sep
    decreases |cells| - j
  {
    if j < |cells| && Sep(cells[j]) == sep {
      RunEndFacts(cells, j + 1, sep);
    }
  }

  lemma {:induction false} SegsJoin(cells: Cells, i: nat)
    requires i <= |cells|
    ensures SegCells(Segs(cells, i)) == cells[i..]
    decreases |cells| - i
  {
    hide Sep, Width, RunEnd;
    if i < |cells| {
      var j := RunEnd(cells, i + 1, Sep(cells[i]));
      SegsJoin(cells, j);
      assert Segs(cells, i)[1..] == Segs(cells, j);
      assert cells[i..] == cells[i..j] + cells[j..];
    }
  }

  lemma {:induction false} SegsAreGood(cells: Cells, i: nat)
    requires i <= |cells|
    ensures forall g | g in Segs(cells, i) :: GoodSeg(g) && forall c | c in g.cells :: c in cells
    decreases |cells| - i
  {
    hide Sep, Width;
    if i < |cells| {
      var sep := Sep(cells[i]);
      RunEndFacts(cells, i + 1, sep);
      var j := RunEnd(cells, i + 1, sep);
      SegsAreGood(cells, j);
    }
  }

  // ---- chunks -----------------------------------------------------------------------------------------

  datatype Chunking = Chunking(out: seq<Cells>, cur: Cells, curW: nat)

  function ChunkOne(k: Chunking, c: Cell, width: int): Chunking {
    if k.curW > 0 && k.curW + c.w > width then Chunking(k.out + [k.cur], [c], c.w)
    else k.(cur := k.cur + [c], curW := k.curW + c.w)
  }

  function ChunkAll(cells: Cells, width: int): Chunking {
    if cells == [] then Chunking([], [], 0)
    else ChunkOne(ChunkAll(cells[..|cells| - 1], width), cells[|cells| - 1], width)
  }

  function Chunks(cells: Cells, width: int): seq<Cells> {
    var k := ChunkAll(cells, width);
    if k.cur != [] then k.out + [k.cur] else k.out
  }

  method WrapChunk(cells: Cells, width: int) returns (out: seq<Cells>)
    ensures out == Chunks(cells, width)
  {
    out := [];
    var cur: Cells, curW: nat := [], 0;
    for i := 0 to |cells|
      invariant ChunkAll(cells[..i], width) == Chunking(out, cur, curW)
    {
      var c := cells[i];
      assert cells[..i + 1][..i] == cells[..i];
      if curW > 0 && curW + c.w > width {
        out, cur, curW := out + [cur], [], 0;
      }
      cur, curW := cur + [c], curW + c.w;
    }
    assert cells[..|cells|] == cells;
    if cur != [] {
      out := out + [cur];
    }
  }

  predicate AllFit(lines: seq<Cells>, width: int) {
    forall l | l in lines :: Width(l) <= width
  }

  lemma {:induction false} CellsSnoc(lines: seq<Cells>, line: Cells)
    ensures AllCells(lines + [line]) == AllCells(lines) + line
  {
    assert (lines + [line])[..|lines|] == lines;
  }

  lemma {:induction false} WidthSnoc(cells: Cells, c: Cell)
    ensures Width(cells + [c]) == Width(cells) + c.w
  {
    assert (cells + [c])[..|cells|] == cells;
  }

  lemma {:induction false} ChunkAllJoins(cells: Cells, width: int)
    ensures var k := ChunkAll(cells, width);
      AllCells(k.out) + k.cur == cells && k.curW == Width(k.cur)
  {
    hide Width, AllCells;
    if cells == [] {
      NoCells();
    } else {
      var init, c := cells[..|cells| - 1], cells[|cells| - 1];
      ChunkAllJoins(init, width);
      var k := ChunkAll(init, width);
      NoCells();
      WidthSnoc([], c);
      WidthSnoc(k.cur, c);
      CellsSnoc(k.out, k.cur);
      Assoc(AllCells(k.out), k.cur, [c]);
      assert [] + [c] == [c];
    }
  }

  lemma {:induction false} NoCells()
    ensures AllCells([]) == [] && Width([]) == 0
  {
  }

  lemma {:induction false} ChunksFit(cells: Cells, width: int)
    requires forall c | c in cells :: c.w <= width
    ensures var k := ChunkAll(cells, width);
      AllFit(k.out, width) && (k.cur != [] ==> k.curW <= width)
  {
    hide Width;
    if cells != [] {
      var init, c := cells[..|cells| - 1], cells[|cells| - 1];
      assert c in cells && forall x | x in init :: x in cells;
      ChunksFit(init, width);
      ChunkAllJoins(init, width);
    }
  }

  /** Chunks put together are the word, and none is too wide unless a single cell is. */
  lemma {:induction false} ChunksFacts(cells: Cells, width: int)
    ensures AllCells(Chunks(cells, width)) == cells
    ensures (forall c | c in cells :: c.w <= width) ==> AllFit(Chunks(cells, width), width)
  {
    ChunkAllJoins(cells, width);
    var k := ChunkAll(cells, width);
    CellsSnoc(k.out, k.cur);
    if forall c | c in cells :: c.w <= width {
      ChunksFit(cells, width);
    }
  }

  // ---- packing ----------------------------------------------------------------------------------------

  function Blanks(n: nat): Cells {
    if n == 0 then [] else Blanks(n - 1) + [BLANK]
  }

  function LeadOf(cells: Cells): nat { RunEnd(cells, 0, true) }

  /** The hanging indent: the leading white space, at most half the width. */
  function IndentOf(cells: Cells, width: nat): nat {
    if LeadOf(cells) > width / 2 then width / 2 else LeadOf(cells)
  }

  function AvailOf(cells: Cells, width: nat): int {
    var avail := width - IndentOf(cells, width);
    if avail < 1 then 1 else avail
  }

  datatype Packing = Packing(out: seq<Cells>, line: Cells, lineW: nat, dirty: bool, pend: Cells, pendW: nat)

  function Flushed(p: Packing): seq<Cells> {
    if p.line != [] then p.out + [p.line] else p.out
  }

  function Indented(indent: Cells, lines: seq<Cells>): seq<Cells> {
    if lines == [] then [] else Indented(indent, lines[..|lines| - 1]) + [indent + lines[|lines| - 1]]
  }

  /** The next segment: put on the line, started on a new one, or cut up. */
  function Pack(p: Packing, g: Seg, width: nat, indentW: nat, avail: int): Packing {
    if g.sep then (if p.dirty then p.(pend := g.cells, pendW := g.w) else p)
    else if p.lineW + p.pendW + g.w <= width then
      var line, lineW := if p.dirty then p.line + p.pend else p.line, if p.dirty then p.lineW + p.pendW else p.lineW;
      Packing(p.out, line + g.cells, lineW + g.w, true, [], 0)
    else if g.w <= avail then
      Packing(Flushed(p), Blanks(indentW) + g.cells, indentW + g.w, true, [], 0)
    else
      Packing(Flushed(p) + Indented(Blanks(indentW), Chunks(g.cells, avail)), [], 0, false, [], 0)
  }

  function PackAll(segs: seq<Seg>, start: Packing, width: nat, indentW: nat, avail: int): Packing {
    if segs == [] then start
    else Pack(PackAll(segs[..|segs| - 1], start, width, indentW, avail), segs[|segs| - 1], width, indentW, avail)
  }

  function StartOf(cells: Cells): Packing {
    Packing([], cells[..LeadOf(cells)], LeadOf(cells), false, [], 0)
  }

  function Wrapped(cells: Cells, width: nat): seq<Cells> {
    if Width(cells) <= width || !HasWord(cells) then [cells]
    else Flushed(PackAll(Segs(cells, 0), StartOf(cells), width, IndentOf(cells, width), AvailOf(cells, width)))
  }

  method Measured(cells: Cells) returns (total: nat, hasWord: bool)
    ensures total == Width(cells) && hasWord == HasWord(cells)
  {
    total, hasWord := 0, false;
    for i := 0 to |cells|
      invariant total == Width(cells[..i]) && hasWord == HasWord(cells[..i])
    {
      assert cells[..i + 1][..i] == cells[..i];
      total := total + cells[i].w;
      if !Sep(cells[i]) {
        hasWord := true;
        assert cells[i] in cells[..i + 1];
      }
      assert forall c | c in cells[..i + 1] :: c in cells[..i] || c == cells[i];
    }
    assert cells[..|cells|] == cells;
  }

  method LeadingBlanks(cells: Cells) returns (lead: nat)
    ensures lead == LeadOf(cells)
  {
    lead := 0;
    while lead < |cells| && Sep(cells[lead])
      invariant lead <= |cells| && RunEnd(cells, lead, true) == LeadOf(cells)
    {
      lead := lead + 1;
    }
  }

  method IndentAll(indent: Cells, lines: seq<Cells>) returns (out: seq<Cells>)
    ensures out == Indented(indent, lines)
  {
    out := [];
    for i := 0 to |lines|
      invariant out == Indented(indent, lines[..i])
    {
      assert lines[..i + 1][..i] == lines[..i];
      out := out + [indent + lines[i]];
    }
    assert lines[..|lines|] == lines;
  }

  method PackSegs(segs: seq<Seg>, start: Packing, width: nat, indentW: nat, avail: int) returns (p: Packing)
    ensures p == PackAll(segs, start, width, indentW, avail)
  {
    var out, line, lineW, lineDirty, pendSep, pendSepW :=
      start.out, start.line, start.lineW, start.dirty, start.pend, start.pendW;
    var indent := Blanks(indentW);
    for i := 0 to |segs|
      invariant lineW >= 0 && pendSepW >= 0
      invariant Packing(out, line, lineW, lineDirty, pendSep, pendSepW) ==
                PackAll(segs[..i], start, width, indentW, avail)
    {
      hide Chunks;
      var seg := segs[i];
      assert segs[..i + 1][..i] == segs[..i];
      if seg.sep {
        if lineDirty {
          pendSep, pendSepW := seg.cells, seg.w;
        }
        continue;
      }
      if lineW + pendSepW + seg.w <= width {
        if lineDirty {
          line := line + pendSep;
          lineW := lineW + pendSepW;
        }
        line := line + seg.cells;
        lineW := lineW + seg.w;
        lineDirty := true;
      } else if seg.w <= avail {
        if line != [] {
          out := out + [line];
        }
        line, lineW, lineDirty := indent + seg.cells, indentW + seg.w, true;
      } else {
        if line != [] {
          out := out + [line];
        }
        var chunks := WrapChunk(seg.cells, avail);
        var indented := IndentAll(indent, chunks);
        out := out + indented;
        line, lineW, lineDirty := [], 0, false;
      }
      pendSep, pendSepW := [], 0;
    }
    assert segs[..|segs|] == segs;
    p := Packing(out, line, lineW, lineDirty, pendSep, pendSepW);
  }

  method WrapLineCells(cells: Cells, width: nat) returns (out: seq<Cells>)
    ensures out == Wrapped(cells, width)
  {
    hide Segs, PackAll, RunEnd, HasWord, Width;
    var total, hasWord := Measured(cells);
    if total <= width || !hasWord {
      return [cells];
    }
    var lead := LeadingBlanks(cells);
    var indentW := if lead > width / 2 then width / 2 else lead;
    var avail := if width - indentW < 1 then 1 else width - indentW;
    var segs := BuildSegs(cells);
    var p := PackSegs(segs, Packing([], cells[..lead], lead, false, [], 0), width, indentW, avail);
    out := if p.line != [] then p.out + [p.line] else p.out;
  }

  // ---- nothing overflows, nothing is lost --------------------------------------------------------------

  lemma {:induction false} InkIff(cells: Cells)
    ensures Ink(cells) == [] <==> !HasWord(cells)
  {
    if cells != [] {
      var init, c := cells[..|cells| - 1], cells[|cells| - 1];
      InkIff(init);
      assert forall x | x in cells :: x in init || x == c;
      assert c in cells && forall x | x in init :: x in cells;
    }
  }

  lemma {:induction false} BlanksFacts(n: nat)
    ensures Width(Blanks(n)) == n && Ink(Blanks(n)) == []
  {
    if n > 0 {
      BlanksFacts(n - 1);
      assert Blanks(n)[..|Blanks(n)| - 1] == Blanks(n - 1);
    }
  }

  lemma {:induction false} SepsFacts(cells: Cells)
    requires Proper(cells) && forall c | c in cells :: Sep(c)
    ensures Width(cells) == |cells| && Ink(cells) == []
  {
    if cells != [] {
      SepsFacts(cells[..|cells| - 1]);
    }
  }

  /** Recorded widths are right, a line with a word fits, and a line without one holds no word. */
  predicate Shape(p: Packing, width: nat) {
    && p.lineW == Width(p.line) && p.pendW == Width(p.pend) && Ink(p.pend) == []
    && (p.dirty ==> p.lineW <= width)
    && (!p.dirty ==> p.pend == [] && Ink(p.line) == [])
  }

  /** Every line that contains a word is within the width. */
  predicate WordsFit(lines: seq<Cells>, width: nat) {
    forall l | l in lines && Ink(l) != [] :: Width(l) <= width
  }

  lemma {:induction false} FlushFits(p: Packing, width: nat)
    requires Shape(p, width) && WordsFit(p.out, width)
    ensures WordsFit(Flushed(p), width)
  {
    hide Width, Ink;
  }

  lemma {:induction false} SegInk(g: Seg)
    requires GoodSeg(g)
    ensures g.sep ==> Ink(g.cells) == []
  {
    InkIff(g.cells);
  }

  lemma {:induction false} PackShape(p: Packing, g: Seg, width: nat, indentW: nat, avail: int)
    requires Shape(p, width) && GoodSeg(g) && indentW + avail <= width
    ensures Shape(Pack(p, g, width, indentW, avail), width)
  {
    hide Ink, Width, Chunks, Indented, Blanks, GoodSeg;
    NoCells();
    NoInk();
    if g.sep {
      SepSeg(g);
    } else if p.lineW + p.pendW + g.w <= width {
      SegWidth(g);
      Concat(p.line, p.pend);
      Concat(if p.dirty then p.line + p.pend else p.line, g.cells);
    } else if g.w <= avail {
      SegWidth(g);
      BlanksFacts(indentW);
      Concat(Blanks(indentW), g.cells);
    }
  }

  lemma {:induction false} SegWidth(g: Seg)
    requires GoodSeg(g)
    ensures g.w == Width(g.cells)
  {
  }

  lemma {:induction false} SepSeg(g: Seg)
    requires GoodSeg(g) && g.sep
    ensures Ink(g.cells) == [] && g.w == Width(g.cells)
  {
    SegInk(g);
  }

  lemma {:induction false} NoInk()
    ensures Ink([]) == []
  {
  }

  lemma {:induction false} IndentedFits(indent: Cells, lines: seq<Cells>, indentW: nat, avail: int, width: nat)
    requires Width(indent) == indentW && indentW + avail <= width && AllFit(lines, avail)
    ensures AllFit(Indented(indent, lines), width)
  {
    hide Width;
    if lines != [] {
      var init, last := lines[..|lines| - 1], lines[|lines| - 1];
      IndentedFits(indent, init, indentW, avail, width);
      Concat(indent, last);
      assert last in lines;
    }
  }

  lemma {:induction false} PackFits(p: Packing, g: Seg, width: nat, indentW: nat, avail: int)
    requires Shape(p, width) && WordsFit(p.out, width) && GoodSeg(g) && indentW + avail <= width
    requires forall c | c in g.cells :: c.w <= avail
    ensures WordsFit(Pack(p, g, width, indentW, avail).out, width)
  {
    hide Ink, Width, Chunks, Indented, Blanks;
    FlushFits(p, width);
    BlanksFacts(indentW);
    ChunksFacts(g.cells, avail);
    IndentedFits(Blanks(indentW), Chunks(g.cells, avail), indentW, avail, width);
  }

  lemma {:induction false} PackAllFits(segs: seq<Seg>, start: Packing, width: nat, indentW: nat, avail: int)
    requires Shape(start, width) && WordsFit(start.out, width) && indentW + avail <= width
    requires forall g | g in segs :: GoodSeg(g) && forall c | c in g.cells :: c.w <= avail
    ensures var p := PackAll(segs, start, width, indentW, avail);
      Shape(p, width) && WordsFit(p.out, width)
  {
    hide Shape, WordsFit, GoodSeg, Pack;
    if segs != [] {
      var init, g := segs[..|segs| - 1], segs[|segs| - 1];
      PackAllFits(init, start, width, indentW, avail);
      var p := PackAll(init, start, width, indentW, avail);
      assert g in segs;
      PackShape(p, g, width, indentW, avail);
      PackFits(p, g, width, indentW, avail);
    }
  }

  lemma {:induction false} StartShape(cells: Cells, width: nat)
    requires Proper(cells)
    ensures Shape(StartOf(cells), width) && Ink(StartOf(cells).line) == []
  {
    var lead := cells[..LeadOf(cells)];
    RunEndFacts(cells, 0, true);
    assert forall c | c in lead :: c in cells;
    SepsFacts(lead);
    assert |lead| == LeadOf(cells);
  }

  /** When no cell is wider than the room beside the indent, no line with a word overflows. */
  lemma {:induction false} WordLinesFit(cells: Cells, width: nat)
    requires width >= 1 && Proper(cells)
    requires forall c | c in cells :: c.w <= width - IndentOf(cells, width)
    ensures WordsFit(Wrapped(cells, width), width)
  {
    hide Width, Segs, PackAll, Ink, RunEnd, Sep, GoodSeg;
    InkIff(cells);
    StartShape(cells, width);
    SegsAreGood(cells, 0);
    if Width(cells) > width && HasWord(cells) {
      PackAllFits(Segs(cells, 0), StartOf(cells), width, IndentOf(cells, width), AvailOf(cells, width));
      FlushFits(PackAll(Segs(cells, 0), StartOf(cells), width, IndentOf(cells, width), AvailOf(cells, width)), width);
    }
  }

  /** The words' cells packed so far. */
  function PackedInk(p: Packing): Cells { Ink(AllCells(p.out)) + Ink(p.line) }

  lemma {:induction false} FlushInk(p: Packing)
    ensures Ink(AllCells(Flushed(p))) == PackedInk(p)
  {
    if p.line == [] {
      NoInk();
      assert Ink(AllCells(p.out)) + [] == Ink(AllCells(p.out));
    } else {
      CellsSnoc(p.out, p.line);
      Concat(AllCells(p.out), p.line);
    }
  }

  lemma {:induction false} IndentedInk(indent: Cells, lines: seq<Cells>)
    requires Ink(indent) == []
    ensures Ink(AllCells(Indented(indent, lines))) == Ink(AllCells(lines))
  {
    hide Ink;
    if lines != [] {
      var init, last := lines[..|lines| - 1], lines[|lines| - 1];
      IndentedInk(indent, init);
      CellsSnoc(Indented(indent, init), indent + last);
      Concat(AllCells(Indented(indent, init)), indent + last);
      Concat(indent, last);
      Concat(AllCells(init), last);
      assert [] + Ink(last) == Ink(last);
    } else {
      NoCells();
    }
  }

  lemma {:induction false} CellsConcat(x: seq<Cells>, y: seq<Cells>)
    ensures AllCells(x + y) == AllCells(x) + AllCells(y)
  {
    if y == [] {
      assert x + y == x;
    } else {
      assert (x + y)[..|x + y| - 1] == x + y[..|y| - 1];
      CellsConcat(x, y[..|y| - 1]);
    }
  }

  lemma {:induction false} ChunkedInk(p: Packing, word: Cells, indent: Cells, avail: int)
    requires Ink(indent) == []
    ensures Ink(AllCells(Flushed(p) + Indented(indent, Chunks(word, avail)))) == PackedInk(p) + Ink(word)
  {
    hide Ink, AllCells, Chunks, Indented, Flushed;
    var lines := Indented(indent, Chunks(word, avail));
    FlushInk(p);
    IndentedInk(indent, Chunks(word, avail));
    ChunksFacts(word, avail);
    CellsConcat(Flushed(p), lines);
    Concat(AllCells(Flushed(p)), AllCells(lines));
  }

  lemma {:induction false} LineInk(p: Packing, word: Cells, width: nat)
    requires Shape(p, width)
    ensures Ink((if p.dirty then p.line + p.pend else p.line) + word) == Ink(p.line) + Ink(word)
  {
    hide Ink, Width;
    Concat(p.line, p.pend);
    Concat(if p.dirty then p.line + p.pend else p.line, word);
    assert Ink(p.line) + [] == Ink(p.line);
  }

  lemma {:induction false} PackInk(p: Packing, g: Seg, width: nat, indentW: nat, avail: int)
    requires Shape(p, width) && GoodSeg(g)
    ensures PackedInk(Pack(p, g, width, indentW, avail)) == PackedInk(p) + Ink(g.cells)
  {
    hide Ink, Width, AllCells, Chunks, Indented, Blanks, Flushed, GoodSeg;
    SegInk(g);
    NoInk();
    BlanksFacts(indentW);
    var base := PackedInk(p);
    if g.sep {
      assert base + [] == base;
    } else if p.lineW + p.pendW + g.w <= width {
      LineInk(p, g.cells, width);
      Assoc(Ink(AllCells(p.out)), Ink(p.line), Ink(g.cells));
    } else if g.w <= avail {
      FlushInk(p);
      Concat(Blanks(indentW), g.cells);
      assert [] + Ink(g.cells) == Ink(g.cells);
    } else {
      ChunkedInk(p, g.cells, Blanks(indentW), avail);
      assert (base + Ink(g.cells)) + [] == base + Ink(g.cells);
    }
  }

  lemma {:induction false} SegCellsSnoc(segs: seq<Seg>)
    requires segs != []
    ensures SegCells(segs) == SegCells(segs[..|segs| - 1]) + segs[|segs| - 1].cells
  {
    if |segs| == 1 {
      assert SegCells(segs[1..]) == [];
    } else {
      SegCellsSnoc(segs[1..]);
      assert segs[1..][..|segs| - 2] == segs[..|segs| - 1][1..];
      Assoc(segs[0].cells, SegCells(segs[..|segs| - 1][1..]), segs[|segs| - 1].cells);
    }
  }

  lemma {:induction false} PackAllInk(segs: seq<Seg>, start: Packing, width: nat, indentW: nat, avail: int)
    requires Shape(start, width) && indentW + avail <= width
    requires forall g | g in segs :: GoodSeg(g)
    ensures var p := PackAll(segs, start, width, indentW, avail);
      Shape(p, width) && PackedInk(p) == PackedInk(start) + Ink(SegCells(segs))
  {
    hide Shape, GoodSeg, Pack, PackedInk, Ink;
    if segs == [] {
      NoInk();
      assert PackedInk(start) + [] == PackedInk(start);
    } else {
      var init, g := segs[..|segs| - 1], segs[|segs| - 1];
      PackAllInk(init, start, width, indentW, avail);
      var p := PackAll(init, start, width, indentW, avail);
      assert g in segs;
      PackShape(p, g, width, indentW, avail);
      PackInk(p, g, width, indentW, avail);
      SegCellsSnoc(segs);
      Concat(SegCells(init), g.cells);
      Assoc(PackedInk(start), Ink(SegCells(init)), Ink(g.cells));
    }
  }

  /** The words' cells come out in order, each once; only white space is added or dropped. */
  lemma {:induction false} InkIsKept(cells: Cells, width: nat)
    requires width >= 1 && Proper(cells)
    ensures Ink(AllCells(Wrapped(cells, width))) == Ink(cells)
  {
    hide Width, Segs, PackAll, Ink, RunEnd, Sep, GoodSeg, Shape;
    if Width(cells) <= width || !HasWord(cells) {
      CellsSnoc([], cells);
      NoCells();
      assert [] + [cells] == [cells] && [] + cells == cells;
    } else {
      StartShape(cells, width);
      SegsAreGood(cells, 0);
      SegsJoin(cells, 0);
      assert cells[0..] == cells;
      var p := PackAll(Segs(cells, 0), StartOf(cells), width, IndentOf(cells, width), AvailOf(cells, width));
      PackAllInk(Segs(cells, 0), StartOf(cells), width, IndentOf(cells, width), AvailOf(cells, width));
      FlushInk(p);
      NoCells();
      NoInk();
      assert ([] + []) + Ink(cells) == Ink(cells);
    }
  }

  // ---- printing -------------------------------------------------------------------------------------------

  /** The output lines of the source lines; without any width they are left as they are. */
  function WrappedAll(src: seq<string>, width: int, runeWidth: char -> nat): seq<Cells> {
    if src == [] then []
    else
      var cells := Tokens(src[|src| - 1], runeWidth);
      WrappedAll(src[..|src| - 1], width, runeWidth) + if width < 1 then [cells] else Wrapped(cells, width)
  }

  method WrapPrint(src: seq<string>, width: int, runeWidth: char -> nat) returns (out: seq<Cells>)
    ensures out == WrappedAll(src, width, runeWidth)
  {
    out := [];
    for i := 0 to |src|
      invariant out == WrappedAll(src[..i], width, runeWidth)
    {
      hide Wrapped, Tokens;
      assert src[..i + 1][..i] == src[..i];
      var cells := Tokenize(src[i], runeWidth);
      if width < 1 {
        out := out + [cells];
      } else {
        var lines := WrapLineCells(cells, width);
        out := out + lines;
      }
    }
    assert src[..|src|] == src;
  }

  /** The room a source line leaves beside its indent is wide enough for each of its cells. */
  predicate CellsFit(line: string, width: int, runeWidth: char -> nat) {
    var cells := Tokens(line, runeWidth);
    width >= 1 && forall c | c in cells :: c.w <= width - IndentOf(cells, width)
  }

  /** Printed lines with a word never overflow, and every source line's words are printed in order. */
  lemma {:induction false} PrintedLinesFit(src: seq<string>, width: nat, runeWidth: char -> nat)
    requires runeWidth(' ') == 1 && width >= 1
    requires forall line | line in src :: CellsFit(line, width, runeWidth)
    ensures WordsFit(WrappedAll(src, width, runeWidth), width)
    ensures Ink(AllCells(WrappedAll(src, width, runeWidth))) == InkOf(src, runeWidth)
  {
    hide Wrapped, Width, Ink, Tokens, Proper, IndentOf;
    if src == [] {
      NoCells();
      NoInk();
    } else {
      var init, line := src[..|src| - 1], src[|src| - 1];
      var cells := Tokens(line, runeWidth);
      assert line in src && CellsFit(line, width, runeWidth);
      PrintedLinesFit(init, width, runeWidth);
      TokensAreProper(line, runeWidth);
      WordLinesFit(cells, width);
      InkIsKept(cells, width);
      CellsConcat(WrappedAll(init, width, runeWidth), Wrapped(cells, width));
      Concat(AllCells(WrappedAll(init, width, runeWidth)), AllCells(Wrapped(cells, width)));
    }
  }

  /** The words' cells of all source lines. */
  function InkOf(src: seq<string>, runeWidth: char -> nat): Cells {
    if src == [] then []
    else InkOf(src[..|src| - 1], runeWidth) + Ink(Tokens(src[|src| - 1], runeWidth))
  }
}
