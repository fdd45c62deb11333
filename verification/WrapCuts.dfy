/**
 Which words the wrapper cuts: the line breaks of its output, counted in the words' cells before them.
 */
module WrapCuts {
  import opened Wrap

  /** How many cells of words the lines hold. */
  function InkCount(lines: seq<Cells>): nat { |Ink(AllCells(lines))| }

  /** A line break falls strictly inside the n cells of words from the a-th on. */
  ghost predicate CutAt(lines: seq<Cells>, a: nat, n: nat) {
    exists j | 0 <= j <= |lines| :: a < InkCount(lines[..j]) < a + n
  }

  /** The packing when the i-th segment's turn comes. */
  function Before(cells: Cells, width: nat, i: nat): Packing
    requires i <= |Segs(cells, 0)|
  {
    PackAll(Segs(cells, 0)[..i], StartOf(cells), width, IndentOf(cells, width), AvailOf(cells, width))
  }

  /** The word at segment i is broken over two lines of the output. */
  ghost predicate WordCut(cells: Cells, width: nat, i: nat)
    requires i < |Segs(cells, 0)|
  {
    CutAt(Wrapped(cells, width), |Ink(SegCells(Segs(cells, 0)[..i]))|, |Segs(cells, 0)[i].cells|)
  }

  // ---- breaks come one after the other ---------------------------------------------------------

  lemma {:induction false} CountsGrow(lines: seq<Cells>, i: nat, j: nat)
    requires i <= j <= |lines|
    ensures InkCount(lines[..i]) <= InkCount(lines[..j])
  {
    hide Ink, AllCells;
    assert lines[..j] == lines[..i] + lines[i..j];
    CellsConcat(lines[..i], lines[i..j]);
    InkConcat(AllCells(lines[..i]), AllCells(lines[i..j]));
  }

  /** r comes after q: its lines extend q's, and every further break is behind all that q had packed. */
  predicate Ahead(q: Packing, r: Packing) {
    && q.out <= r.out && |PackedInk(q)| <= |PackedInk(r)|
    && forall j | |q.out| < j <= |r.out| :: InkCount(r.out[..j]) >= |PackedInk(q)|
  }

  lemma {:induction false} AheadOfLater(q: Packing, r: Packing, s: Packing)
    requires Ahead(q, r) && Ahead(r, s)
    ensures Ahead(q, s)
  {
    hide InkCount, PackedInk;
    forall j | |q.out| < j <= |s.out|
      ensures InkCount(s.out[..j]) >= |PackedInk(q)|
    {
      if j <= |r.out| {
        assert s.out[..j] == r.out[..j];
      }
    }
  }

  /** Lines given out behind the flushed line lie behind all that was packed. */
  lemma {:induction false} FlushedAhead(q: Packing, r: Packing)
    requires Flushed(q) <= r.out && |PackedInk(q)| <= |PackedInk(r)|
    ensures Ahead(q, r)
  {
    hide Ink, AllCells;
    FlushInk(q);
    forall j | |q.out| < j <= |r.out|
      ensures InkCount(r.out[..j]) >= |PackedInk(q)|
    {
      CountsGrow(r.out, |Flushed(q)|, j);
      assert r.out[..|Flushed(q)|] == Flushed(q);
    }
  }

  lemma {:induction false} PackAhead(p: Packing, g: Seg, width: nat, indentW: nat, avail: int)
    requires Shape(p, width) && GoodSeg(g)
    ensures Ahead(p, Pack(p, g, width, indentW, avail))
  {
    hide Shape, GoodSeg, PackedInk, Chunks, Indented, Blanks, Ahead;
    var q := Pack(p, g, width, indentW, avail);
    PackInk(p, g, width, indentW, avail);
    if q.out == p.out {
      SameOutAhead(p, q);
    } else {
      FlushedAhead(p, q);
    }
  }

  lemma {:induction false} SameOutAhead(p: Packing, q: Packing)
    requires q.out == p.out && |PackedInk(p)| <= |PackedInk(q)|
    ensures Ahead(p, q)
  {
  }

  lemma {:induction false} PackAllAhead(segs: seq<Seg>, i: nat, start: Packing, width: nat, indentW: nat, avail: int)
    requires i <= |segs| && Shape(start, width) && indentW + avail <= width && forall g | g in segs :: GoodSeg(g)
    ensures Ahead(PackAll(segs[..i], start, width, indentW, avail), PackAll(segs, start, width, indentW, avail))
  {
    hide Shape, GoodSeg, Pack, Ahead;
    if i == |segs| {
      assert segs[..i] == segs;
      SameOutAhead(PackAll(segs, start, width, indentW, avail), PackAll(segs, start, width, indentW, avail));
    } else {
      var init, last := segs[..|segs| - 1], segs[|segs| - 1];
      assert init[..i] == segs[..i] && last in segs;
      PackAllAhead(init, i, start, width, indentW, avail);
      PackAllInk(init, start, width, indentW, avail);
      var r := PackAll(init, start, width, indentW, avail);
      PackAhead(r, last, width, indentW, avail);
      AheadOfLater(PackAll(segs[..i], start, width, indentW, avail), r, PackAll(segs, start, width, indentW, avail));
    }
  }

  /** The output of the whole line, seen from one of its packings. */
  lemma {:induction false} OutputAhead(p: Packing, end: Packing, out: seq<Cells>)
    requires Ahead(p, end) && out == Flushed(end)
    ensures p.out <= out && forall j | |p.out| < j <= |out| :: InkCount(out[..j]) >= |PackedInk(p)|
  {
    hide PackedInk, InkCount, Ahead;
    var done := Packing(out, [], 0, false, [], 0);
    FlushInk(end);
    EmptyLine(out);
    FlushedAhead(end, done);
    AheadOfLater(p, end, done);
    AheadMeans(p, done);
  }

  lemma {:induction false} AheadMeans(q: Packing, r: Packing)
    requires Ahead(q, r)
    ensures q.out <= r.out && forall j | |q.out| < j <= |r.out| :: InkCount(r.out[..j]) >= |PackedInk(q)|
  {
  }

  lemma {:induction false} EmptyLine(out: seq<Cells>)
    ensures PackedInk(Packing(out, [], 0, false, [], 0)) == Ink(AllCells(out))
  {
    assert Ink([]) == [];
    assert Ink(AllCells(out)) + [] == Ink(AllCells(out));
  }

  // ---- one word --------------------------------------------------------------------------------

  lemma {:induction false} AllInk(cells: Cells)
    requires forall c | c in cells :: !Sep(c)
    ensures Ink(cells) == cells
  {
    if cells != [] {
      AllInk(cells[..|cells| - 1]);
      assert cells[|cells| - 1] in cells;
    }
  }

  /** A word that fits on the line, or beside the indent, is not cut whatever follows. */
  lemma {:induction false} WholeWord(p: Packing, g: Seg, width: nat, indentW: nat, avail: int, out: seq<Cells>)
    requires Shape(p, width) && GoodSeg(g) && !g.sep && (p.lineW + p.pendW + g.w <= width || g.w <= avail)
    requires var q := Pack(p, g, width, indentW, avail);
      q.out <= out && forall j | |q.out| < j <= |out| :: InkCount(out[..j]) >= |PackedInk(q)|
    ensures !CutAt(out, |PackedInk(p)|, |g.cells|)
  {
    hide Shape, Ink, AllCells, Chunks, Indented, Blanks, Width;
    var q := Pack(p, g, width, indentW, avail);
    PackInk(p, g, width, indentW, avail);
    AllInk(g.cells);
    FlushInk(p);
    forall j | 0 <= j <= |out|
      ensures InkCount(out[..j]) <= |PackedInk(p)| || InkCount(out[..j]) >= |PackedInk(p)| + |g.cells|
    {
      if j <= |q.out| {
        CountsGrow(out, j, |q.out|);
        assert out[..|q.out|] == q.out;
      }
    }
  }

  lemma {:induction false} ChunkOneNonEmpty(k: Chunking, c: Cell, width: int)
    requires (k.cur == [] ==> k.curW == 0) && forall l | l in k.out :: l != []
    ensures ChunkOne(k, c, width).cur != [] && forall l | l in ChunkOne(k, c, width).out :: l != []
  {
  }

  lemma {:induction false} ChunksNonEmpty(cells: Cells, width: int)
    ensures var k := ChunkAll(cells, width);
      (k.cur == [] ==> k.curW == 0) && forall l | l in k.out :: l != []
  {
    if cells != [] {
      ChunksNonEmpty(cells[..|cells| - 1], width);
      ChunkOneNonEmpty(ChunkAll(cells[..|cells| - 1], width), cells[|cells| - 1], width);
    }
  }

  lemma {:induction false} FewLines(lines: seq<Cells>, width: nat)
    requires |lines| <= 1 && AllFit(lines, width)
    ensures Width(AllCells(lines)) <= width
  {
    hide Width;
    NoCells();
    if lines != [] {
      CellsSnoc([], lines[0]);
      assert [] + [lines[0]] == lines && [] + lines[0] == lines[0];
      assert lines[0] in lines;
    }
  }

  /** A word wider than the room has more than one chunk, if no single cell is. */
  lemma {:induction false} TwoChunks(cells: Cells, width: nat)
    requires cells != [] && Width(cells) > width && forall c | c in cells :: c.w <= width
    ensures |Chunks(cells, width)| >= 2 && forall l | l in Chunks(cells, width) :: l != []
  {
    hide Width;
    ChunksNonEmpty(cells, width);
    ChunksFacts(cells, width);
    if |Chunks(cells, width)| <= 1 {
      FewLines(Chunks(cells, width), width);
    }
  }

  lemma {:induction false} FirstIndented(indent: Cells, lines: seq<Cells>)
    requires lines != []
    ensures Indented(indent, lines) != [] && Indented(indent, lines)[0] == indent + lines[0]
  {
    if |lines| > 1 {
      FirstIndented(indent, lines[..|lines| - 1]);
    } else {
      assert Indented(indent, lines[..0]) == [];
    }
  }

  lemma {:induction false} FirstAndRest(lines: seq<Cells>)
    requires lines != []
    ensures AllCells(lines) == lines[0] + AllCells(lines[1..])
  {
    assert lines == [lines[0]] + lines[1..];
    CellsConcat([lines[0]], lines[1..]);
    CellsSnoc([], lines[0]);
    NoCells();
    assert [] + [lines[0]] == [lines[0]] && [] + lines[0] == lines[0];
  }

  lemma {:induction false} NonEmptyCells(lines: seq<Cells>)
    requires lines != [] && forall l | l in lines :: l != []
    ensures AllCells(lines) != []
  {
    FirstAndRest(lines);
    assert lines[0] in lines;
  }

  /** A word that fits neither way is cut after its first chunk. */
  lemma {:induction false} ChunkedWord(p: Packing, g: Seg, width: nat, indentW: nat, avail: nat, out: seq<Cells>)
    requires Shape(p, width) && GoodSeg(g) && !g.sep && p.lineW + p.pendW + g.w > width && g.w > avail
    requires forall c | c in g.cells :: c.w <= avail
    requires Pack(p, g, width, indentW, avail).out <= out
    ensures CutAt(out, |PackedInk(p)|, |g.cells|)
  {
    hide Shape, Ink, AllCells, Chunks, Indented, Blanks, Width, Flushed, PackedInk;
    var chunks := Chunks(g.cells, avail);
    var lines := Indented(Blanks(indentW), chunks);
    assert g.w == Width(g.cells);
    TwoChunks(g.cells, avail);
    ChunksFacts(g.cells, avail);
    FirstIndented(Blanks(indentW), chunks);
    FirstAndRest(chunks);
    assert chunks[0] in chunks && forall l | l in chunks[1..] :: l in chunks;
    NonEmptyCells(chunks[1..]);
    assert forall c | c in chunks[0] :: c in g.cells;
    AllInk(chunks[0]);
    FirstBreak(Flushed(p), Blanks(indentW), chunks[0], out, indentW);
    FlushInk(p);
    var j := |Flushed(p)| + 1;
    assert out[..j] == Flushed(p) + [Blanks(indentW) + chunks[0]];
  }

  lemma {:induction false} FirstBreak(front: seq<Cells>, indent: Cells, chunk: Cells, out: seq<Cells>, indentW: nat)
    requires indent == Blanks(indentW) && Ink(chunk) == chunk
    ensures InkCount(front + [indent + chunk]) == |Ink(AllCells(front))| + |chunk|
  {
    hide Ink, AllCells, Blanks;
    BlanksFacts(indentW);
    CellsSnoc(front, indent + chunk);
    InkConcat(AllCells(front), indent + chunk);
    InkConcat(indent, chunk);
  }

  // ---- the exact condition ---------------------------------------------------------------------------

  /** What the packing before a word says when the line is wrapped at all. */
  lemma {:induction false} BeforeFacts(cells: Cells, width: nat, i: nat)
    requires width >= 1 && Proper(cells) && i <= |Segs(cells, 0)|
    ensures Shape(Before(cells, width, i), width)
    ensures PackedInk(Before(cells, width, i)) == Ink(SegCells(Segs(cells, 0)[..i]))
  {
    hide Shape, GoodSeg, PackedInk, Segs, Ink, Proper, RunEnd;
    var segs := Segs(cells, 0);
    SegsAreGood(cells, 0);
    assert forall g | g in segs[..i] :: g in segs;
    StartShape(cells, width);
    PackAllInk(segs[..i], StartOf(cells), width, IndentOf(cells, width), AvailOf(cells, width));
    StartInk(cells, width);
    assert [] + Ink(SegCells(segs[..i])) == Ink(SegCells(segs[..i]));
  }

  lemma {:induction false} StartInk(cells: Cells, width: nat)
    requires Proper(cells)
    ensures PackedInk(StartOf(cells)) == []
  {
    StartShape(cells, width);
    NoCells();
    NoInk();
  }

  lemma {:induction false} BeforeIsAhead(cells: Cells, width: nat, i: nat)
    requires width >= 1 && Proper(cells) && i <= |Segs(cells, 0)| && Width(cells) > width && HasWord(cells)
    ensures var p, out := Before(cells, width, i), Wrapped(cells, width);
      p.out <= out && forall j | |p.out| < j <= |out| :: InkCount(out[..j]) >= |PackedInk(p)|
  {
    hide Shape, GoodSeg, PackedInk, InkCount, Segs, PackAll, Ahead, Flushed, RunEnd, Width, HasWord;
    var segs := Segs(cells, 0);
    SegsAreGood(cells, 0);
    StartShape(cells, width);
    PackAllAhead(segs, i, StartOf(cells), width, IndentOf(cells, width), AvailOf(cells, width));
    OutputAhead(Before(cells, width, i), Before(cells, width, |segs|), Wrapped(cells, width)) by {
      assert segs[..|segs|] == segs;
    }
  }

  /** The columns taken before a word is placed. */
  function Used(p: Packing): nat { p.lineW + p.pendW }

  lemma {:induction false} UnwrappedIsWhole(cells: Cells, width: nat, i: nat)
    requires i < |Segs(cells, 0)| && Wrapped(cells, width) == [cells] && !Segs(cells, 0)[i].sep
    ensures !WordCut(cells, width, i)
  {
    hide Segs, Wrapped, Ink, AllCells, SegCells, Sep;
    var segs := Segs(cells, 0);
    SegsAreGood(cells, 0);
    SegsJoin(cells, 0);
    assert cells[0..] == cells;
    AllInk(segs[i].cells);
    InkThrough(segs, i);
    NoCells();
    NoInk();
    CellsSnoc([], cells);
    assert [] + [cells] == [cells] && [] + cells == cells;
    assert [cells][..0] == [] && [cells][..1] == [cells];
  }

  lemma {:induction false} InkThrough(segs: seq<Seg>, i: nat)
    requires i < |segs|
    ensures |Ink(SegCells(segs[..i]))| + |Ink(segs[i].cells)| <= |Ink(SegCells(segs))|
    decreases |segs|
  {
    hide Ink;
    var init, last := segs[..|segs| - 1], segs[|segs| - 1];
    SegCellsSnoc(segs);
    InkConcat(SegCells(init), last.cells);
    if i < |segs| - 1 {
      InkThrough(init, i);
      assert init[..i] == segs[..i];
    }
  }

  lemma {:induction false} BeforeNext(cells: Cells, width: nat, i: nat)
    requires i < |Segs(cells, 0)|
    ensures Before(cells, width, i + 1) ==
      Pack(Before(cells, width, i), Segs(cells, 0)[i], width, IndentOf(cells, width), AvailOf(cells, width))
  {
    var segs := Segs(cells, 0);
    assert segs[..i + 1][..i] == segs[..i];
  }

  lemma {:induction false} WordMeansWord(cells: Cells, i: nat)
    requires i < |Segs(cells, 0)| && !Segs(cells, 0)[i].sep
    ensures HasWord(cells) && GoodSeg(Segs(cells, 0)[i]) && forall c | c in Segs(cells, 0)[i].cells :: c in cells
  {
    hide Segs, Width;
    SegsAreGood(cells, 0);
    assert Segs(cells, 0)[i].cells[0] in cells;
  }

  /**
   A word is cut exactly when the line is wrapped, the word is wider than the room beside the indent, and it
   does not fit behind what its line holds at its turn.
   */
  lemma {:induction false} WordCutIff(cells: Cells, width: nat, i: nat)
    requires width >= 1 && Proper(cells) && i < |Segs(cells, 0)| && !Segs(cells, 0)[i].sep
    requires forall c | c in cells :: c.w <= width - IndentOf(cells, width)
    ensures WordCut(cells, width, i) <==>
      && Width(cells) > width
      && Segs(cells, 0)[i].w > width - IndentOf(cells, width)
      && Used(Before(cells, width, i)) + Segs(cells, 0)[i].w > width
  {
    hide Segs, Ink, AllCells, PackedInk, InkCount, CutAt, SegCells, Pack, PackAll, Shape, GoodSeg, RunEnd, HasWord, Flushed, Width;
    WordMeansWord(cells, i);
    if Width(cells) <= width {
      UnwrappedIsWhole(cells, width, i);
    } else {
      var p, g, indentW, avail := Before(cells, width, i), Segs(cells, 0)[i], IndentOf(cells, width), AvailOf(cells, width);
      BeforeFacts(cells, width, i);
      BeforeNext(cells, width, i);
      BeforeIsAhead(cells, width, i + 1);
      if Used(p) + g.w <= width || g.w <= avail {
        WholeWord(p, g, width, indentW, avail, Wrapped(cells, width));
      } else {
        ChunkedWord(p, g, width, indentW, avail, Wrapped(cells, width));
      }
    }
  }

  /** A word no wider than the room is never cut. */
  lemma {:induction false} NarrowWordsAreUncut(cells: Cells, width: nat, i: nat)
    requires width >= 1 && Proper(cells) && i < |Segs(cells, 0)| && !Segs(cells, 0)[i].sep
    requires forall c | c in cells :: c.w <= width - IndentOf(cells, width)
    requires Segs(cells, 0)[i].w <= width - IndentOf(cells, width)
    ensures !WordCut(cells, width, i)
  {
    hide Segs, WordCut, Width;
    WordCutIff(cells, width, i);
  }

  /** No word of the first i segments is cut. */
  ghost predicate NoneCut(cells: Cells, width: nat, i: nat)
    requires i <= |Segs(cells, 0)|
  {
    forall k | 0 <= k < i && !Segs(cells, 0)[k].sep :: !WordCut(cells, width, k)
  }

  /** As long as no word is cut, the line holds at least the indent. */
  lemma {:induction false} IndentIsHeld(cells: Cells, width: nat, i: nat)
    requires width >= 1 && Proper(cells) && i <= |Segs(cells, 0)| && Width(cells) > width && NoneCut(cells, width, i)
    requires forall c | c in cells :: c.w <= width - IndentOf(cells, width)
    ensures Before(cells, width, i).lineW >= IndentOf(cells, width)
  {
    hide Segs, WordCut, Width, Chunks, Indented, Blanks, Flushed;
    if i > 0 {
      IndentIsHeld(cells, width, i - 1);
      BeforeNext(cells, width, i - 1);
      if !Segs(cells, 0)[i - 1].sep {
        WordCutIff(cells, width, i - 1);
      }
    }
  }

  /** Up to the first cut, a word of a wrapped line is cut exactly when it is wider than the room. */
  lemma {:induction false} FirstCutIff(cells: Cells, width: nat, i: nat)
    requires width >= 1 && Proper(cells) && i < |Segs(cells, 0)| && !Segs(cells, 0)[i].sep
    requires forall c | c in cells :: c.w <= width - IndentOf(cells, width)
    requires Width(cells) > width && NoneCut(cells, width, i)
    ensures WordCut(cells, width, i) <==> Segs(cells, 0)[i].w > width - IndentOf(cells, width)
  {
    hide Segs, WordCut, Width, Before;
    IndentIsHeld(cells, width, i);
    WordCutIff(cells, width, i);
  }

  /** The line after a cut word is empty, without the indent. */
  lemma {:induction false} EmptyAfterCut(cells: Cells, width: nat, k: nat, i: nat)
    requires width >= 1 && Proper(cells) && k < i <= |Segs(cells, 0)| && !Segs(cells, 0)[k].sep
    requires forall c | c in cells :: c.w <= width - IndentOf(cells, width)
    requires WordCut(cells, width, k) && forall j | k < j < i :: Segs(cells, 0)[j].sep
    ensures Used(Before(cells, width, i)) == 0 && !Before(cells, width, i).dirty
  {
    hide Segs, WordCut, Width, Chunks, Indented, Blanks, Flushed;
    BeforeNext(cells, width, i - 1);
    if i == k + 1 {
      WordCutIff(cells, width, k);
    } else {
      EmptyAfterCut(cells, width, k, i - 1);
    }
  }

  /** The next word after a cut one is cut exactly when it is wider than the whole width. */
  lemma {:induction false} NextCutIff(cells: Cells, width: nat, k: nat, i: nat)
    requires width >= 1 && Proper(cells) && k < i < |Segs(cells, 0)| && !Segs(cells, 0)[k].sep && !Segs(cells, 0)[i].sep
    requires forall c | c in cells :: c.w <= width - IndentOf(cells, width)
    requires WordCut(cells, width, k) && forall j | k < j < i :: Segs(cells, 0)[j].sep
    ensures WordCut(cells, width, i) <==> Segs(cells, 0)[i].w > width
  {
    hide Segs, WordCut, Width, Before;
    EmptyAfterCut(cells, width, k, i);
    WordCutIff(cells, width, k);
    WordCutIff(cells, width, i);
  }

  // ---- the room behind a later word, from the widths alone -------------------------------------------

  function SumW(segs: seq<Seg>): nat {
    if segs == [] then 0 else SumW(segs[..|segs| - 1]) + segs[|segs| - 1].w
  }

  /** The line in progress: what stands before its first segment, and whether it is bare, just after a cut. */
  datatype LineStart = LineStart(at: nat, base: nat, bare: bool)

  /** The columns a line has taken when segment i comes: its base and the segments since its start. */
  function Taken(segs: seq<Seg>, s: LineStart, i: nat): nat
    requires s.at <= i <= |segs|
  {
    s.base + SumW(segs[s.at..i])
  }

  /**
   Where the line that segment i comes to began. A word that does not fit begins a line behind the indent,
   or is cut and leaves a bare one, which takes no white space.
   */
  function LineOf(segs: seq<Seg>, width: nat, indent: nat, i: nat): (s: LineStart)
    requires i <= |segs|
    ensures s.at <= i
  {
    if i == 0 then LineStart(0, 0, false)
    else
      var s, g := LineOf(segs, width, indent, i - 1), segs[i - 1];
      if g.sep then (if s.bare then LineStart(i, 0, true) else s)
      else if Taken(segs, s, i - 1) + g.w <= width then s.(bare := false)
      else if g.w + indent <= width then LineStart(i - 1, indent, false)
      else LineStart(i, 0, true)
  }

  lemma {:induction false} SumWNext(segs: seq<Seg>, at: nat, i: nat)
    requires at <= i < |segs|
    ensures SumW(segs[at..i + 1]) == SumW(segs[at..i]) + segs[i].w && SumW(segs[i..i]) == 0
  {
    assert segs[at..i + 1][..i - at] == segs[at..i];
  }

  lemma {:induction false} RunEndsAt(cells: Cells, j: nat, sep: bool)
    requires j <= |cells|
    ensures RunEnd(cells, j, sep) < |cells| ==> Sep(cells[RunEnd(cells, j, sep)]) != sep
    decreases |cells| - j
  {
    if j < |cells| && Sep(cells[j]) == sep {
      RunEndsAt(cells, j + 1, sep);
    }
  }

  /** White space and words alternate. */
  lemma {:induction false} SegsAlternate(cells: Cells, i: nat)
    requires i <= |cells|
    ensures forall k | 0 <= k < |Segs(cells, i)| - 1 :: Segs(cells, i)[k].sep != Segs(cells, i)[k + 1].sep
    decreases |cells| - i
  {
    hide Sep, Width;
    if i < |cells| {
      var sep := Sep(cells[i]);
      var j := RunEnd(cells, i + 1, sep);
      RunEndsAt(cells, i + 1, sep);
      SegsAlternate(cells, j);
      var rest := Segs(cells, j);
      assert Segs(cells, i) == [Seg(cells[i..j], Width(cells[i..j]), sep)] + rest;
      assert forall k | 1 <= k < |Segs(cells, i)| - 1 :: Segs(cells, i)[k] == rest[k - 1] && Segs(cells, i)[k + 1] == rest[k];
    }
  }

  /** The leading white space is the first segment. */
  lemma {:induction false} LeadIsFirst(cells: Cells)
    requires Proper(cells) && cells != []
    ensures var g := Segs(cells, 0)[0]; if g.sep then g.w == LeadOf(cells) else LeadOf(cells) == 0
  {
    if Sep(cells[0]) {
      var lead := cells[0..RunEnd(cells, 1, true)];
      RunEndFacts(cells, 1, true);
      assert forall c | c in lead :: c in cells && Sep(c);
      SepsFacts(lead);
    }
  }

  /** What the packer holds is what the widths since the last break say. */
  predicate Agrees(p: Packing, segs: seq<Seg>, s: LineStart, i: nat)
    requires s.at <= i <= |segs|
  {
    && Used(p) == Taken(segs, s, i) && (s.bare ==> Used(p) == 0 && !p.dirty) && (p.dirty ==> !s.bare)
    && (i < |segs| && segs[i].sep ==> p.pendW == 0 && (p.dirty || s.bare))
    && (!p.dirty ==> p.pendW == 0)
  }

  lemma {:induction false} AgreesNext(p: Packing, segs: seq<Seg>, s: LineStart, i: nat, width: nat, indent: nat, avail: int)
    requires s.at <= i < |segs| && Agrees(p, segs, s, i) && indent + avail == width
    requires i + 1 < |segs| ==> segs[i].sep != segs[i + 1].sep
    ensures var g := segs[i];
      var t := if g.sep then (if s.bare then LineStart(i + 1, 0, true) else s)
               else if Taken(segs, s, i) + g.w <= width then s.(bare := false)
               else if g.w + indent <= width then LineStart(i, indent, false)
               else LineStart(i + 1, 0, true);
      Agrees(Pack(p, g, width, indent, avail), segs, t, i + 1)
  {
    hide Chunks, Indented, Blanks, Flushed;
    SumWNext(segs, s.at, i);
    SumWNext(segs, i, i);
    assert segs[i + 1..i + 1] == [];
  }

  lemma {:induction false} BeforeAgrees(cells: Cells, width: nat, i: nat)
    requires width >= 1 && Proper(cells) && 1 <= i <= |Segs(cells, 0)|
    ensures var segs := Segs(cells, 0);
      Agrees(Before(cells, width, i), segs, LineOf(segs, width, IndentOf(cells, width), i), i)
  {
    hide Segs, Pack, Agrees;
    var segs := Segs(cells, 0);
    SegsAlternate(cells, 0);
    BeforeNext(cells, width, i - 1);
    if i == 1 {
      FirstAgrees(cells, width);
    } else {
      BeforeAgrees(cells, width, i - 1);
      AgreesNext(Before(cells, width, i - 1), segs, LineOf(segs, width, IndentOf(cells, width), i - 1), i - 1,
                 width, IndentOf(cells, width), AvailOf(cells, width));
    }
  }

  lemma {:induction false} SomeSegs(cells: Cells)
    ensures Segs(cells, 0) != [] ==> cells != []
  {
  }

  lemma {:induction false} FirstAgrees(cells: Cells, width: nat)
    requires width >= 1 && Proper(cells) && Segs(cells, 0) != []
    ensures var segs := Segs(cells, 0);
      Agrees(Before(cells, width, 1), segs, LineOf(segs, width, IndentOf(cells, width), 1), 1)
  {
    hide Segs, RunEnd, Chunks, Indented, Blanks;
    var segs := Segs(cells, 0);
    SomeSegs(cells);
    LeadIsFirst(cells);
    SegsAlternate(cells, 0);
    BeforeNext(cells, width, 0);
    SumWNext(segs, 0, 0);
    assert segs[..0] == [] && segs[1..1] == [] && segs[0..0] == [];
    assert Before(cells, width, 0) == StartOf(cells);
  }

  /**
   Every word, in terms of widths alone: it is cut exactly when the line is wrapped, the word is wider than
   the room beside the indent, and wider than what the segments since the last break leave of the width.
   */
  lemma {:induction false} WordCutByWidths(cells: Cells, width: nat, i: nat)
    requires width >= 1 && Proper(cells) && i < |Segs(cells, 0)| && !Segs(cells, 0)[i].sep
    requires forall c | c in cells :: c.w <= width - IndentOf(cells, width)
    ensures var segs, indent := Segs(cells, 0), IndentOf(cells, width);
      WordCut(cells, width, i) <==>
        && Width(cells) > width
        && segs[i].w > width - indent
        && segs[i].w + Taken(segs, LineOf(segs, width, indent, i), i) > width
  {
    hide Segs, WordCut, Width, LineOf, RunEnd;
    var segs := Segs(cells, 0);
    WordCutIff(cells, width, i);
    if i > 0 {
      BeforeAgrees(cells, width, i);
    } else {
      SomeSegs(cells);
      LeadIsFirst(cells);
      NothingTaken(segs, width, IndentOf(cells, width));
      assert segs[..0] == [];
      assert Before(cells, width, 0) == StartOf(cells);
    }
  }

  lemma {:induction false} NothingTaken(segs: seq<Seg>, width: nat, indent: nat)
    ensures Taken(segs, LineOf(segs, width, indent, 0), 0) == 0
  {
    assert segs[0..0] == [];
  }

  // ---- examples -------------------------------------------------------------------------------------

  /** A blank and a word of two columns: no wider than the width of two, yet cut. */
  const CUT_EXAMPLE: Cells := [BLANK, Cell("a", 1), Cell("b", 1)]

  lemma {:induction false} ExampleSegs()
    ensures Segs(CUT_EXAMPLE, 0) ==
      [Seg([BLANK], 1, true), Seg([Cell("a", 1), Cell("b", 1)], 2, false)]
    ensures Width(CUT_EXAMPLE) == 3 && HasWord(CUT_EXAMPLE) && LeadOf(CUT_EXAMPLE) == 1
  {
    var cells := CUT_EXAMPLE;
    var word := [Cell("a", 1), Cell("b", 1)];
    assert cells[1..3] == word && cells[0..1] == [BLANK];
    assert word[..1] == [word[0]] && [word[0]][..0] == [] && [BLANK][..0] == [];
    assert cells[..2] == [BLANK, word[0]] && [BLANK, word[0]][..1] == [BLANK];
    assert !Sep(word[0]) && !Sep(word[1]) && Sep(BLANK) by {
      assert "a"[0] != " "[0] && "a"[0] != "\t"[0] && "b"[0] != " "[0] && "b"[0] != "\t"[0];
    }
    assert cells[1] in cells;
    assert Width([word[0]]) == 1 && Width([BLANK]) == 1 && Width([BLANK, word[0]]) == 2;
    assert Width(word) == 2 && Width(cells) == 3;
    assert RunEnd(cells, 3, false) == 3 && RunEnd(cells, 2, false) == 3 && RunEnd(cells, 1, true) == 1;
    assert Segs(cells, 3) == [];
    assert Segs(cells, 1) == [Seg(word, 2, false)];
  }

  lemma {:induction false} ExampleChunks(a: Cell, b: Cell)
    requires a.w == b.w == 1
    ensures Indented(Blanks(1), Chunks([a, b], 1)) == [[BLANK, a], [BLANK, b]]
  {
    var word := [a, b];
    assert word[..1] == [a] && [a][..0] == [];
    assert ChunkAll([a], 1) == Chunking([], [a], 1);
    var chunks := [[a], [b]];
    assert Chunks(word, 1) == chunks;
    assert chunks[..1] == [[a]] && [[a]][..0] == [];
    assert Blanks(1) == [BLANK];
    assert [BLANK] + [a] == [BLANK, a] && [BLANK] + [b] == [BLANK, b];
    assert Indented(Blanks(1), []) == [];
    assert Indented(Blanks(1), [[a]]) == [[BLANK, a]];
  }

  lemma {:induction false} NoWiderThanWidthCanBeCut()
    ensures Wrapped(CUT_EXAMPLE, 2) ==
      [[BLANK], [BLANK, Cell("a", 1)], [BLANK, Cell("b", 1)]]
  {
    ExampleSegs();
    hide Segs, Width, HasWord, RunEnd, Chunks, Indented;
    var cells, word := CUT_EXAMPLE, Seg([Cell("a", 1), Cell("b", 1)], 2, false);
    var segs := [Seg([BLANK], 1, true), word];
    var start := StartOf(cells);
    assert start == Packing([], [BLANK], 1, false, [], 0);
    ExampleChunks(Cell("a", 1), Cell("b", 1));
    assert segs[..1] == [segs[0]] && [segs[0]][..0] == [];
    assert PackAll([segs[0]], start, 2, 1, 1) == Pack(PackAll([], start, 2, 1, 1), segs[0], 2, 1, 1) == start;
    assert PackAll(segs, start, 2, 1, 1) == Pack(start, word, 2, 1, 1);
  }

  /** White space alone is never wrapped, so it overflows at every width. */
  lemma {:induction false} BlanksOverflow(width: nat)
    ensures Wrapped(Blanks(width + 1), width) == [Blanks(width + 1)]
    ensures Width(Blanks(width + 1)) > width
  {
    hide Blanks, Ink, Width;
    BlanksFacts(width + 1);
    InkIff(Blanks(width + 1));
  }
}
