/**
 Where everything goes: each printed line is a slice of its source line, behind the hanging indent or not, and
 only white space is left out between two lines.
 */
module WrapSlices {
  import opened Wrap
  import opened WrapCuts

  /**
   The slice of the source that a line shows. The first line and one behind the end of a cut word are bare;
   the others hang behind the indent. A chunk is part of the word from `start` to `end`.
   */
  datatype Kind = First | Hung | Bare | Chunk(start: nat, end: nat)

  datatype Piece = Piece(from: nat, to: nat, kind: Kind)

  predicate White(cells: Cells, a: nat, b: nat) {
    a <= b <= |cells| && forall k | a <= k < b :: Sep(cells[k])
  }

  predicate IsWord(cells: Cells, a: nat, b: nat) {
    && a < b <= |cells| && (forall k | a <= k < b :: !Sep(cells[k]))
    && (a > 0 ==> Sep(cells[a - 1])) && (b < |cells| ==> Sep(cells[b]))
  }

  /** Chunks come of words that are wider than the room beside the indent. */
  predicate Proportioned(cells: Cells, width: nat, x: Piece) {
    && x.from <= x.to <= |cells|
    && (x.kind.Chunk? ==>
          && IsWord(cells, x.kind.start, x.kind.end) && Width(cells[x.kind.start..x.kind.end]) > AvailOf(cells, width)
          && x.kind.start <= x.from <= x.to <= x.kind.end)
  }

  function LineFor(cells: Cells, width: nat, x: Piece): Cells
    requires x.from <= x.to <= |cells|
  {
    (if x.kind.Hung? || x.kind.Chunk? then Blanks(IndentOf(cells, width)) else []) + cells[x.from..x.to]
  }

  /** The word at pos does not fit behind x with the white space between them. */
  ghost predicate Full(cells: Cells, width: nat, x: Piece, pos: nat) {
    && x.from <= x.to <= pos <= |cells|
    && exists e: nat :: IsWord(cells, pos, e) &&
         Width(LineFor(cells, width, x)) + Width(cells[x.to..pos]) + Width(cells[pos..e]) > width
  }

  /** Not one cell more fits beside the indent. */
  predicate ChunkFull(cells: Cells, width: nat, x: Piece) {
    x.from <= x.to < |cells| && Width(cells[x.from..x.to]) + cells[x.to].w > AvailOf(cells, width)
  }

  /**
   Only white space lies between; a full chunk is followed by the next one until its word ends, and any other line
   ends only because the next word does not fit.
   */
  ghost predicate Follows(cells: Cells, width: nat, x: Piece, y: Piece) {
    && White(cells, x.to, y.from)
    && match x.kind
       case Chunk(start, end) =>
         if x.to < end then y.kind == x.kind && y.from == x.to && ChunkFull(cells, width, x)
         else y.kind.Bare? ||
              (y.kind.Chunk? && y.kind.start <= y.kind.end <= |cells| && Width(cells[y.kind.start..y.kind.end]) > width)
       case _ => (y.kind.Hung? || y.kind.Chunk?) && Full(cells, width, x, y.from)
  }

  ghost predicate Laid(cells: Cells, width: nat, lines: seq<Cells>, pieces: seq<Piece>) {
    && |pieces| == |lines|
    && (forall i | 0 <= i < |pieces| :: Proportioned(cells, width, pieces[i]) && lines[i] == LineFor(cells, width, pieces[i]))
    && (forall i, j | 0 <= i < j < |pieces| && j == i + 1 :: Follows(cells, width, pieces[i], pieces[j]))
    && (pieces != [] ==> pieces[0].from == 0 && (pieces[0].kind.First? || (pieces[0].kind.Chunk? && LeadOf(cells) == 0)))
  }

  /** May x come next? */
  ghost predicate Next(cells: Cells, width: nat, pieces: seq<Piece>, x: Piece) {
    && Proportioned(cells, width, x)
    && if pieces == [] then x.from == 0 && (x.kind.First? || (x.kind.Chunk? && LeadOf(cells) == 0))
       else Follows(cells, width, pieces[|pieces| - 1], x)
  }

  lemma {:induction false} LaidSnoc(cells: Cells, width: nat, lines: seq<Cells>, pieces: seq<Piece>, x: Piece)
    requires Laid(cells, width, lines, pieces) && Next(cells, width, pieces, x)
    ensures Laid(cells, width, lines + [LineFor(cells, width, x)], pieces + [x])
  {
    hide Follows, Proportioned, LineFor;
  }

  // ---- segments as slices ---------------------------------------------------------------------

  /** A segment that begins at pos. */
  predicate SegAt(cells: Cells, g: Seg, pos: nat) {
    var next := pos + |g.cells|;
    && next <= |cells| && g.cells != [] && g.cells == cells[pos..next]
    && if g.sep then White(cells, pos, next) else IsWord(cells, pos, next)
  }

  lemma {:induction false} FirstSegAt(cells: Cells, i: nat)
    requires i < |cells| && (0 < i ==> Sep(cells[i - 1]) != Sep(cells[i]))
    ensures var j := RunEnd(cells, i + 1, Sep(cells[i]));
      && SegAt(cells, Seg(cells[i..j], Width(cells[i..j]), Sep(cells[i])), i)
      && (j < |cells| ==> Sep(cells[j - 1]) != Sep(cells[j]))
  {
    hide Width, Sep;
    RunEndFacts(cells, i + 1, Sep(cells[i]));
    RunEndsAt(cells, i + 1, Sep(cells[i]));
  }

  lemma {:induction false} SegIsSlice(cells: Cells, i: nat, k: nat)
    requires i <= |cells| && k < |Segs(cells, i)| && (0 < i < |cells| ==> Sep(cells[i - 1]) != Sep(cells[i]))
    ensures SegAt(cells, Segs(cells, i)[k], i + |SegCells(Segs(cells, i)[..k])|)
    decreases |cells| - i
  {
    hide Width, SegAt, Sep, RunEnd, SegCells;
    FirstSegAt(cells, i);
    var j := RunEnd(cells, i + 1, Sep(cells[i]));
    var segs, rest := Segs(cells, i), Segs(cells, j);
    assert segs == [segs[0]] + rest && |segs[0].cells| == j - i;
    hide Segs;
    if k == 0 {
      NoSegCells(segs);
    } else {
      SegIsSlice(cells, j, k - 1);
      SegCellsFirst(segs[0], rest, k);
    }
  }

  lemma {:induction false} NoSegCells(segs: seq<Seg>)
    ensures SegCells(segs[..0]) == []
  {
  }

  lemma {:induction false} SegCellsFirst(g: Seg, rest: seq<Seg>, k: nat)
    requires 0 < k <= |rest| + 1
    ensures SegCells(([g] + rest)[..k]) == g.cells + SegCells(rest[..k - 1])
  {
    assert ([g] + rest)[..k][1..] == rest[..k - 1];
  }

  // ---- chunks as slices -------------------------------------------------------------------------

  ghost predicate ChunkedTo(cells: Cells, width: nat, a: nat, b: nat, c: nat, k: Chunking, lines: seq<Cells>,
                            pieces: seq<Piece>, all: seq<Cells>) {
    && Laid(cells, width, all, pieces)
    && all == lines + Indented(Blanks(IndentOf(cells, width)), k.out)
    && a <= c <= b <= |cells| && c - |k.cur| >= a && k.cur == cells[c - |k.cur|..c] && k.curW == Width(k.cur)
    && (k.out == [] ==> c - |k.cur| == a && |pieces| == |lines|)
    && (k.out != [] ==> pieces != [] && pieces[|pieces| - 1].kind == Chunk(a, b) && pieces[|pieces| - 1].to == c - |k.cur|
                        && (c - |k.cur| < b ==> ChunkFull(cells, width, pieces[|pieces| - 1])))
  }

  lemma {:induction false} IndentedSnoc(indent: Cells, lines: seq<Cells>, line: Cells)
    ensures Indented(indent, lines + [line]) == Indented(indent, lines) + [indent + line]
  {
    assert (lines + [line])[..|lines|] == lines;
  }

  /** One more chunk, from q to c. */
  lemma {:induction false} AddChunk(cells: Cells, width: nat, a: nat, b: nat, q: nat, c: nat, all: seq<Cells>,
                                    pieces: seq<Piece>) returns (more: seq<Piece>)
    requires Laid(cells, width, all, pieces) && IsWord(cells, a, b) && Width(cells[a..b]) > AvailOf(cells, width)
    requires a <= q <= c <= b && Next(cells, width, pieces, Piece(q, c, Chunk(a, b)))
    ensures more == pieces + [Piece(q, c, Chunk(a, b))]
    ensures Laid(cells, width, all + [Blanks(IndentOf(cells, width)) + cells[q..c]], more)
  {
    hide Next, Laid, Width;
    more := pieces + [Piece(q, c, Chunk(a, b))];
    LaidSnoc(cells, width, all, pieces, Piece(q, c, Chunk(a, b)));
  }

  lemma {:induction false} NextChunk(cells: Cells, width: nat, a: nat, b: nat, q: nat, c: nat, pieces: seq<Piece>)
    requires IsWord(cells, a, b) && Width(cells[a..b]) > AvailOf(cells, width) && a <= q <= c <= b
    requires pieces != [] && pieces[|pieces| - 1].kind == Chunk(a, b) && pieces[|pieces| - 1].to == q < b
    requires ChunkFull(cells, width, pieces[|pieces| - 1])
    ensures Next(cells, width, pieces, Piece(q, c, Chunk(a, b)))
  {
    hide Width;
  }

  /** The word is wider than the room beside the indent. */
  predicate TooWide(cells: Cells, width: nat, a: nat, b: nat) {
    IsWord(cells, a, b) && Width(cells[a..b]) > AvailOf(cells, width)
  }

  /** Its first chunk may come next, however long it is. */
  ghost predicate MayStart(cells: Cells, width: nat, a: nat, b: nat, pieces: seq<Piece>) {
    forall q: nat | a <= q <= b :: Next(cells, width, pieces, Piece(a, q, Chunk(a, b)))
  }

  /** The chunks of the word from a to b, laid behind the pieces so far. */
  lemma {:induction false} ChunksLaid(cells: Cells, width: nat, a: nat, b: nat, c: nat, lines: seq<Cells>, pieces: seq<Piece>)
    returns (more: seq<Piece>, all: seq<Cells>)
    requires Laid(cells, width, lines, pieces) && TooWide(cells, width, a, b) && MayStart(cells, width, a, b, pieces)
    requires a <= c <= b <= |cells|
    ensures ChunkedTo(cells, width, a, b, c, ChunkAll(cells[a..c], AvailOf(cells, width)), lines, more, all)
    ensures ChunkAll(cells[a..c], AvailOf(cells, width)).out == [] ==> more == pieces
    decreases c
  {
    hide TooWide, MayStart, Laid, ChunkedTo, ChunkAll, AvailOf;
    var avail := AvailOf(cells, width);
    if c == a {
      more, all := pieces, lines;
      NoChunksYet(cells, width, a, b, lines, pieces);
    } else {
      more, all := ChunksLaid(cells, width, a, b, c - 1, lines, pieces);
      OneMoreCell(cells, a, c, avail);
      more, all := ChunkStep(cells, width, a, b, c - 1, ChunkAll(cells[a..c - 1], avail), lines, pieces, more, all);
    }
  }

  lemma {:induction false} ChunkStep(cells: Cells, width: nat, a: nat, b: nat, c: nat, k: Chunking, lines: seq<Cells>,
                                     pieces: seq<Piece>, before: seq<Piece>, soFar: seq<Cells>)
    returns (more: seq<Piece>, all: seq<Cells>)
    requires TooWide(cells, width, a, b) && MayStart(cells, width, a, b, pieces) && c < b
    requires ChunkedTo(cells, width, a, b, c, k, lines, before, soFar)
    requires k.out == [] ==> before == pieces
    ensures var grown := ChunkOne(k, cells[c], AvailOf(cells, width));
      ChunkedTo(cells, width, a, b, c + 1, grown, lines, more, all) && (grown.out == [] ==> more == pieces)
  {
    assert a <= c ==> Next(cells, width, pieces, Piece(a, c, Chunk(a, b)));
    assert a <= c by { ChunkedFrom(cells, width, a, b, c, k, lines, before, soFar); }
    hide Width, Laid, Next, ChunkedTo, Indented, Blanks, AvailOf;
    if k.curW > 0 && k.curW + cells[c].w > AvailOf(cells, width) {
      more, all := ChunkEnds(cells, width, a, b, c, k, lines, before, soFar);
    } else {
      more, all := before, soFar;
      ChunkGrows(cells, width, a, b, c, k, lines, more, all);
    }
  }

  lemma {:induction false} ChunkedFrom(cells: Cells, width: nat, a: nat, b: nat, c: nat, k: Chunking, lines: seq<Cells>,
                                       pieces: seq<Piece>, all: seq<Cells>)
    requires ChunkedTo(cells, width, a, b, c, k, lines, pieces, all)
    ensures a <= c <= b <= |cells|
  {
  }

  lemma {:induction false} NoChunksYet(cells: Cells, width: nat, a: nat, b: nat, lines: seq<Cells>, pieces: seq<Piece>)
    requires Laid(cells, width, lines, pieces) && a <= b <= |cells|
    ensures ChunkAll(cells[a..a], AvailOf(cells, width)) == Chunking([], [], 0)
    ensures ChunkedTo(cells, width, a, b, a, Chunking([], [], 0), lines, pieces, lines)
  {
    hide Laid;
    LaidLength(cells, width, lines, pieces);
    NoCells();
    assert lines + Indented(Blanks(IndentOf(cells, width)), []) == lines;
  }

  lemma {:induction false} OneMoreCell(cells: Cells, a: nat, c: nat, avail: int)
    requires a < c <= |cells|
    ensures ChunkAll(cells[a..c], avail) == ChunkOne(ChunkAll(cells[a..c - 1], avail), cells[c - 1], avail)
  {
    assert cells[a..c][..c - a - 1] == cells[a..c - 1] && cells[a..c][c - a - 1] == cells[c - 1];
  }

  /** A chunk takes one more cell. */
  lemma {:induction false} ChunkGrows(cells: Cells, width: nat, a: nat, b: nat, c: nat, k: Chunking, lines: seq<Cells>,
                                      pieces: seq<Piece>, all: seq<Cells>)
    requires ChunkedTo(cells, width, a, b, c, k, lines, pieces, all) && c < b
    ensures ChunkedTo(cells, width, a, b, c + 1, k.(cur := k.cur + [cells[c]], curW := k.curW + cells[c].w), lines, pieces, all)
  {
    hide Laid;
    var q := c - |k.cur|;
    assert cells[q..c + 1] == cells[q..c] + [cells[c]];
    WidthSnoc(k.cur, cells[c]);
  }

  lemma {:induction false} OneWidth(c: Cell)
    ensures Width([c]) == c.w
  {
    WidthSnoc([], c);
    NoCells();
    assert [] + [c] == [c];
  }

  /** A chunk is full: the cell at c starts the next one. */
  lemma {:induction false} ChunkEnds(cells: Cells, width: nat, a: nat, b: nat, c: nat, k: Chunking, lines: seq<Cells>,
                                     pieces: seq<Piece>, all: seq<Cells>) returns (more: seq<Piece>, more': seq<Cells>)
    requires ChunkedTo(cells, width, a, b, c, k, lines, pieces, all) && c < b
    requires IsWord(cells, a, b) && Width(cells[a..b]) > AvailOf(cells, width)
    requires k.out == [] ==> Next(cells, width, pieces, Piece(a, c, Chunk(a, b)))
    requires k.curW + cells[c].w > AvailOf(cells, width)
    ensures ChunkedTo(cells, width, a, b, c + 1, Chunking(k.out + [k.cur], [cells[c]], cells[c].w), lines, more, more')
  {
    hide Width, Laid, Next, IsWord, Indented, Blanks;
    var indent, q := Blanks(IndentOf(cells, width)), c - |k.cur|;
    if k.out != [] {
      NextChunk(cells, width, a, b, q, c, pieces);
    }
    more := AddChunk(cells, width, a, b, q, c, all, pieces);
    IndentedSnoc(indent, k.out, k.cur);
    more' := all + [indent + k.cur];
    assert lines + Indented(indent, k.out + [k.cur]) == more';
    assert [cells[c]] == cells[c..c + 1];
    OneWidth(cells[c]);
  }

  lemma {:induction false} LaidLength(cells: Cells, width: nat, lines: seq<Cells>, pieces: seq<Piece>)
    requires Laid(cells, width, lines, pieces)
    ensures |lines| == |pieces|
  {
  }

  /** A whole word cut up. */
  lemma {:induction false} WordCutUp(cells: Cells, width: nat, a: nat, b: nat, lines: seq<Cells>, pieces: seq<Piece>)
    returns (more: seq<Piece>)
    requires Laid(cells, width, lines, pieces) && TooWide(cells, width, a, b) && MayStart(cells, width, a, b, pieces)
    ensures Laid(cells, width, lines + Indented(Blanks(IndentOf(cells, width)), Chunks(cells[a..b], AvailOf(cells, width))), more)
    ensures more != [] && more[|more| - 1].kind == Chunk(a, b) && more[|more| - 1].to == b
  {
    WordIsSome(cells, a, b);
    assert Next(cells, width, pieces, Piece(a, b, Chunk(a, b)));
    hide Width, Laid, Next, IsWord, ChunkedTo, Indented, Blanks, ChunkAll, AvailOf, IndentOf, MayStart;
    var all;
    more, all := ChunksLaid(cells, width, a, b, b, lines, pieces);
    var k := ChunkAll(cells[a..b], AvailOf(cells, width));
    CurIsLeft(cells[a..b], AvailOf(cells, width));
    more := LastChunk(cells, width, a, b, k, lines, more, all);
  }

  lemma {:induction false} WordIsSome(cells: Cells, a: nat, b: nat)
    requires IsWord(cells, a, b)
    ensures a < b <= |cells| && cells[a..b] != []
  {
  }

  lemma {:induction false} LastChunk(cells: Cells, width: nat, a: nat, b: nat, k: Chunking, lines: seq<Cells>,
                                     pieces: seq<Piece>, all: seq<Cells>) returns (more: seq<Piece>)
    requires ChunkedTo(cells, width, a, b, b, k, lines, pieces, all) && k.cur != []
    requires IsWord(cells, a, b) && Width(cells[a..b]) > AvailOf(cells, width)
    requires k.out == [] ==> Next(cells, width, pieces, Piece(a, b, Chunk(a, b)))
    ensures Laid(cells, width, lines + Indented(Blanks(IndentOf(cells, width)), k.out + [k.cur]), more)
    ensures more != [] && more[|more| - 1].kind == Chunk(a, b) && more[|more| - 1].to == b
  {
    hide Width, Laid, Next, IsWord, Indented, Blanks, AvailOf, IndentOf;
    var indent, q := Blanks(IndentOf(cells, width)), b - |k.cur|;
    if k.out != [] {
      NextChunk(cells, width, a, b, q, b, pieces);
    }
    more := AddChunk(cells, width, a, b, q, b, all, pieces);
    IndentedSnoc(indent, k.out, k.cur);
    assert all + [indent + k.cur] == lines + Indented(indent, k.out + [k.cur]);
  }

  lemma {:induction false} CurIsLeft(cells: Cells, avail: int)
    requires cells != []
    ensures ChunkAll(cells, avail).cur != []
  {
  }

  // ---- packing ------------------------------------------------------------------------------------

  /** A line is being filled: the slice so far, and the separator that waits. */
  ghost predicate Filling(cells: Cells, width: nat, p: Packing, pieces: seq<Piece>, cur: Piece, pos: nat) {
    && Next(cells, width, pieces, cur) && !cur.kind.Chunk?
    && p.line == LineFor(cells, width, cur) && p.lineW == Width(p.line) && p.pendW == Width(p.pend)
    && if p.dirty then cur.from < cur.to <= pos && White(cells, cur.to, pos) && p.pend == cells[cur.to..pos]
       else pieces == [] && cur == Piece(0, LeadOf(cells), First) && p.lineW == LeadOf(cells)
            && p.pend == [] && p.pendW == 0 && (pos == 0 || pos == LeadOf(cells))
  }

  /** A cut word has just ended. */
  ghost predicate AfterCut(cells: Cells, width: nat, p: Packing, pieces: seq<Piece>, pos: nat) {
    && p.line == [] && p.lineW == 0 && !p.dirty && p.pend == [] && p.pendW == 0
    && pieces != []
    && var last := pieces[|pieces| - 1];
       last.kind.Chunk? && last.to == last.kind.end && White(cells, last.to, pos)
  }

  ghost predicate Laying(cells: Cells, width: nat, p: Packing, pieces: seq<Piece>, pos: nat) {
    && pos <= |cells| && Laid(cells, width, p.out, pieces)
    && (AfterCut(cells, width, p, pieces, pos) || exists cur :: Filling(cells, width, p, pieces, cur, pos))
  }

  lemma {:induction false} WhiteConcat(cells: Cells, a: nat, b: nat, c: nat)
    requires White(cells, a, b) && White(cells, b, c)
    ensures White(cells, a, c)
  {
  }

  lemma {:induction false} SeparatorLays(cells: Cells, width: nat, p: Packing, pieces: seq<Piece>, pos: nat, g: Seg)
    requires Laying(cells, width, p, pieces, pos) && g.sep && SegAt(cells, g, pos) && g.w == Width(g.cells)
    requires p.dirty ==> p.pend == []
    requires !p.dirty && pieces == [] ==> pos == 0 && |g.cells| == LeadOf(cells)
    ensures Laying(cells, width, Pack(p, g, width, IndentOf(cells, width), AvailOf(cells, width)), pieces, pos + |g.cells|)
  {
    hide Laid, Next, LineFor;
    var next := pos + |g.cells|;
    var packed := Pack(p, g, width, IndentOf(cells, width), AvailOf(cells, width));
    if AfterCut(cells, width, p, pieces, pos) {
      WhiteConcat(cells, pieces[|pieces| - 1].to, pos, next);
    } else {
      var cur :| Filling(cells, width, p, pieces, cur, pos);
      if p.dirty {
        WhiteConcat(cells, cur.to, pos, next);
      }
      assert Filling(cells, width, packed, pieces, cur, next);
    }
  }

  lemma {:induction false} FlushedLays(cells: Cells, width: nat, p: Packing, pieces: seq<Piece>, cur: Piece, pos: nat)
    returns (more: seq<Piece>)
    requires pos <= |cells| && Laid(cells, width, p.out, pieces) && Filling(cells, width, p, pieces, cur, pos)
    ensures Laid(cells, width, Flushed(p), more)
    ensures p.line == [] ==> more == pieces == [] && pos == LeadOf(cells) == 0 && p.lineW == 0 && p.pendW == 0
    ensures p.line != [] ==> more == pieces + [cur]
  {
    hide Laid, Next, Blanks;
    more := pieces;
    if p.line != [] {
      LaidSnoc(cells, width, p.out, pieces, cur);
      more := pieces + [cur];
    }
  }

  lemma {:induction false} SliceJoins(cells: Cells, a: nat, b: nat, c: nat)
    requires a <= b <= c <= |cells|
    ensures cells[a..b] + cells[b..c] == cells[a..c]
  {
  }

  /** The line with a further word is the longer slice. */
  lemma {:induction false} LongerLine(cells: Cells, width: nat, p: Packing, pieces: seq<Piece>, cur: Piece, pos: nat, g: Seg)
    requires pos <= |cells| && Filling(cells, width, p, pieces, cur, pos) && SegAt(cells, g, pos)
    requires !p.dirty ==> pos == LeadOf(cells)
    ensures (if p.dirty then p.line + p.pend else p.line) + g.cells == LineFor(cells, width, cur.(to := pos + |g.cells|))
    ensures Width(LineFor(cells, width, cur.(to := pos + |g.cells|))) ==
      (if p.dirty then p.lineW + p.pendW else p.lineW) + Width(g.cells)
  {
    WidthConcat(p.line, p.pend);
    WidthConcat(if p.dirty then p.line + p.pend else p.line, g.cells);
    hide Next, Width, Blanks, IndentOf, IsWord, White, LeadOf;
    var next := pos + |g.cells|;
    var indent := if cur.kind.Hung? then Blanks(IndentOf(cells, width)) else [];
    SliceJoins(cells, cur.from, cur.to, pos);
    SliceJoins(cells, cur.from, pos, next);
    Assoc3(indent, cells[cur.from..cur.to], cells[cur.to..pos], g.cells);
    if !p.dirty {
      Assoc3(indent, cells[cur.from..pos], [], g.cells);
      assert cells[cur.from..pos] + [] == cells[cur.from..pos] && p.line + [] == p.line;
    }
  }

  lemma {:induction false} LongerPiece(cells: Cells, width: nat, pieces: seq<Piece>, cur: Piece, next: nat)
    requires Next(cells, width, pieces, cur) && !cur.kind.Chunk? && cur.to <= next <= |cells|
    ensures Next(cells, width, pieces, cur.(to := next))
  {
    hide Width;
  }

  /** The word fits on the line being filled. */
  lemma {:induction false} WordExtends(cells: Cells, width: nat, p: Packing, pieces: seq<Piece>, cur: Piece, pos: nat, g: Seg)
    requires pos <= |cells| && Laid(cells, width, p.out, pieces) && Filling(cells, width, p, pieces, cur, pos)
    requires !g.sep && SegAt(cells, g, pos) && g.w == Width(g.cells) && p.lineW + p.pendW + g.w <= width
    requires !p.dirty ==> pos == LeadOf(cells)
    ensures Laying(cells, width, Pack(p, g, width, IndentOf(cells, width), AvailOf(cells, width)), pieces, pos + |g.cells|)
  {
    hide Laid, Width, Blanks, IndentOf, AvailOf, IsWord, LineFor, Next, Flushed, Chunks, Indented, LeadOf;
    var next := pos + |g.cells|;
    LongerLine(cells, width, p, pieces, cur, pos, g);
    LongerPiece(cells, width, pieces, cur, next);
    assert cells[next..next] == [];
    NoCells();
    assert Filling(cells, width, Pack(p, g, width, IndentOf(cells, width), AvailOf(cells, width)), pieces,
                   cur.(to := next), next);
  }

  lemma {:induction false} Assoc3(a: Cells, b: Cells, c: Cells, d: Cells)
    ensures ((a + b) + c) + d == a + ((b + c) + d)
  {
  }

  /** Behind a cut word the next one that fits the width starts bare. */
  lemma {:induction false} WordAfterCut(cells: Cells, width: nat, p: Packing, pieces: seq<Piece>, pos: nat, g: Seg)
    requires pos <= |cells| && Laid(cells, width, p.out, pieces) && AfterCut(cells, width, p, pieces, pos)
    requires !g.sep && SegAt(cells, g, pos) && g.w == Width(g.cells) && g.w <= width
    ensures Laying(cells, width, Pack(p, g, width, IndentOf(cells, width), AvailOf(cells, width)), pieces, pos + |g.cells|)
  {
    hide Laid, Width, Blanks, IndentOf, AvailOf, IsWord;
    var next := pos + |g.cells|;
    var packed := Pack(p, g, width, IndentOf(cells, width), AvailOf(cells, width));
    assert [] + g.cells == g.cells && [] + cells[pos..next] == cells[pos..next];
    NoCells();
    assert Filling(cells, width, packed, pieces, Piece(pos, next, Bare), next);
  }

  lemma {:induction false} NoRoom(cells: Cells, width: nat, p: Packing, pieces: seq<Piece>, cur: Piece, pos: nat, g: Seg)
    requires pos <= |cells| && Filling(cells, width, p, pieces, cur, pos)
    requires !g.sep && SegAt(cells, g, pos) && g.w == Width(g.cells) && p.lineW + p.pendW + g.w > width
    requires !p.dirty ==> pos == LeadOf(cells)
    ensures Full(cells, width, cur, pos)
  {
    hide Next, Width, Blanks, LineFor, White;
    assert IsWord(cells, pos, pos + |g.cells|);
    assert p.pend == cells[cur.to..pos] by {
      if !p.dirty {
        assert cells[pos..pos] == [];
      }
    }
  }

  /** A word that does not fit on the line but beside the indent hangs on a new one. */
  lemma {:induction false} WordHangs(cells: Cells, width: nat, p: Packing, pieces: seq<Piece>, cur: Piece, pos: nat, g: Seg)
    returns (more: seq<Piece>)
    requires pos <= |cells| && Laid(cells, width, p.out, pieces) && Filling(cells, width, p, pieces, cur, pos)
    requires !g.sep && SegAt(cells, g, pos) && g.w == Width(g.cells) && p.lineW + p.pendW + g.w > width
    requires g.w <= AvailOf(cells, width) <= width && (!p.dirty ==> pos == LeadOf(cells))
    ensures Laying(cells, width, Pack(p, g, width, IndentOf(cells, width), AvailOf(cells, width)), more, pos + |g.cells|)
  {
    hide Laid, Width, Blanks, IndentOf, AvailOf, IsWord, Flushed, LineFor, Full, Follows, Proportioned;
    more := FlushedLays(cells, width, p, pieces, cur, pos);
    NoRoom(cells, width, p, pieces, cur, pos, g);
    HungNext(cells, width, pieces, cur, pos, pos + |g.cells|);
    hide Next;
    HungLine(cells, width, more, Piece(pos, pos + |g.cells|, Hung), g);
    assert Filling(cells, width, Pack(p, g, width, IndentOf(cells, width), AvailOf(cells, width)), more,
                   Piece(pos, pos + |g.cells|, Hung), pos + |g.cells|);
  }

  lemma {:induction false} HungNext(cells: Cells, width: nat, pieces: seq<Piece>, cur: Piece, pos: nat, next: nat)
    requires Full(cells, width, cur, pos) && White(cells, cur.to, pos) && !cur.kind.Chunk? && pos <= next <= |cells|
    ensures Next(cells, width, pieces + [cur], Piece(pos, next, Hung))
  {
    hide Full, Width;
  }

  lemma {:induction false} HungLine(cells: Cells, width: nat, pieces: seq<Piece>, x: Piece, g: Seg)
    requires SegAt(cells, g, x.from) && x.to == x.from + |g.cells| && x.kind.Hung?
    ensures LineFor(cells, width, x) == Blanks(IndentOf(cells, width)) + g.cells
    ensures Width(LineFor(cells, width, x)) == IndentOf(cells, width) + Width(g.cells)
    ensures Width([]) == 0 && cells[x.to..x.to] == []
  {
    hide Blanks, IndentOf, IsWord;
    BlanksFacts(IndentOf(cells, width));
    WidthConcat(Blanks(IndentOf(cells, width)), g.cells);
    NoCells();
  }

  /** A word that is wider than the room beside the indent is cut. */
  lemma {:induction false} WordIsCut(cells: Cells, width: nat, p: Packing, pieces: seq<Piece>, pos: nat, g: Seg)
    returns (more: seq<Piece>)
    requires Laying(cells, width, p, pieces, pos)
    requires !g.sep && SegAt(cells, g, pos) && g.w == Width(g.cells) && p.lineW + p.pendW + g.w > width
    requires g.w > AvailOf(cells, width) && (!p.dirty && pieces == [] ==> pos == LeadOf(cells))
    ensures Laying(cells, width, Pack(p, g, width, IndentOf(cells, width), AvailOf(cells, width)), more, pos + |g.cells|)
    ensures more != []
  {
    hide Full, LineFor, Follows;
    var next := pos + |g.cells|;
    var flushed := pieces;
    if AfterCut(cells, width, p, pieces, pos) {
      CutFollowsCut(cells, width, pieces, pos, next);
    } else {
      var cur :| Filling(cells, width, p, pieces, cur, pos);
      flushed := FlushedLays(cells, width, p, pieces, cur, pos);
      NoRoom(cells, width, p, pieces, cur, pos, g);
      CutFollowsLine(cells, width, p, pieces, cur, flushed, pos, next);
    }
    hide Laid, Next, Width, Blanks, IndentOf, AvailOf, IsWord, Chunks, Indented, Filling;
    more := WordCutUp(cells, width, pos, next, Flushed(p), flushed);
    assert AfterCut(cells, width, Pack(p, g, width, IndentOf(cells, width), AvailOf(cells, width)), more, next);
  }

  lemma {:induction false} CutFollowsCut(cells: Cells, width: nat, pieces: seq<Piece>, pos: nat, next: nat)
    requires pieces != [] && IsWord(cells, pos, next) && Width(cells[pos..next]) > width
    requires Width(cells[pos..next]) > AvailOf(cells, width)
    requires var last := pieces[|pieces| - 1]; last.kind.Chunk? && last.to == last.kind.end && White(cells, last.to, pos)
    ensures MayStart(cells, width, pos, next, pieces)
  {
    hide Width;
  }

  lemma {:induction false} CutFollowsLine(cells: Cells, width: nat, p: Packing, pieces: seq<Piece>, cur: Piece,
                                          flushed: seq<Piece>, pos: nat, next: nat)
    requires Filling(cells, width, p, pieces, cur, pos)
    requires IsWord(cells, pos, next) && Width(cells[pos..next]) > AvailOf(cells, width)
    requires Full(cells, width, cur, pos) && (!p.dirty ==> pos == LeadOf(cells))
    requires if p.line == [] then flushed == [] && pos == LeadOf(cells) == 0 else flushed == pieces + [cur]
    ensures MayStart(cells, width, pos, next, flushed)
  {
    hide Width, Blanks, Full;
    assert White(cells, cur.to, pos);
  }

  lemma {:induction false} WordLays(cells: Cells, width: nat, p: Packing, pieces: seq<Piece>, pos: nat, g: Seg)
    returns (more: seq<Piece>)
    requires width >= 1 && Laying(cells, width, p, pieces, pos)
    requires !g.sep && SegAt(cells, g, pos) && g.w == Width(g.cells)
    requires !p.dirty && pieces == [] ==> pos == LeadOf(cells)
    ensures Laying(cells, width, Pack(p, g, width, IndentOf(cells, width), AvailOf(cells, width)), more, pos + |g.cells|)
    ensures var q := Pack(p, g, width, IndentOf(cells, width), AvailOf(cells, width)); q.pend == [] && (q.dirty || more != [])
  {
    assert AvailOf(cells, width) <= width;
    hide Laid, Next, Width, Blanks, IndentOf, AvailOf, IsWord, LineFor, SegAt, White, Chunks, Indented, Flushed;
    if p.lineW + p.pendW + g.w > width && g.w > AvailOf(cells, width) {
      more := WordIsCut(cells, width, p, pieces, pos, g);
    } else if AfterCut(cells, width, p, pieces, pos) {
      more := pieces;
      WordAfterCut(cells, width, p, pieces, pos, g);
    } else {
      var cur :| Filling(cells, width, p, pieces, cur, pos);
      if p.lineW + p.pendW + g.w <= width {
        more := pieces;
        WordExtends(cells, width, p, pieces, cur, pos, g);
      } else {
        more := WordHangs(cells, width, p, pieces, cur, pos, g);
      }
    }
  }

  // ---- whole lines -----------------------------------------------------------------------------------

  lemma {:induction false} StartLays(cells: Cells, width: nat)
    requires Proper(cells)
    ensures Laying(cells, width, StartOf(cells), [], 0)
  {
    StartShape(cells, width);
    hide Width;
    assert cells[0..LeadOf(cells)] == cells[..LeadOf(cells)];
    assert Filling(cells, width, StartOf(cells), [], Piece(0, LeadOf(cells), First), 0);
  }

  lemma {:induction false} FirstSegment(cells: Cells)
    requires Segs(cells, 0) != []
    ensures var g := Segs(cells, 0)[0]; if g.sep then |g.cells| == LeadOf(cells) else LeadOf(cells) == 0
  {
    hide Width;
  }

  lemma {:induction false} PosOf(segs: seq<Seg>, i: nat)
    requires i < |segs|
    ensures |SegCells(segs[..i + 1])| == |SegCells(segs[..i])| + |segs[i].cells|
  {
    SegCellsSnoc(segs[..i + 1]);
    assert segs[..i + 1][..i] == segs[..i];
  }

  /** What the packer's state shows after some segments. */
  ghost predicate Tidy(cells: Cells, p: Packing, pieces: seq<Piece>, i: nat, pos: nat)
    requires i <= |Segs(cells, 0)|
  {
    && (i > 0 && !Segs(cells, 0)[i - 1].sep ==> p.pend == [] && (p.dirty || pieces != []))
    && (i == 0 ==> !p.dirty && pieces == [] && pos == 0)
    && (i > 0 && !p.dirty && pieces == [] ==> i == 1 && pos == LeadOf(cells))
  }

  lemma {:induction false} BeforeLays(cells: Cells, width: nat, i: nat) returns (pieces: seq<Piece>)
    requires width >= 1 && Proper(cells) && i <= |Segs(cells, 0)|
    ensures var pos := |SegCells(Segs(cells, 0)[..i])|;
      Laying(cells, width, Before(cells, width, i), pieces, pos) && Tidy(cells, Before(cells, width, i), pieces, i, pos)
  {
    hide Segs, Laying, PackAll, SegAt, LeadOf, Tidy, Before, IndentOf, AvailOf, SegCells, Width;
    var segs := Segs(cells, 0);
    if i == 0 {
      pieces := [];
      StartIsTidy(cells, width);
    } else {
      var before := BeforeLays(cells, width, i - 1);
      NextSegment(cells, i - 1);
      BeforeNext(cells, width, i - 1);
      pieces := StepLays(cells, width, Before(cells, width, i - 1), before, i - 1, |SegCells(segs[..i - 1])|);
    }
  }

  lemma {:induction false} StartIsTidy(cells: Cells, width: nat)
    requires Proper(cells)
    ensures SegCells(Segs(cells, 0)[..0]) == []
    ensures Laying(cells, width, Before(cells, width, 0), [], 0) && Tidy(cells, Before(cells, width, 0), [], 0, 0)
  {
    hide Segs, Laying, LeadOf, IndentOf, AvailOf;
    StartLays(cells, width);
    assert Segs(cells, 0)[..0] == [];
  }

  /** What is known of a segment and of its place. */
  lemma {:induction false} NextSegment(cells: Cells, i: nat)
    requires i < |Segs(cells, 0)|
    ensures var segs := Segs(cells, 0); var g, pos := segs[i], |SegCells(segs[..i])|;
      && SegAt(cells, g, pos) && g.w == Width(g.cells)
      && |SegCells(segs[..i + 1])| == pos + |g.cells|
      && (if segs[0].sep then |segs[0].cells| == LeadOf(cells) else LeadOf(cells) == 0)
      && (i > 0 ==> segs[i - 1].sep != g.sep)
  {
    hide Segs, SegAt, LeadOf, Width, SegCells;
    SegIsSlice(cells, 0, i);
    SegsAreGood(cells, 0);
    assert Segs(cells, 0)[i] in Segs(cells, 0);
    FirstSegment(cells);
    SegsAlternate(cells, 0);
    PosOf(Segs(cells, 0), i);
  }

  lemma {:induction false} StepLays(cells: Cells, width: nat, p: Packing, before: seq<Piece>, i: nat, pos: nat)
    returns (pieces: seq<Piece>)
    requires width >= 1 && i < |Segs(cells, 0)| && Laying(cells, width, p, before, pos) && Tidy(cells, p, before, i, pos)
    requires var g := Segs(cells, 0)[i]; SegAt(cells, g, pos) && g.w == Width(g.cells)
    requires var g := Segs(cells, 0)[0]; if g.sep then |g.cells| == LeadOf(cells) else LeadOf(cells) == 0
    requires i > 0 ==> Segs(cells, 0)[i - 1].sep != Segs(cells, 0)[i].sep
    ensures var g := Segs(cells, 0)[i];
      var q := Pack(p, g, width, IndentOf(cells, width), AvailOf(cells, width));
      Laying(cells, width, q, pieces, pos + |g.cells|) && Tidy(cells, q, pieces, i + 1, pos + |g.cells|)
  {
    hide Segs, Laying, SegAt, LeadOf, Width, Chunks, Indented, Blanks, IndentOf, AvailOf;
    var g := Segs(cells, 0)[i];
    if g.sep {
      pieces := before;
      SeparatorLays(cells, width, p, before, pos, g);
    } else {
      pieces := WordLays(cells, width, p, before, pos, g);
    }
  }

  /** The slices of a whole output: only white space is left out, in between and at the end. */
  ghost predicate Slices(cells: Cells, width: nat, lines: seq<Cells>, pieces: seq<Piece>) {
    && Laid(cells, width, lines, pieces) && pieces != []
    && White(cells, pieces[|pieces| - 1].to, |cells|)
  }

  lemma {:induction false} FlushedSlices(cells: Cells, width: nat, p: Packing, before: seq<Piece>) returns (pieces: seq<Piece>)
    requires Laying(cells, width, p, before, |cells|) && cells != [] && (p.dirty || before != [])
    ensures Slices(cells, width, Flushed(p), pieces)
  {
    hide Laid, Next, Blanks;
    if AfterCut(cells, width, p, before, |cells|) {
      pieces := before;
    } else {
      var cur :| Filling(cells, width, p, before, cur, |cells|);
      pieces := FlushedLays(cells, width, p, before, cur, |cells|);
    }
  }

  lemma {:induction false} LastIsWordOrNot(cells: Cells, width: nat)
    requires HasWord(cells) && Segs(cells, 0) != []
    ensures |Segs(cells, 0)| == 1 ==> !Segs(cells, 0)[0].sep
  {
    hide Width, RunEnd, Sep;
    SegsJoin(cells, 0);
    SegsAreGood(cells, 0);
    var segs := Segs(cells, 0);
    assert segs[0] in segs;
    if |segs| == 1 {
      assert segs[1..] == [];
      assert SegCells(segs) == segs[0].cells + [];
    }
  }

  /**
   A wrapped line is laid out in slices of its source, in order: on a line everything is as in the source,
   between two lines and at the end only white space is missing, a line hangs behind the indent unless it is the
   first or follows the end of a cut word, and it ends only where the next word, or the
   next cell of a cut one, does not fit.
   */
  lemma {:induction false} LinesAreSlices(cells: Cells, width: nat) returns (pieces: seq<Piece>)
    requires width >= 1 && Proper(cells) && Width(cells) > width && HasWord(cells)
    ensures Slices(cells, width, Wrapped(cells, width), pieces)
  {
    hide Width, Segs, Laying, PackAll, LeadOf, Slices, Flushed, IndentOf, AvailOf;
    var segs := Segs(cells, 0);
    SomeSegs(cells);
    var before := BeforeLays(cells, width, |segs|);
    assert segs[..|segs|] == segs;
    SegsJoin(cells, 0);
    assert cells[0..] == cells;
    LastIsWordOrNot(cells, width);
    pieces := FlushedSlices(cells, width, Before(cells, width, |segs|), before);
  }
}
