/**
 What a hunk shows: the changes that belong together, and around them exactly the wanted number of equal lines.
 */
module HunkContext {
  import opened Diff
  import opened Hunks

  /**
   From its first to its last change a hunk has no more than twice the context of equal lines in a row; before
   and after stand exactly `context` equal lines, fewer only where the file begins or ends.
   */
  ghost predicate ShowsContext(lines: seq<Op>, context: nat, atStart: bool, atEnd: bool) {
    exists i: nat, j: nat ::
      && SameRun(lines, 0, i) && Tight(lines, Range(i, j), 2 * context) && SameRun(lines, j, |lines|)
      && i <= context && (i < context ==> atStart)
      && |lines| - j <= context && (|lines| - j < context ==> atEnd)
  }

  /** The hunk begins with the first line of both files. */
  predicate AtStart(h: Hunk) {
    h.oldStart == 0 && h.newStart == 0
  }

  /** It ends with the last line of both. */
  predicate AtEnd(h: Hunk, ops: seq<Op>) {
    h.oldStart + h.oldCount == |Old(ops)| && h.newStart + h.newCount == |New(ops)|
  }

  lemma {:induction false} ContextIsEqual(ops: seq<Op>, rs: seq<Range>, context: nat, upto: nat, k: nat)
    requires Cover(ops, rs, upto) && Separated(rs, 2 * context) && upto <= |ops| && k < |rs|
    requires upto == |ops| || rs[|rs| - 1].end + 2 * context < upto
    ensures var r, w := rs[k], Widen(rs[k], context, |ops|);
      r.start < r.end <= |ops| && SameRun(ops, w.start, r.start) && SameRun(ops, r.end, w.end)
  {
    var n := |rs| - 1;
    if k < n {
      ContextIsEqual(ops, rs[..n], context, rs[n].start, k);
    }
  }

  lemma {:induction false} TightWithin(ops: seq<Op>, m: Range, r: Range, gap: nat)
    requires Tight(ops, m, gap) && r.start <= m.start && m.end <= r.end <= |ops|
    ensures Tight(ops[r.start..r.end], Range(m.start - r.start, m.end - r.start), gap)
  {
    var lines := ops[r.start..r.end];
    forall i: nat, j: nat | m.start - r.start <= i <= j <= m.end - r.start && SameRun(lines, i, j)
      ensures j - i <= gap
    {
      forall k | r.start + i <= k < r.start + j
        ensures ops[k].kind.Same?
      {
        assert lines[k - r.start].kind.Same?;
      }
      assert SameRun(ops, r.start + i, r.start + j);
    }
  }

  lemma {:induction false} EndOfFiles(ops: seq<Op>, r: Range)
    requires r.start <= r.end <= |ops|
    ensures r.start == 0 ==> AtStart(HunkOf(ops, r))
    ensures r.end == |ops| ==> AtEnd(HunkOf(ops, r), ops)
  {
    OldAt(ops, r.start, r.end);
    assert ops[..|ops|] == ops && ops[..0] == [];
  }

  lemma {:induction false} WidenedShowsContext(ops: seq<Op>, m: Range, context: nat)
    requires Tight(ops, m, 2 * context)
    requires var w := Widen(m, context, |ops|); SameRun(ops, w.start, m.start) && SameRun(ops, m.end, w.end)
    ensures var h := HunkOf(ops, Widen(m, context, |ops|));
      ShowsContext(h.lines, context, AtStart(h), AtEnd(h, ops))
  {
    var w := Widen(m, context, |ops|);
    EndOfFiles(ops, w);
    TightWithin(ops, m, w, 2 * context);
    hide Tight, AtStart, AtEnd, SameRun, Old, New;
    SameWithin(ops, w.start, w.start, m.start, w.end);
    SameWithin(ops, w.start, m.end, w.end, w.end);
    assert HunkOf(ops, w).lines == ops[w.start..w.end];
  }

  lemma {:induction false} SameWithin(ops: seq<Op>, base: nat, i: nat, j: nat, end: nat)
    requires base <= i <= j <= end <= |ops| && SameRun(ops, i, j)
    ensures SameRun(ops[base..end], i - base, j - base)
  {
    var lines := ops[base..end];
    forall k | i - base <= k < j - base
      ensures lines[k].kind.Same?
    {
      assert lines[k] == ops[base + k];
    }
  }

  lemma {:induction false} WidenedAt(rs: seq<Range>, context: nat, n: nat, k: nat)
    requires k < |rs|
    ensures Widened(rs, context, n)[k] == Widen(rs[k], context, n)
  {
    if k < |rs| - 1 {
      WidenedAt(rs[..|rs| - 1], context, n, k);
    }
  }

  lemma {:induction false} HunkAt(ops: seq<Op>, rs: seq<Range>, k: nat)
    requires k < |rs|
    ensures HunksOf(ops, rs)[k] == HunkOf(ops, rs[k])
  {
    if k < |rs| - 1 {
      HunkAt(ops, rs[..|rs| - 1], k);
    }
  }

  /** Every hunk shows its changes with exactly the wanted context. */
  lemma {:induction false} HunksShowContext(ops: seq<Op>, context: nat)
    ensures forall h | h in Hunked(ops, context) :: ShowsContext(h.lines, context, AtStart(h), AtEnd(h, ops))
  {
    var merged, rs, hs := Merged(Changes(ops), context), HunkRanges(ops, context), Hunked(ops, context);
    RangesCover(ops, context);
    hide Cover, Separated, ShowsContext, Tight, Widen, HunkOf, Merged, Changes;
    forall h | h in hs
      ensures ShowsContext(h.lines, context, AtStart(h), AtEnd(h, ops))
    {
      var k :| 0 <= k < |hs| && hs[k] == h;
      HunkAt(ops, rs, k);
      WidenedAt(merged, context, |ops|, k);
      ContextIsEqual(ops, merged, context, |ops|, k);
      assert merged[k] in merged;
      WidenedShowsContext(ops, merged[k], context);
    }
  }
}
