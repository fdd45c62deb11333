/**
 Unified-diff hunks: runs of changed operations, merged when few equal lines separate them, and
 widened by the surrounding context.
 */
module Hunks {
  import opened Diff

  /** A half-open range of operation indices. */
  datatype Range = Range(start: nat, end: nat)

  datatype Hunk = Hunk(oldStart: nat, oldCount: nat, newStart: nat, newCount: nat, lines: seq<Op>)

  // ---- which operations go into which hunk ---------------------------------------------------

  ghost predicate SameRun(ops: seq<Op>, i: nat, j: nat) {
    j <= |ops| && forall k | i <= k < j :: ops[k].kind.Same?
  }

  ghost predicate ChangedRun(ops: seq<Op>, i: nat, j: nat) {
    j <= |ops| && forall k | i <= k < j :: !ops[k].kind.Same?
  }

  /** Ordered, disjoint, non-empty ranges before `upto`, with only equal lines outside them. */
  ghost predicate Cover(ops: seq<Op>, rs: seq<Range>, upto: nat) {
    if rs == [] then SameRun(ops, 0, upto)
    else
      var last := rs[|rs| - 1];
      && last.start < last.end <= upto
      && SameRun(ops, last.end, upto)
      && Cover(ops, rs[..|rs| - 1], last.start)
  }

  /** More than `gap` operations lie between neighbouring ranges. */
  ghost predicate Separated(rs: seq<Range>, gap: nat) {
    |rs| >= 2 ==>
      && rs[|rs| - 2].end + gap < rs[|rs| - 1].start
      && Separated(rs[..|rs| - 1], gap)
  }

  ghost predicate Runs(ops: seq<Op>, rs: seq<Range>) {
    forall r | r in rs :: ChangedRun(ops, r.start, r.end)
  }

  /** The range begins and ends with a change and nowhere skips more than `gap` equal lines. */
  ghost predicate Tight(ops: seq<Op>, r: Range, gap: nat) {
    && r.start < r.end <= |ops|
    && !ops[r.start].kind.Same? && !ops[r.end - 1].kind.Same?
    && forall i, j | r.start <= i <= j <= r.end && SameRun(ops, i, j) :: j - i <= gap
  }

  function Grow(rs: seq<Range>, i: nat): seq<Range> {
    if rs != [] && rs[|rs| - 1].end == i then rs[..|rs| - 1] + [Range(rs[|rs| - 1].start, i + 1)]
    else rs + [Range(i, i + 1)]
  }

  /** The maximal runs of changed operations among the first n. */
  function ChangeRuns(ops: seq<Op>, n: nat): seq<Range>
    requires n <= |ops|
  {
    if n == 0 then []
    else if ops[n - 1].kind.Same? then ChangeRuns(ops, n - 1)
    else Grow(ChangeRuns(ops, n - 1), n - 1)
  }

  /** All maximal runs of changed operations. */
  function Changes(ops: seq<Op>): seq<Range> {
    ChangeRuns(ops, |ops|)
  }

  function Join(merged: seq<Range>, g: Range, context: nat): (r: seq<Range>)
    ensures r != []
  {
    if merged != [] && g.start - merged[|merged| - 1].end <= 2 * context then
      merged[..|merged| - 1] + [Range(merged[|merged| - 1].start, g.end)]
    else merged + [g]
  }

  function Merged(groups: seq<Range>, context: nat): seq<Range> {
    if groups == [] then []
    else Join(Merged(groups[..|groups| - 1], context), groups[|groups| - 1], context)
  }

  function Widen(r: Range, context: nat, n: nat): Range {
    Range(if r.start < context then 0 else r.start - context,
          if r.end + context > n then n else r.end + context)
  }

  function Widened(rs: seq<Range>, context: nat, n: nat): (w: seq<Range>)
    ensures |w| == |rs|
  {
    if rs == [] then []
    else Widened(rs[..|rs| - 1], context, n) + [Widen(rs[|rs| - 1], context, n)]
  }

  function HunkRanges(ops: seq<Op>, context: nat): seq<Range> {
    Widened(Merged(Changes(ops), context), context, |ops|)
  }

  /** Line numbers are the sizes of the two files before and inside the range. */
  function HunkOf(ops: seq<Op>, r: Range): Hunk {
    if r.start <= r.end <= |ops| then
      var before, lines := ops[..r.start], ops[r.start..r.end];
      Hunk(|Old(before)|, |Old(lines)|, |New(before)|, |New(lines)|, lines)
    else Hunk(0, 0, 0, 0, [])
  }

  function HunksOf(ops: seq<Op>, rs: seq<Range>): (hs: seq<Hunk>)
    ensures |hs| == |rs|
  {
    if rs == [] then [] else HunksOf(ops, rs[..|rs| - 1]) + [HunkOf(ops, rs[|rs| - 1])]
  }

  function Hunked(ops: seq<Op>, context: nat): seq<Hunk> {
    HunksOf(ops, HunkRanges(ops, context))
  }

  // ---- the loops --------------------------------------------------------------------------------

  lemma {:induction false} GrowLast(groups: seq<Range>, start: nat, i: nat)
    ensures Grow(groups + [Range(start, i)], i) == groups + [Range(start, i + 1)]
  {
    assert (groups + [Range(start, i)])[..|groups|] == groups;
  }

  lemma {:induction false} FreshRun(ops: seq<Op>, i: nat)
    requires i < |ops| && !ops[i].kind.Same? && (i == 0 || ops[i - 1].kind.Same?)
    ensures ChangeRuns(ops, i + 1) == ChangeRuns(ops, i) + [Range(i, i + 1)]
  {
    if i > 0 {
      RunsEnd(ops, i - 1);
    }
  }

  method CollectRuns(ops: seq<Op>) returns (groups: seq<Range>)
    ensures groups == Changes(ops)
  {
    groups := [];
    var i := 0;
    while i < |ops|
      invariant i <= |ops|
      invariant groups == ChangeRuns(ops, i)
      invariant 0 < i < |ops| ==> ops[i].kind.Same? || ops[i - 1].kind.Same?
    {
      if ops[i].kind.Same? {
        i := i + 1;
      } else {
        FreshRun(ops, i);
        var start := i;
        i := i + 1;
        while i < |ops| && !ops[i].kind.Same?
          invariant start < i <= |ops|
          invariant groups + [Range(start, i)] == ChangeRuns(ops, i)
        {
          GrowLast(groups, start, i);
          i := i + 1;
        }
        groups := groups + [Range(start, i)];
      }
    }
  }

  lemma {:induction false} GrowEnd(rs: seq<Range>, i: nat)
    ensures Grow(rs, i) != [] && Grow(rs, i)[|Grow(rs, i)| - 1].end == i + 1
  {
  }

  lemma {:induction false} RunsEnd(ops: seq<Op>, n: nat)
    requires n <= |ops|
    ensures ChangeRuns(ops, n) != [] ==> ChangeRuns(ops, n)[|ChangeRuns(ops, n)| - 1].end <= n
  {
    hide Grow;
    if n > 0 {
      RunsEnd(ops, n - 1);
      GrowEnd(ChangeRuns(ops, n - 1), n - 1);
    }
  }

  lemma {:induction false} NextMerge(groups: seq<Range>, i: nat, context: nat)
    requires i < |groups|
    ensures Merged(groups[..i + 1], context) == Join(Merged(groups[..i], context), groups[i], context)
  {
    assert groups[..i + 1][..i] == groups[..i];
  }

  method MergeRuns(groups: seq<Range>, context: nat) returns (merged: seq<Range>)
    requires groups != []
    ensures merged == Merged(groups, context)
  {
    merged := [groups[0]];
    NextMerge(groups, 0, context);
    var i := 1;
    while i < |groups|
      invariant 1 <= i <= |groups|
      invariant merged != [] && merged == Merged(groups[..i], context)
    {
      var g, prev := groups[i], merged[|merged| - 1];
      NextMerge(groups, i, context);
      if g.start - prev.end <= 2 * context {
        merged := merged[..|merged| - 1] + [Range(prev.start, g.end)];
      } else {
        merged := merged + [g];
      }
      i := i + 1;
    }
    assert groups[..i] == groups;
  }

  method MakeHunk(ops: seq<Op>, start: nat, end: nat) returns (h: Hunk)
    requires start <= end <= |ops|
    ensures h == HunkOf(ops, Range(start, end))
  {
    var oldLine, newLine := 0, 0;
    var k := 0;
    while k < start
      invariant k <= start
      invariant oldLine == |Old(ops[..k])| && newLine == |New(ops[..k])|
    {
      CountNext(ops, 0, k);
      match ops[k].kind {
        case Same => oldLine, newLine := oldLine + 1, newLine + 1;
        case Removed => oldLine := oldLine + 1;
        case Added => newLine := newLine + 1;
      }
      k := k + 1;
    }
    h := Hunk(oldLine, 0, newLine, 0, []);
    while k < end
      invariant start <= k <= end
      invariant h.oldStart == |Old(ops[..start])| && h.newStart == |New(ops[..start])|
      invariant h.oldCount == |Old(ops[start..k])| && h.newCount == |New(ops[start..k])|
      invariant h.lines == ops[start..k]
    {
      CountNext(ops, start, k);
      match ops[k].kind {
        case Same => h := h.(oldCount := h.oldCount + 1, newCount := h.newCount + 1);
        case Removed => h := h.(oldCount := h.oldCount + 1);
        case Added => h := h.(newCount := h.newCount + 1);
      }
      h := h.(lines := h.lines + [ops[k]]);
      k := k + 1;
    }
  }

  lemma {:induction false} CountNext(ops: seq<Op>, from: nat, k: nat)
    requires from <= k < |ops|
    ensures |Old(ops[from..k + 1])| == |Old(ops[from..k])| + if ops[k].kind.Added? then 0 else 1
    ensures |New(ops[from..k + 1])| == |New(ops[from..k])| + if ops[k].kind.Removed? then 0 else 1
    ensures from == 0 ==> ops[from..k] == ops[..k] && ops[from..k + 1] == ops[..k + 1]
  {
    assert ops[from..k + 1] == ops[from..k] + [ops[k]];
    OpsConcat(ops[from..k], [ops[k]]);
    FirstOp([ops[k]]);
  }

  method HunksAround(ops: seq<Op>, merged: seq<Range>, context: nat) returns (hunks: seq<Hunk>)
    requires Cover(ops, merged, |ops|)
    ensures hunks == HunksOf(ops, Widened(merged, context, |ops|))
  {
    hunks := [];
    var i := 0;
    while i < |merged|
      invariant i <= |merged|
      invariant hunks == HunksOf(ops, Widened(merged[..i], context, |ops|))
    {
      var g := merged[i];
      RangeInBounds(ops, merged, i, |ops|);
      var hs := if g.start < context then 0 else g.start - context;
      var he := if g.end + context > |ops| then |ops| else g.end + context;
      assert Range(hs, he) == Widen(merged[i], context, |ops|);
      var h := MakeHunk(ops, hs, he);
      NextHunk(ops, merged, i, context, hunks, h);
      hunks := hunks + [h];
      i := i + 1;
    }
    assert merged[..i] == merged;
  }

  lemma {:induction false} MergedRunsCover(ops: seq<Op>, context: nat)
    ensures Cover(ops, Merged(Changes(ops), context), |ops|)
  {
    RangesCover(ops, context);
  }

  method BuildHunks(ops: seq<Op>, context: nat) returns (hunks: seq<Hunk>)
    ensures hunks == Hunked(ops, context)
  {
    var groups := CollectRuns(ops);
    if |groups| == 0 {
      return [];
    }
    var merged := MergeRuns(groups, context);
    MergedRunsCover(ops, context);
    hunks := HunksAround(ops, merged, context);
  }

  lemma {:induction false} NextHunk(ops: seq<Op>, rs: seq<Range>, i: nat, context: nat,
                                    hunks: seq<Hunk>, h: Hunk)
    requires i < |rs| && hunks == HunksOf(ops, Widened(rs[..i], context, |ops|))
    requires h == HunkOf(ops, Widen(rs[i], context, |ops|))
    ensures hunks + [h] == HunksOf(ops, Widened(rs[..i + 1], context, |ops|))
  {
    assert rs[..i + 1][..i] == rs[..i];
    var w := Widened(rs[..i], context, |ops|);
    assert (w + [Widen(rs[i], context, |ops|)])[..i] == w;
  }

  lemma {:induction false} RangeInBounds(ops: seq<Op>, rs: seq<Range>, i: nat, upto: nat)
    requires Cover(ops, rs, upto) && i < |rs| && upto <= |ops|
    ensures rs[i].start < rs[i].end <= upto
  {
    if i < |rs| - 1 {
      RangeInBounds(ops, rs[..|rs| - 1], i, rs[|rs| - 1].start);
    }
  }

  // ---- the ranges cover every change -------------------------------------------------------------

  lemma {:induction false} GrowKeeps(ops: seq<Op>, rs: seq<Range>, i: nat)
    requires i < |ops| && !ops[i].kind.Same?
    requires Cover(ops, rs, i) && Runs(ops, rs) && Separated(rs, 0)
    ensures Cover(ops, Grow(rs, i), i + 1) && Runs(ops, Grow(rs, i)) && Separated(Grow(rs, i), 0)
  {
    var grown := Grow(rs, i);
    if rs != [] && rs[|rs| - 1].end == i {
      assert grown[..|rs| - 1] == rs[..|rs| - 1];
    } else {
      assert grown[..|rs|] == rs;
    }
  }

  lemma {:induction false} PassKeeps(ops: seq<Op>, rs: seq<Range>, i: nat)
    requires i < |ops| && ops[i].kind.Same? && Cover(ops, rs, i)
    ensures Cover(ops, rs, i + 1)
  {
  }

  lemma {:induction false} RunsCover(ops: seq<Op>, n: nat)
    requires n <= |ops|
    ensures Cover(ops, ChangeRuns(ops, n), n)
    ensures Runs(ops, ChangeRuns(ops, n)) && Separated(ChangeRuns(ops, n), 0)
  {
    if n > 0 {
      RunsCover(ops, n - 1);
      hide Cover, Runs, Separated, Grow;
      if ops[n - 1].kind.Same? {
        PassKeeps(ops, ChangeRuns(ops, n - 1), n - 1);
      } else {
        GrowKeeps(ops, ChangeRuns(ops, n - 1), n - 1);
      }
    }
  }

  ghost predicate AllTight(ops: seq<Op>, rs: seq<Range>, gap: nat) {
    forall r | r in rs :: Tight(ops, r, gap)
  }

  lemma {:induction false} RunIsTight(ops: seq<Op>, r: Range, gap: nat)
    requires ChangedRun(ops, r.start, r.end) && r.start < r.end
    ensures Tight(ops, r, gap)
  {
    forall i: nat, j: nat | r.start <= i <= j <= r.end && j - i > gap
      ensures !SameRun(ops, i, j)
    {
      assert !ops[i].kind.Same?;
    }
  }

  lemma {:induction false} JoinIsTight(ops: seq<Op>, prev: Range, g: Range, gap: nat)
    requires Tight(ops, prev, gap) && ChangedRun(ops, g.start, g.end) && g.start < g.end
    requires prev.end <= g.start <= prev.end + gap
    ensures Tight(ops, Range(prev.start, g.end), gap)
  {
    forall i: nat, j: nat | prev.start <= i <= j <= g.end && j - i > gap
      ensures !SameRun(ops, i, j)
    {
      if prev.end < j {
        var k := if i < prev.end then prev.end - 1 else if i < g.start then g.start else i;
        assert !ops[k].kind.Same?;
      }
    }
  }

  /** What merging has established about the first groups. */
  ghost predicate MergedSoFar(ops: seq<Op>, merged: seq<Range>, gap: nat, upto: nat) {
    Cover(ops, merged, upto) && Separated(merged, gap) && AllTight(ops, merged, gap)
  }

  lemma {:induction false} JoinKeeps(ops: seq<Op>, merged: seq<Range>, g: Range, context: nat, upto: nat)
    requires MergedSoFar(ops, merged, 2 * context, g.start) && Tight(ops, g, 2 * context)
    requires ChangedRun(ops, g.start, g.end) && g.end <= upto && SameRun(ops, g.end, upto)
    ensures MergedSoFar(ops, Join(merged, g, context), 2 * context, upto)
  {
    var joined := Join(merged, g, context);
    if merged != [] && g.start - merged[|merged| - 1].end <= 2 * context {
      JoinIsTight(ops, merged[|merged| - 1], g, 2 * context);
      assert joined[..|merged| - 1] == merged[..|merged| - 1];
    } else {
      assert joined[..|merged|] == merged;
    }
  }

  lemma {:induction false} MergedCover(ops: seq<Op>, groups: seq<Range>, context: nat, upto: nat)
    requires Cover(ops, groups, upto) && Runs(ops, groups)
    ensures MergedSoFar(ops, Merged(groups, context), 2 * context, upto)
  {
    if groups != [] {
      var init, g := groups[..|groups| - 1], groups[|groups| - 1];
      MergedCover(ops, init, context, g.start);
      RunIsTight(ops, g, 2 * context);
      JoinKeeps(ops, Merged(init, context), g, context, upto);
    }
  }

  lemma {:induction false} WidenedCover(ops: seq<Op>, rs: seq<Range>, context: nat,
                                        upto: nat, upto': nat)
    requires Cover(ops, rs, upto) && Separated(rs, 2 * context)
    requires upto' <= upto <= |ops|
    requires rs != [] ==> Widen(rs[|rs| - 1], context, |ops|).end <= upto'
    ensures Cover(ops, Widened(rs, context, |ops|), upto')
    ensures Separated(Widened(rs, context, |ops|), 0)
  {
    if rs != [] {
      var init, last := rs[..|rs| - 1], rs[|rs| - 1];
      var w := Widen(last, context, |ops|);
      WidenedCover(ops, init, context, last.start, w.start);
      assert Widened(rs, context, |ops|)[..|init|] == Widened(init, context, |ops|);
    }
  }

  /** The merged ranges are exactly as loose as the context allows, and the widened ones cover. */
  lemma {:induction false} RangesCover(ops: seq<Op>, context: nat)
    ensures var merged := Merged(Changes(ops), context);
      && Cover(ops, merged, |ops|)
      && Separated(merged, 2 * context)
      && AllTight(ops, merged, 2 * context)
    ensures Cover(ops, HunkRanges(ops, context), |ops|)
    ensures Separated(HunkRanges(ops, context), 0)
  {
    RunsCover(ops, |ops|);
    MergedCover(ops, Changes(ops), context, |ops|);
    WidenedCover(ops, Merged(Changes(ops), context), context, |ops|, |ops|);
  }

  // ---- applying the hunks ------------------------------------------------------------------------

  /** Every hunk finds its old lines at its old position, in order and without overlap. */
  ghost predicate Applies(a: seq<Line>, hs: seq<Hunk>, upto: nat) {
    && upto <= |a|
    && (hs != [] ==>
          var h := hs[|hs| - 1];
          && h.oldStart + h.oldCount <= upto
          && a[h.oldStart..h.oldStart + h.oldCount] == Old(h.lines)
          && Applies(a, hs[..|hs| - 1], h.oldStart))
  }

  /** The first `upto` old lines with every hunk spliced in. */
  ghost function Patched(a: seq<Line>, hs: seq<Hunk>, upto: nat): seq<Line>
    requires Applies(a, hs, upto)
  {
    if hs == [] then a[..upto]
    else
      var h := hs[|hs| - 1];
      Patched(a, hs[..|hs| - 1], h.oldStart) + New(h.lines) + a[h.oldStart + h.oldCount..upto]
  }

  lemma {:induction false} SameRunIsShared(ops: seq<Op>)
    requires SameRun(ops, 0, |ops|)
    ensures Old(ops) == New(ops)
  {
    if ops != [] {
      SameRunIsShared(ops[1..]);
      FirstOp(ops);
    }
  }

  /** The old file, cut at two operation boundaries. */
  lemma {:induction false} OldAt(ops: seq<Op>, i: nat, j: nat)
    requires i <= j <= |ops|
    ensures Old(ops[..j]) == Old(ops[..i]) + Old(ops[i..j])
    ensures New(ops[..j]) == New(ops[..i]) + New(ops[i..j])
    ensures |Old(ops[..j])| <= |Old(ops)| && Old(ops)[..|Old(ops[..j])|] == Old(ops[..j])
    ensures Old(ops)[|Old(ops[..i])|..|Old(ops[..j])|] == Old(ops[i..j])
  {
    assert ops[..j] == ops[..i] + ops[i..j];
    OpsConcat(ops[..i], ops[i..j]);
    assert ops == ops[..j] + ops[j..];
    OpsConcat(ops[..j], ops[j..]);
  }

  lemma {:induction false} LastHunk(ops: seq<Op>, r: Range, upto: nat)
    requires r.start <= r.end <= upto <= |ops| && SameRun(ops, r.end, upto)
    ensures var h, n := HunkOf(ops, r), |Old(ops[..upto])|;
      && h.oldStart == |Old(ops[..r.start])|
      && h.oldStart + h.oldCount <= n <= |Old(ops)|
      && Old(ops)[h.oldStart..h.oldStart + h.oldCount] == Old(h.lines)
      && New(ops[..upto]) ==
         New(ops[..r.start]) + New(h.lines) + Old(ops)[h.oldStart + h.oldCount..n]
  {
    OldAt(ops, r.start, r.end);
    OldAt(ops, r.end, upto);
    SameRunIsShared(ops[r.end..upto]);
  }

  lemma {:induction false} PatchedLast(a: seq<Line>, hs: seq<Hunk>, h: Hunk, upto: nat)
    requires upto <= |a| && h.oldStart + h.oldCount <= upto
    requires a[h.oldStart..h.oldStart + h.oldCount] == Old(h.lines)
    requires Applies(a, hs, h.oldStart)
    ensures Applies(a, hs + [h], upto)
    ensures Patched(a, hs + [h], upto) ==
      Patched(a, hs, h.oldStart) + New(h.lines) + a[h.oldStart + h.oldCount..upto]
  {
    assert (hs + [h])[..|hs|] == hs;
  }

  lemma {:induction false} RangesPatch(ops: seq<Op>, rs: seq<Range>, upto: nat)
    requires upto <= |ops| && Cover(ops, rs, upto)
    ensures Applies(Old(ops), HunksOf(ops, rs), |Old(ops[..upto])|)
    ensures Patched(Old(ops), HunksOf(ops, rs), |Old(ops[..upto])|) == New(ops[..upto])
  {
    if rs == [] {
      OldAt(ops, 0, upto);
      SameRunIsShared(ops[..upto]);
    } else {
      var init, r := rs[..|rs| - 1], rs[|rs| - 1];
      RangesPatch(ops, init, r.start);
      LastHunk(ops, r, upto);
      PatchedLast(Old(ops), HunksOf(ops, init), HunkOf(ops, r), |Old(ops[..upto])|);
    }
  }

  // ---- the reverse patch ---------------------------------------------------------------------------

  function FlipKind(k: Kind): Kind {
    match k
    case Same => Same
    case Removed => Added
    case Added => Removed
  }

  function Flipped(ops: seq<Op>): (r: seq<Op>)
    ensures |r| == |ops|
    ensures forall i | 0 <= i < |ops| :: r[i] == Op(FlipKind(ops[i].kind), ops[i].text)
  {
    seq(|ops|, i requires 0 <= i < |ops| => Op(FlipKind(ops[i].kind), ops[i].text))
  }

  /** A hunk read from the new file back to the old one. */
  function Reverse(h: Hunk): Hunk {
    Hunk(h.newStart, h.newCount, h.oldStart, h.oldCount, Flipped(h.lines))
  }

  function Reversed(hs: seq<Hunk>): (r: seq<Hunk>)
    ensures |r| == |hs|
  {
    seq(|hs|, i requires 0 <= i < |hs| => Reverse(hs[i]))
  }

  lemma {:induction false} FlippedSides(ops: seq<Op>)
    ensures Old(Flipped(ops)) == New(ops) && New(Flipped(ops)) == Old(ops)
  {
    if ops != [] {
      FlippedSides(ops[1..]);
      assert Flipped(ops)[1..] == Flipped(ops[1..]);
      FirstOp(ops);
      FirstOp(Flipped(ops));
    }
  }

  lemma {:induction false} FlippedCover(ops: seq<Op>, rs: seq<Range>, upto: nat)
    requires Cover(ops, rs, upto)
    ensures Cover(Flipped(ops), rs, upto)
  {
    if rs != [] {
      FlippedCover(ops, rs[..|rs| - 1], rs[|rs| - 1].start);
    }
  }

  lemma {:induction false} FlippedHunk(ops: seq<Op>, r: Range)
    ensures HunkOf(Flipped(ops), r) == Reverse(HunkOf(ops, r))
  {
    if r.start <= r.end <= |ops| {
      assert Flipped(ops)[..r.start] == Flipped(ops[..r.start]);
      assert Flipped(ops)[r.start..r.end] == Flipped(ops[r.start..r.end]);
      FlippedSides(ops[..r.start]);
      FlippedSides(ops[r.start..r.end]);
    } else {
      assert Flipped([]) == [];
    }
  }

  lemma {:induction false} FlippedHunks(ops: seq<Op>, rs: seq<Range>)
    ensures HunksOf(Flipped(ops), rs) == Reversed(HunksOf(ops, rs))
  {
    if rs != [] {
      FlippedHunks(ops, rs[..|rs| - 1]);
      FlippedHunk(ops, rs[|rs| - 1]);
    }
  }

  lemma {:induction false} CoverEmptyIff(ops: seq<Op>, context: nat)
    ensures Hunked(ops, context) == [] <==> SameRun(ops, 0, |ops|)
  {
    RangesCover(ops, context);
    var rs := HunkRanges(ops, context);
    var merged := Merged(Changes(ops), context);
    if merged != [] {
      var r := merged[|merged| - 1];
      assert r in merged && Tight(ops, r, 2 * context);
    }
  }

  /** Splicing the hunks into the old file gives the new one, and in reverse the old one. */
  lemma {:induction false} HunksPatchBothWays(ops: seq<Op>, context: nat)
    ensures Applies(Old(ops), Hunked(ops, context), |Old(ops)|)
    ensures Patched(Old(ops), Hunked(ops, context), |Old(ops)|) == New(ops)
    ensures Applies(New(ops), Reversed(Hunked(ops, context)), |New(ops)|)
    ensures Patched(New(ops), Reversed(Hunked(ops, context)), |New(ops)|) == Old(ops)
  {
    var rs := HunkRanges(ops, context);
    RangesCover(ops, context);
    assert ops[..|ops|] == ops;
    RangesPatch(ops, rs, |ops|);
    FlippedCover(ops, rs, |ops|);
    assert Flipped(ops)[..|ops|] == Flipped(ops);
    RangesPatch(Flipped(ops), rs, |ops|);
    FlippedSides(ops);
    FlippedHunks(ops, rs);
  }

  lemma {:induction false} EqualFilesKeepAll(a: seq<Line>)
    ensures SameRun(Diffed(a, a), 0, |Diffed(a, a)|)
  {
    PrefixOfItself(a);
    var t := Trimmed(a, a);
    assert t.oldMid == [] && t.newMid == [] && t.tail == [];
    assert Middle([], []) == [];
  }

  lemma {:induction false} PrefixOfItself(a: seq<Line>)
    ensures CommonPrefix(a, a) == |a|
  {
    if a != [] {
      PrefixOfItself(a[1..]);
    }
  }

  /** The diff of two files patches each into the other, and is empty exactly for equal lines. */
  lemma {:induction false} DiffPatches(a: seq<Line>, b: seq<Line>, context: nat)
    ensures var hs := Hunked(Diffed(a, b), context);
      && Applies(a, hs, |a|) && Patched(a, hs, |a|) == b
      && Applies(b, Reversed(hs), |b|) && Patched(b, Reversed(hs), |b|) == a
    ensures Hunked(Diffed(a, b), context) == [] <==> a == b
  {
    DiffedIsScript(a, b);
    HunksPatchBothWays(Diffed(a, b), context);
    CoverEmptyIff(Diffed(a, b), context);
    if a == b {
      EqualFilesKeepAll(a);
    } else if SameRun(Diffed(a, b), 0, |Diffed(a, b)|) {
      SameRunIsShared(Diffed(a, b));
    }
  }
}
