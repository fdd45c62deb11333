/**
 The line diff: a longest-common-subsequence table over the trimmed middle, read back as an
 edit script.
 */
module Diff {

  import opened Sequences

  type Line = string

  datatype Kind = Same | Removed | Added

  datatype Op = Op(kind: Kind, text: Line)

  const MAX_LCS_CELLS := 4_000_000

  // ---- edit scripts ----------------------------------------------------------------

  /** The lines of the operations of some kinds. */
  function Pick(ops: seq<Op>, kinds: set<Kind>): seq<Line> {
    if ops == [] then []
    else (if ops[0].kind in kinds then [ops[0].text] else []) + Pick(ops[1..], kinds)
  }

  /** The old file a script applies to. */
  function Old(ops: seq<Op>): seq<Line> { Pick(ops, {Same, Removed}) }

  /** The new file it produces. */
  function New(ops: seq<Op>): seq<Line> { Pick(ops, {Same, Added}) }

  function KeptLines(ops: seq<Op>): seq<Line> { Pick(ops, {Same}) }

  ghost predicate Script(ops: seq<Op>, a: seq<Line>, b: seq<Line>) {
    Old(ops) == a && New(ops) == b
  }

  function AllOf(kind: Kind, lines: seq<Line>): seq<Op> {
    seq(|lines|, i requires 0 <= i < |lines| => Op(kind, lines[i]))
  }

  lemma {:induction false} PickConcat(x: seq<Op>, y: seq<Op>, kinds: set<Kind>)
    ensures Pick(x + y, kinds) == Pick(x, kinds) + Pick(y, kinds)
  {
    if x == [] {
      assert x + y == y;
    } else {
      assert (x + y)[1..] == x[1..] + y;
      PickConcat(x[1..], y, kinds);
    }
  }

  lemma {:induction false} OpsConcat(x: seq<Op>, y: seq<Op>)
    ensures Old(x + y) == Old(x) + Old(y)
    ensures New(x + y) == New(x) + New(y)
    ensures KeptLines(x + y) == KeptLines(x) + KeptLines(y)
  {
    PickConcat(x, y, {Same, Removed});
    PickConcat(x, y, {Same, Added});
    PickConcat(x, y, {Same});
  }

  lemma {:induction false} PickAllOf(kind: Kind, lines: seq<Line>, kinds: set<Kind>)
    ensures Pick(AllOf(kind, lines), kinds) == if kind in kinds then lines else []
  {
    if lines != [] {
      PickAllOf(kind, lines[1..], kinds);
      assert AllOf(kind, lines)[1..] == AllOf(kind, lines[1..]);
    }
  }

  lemma {:induction false} AllOfFacts(kind: Kind, lines: seq<Line>)
    ensures Old(AllOf(kind, lines)) == if kind.Added? then [] else lines
    ensures New(AllOf(kind, lines)) == if kind.Removed? then [] else lines
    ensures KeptLines(AllOf(kind, lines)) == if kind.Same? then lines else []
  {
    PickAllOf(kind, lines, {Same, Removed});
    PickAllOf(kind, lines, {Same, Added});
    PickAllOf(kind, lines, {Same});
  }

  // ---- common subsequences ------------------------------------------------------------

  ghost predicate Common(c: seq<Line>, a: seq<Line>, b: seq<Line>) {
    Subseq(c, a) && Subseq(c, b)
  }

  /** n is the length of the longest common subsequence. */
  ghost predicate IsLcsLength(n: nat, a: seq<Line>, b: seq<Line>) {
    && (exists c :: Common(c, a, b) && |c| == n)
    && (forall c | Common(c, a, b) :: |c| <= n)
  }

  lemma {:induction false} FirstOp(ops: seq<Op>)
    requires ops != []
    ensures Old(ops) == (if ops[0].kind.Added? then Old(ops[1..]) else [ops[0].text] + Old(ops[1..]))
    ensures New(ops) == (if ops[0].kind.Removed? then New(ops[1..]) else [ops[0].text] + New(ops[1..]))
    ensures KeptLines(ops) ==
      (if ops[0].kind.Same? then [ops[0].text] + KeptLines(ops[1..]) else KeptLines(ops[1..]))
  {
    PickFirst(ops, {Same, Removed});
    PickFirst(ops, {Same, Added});
    PickFirst(ops, {Same});
  }

  lemma {:induction false} PickFirst(ops: seq<Op>, kinds: set<Kind>)
    requires ops != []
    ensures Pick(ops, kinds) ==
      if ops[0].kind in kinds then [ops[0].text] + Pick(ops[1..], kinds) else Pick(ops[1..], kinds)
  {
  }

  /** The lines a script keeps are a common subsequence of both files. */
  lemma {:induction false} KeptIsCommon(ops: seq<Op>)
    ensures Common(KeptLines(ops), Old(ops), New(ops))
    ensures |ops| == |Old(ops)| + |New(ops)| - |KeptLines(ops)|
  {
    if ops != [] {
      var text, rest := ops[0].text, ops[1..];
      KeptIsCommon(rest);
      FirstOp(ops);
      SubseqLonger(KeptLines(rest), [text], Old(rest));
      SubseqLonger(KeptLines(rest), [text], New(rest));
      SubseqCons(text, KeptLines(rest), Old(rest));
      SubseqCons(text, KeptLines(rest), New(rest));
    }
  }

  // ---- the table -------------------------------------------------------------------------

  function Lcs(a: seq<Line>, b: seq<Line>): nat
    decreases |a| + |b|
  {
    if a == [] || b == [] then 0
    else if a[0] == b[0] then 1 + Lcs(a[1..], b[1..])
    else if Lcs(a[1..], b) >= Lcs(a, b[1..]) then Lcs(a[1..], b)
    else Lcs(a, b[1..])
  }

  lemma {:induction false} LcsIsUpperBound(c: seq<Line>, a: seq<Line>, b: seq<Line>)
    requires Common(c, a, b)
    ensures |c| <= Lcs(a, b)
    decreases |a| + |b|
  {
    if c != [] {
      SubseqTail(c, a);
      SubseqTail(c, b);
      if a[0] == b[0] {
        LcsIsUpperBound(c[1..], a[1..], b[1..]);
      } else if c[0] != a[0] {
        LcsIsUpperBound(c, a[1..], b);
      } else {
        LcsIsUpperBound(c, a, b[1..]);
      }
    }
  }

  /** The script read off the table. */
  function Trace(a: seq<Line>, b: seq<Line>): seq<Op>
    decreases |a| + |b|
  {
    if a == [] then AllOf(Added, b)
    else if b == [] then AllOf(Removed, a)
    else if a[0] == b[0] then [Op(Same, a[0])] + Trace(a[1..], b[1..])
    else if Lcs(a[1..], b) >= Lcs(a, b[1..]) then [Op(Removed, a[0])] + Trace(a[1..], b)
    else [Op(Added, b[0])] + Trace(a, b[1..])
  }

  lemma {:induction false} TraceIsOptimal(a: seq<Line>, b: seq<Line>)
    ensures Script(Trace(a, b), a, b) && |KeptLines(Trace(a, b))| == Lcs(a, b)
    decreases |a| + |b|
  {
    if a == [] {
      AllOfFacts(Added, b);
    } else if b == [] {
      AllOfFacts(Removed, a);
    } else if a[0] == b[0] {
      TraceIsOptimal(a[1..], b[1..]);
      assert Trace(a, b)[1..] == Trace(a[1..], b[1..]);
    } else if Lcs(a[1..], b) >= Lcs(a, b[1..]) {
      TraceIsOptimal(a[1..], b);
      assert Trace(a, b)[1..] == Trace(a[1..], b);
    } else {
      TraceIsOptimal(a, b[1..]);
      assert Trace(a, b)[1..] == Trace(a, b[1..]);
    }
  }

  method FillTable(a: seq<Line>, b: seq<Line>) returns (dp: array2<nat>)
    ensures dp.Length0 == |a| + 1 && dp.Length1 == |b| + 1
    ensures forall i, j {:trigger dp[i, j]} | 0 <= i <= |a| && 0 <= j <= |b| ::
      dp[i, j] == Lcs(a[i..], b[j..])
    ensures fresh(dp)
  {
    var n, m := |a|, |b|;
    dp := new nat[n + 1, m + 1]((i, j) => 0);
    var i := n;
    while i > 0
      invariant 0 <= i <= n
      invariant forall k, j {:trigger dp[k, j]} | i <= k <= n && 0 <= j <= m :: dp[k, j] == Lcs(a[k..], b[j..])
      invariant forall k, j {:trigger dp[k, j]} | 0 <= k < i && 0 <= j <= m :: dp[k, j] == 0
    {
      i := i - 1;
      var j := m;
      while j > 0
        invariant 0 <= j <= m
        invariant forall k, l {:trigger dp[k, l]} | i < k <= n && 0 <= l <= m :: dp[k, l] == Lcs(a[k..], b[l..])
        invariant forall l {:trigger dp[i, l]} | j <= l <= m :: dp[i, l] == Lcs(a[i..], b[l..])
        invariant forall k, l {:trigger dp[k, l]} | 0 <= k < i && 0 <= l <= m :: dp[k, l] == 0
      {
        j := j - 1;
        assert a[i..][1..] == a[i + 1..] && b[j..][1..] == b[j + 1..];
        if a[i] == b[j] {
          dp[i, j] := dp[i + 1, j + 1] + 1;
        } else if dp[i + 1, j] >= dp[i, j + 1] {
          dp[i, j] := dp[i + 1, j];
        } else {
          dp[i, j] := dp[i, j + 1];
        }
      }
    }
  }

  predicate Chosen(a: seq<Line>, b: seq<Line>, i: nat, j: nat, op: Op, i': nat, j': nat)
    requires i < |a| && j < |b|
  {
    if a[i] == b[j] then op == Op(Same, a[i]) && i' == i + 1 && j' == j + 1
    else if Lcs(a[i + 1..], b[j..]) >= Lcs(a[i..], b[j + 1..]) then
      op == Op(Removed, a[i]) && i' == i + 1 && j' == j
    else op == Op(Added, b[j]) && i' == i && j' == j + 1
  }

  lemma {:induction false} StepKeeps(ops: seq<Op>, a: seq<Line>, b: seq<Line>, i: nat, j: nat,
                                     op: Op, i': nat, j': nat)
    requires i < |a| && j < |b| && Chosen(a, b, i, j, op, i', j')
    ensures (ops + [op]) + Trace(a[i'..], b[j'..]) == ops + Trace(a[i..], b[j..])
  {
    assert a[i..][1..] == a[i + 1..] && b[j..][1..] == b[j + 1..];
    assert Trace(a[i..], b[j..]) == [op] + Trace(a[i'..], b[j'..]);
    Assoc(ops, [op], Trace(a[i'..], b[j'..]));
  }

  lemma {:induction false} LastOps(a: seq<Line>, b: seq<Line>, i: nat, j: nat)
    requires (i == |a| && j <= |b|) || (i <= |a| && j == |b|)
    ensures Trace(a[i..], b[j..]) == AllOf(Removed, a[i..]) + AllOf(Added, b[j..])
  {
    if i == |a| {
      assert AllOf(Removed, a[i..]) == [];
    } else {
      assert AllOf(Added, b[j..]) == [];
    }
  }

  method AppendAll(ops: seq<Op>, kind: Kind, lines: seq<Line>) returns (r: seq<Op>)
    ensures r == ops + AllOf(kind, lines)
  {
    r := ops;
    var i := 0;
    while i < |lines|
      invariant i <= |lines|
      invariant r == ops + AllOf(kind, lines)[..i]
    {
      r := r + [Op(kind, lines[i])];
      i := i + 1;
    }
  }

  method LcsMiddle(a: seq<Line>, b: seq<Line>) returns (ops: seq<Op>)
    ensures ops == Trace(a, b)
  {
    hide Trace, Lcs;
    var n, m := |a|, |b|;
    var dp := FillTable(a, b);
    ops := [];
    var i, j := 0, 0;
    assert a[0..] == a && b[0..] == b;
    while i < n && j < m
      invariant i <= n && j <= m
      invariant forall k, l {:trigger dp[k, l]} | 0 <= k <= n && 0 <= l <= m :: dp[k, l] == Lcs(a[k..], b[l..])
      invariant ops + Trace(a[i..], b[j..]) == Trace(a, b)
    {
      if a[i] == b[j] {
        StepKeeps(ops, a, b, i, j, Op(Same, a[i]), i + 1, j + 1);
        ops := ops + [Op(Same, a[i])];
        i, j := i + 1, j + 1;
      } else if dp[i + 1, j] >= dp[i, j + 1] {
        StepKeeps(ops, a, b, i, j, Op(Removed, a[i]), i + 1, j);
        ops := ops + [Op(Removed, a[i])];
        i := i + 1;
      } else {
        StepKeeps(ops, a, b, i, j, Op(Added, b[j]), i, j + 1);
        ops := ops + [Op(Added, b[j])];
        j := j + 1;
      }
    }
    LastOps(a, b, i, j);
    Assoc(ops, AllOf(Removed, a[i..]), AllOf(Added, b[j..]));
    ops := AppendAll(ops, Removed, a[i..]);
    ops := AppendAll(ops, Added, b[j..]);
  }

  // ---- trimming the common ends ----------------------------------------------------------

  function CommonPrefix(a: seq<Line>, b: seq<Line>): (p: nat)
    ensures p <= |a| && p <= |b|
  {
    if a != [] && b != [] && a[0] == b[0] then 1 + CommonPrefix(a[1..], b[1..]) else 0
  }

  function CommonSuffix(a: seq<Line>, b: seq<Line>): (n: nat)
    ensures n <= |a| && n <= |b|
  {
    if a != [] && b != [] && a[|a| - 1] == b[|b| - 1] then
      1 + CommonSuffix(a[..|a| - 1], b[..|b| - 1])
    else 0
  }

  datatype Trim = Trim(head: seq<Line>, oldMid: seq<Line>, newMid: seq<Line>, tail: seq<Line>)

  lemma {:induction false} CommonPrefixAgrees(a: seq<Line>, b: seq<Line>)
    ensures a[..CommonPrefix(a, b)] == b[..CommonPrefix(a, b)]
  {
    if a != [] && b != [] && a[0] == b[0] {
      CommonPrefixAgrees(a[1..], b[1..]);
      var p := CommonPrefix(a[1..], b[1..]);
      assert a[..p + 1] == [a[0]] + a[1..][..p] && b[..p + 1] == [b[0]] + b[1..][..p];
    }
  }

  lemma {:induction false} CommonSuffixAgrees(a: seq<Line>, b: seq<Line>)
    ensures a[|a| - CommonSuffix(a, b)..] == b[|b| - CommonSuffix(a, b)..]
  {
    if a != [] && b != [] && a[|a| - 1] == b[|b| - 1] {
      var a', b' := a[..|a| - 1], b[..|b| - 1];
      CommonSuffixAgrees(a', b');
      var n := CommonSuffix(a', b');
      assert a[|a| - n - 1..] == a'[|a'| - n..] + [a[|a| - 1]];
      assert b[|b| - n - 1..] == b'[|b'| - n..] + [b[|b| - 1]];
    }
  }

  lemma {:induction false} ThreeParts<T>(s: seq<T>, p: nat, q: nat)
    requires p <= q <= |s|
    ensures s == s[..p] + s[p..q] + s[q..]
  {
  }

  lemma {:induction false} DropTwice<T>(s: seq<T>, p: nat, q: nat)
    requires p <= q <= |s|
    ensures s[p..][q - p..] == s[q..]
  {
  }

  lemma {:induction false} TrimmedJoins(a: seq<Line>, b: seq<Line>)
    ensures var t := Trimmed(a, b);
      a == t.head + t.oldMid + t.tail && b == t.head + t.newMid + t.tail
  {
    var p := CommonPrefix(a, b);
    var n := CommonSuffix(a[p..], b[p..]);
    CommonPrefixAgrees(a, b);
    CommonSuffixAgrees(a[p..], b[p..]);
    DropTwice(a, p, |a| - n);
    DropTwice(b, p, |b| - n);
    ThreeParts(a, p, |a| - n);
    ThreeParts(b, p, |b| - n);
  }

  function Trimmed(a: seq<Line>, b: seq<Line>): (t: Trim)
  {
    var p := CommonPrefix(a, b);
    var n := CommonSuffix(a[p..], b[p..]);
    Trim(a[..p], a[p..|a| - n], b[p..|b| - n], a[|a| - n..])
  }

  function Middle(a: seq<Line>, b: seq<Line>): seq<Op> {
    if |a| * |b| <= MAX_LCS_CELLS then Trace(a, b) else AllOf(Removed, a) + AllOf(Added, b)
  }

  function Diffed(a: seq<Line>, b: seq<Line>): seq<Op> {
    var t := Trimmed(a, b);
    AllOf(Same, t.head) + Middle(t.oldMid, t.newMid) + AllOf(Same, t.tail)
  }

  /** Whether the trimmed middle is small enough for the table. */
  predicate MiddleFits(a: seq<Line>, b: seq<Line>) {
    |Trimmed(a, b).oldMid| * |Trimmed(a, b).newMid| <= MAX_LCS_CELLS
  }

  method TrimPrefix(a: seq<Line>, b: seq<Line>) returns (p: nat)
    ensures p == CommonPrefix(a, b)
  {
    p := 0;
    assert a[0..] == a && b[0..] == b;
    while p < |a| && p < |b| && a[p] == b[p]
      invariant p <= |a| && p <= |b|
      invariant CommonPrefix(a, b) == p + CommonPrefix(a[p..], b[p..])
    {
      assert a[p..][1..] == a[p + 1..] && b[p..][1..] == b[p + 1..];
      p := p + 1;
    }
  }

  lemma {:induction false} SuffixStep(a: seq<Line>, b: seq<Line>, p: nat, sa: nat, sb: nat)
    requires p < sa <= |a| && p < sb <= |b| && a[sa - 1] == b[sb - 1]
    ensures CommonSuffix(a[p..sa], b[p..sb]) == 1 + CommonSuffix(a[p..sa - 1], b[p..sb - 1])
  {
    assert a[p..sa][..sa - p - 1] == a[p..sa - 1] && b[p..sb][..sb - p - 1] == b[p..sb - 1];
  }

  method TrimSuffix(a: seq<Line>, b: seq<Line>, p: nat) returns (sa: nat, sb: nat)
    requires p <= |a| && p <= |b|
    ensures sa == |a| - CommonSuffix(a[p..], b[p..]) && sb == |b| - CommonSuffix(a[p..], b[p..])
  {
    sa, sb := |a|, |b|;
    ghost var n := CommonSuffix(a[p..], b[p..]);
    assert a[p..sa] == a[p..] && b[p..sb] == b[p..];
    while sa > p && sb > p && a[sa - 1] == b[sb - 1]
      invariant p <= sa <= |a| && p <= sb <= |b| && |a| - sa == |b| - sb
      invariant n == |a| - sa + CommonSuffix(a[p..sa], b[p..sb])
    {
      SuffixStep(a, b, p, sa, sb);
      sa, sb := sa - 1, sb - 1;
    }
  }

  method DiffMiddle(a: seq<Line>, b: seq<Line>) returns (ops: seq<Op>)
    ensures ops == Middle(a, b)
  {
    ops := [];
    if |a| == 0 && |b| == 0 {
      assert AllOf(Added, b) == [];
    } else if |a| * |b| <= MAX_LCS_CELLS {
      ops := LcsMiddle(a, b);
    } else {
      ops := AppendAll(ops, Removed, a);
      ops := AppendAll(ops, Added, b);
    }
  }

  method LcsOps(a: seq<Line>, b: seq<Line>) returns (ops: seq<Op>)
    ensures ops == Diffed(a, b)
    ensures Script(ops, a, b)
  {
    hide AllOf, Middle, CommonPrefix, CommonSuffix, Pick;
    DiffedIsScript(a, b);
    ghost var t := Trimmed(a, b);
    var p := TrimPrefix(a, b);
    var sa, sb := TrimSuffix(a, b, p);
    ops := AppendAll([], Same, a[..p]);
    assert ops == AllOf(Same, t.head);
    var middle := DiffMiddle(a[p..sa], b[p..sb]);
    assert middle == Middle(t.oldMid, t.newMid) && a[sa..] == t.tail;
    ops := ops + middle;
    ops := AppendAll(ops, Same, a[sa..]);
  }

  lemma {:induction false} MiddleIsScript(a: seq<Line>, b: seq<Line>)
    ensures Script(Middle(a, b), a, b)
    ensures |KeptLines(Middle(a, b))| == if |a| * |b| <= MAX_LCS_CELLS then Lcs(a, b) else 0
  {
    if |a| * |b| <= MAX_LCS_CELLS {
      TraceIsOptimal(a, b);
    } else {
      AllOfFacts(Removed, a);
      AllOfFacts(Added, b);
      OpsConcat(AllOf(Removed, a), AllOf(Added, b));
    }
  }

  /** The operations always turn the old lines into the new ones, on the coarse path too. */
  lemma {:induction false} DiffedIsScript(a: seq<Line>, b: seq<Line>)
    ensures Script(Diffed(a, b), a, b)
    ensures |KeptLines(Diffed(a, b))| ==
      var t := Trimmed(a, b);
      |t.head| + |t.tail| + if MiddleFits(a, b) then Lcs(t.oldMid, t.newMid) else 0
  {
    var t := Trimmed(a, b);
    var head, middle, tail := AllOf(Same, t.head), Middle(t.oldMid, t.newMid), AllOf(Same, t.tail);
    AllOfFacts(Same, t.head);
    AllOfFacts(Same, t.tail);
    MiddleIsScript(t.oldMid, t.newMid);
    TrimmedJoins(a, b);
    OpsConcat(head, middle);
    OpsConcat(head + middle, tail);
  }

  // ---- no script is shorter -----------------------------------------------------------------

  lemma {:induction false} LcsIsLength(a: seq<Line>, b: seq<Line>)
    ensures IsLcsLength(Lcs(a, b), a, b)
    ensures forall n: nat | IsLcsLength(n, a, b) :: n == Lcs(a, b)
  {
    TraceIsOptimal(a, b);
    KeptIsCommon(Trace(a, b));
    var kept := KeptLines(Trace(a, b));
    assert Common(kept, a, b);
    forall c | Common(c, a, b) ensures |c| <= Lcs(a, b) {
      LcsIsUpperBound(c, a, b);
    }
  }

  lemma {:induction false} LcsOfPrefixed(x: seq<Line>, a: seq<Line>, b: seq<Line>)
    ensures Lcs(x + a, x + b) == |x| + Lcs(a, b)
  {
    if x == [] {
      assert x + a == a && x + b == b;
    } else {
      LcsOfPrefixed(x[1..], a, b);
      assert (x + a)[1..] == x[1..] + a && (x + b)[1..] == x[1..] + b;
    }
  }

  lemma {:induction false} LcsOfLast(a: seq<Line>, b: seq<Line>, z: Line)
    ensures Lcs(a + [z], b + [z]) == Lcs(a, b) + 1
  {
    LcsIsLength(a, b);
    LcsIsLength(a + [z], b + [z]);
    var c :| Common(c, a, b) && |c| == Lcs(a, b);
    SubseqSnoc(c, a, z);
    SubseqSnoc(c, b, z);
    assert Common(c + [z], a + [z], b + [z]);
    var d :| Common(d, a + [z], b + [z]) && |d| == Lcs(a + [z], b + [z]);
    if d != [] {
      SubseqDropLast(d, a + [z]);
      SubseqDropLast(d, b + [z]);
      assert (a + [z])[..|a|] == a && (b + [z])[..|b|] == b;
      assert Common(d[..|d| - 1], a, b);
    }
  }

  lemma {:induction false} LcsOfSuffixed(a: seq<Line>, b: seq<Line>, z: seq<Line>)
    ensures Lcs(a + z, b + z) == Lcs(a, b) + |z|
  {
    if z == [] {
      assert a + z == a && b + z == b;
    } else {
      var last := z[|z| - 1];
      LcsOfSuffixed(a, b, z[..|z| - 1]);
      LcsOfLast(a + z[..|z| - 1], b + z[..|z| - 1], last);
      assert a + z == (a + z[..|z| - 1]) + [last] && b + z == (b + z[..|z| - 1]) + [last];
    }
  }

  lemma {:induction false} LcsOfTrimmed(a: seq<Line>, b: seq<Line>)
    ensures var t := Trimmed(a, b);
      Lcs(a, b) == |t.head| + Lcs(t.oldMid, t.newMid) + |t.tail|
  {
    var t := Trimmed(a, b);
    TrimmedJoins(a, b);
    LcsOfPrefixed(t.head, t.oldMid, t.newMid);
    LcsOfSuffixed(t.head + t.oldMid, t.head + t.newMid, t.tail);
  }

  lemma {:induction false} SingleIsSubseq(z: Line, s: seq<Line>)
    ensures Subseq([z], s) <==> z in s
  {
    if s != [] && !(z == s[0] && Subseq([z][1..], s[1..])) {
      SingleIsSubseq(z, s[1..]);
    }
  }

  lemma {:induction false} LcsIsZero(a: seq<Line>, b: seq<Line>)
    ensures Lcs(a, b) == 0 <==> forall z | z in a :: z !in b
  {
    LcsIsLength(a, b);
    forall z | z in a && z in b ensures Lcs(a, b) > 0 {
      SingleIsSubseq(z, a);
      SingleIsSubseq(z, b);
      assert Common([z], a, b);
    }
    if Lcs(a, b) > 0 {
      var c :| Common(c, a, b) && |c| == Lcs(a, b);
      FirstOfSubseq(c, a);
      FirstOfSubseq(c, b);
    }
  }

  lemma {:induction false} FirstOfSubseq(c: seq<Line>, s: seq<Line>)
    requires c != [] && Subseq(c, s)
    ensures c[0] in s
  {
    if c[0] != s[0] {
      FirstOfSubseq(c, s[1..]);
    }
  }

  /**
   The lines kept are a longest common subsequence of the whole files, exactly when the middle fits
   the table or its two sides share no line.
   */
  lemma {:induction false} KeepsLongestCommonSubsequence(a: seq<Line>, b: seq<Line>)
    ensures IsLcsLength(|KeptLines(Diffed(a, b))|, a, b) <==>
      (MiddleFits(a, b) || forall z | z in Trimmed(a, b).oldMid :: z !in Trimmed(a, b).newMid)
  {
    KeptLength(a, b);
    LcsIsLength(a, b);
    LcsIsZero(Trimmed(a, b).oldMid, Trimmed(a, b).newMid);
  }

  lemma {:induction false} KeptLength(a: seq<Line>, b: seq<Line>)
    ensures |KeptLines(Diffed(a, b))| == Lcs(a, b) <==>
      (MiddleFits(a, b) || Lcs(Trimmed(a, b).oldMid, Trimmed(a, b).newMid) == 0)
  {
    DiffedIsScript(a, b);
    LcsOfTrimmed(a, b);
  }

  /** When the middle fits, no other edit script between the two files is shorter. */
  lemma {:induction false} NoShorterScript(a: seq<Line>, b: seq<Line>, other: seq<Op>)
    requires MiddleFits(a, b) && Script(other, a, b)
    ensures |Diffed(a, b)| <= |other|
  {
    DiffedIsScript(a, b);
    LcsOfTrimmed(a, b);
    KeptIsCommon(Diffed(a, b));
    KeptIsCommon(other);
    LcsIsUpperBound(KeptLines(other), a, b);
  }
}
