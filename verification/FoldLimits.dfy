/**
 How far mid-loop compression folds: what stays verbatim, in the view's own entries, and why the result fits
 the budget.
 */
module FoldLimits {
  import opened Payload
  import opened Groups
  import opened Indexed
  import opened Compress
  import opened ActiveTurnCompression

  // ---- the kept suffix -------------------------------------------------------------------

  /** The work from the boundary after k groups on. */
  lemma {:induction false} WorkFrom(c: Counter, view: seq<Entry>, k: nat)
    requires WellKinded(view) && NoSyntheticWork(view) && k <= |WorkGroups(view)|
    ensures BoundaryAfter(WorkGroups(view), k) <= |Work(view)|
    ensures RangeTokens(c, Work(view)[BoundaryAfter(WorkGroups(view), k)..]) == SumOf(WorkTokens(c, view)[k..])
    ensures Left(WorkTokens(c, view), RangeTokens(c, Work(view)), k) == SumOf(WorkTokens(c, view)[k..])
  {
    WorkCheckpointFree(view);
    WorkGroupsInBounds(view);
    GroupTokensCoverWork(c, Work(view), WorkGroups(view), k);
    GroupTokensCoverWork(c, Work(view), WorkGroups(view), 0);
    var tokens := WorkTokens(c, view);
    assert tokens[0..] == tokens && Work(view)[0..] == Work(view);
    SumSplit(tokens, k);
  }

  lemma {:induction false} SumSplit(tokens: seq<nat>, k: nat)
    requires k <= |tokens|
    ensures SumOf(tokens) == SumOf(tokens[..k]) + SumOf(tokens[k..])
  {
    if k == 0 {
      assert tokens[0..] == tokens;
    } else {
      SumSnoc(tokens, k - 1);
      SumSplit(tokens, k - 1);
      assert tokens[k - 1..][1..] == tokens[k..];
    }
  }

  /** Boundaries and group counts rise together. */
  lemma {:induction false} BoundaryIndex(view: seq<Entry>, b: int) returns (k: nat)
    requires WellKinded(view) && NoSyntheticWork(view) && IsBoundary(WorkGroups(view), b)
    ensures k <= |WorkGroups(view)| && b == BoundaryAfter(WorkGroups(view), k)
    ensures forall n: nat | n <= |WorkGroups(view)| :: n <= k <==> BoundaryAfter(WorkGroups(view), n) <= b
  {
    WorkCheckpointFree(view);
    var groups := WorkGroups(view);
    ChainedAt(groups, 0, |Work(view)|);
    hide NoSyntheticWork, WellKinded, CheckpointFree;
    k := 0;
    if b != 0 {
      var j :| 0 <= j < |groups| && groups[j].end == b;
      k := j + 1;
    }
    hide Chained, WorkGroups;
    forall n: nat | n <= |groups|
      ensures n <= k <==> BoundaryAfter(groups, n) <= b
    {
      BoundaryOrder(groups, n, k);
    }
  }

  lemma {:induction false} BoundaryOrder(groups: seq<Group>, n: nat, k: nat)
    requires n <= |groups| && k <= |groups|
    requires forall i | 0 <= i < |groups| :: 0 <= groups[i].start < groups[i].end
    requires forall i, j | 0 <= i < j < |groups| :: groups[i].end <= groups[j].start
    ensures n <= k <==> BoundaryAfter(groups, n) <= BoundaryAfter(groups, k)
  {
    if n < k && n > 0 {
      assert groups[n - 1].end <= groups[k - 1].start;
    } else if k < n && k > 0 {
      assert groups[k - 1].end <= groups[n - 1].start;
    }
  }

  /**
   From every earlier group boundary on, the work exceeds the limit. The kept work is within it, unless
   every later boundary leaves less than the required tail; in any case it holds that tail itself.
   */
  lemma {:induction false} KeptWorkIsRecent(s: Settings, c: Counter, view: seq<Entry>, end: nat)
    requires WellKinded(view) && NoSyntheticWork(view) && LeastFold(s, c, view, end)
    ensures var ws, limit, required := WorkStart(view), RecentLimit(s, FixedTokens(c, view)), RequiredTail(s, c, view);
      && ws <= end <= |view| && IsBoundary(WorkGroups(view), end - ws)
      && (forall b | IsBoundary(WorkGroups(view), b) && 0 <= b < end - ws :: RangeTokens(c, Work(view)[b..]) > limit)
      && (end < |view| && RangeTokens(c, view[end..]) > limit ==>
            forall b | IsBoundary(WorkGroups(view), b) && end - ws < b <= |Work(view)| ::
              RangeTokens(c, Work(view)[b..]) < required)
      && RangeTokens(c, view[end..]) >= required
  {
    var limit, required := RecentLimit(s, FixedTokens(c, view)), RequiredTail(s, c, view);
    var p: nat, n: nat :|
      && Protects(WorkTokens(c, view), required, p)
      && FewestDropped(WorkTokens(c, view), RangeTokens(c, Work(view)), limit, p, n)
      && end == WorkStart(view) + BoundaryAfter(WorkGroups(view), n);
    hide LeastFold, WorkGroups, GroupTokens, RecentLimit, FixedTokens, SumOf, Protects, FewestDropped, WorkStart, WorkTokens,
         ActiveTurnRequiredRecentTail, IsBoundary, RangeTokens;
    KeptBoundary(c, view, n, end);
    forall b | IsBoundary(WorkGroups(view), b) && 0 <= b < end - WorkStart(view)
      ensures RangeTokens(c, Work(view)[b..]) > limit
    {
      EarlierExceeds(c, view, limit, p, n, b);
    }
    KeptHoldsTail(c, view, limit, required, p, n);
    forall b | IsBoundary(WorkGroups(view), b) && end - WorkStart(view) < b <= |Work(view)|
      ensures end < |view| && RangeTokens(c, view[end..]) > limit ==> RangeTokens(c, Work(view)[b..]) < required
    {
      if end < |view| && RangeTokens(c, view[end..]) > limit {
        LaterIsTooLittle(c, view, limit, required, p, n, b);
      }
    }
  }

  /** The end of a fold as an index into the work. */
  lemma {:induction false} KeptBoundary(c: Counter, view: seq<Entry>, n: nat, end: nat)
    requires WellKinded(view) && NoSyntheticWork(view) && n <= |WorkGroups(view)|
    requires end == WorkStart(view) + BoundaryAfter(WorkGroups(view), n)
    ensures end <= |view| && Work(view)[end - WorkStart(view)..] == view[end..]
    ensures IsBoundary(WorkGroups(view), end - WorkStart(view))
    ensures RangeTokens(c, view[end..]) == SumOf(WorkTokens(c, view)[n..])
  {
    hide WorkGroups, GroupTokens, SumOf, WorkTokens;
    WorkFrom(c, view, n);
    assert |Work(view)| == |view| - WorkStart(view);
    assert Work(view)[end - WorkStart(view)..] == view[end..];
  }

  lemma {:induction false} EarlierExceeds(c: Counter, view: seq<Entry>, limit: int, p: nat, n: nat, b: int)
    requires WellKinded(view) && NoSyntheticWork(view)
    requires FewestDropped(WorkTokens(c, view), RangeTokens(c, Work(view)), limit, p, n)
    requires IsBoundary(WorkGroups(view), b) && 0 <= b < BoundaryAfter(WorkGroups(view), n)
    ensures b <= |Work(view)| && RangeTokens(c, Work(view)[b..]) > limit
  {
    hide WorkGroups, GroupTokens, SumOf, Work, IsBoundary, WorkTokens;
    var j := BoundaryIndex(view, b);
    WorkFrom(c, view, j);
  }

  lemma {:induction false} KeptHoldsTail(c: Counter, view: seq<Entry>, limit: int, required: int, p: nat, n: nat)
    requires WellKinded(view) && NoSyntheticWork(view) && required <= RangeTokens(c, Work(view))
    requires Protects(WorkTokens(c, view), required, p)
    requires FewestDropped(WorkTokens(c, view), RangeTokens(c, Work(view)), limit, p, n)
    ensures SumOf(WorkTokens(c, view)[n..]) >= required
  {
    hide WorkGroups, GroupTokens, SumOf, Work, WorkTokens;
    if n == 0 {
      WorkFrom(c, view, 0);
      NothingDropped(WorkTokens(c, view));
    } else {
      assert Left(WorkTokens(c, view), RangeTokens(c, Work(view)), n - 1) > limit;
      assert Spare(WorkTokens(c, view), required, n - 1);
    }
  }

  lemma {:induction false} LaterIsTooLittle(c: Counter, view: seq<Entry>, limit: int, required: int, p: nat, n: nat, b: int)
    requires WellKinded(view) && NoSyntheticWork(view)
    requires Protects(WorkTokens(c, view), required, p)
    requires FewestDropped(WorkTokens(c, view), RangeTokens(c, Work(view)), limit, p, n)
    requires BoundaryAfter(WorkGroups(view), n) < |Work(view)| && SumOf(WorkTokens(c, view)[n..]) > limit
    requires IsBoundary(WorkGroups(view), b) && BoundaryAfter(WorkGroups(view), n) < b
    ensures b <= |Work(view)| && RangeTokens(c, Work(view)[b..]) < required
  {
    hide WorkGroups, GroupTokens, SumOf, Work, IsBoundary, WorkTokens;
    LastBoundary(view, n);
    WorkFrom(c, view, n);
    assert !Spare(WorkTokens(c, view), required, n);
    var j := BoundaryIndex(view, b);
    WorkFrom(c, view, j);
    SumSuffixMonotone(WorkTokens(c, view), n + 1, j);
  }

  lemma {:induction false} LastBoundary(view: seq<Entry>, n: nat)
    requires WellKinded(view) && NoSyntheticWork(view) && n <= |WorkGroups(view)|
    ensures n == |WorkGroups(view)| ==> BoundaryAfter(WorkGroups(view), n) == |Work(view)|
  {
    WorkCheckpointFree(view);
    ChainedAt(WorkGroups(view), 0, |Work(view)|);
  }

  lemma {:induction false} NoBoundaryLost(view: seq<Entry>, n: nat)
    requires n <= |WorkGroups(view)|
    ensures BoundaryAfter(WorkGroups(view), n) == 0 <==> n == 0
  {
    GroupFacts(ToRaw(Work(view)));
    ChainedAt(WorkGroups(view), 0, |ToRaw(Work(view))|);
  }

  /**
   Nothing is folded exactly when the whole work is within the limit or what follows its first group is
   less than the required tail.
   */
  lemma {:induction false} NothingToFoldIff(s: Settings, c: Counter, view: seq<Entry>)
    ensures NothingToFold(s, c, view) <==>
      && Valid(ToRaw(view)) && 0 <= LatestUser(view) < |view| - 1
      && HasNewWork(view, LatestUser(view)) && WorkGroups(view) != []
      && (|| RangeTokens(c, Work(view)) <= RecentLimit(s, FixedTokens(c, view))
          || SumOf(WorkTokens(c, view)[1..]) < RequiredTail(s, c, view))
  {
    hide ToRaw, Run, WorkGroups, RecentLimit, ActiveTurnRequiredRecentTail, FixedTokens;
    if WorkGroups(view) != [] {
      ProtectedGroupIs(WorkTokens(c, view), RequiredTail(s, c, view));
      NoBoundaryLost(view, Folded(s, c, view));
      assert Spare(WorkTokens(c, view), RequiredTail(s, c, view), 0) <==> ProtectedGroup(s, c, view) > 0;
    }
  }

  // ---- why the result fits ------------------------------------------------------------------

  /**
   Room is left for what is fixed and for the summary: the limit is never more than the budget leaves, nor,
   beyond the target of the recent tail, more than the target budget leaves, and never less than that tail
   if the budget has room for it.
   */
  lemma {:induction false} LimitLeavesRoom(s: Settings, fixedTokens: nat)
    ensures var limit, reserve, tail := RecentLimit(s, fixedTokens), ActiveTurnSummaryReserve(s), ActiveTurnRecentTailTarget(s);
      && (limit > 0 ==> fixedTokens + reserve + limit <= s.budget)
      && (limit > 0 && limit > tail ==> fixedTokens + reserve + limit <= ActiveTurnTargetBudget(s))
      && (limit >= tail || limit >= s.budget - fixedTokens - reserve)
      && 0 <= reserve <= Max(ActiveTurnTargetBudget(s) / 4, 0)
  {
  }

  // ---- the payload of a folded view ------------------------------------------------------------

  /** After the request comes its work; the request's own text is followed by the delimited summary. */
  lemma {:induction false} FoldedPayload(view: seq<Entry>, end: nat, summary: string)
    requires WellKinded(view) && 0 <= LatestUser(view) < end <= |view| && CheckpointFree(view[end..])
    ensures var u := LatestUser(view); var request := view[u].msg;
      ToRaw(FoldedView(view, end, summary)) ==
        ToRaw(view[..u]) +
        [request.(content := request.content + (WRAPPER_HEAD + summary + WRAPPER_TAIL))] +
        Strip(view[end..])
  {
    var u := LatestUser(view);
    var request := view[u].msg;
    var head := view[..u + 1] + [CheckpointEntry(summary)];
    assert view[u] in view;
    assert view[..u + 1][..u] == view[..u];
    assert ToRaw(view[..u + 1]) == ToRaw(view[..u]) + [request];
    assert head[..u + 1] == view[..u + 1];
    assert ToRaw(head) == ToRaw(view[..u]) + [request.(content := request.content + (WRAPPER_HEAD + summary + WRAPPER_TAIL))];
    RawThenPlain(head, view[end..]);
  }

  lemma {:induction false} RawThenPlain(a: seq<Entry>, b: seq<Entry>)
    requires CheckpointFree(b)
    ensures ToRaw(a + b) == ToRaw(a) + Strip(b)
  {
    if b == [] {
      assert a + b == a;
    } else {
      var n := |b| - 1;
      assert (a + b)[..|a| + n] == a + b[..n];
      RawThenPlain(a, b[..n]);
      assert b[n] in b;
      assert Strip(b) == Strip(b[..n]) + [b[n].msg];
    }
  }
}
