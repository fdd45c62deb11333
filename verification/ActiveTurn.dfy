/**
 Mid-loop compression: the oldest work groups of the running turn are folded into one
 transient checkpoint; a suffix of recent groups stays verbatim.
 */
module ActiveTurnCompression {
  import opened Payload
  import opened Groups
  import opened Indexed
  import opened Truncate
  import opened Compress
  import opened TurnStartCompression

  // ---- the plan: which groups go, which suffix is protected -----------------------

  /** First entry of the turn's work: after the user message and a checkpoint next to it. */
  function WorkStart(view: seq<Entry>): nat {
    if CheckpointIndex(view) >= 0 then CheckpointIndex(view) + 1 else LatestUser(view) + 1
  }

  function Work(view: seq<Entry>): seq<Entry>
    ensures WorkStart(view) <= |view|
  {
    view[WorkStart(view)..]
  }

  /** The persisted part of a turn has no reminders and no stray checkpoints in it. */
  predicate NoSyntheticWork(view: seq<Entry>) {
    forall e | e in Work(view) :: !e.synthetic
  }

  function SumOf(ns: seq<nat>): nat {
    if ns == [] then 0 else ns[0] + SumOf(ns[1..])
  }

  function GroupTokens(c: Counter, work: seq<Entry>, groups: seq<Group>): seq<nat>
    requires forall g | g in groups :: g.start <= g.end <= |work|
  {
    seq(|groups|, i requires 0 <= i < |groups| => RangeTokens(c, work[groups[i].start..groups[i].end]))
  }

  /** The longest start index whose suffix holds the required tokens, scanning from the end. */
  function ProtectedFrom(tokens: seq<nat>, required: int, p: nat): (first: nat)
    requires p <= |tokens|
    ensures first <= p
    decreases p
  {
    if p == 0 || SumOf(tokens[p..]) >= required then p else ProtectedFrom(tokens, required, p - 1)
  }

  /** How many groups are dropped: until the rest meets the limit, never a protected one. */
  function DropCount(tokens: seq<nat>, limit: int, protectedGroup: nat, k: nat, retained: int): (n: nat)
    requires k <= |tokens|
    ensures k <= n <= |tokens| && (n <= protectedGroup || n == k)
    decreases |tokens| - k
  {
    if k == |tokens| || retained <= limit || k >= protectedGroup then k
    else DropCount(tokens, limit, protectedGroup, k + 1, retained - tokens[k])
  }

  /** A group may be folded when the groups after it still hold the required tail. */
  predicate Spare(tokens: seq<nat>, required: int, i: nat)
    requires i < |tokens|
  {
    SumOf(tokens[i + 1..]) >= required
  }

  /** The groups before p are those that may be folded. */
  ghost predicate Protects(tokens: seq<nat>, required: int, p: nat) {
    p <= |tokens| && forall i: nat | i < |tokens| :: i < p <==> Spare(tokens, required, i)
  }

  /** What is left of a total when the first k groups are dropped. */
  function Left(tokens: seq<nat>, total: nat, k: nat): int
    requires k <= |tokens|
  {
    total - SumOf(tokens[..k])
  }

  /** n is the least number of groups, none of them protected, whose removal meets the limit. */
  ghost predicate FewestDropped(tokens: seq<nat>, total: nat, limit: int, protectedGroup: nat, n: nat) {
    && n <= |tokens|
    && (forall j: nat | j < n :: Left(tokens, total, j) > limit && j < protectedGroup)
    && (n == |tokens| || Left(tokens, total, n) <= limit || n >= protectedGroup)
  }

  lemma {:induction false} SumSnoc(tokens: seq<nat>, k: nat)
    requires k < |tokens|
    ensures SumOf(tokens[..k + 1]) == SumOf(tokens[..k]) + tokens[k]
  {
    if k == 0 {
      assert tokens[..1] == [tokens[0]] && [tokens[0]][1..] == [];
    } else {
      SumSnoc(tokens[1..], k - 1);
      assert tokens[..k + 1][1..] == tokens[1..][..k] && tokens[..k][1..] == tokens[1..][..k - 1];
    }
  }

  lemma {:induction false} DropCountStops(tokens: seq<nat>, total: nat, limit: int, protectedGroup: nat, k: nat)
    requires k <= |tokens|
    requires forall j: nat | j < k :: Left(tokens, total, j) > limit && j < protectedGroup
    ensures FewestDropped(tokens, total, limit, protectedGroup,
                          DropCount(tokens, limit, protectedGroup, k, Left(tokens, total, k)))
    decreases |tokens| - k
  {
    hide SumOf;
    if k < |tokens| && Left(tokens, total, k) > limit && k < protectedGroup {
      SumSnoc(tokens, k);
      DropCountStops(tokens, total, limit, protectedGroup, k + 1);
    } else {
      DropStopsAt(tokens, total, limit, protectedGroup, k);
    }
  }

  lemma {:induction false} DropStopsAt(tokens: seq<nat>, total: nat, limit: int, protectedGroup: nat, k: nat)
    requires k <= |tokens|
    requires forall j: nat | j < k :: Left(tokens, total, j) > limit && j < protectedGroup
    requires k == |tokens| || Left(tokens, total, k) <= limit || k >= protectedGroup
    ensures FewestDropped(tokens, total, limit, protectedGroup, k)
    ensures DropCount(tokens, limit, protectedGroup, k, Left(tokens, total, k)) == k
  {
    hide Left;
  }

  lemma {:induction false} ProtectedIsLast(tokens: seq<nat>, required: int, p: nat)
    requires required > 0 && p < |tokens|
    requires forall i: nat | p <= i < |tokens| :: !Spare(tokens, required, i)
    ensures Protects(tokens, required, ProtectedFrom(tokens, required, p))
    decreases p
  {
    if p == 0 {
    } else if SumOf(tokens[p..]) >= required {
      forall i: nat | i < p
        ensures Spare(tokens, required, i)
      {
        SumSuffixMonotone(tokens, i + 1, p);
      }
    } else {
      ProtectedIsLast(tokens, required, p - 1);
    }
  }

  lemma {:induction false} ProtectedGroupIs(tokens: seq<nat>, required: int)
    ensures Protects(tokens, required,
      if required <= 0 then |tokens| else ProtectedFrom(tokens, required, |tokens| - (if tokens == [] then 0 else 1)))
  {
    if required > 0 && tokens != [] {
      ProtectedIsLast(tokens, required, |tokens| - 1);
    }
  }

  lemma {:induction false} ProtectedIsEnough(tokens: seq<nat>, required: int, p: nat)
    requires p <= |tokens| && required <= SumOf(tokens)
    ensures SumOf(tokens[ProtectedFrom(tokens, required, p)..]) >= required
    decreases p
  {
    assert tokens[0..] == tokens;
    if p > 0 && SumOf(tokens[p..]) < required {
      ProtectedIsEnough(tokens, required, p - 1);
    }
  }

  lemma {:induction false} SumSuffixMonotone(tokens: seq<nat>, j: nat, k: nat)
    requires j <= k <= |tokens|
    ensures SumOf(tokens[j..]) >= SumOf(tokens[k..])
    decreases k - j
  {
    if j < k {
      assert tokens[j..][1..] == tokens[j + 1..];
      SumSuffixMonotone(tokens, j + 1, k);
    }
  }

  /** The tokens of the groups from k on are the tokens of the entries from there on. */
  lemma {:induction false} GroupTokensCoverWork(c: Counter, work: seq<Entry>, groups: seq<Group>, k: nat)
    requires Chained(groups, 0, |work|) && k <= |groups|
    requires forall g | g in groups :: g.start <= g.end <= |work|
    ensures BoundaryAfter(groups, k) <= |work|
    ensures SumOf(GroupTokens(c, work, groups)[k..]) == RangeTokens(c, work[BoundaryAfter(groups, k)..])
    decreases |groups| - k
  {
    var tokens := GroupTokens(c, work, groups);
    if k < |groups| {
      GroupFollows(groups, |work|, k);
      GroupTokensCoverWork(c, work, groups, k + 1);
      assert tokens[k..][1..] == tokens[k + 1..];
      RangeSplit(c, work, groups[k].start, groups[k].end);
    } else {
      ChainedAt(groups, 0, |work|);
      assert work[|work|..] == [];
    }
  }

  lemma {:induction false} RangeSplit(c: Counter, work: seq<Entry>, b: nat, e: nat)
    requires b <= e <= |work|
    ensures RangeTokens(c, work[b..]) == RangeTokens(c, work[b..e]) + RangeTokens(c, work[e..])
  {
    assert work[b..] == work[b..e] + work[e..];
    StripConcat(work[b..e], work[e..]);
    SumConcat(c, Strip(work[b..e]), Strip(work[e..]));
  }

  function RequiredTail(s: Settings, c: Counter, view: seq<Entry>): int {
    ActiveTurnRequiredRecentTail(s, RangeTokens(c, Work(view)))
  }

  function WorkGroups(view: seq<Entry>): seq<Group> {
    GroupsOf(ToRaw(Work(view)))
  }

  lemma {:induction false} WorkGroupsInBounds(view: seq<Entry>)
    ensures forall g | g in WorkGroups(view) :: g.start <= g.end <= |Work(view)|
  {
    GroupFacts(ToRaw(Work(view)));
    RawNonEmpty(Work(view));
  }

  function WorkTokens(c: Counter, view: seq<Entry>): (tokens: seq<nat>)
    ensures |tokens| == |WorkGroups(view)|
  {
    WorkGroupsInBounds(view);
    GroupTokens(c, Work(view), WorkGroups(view))
  }

  function FixedTokens(c: Counter, view: seq<Entry>): nat {
    Tokens(c, ToRaw(view[..LatestUser(view) + 1]))
  }

  function ProtectedGroup(s: Settings, c: Counter, view: seq<Entry>): nat {
    var tokens, required := WorkTokens(c, view), RequiredTail(s, c, view);
    if required <= 0 then |tokens| else ProtectedFrom(tokens, required, |tokens| - (if tokens == [] then 0 else 1))
  }

  /** The number of work groups that the checkpoint replaces. */
  function Folded(s: Settings, c: Counter, view: seq<Entry>): (n: nat)
    ensures n <= |WorkGroups(view)|
  {
    DropCount(WorkTokens(c, view), RecentLimit(s, FixedTokens(c, view)), ProtectedGroup(s, c, view), 0,
              RangeTokens(c, Work(view)))
  }

  /** End of the folded batch, as an index into the view. */
  function BatchEnd(s: Settings, c: Counter, view: seq<Entry>): (end: nat)
    ensures WorkStart(view) <= end <= |view|
  {
    WorkGroupsInBounds(view);
    WorkStart(view) + BoundaryAfter(WorkGroups(view), Folded(s, c, view))
  }

  lemma {:induction false} NothingDropped(tokens: seq<nat>)
    ensures SumOf(tokens[..0]) == 0
  {
  }

  /** The fold that stops at the limit: as few groups as meet it, and no protected one. */
  ghost predicate LeastFold(s: Settings, c: Counter, view: seq<Entry>, end: nat) {
    var tokens, groups := WorkTokens(c, view), WorkGroups(view);
    exists p: nat, n: nat ::
      && Protects(tokens, RequiredTail(s, c, view), p)
      && FewestDropped(tokens, RangeTokens(c, Work(view)), RecentLimit(s, FixedTokens(c, view)), p, n)
      && end == WorkStart(view) + BoundaryAfter(groups, n)
  }

  lemma {:induction false} BatchEndIsLeast(s: Settings, c: Counter, view: seq<Entry>)
    ensures LeastFold(s, c, view, BatchEnd(s, c, view))
  {
    hide FewestDropped, Protects, RecentLimit, ActiveTurnRequiredRecentTail, SumOf, GroupTokens, FixedTokens;
    var tokens := WorkTokens(c, view);
    NothingDropped(tokens);
    ProtectedGroupIs(tokens, RequiredTail(s, c, view));
    DropCountStops(tokens, RangeTokens(c, Work(view)), RecentLimit(s, FixedTokens(c, view)), ProtectedGroup(s, c, view), 0);
  }

  // ---- what a checkpoint keeps -------------------------------------------------------

  function CheckpointEntry(summary: string): Entry {
    Entry(0, true, ActiveTurnSummary, Message(User, summary, [], ""))
  }

  /** The summarizer's input: the request, a prior checkpoint relabelled, and the folded work. */
  function BatchMessage(e: Entry): Message {
    if e.kind.ActiveTurnSummary? then
      e.msg.(role := User, content := "Prior active-turn checkpoint:\n" + e.msg.content)
    else e.msg
  }

  function ActiveBatch(env: Env, view: seq<Entry>, end: nat): seq<Message>
    requires 0 <= LatestUser(view) < end <= |view|
  {
    var u := LatestUser(view);
    Prepared(env.prepareActive, [view[u].msg] + seq(end - u - 1, i requires 0 <= i < end - u - 1 => BatchMessage(view[u + 1 + i])))
  }

  function FoldedView(view: seq<Entry>, end: nat, summary: string): seq<Entry>
    requires 0 <= LatestUser(view) < end <= |view|
  {
    view[..LatestUser(view) + 1] + [CheckpointEntry(summary)] + view[end..]
  }

  /** What a successful mid-loop compression of a view that counted `before` returns. */
  ghost predicate Checkpointed(s: Settings, c: Counter, env: Env, view: seq<Entry>, before: nat, r: Result,
                               summary: string, retry: bool) {
    var u, end := LatestUser(view), BatchEnd(s, c, view);
    && u >= 0 && WorkStart(view) < end && r.compressedCount == end - u - 1
    && summary != "" && env.summarize(ActiveBatch(env, view, end), retry) == Text(summary)
    && r.view == FoldedView(view, end, summary)
    && r.afterTokens == Tokens(c, ToRaw(r.view)) < before
    && r.recentTail == RawTailTokens(c, r.view) >= RequiredTail(s, c, view)
  }

  /** What the summarizer reads: the request, then every folded entry, an earlier checkpoint announced as one. */
  ghost predicate SummarizerSees(env: Env, view: seq<Entry>, end: nat, batch: seq<Message>) {
    var u := LatestUser(view);
    && 0 <= u < end <= |view| && |batch| == end - u
    && batch[0] == env.prepareActive(view[u].msg)
    && forall k | 0 < k < |batch| ::
         var e := view[u + k];
         batch[k] == env.prepareActive(
           if e.kind.ActiveTurnSummary?
           then Message(User, "Prior active-turn checkpoint:\n" + e.msg.content, e.msg.calls, e.msg.toolCallId)
           else e.msg)
  }

  /** A checkpoint stands for the request's oldest work and nothing else; the summarizer saw all of it. */
  ghost predicate FoldsOldWork(s: Settings, c: Counter, env: Env, view: seq<Entry>, r: Result) {
    exists end: nat, batch, retry: bool, summary ::
      && LeastFold(s, c, view, end) && SummarizerSees(env, view, end, batch)
      && env.summarize(batch, retry) == Text(summary) && summary != ""
      && r.view == FoldedView(view, end, summary)
  }

  lemma {:induction false} CheckpointedFolds(s: Settings, c: Counter, env: Env, view: seq<Entry>, before: nat,
                                             r: Result, summary: string, retry: bool)
    requires Checkpointed(s, c, env, view, before, r, summary, retry)
    ensures FoldsOldWork(s, c, env, view, r)
  {
    hide LeastFold, BatchEnd, FoldedView, SummarizerSees;
    BatchEndIsLeast(s, c, view);
    BatchIsSeen(env, view, BatchEnd(s, c, view));
  }

  lemma {:induction false} BatchIsSeen(env: Env, view: seq<Entry>, end: nat)
    requires 0 <= LatestUser(view) < end <= |view|
    ensures SummarizerSees(env, view, end, ActiveBatch(env, view, end))
  {
    hide LatestUser;
    var u, batch := LatestUser(view), ActiveBatch(env, view, end);
    forall k | 0 < k < |batch|
      ensures batch[k] == env.prepareActive(BatchMessage(view[u + k]))
    {
    }
  }

  lemma {:induction false} RawWorkConcat(a: seq<Entry>, b: seq<Entry>)
    ensures RawWork(a + b) == RawWork(a) + RawWork(b)
  {
    if b == [] {
      assert a + b == a;
    } else {
      assert (a + b)[..|a + b| - 1] == a + b[..|b| - 1];
      RawWorkConcat(a, b[..|b| - 1]);
    }
  }

  lemma {:induction false} RawWorkAll(view: seq<Entry>)
    requires forall e | e in view :: !e.synthetic
    ensures RawWork(view) == view
  {
    if view != [] {
      var init, last := view[..|view| - 1], view[|view| - 1];
      RawWorkAll(init);
      assert last in view && view == init + [last];
    }
  }

  /** Folding keeps the same latest user message, and its raw tail is the kept suffix's. */
  lemma {:induction false} FoldedTail(c: Counter, view: seq<Entry>, end: nat, summary: string)
    requires 0 <= LatestUser(view) < end <= |view|
    ensures LatestUser(FoldedView(view, end, summary)) == LatestUser(view)
    ensures RawTailTokens(c, FoldedView(view, end, summary)) == RangeTokens(c, RawWork(view[end..]))
  {
    var u, tail := LatestUser(view), view[end..];
    var folded := FoldedView(view, end, summary);
    LatestUserIsLast(view);
    forall k | u < k < |folded|
      ensures !PersistedUser(folded[k])
    {
      if k > u + 1 {
        assert folded[k] == view[end + k - u - 2];
      }
    }
    LatestUserUnique(folded, u);
    assert folded[u + 1..] == [CheckpointEntry(summary)] + tail;
    SyntheticFirst(CheckpointEntry(summary), tail);
  }

  lemma {:induction false} SyntheticFirst(e: Entry, tail: seq<Entry>)
    requires e.synthetic
    ensures RawWork([e] + tail) == RawWork(tail)
  {
    RawWorkConcat([e], tail);
    assert RawWork([e][..0]) == [];
    assert RawWork([e]) == [];
  }

  lemma {:induction false} WorkCheckpointFree(view: seq<Entry>)
    requires WellKinded(view) && NoSyntheticWork(view)
    ensures CheckpointFree(Work(view)) && Chained(WorkGroups(view), 0, |Work(view)|)
  {
    assert forall e | e in Work(view) :: e in view;
    RawOfCheckpointFree(Work(view));
    GroupFacts(ToRaw(Work(view)));
  }

  /** Without synthetic work, the kept suffix holds exactly the tokens of the kept groups. */
  lemma {:induction false} KeptSuffixTokens(s: Settings, c: Counter, view: seq<Entry>)
    requires WellKinded(view) && NoSyntheticWork(view)
    ensures RangeTokens(c, RawWork(view[BatchEnd(s, c, view)..])) == SumOf(WorkTokens(c, view)[Folded(s, c, view)..])
    ensures RangeTokens(c, Work(view)) == SumOf(WorkTokens(c, view))
  {
    var work, groups, n := Work(view), WorkGroups(view), Folded(s, c, view);
    WorkCheckpointFree(view);
    WorkGroupsInBounds(view);
    GroupTokensCoverWork(c, work, groups, n);
    GroupTokensCoverWork(c, work, groups, 0);
    assert WorkTokens(c, view)[0..] == WorkTokens(c, view) && work[0..] == work;
    assert view[BatchEnd(s, c, view)..] == work[BoundaryAfter(groups, n)..];
    RawWorkAll(view[BatchEnd(s, c, view)..]);
  }

  lemma {:induction false} KeptGroupsReachFloor(s: Settings, c: Counter, view: seq<Entry>)
    requires RangeTokens(c, Work(view)) == SumOf(WorkTokens(c, view)) && Folded(s, c, view) > 0
    ensures SumOf(WorkTokens(c, view)[Folded(s, c, view)..]) >= RequiredTail(s, c, view)
  {
    hide GroupTokens, WorkGroups, ActiveTurnRequiredRecentTail, RecentLimit, FixedTokens;
    var tokens, required := WorkTokens(c, view), RequiredTail(s, c, view);
    if required > 0 {
      ProtectedIsEnough(tokens, required, |tokens| - 1);
      hide SumOf;
      SumSuffixMonotone(tokens, Folded(s, c, view), ProtectedGroup(s, c, view));
    }
  }

  /** The protected suffix alone guarantees the raw tail: the later floor check cannot fail. */
  lemma {:induction false} FloorIsGuaranteed(s: Settings, c: Counter, view: seq<Entry>, summary: string)
    requires WellKinded(view) && NoSyntheticWork(view)
    requires LatestUser(view) >= 0 && BatchEnd(s, c, view) > WorkStart(view)
    ensures RawTailTokens(c, FoldedView(view, BatchEnd(s, c, view), summary)) >= RequiredTail(s, c, view)
  {
    KeptSuffixTokens(s, c, view);
    KeptGroupsReachFloor(s, c, view);
    FoldedTail(c, view, BatchEnd(s, c, view), summary);
  }

  // ---- the algorithm -------------------------------------------------------------------

  method MessageRangeTokens(c: Counter, view: seq<Entry>) returns (total: nat)
    ensures total == RangeTokens(c, view)
  {
    total := 0;
    for i := 0 to |view|
      invariant total == Sum(c, Strip(view)[..i])
    {
      assert Strip(view)[..i + 1][..i] == Strip(view)[..i];
      total := total + c.cost(view[i].msg);
    }
    assert Strip(view)[..|view|] == Strip(view);
  }

  method ActiveTurnRawTailTokens(c: Counter, view: seq<Entry>) returns (total: nat)
    ensures total == RawTailTokens(c, view)
  {
    var userIdx := LatestPersistedUserIndex(view);
    if userIdx < 0 {
      return 0;
    }
    ghost var tail := view[userIdx + 1..];
    total := 0;
    for i := userIdx + 1 to |view|
      invariant total == RangeTokens(c, RawWork(tail[..i - userIdx - 1]))
    {
      ghost var done := tail[..i - userIdx - 1];
      assert tail[..i - userIdx] == done + [view[i]];
      assert (done + [view[i]])[..|done|] == done;
      if !view[i].synthetic {
        assert Strip(RawWork(done) + [view[i]]) == Strip(RawWork(done)) + [view[i].msg];
        SumConcat(c, Strip(RawWork(done)), [view[i].msg]);
        assert Sum(c, [view[i].msg]) == Sum(c, [view[i].msg][..0]) + c.cost(view[i].msg);
        total := total + c.cost(view[i].msg);
      } else {
        assert RawWork(done + [view[i]]) == RawWork(done);
      }
    }
    assert tail[..|tail|] == tail;
  }

  method FindProtectedGroup(tokens: seq<nat>, required: int) returns (protectedGroup: nat)
    ensures protectedGroup ==
      if required <= 0 then |tokens| else ProtectedFrom(tokens, required, |tokens| - (if tokens == [] then 0 else 1))
    ensures Protects(tokens, required, protectedGroup)
  {
    ProtectedGroupIs(tokens, required);
    protectedGroup := |tokens|;
    if required > 0 {
      var protectedTokens, i := 0, |tokens| - 1;
      while i >= 0
        invariant -1 <= i < |tokens|
        invariant protectedTokens == SumOf(tokens[i + 1..])
        invariant i == |tokens| - 1 ==> protectedGroup == |tokens|
        invariant i < |tokens| - 1 ==> protectedGroup == i + 1 && protectedTokens < required
        invariant i >= 0 ==>
          ProtectedFrom(tokens, required, i) == ProtectedFrom(tokens, required, |tokens| - 1)
        invariant i == -1 && tokens != [] ==> 0 == ProtectedFrom(tokens, required, |tokens| - 1)
      {
        protectedGroup := i;
        assert tokens[i..][1..] == tokens[i + 1..];
        protectedTokens := protectedTokens + tokens[i];
        if protectedTokens >= required {
          break;
        }
        i := i - 1;
      }
    }
  }

  method FindBatchEnd(c: Counter, work: seq<Entry>, groups: seq<Group>, tokens: seq<nat>, limit: int, protectedGroup: nat)
    returns (end: nat)
    requires |tokens| == |groups|
    ensures end == BoundaryAfter(groups, DropCount(tokens, limit, protectedGroup, 0, RangeTokens(c, work)))
    ensures exists n ::
      FewestDropped(tokens, RangeTokens(c, work), limit, protectedGroup, n) && end == BoundaryAfter(groups, n)
  {
    DropCountStops(tokens, RangeTokens(c, work), limit, protectedGroup, 0);
    var total := MessageRangeTokens(c, work);
    var retained: int := total;
    end := 0;
    for i := 0 to |groups|
      invariant end == BoundaryAfter(groups, i)
      invariant DropCount(tokens, limit, protectedGroup, i, retained) ==
                DropCount(tokens, limit, protectedGroup, 0, total)
    {
      if retained <= limit {
        break;
      }
      if i >= protectedGroup {
        break;
      }
      retained := retained - tokens[i];
      end := groups[i].end;
    }
  }

  predicate HasNewWork(view: seq<Entry>, userIdx: int)
    requires 0 <= userIdx < |view|
  {
    exists i | userIdx < i < |view| :: !view[i].synthetic
  }

  /** The turn has work, but the recent tail protects all of it. */
  predicate NothingToFold(s: Settings, c: Counter, view: seq<Entry>) {
    && Valid(ToRaw(view)) && 0 <= LatestUser(view) < |view| - 1
    && HasNewWork(view, LatestUser(view)) && WorkGroups(view) != []
    && BatchEnd(s, c, view) == WorkStart(view)
  }

  /** Truncation alone meets the budget without going below the required raw tail. */
  predicate TruncationServes(s: Settings, c: Counter, view: seq<Entry>, required: int) {
    var out := Truncated(c, s.budget, view);
    Sendable(s, c, out) && (required > 0 ==> RawTailTokens(c, out) >= required)
  }

  /** All mid-loop exits share this promise. */
  ghost predicate MidLoopExit(s: Settings, c: Counter, env: Env, view: seq<Entry>, before: nat, r: Result) {
    && SafeOrFlagged(s, c, r)
    && r.outcome in {Compressed, Fallback, Error}
    && (r.outcome.Compressed? ==>
          !r.unsafePayload && exists summary, retry :: Checkpointed(s, c, env, view, before, r, summary, retry))
    && (!r.outcome.Compressed? ==> r.view == Truncated(c, s.budget, view) || (r.unsafePayload && r.view == view))
    && (WellKinded(view) && NoSyntheticWork(view) ==> !r.reason.RecentTailFloor?)
  }

  /** The fallback of this mode: truncate, but never below the required raw tail. */
  method MidLoopFallback(s: Settings, c: Counter, env: Env, view: seq<Entry>, before: nat, base: Result, required: int)
    returns (r: Result)
    requires base.outcome in {Fallback, Error}
    requires WellKinded(view) && NoSyntheticWork(view) ==> !base.reason.RecentTailFloor?
    ensures MidLoopExit(s, c, env, view, before, r) && !r.outcome.Compressed?
    ensures r.reason == base.reason
    ensures !r.unsafePayload ==> r.view == Truncated(c, s.budget, view) && RawTailTokens(c, r.view) >= required
    ensures r.outcome == if TruncationServes(s, c, view, required) then base.outcome else Error
  {
    r := FinalizeCompressionFallback(view, s, c, base);
    var tail := ActiveTurnRawTailTokens(c, r.view);
    r := r.(recentTail := tail);
    if required > 0 && tail < required {
      tail := ActiveTurnRawTailTokens(c, view);
      r := r.(view := view, afterTokens := before, outcome := Error, unsafePayload := true, recentTail := tail);
    }
  }

  /** A text that is there but shorter than the quality floor for the batch. */
  predicate TooShort(s: Settings, c: Counter, batch: seq<Message>, answer: Answer) {
    var minimum := MinimumUsefulActiveSummaryTokens(s, Tokens(c, batch));
    answer.Text? && minimum > 0 && SummaryContentTokens(c, answer.content) < minimum
  }

  predicate Usable(answer: Answer) { answer.Text? && answer.content != "" }

  /**
   Asks for a summary of the batch, once more exactly if the first one is implausibly short. The reply
   that decides is then the second one; a failed reply is an error, an unusable one a fallback.
   */
  method Summarize(s: Settings, c: Counter, env: Env, batch: seq<Message>)
    returns (answer: Answer, retry: bool, exit: Result)
    ensures retry <==> Usable(env.summarize(batch, false)) && TooShort(s, c, batch, env.summarize(batch, false))
    ensures var last := env.summarize(batch, retry);
      && (answer.Text? <==> Usable(last) && !(retry && TooShort(s, c, batch, last)))
      && (answer.Text? ==> answer == last)
      && (answer.Failed? ==>
            && exit.outcome == (if last.Failed? then Error else Fallback)
            && exit.reason == (if retry then SummaryTooShort else if last.Failed? then SummarizerError else EmptySummary))
    ensures exit.outcome in {Fallback, Error} && exit.reason in {SummarizerError, EmptySummary, SummaryTooShort}
  {
    var total := CountMessages(c, batch);
    var minimum := MinimumUsefulActiveSummaryTokens(s, total);
    answer, retry, exit := env.summarize(batch, false), false, Base(Error, false, SummarizerError);
    if answer.Failed? {
      return;
    }
    if answer.content == "" {
      return Failed, false, Base(Fallback, false, EmptySummary);
    }
    if minimum > 0 && SummaryContentTokens(c, answer.content) < minimum {
      answer, retry, exit := env.summarize(batch, true), true, Base(Error, false, SummaryTooShort);
      if answer.Text? && (answer.content == "" || SummaryContentTokens(c, answer.content) < minimum) {
        return Failed, true, Base(Fallback, false, SummaryTooShort);
      }
    }
  }

  /** The work region starts right after the latest user message or its checkpoint. */
  lemma {:induction false} WorkStartFacts(view: seq<Entry>)
    requires WellKinded(view) && LatestUser(view) >= 0
    ensures LatestUser(view) < WorkStart(view) <= |view| == |Strip(view)|
    ensures Strip(view)[LatestUser(view)].role.User? && Strip(view)[WorkStart(view) - 1].role.User?
    ensures Strip(Work(view)) == Strip(view)[WorkStart(view)..]
  {
    assert view[WorkStart(view) - 1] in view;
  }

  /** Folding whole work groups of a valid view leaves a valid view. */
  lemma {:induction false} CheckpointedViewIsValid(view: seq<Entry>, k: nat, end: nat, summary: string)
    requires WellKinded(view) && Valid(ToRaw(view)) && CheckpointFree(Work(view)) && LatestUser(view) >= 0
    requires k <= |WorkGroups(view)| && end == WorkStart(view) + BoundaryAfter(WorkGroups(view), k)
    ensures end <= |view| && Valid(ToRaw(FoldedView(view, end, summary)))
  {
    hide ToRaw, Run, CallIds, GroupsFrom, Strip, LatestUser, CheckpointIndex, FoldedView;
    var u, ws := LatestUser(view), WorkStart(view);
    WorkGroupsInBounds(view);
    WorkStartFacts(view);
    RawIsValid(view);
    RawOfCheckpointFree(Work(view));
    FoldIsValid(Strip(view), u, ws, end - ws, CheckpointEntry(summary).msg);
    FoldedShape(view, end, summary);
    RawIsValid(FoldedView(view, end, summary));
  }

  lemma {:induction false} FoldedShape(view: seq<Entry>, end: nat, summary: string)
    requires WellKinded(view) && 0 <= LatestUser(view) < end <= |view|
    ensures Strip(FoldedView(view, end, summary)) ==
      Strip(view)[..LatestUser(view) + 1] + [CheckpointEntry(summary).msg] + Strip(view)[end..]
    ensures WellKinded(FoldedView(view, end, summary))
  {
    var a := LatestUser(view) + 1;
    forall e | e in view[..a] + [CheckpointEntry(summary)] + view[end..]
      ensures e.kind.ActiveTurnSummary? ==> e.msg.role.User? && e.synthetic
    {
      assert e in view[..a] || e == CheckpointEntry(summary) || e in view[end..];
    }
  }

  lemma {:induction false} FoldIsValid(msgs: seq<Message>, u: nat, ws: nat, b: nat, m: Message)
    requires Valid(msgs) && u < ws <= |msgs| && msgs[u].role.User? && msgs[ws - 1].role.User? && m.role.User?
    requires IsBoundary(GroupsOf(msgs[ws..]), b)
    ensures ws + b <= |msgs| && Valid(msgs[..u + 1] + [m] + msgs[ws + b..])
  {
    hide Run, CallIds, GroupsFrom;
    UserEndsIdle(msgs, u);
    UserEndsIdle(msgs, ws - 1);
    assert msgs == msgs[..ws] + msgs[ws..];
    ValidCut(msgs[..ws], msgs[ws..]);
    BoundaryCutsValid(msgs[ws..], b);
    assert msgs[ws..][b..] == msgs[ws + b..];
    JoinAround(msgs, u + 1, ws + b, m);
  }

  lemma {:induction false} UserEndsIdle(msgs: seq<Message>, i: nat)
    requires Valid(msgs) && i < |msgs| && msgs[i].role.User?
    ensures Run(Idle, msgs[..i + 1]) == Idle
  {
    OneMore(msgs, i);
  }

  /** Replacing a middle part between two complete points by a user message keeps validity. */
  lemma {:induction false} JoinAround(msgs: seq<Message>, a: nat, b: nat, m: Message)
    requires Valid(msgs) && a <= b <= |msgs| && m.role.User?
    requires Run(Idle, msgs[..a]) == Idle && Run(Idle, msgs[b..]) == Idle
    ensures Valid(msgs[..a] + [m] + msgs[b..])
  {
    var head, middle, tail := msgs[..a], msgs[a..b], msgs[b..];
    assert msgs == head + (middle + tail);
    CallIdsConcat(head, middle + tail);
    CallIdsConcat(middle, tail);
    RunSnoc(Idle, head, m);
    RunConcat(Idle, head + [m], tail);
    CallIdsConcat(head + [m], tail);
    WithoutMiddle(CallIds(head), CallIds(middle), CallIds(tail));
    assert CallIds(head + [m]) == CallIds(head);
  }

  lemma {:induction false} WithoutMiddle(a: seq<CallId>, b: seq<CallId>, c: seq<CallId>)
    requires UsableIds(a + (b + c))
    ensures UsableIds(a + c)
  {
    var all := a + (b + c);
    assert forall i | 0 <= i < |a| :: all[i] == a[i];
    assert forall i | 0 <= i < |c| :: all[|a| + |b| + i] == c[i];
    assert forall i | 0 <= i < |a| :: (a + c)[i] == all[i];
    assert forall i | |a| <= i < |a| + |c| :: (a + c)[i] == all[i + |b|];
  }

  /** Checks the folded view; a rejection comes with the reason to fall back for. */
  method CheckFolded(s: Settings, c: Counter, folded: seq<Entry>, before: nat, required: int)
    returns (exit: Result, afterTokens: nat, tail: nat)
    ensures exit.outcome in {Compressed, Fallback, Error}
    ensures exit.outcome.Compressed? ==>
      && Sendable(s, c, folded) && afterTokens == Tokens(c, ToRaw(folded)) < before
      && tail == RawTailTokens(c, folded) >= required
    ensures !exit.outcome.Compressed? ==>
      exit.reason in {PayloadValidation, IneffectiveSummary, SummaryOverBudget, RecentTailFloor}
    ensures exit.reason.PayloadValidation? ==> !Valid(ToRaw(folded))
    ensures exit.reason.IneffectiveSummary? ==> Tokens(c, ToRaw(folded)) >= before
    ensures exit.reason.SummaryOverBudget? ==> Tokens(c, ToRaw(folded)) > s.budget
    ensures exit.reason.RecentTailFloor? ==> RawTailTokens(c, folded) < required
  {
    afterTokens, tail := 0, 0;
    var afterRaw := ToRawMessages(folded);
    var verdict := ValidateProviderPayload(afterRaw);
    if verdict.Unsafe? {
      return Base(Error, false, PayloadValidation), afterTokens, tail;
    }
    afterTokens := CountMessages(c, afterRaw);
    if afterTokens >= before {
      return Base(Fallback, false, IneffectiveSummary), afterTokens, tail;
    }
    if afterTokens > s.budget {
      return Base(Fallback, false, SummaryOverBudget), afterTokens, tail;
    }
    tail := ActiveTurnRawTailTokens(c, folded);
    if tail < required {
      return Base(Error, true, RecentTailFloor), afterTokens, tail;
    }
    // The source validates the same payload a second time here, which cannot fail.
    exit := Base(Compressed, false, NoReason);
  }

  lemma {:induction false} FoldedIsSound(s: Settings, c: Counter, view: seq<Entry>, summary: string)
    requires WellKinded(view) && LatestUser(view) >= 0 && BatchEnd(s, c, view) > WorkStart(view)
    ensures Valid(ToRaw(view)) && CheckpointFree(Work(view)) ==>
      Valid(ToRaw(FoldedView(view, BatchEnd(s, c, view), summary)))
    ensures NoSyntheticWork(view) ==>
      RawTailTokens(c, FoldedView(view, BatchEnd(s, c, view), summary)) >= RequiredTail(s, c, view)
  {
    if Valid(ToRaw(view)) && CheckpointFree(Work(view)) {
      CheckpointedViewIsValid(view, Folded(s, c, view), BatchEnd(s, c, view), summary);
    }
    if NoSyntheticWork(view) {
      FloorIsGuaranteed(s, c, view, summary);
    }
  }

  /** The accepting half: a summary has been obtained; use the folded view or fall back. */
  method Accept(s: Settings, c: Counter, env: Env, view: seq<Entry>, before: nat, end: nat, required: int,
                summary: string, retry: bool)
    returns (r: Result)
    requires LatestUser(view) >= 0 && WorkStart(view) < end == BatchEnd(s, c, view)
    requires required == RequiredTail(s, c, view)
    requires summary != "" && env.summarize(ActiveBatch(env, view, end), retry) == Text(summary)
    ensures MidLoopExit(s, c, env, view, before, r) && !r.reason.NoOldPrefixWithRecentTail?
    ensures WellKinded(view) && Valid(ToRaw(view)) && CheckpointFree(Work(view)) ==> !r.reason.PayloadValidation?
  {
    var userIdx := LatestPersistedUserIndex(view);
    var folded := view[..userIdx + 1] + [CheckpointEntry(summary)] + view[end..];
    assert folded == FoldedView(view, end, summary);
    var exit, afterTokens, tail := CheckFolded(s, c, folded, before, required);
    if exit.outcome.Compressed? {
      r := Result(folded, Compressed, false, NoReason, 0, end - userIdx - 1, afterTokens, tail);
      assert Checkpointed(s, c, env, view, before, r, summary, retry);
    } else {
      if WellKinded(view) {
        FoldedIsSound(s, c, view, summary);
      }
      r := MidLoopFallback(s, c, env, view, before, exit, required);
    }
  }

  method CountFixedTokens(c: Counter, view: seq<Entry>, userIdx: nat) returns (fixedTokens: nat)
    requires userIdx == LatestUser(view)
    ensures fixedTokens == FixedTokens(c, view)
  {
    var raw := ToRawMessages(view[..userIdx + 1]);
    fixedTokens := CountMessages(c, raw);
  }

  /** Chooses the batch to fold and the raw tail to keep. */
  method PlanFold(s: Settings, c: Counter, view: seq<Entry>, userIdx: nat, workStart: nat, groups: seq<Group>)
    returns (end: nat, required: int)
    requires userIdx == LatestUser(view) && workStart == WorkStart(view) && groups == WorkGroups(view)
    ensures end == BatchEnd(s, c, view) && required == RequiredTail(s, c, view)
  {
    hide FewestDropped, Protects;
    var fixedTokens := CountFixedTokens(c, view, userIdx);
    var work := view[workStart..];
    assert work == Work(view);
    var total := MessageRangeTokens(c, work);
    required := ActiveTurnRequiredRecentTail(s, total);
    WorkGroupsInBounds(view);
    var tokens := GroupTokens(c, work, groups);
    assert tokens == WorkTokens(c, view);
    var protectedGroup := FindProtectedGroup(tokens, required);
    end := FindBatchEnd(c, work, groups, tokens, RecentLimit(s, fixedTokens), protectedGroup);
    end := workStart + end;
  }

  method FoldOldGroups(s: Settings, c: Counter, env: Env, view: seq<Entry>, before: nat) returns (r: Result)
    requires LatestUser(view) >= 0
    ensures MidLoopExit(s, c, env, view, before, r)
    ensures WellKinded(view) && Valid(ToRaw(view)) && CheckpointFree(Work(view)) ==> !r.reason.PayloadValidation?
    ensures r.reason.NoOldPrefixWithRecentTail? <==>
      WorkGroups(view) != [] && BatchEnd(s, c, view) == WorkStart(view)
    ensures r.reason.NoOldPrefixWithRecentTail? ==>
      (r.outcome.Fallback? <==> TruncationServes(s, c, view, RequiredTail(s, c, view)))
  {
    var userIdx := LatestPersistedUserIndex(view);
    var workStart := userIdx + 1;
    if workStart < |view| && view[workStart].kind.ActiveTurnSummary? {
      workStart := workStart + 1;
    }
    assert workStart == WorkStart(view);
    var workRaw := ToRawMessages(view[workStart..]);
    var groups := GroupMessagesForCompression(workRaw);
    if |groups| == 0 {
      r := MidLoopFallback(s, c, env, view, before, Base(Fallback, false, NoCompleteWorkGroups), 0);
      return;
    }
    var end, required := PlanFold(s, c, view, userIdx, workStart, groups);
    if end == workStart {
      r := MidLoopFallback(s, c, env, view, before, Base(Fallback, false, NoOldPrefixWithRecentTail), required);
    } else if !env.resolves {
      r := MidLoopFallback(s, c, env, view, before, Base(Error, false, ResolveModelFailed), required);
    } else {
      var answer, retry, exit := Summarize(s, c, env, ActiveBatch(env, view, end));
      if answer.Failed? {
        r := MidLoopFallback(s, c, env, view, before, exit, required);
      } else {
        r := Accept(s, c, env, view, before, end, required, answer.content, retry);
      }
    }
  }

  method CompressActiveTurn(s: Settings, c: Counter, env: Env, view: seq<Entry>, before: nat) returns (r: Result)
    ensures MidLoopExit(s, c, env, view, before, r)
    ensures r.outcome.Compressed? ==> FoldsOldWork(s, c, env, view, r)
    ensures WellKinded(view) && Valid(ToRaw(view)) && CheckpointFree(Work(view)) ==> !r.reason.PayloadValidation?
    ensures r.reason.NoOldPrefixWithRecentTail? <==> NothingToFold(s, c, view)
    ensures NothingToFold(s, c, view) ==>
      (r.outcome.Fallback? <==> TruncationServes(s, c, view, RequiredTail(s, c, view)))
  {
    var raw := ToRawMessages(view);
    var verdict := ValidateProviderPayload(raw);
    if verdict.Unsafe? {
      r := MidLoopFallback(s, c, env, view, before, Base(Error, false, InvalidPayload), 0);
      return;
    }
    var userIdx := LatestPersistedUserIndex(view);
    if userIdx < 0 || userIdx + 1 >= |view| {
      r := MidLoopFallback(s, c, env, view, before, Base(Fallback, false, NoCompleteActiveGroups), 0);
      return;
    }
    if !HasNewWork(view, userIdx) {
      r := MidLoopFallback(s, c, env, view, before, Base(Fallback, false, NoNewCompleteGroups), 0);
      return;
    }
    r := FoldOldGroups(s, c, env, view, before);
    if r.outcome.Compressed? {
      MidLoopFolds(s, c, env, view, before, r);
    }
  }

  lemma {:induction false} MidLoopFolds(s: Settings, c: Counter, env: Env, view: seq<Entry>, before: nat, r: Result)
    requires MidLoopExit(s, c, env, view, before, r) && r.outcome.Compressed?
    ensures FoldsOldWork(s, c, env, view, r)
  {
    hide Checkpointed, FoldsOldWork;
    var summary, retry :| Checkpointed(s, c, env, view, before, r, summary, retry);
    CheckpointedFolds(s, c, env, view, before, r, summary, retry);
  }
}
