/**
 Turn-start compression: the oldest history is replaced by one durable summary message.
 */
module TurnStartCompression {
  import opened Payload
  import opened Groups
  import opened Indexed
  import opened Truncate
  import opened Compress

  const BATCH_START := 1

  /** The least end of a batch starting at BATCH_START that brings the rest down to the target. */
  function ReachTarget(c: Counter, raw: seq<Message>, excess: int, i: nat): (end: nat)
    requires i >= BATCH_START
    ensures i <= end && (end == i || end <= |raw| - 1)
    decreases |raw| - i
  {
    if i >= |raw| - 1 then i
    else if excess - c.cost(raw[i]) <= 0 then i + 1
    else ReachTarget(c, raw, excess - c.cost(raw[i]), i + 1)
  }

  function BatchTarget(s: Settings, c: Counter, raw: seq<Message>): int {
    var total := Tokens(c, raw);
    if s.forced || total <= s.budget then |raw| - 1
    else ReachTarget(c, raw, total - ActiveTurnTargetBudget(s), BATCH_START)
  }

  /** No shorter non-empty batch reaches the target, and this one does unless history runs out. */
  lemma {:induction false} ReachTargetIsLeast(c: Counter, raw: seq<Message>, excess: int, i: nat)
    requires BATCH_START <= i <= |raw|
    ensures var end := ReachTarget(c, raw, excess, i);
      && end <= |raw|
      && (forall k | i < k < end :: excess - Sum(c, raw[i..k]) > 0)
      && (excess - Sum(c, raw[i..end]) <= 0 || end >= |raw| - 1)
    decreases |raw| - i
  {
    var end := ReachTarget(c, raw, excess, i);
    if i < |raw| - 1 {
      var rest := excess - c.cost(raw[i]);
      ReachTargetIsLeast(c, raw, rest, i + 1);
      forall k | i < k <= |raw|
        ensures Sum(c, raw[i..k]) == c.cost(raw[i]) + Sum(c, raw[i + 1..k])
      {
        assert raw[i..k] == [raw[i]] + raw[i + 1..k];
        SumConcat(c, [raw[i]], raw[i + 1..k]);
        assert Sum(c, [raw[i]]) == Sum(c, [raw[i]][..0]) + c.cost(raw[i]);
      }
      assert raw[i + 1..i + 1] == [];
    }
  }

  function SummaryEntry(summary: string): Entry {
    Entry(0, true, CompressionSummary,
          Message(User, "[Compressed context from earlier: " + summary + "]", [], ""))
  }

  function Prepared(prepare: Message -> Message, batch: seq<Message>): seq<Message> {
    seq(|batch|, i requires 0 <= i < |batch| => prepare(batch[i]))
  }

  /** Sequence number of the first persisted entry, or 0. */
  function FirstPersistedSeq(view: seq<Entry>): nat {
    if view == [] then 0
    else if !view[0].synthetic && view[0].seqNo > 0 then view[0].seqNo
    else FirstPersistedSeq(view[1..])
  }

  /** The batch that is summarized: the least whole groups reaching the target, below the last user message. */
  ghost predicate BatchEnds(s: Settings, c: Counter, raw: seq<Message>, end: nat) {
    && BATCH_START <= end <= |raw|
    && var history, reach := raw[BATCH_START..], Reach(raw[BATCH_START..], BatchTarget(s, c, raw) - BATCH_START);
      && IsBoundary(GroupsOf(history), end - BATCH_START) && end - BATCH_START >= reach
      && (forall b | IsBoundary(GroupsOf(history), b) && b >= reach :: end - BATCH_START <= b)
      && (LastUser(history) >= 0 ==> end - BATCH_START <= LastUser(history))
  }

  /** What a successful turn-start compression returns. */
  ghost predicate Summarized(s: Settings, c: Counter, env: Env, view: seq<Entry>, r: Result, summary: string) {
    var raw, end := ToRaw(view), r.compressedCount + BATCH_START;
    && r.compressedCount > 0 && end <= |view| && BatchEnds(s, c, raw, end)
    && summary != ""
    && env.summarize(Prepared(env.prepareStart, raw[BATCH_START..end]), false) == Text(summary)
    && r.view == [view[0], SummaryEntry(summary)] + view[end..]
    && r.firstKeptSeq == FirstPersistedSeq(view[end..])
    && r.afterTokens == Tokens(c, ToRaw(r.view)) < Tokens(c, raw)
  }

  /** There is a summary that a turn-start compression of this view would be content with. */
  ghost predicate CanSummarize(s: Settings, c: Counter, env: Env, view: seq<Entry>) {
    env.resolves && exists r, summary :: Summarized(s, c, env, view, r, summary) && Sendable(s, c, r.view)
  }

  /** The batch is unique, and with it the summary and the compressed view. */
  lemma {:induction false} SummaryIsUnique(s: Settings, c: Counter, env: Env, view: seq<Entry>, end: nat,
                                           r: Result, summary: string)
    requires BatchEnds(s, c, ToRaw(view), end) && Summarized(s, c, env, view, r, summary)
    ensures end == r.compressedCount + BATCH_START
    ensures env.summarize(Prepared(env.prepareStart, ToRaw(view)[BATCH_START..end]), false) == Text(summary)
    ensures r.view == [view[0], SummaryEntry(summary)] + view[end..]
  {
  }

  /** The summarizer reads exactly the messages between the first one and the kept suffix, each prepared. */
  lemma {:induction false} SummarizerReads(s: Settings, c: Counter, env: Env, view: seq<Entry>, r: Result, summary: string)
    requires Summarized(s, c, env, view, r, summary)
    ensures exists batch ::
      && env.summarize(batch, false) == Text(summary) && |batch| == r.compressedCount
      && forall k | 0 <= k < |batch| :: 1 + k < |ToRaw(view)| && batch[k] == env.prepareStart(ToRaw(view)[1 + k])
  {
    hide BatchEnds, ToRaw, Tokens, FirstPersistedSeq;
    var raw := ToRaw(view);
    var end := r.compressedCount + BATCH_START;
    assert end <= |raw| by { BatchInBounds(s, c, raw, end); }
    var batch := Prepared(env.prepareStart, raw[BATCH_START..end]);
    assert |batch| == r.compressedCount;
  }

  lemma {:induction false} BatchInBounds(s: Settings, c: Counter, raw: seq<Message>, end: nat)
    requires BatchEnds(s, c, raw, end)
    ensures BATCH_START <= end <= |raw|
  {
  }

  /** Without checkpoints raw and indexed positions agree, so the kept suffix is whole groups. */
  lemma {:induction false} SummarizedViewIsValid(s: Settings, c: Counter, view: seq<Entry>, end: nat, summary: string)
    requires CheckpointFree(view) && Valid(ToRaw(view)) && view != [] && !Opens(view[0].msg)
    requires BatchEnds(s, c, ToRaw(view), end)
    ensures end <= |view| && Valid(ToRaw([view[0], SummaryEntry(summary)] + view[end..]))
  {
    hide ToRaw, Run, CallIds, Reach, LastUser, BatchTarget, GroupsFrom;
    RawOfCheckpointFree(view);
    SuffixIsValid(Strip(view), end);
    StripFrom(view, end);
    assert view[0] in view;
    TwoEntriesFirst(view[0], SummaryEntry(summary), view[end..]);
  }

  lemma {:induction false} StripFrom(view: seq<Entry>, i: nat)
    requires i <= |view|
    ensures Strip(view[i..]) == Strip(view)[i..]
  {
  }

  lemma {:induction false} TwoEntriesFirst(a: Entry, b: Entry, rest: seq<Entry>)
    requires !a.kind.ActiveTurnSummary? && !b.kind.ActiveTurnSummary? && CheckpointFree(rest)
    requires !Opens(a.msg) && !Opens(b.msg) && !a.msg.role.Tool? && !b.msg.role.Tool?
    requires Valid(Strip(rest))
    ensures Valid(ToRaw([a, b] + rest))
  {
    TwoPlainFirst(a.msg, b.msg, Strip(rest));
    assert Strip([a, b] + rest) == [a.msg, b.msg] + Strip(rest);
    RawOfCheckpointFree([a, b] + rest);
  }

  lemma {:induction false} SuffixIsValid(msgs: seq<Message>, end: nat)
    requires Valid(msgs) && msgs != [] && !Opens(msgs[0]) && 1 <= end <= |msgs|
    requires IsBoundary(GroupsOf(msgs[1..]), end - 1)
    ensures !msgs[0].role.Tool? && Valid(msgs[end..])
  {
    var history := msgs[1..];
    assert msgs == [msgs[0]] + history;
    RunBroken(history);
    assert Run(Idle, [msgs[0]]) == Step(Idle, msgs[0]) by {
      assert Run(Step(Idle, msgs[0]), []) == Step(Idle, msgs[0]);
    }
    RunConcat(Idle, [msgs[0]], history);
    ValidCut([msgs[0]], history);
    BoundaryCutsValid(history, end - 1);
    assert msgs[end..] == history[end - 1..];
  }

  lemma {:induction false} TwoPlainFirst(a: Message, b: Message, rest: seq<Message>)
    requires Valid(rest) && !Opens(a) && !Opens(b) && !a.role.Tool? && !b.role.Tool?
    ensures Valid([a, b] + rest)
  {
    assert [a, b] + rest == [a] + ([b] + rest);
    assert ([a] + ([b] + rest))[1..] == [b] + rest;
    assert ([b] + rest)[1..] == rest;
    assert CallIds([b] + rest) == CallIds(rest);
    assert CallIds([a, b] + rest) == CallIds(rest);
  }

  method FindBatchTarget(s: Settings, c: Counter, raw: seq<Message>) returns (targetIndex: int)
    ensures targetIndex == BatchTarget(s, c, raw)
  {
    var total := CountMessages(c, raw);
    if s.forced || total <= s.budget {
      return |raw| - 1;
    }
    var target := ActiveTurnTargetBudget(s);
    targetIndex := BATCH_START;
    var batchTokens := 0;
    var i := BATCH_START;
    while i < |raw| - 1
      invariant targetIndex == i >= BATCH_START
      invariant ReachTarget(c, raw, total - batchTokens - target, i) == BatchTarget(s, c, raw)
    {
      batchTokens := batchTokens + c.cost(raw[i]);
      targetIndex := i + 1;
      if total - batchTokens <= target {
        break;
      }
      i := i + 1;
    }
  }

  method FindFirstKeptSeq(view: seq<Entry>) returns (first: nat)
    ensures first == FirstPersistedSeq(view)
  {
    for i := 0 to |view|
      invariant FirstPersistedSeq(view[i..]) == FirstPersistedSeq(view)
    {
      if !view[i].synthetic && view[i].seqNo > 0 {
        return view[i].seqNo;
      }
      assert view[i..][1..] == view[i + 1..];
    }
    first := 0;
  }

  method FindBatchEnd(s: Settings, c: Counter, raw: seq<Message>) returns (end: nat)
    requires |raw| > 0
    ensures BatchEnds(s, c, raw, end)
  {
    var targetIndex := FindBatchTarget(s, c, raw);
    var history := raw[BATCH_START..];
    var groups := GroupMessagesForCompression(history);
    var aligned := AlignCompressionBoundary(groups, targetIndex - BATCH_START, history);
    end := BATCH_START + aligned;
  }

  /** All turn-start exits share this promise. */
  ghost predicate TurnStartExit(s: Settings, c: Counter, env: Env, view: seq<Entry>, r: Result) {
    && SafeOrFlagged(s, c, r)
    && r.outcome in {Compressed, Fallback, Error}
    && (r.outcome.Compressed? ==> !r.unsafePayload && exists summary :: Summarized(s, c, env, view, r, summary))
    && (!r.outcome.Compressed? ==> r.view == Truncated(c, s.budget, view))
    && (view != [] && CheckpointFree(view) && Valid(ToRaw(view)) && !Opens(view[0].msg) ==> !r.reason.PayloadValidation?)
  }

  method GiveUp(s: Settings, c: Counter, env: Env, view: seq<Entry>, base: Result) returns (r: Result)
    requires view != [] && base.outcome in {Fallback, Error}
    requires CheckpointFree(view) && Valid(ToRaw(view)) && !Opens(view[0].msg) ==> !base.reason.PayloadValidation?
    ensures TurnStartExit(s, c, env, view, r) && !r.outcome.Compressed?
  {
    r := FinalizeCompressionFallback(view, s, c, base);
  }

  method CompressTurnStart(s: Settings, c: Counter, env: Env, view: seq<Entry>) returns (r: Result)
    requires |view| > 2
    ensures TurnStartExit(s, c, env, view, r)
    ensures r.outcome.Compressed? <==> CanSummarize(s, c, env, view)
  {
    hide BatchEnds, Truncated, ToRaw, Tokens, Run, CallIds, FirstPersistedSeq, Prepared;
    RawNonEmpty(view);
    var raw := ToRawMessages(view);
    var total := CountMessages(c, raw);
    if !env.resolves {
      r := GiveUp(s, c, env, view, Base(Error, false, ResolveModelFailed));
      return;
    }
    var end := FindBatchEnd(s, c, raw);
    forall other, text | Summarized(s, c, env, view, other, text)
      ensures end == other.compressedCount + BATCH_START
      ensures env.summarize(Prepared(env.prepareStart, raw[BATCH_START..end]), false) == Text(text)
      ensures other.view == [view[0], SummaryEntry(text)] + view[end..]
    {
      SummaryIsUnique(s, c, env, view, end, other, text);
    }
    if end <= BATCH_START {
      r := GiveUp(s, c, env, view, Base(Fallback, false, BoundaryTooSmall));
      return;
    }
    var answer := env.summarize(Prepared(env.prepareStart, raw[BATCH_START..end]), false);
    if answer.Failed? {
      r := GiveUp(s, c, env, view, Base(Error, false, SummarizerError));
      return;
    }
    var summary := answer.content;
    if summary == "" {
      r := GiveUp(s, c, env, view, Base(Fallback, false, EmptySummary));
      return;
    }
    var firstKeptSeq := FindFirstKeptSeq(view[end..]);
    var compressed := [view[0], SummaryEntry(summary)] + view[end..];
    var afterRaw := ToRawMessages(compressed);
    var verdict := ValidateProviderPayload(afterRaw);
    if verdict.Unsafe? {
      if CheckpointFree(view) && Valid(raw) && !Opens(view[0].msg) {
        SummarizedViewIsValid(s, c, view, end, summary);
      }
      r := GiveUp(s, c, env, view, Base(Fallback, false, PayloadValidation));
      return;
    }
    var afterTokens := CountMessages(c, afterRaw);
    if afterTokens >= total {
      r := GiveUp(s, c, env, view, Base(Fallback, false, IneffectiveSummary));
      return;
    }
    if afterTokens > s.budget {
      r := GiveUp(s, c, env, view, Base(Fallback, false, SummaryOverBudget));
      return;
    }
    r := Result(compressed, Compressed, false, NoReason, firstKeptSeq, end - BATCH_START, afterTokens, 0);
    assert Summarized(s, c, env, view, r, summary);
  }
}
