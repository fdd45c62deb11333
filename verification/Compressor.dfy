/**
 The compressor's entry point: which path is taken, and the promise shared by all of its exits.
 */
module Compressor {
  import opened Payload
  import opened Groups
  import opened Indexed
  import opened Truncate
  import opened Compress
  import opened TurnStartCompression
  import opened ActiveTurnCompression

  /** The gate that announces a compression before it runs. */
  predicate WillAttempt(s: Settings, c: Counter, view: seq<Entry>) {
    s.contextLength > 0 && s.enabled && Tokens(c, ToRaw(view)) > s.budget
  }

  /** The announcement of a compression and the token counts it reports. */
  datatype Snapshot = Snapshot(willAttempt: bool, before: nat, budget: int, target: int)

  method PreCompressionSnapshot(s: Settings, c: Counter, view: seq<Entry>) returns (pre: Snapshot)
    ensures pre.willAttempt <==> WillAttempt(s, c, view)
    ensures pre == if WillAttempt(s, c, view)
      then Snapshot(true, Tokens(c, ToRaw(view)), s.budget, ActiveTurnTargetBudget(s)) else Snapshot(false, 0, 0, 0)
  {
    if s.contextLength <= 0 || !s.enabled {
      return Snapshot(false, 0, 0, 0);
    }
    var raw := ToRawMessages(view);
    var before := CountMessages(c, raw);
    if before <= s.budget {
      return Snapshot(false, 0, 0, 0);
    }
    pre := Snapshot(true, before, s.budget, ActiveTurnTargetBudget(s));
  }

  /** Where the view of a result comes from, exit by exit. */
  ghost predicate Explained(s: Settings, c: Counter, env: Env, view: seq<Entry>, mode: Mode, r: Result) {
    var pruned := PrunedView(env, view);
    match r.outcome
    case NoChange => r.view == view && !r.unsafePayload
    case Pruned => mode.MidLoop? && r.view == pruned && !r.unsafePayload
    case Compressed => !r.unsafePayload &&
      ((exists summary :: Summarized(s, c, env, view, r, summary)) ||
       (mode.MidLoop? && exists summary, retry ::
         Checkpointed(s, c, env, pruned, Tokens(c, ToRaw(view)), r, summary, retry)))
    case _ =>
      || r.view == Truncated(c, s.budget, view)
      || (mode.MidLoop? && (r.view == Truncated(c, s.budget, pruned) || (r.unsafePayload && r.view == pruned)))
  }

  lemma {:induction false} PrunedIsSameShape(env: Env, view: seq<Entry>)
    ensures SameShape(view, PrunedView(env, view))
  {
  }

  lemma {:induction false} PrunedKeepsValid(env: Env, view: seq<Entry>)
    requires WellKinded(view)
    ensures WellKinded(PrunedView(env, view))
    ensures Valid(ToRaw(PrunedView(env, view))) <==> Valid(ToRaw(view))
  {
    PrunedIsSameShape(env, view);
    SameShapeValid(view, PrunedView(env, view));
  }

  /** The checks before either path are passed. */
  predicate Attempts(s: Settings, c: Counter, view: seq<Entry>) {
    s.contextLength > 0 && s.enabled && |view| > 2 && (s.forced || Tokens(c, ToRaw(view)) > s.budget)
  }

  /** Pruning does not help, the recent tail protects the whole turn, and there is older history. */
  predicate Escalates(s: Settings, c: Counter, env: Env, view: seq<Entry>) {
    var pruned := PrunedView(env, view);
    && (PrunableAmong(view, |view|) > 0 ==> Tokens(c, ToRaw(pruned)) > s.budget)
    && NothingToFold(s, c, pruned) && TruncationServes(s, c, pruned, RequiredTail(s, c, pruned))
    && LatestUser(view) >= 2
  }

  /**
   Every exit either flags the result as unsafe or returns a view whose payload is valid and
   within budget; and it reports "no change" exactly when the announcement gate said so.
   */
  method CompressIfNeeded(s: Settings, c: Counter, env: Env, view: seq<Entry>, mode: Mode) returns (r: Result)
    ensures s.contextLength > 0 && WellKinded(view) && Valid(ToRaw(view)) ==> SafeOrFlagged(s, c, r)
    ensures s.enabled && !s.forced ==> (r.outcome.NoChange? <==> !WillAttempt(s, c, view))
    ensures Explained(s, c, env, view, mode, r)
    ensures Attempts(s, c, view) && (mode.TurnStart? || Escalates(s, c, env, view)) ==>
      (r.outcome.Compressed? <==> CanSummarize(s, c, env, view)) &&
      (r.outcome.Compressed? ==> exists summary :: Summarized(s, c, env, view, r, summary))
    decreases if mode.MidLoop? then 1 else 0
  {
    hide Summarized, Checkpointed, PrunedView, NothingToFold, TruncationServes, RequiredTail,
         ToRaw, Truncated, CanSummarize;
    var noChange := Result(view, NoChange, false, NoReason, 0, 0, 0, 0);
    if s.contextLength <= 0 {
      return noChange;
    }
    var raw := ToRawMessages(view);
    var total := CountMessages(c, raw);
    if !s.enabled {
      if total <= s.budget {
        return noChange;
      }
      r := FinalizeCompressionFallback(view, s, c, Base(Fallback, false, CompressionDisabled));
      return;
    }
    if !s.forced && total <= s.budget {
      return noChange;
    }
    if |view| <= 2 {
      if total <= s.budget {
        return noChange;
      }
      r := FinalizeCompressionFallback(view, s, c, Base(Error, true, NoCompressibleHistory));
      return;
    }
    if mode.TurnStart? {
      r := CompressTurnStart(s, c, env, view);
      return;
    }
    r := CompressMidLoop(s, c, env, view);
    if r.outcome.Fallback? && r.reason.NoOldPrefixWithRecentTail? {
      var userIdx := LatestPersistedUserIndex(view);
      if userIdx >= 2 {
        var escalated := CompressIfNeeded(s, c, env, view, TurnStart);
        if escalated.outcome.Compressed? {
          SummarizedIsSendable(s, c, env, view, escalated);
          r := escalated;
        }
      }
    }
  }

  lemma {:induction false} SummarizedIsSendable(s: Settings, c: Counter, env: Env, view: seq<Entry>, r: Result)
    requires Explained(s, c, env, view, TurnStart, r) && r.outcome.Compressed?
    ensures exists summary :: Summarized(s, c, env, view, r, summary)
  {
  }

  /** Prunes old tool outputs first and folds old work groups only if that is not enough. */
  method CompressMidLoop(s: Settings, c: Counter, env: Env, view: seq<Entry>) returns (r: Result)
    ensures WellKinded(view) && Valid(ToRaw(view)) ==> SafeOrFlagged(s, c, r)
    ensures !r.outcome.NoChange? && Explained(s, c, env, view, MidLoop, r)
    ensures LatestUser(view) >= 2 ==>
      (r.outcome.Fallback? && r.reason.NoOldPrefixWithRecentTail? <==> Escalates(s, c, env, view))
  {
    var pruned, count := PruneOldToolOutputs(env, view);
    if WellKinded(view) {
      PrunedKeepsValid(env, view);
    }
    if count > 0 {
      var raw := ToRawMessages(pruned);
      var after := CountMessages(c, raw);
      if after <= s.budget {
        var tail := ActiveTurnRawTailTokens(c, pruned);
        return Result(pruned, Pruned, false, NoReason, 0, 0, after, tail);
      }
    }
    var total := ToRawMessages(view);
    var before := CountMessages(c, total);
    r := CompressActiveTurn(s, c, env, pruned, before);
  }

  // ---- the user's request ---------------------------------------------------------------

  /** A mid-loop checkpoint keeps the request and everything before it verbatim. */
  lemma {:induction false} CheckpointKeepsRequest(s: Settings, c: Counter, env: Env, view: seq<Entry>, before: nat,
                                                  r: Result, summary: string, retry: bool)
    requires Checkpointed(s, c, env, view, before, r, summary, retry)
    ensures LatestUser(r.view) == LatestUser(view)
    ensures r.view[..LatestUser(view) + 1] == view[..LatestUser(view) + 1]
    ensures CheckpointIndex(r.view) == LatestUser(view) + 1
  {
    FoldedTail(c, view, BatchEnd(s, c, view), summary);
  }

  lemma {:induction false} LatestUserOfSuffix(view: seq<Entry>, head: seq<Entry>, end: nat)
    requires end <= |view| && forall e | e in head :: !PersistedUser(e)
    ensures LatestUserEntry(head + view[end..]) == if end <= LatestUser(view) then LatestUserEntry(view) else []
  {
    var out, u := head + view[end..], LatestUser(view);
    LatestUserIsLast(view);
    if end <= u {
      assert forall k | |head| + u - end < k < |out| :: out[k] == view[k - |head| + end];
      LatestUserUnique(out, |head| + u - end);
    } else {
      assert forall k | 0 <= k < |out| :: out[k] == if k < |head| then head[k] else view[k - |head| + end];
      assert forall k | 0 <= k < |head| :: head[k] in head;
      LatestUserUnique(out, -1);
    }
  }

  /** Later entries only append to a rendering or extend its last text. */
  lemma {:induction false} RenderingGrows(a: seq<Entry>, b: seq<Entry>)
    ensures |ToRaw(a)| <= |ToRaw(a + b)|
    ensures forall i | 0 <= i < |ToRaw(a)| :: ToRaw(a + b)[i].role == ToRaw(a)[i].role
  {
    if b == [] {
      assert a + b == a;
    } else {
      assert (a + b)[..|a + b| - 1] == a + b[..|b| - 1];
      RenderingGrows(a, b[..|b| - 1]);
    }
  }

  /** Up to the first checkpoint the payload has the view's positions, and the request its place. */
  lemma {:induction false} RequestInRaw(view: seq<Entry>)
    requires LatestUser(view) >= 0 && CheckpointFree(view[..LatestUser(view) + 1])
    ensures LatestUser(view) <= LastUser(ToRaw(view)) && ToRaw(view)[LatestUser(view)].role.User?
  {
    var u := LatestUser(view);
    var head := view[..u + 1];
    RawOfCheckpointFree(head);
    assert head + view[u + 1..] == view;
    RenderingGrows(head, view[u + 1..]);
    assert ToRaw(head)[u] == view[u].msg;
  }

  lemma {:induction false} LastUserOfTail(msgs: seq<Message>)
    requires LastUser(msgs) > 0
    ensures LastUser(msgs[1..]) == LastUser(msgs) - 1
  {
    var n := |msgs| - 1;
    assert msgs[1..][..n - 1] == msgs[..n][1..];
    if !msgs[n].role.User? {
      LastUserOfTail(msgs[..n]);
    }
  }

  /** The batch stops below the message at u exactly when its reach does: u starts a group. */
  lemma {:induction false} BatchBelowIff(s: Settings, c: Counter, raw: seq<Message>, end: nat, u: nat)
    requires BatchEnds(s, c, raw, end) && 1 <= u <= LastUser(raw) && raw[u].role.User?
    ensures end <= u <==> BatchTarget(s, c, raw) <= u || LastUser(raw) == u
  {
    hide GroupsFrom, BatchTarget;
    LastUserOfTail(raw);
    CutBefore(raw[BATCH_START..], u - BATCH_START);
  }

  /**
   A durable summary keeps the latest persisted user message exactly when that message is the last
   one of role user, which the boundary guards, or the batch aims no further than to it. Otherwise the
   result has no persisted user message.
   */
  lemma {:induction false} SummaryKeepsRequestIff(s: Settings, c: Counter, env: Env, view: seq<Entry>, r: Result, summary: string)
    requires Summarized(s, c, env, view, r, summary) && LatestUser(view) > 0 && !PersistedUser(view[0])
    requires CheckpointFree(view[..LatestUser(view) + 1])
    ensures LatestUserEntry(r.view) == LatestUserEntry(view) <==>
      LastUser(ToRaw(view)) == LatestUser(view) || BatchTarget(s, c, ToRaw(view)) <= LatestUser(view)
    ensures LatestUserEntry(r.view) in [LatestUserEntry(view), []]
  {
    hide BatchEnds, BatchTarget, FirstPersistedSeq, ToRaw, Tokens;
    RequestInRaw(view);
    BatchBelowIff(s, c, ToRaw(view), r.compressedCount + BATCH_START, LatestUser(view));
    LatestUserOfSuffix(view, [view[0], SummaryEntry(summary)], r.compressedCount + BATCH_START);
  }
}
