/**
 Context compression: every exit of the compressor, its budget arithmetic, and what a
 compressed view keeps. Token counts, ratios and summaries are abstract inputs.
 */
module Compress {
  import opened Payload
  import opened Groups
  import opened Indexed
  import opened Truncate

  /** Configuration, with the float products already truncated to integers. */
  datatype Settings = Settings(
    enabled: bool,
    forced: bool,
    contextLength: int,
    budget: int,            // contextLength * threshold
    ratioTarget: int,       // contextLength * post-compression ratio
    tailShare: int,         // contextLength * 0.15
    reserveShare: int,      // contextLength * 0.06
    recentTailTokens: int,
    minSummaryTokens: int,
    maxSummaryTokens: int,
    maxOutput: int
  )

  /** A summarizer reply, already trimmed and redacted; an empty text is possible. */
  datatype Answer = Failed | Text(content: string)

  /** Everything outside the model: model lookup, summarizer, redaction, pruning notes. */
  datatype Env = Env(
    resolves: bool,
    summarize: (seq<Message>, bool) -> Answer,
    prepareStart: Message -> Message,    // batch trimming and redaction, turn start
    prepareActive: Message -> Message,   // the same for a mid-loop checkpoint
    pruneNote: (string, nat, nat) -> string
  )

  datatype Mode = TurnStart | MidLoop

  datatype Outcome = NoChange | Compressed | Pruned | Fallback | Error

  datatype Reason =
    | NoReason
    | CompressionDisabled
    | NoCompressibleHistory
    | ResolveModelFailed
    | BoundaryTooSmall
    | SummarizerError
    | EmptySummary
    | PayloadValidation
    | IneffectiveSummary
    | SummaryOverBudget
    | InvalidPayload
    | NoCompleteActiveGroups
    | NoNewCompleteGroups
    | NoCompleteWorkGroups
    | NoOldPrefixWithRecentTail
    | SummaryTooShort
    | RecentTailFloor

  datatype Result = Result(
    view: seq<Entry>,
    outcome: Outcome,
    unsafePayload: bool,    // the error wraps ErrUnsafeProviderPayload
    reason: Reason,
    firstKeptSeq: nat,
    compressedCount: nat,
    afterTokens: nat,
    recentTail: nat
  )

  function Base(outcome: Outcome, unsafePayload: bool, reason: Reason): Result {
    Result([], outcome, unsafePayload, reason, 0, 0, 0, 0)
  }

  /** May be sent: a valid payload within the budget. */
  predicate Sendable(s: Settings, c: Counter, view: seq<Entry>) {
    Valid(ToRaw(view)) && Tokens(c, ToRaw(view)) <= s.budget
  }

  /** The one promise of every exit: sendable, or flagged as unsafe. */
  predicate SafeOrFlagged(s: Settings, c: Counter, r: Result) {
    r.unsafePayload || Sendable(s, c, r.view)
  }

  // ---- budget arithmetic ----------------------------------------------------------

  function Min(a: int, b: int): int { if a <= b then a else b }
  function Max(a: int, b: int): int { if a >= b then a else b }

  function ActiveTurnTargetBudget(s: Settings): int {
    if s.ratioTarget <= 0 || s.ratioTarget > s.budget then s.budget else s.ratioTarget
  }

  function ActiveTurnRecentTailTarget(s: Settings): int {
    if s.recentTailTokens > 0 then s.recentTailTokens
    else if s.contextLength <= 0 then 0
    else if s.contextLength >= 65536 then Min(Max(s.tailShare, 8192), 12288)
    else Min(Max(s.tailShare, 64), 8192)
  }

  function ActiveTurnRequiredRecentTail(s: Settings, totalRaw: nat): (required: int)
    ensures 0 <= required <= totalRaw
  {
    if s.recentTailTokens <= 0 && s.contextLength < 65536 then 0
    else Min(ActiveTurnRecentTailTarget(s), totalRaw)
  }

  function ActiveTurnSummaryReserve(s: Settings): (reserve: int)
    ensures reserve >= 0
  {
    var wanted := Max(s.reserveShare, s.minSummaryTokens);
    var capped := if s.maxSummaryTokens > 0 then Min(wanted, s.maxSummaryTokens) else wanted;
    Max(Min(capped, ActiveTurnTargetBudget(s) / 4), 0)
  }

  /** How much recent raw work a mid-loop checkpoint may leave in place. */
  function RecentLimit(s: Settings, fixedTokens: nat): (limit: int)
    ensures limit >= 0
  {
    var wanted := ActiveTurnTargetBudget(s) - fixedTokens - ActiveTurnSummaryReserve(s);
    var atHardBudget := Max(s.budget - fixedTokens - ActiveTurnSummaryReserve(s), 0);
    var target := ActiveTurnRecentTailTarget(s);
    Max(if wanted < target then Min(target, atHardBudget) else wanted, 0)
  }

  function MinimumUsefulActiveSummaryTokens(s: Settings, batchTokens: nat): int {
    var minimum := if batchTokens < 4096 then 0 else Min(Max(batchTokens / 50, 768), 2048);
    if s.maxOutput > 0 && minimum > s.maxOutput * 3 / 4 then s.maxOutput * 3 / 4 else minimum
  }

  function SummaryContentTokens(c: Counter, content: string): nat {
    var withContent := c.cost(Message(User, content, [], ""));
    var empty := c.cost(Message(User, "", [], ""));
    if content == "" || withContent <= empty then 0 else withContent - empty
  }

  function RangeTokens(c: Counter, view: seq<Entry>): nat {
    Sum(c, Strip(view))
  }

  function RawWork(view: seq<Entry>): seq<Entry> {
    if view == [] then []
    else RawWork(view[..|view| - 1]) + (if view[|view| - 1].synthetic then [] else [view[|view| - 1]])
  }

  /** Tokens of the persisted work after the latest persisted user message. */
  function RawTailTokens(c: Counter, view: seq<Entry>): nat {
    if LatestUser(view) < 0 then 0 else RangeTokens(c, RawWork(view[LatestUser(view) + 1..]))
  }

  // ---- the shared fallback -----------------------------------------------------------

  method FinalizeCompressionFallback(view: seq<Entry>, s: Settings, c: Counter, base: Result) returns (r: Result)
    ensures r.view == Truncated(c, s.budget, view)
    ensures r.afterTokens == Tokens(c, ToRaw(r.view))
    ensures r.unsafePayload <==> base.unsafePayload || !Sendable(s, c, r.view)
    ensures r.outcome == if Sendable(s, c, r.view) then base.outcome else Error
    ensures r.reason == base.reason
  {
    r := base;
    var truncated := TruncateIndexedToBudget(view, s.budget, c);
    var raw := ToRawMessages(truncated);
    var total := CountMessages(c, raw);
    r := r.(view := truncated, afterTokens := total);
    var verdict := ValidateProviderPayload(raw);
    if verdict.Unsafe? {
      r := r.(outcome := Error, unsafePayload := true);
    }
    if total > s.budget {
      r := r.(outcome := Error, unsafePayload := true);
    }
  }

  // ---- pruning old tool outputs ---------------------------------------------------------

  const MAX_OUTPUT := 2000

  function Lines(content: string): nat {
    if content == "" then 1 else (if content[0] == '\n' then 1 else 0) + Lines(content[1..])
  }

  /** The name of the function that call id names in an assistant message, or "tool". */
  function ToolName(calls: seq<ToolCall>, id: CallId): string {
    if calls == [] then "tool"
    else if calls[0].id == id && calls[0].name != "" then calls[0].name
    else ToolName(calls[1..], id)
  }

  predicate Prunable(view: seq<Entry>, i: nat)
    requires i < |view|
  {
    0 < i < LastUser(Strip(view)) && view[i].msg.role.Tool? && |view[i].msg.content| > MAX_OUTPUT
  }

  /** How many of the first n entries are shortened. */
  function PrunableAmong(view: seq<Entry>, n: nat): nat
    requires n <= |view|
  {
    if n == 0 then 0 else PrunableAmong(view, n - 1) + if Prunable(view, n - 1) then 1 else 0
  }

  lemma {:induction false} NonePrunable(view: seq<Entry>, n: nat)
    requires n <= |view| && LastUser(Strip(view)) < 0
    ensures PrunableAmong(view, n) == 0
  {
    if n > 0 {
      NonePrunable(view, n - 1);
    }
  }

  function PrunedEntry(env: Env, view: seq<Entry>, i: nat): Entry
    requires i < |view|
  {
    if !Prunable(view, i) then view[i]
    else
      var m, before := view[i].msg, view[i - 1].msg;
      var name := if before.role.Assistant? then ToolName(before.calls, m.toolCallId) else "tool";
      view[i].(msg := m.(content := m.content[..MAX_OUTPUT] + env.pruneNote(name, |m.content|, Lines(m.content))))
  }

  function PrunedView(env: Env, view: seq<Entry>): seq<Entry> {
    seq(|view|, i requires 0 <= i < |view| => PrunedEntry(env, view, i))
  }

  method PruneOldToolOutputs(env: Env, view: seq<Entry>) returns (result: seq<Entry>, pruned: nat)
    ensures result == PrunedView(env, view)
    ensures pruned == PrunableAmong(view, |view|)
    ensures pruned == 0 ==> result == view
  {
    var lastUserIdx := FindLastUser(Strip(view));
    result, pruned := view, 0;
    if lastUserIdx < 0 {
      NonePrunable(view, |view|);
      return;
    }
    for i := 0 to |view|
      invariant |result| == |view| && pruned == PrunableAmong(view, i)
      invariant forall k | 0 <= k < i :: result[k] == PrunedEntry(env, view, k)
      invariant forall k | i <= k < |view| :: result[k] == view[k]
      invariant pruned == 0 ==> result == view
    {
      if i == 0 || i >= lastUserIdx || !view[i].msg.role.Tool? || |view[i].msg.content| <= MAX_OUTPUT {
        continue;
      }
      var m := result[i].msg;
      var toolName := "tool";
      if view[i - 1].msg.role.Assistant? {
        toolName := ToolName(view[i - 1].msg.calls, m.toolCallId);
      }
      var note := env.pruneNote(toolName, |m.content|, Lines(m.content));
      result := result[i := result[i].(msg := m.(content := m.content[..MAX_OUTPUT] + note))];
      pruned := pruned + 1;
    }
  }

  /** Two views that differ in tool texts only. */
  predicate SameShape(a: seq<Entry>, b: seq<Entry>) {
    |a| == |b| && forall i | 0 <= i < |a| ::
      && a[i].seqNo == b[i].seqNo && a[i].synthetic == b[i].synthetic && a[i].kind == b[i].kind
      && (a[i].msg == b[i].msg || (a[i].msg.role.Tool? && a[i].msg.(content := b[i].msg.content) == b[i].msg))
  }

  lemma {:induction false} SameShapeScans(a: seq<Message>, b: seq<Message>, s: Scan)
    requires |a| == |b|
    requires forall i | 0 <= i < |a| :: a[i] == b[i] || (a[i].role.Tool? && a[i].(content := b[i].content) == b[i])
    ensures Run(s, a) == Run(s, b) && CallIds(a) == CallIds(b)
    decreases |a|
  {
    if a != [] {
      SameShapeScans(a[1..], b[1..], Step(s, a[0]));
    }
  }

  lemma {:induction false} SameShapeValid(a: seq<Entry>, b: seq<Entry>)
    requires SameShape(a, b) && WellKinded(a)
    ensures WellKinded(b) && (Valid(ToRaw(a)) <==> Valid(ToRaw(b)))
  {
    forall e | e in b
      ensures e.kind.ActiveTurnSummary? ==> e.msg.role.User? && e.synthetic
    {
      var i :| 0 <= i < |b| && b[i] == e;
      assert a[i] in a;
    }
    SameShapeScans(Strip(a), Strip(b), Idle);
    RawIsValid(a);
    RawIsValid(b);
  }
}
