/**
 A turn in which compression loses the user's request. A reminder, also of role user, ends the view, so the
 boundary guards it instead; the request is long, so the batch aims past it.
 */
module RequestLoss {
  import opened Payload
  import opened Groups
  import opened Indexed
  import opened Truncate
  import opened Compress
  import opened TurnStartCompression
  import opened ActiveTurnCompression
  import opened Compressor

  /** A token per character. */
  const PER_CHARACTER := Counter((m: Message) => |m.content|, 0)

  /** Threshold 0.8, post-compression ratio 0.5, shares 0.15 and 0.06 of 1300 tokens. */
  const LIMITS := Settings(true, false, 1300, 1040, 650, 195, 78, 100, 1000, 12000, 0)

  function Chars(n: nat): (s: string)
    ensures |s| == n
  {
    seq(n, _ => 'x')
  }

  function Said(role: Role, n: nat): Message {
    Message(role, Chars(n), [], "")
  }

  function Called(id: CallId): Message {
    Message(Assistant, Chars(10), [ToolCall(id, FunctionCall, "run", "{}")], "")
  }

  function Returned(id: CallId, n: nat): Message {
    Message(Tool, Chars(n), [], id)
  }

  function Stored(seqNo: nat, m: Message): Entry {
    Entry(seqNo, false, ThreadMessage, m)
  }

  /** Prompt, the to-do list's reminder, an earlier question and its answer. */
  const EARLIER := [
    Entry(0, true, SystemPrompt, Said(System, 10)), Entry(0, true, Reminder, Said(User, 40)),
    Stored(1, Said(User, 160)), Stored(2, Said(Assistant, 10))]

  /** The same without the reminder, which is the oldest part that may be dropped. */
  const SHORTER := [EARLIER[0], EARLIER[2], EARLIER[3]]

  const REQUEST := Stored(3, Said(User, 600))

  /** Stands for the rounds one to ten of this turn. */
  const CHECKPOINT := CheckpointEntry(Chars(20))

  /** Rounds eleven and twelve, and the reminder that the twelfth round without a plan edit adds. */
  const RECENT := [
    Stored(24, Called("eleven")), Stored(25, Returned("eleven", 120)), Stored(26, Called("twelve")),
    Stored(27, Returned("twelve", 30)), Entry(0, true, Reminder, Said(User, 20))]

  function ViewAfter(head: seq<Entry>): seq<Entry> {
    head + [REQUEST, CHECKPOINT] + RECENT
  }

  /** The view in which the request gets lost. */
  function NudgedView(): seq<Entry> {
    ViewAfter(EARLIER)
  }

  function Merged(): Message {
    Said(User, 600).(content := Chars(600) + (WRAPPER_HEAD + Chars(20) + WRAPPER_TAIL))
  }

  function RecentMessages(): seq<Message> {
    [Called("eleven"), Returned("eleven", 120), Called("twelve"), Returned("twelve", 30), Said(User, 20)]
  }

  // ---- the payload ---------------------------------------------------------------------------

  lemma {:induction false} RawOfTail(a: seq<Entry>, b: seq<Entry>)
    requires CheckpointFree(b)
    ensures ToRaw(a + b) == ToRaw(a) + Strip(b)
  {
    if b == [] {
      assert a + b == a;
    } else {
      var init, last := b[..|b| - 1], b[|b| - 1];
      assert (a + b)[..|a + b| - 1] == a + init;
      RawOfTail(a, init);
      assert Strip(b) == Strip(init) + [last.msg];
    }
  }

  /** The checkpoint merges into the request. */
  lemma {:induction false} RawAfter(head: seq<Entry>)
    requires CheckpointFree(head)
    ensures ToRaw(ViewAfter(head)) == Strip(head) + [Merged()] + RecentMessages()
  {
    hide Chars;
    var opening := head + [REQUEST];
    RawOfCheckpointFree(opening);
    assert Strip(opening) == Strip(head) + [REQUEST.msg];
    var merged := opening + [CHECKPOINT];
    assert merged[..|opening|] == opening;
    assert (Strip(head) + [REQUEST.msg])[|head| := Merged()] == Strip(head) + [Merged()];
    assert head + [REQUEST, CHECKPOINT] == merged;
    assert Strip(RECENT) == RecentMessages();
    RawOfTail(merged, RECENT);
  }

  predicate PlainHead(head: seq<Entry>) {
    CheckpointFree(head) && Run(Idle, Strip(head)) == Idle && CallIds(Strip(head)) == []
  }

  lemma {:induction false} RoundRuns(id: CallId, n: nat, rest: seq<Message>)
    ensures Run(Idle, [Called(id), Returned(id, n)] + rest) == Run(Idle, rest)
    ensures CallIds([Called(id), Returned(id, n)] + rest) == [id] + CallIds(rest)
  {
    var call, result := Called(id), Returned(id, n);
    assert ([call, result] + rest)[1..] == [result] + rest && ([result] + rest)[1..] == rest;
    assert Ids(call.calls) == [id] && IdSet([id]) == {id} && {id} - {id} == {};
    assert CallIds([result] + rest) == CallIds(rest);
  }

  lemma {:induction false} RecentRuns()
    ensures Run(Idle, RecentMessages()) == Idle && CallIds(RecentMessages()) == ["eleven", "twelve"]
  {
    hide Called, Returned, Chars;
    var reminder := [Said(User, 20)];
    var last := [Called("twelve"), Returned("twelve", 30)] + reminder;
    assert RecentMessages() == [Called("eleven"), Returned("eleven", 120)] + last;
    RoundRuns("eleven", 120, last);
    RoundRuns("twelve", 30, reminder);
    assert reminder[1..] == [];
  }

  lemma {:induction false} TwoRoundIds()
    ensures UsableIds([] + ["eleven", "twelve"])
  {
    assert "eleven" != "twelve" by { assert |"eleven"| == |"twelve"| && "eleven"[0] != "twelve"[0]; }
  }

  lemma {:induction false} ValidAfter(head: seq<Entry>)
    requires PlainHead(head)
    ensures Valid(ToRaw(ViewAfter(head)))
  {
    hide Chars, RecentMessages, UsableIds, ViewAfter;
    var front := Strip(head) + [Merged()];
    RawAfter(head);
    RunSnoc(Idle, Strip(head), Merged());
    RunConcat(Idle, front, RecentMessages());
    CallIdsConcat(front, RecentMessages());
    RecentRuns();
    TwoRoundIds();
  }

  lemma {:induction false} SumOfRecent(c: Counter)
    requires c == PER_CHARACTER
    ensures Sum(c, RecentMessages()) == 190
  {
    var a, b, d, e, f := Called("eleven"), Returned("eleven", 120), Called("twelve"), Returned("twelve", 30), Said(User, 20);
    assert [a, b, d, e, f][..4] == [a, b, d, e] && [a, b, d, e][..3] == [a, b, d];
    assert [a, b, d][..2] == [a, b] && [a, b][..1] == [a] && [a][..0] == [];
    assert Sum(c, [a, b]) == Sum(c, [a]) + 120 == 130;
    assert Sum(c, [a, b, d, e]) == Sum(c, [a, b, d]) + 30 == 170;
  }

  lemma {:induction false} TokensAfter(head: seq<Entry>)
    requires CheckpointFree(head)
    ensures Tokens(PER_CHARACTER, ToRaw(ViewAfter(head))) == Sum(PER_CHARACTER, Strip(head)) + 842
  {
    hide RecentMessages;
    var c := PER_CHARACTER;
    RawAfter(head);
    SumConcat(c, Strip(head) + [Merged()], RecentMessages());
    SumOfRecent(c);
    assert (Strip(head) + [Merged()])[..|head|] == Strip(head);
    assert |Merged().content| == 652;
  }

  lemma {:induction false} LatestAfter(head: seq<Entry>)
    ensures LatestUser(ViewAfter(head)) == |head|
    ensures CheckpointIndex(ViewAfter(head)) == |head| + 1
    ensures WorkStart(ViewAfter(head)) == |head| + 2 && Work(ViewAfter(head)) == RECENT
  {
    LatestUserUnique(ViewAfter(head), |head|);
  }

  // ---- the mid-loop path has nothing to fold -------------------------------------------------

  lemma {:induction false} ShortToolOutputs(env: Env, view: seq<Entry>, n: nat)
    requires n <= |view| && forall e | e in view :: e.msg.role.Tool? ==> |e.msg.content| <= MAX_OUTPUT
    ensures PrunableAmong(view, n) == 0 && PrunedView(env, view) == view
  {
    if n > 0 {
      ShortToolOutputs(env, view, n - 1);
      assert view[n - 1] in view;
    } else {
      assert forall i | 0 <= i < |view| :: view[i] in view;
    }
  }

  lemma {:induction false} RecentGroups()
    ensures GroupsOf(RecentMessages()) == [Group(0, 2, AssistantToolGroup), Group(2, 4, AssistantToolGroup), Group(4, 5, UserGroup)]
  {
    hide Chars;
    var msgs := RecentMessages();
    assert ToolRunEnd(msgs, 2) == 2 && ToolRunEnd(msgs, 1) == 2;
    assert ToolRunEnd(msgs, 4) == 4 && ToolRunEnd(msgs, 3) == 4;
    assert GroupsFrom(msgs, 5) == [];
    assert GroupsFrom(msgs, 4) == [Group(4, 5, UserGroup)];
    assert GroupsFrom(msgs, 2) == [Group(2, 4, AssistantToolGroup), Group(4, 5, UserGroup)];
  }

  lemma {:induction false} RangeSnoc(view: seq<Entry>, e: Entry)
    ensures RangeTokens(PER_CHARACTER, view + [e]) == RangeTokens(PER_CHARACTER, view) + |e.msg.content|
  {
    assert Strip(view + [e]) == Strip(view) + [e.msg];
    SumConcat(PER_CHARACTER, Strip(view), [e.msg]);
    assert Sum(PER_CHARACTER, [e.msg]) == Sum(PER_CHARACTER, [e.msg][..0]) + |e.msg.content|;
  }

  lemma {:induction false} RangeOfTwo(a: Entry, b: Entry)
    ensures RangeTokens(PER_CHARACTER, [a, b]) == |a.msg.content| + |b.msg.content|
    ensures RangeTokens(PER_CHARACTER, [a]) == |a.msg.content|
  {
    RangeSnoc([], a);
    RangeSnoc([a], b);
    assert [] + [a] == [a] && [a] + [b] == [a, b];
  }

  function Rounds(): seq<Entry> {
    RECENT[..4]
  }

  lemma {:induction false} RecentTokens()
    ensures RangeTokens(PER_CHARACTER, RECENT[0..2]) == 130 && RangeTokens(PER_CHARACTER, RECENT[2..4]) == 40
    ensures RangeTokens(PER_CHARACTER, RECENT[4..5]) == 20 && RangeTokens(PER_CHARACTER, RECENT) == 190
    ensures RawWork(RECENT) == Rounds() && RangeTokens(PER_CHARACTER, Rounds()) == 170
  {
    var a, b, d, e, f := RECENT[0], RECENT[1], RECENT[2], RECENT[3], RECENT[4];
    assert RECENT[0..2] == [a, b] && RECENT[2..4] == [d, e] && RECENT[4..5] == [f];
    RangeOfTwo(a, b);
    RangeOfTwo(d, e);
    RangeOfTwo(f, f);
    RangeSnoc([a, b], d);
    RangeSnoc([a, b, d], e);
    RangeSnoc([a, b, d, e], f);
    assert [a, b] + [d] == [a, b, d] && [a, b, d] + [e] == [a, b, d, e] == Rounds() && [a, b, d, e] + [f] == RECENT;
    RawWorkAll(Rounds());
    RawWorkConcat(Rounds(), [f]);
    assert RawWork([f]) == RawWork([f][..0]) == [];
  }

  lemma {:induction false} GroupsAfter(view: seq<Entry>)
    requires Work(view) == RECENT
    ensures WorkGroups(view) == [Group(0, 2, AssistantToolGroup), Group(2, 4, AssistantToolGroup), Group(4, 5, UserGroup)]
    ensures WorkTokens(PER_CHARACTER, view) == [130, 40, 20]
  {
    hide ToRaw, GroupsFrom, WorkStart, Chars, RangeTokens, RecentMessages;
    RawOfCheckpointFree(RECENT);
    RecentIsRecent();
    RecentGroups();
    RecentTokens();
  }

  lemma {:induction false} RecentIsRecent()
    ensures Strip(RECENT) == RecentMessages() && CheckpointFree(RECENT)
  {
  }

  lemma {:induction false} TailAfter(view: seq<Entry>)
    requires Work(view) == RECENT
    ensures RequiredTail(LIMITS, PER_CHARACTER, view) == 100
  {
    hide RangeTokens, WorkStart;
    RecentTokens();
  }

  lemma {:induction false} AllProtected(tokens: seq<nat>)
    requires tokens == [130, 40, 20]
    ensures ProtectedFrom(tokens, 100, 2) == 0
  {
    assert tokens[2..] == [20] && tokens[1..] == [40, 20] && tokens[1..][1..] == [20] && [20][1..] == [];
    assert SumOf([20]) == 20 && SumOf([40, 20]) == 60;
  }

  /** The recent tail protects the whole turn. */
  lemma {:induction false} NothingFolded(view: seq<Entry>)
    requires Work(view) == RECENT
    ensures BatchEnd(LIMITS, PER_CHARACTER, view) == WorkStart(view)
  {
    hide ToRaw, WorkStart, GroupsOf, SumOf, RecentLimit, RequiredTail, WorkTokens, FixedTokens;
    GroupsAfter(view);
    TailAfter(view);
    AllProtected(WorkTokens(PER_CHARACTER, view));
  }

  lemma {:induction false} NothingToFoldAfter(head: seq<Entry>)
    requires PlainHead(head)
    ensures NothingToFold(LIMITS, PER_CHARACTER, ViewAfter(head))
    ensures RawTailTokens(PER_CHARACTER, ViewAfter(head)) == 170
  {
    hide ToRaw, BatchEnd, WorkGroups, RangeTokens, Valid, RawWork;
    var view := ViewAfter(head);
    LatestAfter(head);
    ValidAfter(head);
    NothingFolded(view);
    GroupsAfter(view);
    assert view[|head| + 2] == RECENT[0];
    assert view[|head| + 1..] == [CHECKPOINT] + RECENT;
    SyntheticFirst(CHECKPOINT, RECENT);
    RecentTokens();
  }

  // ---- truncation would serve, so the mid-loop path escalates -----------------------------------

  lemma {:induction false} OrderPrefix(view: seq<Entry>, u: int, s: int, groups: seq<Group>, k: nat)
    requires k <= |groups| && forall g | g in groups :: g.start < |view|
    ensures DropOrderAround(view, u, s, groups[..k]) <= DropOrderAround(view, u, s, groups)
  {
    if k < |groups| {
      var n := |groups| - 1;
      assert groups[..n][..k] == groups[..k];
      OrderPrefix(view, u, s, groups[..n], k);
    } else {
      assert groups[..k] == groups;
    }
  }

  /** The oldest droppable group of the view is the to-do list's reminder. */
  lemma {:induction false} OldestDroppable()
    ensures DropOrder(NudgedView()) != [] && DropOrder(NudgedView())[0] == Group(1, 2, UserGroup)
  {
    var view := NudgedView();
    var msgs, two := Strip(view), [Group(0, 1, SystemGroup), Group(1, 2, UserGroup)];
    LatestAfter(EARLIER);
    GroupFacts(msgs);
    assert msgs[0] == Said(System, 10) && msgs[1] == Said(User, 40);
    assert GroupsFrom(msgs, 1) == [two[1]] + GroupsFrom(msgs, 2);
    assert GroupsOf(msgs) == [two[0]] + GroupsFrom(msgs, 1);
    assert GroupsOf(msgs)[..2] == two;
    OrderPrefix(view, 4, 5, GroupsOf(msgs), 2);
    OneDroppable(view, two);
  }

  lemma {:induction false} OneDroppable(view: seq<Entry>, two: seq<Group>)
    requires |view| > 5 && view[0].msg.role.System?
    requires two == [Group(0, 1, SystemGroup), Group(1, 2, UserGroup)]
    ensures DropOrderAround(view, 4, 5, two) == [Group(1, 2, UserGroup)]
  {
    assert two[..1] == [two[0]] && two[..1][..0] == [];
    assert DropOrderAround(view, 4, 5, two[..1]) == [];
  }

  lemma {:induction false} KeptAllBut<T>(s: seq<T>, keep: seq<bool>, i: nat)
    requires i < |s| == |keep| && forall k | 0 <= k < |s| :: keep[k] <==> k != i
    ensures Kept(s, keep) == s[..i] + s[i + 1..]
  {
    var a, b, ka, kb := s[..i], s[i + 1..], keep[..i], keep[i + 1..];
    assert s == (a + [s[i]]) + b && keep == (ka + [false]) + kb;
    hide Kept;
    KeptConcat(a + [s[i]], ka + [false], b, kb);
    KeptConcat(a, ka, [s[i]], [false]);
    KeptAll(a, ka);
    KeptAll(b, kb);
    KeptNone([s[i]], [false]);
  }

  lemma {:induction false} DropsByOne(order: seq<Group>)
    requires order != [] && order[0] == Group(1, 2, UserGroup)
    ensures After(NudgedView(), order, 0) == NudgedView()
    ensures After(NudgedView(), order, 1) == ViewAfter(SHORTER)
  {
    hide Kept;
    var view := NudgedView();
    KeptAll(view, Flags(view, order, 0));
    KeptAllBut(view, Flags(view, order, 1), 1);
    assert view[..1] + view[2..] == ViewAfter(SHORTER);
  }

  /** Truncation drops the reminder and is done. */
  lemma {:induction false} TruncationOfNudged()
    ensures Truncated(PER_CHARACTER, 1040, NudgedView()) == ViewAfter(SHORTER)
  {
    hide ToRaw, Sum, Truncated, DropOrder, After, ViewAfter, CheckpointIndex, Valid;
    NudgedFacts();
    RestFacts();
    var n := TruncatedDropsShortestPrefix(PER_CHARACTER, 1040, NudgedView());
    OldestDroppable();
    DropsByOne(DropOrder(NudgedView()));
  }

  lemma {:induction false} NudgedFacts()
    ensures PlainHead(EARLIER) && Valid(ToRaw(NudgedView())) && WellKinded(NudgedView())
    ensures Tokens(PER_CHARACTER, ToRaw(NudgedView())) == 1062
  {
    hide ToRaw, Sum, Run, CallIds;
    var a, b, d, e := EARLIER[0], EARLIER[1], EARLIER[2], EARLIER[3];
    PlainStrip(EARLIER);
    ValidAfter(EARLIER);
    TokensAfter(EARLIER);
    RangeOfTwo(a, b);
    RangeSnoc([a, b], d);
    RangeSnoc([a, b, d], e);
    assert [a, b] + [d] == [a, b, d] && [a, b, d] + [e] == EARLIER;
  }

  lemma {:induction false} RestFacts()
    ensures PlainHead(SHORTER)
    ensures Tokens(PER_CHARACTER, ToRaw(ViewAfter(SHORTER))) == 1022
  {
    var a, d, e := EARLIER[0], EARLIER[2], EARLIER[3];
    PlainStrip(SHORTER);
    TokensAfter(SHORTER);
    RangeOfTwo(a, d);
    RangeSnoc([a, d], e);
    assert [a, d] + [e] == SHORTER;
  }

  lemma {:induction false} PlainStrip(head: seq<Entry>)
    requires CheckpointFree(head) && forall e | e in head :: !e.msg.role.Tool? && e.msg.calls == []
    ensures PlainHead(head)
  {
    if head != [] {
      var init, last := head[..|head| - 1], head[|head| - 1];
      PlainStrip(init);
      assert Strip(head) == Strip(init) + [last.msg];
      RunSnoc(Idle, Strip(init), last.msg);
    }
  }

  lemma {:induction false} NudgedEscalates(env: Env)
    ensures Attempts(LIMITS, PER_CHARACTER, NudgedView()) && Escalates(LIMITS, PER_CHARACTER, env, NudgedView())
  {
    hide ToRaw, NothingToFold, Valid, RawTailTokens, RequiredTail, Truncated;
    var view, rest := NudgedView(), SHORTER;
    ShortToolOutputs(env, view, |view|);
    NudgedFacts();
    RestFacts();
    TruncationOfNudged();
    NothingToFoldAfter(EARLIER);
    NothingToFoldAfter(rest);
    ValidAfter(rest);
    LatestAfter(EARLIER);
    TailAfter(view);
  }

  // ---- the summary that replaces the request ---------------------------------------------------

  /** The batch aims at the first four messages after the prompt, the last of which is the request. */
  lemma {:induction false} AimsPastRequest()
    ensures var raw := ToRaw(NudgedView());
      BatchTarget(LIMITS, PER_CHARACTER, raw) == 5 && LastUser(raw) == |raw| - 1 == 9
    ensures BatchEnds(LIMITS, PER_CHARACTER, ToRaw(NudgedView()), 5)
  {
    hide Tokens, ViewAfter, ToRaw, GroupsFrom;
    var c, raw := PER_CHARACTER, ToRaw(NudgedView());
    NudgedFacts();
    RawAfter(EARLIER);
    var excess := Tokens(c, raw) - ActiveTurnTargetBudget(LIMITS);
    assert excess == 412;
    assert ReachTarget(c, raw, 202, 4) == 5;
    assert ReachTarget(c, raw, 212, 3) == 5;
    assert ReachTarget(c, raw, 372, 2) == 5;
    var history := raw[BATCH_START..];
    LastUserOfTail(raw);
    assert Reach(history, 4) == 4;
    CutBefore(history, 4);
  }

  /** The view that a summary leaves: it has no user message left. */
  function SummarizedView(summary: string): seq<Entry> {
    [EARLIER[0], SummaryEntry(summary)] + NudgedView()[5..]
  }

  lemma {:induction false} SummarizedRaw(summary: string) returns (head: Message, merged: Message)
    ensures ToRaw(SummarizedView(summary)) == [head, merged] + RecentMessages()
    ensures head == Said(System, 10) && merged.role.User? && merged.calls == []
    ensures |merged.content| == |summary| + 87
  {
    hide Chars;
    head, merged := EARLIER[0].msg, SummaryEntry(summary).msg;
    var opening := [EARLIER[0], SummaryEntry(summary)];
    RawOfCheckpointFree(opening);
    assert Strip(opening) == [head, merged];
    assert (opening + [CHECKPOINT])[..2] == opening;
    merged := merged.(content := merged.content + (WRAPPER_HEAD + Chars(20) + WRAPPER_TAIL));
    assert ToRaw(opening + [CHECKPOINT]) == [head, merged];
    assert SummarizedView(summary) == opening + [CHECKPOINT] + RECENT;
    assert Strip(RECENT) == RecentMessages();
    RawOfTail(opening + [CHECKPOINT], RECENT);
  }

  lemma {:induction false} SummarizedIsSmall(summary: string)
    requires |summary| <= 700
    ensures Valid(ToRaw(SummarizedView(summary)))
    ensures Tokens(PER_CHARACTER, ToRaw(SummarizedView(summary))) <= 987
  {
    hide RecentMessages, SummarizedView, Chars;
    var head, merged := SummarizedRaw(summary);
    RecentRuns();
    TwoPlainFirst(head, merged, RecentMessages());
    SumConcat(PER_CHARACTER, [head, merged], RecentMessages());
    SumOfRecent(PER_CHARACTER);
    assert [head, merged][..1] == [head] && [head][..0] == [];
    assert Sum(PER_CHARACTER, [head]) == 10;
    assert Sum(PER_CHARACTER, [head, merged]) == 97 + |summary|;
  }

  ghost predicate AlwaysAnswers(env: Env, summary: string) {
    env.resolves && forall batch :: env.summarize(batch, false) == Text(summary)
  }

  lemma {:induction false} NudgedShape()
    ensures |NudgedView()| == 11 && NudgedView()[0] == EARLIER[0] && CheckpointFree(NudgedView()[..5])
    ensures LatestUser(NudgedView()) == 4 && NudgedView()[4] == REQUEST
  {
    LatestAfter(EARLIER);
    assert NudgedView()[..5] == EARLIER + [REQUEST];
  }

  lemma {:induction false} NudgedCanSummarize(env: Env, summary: string)
    requires AlwaysAnswers(env, summary) && 0 < |summary| <= 700
    ensures CanSummarize(LIMITS, PER_CHARACTER, env, NudgedView())
  {
    hide BatchEnds, ToRaw, Tokens, NudgedView, FirstPersistedSeq, Valid;
    var c, view, out := PER_CHARACTER, NudgedView(), SummarizedView(summary);
    NudgedShape();
    AimsPastRequest();
    NudgedFacts();
    SummarizedIsSmall(summary);
    var r := Result(out, Compressed, false, NoReason, FirstPersistedSeq(view[5..]), 4, Tokens(c, ToRaw(out)), 0);
    assert Summarized(LIMITS, c, env, view, r, summary);
  }

  /**
   The whole way, unforced: the mid-loop path escalates and the durable summary takes the place of the
   request. The next provider call holds no persisted user message at all.
   */
  method CompressNudged(env: Env, summary: string) returns (r: Result)
    requires AlwaysAnswers(env, summary) && 0 < |summary| <= 700
    ensures LatestUserEntry(NudgedView()) == [REQUEST]
    ensures r.outcome.Compressed? && LatestUserEntry(r.view) == []
  {
    hide BatchEnds, ToRaw, Tokens, NudgedView, FirstPersistedSeq, CanSummarize, Attempts, Escalates;
    NudgedEscalates(env);
    NudgedCanSummarize(env, summary);
    r := CompressIfNeeded(LIMITS, PER_CHARACTER, env, NudgedView(), MidLoop);
    RequestIsLost(env, r);
  }

  lemma {:induction false} RequestIsLost(env: Env, r: Result)
    requires exists summary :: Summarized(LIMITS, PER_CHARACTER, env, NudgedView(), r, summary)
    ensures LatestUserEntry(NudgedView()) == [REQUEST] && LatestUserEntry(r.view) == []
  {
    hide BatchEnds, ToRaw, Tokens, NudgedView, FirstPersistedSeq, BatchTarget, Summarized;
    var summary :| Summarized(LIMITS, PER_CHARACTER, env, NudgedView(), r, summary);
    NudgedShape();
    AimsPastRequest();
    SummaryKeepsRequestIff(LIMITS, PER_CHARACTER, env, NudgedView(), r, summary);
  }
}
