/**
 The provider-payload protocol: what a message list must look like before it may be
 sent to a model provider.

 `Valid` is a one-pass scan that tracks the calls still waiting for a result; scanning
 composes over concatenation, which is what every other component relies on.
 `MadeOfBlocks` says the same thing without a scan: the list is a concatenation of
 plain messages and of assistant messages directly followed by one result per call.
 */
module Payload {

  type CallId = string

  datatype Role = System | User | Assistant | Tool | UnknownRole

  datatype CallType = FunctionCall | UntypedCall | OtherCall

  datatype ToolCall = ToolCall(id: CallId, kind: CallType, name: string, args: string)

  datatype Message = Message(role: Role, content: string, calls: seq<ToolCall>, toolCallId: CallId)

  /** An assistant message that opens a tool-call group. */
  predicate Opens(m: Message) {
    m.role.Assistant? && m.calls != []
  }

  function Ids(calls: seq<ToolCall>): seq<CallId> {
    seq(|calls|, i requires 0 <= i < |calls| => calls[i].id)
  }

  function ResultIds(results: seq<Message>): seq<CallId> {
    seq(|results|, i requires 0 <= i < |results| => results[i].toolCallId)
  }

  function IdSet(ids: seq<CallId>): set<CallId> {
    set id | id in ids
  }

  /** The IDs of every assistant call, in list order. */
  function CallIds(msgs: seq<Message>): seq<CallId> {
    if msgs == [] then []
    else (if Opens(msgs[0]) then Ids(msgs[0].calls) else []) + CallIds(msgs[1..])
  }

  predicate Distinct<T(==)>(s: seq<T>) {
    forall i, j :: 0 <= i < j < |s| ==> s[i] != s[j]
  }

  predicate UsableIds(ids: seq<CallId>) {
    Distinct(ids) && "" !in ids
  }

  /** Scanner state: the calls of the open group that still lack a result. */
  datatype Scan = Broken | Awaiting(ids: set<CallId>)

  const Idle := Awaiting({})

  function Step(s: Scan, m: Message): Scan {
    match s
    case Broken => Broken
    case Awaiting(ids) =>
      if m.role.Tool? then
        if m.toolCallId in ids then Awaiting(ids - {m.toolCallId}) else Broken
      else if ids != {} then Broken
      else if Opens(m) then Awaiting(IdSet(Ids(m.calls)))
      else Idle
  }

  function Run(s: Scan, msgs: seq<Message>): Scan
    decreases |msgs|
  {
    if msgs == [] then s else Run(Step(s, msgs[0]), msgs[1..])
  }

  /** No fault so far; an open group may still be waiting for results. */
  predicate Scannable(msgs: seq<Message>) {
    Run(Idle, msgs) != Broken && UsableIds(CallIds(msgs))
  }

  predicate Valid(msgs: seq<Message>) {
    Run(Idle, msgs) == Idle && UsableIds(CallIds(msgs))
  }

  // ---- composition -------------------------------------------------------

  lemma {:induction false} RunConcat(s: Scan, a: seq<Message>, b: seq<Message>)
    ensures Run(s, a + b) == Run(Run(s, a), b)
    decreases |a|
  {
    if a == [] {
      assert a + b == b;
    } else {
      assert (a + b)[1..] == a[1..] + b;
      RunConcat(Step(s, a[0]), a[1..], b);
    }
  }

  lemma {:induction false} RunBroken(msgs: seq<Message>)
    ensures Run(Broken, msgs) == Broken
  {
    if msgs != [] {
      RunBroken(msgs[1..]);
    }
  }

  lemma {:induction false} CallIdsConcat(a: seq<Message>, b: seq<Message>)
    ensures CallIds(a + b) == CallIds(a) + CallIds(b)
  {
    if a == [] {
      assert a + b == b;
    } else {
      assert (a + b)[1..] == a[1..] + b;
      CallIdsConcat(a[1..], b);
    }
  }

  lemma {:induction false} RunSnoc(s: Scan, msgs: seq<Message>, m: Message)
    ensures Run(s, msgs + [m]) == Step(Run(s, msgs), m)
    ensures CallIds(msgs + [m]) == CallIds(msgs) + (if Opens(m) then Ids(m.calls) else [])
  {
    RunConcat(s, msgs, [m]);
    CallIdsConcat(msgs, [m]);
    assert Run(Run(s, msgs), [m]) == Run(Step(Run(s, msgs), m), [m][1..]);
  }

  lemma {:induction false} UsableParts(a: seq<CallId>, b: seq<CallId>)
    requires UsableIds(a + b)
    ensures UsableIds(a) && UsableIds(b)
    ensures forall x | x in a :: x !in b
  {
    assert forall i | 0 <= i < |a| :: (a + b)[i] == a[i];
    assert forall i | 0 <= i < |b| :: (a + b)[|a| + i] == b[i];
  }

  /** Faults never heal: every prefix of a scannable list is scannable. */
  lemma {:induction false} ScannablePrefix(a: seq<Message>, b: seq<Message>)
    requires Scannable(a + b)
    ensures Scannable(a)
  {
    RunConcat(Idle, a, b);
    RunBroken(b);
    CallIdsConcat(a, b);
    UsableParts(CallIds(a), CallIds(b));
  }

  /** A valid list cut where the first part is complete leaves two valid lists. */
  lemma {:induction false} ValidCut(a: seq<Message>, b: seq<Message>)
    requires Valid(a + b) && Run(Idle, a) == Idle
    ensures Valid(a) && Valid(b)
  {
    RunConcat(Idle, a, b);
    CallIdsConcat(a, b);
    UsableParts(CallIds(a), CallIds(b));
  }

  // ---- the block reading of validity ---------------------------------------

  function Flatten<T>(blocks: seq<seq<T>>): seq<T> {
    if blocks == [] then [] else blocks[0] + Flatten(blocks[1..])
  }

  /** One message that neither opens a group nor answers a call. */
  ghost predicate Plain(b: seq<Message>) {
    |b| == 1 && !b[0].role.Tool? && !Opens(b[0])
  }

  /** An assistant message followed by exactly one result per call. */
  ghost predicate Exchange(b: seq<Message>) {
    && |b| >= 1 && Opens(b[0])
    && (forall k | 1 <= k < |b| :: b[k].role.Tool?)
    && multiset(ResultIds(b[1..])) == multiset(Ids(b[0].calls))
  }

  ghost predicate MadeOfBlocks(msgs: seq<Message>, blocks: seq<seq<Message>>) {
    Flatten(blocks) == msgs && forall b | b in blocks :: Plain(b) || Exchange(b)
  }

  /** Results whose IDs are exactly the awaited set, each once, complete the group. */
  lemma {:induction false} ResultsComplete(ids: set<CallId>, results: seq<Message>)
    requires forall m | m in results :: m.role.Tool?
    requires multiset(ResultIds(results)) == multiset(ids)
    ensures Run(Awaiting(ids), results) == Idle
  {
    if results == [] {
      assert forall x | x in ids :: x in multiset(ids);
    } else {
      var id := results[0].toolCallId;
      assert ResultIds(results) == [id] + ResultIds(results[1..]);
      assert id in multiset(ids);
      assert multiset(ids - {id}) == multiset(ids) - multiset{id};
      ResultsComplete(ids - {id}, results[1..]);
    }
  }

  lemma {:induction false} FirstResult(ids: set<CallId>, msgs: seq<Message>)
    requires ids != {} && Run(Awaiting(ids), msgs) == Idle
    ensures msgs != [] && msgs[0].role.Tool? && msgs[0].toolCallId in ids
    ensures Run(Awaiting(ids - {msgs[0].toolCallId}), msgs[1..]) == Idle
  {
    if msgs != [] {
      RunBroken(msgs[1..]);
    }
  }

  lemma {:induction false} OneMoreResult(ids: set<CallId>, m: Message, rest: seq<Message>)
    requires m.toolCallId in ids && multiset(ResultIds(rest)) == multiset(ids - {m.toolCallId})
    ensures multiset(ResultIds([m] + rest)) == multiset(ids)
  {
    assert ResultIds([m] + rest) == [m.toolCallId] + ResultIds(rest);
    assert multiset(ids - {m.toolCallId}) == multiset(ids) - multiset{m.toolCallId};
  }

  /** Conversely, a scan that ends idle finds those results at the head of the list. */
  lemma {:induction false} ResultsFound(ids: set<CallId>, msgs: seq<Message>) returns (n: nat)
    requires Run(Awaiting(ids), msgs) == Idle
    ensures n <= |msgs|
    ensures forall m | m in msgs[..n] :: m.role.Tool?
    ensures multiset(ResultIds(msgs[..n])) == multiset(ids)
    ensures Run(Idle, msgs[n..]) == Idle
    decreases |msgs|
  {
    hide Run, ResultIds;
    if ids == {} {
      n := 0;
      assert msgs[..0] == [] && msgs[0..] == msgs;
      NoResults();
    } else {
      FirstResult(ids, msgs);
      var k := ResultsFound(ids - {msgs[0].toolCallId}, msgs[1..]);
      n := k + 1;
      assert msgs[..n] == [msgs[0]] + msgs[1..][..k] && msgs[n..] == msgs[1..][k..];
      OneMoreResult(ids, msgs[0], msgs[1..][..k]);
    }
  }

  lemma {:induction false} NoResults()
    ensures ResultIds([]) == []
  {
  }

  lemma {:induction false} DistinctAsSet(s: seq<CallId>)
    requires Distinct(s)
    ensures multiset(s) == multiset(IdSet(s))
  {
    if s != [] {
      assert s == [s[0]] + s[1..];
      DistinctAsSet(s[1..]);
      assert s[0] !in s[1..];
      assert IdSet(s) == {s[0]} + IdSet(s[1..]);
    }
  }

  lemma {:induction false} BlocksRunIdle(blocks: seq<seq<Message>>)
    requires forall b | b in blocks :: Plain(b) || Exchange(b)
    requires UsableIds(CallIds(Flatten(blocks)))
    ensures Run(Idle, Flatten(blocks)) == Idle
  {
    if blocks != [] {
      var b := blocks[0];
      RunConcat(Idle, b, Flatten(blocks[1..]));
      CallIdsConcat(b, Flatten(blocks[1..]));
      UsableParts(CallIds(b), CallIds(Flatten(blocks[1..])));
      BlocksRunIdle(blocks[1..]);
      if Exchange(b) {
        var ids := Ids(b[0].calls);
        CallIdsConcat([b[0]], b[1..]);
        assert b == [b[0]] + b[1..];
        UsableParts(CallIds([b[0]]), CallIds(b[1..]));
        assert CallIds([b[0]]) == ids;
        DistinctAsSet(ids);
        ResultsComplete(IdSet(ids), b[1..]);
      }
    }
  }

  lemma {:induction false} ExchangeFound(head: Message, tail: seq<Message>) returns (k: nat)
    requires Opens(head) && Distinct(Ids(head.calls))
    requires Run(Awaiting(IdSet(Ids(head.calls))), tail) == Idle
    ensures k <= |tail| && Exchange([head] + tail[..k])
    ensures Run(Idle, tail[k..]) == Idle
  {
    k := ResultsFound(IdSet(Ids(head.calls)), tail);
    DistinctAsSet(Ids(head.calls));
    var b := [head] + tail[..k];
    assert b[1..] == tail[..k];
    assert forall i | 1 <= i < |b| :: b[i] == tail[..k][i - 1];
  }

  lemma {:induction false} FirstExchange(head: Message, tail: seq<Message>) returns (k: nat)
    requires Valid([head] + tail) && Opens(head)
    ensures k <= |tail| && Exchange([head] + tail[..k]) && Valid(tail[k..])
  {
    hide Exchange;
    var ids := Ids(head.calls);
    assert ([head] + tail)[1..] == tail;
    RunBroken(tail);
    UsableParts(ids, CallIds(tail));
    k := ExchangeFound(head, tail);
    CallIdsConcat(tail[..k], tail[k..]);
    assert tail == tail[..k] + tail[k..];
    UsableParts(CallIds(tail[..k]), CallIds(tail[k..]));
  }

  lemma {:induction false} FirstBlock(msgs: seq<Message>) returns (n: nat)
    requires Valid(msgs) && msgs != []
    ensures 1 <= n <= |msgs|
    ensures Plain(msgs[..n]) || Exchange(msgs[..n])
    ensures Valid(msgs[n..])
  {
    hide Exchange, Distinct;
    var head, tail := msgs[0], msgs[1..];
    assert msgs == [head] + tail;
    if Opens(head) {
      var k := FirstExchange(head, tail);
      n := k + 1;
      assert msgs[..n] == [head] + tail[..k] && msgs[n..] == tail[k..];
    } else {
      RunBroken(tail);
      n := 1;
      assert CallIds(msgs) == [] + CallIds(tail) == CallIds(tail);
      assert msgs[..1] == [head] && msgs[1..] == tail;
    }
  }

  lemma {:induction false} BlocksFound(msgs: seq<Message>) returns (blocks: seq<seq<Message>>)
    requires Valid(msgs)
    ensures MadeOfBlocks(msgs, blocks)
    decreases |msgs|
  {
    if msgs == [] {
      blocks := [];
    } else {
      var n := FirstBlock(msgs);
      var b, rest := msgs[..n], msgs[n..];
      blocks := BlocksFound(rest);
      blocks := [b] + blocks;
      assert msgs == b + rest;
    }
  }

  /** The scan accepts exactly the lists that are made of complete blocks. */
  lemma {:induction false} ValidIsBlocks(msgs: seq<Message>)
    ensures Valid(msgs) <==>
      UsableIds(CallIds(msgs)) && exists blocks :: MadeOfBlocks(msgs, blocks)
  {
    if Valid(msgs) {
      var blocks := BlocksFound(msgs);
      assert MadeOfBlocks(msgs, blocks);
    }
    if UsableIds(CallIds(msgs)) && exists blocks :: MadeOfBlocks(msgs, blocks) {
      var blocks :| MadeOfBlocks(msgs, blocks);
      BlocksRunIdle(blocks);
    }
  }

  // ---- the validator ---------------------------------------------------------

  datatype Fault =
    | EmptyResultId
    | OrphanResult
    | ForeignResult
    | RepeatedResult
    | EmptyCallId
    | ReusedCallId
    | MissingResult(assistant: nat, id: CallId)

  datatype Verdict = Safe | Unsafe(index: nat, fault: Fault)

  /** What a reported fault says about the message at the reported index. */
  ghost predicate Explains(msgs: seq<Message>, index: nat, fault: Fault)
    requires index <= |msgs|
  {
    var scan := Run(Idle, msgs[..index]);
    var seen := CallIds(msgs[..index]);
    match fault
    case EmptyResultId => index < |msgs| && msgs[index].role.Tool? && msgs[index].toolCallId == ""
    case OrphanResult => index < |msgs| && msgs[index].role.Tool? && scan == Idle
    case ForeignResult =>
      index < |msgs| && msgs[index].role.Tool? && scan.Awaiting? && msgs[index].toolCallId !in scan.ids
    case RepeatedResult => index < |msgs| && msgs[index].role.Tool? && msgs[index].toolCallId in seen
    case EmptyCallId => index < |msgs| && Opens(msgs[index]) && "" in Ids(msgs[index].calls)
    case ReusedCallId => index < |msgs| && Opens(msgs[index]) && !Distinct(seen + Ids(msgs[index].calls))
    case MissingResult(a, id) =>
      a < index && Opens(msgs[a]) && id in Ids(msgs[a].calls) && scan.Awaiting? && id in scan.ids
  }

  /** The open group's result table: call ID -> answered. */
  datatype Pending = NoGroup | OpenGroup(answered: map<CallId, bool>)

  ghost predicate Tracks(pending: Pending, assistant: nat, prefix: seq<Message>) {
    match pending
    case NoGroup => Run(Idle, prefix) == Idle
    case OpenGroup(answered) =>
      && Run(Idle, prefix) == Awaiting(set id | id in answered && !answered[id])
      && assistant < |prefix| && Opens(prefix[assistant])
      && (forall id | id in answered :: id in Ids(prefix[assistant].calls))
      && (forall id | id in answered :: id != "" && id in CallIds(prefix))
  }

  /**
   Registers the calls of one assistant message. IDs of the group are added to `seen` as
   they are read, so a repeat inside the group is already reported as a reused ID and the
   source's separate "duplicates" error cannot occur.
   */
  method RegisterCalls(calls: seq<ToolCall>, seen: set<CallId>, ghost before: seq<CallId>)
    returns (fault: Verdict, seenAfter: set<CallId>, answered: map<CallId, bool>)
    requires UsableIds(before) && seen == IdSet(before)
    ensures fault.Safe? <==> UsableIds(before + Ids(calls))
    ensures fault.Unsafe? ==>
      || (fault.fault.EmptyCallId? && "" in Ids(calls))
      || (fault.fault.ReusedCallId? && !Distinct(before + Ids(calls)))
    ensures fault.Safe? ==> seenAfter == IdSet(before + Ids(calls))
    ensures fault.Safe? ==> answered.Keys == IdSet(Ids(calls)) && forall id | id in answered :: !answered[id]
  {
    seenAfter, answered, fault := seen, map[], Safe;
    for k := 0 to |calls|
      invariant UsableIds(before + Ids(calls[..k]))
      invariant seenAfter == IdSet(before + Ids(calls[..k]))
      invariant answered.Keys == IdSet(Ids(calls[..k]))
      invariant forall id | id in answered :: !answered[id]
    {
      var id := calls[k].id;
      assert Ids(calls)[k] == id;
      assert Ids(calls[..k + 1]) == Ids(calls[..k]) + [id];
      assert before + Ids(calls[..k + 1]) == before + Ids(calls[..k]) + [id];
      if id == "" {
        assert (before + Ids(calls))[|before| + k] == "";
        return Unsafe(0, EmptyCallId), seenAfter, answered;
      }
      if id in seenAfter {
        assert Ids(calls[..k]) == Ids(calls)[..k];
        RepeatedIsIndistinct(before, Ids(calls), k);
        return Unsafe(0, ReusedCallId), seenAfter, answered;
      }
      assert id !in answered;
      seenAfter := seenAfter + {id};
      answered := answered[id := false];
    }
    assert calls[..|calls|] == calls;
  }

  method ValidateProviderPayload(msgs: seq<Message>) returns (verdict: Verdict)
    ensures verdict.Safe? <==> Valid(msgs)
    ensures verdict.Unsafe? ==>
      verdict.index <= |msgs| && Scannable(msgs[..verdict.index]) &&
      (verdict.index < |msgs| ==> !Scannable(msgs[..verdict.index + 1]))
    ensures verdict.Unsafe? ==> Explains(msgs, verdict.index, verdict.fault)
  {
    var seen: set<CallId> := {};
    var pending, pendingAssistant := NoGroup, 0;
    for i := 0 to |msgs|
      invariant Scannable(msgs[..i])
      invariant seen == IdSet(CallIds(msgs[..i]))
      invariant Tracks(pending, pendingAssistant, msgs[..i])
    {
      var m := msgs[i];
      ghost var prefix := msgs[..i];
      OneMore(msgs, i);
      if m.role.Tool? {
        if m.toolCallId == "" {
          return Unsafe(i, EmptyResultId);
        }
        if pending.NoGroup? {
          return Unsafe(i, OrphanResult);
        }
        if m.toolCallId !in pending.answered {
          return Unsafe(i, ForeignResult);
        }
        if pending.answered[m.toolCallId] {
          return Unsafe(i, RepeatedResult);
        }
        TracksAnswer(pending, pendingAssistant, prefix, m);
        pending := OpenGroup(pending.answered[m.toolCallId := true]);
      } else {
        if pending.OpenGroup? {
          var unanswered := set id | id in pending.answered && !pending.answered[id];
          if unanswered != {} {
            var id :| id in unanswered;
            return Unsafe(i, MissingResult(pendingAssistant, id));
          }
          pending := NoGroup;
        }
        if Opens(m) {
          var fault, seenAfter, answered := RegisterCalls(m.calls, seen, CallIds(prefix));
          if fault.Unsafe? {
            return Unsafe(i, fault.fault);
          }
          seen, pending, pendingAssistant := seenAfter, OpenGroup(answered), i;
          assert (set id | id in answered && !answered[id]) == IdSet(Ids(m.calls));
        }
      }
    }
    assert msgs[..|msgs|] == msgs;
    if pending.OpenGroup? {
      var unanswered := set id | id in pending.answered && !pending.answered[id];
      if unanswered != {} {
        var id :| id in unanswered;
        return Unsafe(|msgs|, MissingResult(pendingAssistant, id));
      }
    }
    return Safe;
  }

  /** How scanning one more message extends the prefix, and that faults are final. */
  lemma {:induction false} OneMore(msgs: seq<Message>, i: nat)
    requires i < |msgs|
    ensures msgs[..i + 1] == msgs[..i] + [msgs[i]]
    ensures Run(Idle, msgs[..i + 1]) == Step(Run(Idle, msgs[..i]), msgs[i])
    ensures CallIds(msgs[..i + 1]) == CallIds(msgs[..i]) + (if Opens(msgs[i]) then Ids(msgs[i].calls) else [])
    ensures !Scannable(msgs[..i + 1]) ==> !Valid(msgs)
  {
    assert msgs[..i + 1] == msgs[..i] + [msgs[i]];
    RunSnoc(Idle, msgs[..i], msgs[i]);
    if Valid(msgs) {
      assert msgs == msgs[..i + 1] + msgs[i + 1..];
      ScannablePrefix(msgs[..i + 1], msgs[i + 1..]);
    }
  }

  lemma {:induction false} TracksAnswer(pending: Pending, assistant: nat, prefix: seq<Message>, m: Message)
    requires Tracks(pending, assistant, prefix) && pending.OpenGroup? && m.role.Tool?
    requires m.toolCallId in pending.answered && !pending.answered[m.toolCallId]
    ensures Tracks(OpenGroup(pending.answered[m.toolCallId := true]), assistant, prefix + [m])
  {
    var after := pending.answered[m.toolCallId := true];
    RunSnoc(Idle, prefix, m);
    assert (set id | id in after && !after[id])
        == (set id | id in pending.answered && !pending.answered[id]) - {m.toolCallId};
  }

  lemma {:induction false} RepeatedIsIndistinct(before: seq<CallId>, ids: seq<CallId>, k: nat)
    requires k < |ids| && ids[k] in before + ids[..k]
    ensures !Distinct(before + ids)
  {
    var all := before + ids;
    var j :| 0 <= j < |before| + k && (before + ids[..k])[j] == ids[k];
    assert all[j] == all[|before| + k];
  }
}
