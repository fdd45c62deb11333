/**
 Whole turns: the user message, any number of tool rounds, steering, nudges and the final reply, streamed or
 not; and the self-heal of a crashed turn.
 */
module TurnLoop {
  import opened Sequences
  import opened Payload
  import opened Indexed
  import opened Sanitize
  import opened Turn
  import opened TextCalls
  import opened StreamTurn

  lemma {:induction false} SealedIsOrdered(content: string, calls: seq<ToolCall>, outputs: seq<string>)
    requires calls != [] && |calls| == |outputs|
    ensures InProviderOrder([AssistantMessage(content, calls)] + Results(calls, outputs))
  {
    var msgs := [AssistantMessage(content, calls)] + Results(calls, outputs);
    assert msgs[1..|calls| + 1] == Results(calls, outputs) && msgs[|calls| + 1..] == [];
    assert Ids(Stored(calls)) == Ids(calls);
    ResultIdsOfResults(calls, outputs);
  }

  /** What the turn has added to the history so far is complete and in provider order. */
  ghost predicate Extends(before: seq<Message>, now: seq<Message>) {
    before <= now && InProviderOrder(now[|before|..])
  }

  lemma {:induction false} ExtendsMore(before: seq<Message>, now: seq<Message>, more: seq<Message>)
    requires Extends(before, now) && InProviderOrder(more)
    ensures Extends(before, now + more)
  {
    OrderConcat(now[|before|..], more);
    assert (now + more)[|before|..] == now[|before|..] + more;
  }

  lemma {:induction false} PlainIsOrdered(m: Message)
    requires !Opens(m) && !m.role.Tool?
    ensures InProviderOrder([m])
  {
    assert [m][1..] == [];
  }

  method AppendPlain(t: Thread, m: Message, ghost before: seq<Message>) returns (ok: bool)
    requires !Opens(m) && !m.role.Tool? && t.Usable() && Extends(before, t.history)
    modifies t`history
    ensures t.Usable() && Extends(before, t.history)
    ensures t.history == if ok then old(t.history) + [m] else old(t.history)
  {
    PlainIsOrdered(m);
    ExtendsMore(before, t.history, [m]);
    ok := t.AppendMessage(m);
  }

  datatype Response =
    | ToolCalls(content: string, calls: seq<ToolCall>, runs: seq<string>, parallel: bool, steering: seq<string>)
    | Nudged(content: string)      // a reply that is not stored: a verification reminder goes back instead
    | Final(content: string)
    | Streamed(content: string, calls: seq<ToolCall>, runs: seq<string>)   // with the calls parsed from its text
    | ProviderFailure

  predicate WellFormed(r: Response) {
    match r
    case ToolCalls(_, calls, runs, _, _) => calls != [] && |runs| == |calls|
    case Streamed(_, calls, runs) => |runs| == |calls| && AllFunctions(calls) && "" !in Ids(calls)
    case _ => true
  }

  /** What the parsers find in a streamed reply is well formed. */
  lemma {:induction false} ParsedIsWellFormed(content: string, found: seq<Found>, tickets: seq<nat>, runs: seq<string>)
    requires |found| == |tickets| == |runs| && Ascending(tickets)
    ensures WellFormed(Streamed(content, ParsedCalls(found, tickets), runs))
  {
    ParsedAreUsable(found, tickets);
  }

  const STEERING_WRAPPER := "[The user sent this message while you were working.]\n\n"

  /** The durable form of drained steering messages, abbreviated wrapper included. */
  function Steered(texts: seq<string>): seq<Message> {
    seq(|texts|, i requires 0 <= i < |texts| => UserMessage(STEERING_WRAPPER + texts[i]))
  }

  /** Persists a drained batch; the first failure abandons the rest of the batch. */
  method DrainSteering(t: Thread, texts: seq<string>, ghost before: seq<Message>)
    returns (ok: bool, ghost n: nat)
    requires t.Usable() && Extends(before, t.history)
    modifies t`history
    ensures t.Usable() && Extends(before, t.history)
    ensures n <= |texts| && t.history == old(t.history) + Steered(texts)[..n]
    ensures ok ==> n == |texts|
  {
    n := 0;
    for i := 0 to |texts|
      invariant t.Usable() && Extends(before, t.history)
      invariant n == i && t.history == old(t.history) + Steered(texts)[..i]
    {
      assert Steered(texts)[..i + 1] == Steered(texts)[..i] + [UserMessage(STEERING_WRAPPER + texts[i])];
      ok := AppendPlain(t, UserMessage(STEERING_WRAPPER + texts[i]), before);
      if !ok {
        return false, i;
      }
      n := i + 1;
      var delivered: bool := *;
      if !delivered {
        return false, n;
      }
    }
    ok := true;
  }

  /** The entries of s whose flag is set. */
  function Flagged<T>(s: seq<T>, flags: seq<bool>): seq<T>
    requires |s| == |flags|
  {
    if s == [] then []
    else Flagged(s[..|s| - 1], flags[..|s| - 1]) + if flags[|s| - 1] then [s[|s| - 1]] else []
  }

  /** endSteeringTurn: best effort, a message that fails to be stored is skipped. */
  method EndSteering(t: Thread, texts: seq<string>, ghost before: seq<Message>)
    returns (ghost stored: seq<bool>)
    requires t.Usable() && Extends(before, t.history)
    modifies t`history
    ensures t.Usable() && Extends(before, t.history)
    ensures |stored| == |texts| && t.history == old(t.history) + Flagged(Steered(texts), stored)
  {
    stored := [];
    for i := 0 to |texts|
      invariant t.Usable() && Extends(before, t.history)
      invariant |stored| == i && t.history == old(t.history) + Flagged(Steered(texts)[..i], stored)
    {
      ghost var more := Steered(texts)[..i + 1];
      assert more[..i] == Steered(texts)[..i];
      var ok := AppendPlain(t, UserMessage(STEERING_WRAPPER + texts[i]), before);
      assert (stored + [ok])[..i] == stored;
      stored := stored + [ok];
    }
    assert Steered(texts)[..|texts|] == Steered(texts);
  }

  /** What one response leaves in the history: nothing, or a sealed group and then some steering. */
  ghost predicate Leaves(r: Response, block: seq<Message>) {
    match r
    case ProviderFailure => block == []
    case Nudged(_) => block == []
    case Final(content) => block == [] || block == [Message(Assistant, content, [], "")]
    case ToolCalls(content, calls, runs, _, steering) =>
      block == [] || exists k: nat, n: nat :: GroupThenSteering(content, calls, runs, steering, k, n, block)
    case Streamed(content, calls, runs) =>
      || block == []
      || (calls == [] && content != "" && block == [Message(Assistant, content, [], "")])
      || (calls != [] && exists k: nat :: GroupThenSteering(content, calls, runs, [], k, 0, block))
  }

  ghost predicate GroupThenSteering(content: string, calls: seq<ToolCall>, runs: seq<string>,
                                    steering: seq<string>, k: nat, n: nat, block: seq<Message>) {
    && k <= |calls| == |runs| && n <= |steering| && (n > 0 ==> k == |calls|)
    && block == [AssistantMessage(content, calls)] + Results(calls, runs[..k] + Interrupted(|calls| - k)) +
                Steered(steering)[..n]
  }

  lemma {:induction false} StoredGroup(r: Response, k: nat, n: nat, group: seq<Message>)
    requires r.ToolCalls? && WellFormed(r) && k <= |r.calls| && n <= |r.steering| && (n > 0 ==> k == |r.calls|)
    requires group == [AssistantMessage(r.content, r.calls)] +
                      Results(r.calls, r.runs[..k] + Interrupted(|r.calls| - k))
    ensures Leaves(r, group + Steered(r.steering)[..n])
  {
    assert GroupThenSteering(r.content, r.calls, r.runs, r.steering, k, n, group + Steered(r.steering)[..n]);
  }

  /** One loop pass for a tool-call response; `next` says whether the turn goes on. */
  method ToolPass(t: Thread, view: seq<Entry>, r: Response, ghost before: seq<Message>)
    returns (sealed: bool, next: bool, ghost block: seq<Message>)
    requires r.ToolCalls? && WellFormed(r) && t.Usable() && Extends(before, t.history)
    modifies t
    ensures sealed ==> t.Usable() && Extends(before, t.history)
    ensures sealed ==> t.history == old(t.history) + block && Leaves(r, block)
    ensures next ==> sealed && block != []
  {
    hide InProviderOrder, Distinct;
    var exit;
    ghost var k, now := 0, t.history;
    block := [];
    exit, k := ToolRound(t, view, r.content, r.calls, r.runs, r.parallel);
    if exit.NotPersisted? {
      return true, false, [];
    }
    if exit == Returned(false) {
      return false, false, [];
    }
    if exit.Done? {
      k := |r.calls|;
      assert r.runs[..k] + Interrupted(|r.calls| - k) == r.runs;
    }
    ghost var group := [AssistantMessage(r.content, r.calls)] +
                       Results(r.calls, r.runs[..k] + Interrupted(|r.calls| - k));
    SealedIsOrdered(r.content, r.calls, r.runs[..k] + Interrupted(|r.calls| - k));
    ExtendsMore(before, now, group);
    Assoc(now, [AssistantMessage(r.content, r.calls)], Results(r.calls, r.runs[..k] + Interrupted(|r.calls| - k)));
    assert t.history == now + group;
    StoredGroup(r, k, 0, group);
    assert group + Steered(r.steering)[..0] == group;
    if exit == Returned(true) {
      return true, false, group;
    }
    var cancelled: bool := *;
    var looping: bool := *;
    var unsafePayload: bool := *;
    if cancelled || looping || unsafePayload {
      return true, false, group;
    }
    ghost var n;
    next, n := DrainSteering(t, r.steering, before);
    StoredGroup(r, k, n, group);
    Assoc(now, group, Steered(r.steering)[..n]);
    return true, next, group + Steered(r.steering)[..n];
  }

  /** The turn of a model without tools: the reply is streamed, and calls found in its text are executed. */
  method StreamPass(t: Thread, r: Response, ghost before: seq<Message>)
    returns (sealed: bool, ghost block: seq<Message>)
    requires r.Streamed? && WellFormed(r) && t.Usable() && Extends(before, t.history)
    modifies t
    ensures sealed ==> t.Usable() && Extends(before, t.history)
    ensures sealed ==> t.history == old(t.history) + block && Leaves(r, block)
  {
    hide InProviderOrder, Distinct, StreamHistory;
    ghost var now := t.history;
    block := [];
    if r.calls == [] {
      if r.content != "" {
        var m := Message(Assistant, r.content, [], "");
        var ok := AppendPlain(t, m, before);
        block := if ok then [m] else [];
      }
      return true, block;
    }
    var exit;
    ghost var k;
    exit, k := StreamToolRound(t, r.content, r.calls, r.runs);
    if exit.NotPersisted? {
      return true, [];
    }
    if exit == Returned(false) {
      return false, [];
    }
    ghost var outputs := r.runs[..k] + Interrupted(|r.calls| - k);
    block := [AssistantMessage(r.content, r.calls)] + Results(r.calls, outputs);
    StreamIsSealed(now, r.content, r.calls, r.runs, k);
    Assoc(now, [AssistantMessage(r.content, r.calls)], Results(r.calls, outputs));
    SealedIsOrdered(r.content, r.calls, outputs);
    ExtendsMore(before, now, block);
    StreamedGroup(r, k, block);
    sealed := true;
  }

  lemma {:induction false} StreamedGroup(r: Response, k: nat, block: seq<Message>)
    requires r.Streamed? && WellFormed(r) && r.calls != [] && k <= |r.calls|
    requires block == [AssistantMessage(r.content, r.calls)] +
                      Results(r.calls, r.runs[..k] + Interrupted(|r.calls| - k))
    ensures Leaves(r, block)
  {
    assert Steered([])[..0] == [];
    assert GroupThenSteering(r.content, r.calls, r.runs, [], k, 0, block);
  }

  function Transcript(blocks: seq<seq<Message>>): seq<Message> {
    if blocks == [] then [] else Transcript(blocks[..|blocks| - 1]) + blocks[|blocks| - 1]
  }

  lemma {:induction false} NextBlock(history: seq<Message>, base: seq<Message>, blocks: seq<seq<Message>>,
                                     block: seq<Message>)
    requires history == base + Transcript(blocks)
    ensures history + block == base + Transcript(blocks + [block])
  {
    assert (blocks + [block])[..|blocks|] == blocks;
    Assoc(base, Transcript(blocks), block);
  }

  /** What a whole turn added: the request, one block per response it got to, then leftover steering. */
  ghost predicate TurnAdds(before: seq<Message>, after: seq<Message>, userMessage: string,
                           responses: seq<Response>, undelivered: seq<string>,
                           blocks: seq<seq<Message>>, stored: seq<bool>) {
    && |blocks| <= |responses| && |stored| == |undelivered|
    && (forall i | 0 <= i < |blocks| :: Leaves(responses[i], blocks[i]))
    && (after == before + Flagged(Steered(undelivered), stored) ||
        after == before + [UserMessage(userMessage)] + Transcript(blocks) + Flagged(Steered(undelivered), stored))
  }

  lemma {:induction false} NudgeLeavesNothing(r: Response)
    requires r.Nudged?
    ensures Leaves(r, [])
  {
  }

  /** The response loop; a turn stops at the first response that ends it. */
  method Respond(t: Thread, responses: seq<Response>, ghost before: seq<Message>)
    returns (sealed: bool, ghost blocks: seq<seq<Message>>)
    requires t.Usable() && Extends(before, t.history) && forall r | r in responses :: WellFormed(r)
    modifies t
    ensures sealed ==> t.Usable() && Extends(before, t.history)
    ensures sealed ==> t.history == old(t.history) + Transcript(blocks) && |blocks| <= |responses|
    ensures sealed ==> forall i | 0 <= i < |blocks| :: Leaves(responses[i], blocks[i])
  {
    hide InProviderOrder, Distinct, Leaves;
    ghost var base := t.history;
    sealed, blocks := true, [];
    assert t.history == base + Transcript(blocks);
    var next, turn := true, 0;
    while next && turn < |responses|
      invariant sealed ==> t.Usable() && Extends(before, t.history)
      invariant sealed ==> t.history == base + Transcript(blocks) && |blocks| == turn <= |responses|
      invariant sealed ==> forall i | 0 <= i < |blocks| :: Leaves(responses[i], blocks[i])
      invariant next ==> sealed
      invariant turn <= |responses|
    {
      var r := responses[turn];
      turn := turn + 1;
      ghost var block, now := [], t.history;
      if r.ToolCalls? {
        var view: seq<Entry> := *;
        sealed, next, block := ToolPass(t, view, r, before);
      } else if r.Streamed? {
        sealed, block := StreamPass(t, r, before);
        next := false;
      } else if r.Nudged? {
        // The reminder is shown to the model only; the turn goes on.
        NudgeLeavesNothing(r);
      } else {
        block := Conclude(t, r, before);
        next := false;
      }
      NextBlock(now, base, blocks, block);
      blocks := blocks + [block];
    }
  }

  /** A final reply or a failure ends the turn, after the text if there is one. */
  method Conclude(t: Thread, r: Response, ghost before: seq<Message>) returns (ghost block: seq<Message>)
    requires (r.Final? || r.ProviderFailure?) && t.Usable() && Extends(before, t.history)
    modifies t`history
    ensures t.Usable() && Extends(before, t.history)
    ensures t.history == old(t.history) + block && Leaves(r, block)
  {
    block := [];
    if r.Final? && r.content != "" {
      var m := Message(Assistant, r.content, [], "");
      var ok := AppendPlain(t, m, before);
      block := if ok then [m] else [];
    }
  }

  /**
   One turn, from the user message to the end of steering. The in-memory view may be any view
   at each request (compression rewrites it); `sealed` is false only if a closing append failed.
   */
  method Chat(t: Thread, userMessage: string, responses: seq<Response>, undelivered: seq<string>)
    returns (sealed: bool, ghost blocks: seq<seq<Message>>, ghost stored: seq<bool>)
    requires t.Usable() && forall r | r in responses :: WellFormed(r)
    modifies t
    ensures sealed ==> t.Usable() && Extends(old(t.history), t.history)
    ensures sealed ==>
      TurnAdds(old(t.history), t.history, userMessage, responses, undelivered, blocks, stored)
    ensures sealed && Valid(old(t.history)) ==> Valid(t.history)
  {
    hide InProviderOrder, Distinct, Leaves, Flagged, Steered, Transcript, CallIds;
    ghost var before := t.history;
    NothingAdded(before);
    sealed, blocks, stored := true, [], [];
    var ok := AppendPlain(t, UserMessage(userMessage), before);
    if ok {
      sealed, blocks := Respond(t, responses, before);
    }
    if sealed {
      stored := EndSteering(t, undelivered, before);
      if Valid(before) {
        assert t.history == before + t.history[|before|..];
        OrderKeepsValid(before, t.history[|before|..]);
      }
    }
  }

  lemma {:induction false} NothingAdded(history: seq<Message>)
    ensures Extends(history, history)
  {
    assert history[|history|..] == [];
  }

  // ---- crash residue ---------------------------------------------------------------------

  /** Where the trailing run of tool messages starts. */
  function TrailingStart(msgs: seq<Message>): (start: nat)
    ensures start <= |msgs|
  {
    if msgs != [] && msgs[|msgs| - 1].role.Tool? then TrailingStart(msgs[..|msgs| - 1]) else |msgs|
  }

  lemma {:induction false} TrailingFacts(msgs: seq<Message>)
    ensures forall k | TrailingStart(msgs) <= k < |msgs| :: msgs[k].role.Tool?
    ensures TrailingStart(msgs) > 0 ==> !msgs[TrailingStart(msgs) - 1].role.Tool?
  {
    if msgs != [] && msgs[|msgs| - 1].role.Tool? {
      TrailingFacts(msgs[..|msgs| - 1]);
      assert forall k | 0 <= k < |msgs| - 1 :: msgs[..|msgs| - 1][k] == msgs[k];
    }
  }

  function Missing(calls: seq<ToolCall>, answered: set<CallId>): seq<ToolCall> {
    if calls == [] then []
    else
      var n := |calls| - 1;
      Missing(calls[..n], answered) +
      (if calls[n].id != "" && calls[n].id !in answered then [calls[n]] else [])
  }

  /** The unanswered calls of the final persisted group, in call order. */
  function TrailingUnanswered(view: seq<Entry>): seq<ToolCall> {
    var start := TrailingStart(Strip(view));
    if start == 0 || view[start - 1].synthetic || !Opens(view[start - 1].msg) then []
    else Missing(view[start - 1].msg.calls, IdSet(ResultIds(Strip(view)[start..])))
  }

  method TrailingUnansweredToolCalls(view: seq<Entry>) returns (missing: seq<ToolCall>)
    ensures missing == TrailingUnanswered(view)
  {
    var i := |view| - 1;
    var answered: set<CallId> := {};
    ghost var msgs := Strip(view);
    assert msgs[..|view|] == msgs;
    while i >= 0 && view[i].msg.role.Tool?
      invariant -1 <= i < |view|
      invariant TrailingStart(msgs[..i + 1]) == TrailingStart(msgs)
      invariant answered == IdSet(ResultIds(msgs[i + 1..]))
    {
      assert msgs[..i + 1][..i] == msgs[..i];
      assert ResultIds(msgs[i..]) == [msgs[i].toolCallId] + ResultIds(msgs[i + 1..]);
      answered := answered + {view[i].msg.toolCallId};
      i := i - 1;
    }
    assert TrailingStart(msgs) == i + 1;
    missing := [];
    if i < 0 || view[i].synthetic || !Opens(view[i].msg) {
      return;
    }
    var calls := view[i].msg.calls;
    for k := 0 to |calls|
      invariant missing == Missing(calls[..k], answered)
    {
      assert calls[..k + 1][..k] == calls[..k];
      if calls[k].id != "" && calls[k].id !in answered {
        missing := missing + [calls[k]];
      }
    }
    assert calls[..|calls|] == calls;
  }

  lemma {:induction false} MissingFacts(calls: seq<ToolCall>, answered: set<CallId>)
    requires UsableIds(Ids(calls))
    ensures Distinct(Ids(Missing(calls, answered)))
    ensures IdSet(Ids(Missing(calls, answered))) == IdSet(Ids(calls)) - answered
  {
    if calls != [] {
      var n := |calls| - 1;
      assert Ids(calls) == Ids(calls[..n]) + [calls[n].id];
      UsableParts(Ids(calls[..n]), [calls[n].id]);
      MissingFacts(calls[..n], answered);
      var front, id := Missing(calls[..n], answered), calls[n].id;
      assert id in [id] && id in Ids(calls);
      assert IdSet(Ids(calls)) == IdSet(Ids(calls[..n])) + {id};
      assert forall x | x in Ids(front) :: x in IdSet(Ids(front));
      if id in answered {
        assert Missing(calls, answered) == front;
      } else {
        assert Ids(front + [calls[n]]) == Ids(front) + [id];
        assert IdSet(Ids(front) + [id]) == IdSet(Ids(front)) + {id};
        DistinctJoin(Ids(front), [id]);
      }
    }
  }

  /** Results that do not break the scan are crossed off one by one. */
  lemma {:induction false} ResultsCrossOff(ids: set<CallId>, results: seq<Message>)
    requires forall m | m in results :: m.role.Tool?
    requires Run(Awaiting(ids), results) != Broken
    ensures Run(Awaiting(ids), results) == Awaiting(ids - IdSet(ResultIds(results)))
    decreases |results|
  {
    if results != [] {
      RunBroken(results[1..]);
      var id := results[0].toolCallId;
      ResultsCrossOff(ids - {id}, results[1..]);
      assert ResultIds(results) == [id] + ResultIds(results[1..]);
      assert ids - IdSet(ResultIds(results)) == ids - {id} - IdSet(ResultIds(results[1..]));
    } else {
      assert ids - IdSet(ResultIds(results)) == ids;
    }
  }

  /** The scan state of a fault-free list, read off its last group. */
  lemma {:induction false} TrailingState(msgs: seq<Message>)
    requires Scannable(msgs)
    ensures var start := TrailingStart(msgs);
      if start > 0 && Opens(msgs[start - 1])
      then UsableIds(Ids(msgs[start - 1].calls)) &&
           Run(Idle, msgs) == Awaiting(IdSet(Ids(msgs[start - 1].calls)) - IdSet(ResultIds(msgs[start..])))
      else Run(Idle, msgs) == Idle
  {
    var start := TrailingStart(msgs);
    var results := msgs[start..];
    TrailingFacts(msgs);
    assert forall m | m in results :: m.role.Tool?;
    assert msgs == msgs[..start] + results;
    RunConcat(Idle, msgs[..start], results);
    if start == 0 {
      ResultsCrossOff({}, results);
    } else {
      var h := msgs[start - 1];
      OneMore(msgs, start - 1);
      RunBroken(results);
      ScannablePrefix(msgs[..start], results);
      UsableParts(CallIds(msgs[..start - 1]), if Opens(h) then Ids(h.calls) else []);
      ResultsCrossOff(if Opens(h) then IdSet(Ids(h.calls)) else {}, results);
    }
  }

  /**
   Self-heal: any fault-free history, even one cut off inside a call group, becomes valid once
   the reported calls receive their interrupted results.
   */
  lemma {:induction false} HealedIsValid(view: seq<Entry>)
    requires Scannable(Strip(view))
    requires TrailingStart(Strip(view)) > 0 ==> !view[TrailingStart(Strip(view)) - 1].synthetic
    ensures var missing := TrailingUnanswered(view);
      Valid(Strip(view) + Results(missing, Interrupted(|missing|)))
  {
    var msgs, missing := Strip(view), TrailingUnanswered(view);
    var start, seals := TrailingStart(msgs), Results(missing, Interrupted(|missing|));
    TrailingState(msgs);
    RunConcat(Idle, msgs, seals);
    CallIdsConcat(msgs, seals);
    assert forall m | m in seals :: m.role.Tool?;
    ToolsHaveNoCalls(seals);
    assert CallIds(msgs) + [] == CallIds(msgs);
    if start > 0 && Opens(msgs[start - 1]) {
      var calls, answered := msgs[start - 1].calls, IdSet(ResultIds(msgs[start..]));
      MissingFacts(calls, answered);
      ResultIdsOfResults(missing, Interrupted(|missing|));
      DistinctAsSet(Ids(missing));
      ResultsComplete(IdSet(Ids(calls)) - answered, seals);
    } else {
      assert seals == [];
    }
  }
}
