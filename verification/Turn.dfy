/**
 The turn loop's persistence protocol: once an assistant tool-call group is durable, every
 way out of the turn first gives each of its calls a durable result.
 */
module Turn {
  import opened Payload
  import opened Indexed
  import opened Sanitize

  // ---- histories in provider order ------------------------------------------------------

  /** Every call group is followed at once by its results, one per call and in call order. */
  predicate InProviderOrder(msgs: seq<Message>)
    decreases |msgs|
  {
    if msgs == [] then true
    else if Opens(msgs[0]) then
      var n := |msgs[0].calls|;
      && n < |msgs|
      && (forall m | m in msgs[1..n + 1] :: m.role.Tool?)
      && ResultIds(msgs[1..n + 1]) == Ids(msgs[0].calls)
      && InProviderOrder(msgs[n + 1..])
    else !msgs[0].role.Tool? && InProviderOrder(msgs[1..])
  }

  lemma {:induction false} OrderConcat(a: seq<Message>, b: seq<Message>)
    requires InProviderOrder(a) && InProviderOrder(b)
    ensures InProviderOrder(a + b)
    decreases |a|
  {
    if a == [] {
      assert a + b == b;
    } else if Opens(a[0]) {
      var n := |a[0].calls|;
      assert (a + b)[1..n + 1] == a[1..n + 1];
      assert (a + b)[n + 1..] == a[n + 1..] + b;
      OrderConcat(a[n + 1..], b);
    } else {
      assert (a + b)[1..] == a[1..] + b;
      OrderConcat(a[1..], b);
    }
  }

  lemma {:induction false} OrderRunsIdle(msgs: seq<Message>)
    requires InProviderOrder(msgs) && UsableIds(CallIds(msgs))
    ensures Run(Idle, msgs) == Idle
    decreases |msgs|
  {
    if msgs != [] {
      var h, n := msgs[0], if Opens(msgs[0]) then |msgs[0].calls| else 0;
      var run, rest := msgs[1..n + 1], msgs[n + 1..];
      assert msgs == [h] + (run + rest) && ([h] + (run + rest))[1..] == run + rest;
      CallIdsConcat([h], run + rest);
      CallIdsConcat(run, rest);
      UsableParts(CallIds([h]), CallIds(run + rest));
      UsableParts(CallIds(run), CallIds(rest));
      OrderRunsIdle(rest);
      if Opens(h) {
        assert CallIds([h]) == Ids(h.calls);
        DistinctAsSet(Ids(h.calls));
        ResultsComplete(IdSet(Ids(h.calls)), run);
        RunConcat(Awaiting(IdSet(Ids(h.calls))), run, rest);
      } else {
        assert run == [] && run + rest == rest;
      }
    }
  }

  /** Extending a valid history in provider order, with usable IDs, keeps it valid. */
  lemma {:induction false} OrderKeepsValid(history: seq<Message>, more: seq<Message>)
    requires Valid(history) && InProviderOrder(more) && UsableIds(CallIds(history + more))
    ensures Valid(history + more)
  {
    CallIdsConcat(history, more);
    UsableParts(CallIds(history), CallIds(more));
    RunConcat(Idle, history, more);
    OrderRunsIdle(more);
  }

  // ---- the durable thread ------------------------------------------------------------------

  function Stored(calls: seq<ToolCall>): seq<ToolCall> {
    seq(|calls|, i requires 0 <= i < |calls| => calls[i].(kind := FunctionCall))
  }

  function AssistantMessage(content: string, calls: seq<ToolCall>): Message {
    Message(Assistant, content, Stored(calls), "")
  }

  function ToolMessage(output: string, id: CallId): Message {
    Message(Tool, output, [], id)
  }

  function UserMessage(content: string): Message {
    Message(User, content, [], "")
  }

  function Results(calls: seq<ToolCall>, outputs: seq<string>): seq<Message>
    requires |calls| == |outputs|
  {
    seq(|calls|, i requires 0 <= i < |calls| => ToolMessage(outputs[i], calls[i].id))
  }

  lemma {:induction false} ResultIdsOfResults(calls: seq<ToolCall>, outputs: seq<string>)
    requires |calls| == |outputs|
    ensures ResultIds(Results(calls, outputs)) == Ids(calls)
  {
  }

  /** One thread of the store; call IDs are a primary key over all threads. */
  class Thread {
    var history: seq<Message>
    var callIds: set<CallId>

    constructor ()
      ensures history == [] && callIds == {} && Keyed()
    {
      history, callIds := [], {};
    }

    /** The key covers the thread's own calls and no ID was stored twice. */
    ghost predicate Keyed()
      reads this
    {
      Distinct(CallIds(history)) && forall id | id in CallIds(history) :: id in callIds
    }

    /** The calls stored so far also have non-empty IDs. */
    ghost predicate Usable()
      reads this
    {
      Keyed() && "" !in CallIds(history)
    }

    /** Appends one message without calls; a store failure leaves the thread as it was. */
    method AppendMessage(m: Message) returns (ok: bool)
      requires !Opens(m) && Keyed()
      modifies this`history
      ensures Keyed() && CallIds(history) == old(CallIds(history))
      ensures history == if ok then old(history) + [m] else old(history)
    {
      ok := *;
      if ok {
        CallIdsConcat(history, [m]);
        assert CallIds([m]) == [];
        history := history + [m];
      }
    }

    /** One transaction: a repeated call ID rolls the whole group back. */
    method AppendAssistantMessageWithToolCalls(content: string, calls: seq<ToolCall>) returns (ok: bool)
      requires calls != [] && Keyed()
      modifies this
      ensures Keyed()
      ensures ok ==> history == old(history) + [AssistantMessage(content, calls)]
      ensures ok ==> callIds == old(callIds) + IdSet(Ids(calls))
      ensures ok ==> CallIds(history) == old(CallIds(history)) + Ids(calls)
      ensures !ok ==> history == old(history) && callIds == old(callIds)
    {
      var used := callIds;
      ok := *;
      for i := 0 to |calls|
        invariant ok ==> Distinct(Ids(calls[..i])) && used == callIds + IdSet(Ids(calls[..i]))
        invariant ok ==> forall id | id in Ids(calls[..i]) :: id !in callIds
      {
        assert Ids(calls[..i + 1]) == Ids(calls[..i]) + [calls[i].id];
        if calls[i].id in used {
          ok := false;
        }
        used := used + {calls[i].id};
      }
      if ok {
        assert calls[..|calls|] == calls;
        var m := AssistantMessage(content, calls);
        CallIdsConcat(history, [m]);
        assert Ids(Stored(calls)) == Ids(calls);
        assert CallIds([m]) == Ids(calls);
        DistinctJoin(CallIds(history), Ids(calls));
        history, callIds := history + [m], used;
      }
    }
  }

  lemma {:induction false} DistinctJoin(a: seq<CallId>, b: seq<CallId>)
    requires Distinct(a) && Distinct(b) && forall x | x in b :: x !in a
    ensures Distinct(a + b)
  {
    assert forall i, j | 0 <= i < |a| && 0 <= j < |b| :: b[j] in b && a[i] in a;
  }

  // ---- one tool round --------------------------------------------------------------------

  method ValidateNewToolCallGroup(view: seq<Entry>, content: string, calls: seq<ToolCall>) returns (ok: bool)
    ensures ok ==> Valid(ToRaw(view)) && UsableIds(CallIds(ToRaw(view)) + Ids(calls))
    ensures ok <==> Valid(ToRaw(view) + [Message(Assistant, content, calls, "")] +
                          Results(calls, seq(|calls|, i => "pending tool-call validation")))
  {
    var candidate := ToRawMessages(view);
    ghost var raw := candidate;
    var opener := Message(Assistant, content, calls, "");
    candidate := candidate + [opener];
    ghost var pending := Results(calls, seq(|calls|, i => "pending tool-call validation"));
    for i := 0 to |calls|
      invariant candidate == raw + [opener] + pending[..i]
    {
      candidate := candidate + [ToolMessage("pending tool-call validation", calls[i].id)];
    }
    assert pending[..|calls|] == pending;
    var verdict := ValidateProviderPayload(candidate);
    ok := verdict.Safe?;
    if ok {
      assert forall m | m in pending :: m.role.Tool?;
      CandidateFacts(raw, opener, pending);
    }
  }

  lemma {:induction false} CandidateFacts(raw: seq<Message>, opener: Message, pending: seq<Message>)
    requires opener.role.Assistant? && Valid(raw + [opener] + pending)
    requires forall m | m in pending :: m.role.Tool?
    ensures Valid(raw) && UsableIds(CallIds(raw) + Ids(opener.calls))
  {
    CallIdsConcat(raw + [opener], pending);
    ToolsHaveNoCalls(pending);
    RunSnoc(Idle, raw, opener);
    RunConcat(Idle, raw + [opener], pending);
    RunBroken(pending);
    assert CallIds(raw + [opener] + pending) == CallIds(raw + [opener]) == CallIds(raw) + Ids(opener.calls);
    UsableParts(CallIds(raw), Ids(opener.calls));
  }

  function Interrupted(n: nat): seq<string> {
    seq(n, i => INTERRUPTED)
  }

  /** Gives every remaining call an interrupted result; stops at the first store failure. */
  method PersistInterruptedToolResults(t: Thread, calls: seq<ToolCall>) returns (ok: bool, n: nat)
    requires t.Keyed()
    modifies t`history
    ensures t.Keyed() && CallIds(t.history) == old(CallIds(t.history))
    ensures n <= |calls| && (ok <==> n == |calls|)
    ensures t.history == old(t.history) + Results(calls[..n], Interrupted(n))
  {
    n := 0;
    assert t.history == old(t.history) + Results(calls[..0], Interrupted(0));
    while n < |calls|
      invariant n <= |calls| && t.Keyed() && CallIds(t.history) == old(CallIds(t.history))
      invariant t.history == old(t.history) + Results(calls[..n], Interrupted(n))
    {
      ok := t.AppendMessage(ToolMessage(INTERRUPTED, calls[n].id));
      if !ok {
        return false, n;
      }
      assert Results(calls[..n + 1], Interrupted(n + 1)) ==
        Results(calls[..n], Interrupted(n)) + [ToolMessage(INTERRUPTED, calls[n].id)];
      n := n + 1;
    }
    ok := true;
  }

  /** The group is durable and every call has one result, in call order. */
  ghost predicate GroupSealed(before: seq<Message>, after: seq<Message>, content: string, calls: seq<ToolCall>, outputs: seq<string>) {
    |outputs| == |calls| && after == before + [AssistantMessage(content, calls)] + Results(calls, outputs)
  }

  /** The state inside the result loop: calls before k are answered. */
  ghost predicate Answered(before: seq<Message>, now: seq<Message>, content: string, calls: seq<ToolCall>, k: nat, outputs: seq<string>) {
    && k <= |calls| && |outputs| == k
    && now == before + [AssistantMessage(content, calls)] + Results(calls[..k], outputs)
  }

  lemma {:induction false} AnsweredNext(before: seq<Message>, now: seq<Message>, content: string, calls: seq<ToolCall>,
                                        k: nat, runs: seq<string>)
    requires k < |calls| == |runs| && Answered(before, now, content, calls, k, runs[..k])
    ensures Answered(before, now + [ToolMessage(runs[k], calls[k].id)], content, calls, k + 1, runs[..k + 1])
  {
    assert Results(calls[..k + 1], runs[..k + 1]) == Results(calls[..k], runs[..k]) + [ToolMessage(runs[k], calls[k].id)];
  }

  lemma {:induction false} SealedFrom(before: seq<Message>, now: seq<Message>, after: seq<Message>,
                                      content: string, calls: seq<ToolCall>, k: nat, outputs: seq<string>)
    requires Answered(before, now, content, calls, k, outputs)
    requires after == now + Results(calls[k..], Interrupted(|calls| - k))
    ensures GroupSealed(before, after, content, calls, outputs + Interrupted(|calls| - k))
  {
    var all := outputs + Interrupted(|calls| - k);
    assert Results(calls, all) == Results(calls[..k], outputs) + Results(calls[k..], Interrupted(|calls| - k));
  }

  /** closePending: seals the calls from k on, whatever the cause of the early return. */
  method ClosePending(t: Thread, content: string, calls: seq<ToolCall>, k: nat,
                      ghost before: seq<Message>, ghost outputs: seq<string>)
    returns (sealed: bool)
    requires t.Keyed() && Answered(before, t.history, content, calls, k, outputs)
    modifies t`history
    ensures t.Keyed() && CallIds(t.history) == old(CallIds(t.history))
    ensures sealed ==> GroupSealed(before, t.history, content, calls, outputs + Interrupted(|calls| - k))
  {
    ghost var now := t.history;
    var n;
    sealed, n := PersistInterruptedToolResults(t, calls[k..]);
    if sealed {
      assert calls[k..][..n] == calls[k..];
      SealedFrom(before, now, t.history, content, calls, k, outputs);
    }
  }

  datatype Exit = NotPersisted | Done | Returned(sealed: bool)

  /**
   One assistant tool-call response: persist, announce, execute, persist results. Event-sink
   errors, cancellation and store errors can happen anywhere. `runs` are the outputs of the
   calls; `parallel` says whether they were computed up front.
   */
  method ToolRound(t: Thread, view: seq<Entry>, content: string, calls: seq<ToolCall>, runs: seq<string>, parallel: bool)
    returns (exit: Exit, ghost k: nat)
    requires t.Usable() && calls != [] && |runs| == |calls|
    modifies t
    ensures t.Keyed()
    ensures exit.NotPersisted? ==> t.history == old(t.history) && t.Usable()
    ensures !exit.NotPersisted? ==> "" !in Ids(calls) && CallIds(t.history) == old(CallIds(t.history)) + Ids(calls)
    ensures exit.Done? ==> GroupSealed(old(t.history), t.history, content, calls, runs)
    ensures k <= |calls|
    ensures exit == Returned(true) ==>
      GroupSealed(old(t.history), t.history, content, calls, runs[..k] + Interrupted(|calls| - k))
  {
    ghost var before := t.history;
    k := 0;
    var ok := ValidateNewToolCallGroup(view, content, calls);
    if !ok {
      return NotPersisted, 0;
    }
    UsableParts(CallIds(ToRaw(view)), Ids(calls));
    ok := t.AppendAssistantMessageWithToolCalls(content, calls);
    if !ok {
      return NotPersisted, 0;
    }
    assert Answered(before, t.history, content, calls, 0, []);
    var announced: bool := *;
    var cancelled: bool := *;
    if !announced || (parallel && cancelled) {
      var sealed := ClosePending(t, content, calls, 0, before, []);
      return Returned(sealed), 0;
    }
    for i := 0 to |calls|
      invariant t.Keyed() && CallIds(t.history) == old(CallIds(t.history)) + Ids(calls)
      invariant Answered(before, t.history, content, calls, i, runs[..i])
    {
      var interrupted: bool := *;
      var delivered: bool := *;
      var stored := false;
      AnsweredNext(before, t.history, content, calls, i, runs);
      if !(!parallel && interrupted) && delivered {
        stored := t.AppendMessage(ToolMessage(runs[i], calls[i].id));
      }
      if !stored {
        var sealed := ClosePending(t, content, calls, i, before, runs[..i]);
        return Returned(sealed), i;
      }
    }
    assert calls[..|calls|] == calls && runs[..|calls|] == runs;
    exit := Done;
  }
}
