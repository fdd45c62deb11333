/**
 The streaming turn's text-embedded tool calls. This path skips calls that are not of function type, so
 the history it leaves is valid exactly when there are none among the calls it went past; the parsers,
 from which all of its calls come, produce none.
 */
module StreamTurn {
  import opened Sequences
  import opened Payload
  import opened Sanitize
  import opened TextCalls
  import opened Turn

  /** Results of the function-type calls; the others are passed over. */
  function StreamResults(calls: seq<ToolCall>, runs: seq<string>): seq<Message>
    requires |calls| == |runs|
  {
    if calls == [] then []
    else
      var n := |calls| - 1;
      StreamResults(calls[..n], runs[..n]) +
      (if calls[n].kind.FunctionCall? then [ToolMessage(runs[n], calls[n].id)] else [])
  }

  /** The history after k calls were processed and the rest were sealed. */
  function StreamHistory(before: seq<Message>, content: string, calls: seq<ToolCall>, runs: seq<string>, k: nat): seq<Message>
    requires k <= |calls| == |runs|
  {
    before + [AssistantMessage(content, calls)] + StreamResults(calls[..k], runs[..k]) +
    Results(calls[k..], Interrupted(|calls| - k))
  }

  method StreamToolRound(t: Thread, content: string, calls: seq<ToolCall>, runs: seq<string>)
    returns (exit: Exit, ghost k: nat)
    requires t.Keyed() && calls != [] && |runs| == |calls|
    modifies t
    ensures t.Keyed() && k <= |calls|
    ensures exit.NotPersisted? ==> t.history == old(t.history)
    ensures exit.Done? ==> k == |calls|
    ensures exit.Done? || exit == Returned(true) ==>
      t.history == StreamHistory(old(t.history), content, calls, runs, k)
    ensures !exit.NotPersisted? ==> CallIds(t.history) == old(CallIds(t.history)) + Ids(calls)
  {
    hide Distinct, CallIds, IdSet;
    ghost var before := t.history;
    k := 0;
    var ok := t.AppendAssistantMessageWithToolCalls(content, calls);
    if !ok {
      return NotPersisted, 0;
    }
    ghost var base := t.history;
    for i := 0 to |calls|
      invariant t.Keyed() && CallIds(t.history) == old(CallIds(t.history)) + Ids(calls)
      invariant t.history == base + StreamResults(calls[..i], runs[..i])
    {
      assert calls[..i + 1][..i] == calls[..i] && runs[..i + 1][..i] == runs[..i];
      if calls[i].kind.FunctionCall? {
        var proceed: bool := *;
        var stored := false;
        if proceed {
          stored := t.AppendMessage(ToolMessage(runs[i], calls[i].id));
        }
        if !stored {
          var sealed, n := PersistInterruptedToolResults(t, calls[i..]);
          assert sealed ==> calls[i..][..n] == calls[i..];
          return Returned(sealed), i;
        }
      }
    }
    assert t.history + Results(calls[|calls|..], Interrupted(0)) == t.history;
    return Done, |calls|;
  }

  lemma {:induction false} StreamResultIds(calls: seq<ToolCall>, runs: seq<string>)
    requires |calls| == |runs| && Distinct(Ids(calls))
    ensures forall m | m in StreamResults(calls, runs) :: m.role.Tool?
    ensures Distinct(ResultIds(StreamResults(calls, runs)))
    ensures forall id | id in ResultIds(StreamResults(calls, runs)) :: id in Ids(calls)
    ensures IdSet(ResultIds(StreamResults(calls, runs))) == IdSet(Ids(calls)) <==> forall c | c in calls :: c.kind.FunctionCall?
  {
    if calls != [] {
      var n := |calls| - 1;
      var front, id := StreamResults(calls[..n], runs[..n]), calls[n].id;
      assert Ids(calls) == Ids(calls[..n]) + [id];
      assert forall i | 0 <= i < n :: Ids(calls[..n])[i] == Ids(calls)[i];
      StreamResultIds(calls[..n], runs[..n]);
      assert calls == calls[..n] + [calls[n]];
      assert id == Ids(calls)[n] && id !in Ids(calls[..n]);
      LastId(Ids(calls[..n]), ResultIds(front), id);
      if calls[n].kind.FunctionCall? {
        var last := ToolMessage(runs[n], id);
        assert StreamResults(calls, runs) == front + [last];
        assert ResultIds(front + [last]) == ResultIds(front) + [id];
        DistinctJoin(ResultIds(front), [id]);
      } else {
        assert StreamResults(calls, runs) == front + [] == front;
      }
    }
  }

  lemma {:induction false} LastId(ids: seq<CallId>, some: seq<CallId>, id: CallId)
    requires id !in ids && forall x | x in some :: x in ids
    ensures IdSet(some + [id]) == IdSet(ids + [id]) <==> IdSet(some) == IdSet(ids)
    ensures IdSet(some) != IdSet(ids + [id])
  {
    assert IdSet(some + [id]) == IdSet(some) + {id} && IdSet(ids + [id]) == IdSet(ids) + {id};
    assert id !in IdSet(ids) && id !in IdSet(some);
    assert IdSet(ids) == IdSet(ids) + {id} - {id};
    assert IdSet(some) == IdSet(some) + {id} - {id};
  }

  /** Distinct results for some of the calls: complete exactly when they cover all of them. */
  lemma {:induction false} ResultsCompleteIff(ids: set<CallId>, results: seq<Message>)
    requires forall m | m in results :: m.role.Tool? && m.toolCallId in ids
    requires Distinct(ResultIds(results))
    ensures Run(Awaiting(ids), results) == Awaiting(ids - IdSet(ResultIds(results)))
    decreases |results|
  {
    if results != [] {
      var id, rest := results[0].toolCallId, results[1..];
      assert results == [results[0]] + rest && ResultIds(results) == [id] + ResultIds(rest);
      forall m | m in rest
        ensures m.role.Tool? && m.toolCallId in ids - {id}
      {
        var k :| 0 <= k < |rest| && rest[k] == m;
        assert ResultIds(results)[k + 1] == m.toolCallId && ResultIds(results)[0] == id;
      }
      SplitDistinct([id], ResultIds(rest));
      ResultsCompleteIff(ids - {id}, rest);
      assert ids - IdSet(ResultIds(results)) == ids - {id} - IdSet(ResultIds(rest));
    } else {
      assert ids - IdSet(ResultIds(results)) == ids;
    }
  }

  lemma {:induction false} NothingLeft(some: set<CallId>, all: set<CallId>)
    requires some <= all
    ensures all - some == {} <==> some == all
  {
    if all - some == {} {
      assert forall x | x in all :: x !in all - some;
    }
  }

  lemma {:induction false} GroupValidIff(before: seq<Message>, opener: Message, results: seq<Message>)
    requires Valid(before) && Opens(opener) && Distinct(CallIds(before) + Ids(opener.calls))
    requires forall m | m in results :: m.role.Tool? && m.toolCallId in Ids(opener.calls)
    requires Distinct(ResultIds(results))
    ensures Valid(before + [opener] + results) <==>
      "" !in Ids(opener.calls) && IdSet(ResultIds(results)) == IdSet(Ids(opener.calls))
  {
    var ids := IdSet(Ids(opener.calls));
    RunSnoc(Idle, before, opener);
    RunConcat(Idle, before + [opener], results);
    CallIdsConcat(before + [opener], results);
    ToolsHaveNoCalls(results);
    ResultsCompleteIff(ids, results);
    assert CallIds(before + [opener] + results) == CallIds(before) + Ids(opener.calls);
    forall id | id in ResultIds(results)
      ensures id in ids
    {
      var j :| 0 <= j < |results| && results[j].toolCallId == id;
      assert results[j] in results;
    }
    assert IdSet(ResultIds(results)) <= ids;
    NothingLeft(IdSet(ResultIds(results)), ids);
  }

  /** The streaming path keeps the history valid exactly when no call it went past is of another type. */
  lemma {:induction false} StreamHistoryValidIff(before: seq<Message>, content: string, calls: seq<ToolCall>, runs: seq<string>, k: nat)
    requires Valid(before) && calls != [] && k <= |calls| == |runs|
    requires Distinct(CallIds(before) + Ids(calls))
    ensures Valid(StreamHistory(before, content, calls, runs, k)) <==>
      "" !in Ids(calls) && forall j | 0 <= j < k :: calls[j].kind.FunctionCall?
  {
    hide Run, CallIds, IdSet, Valid, StreamResults;
    var opener, done, open := AssistantMessage(content, calls), calls[..k], calls[k..];
    var some, seals := StreamResults(done, runs[..k]), Results(open, Interrupted(|calls| - k));
    assert Ids(opener.calls) == Ids(calls) == Ids(done) + Ids(open);
    assert forall i | 0 <= i < |calls| :: (CallIds(before) + Ids(calls))[|CallIds(before)| + i] == Ids(calls)[i];
    assert Distinct(Ids(calls));
    SplitDistinct(Ids(done), Ids(open));
    StreamResultIds(done, runs[..k]);
    ResultIdsOfResults(open, Interrupted(|calls| - k));
    assert ResultIds(some + seals) == ResultIds(some) + Ids(open);
    DistinctJoin(ResultIds(some), Ids(open));
    forall m: Message | m in some + seals
      ensures m.role.Tool? && m.toolCallId in Ids(opener.calls)
    {
      var j :| 0 <= j < |some + seals| && (some + seals)[j] == m;
      assert ResultIds(some + seals)[j] == m.toolCallId;
    }
    Assoc(before + [opener], some, seals);
    GroupValidIff(before, opener, some + seals);
    CoverIff(ResultIds(some), Ids(done), Ids(open));
    assert (forall c | c in done :: c.kind.FunctionCall?) <==> (forall j | 0 <= j < k :: calls[j].kind.FunctionCall?);
  }

  lemma {:induction false} SplitDistinct(a: seq<CallId>, b: seq<CallId>)
    requires Distinct(a + b)
    ensures Distinct(a) && Distinct(b) && forall x | x in b :: x !in a
  {
    assert forall i | 0 <= i < |a| :: (a + b)[i] == a[i];
    assert forall i | 0 <= i < |b| :: (a + b)[|a| + i] == b[i];
  }

  lemma {:induction false} CoverIff(some: seq<CallId>, done: seq<CallId>, open: seq<CallId>)
    requires (forall x | x in some :: x in done) && (forall x | x in open :: x !in done)
    ensures IdSet(some + open) == IdSet(done + open) <==> IdSet(some) == IdSet(done)
  {
    assert IdSet(some + open) == IdSet(some) + IdSet(open) && IdSet(done + open) == IdSet(done) + IdSet(open);
    assert IdSet(done) == (IdSet(done) + IdSet(open)) - IdSet(open);
    assert IdSet(some) == (IdSet(some) + IdSet(open)) - IdSet(open);
  }

  // ---- the calls this path receives ------------------------------------------------------------

  /** Parsed calls never leave an invalid history: no call is passed over, no ID is empty. */
  lemma {:induction false} ParsedHistoryIsValid(before: seq<Message>, content: string, found: seq<Found>, tickets: seq<nat>,
                                                runs: seq<string>, k: nat)
    requires |found| == |tickets| == |runs| && Ascending(tickets) && found != [] && k <= |found|
    requires Valid(before) && Distinct(CallIds(before) + Ids(ParsedCalls(found, tickets)))
    ensures Valid(StreamHistory(before, content, ParsedCalls(found, tickets), runs, k))
  {
    hide Valid, CallIds, StreamHistory, TextCallId;
    var calls := ParsedCalls(found, tickets);
    ParsedAreUsable(found, tickets);
    assert forall j | 0 <= j < k :: calls[j] in calls;
    StreamHistoryValidIff(before, content, calls, runs, k);
  }

  lemma {:induction false} FunctionResults(calls: seq<ToolCall>, runs: seq<string>)
    requires |calls| == |runs| && AllFunctions(calls)
    ensures StreamResults(calls, runs) == Results(calls, runs)
  {
    if calls != [] {
      var n := |calls| - 1;
      assert calls[n] in calls;
      FunctionResults(calls[..n], runs[..n]);
      assert Results(calls, runs) == Results(calls[..n], runs[..n]) + [ToolMessage(runs[n], calls[n].id)];
    }
  }

  /** With function-type calls only, this path leaves the same sealed group as the turn loop. */
  lemma {:induction false} StreamIsSealed(before: seq<Message>, content: string, calls: seq<ToolCall>, runs: seq<string>, k: nat)
    requires k <= |calls| == |runs| && AllFunctions(calls)
    ensures GroupSealed(before, StreamHistory(before, content, calls, runs, k), content, calls,
                        runs[..k] + Interrupted(|calls| - k))
  {
    FunctionResults(calls[..k], runs[..k]);
    var persisted := before + [AssistantMessage(content, calls)];
    SealedFrom(before, persisted + Results(calls[..k], runs[..k]), StreamHistory(before, content, calls, runs, k),
               content, calls, k, runs[..k]);
  }
}
