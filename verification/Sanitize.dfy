/**
 The payload repairer: seals unanswered calls, drops orphan results and empty assistant
 messages, and fills empty contents.
 */
module Sanitize {
  import opened Payload
  import opened Groups

  // The source's sentence, abbreviated: only that it is not empty matters here.
  const INTERRUPTED := "error: interrupted"
  const EMPTY_TEXT := "(empty)"

  function SyntheticToolResult(id: CallId): Message {
    Message(Tool, INTERRUPTED, [], id)
  }

  // ---- specification -------------------------------------------------------------

  /** The unique non-empty call IDs of a group, in call order. */
  function UniqueIds(calls: seq<ToolCall>): seq<CallId> {
    if calls == [] then []
    else
      var n := |calls| - 1;
      var front := UniqueIds(calls[..n]);
      if calls[n].id == "" || calls[n].id in front then front else front + [calls[n].id]
  }

  /** The first result of each pending call. */
  function FirstResults(run: seq<Message>, pending: set<CallId>): seq<Message> {
    if run == [] then []
    else if run[0].toolCallId in pending then [run[0]] + FirstResults(run[1..], pending - {run[0].toolCallId})
    else FirstResults(run[1..], pending)
  }

  /** Interrupted results for the calls of the order that are not answered. */
  function Seals(order: seq<CallId>, answered: set<CallId>): seq<Message> {
    if order == [] then []
    else
      var n := |order| - 1;
      Seals(order[..n], answered) + (if order[n] in answered then [] else [SyntheticToolResult(order[n])])
  }

  function SealedResults(calls: seq<ToolCall>, run: seq<Message>): seq<Message> {
    FirstResults(run, IdSet(UniqueIds(calls))) + Seals(UniqueIds(calls), IdSet(ResultIds(run)))
  }

  function Repaired(msgs: seq<Message>): seq<Message>
    decreases |msgs|
  {
    if msgs == [] then []
    else if Opens(msgs[0]) then
      var e := ToolRunEnd(msgs, 1);
      [msgs[0]] + SealedResults(msgs[0].calls, msgs[1..e]) + Repaired(msgs[e..])
    else if msgs[0].role.Tool? || (msgs[0].role.Assistant? && msgs[0].content == "") then Repaired(msgs[1..])
    else [msgs[0]] + Repaired(msgs[1..])
  }

  function Fill(m: Message): Message {
    if !m.role.Assistant? && m.content == "" then m.(content := EMPTY_TEXT) else m
  }

  function Filled(msgs: seq<Message>): seq<Message> {
    seq(|msgs|, i requires 0 <= i < |msgs| => Fill(msgs[i]))
  }

  function Sanitized(msgs: seq<Message>): seq<Message> {
    Filled(Repaired(msgs))
  }

  /** Each call group is directly followed by exactly one result per unique non-empty ID, and nothing is empty. */
  predicate Settled(msgs: seq<Message>)
    decreases |msgs|
  {
    if msgs == [] then true
    else if Opens(msgs[0]) then
      var e := ToolRunEnd(msgs, 1);
      && multiset(ResultIds(msgs[1..e])) == multiset(IdSet(UniqueIds(msgs[0].calls)))
      && (forall m | m in msgs[1..e] :: m.content != "")
      && Settled(msgs[e..])
    else !msgs[0].role.Tool? && msgs[0].content != "" && Settled(msgs[1..])
  }

  /** Nothing to drop or fill. */
  predicate NoEmptyContent(msgs: seq<Message>) {
    forall m | m in msgs :: Opens(m) || m.content != ""
  }

  // ---- ids --------------------------------------------------------------------------

  lemma {:induction false} UniqueIdsFacts(calls: seq<ToolCall>)
    ensures Distinct(UniqueIds(calls)) && "" !in UniqueIds(calls)
    ensures forall id | id in UniqueIds(calls) :: id in Ids(calls)
    ensures UsableIds(Ids(calls)) ==> UniqueIds(calls) == Ids(calls)
  {
    if calls != [] {
      var n := |calls| - 1;
      UniqueIdsFacts(calls[..n]);
      assert Ids(calls) == Ids(calls[..n]) + [calls[n].id];
      if UsableIds(Ids(calls)) {
        UsableParts(Ids(calls[..n]), [calls[n].id]);
        assert calls[n].id in [calls[n].id];
        assert calls[n].id == Ids(calls)[n];
      }
    }
  }

  lemma {:induction false} FirstResultsFacts(run: seq<Message>, pending: set<CallId>)
    requires forall m | m in run :: m.role.Tool?
    ensures forall m | m in FirstResults(run, pending) :: m.role.Tool? && m in run
    ensures multiset(ResultIds(FirstResults(run, pending))) == multiset(pending * IdSet(ResultIds(run)))
    decreases |run|
  {
    if run != [] {
      var id, rest := run[0].toolCallId, run[1..];
      assert ResultIds(run) == [id] + ResultIds(rest);
      assert IdSet(ResultIds(run)) == {id} + IdSet(ResultIds(rest));
      if id in pending {
        var more := FirstResults(rest, pending - {id});
        FirstResultsFacts(rest, pending - {id});
        assert ResultIds([run[0]] + more) == [id] + ResultIds(more);
        assert pending * IdSet(ResultIds(run)) == {id} + (pending - {id}) * IdSet(ResultIds(rest));
      } else {
        FirstResultsFacts(rest, pending);
        assert pending * IdSet(ResultIds(run)) == pending * IdSet(ResultIds(rest));
      }
    }
  }

  lemma {:induction false} SealResult(id: CallId)
    ensures var m := SyntheticToolResult(id);
      m.role.Tool? && m.content != "" && m.toolCallId == id
  {
  }

  lemma {:induction false} SealsFacts(order: seq<CallId>, answered: set<CallId>)
    requires Distinct(order)
    ensures forall m | m in Seals(order, answered) :: m.role.Tool? && m.content != ""
    ensures multiset(ResultIds(Seals(order, answered))) == multiset(IdSet(order) - answered)
  {
    hide SyntheticToolResult;
    if order != [] {
      var n := |order| - 1;
      SealResult(order[n]);
      SealsFacts(order[..n], answered);
      assert order == order[..n] + [order[n]];
      assert order[n] !in order[..n];
      assert IdSet(order) == IdSet(order[..n]) + {order[n]};
      var front := Seals(order[..n], answered);
      if order[n] in answered {
        assert IdSet(order) - answered == IdSet(order[..n]) - answered;
        assert Seals(order, answered) == front;
      } else {
        assert IdSet(order) - answered == (IdSet(order[..n]) - answered) + {order[n]};
        assert ResultIds(front + [SyntheticToolResult(order[n])]) == ResultIds(front) + [order[n]];
      }
    }
  }

  /** Sealing yields exactly one result per unique non-empty ID. */
  lemma {:induction false} SealedResultsFacts(calls: seq<ToolCall>, run: seq<Message>)
    requires forall m | m in run :: m.role.Tool?
    ensures forall m | m in SealedResults(calls, run) :: m.role.Tool?
    ensures multiset(ResultIds(SealedResults(calls, run))) == multiset(IdSet(UniqueIds(calls)))
  {
    var pending, given := IdSet(UniqueIds(calls)), IdSet(ResultIds(run));
    UniqueIdsFacts(calls);
    FirstResultsFacts(run, pending);
    SealsFacts(UniqueIds(calls), given);
    var kept, seals := FirstResults(run, pending), Seals(UniqueIds(calls), given);
    assert ResultIds(kept + seals) == ResultIds(kept) + ResultIds(seals);
    assert multiset(pending * given) + multiset(pending - given) == multiset(pending);
  }

  /** Results that already answer each ID once are left alone. */
  lemma {:induction false} ExactResultsAreKept(run: seq<Message>, pending: set<CallId>)
    requires multiset(ResultIds(run)) == multiset(pending)
    ensures FirstResults(run, pending) == run
    decreases |run|
  {
    if run != [] {
      var id := run[0].toolCallId;
      assert ResultIds(run) == [id] + ResultIds(run[1..]);
      assert id in multiset(pending);
      assert multiset(pending - {id}) == multiset(pending) - multiset{id};
      ExactResultsAreKept(run[1..], pending - {id});
    }
  }

  lemma {:induction false} NothingToSeal(order: seq<CallId>, answered: set<CallId>)
    requires forall id | id in order :: id in answered
    ensures Seals(order, answered) == []
  {
    if order != [] {
      NothingToSeal(order[..|order| - 1], answered);
    }
  }

  // ---- what the repairer guarantees ----------------------------------------------------

  lemma {:induction false} ToolRunEndIs(msgs: seq<Message>, i: nat, e: nat)
    requires i <= e <= |msgs| && forall k | i <= k < e :: msgs[k].role.Tool?
    requires e < |msgs| ==> !msgs[e].role.Tool?
    ensures ToolRunEnd(msgs, i) == e
    decreases e - i
  {
    if i < e {
      ToolRunEndIs(msgs, i + 1, e);
    }
  }

  lemma {:induction false} BlockEnd(h: Message, run: seq<Message>, rest: seq<Message>)
    requires forall m | m in run :: m.role.Tool?
    requires rest != [] ==> !rest[0].role.Tool?
    ensures ToolRunEnd([h] + run + rest, 1) == 1 + |run|
    ensures ([h] + run + rest)[1..1 + |run|] == run && ([h] + run + rest)[1 + |run|..] == rest
  {
    ToolRunEndIs([h] + run + rest, 1, 1 + |run|);
  }

  lemma {:induction false} SettledBlock(h: Message, run: seq<Message>, rest: seq<Message>)
    requires Opens(h) && Settled(rest)
    requires forall m | m in run :: m.role.Tool? && m.content != ""
    requires multiset(ResultIds(run)) == multiset(IdSet(UniqueIds(h.calls)))
    ensures Settled([h] + run + rest)
  {
    BlockEnd(h, run, rest);
    assert ([h] + run + rest)[0] == h;
  }

  lemma {:induction false} FilledConcat(a: seq<Message>, b: seq<Message>)
    ensures Filled(a + b) == Filled(a) + Filled(b)
  {
  }

  lemma {:induction false} FilledResults(run: seq<Message>)
    requires forall m | m in run :: m.role.Tool?
    ensures ResultIds(Filled(run)) == ResultIds(run)
    ensures forall m | m in Filled(run) :: m.role.Tool? && m.content != ""
  {
    assert forall i | 0 <= i < |run| :: run[i] in run;
  }

  /** Every list becomes settled, whatever its IDs look like. */
  lemma {:induction false} SanitizedIsSettled(msgs: seq<Message>)
    ensures Settled(Sanitized(msgs))
    decreases |msgs|
  {
    if msgs != [] {
      var m := msgs[0];
      if Opens(m) {
        var e := ToolRunEnd(msgs, 1);
        var results := SealedResults(m.calls, msgs[1..e]);
        ToolRunFacts(msgs, 1);
        assert forall r | r in msgs[1..e] :: r.role.Tool?;
        SealedResultsFacts(m.calls, msgs[1..e]);
        SanitizedIsSettled(msgs[e..]);
        FilledResults(results);
        FilledConcat([m] + results, Repaired(msgs[e..]));
        FilledConcat([m], results);
        assert Filled([m]) == [m];
        SettledBlock(m, Filled(results), Sanitized(msgs[e..]));
      } else {
        SanitizedIsSettled(msgs[1..]);
        if !m.role.Tool? && !(m.role.Assistant? && m.content == "") {
          FilledConcat([m], Repaired(msgs[1..]));
          assert Sanitized(msgs) == [Fill(m)] + Sanitized(msgs[1..]);
          assert ([Fill(m)] + Sanitized(msgs[1..]))[1..] == Sanitized(msgs[1..]);
        }
      }
    }
  }

  lemma {:induction false} SettledHasNoEmpties(msgs: seq<Message>)
    requires Settled(msgs)
    ensures NoEmptyContent(msgs)
    decreases |msgs|
  {
    if msgs != [] {
      var e := if Opens(msgs[0]) then ToolRunEnd(msgs, 1) else 1;
      SettledHasNoEmpties(msgs[e..]);
      assert msgs == [msgs[0]] + msgs[1..e] + msgs[e..];
    }
  }

  lemma {:induction false} NothingToFill(msgs: seq<Message>)
    requires NoEmptyContent(msgs)
    ensures Filled(msgs) == msgs
  {
    forall i | 0 <= i < |msgs|
      ensures Fill(msgs[i]) == msgs[i]
    {
      assert msgs[i] in msgs;
    }
  }

  lemma {:induction false} NothingToRepair(msgs: seq<Message>)
    requires Settled(msgs)
    ensures Repaired(msgs) == msgs
    decreases |msgs|
  {
    if msgs != [] {
      var m := msgs[0];
      if Opens(m) {
        var e := ToolRunEnd(msgs, 1);
        var run := msgs[1..e];
        assert msgs == [m] + run + msgs[e..];
        ExactResultsAreKept(run, IdSet(UniqueIds(m.calls)));
        forall id | id in UniqueIds(m.calls)
          ensures id in IdSet(ResultIds(run))
        {
          assert id in multiset(ResultIds(run));
        }
        NothingToSeal(UniqueIds(m.calls), IdSet(ResultIds(run)));
        assert run + [] == run;
        NothingToRepair(msgs[e..]);
      } else {
        assert msgs == [m] + msgs[1..];
        NothingToRepair(msgs[1..]);
      }
    }
  }

  lemma {:induction false} SettledIsFixed(msgs: seq<Message>)
    requires Settled(msgs)
    ensures Sanitized(msgs) == msgs
  {
    NothingToRepair(msgs);
    SettledHasNoEmpties(msgs);
    NothingToFill(msgs);
  }

  /** The repairer is the identity exactly on settled lists, and repairing twice changes nothing. */
  lemma {:induction false} SanitizedFixpoints(msgs: seq<Message>)
    ensures Sanitized(msgs) == msgs <==> Settled(msgs)
    ensures Sanitized(Sanitized(msgs)) == Sanitized(msgs)
  {
    SanitizedIsSettled(msgs);
    SettledIsFixed(Sanitized(msgs));
    if Settled(msgs) {
      SettledIsFixed(msgs);
    }
  }

  lemma {:induction false} SettledRunsIdle(msgs: seq<Message>)
    requires Settled(msgs)
    ensures Run(Idle, msgs) == Idle || !UsableIds(CallIds(msgs))
    decreases |msgs|
  {
    if msgs != [] {
      var m := msgs[0];
      var e := if Opens(m) then ToolRunEnd(msgs, 1) else 1;
      assert msgs == msgs[..e] + msgs[e..];
      CallIdsConcat(msgs[..e], msgs[e..]);
      SettledRunsIdle(msgs[e..]);
      if UsableIds(CallIds(msgs)) {
        UsableParts(CallIds(msgs[..e]), CallIds(msgs[e..]));
        RunConcat(Idle, msgs[..e], msgs[e..]);
        ToolRunFacts(msgs, 1);
        assert msgs[..e][1..] == msgs[1..e];
        SettledBlockRuns(msgs[..e], m);
      }
    }
  }

  lemma {:induction false} SettledBlockRuns(block: seq<Message>, h: Message)
    requires block != [] && block[0] == h && !h.role.Tool? && UsableIds(CallIds(block))
    requires forall i | 1 <= i < |block| :: block[i].role.Tool?
    requires if Opens(h) then multiset(ResultIds(block[1..])) == multiset(IdSet(UniqueIds(h.calls))) else |block| == 1
    ensures Run(Idle, block) == Idle
  {
    if Opens(h) {
      assert block == [h] + block[1..];
      CallIdsConcat([h], block[1..]);
      assert CallIds([h]) == Ids(h.calls);
      UsableParts(Ids(h.calls), CallIds(block[1..]));
      UniqueIdsFacts(h.calls);
      ResultsComplete(IdSet(Ids(h.calls)), block[1..]);
    }
  }

  lemma {:induction false} ToolsHaveNoCalls(run: seq<Message>)
    requires forall m | m in run :: m.role.Tool?
    ensures CallIds(run) == []
  {
    if run != [] {
      ToolsHaveNoCalls(run[1..]);
    }
  }

  lemma {:induction false} FilledCallIds(msgs: seq<Message>)
    ensures CallIds(Filled(msgs)) == CallIds(msgs)
  {
    if msgs != [] {
      FilledCallIds(msgs[1..]);
      assert Filled(msgs)[1..] == Filled(msgs[1..]);
    }
  }

  lemma {:induction false} BlockCallIds(h: Message, run: seq<Message>, rest: seq<Message>)
    requires Opens(h) && forall m | m in run :: m.role.Tool?
    ensures CallIds([h] + run + rest) == Ids(h.calls) + CallIds(rest)
  {
    assert ([h] + run + rest)[1..] == run + rest;
    CallIdsConcat(run, rest);
    ToolsHaveNoCalls(run);
  }

  /** The IDs of a group and of its repair, whatever follows the repair. */
  lemma {:induction false} GroupCallIds(msgs: seq<Message>, end: nat, more: seq<Message>)
    requires msgs != [] && Opens(msgs[0]) && end == ToolRunEnd(msgs, 1)
    ensures CallIds(msgs) == Ids(msgs[0].calls) + CallIds(msgs[end..])
    ensures CallIds([msgs[0]] + SealedResults(msgs[0].calls, msgs[1..end]) + more) == Ids(msgs[0].calls) + CallIds(more)
  {
    hide CallIds, SealedResults;
    var m, run := msgs[0], msgs[1..end];
    ToolRunFacts(msgs, 1);
    assert forall r | r in run :: r.role.Tool?;
    SealedResultsFacts(m.calls, run);
    BlockCallIds(m, run, msgs[end..]);
    BlockCallIds(m, SealedResults(m.calls, run), more);
    assert msgs == [m] + run + msgs[end..];
  }

  /** No call is added, lost or reordered. */
  lemma {:induction false} RepairedCallIds(msgs: seq<Message>)
    ensures CallIds(Repaired(msgs)) == CallIds(msgs)
    decreases |msgs|
  {
    hide SealedResults, ToolRunEnd;
    if msgs != [] {
      if Opens(msgs[0]) {
        var e := ToolRunEnd(msgs, 1);
        RepairedCallIds(msgs[e..]);
        GroupCallIds(msgs, e, Repaired(msgs[e..]));
      } else {
        RepairedCallIds(msgs[1..]);
        assert ([msgs[0]] + Repaired(msgs[1..]))[1..] == Repaired(msgs[1..]);
      }
    }
  }

  /** With usable call IDs, the repaired list always validates. */
  lemma {:induction false} SanitizedIsValid(msgs: seq<Message>)
    requires UsableIds(CallIds(msgs))
    ensures Valid(Sanitized(msgs))
  {
    SanitizedIsSettled(msgs);
    SettledRunsIdle(Sanitized(msgs));
    FilledCallIds(Repaired(msgs));
    RepairedCallIds(msgs);
  }

  lemma {:induction false} ExactResults(ids: set<CallId>, run: seq<Message>)
    requires forall m | m in run :: m.role.Tool?
    requires Run(Awaiting(ids), run) == Idle
    ensures multiset(ResultIds(run)) == multiset(ids)
  {
    var n := ResultsFound(ids, run);
    if n < |run| {
      assert run[n] in run;
      RunBroken(run[n..][1..]);
    }
    assert run[..|run|] == run;
  }

  lemma {:induction false} ValidBlock(msgs: seq<Message>)
    requires Valid(msgs) && msgs != [] && Opens(msgs[0])
    ensures multiset(ResultIds(msgs[1..ToolRunEnd(msgs, 1)])) == multiset(IdSet(UniqueIds(msgs[0].calls)))
    ensures Valid(msgs[ToolRunEnd(msgs, 1)..])
  {
    var m, e := msgs[0], ToolRunEnd(msgs, 1);
    var run := msgs[1..e];
    assert msgs[..0] == [] && msgs == msgs[..e] + msgs[e..];
    GroupRunsIdle(msgs, 0);
    ValidCut(msgs[..e], msgs[e..]);
    ToolRunFacts(msgs, 1);
    assert forall r | r in run :: r.role.Tool?;
    assert msgs[..e] == [m] + run && ([m] + run)[1..] == run;
    CallIdsConcat([m], run);
    assert CallIds([m]) == Ids(m.calls);
    UsableParts(Ids(m.calls), CallIds(run));
    UniqueIdsFacts(m.calls);
    ExactResults(IdSet(Ids(m.calls)), run);
  }

  lemma {:induction false} ValidPlain(msgs: seq<Message>)
    requires Valid(msgs) && msgs != [] && !Opens(msgs[0])
    ensures !msgs[0].role.Tool? && Valid(msgs[1..])
  {
    assert msgs[..0] == [] && msgs == msgs[..1] + msgs[1..];
    GroupRunsIdle(msgs, 0);
    ValidCut(msgs[..1], msgs[1..]);
  }

  lemma {:induction false} ContentOfParts(msgs: seq<Message>, e: nat)
    requires NoEmptyContent(msgs) && 1 <= e <= |msgs| && forall k | 1 <= k < e :: msgs[k].role.Tool?
    ensures NoEmptyContent(msgs[e..]) && forall x | x in msgs[1..e] :: x.content != ""
  {
    assert forall x | x in msgs[e..] :: x in msgs;
    assert forall x | x in msgs[1..e] :: x in msgs && x.role.Tool?;
  }

  lemma {:induction false} ValidIsSettled(msgs: seq<Message>)
    requires Valid(msgs) && NoEmptyContent(msgs)
    ensures Settled(msgs)
    decreases |msgs|
  {
    hide Valid, ToolRunEnd, UniqueIds;
    if msgs != [] {
      assert msgs[0] in msgs;
      if Opens(msgs[0]) {
        var e := ToolRunEnd(msgs, 1);
        ValidBlock(msgs);
        ToolRunFacts(msgs, 1);
        ContentOfParts(msgs, e);
        ValidIsSettled(msgs[e..]);
      } else {
        ValidPlain(msgs);
        ContentOfParts(msgs, 1);
        ValidIsSettled(msgs[1..]);
      }
    }
  }

  /** With usable call IDs, the repairer is the identity exactly on valid lists without empty contents. */
  lemma {:induction false} SanitizedIdentity(msgs: seq<Message>)
    requires UsableIds(CallIds(msgs))
    ensures Sanitized(msgs) == msgs <==> Valid(msgs) && NoEmptyContent(msgs)
  {
    SanitizedFixpoints(msgs);
    if Settled(msgs) {
      SettledRunsIdle(msgs);
      SettledHasNoEmpties(msgs);
    }
    if Valid(msgs) && NoEmptyContent(msgs) {
      ValidIsSettled(msgs);
    }
  }
}
