/**
 The repairer as it runs: once over provider messages and once over the indexed view, and
 the self-heal that closes a trailing group left open by a crash.
 */
module SanitizeLoops {
  import opened Sequences
  import opened Payload
  import opened Groups
  import opened Indexed
  import opened Sanitize
  import opened SanitizedViews

  /** The answered table of a group together with the order in which to seal it. */
  method UnansweredCallSet(calls: seq<ToolCall>) returns (pending: map<CallId, bool>, order: seq<CallId>)
    ensures order == UniqueIds(calls) && pending.Keys == IdSet(order)
    ensures forall id | id in pending :: !pending[id]
  {
    pending, order := map[], [];
    for i := 0 to |calls|
      invariant order == UniqueIds(calls[..i]) && pending.Keys == IdSet(order)
      invariant forall id | id in pending :: !pending[id]
    {
      assert calls[..i + 1][..i] == calls[..i];
      var id := calls[i].id;
      if id != "" && id !in pending {
        pending := pending[id := false];
        order := order + [id];
      }
    }
    assert calls[..|calls|] == calls;
  }

  function Open(pending: map<CallId, bool>): set<CallId> {
    set id | id in pending && !pending[id]
  }

  /** Where the first results are, when the run begins at `base`. */
  function FirstPositions(run: seq<Message>, pending: set<CallId>, base: nat): seq<nat> {
    if run == [] then []
    else if run[0].toolCallId in pending then
      [base] + FirstPositions(run[1..], pending - {run[0].toolCallId}, base + 1)
    else FirstPositions(run[1..], pending, base + 1)
  }

  /** What the result loop has done after some of the run, which begins at `base`. */
  ghost predicate Chosen(run: seq<Message>, base: nat, k: nat, order: seq<CallId>, pending: map<CallId, bool>,
                         kept: seq<Message>, at: seq<nat>) {
    && k <= |run| && pending.Keys == IdSet(order)
    && kept + FirstResults(run[k..], Open(pending)) == FirstResults(run, IdSet(order))
    && at + FirstPositions(run[k..], Open(pending), base + k) == FirstPositions(run, IdSet(order), base)
    && (forall id | id in pending :: pending[id] <==> id in ResultIds(run[..k]))
  }

  lemma {:induction false} ChosenStart(run: seq<Message>, base: nat, order: seq<CallId>, pending: map<CallId, bool>)
    requires pending.Keys == IdSet(order) && forall id | id in pending :: !pending[id]
    ensures Chosen(run, base, 0, order, pending, [], [])
  {
    assert Open(pending) == IdSet(order);
    assert run[0..] == run;
    assert [] + FirstResults(run, IdSet(order)) == FirstResults(run, IdSet(order));
    assert [] + FirstPositions(run, IdSet(order), base) == FirstPositions(run, IdSet(order), base);
  }

  lemma {:induction false} ChosenStep(run: seq<Message>, base: nat, k: nat, order: seq<CallId>,
                                      pending: map<CallId, bool>, kept: seq<Message>, at: seq<nat>)
    requires Chosen(run, base, k, order, pending, kept, at) && k < |run|
    ensures var id := run[k].toolCallId;
      if id in pending && !pending[id]
      then Chosen(run, base, k + 1, order, pending[id := true], kept + [run[k]], at + [base + k])
      else Chosen(run, base, k + 1, order, pending, kept, at)
  {
    var id := run[k].toolCallId;
    assert ResultIds(run[..k + 1]) == ResultIds(run[..k]) + [id];
    assert run[k..][1..] == run[k + 1..];
    if id in pending && !pending[id] {
      assert Open(pending[id := true]) == Open(pending) - {id};
      Assoc(kept, [run[k]], FirstResults(run[k + 1..], Open(pending) - {id}));
      Assoc(at, [base + k], FirstPositions(run[k + 1..], Open(pending) - {id}, base + k + 1));
    }
  }

  lemma {:induction false} ChosenEnd(run: seq<Message>, base: nat, order: seq<CallId>, pending: map<CallId, bool>,
                                     kept: seq<Message>, at: seq<nat>)
    requires Chosen(run, base, |run|, order, pending, kept, at)
    ensures kept == FirstResults(run, IdSet(order)) && at == FirstPositions(run, IdSet(order), base)
    ensures forall id | id in order :: id in pending && (pending[id] <==> id in IdSet(ResultIds(run)))
  {
    assert run[..|run|] == run && kept + [] == kept && at + [] == at;
    assert forall id | id in order :: id in IdSet(order);
  }

  /** Drops what the repair drops and seals every group. */
  method RepairMessages(msgs: seq<Message>) returns (out: seq<Message>)
    ensures out == Repaired(msgs)
  {
    hide SealedResults, ToolRunEnd;
    out := [];
    var i := 0;
    while i < |msgs|
      invariant i <= |msgs|
      invariant out + Repaired(msgs[i..]) == Repaired(msgs)
    {
      var m := msgs[i];
      if Opens(m) {
        var end, results := SealGroup(msgs, i);
        RepairedGroup(msgs, i, end);
        Assoc(out, [m] + results, Repaired(msgs[end..]));
        Assoc(out, [m], results);
        out := out + [m] + results;
        i := end;
      } else {
        assert msgs[i..][1..] == msgs[i + 1..];
        if !m.role.Tool? && !(m.role.Assistant? && m.content == "") {
          Assoc(out, [m], Repaired(msgs[i + 1..]));
          out := out + [m];
        }
        i := i + 1;
      }
    }
    assert out + [] == out;
  }

  lemma {:induction false} RepairedGroup(msgs: seq<Message>, i: nat, end: nat)
    requires i < |msgs| && Opens(msgs[i]) && end == ToolRunEnd(msgs, i + 1)
    ensures Repaired(msgs[i..]) ==
      [msgs[i]] + SealedResults(msgs[i].calls, msgs[i + 1..end]) + Repaired(msgs[end..])
  {
    hide SealedResults;
    RunOfSuffix(msgs, i);
    assert msgs[i..][ToolRunEnd(msgs[i..], 1)..] == msgs[end..];
  }

  method SanitizeProviderMessages(msgs: seq<Message>) returns (out: seq<Message>)
    ensures out == Sanitized(msgs)
  {
    hide Repaired;
    out := RepairMessages(msgs);
    var repaired := out;
    for k := 0 to |repaired|
      invariant |out| == |repaired|
      invariant forall j | 0 <= j < k :: out[j] == Fill(repaired[j])
      invariant forall j | k <= j < |repaired| :: out[j] == repaired[j]
    {
      if !out[k].role.Assistant? && out[k].content == "" {
        out := out[k := out[k].(content := EMPTY_TEXT)];
      }
    }
  }

  lemma {:induction false} RunOfSuffix(msgs: seq<Message>, i: nat)
    requires i < |msgs|
    ensures i + ToolRunEnd(msgs[i..], 1) == ToolRunEnd(msgs, i + 1)
    ensures msgs[i..][1..ToolRunEnd(msgs[i..], 1)] == msgs[i + 1..ToolRunEnd(msgs, i + 1)]
  {
    var e := ToolRunEnd(msgs, i + 1);
    ToolRunFacts(msgs, i + 1);
    ToolRunEndIs(msgs[i..], 1, e - i);
  }

  /** Walks the tool run after the opener at i and keeps the first result of each call. */
  method ChooseResults(msgs: seq<Message>, i: nat, order: seq<CallId>, untouched: map<CallId, bool>)
    returns (end: nat, kept: seq<Message>, at: seq<nat>, pending: map<CallId, bool>)
    requires i < |msgs| && Opens(msgs[i]) && untouched.Keys == IdSet(order)
    requires forall id | id in untouched :: !untouched[id]
    ensures end == ToolRunEnd(msgs, i + 1)
    ensures kept == FirstResults(msgs[i + 1..end], IdSet(order))
    ensures at == FirstPositions(msgs[i + 1..end], IdSet(order), i + 1)
    ensures forall id | id in order :: id in pending && (pending[id] <==> id in IdSet(ResultIds(msgs[i + 1..end])))
  {
    hide Chosen, FirstResults, FirstPositions, IdSet;
    ghost var e := ToolRunEnd(msgs, i + 1);
    ghost var run := msgs[i + 1..e];
    ToolRunFacts(msgs, i + 1);
    ChosenStart(run, i + 1, order, untouched);
    kept, at, end, pending := [], [], i + 1, untouched;
    while end < |msgs| && msgs[end].role.Tool?
      invariant i + 1 <= end <= e
      invariant Chosen(run, i + 1, end - i - 1, order, pending, kept, at)
    {
      ChosenStep(run, i + 1, end - i - 1, order, pending, kept, at);
      assert run[end - i - 1] == msgs[end];
      if msgs[end].toolCallId in pending && !pending[msgs[end].toolCallId] {
        pending := pending[msgs[end].toolCallId := true];
        kept, at := kept + [msgs[end]], at + [end];
      }
      end := end + 1;
    }
    assert end == e;
    ChosenEnd(run, i + 1, order, pending, kept, at);
  }

  method SealUnanswered(order: seq<CallId>, pending: map<CallId, bool>, ghost answered: set<CallId>)
    returns (seals: seq<Message>)
    requires forall id | id in order :: id in pending && (pending[id] <==> id in answered)
    ensures seals == Seals(order, answered)
  {
    seals := [];
    for k := 0 to |order|
      invariant seals == Seals(order[..k], answered)
    {
      assert order[..k + 1][..k] == order[..k];
      assert order[k] in order;
      if !pending[order[k]] {
        seals := seals + [SyntheticToolResult(order[k])];
      }
    }
    assert order[..|order|] == order;
  }

  /** The results that follow the opener at i: first answers in order, then seals. */
  method SealGroup(msgs: seq<Message>, i: nat) returns (end: nat, results: seq<Message>)
    requires i < |msgs| && Opens(msgs[i])
    ensures end == ToolRunEnd(msgs, i + 1)
    ensures results == SealedResults(msgs[i].calls, msgs[i + 1..end])
  {
    var untouched, order := UnansweredCallSet(msgs[i].calls);
    var kept, at, pending;
    end, kept, at, pending := ChooseResults(msgs, i, order, untouched);
    var seals := SealUnanswered(order, pending, IdSet(ResultIds(msgs[i + 1..end])));
    results := kept + seals;
  }

  // ---- the indexed view --------------------------------------------------------------

  /** The entries at the chosen positions are the first results. */
  lemma {:induction false} PickedEntries(view: seq<Entry>, base: nat, end: nat, pending: set<CallId>)
    requires base <= end <= |view|
    ensures var at := FirstPositions(Strip(view[base..end]), pending, base);
      && (forall k | 0 <= k < |at| :: at[k] < |view|)
      && FirstResultEntries(view[base..end], pending) == seq(|at|, k requires 0 <= k < |at| => view[at[k]])
    decreases end - base
  {
    if base < end {
      var run, id := view[base..end], view[base].msg.toolCallId;
      assert run[1..] == view[base + 1..end] && Strip(run)[1..] == Strip(run[1..]);
      PickedEntries(view, base + 1, end, if id in pending then pending - {id} else pending);
    }
  }

  /** The entries that follow the opener at i: first answers in order, then synthetic seals. */
  method SealGroupEntries(view: seq<Entry>, i: nat) returns (end: nat, results: seq<Entry>)
    requires i < |view| && Opens(view[i].msg)
    ensures end == ToolRunEnd(Strip(view), i + 1)
    ensures results == SealedEntries(view[i].msg.calls, view[i + 1..end])
  {
    hide FirstPositions;
    var untouched, order := UnansweredCallSet(view[i].msg.calls);
    var kept, at, pending;
    end, kept, at, pending := ChooseResults(Strip(view), i, order, untouched);
    assert Strip(view)[i + 1..end] == Strip(view[i + 1..end]);
    var seals := SealUnanswered(order, pending, IdSet(ResultIds(Strip(view[i + 1..end]))));
    PickedEntries(view, i + 1, end, IdSet(order));
    var answers := seq(|at|, k requires 0 <= k < |at| => view[at[k]]);
    var sealing := seq(|seals|, k requires 0 <= k < |seals| => SealEntry(seals[k]));
    results := answers + sealing;
  }

  lemma {:induction false} RepairedGroupEntries(view: seq<Entry>, i: nat, end: nat)
    requires i < |view| && Opens(view[i].msg) && end == ToolRunEnd(Strip(view), i + 1)
    ensures RepairedView(view[i..]) ==
      [view[i]] + SealedEntries(view[i].msg.calls, view[i + 1..end]) + RepairedView(view[end..])
  {
    hide SealedEntries;
    RunOfSuffix(Strip(view), i);
    assert Strip(view)[i..] == Strip(view[i..]);
    assert view[i..][1..end - i] == view[i + 1..end] && view[i..][end - i..] == view[end..];
  }

  method RepairEntries(view: seq<Entry>) returns (out: seq<Entry>)
    ensures out == RepairedView(view)
  {
    hide SealedEntries, ToolRunEnd;
    out := [];
    var i := 0;
    while i < |view|
      invariant i <= |view|
      invariant out + RepairedView(view[i..]) == RepairedView(view)
    {
      var e := view[i];
      if Opens(e.msg) {
        var end, results := SealGroupEntries(view, i);
        RepairedGroupEntries(view, i, end);
        Assoc(out, [e] + results, RepairedView(view[end..]));
        Assoc(out, [e], results);
        out := out + [e] + results;
        i := end;
      } else {
        assert view[i..][1..] == view[i + 1..];
        if !e.msg.role.Tool? && !(e.msg.role.Assistant? && e.msg.content == "") {
          Assoc(out, [e], RepairedView(view[i + 1..]));
          out := out + [e];
        }
        i := i + 1;
      }
    }
    assert out + [] == out;
  }

  method SanitizeIndexedMessages(view: seq<Entry>) returns (out: seq<Entry>)
    ensures out == SanitizedView(view)
  {
    hide RepairedView;
    var repaired := RepairEntries(view);
    out := repaired;
    for k := 0 to |repaired|
      invariant |out| == |repaired|
      invariant forall j | 0 <= j < k :: out[j] == FillEntry(repaired[j])
      invariant forall j | k <= j < |repaired| :: out[j] == repaired[j]
    {
      if !out[k].msg.role.Assistant? && out[k].msg.content == "" {
        out := out[k := out[k].(msg := out[k].msg.(content := EMPTY_TEXT))];
      }
    }
  }
}
