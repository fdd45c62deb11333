/**
 What the repairer must not lose: every real first answer stays, verbatim and in order, an interrupted result
 stands only for a call without an answer, and the other messages stay where they are.
 */
module SanitizeKeeps {
  import opened Sequences
  import opened Payload
  import opened Groups
  import opened Indexed
  import opened Sanitize
  import opened SanitizedViews
  import opened SanitizeLoops

  // ---- what a repair is, by positions ---------------------------------------------------

  /** The positions of the results that answer a call first, in order. */
  ghost predicate FirstAnswers(ids: seq<CallId>, given: seq<CallId>, at: seq<nat>) {
    && Increasing(at)
    && forall p: nat :: p in at <==> p < |given| && given[p] != "" && given[p] in ids && given[p] !in given[..p]
  }

  /** The positions of the calls that have no result at all, each ID once, in order. */
  ghost predicate Unanswered(ids: seq<CallId>, given: seq<CallId>, which: seq<nat>) {
    && Increasing(which)
    && forall p: nat :: p in which <==> p < |ids| && ids[p] != "" && ids[p] !in ids[..p] && ids[p] !in given
  }

  /** The entries at some positions, at most with filled contents. */
  function EntriesAt(run: seq<Entry>, at: seq<nat>): seq<Entry>
    requires forall k | 0 <= k < |at| :: at[k] < |run|
  {
    seq(|at|, k requires 0 <= k < |at| => FillEntry(run[at[k]]))
  }

  /** Interrupted results, never persisted, for the calls at some positions. */
  function InterruptedAt(ids: seq<CallId>, which: seq<nat>): seq<Entry>
    requires forall k | 0 <= k < |which| :: which[k] < |ids|
  {
    seq(|which|, k requires 0 <= k < |which| =>
      Entry(0, true, ThreadMessage, Message(Tool, INTERRUPTED, [], ids[which[k]])))
  }

  /** The first answers as they were, then one interrupted result for every call without an answer. */
  ghost predicate AnswersKept(ids: seq<CallId>, run: seq<Entry>, results: seq<Entry>) {
    exists at, which ::
      && FirstAnswers(ids, ResultIds(Strip(run)), at) && Unanswered(ids, ResultIds(Strip(run)), which)
      && (forall k | 0 <= k < |at| :: at[k] < |run|) && (forall k | 0 <= k < |which| :: which[k] < |ids|)
      && results == EntriesAt(run, at) + InterruptedAt(ids, which)
  }

  /** out is a repair of the view: group by group for calls and results, entry by entry for everything else. */
  ghost predicate Conserves(view: seq<Entry>, out: seq<Entry>)
    decreases |view|
  {
    if view == [] then out == []
    else
      var e := view[0];
      if Opens(e.msg) then
        out != [] && out[0] == e &&
        var n, k := ToolRunEnd(Strip(view), 1), ToolRunEnd(Strip(out), 1);
        AnswersKept(Ids(e.msg.calls), view[1..n], out[1..k]) && Conserves(view[n..], out[k..])
      else if e.msg.role.Tool? || (e.msg.role.Assistant? && e.msg.content == "") then Conserves(view[1..], out)
      else out != [] && out[0] == FillEntry(e) && Conserves(view[1..], out[1..])
  }

  // ---- first answers -----------------------------------------------------------------------

  ghost predicate FirstOf(run: seq<Message>, pending: set<CallId>, q: int) {
    0 <= q < |run| && run[q].toolCallId in pending && run[q].toolCallId !in ResultIds(run[..q])
  }

  lemma {:induction false} FirstOfRest(run: seq<Message>, pending: set<CallId>, q: int)
    requires run != []
    ensures var id := run[0].toolCallId;
      FirstOf(run, pending, q) <==>
        if q == 0 then id in pending else FirstOf(run[1..], if id in pending then pending - {id} else pending, q - 1)
  {
    if 0 < q < |run| {
      assert run[..q] == [run[0]] + run[1..][..q - 1];
      assert ResultIds(run[..q]) == [run[0].toolCallId] + ResultIds(run[1..][..q - 1]);
    }
  }

  lemma {:induction false} FirstPositionsFacts(run: seq<Message>, pending: set<CallId>, base: nat)
    ensures var at := FirstPositions(run, pending, base);
      && Increasing(at)
      && (forall k | 0 <= k < |at| :: base <= at[k] < base + |run|)
      && (forall p: nat :: p in at <==> FirstOf(run, pending, p - base))
    decreases |run|
  {
    if run != [] {
      var id := run[0].toolCallId;
      var left := if id in pending then pending - {id} else pending;
      var rest := FirstPositions(run[1..], left, base + 1);
      FirstPositionsFacts(run[1..], left, base + 1);
      forall p: nat
        ensures p in FirstPositions(run, pending, base) <==> FirstOf(run, pending, p - base)
      {
        hide FirstOf;
        assert p in rest <==> FirstOf(run[1..], left, p - base - 1);
        FirstOfRest(run, pending, p - base);
        assert p in rest ==> p > base;
      }
    }
  }

  lemma {:induction false} FirstsAreKept(calls: seq<ToolCall>, run: seq<Entry>) returns (at: seq<nat>)
    ensures FirstAnswers(Ids(calls), ResultIds(Strip(run)), at)
    ensures forall k | 0 <= k < |at| :: at[k] < |run|
    ensures FirstResultEntries(run, IdSet(UniqueIds(calls))) == seq(|at|, k requires 0 <= k < |at| => run[at[k]])
  {
    var pending, msgs := IdSet(UniqueIds(calls)), Strip(run);
    at := FirstPositions(msgs, pending, 0);
    FirstPositionsFacts(msgs, pending, 0);
    assert run[0..|run|] == run;
    PickedEntries(run, 0, |run|, pending);
    UniqueIdsAre(calls);
    forall p: nat
      ensures p in at <==> p < |msgs| && ResultIds(msgs)[p] in pending && ResultIds(msgs)[p] !in ResultIds(msgs)[..p]
    {
      assert p in at <==> FirstOf(msgs, pending, p - 0);
      if p < |msgs| {
        assert ResultIds(msgs[..p]) == ResultIds(msgs)[..p];
      }
    }
  }

  // ---- unanswered calls ----------------------------------------------------------------------

  lemma {:induction false} UniqueIdsAre(calls: seq<ToolCall>)
    ensures forall id :: id in IdSet(UniqueIds(calls)) <==> id != "" && id in Ids(calls)
  {
    if calls != [] {
      var n := |calls| - 1;
      UniqueIdsAre(calls[..n]);
      assert Ids(calls) == Ids(calls[..n]) + [calls[n].id];
      assert forall id :: id in IdSet(UniqueIds(calls[..n])) <==> id in UniqueIds(calls[..n]);
    }
  }

  /** The calls with an ID that is new and not empty, by position. */
  ghost predicate FirstCalls(ids: seq<CallId>, at: seq<nat>) {
    Increasing(at) && forall p: nat :: p in at <==> p < |ids| && ids[p] != "" && ids[p] !in ids[..p]
  }

  function Picked(ids: seq<CallId>, at: seq<nat>): seq<CallId>
    requires forall k | 0 <= k < |at| :: at[k] < |ids|
  {
    seq(|at|, k requires 0 <= k < |at| => ids[at[k]])
  }

  lemma {:induction false} UniqueAt(calls: seq<ToolCall>) returns (at: seq<nat>)
    ensures FirstCalls(Ids(calls), at)
    ensures (forall k | 0 <= k < |at| :: at[k] < |calls|) && UniqueIds(calls) == Picked(Ids(calls), at)
  {
    at := [];
    if calls != [] {
      var n := |calls| - 1;
      var before := UniqueAt(calls[..n]);
      var ids := Ids(calls);
      assert ids == Ids(calls[..n]) + [calls[n].id];
      assert forall p: nat | p <= n :: ids[..p] == Ids(calls[..n])[..p];
      UniqueIdsAre(calls[..n]);
      assert forall id :: id in IdSet(UniqueIds(calls[..n])) <==> id in UniqueIds(calls[..n]);
      at := before;
      if calls[n].id != "" && calls[n].id !in UniqueIds(calls[..n]) {
        IncreasingSnoc(before, n);
        at := before + [n];
      }
    }
  }

  lemma {:induction false} SealsAt(ids: seq<CallId>, at: seq<nat>, answered: set<CallId>) returns (which: seq<nat>)
    requires Increasing(at) && forall k | 0 <= k < |at| :: at[k] < |ids|
    ensures Increasing(which) && (forall p: nat :: p in which <==> p in at && ids[p] !in answered)
    ensures forall k | 0 <= k < |which| :: which[k] < |ids|
    ensures Seals(Picked(ids, at), answered) == SealsAtPositions(ids, which)
  {
    which := [];
    if at == [] {
      assert Picked(ids, at) == [];
    } else {
      hide Picked, Seals, SealsAtPositions;
      var n := |at| - 1;
      var before := SealsAt(ids, at[..n], answered);
      OneMorePosition(ids, at, answered, before);
      OneMoreSeal(ids, at, answered, before);
      which := if ids[at[n]] in answered then before else before + [at[n]];
    }
  }

  lemma {:induction false} LastPicked(ids: seq<CallId>, at: seq<nat>)
    requires at != [] && forall k | 0 <= k < |at| :: at[k] < |ids|
    ensures Picked(ids, at) == Picked(ids, at[..|at| - 1]) + [ids[at[|at| - 1]]]
  {
  }

  lemma {:induction false} OneMorePosition(ids: seq<CallId>, at: seq<nat>, answered: set<CallId>, before: seq<nat>)
    requires Increasing(at) && at != [] && forall k | 0 <= k < |at| :: at[k] < |ids|
    requires Increasing(before) && forall p: nat :: p in before <==> p in at[..|at| - 1] && ids[p] !in answered
    ensures var which := if ids[at[|at| - 1]] in answered then before else before + [at[|at| - 1]];
      Increasing(which) && (forall p: nat :: p in which <==> p in at && ids[p] !in answered)
  {
    hide Increasing;
    var front, last := at[..|at| - 1], at[|at| - 1];
    forall q | q in before
      ensures q < last
    {
      LastIsGreatest(at, q);
    }
    IncreasingSnoc(before, last);
    var which := if ids[last] in answered then before else before + [last];
    forall p: nat
      ensures p in which <==> p in at && ids[p] !in answered
    {
      LastIsGreatest(at, p);
      LastIsIn(at);
      assert p in before <==> p in front && ids[p] !in answered;
      assert p in before + [last] <==> p in before || p == last;
    }
  }

  lemma {:induction false} LastIsIn(at: seq<nat>)
    requires at != []
    ensures at[|at| - 1] in at
  {
  }

  function SealsAtPositions(ids: seq<CallId>, which: seq<nat>): seq<Message>
    requires forall k | 0 <= k < |which| :: which[k] < |ids|
  {
    seq(|which|, k requires 0 <= k < |which| => SyntheticToolResult(ids[which[k]]))
  }

  lemma {:induction false} OneMoreSeal(ids: seq<CallId>, at: seq<nat>, answered: set<CallId>, before: seq<nat>)
    requires at != [] && (forall k | 0 <= k < |at| :: at[k] < |ids|) && forall k | 0 <= k < |before| :: before[k] < |ids|
    requires Seals(Picked(ids, at[..|at| - 1]), answered) == SealsAtPositions(ids, before)
    ensures var which := if ids[at[|at| - 1]] in answered then before else before + [at[|at| - 1]];
      (forall k | 0 <= k < |which| :: which[k] < |ids|) && Seals(Picked(ids, at), answered) == SealsAtPositions(ids, which)
  {
    hide SyntheticToolResult;
    var n := |at| - 1;
    LastPicked(ids, at);
    assert Picked(ids, at)[..n] == Picked(ids, at[..n]) && Picked(ids, at)[n] == ids[at[n]];
    hide Picked;
    assert SealsAtPositions(ids, before + [at[n]]) == SealsAtPositions(ids, before) + [SyntheticToolResult(ids[at[n]])];
    assert SealsAtPositions(ids, before) + [] == SealsAtPositions(ids, before);
  }

  lemma {:induction false} SealsAreUnanswered(calls: seq<ToolCall>, given: seq<CallId>) returns (which: seq<nat>)
    ensures Unanswered(Ids(calls), given, which)
    ensures forall k | 0 <= k < |which| :: which[k] < |calls|
    ensures Seals(UniqueIds(calls), IdSet(given)) == SealsAtPositions(Ids(calls), which)
  {
    var at := UniqueAt(calls);
    which := SealsAt(Ids(calls), at, IdSet(given));
  }

  // ---- every repair conserves ---------------------------------------------------------------------

  lemma {:induction false} SealedKeepsAnswers(calls: seq<ToolCall>, run: seq<Entry>)
    ensures AnswersKept(Ids(calls), run, FilledView(SealedEntries(calls, run)))
  {
    hide FirstAnswers, Unanswered, FirstResultEntries, Seals, UniqueIds;
    var at := FirstsAreKept(calls, run);
    var which := SealsAreUnanswered(calls, ResultIds(Strip(run)));
    var firsts := FirstResultEntries(run, IdSet(UniqueIds(calls)));
    var seals := SealEntriesOf(Seals(UniqueIds(calls), IdSet(ResultIds(Strip(run)))));
    assert FilledView(firsts + seals) == FilledView(firsts) + FilledView(seals);
    assert FilledView(firsts) == EntriesAt(run, at);
    assert FilledView(seals) == InterruptedAt(Ids(calls), which);
  }

  lemma {:induction false} ConservedBlock(view: seq<Entry>, n: nat, results: seq<Entry>, rest: seq<Entry>)
    requires view != [] && Opens(view[0].msg) && n == ToolRunEnd(Strip(view), 1)
    requires forall e | e in results :: e.msg.role.Tool?
    requires rest != [] ==> !rest[0].msg.role.Tool?
    requires AnswersKept(Ids(view[0].msg.calls), view[1..n], results) && Conserves(view[n..], rest)
    ensures Conserves(view, [view[0]] + results + rest)
  {
    hide AnswersKept;
    var out := [view[0]] + results + rest;
    assert Strip(out) == [view[0].msg] + Strip(results) + Strip(rest);
    BlockEnd(view[0].msg, Strip(results), Strip(rest));
    assert out[1..1 + |results|] == results && out[1 + |results|..] == rest;
  }

  lemma {:induction false} SealedAreResults(calls: seq<ToolCall>, run: seq<Entry>)
    requires forall e | e in run :: e.msg.role.Tool?
    ensures forall e | e in FilledView(SealedEntries(calls, run)) :: e.msg.role.Tool?
  {
    var out := FilledView(SealedEntries(calls, run));
    StripSealed(calls, run);
    SealedResultsFacts(calls, Strip(run));
    forall e | e in out
      ensures e.msg.role.Tool?
    {
      var k :| 0 <= k < |out| && out[k] == e;
      assert Strip(SealedEntries(calls, run))[k] in SealedResults(calls, Strip(run));
    }
  }

  lemma {:induction false} StartsPlain(view: seq<Entry>)
    ensures SanitizedView(view) != [] ==> !SanitizedView(view)[0].msg.role.Tool?
    decreases |view|
  {
    hide SealedEntries, ToolRunEnd;
    if view != [] {
      StartsPlain(view[1..]);
    }
  }

  /** Every view is repaired without loss. */
  lemma {:induction false} SanitizedConserves(view: seq<Entry>)
    ensures Conserves(view, SanitizedView(view))
    decreases |view|
  {
    hide SealedEntries, ToolRunEnd, AnswersKept, FillEntry;
    if view != [] {
      if Opens(view[0].msg) {
        var n := ToolRunEnd(Strip(view), 1);
        SanitizedConserves(view[n..]);
        GroupConserves(view, n);
      } else {
        SanitizedConserves(view[1..]);
        ViewConcat([view[0]], RepairedView(view[1..]));
        assert FilledView([view[0]]) == [FillEntry(view[0])];
        assert ([FillEntry(view[0])] + SanitizedView(view[1..]))[1..] == SanitizedView(view[1..]);
      }
    }
  }

  lemma {:induction false} ViewConcat(a: seq<Entry>, b: seq<Entry>)
    ensures FilledView(a + b) == FilledView(a) + FilledView(b)
  {
  }

  lemma {:induction false} GroupRepaired(view: seq<Entry>, n: nat)
    requires view != [] && Opens(view[0].msg) && n == ToolRunEnd(Strip(view), 1)
    ensures SanitizedView(view) ==
      [view[0]] + FilledView(SealedEntries(view[0].msg.calls, view[1..n])) + SanitizedView(view[n..])
  {
    hide SealedEntries, ToolRunEnd;
    var results := SealedEntries(view[0].msg.calls, view[1..n]);
    ViewConcat([view[0]] + results, RepairedView(view[n..]));
    ViewConcat([view[0]], results);
    assert FilledView([view[0]]) == [view[0]];
  }

  lemma {:induction false} GroupConserves(view: seq<Entry>, n: nat)
    requires view != [] && Opens(view[0].msg) && n == ToolRunEnd(Strip(view), 1)
    requires Conserves(view[n..], SanitizedView(view[n..]))
    ensures Conserves(view, SanitizedView(view))
  {
    hide SealedEntries, ToolRunEnd, AnswersKept, Conserves, RepairedView;
    var calls, run := view[0].msg.calls, view[1..n];
    StartsPlain(view[n..]);
    RunIsResults(view, n);
    SealedAreResults(calls, run);
    SealedKeepsAnswers(calls, run);
    ConservedBlock(view, n, FilledView(SealedEntries(calls, run)), SanitizedView(view[n..]));
    GroupRepaired(view, n);
  }

  lemma {:induction false} RunIsResults(view: seq<Entry>, n: nat)
    requires view != [] && n == ToolRunEnd(Strip(view), 1)
    ensures forall e | e in view[1..n] :: e.msg.role.Tool?
  {
    ToolRunFacts(Strip(view), 1);
    forall e | e in view[1..n]
      ensures e.msg.role.Tool?
    {
      var k :| 1 <= k < n && view[k] == e;
      assert Strip(view)[k] == e.msg;
    }
  }

  // ---- and nothing else conserves --------------------------------------------------------------------

  lemma {:induction false} AnswersAreUnique(ids: seq<CallId>, run: seq<Entry>, r: seq<Entry>, q: seq<Entry>)
    requires AnswersKept(ids, run, r) && AnswersKept(ids, run, q)
    ensures r == q
  {
    hide FillEntry, ResultIds, Strip, FirstAnswers, Unanswered;
    var given := ResultIds(Strip(run));
    var at, which :| FirstAnswers(ids, given, at) && Unanswered(ids, given, which)
      && (forall k | 0 <= k < |at| :: at[k] < |run|) && (forall k | 0 <= k < |which| :: which[k] < |ids|)
      && r == EntriesAt(run, at) + InterruptedAt(ids, which);
    var at', which' :| FirstAnswers(ids, given, at') && Unanswered(ids, given, which')
      && (forall k | 0 <= k < |at'| :: at'[k] < |run|) && (forall k | 0 <= k < |which'| :: which'[k] < |ids|)
      && q == EntriesAt(run, at') + InterruptedAt(ids, which');
    AnswersAt(ids, given, at, at');
    UnansweredAt(ids, given, which, which');
  }

  lemma {:induction false} AnswersAt(ids: seq<CallId>, given: seq<CallId>, at: seq<nat>, at': seq<nat>)
    requires FirstAnswers(ids, given, at) && FirstAnswers(ids, given, at')
    ensures at == at'
  {
    hide Increasing;
    IncreasingIsUnique(at, at');
  }

  lemma {:induction false} UnansweredAt(ids: seq<CallId>, given: seq<CallId>, which: seq<nat>, which': seq<nat>)
    requires Unanswered(ids, given, which) && Unanswered(ids, given, which')
    ensures which == which'
  {
    hide Increasing;
    IncreasingIsUnique(which, which');
  }

  /** A view is a lossless repair of another exactly when the repairer makes it. */
  lemma {:induction false} ConservesIff(view: seq<Entry>, out: seq<Entry>)
    ensures Conserves(view, out) <==> out == SanitizedView(view)
    decreases |view|
  {
    SanitizedConserves(view);
    if Conserves(view, out) {
      ConservesOnly(view, out);
    }
  }

  lemma {:induction false} ConservesOnly(view: seq<Entry>, out: seq<Entry>)
    requires Conserves(view, out)
    ensures out == SanitizedView(view)
    decreases |view|
  {
    hide SealedEntries, ToolRunEnd, AnswersKept;
    if view != [] {
      var e := view[0];
      if Opens(e.msg) {
        var n, k := ToolRunEnd(Strip(view), 1), ToolRunEnd(Strip(out), 1);
        var results := SealedEntries(e.msg.calls, view[1..n]);
        ConservesOnly(view[n..], out[k..]);
        SealedKeepsAnswers(e.msg.calls, view[1..n]);
        AnswersAreUnique(Ids(e.msg.calls), view[1..n], FilledView(results), out[1..k]);
        GroupRepaired(view, n);
        assert out == [out[0]] + out[1..k] + out[k..];
      } else if e.msg.role.Tool? || (e.msg.role.Assistant? && e.msg.content == "") {
        ConservesOnly(view[1..], out);
      } else {
        ConservesOnly(view[1..], out[1..]);
        assert out == [out[0]] + out[1..];
      }
    }
  }

  // ---- the messages -------------------------------------------------------------------------------------

  /** Messages as a view, numbered from 1. */
  function AsView(msgs: seq<Message>): seq<Entry> {
    seq(|msgs|, i requires 0 <= i < |msgs| => Entry(i + 1, false, ThreadMessage, msgs[i]))
  }

  /** The repair of provider messages is that of a view with these messages. */
  lemma {:induction false} MessagesConserve(msgs: seq<Message>, out: seq<Message>)
    ensures out == Sanitized(msgs) <==> exists v :: Conserves(AsView(msgs), v) && Strip(v) == out
  {
    assert Strip(AsView(msgs)) == msgs;
    SanitizedConserves(AsView(msgs));
    SanitizedViewStrips(AsView(msgs));
    forall v | Conserves(AsView(msgs), v)
      ensures Strip(v) == Sanitized(msgs)
    {
      ConservesOnly(AsView(msgs), v);
    }
  }

  /** No tool result and no empty assistant message without calls. */
  predicate Stands(m: Message) {
    Opens(m) || !(m.role.Tool? || (m.role.Assistant? && m.content == ""))
  }

  function Standing(msgs: seq<Message>): seq<Message> {
    if msgs == [] then []
    else (if Stands(msgs[0]) then [msgs[0]] else []) + Standing(msgs[1..])
  }

  lemma {:induction false} StandingConcat(a: seq<Message>, b: seq<Message>)
    ensures Standing(a + b) == Standing(a) + Standing(b)
  {
    hide Stands;
    if a == [] {
      assert a + b == b;
    } else {
      var first := if Stands(a[0]) then [a[0]] else [];
      assert (a + b)[0] == a[0] && (a + b)[1..] == a[1..] + b;
      StandingConcat(a[1..], b);
      Assoc(first, Standing(a[1..]), Standing(b));
    }
  }

  lemma {:induction false} NoResultStands(run: seq<Message>)
    requires forall m | m in run :: m.role.Tool?
    ensures Standing(run) == []
  {
    if run != [] {
      NoResultStands(run[1..]);
    }
  }

  lemma {:induction false} GroupStands(h: Message, run: seq<Message>, rest: seq<Message>)
    requires Opens(h) && forall m | m in run :: m.role.Tool?
    ensures Standing([h] + run + rest) == [h] + Standing(rest)
  {
    StandingConcat([h] + run, rest);
    StandingConcat([h], run);
    NoResultStands(run);
    assert [h][1..] == [];
  }

  /** Prompts, questions, replies and call groups all stay, in order, at most with filled contents. */
  lemma {:induction false} StandingStays(msgs: seq<Message>)
    ensures Standing(Sanitized(msgs)) == Filled(Standing(msgs))
    decreases |msgs|
  {
    hide SealedResults, ToolRunEnd, Standing, Stands, Fill;
    if msgs == [] {
      NoResultStands(msgs);
    } else if Opens(msgs[0]) {
      var n := ToolRunEnd(msgs, 1);
      StandingStays(msgs[n..]);
      GroupStays(msgs, n);
    } else {
      StandingStays(msgs[1..]);
      PlainStays(msgs);
    }
  }

  lemma {:induction false} ResultsFollow(msgs: seq<Message>, n: nat)
    requires msgs != [] && n == ToolRunEnd(msgs, 1)
    ensures forall r | r in msgs[1..n] :: r.role.Tool?
  {
    ToolRunFacts(msgs, 1);
  }

  lemma {:induction false} GroupStays(msgs: seq<Message>, n: nat)
    requires msgs != [] && Opens(msgs[0]) && n == ToolRunEnd(msgs, 1)
    requires Standing(Sanitized(msgs[n..])) == Filled(Standing(msgs[n..]))
    ensures Standing(Sanitized(msgs)) == Filled(Standing(msgs))
  {
    var m := msgs[0];
    var run, results := msgs[1..n], SealedResults(m.calls, msgs[1..n]);
    ResultsFollow(msgs, n);
    assert Filled([m]) == [m];
    hide SealedResults, ToolRunEnd, Standing, Stands, Fill, Filled;
    SealedResultsFacts(m.calls, run);
    FilledResults(results);
    assert msgs == [m] + run + msgs[n..];
    GroupStands(m, run, msgs[n..]);
    FilledConcat([m] + results, Repaired(msgs[n..]));
    FilledConcat([m], results);
    FilledConcat([m], Standing(msgs[n..]));
    GroupStands(m, Filled(results), Sanitized(msgs[n..]));
  }

  lemma {:induction false} PlainStays(msgs: seq<Message>)
    requires msgs != [] && !Opens(msgs[0])
    requires Standing(Sanitized(msgs[1..])) == Filled(Standing(msgs[1..]))
    ensures Standing(Sanitized(msgs)) == Filled(Standing(msgs))
  {
    hide Standing;
    var m := msgs[0];
    assert msgs == [m] + msgs[1..];
    StandingConcat([m], msgs[1..]);
    StandsAlone(m);
    StandsAlone(Fill(m));
    FilledConcat([m], Repaired(msgs[1..]));
    FilledConcat([m], Standing(msgs[1..]));
    StandingConcat([Fill(m)], Sanitized(msgs[1..]));
    assert Filled([m]) == [Fill(m)];
    assert [] + Standing(msgs[1..]) == Standing(msgs[1..]);
  }

  lemma {:induction false} StandsAlone(m: Message)
    ensures Standing([m]) == if Stands(m) then [m] else []
  {
    NoResultStands([m][1..]);
  }

  // ---- single entries --------------------------------------------------------------------------------

  /** Entries that stand and open no group are passed through at the front. */
  lemma {:induction false} PlainFirst(head: seq<Entry>, rest: seq<Entry>)
    requires forall h | h in head :: Stands(h.msg) && !Opens(h.msg)
    ensures SanitizedView(head + rest) == FilledView(head) + SanitizedView(rest)
  {
    hide FillEntry;
    if head == [] {
      assert head + rest == rest;
      assert FilledView(head) + SanitizedView(rest) == SanitizedView(rest);
    } else {
      assert head[0] in head;
      assert (head + rest)[0] == head[0] && (head + rest)[1..] == head[1..] + rest;
      PlainFirst(head[1..], rest);
      ViewConcat([head[0]], RepairedView(head[1..] + rest));
      ViewConcat([head[0]], head[1..]);
      assert head == [head[0]] + head[1..];
      Assoc(FilledView([head[0]]), FilledView(head[1..]), SanitizedView(rest));
    }
  }
}
