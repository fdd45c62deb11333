/**
 The repair of an indexed view, entry by entry: which entries stay, and what that does to the sequence
 numbers that compression anchors on.
 */
module SanitizedViews {
  import opened Sequences
  import opened Payload
  import opened Groups
  import opened Indexed
  import opened Sanitize

  /** Synthetic results are never persisted: they carry no sequence number. */
  function SealEntry(m: Message): Entry {
    Entry(0, true, ThreadMessage, m)
  }

  function SealEntriesOf(seals: seq<Message>): seq<Entry> {
    seq(|seals|, k requires 0 <= k < |seals| => SealEntry(seals[k]))
  }

  /** The first result of each pending call. */
  function FirstResultEntries(run: seq<Entry>, pending: set<CallId>): seq<Entry> {
    if run == [] then []
    else
      var id := run[0].msg.toolCallId;
      if id in pending then [run[0]] + FirstResultEntries(run[1..], pending - {id})
      else FirstResultEntries(run[1..], pending)
  }

  function SealedEntries(calls: seq<ToolCall>, run: seq<Entry>): seq<Entry> {
    FirstResultEntries(run, IdSet(UniqueIds(calls))) +
    SealEntriesOf(Seals(UniqueIds(calls), IdSet(ResultIds(Strip(run)))))
  }

  function RepairedView(view: seq<Entry>): seq<Entry>
    decreases |view|
  {
    if view == [] then []
    else
      var m := view[0].msg;
      if Opens(m) then
        var e := ToolRunEnd(Strip(view), 1);
        [view[0]] + SealedEntries(m.calls, view[1..e]) + RepairedView(view[e..])
      else if m.role.Tool? || (m.role.Assistant? && m.content == "") then RepairedView(view[1..])
      else [view[0]] + RepairedView(view[1..])
  }

  function FillEntry(e: Entry): Entry {
    e.(msg := Fill(e.msg))
  }

  function FilledView(view: seq<Entry>): seq<Entry> {
    seq(|view|, i requires 0 <= i < |view| => FillEntry(view[i]))
  }

  function SanitizedView(view: seq<Entry>): seq<Entry> {
    FilledView(RepairedView(view))
  }

  // ---- the same repair as that of the messages ----------------------------------------------

  lemma {:induction false} StripFirstResults(run: seq<Entry>, pending: set<CallId>)
    ensures Strip(FirstResultEntries(run, pending)) == FirstResults(Strip(run), pending)
    decreases |run|
  {
    if run != [] {
      var id := run[0].msg.toolCallId;
      assert Strip(run)[1..] == Strip(run[1..]);
      StripFirstResults(run[1..], pending - {id});
      StripFirstResults(run[1..], pending);
    }
  }

  lemma {:induction false} StripSealed(calls: seq<ToolCall>, run: seq<Entry>)
    ensures Strip(SealedEntries(calls, run)) == SealedResults(calls, Strip(run))
  {
    var seals := Seals(UniqueIds(calls), IdSet(ResultIds(Strip(run))));
    StripFirstResults(run, IdSet(UniqueIds(calls)));
    StripConcat(FirstResultEntries(run, IdSet(UniqueIds(calls))), SealEntriesOf(seals));
    assert Strip(SealEntriesOf(seals)) == seals;
  }

  lemma {:induction false} GroupStrips(view: seq<Entry>, end: nat)
    requires view != [] && 1 <= end <= |view|
    ensures var m := view[0].msg;
      Strip([view[0]] + SealedEntries(m.calls, view[1..end])) == [m] + SealedResults(m.calls, Strip(view)[1..end])
    ensures Strip(view[end..]) == Strip(view)[end..]
  {
    hide SealedEntries, SealedResults;
    var m := view[0].msg;
    StripSealed(m.calls, view[1..end]);
    assert Strip(view[1..end]) == Strip(view)[1..end];
    StripConcat([view[0]], SealedEntries(m.calls, view[1..end]));
    assert Strip([view[0]]) == [m];
  }

  lemma {:induction false} RepairedViewStrips(view: seq<Entry>)
    ensures Strip(RepairedView(view)) == Repaired(Strip(view))
    decreases |view|
  {
    hide SealedEntries, SealedResults, ToolRunEnd;
    if view != [] {
      var m := view[0].msg;
      if Opens(m) {
        var e := ToolRunEnd(Strip(view), 1);
        GroupStrips(view, e);
        RepairedViewStrips(view[e..]);
        StripConcat([view[0]] + SealedEntries(m.calls, view[1..e]), RepairedView(view[e..]));
      } else {
        assert Strip(view)[1..] == Strip(view[1..]);
        RepairedViewStrips(view[1..]);
        StripConcat([view[0]], RepairedView(view[1..]));
      }
    }
  }

  /** Repairing the view and repairing its messages is the same. */
  lemma {:induction false} SanitizedViewStrips(view: seq<Entry>)
    ensures Strip(SanitizedView(view)) == Sanitized(Strip(view))
  {
    RepairedViewStrips(view);
  }

  // ---- the persisted entries -------------------------------------------------------------------

  lemma {:induction false} NoSealIsPersisted(seals: seq<Message>)
    ensures Persisted(SealEntriesOf(seals)) == []
  {
    NoneOfSynthetic(SealEntriesOf(seals));
  }

  lemma {:induction false} FirstResultsSubseq(run: seq<Entry>, pending: set<CallId>)
    ensures Subseq(Persisted(FirstResultEntries(run, pending)), Persisted(run))
    decreases |run|
  {
    if run != [] {
      var e, id := run[0], run[0].msg.toolCallId;
      FirstResultsSubseq(run[1..], pending - {id});
      FirstResultsSubseq(run[1..], pending);
      var rest := FirstResultEntries(run[1..], if id in pending then pending - {id} else pending);
      assert Persisted([e]) == (if IsPersisted(e) then [e] else []) + Persisted([e][1..]);
      SubseqLonger(Persisted(rest), Persisted([e]), Persisted(run[1..]));
      SubseqBoth(Persisted([e]), Persisted(rest), Persisted(run[1..]));
      PersistedConcat([e], rest);
      PersistedConcat([e], run[1..]);
      assert [e] + run[1..] == run;
    }
  }

  /** The repair drops persisted entries but neither repeats nor reorders them. */
  lemma {:induction false} RepairedViewSubseq(view: seq<Entry>)
    ensures Subseq(Persisted(RepairedView(view)), Persisted(view))
    decreases |view|
  {
    hide Persisted, FirstResultEntries, Seals, Subseq, UniqueIds;
    if view == [] {
      assert RepairedView(view) == view;
      SubseqRefl(Persisted(view));
    } else {
      var m := view[0].msg;
      var one := [view[0]];
      if Opens(m) {
        var e := ToolRunEnd(Strip(view), 1);
        var run, rest := view[1..e], view[e..];
        var firsts := FirstResultEntries(run, IdSet(UniqueIds(m.calls)));
        var seals := SealEntriesOf(Seals(UniqueIds(m.calls), IdSet(ResultIds(Strip(run)))));
        NoSealIsPersisted(Seals(UniqueIds(m.calls), IdSet(ResultIds(Strip(run)))));
        FirstResultsSubseq(run, IdSet(UniqueIds(m.calls)));
        RepairedViewSubseq(rest);
        SubseqConcat(Persisted(firsts), Persisted(run), Persisted(RepairedView(rest)), Persisted(rest));
        SubseqBoth(Persisted(one), Persisted(firsts) + Persisted(RepairedView(rest)), Persisted(run) + Persisted(rest));
        BlockPersisted(one, firsts, seals, RepairedView(rest));
        NoneOfSynthetic([]);
        BlockPersisted(one, run, [], rest);
        assert view == one + (run + []) + rest;
      } else {
        RepairedViewSubseq(view[1..]);
        PersistedConcat(one, view[1..]);
        PersistedConcat(one, RepairedView(view[1..]));
        SubseqLonger(Persisted(RepairedView(view[1..])), Persisted(one), Persisted(view[1..]));
        SubseqBoth(Persisted(one), Persisted(RepairedView(view[1..])), Persisted(view[1..]));
        assert one + view[1..] == view;
      }
    }
  }

  lemma {:induction false} BlockPersisted(one: seq<Entry>, firsts: seq<Entry>, seals: seq<Entry>, rest: seq<Entry>)
    requires Persisted(seals) == []
    ensures Persisted(one + (firsts + seals) + rest) == Persisted(one) + (Persisted(firsts) + Persisted(rest))
  {
    hide Persisted;
    PersistedConcat(one + (firsts + seals), rest);
    PersistedConcat(one, firsts + seals);
    PersistedConcat(firsts, seals);
    assert Persisted(firsts) + [] == Persisted(firsts);
    Assoc(Persisted(one), Persisted(firsts), Persisted(rest));
  }

  lemma {:induction false} FilledPersisted(view: seq<Entry>)
    ensures Persisted(FilledView(view)) == FilledView(Persisted(view))
  {
    if view != [] {
      FilledPersisted(view[1..]);
      assert FilledView(view)[1..] == FilledView(view[1..]);
    }
  }

  lemma {:induction false} FilledSubseq(c: seq<Entry>, s: seq<Entry>)
    requires Subseq(c, s)
    ensures Subseq(FilledView(c), FilledView(s))
  {
    if c != [] {
      assert FilledView(s)[1..] == FilledView(s[1..]) && FilledView(c)[1..] == FilledView(c[1..]);
      if c[0] == s[0] && Subseq(c[1..], s[1..]) {
        FilledSubseq(c[1..], s[1..]);
      } else {
        FilledSubseq(c, s[1..]);
      }
    }
  }

  lemma {:induction false} NumbersSubseq(c: seq<Entry>, s: seq<Entry>)
    requires Subseq(c, s)
    ensures Subseq(SeqNos(c), SeqNos(s))
  {
    if c != [] {
      assert SeqNos(s)[1..] == SeqNos(s[1..]) && SeqNos(c)[1..] == SeqNos(c[1..]);
      if c[0] == s[0] && Subseq(c[1..], s[1..]) {
        NumbersSubseq(c[1..], s[1..]);
      } else {
        NumbersSubseq(c, s[1..]);
      }
    }
  }

  lemma {:induction false} SubseqIncreasing(c: seq<nat>, s: seq<nat>)
    requires Subseq(c, s) && Increasing(s)
    ensures Increasing(c)
  {
    if c != [] {
      var rest := s[1..];
      assert forall i, j | 0 <= i < j < |rest| :: rest[i] == s[i + 1] && rest[j] == s[j + 1];
      if c[0] == s[0] && Subseq(c[1..], rest) {
        SubseqIncreasing(c[1..], rest);
        forall j | 1 <= j < |c|
          ensures c[0] < c[j]
        {
          SubseqMembers(c[1..], rest);
          assert c[j] == c[1..][j - 1];
          assert c[j] in rest;
        }
        assert forall i, j | 1 <= i < j < |c| :: c[i] == c[1..][i - 1] && c[j] == c[1..][j - 1];
      } else {
        SubseqIncreasing(c, rest);
      }
    }
  }

  /**
   Of the persisted entries the repair keeps a subsequence, at most with filled contents: their numbers
   stay in order, and none is invented or repeated.
   */
  lemma {:induction false} SanitizedKeepsNumbers(view: seq<Entry>)
    ensures Subseq(Persisted(SanitizedView(view)), FilledView(Persisted(view)))
    ensures Subseq(PersistedSeqs(SanitizedView(view)), PersistedSeqs(view))
    ensures Increasing(PersistedSeqs(view)) ==> Increasing(PersistedSeqs(SanitizedView(view)))
  {
    hide Persisted, Subseq, RepairedView, Increasing;
    RepairedViewSubseq(view);
    FilledPersisted(RepairedView(view));
    var kept, all := Persisted(RepairedView(view)), Persisted(view);
    FilledSubseq(kept, all);
    NumbersSubseq(FilledView(kept), FilledView(all));
    assert SeqNos(FilledView(kept)) == SeqNos(kept) && SeqNos(FilledView(all)) == SeqNos(all);
    if Increasing(PersistedSeqs(view)) {
      SubseqIncreasing(SeqNos(kept), SeqNos(all));
    }
  }

  lemma {:induction false} AllFirstResults(run: seq<Entry>, pending: set<CallId>)
    requires |FirstResultEntries(run, pending)| == |run|
    ensures FirstResultEntries(run, pending) == run
    decreases |run|
  {
    if run != [] {
      var id := run[0].msg.toolCallId;
      FewerFirstResults(run[1..], pending);
      if id in pending {
        AllFirstResults(run[1..], pending - {id});
      }
    }
  }

  lemma {:induction false} FewerFirstResults(run: seq<Entry>, pending: set<CallId>)
    ensures |FirstResultEntries(run, pending)| <= |run|
    decreases |run|
  {
    if run != [] {
      FewerFirstResults(run[1..], pending - {run[0].msg.toolCallId});
      FewerFirstResults(run[1..], pending);
    }
  }

  /** A group sealed by exactly its results is left alone. */
  lemma {:induction false} SettledGroupIsKept(calls: seq<ToolCall>, run: seq<Entry>)
    requires multiset(ResultIds(Strip(run))) == multiset(IdSet(UniqueIds(calls)))
    ensures SealedEntries(calls, run) == run
  {
    hide FirstResultEntries, FirstResults, Seals, UniqueIds;
    var pending := IdSet(UniqueIds(calls));
    ExactResultsAreKept(Strip(run), pending);
    StripFirstResults(run, pending);
    AllFirstResults(run, pending);
    forall id | id in UniqueIds(calls)
      ensures id in IdSet(ResultIds(Strip(run)))
    {
      assert id in multiset(pending);
    }
    NothingToSeal(UniqueIds(calls), IdSet(ResultIds(Strip(run))));
    assert run + [] == run;
  }

  lemma {:induction false} SettledGroup(view: seq<Entry>, end: nat)
    requires view != [] && Opens(view[0].msg) && Settled(Strip(view)) && end == ToolRunEnd(Strip(view), 1)
    ensures Settled(Strip(view[end..])) && SealedEntries(view[0].msg.calls, view[1..end]) == view[1..end]
  {
    hide SealedEntries, UniqueIds;
    assert Strip(view[1..end]) == Strip(view)[1..end] && Strip(view[end..]) == Strip(view)[end..];
    SettledGroupIsKept(view[0].msg.calls, view[1..end]);
  }

  lemma {:induction false} SettledViewIsRepaired(view: seq<Entry>)
    requires Settled(Strip(view))
    ensures RepairedView(view) == view
    decreases |view|
  {
    hide SealedEntries, UniqueIds, ToolRunEnd;
    if view != [] {
      if Opens(view[0].msg) {
        var e := ToolRunEnd(Strip(view), 1);
        SettledGroup(view, e);
        SettledViewIsRepaired(view[e..]);
        assert [view[0]] + view[1..e] + view[e..] == view;
      } else {
        assert Strip(view)[1..] == Strip(view[1..]);
        SettledViewIsRepaired(view[1..]);
        assert [view[0]] + view[1..] == view;
      }
    }
  }

  /** A settled view is left alone, entry by entry. */
  lemma {:induction false} SettledViewIsKept(view: seq<Entry>)
    requires Settled(Strip(view))
    ensures SanitizedView(view) == view
  {
    hide RepairedView, Settled;
    SettledViewIsRepaired(view);
    SanitizedFixpoints(Strip(view));
    SanitizedViewStrips(view);
    var out := SanitizedView(view);
    forall i | 0 <= i < |view|
      ensures out[i] == view[i]
    {
      assert Strip(view)[i] == Strip(out)[i];
      assert out[i] == view[i].(msg := out[i].msg);
    }
  }
}
