/**
 What a built view shows: the summary of what was left out, then the stored messages, and how the view of the
 turn after a durable compression relates to the compressed one.
 */
module BuiltViews {
  import opened Sequences
  import opened Payload
  import opened Indexed
  import opened Sanitize
  import opened SanitizedViews
  import opened SanitizeKeeps
  import opened TurnStartCompression
  import opened Options
  import opened Store
  import opened Session
  import opened SessionSync

  /** A user message, never persisted, with the summary in brackets. */
  predicate ShowsSummary(e: Entry, summary: string) {
    e == Entry(0, true, CompressionSummary,
               Message(User, "[Compressed context from earlier: " + summary + "]", [], ""))
  }

  /** The stored message with its number; only assistant messages have calls. */
  predicate ShowsRow(e: Entry, row: Row) {
    && e.seqNo == row.seqNo && !e.synthetic && e.kind.ThreadMessage?
    && e.msg.role == row.role
    && e.msg.content == (match row.content case Some(text) => text case None => "")
    && e.msg.toolCallId == (match row.toolCallId case Some(id) => id case None => "")
    && e.msg.calls == if row.role.Assistant? then row.calls else []
  }

  predicate ShowsRows(view: seq<Entry>, rows: seq<Row>) {
    |view| == |rows| && forall i | 0 <= i < |view| :: ShowsRow(view[i], rows[i])
  }

  /** There is a newest record, and its boundary is not past the last message. */
  predicate NewestInUse(t: ThreadData) {
    t.records != [] && Latest(t.records).Some? && Latest(t.records).value.firstKept <= |t.rows|
  }

  lemma {:induction false} NewestIsLoadedIff(t: ThreadData)
    requires Numbered(t.rows)
    ensures NewestInUse(t) <==> Loaded(t).0.Some?
    ensures NewestInUse(t) ==>
      && Loaded(t).0 == Latest(t.records)
      && Loaded(t).1 == t.rows[Below(|t.rows|, Latest(t.records).value.firstKept)..]
    ensures !NewestInUse(t) ==> Loaded(t).1 == t.rows
  {
    hide Latest;
    LatestIsRecord(t.records);
    if t.records != [] {
      FallbackIff(t);
      FromNumbered(t.rows, Latest(t.records).value.firstKept);
      assert t.rows[0..] == t.rows;
    }
  }

  /**
   Behind the head a built view shows the newest summary and the messages from its boundary on; if there is
   no record, or its boundary is past the last message, it shows all messages and no summary.
   */
  lemma {:induction false} BuiltViewShows(head: seq<Entry>, t: ThreadData)
    requires Numbered(t.rows)
    ensures var view := BuiltView(head, t);
      if NewestInUse(t) then
        var rec := Latest(t.records).value;
        && |view| > |head| && view[..|head|] == head
        && ShowsSummary(view[|head|], rec.summary)
        && ShowsRows(view[|head| + 1..], t.rows[Below(|t.rows|, rec.firstKept)..])
      else |view| >= |head| && view[..|head|] == head && ShowsRows(view[|head|..], t.rows)
  {
    NewestIsLoadedIff(t);
    hide Loaded, Latest, NewestInUse;
    var view, rows := BuiltView(head, t), RowEntries(Loaded(t).1);
    assert NewestInUse(t) ==> view[|head| + 1..] == rows;
    assert !NewestInUse(t) ==> view[|head|..] == rows;
  }

  /** A summary is shown exactly when there is a record and the fallback is not taken. */
  lemma {:induction false} SummaryIsShownIff(head: seq<Entry>, t: ThreadData)
    requires Numbered(t.rows) && forall h | h in head :: !h.kind.CompressionSummary?
    ensures (exists e | e in BuiltView(head, t) :: e.kind.CompressionSummary?) <==> NewestInUse(t)
  {
    BuiltViewShows(head, t);
    hide BuiltView, Latest, NewestInUse, ShowsRow;
    var view := BuiltView(head, t);
    var from := |head| + if NewestInUse(t) then 1 else 0;
    assert view == view[..|head|] + view[|head|..from] + view[from..];
    if NewestInUse(t) {
      assert view[|head|] in view;
    } else {
      forall e | e in view
        ensures !e.kind.CompressionSummary?
      {
        if e in view[from..] {
          RowsAreMessages(view[from..], t.rows, e);
        }
      }
    }
  }

  lemma {:induction false} RowsAreMessages(view: seq<Entry>, rows: seq<Row>, e: Entry)
    requires ShowsRows(view, rows) && e in view
    ensures e.kind.ThreadMessage?
  {
    var i :| 0 <= i < |view| && view[i] == e;
    assert ShowsRow(view[i], rows[i]);
  }

  /** The repair of a built view leaves the summary where it is. */
  lemma {:induction false} RepairKeepsSummary(head: seq<Entry>, t: ThreadData)
    requires Numbered(t.rows) && NewestInUse(t)
    requires forall h | h in head :: Stands(h.msg) && !Opens(h.msg) && h.msg.content != ""
    ensures var rec := Latest(t.records).value;
      exists summary ::
        && ShowsSummary(summary, rec.summary)
        && SanitizedView(BuiltView(head, t)) ==
             head + [summary] + SanitizedView(RowEntries(t.rows[Below(|t.rows|, rec.firstKept)..]))
  {
    NewestIsLoadedIff(t);
    hide Loaded, Latest, RepairedView;
    var rec := Latest(t.records).value;
    var summary := SummaryEntry(rec.summary);
    var front := head + [summary];
    assert Stands(summary.msg) && !Opens(summary.msg);
    PlainFirst(front, RowEntries(Loaded(t).1));
    forall i | 0 <= i < |front|
      ensures FillEntry(front[i]) == front[i]
    {
      assert i < |head| ==> front[i] in head;
    }
    assert FilledView(front) == front;
    assert ShowsSummary(summary, rec.summary);
  }

  // ---- the turn after a compression ---------------------------------------------------------------------

  /**
   After a durable compression whose record is the newest, the next build shows the same summary, and behind
   it exactly the persisted entries that the compressed view kept.
   */
  lemma {:induction false} NextBuildAgrees(t: ThreadData, view: seq<Entry>, end: nat, rec: Record, head: seq<Entry>)
    requires Sound(t) && 0 < end <= |view|
    requires Persisted(view) == RowEntries(Loaded(t).1)
    requires rec.firstKept == FirstPersistedSeq(view[end..]) > 0
    requires Latest(Saved(t, rec).records) == Some(rec)
    ensures var compressed := [view[0], SummaryEntry(rec.summary)] + view[end..];
      && BuiltView(head, Saved(t, rec)) == head + [compressed[1]] + Persisted(compressed[2..])
      && ShowsSummary(compressed[1], rec.summary)
  {
    hide Loaded, Latest, Persisted, RowEntries, FirstPersistedSeq;
    ReloadAgrees(t, view, end, rec);
    assert ([view[0], SummaryEntry(rec.summary)] + view[end..])[2..] == view[end..];
  }

  /** In a thread whose view is in step with the store, a clean durable compression is what the next turn sees. */
  lemma {:induction false} NextTurnSees(x: Session, e: Event, head: seq<Entry>)
    requires Good(x) && Sound(x.t) && e.Summarize? && Enabled(x, e) && InSync(x, e.v) && Clean(x, e.v, e)
    ensures |e.r.view| >= 2 && ShowsSummary(e.r.view[1], e.summary)
    ensures BuiltView(head, Next(x, e).t) == head + [e.r.view[1]] + Persisted(e.r.view[2..])
  {
    hide Loaded, Latest, BatchEnds, Tokens, ToRaw, Persisted, FirstPersistedSeq, OnTrack, Increasing, Sound, SummaryEntry, BuiltView;
    SavedIsLatestIff(x.t, NewRecord(x, e));
    NextBuildAgrees(x.t, Entries(x.views[e.v]), EndOf(e), NewRecord(x, e), head);
  }

  /** Whatever happened: if the next turn loads the new record, it shows its summary behind the head. */
  lemma {:induction false} LoadedSummaryIsShown(x: Session, e: Event, head: seq<Entry>)
    requires e.Summarize? && Enabled(x, e) && Saves(e)
    requires Loaded(Next(x, e).t).0 == Some(NewRecord(x, e))
    ensures var view := BuiltView(head, Next(x, e).t);
      |view| > |head| && view[..|head|] == head && ShowsSummary(view[|head|], e.summary)
  {
    hide Loaded, Enabled, Next, RowEntries;
  }
}
