/**
 A run in which a command's summary outlives the messages it speaks of: both exchanges of a thread are undone
 while the summarizer works, and two messages later the summary hides what was said since.
 */
module StaleSummary {
  import opened Payload
  import opened Groups
  import opened Indexed
  import opened Sanitize
  import opened SanitizedViews
  import opened Compress
  import opened TurnStartCompression
  import opened Compressor
  import opened RequestLoss
  import opened Options
  import opened Store
  import opened Session
  import opened SessionTruth

  /** The settings of a forced compression. */
  const FORCED := LIMITS.(forced := true)

  const PROMPT := Entry(0, true, SystemPrompt, Said(System, 10))

  function Line(role: Role, n: nat): Row {
    Row(0, role, Some(Chars(n)), None, [])
  }

  /** Two exchanges. */
  const LINES := [Line(User, 200), Line(Assistant, 200), Line(User, 20), Line(Assistant, 20)]

  function Numbering(lines: seq<Row>): seq<Row> {
    seq(|lines|, i requires 0 <= i < |lines| => lines[i].(seqNo := i + 1))
  }

  /** The thread with its first lines stored. */
  function Begun(n: nat): Session
    requires n <= |LINES|
  {
    Session(ThreadData(Numbering(LINES[..n]), []), seq(n, i => i), map[], n, 0, map[])
  }

  lemma {:induction false} ReachedSnoc(x: Session, events: seq<Event>, e: Event)
    requires Allowed(x, events) && Enabled(Reached(x, events), e)
    ensures Allowed(x, events + [e]) && Reached(x, events + [e]) == Next(Reached(x, events), e)
  {
    hide Enabled;
    assert (events + [e])[..|events|] == events;
  }

  function Stores(lines: seq<Row>): seq<Event> {
    seq(|lines|, i requires 0 <= i < |lines| => StoreOnly(lines[i]))
  }

  lemma {:induction false} OneMoreLine(n: nat)
    requires n < |LINES|
    ensures Next(Begun(n), StoreOnly(LINES[n])) == Begun(n + 1)
  {
    hide Line;
    var rows, line := Numbering(LINES[..n]), LINES[n];
    MaxOfNumbered(rows);
    assert Numbering(LINES[..n + 1]) == rows + [line.(seqNo := n + 1)];
    assert seq(n + 1, i => i) == seq(n, i => i) + [n];
  }

  lemma {:induction false} StoredLines(n: nat)
    requires n <= |LINES|
    ensures Allowed(Fresh(), Stores(LINES[..n])) && Reached(Fresh(), Stores(LINES[..n])) == Begun(n)
  {
    hide Line, Next, Begun;
    if n == 0 {
      NothingBegun();
    } else {
      StoredLines(n - 1);
      assert Stores(LINES[..n]) == Stores(LINES[..n - 1]) + [StoreOnly(LINES[n - 1])];
      ReachedSnoc(Fresh(), Stores(LINES[..n - 1]), StoreOnly(LINES[n - 1]));
      OneMoreLine(n - 1);
    }
  }

  lemma {:induction false} NothingBegun()
    ensures Stores(LINES[..0]) == [] && Begun(0) == Fresh()
  {
  }

  /** The view that the command builds. */
  function CommandView(): seq<Entry> {
    [PROMPT] + RowEntries(Numbering(LINES))
  }

  lemma {:induction false} ViewMessages()
    ensures Strip(CommandView()) == [Said(System, 10), Said(User, 200), Said(Assistant, 200), Said(User, 20), Said(Assistant, 20)]
    ensures |CommandView()| == 5 && CheckpointFree(CommandView())
    ensures forall i | 1 <= i < 5 :: CommandView()[i].seqNo == i && !CommandView()[i].synthetic
  {
    hide Chars;
  }

  lemma {:induction false} PlainIsSettled(msgs: seq<Message>)
    requires forall m | m in msgs :: !m.role.Tool? && m.calls == [] && m.content != ""
    ensures Settled(msgs)
  {
    if msgs != [] {
      PlainIsSettled(msgs[1..]);
    }
  }

  lemma {:induction false} CommandBuilds()
    ensures Enabled(Begun(4), Build(0, [PROMPT]))
    ensures Next(Begun(4), Build(0, [PROMPT])).views == map[0 := Identified(Begun(4).ids, CommandView())]
  {
    hide Settled, RowEntries;
    assert LINES[..4] == LINES;
    ViewMessages();
    hide CommandView;
    PlainIsSettled(Strip(CommandView()));
    SettledViewIsKept(CommandView());
    FirstBuild();
  }

  lemma {:induction false} FirstBuild()
    ensures BuiltView([PROMPT], Begun(4).t) == CommandView()
  {
    hide RowEntries;
    assert LINES[..4] == LINES;
    assert [PROMPT] + [] == [PROMPT];
  }

  // ---- the command's summary --------------------------------------------------------------------------

  lemma {:induction false} CommandBatch()
    ensures ToRaw(CommandView()) == Strip(CommandView())
    ensures BatchEnds(FORCED, PER_CHARACTER, ToRaw(CommandView()), 3)
    ensures Tokens(PER_CHARACTER, ToRaw(CommandView())) == 450
  {
    hide Chars, CommandView, GroupsFrom;
    var view, c := CommandView(), PER_CHARACTER;
    ViewMessages();
    RawOfCheckpointFree(view);
    var raw := Strip(view);
    var history := raw[BATCH_START..];
    assert BatchTarget(FORCED, c, raw) == 4;
    LastUserIs(history, 2);
    assert Reach(history, 3) == 2;
    CutBefore(history, 2);
    hide BatchTarget, Reach;
    RangeOfTwo(view[0], view[1]);
    RangeSnoc(view[..2], view[2]);
    RangeSnoc(view[..3], view[3]);
    RangeSnoc(view[..4], view[4]);
    assert view[..2] == [view[0], view[1]] && view[..2] + [view[2]] == view[..3] && view[..3] + [view[3]] == view[..4];
    assert view[..4] + [view[4]] == view && forall i | 0 <= i < 5 :: view[i].msg == raw[i];
  }

  lemma {:induction false} LastUserIs(msgs: seq<Message>, i: nat)
    requires i < |msgs| && msgs[i].role.User? && forall k | i < k < |msgs| :: !msgs[k].role.User?
    ensures LastUser(msgs) == i
  {
  }

  /** Any summary of the command keeps from the second request on. */
  lemma {:induction false} CommandKeepsSecond(env: Env, r: Result, summary: string)
    requires Summarized(FORCED, PER_CHARACTER, env, CommandView(), r, summary)
    ensures r.compressedCount == 2 && r.firstKeptSeq == 3
  {
    hide BatchEnds, CommandView, Tokens, ToRaw;
    CommandBatch();
    SummaryIsUnique(FORCED, PER_CHARACTER, env, CommandView(), 3, r, summary);
    ViewMessages();
    assert CommandView()[3..][0] == CommandView()[3];
  }

  lemma {:induction false} CommandCanSummarize(env: Env, summary: string)
    requires AlwaysAnswers(env, summary) && 0 < |summary| <= 300
    ensures CanSummarize(FORCED, PER_CHARACTER, env, CommandView())
  {
    hide BatchEnds, CommandView, Tokens, ToRaw, FirstPersistedSeq, Valid, Prepared;
    var view := CommandView();
    ViewMessages();
    CommandBatch();
    var out := [view[0], SummaryEntry(summary)] + view[3..];
    ShortOut(view, out, summary);
    var r := Result(out, Compressed, false, NoReason, FirstPersistedSeq(view[3..]), 2, Tokens(PER_CHARACTER, ToRaw(out)), 0);
    assert Summarized(FORCED, PER_CHARACTER, env, view, r, summary);
  }

  lemma {:induction false} ShortOut(view: seq<Entry>, out: seq<Entry>, summary: string)
    requires view == CommandView() && |summary| <= 300 && |view| == 5
    requires out == [view[0], SummaryEntry(summary)] + view[3..]
    ensures Valid(ToRaw(out)) && Tokens(PER_CHARACTER, ToRaw(out)) <= 385
  {
    hide CommandView, Chars;
    ViewMessages();
    assert Strip(view)[0] == view[0].msg && Strip(view)[3] == view[3].msg && Strip(view)[4] == view[4].msg;
    assert out == [view[0], SummaryEntry(summary), view[3], view[4]];
    RawOfCheckpointFree(out);
    hide SummaryEntry;
    SummaryMessage(summary);
    PlainStrip(out);
    RangeOfTwo(out[0], out[1]);
    RangeSnoc(out[..2], out[2]);
    RangeSnoc(out[..3], out[3]);
    assert out[..2] == [out[0], out[1]] && out[..2] + [out[2]] == out[..3] && out[..3] + [out[3]] == out;
  }

  lemma {:induction false} SummaryMessage(summary: string)
    ensures var m := SummaryEntry(summary).msg; m.role.User? && m.calls == [] && |m.content| == |summary| + 35
  {
  }

  /** What the command gets from the compressor. */
  method RunCommand(env: Env, summary: string) returns (r: Result)
    requires AlwaysAnswers(env, summary) && 0 < |summary| <= 300
    ensures exists text :: Summarized(FORCED, PER_CHARACTER, env, CommandView(), r, text)
    ensures r.outcome.Compressed? && r.firstKeptSeq == 3
  {
    hide CanSummarize, CommandView, Summarized, Tokens, ToRaw;
    CommandCanSummarize(env, summary);
    ViewMessages();
    r := CompressIfNeeded(FORCED, PER_CHARACTER, env, CommandView(), TurnStart);
    ghost var text :| Summarized(FORCED, PER_CHARACTER, env, CommandView(), r, text);
    CommandKeepsSecond(env, r, text);
  }

  // ---- the run -----------------------------------------------------------------------------------------

  lemma {:induction false} FreshIsGood()
    ensures Good(Fresh()) && Truthful(Fresh())
  {
  }

  /** The command has its view, and both exchanges are undone. */
  lemma {:induction false} UndoneRun() returns (events: seq<Event>)
    ensures |events| == 7 && Allowed(Fresh(), events)
    ensures var x := Reached(Fresh(), events);
      && x.t == ThreadData([], []) && x.ids == [] && x.nextRecord == 0 && x.nextRow == 4
      && x.views == map[0 := Identified(Begun(4).ids, CommandView())]
  {
    hide CommandView, Identified, RowEntries, Numbering;
    var build := Build(0, [PROMPT]);
    assert LINES[..4] == LINES;
    StoredLines(4);
    CommandBuilds();
    ReachedSnoc(Fresh(), Stores(LINES), build);
    var built := Stores(LINES) + [build];
    FreshIsGood();
    RunKeeps(Fresh(), built);
    ReachedSnoc(Fresh(), built, Undo(3));
    ReachedSnoc(Fresh(), built + [Undo(3)], Undo(1));
    events := built + [Undo(3)] + [Undo(1)];
    UndoneTwice(Reached(Fresh(), built));
    BegunHasNoRecords();
  }

  lemma {:induction false} BegunHasNoRecords()
    ensures Begun(4).t.records == [] && Begun(4).nextRecord == 0 && Begun(4).nextRow == 4
  {
  }

  lemma {:induction false} UndoneTwice(x: Session)
    requires Good(x) && x.t.records == []
    ensures var y := Next(Next(x, Undo(3)), Undo(1));
      y.t == ThreadData([], []) && y.ids == [] && y.views == x.views && y.nextRecord == x.nextRecord
      && y.nextRow == x.nextRow
  {
    var y := Next(x, Undo(3));
    UndoKeeps(x, 3);
    BeforeNumbered(y.t.rows, 1);
  }

  /** A new row after some others. */
  lemma {:induction false} RowAfter(t: ThreadData, row: Row)
    requires Numbered(t.rows)
    ensures Appended(t, row).rows == t.rows + [row.(seqNo := |t.rows| + 1)] && Numbered(Appended(t, row).rows)
    ensures Appended(t, row).records == t.records
  {
    MaxOfNumbered(t.rows);
  }

  lemma {:induction false} LoadedOne(t: ThreadData, rec: Record)
    requires Numbered(t.rows) && t.records == [rec] && rec.firstKept == 3 && |t.rows| <= 3
    ensures Loaded(t) == if |t.rows| < 3 then (None, t.rows) else (Some(rec), t.rows[2..])
  {
    assert t.records[..0] == [];
    assert Latest(t.records) == Some(rec);
    FromNumbered(t.rows, 3);
    if |t.rows| < 3 {
      assert t.rows[|t.rows|..] == [];
    }
  }

  function StaleRecord(now: int, summary: string): Record {
    Record(0, 3, now, summary)
  }

  /** The command saves into the empty thread: the record names a message that is not there. */
  lemma {:induction false} SavedRun(env: Env, r: Result, summary: string, now: int) returns (events: seq<Event>)
    requires Summarized(FORCED, PER_CHARACTER, env, CommandView(), r, summary)
    ensures |events| == 8 && Allowed(Fresh(), events)
    ensures var x := Reached(Fresh(), events);
      && x.t == ThreadData([], [StaleRecord(now, summary)]) && Good(x)
      && 0 in x.origins && x.origins[0] == 2 && x.nextRow == 4
  {
    hide CommandView, Summarized, Identified, Compacted;
    var undone := UndoneRun();
    var x := Reached(Fresh(), undone);
    var e := Summarize(0, FORCED, PER_CHARACTER, env, r, summary, now, true);
    EntriesOfCommand();
    CommandKeepsSecond(env, r, summary);
    ReachedSnoc(Fresh(), undone, e);
    events := undone + [e];
    FreshIsGood();
    RunKeeps(Fresh(), events);
    OriginOfCommand();
  }

  lemma {:induction false} EntriesOfCommand()
    ensures Entries(Identified(Begun(4).ids, CommandView())) == CommandView()
  {
  }

  lemma {:induction false} OriginOfCommand()
    ensures |Identified(Begun(4).ids, CommandView())| == 5
    ensures FirstId(Identified(Begun(4).ids, CommandView())[3..]) == 2
  {
    hide CommandView;
    ViewMessages();
    var w := Identified(Begun(4).ids, CommandView());
    assert w[3..][0] == w[3] && w[3].id == 2;
  }

  lemma {:induction false} LaterRow(events: seq<Event>, row: Row) returns (more: seq<Event>)
    requires Allowed(Fresh(), events) && Good(Reached(Fresh(), events))
    ensures more == events + [StoreOnly(row)] && Allowed(Fresh(), more)
    ensures var x, y := Reached(Fresh(), events), Reached(Fresh(), more);
      && Good(y) && |y.t.rows| == |x.t.rows| + 1 && y.t.records == x.t.records
      && y.ids == x.ids + [x.nextRow] && y.nextRow == x.nextRow + 1 && y.origins == x.origins
  {
    hide Good, OnTrack;
    more := events + [StoreOnly(row)];
    ReachedSnoc(Fresh(), events, StoreOnly(row));
    WithRowKeeps(Reached(Fresh(), events), row);
  }

  /** One message, and it is loaded by the fallback. */
  predicate FallsBack(x: Session) {
    |x.t.rows| == 1 && Loaded(x.t) == (None, x.t.rows)
  }

  /** Of three messages the first two are hidden behind a summary of deleted ones. */
  predicate Hides(x: Session, rec: Record) {
    && |x.t.rows| == 3 && Loaded(x.t) == (Some(rec), x.t.rows[2..])
    && rec.id in x.origins && x.origins[rec.id] !in x.ids && !IsTrue(x, rec)
  }

  /**
   The whole run. The save leaves a record that names no message; the next message is loaded in full, by the
   fallback; two messages later the number is in use again, and the stale summary hides the first two.
   */
  lemma {:induction false} StaleRun(env: Env, r: Result, summary: string, now: int) returns (events: seq<Event>)
    requires Summarized(FORCED, PER_CHARACTER, env, CommandView(), r, summary)
    ensures |events| == 11 && Allowed(Fresh(), events) && Allowed(Fresh(), events[..9])
    ensures FallsBack(Reached(Fresh(), events[..9])) && Hides(Reached(Fresh(), events), StaleRecord(now, summary))
  {
    hide CommandView, Summarized, Good, IsTrue, Loaded, OnTrack;
    var saved := SavedRun(env, r, summary, now);
    var one := LaterRow(saved, Line(User, 5));
    var two := LaterRow(one, Line(Assistant, 5));
    events := LaterRow(two, Line(User, 5));
    assert events[..9] == one;
    GoodIsNumbered(Reached(Fresh(), one));
    GoodIsNumbered(Reached(Fresh(), events));
    LoadedOne(Reached(Fresh(), one).t, StaleRecord(now, summary));
    LoadedOne(Reached(Fresh(), events).t, StaleRecord(now, summary));
    NotTrue(Reached(Fresh(), events), StaleRecord(now, summary));
  }

  lemma {:induction false} GoodIsNumbered(x: Session)
    requires Good(x)
    ensures Numbered(x.t.rows) && |x.ids| == |x.t.rows|
  {
    hide OnTrack;
  }

  lemma {:induction false} NotTrue(x: Session, rec: Record)
    requires rec.id in x.origins && x.origins[rec.id] !in x.ids
    ensures !IsTrue(x, rec)
  {
  }
}
