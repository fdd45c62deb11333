/**
 The compressor's results as events of a thread, and the turns in which the persisted entries in view are
 exactly what the store would load.
 */
module SessionSync {
  import opened Sequences
  import opened Indexed
  import opened Sanitize
  import opened SanitizedViews
  import opened Truncate
  import opened Compress
  import opened TurnStartCompression
  import opened ActiveTurnCompression
  import opened Compressor
  import opened Options
  import opened Store
  import opened Session

  lemma {:induction false} EntriesCompacted(w: View, i: nat, e: Entry, j: nat)
    requires i <= j <= |w|
    ensures Entries(Compacted(w, i, e, j)) == Entries(w)[..i] + [e] + Entries(w)[j..]
  {
  }

  lemma {:induction false} EntriesShortened(w: View, e: Event)
    requires e.Shorten?
    ensures var base := if e.pruned then PrunedView(e.env, Entries(w)) else Entries(w);
      Entries(Shortened(w, e)) == if e.truncated then Truncated(e.c, e.s.budget, base) else base
  {
    hide PrunedEntry, TruncationFlags, Kept, Truncated;
    var base := if e.pruned then Redrawn(w, PrunedView(e.env, Entries(w))) else w;
    if e.pruned {
      assert Entries(base) == PrunedView(e.env, Entries(w));
    }
    TruncatedIsKept(e.c, e.s.budget, Entries(base));
    EntriesKept(base, TruncationFlags(e.c, e.s.budget, Entries(base)));
  }

  /** Whatever the compressor returns for a view, taking the returned view is an event. */
  lemma {:induction false} CompressorSteps(x: Session, v: nat, s: Settings, c: Counter, env: Env, mode: Mode, r: Result)
    returns (e: Event)
    requires v in x.views && Explained(s, c, env, Entries(x.views[v]), mode, r)
    ensures Enabled(x, e) && OnView(e) && e.v == v && Entries(Next(x, e).views[v]) == r.view
  {
    hide Summarized, Checkpointed, PrunedEntry, Truncated, ToRaw;
    var view := Entries(x.views[v]);
    var pruned := PrunedView(env, view);
    if summary :| r.outcome.Compressed? && Summarized(s, c, env, view, r, summary) {
      e := Summarize(v, s, c, env, r, summary, 0, false);
      SummarizedEntries(x, e);
    } else if r.outcome.Compressed? {
      var summary, retry :| Checkpointed(s, c, env, pruned, Tokens(c, ToRaw(view)), r, summary, retry);
      e := Fold(v, s, c, env, r, summary, retry);
      FoldedEntries(x, e);
    } else {
      var plain := Shorten(v, s, c, env, false, false);
      if r.view == view {
        e := plain;
      } else if r.view == pruned {
        e := plain.(pruned := true);
      } else {
        e := Shorten(v, s, c, env, r.view != Truncated(c, s.budget, view), true);
      }
      EntriesShortened(x.views[v], e);
    }
  }

  lemma {:induction false} SummarizedEntries(x: Session, e: Event)
    requires e.Summarize? && Enabled(x, e)
    ensures Entries(Next(x, e).views[e.v]) == e.r.view
  {
    hide BatchEnds, Tokens, ToRaw, FirstPersistedSeq;
    var w := x.views[e.v];
    EntriesCompacted(w, 1, SummaryEntry(e.summary), EndOf(e));
    assert Entries(w)[..1] + [SummaryEntry(e.summary)] == [Entries(w)[0], SummaryEntry(e.summary)];
  }

  lemma {:induction false} FoldedEntries(x: Session, e: Event)
    requires e.Fold? && Enabled(x, e)
    ensures Entries(Next(x, e).views[e.v]) == e.r.view
  {
    hide Tokens, ToRaw, BatchEnd, PrunedEntry;
    var w := x.views[e.v];
    var pruned := PrunedView(e.env, Entries(w));
    EntriesCompacted(Redrawn(w, pruned), LatestUser(pruned) + 1, CheckpointEntry(e.summary), BatchEnd(e.s, e.c, pruned));
    assert Entries(Redrawn(w, pruned)) == pruned;
  }

  // ---- view and store in step -------------------------------------------------------------------

  /** Behind the prompt, the persisted entries in view are exactly what the store would load. */
  predicate InSync(x: Session, v: nat) {
    && v in x.views && x.views[v] != [] && x.views[v][0].e.synthetic
    && Persisted(Entries(x.views[v])) == RowEntries(Loaded(x.t).1)
  }

  /**
   For a view: nothing to repair at its build, nothing dropped in between, records saved by an advancing
   clock, and beside it only views that leave the store alone.
   */
  ghost predicate Clean(x: Session, v: nat, e: Event) {
    && OnView(e)
    && if e.v != v then !e.Append? && (e.Summarize? ==> !Saves(e))
       else match e
         case Build(_, head) => Settled(Strip(BuiltView(head, x.t)))
         case Append(_, _) => true
         case Remind(_, _) => true
         case Summarize(_, _, _, _, _, _, now, _) => Saves(e) && forall rec | rec in x.t.records :: rec.createdAt <= now
         case _ => false
  }

  lemma {:induction false} EntriesIdentified(ids: seq<nat>, view: seq<Entry>)
    ensures Entries(Identified(ids, view)) == view
  {
  }

  lemma {:induction false} BuildInSync(x: Session, e: Event)
    requires Sound(x.t) && e.Build? && Enabled(x, e) && Clean(x, e.v, e)
    ensures InSync(Next(x, e), e.v) && Next(x, e).t == x.t
  {
    hide Loaded, SanitizedView, Settled, Persisted, RowEntries;
    var view := BuiltView(e.head, x.t);
    BuiltViewIsLoaded(e.head, x.t);
    assert view[0] == e.head[0];
    SettledViewIsKept(view);
    EntriesIdentified(x.ids, view);
    assert Next(x, e).views[e.v] == Identified(x.ids, view);
  }

  lemma {:induction false} LoadedGrows(t: ThreadData, row: Row)
    requires Sound(t)
    ensures Loaded(Appended(t, row)).1 == Loaded(t).1 + [RowStored(t, row)]
  {
    hide Loaded, Latest;
    AppendKeepsSound(t, row);
    SoundLoads(t);
    SoundLoads(Appended(t, row));
    LatestIsRecord(t.records);
  }

  lemma {:induction false} LoadedRecordStays(t: ThreadData, row: Row)
    requires Sound(t)
    ensures Loaded(Appended(t, row)).0 == Loaded(t).0
  {
    hide Loaded, Latest;
    AppendKeepsSound(t, row);
    SoundLoads(t);
    SoundLoads(Appended(t, row));
  }

  lemma {:induction false} EntriesSnoc(rows: seq<Row>, row: Row)
    ensures RowEntries(rows + [row]) == RowEntries(rows) + RowEntries([row])
  {
    hide RowMessage;
  }

  /** Interrupted results that a build stores and appends to its view are loaded by a build after storing them. */
  lemma {:induction false} HealIsStoreThenBuild(head: seq<Entry>, t: ThreadData, row: Row)
    requires Sound(t)
    ensures BuiltView(head, Appended(t, row)) == BuiltView(head, t) + RowEntries([RowStored(t, row)])
  {
    hide Loaded, RowEntries, Appended, RowStored, Sound;
    LoadedRecordStays(t, row);
    LoadedGrows(t, row);
    var rec, history := Loaded(t).0, Loaded(t).1;
    EntriesSnoc(history, RowStored(t, row));
    var front := head + (if rec.Some? then [SummaryEntry(rec.value.summary)] else []);
    Assoc(front, RowEntries(history), RowEntries([RowStored(t, row)]));
  }

  lemma {:induction false} AppendInSync(x: Session, e: Event)
    requires Good(x) && Sound(x.t) && e.Append? && Enabled(x, e) && InSync(x, e.v)
    ensures InSync(Next(x, e), e.v) && Sound(Next(x, e).t)
  {
    hide Loaded, Persisted, OnTrack, Increasing, Sound;
    var w, added := x.views[e.v], RowStored(x.t, e.row);
    AppendKeepsSound(x.t, e.row);
    LoadedGrows(x.t, e.row);
    var shown := Shown(RowEntries([added])[0], x.nextRow);
    assert Entries(w + [shown]) == Entries(w) + RowEntries([added]);
    PersistedConcat(Entries(w), RowEntries([added]));
    PersistedOfRows([added]);
    EntriesSnoc(Loaded(x.t).1, added);
  }

  lemma {:induction false} SummaryIsInvisible(first: Entry, e: Entry, view: seq<Entry>)
    requires first.synthetic && e.synthetic
    ensures Persisted([first, e] + view) == Persisted(view)
  {
    hide Persisted;
    NoneOfSynthetic([first, e]);
    PersistedConcat([first, e], view);
    assert [] + Persisted(view) == Persisted(view);
  }

  lemma {:induction false} SummarizeInSync(x: Session, e: Event)
    requires Good(x) && Sound(x.t) && e.Summarize? && Enabled(x, e) && InSync(x, e.v) && Clean(x, e.v, e)
    ensures InSync(Next(x, e), e.v) && Sound(Next(x, e).t)
  {
    hide Loaded, Latest, BatchEnds, Tokens, ToRaw, Persisted, FirstPersistedSeq, OnTrack, Increasing, Sound;
    var view, rec := Entries(x.views[e.v]), NewRecord(x, e);
    ReloadAgrees(x.t, view, EndOf(e), rec);
    SavedIsLatestIff(x.t, rec);
    SummarizedEntries(x, e);
    SummaryIsInvisible(view[0], SummaryEntry(e.summary), view[EndOf(e)..]);
  }

  lemma {:induction false} RemindInSync(x: Session, e: Event)
    requires e.Remind? && Enabled(x, e) && InSync(x, e.v)
    ensures InSync(Next(x, e), e.v) && Next(x, e).t == x.t
  {
    hide Persisted, Loaded;
    var w := x.views[e.v];
    assert Entries(w + [Shown(e.reminder, 0)]) == Entries(w) + [e.reminder];
    PersistedConcat(Entries(w), [e.reminder]);
    NoneOfSynthetic([e.reminder]);
    assert Persisted(Entries(w)) + [] == Persisted(Entries(w));
  }

  lemma {:induction false} BesideInSync(x: Session, v: nat, e: Event)
    requires Enabled(x, e) && InSync(x, v) && Clean(x, v, e) && e.v != v
    ensures InSync(Next(x, e), v) && Next(x, e).t == x.t
  {
    hide Persisted, Loaded, RowEntries;
  }

  /** Clean events keep view and store in step; the build brings them there. */
  lemma {:induction false} CleanStepsInSync(x: Session, v: nat, e: Event)
    requires Good(x) && Sound(x.t) && Enabled(x, e) && Clean(x, v, e) && ((e.Build? && e.v == v) || InSync(x, v))
    ensures InSync(Next(x, e), v) && Sound(Next(x, e).t)
  {
    hide Good, Sound, InSync, Enabled, Next;
    if e.v != v {
      BesideInSync(x, v, e);
    } else {
      match e
      case Build(_, _) => BuildInSync(x, e);
      case Append(_, _) => AppendInSync(x, e);
      case Remind(_, _) => RemindInSync(x, e);
      case Summarize(_, _, _, _, _, _, _, _) => SummarizeInSync(x, e);
    }
  }

  ghost predicate AllClean(x: Session, v: nat, events: seq<Event>)
    requires Allowed(x, events)
  {
    events != [] ==>
      var init := events[..|events| - 1];
      AllClean(x, v, init) && Clean(Reached(x, init), v, events[|events| - 1])
  }

  /** A turn that starts with a build and has clean events only ends with the view the store would load. */
  lemma {:induction false} CleanTurnInSync(x: Session, v: nat, events: seq<Event>)
    requires Good(x) && Sound(x.t) && Allowed(x, events) && AllClean(x, v, events)
    requires events != [] && events[0].Build? && events[0].v == v
    ensures InSync(Reached(x, events), v) && Sound(Reached(x, events).t)
  {
    hide Good, Sound, InSync, Enabled, Next, Clean;
    var init := events[..|events| - 1];
    RunKeeps(x, init);
    if init != [] {
      CleanTurnInSync(x, v, init);
    }
    CleanStepsInSync(Reached(x, init), v, events[|events| - 1]);
  }
}
