/**
 When the compression records of a thread speak of what is stored: throughout a run, after one save, and
 after a command that compresses while anything else goes on.
 */
module SessionTruth {
  import opened Sequences
  import opened Indexed
  import opened SanitizedViews
  import opened TurnStartCompression
  import opened Options
  import opened Store
  import opened Session

  // ---- records that speak of what is stored -------------------------------------------------------------

  /** The boundary carries its number still: the row it was read off is stored, and so is all before it. */
  predicate IsTrue(x: Session, rec: Record) {
    && 1 <= rec.firstKept <= |x.ids| && rec.id in x.origins
    && x.ids[rec.firstKept - 1] == x.origins[rec.id]
  }

  predicate Truthful(x: Session) {
    forall rec | rec in x.t.records :: IsTrue(x, rec)
  }

  /** A save finds the row of its boundary still stored; a half-done undo removes no row that a record needs. */
  ghost predicate Harmless(x: Session, e: Event)
    requires Enabled(x, e)
  {
    match e
    case Summarize(v, _, _, _, _, _, _, _) => Saves(e) ==> FirstId(x.views[v][EndOf(e)..]) in x.ids
    case DeleteRows(seqNo) => forall rec | rec in x.t.records :: rec.firstKept < seqNo
    case _ => true
  }

  lemma {:induction false} FirstShown(w: View) returns (i: nat)
    requires FirstPersistedSeq(Entries(w)) > 0
    ensures i < |w| && IsPersisted(w[i].e) && FirstId(w) == w[i].id && FirstPersistedSeq(Entries(w)) == w[i].e.seqNo
    ensures forall k | 0 <= k < i :: !IsPersisted(w[k].e)
  {
    assert Entries(w)[0] == w[0].e && Entries(w)[1..] == Entries(w[1..]);
    if IsPersisted(w[0].e) {
      i := 0;
    } else {
      i := FirstShown(w[1..]);
      assert w[1..][i] == w[i + 1];
      i := i + 1;
    }
  }

  lemma {:induction false} BoundaryOf(x: Session, e: Event) returns (i: nat)
    requires e.Summarize? && Enabled(x, e) && e.r.firstKeptSeq > 0
    ensures var w := x.views[e.v];
      && EndOf(e) <= i < |w| && IsPersisted(w[i].e) && w[i].e.seqNo == e.r.firstKeptSeq
      && FirstId(w[EndOf(e)..]) == w[i].id && forall k | EndOf(e) <= k < i :: !IsPersisted(w[k].e)
  {
    hide BatchEnds, Tokens, ToRaw, FirstPersistedSeq;
    var w, end := x.views[e.v], EndOf(e);
    assert Entries(w)[end..] == Entries(w[end..]);
    i := FirstShown(w[end..]);
    assert forall k | end <= k < |w| :: w[end..][k - end] == w[k];
    i := end + i;
  }

  /** A new record is true exactly when the row its boundary was read off is stored. */
  lemma {:induction false} SaveTrueIff(x: Session, e: Event)
    requires Good(x) && e.Summarize? && Enabled(x, e) && Saves(e)
    ensures IsTrue(Next(x, e), NewRecord(x, e)) <==> FirstId(x.views[e.v][EndOf(e)..]) in x.ids
  {
    hide BatchEnds, Tokens, ToRaw, FirstPersistedSeq, Compacted, Increasing, PersistedIds, Shows, FirstId;
    var i := BoundaryOf(x, e);
    var s := x.views[e.v][i];
    assert s in x.views[e.v];
    assert OnTrack(x.t.rows, x.ids, x.nextRow, x.views[e.v]);
  }

  lemma {:induction false} SaveTruth(x: Session, e: Event)
    requires Good(x) && Truthful(x) && e.Summarize? && Enabled(x, e)
    ensures Truthful(Next(x, e)) <==> Harmless(x, e)
  {
    hide BatchEnds, Tokens, ToRaw, FirstPersistedSeq, Compacted, Increasing, OnTrack, FirstId;
    var y := Next(x, e);
    if Saves(e) {
      SaveTrueIff(x, e);
      var rec := NewRecord(x, e);
      assert y.t.records[|x.t.records|] == rec;
      assert forall r | r in y.t.records :: r in x.t.records || r == rec;
    }
  }

  lemma {:induction false} UndoTruth(x: Session, e: Event)
    requires Good(x) && Truthful(x) && (e.Undo? || e.DeleteRows? || e.DropRecords?)
    ensures Truthful(Next(x, e)) <==> Harmless(x, e)
  {
    hide Increasing, OnTrack;
    SurvivorsAreRecords(x.t.records, e.seqNo);
    var y := Next(x, e);
    if e.DeleteRows? && !Harmless(x, e) {
      var rec :| rec in x.t.records && rec.firstKept >= e.seqNo;
      assert IsTrue(x, rec) && !IsTrue(y, rec);
    }
  }

  lemma {:induction false} AppendTruth(x: Session, row: Row, views: map<nat, View>)
    requires Truthful(x)
    ensures Truthful(WithRow(x, row).(views := views))
  {
  }

  lemma {:induction false} StepTruthIff(x: Session, e: Event)
    requires Good(x) && Truthful(x) && Enabled(x, e)
    ensures Truthful(Next(x, e)) <==> Harmless(x, e)
  {
    if e.Summarize? {
      SaveTruth(x, e);
    } else if e.Undo? || e.DeleteRows? || e.DropRecords? {
      UndoTruth(x, e);
    } else {
      hide Enabled, Good, IsTrue;
      OtherTruth(x, e);
    }
  }

  lemma {:induction false} OtherTruth(x: Session, e: Event)
    requires Truthful(x) && Enabled(x, e) && !e.Summarize? && !e.Undo? && !e.DeleteRows? && !e.DropRecords?
    ensures Truthful(Next(x, e))
  {
    if e.Append? || e.StoreOnly? {
      AppendTruth(x, e.row, Next(x, e).views);
    }
  }

  /** Every state on the way is truthful. */
  ghost predicate AlwaysTruthful(x: Session, events: seq<Event>)
    requires Allowed(x, events)
  {
    Truthful(Reached(x, events)) && (events != [] ==> AlwaysTruthful(x, events[..|events| - 1]))
  }

  ghost predicate AllHarmless(x: Session, events: seq<Event>)
    requires Allowed(x, events)
  {
    events != [] ==>
      var init := events[..|events| - 1];
      AllHarmless(x, init) && Harmless(Reached(x, init), events[|events| - 1])
  }

  /**
   The records of a thread are true throughout a run exactly when every save finds the row of its boundary
   still stored and every undo that removes the row of a boundary removes the record with it.
   */
  lemma {:induction false} RunTruthIff(x: Session, events: seq<Event>)
    requires Good(x) && Truthful(x) && Allowed(x, events)
    ensures AlwaysTruthful(x, events) <==> AllHarmless(x, events)
  {
    hide Good, Truthful, Enabled, Next, Harmless;
    if events != [] {
      var init, last := events[..|events| - 1], events[|events| - 1];
      RunTruthIff(x, init);
      RunKeeps(x, init);
      if AlwaysTruthful(x, init) {
        assert Truthful(Reached(x, init));
        StepTruthIff(Reached(x, init), last);
      }
    }
  }

  /** True records are loaded with exactly what they leave out; the fallback is not taken. */
  lemma {:induction false} TruthfulLoads(x: Session)
    requires Good(x) && Truthful(x)
    ensures Sound(x.t) && Loaded(x.t).0 == Latest(x.t.records)
    ensures x.t.records != [] ==>
      var rec := Latest(x.t.records).value;
      IsTrue(x, rec) && Loaded(x.t).1 == x.t.rows[rec.firstKept - 1..]
  {
    hide Loaded, Latest, Increasing, OnTrack;
    SoundLoads(x.t);
    LatestIsRecord(x.t.records);
  }

  /**
   In every state of a run from an empty thread whose saves and undos are harmless, loading gives the newest
   summary with exactly the messages from its boundary on, and the boundary is the row it was read off.
   */
  lemma {:induction false} LoadsWhatIsKept(events: seq<Event>)
    requires Allowed(Fresh(), events) && AllHarmless(Fresh(), events)
    ensures var x := Reached(Fresh(), events);
      && Loaded(x.t).0 == Latest(x.t.records)
      && (x.t.records != [] ==>
            var rec := Latest(x.t.records).value;
            && IsTrue(x, rec) && rec.firstKept <= |x.t.rows|
            && Loaded(x.t).1 == x.t.rows[rec.firstKept - 1..])
  {
    hide Loaded, Latest, Enabled, Next, Harmless;
    RunKeeps(Fresh(), events);
    RunTruthIff(Fresh(), events);
    TruthfulLoads(Reached(Fresh(), events));
  }

  // ---- how long a row stays stored ------------------------------------------------------------------------

  /** No undo removes the row with number n. */
  ghost predicate NoUndoAt(events: seq<Event>, n: nat) {
    forall e | e in events && (e.Undo? || e.DeleteRows?) :: e.seqNo > n
  }

  /** The IDs change with the rows only. */
  lemma {:induction false} IdsStep(x: Session, e: Event)
    requires Enabled(x, e)
    ensures Next(x, e).ids ==
      if e.Append? || e.StoreOnly? then x.ids + [x.nextRow]
      else if e.Undo? || e.DeleteRows? then x.ids[..Below(|x.ids|, e.seqNo)]
      else x.ids
    ensures Next(x, e).nextRow == if e.Append? || e.StoreOnly? then x.nextRow + 1 else x.nextRow
  {
    hide Enabled;
  }

  /** A row with number n is stored after a run exactly when no undo of the run reached down to n. */
  lemma {:induction false} StillStoredIff(x: Session, events: seq<Event>, n: nat)
    requires Good(x) && Allowed(x, events) && 1 <= n <= |x.ids|
    ensures var y := Reached(x, events);
      && (x.ids[n - 1] in y.ids <==> NoUndoAt(events, n))
      && (x.ids[n - 1] in y.ids ==> n <= |y.ids| && y.ids[n - 1] == x.ids[n - 1])
      && x.ids[n - 1] < y.nextRow
  {
    hide Enabled, Next, OnTrack;
    var id := x.ids[n - 1];
    assert id in x.ids;
    if events != [] {
      var init, last := events[..|events| - 1], events[|events| - 1];
      StillStoredIff(x, init, n);
      RunKeeps(x, init);
      var y := Reached(x, init);
      IdsStep(y, last);
      assert forall e | e in events :: e in init || e == last;
      assert last in events && forall e | e in init :: e in events;
      StoredAfterStep(y.ids, y.nextRow, id, n, last);
    }
  }

  lemma {:induction false} StoredAfterStep(ids: seq<nat>, bound: nat, id: nat, n: nat, e: Event)
    requires Increasing(ids) && id < bound && n >= 1 && (id in ids ==> n <= |ids| && ids[n - 1] == id)
    ensures id in ids + [bound] <==> id in ids
    ensures id in ids ==> (ids + [bound])[n - 1] == id
    ensures e.Undo? || e.DeleteRows? ==>
      var left := ids[..Below(|ids|, e.seqNo)];
      (id in left <==> id in ids && e.seqNo > n) && (id in left ==> n <= |left| && left[n - 1] == id)
  {
    if e.Undo? || e.DeleteRows? {
      var left := ids[..Below(|ids|, e.seqNo)];
      if id in left {
        var j :| 0 <= j < |left| && left[j] == id;
        assert ids[j] == id && j == n - 1;
      }
      if id in ids && e.seqNo > n {
        assert left[n - 1] == ids[n - 1];
      }
    }
  }

  /**
   For any view: if the row of the boundary carried its number at some state y, the save after further events
   gives a true record exactly when no undo among them reached down to the boundary.
   */
  lemma {:induction false} SaveTrueSinceIff(y: Session, events: seq<Event>, e: Event)
    requires Good(y) && Allowed(y, events) && e.Summarize? && Enabled(Reached(y, events), e) && Saves(e)
    requires e.r.firstKeptSeq <= |y.ids|
    requires y.ids[e.r.firstKeptSeq - 1] == FirstId(Reached(y, events).views[e.v][EndOf(e)..])
    ensures var z := Reached(y, events);
      IsTrue(Next(z, e), NewRecord(z, e)) <==> NoUndoAt(events, e.r.firstKeptSeq)
  {
    hide Good, OnTrack, IsTrue, NoUndoAt, Summarized;
    RunKeeps(y, events);
    SaveTrueIff(Reached(y, events), e);
    StillStoredIff(y, events, e.r.firstKeptSeq);
  }

  // ---- a command that compresses, with anything going on beside it ---------------------------------------

  ghost predicate Elsewhere(events: seq<Event>, v: nat) {
    forall e | e in events && OnView(e) :: e.v != v
  }

  lemma {:induction false} UntouchedView(x: Session, events: seq<Event>, v: nat)
    requires Allowed(x, events) && Elsewhere(events, v) && v in x.views
    ensures v in Reached(x, events).views && Reached(x, events).views[v] == x.views[v]
  {
    hide Enabled;
    if events != [] {
      var init, last := events[..|events| - 1], events[|events| - 1];
      assert last in events && forall e | e in init :: e in events;
      UntouchedView(x, init, v);
    }
  }

  /**
   A command builds its view, anything happens while it waits for the summary, and it saves: the record is
   true exactly when no undo in the meantime reached down to its boundary.
   */
  lemma {:induction false} CommandTrueIff(x: Session, build: Event, events: seq<Event>, e: Event)
    requires Good(x) && build.Build? && Enabled(x, build)
    requires Allowed(Next(x, build), events) && Elsewhere(events, build.v)
    requires e.Summarize? && e.v == build.v && Saves(e) && Enabled(Reached(Next(x, build), events), e)
    ensures var y := Reached(Next(x, build), events);
      IsTrue(Next(y, e), NewRecord(y, e)) <==> NoUndoAt(events, e.r.firstKeptSeq)
  {
    hide Good, OnTrack, SanitizedView, BuiltView, IsTrue, NoUndoAt, Elsewhere, Summarized;
    var x1 := Next(x, build);
    StepKeeps(x, build);
    UntouchedView(x1, events, build.v);
    var i := BoundaryOf(Reached(x1, events), e);
    BuiltNumbers(x, build, i);
    SaveTrueSinceIff(x1, events, e);
  }

  /** In a view just built, every persisted entry shows the row with its number. */
  lemma {:induction false} BuiltNumbers(x: Session, build: Event, i: nat)
    requires Good(x) && build.Build? && Enabled(x, build)
    requires var w := Next(x, build).views[build.v]; i < |w| && IsPersisted(w[i].e)
    ensures var s := Next(x, build).views[build.v][i];
      1 <= s.e.seqNo <= |x.ids| && s.id == x.ids[s.e.seqNo - 1]
  {
    hide OnTrack, Increasing, SanitizedView, BuiltView, PersistedSeqs, SameButText;
    BuiltIsBacked(build.head, x.t);
    SanitizedIsBacked(x.t.rows, BuiltView(build.head, x.t));
    var view := SanitizedView(BuiltView(build.head, x.t));
    assert view[i] in view;
  }

  // ---- what the next turn loads ---------------------------------------------------------------------------

  lemma {:induction false} LoadedWhenInUse(t: ThreadData, rec: Record)
    requires Numbered(t.rows) && rec.firstKept >= 1
    ensures Loaded(Saved(t, rec)).0 == Some(rec) <==>
      Latest(Saved(t, rec).records) == Some(rec) && rec.firstKept <= |t.rows|
    ensures Loaded(Saved(t, rec)).0 == Some(rec) ==> Loaded(Saved(t, rec)).1 == t.rows[rec.firstKept - 1..]
  {
    hide Latest;
    var latest := Latest(Saved(t, rec).records);
    if latest.Some? {
      FromNumbered(t.rows, latest.value.firstKept);
    }
  }

  /** Of the shown rows that are stored, those from the boundary's entry on have its number or a greater one. */
  lemma {:induction false} OrderInView(x: Session, v: nat, i: nat, j: nat)
    requires Good(x) && v in x.views && i < |x.views[v]| && j < |x.views[v]|
    requires var w := x.views[v]; IsPersisted(w[i].e) && IsPersisted(w[j].e) && w[i].id in x.ids && w[j].id in x.ids
    ensures i < j ==> x.views[v][i].e.seqNo < x.views[v][j].e.seqNo
  {
    hide Shows;
    var w := x.views[v];
    assert OnTrack(x.t.rows, x.ids, x.nextRow, w);
    assert w[i] in w && w[j] in w;
    if i < j {
      IdsInOrder(w, i, j);
    }
  }

  lemma {:induction false} IdsInOrder(w: View, i: nat, j: nat)
    requires i < j < |w| && IsPersisted(w[i].e) && IsPersisted(w[j].e) && Increasing(PersistedIds(w))
    ensures w[i].id < w[j].id
  {
    var a, b := w[..i + 1], w[i + 1..];
    assert a + b == w && b[j - i - 1] == w[j];
    PersistedIdsConcat(a, b);
    PersistedIdIn(a, w[i]);
    PersistedIdIn(b, w[j]);
    var p :| 0 <= p < |PersistedIds(a)| && PersistedIds(a)[p] == w[i].id;
    var q :| 0 <= q < |PersistedIds(b)| && PersistedIds(b)[q] == w[j].id;
    assert PersistedIds(w)[p] == w[i].id && PersistedIds(w)[|PersistedIds(a)| + q] == w[j].id;
  }

  /** The next turn loads a new record exactly when no older one is later and its number is in use. */
  lemma {:induction false} SavedIsLoadedIff(x: Session, e: Event)
    requires Good(x) && e.Summarize? && Enabled(x, e) && Saves(e)
    ensures Loaded(Next(x, e).t).0 == Some(NewRecord(x, e)) <==>
      (forall rec | rec in x.t.records :: rec.createdAt <= e.now) && e.r.firstKeptSeq <= |x.t.rows|
  {
    hide Loaded, Latest, BatchEnds, Tokens, ToRaw, FirstPersistedSeq, OnTrack, Increasing;
    LoadedWhenInUse(x.t, NewRecord(x, e));
    SavedIsLatestIff(x.t, NewRecord(x, e));
  }

  /** If it is true, then of the stored rows in view exactly those are loaded that the compressed view kept. */
  lemma {:induction false} CompressionIsReloaded(x: Session, e: Event)
    requires Good(x) && e.Summarize? && Enabled(x, e) && Saves(e) && Harmless(x, e)
    requires Loaded(Next(x, e).t).0 == Some(NewRecord(x, e))
    ensures var w := x.views[e.v];
      forall k | 0 <= k < |w| && IsPersisted(w[k].e) && w[k].id in x.ids ::
        k >= EndOf(e) <==> w[k].e.seqNo in Seqs(Loaded(Next(x, e).t).1)
  {
    hide Loaded, Latest, BatchEnds, Tokens, ToRaw, FirstPersistedSeq, Increasing, FirstId, PersistedIds, Shows;
    var w := x.views[e.v];
    var i := BoundaryOf(x, e);
    LoadedWhenInUse(x.t, NewRecord(x, e));
    forall k | 0 <= k < |w| && IsPersisted(w[k].e) && w[k].id in x.ids
      ensures k >= EndOf(e) <==> w[k].e.seqNo in Seqs(x.t.rows[e.r.firstKeptSeq - 1..])
    {
      assert OnTrack(x.t.rows, x.ids, x.nextRow, w) && w[k] in w && w[i] in w;
      SeqsFrom(x.t.rows, e.r.firstKeptSeq, w[k].e.seqNo);
      OrderInView(x, e.v, i, k);
      OrderInView(x, e.v, k, i);
    }
  }
}
