/**
 One thread over its life: the durable rows and compression records together with every in-memory view that
 compression works on. The boundary of a record is computed from a view, never from the store, and nothing
 keeps an undo from running while a view is in use.
 */
module Session {
  import opened Sequences
  import opened Payload
  import opened Groups
  import opened Indexed
  import opened Sanitize
  import opened SanitizedViews
  import opened Truncate
  import opened Compress
  import opened TurnStartCompression
  import opened ActiveTurnCompression
  import opened Compressor
  import opened Options
  import opened Store

  /** A view entry and the database ID of the row it shows. The program keeps the number only. */
  datatype Shown = Shown(e: Entry, id: nat)

  type View = seq<Shown>

  function Entries(w: View): seq<Entry> {
    seq(|w|, i requires 0 <= i < |w| => w[i].e)
  }

  /** Entries of rows, or synthetic ones, with the IDs of the rows that now carry their numbers. */
  function Identified(ids: seq<nat>, view: seq<Entry>): View {
    seq(|view|, i requires 0 <= i < |view| =>
      Shown(view[i], if 1 <= view[i].seqNo <= |ids| then ids[view[i].seqNo - 1] else 0))
  }

  /**
   `ids` are the database IDs of the rows, in order; numbers are reused after an undo, IDs never are. `views`
   holds the view of the running turn and those of commands that compress. `origins` says for each record ID
   which row its boundary was read off.
   */
  datatype Session = Session(t: ThreadData, ids: seq<nat>, views: map<nat, View>, nextRow: nat, nextRecord: nat,
                             origins: map<nat, nat>)

  datatype Event =
    | Build(v: nat, head: seq<Entry>)      // a view is built from the store and repaired
    | Append(v: nat, row: Row)             // a row is stored and shown in a view
    | StoreOnly(row: Row)                  // a row is stored only: the request, the final reply, interrupted results
    | Remind(v: nat, reminder: Entry)      // a synthetic entry is shown only
    | Summarize(v: nat, s: Settings, c: Counter, env: Env, r: Result, summary: string, now: int, saved: bool)
    | Fold(v: nat, s: Settings, c: Counter, env: Env, r: Result, summary: string, retry: bool)
    | Shorten(v: nat, s: Settings, c: Counter, env: Env, pruned: bool, truncated: bool)
    | Undo(seqNo: int)                     // rows from a number on are deleted, and the records that point there
    | DeleteRows(seqNo: int)               // an undo of which only the first statement was executed
    | DropRecords(seqNo: int)              // the second statement, later

  predicate OnView(e: Event) {
    e.Build? || e.Append? || e.Remind? || e.Summarize? || e.Fold? || e.Shorten?
  }

  /** Views change as the compressor's contract says. */
  ghost predicate Enabled(x: Session, e: Event) {
    && (OnView(e) && !e.Build? ==> e.v in x.views)
    && match e
       case Build(_, head) => head != [] && CheckpointFree(head) && forall h | h in head :: h.synthetic
       case Remind(_, reminder) => reminder.synthetic
       case Summarize(v, s, c, env, r, summary, now, saved) =>
         Summarized(s, c, env, Entries(x.views[v]), r, summary)
       case Fold(v, s, c, env, r, summary, retry) =>
         var view := Entries(x.views[v]);
         Checkpointed(s, c, env, PrunedView(env, view), Tokens(c, ToRaw(view)), r, summary, retry)
       case _ => true
  }

  function RowStored(t: ThreadData, row: Row): Row {
    row.(seqNo := MaxSeq(t.rows) + 1)
  }

  /** The same rows shown by other entries. */
  function Redrawn(w: View, view: seq<Entry>): View
    requires |view| == |w|
  {
    seq(|w|, i requires 0 <= i < |w| => Shown(view[i], w[i].id))
  }

  function MinimalFlags(view: seq<Entry>): seq<bool> {
    var u, s := LatestUser(view), CheckpointIndex(view);
    seq(|view|, i requires 0 <= i < |view| => (i == 0 && view[0].msg.role.System?) || (u >= 0 && (i == u || i == s)))
  }

  /** Which entries truncation keeps. */
  function TruncationFlags(c: Counter, budget: int, view: seq<Entry>): (flags: seq<bool>)
    ensures |flags| == |view|
  {
    if view == [] || budget <= 0 || Fits(c, budget, view) then seq(|view|, _ => true)
    else if !Valid(ToRaw(view)) || !Valid(ToRaw(DropToFit(c, budget, view))) then MinimalFlags(view)
    else FinalFlags(c, budget, view)
  }

  function Shortened(w: View, e: Event): View
    requires e.Shorten?
  {
    var base := if e.pruned then Redrawn(w, PrunedView(e.env, Entries(w))) else w;
    if e.truncated then Kept(base, TruncationFlags(e.c, e.s.budget, Entries(base))) else base
  }

  /** A prefix, a synthetic entry and a suffix: the shape of both kinds of compressed view. */
  function Compacted(w: View, i: nat, e: Entry, j: nat): View
    requires i <= j <= |w|
  {
    w[..i] + [Shown(e, 0)] + w[j..]
  }

  /** The record is written only if a persisted entry is kept; writing it may fail. */
  predicate Saves(e: Event)
    requires e.Summarize?
  {
    e.saved && e.r.firstKeptSeq > 0
  }

  function NewRecord(x: Session, e: Event): Record
    requires e.Summarize?
  {
    Record(x.nextRecord, e.r.firstKeptSeq, e.now, e.summary)
  }

  /** The row that the first persisted entry shows. */
  function FirstId(w: View): nat {
    if w == [] then 0 else if IsPersisted(w[0].e) then w[0].id else FirstId(w[1..])
  }

  /** Where the batch of a durable compression ends. */
  function EndOf(e: Event): nat
    requires e.Summarize?
  {
    e.r.compressedCount + BATCH_START
  }

  function WithRow(x: Session, row: Row): Session {
    x.(t := Appended(x.t, row), ids := x.ids + [x.nextRow], nextRow := x.nextRow + 1)
  }

  function WithoutRows(x: Session, seqNo: int): Session {
    x.(t := RowsDeleted(x.t, seqNo), ids := x.ids[..Below(|x.ids|, seqNo)])
  }

  function WithRecord(x: Session, e: Event): Session
    requires e.Summarize? && e.v in x.views && EndOf(e) <= |x.views[e.v]|
  {
    if Saves(e) then
      x.(t := Saved(x.t, NewRecord(x, e)), nextRecord := x.nextRecord + 1,
         origins := x.origins[x.nextRecord := FirstId(x.views[e.v][EndOf(e)..])])
    else x
  }

  ghost function Next(x: Session, e: Event): Session
    requires Enabled(x, e)
  {
    match e
    case Build(v, head) => x.(views := x.views[v := Identified(x.ids, SanitizedView(BuiltView(head, x.t)))])
    case Append(v, row) =>
      var shown := Shown(RowEntries([RowStored(x.t, row)])[0], x.nextRow);
      WithRow(x, row).(views := x.views[v := x.views[v] + [shown]])
    case StoreOnly(row) => WithRow(x, row)
    case Remind(v, reminder) => x.(views := x.views[v := x.views[v] + [Shown(reminder, 0)]])
    case Summarize(v, _, _, _, _, summary, _, _) =>
      WithRecord(x, e).(views := x.views[v := Compacted(x.views[v], 1, SummaryEntry(summary), EndOf(e))])
    case Fold(v, s, c, env, _, summary, _) =>
      var pruned := PrunedView(env, Entries(x.views[v]));
      x.(views := x.views[v := Compacted(Redrawn(x.views[v], pruned), LatestUser(pruned) + 1, CheckpointEntry(summary),
                                         BatchEnd(s, c, pruned))])
    case Shorten(v, _, _, _, _, _) => x.(views := x.views[v := Shortened(x.views[v], e)])
    case Undo(seqNo) => WithoutRows(x, seqNo).(t := Undone(x.t, seqNo))
    case DeleteRows(seqNo) => WithoutRows(x, seqNo)
    case DropRecords(seqNo) => x.(t := x.t.(records := Surviving(x.t.records, seqNo)))
  }

  // ---- entries that show rows --------------------------------------------------------------------

  /** A view may shorten tool outputs and fill empty texts. */
  predicate SameButText(m: Message, stored: Message) {
    && m.role == stored.role && m.calls == stored.calls && m.toolCallId == stored.toolCallId
    && (m.content == stored.content || m.role.Tool? || m == Fill(stored))
  }

  predicate Shows(rows: seq<Row>, e: Entry) {
    1 <= e.seqNo <= |rows| && SameButText(e.msg, RowMessage(rows[e.seqNo - 1]))
  }

  /** Every entry that is not synthetic shows its row, and they come in storage order. */
  predicate Backed(rows: seq<Row>, view: seq<Entry>) {
    && (forall e | e in view && !e.synthetic :: Shows(rows, e))
    && Increasing(PersistedSeqs(view))
  }

  lemma {:induction false} NumbersInBounds(rows: seq<Row>, view: seq<Entry>)
    requires Backed(rows, view)
    ensures forall n | n in PersistedSeqs(view) :: 1 <= n <= |rows|
  {
    forall n | n in PersistedSeqs(view)
      ensures 1 <= n <= |rows|
    {
      var k :| 0 <= k < |PersistedSeqs(view)| && PersistedSeqs(view)[k] == n;
      var e := Persisted(view)[k];
      PersistedIn(view, e);
    }
  }

  lemma {:induction false} RepairedEntries(view: seq<Entry>, e: Entry)
    requires e in RepairedView(view)
    ensures e in view || e.synthetic
    decreases |view|
  {
    hide Seals;
    var m := view[0].msg;
    if Opens(m) {
      var end := ToolRunEnd(Strip(view), 1);
      var run := view[1..end];
      if e in RepairedView(view[end..]) {
        RepairedEntries(view[end..], e);
      } else if e in FirstResultEntries(run, IdSet(UniqueIds(m.calls))) {
        FirstResultIn(run, IdSet(UniqueIds(m.calls)), e);
      }
    } else if e in RepairedView(view[1..]) {
      RepairedEntries(view[1..], e);
    }
  }

  lemma {:induction false} FirstResultIn(run: seq<Entry>, pending: set<CallId>, e: Entry)
    requires e in FirstResultEntries(run, pending)
    ensures e in run
  {
    var id := run[0].msg.toolCallId;
    if e != run[0] {
      FirstResultIn(run[1..], if id in pending then pending - {id} else pending, e);
    }
  }

  lemma {:induction false} SanitizedIsBacked(rows: seq<Row>, view: seq<Entry>)
    requires Backed(rows, view)
    ensures Backed(rows, SanitizedView(view))
  {
    hide RepairedView, Increasing, Persisted, RowMessage;
    SanitizedKeepsNumbers(view);
    var repaired, out := RepairedView(view), SanitizedView(view);
    forall e | e in out && !e.synthetic
      ensures Shows(rows, e)
    {
      var i :| 0 <= i < |out| && out[i] == e;
      assert repaired[i] in repaired;
      RepairedEntries(view, repaired[i]);
    }
  }

  lemma {:induction false} EntriesAreBacked(rows: seq<Row>, from: nat)
    requires Numbered(rows) && from <= |rows|
    ensures Backed(rows, RowEntries(rows[from..]))
  {
    hide RowMessage, Persisted, Fill;
    var tail := rows[from..];
    var view := RowEntries(tail);
    PersistedOfRows(tail);
    forall e | e in view
      ensures Shows(rows, e)
    {
      var i :| 0 <= i < |tail| && view[i] == e;
      assert tail[i] == rows[from + i];
    }
    assert forall i | 0 <= i < |view| :: SeqNos(view)[i] == from + i + 1;
  }

  lemma {:induction false} SyntheticAround(rows: seq<Row>, head: seq<Entry>, view: seq<Entry>, tail: seq<Entry>)
    requires Backed(rows, view) && (forall e | e in head :: e.synthetic) && (forall e | e in tail :: e.synthetic)
    ensures Backed(rows, head + view + tail)
  {
    hide Shows, Persisted;
    NoneOfSynthetic(head);
    NoneOfSynthetic(tail);
    PersistedConcat(head + view, tail);
    PersistedConcat(head, view);
    assert Persisted(head + view + tail) == Persisted(view);
  }

  lemma {:induction false} LoadedIsSuffix(t: ThreadData)
    requires Numbered(t.rows)
    ensures |Loaded(t).1| <= |t.rows| && Loaded(t).1 == t.rows[|t.rows| - |Loaded(t).1|..]
  {
    if Latest(t.records).Some? {
      FromNumbered(t.rows, Latest(t.records).value.firstKept);
    }
  }

  lemma {:induction false} BuiltIsBacked(head: seq<Entry>, t: ThreadData)
    requires Numbered(t.rows) && forall e | e in head :: e.synthetic
    ensures Backed(t.rows, BuiltView(head, t))
  {
    LoadedIsSuffix(t);
    hide Loaded, Latest, Backed;
    var (rec, history) := Loaded(t);
    EntriesAreBacked(t.rows, |t.rows| - |history|);
    var summary := if rec.Some? then [SummaryEntry(rec.value.summary)] else [];
    SyntheticAround(t.rows, head + summary, RowEntries(history), []);
    assert BuiltView(head, t) == head + summary + RowEntries(history) + [];
  }

  // ---- views that know the rows' identities ---------------------------------------------------------

  /** As long as the row is stored, it carries the entry's number and the entry shows it. */
  predicate Backs(rows: seq<Row>, ids: seq<nat>, bound: nat, s: Shown) {
    !s.e.synthetic ==>
      && s.e.seqNo >= 1 && s.id < bound
      && (s.id in ids ==> s.e.seqNo <= |ids| && ids[s.e.seqNo - 1] == s.id && Shows(rows, s.e))
  }

  function PersistedIds(w: View): seq<nat> {
    if w == [] then [] else (if IsPersisted(w[0].e) then [w[0].id] else []) + PersistedIds(w[1..])
  }

  /** Rows are shown in the order in which they were stored, those deleted since included. */
  predicate OnTrack(rows: seq<Row>, ids: seq<nat>, bound: nat, w: View) {
    (forall s | s in w :: Backs(rows, ids, bound, s)) && Increasing(PersistedIds(w))
  }

  predicate Good(x: Session) {
    && Numbered(x.t.rows) && |x.ids| == |x.t.rows|
    && Increasing(x.ids) && (forall id | id in x.ids :: id < x.nextRow)
    && (forall v | v in x.views :: OnTrack(x.t.rows, x.ids, x.nextRow, x.views[v]))
    && (forall rec | rec in x.t.records :: rec.id < x.nextRecord && rec.id in x.origins)
  }

  lemma {:induction false} PersistedIdsConcat(a: View, b: View)
    ensures PersistedIds(a + b) == PersistedIds(a) + PersistedIds(b)
  {
    if a == [] {
      assert a + b == b;
    } else {
      assert (a + b)[1..] == a[1..] + b;
      PersistedIdsConcat(a[1..], b);
    }
  }

  lemma {:induction false} NotPersistedIds(s: Shown)
    ensures PersistedIds([s]) == if IsPersisted(s.e) then [s.id] else []
  {
    assert PersistedIds([s][1..]) == [];
  }

  lemma {:induction false} PersistedIdIn(w: View, s: Shown)
    requires s in w && IsPersisted(s.e)
    ensures s.id in PersistedIds(w)
  {
    if s != w[0] {
      PersistedIdIn(w[1..], s);
    }
  }

  lemma {:induction false} PersistedIdsBelow(rows: seq<Row>, ids: seq<nat>, bound: nat, w: View)
    requires forall s | s in w :: Backs(rows, ids, bound, s)
    ensures forall id | id in PersistedIds(w) :: id < bound
  {
    hide Shows;
    if w != [] {
      PersistedIdsBelow(rows, ids, bound, w[1..]);
      assert w[0] in w;
    }
  }

  lemma {:induction false} PersistedIdsSubseq(c: View, s: View)
    requires Subseq(c, s)
    ensures Subseq(PersistedIds(c), PersistedIds(s))
  {
    if c == [] {
    } else if c[0] == s[0] && Subseq(c[1..], s[1..]) {
      PersistedIdsSubseq(c[1..], s[1..]);
      SubseqBoth(if IsPersisted(c[0].e) then [c[0].id] else [], PersistedIds(c[1..]), PersistedIds(s[1..]));
    } else {
      PersistedIdsSubseq(c, s[1..]);
      SubseqLonger(PersistedIds(c), if IsPersisted(s[0].e) then [s[0].id] else [], PersistedIds(s[1..]));
    }
  }

  /** Leaving entries out keeps a view on track. */
  lemma {:induction false} SubseqTracks(rows: seq<Row>, ids: seq<nat>, bound: nat, c: View, s: View)
    requires Subseq(c, s) && OnTrack(rows, ids, bound, s)
    ensures OnTrack(rows, ids, bound, c)
  {
    hide Subseq, Increasing, PersistedIds, Backs;
    SubseqMembers(c, s);
    PersistedIdsSubseq(c, s);
    SubseqIncreasing(PersistedIds(c), PersistedIds(s));
  }

  lemma {:induction false} SubseqEmpty<T>(s: seq<T>)
    ensures Subseq([], s)
  {
  }

  lemma {:induction false} KeptSubseq(s: View, keep: seq<bool>)
    requires |keep| == |s|
    ensures Subseq(Kept(s, keep), s)
  {
    if s != [] {
      var n := |s| - 1;
      KeptSubseq(s[..n], keep[..n]);
      assert s == s[..n] + [s[n]];
      var last := if keep[n] then [s[n]] else [];
      assert Subseq(last, [s[n]]) by { SubseqRefl([s[n]]); SubseqEmpty([s[n]]); }
      SubseqConcat(Kept(s[..n], keep[..n]), s[..n], last, [s[n]]);
    }
  }

  lemma {:induction false} SuffixSubseq(w: View, i: nat, j: nat)
    requires i <= j <= |w|
    ensures Subseq(w[..i] + w[j..], w)
  {
    hide Subseq;
    SubseqRefl(w[..i]);
    SubseqRefl(w[j..]);
    SubseqLonger(w[j..], w[i..j], w[j..]);
    assert w[i..j] + w[j..] == w[i..] && w[..i] + w[i..] == w;
    SubseqConcat(w[..i], w[..i], w[j..], w[i..]);
  }

  lemma {:induction false} SyntheticBetween(a: View, s: Shown, b: View)
    requires s.e.synthetic
    ensures PersistedIds(a + [s] + b) == PersistedIds(a + b)
  {
    hide PersistedIds;
    PersistedIdsConcat(a + [s], b);
    PersistedIdsConcat(a, [s]);
    PersistedIdsConcat(a, b);
    NotPersistedIds(s);
    assert PersistedIds(a) + [] == PersistedIds(a);
  }

  lemma {:induction false} CompactedTracks(rows: seq<Row>, ids: seq<nat>, bound: nat, w: View, i: nat, e: Entry, j: nat)
    requires OnTrack(rows, ids, bound, w) && i <= j <= |w| && e.synthetic
    ensures OnTrack(rows, ids, bound, Compacted(w, i, e, j))
  {
    hide Subseq, Increasing, PersistedIds, Shows;
    SuffixSubseq(w, i, j);
    SubseqTracks(rows, ids, bound, w[..i] + w[j..], w);
    SyntheticBetween(w[..i], Shown(e, 0), w[j..]);
    assert forall s | s in Compacted(w, i, e, j) :: s in w[..i] + w[j..] || s == Shown(e, 0);
  }

  lemma {:induction false} SameShapeIds(w: View, view: seq<Entry>)
    requires SameShape(Entries(w), view)
    ensures PersistedIds(Redrawn(w, view)) == PersistedIds(w)
  {
    if w != [] {
      assert Entries(w)[1..] == Entries(w[1..]) && Redrawn(w, view)[1..] == Redrawn(w[1..], view[1..]);
      SameShapeIds(w[1..], view[1..]);
      assert Entries(w)[0] == w[0].e;
    }
  }

  lemma {:induction false} PrunedTracks(rows: seq<Row>, ids: seq<nat>, bound: nat, w: View, env: Env)
    requires OnTrack(rows, ids, bound, w)
    ensures OnTrack(rows, ids, bound, Redrawn(w, PrunedView(env, Entries(w))))
  {
    hide Increasing, PersistedIds, RowMessage, PrunedView;
    var view := PrunedView(env, Entries(w));
    PrunedIsSameShape(env, Entries(w));
    SameShapeIds(w, view);
    var out := Redrawn(w, view);
    forall s | s in out
      ensures Backs(rows, ids, bound, s)
    {
      var i :| 0 <= i < |out| && out[i] == s;
      assert w[i] in w && Entries(w)[i] == w[i].e;
    }
  }

  function IdsAt(ids: seq<nat>, seqs: seq<nat>): seq<nat> {
    seq(|seqs|, k requires 0 <= k < |seqs| => if 1 <= seqs[k] <= |ids| then ids[seqs[k] - 1] else 0)
  }

  lemma {:induction false} IdentifiedIds(ids: seq<nat>, view: seq<Entry>)
    ensures PersistedIds(Identified(ids, view)) == IdsAt(ids, PersistedSeqs(view))
  {
    if view != [] {
      var first, rest := if IsPersisted(view[0]) then [view[0]] else [], view[1..];
      IdentifiedIds(ids, rest);
      assert Identified(ids, view)[1..] == Identified(ids, rest);
      hide Persisted;
      assert [view[0]] + rest == view;
      PersistedSeqsConcat([view[0]], rest);
      OnePersistedSeq(view[0]);
      IdsAtConcat(ids, PersistedSeqs([view[0]]), PersistedSeqs(rest));
    }
  }

  lemma {:induction false} OnePersistedSeq(e: Entry)
    ensures PersistedSeqs([e]) == if IsPersisted(e) then [e.seqNo] else []
  {
    assert Persisted([e]) == if IsPersisted(e) then [e] else [];
  }

  lemma {:induction false} IdsAtConcat(ids: seq<nat>, a: seq<nat>, b: seq<nat>)
    ensures IdsAt(ids, a + b) == IdsAt(ids, a) + IdsAt(ids, b)
  {
  }

  lemma {:induction false} IncreasingMap(ids: seq<nat>, seqs: seq<nat>)
    requires Increasing(ids) && Increasing(seqs) && forall k | 0 <= k < |seqs| :: 1 <= seqs[k] <= |ids|
    ensures Increasing(IdsAt(ids, seqs))
  {
  }

  lemma {:induction false} IdentifiedTracks(rows: seq<Row>, ids: seq<nat>, bound: nat, view: seq<Entry>)
    requires Backed(rows, view) && |ids| == |rows| && Increasing(ids) && forall id | id in ids :: id < bound
    ensures OnTrack(rows, ids, bound, Identified(ids, view))
  {
    hide PersistedIds, PersistedSeqs, SameButText, RowMessage;
    var out := Identified(ids, view);
    NumbersInBounds(rows, view);
    IdentifiedIds(ids, view);
    assert forall k | 0 <= k < |PersistedSeqs(view)| :: PersistedSeqs(view)[k] in PersistedSeqs(view);
    IncreasingMap(ids, PersistedSeqs(view));
    forall s | s in out
      ensures Backs(rows, ids, bound, s)
    {
      var i :| 0 <= i < |out| && out[i] == s;
      assert view[i] in view;
      assert !s.e.synthetic ==> ids[s.e.seqNo - 1] in ids;
    }
  }

  // ---- truncation keeps some of the entries -----------------------------------------------------------

  lemma {:induction false} KeptSlices<T>(s: seq<T>, keep: seq<bool>, i: nat)
    requires |keep| == |s| && i <= |s|
    ensures Kept(s, keep) == Kept(s[..i], keep[..i]) + Kept(s[i..], keep[i..])
  {
    assert s == s[..i] + s[i..] && keep == keep[..i] + keep[i..];
    KeptConcat(s[..i], keep[..i], s[i..], keep[i..]);
  }

  lemma {:induction false} KeptFront<T>(s: seq<T>, keep: seq<bool>, n: nat)
    requires |keep| == |s| && n <= |s| && forall i | 0 <= i < |s| :: keep[i] <==> i < n
    ensures Kept(s, keep) == s[..n]
  {
    hide Kept;
    KeptSlices(s, keep, n);
    KeptAll(s[..n], keep[..n]);
    KeptNone(s[n..], keep[n..]);
    assert s[..n] + [] == s[..n];
  }

  lemma {:induction false} MinimalIsKept(view: seq<Entry>)
    ensures Minimal(view) == Kept(view, MinimalFlags(view))
  {
    hide Kept, LatestUser;
    var u, flags := LatestUser(view), MinimalFlags(view);
    var a := if view != [] && view[0].msg.role.System? then 1 else 0;
    if u < 0 {
      KeptFront(view, flags, a);
    } else {
      var n := if CheckpointIndex(view) >= 0 then 2 else 1;
      KeptSlices(view, flags, u);
      KeptFront(view[..u], flags[..u], a);
      KeptFront(view[u..], flags[u..], n);
    }
  }

  lemma {:induction false} TruncatedIsKept(c: Counter, budget: int, view: seq<Entry>)
    ensures Truncated(c, budget, view) == Kept(view, TruncationFlags(c, budget, view))
  {
    hide Kept, ToRaw, Minimal, MinimalFlags, Valid, FirstFit, Flags;
    MinimalIsKept(view);
    KeptAll(view, seq(|view|, _ => true));
  }

  lemma {:induction false} EntriesKept(w: View, keep: seq<bool>)
    requires |keep| == |w|
    ensures Entries(Kept(w, keep)) == Kept(Entries(w), keep)
  {
    if w != [] {
      var n := |w| - 1;
      EntriesKept(w[..n], keep[..n]);
      assert Entries(w)[..n] == Entries(w[..n]);
      assert Entries(Kept(w[..n], keep[..n]) + [w[n]]) == Entries(Kept(w[..n], keep[..n])) + [w[n].e];
    }
  }

  // ---- every event keeps the invariant ------------------------------------------------------------------

  lemma {:induction false} BuildKeeps(x: Session, e: Event)
    requires Good(x) && e.Build? && Enabled(x, e)
    ensures Good(Next(x, e))
  {
    hide OnTrack, Backed, BuiltView, SanitizedView, Increasing, Identified;
    BuiltIsBacked(e.head, x.t);
    SanitizedIsBacked(x.t.rows, BuiltView(e.head, x.t));
    IdentifiedTracks(x.t.rows, x.ids, x.nextRow, SanitizedView(BuiltView(e.head, x.t)));
  }

  lemma {:induction false} TracksMoreRows(rows: seq<Row>, ids: seq<nat>, bound: nat, w: View, row: Row)
    requires OnTrack(rows, ids, bound, w) && |ids| == |rows|
    ensures OnTrack(rows + [row], ids + [bound], bound + 1, w)
  {
    hide PersistedIds, Increasing, SameButText, RowMessage;
    forall s | s in w
      ensures Backs(rows + [row], ids + [bound], bound + 1, s)
    {
      assert Backs(rows, ids, bound, s);
    }
  }

  lemma {:induction false} IncreasingSnoc(ids: seq<nat>, bound: nat)
    requires Increasing(ids) && forall id | id in ids :: id < bound
    ensures Increasing(ids + [bound])
  {
    assert forall i | 0 <= i < |ids| :: ids[i] in ids;
  }

  lemma {:induction false} WithRowKeeps(x: Session, row: Row)
    requires Good(x)
    ensures Good(WithRow(x, row)) && WithRow(x, row).t.rows == x.t.rows + [RowStored(x.t, row)]
    ensures RowStored(x.t, row).seqNo == |x.t.rows| + 1
  {
    hide OnTrack, Increasing;
    MaxOfNumbered(x.t.rows);
    IncreasingSnoc(x.ids, x.nextRow);
    forall v | v in x.views
      ensures OnTrack(x.t.rows + [RowStored(x.t, row)], x.ids + [x.nextRow], x.nextRow + 1, x.views[v])
    {
      TracksMoreRows(x.t.rows, x.ids, x.nextRow, x.views[v], RowStored(x.t, row));
    }
  }

  /** A row is shown as the last entry of a view. */
  lemma {:induction false} ShownLast(rows: seq<Row>, ids: seq<nat>, bound: nat, w: View, row: Row)
    requires OnTrack(rows, ids, bound, w) && |ids| == |rows| && row.seqNo == |rows| + 1
    ensures OnTrack(rows + [row], ids + [bound], bound + 1, w + [Shown(RowEntries([row])[0], bound)])
  {
    hide PersistedIds, Increasing, RowMessage;
    var s := Shown(RowEntries([row])[0], bound);
    TracksMoreRows(rows, ids, bound, w, row);
    PersistedIdsBelow(rows, ids, bound, w);
    PersistedIdsConcat(w, [s]);
    NotPersistedIds(s);
    IncreasingSnoc(PersistedIds(w), bound);
    assert (rows + [row])[|rows|] == row;
    assert Backs(rows + [row], ids + [bound], bound + 1, s);
    assert forall o | o in w + [s] :: o in w || o == s;
  }

  lemma {:induction false} AppendKeeps(x: Session, e: Event)
    requires Good(x) && e.Append? && Enabled(x, e)
    ensures Good(Next(x, e))
  {
    hide OnTrack, Increasing;
    WithRowKeeps(x, e.row);
    ShownLast(x.t.rows, x.ids, x.nextRow, x.views[e.v], RowStored(x.t, e.row));
  }

  lemma {:induction false} RemindKeeps(x: Session, e: Event)
    requires Good(x) && e.Remind? && Enabled(x, e)
    ensures Good(Next(x, e))
  {
    hide Increasing, PersistedIds, Shows;
    var w, s := x.views[e.v], Shown(e.reminder, 0);
    assert OnTrack(x.t.rows, x.ids, x.nextRow, w);
    PersistedIdsConcat(w, [s]);
    NotPersistedIds(s);
    assert PersistedIds(w) + [] == PersistedIds(w);
    assert forall o | o in w + [s] :: o in w || o == s;
  }

  lemma {:induction false} SummarizeKeeps(x: Session, e: Event)
    requires Good(x) && e.Summarize? && Enabled(x, e)
    ensures Good(Next(x, e))
  {
    hide OnTrack, Increasing, BatchEnds, Tokens, ToRaw, FirstPersistedSeq, Compacted;
    CompactedTracks(x.t.rows, x.ids, x.nextRow, x.views[e.v], 1, SummaryEntry(e.summary), EndOf(e));
  }

  lemma {:induction false} FoldKeeps(x: Session, e: Event)
    requires Good(x) && e.Fold? && Enabled(x, e)
    ensures Good(Next(x, e))
  {
    hide OnTrack, Increasing, Tokens, ToRaw, BatchEnd, PrunedEntry, Compacted;
    var pruned := PrunedView(e.env, Entries(x.views[e.v]));
    PrunedTracks(x.t.rows, x.ids, x.nextRow, x.views[e.v], e.env);
    CompactedTracks(x.t.rows, x.ids, x.nextRow, Redrawn(x.views[e.v], pruned), LatestUser(pruned) + 1,
                    CheckpointEntry(e.summary), BatchEnd(e.s, e.c, pruned));
  }

  lemma {:induction false} ShortenKeeps(x: Session, e: Event)
    requires Good(x) && e.Shorten? && Enabled(x, e)
    ensures Good(Next(x, e))
  {
    hide OnTrack, Increasing, PrunedEntry, TruncationFlags, Kept;
    var w := x.views[e.v];
    PrunedTracks(x.t.rows, x.ids, x.nextRow, w, e.env);
    var base := if e.pruned then Redrawn(w, PrunedView(e.env, Entries(w))) else w;
    var flags := TruncationFlags(e.c, e.s.budget, Entries(base));
    KeptSubseq(base, flags);
    SubseqTracks(x.t.rows, x.ids, x.nextRow, Kept(base, flags), base);
  }

  lemma {:induction false} BacksFewerRows(rows: seq<Row>, ids: seq<nat>, bound: nat, s: Shown, k: nat)
    requires Backs(rows, ids, bound, s) && |ids| == |rows| && Increasing(ids) && k <= |ids|
    ensures Backs(rows[..k], ids[..k], bound, s)
  {
    hide SameButText, RowMessage;
    if !s.e.synthetic && s.id in ids[..k] {
      var j :| 0 <= j < k && ids[..k][j] == s.id;
      assert ids[j] == s.id;
      assert j == s.e.seqNo - 1;
    }
  }

  lemma {:induction false} WithoutRowsKeeps(x: Session, seqNo: int)
    requires Good(x)
    ensures Good(WithoutRows(x, seqNo))
    ensures WithoutRows(x, seqNo).t.rows == x.t.rows[..Below(|x.t.rows|, seqNo)]
  {
    hide Shows, PersistedIds;
    var k := Below(|x.t.rows|, seqNo);
    BeforeNumbered(x.t.rows, seqNo);
    assert Increasing(x.ids[..k]) && forall id | id in x.ids[..k] :: id in x.ids;
    forall v | v in x.views
      ensures OnTrack(x.t.rows[..k], x.ids[..k], x.nextRow, x.views[v])
    {
      assert OnTrack(x.t.rows, x.ids, x.nextRow, x.views[v]);
      forall s | s in x.views[v]
        ensures Backs(x.t.rows[..k], x.ids[..k], x.nextRow, s)
      {
        BacksFewerRows(x.t.rows, x.ids, x.nextRow, s, k);
      }
    }
  }

  lemma {:induction false} UndoKeeps(x: Session, seqNo: int)
    requires Good(x)
    ensures Good(Next(x, Undo(seqNo))) && Good(Next(x, DeleteRows(seqNo))) && Good(Next(x, DropRecords(seqNo)))
  {
    hide OnTrack, Increasing;
    WithoutRowsKeeps(x, seqNo);
    SurvivorsAreRecords(x.t.records, seqNo);
  }

  lemma {:induction false} StepKeeps(x: Session, e: Event)
    requires Good(x) && Enabled(x, e)
    ensures Good(Next(x, e))
  {
    hide Good, Enabled, Next;
    match e
    case Build(_, _) => BuildKeeps(x, e);
    case Append(_, _) => AppendKeeps(x, e);
    case StoreOnly(row) => StoreOnlyKeeps(x, e);
    case Remind(_, _) => RemindKeeps(x, e);
    case Summarize(_, _, _, _, _, _, _, _) => SummarizeKeeps(x, e);
    case Fold(_, _, _, _, _, _, _) => FoldKeeps(x, e);
    case Shorten(_, _, _, _, _, _) => ShortenKeeps(x, e);
    case Undo(seqNo) => UndoKeeps(x, seqNo);
    case DeleteRows(seqNo) => UndoKeeps(x, seqNo);
    case DropRecords(seqNo) => UndoKeeps(x, seqNo);
  }

  lemma {:induction false} StoreOnlyKeeps(x: Session, e: Event)
    requires Good(x) && e.StoreOnly?
    ensures Good(Next(x, e))
  {
    hide Good;
    WithRowKeeps(x, e.row);
  }

  // ---- runs ---------------------------------------------------------------------------------------------

  ghost predicate Allowed(x: Session, events: seq<Event>)
    decreases |events|, 0
  {
    events != [] ==>
      var init, last := events[..|events| - 1], events[|events| - 1];
      Allowed(x, init) && Enabled(Reached(x, init), last)
  }

  ghost function Reached(x: Session, events: seq<Event>): Session
    requires Allowed(x, events)
    decreases |events|, 1
  {
    if events == [] then x else Next(Reached(x, events[..|events| - 1]), events[|events| - 1])
  }

  lemma {:induction false} RunKeeps(x: Session, events: seq<Event>)
    requires Good(x) && Allowed(x, events)
    ensures Good(Reached(x, events))
  {
    hide Good, Enabled, Next;
    if events != [] {
      var init := events[..|events| - 1];
      RunKeeps(x, init);
      StepKeeps(Reached(x, init), events[|events| - 1]);
    }
  }

  function Fresh(): Session {
    Session(ThreadData([], []), [], map[], 0, 0, map[])
  }
}
