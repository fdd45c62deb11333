/**
 The durable thread tables: messages numbered per thread, tool calls under one key for all threads,
 and compression records that point at the first message a summary does not cover.
 */
module Store {
  import opened Sequences
  import opened Options
  import opened Payload
  import opened Indexed
  import opened TurnStartCompression
  import PlanStore

  type ThreadId = string

  datatype Row = Row(seqNo: nat, role: Role, content: Option<string>, toolCallId: Option<CallId>,
                     calls: seq<ToolCall>)

  datatype Record = Record(id: nat, firstKept: int, createdAt: int, summary: string)

  datatype ThreadData = ThreadData(rows: seq<Row>, records: seq<Record>)

  // ---- queries ------------------------------------------------------------------------------

  /** The greatest number in use, 0 when there is no message. */
  function MaxSeq(rows: seq<Row>): nat {
    if rows == [] then 0
    else
      var rest := MaxSeq(rows[..|rows| - 1]);
      if rows[|rows| - 1].seqNo > rest then rows[|rows| - 1].seqNo else rest
  }

  function From(rows: seq<Row>, first: int): seq<Row> {
    if rows == [] then []
    else From(rows[..|rows| - 1], first) +
         if rows[|rows| - 1].seqNo >= first then [rows[|rows| - 1]] else []
  }

  function Before(rows: seq<Row>, seqNo: int): seq<Row> {
    if rows == [] then []
    else Before(rows[..|rows| - 1], seqNo) +
         if rows[|rows| - 1].seqNo < seqNo then [rows[|rows| - 1]] else []
  }

  function Surviving(records: seq<Record>, seqNo: int): seq<Record> {
    if records == [] then []
    else Surviving(records[..|records| - 1], seqNo) +
         if records[|records| - 1].firstKept < seqNo then [records[|records| - 1]] else []
  }

  /** Ordered by creation time, then by row ID. */
  predicate Later(a: Record, b: Record) {
    a.createdAt > b.createdAt || (a.createdAt == b.createdAt && a.id > b.id)
  }

  function Latest(records: seq<Record>): Option<Record> {
    if records == [] then None
    else
      var last := records[|records| - 1];
      match Latest(records[..|records| - 1])
      case None => Some(last)
      case Some(best) => Some(if Later(last, best) then last else best)
  }

  // ---- transactions ----------------------------------------------------------------------------

  function Appended(t: ThreadData, row: Row): ThreadData {
    t.(rows := t.rows + [row.(seqNo := MaxSeq(t.rows) + 1)])
  }

  function Saved(t: ThreadData, rec: Record): ThreadData {
    t.(records := t.records + [rec])
  }

  function RowsDeleted(t: ThreadData, seqNo: int): ThreadData {
    t.(rows := Before(t.rows, seqNo))
  }

  function Undone(t: ThreadData, seqNo: int): ThreadData {
    ThreadData(Before(t.rows, seqNo), Surviving(t.records, seqNo))
  }

  function RowCallIds(rows: seq<Row>): seq<CallId> {
    if rows == [] then [] else RowCallIds(rows[..|rows| - 1]) + Ids(rows[|rows| - 1].calls)
  }

  /** The columns of a thread that a fork copies as they are. */
  datatype ThreadHead = ThreadHead(title: Option<string>, model: Option<string>, workspace: string)

  datatype AppendError = NoThread | CallIdTaken | WriteFailed

  datatype AppendResult = Stored(seqNo: nat) | Refused(error: AppendError)

  class ThreadStore {
    var threads: map<ThreadId, ThreadData>
    var heads: map<ThreadId, ThreadHead>
    var plans: map<ThreadId, PlanStore.PlanData>
    var nextRecord: nat

    constructor ()
      ensures threads == map[] && heads == map[] && plans == map[] && nextRecord == 0 && Keyed()
    {
      threads, heads, plans, nextRecord := map[], map[], map[], 0;
    }

    /** Row IDs of records only grow, so those in use stay below the counter. */
    ghost predicate Keyed()
      reads this
    {
      && threads.Keys == heads.Keys
      && forall id, rec | id in threads && rec in threads[id].records :: rec.id < nextRecord
    }

    predicate Taken(id: CallId)
      reads this
    {
      exists t | t in threads :: id in RowCallIds(threads[t].rows)
    }

    /** One transaction: the number is computed, the row and its calls are inserted, or nothing is. */
    method AppendMessage(id: ThreadId, row: Row) returns (r: AppendResult)
      requires Keyed()
      modifies this`threads
      ensures Keyed()
      ensures r.Stored? ==>
        && id in old(threads)
        && r.seqNo == MaxSeq(old(threads)[id].rows) + 1
        && threads == old(threads)[id := Appended(old(threads)[id], row)]
        && Distinct(Ids(row.calls))
        && (forall c | c in Ids(row.calls) :: !old(Taken(c)))
      ensures r.Refused? ==> threads == old(threads)
      ensures r == Refused(NoThread) <==> id !in old(threads)
      ensures r == Refused(CallIdTaken) <==>
        id in old(threads) && (!Distinct(Ids(row.calls)) || exists c | c in Ids(row.calls) :: old(Taken(c)))
    {
      if id !in threads {
        return Refused(NoThread);
      }
      var seqNo := MaxSeq(threads[id].rows) + 1;
      var i := 0;
      while i < |row.calls|
        invariant i <= |row.calls|
        invariant Distinct(Ids(row.calls)[..i])
        invariant forall c | c in Ids(row.calls)[..i] :: !Taken(c)
      {
        var call := row.calls[i].id;
        assert Ids(row.calls)[..i + 1] == Ids(row.calls)[..i] + [call];
        if call in Ids(row.calls[..i]) || Taken(call) {
          assert Ids(row.calls)[i] == call;
          RepeatedId(row.calls, i);
          return Refused(CallIdTaken);
        }
        assert Ids(row.calls[..i]) == Ids(row.calls)[..i];
        i := i + 1;
      }
      assert Ids(row.calls)[..i] == Ids(row.calls);
      var failed: bool := *;
      if failed {
        return Refused(WriteFailed);
      }
      threads := threads[id := Appended(threads[id], row)];
      r := Stored(seqNo);
    }

    /** Inserts whatever boundary the caller computed; nothing checks that it is live. */
    method SaveCompression(id: ThreadId, firstKept: int, now: int, summary: string) returns (ok: bool)
      requires Keyed()
      modifies this`threads, this`nextRecord
      ensures Keyed()
      ensures ok ==> id in old(threads) && nextRecord == old(nextRecord) + 1
      ensures ok ==>
        threads == old(threads)[id := Saved(old(threads)[id], Record(old(nextRecord), firstKept, now, summary))]
      ensures !ok ==> threads == old(threads) && nextRecord == old(nextRecord)
      ensures id !in old(threads) ==> !ok
    {
      ok := *;
      if id !in threads || !ok {
        return false;
      }
      threads := threads[id := Saved(threads[id], Record(nextRecord, firstKept, now, summary))];
      nextRecord := nextRecord + 1;
    }

    method GetLatestCompression(id: ThreadId) returns (rec: Option<Record>)
      ensures rec == if id in threads then Latest(threads[id].records) else None
    {
      if id !in threads {
        return None;
      }
      var records := threads[id].records;
      rec := None;
      for i := 0 to |records|
        invariant rec == Latest(records[..i])
      {
        assert records[..i + 1][..i] == records[..i];
        if rec.None? || Later(records[i], rec.value) {
          rec := Some(records[i]);
        }
      }
      assert records[..|records|] == records;
    }

    method GetThreadWithMessagesFromSeq(id: ThreadId, first: int) returns (rows: seq<Row>)
      requires id in threads
      ensures rows == From(threads[id].rows, first)
    {
      var all := threads[id].rows;
      rows := [];
      for i := 0 to |all|
        invariant rows == From(all[..i], first)
      {
        assert all[..i + 1][..i] == all[..i];
        if all[i].seqNo >= first {
          rows := rows + [all[i]];
        }
      }
      assert all[..|all|] == all;
    }

    /** Two statements, not one transaction: after a failure of the second the records are still there. */
    method DeleteMessagesAfter(id: ThreadId, seqNo: int) returns (ok: bool)
      requires Keyed()
      modifies this`threads
      ensures Keyed()
      ensures ok && id in old(threads) ==> threads == old(threads)[id := Undone(old(threads)[id], seqNo)]
      ensures id !in old(threads) ==> threads == old(threads)
      ensures !ok && id in old(threads) ==>
        threads in [old(threads), old(threads)[id := RowsDeleted(old(threads)[id], seqNo)]]
    {
      ok := *;
      if !ok || id !in threads {
        return;
      }
      SurvivorsAreRecords(threads[id].records, seqNo);
      threads := threads[id := RowsDeleted(threads[id], seqNo)];
      ok := *;
      if ok {
        threads := threads[id := threads[id].(records := Surviving(threads[id].records, seqNo))];
      }
    }

    /** The history part of building a turn's messages, with its fallback for dangling records. */
    method LoadHistory(id: ThreadId) returns (rec: Option<Record>, history: seq<Row>)
      requires id in threads
      ensures (rec, history) == Loaded(threads[id])
    {
      rec := GetLatestCompression(id);
      if rec.Some? && rec.value.firstKept > 0 {
        history := GetThreadWithMessagesFromSeq(id, rec.value.firstKept);
        if |history| == 0 || history[0].seqNo != rec.value.firstKept {
          rec, history := None, threads[id].rows;
        }
      } else {
        history := threads[id].rows;
      }
    }
  }

  lemma {:induction false} RepeatedId(calls: seq<ToolCall>, i: nat)
    requires i < |calls|
    ensures calls[i].id in Ids(calls[..i]) ==> !Distinct(Ids(calls))
  {
    if calls[i].id in Ids(calls[..i]) {
      var k :| 0 <= k < i && Ids(calls[..i])[k] == calls[i].id;
      assert Ids(calls)[k] == Ids(calls)[i];
    }
  }

  lemma {:induction false} SurvivorsAreRecords(records: seq<Record>, seqNo: int)
    ensures forall r | r in Surviving(records, seqNo) :: r in records && r.firstKept < seqNo
    ensures forall r | r in records && r.firstKept < seqNo :: r in Surviving(records, seqNo)
  {
    if records != [] {
      SurvivorsAreRecords(records[..|records| - 1], seqNo);
    }
  }

  function Loaded(t: ThreadData): (Option<Record>, seq<Row>) {
    var rec := Latest(t.records);
    if rec.Some? && rec.value.firstKept > 0 then
      var kept := From(t.rows, rec.value.firstKept);
      if kept == [] || kept[0].seqNo != rec.value.firstKept then (None, t.rows) else (rec, kept)
    else (rec, t.rows)
  }

  // ---- what every run keeps ------------------------------------------------------------------------

  predicate Numbered(rows: seq<Row>) {
    forall i | 0 <= i < |rows| :: rows[i].seqNo == i + 1
  }

  /** Numbers are exactly 1..n, and every record points at a live message. */
  predicate Sound(t: ThreadData) {
    && Numbered(t.rows)
    && forall rec | rec in t.records :: 1 <= rec.firstKept <= |t.rows|
  }

  /** How many of n messages numbered from 1 come before k. */
  function Below(n: nat, k: int): nat {
    if k < 1 then 0 else if k > n then n else k - 1
  }

  lemma {:induction false} MaxOfNumbered(rows: seq<Row>)
    requires Numbered(rows)
    ensures MaxSeq(rows) == |rows|
  {
    if rows != [] {
      MaxOfNumbered(rows[..|rows| - 1]);
    }
  }

  lemma {:induction false} FromNumbered(rows: seq<Row>, k: int)
    requires Numbered(rows)
    ensures From(rows, k) == rows[Below(|rows|, k)..]
  {
    if rows != [] {
      var init, last := rows[..|rows| - 1], rows[|rows| - 1];
      FromNumbered(init, k);
      if k <= |rows| {
        SnocSuffix(rows, Below(|rows|, k));
      } else {
        assert init[|init|..] == [] && rows[|rows|..] == [];
      }
    }
  }

  lemma {:induction false} SnocSuffix(rows: seq<Row>, i: nat)
    requires i < |rows|
    ensures rows[i..] == rows[..|rows| - 1][i..] + [rows[|rows| - 1]]
  {
  }

  lemma {:induction false} BeforeNumbered(rows: seq<Row>, k: int)
    requires Numbered(rows)
    ensures Before(rows, k) == rows[..Below(|rows|, k)]
  {
    if rows != [] {
      var init := rows[..|rows| - 1];
      BeforeNumbered(init, k);
      assert rows == init + [rows[|rows| - 1]];
      assert init[..Below(|init|, k)] == rows[..Below(|init|, k)];
    }
  }

  lemma {:induction false} AppendKeepsSound(t: ThreadData, row: Row)
    requires Sound(t)
    ensures Sound(Appended(t, row)) && Appended(t, row).rows[|t.rows|].seqNo == |t.rows| + 1
  {
    MaxOfNumbered(t.rows);
  }

  /** The store does not check the boundary, so a save is sound exactly when its caller's is live. */
  lemma {:induction false} SaveKeepsSoundIff(t: ThreadData, rec: Record)
    requires Sound(t)
    ensures Sound(Saved(t, rec)) <==> 1 <= rec.firstKept <= |t.rows|
  {
    var records := Saved(t, rec).records;
    assert records[|t.records|] == rec;
    assert forall r | r in records :: r in t.records || r == rec;
  }

  lemma {:induction false} UndoKeepsSound(t: ThreadData, seqNo: int)
    requires Sound(t)
    ensures Sound(Undone(t, seqNo))
  {
    BeforeNumbered(t.rows, seqNo);
    SurvivorsAreRecords(t.records, seqNo);
  }

  lemma {:induction false} LatestIsRecord(records: seq<Record>)
    ensures Latest(records).Some? <==> records != []
    ensures Latest(records).Some? ==> Latest(records).value in records
    ensures Latest(records).Some? ==> forall r | r in records :: !Later(r, Latest(records).value)
  {
    if records != [] {
      var init, last := records[..|records| - 1], records[|records| - 1];
      LatestIsRecord(init);
      assert forall r | r in records :: r in init || r == last;
    }
  }

  /** The fallback to the full history is taken exactly for a boundary past the last message. */
  lemma {:induction false} FallbackIff(t: ThreadData)
    requires Numbered(t.rows) && t.records != []
    ensures Loaded(t).0 == None <==> Latest(t.records).value.firstKept > |t.rows|
  {
    LatestIsRecord(t.records);
    FromNumbered(t.rows, Latest(t.records).value.firstKept);
  }

  /** In a sound store it is never taken: the newest summary comes with exactly what it leaves out. */
  lemma {:induction false} SoundLoads(t: ThreadData)
    requires Sound(t)
    ensures Loaded(t).0 == Latest(t.records)
    ensures t.records == [] ==> Loaded(t).1 == t.rows
    ensures t.records != [] ==>
      1 <= Latest(t.records).value.firstKept <= |t.rows| &&
      Loaded(t).1 == t.rows[Latest(t.records).value.firstKept - 1..]
  {
    LatestIsRecord(t.records);
    if t.records != [] {
      FallbackIff(t);
      FromNumbered(t.rows, Latest(t.records).value.firstKept);
    }
  }

  /** A new record is the one loaded next exactly when no older one carries a later time. */
  lemma {:induction false} SavedIsLatestIff(t: ThreadData, rec: Record)
    requires forall r | r in t.records :: r.id < rec.id
    ensures Latest(Saved(t, rec).records) == Some(rec) <==>
      forall r | r in t.records :: r.createdAt <= rec.createdAt
  {
    LatestIsRecord(t.records);
    assert Saved(t, rec).records[..|t.records|] == t.records;
    if Latest(t.records).Some? {
      var best := Latest(t.records).value;
      assert best.id < rec.id;
      forall r | r in t.records ensures r.createdAt <= best.createdAt {
        assert !Later(r, best);
      }
    }
  }

  function AppendedAll(t: ThreadData, rows: seq<Row>): ThreadData {
    if rows == [] then t else Appended(AppendedAll(t, rows[..|rows| - 1]), rows[|rows| - 1])
  }

  lemma {:induction false} AppendsExtend(t: ThreadData, rows: seq<Row>)
    requires Sound(t)
    ensures var after := AppendedAll(t, rows);
      Sound(after) && |after.rows| == |t.rows| + |rows|
      && after.rows[..|t.rows|] == t.rows && after.records == t.records
  {
    if rows != [] {
      AppendsExtend(t, rows[..|rows| - 1]);
      AppendKeepsSound(AppendedAll(t, rows[..|rows| - 1]), rows[|rows| - 1]);
    }
  }

  /** Undoing from the first appended message restores the thread. */
  lemma {:induction false} UndoRestores(t: ThreadData, rows: seq<Row>)
    requires Sound(t)
    ensures Undone(AppendedAll(t, rows), |t.rows| + 1) == t
  {
    AppendsExtend(t, rows);
    BeforeNumbered(AppendedAll(t, rows).rows, |t.rows| + 1);
    AllSurvive(t.records, |t.rows| + 1);
  }

  lemma {:induction false} AllSurvive(records: seq<Record>, seqNo: int)
    requires forall r | r in records :: r.firstKept < seqNo
    ensures Surviving(records, seqNo) == records
  {
    if records != [] {
      AllSurvive(records[..|records| - 1], seqNo);
    }
  }

  // ---- the reloaded view and the compressed one -------------------------------------------------------

  function RowMessage(row: Row): Message {
    Message(row.role,
            if row.content.Some? then row.content.value else "",
            if row.role.Assistant? then row.calls else [],
            if row.toolCallId.Some? then row.toolCallId.value else "")
  }

  function RowEntries(rows: seq<Row>): seq<Entry> {
    seq(|rows|, i requires 0 <= i < |rows| =>
      Entry(rows[i].seqNo, false, ThreadMessage, RowMessage(rows[i])))
  }

  /** The synthetic head (prompt, plan directive, reminder), the saved summary, the loaded history. */
  function BuiltView(head: seq<Entry>, t: ThreadData): seq<Entry> {
    var (rec, history) := Loaded(t);
    head + (if rec.Some? then [SummaryEntry(rec.value.summary)] else []) + RowEntries(history)
  }

  lemma {:induction false} PersistedOfRows(rows: seq<Row>)
    requires forall r | r in rows :: r.seqNo > 0
    ensures Persisted(RowEntries(rows)) == RowEntries(rows)
  {
    if rows != [] {
      PersistedOfRows(rows[1..]);
      assert RowEntries(rows)[1..] == RowEntries(rows[1..]);
    }
  }

  /** A built view has no checkpoint, and its persisted entries are exactly the loaded messages. */
  lemma {:induction false} BuiltViewIsLoaded(head: seq<Entry>, t: ThreadData)
    requires Sound(t) && CheckpointFree(head) && forall e | e in head :: e.synthetic
    ensures CheckpointFree(BuiltView(head, t))
    ensures Persisted(BuiltView(head, t)) == RowEntries(Loaded(t).1)
  {
    SoundLoads(t);
    hide Loaded, Latest, SummaryEntry, Persisted;
    var (rec, history) := Loaded(t);
    var summary := if rec.Some? then [SummaryEntry(rec.value.summary)] else [];
    NoneOfSynthetic(head + summary);
    PersistedConcat(head + summary, RowEntries(history));
    PersistedOfRows(history);
  }

  lemma {:induction false} FirstPersisted(view: seq<Entry>)
    ensures FirstPersistedSeq(view) == if Persisted(view) == [] then 0 else Persisted(view)[0].seqNo
    ensures Persisted(view) != [] ==> Persisted(view)[0].seqNo > 0
  {
    if view != [] {
      FirstPersisted(view[1..]);
    }
  }

  lemma {:induction false} KeptRows(rows: seq<Row>, dropped: seq<Entry>, kept: seq<Entry>)
    requires RowEntries(rows) == dropped + kept && kept != []
    ensures |dropped| < |rows| && rows[|dropped|].seqNo == kept[0].seqNo
    ensures RowEntries(rows[|dropped|..]) == kept
  {
    assert kept == RowEntries(rows)[|dropped|..];
    assert RowEntries(rows)[|dropped|] == kept[0];
  }

  /**
   The boundary a turn-start compression computes is live, and when its record is the newest, the next
   turn loads exactly the entries the compressed view kept.
   */
  lemma {:induction false} ReloadAgrees(t: ThreadData, view: seq<Entry>, end: nat, rec: Record)
    requires Sound(t) && end <= |view|
    requires Persisted(view) == RowEntries(Loaded(t).1)
    requires rec.firstKept == FirstPersistedSeq(view[end..]) > 0
    ensures Sound(Saved(t, rec))
    ensures Latest(Saved(t, rec).records) == Some(rec) ==>
      Loaded(Saved(t, rec)).0 == Some(rec) && RowEntries(Loaded(Saved(t, rec)).1) == Persisted(view[end..])
  {
    hide Latest, FirstPersistedSeq, Persisted, RowEntries, Loaded;
    SoundLoads(t);
    FirstPersisted(view[end..]);
    assert view == view[..end] + view[end..];
    PersistedConcat(view[..end], view[end..]);
    var rows, dropped := Loaded(t).1, Persisted(view[..end]);
    KeptRows(rows, dropped, Persisted(view[end..]));
    SaveKeepsSoundIff(t, rec);
    SoundLoads(Saved(t, rec));
    assert t.rows[rec.firstKept - 1..] == rows[|dropped|..];
  }

  function Seqs(rows: seq<Row>): seq<nat> {
    seq(|rows|, i requires 0 <= i < |rows| => rows[i].seqNo)
  }

  lemma {:induction false} CutOfIncreasing(dropped: seq<nat>, kept: seq<nat>)
    requires Increasing(dropped + kept) && kept != []
    ensures forall n | n in dropped + kept :: n in kept <==> n >= kept[0]
  {
    var all := dropped + kept;
    assert forall i | 0 <= i < |dropped| :: all[i] == dropped[i];
    assert forall i | 0 <= i < |kept| :: all[|dropped| + i] == kept[i];
    forall n | n in dropped ensures n < kept[0] {
      var i :| 0 <= i < |dropped| && dropped[i] == n;
      assert all[i] < all[|dropped|];
    }
    forall n | n in kept ensures n >= kept[0] {
      var i :| 0 <= i < |kept| && kept[i] == n;
      assert i > 0 ==> all[|dropped|] < all[|dropped| + i];
    }
  }

  /**
   Also when repairs dropped stray results from the view: of the persisted messages it holds, the next
   turn loads exactly those the compressed view kept.
   */
  lemma {:induction false} KeptAreReloaded(t: ThreadData, view: seq<Entry>, end: nat, rec: Record)
    requires Sound(t) && end <= |view|
    requires Increasing(PersistedSeqs(view)) && forall n | n in PersistedSeqs(view) :: n <= |t.rows|
    requires rec.firstKept == FirstPersistedSeq(view[end..]) > 0
    ensures Sound(Saved(t, rec))
    ensures Latest(Saved(t, rec).records) == Some(rec) ==>
      && Loaded(Saved(t, rec)).0 == Some(rec)
      && forall n | n in PersistedSeqs(view) ::
           n in PersistedSeqs(view[end..]) <==> n in Seqs(Loaded(Saved(t, rec)).1)
  {
    hide Latest, FirstPersistedSeq, Persisted;
    FirstPersisted(view[end..]);
    assert view == view[..end] + view[end..];
    PersistedSeqsConcat(view[..end], view[end..]);
    var dropped, kept := PersistedSeqs(view[..end]), PersistedSeqs(view[end..]);
    CutOfIncreasing(dropped, kept);
    assert kept[0] in dropped + kept;
    SaveKeepsSoundIff(t, rec);
    SoundLoads(Saved(t, rec));
    forall n | n in PersistedSeqs(view)
      ensures n in Seqs(t.rows[rec.firstKept - 1..]) <==> n >= rec.firstKept
    {
      SeqsFrom(t.rows, rec.firstKept, n);
    }
  }

  lemma {:induction false} SeqsFrom(rows: seq<Row>, first: nat, n: nat)
    requires Numbered(rows) && 1 <= first <= |rows|
    ensures n in Seqs(rows[first - 1..]) <==> first <= n <= |rows|
  {
    if first <= n <= |rows| {
      assert Seqs(rows[first - 1..])[n - first] == n;
    }
  }
}
