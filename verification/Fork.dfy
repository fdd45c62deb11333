/**
 Forking a thread: every message is copied, and since call IDs are unique over the whole store, calls
 and the results that answer them are renamed together.
 */
module Fork {
  import opened Options
  import opened Payload
  import opened Store

  type Renaming = map<CallId, CallId>

  // ---- the copy -----------------------------------------------------------------------------

  /** Every copied call ID is paired with one fresh ID, in reading order. */
  function Paired(ids: seq<CallId>, uuids: seq<CallId>): Renaming
    requires |ids| <= |uuids|
  {
    if ids == [] then map[]
    else Paired(ids[..|ids| - 1], uuids)[ids[|ids| - 1] := uuids[|ids| - 1]]
  }

  predicate Covers(ren: Renaming, row: Row) {
    && (row.toolCallId.Some? ==> row.toolCallId.value in ren)
    && forall c | c in row.calls :: c.id in ren
  }

  function RenamedCalls(ren: Renaming, calls: seq<ToolCall>): seq<ToolCall>
    requires forall c | c in calls :: c.id in ren
  {
    seq(|calls|, i requires 0 <= i < |calls| => calls[i].(id := ren[calls[i].id]))
  }

  function RenamedRow(ren: Renaming, row: Row): Row
    requires Covers(ren, row)
  {
    row.(toolCallId := if row.toolCallId.Some? then Some(ren[row.toolCallId.value]) else None,
         calls := RenamedCalls(ren, row.calls))
  }

  function Renamed(ren: Renaming, rows: seq<Row>): (copy: seq<Row>)
    requires forall row | row in rows :: Covers(ren, row)
    ensures |copy| == |rows|
  {
    seq(|rows|, i requires 0 <= i < |rows| => RenamedRow(ren, rows[i]))
  }

  datatype ForkResult = Forked(id: ThreadId) | NoSource | MissingCall(seqNo: nat) | CopyFailed

  lemma {:induction false} PairedFacts(ids: seq<CallId>, uuids: seq<CallId>)
    requires |ids| <= |uuids| && Distinct(uuids) && Distinct(ids)
    ensures Paired(ids, uuids).Keys == IdSet(ids)
    ensures forall i | 0 <= i < |ids| :: Paired(ids, uuids)[ids[i]] == uuids[i]
  {
    if ids != [] {
      var init, last := ids[..|ids| - 1], ids[|ids| - 1];
      PairedFacts(init, uuids);
      assert forall i | 0 <= i < |init| :: ids[i] != last;
    }
  }

  predicate OneToOne(ren: Renaming) {
    && (forall a, b | a in ren && b in ren && ren[a] == ren[b] :: a == b)
    && forall a | a in ren :: ren[a] != ""
  }

  lemma {:induction false} PairedIsOneToOne(ids: seq<CallId>, uuids: seq<CallId>)
    requires |ids| <= |uuids| && Distinct(ids) && Distinct(uuids) && "" !in uuids
    ensures OneToOne(Paired(ids, uuids))
  {
    PairedFacts(ids, uuids);
    var ren := Paired(ids, uuids);
    forall a, b | a in ren && b in ren && ren[a] == ren[b] ensures a == b {
      var i :| 0 <= i < |ids| && ids[i] == a;
      var j :| 0 <= j < |ids| && ids[j] == b;
      assert uuids[i] == uuids[j];
    }
  }

  lemma {:induction false} CallsCovered(rows: seq<Row>)
    ensures forall row, c | row in rows && c in row.calls :: c.id in RowCallIds(rows)
  {
    if rows != [] {
      var init, last := rows[..|rows| - 1], rows[|rows| - 1];
      CallsCovered(init);
      forall row, c | row in rows && c in row.calls ensures c.id in RowCallIds(rows) {
        if row == last {
          var k :| 0 <= k < |row.calls| && row.calls[k] == c;
          assert Ids(row.calls)[k] == c.id;
        }
      }
    }
  }

  method PairCalls(calls: seq<ToolCall>, uuids: seq<CallId>, done: seq<CallId>, before: Renaming)
    returns (ren: Renaming)
    requires |done| + |calls| <= |uuids| && before == Paired(done, uuids)
    ensures ren == Paired(done + Ids(calls), uuids)
  {
    ren := before;
    assert done + Ids(calls)[..0] == done;
    for k := 0 to |calls|
      invariant ren == Paired(done + Ids(calls)[..k], uuids)
    {
      ghost var more := done + Ids(calls)[..k + 1];
      assert more[..|more| - 1] == done + Ids(calls)[..k];
      ren := ren[calls[k].id := uuids[|done| + k]];
    }
    assert Ids(calls)[..|calls|] == Ids(calls);
  }

  method CollectIds(rows: seq<Row>, uuids: seq<CallId>) returns (ren: Renaming)
    requires |RowCallIds(rows)| <= |uuids|
    ensures ren == Paired(RowCallIds(rows), uuids)
  {
    ren := map[];
    var done: seq<CallId> := [];
    for i := 0 to |rows|
      invariant done == RowCallIds(rows[..i]) && |done| <= |uuids|
      invariant ren == Paired(done, uuids)
    {
      assert rows[..i + 1][..i] == rows[..i];
      PrefixIds(rows, i + 1);
      ren := PairCalls(rows[i].calls, uuids, done, ren);
      done := done + Ids(rows[i].calls);
    }
    assert rows[..|rows|] == rows;
  }

  lemma {:induction false} PrefixIds(rows: seq<Row>, n: nat)
    requires n <= |rows|
    ensures |RowCallIds(rows[..n])| <= |RowCallIds(rows)|
    decreases |rows|
  {
    if n == |rows| {
      assert rows[..n] == rows;
    } else {
      PrefixIds(rows[..|rows| - 1], n);
      assert rows[..|rows| - 1][..n] == rows[..n];
    }
  }

  /** Every stored result answers a call stored in the same thread. */
  predicate ResultsKnown(rows: seq<Row>) {
    forall row | row in rows :: row.toolCallId.Some? ==> row.toolCallId.value in RowCallIds(rows)
  }

  /** One transaction: the whole copy or nothing; a result of an unknown call or a failed write stops it. */
  method ForkThread(store: ThreadStore, src: ThreadId, newId: ThreadId, uuids: seq<CallId>)
    returns (r: ForkResult)
    requires store.Keyed() && newId !in store.threads
    requires src in store.threads ==>
      && Distinct(RowCallIds(store.threads[src].rows))
      && |uuids| == |RowCallIds(store.threads[src].rows)| && Distinct(uuids) && "" !in uuids
      && forall id | id in uuids :: !store.Taken(id)
    modifies store`threads, store`heads, store`plans
    ensures store.Keyed()
    ensures r.NoSource? <==> src !in old(store.threads)
    ensures r.Forked? ==>
      var rows := old(store.threads)[src].rows;
      var ren := Paired(RowCallIds(rows), uuids);
      && r.id == newId && OneToOne(ren)
      && (forall row | row in rows :: Covers(ren, row))
      && store.threads == old(store.threads)[newId := ThreadData(Renamed(ren, rows), [])]
      && store.heads == old(store.heads)[newId := old(store.heads)[src]]
      && store.plans == if src in old(store.plans) then old(store.plans)[newId := old(store.plans)[src]] else old(store.plans)
    ensures src in old(store.threads) && !r.CopyFailed? ==>
      (r.Forked? <==> ResultsKnown(old(store.threads)[src].rows))
    ensures !r.Forked? ==>
      store.threads == old(store.threads) && store.heads == old(store.heads) && store.plans == old(store.plans)
  {
    hide Paired, RowCallIds, OneToOne;
    if src !in store.threads {
      return NoSource;
    }
    var rows := store.threads[src].rows;
    var ren := CollectIds(rows, uuids);
    PairedFacts(RowCallIds(rows), uuids);
    PairedIsOneToOne(RowCallIds(rows), uuids);
    CallsCovered(rows);
    var copy: seq<Row> := [];
    var i := 0;
    while i < |rows|
      invariant i <= |rows|
      invariant forall k | 0 <= k < i :: Covers(ren, rows[k])
      invariant |copy| == i && forall k | 0 <= k < i :: copy[k] == RenamedRow(ren, rows[k])
    {
      if rows[i].toolCallId.Some? && rows[i].toolCallId.value !in ren {
        return MissingCall(rows[i].seqNo);
      }
      var failed: bool := *;
      if failed {
        return CopyFailed;
      }
      copy := copy + [RenamedRow(ren, rows[i])];
      i := i + 1;
    }
    assert copy == Renamed(ren, rows);
    store.threads, store.heads := store.threads[newId := ThreadData(copy, [])], store.heads[newId := store.heads[src]];
    if src in store.plans {
      store.plans := store.plans[newId := store.plans[src]];
    }
    r := Forked(newId);
  }

  // ---- the fork means the same --------------------------------------------------------------------

  /** The provider messages of stored rows. */
  function Messages(rows: seq<Row>): (msgs: seq<Message>)
    ensures |msgs| == |rows|
  {
    seq(|rows|, i requires 0 <= i < |rows| => RowMessage(rows[i]))
  }

  function Image(ren: Renaming, s: Scan): Scan
    requires s.Awaiting? ==> s.ids <= ren.Keys
  {
    match s
    case Broken => Broken
    case Awaiting(ids) => Awaiting(set id | id in ids :: ren[id])
  }

  predicate Tracked(ren: Renaming, s: Scan) {
    s.Awaiting? ==> s.ids <= ren.Keys && "" !in s.ids
  }

  lemma {:induction false} RenamedIds(ren: Renaming, calls: seq<ToolCall>)
    requires forall c | c in calls :: c.id in ren
    ensures IdSet(Ids(calls)) <= ren.Keys
    ensures IdSet(Ids(RenamedCalls(ren, calls))) == (set id | id in IdSet(Ids(calls)) :: ren[id])
  {
    var ids, copy := Ids(calls), Ids(RenamedCalls(ren, calls));
    forall id | id in ids ensures id in ren && ren[id] in copy {
      var k :| 0 <= k < |calls| && ids[k] == id;
      assert calls[k] in calls && copy[k] == ren[id];
    }
    forall x | x in copy ensures exists id | id in ids :: ren[id] == x {
      var k :| 0 <= k < |calls| && copy[k] == x;
      assert ids[k] in ids && calls[k] in calls;
    }
  }

  lemma {:induction false} ResultOfFork(ren: Renaming, ids: set<CallId>, row: Row)
    requires OneToOne(ren) && Covers(ren, row) && row.role.Tool? && Tracked(ren, Awaiting(ids))
    ensures var next := Step(Awaiting(ids), RowMessage(row));
      && Tracked(ren, next)
      && Step(Image(ren, Awaiting(ids)), RowMessage(RenamedRow(ren, row))) == Image(ren, next)
  {
    var image := set x | x in ids :: ren[x];
    if row.toolCallId.Some? {
      var id := row.toolCallId.value;
      assert ren[id] in image <==> id in ids;
      if id in ids {
        RemovedImage(ren, ids, id);
      }
    } else {
      assert "" !in image;
    }
  }

  /** One stored message moves the scanner of the fork just as its original moves the source's. */
  lemma {:induction false} StepOfFork(ren: Renaming, s: Scan, row: Row)
    requires OneToOne(ren) && Covers(ren, row) && Tracked(ren, s)
    requires Opens(RowMessage(row)) ==> "" !in Ids(row.calls)
    ensures var next := Step(s, RowMessage(row));
      && Tracked(ren, next)
      && Step(Image(ren, s), RowMessage(RenamedRow(ren, row))) == Image(ren, next)
  {
    if s.Broken? {
    } else if row.role.Tool? {
      ResultOfFork(ren, s.ids, row);
    } else {
      RenamedIds(ren, row.calls);
      var image := set x | x in s.ids :: ren[x];
      if s.ids != {} {
        var x :| x in s.ids;
        assert ren[x] in image;
      }
    }
  }

  lemma {:induction false} RemovedImage(ren: Renaming, ids: set<CallId>, id: CallId)
    requires OneToOne(ren) && ids <= ren.Keys && id in ids
    ensures (set x | x in ids :: ren[x]) - {ren[id]} == (set x | x in ids - {id} :: ren[x])
  {
  }

  lemma {:induction false} RunOfFork(ren: Renaming, s: Scan, rows: seq<Row>)
    requires OneToOne(ren) && Tracked(ren, s)
    requires forall row | row in rows :: Covers(ren, row)
    requires "" !in CallIds(Messages(rows))
    ensures Tracked(ren, Run(s, Messages(rows)))
    ensures Run(Image(ren, s), Messages(Renamed(ren, rows))) == Image(ren, Run(s, Messages(rows)))
    decreases |rows|
  {
    if rows != [] {
      var row, rest := rows[0], rows[1..];
      var m := RowMessage(row);
      assert Messages(rows)[1..] == Messages(rest);
      assert Messages(Renamed(ren, rows))[1..] == Messages(Renamed(ren, rest));
      StepOfFork(ren, s, row);
      RunOfFork(ren, Step(s, m), rest);
    }
  }

  function RenamedList(ren: Renaming, ids: seq<CallId>): seq<CallId>
    requires forall id | id in ids :: id in ren
  {
    seq(|ids|, i requires 0 <= i < |ids| => ren[ids[i]])
  }

  lemma {:induction false} IdsOfCalls(ren: Renaming, calls: seq<ToolCall>)
    requires forall c | c in calls :: c.id in ren
    ensures forall id | id in Ids(calls) :: id in ren
    ensures Ids(RenamedCalls(ren, calls)) == RenamedList(ren, Ids(calls))
  {
    forall id | id in Ids(calls) ensures id in ren {
      var k :| 0 <= k < |calls| && Ids(calls)[k] == id;
      assert calls[k] in calls;
    }
    assert forall k | 0 <= k < |calls| :: calls[k] in calls;
  }

  lemma {:induction false} IdsOfFork(ren: Renaming, rows: seq<Row>)
    requires forall row | row in rows :: Covers(ren, row)
    ensures forall id | id in CallIds(Messages(rows)) :: id in ren
    ensures CallIds(Messages(Renamed(ren, rows))) == RenamedList(ren, CallIds(Messages(rows)))
    decreases |rows|
  {
    if rows != [] {
      var row, rest := rows[0], rows[1..];
      assert row in rows && Covers(ren, row);
      HeadIds(rows);
      RenamedHead(ren, rows);
      IdsOfFork(ren, rest);
      IdsOfCalls(ren, row.calls);
      hide Messages, Renamed, CallIds, Ids, RenamedCalls;
      if Opens(RowMessage(row)) {
        RenamedListConcat(ren, Ids(row.calls), CallIds(Messages(rest)));
      } else {
        RenamedListConcat(ren, [], CallIds(Messages(rest)));
      }
    }
  }

  lemma {:induction false} HeadIds(rows: seq<Row>)
    requires rows != []
    ensures CallIds(Messages(rows)) ==
      (if Opens(RowMessage(rows[0])) then Ids(rows[0].calls) else []) + CallIds(Messages(rows[1..]))
  {
    assert Messages(rows)[1..] == Messages(rows[1..]);
  }

  lemma {:induction false} RenamedHead(ren: Renaming, rows: seq<Row>)
    requires rows != [] && Covers(ren, rows[0]) && forall row | row in rows :: Covers(ren, row)
    ensures CallIds(Messages(Renamed(ren, rows))) ==
      (if Opens(RowMessage(rows[0])) then Ids(RenamedCalls(ren, rows[0].calls)) else []) +
      CallIds(Messages(Renamed(ren, rows[1..])))
  {
    HeadIds(Renamed(ren, rows));
    assert Renamed(ren, rows)[1..] == Renamed(ren, rows[1..]);
  }

  lemma {:induction false} RenamedListConcat(ren: Renaming, a: seq<CallId>, b: seq<CallId>)
    requires (forall id | id in a :: id in ren) && forall id | id in b :: id in ren
    ensures forall id | id in a + b :: id in ren
    ensures RenamedList(ren, a + b) == RenamedList(ren, a) + RenamedList(ren, b)
  {
  }

  lemma {:induction false} UsableInFork(ren: Renaming, rows: seq<Row>)
    requires OneToOne(ren) && forall row | row in rows :: Covers(ren, row)
    ensures UsableIds(CallIds(Messages(Renamed(ren, rows)))) <==> Distinct(CallIds(Messages(rows)))
  {
    IdsOfFork(ren, rows);
    var ids, copy := CallIds(Messages(rows)), CallIds(Messages(Renamed(ren, rows)));
    if !Distinct(ids) {
      var i, j :| 0 <= i < j < |ids| && ids[i] == ids[j];
      assert copy[i] == copy[j];
    }
  }

  lemma {:induction false} ImageIsIdleIff(ren: Renaming, s: Scan)
    requires Tracked(ren, s)
    ensures Image(ren, s) == Idle <==> s == Idle
  {
    if s.Awaiting? && s.ids != {} {
      var id :| id in s.ids;
      assert ren[id] in Image(ren, s).ids;
    }
  }

  /** The source is sendable exactly when its fork is and the source stored no empty call ID. */
  lemma {:induction false} ForkIsValidIff(ren: Renaming, rows: seq<Row>)
    requires OneToOne(ren) && forall row | row in rows :: Covers(ren, row)
    ensures Valid(Messages(rows)) <==>
      Valid(Messages(Renamed(ren, rows))) && "" !in CallIds(Messages(rows))
  {
    if "" !in CallIds(Messages(rows)) {
      RunOfFork(ren, Idle, rows);
      UsableInFork(ren, rows);
      assert Image(ren, Idle) == Idle;
      ImageIsIdleIff(ren, Run(Idle, Messages(rows)));
    }
  }

  /** A stored exchange whose only call has an empty ID. */
  function EmptyIdRows(): seq<Row> {
    [Row(1, Assistant, None, None, [ToolCall("", FunctionCall, "ls", "")]),
     Row(2, Tool, None, Some(""), [])]
  }

  /** An empty call ID becomes a usable one: this thread is not sendable, but its fork is. */
  lemma {:induction false} ForkRepairsEmptyId(uuid: CallId)
    requires uuid != ""
    ensures var rows, ren := EmptyIdRows(), map["" := uuid];
      && OneToOne(ren) && (forall row | row in rows :: Covers(ren, row))
      && !Valid(Messages(rows)) && Valid(Messages(Renamed(ren, rows)))
  {
    var rows, ren := EmptyIdRows(), map["" := uuid];
    assert Messages(rows)[0].calls == rows[0].calls;
    assert Ids(rows[0].calls)[0] == "" && CallIds(Messages(rows))[0] == "";
    var call, copy := rows[0].calls[0].(id := uuid), Messages(Renamed(ren, rows));
    assert RenamedCalls(ren, rows[0].calls) == [call];
    OneExchange(copy, call);
  }

  lemma {:induction false} OneExchange(msgs: seq<Message>, call: ToolCall)
    requires |msgs| == 2 && msgs[0].role.Assistant? && msgs[0].calls == [call] && call.id != ""
    requires msgs[1].role.Tool? && msgs[1].toolCallId == call.id
    ensures Valid(msgs)
  {
    assert Ids([call]) == [call.id];
    assert IdSet([call.id]) == {call.id} && {call.id} - {call.id} == {};
    assert msgs[1..] == [msgs[1]] && [msgs[1]][1..] == [];
    assert Run(Awaiting({call.id}), [msgs[1]]) == Run(Idle, []);
    assert CallIds([msgs[1]]) == [];
  }

  /** The fork starts without summaries and loads its whole history, numbered as in the source. */
  lemma {:induction false} ForkLoadsEverything(ren: Renaming, rows: seq<Row>)
    requires forall row | row in rows :: Covers(ren, row)
    ensures Loaded(ThreadData(Renamed(ren, rows), [])) == (None, Renamed(ren, rows))
    ensures Numbered(rows) ==> Sound(ThreadData(Renamed(ren, rows), []))
  {
    assert forall i | 0 <= i < |rows| :: Covers(ren, rows[i]);
  }

  // ---- what the copy keeps ---------------------------------------------------------------------------

  /** Everything but the IDs is copied as it is. */
  predicate SameButIds(row: Row, copy: Row) {
    && copy.seqNo == row.seqNo && copy.role == row.role && copy.content == row.content
    && (copy.toolCallId.Some? <==> row.toolCallId.Some?) && |copy.calls| == |row.calls|
    && forall k | 0 <= k < |row.calls| ::
         && copy.calls[k].kind == row.calls[k].kind && copy.calls[k].name == row.calls[k].name
         && copy.calls[k].args == row.calls[k].args
  }

  /** Rows are copied in order, and a copied result answers exactly the copies of the calls that the result answers. */
  lemma {:induction false} ForkKeepsAnswers(ren: Renaming, rows: seq<Row>)
    requires OneToOne(ren) && forall row | row in rows :: Covers(ren, row)
    ensures var copy := Renamed(ren, rows);
      && |copy| == |rows| && (forall i | 0 <= i < |rows| :: SameButIds(rows[i], copy[i]))
      && forall i, j, k | 0 <= i < |rows| && 0 <= j < |rows| && 0 <= k < |rows[j].calls| && k < |copy[j].calls| ::
           copy[i].toolCallId == Some(copy[j].calls[k].id) <==> rows[i].toolCallId == Some(rows[j].calls[k].id)
  {
    var copy := Renamed(ren, rows);
    assert forall i | 0 <= i < |rows| :: rows[i] in rows && copy[i] == RenamedRow(ren, rows[i]);
    forall i, j, k | 0 <= i < |rows| && 0 <= j < |rows| && 0 <= k < |rows[j].calls|
      ensures copy[i].toolCallId == Some(copy[j].calls[k].id) <==> rows[i].toolCallId == Some(rows[j].calls[k].id)
    {
      assert rows[j].calls[k] in rows[j].calls;
    }
  }

  lemma {:induction false} RenamedIdsAre(ren: Renaming, calls: seq<ToolCall>, k: nat)
    requires (forall c | c in calls :: c.id in ren) && k < |calls|
    ensures Ids(RenamedCalls(ren, calls))[k] == ren[Ids(calls)[k]]
  {
  }

  /** The calls of the copy have the fresh IDs, in reading order. */
  lemma {:induction false} ForkIdsAreFresh(ren: Renaming, rows: seq<Row>)
    requires forall row | row in rows :: Covers(ren, row)
    ensures var ids, copied := RowCallIds(rows), RowCallIds(Renamed(ren, rows));
      |copied| == |ids| && forall k | 0 <= k < |ids| :: ids[k] in ren && copied[k] == ren[ids[k]]
  {
    if rows != [] {
      var n := |rows| - 1;
      assert rows == rows[..n] + [rows[n]] && rows[n] in rows;
      assert Renamed(ren, rows)[..n] == Renamed(ren, rows[..n]);
      ForkIdsAreFresh(ren, rows[..n]);
      var last := Ids(rows[n].calls);
      forall k | 0 <= k < |last|
        ensures last[k] in ren && Ids(RenamedCalls(ren, rows[n].calls))[k] == ren[last[k]]
      {
        assert rows[n].calls[k] in rows[n].calls;
      }
    }
  }

  /** With the renaming of a fork these are the IDs that were drawn for it, each used once. */
  lemma {:induction false} ForkUsesDrawnIds(rows: seq<Row>, uuids: seq<CallId>)
    requires Distinct(RowCallIds(rows)) && |uuids| == |RowCallIds(rows)| && Distinct(uuids)
    requires forall row | row in rows :: Covers(Paired(RowCallIds(rows), uuids), row)
    ensures RowCallIds(Renamed(Paired(RowCallIds(rows), uuids), rows)) == uuids
  {
    PairedFacts(RowCallIds(rows), uuids);
    ForkIdsAreFresh(Paired(RowCallIds(rows), uuids), rows);
  }
}
