/** Call IDs across processes: the ticket counter starts over, the stored IDs stay. */
module Restart {
  import opened Options
  import opened Payload
  import opened TextCalls
  import opened Store

  function CallRow(content: string, calls: seq<ToolCall>): Row {
    Row(0, Assistant, Some(content), None, calls)
  }

  lemma {:induction false} StoredIds(rows: seq<Row>, row: Row)
    ensures forall id | id in Ids(row.calls) :: id in RowCallIds(rows + [row])
  {
    assert (rows + [row])[..|rows|] == rows;
  }

  /**
   A process stores the calls it found in a text; after a restart the same calls, with the same draws of others,
   get the same IDs again, and the store refuses them, whichever thread they are for.
   */
  method RepeatAfterRestart(store: ThreadStore, first: ThreadId, second: ThreadId, content: string,
                            found: seq<Found>, others: seq<nat>)
    returns (stored: AppendResult, repeated: AppendResult)
    requires store.Keyed() && second in store.threads && found != [] && |others| == |found|
    modifies store`threads
    ensures stored.Stored? ==> repeated == Refused(CallIdTaken)
  {
    var counter := new TicketCounter();
    var calls := counter.NameCalls(found, others);
    stored := store.AppendMessage(first, CallRow(content, calls));
    if stored.Stored? {
      ghost var rows := store.threads[first].rows;
      StoredIds(rows[..|rows| - 1], rows[|rows| - 1]);
      assert rows == rows[..|rows| - 1] + [rows[|rows| - 1]];
      assert Ids(calls)[0] in Ids(calls) && store.Taken(Ids(calls)[0]);
    }
    var restarted := new TicketCounter();
    var again := restarted.NameCalls(found, others);
    repeated := store.AppendMessage(second, CallRow(content, again));
  }
}
