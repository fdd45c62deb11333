/**
 Which tool outputs are pruned and what stays of them, entry by entry.
 */
module PrunedOutputs {
  import opened Payload
  import opened Groups
  import opened Indexed
  import opened Compress

  /** A tool result of more than 2000 characters with a user message somewhere behind it; never the first entry. */
  ghost predicate OldLongOutput(view: seq<Entry>, i: nat) {
    && 0 < i < |view| && view[i].msg.role.Tool? && |view[i].msg.content| > 2000
    && exists k | i < k < |view| :: view[k].msg.role.User?
  }

  /** The name of the first call that has this ID and a name; "tool" if there is none. */
  ghost predicate NamesTool(calls: seq<ToolCall>, id: CallId, name: string) {
    || (name == "tool" && forall k | 0 <= k < |calls| :: calls[k].id != id || calls[k].name == "")
    || (exists k ::
          && 0 <= k < |calls| && calls[k].id == id && calls[k].name == name != ""
          && forall j | 0 <= j < k :: calls[j].id != id || calls[j].name == "")
  }

  /** The calls of an assistant message directly before. */
  function CallsBefore(view: seq<Entry>, i: nat): seq<ToolCall>
    requires 0 < i <= |view|
  {
    if view[i - 1].msg.role.Assistant? then view[i - 1].msg.calls else []
  }

  lemma {:induction false} UserBehindIff(view: seq<Entry>, i: nat)
    ensures i < LastUser(Strip(view)) <==> exists k | i < k < |view| :: view[k].msg.role.User?
  {
    if i < LastUser(Strip(view)) {
      assert view[LastUser(Strip(view))].msg.role.User?;
    }
    if k :| i < k < |view| && view[k].msg.role.User? {
      assert Strip(view)[k].role.User?;
    }
  }

  lemma {:induction false} ToolNameIs(calls: seq<ToolCall>, id: CallId)
    ensures NamesTool(calls, id, ToolName(calls, id))
  {
    if calls != [] && !(calls[0].id == id && calls[0].name != "") {
      ToolNameIs(calls[1..], id);
      LaterName(calls, id, ToolName(calls[1..], id));
    }
  }

  lemma {:induction false} LaterName(calls: seq<ToolCall>, id: CallId, name: string)
    requires calls != [] && (calls[0].id != id || calls[0].name == "") && NamesTool(calls[1..], id, name)
    ensures NamesTool(calls, id, name)
  {
    var rest := calls[1..];
    assert forall j | 0 < j < |calls| :: calls[j] == rest[j - 1];
    if !(name == "tool" && forall k | 0 <= k < |rest| :: rest[k].id != id || rest[k].name == "") {
      var k :| (&& 0 <= k < |rest| && rest[k].id == id && rest[k].name == name != ""
                && forall j | 0 <= j < k :: rest[j].id != id || rest[j].name == "");
      assert calls[k + 1] == rest[k];
    }
  }

  lemma {:induction false} LinesAreNewlines(content: string)
    ensures Lines(content) == multiset(content)['\n'] + 1
  {
    if content != "" {
      LinesAreNewlines(content[1..]);
      assert content == [content[0]] + content[1..];
    }
  }

  /**
   Exactly the old long outputs are shortened, to their first 2000 characters and a note on the tool and on
   how much there was; every other entry stays as it is.
   */
  lemma {:induction false} PrunedEntries(env: Env, view: seq<Entry>, i: nat)
    requires i < |view|
    ensures |PrunedView(env, view)| == |view|
    ensures var e, out := view[i], PrunedView(env, view)[i];
      if OldLongOutput(view, i) then
        exists name :: NamesTool(CallsBefore(view, i), e.msg.toolCallId, name) &&
          out == e.(msg := e.msg.(content := e.msg.content[..2000] +
                                             env.pruneNote(name, |e.msg.content|, multiset(e.msg.content)['\n'] + 1)))
      else out == e
  {
    hide ToolName, Lines, LastUser, NamesTool;
    UserBehindIff(view, i);
    assert OldLongOutput(view, i) <==> Prunable(view, i);
    if OldLongOutput(view, i) {
      var calls, m := CallsBefore(view, i), view[i].msg;
      LinesAreNewlines(m.content);
      ToolNameIs(calls, m.toolCallId);
      NoCallsNoName(m.toolCallId);
      assert NamesTool(calls, m.toolCallId, ToolName(calls, m.toolCallId));
    }
  }

  lemma {:induction false} NoCallsNoName(id: CallId)
    ensures ToolName([], id) == "tool"
  {
  }

  /** The reported count is the number of old long outputs. */
  lemma {:induction false} PrunedCount(view: seq<Entry>, n: nat)
    requires n <= |view|
    ensures PrunableAmong(view, n) == |set i: nat | i < n && OldLongOutput(view, i)|
  {
    if n > 0 {
      PrunedCount(view, n - 1);
      UserBehindIff(view, n - 1);
      var before, all := set i: nat | i < n - 1 && OldLongOutput(view, i), set i: nat | i < n && OldLongOutput(view, i);
      assert all == before + if OldLongOutput(view, n - 1) then {n - 1} else {};
    }
  }
}
