/**
 What a turn makes durable, message by message: the texts, the calls and the results, and who gets which.
 */
module TurnContents {
  import opened Sequences
  import opened Payload
  import opened Indexed
  import opened Sanitize
  import opened Turn
  import opened TurnLoop

  predicate SaidByUser(m: Message, text: string) {
    m.role.User? && m.content == text && m.calls == [] && m.toolCallId == ""
  }

  predicate SaidByAssistant(m: Message, text: string) {
    m.role.Assistant? && m.content == text && m.calls == [] && m.toolCallId == ""
  }

  /** The assistant's text with its calls: IDs, names and arguments as given, all stored as function calls. */
  predicate CallsMade(m: Message, text: string, calls: seq<ToolCall>) {
    && m.role.Assistant? && m.content == text && m.toolCallId == "" && |m.calls| == |calls|
    && forall i | 0 <= i < |calls| :: m.calls[i] == ToolCall(calls[i].id, FunctionCall, calls[i].name, calls[i].args)
  }

  predicate ResultGiven(m: Message, id: CallId, text: string) {
    m.role.Tool? && m.content == text && m.calls == [] && m.toolCallId == id
  }

  /** A steering message, introduced as one. */
  predicate SteeringSaid(m: Message, text: string) {
    SaidByUser(m, "[The user sent this message while you were working.]\n\n" + text)
  }

  /**
   The group with its results in call order: the first k calls have their own outputs, the others are
   interrupted; then the first n steering messages.
   */
  ghost predicate GroupSays(content: string, calls: seq<ToolCall>, runs: seq<string>, steering: seq<string>, k: nat, n: nat,
                            block: seq<Message>) {
    && k <= |calls| == |runs| && n <= |steering| && (n > 0 ==> k == |calls|)
    && |block| == 1 + |calls| + n && CallsMade(block[0], content, calls)
    && var rest := block[1..];
    && (forall i | 0 <= i < |calls| ::
          ResultGiven(rest[i], calls[i].id, if i < k then runs[i] else "error: interrupted"))
    && var said := rest[|calls|..];
    && forall j | 0 <= j < n :: SteeringSaid(said[j], steering[j])
  }

  /** What one response may leave. */
  ghost predicate Says(r: Response, block: seq<Message>) {
    || block == []
    || match r
       case Final(content) => |block| == 1 && SaidByAssistant(block[0], content)
       case ToolCalls(content, calls, runs, _, steering) =>
         exists k: nat, n: nat :: GroupSays(content, calls, runs, steering, k, n, block)
       case Streamed(content, calls, runs) =>
         if calls == [] then content != "" && |block| == 1 && SaidByAssistant(block[0], content)
         else exists k: nat :: GroupSays(content, calls, runs, [], k, 0, block)
       case _ => false
  }

  lemma {:induction false} GroupIsSaid(content: string, calls: seq<ToolCall>, runs: seq<string>, steering: seq<string>,
                                       k: nat, n: nat, block: seq<Message>)
    requires GroupThenSteering(content, calls, runs, steering, k, n, block)
    ensures GroupSays(content, calls, runs, steering, k, n, block)
  {
    var results := Results(calls, runs[..k] + Interrupted(|calls| - k));
    var said := Steered(steering)[..n];
    ResultsSay(calls, runs, k);
    assert forall j | 0 <= j < n :: SteeringSaid(said[j], steering[j]);
    assert |results| == |calls| && |said| == n;
    assert CallsMade(AssistantMessage(content, calls), content, calls);
    hide Results, Steered, Interrupted, SteeringSaid, ResultGiven, CallsMade, AssistantMessage;
    assert block[1..] == results + said && (results + said)[|calls|..] == said;
    assert forall i | 0 <= i < |calls| :: (results + said)[i] == results[i];
  }

  lemma {:induction false} ResultsSay(calls: seq<ToolCall>, runs: seq<string>, k: nat)
    requires k <= |calls| == |runs|
    ensures var results := Results(calls, runs[..k] + Interrupted(|calls| - k));
      forall i | 0 <= i < |calls| :: ResultGiven(results[i], calls[i].id, if i < k then runs[i] else "error: interrupted")
  {
  }

  /** Every response leaves what it says. */
  lemma {:induction false} LeavesWhatIsSaid(r: Response, block: seq<Message>)
    requires Leaves(r, block)
    ensures Says(r, block)
  {
    hide GroupThenSteering, GroupSays;
    match r
    case ToolCalls(content, calls, runs, _, steering) =>
      if block != [] {
        var k: nat, n: nat :| GroupThenSteering(content, calls, runs, steering, k, n, block);
        GroupIsSaid(content, calls, runs, steering, k, n, block);
      }
    case Streamed(content, calls, runs) =>
      if block != [] && calls != [] {
        var k: nat :| GroupThenSteering(content, calls, runs, [], k, 0, block);
        GroupIsSaid(content, calls, runs, [], k, 0, block);
      }
    case _ =>
  }

  /**
   A turn adds the request first, then what its responses say, in order, and last some of the steering messages
   that were left over; if even the request was not stored, only the latter.
   */
  lemma {:induction false} TurnSays(before: seq<Message>, after: seq<Message>, userMessage: string, responses: seq<Response>,
                                    undelivered: seq<string>, blocks: seq<seq<Message>>, stored: seq<bool>)
    requires TurnAdds(before, after, userMessage, responses, undelivered, blocks, stored)
    ensures forall i | 0 <= i < |blocks| :: Says(responses[i], blocks[i])
    ensures exists request, steering ::
      && after == before + request + steering
      && (request == [] || (exists m :: SaidByUser(m, userMessage) && request == [m] + Transcript(blocks)))
      && Subseq(steering, Steered(undelivered))
    ensures forall j | 0 <= j < |undelivered| :: SteeringSaid(Steered(undelivered)[j], undelivered[j])
  {
    hide Leaves, Says, Subseq;
    forall i | 0 <= i < |blocks|
      ensures Says(responses[i], blocks[i])
    {
      LeavesWhatIsSaid(responses[i], blocks[i]);
    }
    var steering := Flagged(Steered(undelivered), stored);
    FlaggedSubseq(Steered(undelivered), stored);
    if after == before + steering {
      assert before + [] == before;
      assert after == before + [] + steering;
    } else {
      var m := UserMessage(userMessage);
      assert SaidByUser(m, userMessage);
      Assoc(before, [m], Transcript(blocks));
      assert after == before + ([m] + Transcript(blocks)) + steering;
    }
  }

  lemma {:induction false} FlaggedSubseq<T>(s: seq<T>, flags: seq<bool>)
    requires |s| == |flags|
    ensures Subseq(Flagged(s, flags), s)
  {
    if s != [] {
      var n := |s| - 1;
      FlaggedSubseq(s[..n], flags[..n]);
      assert s == s[..n] + [s[n]];
      if flags[n] {
        SubseqSnoc(Flagged(s[..n], flags[..n]), s[..n], s[n]);
      } else {
        OneSkipped([s[n]]);
        SubseqConcat(Flagged(s[..n], flags[..n]), s[..n], [], [s[n]]);
        assert Flagged(s[..n], flags[..n]) + [] == Flagged(s[..n], flags[..n]);
      }
    }
  }

  lemma {:induction false} OneSkipped<T>(s: seq<T>)
    ensures Subseq([], s)
  {
  }

  // ---- crash residue -------------------------------------------------------------------------------

  /** The positions of the calls that the self-heal answers. */
  ghost predicate Open(calls: seq<ToolCall>, answered: set<CallId>, at: seq<nat>) {
    Increasing(at) && forall p: nat :: p in at <==> p < |calls| && calls[p].id != "" && calls[p].id !in answered
  }

  /** The reported calls are those of the group without a result, each as it is and in call order. */
  lemma {:induction false} MissingAre(calls: seq<ToolCall>, answered: set<CallId>) returns (at: seq<nat>)
    ensures Open(calls, answered, at) && forall k | 0 <= k < |at| :: at[k] < |calls|
    ensures Missing(calls, answered) == seq(|at|, k requires 0 <= k < |at| => calls[at[k]])
  {
    at := [];
    if calls != [] {
      var n := |calls| - 1;
      var before := MissingAre(calls[..n], answered);
      assert calls == calls[..n] + [calls[n]];
      at := before;
      if calls[n].id != "" && calls[n].id !in answered {
        IncreasingSnoc(before, n);
        at := before + [n];
      }
    }
  }
}
