/**
 What the translated turns say, in terms of the messages: which texts, calls and results appear, on which side
 and in which order.
 */
module AnthropicContents {
  import opened Sequences
  import opened Payload
  import opened Anthropic

  // ---- one message -----------------------------------------------------------------------

  /** The positions of the function calls, in order; an empty type counts as a function. */
  ghost predicate FunctionPositions(calls: seq<ToolCall>, at: seq<nat>) {
    Increasing(at) && forall p: nat :: p in at <==> p < |calls| && !calls[p].kind.OtherCall?
  }

  function UsesAt(calls: seq<ToolCall>, at: seq<nat>): seq<(bool, Block)>
    requires forall k | 0 <= k < |at| :: at[k] < |calls|
  {
    seq(|at|, k requires 0 <= k < |at| => (false, ToolUse(calls[at[k]].id, calls[at[k]].name, calls[at[k]].args)))
  }

  /** The blocks that one message becomes, each with its side (true for the user's). */
  ghost predicate Shows(m: Message, flat: seq<(bool, Block)>) {
    match m.role
    case User => flat == if m.content == "" then [] else [(true, TextBlock(m.content))]
    case Tool => flat == if m.toolCallId == "" then [] else [(true, ToolResult(m.toolCallId, m.content))]
    case Assistant =>
      exists at ::
        && FunctionPositions(m.calls, at) && (forall k | 0 <= k < |at| :: at[k] < |m.calls|)
        && flat == (if m.content == "" then [] else [(false, TextBlock(m.content))]) + UsesAt(m.calls, at)
    case _ => flat == []
  }

  /** The blocks of all messages, one message after the other. */
  ghost predicate ShowsAll(msgs: seq<Message>, flat: seq<(bool, Block)>) {
    if msgs == [] then flat == []
    else
      exists k: nat | k <= |flat| ::
        ShowsAll(msgs[..|msgs| - 1], flat[..k]) && Shows(msgs[|msgs| - 1], flat[k..])
  }

  lemma {:induction false} CallsShown(calls: seq<ToolCall>) returns (at: seq<nat>)
    ensures FunctionPositions(calls, at) && forall k | 0 <= k < |at| :: at[k] < |calls|
    ensures Tagged(false, CallBlocks(calls)) == UsesAt(calls, at)
  {
    at := [];
    if calls != [] {
      var n := |calls| - 1;
      var before := CallsShown(calls[..n]);
      at := before;
      if !calls[n].kind.OtherCall? {
        IncreasingSnoc(before, n);
        at := before + [n];
        TaggedSnoc(false, CallBlocks(calls[..n]), ToolUse(calls[n].id, calls[n].name, calls[n].args));
      } else {
        assert CallBlocks(calls[..n]) + [] == CallBlocks(calls[..n]);
      }
    }
  }

  lemma {:induction false} AssistantShown(m: Message)
    requires m.role.Assistant?
    ensures Shows(m, Tagged(false, Blocks(m)))
  {
    hide FunctionPositions;
    var at := CallsShown(m.calls);
    var text, uses := Tagged(false, TextBlocks(m.content)), Tagged(false, CallBlocks(m.calls));
    hide CallBlocks;
    assert Tagged(false, Blocks(m)) == text + uses;
    assert text == if m.content == "" then [] else [(false, TextBlock(m.content))];
  }

  lemma {:induction false} MessageShown(m: Message)
    ensures Shows(m, Tagged(!m.role.Assistant?, Blocks(m)))
  {
    if m.role.Assistant? {
      AssistantShown(m);
    } else {
      hide FunctionPositions, CallBlocks;
      var flat := Tagged(true, Blocks(m));
      assert m.role.User? ==> flat == if m.content == "" then [] else [(true, TextBlock(m.content))];
      assert m.role.Tool? ==> flat == if m.toolCallId == "" then [] else [(true, ToolResult(m.toolCallId, m.content))];
    }
  }

  lemma {:induction false} SourceShows(msgs: seq<Message>)
    ensures ShowsAll(msgs, Source(msgs))
  {
    if msgs != [] {
      var n := |msgs| - 1;
      SourceShows(msgs[..n]);
      MessageShown(msgs[n]);
      var front, last := Source(msgs[..n]), Tagged(!msgs[n].role.Assistant?, Blocks(msgs[n]));
      assert Source(msgs)[..|front|] == front && Source(msgs)[|front|..] == last;
    }
  }

  // ---- the turns ----------------------------------------------------------------------------

  lemma {:induction false} FirstSide(out: seq<Turn>)
    requires Alternating(out)
    ensures Flat(out) == [] <==> out == []
    ensures out != [] ==> Flat(out)[0].0 == out[0].user
  {
    if out != [] {
      var n := |out| - 1;
      assert forall k | 0 <= k < n :: out[..n][k] == out[k];
      FirstSide(out[..n]);
    }
  }

  /**
   The blocks of the turns are those of the messages, message by message; a user text comes first exactly
   when they would begin with the assistant.
   */
  lemma {:induction false} TurnsShowMessages(msgs: seq<Message>)
    ensures exists flat: seq<(bool, Block)> ::
      && ShowsAll(msgs, flat)
      && Flat(WithPreamble(Translated(msgs))) ==
           (if flat != [] && !flat[0].0 then [(true, TextBlock("(continue)"))] else []) + flat
  {
    var turns := Translated(msgs);
    TranslatedKeeps(msgs);
    SourceShows(msgs);
    FirstSide(turns);
    if turns != [] && !turns[0].user {
      FlatConcat([PREAMBLE], turns);
      assert Flat([PREAMBLE][..0]) == [];
      assert Flat([PREAMBLE]) == [(true, TextBlock("(continue)"))];
    } else {
      assert [] + Source(msgs) == Source(msgs);
    }
  }

  // ---- texts, calls and results on their own -----------------------------------------------------

  function Texts(flat: seq<(bool, Block)>): seq<(bool, Block)> {
    if flat == [] then []
    else Texts(flat[..|flat| - 1]) + (if flat[|flat| - 1].1.TextBlock? then [flat[|flat| - 1]] else [])
  }

  function Uses(flat: seq<(bool, Block)>): seq<(bool, Block)> {
    if flat == [] then []
    else Uses(flat[..|flat| - 1]) + (if flat[|flat| - 1].1.ToolUse? then [flat[|flat| - 1]] else [])
  }

  function Results(flat: seq<(bool, Block)>): seq<(bool, Block)> {
    if flat == [] then []
    else Results(flat[..|flat| - 1]) + (if flat[|flat| - 1].1.ToolResult? then [flat[|flat| - 1]] else [])
  }

  /** The non-empty texts of users and assistants, each with its side. */
  function SaidTexts(msgs: seq<Message>): seq<(bool, Block)> {
    if msgs == [] then []
    else
      var m := msgs[|msgs| - 1];
      SaidTexts(msgs[..|msgs| - 1]) +
      (if (m.role.User? || m.role.Assistant?) && m.content != "" then [(m.role.User?, TextBlock(m.content))] else [])
  }

  function FunctionUse(c: ToolCall): seq<(bool, Block)> {
    if c.kind.OtherCall? then [] else [(false, ToolUse(c.id, c.name, c.args))]
  }

  function FunctionUses(calls: seq<ToolCall>): seq<(bool, Block)> {
    if calls == [] then [] else FunctionUse(calls[0]) + FunctionUses(calls[1..])
  }

  /** The function calls of the assistant messages. */
  function CallsMade(msgs: seq<Message>): seq<(bool, Block)> {
    if msgs == [] then []
    else
      var m := msgs[|msgs| - 1];
      CallsMade(msgs[..|msgs| - 1]) + (if m.role.Assistant? then FunctionUses(m.calls) else [])
  }

  /** The results that name a call. */
  function ResultsGiven(msgs: seq<Message>): seq<(bool, Block)> {
    if msgs == [] then []
    else
      var m := msgs[|msgs| - 1];
      ResultsGiven(msgs[..|msgs| - 1]) +
      (if m.role.Tool? && m.toolCallId != "" then [(true, ToolResult(m.toolCallId, m.content))] else [])
  }

  lemma {:induction false} PartsConcat(a: seq<(bool, Block)>, b: seq<(bool, Block)>)
    ensures Texts(a + b) == Texts(a) + Texts(b)
    ensures Uses(a + b) == Uses(a) + Uses(b)
    ensures Results(a + b) == Results(a) + Results(b)
  {
    if b == [] {
      assert a + b == a;
    } else {
      var n := |b| - 1;
      assert (a + b)[..|a| + n] == a + b[..n] && (a + b)[|a| + n] == b[n];
      PartsConcat(a, b[..n]);
      Assoc(Texts(a), Texts(b[..n]), if b[n].1.TextBlock? then [b[n]] else []);
      Assoc(Uses(a), Uses(b[..n]), if b[n].1.ToolUse? then [b[n]] else []);
      Assoc(Results(a), Results(b[..n]), if b[n].1.ToolResult? then [b[n]] else []);
    }
  }

  lemma {:induction false} OnePart(user: bool, b: Block)
    ensures Texts([(user, b)]) == if b.TextBlock? then [(user, b)] else []
    ensures Uses([(user, b)]) == if b.ToolUse? then [(user, b)] else []
    ensures Results([(user, b)]) == if b.ToolResult? then [(user, b)] else []
  {
    assert [(user, b)][..0] == [];
  }

  lemma {:induction false} UsesSnoc(calls: seq<ToolCall>, c: ToolCall)
    ensures FunctionUses(calls + [c]) == FunctionUses(calls) + FunctionUse(c)
  {
    hide FunctionUse;
    if calls == [] {
      assert [c][1..] == [] && [] + [c] == [c];
      assert FunctionUse(c) + [] == FunctionUse(c) && [] + FunctionUse(c) == FunctionUse(c);
    } else {
      assert (calls + [c])[0] == calls[0] && (calls + [c])[1..] == calls[1..] + [c];
      UsesSnoc(calls[1..], c);
      Assoc(FunctionUse(calls[0]), FunctionUses(calls[1..]), FunctionUse(c));
    }
  }

  lemma {:induction false} CallParts(calls: seq<ToolCall>)
    ensures var flat := Tagged(false, CallBlocks(calls));
      Texts(flat) == [] && Uses(flat) == FunctionUses(calls) && Results(flat) == []
  {
    hide Texts, Uses, Results;
    if calls == [] {
      NoParts();
      assert Tagged(false, CallBlocks(calls)) == [];
    } else {
      var n := |calls| - 1;
      var c, front := calls[n], Tagged(false, CallBlocks(calls[..n]));
      CallParts(calls[..n]);
      assert calls == calls[..n] + [c];
      UsesSnoc(calls[..n], c);
      if c.kind.OtherCall? {
        assert CallBlocks(calls) == CallBlocks(calls[..n]);
      } else {
        var b := ToolUse(c.id, c.name, c.args);
        TaggedSnoc(false, CallBlocks(calls[..n]), b);
        PartsConcat(front, [(false, b)]);
        OnePart(false, b);
      }
    }
  }

  lemma {:induction false} NoParts()
    ensures Texts([]) == [] && Uses([]) == [] && Results([]) == []
  {
  }

  lemma {:induction false} MessageParts(m: Message)
    ensures var flat := Tagged(!m.role.Assistant?, Blocks(m));
      && Texts(flat) == (if (m.role.User? || m.role.Assistant?) && m.content != "" then [(m.role.User?, TextBlock(m.content))] else [])
      && Uses(flat) == (if m.role.Assistant? then FunctionUses(m.calls) else [])
      && Results(flat) == (if m.role.Tool? && m.toolCallId != "" then [(true, ToolResult(m.toolCallId, m.content))] else [])
  {
    hide Texts, Uses, Results, FunctionUses;
    NoParts();
    OnePart(!m.role.Assistant?, TextBlock(m.content));
    OnePart(true, ToolResult(m.toolCallId, m.content));
    var flat := Tagged(!m.role.Assistant?, Blocks(m));
    if m.role.Assistant? {
      var text, uses := Tagged(false, TextBlocks(m.content)), Tagged(false, CallBlocks(m.calls));
      assert flat == text + uses;
      PartsConcat(text, uses);
      CallParts(m.calls);
      assert text == if m.content == "" then [] else [(false, TextBlock(m.content))];
    } else if m.role.User? {
      assert flat == if m.content == "" then [] else [(true, TextBlock(m.content))];
    } else if m.role.Tool? {
      assert flat == if m.toolCallId == "" then [] else [(true, ToolResult(m.toolCallId, m.content))];
    } else {
      assert flat == [];
    }
  }

  lemma {:induction false} SourceParts(msgs: seq<Message>)
    ensures Texts(Source(msgs)) == SaidTexts(msgs)
    ensures Uses(Source(msgs)) == CallsMade(msgs)
    ensures Results(Source(msgs)) == ResultsGiven(msgs)
  {
    hide Texts, Uses, Results, FunctionUses, Tagged, Blocks;
    if msgs == [] {
      NoParts();
    } else {
      var n := |msgs| - 1;
      SourceParts(msgs[..n]);
      MessageParts(msgs[n]);
      PartsConcat(Source(msgs[..n]), Tagged(!msgs[n].role.Assistant?, Blocks(msgs[n])));
    }
  }

  /**
   The texts of the turns are the non-empty contents of user and assistant messages, the calls their function
   calls and the results those that name a call, each in order and on its side; the preamble is the only addition.
   */
  lemma {:induction false} TurnsKeepContents(msgs: seq<Message>)
    ensures var out := WithPreamble(Translated(msgs));
      && Texts(Flat(out)) in {SaidTexts(msgs), [(true, TextBlock("(continue)"))] + SaidTexts(msgs)}
      && Uses(Flat(out)) == CallsMade(msgs)
      && Results(Flat(out)) == ResultsGiven(msgs)
  {
    hide Texts, Uses, Results;
    SplitAlternates(msgs);
    SourceParts(msgs);
    var preamble := (true, TextBlock("(continue)"));
    PartsConcat([preamble], Source(msgs));
    OnePart(true, TextBlock("(continue)"));
    assert [] + CallsMade(msgs) == CallsMade(msgs) && [] + ResultsGiven(msgs) == ResultsGiven(msgs);
  }

  // ---- the system prompt -----------------------------------------------------------------------

  /** The positions of the system messages with a text. */
  ghost predicate SystemPositions(msgs: seq<Message>, at: seq<nat>) {
    Increasing(at) && forall p: nat :: p in at <==> p < |msgs| && msgs[p].role.System? && msgs[p].content != ""
  }

  /** The system prompt is made of the texts of the system messages, in order. */
  lemma {:induction false} SystemPartsAre(msgs: seq<Message>) returns (at: seq<nat>)
    ensures SystemPositions(msgs, at) && |SystemParts(msgs)| == |at|
    ensures forall k | 0 <= k < |at| :: at[k] < |msgs| && SystemParts(msgs)[k] == msgs[at[k]].content
  {
    at := [];
    if msgs != [] {
      var n := |msgs| - 1;
      at := SystemPartsAre(msgs[..n]);
      assert forall p | 0 <= p < n :: msgs[..n][p] == msgs[p];
      if msgs[n].role.System? && msgs[n].content != "" {
        IncreasingSnoc(at, n);
        at := at + [n];
      }
    }
  }
}
