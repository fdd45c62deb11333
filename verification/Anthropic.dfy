/**
 Translation of the flat conversation into strictly alternating user and assistant turns of
 content blocks.
 */
module Anthropic {
  import opened Sequences
  import opened Payload

  datatype Block = TextBlock(text: string) | ToolUse(id: CallId, name: string, args: string) | ToolResult(id: CallId, content: string)

  datatype Turn = Turn(user: bool, blocks: seq<Block>)

  /** The block of one call; other call types are skipped. */
  function CallBlocks(calls: seq<ToolCall>): seq<Block> {
    if calls == [] then []
    else
      var n := |calls| - 1;
      CallBlocks(calls[..n]) +
      (if calls[n].kind.OtherCall? then [] else [ToolUse(calls[n].id, calls[n].name, calls[n].args)])
  }

  function TextBlocks(text: string): seq<Block> {
    if text == "" then [] else [TextBlock(text)]
  }

  /** The blocks of one message; `content` of a user message is its flattened text. */
  function Blocks(m: Message): seq<Block> {
    match m.role
    case User => TextBlocks(m.content)
    case Assistant => TextBlocks(m.content) + CallBlocks(m.calls)
    case Tool => if m.toolCallId == "" then [] else [ToolResult(m.toolCallId, m.content)]
    case _ => []
  }

  function Push(out: seq<Turn>, user: bool, b: Block): seq<Turn> {
    if out != [] && out[|out| - 1].user == user then
      out[|out| - 1 := Turn(user, out[|out| - 1].blocks + [b])]
    else out + [Turn(user, [b])]
  }

  function PushAll(out: seq<Turn>, user: bool, blocks: seq<Block>): seq<Turn> {
    if blocks == [] then out
    else Push(PushAll(out, user, blocks[..|blocks| - 1]), user, blocks[|blocks| - 1])
  }

  function Translated(msgs: seq<Message>): seq<Turn> {
    if msgs == [] then []
    else
      var n := |msgs| - 1;
      PushAll(Translated(msgs[..n]), !msgs[n].role.Assistant?, Blocks(msgs[n]))
  }

  const PREAMBLE := Turn(true, [TextBlock("(continue)")])

  /** The API wants a user turn first. */
  function WithPreamble(out: seq<Turn>): seq<Turn> {
    if out != [] && !out[0].user then [PREAMBLE] + out else out
  }

  function SystemParts(msgs: seq<Message>): seq<string> {
    if msgs == [] then []
    else
      var n := |msgs| - 1;
      SystemParts(msgs[..n]) + (if msgs[n].role.System? && msgs[n].content != "" then [msgs[n].content] else [])
  }

  method SplitMessages(msgs: seq<Message>) returns (system: seq<string>, out: seq<Turn>)
    ensures system == SystemParts(msgs) && out == WithPreamble(Translated(msgs))
  {
    system, out := [], [];
    for i := 0 to |msgs|
      invariant system == SystemParts(msgs[..i]) && out == Translated(msgs[..i])
    {
      var m := msgs[i];
      assert msgs[..i + 1][..i] == msgs[..i];
      match m.role
      case System =>
        if m.content != "" {
          system := system + [m.content];
        }
      case User =>
        if m.content != "" {
          PushAllSnoc(out, true, [], TextBlock(m.content));
          out := Push(out, true, TextBlock(m.content));
        }
      case Assistant =>
        out := PushAssistant(out, m);
      case Tool =>
        if m.toolCallId != "" {
          PushAllSnoc(out, true, [], ToolResult(m.toolCallId, m.content));
          out := Push(out, true, ToolResult(m.toolCallId, m.content));
        }
      case UnknownRole =>
    }
    assert msgs[..|msgs|] == msgs;
    if |out| > 0 && !out[0].user {
      out := [PREAMBLE] + out;
    }
  }

  lemma {:induction false} PushAllSnoc(out: seq<Turn>, user: bool, blocks: seq<Block>, b: Block)
    ensures PushAll(out, user, blocks + [b]) == Push(PushAll(out, user, blocks), user, b)
  {
    assert (blocks + [b])[..|blocks|] == blocks;
  }

  method PushAssistant(before: seq<Turn>, m: Message) returns (out: seq<Turn>)
    requires m.role.Assistant?
    ensures out == PushAll(before, false, Blocks(m))
  {
    out := before;
    if m.content != "" {
      PushAllSnoc(out, false, [], TextBlock(m.content));
      out := Push(out, false, TextBlock(m.content));
    }
    ghost var text := TextBlocks(m.content);
    assert out == PushAll(before, false, text);
    for k := 0 to |m.calls|
      invariant out == PushAll(before, false, text + CallBlocks(m.calls[..k]))
    {
      assert m.calls[..k + 1][..k] == m.calls[..k];
      var call := m.calls[k];
      ghost var blocks := text + CallBlocks(m.calls[..k]);
      if !call.kind.OtherCall? {
        var b := ToolUse(call.id, call.name, call.args);
        Assoc(text, CallBlocks(m.calls[..k]), [b]);
        PushAllSnoc(before, false, blocks, b);
        out := Push(out, false, b);
      } else {
        assert CallBlocks(m.calls[..k]) + [] == CallBlocks(m.calls[..k]);
      }
    }
    assert m.calls[..|m.calls|] == m.calls;
  }

  // ---- alternation and conservation, for every list -----------------------------------

  ghost predicate Alternating(out: seq<Turn>) {
    && (forall k | 0 <= k < |out| :: out[k].blocks != [])
    && (forall j, k | 0 <= j < k < |out| && k == j + 1 :: out[j].user != out[k].user)
  }

  function Tagged(user: bool, blocks: seq<Block>): seq<(bool, Block)> {
    seq(|blocks|, i requires 0 <= i < |blocks| => (user, blocks[i]))
  }

  /** All blocks of the turns, in order, each with its role. */
  function Flat(out: seq<Turn>): seq<(bool, Block)> {
    if out == [] then []
    else Flat(out[..|out| - 1]) + Tagged(out[|out| - 1].user, out[|out| - 1].blocks)
  }

  /** All blocks of the messages, in order, each with its role. */
  function Source(msgs: seq<Message>): seq<(bool, Block)> {
    if msgs == [] then []
    else
      var n := |msgs| - 1;
      Source(msgs[..n]) + Tagged(!msgs[n].role.Assistant?, Blocks(msgs[n]))
  }

  lemma {:induction false} PushKeeps(out: seq<Turn>, user: bool, b: Block)
    requires Alternating(out)
    ensures Alternating(Push(out, user, b))
    ensures Flat(Push(out, user, b)) == Flat(out) + [(user, b)]
  {
    hide Flat;
    PushFlat(out, user, b);
  }

  lemma {:induction false} TaggedSnoc(user: bool, blocks: seq<Block>, b: Block)
    ensures Tagged(user, blocks + [b]) == Tagged(user, blocks) + [(user, b)]
  {
  }

  lemma {:induction false} FlatSnoc(out: seq<Turn>, t: Turn)
    ensures Flat(out + [t]) == Flat(out) + Tagged(t.user, t.blocks)
  {
    assert (out + [t])[..|out|] == out;
  }

  lemma {:induction false} PushFlat(out: seq<Turn>, user: bool, b: Block)
    ensures Flat(Push(out, user, b)) == Flat(out) + [(user, b)]
  {
    hide Flat, Tagged;
    if out != [] && out[|out| - 1].user == user {
      var front, last := out[..|out| - 1], out[|out| - 1];
      assert out == front + [last];
      assert Push(out, user, b) == front + [Turn(user, last.blocks + [b])];
      FlatSnoc(front, last);
      FlatSnoc(front, Turn(user, last.blocks + [b]));
      TaggedSnoc(user, last.blocks, b);
      Assoc(Flat(front), Tagged(user, last.blocks), [(user, b)]);
    } else {
      FlatSnoc(out, Turn(user, [b]));
      TaggedSnoc(user, [], b);
      NoTags(user);
      assert [] + [b] == [b] && [] + [(user, b)] == [(user, b)];
    }
  }

  lemma {:induction false} NoTags(user: bool)
    ensures Tagged(user, []) == []
  {
  }

  lemma {:induction false} PushAllKeeps(out: seq<Turn>, user: bool, blocks: seq<Block>)
    requires Alternating(out)
    ensures Alternating(PushAll(out, user, blocks))
    ensures Flat(PushAll(out, user, blocks)) == Flat(out) + Tagged(user, blocks)
  {
    if blocks != [] {
      var n := |blocks| - 1;
      var front := PushAll(out, user, blocks[..n]);
      PushAllKeeps(out, user, blocks[..n]);
      PushKeeps(front, user, blocks[n]);
      assert Tagged(user, blocks) == Tagged(user, blocks[..n]) + [(user, blocks[n])];
      Assoc(Flat(out), Tagged(user, blocks[..n]), [(user, blocks[n])]);
    } else {
      assert Flat(out) + Tagged(user, []) == Flat(out);
    }
  }

  lemma {:induction false} FlatConcat(a: seq<Turn>, b: seq<Turn>)
    ensures Flat(a + b) == Flat(a) + Flat(b)
  {
    if b == [] {
      assert a + b == a;
    } else {
      var n := |b| - 1;
      assert (a + b)[..|a| + n] == a + b[..n];
      FlatConcat(a, b[..n]);
      Assoc(Flat(a), Flat(b[..n]), Tagged(b[n].user, b[n].blocks));
    }
  }

  lemma {:induction false} TranslatedKeeps(msgs: seq<Message>)
    ensures Alternating(Translated(msgs)) && Flat(Translated(msgs)) == Source(msgs)
  {
    if msgs != [] {
      var n := |msgs| - 1;
      TranslatedKeeps(msgs[..n]);
      PushAllKeeps(Translated(msgs[..n]), !msgs[n].role.Assistant?, Blocks(msgs[n]));
    }
  }

  /** Turns alternate strictly from a user turn; no block is lost, duplicated or reordered. */
  lemma {:induction false} SplitAlternates(msgs: seq<Message>)
    ensures var out := WithPreamble(Translated(msgs));
      && Alternating(out) && (out != [] ==> out[0].user)
      && (Flat(out) == Source(msgs) || Flat(out) == [(true, TextBlock("(continue)"))] + Source(msgs))
  {
    var turns := Translated(msgs);
    TranslatedKeeps(msgs);
    if turns != [] && !turns[0].user {
      FlatConcat([PREAMBLE], turns);
      assert Flat([PREAMBLE][..0]) == [];
      assert Flat([PREAMBLE]) == [(true, TextBlock("(continue)"))];
    }
  }

  // ---- tool_use blocks and their results, for valid lists -------------------------------

  function UseIds(blocks: seq<Block>): seq<CallId> {
    if blocks == [] then []
    else
      var n := |blocks| - 1;
      UseIds(blocks[..n]) + (if blocks[n].ToolUse? then [blocks[n].id] else [])
  }

  /** IDs of all tool_result blocks. */
  function AllResultIds(blocks: seq<Block>): seq<CallId> {
    if blocks == [] then []
    else
      var n := |blocks| - 1;
      AllResultIds(blocks[..n]) + (if blocks[n].ToolResult? then [blocks[n].id] else [])
  }

  /** tool_result blocks stand at the head only. */
  predicate ResultsFirst(blocks: seq<Block>) {
    forall i, j | 0 <= i < j < |blocks| :: blocks[j].ToolResult? ==> blocks[i].ToolResult?
  }

  /** User turns carry no calls, assistant turns no results. */
  predicate WellPlaced(t: Turn) {
    if t.user then UseIds(t.blocks) == [] && ResultsFirst(t.blocks) else AllResultIds(t.blocks) == []
  }

  /** The calls of the turn before k. */
  function CallsBefore(out: seq<Turn>, k: nat): seq<CallId>
    requires k <= |out|
  {
    if k == 0 then [] else UseIds(out[k - 1].blocks)
  }

  /** The results at the head of turn k answer exactly the calls of turn k - 1. */
  predicate AnsweredAt(out: seq<Turn>, k: nat)
    requires k < |out|
  {
    multiset(AllResultIds(out[k].blocks)) == multiset(CallsBefore(out, k))
  }

  /**
   Each turn's calls are answered one-for-one at the head of the very next turn, and the
   last turn has no open call.
   */
  ghost predicate AllAnswered(out: seq<Turn>) {
    && (forall k | 0 <= k < |out| :: WellPlaced(out[k]) && AnsweredAt(out, k))
    && (out != [] ==> UseIds(out[|out| - 1].blocks) == [])
  }

  /** The first n turns are well placed and answered. */
  ghost predicate FrontAnswered(out: seq<Turn>, n: nat)
    requires n <= |out|
  {
    n == 0 || (FrontAnswered(out, n - 1) && WellPlaced(out[n - 1]) && AnsweredAt(out, n - 1))
  }

  lemma {:induction false} FrontAnsweredAt(out: seq<Turn>, n: nat)
    requires n <= |out| && FrontAnswered(out, n)
    ensures forall k | 0 <= k < n :: WellPlaced(out[k]) && AnsweredAt(out, k)
  {
    hide WellPlaced, AnsweredAt;
    if n > 0 {
      FrontAnsweredAt(out, n - 1);
    }
  }

  /** The last turn of a prefix whose last group still waits for the given calls. */
  ghost predicate TailWaits(before: seq<CallId>, last: Turn, ids: set<CallId>) {
    if !last.user then
      multiset(UseIds(last.blocks)) == multiset(ids) && multiset(before) == multiset{}
    else
      && multiset(AllResultIds(last.blocks)) + multiset(ids) == multiset(before)
      && (ids != {} ==> forall b | b in last.blocks :: b.ToolResult?)
  }

  ghost predicate Waiting(out: seq<Turn>, ids: set<CallId>) {
    if out == [] then ids == {}
    else
      var n := |out| - 1;
      FrontAnswered(out, n) && WellPlaced(out[n]) && TailWaits(CallsBefore(out, n), out[n], ids)
  }

  lemma {:induction false} BlockSnoc(blocks: seq<Block>, b: Block)
    ensures UseIds(blocks + [b]) == UseIds(blocks) + (if b.ToolUse? then [b.id] else [])
    ensures AllResultIds(blocks + [b]) == AllResultIds(blocks) + (if b.ToolResult? then [b.id] else [])
  {
    assert (blocks + [b])[..|blocks|] == blocks;
  }

  lemma {:induction false} CallBlocksIds(calls: seq<ToolCall>)
    requires forall c | c in calls :: !c.kind.OtherCall?
    ensures UseIds(CallBlocks(calls)) == Ids(calls)
    ensures forall b | b in CallBlocks(calls) :: b.ToolUse?
    ensures calls != [] ==> CallBlocks(calls) != []
  {
    if calls != [] {
      hide UseIds;
      var n := |calls| - 1;
      CallBlocksIds(calls[..n]);
      BlockSnoc(CallBlocks(calls[..n]), ToolUse(calls[n].id, calls[n].name, calls[n].args));
      assert Ids(calls) == Ids(calls[..n]) + [calls[n].id];
      assert calls[n] in calls;
    }
  }

  lemma {:induction false} FrontDepends(out: seq<Turn>, more: seq<Turn>, n: nat)
    requires n <= |out| && n <= |more| && out[..n] == more[..n] && FrontAnswered(out, n)
    ensures FrontAnswered(more, n)
    ensures CallsBefore(more, n) == CallsBefore(out, n)
  {
    if n > 0 {
      assert out[n - 1] == out[..n][n - 1] == more[n - 1];
      assert out[..n - 1] == out[..n][..n - 1] == more[..n - 1];
      FrontDepends(out, more, n - 1);
    }
  }

  /** A push into the last turn: only that turn's own conditions are to be checked. */
  lemma {:induction false} MergeWaits(out: seq<Turn>, b: Block, ids: set<CallId>, after: set<CallId>) returns (pushed: seq<Turn>)
    requires out != [] && FrontAnswered(out, |out| - 1)
    requires var n, t := |out| - 1, Turn(out[|out| - 1].user, out[|out| - 1].blocks + [b]);
      WellPlaced(t) && TailWaits(CallsBefore(out, n), t, after)
    ensures pushed == Push(out, out[|out| - 1].user, b) && pushed != []
    ensures pushed[|pushed| - 1].user == out[|out| - 1].user && Waiting(pushed, after)
  {
    var n := |out| - 1;
    pushed := Push(out, out[n].user, b);
    assert pushed[..n] == out[..n];
    FrontDepends(out, pushed, n);
  }

  /** A push that opens a turn: the previous one must have nothing left to wait for. */
  lemma {:induction false} OpenWaits(out: seq<Turn>, user: bool, b: Block, after: set<CallId>) returns (pushed: seq<Turn>)
    requires out != [] ==> out[|out| - 1].user != user
    requires FrontAnswered(out, |out|)
    requires WellPlaced(Turn(user, [b])) && TailWaits(CallsBefore(out, |out|), Turn(user, [b]), after)
    ensures pushed == Push(out, user, b) && pushed != []
    ensures pushed[|pushed| - 1].user == user && Waiting(pushed, after)
  {
    pushed := out + [Turn(user, [b])];
    assert pushed[..|out|] == out[..|out|];
    FrontDepends(out, pushed, |out|);
  }

  /** Nothing waits at the end of a user turn, and an assistant turn has nothing to answer. */
  lemma {:induction false} WholeFront(out: seq<Turn>, ids: set<CallId>)
    requires Waiting(out, ids) && (ids == {} || (out != [] && !out[|out| - 1].user))
    ensures FrontAnswered(out, |out|)
  {
    if out != [] {
      var n := |out| - 1;
      if out[n].user {
        assert multiset(AllResultIds(out[n].blocks)) + multiset(ids) == multiset(AllResultIds(out[n].blocks));
      }
      assert AnsweredAt(out, n);
    }
  }

  lemma {:induction false} OneBlock(b: Block)
    ensures UseIds([b]) == if b.ToolUse? then [b.id] else []
    ensures AllResultIds([b]) == if b.ToolResult? then [b.id] else []
  {
    BlockSnoc([], b);
    assert [] + [b] == [b];
  }

  lemma {:induction false} PushTextWaits(out: seq<Turn>, user: bool, text: string) returns (pushed: seq<Turn>)
    requires Waiting(out, {})
    ensures pushed == Push(out, user, TextBlock(text)) && Waiting(pushed, {})
  {
    hide FrontAnswered, UseIds, AllResultIds;
    var b := TextBlock(text);
    OneBlock(b);
    if out != [] && out[|out| - 1].user == user {
      BlockSnoc(out[|out| - 1].blocks, b);
      pushed := MergeWaits(out, b, {}, {});
    } else {
      WholeFront(out, {});
      LastCalls(out);
      pushed := OpenWaits(out, user, b, {});
    }
  }

  lemma {:induction false} LastCalls(out: seq<Turn>)
    requires Waiting(out, {})
    ensures CallsBefore(out, |out|) == []
  {
    if out != [] && !out[|out| - 1].user {
      assert multiset(UseIds(out[|out| - 1].blocks)) == multiset{};
      NoElements(UseIds(out[|out| - 1].blocks));
    }
  }

  lemma {:induction false} NoElements(s: seq<CallId>)
    requires multiset(s) == multiset{}
    ensures s == []
  {
    assert |multiset(s)| == |s|;
  }

  lemma {:induction false} PushResultWaits(out: seq<Turn>, ids: set<CallId>, id: CallId, content: string) returns (pushed: seq<Turn>)
    requires Waiting(out, ids) && id in ids
    ensures pushed == Push(out, true, ToolResult(id, content)) && Waiting(pushed, ids - {id})
  {
    var b, n := ToolResult(id, content), |out| - 1;
    assert multiset(ids) == multiset(ids - {id}) + multiset{id};
    if out[n].user {
      MoreResults(CallsBefore(out, n), out[n], ids, b);
      pushed := MergeWaits(out, b, ids, ids - {id});
    } else {
      OneBlock(b);
      WholeFront(out, ids);
      pushed := OpenWaits(out, true, b, ids - {id});
    }
  }

  lemma {:induction false} MoreResults(before: seq<CallId>, t: Turn, ids: set<CallId>, b: Block)
    requires t.user && WellPlaced(t) && TailWaits(before, t, ids) && b.ToolResult? && b.id in ids
    ensures var more := Turn(true, t.blocks + [b]);
      WellPlaced(more) && TailWaits(before, more, ids - {b.id})
  {
    hide UseIds, AllResultIds;
    BlockSnoc(t.blocks, b);
    assert multiset(ids) == multiset(ids - {b.id}) + multiset{b.id};
    assert forall i | 0 <= i < |t.blocks| :: t.blocks[i] in t.blocks;
  }

  lemma {:induction false} PushUseWaits(out: seq<Turn>, ids: set<CallId>, b: Block) returns (pushed: seq<Turn>)
    requires Waiting(out, ids) && b.ToolUse? && b.id !in ids
    requires ids == {} || !out[|out| - 1].user
    ensures pushed == Push(out, false, b) && Waiting(pushed, ids + {b.id})
    ensures pushed != [] && !pushed[|pushed| - 1].user
  {
    OneBlock(b);
    assert multiset(ids + {b.id}) == multiset(ids) + multiset{b.id};
    if out != [] && !out[|out| - 1].user {
      BlockSnoc(out[|out| - 1].blocks, b);
      pushed := MergeWaits(out, b, ids, ids + {b.id});
    } else {
      WholeFront(out, {});
      LastCalls(out);
      assert ids + {b.id} == {b.id};
      pushed := OpenWaits(out, false, b, {b.id});
    }
  }

  lemma {:induction false} OneMoreCall(out: seq<Turn>, ids: seq<CallId>, b: Block) returns (pushed: seq<Turn>)
    requires Waiting(out, IdSet(ids)) && b.ToolUse? && Distinct(ids + [b.id])
    requires ids != [] ==> out != [] && !out[|out| - 1].user
    ensures pushed == Push(out, false, b) && Waiting(pushed, IdSet(ids + [b.id]))
    ensures pushed != [] && !pushed[|pushed| - 1].user
  {
    SplitOff(ids, b.id);
    pushed := PushUseWaits(out, IdSet(ids), b);
  }

  lemma {:induction false} PushCallsWaits(out: seq<Turn>, blocks: seq<Block>) returns (pushed: seq<Turn>)
    requires Waiting(out, {}) && Distinct(UseIds(blocks)) && forall b | b in blocks :: b.ToolUse?
    ensures pushed == PushAll(out, false, blocks) && Waiting(pushed, IdSet(UseIds(blocks)))
    ensures blocks != [] ==> pushed != [] && !pushed[|pushed| - 1].user
  {
    if blocks == [] {
      assert IdSet(UseIds(blocks)) == {};
      return out;
    }
    var n := |blocks| - 1;
    var front, b := blocks[..n], blocks[n];
    assert b in blocks;
    assert UseIds(blocks) == UseIds(front) + [b.id];
    assert front == [] ==> UseIds(front) == [];
    SplitOff(UseIds(front), b.id);
    pushed := PushCallsWaits(out, front);
    pushed := OneMoreCall(pushed, UseIds(front), b);
  }

  lemma {:induction false} SplitOff(ids: seq<CallId>, id: CallId)
    requires Distinct(ids + [id])
    ensures Distinct(ids) && id !in ids
    ensures IdSet(ids + [id]) == IdSet(ids) + {id}
    ensures ids == [] ==> IdSet(ids) == {}
  {
    assert forall i | 0 <= i < |ids| :: (ids + [id])[i] == ids[i];
    assert (ids + [id])[|ids|] == id;
  }

  lemma {:induction false} PushAllConcat(out: seq<Turn>, user: bool, a: seq<Block>, b: seq<Block>)
    ensures PushAll(out, user, a + b) == PushAll(PushAll(out, user, a), user, b)
  {
    if b == [] {
      assert a + b == a;
    } else {
      var n := |b| - 1;
      assert (a + b)[..|a| + n] == a + b[..n];
      PushAllConcat(out, user, a, b[..n]);
    }
  }

  predicate FunctionCalls(msgs: seq<Message>) {
    forall m | m in msgs :: forall c | c in m.calls :: !c.kind.OtherCall?
  }

  lemma {:induction false} TextWaits(out: seq<Turn>, user: bool, text: string) returns (pushed: seq<Turn>)
    requires Waiting(out, {})
    ensures pushed == PushAll(out, user, TextBlocks(text)) && Waiting(pushed, {})
  {
    pushed := out;
    if text != "" {
      PushAllSnoc(out, user, [], TextBlock(text));
      assert [] + [TextBlock(text)] == TextBlocks(text);
      pushed := PushTextWaits(out, user, text);
    }
  }

  lemma {:induction false} MessageWaits(out: seq<Turn>, ids: set<CallId>, m: Message) returns (pushed: seq<Turn>)
    requires Waiting(out, ids) && Step(Awaiting(ids), m) != Broken && "" !in ids
    requires Opens(m) ==> Distinct(Ids(m.calls))
    requires forall c | c in m.calls :: !c.kind.OtherCall?
    ensures pushed == PushAll(out, !m.role.Assistant?, Blocks(m)) && Waiting(pushed, Step(Awaiting(ids), m).ids)
  {
    match m.role
    case Tool =>
      var b := ToolResult(m.toolCallId, m.content);
      PushAllSnoc(out, true, [], b);
      assert [] + [b] == Blocks(m);
      pushed := PushResultWaits(out, ids, m.toolCallId, m.content);
    case User =>
      pushed := TextWaits(out, true, m.content);
    case Assistant =>
      PushAllConcat(out, false, TextBlocks(m.content), CallBlocks(m.calls));
      pushed := TextWaits(out, false, m.content);
      CallBlocksIds(m.calls);
      pushed := PushCallsWaits(pushed, CallBlocks(m.calls));
      assert m.calls == [] ==> IdSet(Ids(m.calls)) == {};
    case _ =>
      pushed := out;
  }

  lemma {:induction false} TranslatedWaits(msgs: seq<Message>) returns (turns: seq<Turn>)
    requires Scannable(msgs) && FunctionCalls(msgs)
    ensures turns == Translated(msgs) && Waiting(turns, Run(Idle, msgs).ids)
  {
    if msgs == [] {
      turns := [];
    } else {
      var n := |msgs| - 1;
      var front, m := msgs[..n], msgs[n];
      assert msgs == front + [m] && m in msgs;
      ScannablePrefix(front, [m]);
      assert forall x | x in front :: x in msgs;
      turns := TranslatedWaits(front);
      RunSnoc(Idle, front, m);
      if Opens(m) {
        UsableParts(CallIds(front), Ids(m.calls));
      }
      NoEmptyAwaited(front);
      turns := MessageWaits(turns, Run(Idle, front).ids, m);
    }
  }

  lemma {:induction false} NoEmptyAwaited(msgs: seq<Message>)
    requires Scannable(msgs)
    ensures "" !in Run(Idle, msgs).ids
  {
    if msgs != [] {
      var n := |msgs| - 1;
      assert msgs == msgs[..n] + [msgs[n]];
      ScannablePrefix(msgs[..n], [msgs[n]]);
      NoEmptyAwaited(msgs[..n]);
      RunSnoc(Idle, msgs[..n], msgs[n]);
      UsableParts(CallIds(msgs[..n]), if Opens(msgs[n]) then Ids(msgs[n].calls) else []);
    }
  }

  lemma {:induction false} PreambleTurn()
    ensures WellPlaced(PREAMBLE) && AllResultIds(PREAMBLE.blocks) == UseIds(PREAMBLE.blocks) == []
  {
    OneBlock(TextBlock("(continue)"));
  }

  lemma {:induction false} PreambleFront(turns: seq<Turn>, out: seq<Turn>, n: nat)
    requires n <= |turns| && FrontAnswered(turns, n)
    requires |out| == |turns| + 1 && out[0] == PREAMBLE && forall k | 0 <= k < |turns| :: out[k + 1] == turns[k]
    ensures FrontAnswered(out, n + 1)
  {
    hide WellPlaced, UseIds, AllResultIds, ResultsFirst;
    PreambleTurn();
    if n == 0 {
      assert FrontAnswered(out, 0) && AnsweredAt(out, 0);
    } else {
      PreambleFront(turns, out, n - 1);
      var t := turns[n - 1];
      assert out[n] == t && CallsBefore(out, n) == CallsBefore(turns, n - 1);
    }
  }

  lemma {:induction false} PreambleAnswered(turns: seq<Turn>)
    requires FrontAnswered(turns, |turns|) && CallsBefore(turns, |turns|) == []
    ensures AllAnswered(WithPreamble(turns))
  {
    hide FrontAnswered, WellPlaced, AnsweredAt, UseIds;
    if turns != [] && !turns[0].user {
      var out := [PREAMBLE] + turns;
      assert forall k | 0 <= k < |turns| :: out[k + 1] == turns[k];
      PreambleFront(turns, out, |turns|);
      FrontAnsweredAt(out, |out|);
      assert out[|out| - 1] == turns[|turns| - 1];
    } else {
      FrontAnsweredAt(turns, |turns|);
    }
  }

  /** The wire protocol of a valid list: every call is answered at the head of the very next turn. */
  lemma {:induction false} SplitAnswersCalls(msgs: seq<Message>)
    requires Valid(msgs) && FunctionCalls(msgs)
    ensures AllAnswered(WithPreamble(Translated(msgs)))
  {
    var turns := TranslatedWaits(msgs);
    WholeFront(turns, {});
    LastCalls(turns);
    PreambleAnswered(turns);
  }
}
