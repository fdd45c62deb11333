/**
 The agent's in-memory view: provider messages with persistence metadata, the rendering of
 that view into a provider payload, and its token count.
 */
module Indexed {
  import opened Sequences
  import opened Payload

  datatype Kind = SystemPrompt | CompressionSummary | ActiveTurnSummary | ThreadMessage | Reminder

  datatype Entry = Entry(seqNo: nat, synthetic: bool, kind: Kind, msg: Message)

  // The checkpoint delimiters, abbreviated: only their presence matters here.
  const WRAPPER_HEAD := "\n\n[CHECKPOINT]\n"
  const WRAPPER_TAIL := "\n[END CHECKPOINT]"

  function Strip(view: seq<Entry>): seq<Message> {
    seq(|view|, i requires 0 <= i < |view| => view[i].msg)
  }

  /** Checkpoints are created with the user role (compressActiveTurn); nothing changes that. */
  predicate WellKinded(view: seq<Entry>) {
    forall e | e in view :: e.kind.ActiveTurnSummary? ==> e.msg.role.User? && e.synthetic
  }

  predicate CheckpointFree(view: seq<Entry>) {
    forall e | e in view :: !e.kind.ActiveTurnSummary?
  }

  // ---- rendering ---------------------------------------------------------------

  /** A checkpoint merges into a directly preceding user message; other entries are appended. */
  function Push(out: seq<Message>, e: Entry): seq<Message> {
    var wrapped := WRAPPER_HEAD + e.msg.content + WRAPPER_TAIL;
    if !e.kind.ActiveTurnSummary? then out + [e.msg]
    else if out != [] && out[|out| - 1].role.User? then
      var last := out[|out| - 1];
      out[|out| - 1 := last.(content := last.content + wrapped)]
    else out + [e.msg.(role := User, content := wrapped)]
  }

  function ToRaw(view: seq<Entry>): seq<Message> {
    if view == [] then [] else Push(ToRaw(view[..|view| - 1]), view[|view| - 1])
  }

  method ToRawMessages(view: seq<Entry>) returns (out: seq<Message>)
    ensures out == ToRaw(view)
  {
    out := [];
    for i := 0 to |view|
      invariant out == ToRaw(view[..i])
    {
      var e := view[i];
      assert view[..i + 1][..i] == view[..i];
      if e.kind.ActiveTurnSummary? {
        var wrapped := WRAPPER_HEAD + e.msg.content + WRAPPER_TAIL;
        if |out| > 0 && out[|out| - 1].role.User? {
          var last := out[|out| - 1];
          out := out[|out| - 1 := last.(content := last.content + wrapped)];
        } else {
          out := out + [e.msg.(role := User, content := wrapped)];
        }
      } else {
        out := out + [e.msg];
      }
    }
    assert view[..|view|] == view;
  }

  lemma {:induction false} RawOfCheckpointFree(view: seq<Entry>)
    requires CheckpointFree(view)
    ensures ToRaw(view) == Strip(view)
  {
    if view != [] {
      RawOfCheckpointFree(view[..|view| - 1]);
      assert Strip(view) == Strip(view[..|view| - 1]) + [view[|view| - 1].msg];
    }
  }

  lemma {:induction false} RawNonEmpty(view: seq<Entry>)
    ensures |ToRaw(view)| <= |view|
    ensures view != [] ==> ToRaw(view) != []
  {
    if view != [] {
      RawNonEmpty(view[..|view| - 1]);
    }
  }

  /** Replacing a user message by another user message does not change the scan. */
  lemma {:induction false} ScanIgnoresUserText(s: Scan, out: seq<Message>, u: Message)
    requires out != [] && out[|out| - 1].role.User? && u.role.User?
    ensures Run(s, out[|out| - 1 := u]) == Run(s, out)
    ensures CallIds(out[|out| - 1 := u]) == CallIds(out)
    ensures Run(s, out) == Broken || Run(s, out) == Idle
  {
    var front := out[..|out| - 1];
    assert out == front + [out[|out| - 1]];
    assert out[|out| - 1 := u] == front + [u];
    RunSnoc(s, front, out[|out| - 1]);
    RunSnoc(s, front, u);
  }

  /** Merging checkpoints into user messages is invisible to the pairing protocol. */
  lemma {:induction false} RawRunsLikeStrip(view: seq<Entry>)
    requires WellKinded(view)
    ensures Run(Idle, ToRaw(view)) == Run(Idle, Strip(view))
    ensures CallIds(ToRaw(view)) == CallIds(Strip(view))
  {
    if view != [] {
      var front, e := view[..|view| - 1], view[|view| - 1];
      RawRunsLikeStrip(front);
      assert Strip(view) == Strip(front) + [e.msg];
      RunSnoc(Idle, Strip(front), e.msg);
      var out := ToRaw(front);
      var wrapped := WRAPPER_HEAD + e.msg.content + WRAPPER_TAIL;
      if e.kind.ActiveTurnSummary? && out != [] && out[|out| - 1].role.User? {
        ScanIgnoresUserText(Idle, out, out[|out| - 1].(content := out[|out| - 1].content + wrapped));
      } else if e.kind.ActiveTurnSummary? {
        RunSnoc(Idle, out, e.msg.(role := User, content := wrapped));
      } else {
        RunSnoc(Idle, out, e.msg);
      }
    }
  }

  lemma {:induction false} RawIsValid(view: seq<Entry>)
    requires WellKinded(view)
    ensures Valid(ToRaw(view)) <==> Valid(Strip(view))
  {
    RawRunsLikeStrip(view);
  }

  /** What an entry shows: a checkpoint its delimited text, any other entry its own text. */
  function Shown(e: Entry): string {
    if e.kind.ActiveTurnSummary? then WRAPPER_HEAD + e.msg.content + WRAPPER_TAIL else e.msg.content
  }

  function ShownText(view: seq<Entry>): string {
    if view == [] then "" else ShownText(view[..|view| - 1]) + Shown(view[|view| - 1])
  }

  function PayloadText(msgs: seq<Message>): string {
    if msgs == [] then "" else PayloadText(msgs[..|msgs| - 1]) + msgs[|msgs| - 1].content
  }

  /** The messages that are not the user's. */
  function NotUsers(msgs: seq<Message>): seq<Message> {
    if msgs == [] then []
    else NotUsers(msgs[..|msgs| - 1]) + (if msgs[|msgs| - 1].role.User? then [] else [msgs[|msgs| - 1]])
  }

  lemma {:induction false} LastText(msgs: seq<Message>, m: Message)
    ensures PayloadText(msgs + [m]) == PayloadText(msgs) + m.content
    ensures NotUsers(msgs + [m]) == NotUsers(msgs) + (if m.role.User? then [] else [m])
  {
    assert (msgs + [m])[..|msgs|] == msgs;
  }

  /** Merging joins texts but neither drops nor reorders any; every other message stays as it is. */
  lemma {:induction false} RawLosesNothing(view: seq<Entry>)
    requires WellKinded(view)
    ensures PayloadText(ToRaw(view)) == ShownText(view)
    ensures NotUsers(ToRaw(view)) == NotUsers(Strip(view))
  {
    hide Push, Shown;
    if view != [] {
      var n := |view| - 1;
      var e := view[n];
      RawLosesNothing(view[..n]);
      assert e in view;
      assert Strip(view) == Strip(view[..n]) + [e.msg];
      LastText(Strip(view[..n]), e.msg);
      PushedText(ToRaw(view[..n]), e);
    }
  }

  lemma {:induction false} PushedText(out: seq<Message>, e: Entry)
    requires e.kind.ActiveTurnSummary? ==> e.msg.role.User?
    ensures PayloadText(Push(out, e)) == PayloadText(out) + Shown(e)
    ensures NotUsers(Push(out, e)) == NotUsers(out) + (if e.msg.role.User? then [] else [e.msg])
  {
    hide PayloadText, NotUsers;
    if e.kind.ActiveTurnSummary? && out != [] && out[|out| - 1].role.User? {
      var front, last := out[..|out| - 1], out[|out| - 1];
      var merged := last.(content := last.content + Shown(e));
      assert out == front + [last] && Push(out, e) == front + [merged];
      LastText(front, last);
      LastText(front, merged);
    } else {
      LastText(out, if e.kind.ActiveTurnSummary? then e.msg.(role := User, content := Shown(e)) else e.msg);
    }
  }

  // ---- counting -----------------------------------------------------------------

  /** An uninterpreted tokenizer: a cost per message and a cost per request. */
  datatype Counter = Counter(cost: Message -> nat, primer: nat)

  function Sum(c: Counter, msgs: seq<Message>): nat {
    if msgs == [] then 0 else Sum(c, msgs[..|msgs| - 1]) + c.cost(msgs[|msgs| - 1])
  }

  function Tokens(c: Counter, msgs: seq<Message>): nat {
    Sum(c, msgs) + c.primer
  }

  method CountMessages(c: Counter, msgs: seq<Message>) returns (total: nat)
    ensures total == Tokens(c, msgs)
  {
    total := 0;
    for i := 0 to |msgs|
      invariant total == Sum(c, msgs[..i])
    {
      assert msgs[..i + 1][..i] == msgs[..i];
      total := total + c.cost(msgs[i]);
    }
    assert msgs[..|msgs|] == msgs;
    total := total + c.primer;
  }

  lemma {:induction false} SumConcat(c: Counter, a: seq<Message>, b: seq<Message>)
    ensures Sum(c, a + b) == Sum(c, a) + Sum(c, b)
  {
    if b == [] {
      assert a + b == a;
    } else {
      assert (a + b)[..|a + b| - 1] == a + b[..|b| - 1];
      SumConcat(c, a, b[..|b| - 1]);
    }
  }

  lemma {:induction false} StripConcat(a: seq<Entry>, b: seq<Entry>)
    ensures Strip(a + b) == Strip(a) + Strip(b)
  {
  }

  // ---- the latest persisted user message -------------------------------------------

  predicate PersistedUser(e: Entry) {
    !e.synthetic && e.msg.role.User?
  }

  function LatestUser(view: seq<Entry>): (i: int)
    ensures -1 <= i < |view|
    ensures i >= 0 ==> PersistedUser(view[i])
  {
    if view == [] then -1
    else if PersistedUser(view[|view| - 1]) then |view| - 1
    else LatestUser(view[..|view| - 1])
  }

  lemma {:induction false} LatestUserIsLast(view: seq<Entry>)
    ensures forall k | LatestUser(view) < k < |view| :: !PersistedUser(view[k])
  {
    if view != [] {
      LatestUserIsLast(view[..|view| - 1]);
      assert forall k | 0 <= k < |view| - 1 :: view[..|view| - 1][k] == view[k];
    }
  }

  lemma {:induction false} LatestUserUnique(view: seq<Entry>, i: int)
    requires -1 <= i < |view| && (i >= 0 ==> PersistedUser(view[i]))
    requires forall k | i < k < |view| :: !PersistedUser(view[k])
    ensures LatestUser(view) == i
  {
    LatestUserIsLast(view);
  }

  method LatestPersistedUserIndex(view: seq<Entry>) returns (i: int)
    ensures i == LatestUser(view)
  {
    i := |view| - 1;
    assert view[..|view|] == view;
    while i >= 0 && !PersistedUser(view[i])
      invariant -1 <= i < |view|
      invariant LatestUser(view[..i + 1]) == LatestUser(view)
    {
      assert view[..i + 1][..i] == view[..i];
      i := i - 1;
    }
  }

  // ---- the persisted entries ---------------------------------------------------------

  /** Bookkeeping anchors on persisted entries only. */
  predicate IsPersisted(e: Entry) {
    !e.synthetic && e.seqNo > 0
  }

  function Persisted(view: seq<Entry>): seq<Entry> {
    if view == [] then []
    else (if IsPersisted(view[0]) then [view[0]] else []) + Persisted(view[1..])
  }

  function SeqNos(view: seq<Entry>): seq<nat> {
    seq(|view|, i requires 0 <= i < |view| => view[i].seqNo)
  }

  /** Numbers of the persisted entries, in view order. */
  function PersistedSeqs(view: seq<Entry>): seq<nat> {
    SeqNos(Persisted(view))
  }

  lemma {:induction false} PersistedConcat(x: seq<Entry>, y: seq<Entry>)
    ensures Persisted(x + y) == Persisted(x) + Persisted(y)
  {
    hide IsPersisted;
    if x == [] {
      assert x + y == y;
    } else {
      assert (x + y)[0] == x[0] && (x + y)[1..] == x[1..] + y;
      PersistedConcat(x[1..], y);
      Assoc(if IsPersisted(x[0]) then [x[0]] else [], Persisted(x[1..]), Persisted(y));
    }
  }

  lemma {:induction false} PersistedSeqsConcat(x: seq<Entry>, y: seq<Entry>)
    ensures PersistedSeqs(x + y) == PersistedSeqs(x) + PersistedSeqs(y)
  {
    PersistedConcat(x, y);
  }

  lemma {:induction false} NoneOfSynthetic(view: seq<Entry>)
    requires forall e | e in view :: e.synthetic
    ensures Persisted(view) == []
  {
    if view != [] {
      NoneOfSynthetic(view[1..]);
    }
  }

  lemma {:induction false} PersistedIn(view: seq<Entry>, e: Entry)
    ensures e in Persisted(view) <==> e in view && IsPersisted(e)
  {
    if view != [] {
      PersistedIn(view[1..], e);
    }
  }
}
