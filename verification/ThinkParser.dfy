/**
 The streaming splitter of visible text and thinking: text arrives in arbitrary chunks, and a tag may
 be cut anywhere.
 */
module ThinkParser {
  import opened Sequences

  type TagText = s: string | s != "" witness "<think>"

  datatype Tags = Tags(opening: TagText, closing: TagText)

  const THINK_TAGS := Tags("<think>", "</think>")

  /** The tag that ends the current mode. */
  function Tag(tags: Tags, inThink: bool): TagText {
    if inThink then tags.closing else tags.opening
  }

  datatype Event = Event(thinking: bool, text: string)

  /** One consumed piece of the input: a character shown in some mode, or a whole tag. */
  datatype Piece = Shown(thinking: bool, c: char) | TagSeen

  datatype Parsed = Parsed(inThink: bool, held: string, out: seq<Piece>)

  function Tagged(thinking: bool, s: string): seq<Piece> {
    if s == [] then [] else [Shown(thinking, s[0])] + Tagged(thinking, s[1..])
  }

  lemma {:induction false} TaggedConcat(thinking: bool, s: string, t: string)
    ensures Tagged(thinking, s + t) == Tagged(thinking, s) + Tagged(thinking, t)
  {
    if s == [] {
      assert s + t == t;
    } else {
      assert (s + t)[1..] == s[1..] + t;
      TaggedConcat(thinking, s[1..], t);
    }
  }

  // ---- the specification -------------------------------------------------------------------

  /** The text begins with the tag, or may still turn out to. */
  predicate Compatible(s: string, tag: string) { s <= tag || tag <= s }

  /** The first position from which the awaited tag is there or may still come. */
  function Start(s: string, tag: string): (j: nat)
    ensures j <= |s|
  {
    if Compatible(s, tag) then 0 else 1 + Start(s[1..], tag)
  }

  /** A parse continued after earlier output. */
  function After(out: seq<Piece>, p: Parsed): Parsed {
    p.(out := out + p.out)
  }

  lemma {:induction false} AfterAfter(x: seq<Piece>, y: seq<Piece>, p: Parsed)
    ensures After(x, After(y, p)) == After(x + y, p)
  {
    Assoc(x, y, p.out);
  }

  datatype Cut = Held(shown: string, keep: string) | Found(shown: string, rest: string)

  /** The text up to the leftmost tag and what follows it, or what is safe to show and what is not. */
  function NextCut(s: string, tag: TagText): (c: Cut)
    ensures c.Found? ==> |c.rest| < |s|
  {
    var j := Start(s, tag);
    if |s| - j < |tag| then Held(s[..j], s[j..]) else Found(s[..j], s[j + |tag|..])
  }

  /** The whole input read at once: cut at the leftmost awaited tag, then read on in the other mode. */
  function Parse(tags: Tags, inThink: bool, s: string): Parsed
    decreases |s|
  {
    match NextCut(s, Tag(tags, inThink))
    case Held(shown, keep) => Parsed(inThink, keep, Tagged(inThink, shown))
    case Found(shown, rest) => After(Tagged(inThink, shown) + [TagSeen], Parse(tags, !inThink, rest))
  }

  /** The characters shown, each with its mode: what is left of events once neighbours are joined. */
  function Visible(out: seq<Piece>): seq<Piece> {
    if out == [] then []
    else (if out[0].TagSeen? then [] else [out[0]]) + Visible(out[1..])
  }

  function EventStream(events: seq<Event>): seq<Piece> {
    if events == [] then []
    else
      var last := events[|events| - 1];
      EventStream(events[..|events| - 1]) + Tagged(last.thinking, last.text)
  }

  /** The input that was consumed, tags included. */
  function Consumed(tags: Tags, inThink: bool, out: seq<Piece>): string
    decreases |out|
  {
    if out == [] then []
    else if out[0].TagSeen? then Tag(tags, inThink) + Consumed(tags, !inThink, out[1..])
    else [out[0].c] + Consumed(tags, inThink, out[1..])
  }

  /** Every shown character carries the mode the tags before it set. */
  predicate ModesAgree(inThink: bool, out: seq<Piece>)
    decreases |out|
  {
    out != [] ==>
      if out[0].TagSeen? then ModesAgree(!inThink, out[1..])
      else out[0].thinking == inThink && ModesAgree(inThink, out[1..])
  }

  // ---- the leftmost tag and the longest held suffix -------------------------------------------

  predicate At(s: string, i: nat, tag: string) {
    i + |tag| <= |s| && s[i..i + |tag|] == tag
  }

  lemma {:induction false} StartFacts(s: string, tag: string)
    ensures Compatible(s[Start(s, tag)..], tag)
    ensures forall i: nat | i < Start(s, tag) :: !Compatible(s[i..], tag)
  {
    if Compatible(s, tag) {
      assert s[0..] == s;
    } else {
      StartFacts(s[1..], tag);
      assert s[1..][Start(s[1..], tag)..] == s[Start(s, tag)..];
      forall i: nat | i < Start(s, tag) ensures !Compatible(s[i..], tag) {
        if i > 0 {
          assert s[i..] == s[1..][i - 1..];
        } else {
          assert s[0..] == s;
        }
      }
    }
  }

  lemma {:induction false} AtIsCompatible(s: string, i: nat, tag: string)
    requires i <= |s| && |s| - i >= |tag|
    ensures At(s, i, tag) <==> Compatible(s[i..], tag)
  {
    assert |s[i..]| == |tag| ==> s[i..i + |tag|] == s[i..];
    assert s[i..][..|tag|] == s[i..i + |tag|];
  }

  /** Where a tag is found it is the leftmost one; otherwise there is none. */
  lemma {:induction false} StartIsLeftmostTag(s: string, tag: string)
    ensures |s| - Start(s, tag) >= |tag| ==>
      At(s, Start(s, tag), tag) && forall i: nat | i < Start(s, tag) :: !At(s, i, tag)
    ensures |s| - Start(s, tag) < |tag| ==> forall i: nat :: !At(s, i, tag)
  {
    var j := Start(s, tag);
    StartFacts(s, tag);
    if |s| - j >= |tag| {
      AtIsCompatible(s, j, tag);
    }
    forall i: nat | i < j ensures !At(s, i, tag) {
      if |s| - i >= |tag| {
        AtIsCompatible(s, i, tag);
      }
    }
  }

  /** What is held back is the longest end of the text that begins the tag without completing it. */
  lemma {:induction false} HeldIsLongest(s: string, tag: string, n: nat)
    requires |s| - Start(s, tag) < |tag|
    ensures s[Start(s, tag)..] <= tag
    ensures n < |tag| && n <= |s| && s[|s| - n..] == tag[..n] ==> n <= |s| - Start(s, tag)
  {
    StartFacts(s, tag);
    if n < |tag| && n <= |s| && s[|s| - n..] == tag[..n] {
      assert Compatible(s[|s| - n..], tag);
    }
  }

  lemma {:induction false} FoundCut(s: string, tag: TagText, i: nat)
    requires At(s, i, tag) && forall k: nat | k < i :: !At(s, k, tag)
    ensures NextCut(s, tag) == Found(s[..i], s[i + |tag|..])
  {
    StartIsLeftmostTag(s, tag);
    StartFacts(s, tag);
    AtIsCompatible(s, i, tag);
  }

  /** One longest held end fixes the position. */
  lemma {:induction false} HeldStart(s: string, tag: string, n: nat)
    requires n < |tag| && n <= |s| && s[|s| - n..] == tag[..n]
    requires forall k: nat | n < k < |tag| && k <= |s| :: s[|s| - k..] != tag[..k]
    requires forall i: nat :: !At(s, i, tag)
    ensures Start(s, tag) == |s| - n
  {
    var j := Start(s, tag);
    StartFacts(s, tag);
    StartIsLeftmostTag(s, tag);
    assert Compatible(s[|s| - n..], tag);
    var k := |s| - j;
    assert s[|s| - k..] == tag[..k];
  }

  method FindTag(s: string, tag: string) returns (idx: int)
    ensures idx == -1 ==> forall i: nat :: !At(s, i, tag)
    ensures idx != -1 ==> idx >= 0 && At(s, idx, tag) && forall i: nat | i < idx :: !At(s, i, tag)
  {
    var i := 0;
    while i <= |s| - |tag|
      invariant 0 <= i
      invariant forall k: nat | k < i :: !At(s, k, tag)
    {
      if s[i..i + |tag|] == tag {
        return i;
      }
      i := i + 1;
    }
    return -1;
  }

  method SplitPartial(s: string, tag: TagText) returns (safe: string, keep: string)
    requires forall i: nat :: !At(s, i, tag)
    ensures NextCut(s, tag) == Held(safe, keep)
  {
    var i := |tag| - 1;
    while i > 0
      invariant 0 <= i < |tag|
      invariant forall k: nat | i < k < |tag| && k <= |s| :: s[|s| - k..] != tag[..k]
    {
      if |s| >= i && s[|s| - i..] == tag[..i] {
        HeldStart(s, tag, i);
        return s[..|s| - i], s[|s| - i..];
      }
      i := i - 1;
    }
    HeldStart(s, tag, 0);
    return s, "";
  }

  // ---- the parser ---------------------------------------------------------------------------------

  class Parser {
    const tags: Tags
    var inThink: bool
    var buf: string

    constructor ()
      ensures tags == THINK_TAGS && !inThink && buf == ""
    {
      tags, inThink, buf := THINK_TAGS, false, "";
    }

    method Feed(text: string) returns (events: seq<Event>)
      modifies this
      ensures var p := Parse(tags, old(inThink), old(buf) + text);
        && inThink == p.inThink && buf == p.held
        && EventStream(events) == Visible(p.out)
      ensures forall e | e in events :: e.text != ""
    {
      buf := buf + text;
      events := [];
      ghost var mode, whole := inThink, buf;
      ghost var out: seq<Piece> := [];
      while true
        invariant Parse(tags, mode, whole) == After(out, Parse(tags, inThink, buf))
        invariant EventStream(events) == Visible(out)
        invariant forall e | e in events :: e.text != ""
        decreases |buf|
      {
        var tag := Tag(tags, inThink);
        var idx := FindTag(buf, tag);
        if idx == -1 {
          var safe, keep := SplitPartial(buf, tag);
          ShowMore(out, events, inThink, safe);
          if |safe| > 0 {
            events := events + [Event(inThink, safe)];
          }
          out := out + Tagged(inThink, safe);
          buf := keep;
          break;
        }
        FoundCut(buf, tag, idx);
        ShowMore(out, events, inThink, buf[..idx]);
        if idx > 0 {
          events := events + [Event(inThink, buf[..idx])];
        }
        SkipTag(out, Tagged(inThink, buf[..idx]), Parse(tags, !inThink, buf[idx + |tag|..]));
        out := out + Tagged(inThink, buf[..idx]) + [TagSeen];
        buf := buf[idx + |tag|..];
        inThink := !inThink;
      }
    }
  }

  lemma {:induction false} SkipTag(out: seq<Piece>, shown: seq<Piece>, p: Parsed)
    ensures After(out, After(shown + [TagSeen], p)) == After(out + shown + [TagSeen], p)
    ensures Visible(out + shown + [TagSeen]) == Visible(out + shown)
  {
    AfterAfter(out, shown + [TagSeen], p);
    Assoc(out, shown, [TagSeen]);
    VisibleConcat(out + shown, [TagSeen]);
    assert Visible([TagSeen]) == [];
  }

  lemma {:induction false} VisibleConcat(x: seq<Piece>, y: seq<Piece>)
    ensures Visible(x + y) == Visible(x) + Visible(y)
  {
    if x == [] {
      assert x + y == y;
    } else {
      assert (x + y)[1..] == x[1..] + y;
      VisibleConcat(x[1..], y);
    }
  }

  lemma {:induction false} VisibleTagged(thinking: bool, s: string)
    ensures Visible(Tagged(thinking, s)) == Tagged(thinking, s)
  {
    if s != [] {
      VisibleTagged(thinking, s[1..]);
    }
  }

  lemma {:induction false} ShowMore(out: seq<Piece>, events: seq<Event>, thinking: bool, s: string)
    requires EventStream(events) == Visible(out)
    ensures EventStream(events + [Event(thinking, s)]) == Visible(out + Tagged(thinking, s))
    ensures s == "" ==> out + Tagged(thinking, s) == out
  {
    VisibleConcat(out, Tagged(thinking, s));
    VisibleTagged(thinking, s);
    assert (events + [Event(thinking, s)])[..|events|] == events;
  }

  // ---- chunking does not matter ---------------------------------------------------------------------

  lemma {:induction false} CompatiblePrefix(s: string, t: string, tag: string)
    requires Compatible(s + t, tag)
    ensures Compatible(s, tag)
  {
    if s + t <= tag {
      assert s == tag[..|s|];
    } else if |tag| <= |s| {
      assert tag == s[..|tag|];
    } else {
      assert s == tag[..|s|];
    }
  }

  /** More text does not move a position that was already ruled out. */
  lemma {:induction false} StartExtends(s: string, t: string, tag: string)
    ensures Start(s + t, tag) == Start(s, tag) + Start(s[Start(s, tag)..] + t, tag)
  {
    if Compatible(s, tag) {
      assert s[0..] == s;
    } else {
      StartExtends(s[1..], t, tag);
      assert (s + t)[1..] == s[1..] + t;
      assert s[Start(s, tag)..] == s[1..][Start(s[1..], tag)..];
      if Compatible(s + t, tag) {
        CompatiblePrefix(s, t, tag);
      }
    }
  }

  /** More text comes after a tag already found. */
  lemma {:induction false} FoundExtends(s: string, t: string, tag: TagText)
    requires NextCut(s, tag).Found?
    ensures NextCut(s + t, tag) == Found(NextCut(s, tag).shown, NextCut(s, tag).rest + t)
  {
    var j := Start(s, tag);
    StartExtends(s, t, tag);
    StartIsLeftmostTag(s, tag);
    assert (s[j..] + t)[..|tag|] == tag;
    assert (s + t)[..j] == s[..j] && (s + t)[j + |tag|..] == s[j + |tag|..] + t;
  }

  function Prepend(x: string, c: Cut): Cut {
    c.(shown := x + c.shown)
  }

  /** When no tag was found, more text is read together with what was held. */
  lemma {:induction false} HeldExtends(s: string, t: string, tag: TagText)
    requires NextCut(s, tag).Held?
    ensures NextCut(s + t, tag) ==
      Prepend(NextCut(s, tag).shown, NextCut(NextCut(s, tag).keep + t, tag))
  {
    var j := Start(s, tag);
    StartExtends(s, t, tag);
    assert s + t == s[..j] + (s[j..] + t);
    PrependCut(s[..j], s[j..] + t, tag);
  }

  lemma {:induction false} PrependCut(x: string, later: string, tag: TagText)
    requires Start(x + later, tag) == |x| + Start(later, tag)
    ensures NextCut(x + later, tag) == Prepend(x, NextCut(later, tag))
  {
    DropPrefix(x, later, Start(later, tag), |tag|);
  }

  lemma {:induction false} DropPrefix(x: string, y: string, k: nat, n: nat)
    requires k <= |y|
    ensures (x + y)[..|x| + k] == x + y[..k] && (x + y)[|x| + k..] == y[k..]
    ensures k + n <= |y| ==> (x + y)[|x| + k + n..] == y[k + n..]
  {
  }

  /** Reading s and then t is reading what s held back, followed by t. */
  lemma {:induction false} ParseInTwo(tags: Tags, inThink: bool, s: string, t: string)
    ensures var p := Parse(tags, inThink, s);
      Parse(tags, inThink, s + t) == After(p.out, Parse(tags, p.inThink, p.held + t))
    decreases |s|
  {
    match NextCut(s, Tag(tags, inThink))
    case Found(shown, rest) =>
      FoundExtends(s, t, Tag(tags, inThink));
      ParseInTwo(tags, !inThink, rest, t);
      var p := Parse(tags, !inThink, rest);
      AfterAfter(Tagged(inThink, shown) + [TagSeen], p.out, Parse(tags, p.inThink, p.held + t));
    case Held(shown, keep) =>
      HeldExtends(s, t, Tag(tags, inThink));
      var later := NextCut(keep + t, Tag(tags, inThink));
      TaggedConcat(inThink, shown, later.shown);
      if later.Found? {
        Assoc(Tagged(inThink, shown), Tagged(inThink, later.shown), [TagSeen]);
        AfterAfter(Tagged(inThink, shown), Tagged(inThink, later.shown) + [TagSeen],
                   Parse(tags, !inThink, later.rest));
      }
  }

  function Joined(chunks: seq<string>): string {
    if chunks == [] then [] else Joined(chunks[..|chunks| - 1]) + chunks[|chunks| - 1]
  }

  /** The state and output after feeding the chunks one by one. */
  function FedInChunks(tags: Tags, inThink: bool, held: string, chunks: seq<string>): Parsed
    decreases |chunks|
  {
    if chunks == [] then Parsed(inThink, held, [])
    else
      var before := FedInChunks(tags, inThink, held, chunks[..|chunks| - 1]);
      After(before.out, Parse(tags, before.inThink, before.held + chunks[|chunks| - 1]))
  }

  /** Nothing more can be said about text that is already held back. */
  predicate Waiting(tags: Tags, inThink: bool, held: string) {
    held <= Tag(tags, inThink) && held != Tag(tags, inThink)
  }

  /** Any chunking leaves the same state and shows the same characters in the same modes. */
  lemma {:induction false} ChunkingIsIrrelevant(tags: Tags, inThink: bool, held: string, chunks: seq<string>)
    requires Waiting(tags, inThink, held)
    ensures FedInChunks(tags, inThink, held, chunks) == Parse(tags, inThink, held + Joined(chunks))
  {
    if chunks == [] {
      assert held + Joined(chunks) == held && held[0..] == held;
      assert Tagged(inThink, held[..0]) == [];
    } else {
      var init, last := chunks[..|chunks| - 1], chunks[|chunks| - 1];
      ChunkingIsIrrelevant(tags, inThink, held, init);
      ParseInTwo(tags, inThink, held + Joined(init), last);
      Assoc(held, Joined(init), last);
    }
  }

  /** What is kept back always is the start of the awaited tag, and never the whole of it. */
  lemma {:induction false} AlwaysWaiting(tags: Tags, inThink: bool, s: string)
    ensures Waiting(tags, Parse(tags, inThink, s).inThink, Parse(tags, inThink, s).held)
    decreases |s|
  {
    match NextCut(s, Tag(tags, inThink))
    case Held(_, _) => StartFacts(s, Tag(tags, inThink));
    case Found(_, rest) => AlwaysWaiting(tags, !inThink, rest);
  }

  // ---- nothing is lost or invented --------------------------------------------------------------------

  lemma {:induction false} ConsumedTagged(tags: Tags, inThink: bool, s: string, more: seq<Piece>)
    ensures Consumed(tags, inThink, Tagged(inThink, s) + more) == s + Consumed(tags, inThink, more)
    ensures ModesAgree(inThink, Tagged(inThink, s) + more) == ModesAgree(inThink, more)
  {
    var out := Tagged(inThink, s) + more;
    if s == [] {
      assert out == more;
    } else {
      ConsumedTagged(tags, inThink, s[1..], more);
      assert out[1..] == Tagged(inThink, s[1..]) + more;
      assert s == [s[0]] + s[1..];
    }
  }

  lemma {:induction false} ConsumedRun(tags: Tags, inThink: bool, s: string, more: seq<Piece>)
    ensures var out := Tagged(inThink, s) + [TagSeen] + more;
      && Consumed(tags, inThink, out) == s + (Tag(tags, inThink) + Consumed(tags, !inThink, more))
      && ModesAgree(inThink, out) == ModesAgree(!inThink, more)
  {
    ConsumedTagged(tags, inThink, s, [TagSeen] + more);
    assert ([TagSeen] + more)[1..] == more;
    Assoc(Tagged(inThink, s), [TagSeen], more);
  }

  /** Shown text, tags in their places, and what is held make up the whole input. */
  lemma {:induction false} NothingIsLost(tags: Tags, inThink: bool, s: string)
    ensures var p := Parse(tags, inThink, s);
      Consumed(tags, inThink, p.out) + p.held == s && ModesAgree(inThink, p.out)
    decreases |s|
  {
    CutJoins(s, Tag(tags, inThink));
    match NextCut(s, Tag(tags, inThink))
    case Held(shown, keep) =>
      ConsumedTagged(tags, inThink, shown, []);
      assert Tagged(inThink, shown) + [] == Tagged(inThink, shown);
      assert Consumed(tags, inThink, []) == "" && shown + "" == shown;
    case Found(shown, rest) =>
      var p := Parse(tags, !inThink, rest);
      NothingIsLost(tags, !inThink, rest);
      ConsumedRun(tags, inThink, shown, p.out);
      var c, tag := Consumed(tags, !inThink, p.out), Tag(tags, inThink);
      Assoc(shown, tag + c, p.held);
      Assoc(tag, c, p.held);
  }

  lemma {:induction false} CutJoins(s: string, tag: TagText)
    ensures match NextCut(s, tag)
      case Held(shown, keep) => s == shown + keep
      case Found(shown, rest) => s == shown + (tag + rest)
  {
    StartIsLeftmostTag(s, tag);
    var j := Start(s, tag);
    if |s| - j >= |tag| {
      assert s == s[..j] + (s[j..j + |tag|] + s[j + |tag|..]);
    }
  }

  /**
   The end of a stream, however it was cut: nothing flushes the parser, so the text is shown in full exactly
   when nothing is held back then, and what is missing otherwise is the start of the awaited tag.
   */
  lemma {:induction false} AllIsShownIff(tags: Tags, chunks: seq<string>)
    ensures var p := FedInChunks(tags, false, "", chunks);
      && Joined(chunks) == Consumed(tags, false, p.out) + p.held && Waiting(tags, p.inThink, p.held)
      && (Consumed(tags, false, p.out) == Joined(chunks) <==> p.held == "")
  {
    hide Parse, Consumed;
    ChunkingIsIrrelevant(tags, false, "", chunks);
    assert "" + Joined(chunks) == Joined(chunks);
    NothingIsLost(tags, false, Joined(chunks));
    AlwaysWaiting(tags, false, Joined(chunks));
    var p := Parse(tags, false, Joined(chunks));
    assert |Joined(chunks)| == |Consumed(tags, false, p.out)| + |p.held|;
    assert Consumed(tags, false, p.out) + "" == Consumed(tags, false, p.out);
  }

  /** Whatever came before: a proper start of the awaited tag that ends the text is never shown. */
  lemma {:induction false} HeldTextIsDropped(tags: Tags, s: string, start: string)
    requires var p := Parse(tags, false, s);
      p.held == "" && Waiting(tags, p.inThink, start)
    ensures var p := Parse(tags, false, s);
      Parse(tags, false, s + start) == Parsed(p.inThink, start, p.out)
  {
    var p := Parse(tags, false, s);
    ParseInTwo(tags, false, s, start);
    assert "" + start == start;
    StartIsHeld(tags, p.inThink, start);
    assert p.out + [] == p.out;
  }

  lemma {:induction false} StartIsHeld(tags: Tags, inThink: bool, start: string)
    requires Waiting(tags, inThink, start)
    ensures Parse(tags, inThink, start) == Parsed(inThink, start, [])
  {
    assert start[0..] == start && Tagged(inThink, start[..0]) == [];
  }
}
