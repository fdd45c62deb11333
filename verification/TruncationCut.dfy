/**
 Truncation as one cut: the anchors and everything from a group boundary on, the earliest boundary that fits.
 */
module TruncationCut {
  import opened Payload
  import opened Groups
  import opened Indexed
  import opened Truncate

  /** The leading system prompt, the latest persisted user message and the checkpoint next to it. */
  predicate Anchor(view: seq<Entry>, i: int) {
    && 0 <= i < |view|
    && (|| (i == 0 && view[0].msg.role.System?)
        || (PersistedUser(view[i]) && forall k | i < k < |view| :: !PersistedUser(view[k]))
        || (i > 0 && view[i].kind.ActiveTurnSummary? && PersistedUser(view[i - 1]) &&
              forall k | i <= k < |view| :: !PersistedUser(view[k])))
  }

  function CutFlags(view: seq<Entry>, q: int): seq<bool> {
    seq(|view|, i => Anchor(view, i) || i >= q)
  }

  /** The anchors and all entries from q on. */
  function Cut(view: seq<Entry>, q: int): seq<Entry> {
    Kept(view, CutFlags(view, q))
  }

  /** The system prompt and the latest persisted user message, as far as they exist. */
  function PromptAndRequest(view: seq<Entry>): seq<Entry> {
    (if view != [] && view[0].msg.role.System? then [view[0]] else []) +
    (if LatestUser(view) >= 0 then [view[LatestUser(view)]] else [])
  }

  lemma {:induction false} AnchorIs(view: seq<Entry>, i: int)
    requires WellKinded(view) && 0 <= i < |view|
    ensures Anchor(view, i) <==>
      (i == 0 && view[0].msg.role.System?) || i == LatestUser(view) || i == CheckpointIndex(view)
  {
    LatestUserIsLast(view);
    assert view[i] in view;
    if PersistedUser(view[i]) && forall k | i < k < |view| :: !PersistedUser(view[k]) {
      LatestUserUnique(view, i);
    }
    if i > 0 && PersistedUser(view[i - 1]) && forall k | i <= k < |view| :: !PersistedUser(view[k]) {
      LatestUserUnique(view, i - 1);
    }
  }

  // ---- a cut drops the first groups of the drop order -----------------------------------------

  lemma {:induction false} GroupOf(view: seq<Entry>, i: nat) returns (g: Group)
    requires i < |view|
    ensures g in GroupsOf(Strip(view)) && Holds(g, i)
    ensures g.start < |view| && view[g.start].msg.role.System? ==> g == Group(g.start, g.start + 1, SystemGroup)
  {
    var msgs := Strip(view);
    GroupFacts(msgs);
    var k := HoldingGroup(GroupsOf(msgs), 0, |msgs|, i);
    g := GroupsOf(msgs)[k];
  }

  /** An entry that is no anchor is in a droppable group. */
  lemma {:induction false} NoAnchorIsDroppable(view: seq<Entry>, i: nat) returns (g: Group)
    requires WellKinded(view) && i < |view| && !Anchor(view, i)
    ensures g in GroupsOf(Strip(view)) && Holds(g, i) && g.start < |view| && Droppable(view, g)
  {
    g := GroupOf(view, i);
    AnchorIs(view, i);
    var msgs := Strip(view);
    GroupFacts(msgs);
    var k :| 0 <= k < |GroupsOf(msgs)| && GroupsOf(msgs)[k] == g;
    if Holds(g, LatestUser(view)) {
      UserGroupIsSingle(msgs, k, LatestUser(view));
    }
    if Holds(g, CheckpointIndex(view)) {
      assert view[CheckpointIndex(view)] in view;
      UserGroupIsSingle(msgs, k, CheckpointIndex(view));
    }
  }

  lemma {:induction false} EndsBy(order: seq<Group>, q: int) returns (n: nat)
    requires Ordered(order) && forall g | g in order :: g.start < g.end
    ensures n <= |order| && forall k: nat | k < |order| :: k < n <==> order[k].end <= q
  {
    n := 0;
    if order != [] {
      var m := |order| - 1;
      assert order[m] in order;
      if order[m].end <= q {
        n := |order|;
        assert forall k: nat | k < m :: order[k].end <= order[m].start;
      } else {
        n := EndsBy(order[..m], q);
      }
    }
  }

  lemma {:induction false} OrderIsProper(view: seq<Entry>)
    ensures Ordered(DropOrder(view)) && forall g | g in DropOrder(view) :: g.start < g.end <= |view|
  {
    OrderFacts(view);
    GroupFacts(Strip(view));
    ChainedAt(GroupsOf(Strip(view)), 0, |view|);
  }

  lemma {:induction false} CutFlag(view: seq<Entry>, q: int, n: nat, i: nat)
    requires WellKinded(view) && IsBoundary(GroupsOf(Strip(view)), q) && i < |view| && n <= |DropOrder(view)|
    requires forall k: nat | k < |DropOrder(view)| :: k < n <==> DropOrder(view)[k].end <= q
    ensures Flags(view, DropOrder(view), n)[i] == CutFlags(view, q)[i]
  {
    var order, msgs := DropOrder(view), Strip(view);
    OrderFacts(view);
    AnchorIs(view, i);
    assert forall j | 0 <= j < n :: order[j] in order;
    if !Anchor(view, i) && i < q {
      var g := NoAnchorIsDroppable(view, i);
      GroupFacts(msgs);
      var m :| 0 <= m < |GroupsOf(msgs)| && GroupsOf(msgs)[m] == g;
      BoundaryOutside(GroupsOf(msgs), |msgs|, m, q);
      var k :| 0 <= k < |order| && order[k] == g;
      assert Holds(order[k], i) && k < n;
    }
  }

  lemma {:induction false} DropIsCut(view: seq<Entry>, q: int, n: nat)
    requires WellKinded(view) && IsBoundary(GroupsOf(Strip(view)), q) && n <= |DropOrder(view)|
    requires forall k: nat | k < |DropOrder(view)| :: k < n <==> DropOrder(view)[k].end <= q
    ensures Flags(view, DropOrder(view), n) == CutFlags(view, q)
    ensures After(view, DropOrder(view), n) == Cut(view, q)
  {
    forall i: nat | i < |view|
      ensures Flags(view, DropOrder(view), n)[i] == CutFlags(view, q)[i]
    {
      CutFlag(view, q, n, i);
    }
    assert Flags(view, DropOrder(view), n) == CutFlags(view, q);
  }

  /** Dropping up to a boundary before the end of the first n droppable groups drops fewer of them. */
  lemma {:induction false} EarlierCut(view: seq<Entry>, q: nat, n: nat, p: nat) returns (k: nat)
    requires WellKinded(view) && IsBoundary(GroupsOf(Strip(view)), q) && q < p && n <= |DropOrder(view)|
    requires p == |view| || (n > 0 && p == DropOrder(view)[n - 1].end) || (n == 0 && p == 0)
    ensures k <= |DropOrder(view)| && After(view, DropOrder(view), k) == Cut(view, q)
    ensures n > 0 && p == DropOrder(view)[n - 1].end ==> k < n
  {
    OrderIsProper(view);
    k := EndsBy(DropOrder(view), q);
    DropIsCut(view, q, k);
  }

  // ---- the earliest boundary that fits -------------------------------------------------------------

  lemma {:induction false} EndIsBoundary(view: seq<Entry>)
    ensures IsBoundary(GroupsOf(Strip(view)), |view|)
  {
    GroupFacts(Strip(view));
    ChainedAt(GroupsOf(Strip(view)), 0, |view|);
  }

  lemma {:induction false} DropIsBoundary(view: seq<Entry>, k: nat)
    requires k < |DropOrder(view)|
    ensures IsBoundary(GroupsOf(Strip(view)), DropOrder(view)[k].end)
  {
    OrderFacts(view);
    assert DropOrder(view)[k] in DropOrder(view);
  }

  lemma {:induction false} PromptAndRequestKept(view: seq<Entry>, keep: seq<bool>)
    requires |keep| == |view|
    requires forall i | 0 <= i < |view| :: keep[i] <==> (i == 0 && view[0].msg.role.System?) || i == LatestUser(view)
    ensures Kept(view, keep) == PromptAndRequest(view)
  {
    hide Kept;
    var u := LatestUser(view);
    if view == [] {
      KeptNone(view, keep);
    } else {
      assert keep == keep[..1] + keep[1..] && view == view[..1] + view[1..];
      KeptConcat(view[..1], keep[..1], view[1..], keep[1..]);
      OneKept(view[0], keep[0]);
      assert view[..1] == [view[0]] && keep[..1] == [keep[0]];
      if u <= 0 {
        KeptNone(view[1..], keep[1..]);
      } else {
        OnlyKept(view[1..], keep[1..], u - 1);
      }
    }
  }

  lemma {:induction false} OnlyKept(view: seq<Entry>, keep: seq<bool>, u: nat)
    requires |keep| == |view| && u < |view| && forall i | 0 <= i < |view| :: keep[i] <==> i == u
    ensures Kept(view, keep) == [view[u]]
  {
    hide Kept;
    KeptNone(view[u + 1..], keep[u + 1..]);
    assert view == view[..u] + ([view[u]] + view[u + 1..]) && keep == keep[..u] + ([keep[u]] + keep[u + 1..]);
    KeptConcat(view[..u], keep[..u], [view[u]] + view[u + 1..], [keep[u]] + keep[u + 1..]);
    KeptConcat([view[u]], [keep[u]], view[u + 1..], keep[u + 1..]);
    OneKept(view[u], keep[u]);
    KeptNone(view[..u], keep[..u]);
  }

  lemma {:induction false} OneKept(e: Entry, keep: bool)
    ensures Kept([e], [keep]) == if keep then [e] else []
  {
    assert Kept([e][..0], [keep][..0]) == [];
  }

  /** What is left when even the anchors do not fit. */
  lemma {:induction false} AnchorsOnly(view: seq<Entry>)
    requires WellKinded(view)
    ensures CheckpointIndex(view) < 0 ==> Cut(view, |view|) == PromptAndRequest(view)
    ensures CheckpointIndex(view) >= 0 ==>
      Kept(view, CutFlags(view, |view|)[CheckpointIndex(view) := false]) == PromptAndRequest(view)
  {
    var s, flags := CheckpointIndex(view), CutFlags(view, |view|);
    var left := if s >= 0 then flags[s := false] else flags;
    forall i | 0 <= i < |view|
      ensures left[i] <==> (i == 0 && view[0].msg.role.System?) || i == LatestUser(view)
    {
      AnchorIs(view, i);
      if i == s {
        assert view[s] in view;
      }
    }
    PromptAndRequestKept(view, left);
  }

  /** Where the first n droppable groups end, or the end of the view if they do not suffice. */
  lemma {:induction false} CutPoint(c: Counter, budget: int, view: seq<Entry>, n: nat) returns (p: nat)
    requires n <= |DropOrder(view)|
    requires !Fits(c, budget, After(view, DropOrder(view), n)) ==> n == |DropOrder(view)|
    ensures p <= |view| && IsBoundary(GroupsOf(Strip(view)), p)
    ensures forall k: nat | k < |DropOrder(view)| :: k < n <==> DropOrder(view)[k].end <= p
    ensures if Fits(c, budget, After(view, DropOrder(view), n))
      then p == if n == 0 then 0 else DropOrder(view)[n - 1].end else p == |view|
  {
    hide DropOrder, Fits, After;
    var order := DropOrder(view);
    OrderIsProper(view);
    EndIsBoundary(view);
    if !Fits(c, budget, After(view, order, n)) {
      p := |view|;
      assert forall k: nat | k < |order| :: order[k] in order;
    } else if n == 0 {
      p := 0;
      assert forall k: nat | k < |order| :: order[k] in order;
    } else {
      DropIsBoundary(view, n - 1);
      p := order[n - 1].end;
      assert forall k: nat | k < |order| :: order[k] in order;
    }
  }

  /**
   A view over budget is cut at the earliest group boundary that fits. If none does, not even the end, the
   prompt and the request are left.
   */
  lemma {:induction false} TruncatedIsCut(c: Counter, budget: int, view: seq<Entry>) returns (p: nat)
    requires WellKinded(view) && Valid(ToRaw(view)) && budget > 0 && !Fits(c, budget, view)
    ensures p <= |view| && IsBoundary(GroupsOf(Strip(view)), p)
    ensures forall q: nat | q < p && IsBoundary(GroupsOf(Strip(view)), q) :: !Fits(c, budget, Cut(view, q))
    ensures Truncated(c, budget, view) ==
      if Fits(c, budget, Cut(view, p)) then Cut(view, p) else PromptAndRequest(view)
    ensures !Fits(c, budget, Cut(view, p)) ==> p == |view|
  {
    hide Fits, Flags, Cut, CutFlags, Truncated, IsBoundary, DropOrder;
    var n := TruncatedDropsShortestPrefix(c, budget, view);
    p := CutPoint(c, budget, view, n);
    DropIsCut(view, p, n);
    AnchorsOnly(view);
    forall q: nat | q < p && IsBoundary(GroupsOf(Strip(view)), q)
      ensures !Fits(c, budget, Cut(view, q))
    {
      var k := EarlierCut(view, q, n, p);
      NotFitting(c, budget, view, n, k);
    }
  }

  lemma {:induction false} NotFitting(c: Counter, budget: int, view: seq<Entry>, n: nat, k: nat)
    requires ShortestDrop(c, budget, view, n) && k <= |DropOrder(view)|
    requires k < n || !Fits(c, budget, After(view, DropOrder(view), n))
    ensures !Fits(c, budget, After(view, DropOrder(view), k))
  {
  }

  /** A result over budget is the prompt and the request, and nothing else. */
  lemma {:induction false} OverBudgetIsPromptAndRequest(c: Counter, budget: int, view: seq<Entry>)
    requires WellKinded(view) && Valid(ToRaw(view)) && budget > 0
    requires !Fits(c, budget, Truncated(c, budget, view))
    ensures Truncated(c, budget, view) == PromptAndRequest(view)
  {
    if !Fits(c, budget, view) {
      var p := TruncatedIsCut(c, budget, view);
    }
  }

  lemma {:induction false} CheckpointKept(view: seq<Entry>, s: nat, keep: seq<bool>)
    requires s < |view| == |keep| && keep[s] && forall i | s < i < |view| :: !keep[i]
    ensures Kept(view, keep) == Kept(view[..s], keep[..s]) + [view[s]]
  {
    assert view[..s] + ([view[s]] + view[s + 1..]) == view;
    assert keep[..s] + ([keep[s]] + keep[s + 1..]) == keep;
    KeptConcat(view[..s], keep[..s], [view[s]] + view[s + 1..], [keep[s]] + keep[s + 1..]);
    KeptConcat([view[s]], [keep[s]], view[s + 1..], keep[s + 1..]);
    OneKept(view[s], keep[s]);
    KeptNone(view[s + 1..], keep[s + 1..]);
  }

  lemma {:induction false} RequestBeforeCheckpoint(view: seq<Entry>)
    requires CheckpointIndex(view) >= 0
    ensures var s := CheckpointIndex(view);
      && LatestUser(view[..s]) == LatestUser(view) == s - 1
      && Minimal(view) == PromptAndRequest(view[..s]) + [view[s]]
  {
    LatestUserIsLast(view);
    LatestUserUnique(view[..CheckpointIndex(view)], LatestUser(view));
  }

  /** The fallback payload is the anchors, whatever the view. */
  lemma {:induction false} MinimalIsAnchors(view: seq<Entry>)
    requires WellKinded(view)
    ensures Minimal(view) == Cut(view, |view|)
  {
    hide Kept, Minimal, PromptAndRequest, WellKinded;
    var u, s, keep := LatestUser(view), CheckpointIndex(view), CutFlags(view, |view|);
    forall i | 0 <= i < |view|
      ensures keep[i] <==> (i == 0 && view[0].msg.role.System?) || i == u || i == s
    {
      AnchorIs(view, i);
    }
    hide Anchor, CutFlags, LatestUser, CheckpointIndex;
    if s < 0 {
      NoCheckpoint(view);
      PromptAndRequestKept(view, keep);
    } else {
      RequestBeforeCheckpoint(view);
      CheckpointKept(view, s, keep);
      PromptAndRequestKept(view[..s], keep[..s]);
    }
  }

  lemma {:induction false} NoCheckpoint(view: seq<Entry>)
    requires CheckpointIndex(view) < 0
    ensures Minimal(view) == PromptAndRequest(view)
  {
  }
}
