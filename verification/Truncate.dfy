/**
 Group-safe truncation to a token budget: whole groups are dropped oldest first, around the
 leading system prompt, the latest persisted user message and its checkpoint.
 */
module Truncate {
  import opened Sequences
  import opened Payload
  import opened Groups
  import opened Indexed

  // ---- keeping a subset of the entries ------------------------------------------

  function Kept<T>(s: seq<T>, keep: seq<bool>): seq<T>
    requires |keep| == |s|
  {
    if s == [] then []
    else Kept(s[..|s| - 1], keep[..|s| - 1]) + (if keep[|s| - 1] then [s[|s| - 1]] else [])
  }

  method Rebuild(view: seq<Entry>, keep: array<bool>) returns (out: seq<Entry>)
    requires keep.Length == |view|
    ensures out == Kept(view, keep[..])
  {
    out := [];
    for i := 0 to |view|
      invariant out == Kept(view[..i], keep[..i])
    {
      assert view[..i + 1][..i] == view[..i] && keep[..i + 1][..i] == keep[..i];
      if keep[i] {
        out := out + [view[i]];
      }
    }
    assert view[..|view|] == view && keep[..keep.Length] == keep[..];
  }

  lemma {:induction false} KeptConcat<T>(a: seq<T>, ka: seq<bool>, b: seq<T>, kb: seq<bool>)
    requires |ka| == |a| && |kb| == |b|
    ensures Kept(a + b, ka + kb) == Kept(a, ka) + Kept(b, kb)
  {
    if b == [] {
      assert a + b == a && ka + kb == ka;
    } else {
      var n := |b| - 1;
      assert (a + b)[..|a| + n] == a + b[..n] && (ka + kb)[..|a| + n] == ka + kb[..n];
      KeptConcat(a, ka, b[..n], kb[..n]);
    }
  }

  lemma {:induction false} KeptAll<T>(s: seq<T>, keep: seq<bool>)
    requires |keep| == |s| && forall i | 0 <= i < |s| :: keep[i]
    ensures Kept(s, keep) == s
  {
    if s != [] {
      var n := |s| - 1;
      KeptAll(s[..n], keep[..n]);
      assert s == s[..n] + [s[n]];
    }
  }

  lemma {:induction false} KeptNone<T>(s: seq<T>, keep: seq<bool>)
    requires |keep| == |s| && forall i | 0 <= i < |s| :: !keep[i]
    ensures Kept(s, keep) == []
  {
    if s != [] {
      KeptNone(s[..|s| - 1], keep[..|s| - 1]);
    }
  }

  lemma {:induction false} KeptFrom<T>(s: seq<T>, keep: seq<bool>)
    requires |keep| == |s|
    ensures forall x | x in Kept(s, keep) :: x in s
  {
    if s != [] {
      KeptFrom(s[..|s| - 1], keep[..|s| - 1]);
    }
  }

  /** A message kept is a message kept, whichever layer is filtered first. */
  lemma {:induction false} StripKept(view: seq<Entry>, keep: seq<bool>)
    requires |keep| == |view|
    ensures Strip(Kept(view, keep)) == Kept(Strip(view), keep)
  {
    if view != [] {
      var n := |view| - 1;
      StripKept(view[..n], keep[..n]);
      assert Strip(view)[..n] == Strip(view[..n]);
      StripConcat(Kept(view[..n], keep[..n]), if keep[n] then [view[n]] else []);
    }
  }

  lemma {:induction false} KeptCallIds(msgs: seq<Message>, keep: seq<bool>)
    requires |keep| == |msgs|
    ensures NoNewIds(CallIds(Kept(msgs, keep)), CallIds(msgs))
  {
    if msgs != [] {
      var n := |msgs| - 1;
      var front, kept := msgs[..n], Kept(msgs[..n], keep[..n]);
      KeptCallIds(front, keep[..n]);
      assert msgs == front + [msgs[n]];
      CallIdsConcat(front, [msgs[n]]);
      CallIdsConcat(kept, [msgs[n]]);
      MoreIds(CallIds(kept), CallIds(front), CallIds([msgs[n]]));
      assert Kept(msgs, keep) == if keep[n] then kept + [msgs[n]] else kept;
    }
  }

  ghost predicate NoNewIds(fewer: seq<CallId>, ids: seq<CallId>) {
    multiset(fewer) <= multiset(ids)
  }

  lemma {:induction false} MoreIds(fewer: seq<CallId>, ids: seq<CallId>, last: seq<CallId>)
    requires NoNewIds(fewer, ids)
    ensures NoNewIds(fewer + last, ids + last)
    ensures NoNewIds(fewer, ids + last)
  {
  }

  lemma {:induction false} DistinctCounts(s: seq<CallId>)
    ensures Distinct(s) <==> forall x | x in s :: multiset(s)[x] == 1
  {
    if s != [] {
      var n := |s| - 1;
      DistinctCounts(s[..n]);
      assert s == s[..n] + [s[n]];
      assert forall x :: multiset(s)[x] == multiset(s[..n])[x] + (if x == s[n] then 1 else 0);
      if s[n] in s[..n] {
        var k :| 0 <= k < n && s[..n][k] == s[n];
        assert s[k] == s[n];
        assert multiset(s)[s[n]] >= 2;
      }
    }
  }

  lemma {:induction false} FewerIdsUsable(fewer: seq<CallId>, ids: seq<CallId>)
    requires UsableIds(ids) && NoNewIds(fewer, ids)
    ensures UsableIds(fewer)
  {
    DistinctCounts(ids);
    DistinctCounts(fewer);
    forall x | x in fewer
      ensures x in ids && multiset(fewer)[x] == 1
    {
      assert x in multiset(fewer);
      assert multiset(fewer)[x] <= multiset(ids)[x];
      assert x in multiset(ids);
    }
  }

  /** Each group is kept or dropped as a whole. */
  predicate WholeGroups(groups: seq<Group>, keep: seq<bool>) {
    forall g | g in groups :: g.start < g.end <= |keep| &&
      forall i | g.start <= i < g.end :: keep[i] == keep[g.start]
  }

  lemma {:induction false} Prefixes<T>(s: seq<T>, b: nat, e: nat)
    requires b <= e <= |s|
    ensures s[..e] == s[..b] + s[b..e]
  {
  }

  lemma {:induction false} KeptPartRunsIdle(msgs: seq<Message>, keep: seq<bool>, b: nat, e: nat, kept: bool)
    requires |keep| == |msgs| && b <= e <= |msgs|
    requires forall i | b <= i < e :: keep[i] == kept
    requires Run(Idle, Kept(msgs[..b], keep[..b])) == Idle && Run(Idle, msgs[b..e]) == Idle
    ensures Run(Idle, Kept(msgs[..e], keep[..e])) == Idle
  {
    var part, flags := msgs[b..e], keep[b..e];
    Prefixes(msgs, b, e);
    Prefixes(keep, b, e);
    KeptConcat(msgs[..b], keep[..b], part, flags);
    WholeOrNothing(part, flags, kept);
    RunConcat(Idle, Kept(msgs[..b], keep[..b]), Kept(part, flags));
  }

  lemma {:induction false} KeptRunsIdle(msgs: seq<Message>, keep: seq<bool>, k: nat)
    requires Valid(msgs) && |keep| == |msgs| && WholeGroups(GroupsOf(msgs), keep)
    requires k <= |GroupsOf(msgs)|
    ensures BoundaryAfter(GroupsOf(msgs), k) <= |msgs|
    ensures var b := BoundaryAfter(GroupsOf(msgs), k); Run(Idle, Kept(msgs[..b], keep[..b])) == Idle
  {
    if k > 0 {
      KeptRunsIdle(msgs, keep, k - 1);
      PartRunsIdle(msgs, k - 1);
      GroupFacts(msgs);
      GroupFollows(GroupsOf(msgs), |msgs|, k - 1);
      var g := GroupsOf(msgs)[k - 1];
      KeptPartRunsIdle(msgs, keep, g.start, g.end, keep[g.start]);
    }
  }

  lemma {:induction false} WholeOrNothing<T>(s: seq<T>, keep: seq<bool>, kept: bool)
    requires |keep| == |s| && forall i | 0 <= i < |s| :: keep[i] == kept
    ensures Kept(s, keep) == if kept then s else []
  {
    if kept {
      KeptAll(s, keep);
    } else {
      KeptNone(s, keep);
    }
  }

  /** Each group of a valid list takes the scan from idle to idle. */
  lemma {:induction false} PartRunsIdle(msgs: seq<Message>, k: nat)
    requires Valid(msgs) && k < |GroupsOf(msgs)|
    ensures GroupsOf(msgs)[k].start < GroupsOf(msgs)[k].end <= |msgs|
    ensures Run(Idle, msgs[GroupsOf(msgs)[k].start..GroupsOf(msgs)[k].end]) == Idle
  {
    GroupFacts(msgs);
    GroupFollows(GroupsOf(msgs), |msgs|, k);
    BoundaryRunsIdleAt(msgs, k);
    BoundaryRunsIdleAt(msgs, k + 1);
    var b, e := GroupsOf(msgs)[k].start, GroupsOf(msgs)[k].end;
    Prefixes(msgs, b, e);
    RunConcat(Idle, msgs[..b], msgs[b..e]);
  }

  lemma {:induction false} BoundaryRunsIdleAt(msgs: seq<Message>, k: nat)
    requires Valid(msgs) && k <= |GroupsOf(msgs)|
    ensures BoundaryAfter(GroupsOf(msgs), k) <= |msgs|
    ensures Run(Idle, msgs[..BoundaryAfter(GroupsOf(msgs), k)]) == Idle
  {
    assert msgs[..0] == [];
    if k > 0 {
      BoundaryRunsIdle(msgs, 0, k - 1);
    }
  }

  /** Validity is closed under removing whole groups. */
  lemma {:induction false} DroppingGroupsKeepsValid(msgs: seq<Message>, keep: seq<bool>)
    requires Valid(msgs) && |keep| == |msgs| && WholeGroups(GroupsOf(msgs), keep)
    ensures Valid(Kept(msgs, keep))
  {
    var groups := GroupsOf(msgs);
    KeptRunsIdle(msgs, keep, |groups|);
    GroupFacts(msgs);
    ChainedAt(groups, 0, |msgs|);
    assert BoundaryAfter(groups, |groups|) == |msgs|;
    assert msgs[..|msgs|] == msgs && keep[..|keep|] == keep;
    KeptCallIds(msgs, keep);
    FewerIdsUsable(CallIds(Kept(msgs, keep)), CallIds(msgs));
  }

  // ---- the drop order --------------------------------------------------------------

  /** Index of the checkpoint directly after the latest persisted user message, or -1. */
  function CheckpointIndex(view: seq<Entry>): (i: int)
    ensures -1 <= i < |view|
  {
    var u := LatestUser(view);
    if u >= 0 && u + 1 < |view| && view[u + 1].kind.ActiveTurnSummary? then u + 1 else -1
  }

  predicate Holds(g: Group, i: int) {
    g.start <= i < g.end
  }

  /** Everything but the leading system prompt, the message at u and the checkpoint at s. */
  predicate DroppableAround(view: seq<Entry>, u: int, s: int, g: Group)
    requires g.start < |view|
  {
    !(g.start == 0 && view[0].msg.role.System?) && !Holds(g, u) && !Holds(g, s)
  }

  function DropOrderAround(view: seq<Entry>, u: int, s: int, groups: seq<Group>): seq<Group>
    requires forall g | g in groups :: g.start < |view|
  {
    if groups == [] then []
    else
      var n := |groups| - 1;
      DropOrderAround(view, u, s, groups[..n]) + (if DroppableAround(view, u, s, groups[n]) then [groups[n]] else [])
  }

  /** Everything but the leading system prompt, the latest user message and its checkpoint. */
  predicate Droppable(view: seq<Entry>, g: Group)
    requires g.start < |view|
  {
    DroppableAround(view, LatestUser(view), CheckpointIndex(view), g)
  }

  /** The droppable groups in list order: those before the user message come first. */
  function DropOrder(view: seq<Entry>): seq<Group> {
    GroupFacts(Strip(view));
    DropOrderAround(view, LatestUser(view), CheckpointIndex(view), GroupsOf(Strip(view)))
  }

  /** The keep flags after dropping the first n groups of the order. */
  function Flags(view: seq<Entry>, order: seq<Group>, n: nat): seq<bool>
    requires n <= |order|
  {
    seq(|view|, i => forall j | 0 <= j < n :: !Holds(order[j], i))
  }

  /** The view left after dropping the first n groups of the order. */
  function After(view: seq<Entry>, order: seq<Group>, n: nat): seq<Entry>
    requires n <= |order|
  {
    Kept(view, Flags(view, order, n))
  }

  predicate Fits(c: Counter, budget: int, view: seq<Entry>) {
    Tokens(c, ToRaw(view)) <= budget
  }

  /** The least number of groups, from n on, whose removal meets the budget; or all of them. */
  function FirstFit(c: Counter, budget: int, view: seq<Entry>, order: seq<Group>, n: nat): (k: nat)
    requires n <= |order|
    ensures n <= k <= |order|
    decreases |order| - n
  {
    if n == |order| || Fits(c, budget, After(view, order, n)) then n
    else FirstFit(c, budget, view, order, n + 1)
  }

  lemma {:induction false} FirstFitIsLeast(c: Counter, budget: int, view: seq<Entry>, order: seq<Group>, n: nat)
    requires n <= |order|
    ensures var k := FirstFit(c, budget, view, order, n);
      && (forall j | n <= j < k :: !Fits(c, budget, After(view, order, j)))
      && (k < |order| ==> Fits(c, budget, After(view, order, k)))
    decreases |order| - n
  {
    if n < |order| && !Fits(c, budget, After(view, order, n)) {
      FirstFitIsLeast(c, budget, view, order, n + 1);
    }
  }

  /** Drops whole groups until the budget is met, and the checkpoint only after all of them. */
  function DropToFit(c: Counter, budget: int, view: seq<Entry>): seq<Entry> {
    var order := DropOrder(view);
    var n := FirstFit(c, budget, view, order, 0);
    var flags := Flags(view, order, n);
    var s := CheckpointIndex(view);
    if !Fits(c, budget, Kept(view, flags)) && s >= 0 then Kept(view, flags[s := false]) else Kept(view, flags)
  }

  /** System prompt, latest persisted user message and its checkpoint. */
  function Minimal(view: seq<Entry>): seq<Entry> {
    var u := LatestUser(view);
    (if view != [] && view[0].msg.role.System? then [view[0]] else []) +
    (if u < 0 then []
     else [view[u]] + (if CheckpointIndex(view) >= 0 then [view[u + 1]] else []))
  }

  function Truncated(c: Counter, budget: int, view: seq<Entry>): seq<Entry> {
    if view == [] || budget <= 0 || Fits(c, budget, view) then view
    else if !Valid(ToRaw(view)) then Minimal(view)
    else if !Valid(ToRaw(DropToFit(c, budget, view))) then Minimal(view)
    else DropToFit(c, budget, view)
  }

  // ---- properties --------------------------------------------------------------------

  lemma {:induction false} OrderSnoc(view: seq<Entry>, u: int, s: int, groups: seq<Group>, g: Group)
    requires forall h | h in groups + [g] :: h.start < |view|
    ensures forall h | h in groups :: h in groups + [g]
    ensures DropOrderAround(view, u, s, groups + [g]) ==
      DropOrderAround(view, u, s, groups) + (if DroppableAround(view, u, s, g) then [g] else [])
  {
    assert (groups + [g])[..|groups|] == groups;
  }

  lemma {:induction false} OrderIsDroppable(view: seq<Entry>, u: int, s: int, groups: seq<Group>)
    requires forall g | g in groups :: g.start < |view|
    ensures forall d | d in DropOrderAround(view, u, s, groups) ::
      d in groups && DroppableAround(view, u, s, d)
    ensures forall g | g in groups && DroppableAround(view, u, s, g) ::
      g in DropOrderAround(view, u, s, groups)
  {
    if groups != [] {
      var n := |groups| - 1;
      assert groups == groups[..n] + [groups[n]];
      OrderSnoc(view, u, s, groups[..n], groups[n]);
      OrderIsDroppable(view, u, s, groups[..n]);
    }
  }

  predicate Ordered(groups: seq<Group>) {
    forall j, k | 0 <= j < k < |groups| :: groups[j].end <= groups[k].start
  }

  lemma {:induction false} OrderIsOrdered(view: seq<Entry>, u: int, s: int, groups: seq<Group>)
    requires forall g | g in groups :: g.start < |view|
    requires Ordered(groups)
    ensures Ordered(DropOrderAround(view, u, s, groups))
  {
    if groups != [] {
      var n := |groups| - 1;
      var front := DropOrderAround(view, u, s, groups[..n]);
      assert groups == groups[..n] + [groups[n]];
      OrderSnoc(view, u, s, groups[..n], groups[n]);
      OrderIsOrdered(view, u, s, groups[..n]);
      OrderIsDroppable(view, u, s, groups[..n]);
      forall j | 0 <= j < |front|
        ensures front[j].end <= groups[n].start
      {
        assert front[j] in front;
        var k :| 0 <= k < n && groups[..n][k] == front[j];
      }
    }
  }

  lemma {:induction false} OrderFacts(view: seq<Entry>)
    ensures forall d | d in DropOrder(view) ::
      d in GroupsOf(Strip(view)) && d.start < |view| && Droppable(view, d)
    ensures forall g | g in GroupsOf(Strip(view)) ::
      g.start < |view| && (Droppable(view, g) ==> g in DropOrder(view))
    ensures Ordered(DropOrder(view))
  {
    GroupFacts(Strip(view));
    ChainedAt(GroupsOf(Strip(view)), 0, |view|);
    OrderIsDroppable(view, LatestUser(view), CheckpointIndex(view), GroupsOf(Strip(view)));
    OrderIsOrdered(view, LatestUser(view), CheckpointIndex(view), GroupsOf(Strip(view)));
  }

  lemma {:induction false} GroupsDisjoint(groups: seq<Group>, lo: nat, hi: nat, g: Group, h: Group, i: int)
    requires Chained(groups, lo, hi) && g in groups && h in groups && Holds(g, i) && Holds(h, i)
    ensures g == h
  {
    ChainedAt(groups, lo, hi);
    var j :| 0 <= j < |groups| && groups[j] == g;
    var k :| 0 <= k < |groups| && groups[k] == h;
  }

  lemma {:induction false} FlagsAreWholeGroups(view: seq<Entry>, n: nat)
    requires n <= |DropOrder(view)|
    ensures WholeGroups(GroupsOf(Strip(view)), Flags(view, DropOrder(view), n))
  {
    var msgs, order := Strip(view), DropOrder(view);
    var groups, flags := GroupsOf(msgs), Flags(view, DropOrder(view), n);
    GroupFacts(msgs);
    OrderFacts(view);
    forall g, i | g in groups && g.start <= i < g.end
      ensures flags[i] == flags[g.start]
    {
      forall j | 0 <= j < n
        ensures Holds(order[j], i) <==> Holds(order[j], g.start)
      {
        assert order[j] in order;
        if Holds(order[j], i) {
          GroupsDisjoint(groups, 0, |msgs|, g, order[j], i);
        }
        if Holds(order[j], g.start) {
          GroupsDisjoint(groups, 0, |msgs|, g, order[j], g.start);
        }
      }
    }
  }

  lemma {:induction false} WellKindedKept(view: seq<Entry>, keep: seq<bool>)
    requires WellKinded(view) && |keep| == |view|
    ensures WellKinded(Kept(view, keep))
  {
    KeptFrom(view, keep);
  }

  /** The keep flags that DropToFit ends with. */
  function FinalFlags(c: Counter, budget: int, view: seq<Entry>): (flags: seq<bool>)
    ensures |flags| == |view|
  {
    var flags := Flags(view, DropOrder(view), FirstFit(c, budget, view, DropOrder(view), 0));
    var s := CheckpointIndex(view);
    if !Fits(c, budget, Kept(view, flags)) && s >= 0 then flags[s := false] else flags
  }

  /** The checkpoint is a group of its own, so dropping it alone also drops a whole group. */
  lemma {:induction false} CheckpointIsAGroup(view: seq<Entry>, keep: seq<bool>)
    requires WellKinded(view) && |keep| == |view| && CheckpointIndex(view) >= 0
    requires WholeGroups(GroupsOf(Strip(view)), keep)
    ensures WholeGroups(GroupsOf(Strip(view)), keep[CheckpointIndex(view) := false])
  {
    var msgs, s := Strip(view), CheckpointIndex(view);
    var groups, dropped := GroupsOf(msgs), keep[CheckpointIndex(view) := false];
    assert view[s] in view && msgs[s].role.User?;
    GroupFacts(msgs);
    forall g, i | g in groups && g.start <= i < g.end
      ensures dropped[i] == dropped[g.start]
    {
      if Holds(g, s) {
        var k :| 0 <= k < |groups| && groups[k] == g;
        UserGroupIsSingle(msgs, k, s);
      }
    }
  }

  /** Truncating a valid view leaves a valid view: the source's last fallback is unreachable. */
  lemma {:induction false} DropToFitIsValid(c: Counter, budget: int, view: seq<Entry>)
    requires WellKinded(view) && Valid(ToRaw(view))
    ensures WholeGroups(GroupsOf(Strip(view)), FinalFlags(c, budget, view))
    ensures DropToFit(c, budget, view) == Kept(view, FinalFlags(c, budget, view))
    ensures WellKinded(DropToFit(c, budget, view)) && Valid(ToRaw(DropToFit(c, budget, view)))
  {
    var keep := FinalFlags(c, budget, view);
    FlagsAreWholeGroups(view, FirstFit(c, budget, view, DropOrder(view), 0));
    if CheckpointIndex(view) >= 0 {
      CheckpointIsAGroup(view, Flags(view, DropOrder(view), FirstFit(c, budget, view, DropOrder(view), 0)));
    }
    RawIsValid(view);
    DroppingGroupsKeepsValid(Strip(view), keep);
    StripKept(view, keep);
    WellKindedKept(view, keep);
    RawIsValid(Kept(view, keep));
  }

  lemma {:induction false} PushKeepsValid(view: seq<Entry>, e: Entry)
    requires Valid(ToRaw(view))
    requires e.kind.ActiveTurnSummary? || e.msg.role.User? || e.msg.role.System?
    ensures Valid(ToRaw(view + [e]))
  {
    assert (view + [e])[..|view|] == view;
    var out, wrapped := ToRaw(view), WRAPPER_HEAD + e.msg.content + WRAPPER_TAIL;
    if !e.kind.ActiveTurnSummary? {
      RunSnoc(Idle, out, e.msg);
      Assoc(CallIds(out), [], []);
    } else if out != [] && out[|out| - 1].role.User? {
      ScanIgnoresUserText(Idle, out, out[|out| - 1].(content := out[|out| - 1].content + wrapped));
    } else {
      RunSnoc(Idle, out, e.msg.(role := User, content := wrapped));
      Assoc(CallIds(out), [], []);
    }
  }

  /** The minimal payload is valid whatever the input looked like. */
  lemma {:induction false} MinimalIsValid(view: seq<Entry>)
    ensures Valid(ToRaw(Minimal(view)))
  {
    var head := if view != [] && view[0].msg.role.System? then [view[0]] else [];
    HeadIsValid(view);
    hide Valid, ToRaw, LatestUser;
    var u := LatestUser(view);
    if u < 0 {
      assert Minimal(view) == head;
    } else {
      PushKeepsValid(head, view[u]);
      if CheckpointIndex(view) < 0 {
        assert Minimal(view) == head + [view[u]];
      } else {
        PushKeepsValid(head + [view[u]], view[u + 1]);
        assert Minimal(view) == head + [view[u]] + [view[u + 1]];
      }
    }
  }

  lemma {:induction false} HeadIsValid(view: seq<Entry>)
    ensures Valid(ToRaw(if view != [] && view[0].msg.role.System? then [view[0]] else []))
  {
    assert Valid(ToRaw([]));
    if view != [] && view[0].msg.role.System? {
      PushKeepsValid([], view[0]);
      assert [] + [view[0]] == [view[0]];
    }
  }

  // ---- what survives -----------------------------------------------------------------

  /** The entry that LatestUser points at, if any. */
  function LatestUserEntry(view: seq<Entry>): seq<Entry> {
    var u := LatestUser(view);
    if u < 0 then [] else [view[u]]
  }

  lemma {:induction false} LatestUserSnoc(view: seq<Entry>, e: Entry)
    ensures LatestUserEntry(view + [e]) == if PersistedUser(e) then [e] else LatestUserEntry(view)
  {
    assert (view + [e])[..|view|] == view;
  }

  lemma {:induction false} LatestUserKept(view: seq<Entry>, keep: seq<bool>)
    requires |keep| == |view| && (LatestUser(view) >= 0 ==> keep[LatestUser(view)])
    ensures LatestUserEntry(Kept(view, keep)) == LatestUserEntry(view)
  {
    if view != [] {
      var n := |view| - 1;
      var front, kept := view[..n], Kept(view[..n], keep[..n]);
      assert view == front + [view[n]];
      LatestUserSnoc(front, view[n]);
      LatestUserSnoc(kept, view[n]);
      assert Kept(view, keep) == if keep[n] then kept + [view[n]] else kept;
      if !PersistedUser(view[n]) {
        assert LatestUser(view) == LatestUser(front);
        LatestUserKept(front, keep[..n]);
      }
    }
  }

  lemma {:induction false} FirstKept<T>(s: seq<T>, keep: seq<bool>)
    requires |keep| == |s| && s != [] && keep[0]
    ensures Kept(s, keep) != [] && Kept(s, keep)[0] == s[0]
  {
    var n := |s| - 1;
    if n == 0 {
      assert Kept(s[..n], keep[..n]) == [];
    } else {
      FirstKept(s[..n], keep[..n]);
    }
  }

  lemma {:induction false} AnchorsAreKept(c: Counter, budget: int, view: seq<Entry>)
    ensures var keep := FinalFlags(c, budget, view);
      && (view != [] && view[0].msg.role.System? && CheckpointIndex(view) != 0 ==> keep[0])
      && (LatestUser(view) >= 0 ==> keep[LatestUser(view)])
  {
    OrderFacts(view);
    var order, n := DropOrder(view), FirstFit(c, budget, view, DropOrder(view), 0);
    forall j | 0 <= j < n
      ensures !Holds(order[j], LatestUser(view))
      ensures view != [] && view[0].msg.role.System? ==> !Holds(order[j], 0)
    {
      assert order[j] in order;
    }
  }

  /** out consists of whole groups of the view, in order. */
  ghost predicate SelectsGroups(view: seq<Entry>, out: seq<Entry>) {
    exists keep :: |keep| == |view| && WholeGroups(GroupsOf(Strip(view)), keep) && out == Kept(view, keep)
  }

  ghost predicate KeepsAnchors(view: seq<Entry>, out: seq<Entry>) {
    && LatestUserEntry(out) == LatestUserEntry(view)
    && (view != [] && view[0].msg.role.System? ==> out != [] && out[0] == view[0])
  }

  lemma {:induction false} WholeViewSelects(view: seq<Entry>)
    ensures SelectsGroups(view, view) && KeepsAnchors(view, view)
  {
    var all := seq(|view|, i => true);
    GroupFacts(Strip(view));
    KeptAll(view, all);
  }

  lemma {:induction false} DropToFitKeepsAnchors(c: Counter, budget: int, view: seq<Entry>)
    requires WellKinded(view) && Valid(ToRaw(view))
    ensures SelectsGroups(view, DropToFit(c, budget, view)) && KeepsAnchors(view, DropToFit(c, budget, view))
  {
    var keep := FinalFlags(c, budget, view);
    DropToFitIsValid(c, budget, view);
    AnchorsAreKept(c, budget, view);
    LatestUserKept(view, keep);
    if view != [] && view[0].msg.role.System? {
      assert view[0] in view;
      FirstKept(view, keep);
    }
  }

  /**
   The result of truncating a valid view: a valid selection of the view's whole groups that
   keeps the leading system prompt and the latest persisted user message.
   */
  lemma {:induction false} TruncatedKeepsAnchors(c: Counter, budget: int, view: seq<Entry>)
    requires WellKinded(view) && Valid(ToRaw(view))
    ensures WellKinded(Truncated(c, budget, view)) && Valid(ToRaw(Truncated(c, budget, view)))
    ensures SelectsGroups(view, Truncated(c, budget, view))
    ensures KeepsAnchors(view, Truncated(c, budget, view))
  {
    WholeViewSelects(view);
    DropToFitIsValid(c, budget, view);
    DropToFitKeepsAnchors(c, budget, view);
  }

  /** n is the least number of oldest droppable groups whose removal fits, or all of them. */
  ghost predicate ShortestDrop(c: Counter, budget: int, view: seq<Entry>, n: nat) {
    var order := DropOrder(view);
    && n <= |order|
    && (forall j | 0 <= j < n :: !Fits(c, budget, After(view, order, j)))
    && (n < |order| ==> Fits(c, budget, After(view, order, n)))
  }

  /** Over budget, exactly the shortest sufficient prefix goes; the checkpoint only if nothing else is left. */
  lemma {:induction false} TruncatedDropsShortestPrefix(c: Counter, budget: int, view: seq<Entry>) returns (n: nat)
    requires WellKinded(view) && Valid(ToRaw(view)) && budget > 0 && !Fits(c, budget, view)
    ensures ShortestDrop(c, budget, view, n)
    ensures Fits(c, budget, After(view, DropOrder(view), n)) ==>
      Truncated(c, budget, view) == After(view, DropOrder(view), n)
    ensures !Fits(c, budget, After(view, DropOrder(view), n)) && CheckpointIndex(view) >= 0 ==>
      Truncated(c, budget, view) == Kept(view, Flags(view, DropOrder(view), n)[CheckpointIndex(view) := false])
    ensures !Fits(c, budget, After(view, DropOrder(view), n)) && CheckpointIndex(view) < 0 ==>
      Truncated(c, budget, view) == After(view, DropOrder(view), n)
  {
    n := FirstFit(c, budget, view, DropOrder(view), 0);
    FirstFitIsLeast(c, budget, view, DropOrder(view), 0);
    DropToFitIsValid(c, budget, view);
    EmptyViewIsValid(view);
  }

  lemma {:induction false} EmptyViewIsValid(view: seq<Entry>)
    ensures view == [] ==> Valid(ToRaw(view)) && DropOrder(view) == []
  {
  }

  /** A result over budget means that nothing droppable and no checkpoint is left. */
  lemma {:induction false} OverBudgetMeansNothingLeft(c: Counter, budget: int, view: seq<Entry>)
    requires WellKinded(view) && Valid(ToRaw(view)) && budget > 0
    ensures !Fits(c, budget, Truncated(c, budget, view)) ==>
      FirstFit(c, budget, view, DropOrder(view), 0) == |DropOrder(view)|
    ensures !Fits(c, budget, Truncated(c, budget, view)) && CheckpointIndex(view) >= 0 ==>
      !FinalFlags(c, budget, view)[CheckpointIndex(view)]
  {
    DropToFitIsValid(c, budget, view);
    FirstFitIsLeast(c, budget, view, DropOrder(view), 0);
    assert ToRaw([]) == [];
  }

  // ---- the algorithm -------------------------------------------------------------------

  method MinimalSafeIndexedPayload(view: seq<Entry>) returns (out: seq<Entry>)
    ensures out == Minimal(view)
  {
    out := [];
    if |view| > 0 && view[0].msg.role.System? {
      out := out + [view[0]];
    }
    var userIdx := LatestPersistedUserIndex(view);
    if userIdx >= 0 {
      out := out + [view[userIdx]];
      if userIdx + 1 < |view| && view[userIdx + 1].kind.ActiveTurnSummary? {
        out := out + [view[userIdx + 1]];
      }
    }
  }

  function Dropped(flags: seq<bool>, g: Group): seq<bool> {
    seq(|flags|, i requires 0 <= i < |flags| => flags[i] && !Holds(g, i))
  }

  method DropGroup(keep: array<bool>, g: Group)
    requires g.start <= g.end <= keep.Length
    modifies keep
    ensures keep[..] == Dropped(old(keep[..]), g)
  {
    for i := g.start to g.end
      invariant forall j | 0 <= j < keep.Length :: keep[j] == (old(keep[j]) && !(g.start <= j < i))
    {
      keep[i] := false;
    }
  }

  lemma {:induction false} NextFlags(view: seq<Entry>, order: seq<Group>, n: nat)
    requires n < |order|
    ensures Flags(view, order, n + 1) == Dropped(Flags(view, order, n), order[n])
  {
  }

  method OverBudget(view: seq<Entry>, keep: array<bool>, c: Counter, budget: int) returns (over: bool)
    requires keep.Length == |view|
    ensures over <==> !Fits(c, budget, Kept(view, keep[..]))
  {
    var rebuilt := Rebuild(view, keep);
    var raw := ToRawMessages(rebuilt);
    var total := CountMessages(c, raw);
    over := total > budget;
  }

  lemma {:induction false} NotYetFits(c: Counter, budget: int, view: seq<Entry>, order: seq<Group>, n: nat)
    requires n < |order| && !Fits(c, budget, After(view, order, n))
    ensures FirstFit(c, budget, view, order, n) == FirstFit(c, budget, view, order, n + 1)
  {
  }

  /** Drops candidates oldest first until the view fits; the candidates are order[start..]. */
  method DropUntilFits(view: seq<Entry>, candidates: seq<Group>, keep: array<bool>, c: Counter, budget: int,
                       ghost order: seq<Group>, ghost start: nat, ghost dropped: nat) returns (ghost n: nat)
    requires forall g | g in candidates :: g.start <= g.end <= |view|
    requires start + |candidates| <= |order| && order[start..start + |candidates|] == candidates
    requires dropped <= start && (dropped < start ==> Fits(c, budget, After(view, order, dropped)))
    requires keep.Length == |view| && keep[..] == Flags(view, order, dropped)
    modifies keep
    ensures dropped <= n <= start + |candidates|
    ensures n < start + |candidates| ==> Fits(c, budget, After(view, order, n))
    ensures keep[..] == Flags(view, order, n)
    ensures FirstFit(c, budget, view, order, n) == FirstFit(c, budget, view, order, dropped)
  {
    hide Flags, Kept, Dropped, Fits, FirstFit;
    n := dropped;
    for k := 0 to |candidates|
      invariant dropped <= n <= start + k
      invariant n < start + k ==> Fits(c, budget, After(view, order, n))
      invariant keep[..] == Flags(view, order, n)
      invariant FirstFit(c, budget, view, order, n) == FirstFit(c, budget, view, order, dropped)
    {
      var over := OverBudget(view, keep, c, budget);
      if !over {
        break;
      }
      assert n == start + k;
      var g := candidates[k];
      assert g == order[start..start + |candidates|][k];
      NextFlags(view, order, n);
      NotYetFits(c, budget, view, order, n);
      DropGroup(keep, g);
      n := n + 1;
    }
  }

  method SplitCandidates(view: seq<Entry>, groups: seq<Group>, userIdx: int, activeSummaryIdx: int)
    returns (beforeUser: seq<Group>, afterUser: seq<Group>)
    requires groups == GroupsOf(Strip(view))
    ensures forall g | g in groups :: g.start < |view|
    ensures beforeUser + afterUser == DropOrderAround(view, userIdx, activeSummaryIdx, groups)
  {
    GroupFacts(Strip(view));
    beforeUser, afterUser := [], [];
    for k := 0 to |groups|
      invariant beforeUser + afterUser == DropOrderAround(view, userIdx, activeSummaryIdx, groups[..k])
      invariant afterUser != [] ==> userIdx >= 0 && BoundaryAfter(groups, k) > userIdx
    {
      var g := groups[k];
      assert groups[..k + 1] == groups[..k] + [g];
      OrderSnoc(view, userIdx, activeSummaryIdx, groups[..k], g);
      GroupFollows(groups, |view|, k);
      var kept := (g.start == 0 && view[g.start].msg.role.System?)
                  || (userIdx >= g.start && userIdx < g.end)
                  || (activeSummaryIdx >= g.start && activeSummaryIdx < g.end);
      if !kept {
        if userIdx < 0 || g.end <= userIdx {
          assert afterUser == [];
          beforeUser := beforeUser + [g];
        } else {
          Assoc(beforeUser, afterUser, [g]);
          afterUser := afterUser + [g];
        }
      }
    }
    assert groups[..|groups|] == groups;
  }

  method TruncateIndexedToBudget(view: seq<Entry>, budget: int, c: Counter) returns (out: seq<Entry>)
    ensures out == Truncated(c, budget, view)
  {
    if |view| == 0 || budget <= 0 {
      return view;
    }
    var raw := ToRawMessages(view);
    var total := CountMessages(c, raw);
    if total <= budget {
      return view;
    }
    var verdict := ValidateProviderPayload(raw);
    if verdict.Unsafe? {
      out := MinimalSafeIndexedPayload(view);
      return;
    }
    out := DropWholeGroups(view, budget, c);
    raw := ToRawMessages(out);
    verdict := ValidateProviderPayload(raw);
    if verdict.Unsafe? {
      out := MinimalSafeIndexedPayload(view);
    }
  }

  lemma {:induction false} OrderInBounds(view: seq<Entry>, beforeUser: seq<Group>, afterUser: seq<Group>)
    requires beforeUser + afterUser == DropOrder(view)
    ensures forall g | g in beforeUser || g in afterUser :: g.start <= g.end <= |view|
  {
    OrderFacts(view);
    GroupFacts(Strip(view));
    assert forall g | g in beforeUser || g in afterUser :: g in DropOrder(view);
  }

  /** First the groups before the user message, then those after it. */
  method DropInOrder(view: seq<Entry>, beforeUser: seq<Group>, afterUser: seq<Group>, keep: array<bool>,
                     c: Counter, budget: int)
    requires forall g | g in beforeUser || g in afterUser :: g.start <= g.end <= |view|
    requires keep.Length == |view| && keep[..] == Flags(view, beforeUser + afterUser, 0)
    modifies keep
    ensures keep[..] == Flags(view, beforeUser + afterUser, FirstFit(c, budget, view, beforeUser + afterUser, 0))
  {
    ghost var order, nb, na := beforeUser + afterUser, |beforeUser|, |afterUser|;
    assert order[0..0 + nb] == beforeUser && order[nb..nb + na] == afterUser;
    ghost var n := DropUntilFits(view, beforeUser, keep, c, budget, order, 0, 0);
    n := DropUntilFits(view, afterUser, keep, c, budget, order, nb, n);
    assert n == FirstFit(c, budget, view, order, n);
  }

  method DropWholeGroups(view: seq<Entry>, budget: int, c: Counter) returns (out: seq<Entry>)
    ensures out == DropToFit(c, budget, view)
  {
    var groups := GroupMessagesForCompression(Strip(view));
    var keep := new bool[|view|](i => true);
    var userIdx := LatestPersistedUserIndex(view);
    var activeSummaryIdx := -1;
    if userIdx >= 0 && userIdx + 1 < |view| && view[userIdx + 1].kind.ActiveTurnSummary? {
      activeSummaryIdx := userIdx + 1;
    }
    var beforeUser, afterUser := SplitCandidates(view, groups, userIdx, activeSummaryIdx);
    OrderInBounds(view, beforeUser, afterUser);
    assert keep[..] == Flags(view, DropOrder(view), 0);
    DropInOrder(view, beforeUser, afterUser, keep, c, budget);
    out := Rebuild(view, keep);
    var over := OverBudget(view, keep, c, budget);
    if over && activeSummaryIdx >= 0 {
      ghost var flags := keep[..];
      keep[activeSummaryIdx] := false;
      assert keep[..] == flags[activeSummaryIdx := false];
      out := Rebuild(view, keep);
    }
  }
}
