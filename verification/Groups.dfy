/**
 Indivisible message groups and the compression boundary that is snapped to them.
 */
module Groups {
  import opened Sequences
  import opened Payload

  datatype GroupKind = SystemGroup | UserGroup | AssistantToolGroup | AssistantGroup | OtherGroup

  /** Messages `start` (inclusive) to `end` (exclusive). */
  datatype Group = Group(start: nat, end: nat, kind: GroupKind)

  /** The end of the run of tool messages that begins at i. */
  function ToolRunEnd(msgs: seq<Message>, i: nat): (end: nat)
    requires i <= |msgs|
    ensures i <= end <= |msgs|
    decreases |msgs| - i
  {
    if i < |msgs| && msgs[i].role.Tool? then ToolRunEnd(msgs, i + 1) else i
  }

  lemma {:induction false} ToolRunFacts(msgs: seq<Message>, i: nat)
    requires i <= |msgs|
    ensures forall k | i <= k < ToolRunEnd(msgs, i) :: msgs[k].role.Tool?
    ensures ToolRunEnd(msgs, i) < |msgs| ==> !msgs[ToolRunEnd(msgs, i)].role.Tool?
    decreases |msgs| - i
  {
    if i < |msgs| && msgs[i].role.Tool? {
      ToolRunFacts(msgs, i + 1);
    }
  }

  function GroupAt(msgs: seq<Message>, i: nat): Group
    requires i < |msgs|
  {
    match msgs[i].role
    case System => Group(i, i + 1, SystemGroup)
    case User => Group(i, i + 1, UserGroup)
    case Assistant =>
      if msgs[i].calls != [] then Group(i, ToolRunEnd(msgs, i + 1), AssistantToolGroup)
      else Group(i, i + 1, AssistantGroup)
    case _ => Group(i, i + 1, OtherGroup)
  }

  function GroupsFrom(msgs: seq<Message>, i: nat): seq<Group>
    requires i <= |msgs|
    decreases |msgs| - i
  {
    if i == |msgs| then []
    else [GroupAt(msgs, i)] + GroupsFrom(msgs, GroupAt(msgs, i).end)
  }

  function GroupsOf(msgs: seq<Message>): seq<Group> {
    GroupsFrom(msgs, 0)
  }

  method GroupMessagesForCompression(msgs: seq<Message>) returns (groups: seq<Group>)
    ensures groups == GroupsOf(msgs)
  {
    groups := [];
    var i := 0;
    while i < |msgs|
      invariant i <= |msgs|
      invariant groups + GroupsFrom(msgs, i) == GroupsOf(msgs)
    {
      var m, g := msgs[i], Group(i, i + 1, OtherGroup);
      if m.role.System? {
        g := Group(i, i + 1, SystemGroup);
      } else if m.role.User? {
        g := Group(i, i + 1, UserGroup);
      } else if m.role.Assistant? {
        if m.calls != [] {
          var end := i + 1;
          while end < |msgs| && msgs[end].role.Tool?
            invariant i < end <= |msgs|
            invariant ToolRunEnd(msgs, end) == ToolRunEnd(msgs, i + 1)
          {
            end := end + 1;
          }
          g := Group(i, end, AssistantToolGroup);
        } else {
          g := Group(i, i + 1, AssistantGroup);
        }
      }
      assert g == GroupAt(msgs, i);
      Assoc(groups, [g], GroupsFrom(msgs, g.end));
      groups := groups + [g];
      i := g.end;
    }
    assert groups + [] == groups;
  }

  // ---- what the groups of a list look like -----------------------------------

  /** The groups are non-empty and lie end to end from lo to hi. */
  predicate Chained(groups: seq<Group>, lo: nat, hi: nat) {
    if groups == [] then lo == hi
    else groups[0].start == lo && lo < groups[0].end && Chained(groups[1..], groups[0].end, hi)
  }

  lemma {:induction false} GroupsAreChained(msgs: seq<Message>, i: nat)
    requires i <= |msgs|
    ensures Chained(GroupsFrom(msgs, i), i, |msgs|)
    decreases |msgs| - i
  {
    if i < |msgs| {
      GroupsAreChained(msgs, GroupAt(msgs, i).end);
    }
  }

  /** Every group of the chain, with the bounds of its neighbours. */
  lemma {:induction false} ChainedAt(groups: seq<Group>, lo: nat, hi: nat)
    requires Chained(groups, lo, hi)
    ensures lo <= hi
    ensures forall k | 0 <= k < |groups| :: lo <= groups[k].start < groups[k].end <= hi
    ensures forall j, k | 0 <= j < k < |groups| :: groups[j].end <= groups[k].start
    ensures forall j, k | 0 <= j < k < |groups| && k == j + 1 :: groups[j].end == groups[k].start
    ensures if groups == [] then lo == hi else groups[0].start == lo && groups[|groups| - 1].end == hi
  {
    if groups != [] {
      ChainedAt(groups[1..], groups[0].end, hi);
      assert forall k | 1 <= k < |groups| :: groups[k] == groups[1..][k - 1];
    }
  }

  lemma {:induction false} GroupsAreGroupAt(msgs: seq<Message>, i: nat)
    requires i <= |msgs|
    ensures forall g | g in GroupsFrom(msgs, i) :: g.start < |msgs| && g == GroupAt(msgs, g.start)
    decreases |msgs| - i
  {
    if i < |msgs| {
      GroupsAreGroupAt(msgs, GroupAt(msgs, i).end);
    }
  }

  lemma {:induction false} GroupFacts(msgs: seq<Message>)
    ensures Chained(GroupsOf(msgs), 0, |msgs|)
    ensures forall g | g in GroupsOf(msgs) :: g.start < g.end <= |msgs| && g == GroupAt(msgs, g.start)
  {
    GroupsAreChained(msgs, 0);
    ChainedAt(GroupsOf(msgs), 0, |msgs|);
    GroupsAreGroupAt(msgs, 0);
  }

  ghost predicate IsBoundary(groups: seq<Group>, b: int) {
    b == 0 || exists k | 0 <= k < |groups| :: groups[k].end == b
  }

  /** Results of the group opened at j still follow at b. */
  ghost predicate Splits(msgs: seq<Message>, j: nat, b: nat) {
    j < b < |msgs| && Opens(msgs[j]) && forall k | j < k <= b :: msgs[k].role.Tool?
  }

  lemma {:induction false} BoundaryOutside(groups: seq<Group>, hi: nat, i: nat, b: int)
    requires Chained(groups, 0, hi) && i < |groups| && IsBoundary(groups, b)
    ensures b <= groups[i].start || b >= groups[i].end
  {
    ChainedAt(groups, 0, hi);
    hide Chained;
    if b != 0 {
      var k :| 0 <= k < |groups| && groups[k].end == b;
      assert k < i ==> groups[k].end <= groups[i].start;
      assert i < k ==> groups[i].end <= groups[k].start;
    }
  }

  /** No boundary separates an assistant call group from one of its results, valid list or not. */
  lemma {:induction false} BoundaryNeverSplits(msgs: seq<Message>, j: nat, b: nat)
    requires IsBoundary(GroupsOf(msgs), b)
    ensures !Splits(msgs, j, b)
  {
    GroupFacts(msgs);
    hide GroupsFrom, Chained, IsBoundary, ToolRunEnd;
    if Splits(msgs, j, b) {
      var i := HoldingGroup(GroupsOf(msgs), 0, |msgs|, j);
      OpenerStartsItsGroup(msgs, i, j);
      ToolRunFacts(msgs, j + 1);
      BoundaryOutside(GroupsOf(msgs), |msgs|, i, b);
    }
  }

  lemma {:induction false} OpenerStartsItsGroup(msgs: seq<Message>, i: nat, j: nat)
    requires i < |GroupsOf(msgs)| && j < |msgs| && Opens(msgs[j])
    requires GroupsOf(msgs)[i].start <= j < GroupsOf(msgs)[i].end
    ensures GroupsOf(msgs)[i] == GroupAt(msgs, j)
  {
    GroupFacts(msgs);
    var g := GroupsOf(msgs)[i];
    assert g == GroupAt(msgs, g.start);
    if Opens(msgs[g.start]) {
      ToolRunFacts(msgs, g.start + 1);
    }
  }

  lemma {:induction false} HoldingGroup(groups: seq<Group>, lo: nat, hi: nat, j: nat) returns (i: nat)
    requires Chained(groups, lo, hi) && lo <= j < hi
    ensures i < |groups| && groups[i].start <= j < groups[i].end
  {
    if j < groups[0].end {
      i := 0;
    } else {
      i := HoldingGroup(groups[1..], groups[0].end, hi, j);
      i := i + 1;
    }
  }

  /** In a valid list the scan is idle again at the end of every group. */
  lemma {:induction false} GroupRunsIdle(msgs: seq<Message>, i: nat)
    requires Valid(msgs) && i < |msgs| && Run(Idle, msgs[..i]) == Idle
    ensures Run(Idle, msgs[..GroupAt(msgs, i).end]) == Idle
    ensures !msgs[i].role.Tool?
  {
    var end := GroupAt(msgs, i).end;
    OneMore(msgs, i);
    assert Scannable(msgs[..i + 1]);
    if end == |msgs| {
      assert msgs[..end] == msgs;
    } else if Opens(msgs[i]) {
      ToolRunFacts(msgs, i + 1);
      OneMore(msgs, end);
    }
  }

  lemma {:induction false} BoundaryRunsIdle(msgs: seq<Message>, i: nat, k: nat)
    requires Valid(msgs) && i <= |msgs| && Run(Idle, msgs[..i]) == Idle
    requires k < |GroupsFrom(msgs, i)|
    ensures GroupsFrom(msgs, i)[k].end <= |msgs|
    ensures Run(Idle, msgs[..GroupsFrom(msgs, i)[k].end]) == Idle
    decreases k
  {
    GroupRunsIdle(msgs, i);
    if k > 0 {
      BoundaryRunsIdle(msgs, GroupAt(msgs, i).end, k - 1);
    }
  }

  /** Cutting a valid list at any group boundary leaves two valid lists. */
  lemma {:induction false} BoundaryCutsValid(msgs: seq<Message>, b: nat)
    requires Valid(msgs) && IsBoundary(GroupsOf(msgs), b)
    ensures b <= |msgs| && Run(Idle, msgs[..b]) == Idle
    ensures Valid(msgs[..b]) && Valid(msgs[b..])
  {
    if b != 0 {
      assert msgs[..0] == [];
      var k :| 0 <= k < |GroupsOf(msgs)| && GroupsOf(msgs)[k].end == b;
      BoundaryRunsIdle(msgs, 0, k);
    }
    assert msgs == msgs[..b] + msgs[b..];
    ValidCut(msgs[..b], msgs[b..]);
  }

  // ---- the compression boundary ------------------------------------------------

  /** Index of the last message whose role is user, or -1. */
  function LastUser(msgs: seq<Message>): (i: int)
    ensures -1 <= i < |msgs|
    ensures i >= 0 ==> msgs[i].role.User?
    ensures forall k | i < k < |msgs| :: !msgs[k].role.User?
  {
    if msgs == [] then -1
    else if msgs[|msgs| - 1].role.User? then |msgs| - 1
    else LastUser(msgs[..|msgs| - 1])
  }

  /** How far compression wants to reach: the target, but not past the last user message. */
  function Reach(msgs: seq<Message>, target: int): int {
    var limit := if LastUser(msgs) >= 0 then LastUser(msgs) else |msgs|;
    if target < limit then target else limit
  }

  method FindLastUser(msgs: seq<Message>) returns (i: int)
    ensures i == LastUser(msgs)
  {
    i := |msgs| - 1;
    while i >= 0 && !msgs[i].role.User?
      invariant -1 <= i < |msgs|
      invariant LastUser(msgs[..i + 1]) == LastUser(msgs)
    {
      assert msgs[..i + 1][..i] == msgs[..i];
      i := i - 1;
    }
  }

  /** The boundary that the first k groups lead to. */
  function BoundaryAfter(groups: seq<Group>, k: nat): nat
    requires k <= |groups|
  {
    if k == 0 then 0 else groups[k - 1].end
  }

  lemma {:induction false} GroupFollows(groups: seq<Group>, hi: nat, k: nat)
    requires Chained(groups, 0, hi) && k < |groups|
    ensures BoundaryAfter(groups, k) == groups[k].start < groups[k].end <= hi
  {
    ChainedAt(groups, 0, hi);
    if k > 0 {
      assert groups[k - 1].end == groups[k].start;
    }
  }

  /** The least group boundary that reaches as far as wanted, never past the last user message. */
  ghost predicate LeastAligned(msgs: seq<Message>, target: int, boundary: nat) {
    && IsBoundary(GroupsOf(msgs), boundary) && boundary <= |msgs|
    && boundary >= Reach(msgs, target)
    && (forall b | IsBoundary(GroupsOf(msgs), b) && b >= Reach(msgs, target) :: boundary <= b)
    && (LastUser(msgs) >= 0 ==> boundary <= LastUser(msgs))
  }

  method AlignCompressionBoundary(groups: seq<Group>, target: int, msgs: seq<Message>) returns (boundary: nat)
    requires groups == GroupsOf(msgs)
    ensures LeastAligned(msgs, target, boundary)
    ensures Valid(msgs) ==> Valid(msgs[..boundary]) && Valid(msgs[boundary..])
  {
    hide Valid, GroupsFrom, Chained;
    GroupFacts(msgs);
    var lastUserIdx := FindLastUser(msgs);
    boundary := 0;
    ghost var stop := |groups|;
    for k := 0 to |groups|
      invariant boundary == BoundaryAfter(groups, k) <= |msgs|
      invariant k > 0 ==> groups[k - 1].start < Reach(msgs, target)
      invariant lastUserIdx >= 0 ==> boundary <= lastUserIdx
      invariant stop == |groups|
    {
      var g := groups[k];
      GroupFollows(groups, |msgs|, k);
      if g.start >= target {
        stop := k;
        break;
      }
      if lastUserIdx >= 0 && g.start <= lastUserIdx && g.end > lastUserIdx {
        UserGroupIsSingle(msgs, k, lastUserIdx);
        stop := k;
        break;
      }
      boundary := g.end;
    }
    LeastBoundary(groups, |msgs|, stop, Reach(msgs, target));
    if Valid(msgs) {
      BoundaryCutsValid(msgs, boundary);
    }
  }

  /** The boundary before group k is the least one that reaches r, if all earlier groups start below r. */
  lemma {:induction false} LeastBoundary(groups: seq<Group>, hi: nat, k: nat, r: int)
    requires Chained(groups, 0, hi) && k <= |groups|
    requires k > 0 ==> groups[k - 1].start < r
    requires r <= hi && (k < |groups| ==> r <= groups[k].start)
    ensures IsBoundary(groups, BoundaryAfter(groups, k)) && BoundaryAfter(groups, k) >= r
    ensures forall b | IsBoundary(groups, b) && b >= r :: BoundaryAfter(groups, k) <= b
  {
    ChainedAt(groups, 0, hi);
    var boundary := BoundaryAfter(groups, k);
    if k < |groups| {
      GroupFollows(groups, hi, k);
    }
    forall b | IsBoundary(groups, b) && b >= r
      ensures boundary <= b
    {
      if b != 0 {
        var j :| 0 <= j < |groups| && groups[j].end == b;
        if k - 1 < j && k > 0 {
          assert groups[k - 1].end <= groups[j].start;
        }
      }
    }
  }

  lemma {:induction false} UserGroupIsSingle(msgs: seq<Message>, k: nat, u: nat)
    requires k < |GroupsOf(msgs)| && u < |msgs| && msgs[u].role.User?
    requires GroupsOf(msgs)[k].start <= u < GroupsOf(msgs)[k].end
    ensures GroupsOf(msgs)[k] == Group(u, u + 1, UserGroup)
  {
    GroupFacts(msgs);
    var g := GroupsOf(msgs)[k];
    assert g == GroupAt(msgs, g.start);
    if Opens(msgs[g.start]) {
      ToolRunFacts(msgs, g.start + 1);
    }
  }

  /** A message that is no tool result starts a group, so the list may be cut before it. */
  lemma {:induction false} CutBefore(msgs: seq<Message>, i: nat)
    requires i < |msgs| && !msgs[i].role.Tool?
    ensures IsBoundary(GroupsOf(msgs), i)
  {
    GroupFacts(msgs);
    hide GroupsFrom, Chained;
    var k := HoldingGroup(GroupsOf(msgs), 0, |msgs|, i);
    var g := GroupsOf(msgs)[k];
    assert g == GroupAt(msgs, g.start);
    if Opens(msgs[g.start]) {
      ToolRunFacts(msgs, g.start + 1);
    }
    GroupFollows(GroupsOf(msgs), |msgs|, k);
  }
}
