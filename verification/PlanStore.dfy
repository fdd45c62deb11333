/**
 Plan edits as transactions over a thread's plan: what each one does to the ordered items, and what
 any run of edits keeps.
 */
module PlanStore {
  import opened Options
  import opened Decimal
  import opened Plan
  import opened Text

  datatype PlanData = PlanData(revision: nat, nextId: int, items: seq<Item>)

  datatype Change = Change(id: string, content: Option<string>, status: Option<string>)

  const EMPTY_PLAN := PlanData(1, 1, [])

  function IdsOf(items: seq<Item>): set<string> {
    set it | it in items :: it.id
  }

  // ---- the edits on values --------------------------------------------------------------------

  /** The first error among drafts that must not bring an ID or a position. */
  function CheckNew(thread: string, drafts: seq<Draft>): Option<TodoError> {
    if drafts == [] then None
    else if Trim(drafts[0].id) != "" then Some(SuppliedId)
    else if drafts[0].position != 0 then Some(SuppliedPosition)
    else if CheckDraft(thread, drafts[0]).Fail? then Some(CheckDraft(thread, drafts[0]).error)
    else CheckNew(thread, drafts[1..])
  }

  /** Appending allocates from the plan's next number; the first edit of a plan keeps revision 1. */
  function Appended(p: Option<PlanData>, drafts: seq<Draft>, now: int): Outcome<PlanData>
    requires p.Some? ==> 1 <= p.value.nextId <= MAX_INT64
  {
    var plan := if p.Some? then p.value else EMPTY_PLAN;
    match Fill(drafts, |drafts|, Filled(plan.items, IdsOf(plan.items), plan.nextId, plan.nextId), map[], now)
    case Fail(e) => Fail(e)
    case Ok(f) => Ok(PlanData(if p.Some? then plan.revision + 1 else 1, f.alloc, f.items))
  }

  function CreatedAt(items: seq<Item>): map<string, int> {
    if items == [] then map[]
    else CreatedAt(items[..|items| - 1])[items[|items| - 1].id := items[|items| - 1].createdAt]
  }

  function Replaced(thread: string, p: Option<PlanData>, drafts: seq<Draft>, now: int): Outcome<PlanData>
    requires p.Some? ==> 1 <= p.value.nextId <= MAX_INT64
  {
    var plan := if p.Some? then p.value else EMPTY_PLAN;
    match Prepare(thread, drafts, plan.nextId, CreatedAt(plan.items), now)
    case Fail(e) => Fail(e)
    case Ok(r) => Ok(PlanData(if p.Some? then plan.revision + 1 else 1, r.nextId, r.items))
  }

  function CheckChanges(changes: seq<Change>, seen: set<string>): Option<TodoError> {
    if changes == [] then None
    else
      var c := changes[0];
      var id := Trim(c.id);
      if id == "" then Some(EmptyId)
      else if id in seen then Some(RepeatedId)
      else if c.content.None? && c.status.None? then Some(NoChanges)
      else if c.content.Some? && Trim(c.content.value) == "" then Some(EmptyContent)
      else if c.status.Some? && ParseStatus(Trim(c.status.value)).None? then Some(BadStatus)
      else CheckChanges(changes[1..], seen + {id})
  }

  function Patch(it: Item, c: Change, now: int): Item {
    it.(content := if c.content.Some? then c.content.value else it.content,
        status := if c.status.Some? && ParseStatus(Trim(c.status.value)).Some?
                  then ParseStatus(Trim(c.status.value)).value else it.status,
        updatedAt := now)
  }

  /** One row update: every item with that ID, of which there is at most one. */
  function PatchId(items: seq<Item>, c: Change, now: int): (r: seq<Item>)
    ensures |r| == |items|
  {
    seq(|items|, i requires 0 <= i < |items| =>
      if items[i].id == Trim(c.id) then Patch(items[i], c, now) else items[i])
  }

  function Patched(items: seq<Item>, changes: seq<Change>, now: int): seq<Item> {
    if changes == [] then items
    else PatchId(Patched(items, changes[..|changes| - 1], now), changes[|changes| - 1], now)
  }

  predicate AllKnown(ids: seq<string>, items: seq<Item>) {
    forall id | id in ids :: id in IdsOf(items)
  }

  function ChangeIds(changes: seq<Change>): seq<string> {
    seq(|changes|, i requires 0 <= i < |changes| => Trim(changes[i].id))
  }

  function Updated(p: Option<PlanData>, changes: seq<Change>, now: int): Outcome<PlanData> {
    if changes == [] then Fail(NoItems)
    else if CheckChanges(changes, {}).Some? then Fail(CheckChanges(changes, {}).value)
    else if p.None? || !AllKnown(ChangeIds(changes), p.value.items) then Fail(NotFound)
    else
      Ok(p.value.(revision := p.value.revision + 1, items := Patched(p.value.items, changes, now)))
  }

  function CheckIds(ids: seq<string>, seen: set<string>): Option<TodoError> {
    if ids == [] then None
    else if Trim(ids[0]) == "" then Some(EmptyId)
    else if Trim(ids[0]) in seen then Some(RepeatedId)
    else CheckIds(ids[1..], seen + {Trim(ids[0])})
  }

  function Trimmed(ids: seq<string>): seq<string> {
    seq(|ids|, i requires 0 <= i < |ids| => Trim(ids[i]))
  }

  function Without(items: seq<Item>, ids: set<string>): seq<Item> {
    if items == [] then []
    else Without(items[..|items| - 1], ids) +
         if items[|items| - 1].id in ids then [] else [items[|items| - 1]]
  }

  /** Positions closed up; only items that move are touched. */
  function Compacted(items: seq<Item>, now: int): (r: seq<Item>)
    ensures |r| == |items|
  {
    seq(|items|, i requires 0 <= i < |items| =>
      if items[i].position == i + 1 then items[i] else items[i].(position := i + 1, updatedAt := now))
  }

  function Deleted(p: Option<PlanData>, ids: seq<string>, now: int): Outcome<PlanData> {
    if ids == [] then Fail(NoItems)
    else if CheckIds(ids, {}).Some? then Fail(CheckIds(ids, {}).value)
    else if p.None? || !AllKnown(Trimmed(ids), p.value.items) then Fail(NotFound)
    else
      var rest := Without(p.value.items, set id | id in Trimmed(ids));
      Ok(p.value.(revision := p.value.revision + 1, items := Compacted(rest, now)))
  }

  // ---- the loops behind them ------------------------------------------------------------------------

  /** Rows whose positions strictly increase and have not been closed up past index i. */
  predicate Spread(items: seq<Item>, i: nat) {
    && (forall k, l | 0 <= k < l < |items| :: items[k].position < items[l].position)
    && (forall k | 0 <= k < |items| :: items[k].position >= k + 1)
    && forall k | 0 <= k < i && k < |items| :: items[k].position == k + 1
  }

  /** One row update under the unique key on positions. */
  method MoveRow(items: seq<Item>, i: nat, position: nat, now: int) returns (r: seq<Item>)
    requires i < |items|
    requires forall k | 0 <= k < |items| && k != i :: items[k].position != position
    ensures r == items[i := items[i].(position := position, updatedAt := now)]
  {
    r := items[i := items[i].(position := position, updatedAt := now)];
  }

  /** Moving items up one by one never collides with a position still in use. */
  method Compact(items: seq<Item>, now: int) returns (r: seq<Item>)
    requires Spread(items, 0)
    ensures r == Compacted(items, now)
  {
    r := items;
    for i := 0 to |items|
      invariant |r| == |items| && Spread(r, i)
      invariant r[i..] == items[i..]
      invariant r[..i] == Compacted(items, now)[..i]
    {
      assert r[i] == r[i..][0];
      if r[i].position != i + 1 {
        r := MoveRow(r, i, i + 1, now);
      }
    }
  }

  method DropRows(items: seq<Item>, ids: set<string>) returns (r: seq<Item>)
    ensures r == Without(items, ids)
  {
    r := [];
    for i := 0 to |items|
      invariant r == Without(items[..i], ids)
    {
      assert items[..i + 1][..i] == items[..i];
      if items[i].id !in ids {
        r := r + [items[i]];
      }
    }
    assert items[..|items|] == items;
  }

  method PatchRows(items: seq<Item>, changes: seq<Change>, now: int) returns (r: seq<Item>)
    ensures r == Patched(items, changes, now)
  {
    r := items;
    for i := 0 to |changes|
      invariant r == Patched(items, changes[..i], now)
    {
      assert changes[..i + 1][..i] == changes[..i];
      r := PatchId(r, changes[i], now);
    }
    assert changes[..|changes|] == changes;
  }

  method CheckNewDrafts(thread: string, drafts: seq<Draft>) returns (r: Option<TodoError>)
    ensures r == CheckNew(thread, drafts)
  {
    hide Trim, CheckDraft;
    for i := 0 to |drafts|
      invariant CheckNew(thread, drafts) == CheckNew(thread, drafts[i..])
    {
      assert drafts[i..][1..] == drafts[i + 1..];
      if Trim(drafts[i].id) != "" {
        return Some(SuppliedId);
      }
      if drafts[i].position != 0 {
        return Some(SuppliedPosition);
      }
      var checked := CheckDraft(thread, drafts[i]);
      if checked.Fail? {
        return Some(checked.error);
      }
    }
    r := None;
  }

  method ValidateTodoUpdates(changes: seq<Change>) returns (r: Option<TodoError>)
    ensures r == CheckChanges(changes, {})
  {
    hide Trim, ParseStatus;
    var seen: set<string> := {};
    for i := 0 to |changes|
      invariant CheckChanges(changes, {}) == CheckChanges(changes[i..], seen)
    {
      assert changes[i..][1..] == changes[i + 1..];
      var c := changes[i];
      var id := Trim(c.id);
      if id == "" {
        return Some(EmptyId);
      }
      if id in seen {
        return Some(RepeatedId);
      }
      if c.content.None? && c.status.None? {
        return Some(NoChanges);
      }
      if c.content.Some? && Trim(c.content.value) == "" {
        return Some(EmptyContent);
      }
      if c.status.Some? && ParseStatus(Trim(c.status.value)).None? {
        return Some(BadStatus);
      }
      seen := seen + {id};
    }
    r := None;
  }

  method ValidateTodoIDs(ids: seq<string>) returns (r: Option<TodoError>)
    ensures r == CheckIds(ids, {})
  {
    hide Trim;
    var seen: set<string> := {};
    for i := 0 to |ids|
      invariant CheckIds(ids, {}) == CheckIds(ids[i..], seen)
    {
      assert ids[i..][1..] == ids[i + 1..];
      var id := Trim(ids[i]);
      if id == "" {
        return Some(EmptyId);
      }
      if id in seen {
        return Some(RepeatedId);
      }
      seen := seen + {id};
    }
    r := None;
  }


  // ---- what every edit keeps ---------------------------------------------------------------------------

  predicate Sound(p: PlanData) {
    p.revision >= 1 && WellNumbered(p.items, p.nextId)
  }

  datatype Edit =
    | Append(drafts: seq<Draft>)
    | Replace(drafts: seq<Draft>)
    | Update(changes: seq<Change>)
    | Delete(ids: seq<string>)

  function Apply(thread: string, p: PlanData, e: Edit, now: int): Outcome<PlanData>
    requires 1 <= p.nextId <= MAX_INT64
  {
    match e
    case Append(drafts) =>
      if drafts == [] then Fail(NoItems)
      else if CheckNew(thread, drafts).Some? then Fail(CheckNew(thread, drafts).value)
      else Appended(Some(p), drafts, now)
    case Replace(drafts) => Replaced(thread, Some(p), drafts, now)
    case Update(changes) => Updated(Some(p), changes, now)
    case Delete(ids) => Deleted(Some(p), ids, now)
  }

  lemma {:induction false} AllBlank(thread: string, drafts: seq<Draft>)
    requires CheckNew(thread, drafts).None?
    ensures forall d | d in drafts :: Blank(d)
  {
    hide Trim, CheckDraft;
    if drafts != [] {
      AllBlank(thread, drafts[1..]);
    }
  }

  /** New items go to the end, take numbers from the plan's next one on, and move it up. */
  lemma {:induction false} AppendFacts(p: Option<PlanData>, drafts: seq<Draft>, now: int)
    requires p.Some? ==> Sound(p.value)
    requires forall d | d in drafts :: Blank(d)
    requires Appended(p, drafts, now).Ok?
    ensures var plan, q := if p.Some? then p.value else EMPTY_PLAN, Appended(p, drafts, now).value;
      && Sound(q) && q.nextId >= plan.nextId
      && |q.items| == |plan.items| + |drafts| && q.items[..|plan.items|] == plan.items
      && forall k | |plan.items| <= k < |q.items| ::
           NumberFrom(q.items[k].id, plan.nextId) && q.items[k].id !in IdsOf(plan.items)
  {
    hide Trim, NumberedWithin, NumberBelow, NumberFrom, Fill, Blank;
    var plan := if p.Some? then p.value else EMPTY_PLAN;
    var start := Filled(plan.items, IdsOf(plan.items), plan.nextId, plan.nextId);
    var m := |plan.items|;
    FillFacts(drafts, |drafts|, start, map[], now);
    var f := Fill(drafts, |drafts|, start, map[], now).value;
    forall k | m <= k < |f.items|
      ensures NumberBelow(f.items[k].id, f.alloc) && NumberFrom(f.items[k].id, plan.nextId)
      ensures f.items[k].id !in IdsOf(plan.items)
    {
      assert drafts[k - m] in drafts;
      AssignedNumber(drafts[k - m], f.items[k].id, start, f);
    }
    forall it | it in plan.items ensures NumberBelow(it.id, f.alloc) {
      NumberBelowUp(it.id, plan.nextId, f.alloc);
    }
    AppendedIsWellNumbered(plan.items, f.items, plan.nextId, f.alloc, drafts);
  }

  lemma {:induction false} AppendedIsWellNumbered(prior: seq<Item>, items: seq<Item>, from: int, next: int,
                                                  drafts: seq<Draft>)
    requires WellNumbered(prior, from) && from <= next <= MAX_INT64
    requires |items| == |prior| + |drafts| && items[..|prior|] == prior
    requires forall k | |prior| <= k < |items| :: items[k].position == k + 1
    requires forall it | it in items :: NumberBelow(it.id, next)
    requires forall k | |prior| <= k < |items| :: items[k].id !in IdsOf(prior)
    requires forall k, l | |prior| <= k < l < |items| :: items[k].id != items[l].id
    ensures WellNumbered(items, next)
  {
    hide NumberBelow;
    assert forall k | 0 <= k < |prior| :: items[k] == prior[k] && prior[k].id in IdsOf(prior);
  }

  lemma {:induction false} ReplaceFacts(thread: string, p: Option<PlanData>, drafts: seq<Draft>, now: int)
    requires p.Some? ==> Sound(p.value)
    requires Replaced(thread, p, drafts, now).Ok?
    ensures var plan, q := if p.Some? then p.value else EMPTY_PLAN, Replaced(thread, p, drafts, now).value;
      && Sound(q) && q.nextId >= plan.nextId && |q.items| == |drafts|
      && (forall k | 0 <= k < |drafts| && !Blank(drafts[k]) :: q.items[k].id == Trim(drafts[k].id))
      && forall k | 0 <= k < |drafts| && Blank(drafts[k]) :: NumberFrom(q.items[k].id, plan.nextId)
  {
    hide Trim, Prepare, NumberBelow, NumberFrom, CreatedAt;
    var plan := if p.Some? then p.value else EMPTY_PLAN;
    PrepareFacts(thread, drafts, plan.nextId, CreatedAt(plan.items), now);
  }

  lemma {:induction false} CheckedChanges(changes: seq<Change>, seen: set<string>)
    requires CheckChanges(changes, seen).None?
    ensures forall i | 0 <= i < |changes| :: Trim(changes[i].id) !in seen
    ensures forall i, j | 0 <= i < j < |changes| :: Trim(changes[i].id) != Trim(changes[j].id)
  {
    hide Trim, ParseStatus;
    if changes != [] {
      CheckedChanges(changes[1..], seen + {Trim(changes[0].id)});
      assert forall i | 1 <= i < |changes| :: changes[i] == changes[1..][i - 1];
    }
  }

  /** An item no change names is untouched; one that is named gets exactly that change. */
  lemma {:induction false} PatchedAt(items: seq<Item>, changes: seq<Change>, now: int, i: nat)
    requires i < |items|
    ensures |Patched(items, changes, now)| == |items|
    ensures Patched(items, changes, now)[i].id == items[i].id
    ensures Patched(items, changes, now)[i].position == items[i].position
    ensures (forall c | c in changes :: Trim(c.id) != items[i].id) ==>
      Patched(items, changes, now)[i] == items[i]
    ensures forall k | 0 <= k < |changes| && Trim(changes[k].id) == items[i].id &&
                       (forall l | 0 <= l < |changes| && l != k :: Trim(changes[l].id) != items[i].id) ::
      Patched(items, changes, now)[i] == Patch(items[i], changes[k], now)
  {
    hide Trim, ParseStatus;
    if changes != [] {
      var init := changes[..|changes| - 1];
      PatchedAt(items, init, now, i);
      assert forall c | c in init :: c in changes;
    }
  }

  /** Each named item is changed as asked and every other one is left alone. */
  lemma {:induction false} UpdateFacts(p: PlanData, changes: seq<Change>, now: int)
    requires Sound(p) && Updated(Some(p), changes, now).Ok?
    ensures var q := Updated(Some(p), changes, now).value;
      && Sound(q) && q.nextId == p.nextId && q.revision == p.revision + 1 && |q.items| == |p.items|
      && (forall i | 0 <= i < |p.items| :: q.items[i].id == p.items[i].id)
      && (forall i, k | 0 <= i < |p.items| && 0 <= k < |changes| && Trim(changes[k].id) == p.items[i].id ::
            q.items[i] == Patch(p.items[i], changes[k], now))
      && forall i | 0 <= i < |p.items| && (forall c | c in changes :: Trim(c.id) != p.items[i].id) ::
           q.items[i] == p.items[i]
  {
    hide Trim, ParseStatus, ParseInt, CheckChanges, Patched, AllKnown;
    CheckedChanges(changes, {});
    var q := Updated(Some(p), changes, now).value;
    forall i | 0 <= i < |p.items|
      ensures |q.items| == |p.items| && q.items[i].id == p.items[i].id
      ensures q.items[i].position == p.items[i].position
      ensures forall k | 0 <= k < |changes| && Trim(changes[k].id) == p.items[i].id ::
        q.items[i] == Patch(p.items[i], changes[k], now)
      ensures (forall c | c in changes :: Trim(c.id) != p.items[i].id) ==> q.items[i] == p.items[i]
    {
      PatchedAt(p.items, changes, now, i);
    }
    PatchedLength(p.items, changes, now);
    assert forall i | 0 <= i < |p.items| :: p.items[i] in p.items;
  }

  lemma {:induction false} PatchedLength(items: seq<Item>, changes: seq<Change>, now: int)
    ensures |Patched(items, changes, now)| == |items|
  {
    if changes != [] {
      PatchedLength(items, changes[..|changes| - 1], now);
    }
  }

  lemma {:induction false} WithoutMembers(items: seq<Item>, ids: set<string>)
    ensures forall it | it in Without(items, ids) :: it in items && it.id !in ids
    ensures forall it | it in items && it.id !in ids :: it in Without(items, ids)
  {
    if items != [] {
      var init, last := items[..|items| - 1], items[|items| - 1];
      WithoutMembers(init, ids);
      assert forall it | it in items :: it in init || it == last;
    }
  }

  lemma {:induction false} WithoutIsSpread(items: seq<Item>, ids: set<string>)
    requires forall i | 0 <= i < |items| :: items[i].position == i + 1
    ensures Spread(Without(items, ids), 0) && |Without(items, ids)| <= |items|
    ensures forall k | 0 <= k < |Without(items, ids)| :: Without(items, ids)[k].position <= |items|
  {
    if items != [] {
      WithoutIsSpread(items[..|items| - 1], ids);
    }
  }

  /** Remaining items keep their ID, text, status and order; positions are 1..n again. */
  lemma {:induction false} DeleteFacts(p: PlanData, ids: seq<string>, now: int)
    requires Sound(p) && Deleted(Some(p), ids, now).Ok?
    ensures var q, rest := Deleted(Some(p), ids, now).value, Without(p.items, set id | id in Trimmed(ids));
      && Sound(q) && q.nextId == p.nextId && q.revision == p.revision + 1
      && |q.items| == |rest|
      && (forall i | 0 <= i < |q.items| ::
            q.items[i].id == rest[i].id && q.items[i].content == rest[i].content
            && q.items[i].status == rest[i].status)
  {
    hide Trim, ParseInt, CheckIds, Without, AllKnown;
    var rest := Without(p.items, set id | id in Trimmed(ids));
    WithoutMembers(p.items, set id | id in Trimmed(ids));
    WithoutIsSpread(p.items, set id | id in Trimmed(ids));
    RestIsDistinct(p.items, rest);
    CompactedIsWellNumbered(rest, p.nextId, now);
  }

  lemma {:induction false} CompactedIsWellNumbered(rest: seq<Item>, nextId: int, now: int)
    requires 1 <= nextId <= MAX_INT64
    requires forall i, j | 0 <= i < j < |rest| :: rest[i].id != rest[j].id
    requires forall it | it in rest :: NumberBelow(it.id, nextId)
    ensures WellNumbered(Compacted(rest, now), nextId)
  {
    hide NumberBelow;
    var r := Compacted(rest, now);
    forall it | it in r ensures NumberBelow(it.id, nextId) {
      var i :| 0 <= i < |r| && r[i] == it;
      assert rest[i] in rest;
    }
  }

  lemma {:induction false} RestIsDistinct(items: seq<Item>, rest: seq<Item>)
    requires forall i, j | 0 <= i < j < |items| :: items[i].id != items[j].id
    requires Spread(rest, 0) && forall it | it in rest :: it in items
    ensures forall k, l | 0 <= k < l < |rest| :: rest[k].id != rest[l].id
  {
    forall k, l | 0 <= k < l < |rest| ensures rest[k].id != rest[l].id {
      assert rest[k] in items && rest[l] in items;
      var i :| 0 <= i < |items| && items[i] == rest[k];
      var j :| 0 <= j < |items| && items[j] == rest[l];
      assert i != j;
    }
  }

  /** Every successful edit keeps the plan sound and raises its revision by one. */
  lemma {:induction false} EditKeepsSound(thread: string, p: PlanData, e: Edit, now: int)
    requires Sound(p) && Apply(thread, p, e, now).Ok?
    ensures var q := Apply(thread, p, e, now).value;
      Sound(q) && q.revision == p.revision + 1 && q.nextId >= p.nextId
  {
    hide Sound, CheckNew, Fill, Prepare, Updated, Deleted, IdsOf, CreatedAt;
    match e
    case Append(drafts) =>
      AllBlank(thread, drafts);
      AppendFacts(Some(p), drafts, now);
    case Replace(drafts) => ReplaceFacts(thread, Some(p), drafts, now);
    case Update(changes) => UpdateFacts(p, changes, now);
    case Delete(ids) => DeleteFacts(p, ids, now);
  }

  /** The plan after a run of edits, failed ones leaving it as it was, and every ID it ever held. */
  datatype Trace = Trace(plan: PlanData, held: set<string>)

  /** An edit and the time it is made at. */
  datatype Timed = Timed(edit: Edit, now: int)

  function Made(thread: string, p: PlanData, e: Timed): Outcome<PlanData>
    requires Sound(p)
  {
    Apply(thread, p, e.edit, e.now)
  }

  function After(thread: string, start: PlanData, edits: seq<Timed>): (t: Trace)
    requires Sound(start)
    ensures Sound(t.plan)
  {
    if edits == [] then Trace(start, IdsOf(start.items))
    else
      var before := After(thread, start, edits[..|edits| - 1]);
      match Made(thread, before.plan, edits[|edits| - 1])
      case Fail(_) => before
      case Ok(p) =>
        EditKeepsSound(thread, before.plan, edits[|edits| - 1].edit, edits[|edits| - 1].now);
        Trace(p, before.held + IdsOf(p.items))
  }

  predicate AllBelow(ids: set<string>, bound: int) {
    forall id | id in ids :: NumberBelow(id, bound)
  }

  lemma {:induction false} NothingBelow(bound: int)
    ensures AllBelow({}, bound)
  {
  }

  lemma {:induction false} HeldGrows(held: set<string>, bound: int, p: PlanData)
    requires AllBelow(held, bound) && bound <= p.nextId && Sound(p)
    ensures AllBelow(held + IdsOf(p.items), p.nextId)
  {
    hide NumberBelow;
    forall id | id in held ensures NumberBelow(id, p.nextId) {
      NumberBelowUp(id, bound, p.nextId);
    }
  }

  /** No ID the plan ever held carries a number from its next one on. */
  lemma {:induction false} HeldStaysBelow(thread: string, start: PlanData, edits: seq<Timed>)
    requires Sound(start)
    ensures AllBelow(After(thread, start, edits).held, After(thread, start, edits).plan.nextId)
  {
    hide AllBelow, Apply;
    if edits == [] {
      NothingBelow(start.nextId);
      HeldGrows({}, start.nextId, start);
      assert {} + IdsOf(start.items) == IdsOf(start.items);
    } else {
      var init, last := edits[..|edits| - 1], edits[|edits| - 1];
      HeldStaysBelow(thread, start, init);
      var before := After(thread, start, init);
      if Made(thread, before.plan, last).Ok? {
        EditKeepsSound(thread, before.plan, last.edit, last.now);
        HeldGrows(before.held, before.plan.nextId, Made(thread, before.plan, last).value);
      }
    }
  }

  /** An ID allocated by an edit was never held by an item of this plan before. */
  lemma {:induction false} AllocatedIdsAreNew(thread: string, start: PlanData, edits: seq<Timed>,
                                              drafts: seq<Draft>, replace: bool, now: int, k: nat)
    requires Sound(start)
    requires var e := if replace then Replace(drafts) else Append(drafts);
      Apply(thread, After(thread, start, edits).plan, e, now).Ok?
    requires k < |drafts| && Blank(drafts[k])
    ensures var t := After(thread, start, edits);
      var e := if replace then Replace(drafts) else Append(drafts);
      var at := if replace then k else |t.plan.items| + k;
      var q := Apply(thread, t.plan, e, now).value;
      at < |q.items| && q.items[at].id !in t.held
  {
    hide After, Fill, Prepare, ParseInt, CheckNew, Trim, WellNumbered, IdsOf, CreatedAt;
    var t := After(thread, start, edits);
    HeldStaysBelow(thread, start, edits);
    if replace {
      ReplaceFacts(thread, Some(t.plan), drafts, now);
    } else {
      AllBlank(thread, drafts);
      AppendFacts(Some(t.plan), drafts, now);
    }
  }

  /** Counting from a plan's creation, the revision is one more than the number of successful edits. */
  function Successes(thread: string, start: PlanData, edits: seq<Timed>): nat
    requires Sound(start)
  {
    if edits == [] then 0
    else
      var before := After(thread, start, edits[..|edits| - 1]);
      Successes(thread, start, edits[..|edits| - 1]) +
      if Made(thread, before.plan, edits[|edits| - 1]).Ok? then 1 else 0
  }

  lemma {:induction false} RevisionCountsEdits(thread: string, start: PlanData, edits: seq<Timed>)
    requires Sound(start)
    ensures After(thread, start, edits).plan.revision ==
      start.revision + Successes(thread, start, edits)
  {
    hide Apply;
    if edits != [] {
      var init, last := edits[..|edits| - 1], edits[|edits| - 1];
      RevisionCountsEdits(thread, start, init);
      var before := After(thread, start, init);
      if Made(thread, before.plan, last).Ok? {
        EditKeepsSound(thread, before.plan, last.edit, last.now);
      }
    }
  }
}
