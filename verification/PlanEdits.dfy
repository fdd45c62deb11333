/** The plan tables and the transactions on them. */
module PlanEdits {
  import opened Options
  import opened Decimal
  import opened Plan
  import opened Text
  import opened PlanStore

  type ThreadId = string

  type Tables = map<ThreadId, PlanData>

  function PlanOf(plans: Tables, id: ThreadId): Option<PlanData> {
    if id in plans then Some(plans[id]) else None
  }

  predicate AllSound(plans: Tables) {
    forall id | id in plans :: Sound(plans[id])
  }

  function CreateOutcome(threads: set<ThreadId>, plans: Tables, id: ThreadId, drafts: seq<Draft>, now: int):
    Outcome<PlanData>
  {
    if id == "" then Fail(EmptyThreadId)
    else
      match Replaced(id, None, drafts, now)
      case Fail(e) => Fail(e)
      case Ok(p) =>
        if id !in threads then Fail(NoThread)
        else if id in plans then Fail(PlanExists)
        else Ok(p)
  }

  function AppendOutcome(threads: set<ThreadId>, plans: Tables, id: ThreadId, drafts: seq<Draft>, now: int):
    Outcome<PlanData>
    requires AllSound(plans)
  {
    if id == "" then Fail(EmptyThreadId)
    else if drafts == [] then Fail(NoItems)
    else if CheckNew(id, drafts).Some? then Fail(CheckNew(id, drafts).value)
    else if id !in threads then Fail(NoThread)
    else Appended(PlanOf(plans, id), drafts, now)
  }

  function ReplaceOutcome(threads: set<ThreadId>, plans: Tables, id: ThreadId, drafts: seq<Draft>, now: int):
    Outcome<PlanData>
    requires AllSound(plans)
  {
    if id == "" then Fail(EmptyThreadId)
    else if id !in threads then Fail(NoThread)
    else Replaced(id, PlanOf(plans, id), drafts, now)
  }

  function UpdateOutcome(plans: Tables, id: ThreadId, changes: seq<Change>, now: int): Outcome<PlanData> {
    if id == "" then Fail(EmptyThreadId) else Updated(PlanOf(plans, id), changes, now)
  }

  function DeleteOutcome(plans: Tables, id: ThreadId, ids: seq<string>, now: int): Outcome<PlanData> {
    if id == "" then Fail(EmptyThreadId) else Deleted(PlanOf(plans, id), ids, now)
  }

  /** A failed transaction leaves every plan as it was; a successful one replaces exactly one. */
  predicate Committed(before: Tables, after: Tables, id: ThreadId, outcome: Outcome<PlanData>,
                      r: Outcome<seq<Item>>) {
    match outcome
    case Fail(e) => after == before && r == Fail(e)
    case Ok(p) => after == before[id := p] && r == Ok(p.items)
  }

  class Plans {
    const threads: set<ThreadId>
    var plans: Tables

    constructor (threads: set<ThreadId>)
      ensures this.threads == threads && plans == map[] && AllSound(plans)
    {
      this.threads, plans := threads, map[];
    }

    method CreatePlan(threadID: string, drafts: seq<Draft>, now: int) returns (r: Outcome<seq<Item>>)
      requires AllSound(plans)
      modifies this
      ensures AllSound(plans)
      ensures var id := Trim(threadID);
        Committed(old(plans), plans, id, CreateOutcome(threads, old(plans), id, drafts, now), r)
    {
      hide Trim, Prepare, Sound;
      var id := Trim(threadID);
      if id == "" {
        return Fail(EmptyThreadId);
      }
      var prepared := PrepareReplacement(id, drafts, 1, map[], now);
      if prepared.Fail? {
        return Fail(prepared.error);
      }
      if id !in threads {
        return Fail(NoThread);
      }
      if id in plans {
        return Fail(PlanExists);
      }
      ReplaceFacts(id, None, drafts, now);
      plans := plans[id := PlanData(1, prepared.value.nextId, prepared.value.items)];
      r := Ok(prepared.value.items);
    }

    method CreateTodos(threadID: string, drafts: seq<Draft>, now: int) returns (r: Outcome<seq<Item>>)
      requires AllSound(plans)
      modifies this
      ensures AllSound(plans)
      ensures var id := Trim(threadID);
        Committed(old(plans), plans, id, AppendOutcome(threads, old(plans), id, drafts, now), r)
    {
      hide Trim, Fill, Blank, CheckNew, WellNumbered;
      var id := Trim(threadID);
      if id == "" {
        return Fail(EmptyThreadId);
      }
      if |drafts| == 0 {
        return Fail(NoItems);
      }
      var bad := CheckNewDrafts(id, drafts);
      if bad.Some? {
        return Fail(bad.value);
      }
      if id !in threads {
        return Fail(NoThread);
      }
      var plan := if id in plans then plans[id] else EMPTY_PLAN;
      EmptyIsSound();
      SoundNext(plan);
      var start := Filled(plan.items, IdsOf(plan.items), plan.nextId, plan.nextId);
      var filled := PlaceDrafts(drafts, start, map[], now);
      if filled.Fail? {
        return Fail(filled.error);
      }
      AllBlank(id, drafts);
      AppendFacts(PlanOf(plans, id), drafts, now);
      var revision := if id in plans then plan.revision + 1 else 1;
      plans := plans[id := PlanData(revision, filled.value.alloc, filled.value.items)];
      r := Ok(filled.value.items);
    }

    method ReplaceTodos(threadID: string, drafts: seq<Draft>, now: int) returns (r: Outcome<seq<Item>>)
      requires AllSound(plans)
      modifies this
      ensures AllSound(plans)
      ensures var id := Trim(threadID);
        Committed(old(plans), plans, id, ReplaceOutcome(threads, old(plans), id, drafts, now), r)
    {
      hide Trim, Prepare, CreatedAt, WellNumbered;
      var id := Trim(threadID);
      if id == "" {
        return Fail(EmptyThreadId);
      }
      if id !in threads {
        return Fail(NoThread);
      }
      var plan := if id in plans then plans[id] else EMPTY_PLAN;
      EmptyIsSound();
      SoundNext(plan);
      var created := CreationTimes(plan.items);
      var prepared := PrepareReplacement(id, drafts, plan.nextId, created, now);
      if prepared.Fail? {
        return Fail(prepared.error);
      }
      ReplaceFacts(id, PlanOf(plans, id), drafts, now);
      var revision := if id in plans then plan.revision + 1 else 1;
      plans := plans[id := PlanData(revision, prepared.value.nextId, prepared.value.items)];
      r := Ok(prepared.value.items);
    }

    method UpdateTodos(threadID: string, changes: seq<Change>, now: int) returns (r: Outcome<seq<Item>>)
      requires AllSound(plans)
      modifies this
      ensures AllSound(plans)
      ensures var id := Trim(threadID);
        Committed(old(plans), plans, id, UpdateOutcome(old(plans), id, changes, now), r)
    {
      hide Trim, Sound, CheckChanges, Patched;
      var id := Trim(threadID);
      if id == "" {
        return Fail(EmptyThreadId);
      }
      if |changes| == 0 {
        return Fail(NoItems);
      }
      var bad := ValidateTodoUpdates(changes);
      if bad.Some? {
        return Fail(bad.value);
      }
      if id !in plans || !AllKnown(ChangeIds(changes), plans[id].items) {
        return Fail(NotFound);
      }
      UpdateFacts(plans[id], changes, now);
      var items := PatchRows(plans[id].items, changes, now);
      plans := plans[id := plans[id].(revision := plans[id].revision + 1, items := items)];
      r := Ok(items);
    }

    method DeleteTodos(threadID: string, ids: seq<string>, now: int) returns (r: Outcome<seq<Item>>)
      requires AllSound(plans)
      modifies this
      ensures AllSound(plans)
      ensures var id := Trim(threadID);
        Committed(old(plans), plans, id, DeleteOutcome(old(plans), id, ids, now), r)
    {
      hide Trim, WellNumbered, CheckIds, Without;
      var id := Trim(threadID);
      if id == "" {
        return Fail(EmptyThreadId);
      }
      if |ids| == 0 {
        return Fail(NoItems);
      }
      var bad := ValidateTodoIDs(ids);
      if bad.Some? {
        return Fail(bad.value);
      }
      if id !in plans || !AllKnown(Trimmed(ids), plans[id].items) {
        return Fail(NotFound);
      }
      DeleteFacts(plans[id], ids, now);
      var gone := set x | x in Trimmed(ids);
      RestIsSpread(plans[id], gone);
      var rest := DropRows(plans[id].items, gone);
      var items := Compact(rest, now);
      plans := plans[id := plans[id].(revision := plans[id].revision + 1, items := items)];
      r := Ok(items);
    }
  }

  lemma {:induction false} EmptyIsSound()
    ensures Sound(EMPTY_PLAN)
  {
  }

  lemma {:induction false} SoundNext(p: PlanData)
    requires Sound(p)
    ensures 1 <= p.nextId <= MAX_INT64
  {
  }

  lemma {:induction false} RestIsSpread(p: PlanData, gone: set<string>)
    requires Sound(p)
    ensures Spread(Without(p.items, gone), 0)
  {
    WithoutIsSpread(p.items, gone);
  }

  method CreationTimes(items: seq<Item>) returns (created: map<string, int>)
    ensures created == CreatedAt(items)
  {
    created := map[];
    for i := 0 to |items|
      invariant created == CreatedAt(items[..i])
    {
      assert items[..i + 1][..i] == items[..i];
      created := created[items[i].id := items[i].createdAt];
    }
    assert items[..|items|] == items;
  }
}
