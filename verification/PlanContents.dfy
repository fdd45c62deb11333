/**
 What plan edits make of the drafts and changes they are given: text, status, times and order of every item,
 and which inputs they accept.
 */
module PlanContents {
  import opened Sequences
  import opened Options
  import opened Decimal
  import opened Text
  import opened Plan
  import opened PlanStore

  function StatusName(s: Status): string {
    match s
    case Pending => "pending"
    case InProgress => "in_progress"
    case Completed => "completed"
    case Cancelled => "cancelled"
  }

  /** The text spells this status. */
  predicate Spells(text: string, s: Status) { Trim(text) == StatusName(s) }

  predicate IsStatus(text: string) {
    Trim(text) in {"pending", "in_progress", "completed", "cancelled"}
  }

  /** The item has the draft's text and status; no status means pending. */
  predicate Carries(it: Item, d: Draft, now: int) {
    && it.content == d.content && it.updatedAt == now
    && if d.status == "" then it.status.Pending? else Spells(d.status, it.status)
  }

  lemma {:induction false} ParsedStatus(text: string)
    ensures ParseStatus(text).Some? <==> text in {"pending", "in_progress", "completed", "cancelled"}
    ensures ParseStatus(text).Some? ==> StatusName(ParseStatus(text).value) == text
  {
  }

  lemma {:induction false} PlacedCarries(thread: string, d: Draft, id: string, position: nat, created: map<string, int>, now: int)
    requires CheckDraft(thread, d).Ok?
    ensures var it := Placed(d, id, position, created, now);
      Carries(it, d, now) && it.createdAt == if id in created then created[id] else now
  {
    ParsedStatus(Trim(d.status));
    assert Trim("") == "";
  }

  lemma {:induction false} FillPlaces(drafts: seq<Draft>, n: nat, start: Filled, created: map<string, int>, now: int)
    requires n <= |drafts| && 1 <= start.alloc <= MAX_INT64 && Fill(drafts, n, start, created, now).Ok?
    ensures var f, m := Fill(drafts, n, start, created, now).value, |start.items|;
      && |f.items| == m + n
      && forall k | 0 <= k < n :: f.items[m..][k] == Placed(drafts[k], f.items[m..][k].id, m + k + 1, created, now)
  {
    hide Trim, Allocate, Placed;
    if n > 0 {
      FillPlaces(drafts, n - 1, start, created, now);
      var f, m := Fill(drafts, n - 1, start, created, now).value, |start.items|;
      var g := Fill(drafts, n, start, created, now).value;
      OnePlaced(drafts[n - 1], f, created, now);
      assert g.items[m..] == f.items[m..] + [g.items[m + n - 1]];
      assert g.items[m..][n - 1] == g.items[m + n - 1];
    }
  }

  lemma {:induction false} OnePlaced(d: Draft, f: Filled, created: map<string, int>, now: int)
    requires 1 <= f.alloc <= MAX_INT64 && FillOne(d, f, created, now).Ok?
    ensures var g := FillOne(d, f, created, now).value;
      && |g.items| == |f.items| + 1
      && g.items == f.items + [Placed(d, g.items[|f.items|].id, |f.items| + 1, created, now)]
  {
    hide Trim, Allocate, StatusOf;
  }

  // ---- which drafts are accepted ---------------------------------------------------------------

  /** For the thread itself or for none in particular, with a text, and with a status that exists. */
  predicate Acceptable(thread: string, d: Draft) {
    && (d.thread == "" || Trim(d.thread) == thread)
    && Trim(d.content) != "" && (d.status == "" || IsStatus(d.status))
  }

  lemma {:induction false} DraftAcceptedIff(thread: string, d: Draft)
    ensures CheckDraft(thread, d).Ok? <==> Acceptable(thread, d)
  {
    ParsedStatus(Trim(d.status));
  }

  /** New drafts are accepted exactly when none brings an ID or a position and all are acceptable. */
  lemma {:induction false} NewAcceptedIff(thread: string, drafts: seq<Draft>)
    ensures CheckNew(thread, drafts).None? <==>
      forall d | d in drafts :: Blank(d) && d.position == 0 && Acceptable(thread, d)
  {
    hide Trim, CheckDraft, Acceptable;
    if drafts != [] {
      DraftAcceptedIff(thread, drafts[0]);
      NewAcceptedIff(thread, drafts[1..]);
      assert drafts == [drafts[0]] + drafts[1..];
    }
  }

  lemma {:induction false} ClaimedDrafts(thread: string, items: seq<Draft>, n: nat, next: int)
    requires n <= |items| && Claim(thread, items, n, next).Ok?
    ensures forall i | 0 <= i < n :: CheckDraft(thread, items[i]).Ok?
  {
    hide Trim, ParseInt, CheckDraft;
    if n > 0 {
      ClaimedDrafts(thread, items, n - 1, next);
    }
  }

  /** What makes the IDs of a replacement acceptable. */
  ghost predicate ClaimableIds(items: seq<Draft>, n: nat)
    requires n <= |items|
  {
    && (forall i | 0 <= i < n :: ParseInt(Trim(items[i].id)) != Some(MAX_INT64))
    && forall i, j | 0 <= i < j < n && !Blank(items[i]) :: Trim(items[i].id) != Trim(items[j].id)
  }

  lemma {:induction false} ClaimedAre(thread: string, items: seq<Draft>, n: nat, next: int)
    requires n <= |items| && Claim(thread, items, n, next).Ok?
    ensures forall id :: id in Claim(thread, items, n, next).value.used <==>
      exists i :: 0 <= i < n && !Blank(items[i]) && Trim(items[i].id) == id
  {
    hide Trim, ParseInt, CheckDraft;
    if n > 0 {
      ClaimedAre(thread, items, n - 1, next);
    }
  }

  /** A replacement's drafts pass exactly if each is acceptable, supplied IDs differ, and none is the greatest number. */
  lemma {:induction false} ReplacementAcceptedIff(thread: string, items: seq<Draft>, n: nat, next: int)
    requires n <= |items|
    ensures Claim(thread, items, n, next).Ok? <==>
      (forall i | 0 <= i < n :: Acceptable(thread, items[i])) && ClaimableIds(items, n)
  {
    hide Trim, ParseInt, CheckDraft, Acceptable;
    NoNumber();
    if n > 0 {
      ReplacementAcceptedIff(thread, items, n - 1, next);
      DraftAcceptedIff(thread, items[n - 1]);
      if Claim(thread, items, n - 1, next).Ok? {
        ClaimedAre(thread, items, n - 1, next);
      }
    }
  }

  lemma {:induction false} NoNumber()
    ensures ParseInt("") == None
  {
  }

  // ---- appending and replacing --------------------------------------------------------------------

  /** Each appended item carries its draft and is new. */
  lemma {:induction false} AppendedCarry(thread: string, p: Option<PlanData>, drafts: seq<Draft>, now: int)
    requires p.Some? ==> 1 <= p.value.nextId <= MAX_INT64
    requires CheckNew(thread, drafts).None? && Appended(p, drafts, now).Ok?
    ensures var prior, q := if p.Some? then p.value.items else [], Appended(p, drafts, now).value;
      && |q.items| == |prior| + |drafts|
      && forall k | 0 <= k < |drafts| ::
           Carries(q.items[|prior|..][k], drafts[k], now) && q.items[|prior|..][k].createdAt == now
  {
    hide Trim, Fill, CheckDraft, Carries, Placed;
    var plan := if p.Some? then p.value else EMPTY_PLAN;
    var start := Filled(plan.items, IdsOf(plan.items), plan.nextId, plan.nextId);
    FillPlaces(drafts, |drafts|, start, map[], now);
    var f := Fill(drafts, |drafts|, start, map[], now).value;
    forall k | 0 <= k < |drafts|
      ensures Carries(f.items[|plan.items|..][k], drafts[k], now) && f.items[|plan.items|..][k].createdAt == now
    {
      NewDraftPasses(thread, drafts, k);
      PlacedCarries(thread, drafts[k], f.items[|plan.items|..][k].id, |plan.items| + k + 1, map[], now);
    }
  }

  lemma {:induction false} NewDraftPasses(thread: string, drafts: seq<Draft>, k: nat)
    requires k < |drafts| && CheckNew(thread, drafts).None?
    ensures CheckDraft(thread, drafts[k]).Ok?
  {
    hide Trim, CheckDraft;
    if k > 0 {
      NewDraftPasses(thread, drafts[1..], k - 1);
    }
  }

  lemma {:induction false} CreationTimes(items: seq<Item>)
    requires forall i, j | 0 <= i < j < |items| :: items[i].id != items[j].id
    ensures forall id :: id in CreatedAt(items) <==> id in IdsOf(items)
    ensures forall i | 0 <= i < |items| :: items[i].id in CreatedAt(items) && CreatedAt(items)[items[i].id] == items[i].createdAt
  {
    if items != [] {
      var n := |items| - 1;
      CreationTimes(items[..n]);
      assert items == items[..n] + [items[n]];
    }
  }

  /** Each item of a replacement carries its draft; one that keeps an ID keeps its creation time. */
  lemma {:induction false} ReplacedCarry(thread: string, p: Option<PlanData>, drafts: seq<Draft>, now: int)
    requires p.Some? ==> Sound(p.value)
    requires Replaced(thread, p, drafts, now).Ok?
    ensures var prior, q := if p.Some? then p.value.items else [], Replaced(thread, p, drafts, now).value;
      && |q.items| == |drafts|
      && (forall k | 0 <= k < |drafts| :: Carries(q.items[k], drafts[k], now))
      && (forall k, i | 0 <= k < |drafts| && 0 <= i < |prior| && prior[i].id == q.items[k].id ::
            q.items[k].createdAt == prior[i].createdAt)
      && (forall k | 0 <= k < |drafts| && q.items[k].id !in IdsOf(prior) :: q.items[k].createdAt == now)
  {
    hide Trim, Fill, CheckDraft, Carries, Placed, Claim, NumberBelow;
    var plan := if p.Some? then p.value else EMPTY_PLAN;
    var created := CreatedAt(plan.items);
    var claims := Claim(thread, drafts, |drafts|, plan.nextId).value;
    var start := Filled([], claims.used, plan.nextId, claims.finalNext);
    CreationTimes(plan.items);
    ClaimedDrafts(thread, drafts, |drafts|, plan.nextId);
    FillPlaces(drafts, |drafts|, start, created, now);
    var f := Fill(drafts, |drafts|, start, created, now).value;
    assert f.items[0..] == f.items;
    forall k | 0 <= k < |drafts|
      ensures Carries(f.items[k], drafts[k], now)
      ensures f.items[k].createdAt == if f.items[k].id in created then created[f.items[k].id] else now
    {
      assert f.items[0..][k] == f.items[k];
      PlacedCarries(thread, drafts[k], f.items[k].id, k + 1, created, now);
    }
  }

  // ---- changing ---------------------------------------------------------------------------------------

  /** An item after a change: what is given is taken, everything else stays, and the change time is noted. */
  predicate Changed(was: Item, it: Item, c: Change, now: int) {
    && it.id == was.id && it.position == was.position && it.createdAt == was.createdAt && it.updatedAt == now
    && it.content == (match c.content case Some(text) => text case None => was.content)
    && match c.status case Some(text) => Spells(text, it.status) case None => it.status == was.status
  }

  /** A change has an ID, gives something, and gives no empty text and no status that does not exist. */
  predicate Sensible(c: Change) {
    && Trim(c.id) != "" && (c.content.Some? || c.status.Some?)
    && (c.content.Some? ==> Trim(c.content.value) != "")
    && (c.status.Some? ==> IsStatus(c.status.value))
  }

  predicate NoneTwice(ids: seq<string>) {
    forall i, j | 0 <= i < j < |ids| :: ids[i] != ids[j]
  }

  lemma {:induction false} FirstNotTwice(id: string, rest: seq<string>)
    ensures NoneTwice([id] + rest) <==> id !in rest && NoneTwice(rest)
  {
    var ids := [id] + rest;
    if NoneTwice(ids) {
      forall i | 0 <= i < |rest| ensures rest[i] != id {
        assert ids[0] == id && ids[i + 1] == rest[i];
      }
      forall i, j | 0 <= i < j < |rest| ensures rest[i] != rest[j] {
        assert ids[i + 1] == rest[i] && ids[j + 1] == rest[j];
      }
    }
  }

  lemma {:induction false} ChangesPass(changes: seq<Change>, seen: set<string>)
    ensures CheckChanges(changes, seen).None? <==>
      && (forall c | c in changes :: Sensible(c))
      && (forall id | id in ChangeIds(changes) :: id !in seen) && NoneTwice(ChangeIds(changes))
  {
    hide Trim, NoneTwice;
    if changes == [] {
      assert NoneTwice([]) by { NothingTwice(); }
    } else {
      var c, rest := changes[0], changes[1..];
      ChangesPass(rest, seen + {Trim(c.id)});
      SensibleIff(c, rest, seen);
      hide CheckChanges, Sensible;
      assert changes == [c] + rest;
      assert ChangeIds(changes) == [Trim(c.id)] + ChangeIds(rest);
      FirstNotTwice(Trim(c.id), ChangeIds(rest));
      assert forall id :: id in ChangeIds(changes) <==> id == Trim(c.id) || id in ChangeIds(rest);
    }
  }

  lemma {:induction false} NothingTwice()
    ensures NoneTwice([])
  {
  }

  lemma {:induction false} SensibleIff(c: Change, rest: seq<Change>, seen: set<string>)
    ensures CheckChanges([c] + rest, seen).None? <==>
      Sensible(c) && Trim(c.id) !in seen && CheckChanges(rest, seen + {Trim(c.id)}).None?
  {
    hide Trim, ParseStatus;
    if c.status.Some? {
      ParsedStatus(Trim(c.status.value));
    }
    assert ([c] + rest)[1..] == rest;
  }

  /** Changes are accepted exactly when each is sensible and no two name the same item. */
  lemma {:induction false} ChangesAcceptedIff(changes: seq<Change>)
    ensures CheckChanges(changes, {}).None? <==>
      && (forall c | c in changes :: Sensible(c))
      && forall i, j | 0 <= i < j < |changes| :: Trim(changes[i].id) != Trim(changes[j].id)
  {
    hide Trim, CheckChanges, Sensible;
    ChangesPass(changes, {});
    var ids := ChangeIds(changes);
    assert forall i | 0 <= i < |changes| :: ids[i] == Trim(changes[i].id);
  }

  lemma {:induction false} PatchChanges(it: Item, c: Change, now: int)
    requires Sensible(c)
    ensures Changed(it, Patch(it, c, now), c, now)
  {
    if c.status.Some? {
      ParsedStatus(Trim(c.status.value));
    }
  }

  /** Every named item changes as its change says; the others stay as they are. */
  lemma {:induction false} UpdatedItems(p: PlanData, changes: seq<Change>, now: int, i: nat)
    requires Sound(p) && Updated(Some(p), changes, now).Ok? && i < |p.items|
    ensures var q := Updated(Some(p), changes, now).value;
      && |q.items| == |p.items|
      && (forall k | 0 <= k < |changes| && Trim(changes[k].id) == p.items[i].id ::
            Changed(p.items[i], q.items[i], changes[k], now))
      && ((forall c | c in changes :: Trim(c.id) != p.items[i].id) ==> q.items[i] == p.items[i])
  {
    hide Trim, ParseStatus, CheckChanges, Patched, AllKnown, Sensible, Changed, Sound, Patch;
    UpdateFacts(p, changes, now);
    ChangesPass(changes, {});
    forall k | 0 <= k < |changes| && Trim(changes[k].id) == p.items[i].id
      ensures Changed(p.items[i], Updated(Some(p), changes, now).value.items[i], changes[k], now)
    {
      assert changes[k] in changes;
      PatchChanges(p.items[i], changes[k], now);
    }
  }

  // ---- deleting -----------------------------------------------------------------------------------------

  lemma {:induction false} IdsPass(ids: seq<string>, seen: set<string>)
    ensures CheckIds(ids, seen).None? <==>
      (forall id | id in Trimmed(ids) :: id != "" && id !in seen) && NoneTwice(Trimmed(ids))
  {
    hide Trim, NoneTwice;
    if ids == [] {
      assert NoneTwice([]) by { NothingTwice(); }
    } else {
      IdsPass(ids[1..], seen + {Trim(ids[0])});
      assert Trimmed(ids) == [Trim(ids[0])] + Trimmed(ids[1..]);
      FirstNotTwice(Trim(ids[0]), Trimmed(ids[1..]));
      assert forall id :: id in Trimmed(ids) <==> id == Trim(ids[0]) || id in Trimmed(ids[1..]);
    }
  }

  /** Deletions are accepted exactly when no ID is blank and none is given twice. */
  lemma {:induction false} IdsAcceptedIff(ids: seq<string>)
    ensures CheckIds(ids, {}).None? <==>
      && (forall i | 0 <= i < |ids| :: Trim(ids[i]) != "")
      && forall i, j | 0 <= i < j < |ids| :: Trim(ids[i]) != Trim(ids[j])
  {
    hide Trim, CheckIds;
    IdsPass(ids, {});
    assert forall i | 0 <= i < |ids| :: Trimmed(ids)[i] == Trim(ids[i]) && Trimmed(ids)[i] in Trimmed(ids);
  }

  /** The positions, from 0, of the items whose ID is not given. */
  ghost predicate Remaining(items: seq<Item>, ids: seq<string>, at: seq<nat>) {
    && Increasing(at)
    && forall p: nat :: p in at <==> p < |items| && forall id | id in ids :: Trim(id) != items[p].id
  }

  lemma {:induction false} WithoutAt(items: seq<Item>, ids: seq<string>) returns (at: seq<nat>)
    ensures Remaining(items, ids, at) && forall k | 0 <= k < |at| :: at[k] < |items|
    ensures Without(items, set id | id in Trimmed(ids)) == seq(|at|, k requires 0 <= k < |at| => items[at[k]])
  {
    hide Trim;
    at := [];
    if items != [] {
      var n := |items| - 1;
      var before := WithoutAt(items[..n], ids);
      TrimmedIn(ids, items[n].id);
      at := before;
      if items[n].id !in (set id | id in Trimmed(ids)) {
        IncreasingSnoc(before, n);
        at := before + [n];
      }
    }
  }

  lemma {:induction false} TrimmedIn(ids: seq<string>, id: string)
    ensures id in Trimmed(ids) <==> exists s | s in ids :: Trim(s) == id
  {
    hide Trim;
    if s :| s in ids && Trim(s) == id {
      var k :| 0 <= k < |ids| && ids[k] == s;
      assert Trimmed(ids)[k] == id;
    }
  }

  /** An item that stays: only its position may change, and then the change time is noted. */
  predicate ClosedUp(was: Item, it: Item, position: nat, now: int) {
    it == if was.position == position then was else Item(was.id, was.content, was.status, position, was.createdAt, now)
  }

  /** Exactly the items not named stay, in order and with positions 1..n. */
  lemma {:induction false} DeletedItems(p: PlanData, ids: seq<string>, now: int) returns (at: seq<nat>)
    requires Deleted(Some(p), ids, now).Ok?
    ensures Remaining(p.items, ids, at)
    ensures var q := Deleted(Some(p), ids, now).value;
      |q.items| == |at| && forall k | 0 <= k < |at| :: at[k] < |p.items| && ClosedUp(p.items[at[k]], q.items[k], k + 1, now)
  {
    hide Trim, CheckIds, AllKnown, Remaining, Without, Trimmed;
    at := WithoutAt(p.items, ids);
  }
}
