/**
 Task-plan items and their IDs: how drafts are checked, how blank IDs are allocated, and what a
 replacement list looks like.
 */
module Plan {
  import opened Options
  import opened Decimal
  import opened Text

  datatype Status = Pending | InProgress | Completed | Cancelled

  datatype Draft = Draft(id: string, thread: string, content: string, status: string, position: int)

  datatype Item = Item(id: string, content: string, status: Status, position: nat,
                       createdAt: int, updatedAt: int)

  datatype TodoError =
    | EmptyThreadId | NoThread | PlanExists | WrongThread | EmptyContent | BadStatus
    | SuppliedId | SuppliedPosition | RepeatedId | IdTooLarge | IdSpaceExhausted
    | NotFound | NoItems | NoChanges | EmptyId

  datatype Outcome<T> = Ok(value: T) | Fail(error: TodoError)

  // ---- statuses -----------------------------------------------------------------------------

  function ParseStatus(s: string): Option<Status> {
    if s == "pending" then Some(Pending)
    else if s == "in_progress" then Some(InProgress)
    else if s == "completed" then Some(Completed)
    else if s == "cancelled" then Some(Cancelled)
    else None
  }

  /** The status a draft asks for; none given means pending. */
  function CheckDraft(thread: string, d: Draft): Outcome<Status> {
    if d.thread != "" && Trim(d.thread) != thread then Fail(WrongThread)
    else if Trim(d.content) == "" then Fail(EmptyContent)
    else if d.status == "" then Ok(Pending)
    else
      match ParseStatus(Trim(d.status))
      case None => Fail(BadStatus)
      case Some(status) => Ok(status)
  }

  // ---- allocation ---------------------------------------------------------------------------

  datatype Allocated = Allocated(id: string, next: int)

  function Clamped(next: int): int {
    if next < 1 then 1 else next
  }

  /** The least unused decimal ID from `next` on. */
  function Allocate(next: int, used: set<string>): Outcome<Allocated>
    requires 1 <= next <= MAX_INT64
    decreases MAX_INT64 - next
  {
    if FormatNat(next) !in used then
      if next == MAX_INT64 then Fail(IdSpaceExhausted) else Ok(Allocated(FormatNat(next), next + 1))
    else if next == MAX_INT64 then Fail(IdSpaceExhausted)
    else Allocate(next + 1, used)
  }

  method AllocateTodoID(nextID: int, used: set<string>) returns (r: Outcome<Allocated>)
    requires nextID <= MAX_INT64
    ensures r == Allocate(Clamped(nextID), used)
  {
    var next := Clamped(nextID);
    while true
      invariant 1 <= next <= MAX_INT64
      invariant Allocate(next, used) == Allocate(Clamped(nextID), used)
      decreases MAX_INT64 - next
    {
      var id := FormatNat(next);
      if id !in used {
        if next == MAX_INT64 {
          return Fail(IdSpaceExhausted);
        }
        return Ok(Allocated(id, next + 1));
      }
      if next == MAX_INT64 {
        return Fail(IdSpaceExhausted);
      }
      next := next + 1;
    }
  }

  /** Whatever is allocated is the least free number, and failure means every number below the top is taken. */
  lemma {:induction false} AllocateIsLeast(next: int, used: set<string>)
    requires 1 <= next <= MAX_INT64
    ensures var r := Allocate(next, used);
      && (r.Ok? ==>
            && next < r.value.next <= MAX_INT64
            && r.value.id == FormatNat(r.value.next - 1) && r.value.id !in used
            && forall k: nat | next <= k < r.value.next - 1 :: FormatNat(k) in used)
      && (r.Fail? ==>
            r == Fail(IdSpaceExhausted) && forall k: nat | next <= k < MAX_INT64 :: FormatNat(k) in used)
    decreases MAX_INT64 - next
  {
    hide FormatNat;
    if FormatNat(next) in used && next < MAX_INT64 {
      AllocateIsLeast(next + 1, used);
    }
  }

  // ---- replacement lists ----------------------------------------------------------------------

  /** The supplied IDs seen so far, and a number above all numeric ones. */
  datatype Claims = Claims(used: set<string>, finalNext: int)

  function ClaimOne(thread: string, d: Draft, c: Claims): Outcome<Claims> {
    var id := Trim(d.id);
    if CheckDraft(thread, d).Fail? then Fail(CheckDraft(thread, d).error)
    else if id == "" then Ok(c)
    else if id in c.used then Fail(RepeatedId)
    else
      match ParseInt(id)
      case Some(v) =>
        if v == MAX_INT64 then Fail(IdTooLarge)
        else Ok(Claims(c.used + {id}, if v > 0 && v >= c.finalNext then v + 1 else c.finalNext))
      case None => Ok(Claims(c.used + {id}, c.finalNext))
  }

  function Claim(thread: string, items: seq<Draft>, n: nat, next: int): Outcome<Claims>
    requires n <= |items|
  {
    if n == 0 then Ok(Claims({}, next))
    else
      match Claim(thread, items, n - 1, next)
      case Fail(e) => Fail(e)
      case Ok(c) => ClaimOne(thread, items[n - 1], c)
  }

  datatype Filled = Filled(items: seq<Item>, used: set<string>, alloc: int, finalNext: int)

  function StatusOf(d: Draft): Status {
    match ParseStatus(Trim(d.status))
    case None => Pending
    case Some(status) => status
  }

  function Placed(d: Draft, id: string, position: nat, created: map<string, int>, now: int): Item {
    Item(id, d.content, StatusOf(d), position, if id in created then created[id] else now, now)
  }

  function Max(a: int, b: int): int {
    if a > b then a else b
  }

  function FillOne(d: Draft, f: Filled, created: map<string, int>, now: int): Outcome<Filled>
    requires 1 <= f.alloc <= MAX_INT64
  {
    var id, position := Trim(d.id), |f.items| + 1;
    if id != "" then Ok(f.(items := f.items + [Placed(d, id, position, created, now)]))
    else
      match Allocate(f.alloc, f.used)
      case Fail(e) => Fail(e)
      case Ok(a) =>
        Ok(Filled(f.items + [Placed(d, a.id, position, created, now)], f.used + {a.id}, a.next,
                  Max(f.finalNext, a.next)))
  }

  /** The first n drafts placed after what is already there. */
  function Fill(drafts: seq<Draft>, n: nat, start: Filled, created: map<string, int>, now: int):
    (r: Outcome<Filled>)
    requires n <= |drafts| && 1 <= start.alloc <= MAX_INT64
    ensures r.Ok? ==> 1 <= r.value.alloc <= MAX_INT64
  {
    if n == 0 then Ok(start)
    else
      match Fill(drafts, n - 1, start, created, now)
      case Fail(e) => Fail(e)
      case Ok(f) =>
        AllocateIsLeast(f.alloc, f.used);
        FillOne(drafts[n - 1], f, created, now)
  }

  datatype Prepared = Prepared(items: seq<Item>, nextId: int)

  function Prepare(thread: string, items: seq<Draft>, next: int, created: map<string, int>, now: int):
    Outcome<Prepared>
    requires 1 <= next <= MAX_INT64
  {
    match Claim(thread, items, |items|, next)
    case Fail(e) => Fail(e)
    case Ok(c) =>
      match Fill(items, |items|, Filled([], c.used, next, c.finalNext), created, now)
      case Fail(e) => Fail(e)
      case Ok(f) => Ok(Prepared(f.items, f.finalNext))
  }

  lemma {:induction false} ClaimFailsEarly(thread: string, items: seq<Draft>, n: nat, m: nat, next: int)
    requires n <= m <= |items| && Claim(thread, items, n, next).Fail?
    ensures Claim(thread, items, m, next) == Claim(thread, items, n, next)
  {
    if n < m {
      ClaimFailsEarly(thread, items, n, m - 1, next);
    }
  }

  lemma {:induction false} FillFailsEarly(drafts: seq<Draft>, n: nat, m: nat, start: Filled,
                                          created: map<string, int>, now: int)
    requires n <= m <= |drafts| && 1 <= start.alloc <= MAX_INT64
    requires Fill(drafts, n, start, created, now).Fail?
    ensures Fill(drafts, m, start, created, now) == Fill(drafts, n, start, created, now)
  {
    if n < m {
      FillFailsEarly(drafts, n, m - 1, start, created, now);
    }
  }

  method ClaimIds(thread: string, items: seq<Draft>, next: int) returns (r: Outcome<Claims>)
    ensures r == Claim(thread, items, |items|, next)
  {
    hide Trim, ParseInt, CheckDraft;
    var used: set<string>, finalNext := {}, next;
    for i := 0 to |items|
      invariant Claim(thread, items, i, next) == Ok(Claims(used, finalNext))
    {
      if Claim(thread, items, i + 1, next).Fail? {
        ClaimFailsEarly(thread, items, i + 1, |items|, next);
      }
      var checked := CheckDraft(thread, items[i]);
      if checked.Fail? {
        return Fail(checked.error);
      }
      var id := Trim(items[i].id);
      if id != "" {
        if id in used {
          return Fail(RepeatedId);
        }
        used := used + {id};
        var numeric := ParseInt(id);
        if numeric.Some? && numeric.value > 0 {
          if numeric.value == MAX_INT64 {
            return Fail(IdTooLarge);
          }
          if numeric.value >= finalNext {
            finalNext := numeric.value + 1;
          }
        }
      }
    }
    r := Ok(Claims(used, finalNext));
  }

  method PlaceDrafts(drafts: seq<Draft>, start: Filled, created: map<string, int>, now: int)
    returns (r: Outcome<Filled>)
    requires 1 <= start.alloc <= MAX_INT64
    ensures r == Fill(drafts, |drafts|, start, created, now)
  {
    hide Trim, Allocate, Placed;
    var f := start;
    for i := 0 to |drafts|
      invariant 1 <= f.alloc <= MAX_INT64 && Fill(drafts, i, start, created, now) == Ok(f)
    {
      if Fill(drafts, i + 1, start, created, now).Fail? {
        FillFailsEarly(drafts, i + 1, |drafts|, start, created, now);
      }
      AllocateIsLeast(f.alloc, f.used);
      var id := Trim(drafts[i].id);
      var position := |f.items| + 1;
      if id == "" {
        var a := AllocateTodoID(f.alloc, f.used);
        if a.Fail? {
          return Fail(a.error);
        }
        id := a.value.id;
        f := f.(alloc := a.value.next, finalNext := Max(f.finalNext, a.value.next), used := f.used + {id});
      }
      f := f.(items := f.items + [Placed(drafts[i], id, position, created, now)]);
    }
    r := Ok(f);
  }

  method PrepareReplacement(thread: string, items: seq<Draft>, nextID: int, created: map<string, int>,
                            now: int) returns (r: Outcome<Prepared>)
    requires nextID <= MAX_INT64
    ensures r == Prepare(thread, items, Clamped(nextID), created, now)
  {
    hide Fill, Claim;
    var next := Clamped(nextID);
    var claims := ClaimIds(thread, items, next);
    if claims.Fail? {
      return Fail(claims.error);
    }
    var start := Filled([], claims.value.used, next, claims.value.finalNext);
    var filled := PlaceDrafts(items, start, created, now);
    if filled.Fail? {
      return Fail(filled.error);
    }
    r := Ok(Prepared(filled.value.items, filled.value.finalNext));
  }

  // ---- what a prepared list guarantees ------------------------------------------------------------

  /** A positive 64-bit number written in the ID, if any, is below the bound. */
  predicate NumberBelow(id: string, bound: int) {
    var v := ParseInt(id);
    v.Some? && v.value > 0 ==> v.value < bound
  }

  /** Positions are 1..n, IDs are distinct, and the next number is above all numbers in use. */
  predicate WellNumbered(items: seq<Item>, nextId: int) {
    && 1 <= nextId <= MAX_INT64
    && (forall i | 0 <= i < |items| :: items[i].position == i + 1)
    && (forall i, j | 0 <= i < j < |items| :: items[i].id != items[j].id)
    && forall it | it in items :: NumberBelow(it.id, nextId)
  }

  predicate Blank(d: Draft) { Trim(d.id) == "" }

  lemma {:induction false} ClaimFacts(thread: string, items: seq<Draft>, n: nat, next: int)
    requires n <= |items| && 1 <= next <= MAX_INT64 && Claim(thread, items, n, next).Ok?
    ensures var c := Claim(thread, items, n, next).value;
      && next <= c.finalNext <= MAX_INT64
      && (forall id | id in c.used :: NumberBelow(id, c.finalNext))
      && (forall i | 0 <= i < n && !Blank(items[i]) :: Trim(items[i].id) in c.used)
    ensures forall i, j | 0 <= i < j < n && !Blank(items[i]) && !Blank(items[j]) ::
      Trim(items[i].id) != Trim(items[j].id)
  {
    hide Trim, ParseInt, CheckDraft;
    if n > 0 {
      ClaimFacts(thread, items, n - 1, next);
      ParseIsBounded(Trim(items[n - 1].id));
    }
  }

  lemma {:induction false} ParseIsBounded(s: string)
    ensures ParseInt(s).Some? ==> ParseInt(s).value <= MAX_INT64
  {
  }

  ghost predicate NumberedWithin(id: string, from: int, to: int) {
    exists k: nat {:trigger FormatNat(k)} | from <= k < to :: id == FormatNat(k)
  }

  /** Supplied IDs are kept; a blank one gets a free number from the start's next number on. */
  ghost predicate Assigned(d: Draft, id: string, start: Filled, f: Filled) {
    if Blank(d) then
      id !in start.used && id in f.used && NumberedWithin(id, start.alloc, f.alloc)
    else id == Trim(d.id)
  }

  lemma {:induction false} FillFacts(drafts: seq<Draft>, n: nat, start: Filled,
                                     created: map<string, int>, now: int)
    requires n <= |drafts| && 1 <= start.alloc <= start.finalNext <= MAX_INT64
    requires Fill(drafts, n, start, created, now).Ok?
    ensures var f, m := Fill(drafts, n, start, created, now).value, |start.items|;
      && |f.items| == m + n && f.items[..m] == start.items
      && start.used <= f.used
      && start.alloc <= f.alloc <= f.finalNext <= MAX_INT64 && start.finalNext <= f.finalNext
      && (forall k | m <= k < m + n :: f.items[k].position == k + 1)
      && (forall k | m <= k < m + n :: Assigned(drafts[k - m], f.items[k].id, start, f))
    ensures var f, m := Fill(drafts, n, start, created, now).value, |start.items|;
      forall k, l | m <= k < l < m + n && Blank(drafts[k - m]) && Blank(drafts[l - m]) ::
        f.items[k].id != f.items[l].id
  {
    hide Trim, FormatNat, FillOne;
    if n > 0 {
      FillFacts(drafts, n - 1, start, created, now);
      var f := Fill(drafts, n - 1, start, created, now).value;
      FillOneFacts(drafts[n - 1], f, created, now);
    }
  }

  lemma {:induction false} FillOneFacts(d: Draft, f: Filled, created: map<string, int>, now: int)
    requires 1 <= f.alloc <= f.finalNext <= MAX_INT64 && FillOne(d, f, created, now).Ok?
    ensures var g, m := FillOne(d, f, created, now).value, |f.items|;
      && |g.items| == m + 1 && g.items[..m] == f.items && g.items[m].position == m + 1
      && f.used <= g.used && f.alloc <= g.alloc <= g.finalNext <= MAX_INT64 && f.finalNext <= g.finalNext
      && (!Blank(d) ==> g.items[m].id == Trim(d.id))
      && (Blank(d) ==> g.items[m].id !in f.used && g.items[m].id in g.used
                       && g.items[m].id == FormatNat(g.alloc - 1) && f.alloc <= g.alloc - 1)
  {
    hide Trim, FormatNat, Allocate, StatusOf;
    AllocateIsLeast(f.alloc, f.used);
  }

  lemma {:induction false} AssignedNumber(d: Draft, id: string, start: Filled, f: Filled)
    requires Assigned(d, id, start, f) && Blank(d) && 1 <= start.alloc <= f.alloc <= MAX_INT64
    ensures NumberFrom(id, start.alloc) && NumberBelow(id, f.alloc)
  {
    hide Trim, FormatNat, ParseInt;
    var k: nat :| start.alloc <= k < f.alloc && id == FormatNat(k);
    ParseOfFormat(k);
  }

  lemma {:induction false} FilledFacts(items: seq<Draft>, next: int, start: Filled,
                                       created: map<string, int>, now: int)
    requires 1 <= next == start.alloc <= start.finalNext <= MAX_INT64 && start.items == []
    requires Fill(items, |items|, start, created, now).Ok?
    requires forall k | 0 <= k < |items| && !Blank(items[k]) :: Trim(items[k].id) in start.used
    requires forall id | id in start.used :: NumberBelow(id, start.finalNext)
    requires forall k, l | 0 <= k < l < |items| && !Blank(items[k]) && !Blank(items[l]) ::
      Trim(items[k].id) != Trim(items[l].id)
    ensures var f := Fill(items, |items|, start, created, now).value;
      && WellNumbered(f.items, f.finalNext) && next <= f.finalNext && |f.items| == |items|
      && (forall i | 0 <= i < |items| && !Blank(items[i]) :: f.items[i].id == Trim(items[i].id))
      && (forall i | 0 <= i < |items| && Blank(items[i]) :: NumberFrom(f.items[i].id, next))
  {
    hide Trim, NumberedWithin, NumberBelow, NumberFrom, Fill, Blank;
    FillFacts(items, |items|, start, created, now);
    var f := Fill(items, |items|, start, created, now).value;
    forall i | 0 <= i < |items|
      ensures Assigned(items[i], f.items[i].id, start, f)
      ensures NumberBelow(f.items[i].id, f.finalNext)
      ensures Blank(items[i]) ==> NumberFrom(f.items[i].id, next)
    {
      assert Assigned(items[i - 0], f.items[i].id, start, f);
      if Blank(items[i]) {
        AssignedNumber(items[i], f.items[i].id, start, f);
        NumberBelowUp(f.items[i].id, f.alloc, f.finalNext);
      } else {
        NumberBelowUp(f.items[i].id, start.finalNext, f.finalNext);
      }
    }
    PreparedDistinct(items, start, f);
  }

  lemma {:induction false} NumberBelowUp(id: string, a: int, b: int)
    requires NumberBelow(id, a) && a <= b
    ensures NumberBelow(id, b)
  {
    hide ParseInt;
  }

  /** A replacement is well numbered, and its new numbers start at the plan's next number. */
  lemma {:induction false} PrepareFacts(thread: string, items: seq<Draft>, next: int,
                                        created: map<string, int>, now: int)
    requires 1 <= next <= MAX_INT64 && Prepare(thread, items, next, created, now).Ok?
    ensures var p := Prepare(thread, items, next, created, now).value;
      && WellNumbered(p.items, p.nextId) && next <= p.nextId && |p.items| == |items|
      && (forall i | 0 <= i < |items| && !Blank(items[i]) :: p.items[i].id == Trim(items[i].id))
      && (forall i | 0 <= i < |items| && Blank(items[i]) :: NumberFrom(p.items[i].id, next))
  {
    hide Trim, ParseInt, Fill, Claim, WellNumbered, NumberFrom;
    var c := Claim(thread, items, |items|, next).value;
    ClaimFacts(thread, items, |items|, next);
    FilledFacts(items, next, Filled([], c.used, next, c.finalNext), created, now);
  }

  lemma {:induction false} PreparedDistinct(drafts: seq<Draft>, start: Filled, f: Filled)
    requires |f.items| == |drafts|
    requires forall k | 0 <= k < |drafts| :: Assigned(drafts[k], f.items[k].id, start, f)
    requires forall k | 0 <= k < |drafts| && !Blank(drafts[k]) :: Trim(drafts[k].id) in start.used
    requires forall k, l | 0 <= k < l < |drafts| && !Blank(drafts[k]) && !Blank(drafts[l]) ::
      Trim(drafts[k].id) != Trim(drafts[l].id)
    requires forall k, l | 0 <= k < l < |drafts| && Blank(drafts[k]) && Blank(drafts[l]) ::
      f.items[k].id != f.items[l].id
    ensures forall i, j | 0 <= i < j < |drafts| :: f.items[i].id != f.items[j].id
  {
    hide Trim, NumberedWithin;
    forall i, j | 0 <= i < j < |drafts| ensures f.items[i].id != f.items[j].id {
      assert Assigned(drafts[i], f.items[i].id, start, f) && Assigned(drafts[j], f.items[j].id, start, f);
    }
  }

  /** The ID is a decimal number not below the bound. */
  predicate NumberFrom(id: string, bound: int) {
    var v := ParseInt(id);
    v.Some? && v.value > 0 && v.value >= bound
  }
}
