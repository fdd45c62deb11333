/**
 Running a batch of tool calls: the sequential loop, and the worker pool over a shared job channel as
 steps that may interleave in any order.
 */
module ToolBatch {
  import opened Options
  import opened Payload

  const MAX_PARALLEL_TOOL_CALLS := 8

  const NOT_COMPLETED := "error: tool call was not completed"

  type Tool = ToolCall -> string

  // ---- which batches may run concurrently --------------------------------------------------------

  predicate AllConcurrent(calls: seq<ToolCall>, canRun: string -> bool) {
    forall c | c in calls :: c.kind.FunctionCall? && canRun(c.name)
  }

  method ToolBatchCanRunConcurrently(calls: seq<ToolCall>, canRun: Option<string -> bool>) returns (r: bool)
    ensures r <==> |calls| >= 2 && canRun.Some? && AllConcurrent(calls, canRun.value)
  {
    if |calls| < 2 || canRun.None? {
      return false;
    }
    for i := 0 to |calls|
      invariant AllConcurrent(calls[..i], canRun.value)
    {
      if !calls[i].kind.FunctionCall? || !canRun.value(calls[i].name) {
        assert calls[i] in calls;
        return false;
      }
    }
    assert calls[..|calls|] == calls;
    r := true;
  }

  // ---- the worker pool -------------------------------------------------------------------------------

  datatype Worker = Waiting | Holding(job: nat) | Running(job: nat) | Exited

  /** `started` records the executions begun, `produced` what each finished one returned. */
  datatype Pool = Pool(jobs: seq<nat>, workers: seq<Worker>, results: seq<Option<string>>,
                       cancelled: bool, started: seq<nat>, produced: map<nat, string>)

  datatype Event =
    | Receive(w: nat)
    | Check(w: nat)
    | Finish(w: nat, output: string)
    | Leave(w: nat)
    | Cancel

  function Start(n: nat): Pool {
    var workers := if n > MAX_PARALLEL_TOOL_CALLS then MAX_PARALLEL_TOOL_CALLS else n;
    Pool(seq(n, i => i), seq(workers, i => Waiting), seq(n, i => None), false, [], map[])
  }

  /** Until the request is cancelled, a call returns its own output whatever runs beside it. */
  predicate Enabled(s: Pool, calls: seq<ToolCall>, run: Tool, e: Event) {
    match e
    case Receive(w) => w < |s.workers| && s.workers[w].Waiting? && s.jobs != []
    case Check(w) => w < |s.workers| && s.workers[w].Holding? && s.workers[w].job < |s.results|
    case Finish(w, output) =>
      && w < |s.workers| && s.workers[w].Running?
      && s.workers[w].job < |s.results| == |calls|
      && (!s.cancelled ==> output == run(calls[s.workers[w].job]))
    case Leave(w) => w < |s.workers| && s.workers[w].Waiting? && s.jobs == []
    case Cancel => true
  }

  function Next(s: Pool, calls: seq<ToolCall>, run: Tool, e: Event): Pool
    requires Enabled(s, calls, run, e)
  {
    match e
    case Receive(w) => s.(jobs := s.jobs[1..], workers := s.workers[w := Holding(s.jobs[0])])
    case Check(w) =>
      var i := s.workers[w].job;
      if s.cancelled then
        s.(workers := s.workers[w := Waiting], results := s.results[i := Some(NOT_COMPLETED)])
      else s.(workers := s.workers[w := Running(i)], started := s.started + [i])
    case Finish(w, output) =>
      var i := s.workers[w].job;
      s.(workers := s.workers[w := Waiting], results := s.results[i := Some(output)],
         produced := s.produced[i := output])
    case Leave(w) => s.(workers := s.workers[w := Exited])
    case Cancel => s.(cancelled := true)
  }

  predicate Active(w: Worker) { w.Holding? || w.Running? }

  predicate Busy(w: Worker, i: nat) {
    w == Holding(i) || w == Running(i)
  }

  /** The wait for all workers is over. */
  predicate Completed(s: Pool) {
    forall w | 0 <= w < |s.workers| :: s.workers[w].Exited?
  }

  function Taken(s: Pool): int { |s.results| - |s.jobs| }

  // ---- what every interleaving keeps --------------------------------------------------------------------

  /** The channel hands out indices in order; nobody leaves before it is empty. */
  predicate JobsInOrder(s: Pool) {
    && |s.jobs| <= |s.results|
    && (forall k | 0 <= k < |s.jobs| :: s.jobs[k] == Taken(s) + k)
    && (s.jobs != [] ==> forall w | 0 <= w < |s.workers| :: !s.workers[w].Exited?)
  }

  /** A busy worker's index is taken, unfilled and nobody else's. */
  predicate BusyIsExclusive(s: Pool) {
    && (forall w | 0 <= w < |s.workers| && Active(s.workers[w]) ::
          s.workers[w].job < Taken(s) && s.results[s.workers[w].job].None?)
    && forall v, w | 0 <= v < w < |s.workers| && Active(s.workers[v]) && Active(s.workers[w]) ::
         s.workers[v].job != s.workers[w].job
  }

  predicate InHand(s: Pool, i: nat) {
    exists w | 0 <= w < |s.workers| :: Busy(s.workers[w], i)
  }

  /** Every taken index is filled or in some worker's hands; the others are untouched. */
  predicate TakenIsTracked(s: Pool) {
    && (forall i: nat | i < Taken(s) && s.results[i].None? :: InHand(s, i))
    && forall i: nat | Taken(s) <= i < |s.results| :: s.results[i].None?
  }

  /** Executions begun are pairwise different; each is still running or has filled its slot. */
  predicate StartedOnce(s: Pool) {
    && Distinct(s.started)
    && (forall i | i in s.started :: i < Taken(s))
    && (forall w | 0 <= w < |s.workers| && s.workers[w].Holding? :: s.workers[w].job !in s.started)
    && forall w | 0 <= w < |s.workers| && s.workers[w].Running? :: s.workers[w].job in s.started
  }

  /** A filled slot holds its own call's output, or the not-completed text after a cancellation. */
  predicate SlotsAreOwn(s: Pool, calls: seq<ToolCall>, run: Tool) {
    && |calls| == |s.results|
    && (forall i | i in s.produced :: i in s.started)
    && forall i | 0 <= i < |s.results| && s.results[i].Some? ::
         && (if i in s.started then i in s.produced && s.results[i].value == s.produced[i]
             else s.cancelled && s.results[i].value == NOT_COMPLETED)
         && (!s.cancelled ==> s.results[i].value == run(calls[i]))
  }

  ghost predicate Inv(s: Pool, calls: seq<ToolCall>, run: Tool) {
    && |s.workers| <= MAX_PARALLEL_TOOL_CALLS
    && (s.results != [] ==> s.workers != [])
    && JobsInOrder(s) && BusyIsExclusive(s) && TakenIsTracked(s) && StartedOnce(s)
    && SlotsAreOwn(s, calls, run)
  }

  lemma {:induction false} StartIsFine(calls: seq<ToolCall>, run: Tool)
    ensures Inv(Start(|calls|), calls, run)
  {
  }

  lemma {:induction false} TrackingKept(s: Pool, t: Pool)
    requires TakenIsTracked(s) && JobsInOrder(s) && BusyIsExclusive(s)
    requires |t.workers| == |s.workers| && |t.results| == |s.results| && t.jobs == s.jobs
    requires forall i | 0 <= i < |s.results| && t.results[i].None? :: s.results[i].None?
    requires forall i | Taken(s) <= i < |s.results| :: t.results[i] == s.results[i]
    requires forall v | 0 <= v < |s.workers| && Active(s.workers[v]) && t.results[s.workers[v].job].None? ::
      Busy(t.workers[v], s.workers[v].job)
    ensures TakenIsTracked(t)
  {
    forall i: nat | i < Taken(t) && t.results[i].None? ensures InHand(t, i) {
      assert InHand(s, i);
      var v :| 0 <= v < |s.workers| && Busy(s.workers[v], i);
      assert Busy(t.workers[v], i);
    }
  }

  lemma {:induction false} ReceiveKeeps(s: Pool, calls: seq<ToolCall>, run: Tool, w: nat)
    requires Inv(s, calls, run) && Enabled(s, calls, run, Receive(w))
    ensures Inv(Next(s, calls, run, Receive(w)), calls, run)
  {
    var t := Next(s, calls, run, Receive(w));
    forall i: nat | i < Taken(t) && t.results[i].None? ensures InHand(t, i) {
      if i < Taken(s) {
        assert InHand(s, i);
        var v :| 0 <= v < |s.workers| && Busy(s.workers[v], i);
        assert Busy(t.workers[v], i);
      } else {
        assert Busy(t.workers[w], i);
      }
    }
  }

  lemma {:induction false} SkipKeeps(s: Pool, calls: seq<ToolCall>, run: Tool, w: nat)
    requires Inv(s, calls, run) && Enabled(s, calls, run, Check(w)) && s.cancelled
    ensures Inv(Next(s, calls, run, Check(w)), calls, run)
  {
    var t := Next(s, calls, run, Check(w));
    TrackingKept(s, t);
    hide TakenIsTracked, InHand;
  }

  lemma {:induction false} BeginKeeps(s: Pool, calls: seq<ToolCall>, run: Tool, w: nat)
    requires Inv(s, calls, run) && Enabled(s, calls, run, Check(w)) && !s.cancelled
    ensures Inv(Next(s, calls, run, Check(w)), calls, run)
  {
    var t := Next(s, calls, run, Check(w));
    TrackingKept(s, t);
    hide TakenIsTracked, InHand;
  }

  lemma {:induction false} FinishKeeps(s: Pool, calls: seq<ToolCall>, run: Tool, w: nat, output: string)
    requires Inv(s, calls, run) && Enabled(s, calls, run, Finish(w, output))
    ensures Inv(Next(s, calls, run, Finish(w, output)), calls, run)
  {
    var t := Next(s, calls, run, Finish(w, output));
    TrackingKept(s, t);
    hide TakenIsTracked, InHand;
  }

  lemma {:induction false} LeaveKeeps(s: Pool, calls: seq<ToolCall>, run: Tool, w: nat)
    requires Inv(s, calls, run) && Enabled(s, calls, run, Leave(w))
    ensures Inv(Next(s, calls, run, Leave(w)), calls, run)
  {
    TrackingKept(s, Next(s, calls, run, Leave(w)));
    hide TakenIsTracked, InHand;
  }

  lemma {:induction false} CancelKeeps(s: Pool, calls: seq<ToolCall>, run: Tool)
    requires Inv(s, calls, run)
    ensures Inv(Next(s, calls, run, Cancel), calls, run)
  {
    TrackingKept(s, Next(s, calls, run, Cancel));
    hide TakenIsTracked, InHand;
  }

  lemma {:induction false} StepKeeps(s: Pool, calls: seq<ToolCall>, run: Tool, e: Event)
    requires Inv(s, calls, run) && Enabled(s, calls, run, e)
    ensures Inv(Next(s, calls, run, e), calls, run)
  {
    hide Inv;
    match e
    case Receive(w) => ReceiveKeeps(s, calls, run, w);
    case Check(w) => if s.cancelled { SkipKeeps(s, calls, run, w); } else { BeginKeeps(s, calls, run, w); }
    case Finish(w, output) => FinishKeeps(s, calls, run, w, output);
    case Leave(w) => LeaveKeeps(s, calls, run, w);
    case Cancel => CancelKeeps(s, calls, run);
  }

  /** The pool after a schedule, or nothing when some step was not possible. */
  function After(s: Pool, calls: seq<ToolCall>, run: Tool, events: seq<Event>): Option<Pool>
    decreases |events|
  {
    if events == [] then Some(s)
    else if !Enabled(s, calls, run, events[0]) then None
    else After(Next(s, calls, run, events[0]), calls, run, events[1..])
  }

  lemma {:induction false} ScheduleKeeps(s: Pool, calls: seq<ToolCall>, run: Tool, events: seq<Event>)
    requires Inv(s, calls, run) && After(s, calls, run, events).Some?
    ensures Inv(After(s, calls, run, events).value, calls, run)
    decreases |events|
  {
    hide Inv;
    if events != [] {
      StepKeeps(s, calls, run, events[0]);
      ScheduleKeeps(Next(s, calls, run, events[0]), calls, run, events[1..]);
    }
  }

  // ---- the sequential loop -----------------------------------------------------------------------------

  /** One output per call. */
  function Sequential(calls: seq<ToolCall>, run: Tool): seq<string> {
    seq(|calls|, i requires 0 <= i < |calls| => run(calls[i]))
  }

  /** When the request is cancelled: before the given call, or while it runs. */
  datatype Cancellation = Never | BeforeCall(i: nat) | DuringCall(i: nat)

  /** A call that runs when the request is cancelled returns what `cut` says; none is run after that. */
  function OutputAt(calls: seq<ToolCall>, run: Tool, cut: Tool, at: Cancellation, i: nat): string
    requires i < |calls|
  {
    match at
    case Never => run(calls[i])
    case BeforeCall(k) => if i < k then run(calls[i]) else NOT_COMPLETED
    case DuringCall(k) => if i < k then run(calls[i]) else if i == k then cut(calls[i]) else NOT_COMPLETED
  }

  method RunSequentially(calls: seq<ToolCall>, run: Tool, cut: Tool, at: Cancellation) returns (results: seq<string>)
    ensures |results| == |calls| && forall i | 0 <= i < |calls| :: results[i] == OutputAt(calls, run, cut, at, i)
  {
    results := [];
    var cancelled := false;
    for i := 0 to |calls|
      invariant |results| == i && forall k | 0 <= k < i :: results[k] == OutputAt(calls, run, cut, at, k)
      invariant cancelled <==> (at.BeforeCall? && at.i < i) || (at.DuringCall? && at.i < i)
    {
      if at == BeforeCall(i) {
        cancelled := true;
      }
      if cancelled {
        results := results + [NOT_COMPLETED];
        continue;
      }
      if at == DuringCall(i) {
        cancelled := true;
        results := results + [cut(calls[i])];
      } else {
        results := results + [run(calls[i])];
      }
    }
  }

  // ---- every schedule ends, and ends right --------------------------------------------------------------

  function InFlight(s: Pool): set<nat> {
    set w: nat | w < |s.workers| && s.workers[w].Running?
  }

  lemma {:induction false} BelowSize(n: nat, some: set<nat>)
    requires forall i | i in some :: i < n
    ensures |some| <= n
  {
    if n > 0 {
      BelowSize(n - 1, some - {n - 1});
      assert |some| <= |some - {n - 1}| + 1;
    } else {
      assert some == {};
    }
  }

  /** At any moment at most eight calls run, and no call is ever started twice. */
  lemma {:induction false} BoundedAndOnce(calls: seq<ToolCall>, run: Tool, events: seq<Event>)
    requires After(Start(|calls|), calls, run, events).Some?
    ensures var s := After(Start(|calls|), calls, run, events).value;
      |InFlight(s)| <= MAX_PARALLEL_TOOL_CALLS && Distinct(s.started)
  {
    StartIsFine(calls, run);
    ScheduleKeeps(Start(|calls|), calls, run, events);
    var s := After(Start(|calls|), calls, run, events).value;
    BelowSize(|s.workers|, InFlight(s));
  }

  lemma {:induction false} CompletedIsFull(s: Pool, calls: seq<ToolCall>, run: Tool)
    requires Inv(s, calls, run) && Completed(s)
    ensures forall i | 0 <= i < |calls| :: s.results[i].Some?
  {
    forall i: nat | i < |calls| ensures s.results[i].Some? {
      assert s.workers[0].Exited?;
      assert s.jobs == [];
      assert s.results[i].None? ==> InHand(s, i);
    }
  }

  /**
   When all workers are done every slot is filled: without cancellation exactly as the sequential loop
   fills it, otherwise with what that call itself returned or with the not-completed text.
   */
  lemma {:induction false} CompletedIsSequential(calls: seq<ToolCall>, run: Tool, events: seq<Event>)
    requires After(Start(|calls|), calls, run, events).Some?
    requires Completed(After(Start(|calls|), calls, run, events).value)
    ensures var s := After(Start(|calls|), calls, run, events).value;
      && |s.results| == |calls|
      && (forall i | 0 <= i < |calls| ::
            && s.results[i].Some?
            && (!s.cancelled ==> s.results[i].value == Sequential(calls, run)[i])
            && (if i in s.started then i in s.produced && s.results[i].value == s.produced[i]
                else s.results[i].value == NOT_COMPLETED))
  {
    StartIsFine(calls, run);
    ScheduleKeeps(Start(|calls|), calls, run, events);
    CompletedIsFull(After(Start(|calls|), calls, run, events).value, calls, run);
  }

  function Work(w: Worker): nat {
    match w
    case Waiting => 1
    case Holding(_) => 3
    case Running(_) => 2
    case Exited => 0
  }

  function TotalWork(ws: seq<Worker>): nat {
    if ws == [] then 0 else TotalWork(ws[..|ws| - 1]) + Work(ws[|ws| - 1])
  }

  function Measure(s: Pool): nat { 3 * |s.jobs| + TotalWork(s.workers) }

  lemma {:induction false} WorkUpdate(ws: seq<Worker>, i: nat, w: Worker)
    requires i < |ws|
    ensures TotalWork(ws[i := w]) == TotalWork(ws) - Work(ws[i]) + Work(w)
  {
    var init, updated := ws[..|ws| - 1], ws[i := w];
    if i < |ws| - 1 {
      WorkUpdate(init, i, w);
      assert updated[..|ws| - 1] == init[i := w];
    } else {
      assert updated[..|ws| - 1] == init;
    }
  }

  /** Every step of a worker brings the batch closer to its end. */
  lemma {:induction false} StepDecreases(s: Pool, calls: seq<ToolCall>, run: Tool, e: Event)
    requires Enabled(s, calls, run, e) && !e.Cancel?
    ensures Measure(Next(s, calls, run, e)) < Measure(s)
  {
    WorkUpdate(s.workers, e.w, Next(s, calls, run, e).workers[e.w]);
  }

  function WorkerSteps(events: seq<Event>): nat {
    if events == [] then 0 else (if events[0].Cancel? then 0 else 1) + WorkerSteps(events[1..])
  }

  lemma {:induction false} StepsAreBounded(s: Pool, calls: seq<ToolCall>, run: Tool, events: seq<Event>)
    requires After(s, calls, run, events).Some?
    ensures WorkerSteps(events) <= Measure(s)
    decreases |events|
  {
    if events != [] {
      var t := Next(s, calls, run, events[0]);
      if !events[0].Cancel? {
        StepDecreases(s, calls, run, events[0]);
      }
      StepsAreBounded(t, calls, run, events[1..]);
    }
  }

  lemma {:induction false} AllWaiting(ws: seq<Worker>)
    requires forall w | w in ws :: w.Waiting?
    ensures TotalWork(ws) == |ws|
  {
    if ws != [] {
      AllWaiting(ws[..|ws| - 1]);
    }
  }

  /** No schedule of a batch of n calls has more than 3n + 8 worker steps. */
  lemma {:induction false} SchedulesAreFinite(calls: seq<ToolCall>, run: Tool, events: seq<Event>)
    requires After(Start(|calls|), calls, run, events).Some?
    ensures WorkerSteps(events) <= 3 * |calls| + MAX_PARALLEL_TOOL_CALLS
  {
    AllWaiting(Start(|calls|).workers);
    StepsAreBounded(Start(|calls|), calls, run, events);
  }

  /** Outputs recorded so far are those of the calls themselves, cut short or not. */
  predicate ProducedByRun(s: Pool, calls: seq<ToolCall>, run: Tool, cut: Tool) {
    forall i | i in s.produced :: i < |calls| && s.produced[i] in [run(calls[i]), cut(calls[i])]
  }

  /** One step of some worker, perhaps after a cancellation. */
  method Advance(s: Pool, calls: seq<ToolCall>, run: Tool, cut: Tool) returns (t: Pool)
    requires Inv(s, calls, run) && ProducedByRun(s, calls, run, cut) && !Completed(s)
    ensures Inv(t, calls, run) && ProducedByRun(t, calls, run, cut) && Measure(t) < Measure(s)
  {
    hide Inv, Measure;
    t := s;
    var cancel: bool := *;
    if cancel {
      StepKeeps(t, calls, run, Cancel);
      CancelCosts(t, calls, run);
      t := Next(t, calls, run, Cancel);
    }
    var e := PickStep(t, calls, run, cut);
    StepKeeps(t, calls, run, e);
    StepDecreases(t, calls, run, e);
    t := Next(t, calls, run, e);
  }

  lemma {:induction false} CancelCosts(s: Pool, calls: seq<ToolCall>, run: Tool)
    ensures Measure(Next(s, calls, run, Cancel)) == Measure(s)
  {
  }

  /** Runs the pool under some schedule until all workers are done. */
  method RunWorkers(calls: seq<ToolCall>, run: Tool, cut: Tool) returns (results: seq<string>, cancelled: bool)
    ensures |results| == |calls|
    ensures !cancelled ==> results == Sequential(calls, run)
    ensures forall i | 0 <= i < |calls| :: results[i] in [run(calls[i]), cut(calls[i]), NOT_COMPLETED]
  {
    var s := Start(|calls|);
    StartIsFine(calls, run);
    while exists w | 0 <= w < |s.workers| :: !s.workers[w].Exited?
      invariant Inv(s, calls, run) && ProducedByRun(s, calls, run, cut)
      decreases Measure(s)
    {
      s := Advance(s, calls, run, cut);
    }
    CompletedIsFull(s, calls, run);
    cancelled := s.cancelled;
    results := Values(s.results);
  }

  function Values(results: seq<Option<string>>): (r: seq<string>)
    requires forall i | 0 <= i < |results| :: results[i].Some?
  {
    seq(|results|, i requires 0 <= i < |results| => results[i].value)
  }

  /** The pool cannot block: while some worker is not done, some worker can take a step. */
  method PickStep(s: Pool, calls: seq<ToolCall>, run: Tool, cut: Tool) returns (e: Event)
    requires Inv(s, calls, run) && !Completed(s)
    ensures Enabled(s, calls, run, e) && !e.Cancel?
    ensures e.Finish? ==>
      var i := s.workers[e.w].job; i < |calls| && e.output in [run(calls[i]), cut(calls[i])]
  {
    var w: nat :| w < |s.workers| && !s.workers[w].Exited?;
    match s.workers[w]
    case Waiting => e := if s.jobs == [] then Leave(w) else Receive(w);
    case Holding(_) => e := Check(w);
    case Running(i) =>
      var severed: bool := *;
      e := Finish(w, if s.cancelled && severed then cut(calls[i]) else run(calls[i]));
  }

  /** A repeated batch is answered without running anything. */
  method ExecuteToolCallBatch(calls: seq<ToolCall>, repeated: Option<string>, canRun: Option<string -> bool>,
                              run: Tool, cut: Tool, at: Cancellation)
    returns (results: seq<string>, cancelled: bool)
    ensures |results| == |calls|
    ensures repeated.Some? ==> forall i | 0 <= i < |calls| :: results[i] == repeated.value
    ensures repeated.None? && !cancelled ==> results == Sequential(calls, run)
    ensures repeated.None? ==>
      forall i | 0 <= i < |calls| :: results[i] in [run(calls[i]), cut(calls[i]), NOT_COMPLETED]
    ensures repeated.None? && !(|calls| >= 2 && canRun.Some? && AllConcurrent(calls, canRun.value)) ==>
      forall i | 0 <= i < |calls| :: results[i] == OutputAt(calls, run, cut, at, i)
  {
    if repeated.Some? {
      return seq(|calls|, i => repeated.value), false;
    }
    var parallel := ToolBatchCanRunConcurrently(calls, canRun);
    if !parallel {
      results := RunSequentially(calls, run, cut, at);
      cancelled := !at.Never?;
      return;
    }
    results, cancelled := RunWorkers(calls, run, cut);
  }
}
