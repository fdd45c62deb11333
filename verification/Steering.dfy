/**
 Messages sent while a turn is running: the queues behind one mutex, and the protocol by which the
 running turn takes messages out and makes them durable.
 */
module Steering {
  import opened Sequences
  import opened Text

  type ThreadId = string

  const QUEUE_CAP := 8

  // ---- one thread's queue -------------------------------------------------------------------

  datatype Slot = Slot(active: bool, queue: seq<string>)

  datatype Verdict = Accepted | EmptyMessage | NoActiveTurn | QueueFull

  function Judge(s: Slot, text: string): Verdict {
    if Trim(text) == "" then EmptyMessage
    else if !s.active then NoActiveTurn
    else if |s.queue| >= QUEUE_CAP then QueueFull
    else Accepted
  }

  function Enqueued(s: Slot, text: string): Slot {
    if Judge(s, text).Accepted? then s.(queue := s.queue + [Trim(text)]) else s
  }

  function Begun(s: Slot): Slot { s.(active := true) }

  function Drained(s: Slot): Slot { s.(queue := []) }

  function Ended(s: Slot): Slot { Slot(false, []) }

  class SteeringQueues {
    var active: set<ThreadId>
    var queues: map<ThreadId, seq<string>>

    constructor ()
      ensures forall id :: SlotOf(id) == Slot(false, [])
    {
      active, queues := {}, map[];
    }

    function SlotOf(id: ThreadId): Slot
      reads this
    {
      Slot(id in active, if id in queues then queues[id] else [])
    }

    method EnqueueUserMessage(id: ThreadId, text: string) returns (r: Verdict)
      modifies this
      ensures r == old(Judge(SlotOf(id), text))
      ensures SlotOf(id) == old(Enqueued(SlotOf(id), text))
      ensures forall other | other != id :: SlotOf(other) == old(SlotOf(other))
    {
      hide Trim;
      var trimmed := Trim(text);
      if trimmed == "" {
        return EmptyMessage;
      }
      if id !in active {
        return NoActiveTurn;
      }
      var queue := if id in queues then queues[id] else [];
      if |queue| >= QUEUE_CAP {
        return QueueFull;
      }
      queues := queues[id := queue + [trimmed]];
      r := Accepted;
    }

    method BeginTurn(id: ThreadId)
      modifies this
      ensures SlotOf(id) == old(Begun(SlotOf(id)))
      ensures forall other | other != id :: SlotOf(other) == old(SlotOf(other))
    {
      active := active + {id};
    }

    method EndTurn(id: ThreadId) returns (msgs: seq<string>)
      modifies this
      ensures msgs == old(SlotOf(id).queue) && SlotOf(id) == old(Ended(SlotOf(id)))
      ensures forall other | other != id :: SlotOf(other) == old(SlotOf(other))
    {
      active := active - {id};
      msgs := if id in queues then queues[id] else [];
      queues := queues[id := []];
    }

    method Drain(id: ThreadId) returns (msgs: seq<string>)
      modifies this
      ensures msgs == old(SlotOf(id).queue) && SlotOf(id) == old(Drained(SlotOf(id)))
      ensures forall other | other != id :: SlotOf(other) == old(SlotOf(other))
    {
      msgs := if id in queues then queues[id] else [];
      queues := queues[id := []];
    }
  }

  // ---- the protocol over any interleaving ---------------------------------------------------------

  /** Where the turn holding the thread lock is; senders may step in between. */
  datatype Phase = Unlocked | Opening | Working | Delivering | Failed | Closing

  datatype Fate = Persisted(text: string) | Lost(text: string)

  datatype Line = FirstMessage(text: string) | Steered(text: string)

  /**
   `log` is the thread's durable user messages. `accepted` and `fates` only record what happened: every
   message a sender was told is queued, and what became of each one that left the protocol.
   */
  datatype State = State(slot: Slot, phase: Phase, inFlight: seq<string>, log: seq<Line>,
                         accepted: seq<string>, fates: seq<Fate>, acceptedAtBegin: nat)

  const INITIAL := State(Slot(false, []), Unlocked, [], [], [], [], 0)

  datatype Event =
    | Send(text: string)
    | Begin
    | First(text: string)
    | TakeOut
    | Deliver
    | AppendFails
    | SinkFails
    | Resume
    | End
    | CloseFails
    | Unlock

  /** Whether the turn can take this step now; senders always can. */
  predicate Enabled(s: State, e: Event) {
    match e
    case Send(_) => true
    case Begin => s.phase.Unlocked?
    case First(_) => s.phase.Opening?
    case TakeOut => s.phase.Working?
    case Deliver => (s.phase.Delivering? || s.phase.Closing?) && s.inFlight != []
    case AppendFails => s.phase.Delivering? && s.inFlight != []
    case SinkFails => s.phase.Delivering? && s.inFlight != []
    case Resume => s.phase.Delivering? && s.inFlight == []
    case End => s.phase.Opening? || s.phase.Working? || s.phase.Failed?
    case CloseFails => s.phase.Closing? && s.inFlight != []
    case Unlock => s.phase.Closing? && s.inFlight == []
  }

  function AllLost(texts: seq<string>): seq<Fate> {
    seq(|texts|, i requires 0 <= i < |texts| => Lost(texts[i]))
  }

  function Next(s: State, e: Event): State
    requires Enabled(s, e)
  {
    match e
    case Send(text) =>
      if Judge(s.slot, text).Accepted? then
        s.(slot := Enqueued(s.slot, text), accepted := s.accepted + [Trim(text)])
      else s
    case Begin => s.(slot := Begun(s.slot), phase := Opening, acceptedAtBegin := |s.accepted|)
    case First(text) => s.(phase := Working, log := s.log + [FirstMessage(text)])
    case TakeOut => s.(phase := Delivering, slot := Drained(s.slot), inFlight := s.slot.queue)
    case Deliver => Delivered(s)
    // The message that could not be appended and everything behind it are dropped, and the turn ends.
    case AppendFails =>
      s.(phase := Failed, inFlight := [], fates := s.fates + AllLost(s.inFlight))
    // The message is durable, but the rest of the batch is dropped.
    case SinkFails =>
      var d := Delivered(s);
      d.(phase := Failed, inFlight := [], fates := d.fates + AllLost(d.inFlight))
    case Resume => s.(phase := Working)
    case End => s.(phase := Closing, slot := Ended(s.slot), inFlight := s.slot.queue)
    // On the way out a failure drops one message and goes on with the next.
    case CloseFails => s.(inFlight := s.inFlight[1..], fates := s.fates + [Lost(s.inFlight[0])])
    case Unlock => s.(phase := Unlocked)
  }

  function Delivered(s: State): State
    requires s.inFlight != []
  {
    s.(inFlight := s.inFlight[1..],
       log := s.log + [Steered(s.inFlight[0])],
       fates := s.fates + [Persisted(s.inFlight[0])])
  }

  predicate IsRun(s: State, events: seq<Event>)
    decreases |events|
  {
    events == [] || (Enabled(s, events[0]) && IsRun(Next(s, events[0]), events[1..]))
  }

  function After(s: State, events: seq<Event>): State
    requires IsRun(s, events)
    decreases |events|
  {
    if events == [] then s else After(Next(s, events[0]), events[1..])
  }

  // ---- what every run keeps ----------------------------------------------------------------------------

  function Texts(fates: seq<Fate>): (r: seq<string>)
    ensures |r| == |fates|
  {
    seq(|fates|, i requires 0 <= i < |fates| => fates[i].text)
  }

  function SteeredTexts(log: seq<Line>): seq<string> {
    if log == [] then []
    else SteeredTexts(log[..|log| - 1]) +
         if log[|log| - 1].Steered? then [log[|log| - 1].text] else []
  }

  function PersistedTexts(fates: seq<Fate>): seq<string> {
    if fates == [] then []
    else PersistedTexts(fates[..|fates| - 1]) +
         if fates[|fates| - 1].Persisted? then [fates[|fates| - 1].text] else []
  }

  /** Every accepted message has had exactly one fate, is being delivered, or is queued, in that order. */
  predicate Accounted(s: State) {
    s.accepted == Texts(s.fates) + s.inFlight + s.slot.queue
  }

  predicate Inv(s: State) {
    && Accounted(s)
    && SteeredTexts(s.log) == PersistedTexts(s.fates)
    && |s.slot.queue| <= QUEUE_CAP && |s.inFlight| <= QUEUE_CAP
    && (s.slot.active <==> s.phase.Opening? || s.phase.Working? || s.phase.Delivering? || s.phase.Failed?)
    && (!s.slot.active ==> s.slot.queue == [])
    && (s.inFlight != [] ==> s.phase.Delivering? || s.phase.Closing?)
    && (s.phase.Opening? ==> |s.fates| == s.acceptedAtBegin)
    && s.acceptedAtBegin <= |s.accepted|
  }

  lemma {:induction false} SettleOne(s: State, fate: Fate)
    requires Accounted(s) && s.inFlight != [] && fate.text == s.inFlight[0]
    ensures s.accepted == Texts(s.fates + [fate]) + s.inFlight[1..] + s.slot.queue
  {
    assert Texts(s.fates + [fate]) == Texts(s.fates) + [s.inFlight[0]];
    assert s.inFlight == [s.inFlight[0]] + s.inFlight[1..];
  }

  lemma {:induction false} SettleAll(accepted: seq<string>, fates: seq<Fate>, texts: seq<string>, queue: seq<string>)
    requires accepted == Texts(fates) + texts + queue
    ensures accepted == Texts(fates + AllLost(texts)) + [] + queue
    ensures PersistedTexts(fates + AllLost(texts)) == PersistedTexts(fates)
  {
    assert Texts(fates + AllLost(texts)) == Texts(fates) + texts;
    NonePersisted(fates, texts);
  }

  lemma {:induction false} NonePersisted(fates: seq<Fate>, texts: seq<string>)
    ensures PersistedTexts(fates + AllLost(texts)) == PersistedTexts(fates)
  {
    if texts == [] {
      assert fates + AllLost(texts) == fates;
    } else {
      var all := fates + AllLost(texts);
      assert all[..|all| - 1] == fates + AllLost(texts[..|texts| - 1]);
      NonePersisted(fates, texts[..|texts| - 1]);
    }
  }

  lemma {:induction false} DeliverKeeps(s: State)
    requires Inv(s) && s.inFlight != []
    ensures Inv(Delivered(s))
  {
    var d := Delivered(s);
    SettleOne(s, Persisted(s.inFlight[0]));
    assert d.log[..|s.log|] == s.log && d.fates[..|s.fates|] == s.fates;
  }

  lemma {:induction false} SendKeeps(s: State, text: string)
    requires Inv(s)
    ensures Inv(Next(s, Send(text)))
  {
    hide Trim, Texts, SteeredTexts, PersistedTexts;
    assert s.accepted + [Trim(text)] == Texts(s.fates) + s.inFlight + (s.slot.queue + [Trim(text)]);
  }

  lemma {:induction false} FirstKeeps(s: State, text: string)
    requires Inv(s) && s.phase.Opening?
    ensures Inv(Next(s, First(text)))
  {
    hide Texts, PersistedTexts;
    assert (s.log + [FirstMessage(text)])[..|s.log|] == s.log;
  }

  /** Handing the whole queue over changes where messages are, not which. */
  lemma {:induction false} HandOverKeeps(s: State, e: Event)
    requires Inv(s) && Enabled(s, e) && (e.TakeOut? || e.End?)
    ensures Inv(Next(s, e))
  {
    hide Texts, SteeredTexts, PersistedTexts;
    assert Texts(s.fates) + [] + s.slot.queue == Texts(s.fates) + s.slot.queue + [];
  }

  /** Dropping all that is in flight. */
  lemma {:induction false} DropKeeps(s: State)
    requires Inv(s) && !s.phase.Opening?
    ensures var t := s.(inFlight := [], fates := s.fates + AllLost(s.inFlight));
      Accounted(t) && SteeredTexts(t.log) == PersistedTexts(t.fates)
  {
    SettleAll(s.accepted, s.fates, s.inFlight, s.slot.queue);
  }

  lemma {:induction false} LossKeeps(s: State, e: Event)
    requires Inv(s) && Enabled(s, e) && (e.AppendFails? || e.SinkFails?)
    ensures Inv(Next(s, e))
  {
    if e.AppendFails? {
      DropKeeps(s);
    } else {
      DeliverKeeps(s);
      DropKeeps(Delivered(s));
    }
    hide Texts, SteeredTexts, PersistedTexts, AllLost;
  }

  lemma {:induction false} CloseFailsKeeps(s: State)
    requires Inv(s) && Enabled(s, CloseFails)
    ensures Inv(Next(s, CloseFails))
  {
    SettleOne(s, Lost(s.inFlight[0]));
    hide Texts, SteeredTexts;
    assert (s.fates + [Lost(s.inFlight[0])])[..|s.fates|] == s.fates;
  }

  /** Begin, resume and unlock move no message. */
  lemma {:induction false} PhaseKeeps(s: State, e: Event)
    requires Inv(s) && Enabled(s, e) && (e.Begin? || e.Resume? || e.Unlock?)
    ensures Inv(Next(s, e))
  {
    hide SteeredTexts, PersistedTexts;
  }

  lemma {:induction false} StepKeeps(s: State, e: Event)
    requires Inv(s) && Enabled(s, e)
    ensures Inv(Next(s, e))
  {
    hide Inv, Next;
    match e
    case Send(text) => SendKeeps(s, text);
    case First(text) => FirstKeeps(s, text);
    case TakeOut => HandOverKeeps(s, e);
    case End => HandOverKeeps(s, e);
    case Deliver => DeliverStepKeeps(s);
    case AppendFails => LossKeeps(s, e);
    case SinkFails => LossKeeps(s, e);
    case CloseFails => CloseFailsKeeps(s);
    case _ => PhaseKeeps(s, e);
  }

  lemma {:induction false} DeliverStepKeeps(s: State)
    requires Inv(s) && Enabled(s, Deliver)
    ensures Inv(Next(s, Deliver))
  {
    DeliverKeeps(s);
  }

  lemma {:induction false} RunKeeps(s: State, events: seq<Event>)
    requires Inv(s) && IsRun(s, events)
    ensures Inv(After(s, events))
    decreases |events|
  {
    if events != [] {
      StepKeeps(s, events[0]);
      RunKeeps(Next(s, events[0]), events[1..]);
    }
  }

  predicate Failing(e: Event) { e.AppendFails? || e.SinkFails? || e.CloseFails? }

  predicate NoneLost(s: State) {
    forall f | f in s.fates :: f.Persisted?
  }

  lemma {:induction false} NoFailureNoLoss(s: State, events: seq<Event>)
    requires Inv(s) && NoneLost(s) && IsRun(s, events) && forall e | e in events :: !Failing(e)
    ensures NoneLost(After(s, events))
    decreases |events|
  {
    hide Trim;
    if events != [] {
      StepKeeps(s, events[0]);
      assert !Failing(events[0]);
      NoFailureNoLoss(Next(s, events[0]), events[1..]);
    }
  }

  lemma {:induction false} AllPersisted(fates: seq<Fate>)
    requires forall f | f in fates :: f.Persisted?
    ensures PersistedTexts(fates) == Texts(fates)
  {
    if fates != [] {
      AllPersisted(fates[..|fates| - 1]);
    }
  }

  /**
   While appends and the event sink succeed, the accepted messages are the persisted ones, the batch in
   flight and the queue, in sending order, each exactly once; between turns all are persisted.
   */
  lemma {:induction false} AcceptedArePersisted(events: seq<Event>)
    requires IsRun(INITIAL, events) && forall e | e in events :: !Failing(e)
    ensures var s := After(INITIAL, events);
      && s.accepted == SteeredTexts(s.log) + s.inFlight + s.slot.queue
      && (s.phase.Unlocked? ==> s.accepted == SteeredTexts(s.log))
  {
    RunKeeps(INITIAL, events);
    NoFailureNoLoss(INITIAL, events);
    AllPersisted(After(INITIAL, events).fates);
  }

  /** Queues never exceed the cap and are empty while no turn is active, failures or not. */
  lemma {:induction false} QueuesStayBounded(events: seq<Event>)
    requires IsRun(INITIAL, events)
    ensures var s := After(INITIAL, events);
      && |s.slot.queue| <= QUEUE_CAP && |s.inFlight| <= QUEUE_CAP
      && (!s.slot.active ==> s.slot.queue == [])
  {
    RunKeeps(INITIAL, events);
  }

  /**
   When a turn stores its first message, everything accepted before that turn began has already met its
   fate, and nothing accepted since has: no message from an earlier turn can follow it.
   */
  lemma {:induction false} SettledBeforeNextTurn(events: seq<Event>, text: string)
    requires IsRun(INITIAL, events) && Enabled(After(INITIAL, events), First(text))
    ensures var s := After(INITIAL, events);
      && |s.fates| == s.acceptedAtBegin <= |s.accepted| && s.inFlight == []
      && Texts(s.fates) == s.accepted[..s.acceptedAtBegin]
      && s.slot.queue == s.accepted[s.acceptedAtBegin..]
      && Next(s, First(text)).log == s.log + [FirstMessage(text)]
  {
    RunKeeps(INITIAL, events);
  }

  /** A failed append loses the message and the rest of its batch; a failed sink only the rest. */
  lemma {:induction false} FailureLosesBatch(s: State, e: Event)
    requires Inv(s) && Enabled(s, e) && (e.AppendFails? || e.SinkFails?)
    ensures var t, kept := Next(s, e), if e.AppendFails? then 0 else 1;
      && PersistedTexts(t.fates) == PersistedTexts(s.fates) + s.inFlight[..kept]
      && Texts(t.fates) == Texts(s.fates) + s.inFlight
      && t.slot.queue == s.slot.queue
  {
    hide Texts, PersistedTexts, AllLost;
    if e.AppendFails? {
      LostTexts(s.fates, s.inFlight);
      assert PersistedTexts(s.fates) + s.inFlight[..0] == PersistedTexts(s.fates);
    } else {
      var d := Delivered(s);
      LostTexts(d.fates, d.inFlight);
      FateSnoc(s.fates, Persisted(s.inFlight[0]));
      Assoc(Texts(s.fates), [s.inFlight[0]], s.inFlight[1..]);
      assert [s.inFlight[0]] + s.inFlight[1..] == s.inFlight;
    }
  }

  lemma {:induction false} LostTexts(fates: seq<Fate>, texts: seq<string>)
    ensures Texts(fates + AllLost(texts)) == Texts(fates) + texts
    ensures PersistedTexts(fates + AllLost(texts)) == PersistedTexts(fates)
  {
    NonePersisted(fates, texts);
  }

  lemma {:induction false} FateSnoc(fates: seq<Fate>, fate: Fate)
    ensures Texts(fates + [fate]) == Texts(fates) + [fate.text]
    ensures PersistedTexts(fates + [fate]) ==
      PersistedTexts(fates) + if fate.Persisted? then [fate.text] else []
  {
    assert (fates + [fate])[..|fates|] == fates;
  }
}
