/** The coalescing change signal of sse.go: hub loop and subscribers as interleaved steps. */
module StateHub {
  import opened Common

  type Bytes = seq<byte>

  /** A marshalled snapshot: a JSON object, never empty. */
  type Snapshot = s: Bytes | |s| > 0 witness [123]

  /** Where a subscriber is: between reading the snapshot and writing it, or waiting for a signal. */
  datatype Phase = Reading | Building | Holding(snap: Snapshot) | Waiting(written: Snapshot)

  /** The capacity-one signal channel and the position in handleEvents. */
  datatype Sub = Sub(pending: bool, phase: Phase)

  /** The poll loop: between ticks, or with a snapshot built and not yet recorded. */
  datatype Poller = Idle | Built(snap: Snapshot)

  datatype Hub = Hub(source: Snapshot, last: Option<Snapshot>, subs: map<int, Sub>, poller: Poller)

  datatype Event =
    | Change(snap: Snapshot)     // the world the builder reads changes
    | Subscribe(id: int)
    | Leave(id: int)
    | Tick                       // the loop found subscribers and built a snapshot
    | Record                     // it compares, stores and signals under the lock
    | Receive(id: int)           // a waiting subscriber takes its signal
    | Read(id: int)              // snapshot() reads h.last
    | Build(id: int)             // and builds when there is none
    | Write(id: int)

  predicate InPhase(h: Hub, id: int, phase: Phase) {
    id in h.subs && h.subs[id].phase == phase
  }

  predicate Enabled(h: Hub, e: Event) {
    match e
    case Change(_) => true
    case Subscribe(id) => id !in h.subs
    case Leave(id) => id in h.subs
    case Tick => h.poller == Idle && |h.subs| > 0
    case Record => h.poller.Built?
    case Receive(id) => id in h.subs && h.subs[id].phase.Waiting? && h.subs[id].pending
    case Read(id) => InPhase(h, id, Reading)
    case Build(id) => InPhase(h, id, Building)
    case Write(id) => id in h.subs && h.subs[id].phase.Holding?
  }

  /** bytes.Equal(snap, h.last): a nil slice equals an empty one. */
  predicate Changed(snap: Bytes, last: Option<Bytes>) {
    snap != if last.None? then [] else last.value
  }

  function SignalAll(subs: map<int, Sub>): map<int, Sub> {
    map id | id in subs :: subs[id].(pending := true)
  }

  function SetPhase(h: Hub, id: int, phase: Phase): Hub
    requires id in h.subs
  {
    h.(subs := h.subs[id := h.subs[id].(phase := phase)])
  }

  function Next(h: Hub, e: Event): Hub
    requires Enabled(h, e)
  {
    match e
    case Change(snap) => h.(source := snap)
    case Subscribe(id) => h.(subs := h.subs[id := Sub(false, Reading)])
    case Leave(id) => h.(subs := h.subs - {id})
    case Tick => h.(poller := Built(h.source))
    case Record =>
      var snap := h.poller.snap;
      h.(last := Some(snap), poller := Idle, subs := if Changed(snap, h.last) then SignalAll(h.subs) else h.subs)
    case Receive(id) => h.(subs := h.subs[id := Sub(false, Reading)])
    case Read(id) => SetPhase(h, id, if h.last.None? then Building else Holding(h.last.value))
    case Build(id) => SetPhase(h, id, Holding(h.source))
    case Write(id) => SetPhase(h, id, Waiting(h.subs[id].phase.snap))
  }

  function After(source: Snapshot, events: seq<Event>): Hub {
    if |events| == 0 then Hub(source, None, map[], Idle)
    else
      var h, e := After(source, events[..|events| - 1]), events[|events| - 1];
      if Enabled(h, e) then Next(h, e) else h
  }

  /** No subscriber is about to sleep on an old snapshot without a signal. */
  predicate UpToDate(h: Hub, sub: Sub) {
    sub.pending || h.last.None? ||
    match sub.phase
    case Reading => true
    case Building => false
    case Holding(snap) => Some(snap) == h.last
    case Waiting(written) => Some(written) == h.last
  }

  ghost predicate Inv(h: Hub) {
    forall id :: id in h.subs ==> UpToDate(h, h.subs[id])
  }

  lemma {:induction false} StepKeeps(h: Hub, e: Event)
    requires Inv(h) && Enabled(h, e)
    ensures Inv(Next(h, e))
  {
    var h' := Next(h, e);
    forall id | id in h'.subs ensures UpToDate(h', h'.subs[id]) {
      assert id in h.subs ==> UpToDate(h, h.subs[id]);
    }
  }

  /** No lost wake-up: in every run a waiting subscriber has a signal pending, or has written the hub's
      current snapshot, or the hub has none yet. */
  lemma {:induction false} NoLostWakeup(source: Snapshot, events: seq<Event>, id: int)
    ensures Inv(After(source, events))
    ensures var h := After(source, events);
            id in h.subs && h.subs[id].phase.Waiting? ==>
              h.subs[id].pending || h.last.None? || h.last == Some(h.subs[id].phase.written)
  {
    hide Next;
    if |events| > 0 {
      var h, e := After(source, events[..|events| - 1]), events[|events| - 1];
      NoLostWakeup(source, events[..|events| - 1], id);
      if Enabled(h, e) {
        StepKeeps(h, e);
      }
    }
  }

  // --- convergence ---

  /** The source's value is recorded and nothing older is about to be. */
  predicate Settled(h: Hub) {
    h.last == Some(h.source) && (h.poller == Idle || h.poller == Built(h.source))
  }

  /** Steps left for a subscriber until it sleeps, counting those a pending signal will cause. */
  function StepsLeft(sub: Sub): nat {
    (if sub.pending then 4 else 0)
    + match sub.phase
      case Reading => 3
      case Building => 2
      case Holding(_) => 1
      case Waiting(_) => 0
  }

  /** The subscriber's own next step; a sleeping one has none. */
  function OwnStep(id: int, sub: Sub): Option<Event> {
    match sub.phase
    case Reading => Some(Read(id))
    case Building => Some(Build(id))
    case Holding(_) => Some(Write(id))
    case Waiting(_) => if sub.pending then Some(Receive(id)) else None
  }

  /** While the source is unchanged the hub stays settled; each step of a subscriber brings it nearer to
      sleep, no other step takes it further away, and asleep it has written the latest snapshot. */
  lemma {:induction false} Converges(source: Snapshot, events: seq<Event>, e: Event, id: int)
    requires var h := After(source, events);
             Settled(h) && id in h.subs && Enabled(h, e) && !e.Change? && e != Leave(id)
    ensures var h, h' := After(source, events), After(source, events + [e]);
            && Settled(h') && id in h'.subs
            && StepsLeft(h'.subs[id]) <= StepsLeft(h.subs[id])
            && (Some(e) == OwnStep(id, h.subs[id]) ==> StepsLeft(h'.subs[id]) < StepsLeft(h.subs[id]))
            && (StepsLeft(h.subs[id]) > 0 ==>
                  OwnStep(id, h.subs[id]).Some? && Enabled(h, OwnStep(id, h.subs[id]).value))
            && (StepsLeft(h.subs[id]) == 0 ==> h.subs[id].phase == Waiting(h.source))
  {
    hide After;
    var h := After(source, events);
    NoLostWakeup(source, events, id);
    assert UpToDate(h, h.subs[id]);
    AfterOne(source, events, e);
  }

  lemma {:induction false} AfterOne(source: Snapshot, events: seq<Event>, e: Event)
    ensures After(source, events + [e]) ==
            var h := After(source, events); if Enabled(h, e) then Next(h, e) else h
  {
    assert (events + [e])[..|events|] == events;
  }

  /** Steps of its own that a subscriber takes in a continuation of a run. */
  function OwnSteps(source: Snapshot, events: seq<Event>, more: seq<Event>, id: int): nat {
    if |more| == 0 then 0
    else
      var before, e := more[..|more| - 1], more[|more| - 1];
      var h := After(source, events + before);
      OwnSteps(source, events, before, id)
      + if id in h.subs && Some(e) == OwnStep(id, h.subs[id]) then 1 else 0
  }

  /** Events that leave the source and the subscriber where they are. */
  ghost predicate Quiet(more: seq<Event>, id: int) {
    forall i :: 0 <= i < |more| ==> !more[i].Change? && more[i] != Leave(id)
  }

  /** Over a whole quiet continuation a subscriber's steps bring it that much nearer to sleep, whatever
      else happens between them. */
  lemma {:induction false} Approaches(source: Snapshot, events: seq<Event>, more: seq<Event>, id: int)
    requires Settled(After(source, events)) && id in After(source, events).subs && Quiet(more, id)
    ensures var h, h' := After(source, events), After(source, events + more);
            && Settled(h') && h'.source == h.source && id in h'.subs
            && StepsLeft(h'.subs[id]) + OwnSteps(source, events, more, id) <= StepsLeft(h.subs[id])
    decreases |more|
  {
    hide After, Settled, StepsLeft, OwnStep;
    if |more| == 0 {
      assert events + more == events;
    } else {
      var before, e := more[..|more| - 1], more[|more| - 1];
      assert events + more == (events + before) + [e];
      Approaches(source, events, before, id);
      var h := After(source, events + before);
      AfterOne(source, events + before, e);
      if Enabled(h, e) {
        Converges(source, events + before, e, id);
        assert Next(h, e).source == h.source;
      } else {
        OwnIsEnabled(source, events + before, id);
      }
    }
  }

  lemma {:induction false} OwnIsEnabled(source: Snapshot, events: seq<Event>, id: int)
    requires Settled(After(source, events)) && id in After(source, events).subs
    ensures var h := After(source, events);
            OwnStep(id, h.subs[id]).Some? ==> Enabled(h, OwnStep(id, h.subs[id]).value)
  {
  }

  /** Once the source is recorded and stops changing, a subscriber that takes the steps it has left is
      asleep with the latest snapshot written. */
  lemma {:induction false} CatchesUp(source: Snapshot, events: seq<Event>, more: seq<Event>, id: int)
    requires var h := After(source, events);
             && Settled(h) && id in h.subs && Quiet(more, id)
             && OwnSteps(source, events, more, id) >= StepsLeft(h.subs[id])
    ensures var h, h' := After(source, events), After(source, events + more);
            id in h'.subs && h'.subs[id] == Sub(false, Waiting(h.source))
  {
    hide After, OwnSteps;
    Approaches(source, events, more, id);
    NoLostWakeup(source, events + more, id);
    var h' := After(source, events + more);
    assert UpToDate(h', h'.subs[id]);
  }

  // --- subscriptions and signals, read off the run ---

  /** Who has subscribed and not left since. */
  function Subscribers(source: Snapshot, events: seq<Event>): set<int> {
    if |events| == 0 then {}
    else
      var before, e := events[..|events| - 1], events[|events| - 1];
      match e
      case Subscribe(id) => Subscribers(source, before) + {id}
      case Leave(id) => Subscribers(source, before) - {id}
      case _ => Subscribers(source, before)
  }

  /** Whether a snapshot that differs from the one before has been recorded since the subscriber came or
      last took a signal. */
  predicate Signalled(source: Snapshot, events: seq<Event>, id: int) {
    |events| > 0 &&
    var before, e := events[..|events| - 1], events[|events| - 1];
    var h := After(source, before);
    if !Enabled(h, e) then Signalled(source, before, id)
    else if e == Subscribe(id) || e == Receive(id) then false
    else (e.Record? && h.last != Some(h.poller.snap)) || Signalled(source, before, id)
  }

  /** In every run the hub's channels are those of the current subscribers, and one holds a signal exactly
      when there has been such a recording: any number of changes make one signal. */
  lemma {:induction false} SignalsAreHistory(source: Snapshot, events: seq<Event>)
    ensures var h := After(source, events);
            && h.subs.Keys == Subscribers(source, events)
            && forall id :: id in h.subs ==> h.subs[id].pending == Signalled(source, events, id)
  {
    hide Next;
    if |events| > 0 {
      var before, e := events[..|events| - 1], events[|events| - 1];
      var h := After(source, before);
      SignalsAreHistory(source, before);
      if Enabled(h, e) {
        SignalStep(h, e);
      } else {
        assert (e.Subscribe? ==> e.id in h.subs) && (e.Leave? ==> e.id !in h.subs);
      }
    }
  }

  lemma {:induction false} SignalStep(h: Hub, e: Event)
    requires Enabled(h, e)
    ensures var h' := Next(h, e);
            && h'.subs.Keys == (if e.Subscribe? then h.subs.Keys + {e.id}
                                else if e.Leave? then h.subs.Keys - {e.id} else h.subs.Keys)
            && forall id :: id in h'.subs ==>
                 && (id !in h.subs ==> e == Subscribe(id))
                 && (h'.subs[id].pending <==>
                     && e != Subscribe(id) && e != Receive(id)
                     && ((e.Record? && h.last != Some(h.poller.snap)) || h.subs[id].pending))
  {
    assert e.Record? && h.last.None? ==> h.poller.snap != [];
  }

  /** The values the source has had in a run. */
  function Values(source: Snapshot, events: seq<Event>): set<Bytes> {
    if |events| == 0 then {source}
    else
      var e := events[|events| - 1];
      Values(source, events[..|events| - 1]) + if e.Change? then {e.snap} else {}
  }

  ghost predicate AllFrom(h: Hub, values: set<Bytes>, id: int) {
    && h.source in values
    && (h.last.Some? ==> h.last.value in values)
    && (h.poller.Built? ==> h.poller.snap in values)
    && (id in h.subs && h.subs[id].phase.Holding? ==> h.subs[id].phase.snap in values)
    && (id in h.subs && h.subs[id].phase.Waiting? ==> h.subs[id].phase.written in values)
  }

  lemma {:induction false} StepFrom(h: Hub, e: Event, values: set<Bytes>, id: int)
    requires AllFrom(h, values, id) && Enabled(h, e)
    ensures AllFrom(Next(h, e), values + (if e.Change? then {e.snap} else {}), id)
  {
  }

  /** What is recorded, built, held or written is never anything but a value the source has had. */
  lemma {:induction false} OnlyValues(source: Snapshot, events: seq<Event>, id: int)
    ensures AllFrom(After(source, events), Values(source, events), id)
  {
    hide Next, Enabled;
    if |events| > 0 {
      var before, e := events[..|events| - 1], events[|events| - 1];
      OnlyValues(source, before, id);
      if Enabled(After(source, before), e) {
        StepFrom(After(source, before), e, Values(source, before), id);
      }
    }
  }

  /** Without a recorded snapshot a subscriber gets what the source holds when it builds. */
  lemma {:induction false} BuildsCurrent(source: Snapshot, events: seq<Event>, id: int)
    requires InPhase(After(source, events), id, Building)
    ensures var h' := After(source, events + [Build(id)]);
            id in h'.subs && h'.subs[id].phase == Holding(After(source, events).source)
  {
    hide After;
    AfterOne(source, events, Build(id));
  }

  /** A tick with a subscriber around builds the source's value, and when the source has not changed until
      it is recorded the hub is settled. */
  lemma {:induction false} TickSettles(source: Snapshot, events: seq<Event>)
    requires var h := After(source, events); h.poller == Idle && |h.subs| > 0
    ensures var h' := After(source, events + [Tick] + [Record]);
            h'.last == Some(After(source, events).source) && Settled(h')
  {
    hide After;
    AfterOne(source, events, Tick);
    AfterOne(source, events + [Tick], Record);
  }

  /** Recording signals every subscriber exactly when the snapshot differs from the one before, the first
      one after none included, and otherwise leaves the signals alone. */
  lemma {:induction false} RecordSignals(source: Snapshot, events: seq<Event>, id: int)
    requires var h := After(source, events); h.poller.Built? && id in h.subs
    ensures var h, h' := After(source, events), After(source, events + [Record]);
            && h'.last == Some(h.poller.snap) && id in h'.subs
            && (h'.subs[id].pending <==> h.subs[id].pending || h.last != Some(h.poller.snap))
  {
    hide After;
    AfterOne(source, events, Record);
    var h := After(source, events);
    assert h.last.None? ==> |h.poller.snap| > 0 && h.poller.snap != [];
  }
}
