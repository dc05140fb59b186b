/** One session's outbound queue: sendFrame, writeLoop, drainTx and End as interleaved steps. */
module SessionTx {
  import opened Common

  type Packet = seq<byte>

  const TX_CAPACITY: nat := 1024

  // --- frames ---

  function BuildFrame(port: int, payload: seq<byte>): Option<Packet> {
    if port < 0 || port > 65535 then None else Some([port / 256, port % 256] + payload)
  }

  function DecodeFrame(packet: Packet): Option<(int, seq<byte>)> {
    if |packet| < 2 then None
    else
      var hi: int, lo: int := packet[0], packet[1];
      Some((256 * hi + lo, packet[2..]))
  }

  /** Decoding inverts building on every port, and building inverts decoding on every frame, the port in the
      first two bytes with the high one first. */
  lemma {:induction false} FrameRoundTrip(port: int, payload: seq<byte>, packet: Packet)
    ensures BuildFrame(port, payload).Some? <==> 0 <= port <= 65535
    ensures 0 <= port <= 65535 ==> DecodeFrame(BuildFrame(port, payload).value) == Some((port, payload))
    ensures DecodeFrame(packet).Some? ==>
              BuildFrame(DecodeFrame(packet).value.0, DecodeFrame(packet).value.1) == Some(packet)
    ensures if |packet| < 2 then DecodeFrame(packet) == None
            else var high: int, low: int := packet[0], packet[1];
                 DecodeFrame(packet) == Some((0x100 * high + low, packet[2..]))
  {
    if 0 <= port <= 65535 {
      var f := BuildFrame(port, payload).value;
      assert f[2..] == payload;
    }
    if |packet| >= 2 {
      assert packet == [packet[0], packet[1]] + packet[2..];
    }
  }

  // --- the session ---

  datatype Loop = NotRunning | Selecting | Writing(packet: Packet) | Draining | DrainWriting(packet: Packet) | Exited

  datatype Ending = NotBegun | Unregistered | Cancelled | Waiting | Closing | Finished

  /** accepted, atCancel, lost, failed, timedOut, skipped and teardowns record the history. */
  datatype Tx = Tx(
    queue: seq<Packet>, cancelled: bool, started: bool, loop: Loop, ending: Ending, closed: bool,
    accepted: seq<Packet>, written: seq<Packet>, atCancel: nat, lost: seq<Packet>,
    failed: bool, timedOut: bool, skipped: bool, teardowns: nat)

  const NEW_SESSION: Tx := Tx([], false, false, NotRunning, NotBegun, false, [], [], 0, [], false, false, false, 0)

  datatype Event =
    | Enqueue(packet: Packet)      // a send that found room; it may have passed its cancel check long ago
    | Run                          // runStarted.Store
    | GoWriteLoop
    | Take                         // writeLoop receives
    | Write(ok: bool)
    | PingFail
    | SeeCancel
    | DrainTake
    | DrainEmpty
    | DrainWrite(ok: bool)
    | DrainDeadline
    | EndCall                      // any goroutine's call of End
    | EndCancel
    | EndDecide                    // runStarted.Load
    | EndWaited                    // writeLoopDone
    | EndTimeout
    | EndClose                     // the transport is closed, the address released

  function Cancel(s: Tx): Tx {
    if s.cancelled then s else s.(cancelled := true, atCancel := |s.accepted|)
  }

  predicate Enabled(s: Tx, e: Event) {
    match e
    case Enqueue(_) => |s.queue| < TX_CAPACITY
    case Run => true
    case GoWriteLoop => s.started && s.loop == NotRunning
    case Take => s.loop == Selecting && |s.queue| > 0
    case Write(ok) => s.loop.Writing? && (ok ==> !s.closed)
    case PingFail => s.loop == Selecting
    case SeeCancel => s.loop == Selecting && s.cancelled
    case DrainTake => s.loop == Draining && |s.queue| > 0
    case DrainEmpty => s.loop == Draining && |s.queue| == 0
    case DrainWrite(ok) => s.loop.DrainWriting? && (ok ==> !s.closed)
    case DrainDeadline => s.loop == Draining
    case EndCall => true
    case EndCancel => s.ending == Unregistered
    case EndDecide => s.ending == Cancelled
    case EndWaited => s.ending == Waiting && s.loop == Exited
    case EndTimeout => s.ending == Waiting
    case EndClose => s.ending == Closing
  }

  function Next(s: Tx, e: Event): Tx
    requires Enabled(s, e)
  {
    match e
    case Enqueue(p) => s.(queue := s.queue + [p], accepted := s.accepted + [p])
    case Run => s.(started := true)
    case GoWriteLoop => s.(loop := Selecting)
    case Take =>
      s.(queue := s.queue[1..], loop := if |s.queue[0]| == 0 then Selecting else Writing(s.queue[0]))
    case Write(ok) =>
      if ok then s.(written := s.written + [s.loop.packet], loop := Selecting)
      else Cancel(s).(lost := [s.loop.packet], loop := Exited, closed := true, failed := true)
    case PingFail => Cancel(s).(loop := Exited, closed := true, failed := true)
    case SeeCancel => s.(loop := Draining)
    case DrainTake =>
      s.(queue := s.queue[1..], loop := if |s.queue[0]| == 0 then Draining else DrainWriting(s.queue[0]))
    case DrainEmpty => s.(loop := Exited)
    case DrainWrite(ok) =>
      if ok then s.(written := s.written + [s.loop.packet], loop := Draining)
      else s.(lost := [s.loop.packet], loop := Exited, failed := true)
    case DrainDeadline => s.(loop := Exited, timedOut := true)
    case EndCall => if s.ending != NotBegun then s else s.(ending := Unregistered)
    case EndCancel => Cancel(s).(ending := Cancelled)
    case EndDecide => if s.started then s.(ending := Waiting) else s.(ending := Closing, skipped := true)
    case EndWaited => s.(ending := Closing)
    case EndTimeout => s.(ending := Closing, timedOut := true)
    case EndClose => s.(ending := Finished, closed := true, teardowns := s.teardowns + 1)
  }

  function After(events: seq<Event>): Tx {
    if |events| == 0 then NEW_SESSION
    else
      var s, e := After(events[..|events| - 1]), events[|events| - 1];
      if Enabled(s, e) then Next(s, e) else s
  }

  /** The packets that reach the transport: writeLoop and drainTx skip empty ones. */
  function Sendable(packets: seq<Packet>): seq<Packet> {
    if |packets| == 0 then []
    else Sendable(packets[..|packets| - 1]) + if |packets[|packets| - 1]| == 0 then [] else [packets[|packets| - 1]]
  }

  function InHand(loop: Loop): seq<Packet> {
    match loop
    case Writing(p) => [p]
    case DrainWriting(p) => [p]
    case _ => []
  }

  ghost predicate Inv(s: Tx) {
    && |s.queue| <= TX_CAPACITY
    && Sendable(s.accepted) == s.written + s.lost + InHand(s.loop) + Sendable(s.queue)
    && |s.lost| <= 1 && (s.lost != [] ==> s.failed && s.loop == Exited)
    && s.atCancel <= |s.accepted|
    && (s.ending != NotBegun && s.ending != Unregistered ==> s.cancelled)
    && (s.loop == Draining || s.loop.DrainWriting? || s.loop == Exited ==> s.cancelled)
    && (s.loop == Exited && !s.failed && !s.timedOut ==> Sendable(s.accepted[..s.atCancel]) <= s.written)
    && (s.closed && !s.failed ==> s.ending == Finished)
    && ((s.ending == Closing || s.ending == Finished) && !s.timedOut && !s.skipped ==> s.loop == Exited)
    && s.teardowns == (if s.ending == Finished then 1 else 0)
  }

  lemma {:induction false} SendableAppend(a: seq<Packet>, p: Packet)
    ensures Sendable(a + [p]) == Sendable(a) + if |p| == 0 then [] else [p]
  {
    assert (a + [p])[..|a|] == a;
  }

  lemma {:induction false} SendableFirst(q: seq<Packet>)
    requires |q| > 0
    ensures Sendable(q) == (if |q[0]| == 0 then [] else [q[0]]) + Sendable(q[1..])
  {
    if |q| > 1 {
      var n := |q| - 1;
      SendableFirst(q[..n]);
      assert q[..n][1..] == q[1..][..n - 1];
    }
  }

  lemma {:induction false} SendablePrefix(all: seq<Packet>, n: nat)
    requires n <= |all|
    ensures Sendable(all[..n]) <= Sendable(all)
  {
    if n < |all| {
      SendablePrefix(all[..|all| - 1], n);
      assert all[..|all| - 1][..n] == all[..n];
    } else {
      assert all[..n] == all;
    }
  }

  /** Sending: taking from the queue, writing, draining. */
  lemma {:induction false} LoopKeeps(s: Tx, e: Event)
    requires Inv(s) && Enabled(s, e)
    requires e.GoWriteLoop? || e.Take? || e.Write? || e.PingFail? || e.SeeCancel? || e.DrainTake? || e.DrainWrite?
    ensures Inv(Next(s, e))
  {
    hide Sendable;
    assert s.lost == [];
    hide Inv;
    if e.Take? || e.DrainTake? {
      SendableFirst(s.queue);
      TakeKeeps(s, e);
    } else if e.Write? || e.DrainWrite? {
      WriteKeeps(s, e);
    } else {
      ChangeKeeps(s, e);
    }
  }

  lemma {:induction false} TakeStep(s: Tx, e: Event)
    requires Enabled(s, e) && (e.Take? || e.DrainTake?)
    ensures |s.queue| > 0 && InHand(s.loop) == []
    ensures var p, on := s.queue[0], if e.Take? then Selecting else Draining;
            && s.loop == on
            && Next(s, e) == s.(queue := s.queue[1..],
                                loop := if |p| == 0 then on else if e.Take? then Writing(p) else DrainWriting(p))
  {
  }

  lemma {:induction false} TakeKeeps(s: Tx, e: Event)
    requires Inv(s) && Enabled(s, e) && (e.Take? || e.DrainTake?) && s.lost == []
    requires Sendable(s.queue) == (if |s.queue[0]| == 0 then [] else [s.queue[0]]) + Sendable(s.queue[1..])
    ensures Inv(Next(s, e))
  {
    hide Sendable, Next, Enabled;
    TakeStep(s, e);
    var s' := Next(s, e);
    assert s'.written + s'.lost + InHand(s'.loop) + Sendable(s'.queue) == s.written + Sendable(s.queue);
  }

  lemma {:induction false} WriteKeeps(s: Tx, e: Event)
    requires Inv(s) && Enabled(s, e) && (e.Write? || e.DrainWrite?) && s.lost == []
    ensures Inv(Next(s, e))
  {
    hide Sendable;
    var p, rest := s.loop.packet, Sendable(s.queue);
    assert s.written + s.lost + [p] + rest == s.written + [p] + rest;
    if e.ok {
      assert (s.written + [p]) + s.lost + [] + rest == s.written + [p] + rest;
    } else {
      assert s.written + [p] + [] + rest == s.written + [p] + rest;
    }
  }

  lemma {:induction false} ChangeKeeps(s: Tx, e: Event)
    requires Inv(s) && Enabled(s, e) && (e.GoWriteLoop? || e.PingFail? || e.SeeCancel?)
    ensures Inv(Next(s, e))
  {
    hide Sendable;
  }

  lemma {:induction false} ExitKeeps(s: Tx, e: Event)
    requires Inv(s) && Enabled(s, e) && (e.DrainEmpty? || e.DrainDeadline?)
    ensures Inv(Next(s, e))
  {
    SendablePrefix(s.accepted, s.atCancel);
    if e.DrainEmpty? {
      assert Sendable(s.queue) == [];
      assert s.written + s.lost + InHand(s.loop) + [] == s.written;
    }
  }

  lemma {:induction false} SessionKeeps(s: Tx, e: Event)
    requires Inv(s) && Enabled(s, e)
    requires e.Enqueue? || e.Run? || e.EndCall? || e.EndCancel? || e.EndDecide? || e.EndWaited? || e.EndTimeout? || e.EndClose?
    ensures Inv(Next(s, e))
  {
    hide Sendable;
    if e.Enqueue? {
      SendableAppend(s.accepted, e.packet);
      SendableAppend(s.queue, e.packet);
      assert (s.accepted + [e.packet])[..s.atCancel] == s.accepted[..s.atCancel];
    }
  }

  lemma {:induction false} RunHolds(events: seq<Event>)
    ensures Inv(After(events))
  {
    assert Inv(NEW_SESSION);
    hide Inv, Next;
    if |events| > 0 {
      var s, e := After(events[..|events| - 1]), events[|events| - 1];
      RunHolds(events[..|events| - 1]);
      if Enabled(s, e) {
        if e.DrainEmpty? || e.DrainDeadline? {
          ExitKeeps(s, e);
        } else if e.GoWriteLoop? || e.Take? || e.Write? || e.PingFail? || e.SeeCancel? || e.DrainTake? || e.DrainWrite? {
          LoopKeeps(s, e);
        } else {
          SessionKeeps(s, e);
        }
      }
    }
  }

  // --- the history of a run, read off its events ---

  /** The last event took place. */
  predicate TookPlace(events: seq<Event>) {
    |events| > 0 && Enabled(After(events[..|events| - 1]), events[|events| - 1])
  }

  /** The packets sent into the queue. */
  function AcceptedIn(events: seq<Event>): seq<Packet> {
    if |events| == 0 then []
    else
      var e := events[|events| - 1];
      AcceptedIn(events[..|events| - 1]) + if e.Enqueue? && TookPlace(events) then [e.packet] else []
  }

  predicate RunIn(events: seq<Event>) {
    |events| > 0 && (events[|events| - 1].Run? || RunIn(events[..|events| - 1]))
  }

  /** A cancellation: by End, or by a loop that could not write or ping. */
  predicate CancelledIn(events: seq<Event>) {
    |events| > 0 &&
    var e := events[|events| - 1];
    || (TookPlace(events) && (e.EndCancel? || e.PingFail? || e == Write(false)))
    || CancelledIn(events[..|events| - 1])
  }

  /** A write or ping that failed, or a deadline that passed. */
  predicate TroubleIn(events: seq<Event>) {
    |events| > 0 &&
    var e := events[|events| - 1];
    || (TookPlace(events)
        && (e == Write(false) || e == DrainWrite(false) || e.PingFail? || e.DrainDeadline? || e.EndTimeout?))
    || TroubleIn(events[..|events| - 1])
  }

  /** End looked after Run had started the session. */
  predicate FoundStarted(events: seq<Event>) {
    |events| > 0 &&
    ((TookPlace(events) && events[|events| - 1].EndDecide? && RunIn(events[..|events| - 1]))
     || FoundStarted(events[..|events| - 1]))
  }

  /** How often the teardown has closed the transport and given up the address. */
  function Teardowns(events: seq<Event>): nat {
    if |events| == 0 then 0
    else Teardowns(events[..|events| - 1]) + if TookPlace(events) && events[|events| - 1].EndClose? then 1 else 0
  }

  predicate Early(ending: Ending) {
    ending == NotBegun || ending == Unregistered || ending == Cancelled
  }

  /** What the state remembers is that history. */
  ghost predicate Remembers(s: Tx, events: seq<Event>) {
    && s.accepted == AcceptedIn(events) && s.started == RunIn(events) && s.cancelled == CancelledIn(events)
    && (s.failed || s.timedOut ==> TroubleIn(events)) && (s.skipped ==> !FoundStarted(events))
    && (Early(s.ending) ==> !FoundStarted(events) && !s.skipped)
    && s.teardowns == Teardowns(events)
  }

  /** What one event changes of that, without the state it comes from in full. */
  ghost predicate Changes(s: Tx, e: Event, s': Tx) {
    && s'.accepted == s.accepted + (if e.Enqueue? then [e.packet] else [])
    && s'.started == (s.started || e.Run?)
    && s'.cancelled == (s.cancelled || e.EndCancel? || e.PingFail? || e == Write(false))
    && (s'.failed || s'.timedOut ==>
          || s.failed || s.timedOut || e == Write(false) || e == DrainWrite(false)
          || e.PingFail? || e.DrainDeadline? || e.EndTimeout?)
    && (s'.skipped ==> s.skipped || (e.EndDecide? && !s.started))
    && (Early(s'.ending) ==> Early(s.ending) && !e.EndDecide?) && (e.EndDecide? ==> Early(s.ending))
    && s'.teardowns == s.teardowns + (if e.EndClose? then 1 else 0)
    && (s.cancelled ==> s'.atCancel == s.atCancel)
    && (!s.cancelled && s'.cancelled ==> s'.atCancel == |s.accepted| == |s'.accepted|)
  }

  lemma {:induction false} EventChanges(s: Tx, e: Event)
    requires Enabled(s, e)
    ensures Changes(s, e, Next(s, e))
  {
    hide Changes, Next, Enabled;
    if e.Write? || e.PingFail? || e.DrainWrite? || e.DrainDeadline? {
      FailureChanges(s, e);
    } else if e.EndCall? || e.EndCancel? || e.EndDecide? || e.EndWaited? || e.EndTimeout? || e.EndClose? {
      EndChanges(s, e);
    } else {
      QueueChanges(s, e);
    }
  }

  lemma {:induction false} QueueChanges(s: Tx, e: Event)
    requires Enabled(s, e)
    requires e.Enqueue? || e.Run? || e.GoWriteLoop? || e.Take? || e.SeeCancel? || e.DrainTake? || e.DrainEmpty?
    ensures Changes(s, e, Next(s, e))
  {
    assert s.accepted + [] == s.accepted;
  }

  lemma {:induction false} FailureChanges(s: Tx, e: Event)
    requires Enabled(s, e) && (e.Write? || e.PingFail? || e.DrainWrite? || e.DrainDeadline?)
    ensures Changes(s, e, Next(s, e))
  {
    assert s.accepted + [] == s.accepted;
  }

  lemma {:induction false} EndChanges(s: Tx, e: Event)
    requires Enabled(s, e)
    requires e.EndCall? || e.EndCancel? || e.EndDecide? || e.EndWaited? || e.EndTimeout? || e.EndClose?
    ensures Changes(s, e, Next(s, e))
  {
    assert s.accepted + [] == s.accepted;
  }

  lemma {:induction false} RunRemembers(events: seq<Event>)
    ensures Remembers(After(events), events)
  {
    assert |events| > 0 && events[|events| - 1].Run? ==> Enabled(After(events[..|events| - 1]), events[|events| - 1]);
    hide Next, Enabled, After;
    AfterLast(events);
    if |events| > 0 {
      var before, e := events[..|events| - 1], events[|events| - 1];
      RunRemembers(before);
      assert AcceptedIn(before) + [] == AcceptedIn(before);
      if TookPlace(events) {
        EventChanges(After(before), e);
      }
    }
  }

  lemma {:induction false} AfterLast(events: seq<Event>)
    ensures |events| == 0 ==> After(events) == NEW_SESSION
    ensures |events| > 0 ==>
              var s, e := After(events[..|events| - 1]), events[|events| - 1];
              After(events) == if Enabled(s, e) then Next(s, e) else s
  {
  }

  // --- main results ---

  /** In every run the packets handed to the transport, with the one of a failing write at the end, are a
      prefix, in order, of the sendable packets accepted. */
  lemma {:induction false} WrittenIsPrefix(events: seq<Event>)
    ensures var s := After(events); s.written + s.lost <= Sendable(AcceptedIn(events)) && |s.lost| <= 1
  {
    hide After, Sendable;
    RunHolds(events);
    RunRemembers(events);
  }

  /** What had been accepted before the cancellation is behind the mark the state keeps of it. */
  lemma {:induction false} AcceptedBefore(events: seq<Event>, n: nat)
    requires n <= |events| && !CancelledIn(events[..n])
    ensures var s := After(events);
            && AcceptedIn(events[..n]) <= s.accepted
            && (s.cancelled ==> |AcceptedIn(events[..n])| <= s.atCancel <= |s.accepted|)
    decreases |events|
  {
    hide After, CancelledIn, Next, Enabled;
    RunRemembers(events);
    if n == |events| {
      assert events[..n] == events;
    } else {
      var before, e := events[..|events| - 1], events[|events| - 1];
      assert before[..n] == events[..n];
      AcceptedBefore(before, n);
      AfterLast(events);
      if Enabled(After(before), e) {
        EventChanges(After(before), e);
      }
    }
  }

  /** A session that Run had started when End looked, with no failing write or ping and no deadline missed,
      has written every packet accepted before the cancellation when the teardown closes the transport. */
  lemma {:induction false} DrainedBeforeClose(events: seq<Event>, n: nat)
    requires Teardowns(events) > 0 && FoundStarted(events) && !TroubleIn(events)
    requires n <= |events| && !CancelledIn(events[..n])
    ensures Sendable(AcceptedIn(events[..n])) <= After(events).written
  {
    hide After, Sendable, CancelledIn, TroubleIn, FoundStarted, AcceptedIn;
    RunHolds(events);
    RunRemembers(events);
    AcceptedBefore(events, n);
    var s, early := After(events), AcceptedIn(events[..n]);
    assert s.ending == Finished;
    assert s.accepted[..s.atCancel][..|early|] == early;
    SendablePrefix(s.accepted[..s.atCancel], |early|);
  }

  /** The teardown runs at most once, whoever calls End and how often, and has run when End is done. */
  lemma {:induction false} TeardownOnce(events: seq<Event>)
    ensures Teardowns(events) <= 1
    ensures After(events).ending == Finished <==> Teardowns(events) == 1
  {
    hide After;
    RunHolds(events);
    RunRemembers(events);
  }

  /** One more event of a run. */
  lemma {:induction false} AfterOne(events: seq<Event>, e: Event)
    requires Enabled(After(events), e)
    ensures After(events + [e]) == Next(After(events), e) && TookPlace(events + [e])
    ensures RunIn(events + [e]) == (e.Run? || RunIn(events))
    ensures FoundStarted(events + [e]) == ((e.EndDecide? && RunIn(events)) || FoundStarted(events))
    ensures TroubleIn(events) || TroubleIn(events + [e]) ==
            (e == Write(false) || e == DrainWrite(false) || e.PingFail? || e.DrainDeadline? || e.EndTimeout?)
    ensures Teardowns(events + [e]) == Teardowns(events) + if e.EndClose? then 1 else 0
  {
    assert (events + [e])[..|events|] == events;
  }

  lemma {:induction false} QueuedOne(p: Packet) returns (events: seq<Event>)
    ensures After(events) == NEW_SESSION.(queue := [p], started := true, loop := Selecting, accepted := [p])
    ensures RunIn(events) && !FoundStarted(events) && !TroubleIn(events) && Teardowns(events) == 0
  {
    hide After, TroubleIn, FoundStarted, RunIn, Teardowns;
    events := [];
    NothingYet();
    AfterOne(events, Run);
    events := events + [Run];
    AfterOne(events, GoWriteLoop);
    events := events + [GoWriteLoop];
    AfterOne(events, Enqueue(p));
    events := events + [Enqueue(p)];
  }

  lemma {:induction false} CancelledOne(p: Packet) returns (events: seq<Event>)
    ensures After(events) ==
            NEW_SESSION.(queue := [p], started := true, loop := Draining, accepted := [p],
                         cancelled := true, atCancel := 1, ending := Waiting)
    ensures FoundStarted(events) && !TroubleIn(events) && Teardowns(events) == 0
  {
    hide After, TroubleIn, FoundStarted, RunIn, Teardowns;
    events := QueuedOne(p);
    AfterOne(events, EndCall);
    events := events + [EndCall];
    AfterOne(events, EndCancel);
    events := events + [EndCancel];
    AfterOne(events, EndDecide);
    events := events + [EndDecide];
    AfterOne(events, SeeCancel);
    events := events + [SeeCancel];
  }

  lemma {:induction false} DrainedOne(p: Packet) returns (events: seq<Event>)
    requires |p| > 0
    ensures After(events) ==
            NEW_SESSION.(started := true, loop := Exited, accepted := [p], written := [p],
                         cancelled := true, atCancel := 1, ending := Waiting)
    ensures FoundStarted(events) && !TroubleIn(events) && Teardowns(events) == 0
  {
    hide After, TroubleIn, FoundStarted, RunIn, Teardowns;
    events := CancelledOne(p);
    AfterOne(events, DrainTake);
    events := events + [DrainTake];
    AfterOne(events, DrainWrite(true));
    events := events + [DrainWrite(true)];
    AfterOne(events, DrainEmpty);
    events := events + [DrainEmpty];
  }

  /** There are such endings: a started session, cancelled with a packet queued, drains it and closes. */
  lemma {:induction false} DrainedEnding(p: Packet) returns (events: seq<Event>)
    requires |p| > 0
    ensures Teardowns(events) == 1 && FoundStarted(events) && !TroubleIn(events)
    ensures After(events).written == [p] && After(events).ending == Finished
  {
    hide After, TroubleIn, FoundStarted, RunIn, Teardowns;
    events := DrainedOne(p);
    AfterOne(events, EndWaited);
    events := events + [EndWaited];
    AfterOne(events, EndClose);
    events := events + [EndClose];
  }

  lemma {:induction false} NothingYet()
    ensures After([]) == NEW_SESSION && !RunIn([]) && !FoundStarted([]) && !TroubleIn([]) && Teardowns([]) == 0
  {
  }
}
