/** `Session` of session.go and relay.go with its fields: its methods take the steps of the queue's protocol. */
module Sessions {
  import opened Common
  import opened SessionTx

  /** What a sender learns: queued, refused, dropped on a full queue, or left blocked until there is room. */
  datatype Sent = Queued | Refused | DroppedFull | Blocked

  /** A write that the transport carries out; none does after it was closed. */
  predicate Works(s: Tx, oks: seq<bool>) {
    |oks| > 0 && oks[0] && !s.closed
  }

  /** drainTx undisturbed: `turns` until its deadline, `oks` the outcomes of its writes. */
  function Drained(s: Tx, oks: seq<bool>, turns: nat): Tx
    requires s.loop == Draining
    decreases turns
  {
    if turns == 0 then Next(s, DrainDeadline)
    else if |s.queue| == 0 then Next(s, DrainEmpty)
    else
      var taken := Next(s, DrainTake);
      if taken.loop == Draining then Drained(taken, oks, turns - 1)
      else if Works(s, oks) then Drained(Next(taken, DrainWrite(true)), oks[1..], turns - 1)
      else Next(taken, DrainWrite(false))
  }

  /** An undisturbed drain with working writes and time enough flushes the whole queue, in order. */
  lemma {:induction false} DrainFlushes(s: Tx, oks: seq<bool>, turns: nat)
    requires s.loop == Draining && !s.closed && turns > |s.queue|
    requires |oks| >= |s.queue| && forall i :: 0 <= i < |oks| ==> oks[i]
    ensures var s' := Drained(s, oks, turns);
            && s'.queue == [] && s'.loop == Exited && s'.timedOut == s.timedOut && s'.failed == s.failed
            && s'.written == s.written + Sendable(s.queue)
    decreases turns
  {
    assert Sendable([]) == [];
    hide Sendable, Drained, Next, Enabled;
    if |s.queue| == 0 {
      DrainStops(s, oks, turns);
    } else {
      SendableFirst(s.queue);
      DrainTurn(s, oks, turns);
      var p, taken := s.queue[0], Next(s, DrainTake);
      if |p| == 0 {
        DrainFlushes(taken, oks, turns - 1);
      } else {
        DrainFlushes(Next(taken, DrainWrite(true)), oks[1..], turns - 1);
        assert s.written + [p] + Sendable(s.queue[1..]) == s.written + ([p] + Sendable(s.queue[1..]));
      }
    }
  }

  /** One turn of the drain loop, in terms of the fields it changes. */
  lemma {:induction false} DrainTurn(s: Tx, oks: seq<bool>, turns: nat)
    requires s.loop == Draining && turns > 0 && |s.queue| > 0
    ensures Enabled(s, DrainTake)
    ensures var p, taken, ok := s.queue[0], Next(s, DrainTake), Works(s, oks);
            && taken == s.(queue := s.queue[1..], loop := if |p| == 0 then Draining else DrainWriting(p))
            && (|p| == 0 ==> Drained(s, oks, turns) == Drained(taken, oks, turns - 1))
            && (|p| > 0 ==>
                  && Enabled(taken, DrainWrite(ok))
                  && var next := Next(taken, DrainWrite(ok));
                     && next.queue == taken.queue && next.cancelled == s.cancelled && next.started == s.started
                     && next.closed == s.closed && next.ending == s.ending
                     && (ok ==> next.loop == Draining && next.written == s.written + [p]
                                && next.timedOut == s.timedOut && next.failed == s.failed)
                     && Drained(s, oks, turns) == if ok then Drained(next, oks[1..], turns - 1) else next)
  {
  }

  lemma {:induction false} DrainStops(s: Tx, oks: seq<bool>, turns: nat)
    requires s.loop == Draining && (turns == 0 || |s.queue| == 0)
    ensures var e := if turns == 0 then DrainDeadline else DrainEmpty;
            && Enabled(s, e) && Drained(s, oks, turns) == Next(s, e)
            && var s' := Next(s, e);
               && s'.queue == s.queue && s'.cancelled == s.cancelled && s'.started == s.started
               && s'.closed == s.closed && s'.ending == s.ending && s'.loop == Exited
               && s'.written == s.written && s'.failed == s.failed && (turns > 0 ==> s'.timedOut == s.timedOut)
  {
  }

  /** What a write of writeLoop changes. */
  lemma {:induction false} WriteStep(s: Tx, ok: bool)
    ensures s.loop == Selecting && |s.queue| > 0 ==> Enabled(s, Take)
    ensures s.loop.Writing? && (ok ==> !s.closed) ==>
              && Enabled(s, Write(ok))
              && var s' := Next(s, Write(ok));
                 && s'.queue == s.queue && s'.started == s.started && s'.ending == s.ending
                 && (if ok then s'.cancelled == s.cancelled && s'.closed == s.closed else s'.cancelled && s'.closed)
  {
  }

  class Session {
    var queue: seq<Packet>
    var cancelled: bool
    var runStarted: bool
    var closed: bool
    var endBegun: bool
    var txDropped: nat
    ghost var tx: Tx

    ghost predicate Valid()
      reads this
    {
      && |queue| <= TX_CAPACITY && queue == tx.queue && cancelled == tx.cancelled && runStarted == tx.started
      && closed == tx.closed && (endBegun <==> tx.ending != NotBegun)
    }

    constructor ()
      ensures Valid() && tx == NEW_SESSION
    {
      queue, cancelled, runStarted, closed, endBegun, txDropped := [], false, false, false, false, 0;
      tx := NEW_SESSION;
    }

    /** sendFrame, with no other step between its check and its send. */
    method SendFrame(frame: Packet, drop: bool) returns (sent: Sent)
      requires Valid()
      modifies this
      ensures Valid()
      ensures sent == if |frame| == 0 || old(cancelled) then Refused
                      else if |old(queue)| < TX_CAPACITY then Queued
                      else if drop then DroppedFull else Blocked
      ensures tx == if sent == Queued then Next(old(tx), Enqueue(frame)) else old(tx)
      ensures txDropped == old(txDropped) + if sent == DroppedFull then 1 else 0
    {
      if |frame| == 0 || cancelled {
        return Refused;
      }
      if |queue| < TX_CAPACITY {
        tx := Next(tx, Enqueue(frame));
        queue := queue + [frame];
        return Queued;
      }
      if !drop {
        return Blocked;
      }
      txDropped := txDropped + 1;
      sent := DroppedFull;
    }

    /** TrySendControl: a frame for the control port, dropped and reported on a full queue. */
    method TrySendControl(payload: seq<byte>) returns (queued: bool)
      requires Valid()
      modifies this
      ensures Valid()
      ensures queued <==> !old(cancelled) && |old(queue)| < TX_CAPACITY
      ensures queued ==>
                && |queue| > 0 && DecodeFrame(queue[|queue| - 1]) == Some((0, payload))
                && tx == Next(old(tx), Enqueue(queue[|queue| - 1]))
      ensures !queued ==> tx == old(tx)
    {
      if cancelled {
        return false;
      }
      var frame := BuildFrame(0, payload).value;
      FrameRoundTrip(0, payload, frame);
      if |queue| >= TX_CAPACITY {
        return false;
      }
      tx := Next(tx, Enqueue(frame));
      queue := queue + [frame];
      queued := true;
    }

    /** The receiving case of writeLoop: a write failure cancels and closes; false ends the loop. */
    method WriteNext(ok: bool) returns (goOn: bool)
      requires Valid() && tx.loop == Selecting && |queue| > 0 && (closed ==> !ok)
      modifies this
      ensures Valid()
      ensures goOn <==> |old(queue)[0]| == 0 || ok
      ensures var taken := Next(old(tx), Take);
              tx == if |old(queue)[0]| == 0 then taken else Next(taken, Write(ok))
    {
      hide Sendable, Next, Enabled;
      WriteStep(tx, ok);
      TakeStep(tx, Take);
      var packet := Receive(Take);
      WriteStep(tx, ok);
      if |packet| == 0 {
        return true;
      }
      tx := Next(tx, Write(ok));
      if !ok {
        cancelled := true;
        closed := true;
        return false;
      }
      goOn := true;
    }

    /** A receive from the tx channel, by the loop or by the drain. */
    method Receive(ghost e: Event) returns (packet: Packet)
      requires Valid() && Enabled(tx, e) && (e.Take? || e.DrainTake?)
      modifies `queue, `tx
      ensures Valid() && tx == Next(old(tx), e)
      ensures |old(queue)| > 0 && packet == old(queue)[0] && queue == old(queue)[1..]
    {
      hide Sendable, Next, Enabled;
      TakeStep(tx, e);
      packet := queue[0];
      queue := queue[1..];
      tx := Next(tx, e);
    }

    method DrainTx(oks: seq<bool>, turns: nat)
      requires Valid() && tx.loop == Draining
      modifies this
      ensures Valid() && tx == Drained(old(tx), oks, turns)
    {
      hide Sendable, Drained, Next, Enabled;
      var left, outcomes := turns, oks;
      while left > 0
        invariant left >= 0 && Valid() && tx.loop == Draining && closed == old(closed)
        invariant Drained(old(tx), oks, turns) == Drained(tx, outcomes, left)
        decreases left
      {
        if |queue| == 0 {
          DrainStops(tx, outcomes, left);
          tx := Next(tx, DrainEmpty);
          return;
        }
        DrainTurn(tx, outcomes, left);
        var packet := Receive(DrainTake);
        left := left - 1;
        if |packet| == 0 {
          continue;
        }
        var ok := |outcomes| > 0 && outcomes[0] && !closed;
        tx := Next(tx, DrainWrite(ok));
        if !ok {
          return;
        }
        outcomes := outcomes[1..];
      }
      DrainStops(tx, outcomes, left);
      tx := Next(tx, DrainDeadline);
    }

    /** The entry of End: only the first call begins the teardown, which cancels. */
    method BeginEnd() returns (first: bool)
      requires Valid()
      modifies this
      ensures Valid() && first == !old(endBegun)
      ensures tx == if first then Next(Next(old(tx), EndCall), EndCancel) else Next(old(tx), EndCall)
    {
      tx := Next(tx, EndCall);
      if endBegun {
        return false;
      }
      endBegun := true;
      tx := Next(tx, EndCancel);
      cancelled := true;
      first := true;
    }

    /** Whether End waits for the write loop. */
    method DecideWait() returns (wait: bool)
      requires Valid() && tx.ending == Cancelled
      modifies this
      ensures Valid() && tx == Next(old(tx), EndDecide) && (wait <==> old(runStarted))
    {
      wait := runStarted;
      tx := Next(tx, EndDecide);
    }

    method Close()
      requires Valid() && tx.ending == Closing
      modifies this
      ensures Valid() && tx == Next(old(tx), EndClose)
    {
      closed := true;
      tx := Next(tx, EndClose);
    }
  }
}
