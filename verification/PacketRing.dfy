/** The drop-oldest packet rings of net_nqchan.c. */
module PacketRing {
  import opened Common

  type Packet = seq<byte>

  const HEADER_SIZE: nat := 2
  const MAX_OVERFLOW: nat := 0xffff

  /** What became of an arrival that left the ring. */
  datatype Fate = Delivered | Skipped | Dropped

  datatype Outcome = Empty | Message(port: int, payload: Packet)

  /** A ring as a queue, with the arrivals since the last reset and the fate of those that left. */
  datatype State = State(buffered: seq<Packet>, arrivals: seq<Packet>, gone: seq<(Packet, Fate)>, overflow: nat)

  const EMPTY: State := State([], [], [], 0)

  datatype Event = Reset | Enqueue(packet: Packet) | Dequeue(len: nat)

  function Saturate(n: nat): nat {
    if n < MAX_OVERFLOW then n else MAX_OVERFLOW
  }

  /** A full ring makes room by dropping its oldest entry. */
  function Room(s: State, cap: nat): State {
    if |s.buffered| + 1 == cap && |s.buffered| > 0 then
      s.(buffered := s.buffered[1..], gone := s.gone + [(s.buffered[0], Dropped)], overflow := Saturate(s.overflow + 1))
    else s
  }

  function Put(s: State, cap: nat, frameMax: nat, packet: Packet): State {
    if |packet| > frameMax then s
    else
      var s' := Room(s, cap);
      s'.(buffered := s'.buffered + [packet], arrivals := s'.arrivals + [packet])
  }

  predicate Usable(packet: Packet, len: nat) {
    HEADER_SIZE <= |packet| && |packet| - HEADER_SIZE <= len
  }

  /** Skip what is too short or too long for the caller, deliver the first that is not. */
  function Get(s: State, len: nat): State
    decreases |s.buffered|
  {
    if |s.buffered| == 0 then s
    else
      var p, rest := s.buffered[0], s.(buffered := s.buffered[1..]);
      if Usable(p, len) then rest.(gone := s.gone + [(p, Delivered)])
      else Get(rest.(gone := s.gone + [(p, Skipped)]), len)
  }

  function Opened(p: Packet): Outcome
    requires |p| >= HEADER_SIZE
  {
    var hi: int, lo: int := p[0], p[1];
    Message(256 * hi + lo, p[HEADER_SIZE..])
  }

  function Answer(s: State, len: nat): Outcome
    decreases |s.buffered|
  {
    if |s.buffered| == 0 then Empty
    else
      var p := s.buffered[0];
      if Usable(p, len) then Opened(p)
      else Answer(s.(buffered := s.buffered[1..], gone := s.gone + [(p, Skipped)]), len)
  }

  function Step(s: State, e: Event, cap: nat, frameMax: nat): State {
    match e
    case Reset => EMPTY
    case Enqueue(p) => Put(s, cap, frameMax, p)
    case Dequeue(len) => Get(s, len)
  }

  function Run(events: seq<Event>, cap: nat, frameMax: nat): State {
    if |events| == 0 then EMPTY
    else Step(Run(events[..|events| - 1], cap, frameMax), events[|events| - 1], cap, frameMax)
  }

  // --- what holds over every run ---

  function Packets(gone: seq<(Packet, Fate)>): (ps: seq<Packet>)
    ensures |ps| == |gone|
  {
    seq(|gone|, i requires 0 <= i < |gone| => gone[i].0)
  }

  function CountOf(gone: seq<(Packet, Fate)>, fate: Fate): nat {
    if |gone| == 0 then 0
    else CountOf(gone[..|gone| - 1], fate) + if gone[|gone| - 1].1 == fate then 1 else 0
  }

  function DeliveredOf(gone: seq<(Packet, Fate)>): seq<Packet> {
    if |gone| == 0 then []
    else DeliveredOf(gone[..|gone| - 1]) + if gone[|gone| - 1].1 == Delivered then [gone[|gone| - 1].0] else []
  }

  ghost predicate Conserved(s: State, cap: nat) {
    && s.arrivals == Packets(s.gone) + s.buffered
    && |s.buffered| < cap
    && s.overflow == Saturate(CountOf(s.gone, Dropped))
  }

  lemma {:induction false} GoneAppend(gone: seq<(Packet, Fate)>, p: Packet, fate: Fate)
    ensures Packets(gone + [(p, fate)]) == Packets(gone) + [p]
    ensures CountOf(gone + [(p, fate)], Dropped) == CountOf(gone, Dropped) + if fate == Dropped then 1 else 0
  {
    assert (gone + [(p, fate)])[..|gone|] == gone;
  }

  /** Taking the oldest entry out of the queue keeps the order of arrivals. */
  lemma {:induction false} TakeKeeps(s: State, cap: nat, fate: Fate, overflow: nat)
    requires Conserved(s, cap) && |s.buffered| > 0
    requires overflow == if fate == Dropped then Saturate(s.overflow + 1) else s.overflow
    ensures Conserved(s.(buffered := s.buffered[1..], gone := s.gone + [(s.buffered[0], fate)], overflow := overflow), cap)
  {
    hide Packets, CountOf;
    GoneAppend(s.gone, s.buffered[0], fate);
    assert s.buffered == [s.buffered[0]] + s.buffered[1..];
  }

  lemma {:induction false} GetKeeps(s: State, cap: nat, len: nat)
    requires Conserved(s, cap)
    ensures Conserved(Get(s, len), cap) && Get(s, len).arrivals == s.arrivals
    decreases |s.buffered|
  {
    hide Conserved, Packets, CountOf;
    if |s.buffered| > 0 {
      TakeKeeps(s, cap, Delivered, s.overflow);
      TakeKeeps(s, cap, Skipped, s.overflow);
      if !Usable(s.buffered[0], len) {
        GetKeeps(s.(buffered := s.buffered[1..], gone := s.gone + [(s.buffered[0], Skipped)]), cap, len);
      }
    }
  }

  lemma {:induction false} PutKeeps(s: State, cap: nat, frameMax: nat, packet: Packet)
    requires Conserved(s, cap) && cap >= 2
    ensures Conserved(Put(s, cap, frameMax, packet), cap)
  {
    hide Packets, CountOf;
    if |packet| <= frameMax {
      if |s.buffered| + 1 == cap {
        TakeKeeps(s, cap, Dropped, Saturate(s.overflow + 1));
      }
    }
  }

  /** Over every run the arrivals are, in order, those that left and those still buffered; at most
      cap - 1 are buffered; and the overflow field counts the drops up to its width. */
  lemma {:induction false} RunConserves(events: seq<Event>, cap: nat, frameMax: nat)
    requires cap >= 2
    ensures Conserved(Run(events, cap, frameMax), cap)
  {
    assert Conserved(EMPTY, cap);
    hide Conserved, Put, Get;
    if |events| > 0 {
      var s := Run(events[..|events| - 1], cap, frameMax);
      RunConserves(events[..|events| - 1], cap, frameMax);
      match events[|events| - 1]
      case Reset =>
      case Enqueue(p) => PutKeeps(s, cap, frameMax, p);
      case Dequeue(len) => GetKeeps(s, cap, len);
    }
  }

  lemma {:induction false} FatesAddUp(gone: seq<(Packet, Fate)>)
    ensures |gone| == CountOf(gone, Delivered) + CountOf(gone, Skipped) + CountOf(gone, Dropped)
    ensures |DeliveredOf(gone)| == CountOf(gone, Delivered)
  {
    if |gone| > 0 {
      FatesAddUp(gone[..|gone| - 1]);
    }
  }

  /** Arrivals equal delivered plus skipped plus dropped plus buffered. */
  lemma {:induction false} RunAddsUp(events: seq<Event>, cap: nat, frameMax: nat)
    requires cap >= 2
    ensures var s := Run(events, cap, frameMax);
            && |s.arrivals| ==
               |DeliveredOf(s.gone)| + CountOf(s.gone, Skipped) + CountOf(s.gone, Dropped) + |s.buffered|
            && s.overflow == Saturate(CountOf(s.gone, Dropped)) && |s.buffered| <= cap - 1
  {
    hide Run, CountOf, DeliveredOf;
    RunConserves(events, cap, frameMax);
    FatesAddUp(Run(events, cap, frameMax).gone);
  }

  predicate Subsequence(a: seq<Packet>, b: seq<Packet>) {
    if |a| == 0 then true
    else if |b| == 0 then false
    else if a[|a| - 1] == b[|b| - 1] && Subsequence(a[..|a| - 1], b[..|b| - 1]) then true
    else Subsequence(a, b[..|b| - 1])
  }

  lemma {:induction false} DeliveredInOrder(gone: seq<(Packet, Fate)>, buffered: seq<Packet>)
    ensures Subsequence(DeliveredOf(gone), Packets(gone) + buffered)
    decreases |gone| + |buffered|
  {
    var all, a := Packets(gone) + buffered, DeliveredOf(gone);
    if |buffered| > 0 {
      assert all[..|all| - 1] == Packets(gone) + buffered[..|buffered| - 1];
      DeliveredInOrder(gone, buffered[..|buffered| - 1]);
    } else if |gone| > 0 {
      var n := |gone| - 1;
      assert all[..|all| - 1] == Packets(gone[..n]) + [];
      DeliveredInOrder(gone[..n], []);
      if gone[n].1 == Delivered {
        assert a[..|a| - 1] == DeliveredOf(gone[..n]) && a[|a| - 1] == gone[n].0;
        assert all[|all| - 1] == gone[n].0;
      } else {
        assert a == DeliveredOf(gone[..n]);
      }
    }
  }

  /** What is delivered is an in-order subsequence of the arrivals. */
  lemma {:induction false} RunDeliversInOrder(events: seq<Event>, cap: nat, frameMax: nat)
    requires cap >= 2
    ensures var s := Run(events, cap, frameMax); Subsequence(DeliveredOf(s.gone), s.arrivals)
  {
    hide Run, Subsequence, DeliveredOf;
    RunConserves(events, cap, frameMax);
    var s := Run(events, cap, frameMax);
    DeliveredInOrder(s.gone, s.buffered);
  }

  // --- the ring itself ---

  function Taken(s: State, len: nat): State
    requires |s.buffered| > 0
  {
    var fate := if Usable(s.buffered[0], len) then Delivered else Skipped;
    s.(buffered := s.buffered[1..], gone := s.gone + [(s.buffered[0], fate)])
  }

  lemma {:induction false} GetNone(s: State, len: nat)
    requires s.buffered == []
    ensures Get(s, len) == s && Answer(s, len) == Empty
  {
  }

  lemma {:induction false} GetOne(s: State, len: nat)
    requires |s.buffered| > 0
    ensures Usable(s.buffered[0], len) ==> Get(s, len) == Taken(s, len)
    ensures Usable(s.buffered[0], len) ==> Answer(s, len) == Opened(s.buffered[0])
    ensures !Usable(s.buffered[0], len) ==>
              Get(s, len) == Get(Taken(s, len), len) && Answer(s, len) == Answer(Taken(s, len), len)
  {
  }

  function Wrap(cap: nat, i: nat): nat {
    if i < cap then i else i - cap
  }

  lemma {:induction false} DeliveredAppend(gone: seq<(Packet, Fate)>, p: Packet, fate: Fate)
    ensures DeliveredOf(gone + [(p, fate)]) == if fate == Delivered then DeliveredOf(gone) + [p] else DeliveredOf(gone)
  {
    assert (gone + [(p, fate)])[..|gone|] == gone;
  }

  /** The answer to a dequeue is the one packet it adds to the delivered ones, opened; or none. */
  lemma {:induction false} AnswerIsDelivered(s: State, len: nat)
    ensures var before, after := DeliveredOf(s.gone), DeliveredOf(Get(s, len).gone);
            if Answer(s, len) == Empty then after == before && Get(s, len).buffered == []
            else
              && |after| == |before| + 1 && after[..|before|] == before
              && Usable(after[|before|], len) && Answer(s, len) == Opened(after[|before|])
    decreases |s.buffered|
  {
    hide Get, Answer, DeliveredOf, Usable;
    if |s.buffered| == 0 {
      GetNone(s, len);
    } else {
      GetOne(s, len);
      DeliveredAppend(s.gone, s.buffered[0], if Usable(s.buffered[0], len) then Delivered else Skipped);
      if !Usable(s.buffered[0], len) {
        AnswerIsDelivered(Taken(s, len), len);
      }
    }
  }

  function AllSkipped(ps: seq<Packet>): (g: seq<(Packet, Fate)>)
    ensures |g| == |ps|
  {
    seq(|ps|, i requires 0 <= i < |ps| => (ps[i], Skipped))
  }

  /** A dequeue, in plain numbers: the k packets before the first one with a two-byte header and a payload of
      at most len bytes are skipped, and that one is delivered, its port read from the header with the high
      byte first; if there is none, all are skipped. */
  lemma {:induction false} DequeueExactly(s: State, len: nat) returns (k: nat)
    ensures k <= |s.buffered| && forall i :: 0 <= i < k ==> !(2 <= |s.buffered[i]| <= len + 2)
    ensures k == |s.buffered| ==>
              && Answer(s, len) == Empty
              && Get(s, len) == s.(buffered := [], gone := s.gone + AllSkipped(s.buffered))
    ensures k < |s.buffered| ==>
              var p := s.buffered[k];
              && 2 <= |p| <= len + 2
              && (var high: int, low: int := p[0], p[1]; Answer(s, len) == Message(0x100 * high + low, p[2..]))
              && Get(s, len) == s.(buffered := s.buffered[k + 1..],
                                   gone := s.gone + AllSkipped(s.buffered[..k]) + [(p, Delivered)])
    decreases |s.buffered|
  {
    hide Get, Answer;
    k := 0;
    if |s.buffered| == 0 {
      GetNone(s, len);
      assert s.gone + AllSkipped([]) == s.gone;
    } else {
      var p := s.buffered[0];
      GetOne(s, len);
      if Usable(p, len) {
        assert s.gone + AllSkipped(s.buffered[..0]) == s.gone;
      } else {
        var j := DequeueExactly(Taken(s, len), len);
        k := j + 1;
        assert [(p, Skipped)] + AllSkipped(s.buffered[1..][..j]) == AllSkipped(s.buffered[..k]);
        assert s.gone + [(p, Skipped)] + AllSkipped(s.buffered[1..][..j]) == s.gone + AllSkipped(s.buffered[..k]);
        if k == |s.buffered| {
          assert s.buffered[..k] == s.buffered && s.buffered[1..][..j] == s.buffered[1..];
        }
      }
    }
  }

  /** An enqueue, in plain numbers: a packet over the limit is ignored; with cap - 1 packets buffered the
      oldest is dropped and counted up to 65535; the packet goes to the end. */
  lemma {:induction false} EnqueueExactly(s: State, cap: nat, frameMax: nat, p: Packet)
    requires |s.buffered| < cap && cap >= 2 && s.overflow <= 65535
    ensures var full := |s.buffered| == cap - 1;
            Put(s, cap, frameMax, p) ==
            if |p| > frameMax then s
            else
              State((if full then s.buffered[1..] else s.buffered) + [p], s.arrivals + [p],
                    s.gone + (if full then [(s.buffered[0], Dropped)] else []),
                    if full && s.overflow < 65535 then s.overflow + 1 else s.overflow)
  {
    assert s.gone + [] == s.gone;
  }

  lemma {:induction false} NextIndex(cap: nat, i: nat)
    requires i < cap && cap >= 2
    ensures (i + 1) % cap == Wrap(cap, i + 1)
  {
    var q := (i + 1) / cap;
    assert i + 1 == q * cap + (i + 1) % cap;
    Multiple(q, cap);
  }

  /** The queue as it lies in the slots, from `r` on and around the end. */
  ghost predicate Laid(slots: seq<Packet>, r: nat, buffered: seq<Packet>) {
    && r < |slots| && |buffered| < |slots|
    && forall i :: 0 <= i < |buffered| ==> slots[Wrap(|slots|, r + i)] == buffered[i]
  }

  lemma {:induction false} LaidTake(slots: seq<Packet>, r: nat, buffered: seq<Packet>, p: Packet)
    requires Laid(slots, r, buffered) && |buffered| > 0
    ensures r < |slots| && |buffered| < |slots| && slots[r] == buffered[0]
    ensures Laid(slots, Wrap(|slots|, r + 1), buffered[1..])
    ensures Laid(slots[r := p], Wrap(|slots|, r + 1), buffered[1..])
  {
    var cap, r' := |slots|, Wrap(|slots|, r + 1);
    assert slots[Wrap(cap, r + 0)] == buffered[0];
    forall i | 0 <= i < |buffered| - 1 ensures slots[Wrap(cap, r' + i)] == buffered[1..][i] && Wrap(cap, r' + i) != r {
      assert Wrap(cap, r' + i) == Wrap(cap, r + (i + 1));
    }
  }

  lemma {:induction false} LaidPut(slots: seq<Packet>, r: nat, buffered: seq<Packet>, p: Packet)
    requires Laid(slots, r, buffered) && |buffered| + 1 < |slots|
    ensures Laid(slots[Wrap(|slots|, r + |buffered|) := p], r, buffered + [p])
  {
  }

  lemma {:induction false} PutStep(s: State, cap: nat, frameMax: nat, p: Packet)
    ensures var made := Room(s, cap);
            Put(s, cap, frameMax, p) ==
            if |p| > frameMax then s else made.(buffered := made.buffered + [p], arrivals := made.arrivals + [p])
  {
    hide Room;
  }

  lemma {:induction false} RoomMade(s: State, cap: nat)
    requires |s.buffered| < cap && cap >= 2 && s.overflow <= MAX_OVERFLOW
    ensures var made := Room(s, cap);
            && made.arrivals == s.arrivals
            && made.buffered == (if |s.buffered| + 1 == cap then s.buffered[1..] else s.buffered)
            && made.overflow == if |s.buffered| + 1 == cap && s.overflow < MAX_OVERFLOW then s.overflow + 1 else s.overflow
  {
  }

  /** The write index is just behind the read index exactly when the queue is full, and where it goes
      next, before and after the oldest entry has been dropped. */
  lemma {:induction false} NextWrite(cap: nat, r: nat, n: nat)
    requires r < cap && n < cap && cap >= 2
    ensures var w, r' := Wrap(cap, r + n), Wrap(cap, r + 1);
            && (Wrap(cap, w + 1) == r <==> n + 1 == cap) && r' < cap && Wrap(cap, w + 1) < cap
            && Wrap(cap, r + (n + 1)) == Wrap(cap, w + 1)
            && Wrap(cap, r' + n) == Wrap(cap, w + 1) && (n > 0 ==> Wrap(cap, r' + (n - 1)) == w)
  {
  }

  class Ring {
    const slots: array<Packet>
    const frameMax: nat
    var r: nat
    var w: nat
    var overflow: nat
    ghost var state: State

    ghost predicate Valid()
      reads this, slots
    {
      && slots.Length >= 2 && r < slots.Length && w < slots.Length && |state.buffered| < slots.Length
      && Laid(slots[..], r, state.buffered) && w == Wrap(slots.Length, r + |state.buffered|)
      && overflow == state.overflow <= MAX_OVERFLOW
    }

    constructor (cap: nat, frameMax: nat)
      requires cap >= 2
      ensures Valid() && state == EMPTY && slots.Length == cap && this.frameMax == frameMax && fresh(slots)
    {
      slots := new Packet[cap](_ => []);
      this.frameMax := frameMax;
      r, w, overflow, state := 0, 0, 0, EMPTY;
    }

    /** The ring's part of NQ_ResetState. */
    method Reset()
      requires Valid()
      modifies this
      ensures Valid() && state == Step(old(state), Event.Reset, slots.Length, frameMax)
    {
      r, w, overflow := 0, 0, 0;
      state := EMPTY;
    }

    method Enqueue(src: Packet)
      requires Valid()
      modifies this, slots
      ensures Valid() && state == Put(old(state), slots.Length, frameMax, src)
    {
      hide Laid, Room, Put, Wrap;
      PutStep(state, slots.Length, frameMax, src);
      if |src| > frameMax {
        return;
      }
      var cap := slots.Length;
      NextIndex(cap, w);
      NextIndex(cap, r);
      var next := (w + 1) % cap;
      ghost var made := Room(state, cap);
      RoomMade(state, cap);
      NextWrite(cap, r, |state.buffered|);
      if next == r {
        LaidTake(slots[..], r, state.buffered, []);
        if overflow < 0xffff {
          overflow := overflow + 1;
        }
        r := (r + 1) % cap;
      }
      LaidPut(slots[..], r, made.buffered, src);
      slots[w] := src;
      w := next;
      state := made.(buffered := made.buffered + [src], arrivals := made.arrivals + [src]);
    }

    method Dequeue(len: nat) returns (m: Outcome)
      requires Valid()
      modifies this, slots
      ensures Valid() && state == Get(old(state), len) && m == Answer(old(state), len)
    {
      hide Get, Answer, Laid;
      ghost var was := state;
      while r != w
        invariant Valid() && Get(was, len) == Get(state, len) && Answer(was, len) == Answer(state, len)
        decreases |state.buffered|
      {
        var p := slots[r];
        LaidTake(slots[..], r, state.buffered, []);
        GetOne(state, len);
        NextIndex(slots.Length, r);
        slots[r] := [];
        r := (r + 1) % slots.Length;
        state := Taken(state, len);
        if |p| < HEADER_SIZE {
          continue;
        }
        if |p| - HEADER_SIZE > len {
          continue;
        }
        var hi: int, lo: int := p[0], p[1];
        return Message(256 * hi + lo, p[HEADER_SIZE..]);
      }
      GetNone(state, len);
      m := Empty;
    }
  }
}
