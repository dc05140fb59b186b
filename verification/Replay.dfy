/** The instant-replay recorder as a state machine over the captured messages. */
module Replay {
  import opened Common

  const HDR_SIZE: nat := 16
  const SIGNON_MAX: nat := 262144
  const RING_MAX: nat := 4194304
  const MAX_FRAMES: nat := 8192

  // from the NetQuake protocol
  const SIGNONS: int := 4
  const SVC_DISCONNECT: byte := 2
  const SVC_SERVERINFO: byte := 11

  /** A message body; C's int holds every length computed from it. */
  type Message = m: seq<byte> | |m| < 0x4000_0000 witness []

  /** The three view angles as written: twelve bytes. */
  type Angles = a: seq<byte> | |a| == 12 witness seq(12, _ => 0)

  /** A demo-framed message with its capture time. */
  datatype Frame = Frame(bytes: seq<byte>, time: real)

  function LittleLong(n: nat): (b: seq<byte>)
    requires n < 0x8000_0000
    ensures |b| == 4
  {
    [n % 256, n / 256 % 256, n / 65536 % 256, n / 16777216]
  }

  function Framed(body: Message, angles: Angles): (f: seq<byte>)
    ensures |f| == HDR_SIZE + |body|
  {
    LittleLong(|body|) + angles + body
  }

  function Concat(frames: seq<seq<byte>>): seq<byte> {
    if |frames| == 0 then [] else frames[0] + Concat(frames[1..])
  }

  function BytesOf(live: seq<Frame>): (s: seq<seq<byte>>)
    ensures |s| == |live|
  {
    seq(|live|, i requires 0 <= i < |live| => live[i].bytes)
  }

  function Held(live: seq<Frame>): seq<byte> {
    Concat(BytesOf(live))
  }

  /** The recorder's state: the preamble messages, whether signon is complete, the live frames. */
  datatype State = State(preamble: seq<seq<byte>>, done: bool, live: seq<Frame>)

  const EMPTY: State := State([], false, [])

  /** What CL_Replay_Capture and CL_Replay_Reset see. */
  datatype Event =
    | Reset
    | Captured(body: Message, angles: Angles, signon: int, playback: bool, time: real, window: real)

  // --- one step ---

  /** Make room for n bytes and one slot. */
  function EvictForRoom(live: seq<Frame>, n: nat): seq<Frame> {
    if |live| > 0 && (|Held(live)| + n > RING_MAX || |live| >= MAX_FRAMES) then EvictForRoom(live[1..], n)
    else live
  }

  /** Trim to the rolling window, keeping at least one frame. */
  function TrimOld(live: seq<Frame>, now: real, window: real): seq<Frame> {
    if |live| > 1 && now - live[0].time > window then TrimOld(live[1..], now, window) else live
  }

  function Push(live: seq<Frame>, frame: Frame, window: real): seq<Frame> {
    if |frame.bytes| > RING_MAX then live
    else TrimOld(EvictForRoom(live, |frame.bytes|) + [frame], frame.time, if window < 0.0 then 0.0 else window)
  }

  /** A message that does not fit is dropped, the ones before it are kept. */
  function AppendSignon(preamble: seq<seq<byte>>, framed: seq<byte>): seq<seq<byte>> {
    if |Concat(preamble)| + |framed| > SIGNON_MAX then preamble else preamble + [framed]
  }

  predicate Ignored(e: Event) {
    e.Captured? && (e.playback || |e.body| == 0)
  }

  /** Events that drop everything captured so far. */
  predicate Clears(e: Event) {
    e.Reset? || (!e.playback && |e.body| > 0 && e.signon != SIGNONS && e.body[0] == SVC_SERVERINFO)
  }

  function Step(s: State, e: Event): State {
    if e.Reset? then EMPTY
    else if Ignored(e) then s
    else if e.signon != SIGNONS then
      var s' := if e.body[0] == SVC_SERVERINFO then EMPTY else s;
      if e.signon == SIGNONS - 1 then s'.(done := true)
      else s'.(preamble := AppendSignon(s'.preamble, Framed(e.body, e.angles)))
    else
      var live := if e.window > 0.0 then Push(s.live, Frame(Framed(e.body, e.angles), e.time), e.window) else s.live;
      s.(done := true, live := live)
  }

  function Run(events: seq<Event>): State {
    if |events| == 0 then EMPTY else Step(Run(events[..|events| - 1]), events[|events| - 1])
  }

  // --- what a history asks for ---

  /** A signon message that belongs in the preamble. */
  predicate IsSignon(e: Event) {
    e.Captured? && !e.playback && |e.body| > 0 && e.signon != SIGNONS && e.signon != SIGNONS - 1
  }

  /** A live message that the ring can hold. */
  predicate IsLive(e: Event) {
    && e.Captured? && !e.playback && |e.body| > 0 && e.signon == SIGNONS && e.window > 0.0
    && HDR_SIZE + |e.body| <= RING_MAX
  }

  /** The signon messages since everything was last dropped, the serverinfo that dropped it included. */
  function SignonMessages(events: seq<Event>): seq<seq<byte>> {
    if |events| == 0 then []
    else
      var e := events[|events| - 1];
      (if Clears(e) then [] else SignonMessages(events[..|events| - 1]))
      + if IsSignon(e) then [Framed(e.body, e.angles)] else []
  }

  /** The frames pushed since everything was last dropped. */
  function Pushed(events: seq<Event>): seq<Frame> {
    if |events| == 0 then []
    else
      var e := events[|events| - 1];
      (if Clears(e) then [] else Pushed(events[..|events| - 1]))
      + if IsLive(e) then [Frame(Framed(e.body, e.angles), e.time)] else []
  }

  /** Whether the last stage of the signon, or a message after it, has been seen since then. */
  predicate SignonComplete(events: seq<Event>) {
    |events| > 0 &&
    var e := events[|events| - 1];
    || (e.Captured? && !e.playback && |e.body| > 0 && e.signon in {SIGNONS - 1, SIGNONS})
    || (!Clears(e) && SignonComplete(events[..|events| - 1]))
  }

  ghost predicate IsSuffix<T>(s: seq<T>, all: seq<T>) {
    |s| <= |all| && s == all[|all| - |s|..]
  }

  // --- list lemmas ---

  lemma {:induction false} SuffixOfSuffix<T>(a: seq<T>, b: seq<T>, c: seq<T>)
    requires IsSuffix(a, b) && IsSuffix(b, c)
    ensures IsSuffix(a, c)
  {
    assert c[|c| - |b|..][|b| - |a|..] == c[|c| - |a|..];
  }

  lemma {:induction false} SuffixAppend<T>(a: seq<T>, b: seq<T>, x: T)
    requires IsSuffix(a, b)
    ensures IsSuffix(a + [x], b + [x])
  {
    assert (b + [x])[|b| - |a|..] == b[|b| - |a|..] + [x];
  }

  lemma {:induction false} SuffixTail<T>(a: seq<T>, b: seq<T>)
    requires |b| > 0 && IsSuffix(a, b[1..])
    ensures IsSuffix(a, b)
  {
    assert b[1..][|b| - 1 - |a|..] == b[|b| - |a|..];
  }

  lemma {:induction false} SuffixSelf<T>(a: seq<T>)
    ensures IsSuffix(a, a)
  {
  }

  lemma {:induction false} ConcatAppend(a: seq<seq<byte>>, f: seq<byte>)
    ensures Concat(a + [f]) == Concat(a) + f
  {
    if |a| == 0 {
      assert a + [f] == [f];
    } else {
      assert (a + [f])[1..] == a[1..] + [f];
      ConcatAppend(a[1..], f);
    }
  }

  lemma {:induction false} HeldAppend(live: seq<Frame>, f: Frame)
    ensures Held(live + [f]) == Held(live) + f.bytes
  {
    assert BytesOf(live + [f]) == BytesOf(live) + [f.bytes];
    ConcatAppend(BytesOf(live), f.bytes);
  }

  lemma {:induction false} HeldFirst(live: seq<Frame>)
    requires |live| > 0
    ensures Held(live) == live[0].bytes + Held(live[1..])
  {
    assert BytesOf(live)[1..] == BytesOf(live[1..]);
  }

  lemma {:induction false} EvictsPrefix(live: seq<Frame>, n: nat)
    requires n <= RING_MAX
    ensures var r := EvictForRoom(live, n);
            IsSuffix(r, live) && |Held(r)| + n <= RING_MAX && |r| < MAX_FRAMES
  {
    hide Held, IsSuffix;
    if |live| > 0 && (|Held(live)| + n > RING_MAX || |live| >= MAX_FRAMES) {
      EvictsPrefix(live[1..], n);
      SuffixTail(EvictForRoom(live[1..], n), live);
    } else {
      NothingHeld();
      assert |live| == 0 ==> live == [];
      SuffixSelf(live);
    }
  }

  /** Making room keeps exactly the frames that fit, with all the frames after them, beside n more bytes
      and one more slot. */
  lemma {:induction false} RoomExactly(live: seq<Frame>, n: nat, i: nat)
    requires i < |live|
    ensures var r := EvictForRoom(live, n);
            |r| <= |live| && (i >= |live| - |r| <==> |Held(live[i..])| + n <= RING_MAX && |live| - i < MAX_FRAMES)
  {
    hide Held;
    if |Held(live)| + n > RING_MAX || |live| >= MAX_FRAMES {
      if i > 0 {
        assert live[1..][i - 1..] == live[i..];
        RoomExactly(live[1..], n, i - 1);
      } else {
        assert live[0..] == live;
        if |live| > 1 {
          RoomExactly(live[1..], n, 0);
        }
      }
    } else {
      SuffixHeld(live, i);
    }
  }

  /** Whatever the times, every frame that trimming drops is older than the window. */
  lemma {:induction false} TrimsOnlyOld(live: seq<Frame>, now: real, window: real, i: nat)
    ensures var r := TrimOld(live, now, window);
            |r| <= |live| && (i < |live| - |r| ==> now - live[i].time > window)
  {
    if |live| > 1 && now - live[0].time > window && i > 0 {
      TrimsOnlyOld(live[1..], now, window, i - 1);
    } else if |live| > 1 && now - live[0].time > window {
      TrimsOnlyOld(live[1..], now, window, 0);
    }
  }

  /** Trimming frames in order of time keeps exactly those within the window, and the last one. */
  lemma {:induction false} TrimExactly(live: seq<Frame>, now: real, window: real, i: nat)
    requires Ordered(live) && i < |live|
    ensures var r := TrimOld(live, now, window);
            |r| <= |live| && (i >= |live| - |r| <==> now - live[i].time <= window || i == |live| - 1)
  {
    assert live[0].time <= live[i].time;
    if |live| > 1 && now - live[0].time > window {
      assert Ordered(live[1..]);
      TrimExactly(live[1..], now, window, if i > 0 then i - 1 else 0);
    }
  }

  lemma {:induction false} NothingHeld()
    ensures Held([]) == []
  {
  }

  lemma {:induction false} TrimsPrefix(live: seq<Frame>, now: real, window: real)
    requires |live| > 0
    ensures var r := TrimOld(live, now, window);
            IsSuffix(r, live) && |r| > 0 && (|r| == 1 || now - r[0].time <= window)
  {
    hide IsSuffix;
    if |live| > 1 && now - live[0].time > window {
      TrimsPrefix(live[1..], now, window);
      SuffixTail(TrimOld(live[1..], now, window), live);
    } else {
      SuffixSelf(live);
    }
  }

  // --- the ring over whole histories ---

  /** The newest pushed frame is kept, after as many of the older ones as fit. */
  lemma {:induction false} PushKeepsSuffix(live: seq<Frame>, pushed: seq<Frame>, f: Frame, window: real)
    requires IsSuffix(live, pushed) && |f.bytes| <= RING_MAX
    ensures IsSuffix(Push(live, f, window), pushed + [f]) && |Push(live, f, window)| > 0
  {
    hide IsSuffix, EvictForRoom, TrimOld;
    var room := EvictForRoom(live, |f.bytes|);
    EvictsPrefix(live, |f.bytes|);
    TrimsPrefix(room + [f], f.time, if window < 0.0 then 0.0 else window);
    SuffixOfSuffix(room, live, pushed);
    SuffixAppend(room, pushed, f);
    SuffixOfSuffix(Push(live, f, window), room + [f], pushed + [f]);
  }

  /** In every history the live frames are the last of those pushed since the last drop, the newest included. */
  lemma {:induction false} LiveIsSuffix(events: seq<Event>)
    ensures IsSuffix(Run(events).live, Pushed(events))
    ensures |Pushed(events)| > 0 ==> |Run(events).live| > 0
  {
    hide IsSuffix, Push, Framed, AppendSignon;
    if |events| == 0 {
      SuffixSelf<Frame>([]);
    } else {
      var before, e := events[..|events| - 1], events[|events| - 1];
      LiveIsSuffix(before);
      LiveStep(events);
      if IsLive(e) {
        PushKeepsSuffix(Run(before).live, Pushed(before), Frame(Framed(e.body, e.angles), e.time), e.window);
      } else if Clears(e) {
        SuffixSelf<Frame>([]);
      }
    }
  }

  /** What one event does to the live frames and to the frames pushed. */
  lemma {:induction false} LiveStep(events: seq<Event>)
    requires |events| > 0
    ensures var before, e := events[..|events| - 1], events[|events| - 1];
            if IsLive(e) then
              var f := Frame(Framed(e.body, e.angles), e.time);
              && !Clears(e) && |f.bytes| <= RING_MAX && Pushed(events) == Pushed(before) + [f]
              && Run(events).live == Push(Run(before).live, f, e.window)
            else if Clears(e) then Pushed(events) == [] && Run(events).live == []
            else Pushed(events) == Pushed(before) && Run(events).live == Run(before).live
  {
    hide AppendSignon, TrimOld, EvictForRoom;
  }

  ghost predicate Ordered(frames: seq<Frame>) {
    forall i, j :: 0 <= i <= j < |frames| ==> frames[i].time <= frames[j].time
  }

  ghost predicate FixedWindow(events: seq<Event>, window: real) {
    forall i :: 0 <= i < |events| && events[i].Captured? ==> events[i].window == window
  }

  /** With non-decreasing times and a fixed window, every frame kept is within it of the newest. */
  lemma {:induction false} LiveWithinWindow(events: seq<Event>, window: real)
    requires FixedWindow(events, window) && Ordered(Pushed(events))
    ensures var live := Run(events).live;
            forall i :: 0 <= i < |live| ==> live[|live| - 1].time - live[i].time <= window
  {
    assert Run([]) == EMPTY;
    hide Run, Pushed, Framed, Push, IsSuffix, Ordered, Clears;
    if |events| == 0 {
    } else {
      var before, e := events[..|events| - 1], events[|events| - 1];
      LiveStep(events);
      if IsLive(e) {
        LiveIsSuffix(before);
        var f := Frame(Framed(e.body, e.angles), e.time);
        PushWithinWindow(Run(before).live, Pushed(before), f, window);
      } else if !Clears(e) {
        LiveWithinWindow(before, window);
      }
    }
  }

  lemma {:induction false} PushWithinWindow(live: seq<Frame>, pushed: seq<Frame>, f: Frame, window: real)
    requires IsSuffix(live, pushed) && Ordered(pushed + [f]) && window > 0.0 && |f.bytes| <= RING_MAX
    ensures var r := Push(live, f, window);
            forall i :: 0 <= i < |r| ==> r[|r| - 1].time - r[i].time <= window
  {
    hide EvictForRoom, TrimOld;
    EvictsPrefix(live, |f.bytes|);
    var room := EvictForRoom(live, |f.bytes|);
    TrimsPrefix(room + [f], f.time, window);
    PushKeepsSuffix(live, pushed, f, window);
    var r, all := Push(live, f, window), pushed + [f];
    assert r == all[|all| - |r|..];
    forall i | 0 <= i < |r| ensures r[|r| - 1].time - r[i].time <= window {
      var k := |all| - |r|;
      assert r[|r| - 1] == f && r[0] == all[k] && r[i] == all[k + i];
      assert all[k].time <= all[k + i].time;
    }
  }

  /** When frame j was pushed, frame i and those between them fitted beside it. */
  predicate FitsAt(pushed: seq<Frame>, i: nat, j: nat)
    requires i < j < |pushed|
  {
    |Held(pushed[i..j])| + |pushed[j].bytes| <= RING_MAX && j - i < MAX_FRAMES
  }

  /** Within the window of the newest frame, and never in the way of a later one. */
  ghost predicate Belongs(pushed: seq<Frame>, i: nat, window: real)
    requires i < |pushed|
  {
    pushed[|pushed| - 1].time - pushed[i].time <= window && forall j :: i < j < |pushed| ==> FitsAt(pushed, i, j)
  }

  /** With non-decreasing times and a fixed window the live frames are exactly those pushed since the last
      drop that are within the window of the newest and for which every later one left room. */
  lemma {:induction false} LiveExactly(events: seq<Event>, window: real, i: nat)
    requires FixedWindow(events, window) && Ordered(Pushed(events)) && i < |Pushed(events)|
    ensures var pushed, live := Pushed(events), Run(events).live;
            |live| <= |pushed| && (i >= |pushed| - |live| <==> Belongs(pushed, i, window))
  {
    assert Pushed([]) == [];
    hide Run, Pushed, Framed, Push, IsSuffix, Ordered, Clears, Belongs;
    if |events| == 0 {
    } else {
      var before, e := events[..|events| - 1], events[|events| - 1];
      LiveStep(events);
      if IsLive(e) {
        var f := Frame(Framed(e.body, e.angles), e.time);
        LiveIsSuffix(before);
        OrderedBefore(Pushed(before), f);
        if i < |Pushed(before)| {
          LiveExactly(before, window, i);
        }
        PushExactly(Run(before).live, Pushed(before), f, window, i);
      } else if !Clears(e) {
        LiveExactly(before, window, i);
      }
    }
  }

  lemma {:induction false} OrderedBefore(pushed: seq<Frame>, f: Frame)
    requires Ordered(pushed + [f])
    ensures Ordered(pushed)
  {
    forall i, j | 0 <= i <= j < |pushed| ensures pushed[i].time <= pushed[j].time {
      assert (pushed + [f])[i].time <= (pushed + [f])[j].time;
    }
  }

  lemma {:induction false} PushExactly(live: seq<Frame>, pushed: seq<Frame>, f: Frame, window: real, i: nat)
    requires IsSuffix(live, pushed) && Ordered(pushed + [f]) && window > 0.0 && |f.bytes| <= RING_MAX
    requires i <= |pushed| && (i < |pushed| ==> (i >= |pushed| - |live| <==> Belongs(pushed, i, window)))
    ensures var r, all := Push(live, f, window), pushed + [f];
            |r| <= |all| && (i >= |all| - |r| <==> Belongs(all, i, window))
  {
    hide EvictForRoom, TrimOld, Held;
    var room, all := EvictForRoom(live, |f.bytes|), pushed + [f];
    EvictsPrefix(live, |f.bytes|);
    var k, m := |pushed| - |live|, |pushed| - |room|;
    assert room == pushed[m..];
    OrderedTail(all, m);
    assert room + [f] == all[m..];
    if i < |pushed| {
      BelongsAppend(pushed, f, i, window);
      if i >= k {
        RoomExactly(live, |f.bytes|, i - k);
        assert live[i - k..] == pushed[i..];
      }
    }
    TrimExactly(room + [f], f.time, window, if i >= m then i - m else 0);
    assert i == |pushed| ==> Belongs(all, i, window);
  }

  lemma {:induction false} OrderedTail(all: seq<Frame>, k: nat)
    requires Ordered(all) && k <= |all|
    ensures Ordered(all[k..])
  {
    forall i, j | 0 <= i <= j < |all[k..]| ensures all[k..][i].time <= all[k..][j].time {
      assert all[k + i].time <= all[k + j].time;
    }
  }

  /** A frame that belongs after one more push belonged before, and left room for it. */
  lemma {:induction false} BelongsAppend(pushed: seq<Frame>, f: Frame, i: nat, window: real)
    requires Ordered(pushed + [f]) && i < |pushed|
    ensures Belongs(pushed + [f], i, window) <==>
            && Belongs(pushed, i, window) && f.time - pushed[i].time <= window
            && |Held(pushed[i..])| + |f.bytes| <= RING_MAX && |pushed| - i < MAX_FRAMES
  {
    hide Held;
    var all, n := pushed + [f], |pushed|;
    assert all[n - 1].time <= all[n].time;
    assert all[i..n] == pushed[i..];
    forall j | i < j < n ensures FitsAt(all, i, j) == FitsAt(pushed, i, j) {
      assert all[i..j] == pushed[i..j];
    }
    assert FitsAt(all, i, n) <==> |Held(pushed[i..])| + |f.bytes| <= RING_MAX && n - i < MAX_FRAMES;
  }

  /** The live frames always fit the ring and its slots. */
  lemma {:induction false} LiveFits(events: seq<Event>)
    ensures |Held(Run(events).live)| <= RING_MAX && |Run(events).live| <= MAX_FRAMES
  {
    hide Push, Framed, AppendSignon, Pushed;
    if |events| > 0 {
      var before, e := events[..|events| - 1], events[|events| - 1];
      LiveFits(before);
      LiveStep(events);
      if IsLive(e) {
        PushFits(Run(before).live, Frame(Framed(e.body, e.angles), e.time), e.window);
      }
    }
  }

  lemma {:induction false} PushFits(live: seq<Frame>, f: Frame, window: real)
    requires |Held(live)| <= RING_MAX && |live| <= MAX_FRAMES
    ensures |Held(Push(live, f, window))| <= RING_MAX && |Push(live, f, window)| <= MAX_FRAMES
  {
    hide EvictForRoom, TrimOld, Held;
    if |f.bytes| > RING_MAX {
    } else {
      var room := EvictForRoom(live, |f.bytes|);
      EvictsPrefix(live, |f.bytes|);
      HeldAppend(room, f);
      TrimsPrefix(room + [f], f.time, if window < 0.0 then 0.0 else window);
      SuffixHeld(room + [f], |room| + 1 - |Push(live, f, window)|);
    }
  }

  lemma {:induction false} SuffixHeld(live: seq<Frame>, k: nat)
    requires k <= |live|
    ensures |Held(live[k..])| <= |Held(live)|
    ensures Held(live)[|Held(live)| - |Held(live[k..])|..] == Held(live[k..])
  {
    if k > 0 {
      HeldFirst(live);
      SuffixHeld(live[1..], k - 1);
      assert live[1..][k - 1..] == live[k..];
    } else {
      assert live[0..] == live;
    }
  }

  // --- the preamble over whole histories ---

  /** The preamble holds exactly the signon messages if and only if they fit its buffer. */
  lemma {:induction false} PreambleIsSignon(events: seq<Event>)
    ensures |Concat(Run(events).preamble)| <= SIGNON_MAX
    ensures Run(events).preamble == SignonMessages(events) <==> |Concat(SignonMessages(events))| <= SIGNON_MAX
  {
    PreambleFits(events);
    if |Concat(SignonMessages(events))| <= SIGNON_MAX {
      PreambleExact(events);
    }
  }

  lemma {:induction false} PreambleFits(events: seq<Event>)
    ensures |Concat(Run(events).preamble)| <= SIGNON_MAX
  {
    hide LittleLong, Push;
    if |events| > 0 {
      var before, e := events[..|events| - 1], events[|events| - 1];
      PreambleFits(before);
      if IsSignon(e) {
        var s := if Clears(e) then [] else Run(before).preamble;
        ConcatAppend(s, Framed(e.body, e.angles));
      }
    }
  }

  lemma {:induction false} PreambleExact(events: seq<Event>)
    requires |Concat(SignonMessages(events))| <= SIGNON_MAX
    ensures Run(events).preamble == SignonMessages(events)
  {
    hide LittleLong, Push;
    if |events| > 0 {
      var before, e := events[..|events| - 1], events[|events| - 1];
      var earlier := if Clears(e) then [] else SignonMessages(before);
      if IsSignon(e) {
        ConcatAppend(earlier, Framed(e.body, e.angles));
      } else {
        assert earlier + [] == earlier;
      }
      if !Clears(e) {
        PreambleExact(before);
      }
    }
  }

  /** In every history the signon counts as complete exactly when its last stage, or a message after it,
      was seen since everything was last dropped. */
  lemma {:induction false} DoneIsComplete(events: seq<Event>)
    ensures Run(events).done <==> SignonComplete(events)
  {
    hide Push, Framed, AppendSignon;
    if |events| > 0 {
      DoneIsComplete(events[..|events| - 1]);
    }
  }

  /** Messages during playback and empty ones leave no trace. */
  lemma {:induction false} PlaybackIgnored(events: seq<Event>, e: Event)
    requires e.Captured? && (e.playback || |e.body| == 0)
    ensures Run(events + [e]) == Run(events)
  {
    assert (events + [e])[..|events|] == events;
  }

  // --- the file ---

  /** The layout of a demo frame: the length of the body in four bytes, lowest first, three angles, the body. */
  lemma {:induction false} FrameLayout(body: Message, angles: Angles)
    ensures var f := Framed(body, angles);
            var b0: int, b1: int, b2: int, b3: int := f[0], f[1], f[2], f[3];
            && b0 + 0x100 * b1 + 0x1_0000 * b2 + 0x100_0000 * b3 == |body|
            && f[4..16] == angles && f[16..] == body
  {
    LittleLongInverse(|body|);
  }

  const TRACK: seq<byte> := [45, 49, 10]  // "-1\n"

  function ReplayFile(s: State, angles: Angles): seq<byte> {
    TRACK + Concat(s.preamble) + Held(s.live) + Framed([SVC_DISCONNECT], angles)
  }

  function LittleLongValue(b: seq<byte>): nat
    requires |b| == 4
  {
    var b0: nat, b1: nat, b2: nat, b3: nat := b[0], b[1], b[2], b[3];
    b0 + 256 * b1 + 65536 * b2 + 16777216 * b3
  }

  /** A demo reader: frames by their length headers, up to the end of the file. */
  function ParseFrames(file: seq<byte>): Option<seq<seq<byte>>> {
    if |file| == 0 then Some([])
    else if |file| < HDR_SIZE then None
    else
      var n := HDR_SIZE + LittleLongValue(file[..4]);
      if n > |file| then None
      else
        match ParseFrames(file[n..])
        case None => None
        case Some(rest) => Some([file[..n]] + rest)
  }

  ghost predicate IsFrame(f: seq<byte>) {
    exists body: Message, angles: Angles :: f == Framed(body, angles)
  }

  lemma {:induction false} LittleLongInverse(n: nat)
    requires n < 0x8000_0000
    ensures LittleLongValue(LittleLong(n)) == n
  {
    assert n / 65536 == n / 256 / 256 && n / 16777216 == n / 65536 / 256;
  }

  /** Reading back frames undoes writing them. */
  lemma {:induction false} ParseConcat(frames: seq<seq<byte>>)
    requires forall i :: 0 <= i < |frames| ==> IsFrame(frames[i])
    ensures ParseFrames(Concat(frames)) == Some(frames)
  {
    hide LittleLong, LittleLongValue;
    if |frames| > 0 {
      var f, file := frames[0], Concat(frames);
      var body: Message, angles: Angles :| f == Framed(body, angles);
      ParseConcat(frames[1..]);
      LittleLongInverse(|body|);
      assert file[..4] == LittleLong(|body|);
      assert file[..|f|] == f && file[|f|..] == Concat(frames[1..]);
      assert [f] + frames[1..] == frames;
    }
  }

  lemma {:induction false} ConcatConcat(a: seq<seq<byte>>, b: seq<seq<byte>>)
    ensures Concat(a + b) == Concat(a) + Concat(b)
  {
    if |a| == 0 {
      assert a + b == b;
    } else {
      assert (a + b)[1..] == a[1..] + b;
      ConcatConcat(a[1..], b);
    }
  }

  lemma {:induction false} RecordedFrames(events: seq<Event>)
    ensures forall i :: 0 <= i < |SignonMessages(events)| ==> IsFrame(SignonMessages(events)[i])
    ensures forall i :: 0 <= i < |Pushed(events)| ==> IsFrame(Pushed(events)[i].bytes)
  {
    hide LittleLong, Push;
    if |events| > 0 {
      RecordedFrames(events[..|events| - 1]);
    }
  }

  /** What a buffer that drops each message that does not fit keeps of a list of messages. */
  function Fitting(messages: seq<seq<byte>>): (kept: seq<seq<byte>>)
    ensures forall i :: 0 <= i < |kept| ==> kept[i] in messages
  {
    if |messages| == 0 then []
    else
      var n := |messages| - 1;
      var before := Fitting(messages[..n]);
      if |Concat(before)| + |messages[n]| > SIGNON_MAX then before else before + [messages[n]]
  }

  /** What one event does to the preamble. */
  lemma {:induction false} PreambleStep(events: seq<Event>)
    requires |events| > 0
    ensures var before, e := events[..|events| - 1], events[|events| - 1];
            var earlier := if Clears(e) then [] else Run(before).preamble;
            Run(events).preamble == if IsSignon(e) then AppendSignon(earlier, Framed(e.body, e.angles)) else earlier
  {
    hide Push, LittleLong, AppendSignon;
  }

  lemma {:induction false} FittingAppend(messages: seq<seq<byte>>, m: seq<byte>)
    ensures Fitting(messages + [m]) == AppendSignon(Fitting(messages), m)
  {
    assert (messages + [m])[..|messages|] == messages;
  }

  /** In every history the preamble is what fits of the signon messages, overflowed or not. */
  lemma {:induction false} PreambleIsFitting(events: seq<Event>)
    ensures Run(events).preamble == Fitting(SignonMessages(events))
  {
    assert Run([]) == EMPTY;
    hide Run, Framed, Concat, AppendSignon;
    if |events| == 0 {
    } else {
      var before, e := events[..|events| - 1], events[|events| - 1];
      PreambleIsFitting(before);
      PreambleStep(events);
      var earlier := if Clears(e) then [] else SignonMessages(before);
      if IsSignon(e) {
        FittingAppend(earlier, Framed(e.body, e.angles));
      } else {
        assert earlier + [] == earlier;
      }
    }
  }

  /** The replay file of every history: what fits of the signon messages, a suffix of the pushed frames
      oldest to newest, disconnect. */
  lemma {:induction false} ReplayFileParses(events: seq<Event>, angles: Angles)
    ensures var file := ReplayFile(Run(events), angles);
            && file[..3] == ['-' as int, '1' as int, '\n' as int]
            && ParseFrames(file[3..]) ==
               Some(Fitting(SignonMessages(events)) + BytesOf(Run(events).live) + [Framed([2], angles)])
    ensures IsSuffix(Run(events).live, Pushed(events))
  {
    hide LittleLong, Run, Pushed, SignonMessages, ParseFrames, Framed, Fitting;
    var s := Run(events);
    var last: seq<byte> := Framed([SVC_DISCONNECT], angles);
    PreambleIsFitting(events);
    LiveIsSuffix(events);
    RecordedFrames(events);
    var frames := s.preamble + BytesOf(s.live) + [last];
    ConcatConcat(s.preamble, BytesOf(s.live));
    ConcatAppend(s.preamble + BytesOf(s.live), last);
    assert ReplayFile(s, angles)[3..] == Concat(frames);
    forall i | 0 <= i < |frames| ensures IsFrame(frames[i]) {
      if i < |s.preamble| {
        assert s.preamble[i] in SignonMessages(events);
      } else if i < |frames| - 1 {
        var j := i - |s.preamble|;
        assert frames[i] == s.live[j].bytes;
        assert s.live[j] == Pushed(events)[|Pushed(events)| - |s.live| + j];
      } else {
        assert frames[i] == Framed([SVC_DISCONNECT], angles);
      }
    }
    ParseConcat(frames);
  }

  /** When the signon messages fit the preamble buffer, all of them are in the file. */
  lemma {:induction false} FittingFileParses(events: seq<Event>, angles: Angles)
    requires |Concat(SignonMessages(events))| <= SIGNON_MAX
    ensures ParseFrames(ReplayFile(Run(events), angles)[3..]) ==
            Some(SignonMessages(events) + BytesOf(Run(events).live) + [Framed([2], angles)])
  {
    hide Run, SignonMessages, ParseFrames, Framed, Fitting;
    ReplayFileParses(events, angles);
    PreambleIsFitting(events);
    PreambleExact(events);
  }
}
