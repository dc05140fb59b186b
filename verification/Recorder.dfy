/** cl_replay.c with its buffers: a byte ring, a circular frame index and the preamble buffer. */
module Recorder {
  import opened Common
  import opened Replay

  /** An entry of the frame index. */
  datatype Slot = Slot(start: nat, len: nat, time: real)

  /** The ring offset d bytes behind w. */
  function Behind(w: nat, d: nat): nat
    requires w < RING_MAX && d <= RING_MAX
  {
    if d <= w then w - d else w + RING_MAX - d
  }

  function Idx(head: nat, i: nat): nat
    requires head < MAX_FRAMES && i <= MAX_FRAMES
  {
    if head + i < MAX_FRAMES then head + i else head + i - MAX_FRAMES
  }

  /** The last m bytes written, oldest first. */
  function LastBytes(ring: seq<byte>, w: nat, m: nat): (b: seq<byte>)
    requires |ring| == RING_MAX && w < RING_MAX && m <= RING_MAX
    ensures |b| == m
  {
    seq(m, j requires 0 <= j < m => ring[Behind(w, m - j)])
  }

  function Advance(w: nat, n: nat): nat
    requires w < RING_MAX && n <= RING_MAX
  {
    (w + n) % 4194304
  }

  /** The ring after src is copied in at w, the part past the end at the front. */
  function Written(ring: seq<byte>, w: nat, src: seq<byte>): (r: seq<byte>)
    requires |ring| == RING_MAX && w < RING_MAX && |src| <= RING_MAX
    ensures |r| == RING_MAX
  {
    if w + |src| <= RING_MAX then ring[..w] + src + ring[w + |src|..]
    else src[RING_MAX - w..] + ring[|src| - (RING_MAX - w)..w] + src[..RING_MAX - w]
  }

  lemma {:induction false} AdvanceCases(w: nat, n: nat)
    requires w < RING_MAX && n <= RING_MAX
    ensures Advance(w, n) == if w + n < RING_MAX then w + n else w + n - RING_MAX
    ensures Behind(Advance(w, n), n) == w
  {
  }

  /** Writing appends to the last bytes, as long as old and new bytes fit the ring together. */
  lemma {:induction false} WriteAppends(ring: seq<byte>, w: nat, used: nat, src: seq<byte>)
    requires |ring| == RING_MAX && w < RING_MAX && used + |src| <= RING_MAX
    ensures LastBytes(Written(ring, w, src), Advance(w, |src|), used + |src|) == LastBytes(ring, w, used) + src
  {
    hide Written;
    var n, w', r := |src|, Advance(w, |src|), Written(ring, w, src);
    var after, expected := LastBytes(r, w', used + n), LastBytes(ring, w, used) + src;
    AdvanceCases(w, n);
    forall j | 0 <= j < |after| ensures after[j] == expected[j] {
      var p := Behind(w', used + n - j);
      assert after[j] == r[p];
      if j < used {
        assert p == Behind(w, used - j);
        WrittenOld(ring, w, src, p);
        assert expected[j] == ring[p];
      } else {
        WrittenNew(ring, w, src, j - used);
        assert p == if w + (j - used) < RING_MAX then w + (j - used) else w + (j - used) - RING_MAX;
        assert expected[j] == src[j - used];
      }
    }
  }

  lemma {:induction false} WrittenNew(ring: seq<byte>, w: nat, src: seq<byte>, k: nat)
    requires |ring| == RING_MAX && w < RING_MAX && k < |src| <= RING_MAX
    ensures Written(ring, w, src)[if w + k < RING_MAX then w + k else w + k - RING_MAX] == src[k]
  {
  }

  lemma {:induction false} WrittenOld(ring: seq<byte>, w: nat, src: seq<byte>, p: nat)
    requires |ring| == RING_MAX && w < RING_MAX && p < RING_MAX && |src| <= RING_MAX
    requires p < w || w + |src| <= p
    requires w + |src| > RING_MAX ==> p >= w + |src| - RING_MAX
    ensures Written(ring, w, src)[p] == ring[p]
  {
  }

  /** A frame in the ring: one stretch, or the end and the beginning. */
  lemma {:induction false} FrameBytes(ring: seq<byte>, w: nat, d: nat, len: nat)
    requires |ring| == RING_MAX && w < RING_MAX && len <= d <= RING_MAX
    ensures var start := Behind(w, d);
            LastBytes(ring, w, d)[..len] ==
            if start + len <= RING_MAX then ring[start..start + len]
            else ring[start..RING_MAX] + ring[..len - (RING_MAX - start)]
  {
    var start, bytes := Behind(w, d), LastBytes(ring, w, d)[..len];
    forall j | 0 <= j < len
      ensures bytes[j] == ring[if start + j < RING_MAX then start + j else start + j - RING_MAX]
    {
      assert bytes[j] == ring[Behind(w, d - j)];
    }
  }

  lemma {:induction false} LastOfLast(ring: seq<byte>, w: nat, m: nat, k: nat)
    requires |ring| == RING_MAX && w < RING_MAX && k <= m <= RING_MAX
    ensures LastBytes(ring, w, m)[m - k..] == LastBytes(ring, w, k)
  {
  }

  /** The slots hold where each frame starts, how long it is and when it came. */
  ghost predicate Indexed(frames: seq<Slot>, head: nat, w: nat, live: seq<Frame>)
    requires |frames| == MAX_FRAMES && head < MAX_FRAMES && w < RING_MAX
    requires |live| <= MAX_FRAMES && |Held(live)| <= RING_MAX
  {
    forall i :: 0 <= i < |live| ==> SlotFor(frames, head, w, live, i)
  }

  ghost predicate SlotFor(frames: seq<Slot>, head: nat, w: nat, live: seq<Frame>, i: nat)
    requires |frames| == MAX_FRAMES && head < MAX_FRAMES && w < RING_MAX
    requires i < |live| <= MAX_FRAMES && |Held(live)| <= RING_MAX
  {
    SuffixHeld(live, i);
    frames[Idx(head, i)] == Slot(Behind(w, |Held(live[i..])|), |live[i].bytes|, live[i].time)
  }

  lemma {:induction false} IndexEvict(frames: seq<Slot>, head: nat, w: nat, live: seq<Frame>)
    requires |frames| == MAX_FRAMES && head < MAX_FRAMES && w < RING_MAX
    requires 0 < |live| <= MAX_FRAMES && |Held(live)| <= RING_MAX && Indexed(frames, head, w, live)
    ensures |Held(live[1..])| <= RING_MAX && Indexed(frames, Idx(head, 1), w, live[1..])
  {
    hide Held;
    SuffixHeld(live, 1);
    forall i | 0 <= i < |live[1..]| ensures SlotFor(frames, Idx(head, 1), w, live[1..], i) {
      assert SlotFor(frames, head, w, live, i + 1);
      assert live[1..][i..] == live[i + 1..];
    }
  }

  lemma {:induction false} IndexPush(frames: seq<Slot>, head: nat, w: nat, live: seq<Frame>, f: Frame)
    requires |frames| == MAX_FRAMES && head < MAX_FRAMES && w < RING_MAX
    requires |live| < MAX_FRAMES && |Held(live)| + |f.bytes| <= RING_MAX && Indexed(frames, head, w, live)
    ensures var frames' := frames[Idx(head, |live|) := Slot(w, |f.bytes|, f.time)];
            && |Held(live + [f])| <= RING_MAX
            && Indexed(frames', head, Advance(w, |f.bytes|), live + [f])
  {
    hide Held;
    HeldAppend(live, f);
    var all, w', frames' := live + [f], Advance(w, |f.bytes|), frames[Idx(head, |live|) := Slot(w, |f.bytes|, f.time)];
    AdvanceCases(w, |f.bytes|);
    forall i | 0 <= i < |all| ensures SlotFor(frames', head, w', all, i) {
      SuffixHeld(all, i);
      if i < |live| {
        assert SlotFor(frames, head, w, live, i);
        assert all[i..] == live[i..] + [f];
        HeldAppend(live[i..], f);
        SuffixHeld(live, i);
      } else {
        assert all[i..] == [] + [f];
        HeldAppend([], f);
        NothingHeld();
      }
    }
  }

  class Recorder {
    const signon: array<byte>
    var signonLen: nat
    var signonDone: bool
    const ring: array<byte>
    var w: nat
    var used: nat
    const frames: array<Slot>
    var head: nat
    var tail: nat
    var count: nat
    ghost var state: State

    ghost predicate SignonPart()
      reads this, signon
    {
      && signon.Length == SIGNON_MAX && signonLen <= SIGNON_MAX
      && signon[..signonLen] == Concat(state.preamble)
      && signonDone == state.done
    }

    ghost predicate RingPart()
      reads this, ring, frames
    {
      && ring.Length == RING_MAX && frames.Length == MAX_FRAMES
      && w < RING_MAX && head < MAX_FRAMES && count <= MAX_FRAMES && tail == Idx(head, count)
      && count == |state.live|
      && used == |Held(state.live)| <= RING_MAX
      && LastBytes(ring[..], w, used) == Held(state.live)
      && Indexed(frames[..], head, w, state.live)
    }

    ghost predicate Valid()
      reads this, signon, ring, frames
    {
      signon != ring && SignonPart() && RingPart()
    }

    constructor ()
      ensures Valid() && state == EMPTY && fresh(signon) && fresh(ring) && fresh(frames)
    {
      signon := new byte[262144](_ => 0);
      ring := new byte[4194304](_ => 0);
      frames := new Slot[8192](_ => Slot(0, 0, 0.0));
      signonLen, signonDone := 0, false;
      w, used, head, tail, count := 0, 0, 0, 0, 0;
      state := EMPTY;
    }

    method Reset()
      requires Valid()
      modifies this
      ensures Valid() && state == Step(old(state), Event.Reset)
    {
      signonLen, signonDone := 0, false;
      w, used := 0, 0;
      head, tail, count := 0, 0, 0;
      state := EMPTY;
    }

    method RingWrite(src: seq<byte>)
      requires ring.Length == RING_MAX && w < RING_MAX && used + |src| <= RING_MAX
      modifies `w, `used, ring
      ensures ring[..] == Written(old(ring[..]), old(w), src)
      ensures w == Advance(old(w), |src|) && used == old(used) + |src|
    {
      var n := |src|;
      var first := RING_MAX - w;
      if first > n {
        first := n;
      }
      Memcpy(ring, w, src[..first]);
      if n > first {
        Memcpy(ring, 0, src[first..]);
      }
      w := Advance(w, n);
      used := used + n;
    }

    method EvictOldest()
      requires RingPart() && count > 0
      modifies `used, `head, `count, `state
      ensures RingPart() && state == old(state).(live := old(state).live[1..])
    {
      hide Held, LastBytes, Behind;
      HeldFirst(state.live);
      IndexEvict(frames[..], head, w, state.live);
      assert SlotFor(frames[..], head, w, state.live, 0);
      used := used - frames[head].len;
      LastOfLast(ring[..], w, used + frames[head].len, used);
      head := (head + 1) % 8192;
      count := count - 1;
      state := state.(live := state.live[1..]);
    }

    method PushFrame(body: Message, angles: Angles, now: real, window: real)
      requires RingPart()
      modifies `used, `head, `tail, `count, `w, `state, ring, frames
      ensures RingPart()
      ensures state == old(state).(live := Push(old(state).live, Frame(Framed(body, angles), now), window))
    {
      hide Held, LastBytes, Indexed, Behind, Written, Framed;
      ghost var f, was := Frame(Framed(body, angles), now), state;
      var framed := HDR_SIZE + |body|;
      if framed > RING_MAX {
        return;
      }
      while count > 0 && (used + framed > RING_MAX || count >= MAX_FRAMES)
        invariant RingPart() && state == was.(live := state.live)
        invariant EvictForRoom(was.live, framed) == EvictForRoom(state.live, framed)
        decreases count
      {
        EvictOldest();
      }
      NothingHeld();
      assert count == 0 ==> state.live == [];
      AddFrame(body, angles, now);
      var dur := window;
      if dur < 0.0 {
        dur := 0.0;
      }
      ghost var added := state.live;
      while count > 1 && now - frames[head].time > dur
        invariant RingPart() && count > 0 && state == was.(live := state.live)
        invariant TrimOld(added, now, dur) == TrimOld(state.live, now, dur)
        decreases count
      {
        FirstTime();
        EvictOldest();
      }
      FirstTime();
    }

    lemma {:induction false} FirstTime()
      requires RingPart() && count > 0
      ensures frames[head].time == state.live[0].time
    {
      hide Held, LastBytes;
      assert SlotFor(frames[..], head, w, state.live, 0);
    }

    /** Header and body into the ring, their slot into the index. */
    method AddFrame(body: Message, angles: Angles, now: real)
      requires RingPart() && count < MAX_FRAMES && used + HDR_SIZE + |body| <= RING_MAX
      modifies `used, `tail, `count, `w, `state, ring, frames
      ensures RingPart()
      ensures state == old(state).(live := old(state).live + [Frame(Framed(body, angles), now)])
    {
      hide Held, LastBytes, Indexed, Behind, Written, LittleLong;
      ghost var f := Frame(Framed(body, angles), now);
      ghost var live, r0, w0, u0 := state.live, ring[..], w, used;
      var start := w;
      var hdr := LittleLong(|body|) + angles;
      assert f.bytes == hdr + body;
      RingWrite(hdr);
      WriteAppends(r0, w0, u0, hdr);
      ghost var r1, w1, u1 := ring[..], w, used;
      RingWrite(body);
      WriteAppends(r1, w1, u1, body);
      assert ring[..] == Written(r1, w1, body);
      AdvanceTwice(w0, |hdr|, |body|);
      HeldAppend(live, f);
      assert Held(live) + hdr + body == Held(live + [f]);
      IndexPush(frames[..], head, w0, live, f);
      frames[tail] := Slot(start, |hdr| + |body|, now);
      tail := (tail + 1) % 8192;
      count := count + 1;
      state := state.(live := live + [f]);
    }

    method AppendSignonFrame(body: Message, angles: Angles)
      requires SignonPart()
      modifies `signonLen, `state, signon
      ensures SignonPart()
      ensures state == old(state).(preamble := AppendSignon(old(state).preamble, Framed(body, angles)))
    {
      hide Concat, LittleLong;
      var framed := HDR_SIZE + |body|;
      if signonLen + framed > SIGNON_MAX {
        return;
      }
      ghost var f := Framed(body, angles);
      ConcatAppend(state.preamble, f);
      ghost var was := signon[..signonLen];
      Memcpy(signon, signonLen, LittleLong(|body|) + angles);
      Memcpy(signon, signonLen + HDR_SIZE, body);
      assert signon[..signonLen + framed] == was + f;
      signonLen := signonLen + framed;
      state := state.(preamble := state.preamble + [f]);
    }

    /** CL_Replay_Capture: one message, and the recorder takes the step of the state machine. */
    method Capture(body: Message, angles: Angles, clsSignon: int, playback: bool, time: real, window: real)
      requires Valid()
      modifies this, signon, ring, frames
      ensures Valid()
      ensures state == Step(old(state), Captured(body, angles, clsSignon, playback, time, window))
    {
      hide Concat, LastBytes, Held, Indexed, Framed, Push, AppendSignon;
      if playback || |body| <= 0 {
        return;
      }
      if clsSignon != SIGNONS {
        if body[0] == SVC_SERVERINFO {
          Reset();
        }
        if clsSignon == SIGNONS - 1 {
          signonDone := true;
          state := state.(done := true);
          return;
        }
        AppendSignonFrame(body, angles);
        return;
      }
      signonDone := true;
      state := state.(done := true);
      if window > 0.0 {
        PushFrame(body, angles, time, window);
      }
    }

    /** Replay_WriteRingFrame: the bytes of a frame, also when they wrap around. */
    method RingFrame(start: nat, len: nat, ghost i: nat) returns (bytes: seq<byte>)
      requires RingPart() && i < count && frames[Idx(head, i)] == Slot(start, len, state.live[i].time)
      ensures bytes == state.live[i].bytes
    {
      hide Held, Indexed, LastBytes;
      ghost var live, d := state.live, |Held(state.live[i..])|;
      assert SlotFor(frames[..], head, w, live, i) by { SlotAt(frames[..], head, w, live, i); }
      var first := RING_MAX - start;
      SuffixHeld(live, i);
      HeldFirst(live[i..]);
      LastOfLast(ring[..], w, used, d);
      assert live[i..][0] == live[i];
      assert live[i].bytes == LastBytes(ring[..], w, d)[..len];
      FrameBytes(ring[..], w, d, len);
      if first > len {
        first := len;
      }
      bytes := ring[start..start + first];
      if len > first {
        bytes := bytes + ring[..len - first];
      }
    }

    /** The `replay` command up to the bytes of the file; None when it refuses. */
    method Command(connected: bool, playback: bool, angles: Angles) returns (file: Option<seq<byte>>)
      requires Valid()
      ensures file.Some? <==> connected && !playback && state.done && |Concat(state.preamble)| > 0 && |state.live| > 0
      ensures file.Some? ==> file.value == ReplayFile(state, angles)
    {
      hide Held, LastBytes, Indexed, Concat, LittleLong;
      if !connected || playback || !signonDone || signonLen <= 0 || count == 0 {
        return None;
      }
      var f := TRACK + signon[..signonLen];
      ghost var live := state.live;
      NothingHeld();
      assert live[..0] == [];
      for i := 0 to count
        invariant f == TRACK + Concat(state.preamble) + Held(live[..i])
      {
        var idx := (head + i) % 8192;
        assert SlotFor(frames[..], head, w, live, i) by { SlotAt(frames[..], head, w, live, i); }
        var bytes := RingFrame(frames[idx].start, frames[idx].len, i);
        assert live[..i + 1] == live[..i] + [live[i]];
        HeldAppend(live[..i], live[i]);
        f := f + bytes;
      }
      assert live[..count] == live;
      f := f + (LittleLong(1) + angles + [SVC_DISCONNECT]);
      file := Some(f);
    }
  }

  lemma {:induction false} SlotAt(frames: seq<Slot>, head: nat, w: nat, live: seq<Frame>, i: nat)
    requires |frames| == MAX_FRAMES && head < MAX_FRAMES && w < RING_MAX
    requires i < |live| <= MAX_FRAMES && |Held(live)| <= RING_MAX && Indexed(frames, head, w, live)
    ensures SlotFor(frames, head, w, live, i)
  {
  }

  lemma {:induction false} AdvanceTwice(w: nat, a: nat, b: nat)
    requires w < RING_MAX && a + b <= RING_MAX
    ensures Advance(w, a) < RING_MAX && Advance(Advance(w, a), b) == Advance(w, a + b)
  {
  }

  method Memcpy(dst: array<byte>, at: nat, src: seq<byte>)
    requires at + |src| <= dst.Length
    modifies dst
    ensures dst[..] == old(dst[..at]) + src + old(dst[at + |src|..])
  {
    forall i | 0 <= i < |src| {
      dst[at + i] := src[i];
    }
  }
}
