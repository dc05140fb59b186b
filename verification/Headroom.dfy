/** When draining keeps the headroom a pass was asked for. */
module Headroom {
  import opened Common
  import opened Autoscale
  import opened AutoscaleSystem
  import opened AutoscaleEnd

  /** instanceFreeSlots: the slots the pass counts for an instance, at least one. */
  function Slots(rec: Instance): (s: nat)
    ensures s >= 1
  {
    Max(1, rec.maxPlayers - rec.players)
  }

  predicate GivenUp(recs: Records, phases: Phases, id: int) {
    IsRunning(recs, id) && (PhaseOf(phases, id).life == Draining || PhaseOf(phases, id).life == Terminating)
  }

  function SlotsGivenUp(ids: seq<int>, recs: Records, phases: Phases): nat {
    if |ids| == 0 then 0
    else
      var n := |ids| - 1;
      SlotsGivenUp(ids[..n], recs, phases) + if GivenUp(recs, phases, ids[n]) then Slots(recs[ids[n]]) else 0
  }

  /** A pass that has instances draining or ending leaves the needed slots free beside them. */
  predicate HeadroomKept(ids: seq<int>, recs: Records, after: Phases, needed: nat) {
    SlotsGivenUp(ids, recs, after) > 0 ==> FreeSlots(ids, recs) - SlotsGivenUp(ids, recs, after) >= needed
  }

  /** Running and polled. */
  function Polled(ids: seq<int>, recs: Records): set<int> {
    set id | id in ids && IsRunning(recs, id) && recs[id].seen
  }

  /** And empty, with no more slots than are free in all. */
  function Idle(ids: seq<int>, recs: Records): set<int> {
    set id | id in ids && IsRunning(recs, id) && recs[id].seen && recs[id].players == 0
             && Slots(recs[id]) <= FreeSlots(ids, recs)
  }

  /** Lifecycles that a registry can have. */
  ghost predicate Known(ids: seq<int>, recs: Records, phases: Phases) {
    Consistent(ids, recs, phases) && forall id :: id in ids ==> id in phases
  }

  /** And with nothing being ended. */
  ghost predicate NothingEnding(ids: seq<int>, recs: Records, phases: Phases) {
    Known(ids, recs, phases) && forall id :: id in ids ==> PhaseOf(phases, id).life != Terminating
  }

  // --- sums ---

  lemma {:induction false} NoneGivenUp(ids: seq<int>, recs: Records, phases: Phases)
    requires forall i :: 0 <= i < |ids| ==> !GivenUp(recs, phases, ids[i])
    ensures SlotsGivenUp(ids, recs, phases) == 0
  {
    if |ids| > 0 {
      NoneGivenUp(ids[..|ids| - 1], recs, phases);
    }
  }

  /** With at most one instance given up, its slots are the sum. */
  lemma {:induction false} OneGivenUp(ids: seq<int>, recs: Records, phases: Phases) returns (k: nat)
    requires forall i, j :: 0 <= i < j < |ids| ==> !(GivenUp(recs, phases, ids[i]) && GivenUp(recs, phases, ids[j]))
    ensures SlotsGivenUp(ids, recs, phases) == 0
            || (k < |ids| && GivenUp(recs, phases, ids[k]) && SlotsGivenUp(ids, recs, phases) == Slots(recs[ids[k]]))
  {
    k := 0;
    if |ids| > 0 {
      var n := |ids| - 1;
      if GivenUp(recs, phases, ids[n]) {
        NoneGivenUp(ids[..n], recs, phases);
        k := n;
      } else {
        k := OneGivenUp(ids[..n], recs, phases);
      }
    }
  }

  lemma {:induction false} SomeGivenUp(ids: seq<int>, recs: Records, phases: Phases, a: int)
    requires a in ids && GivenUp(recs, phases, a)
    ensures SlotsGivenUp(ids, recs, phases) >= Slots(recs[a])
  {
    var n := |ids| - 1;
    assert ids == ids[..n] + [ids[n]];
    if ids[n] != a {
      SomeGivenUp(ids[..n], recs, phases, a);
    }
  }

  lemma {:induction false} TwoGivenUp(ids: seq<int>, recs: Records, phases: Phases, a: int, b: int)
    requires a in ids && b in ids && a != b && GivenUp(recs, phases, a) && GivenUp(recs, phases, b)
    ensures SlotsGivenUp(ids, recs, phases) >= Slots(recs[a]) + Slots(recs[b])
  {
    hide GivenUp;
    var n := |ids| - 1;
    assert ids == ids[..n] + [ids[n]];
    if ids[n] == a {
      SomeGivenUp(ids[..n], recs, phases, b);
    } else if ids[n] == b {
      SomeGivenUp(ids[..n], recs, phases, a);
    } else {
      TwoGivenUp(ids[..n], recs, phases, a, b);
    }
  }

  lemma {:induction false} PairIn(s: set<int>, a: int, b: int)
    requires a in s && b in s && a != b
    ensures |s| >= 2
  {
    assert {a, b} <= s;
    assert |s - {a, b}| == |s| - 2;
  }

  lemma {:induction false} TripleIn(s: set<int>, a: int, b: int, c: int)
    requires a in s && b in s && c in s && a != b && a != c && b != c
    ensures |s| >= 3
  {
    assert {a, b, c} <= s;
    assert |s - {a, b, c}| == |s| - 3;
  }

  // --- when it is kept ---

  /** What a pass gives up is idle, and its slots alone would leave the headroom. */
  lemma {:induction false} GivenUpIsIdle(ids: seq<int>, k: nat, recs: Records, phases: Phases, needed: nat, inFlight: bool)
    requires NothingEnding(ids, recs, phases) && k < |ids|
    requires GivenUp(recs, Pass(ids, recs, phases, needed, inFlight).phases, ids[k])
    ensures ids[k] in Idle(ids, recs) && ids[k] in Polled(ids, recs)
    ensures Slots(recs[ids[k]]) + needed <= FreeSlots(ids, recs)
  {
    hide Pass, Scan, FreeSlots, NumRoutable;
    assert ids[k] in ids;
    PassExactly(ids, k, recs, phases, needed, inFlight);
  }

  lemma {:induction false} FewKeep(ids: seq<int>, recs: Records, phases: Phases, needed: nat, inFlight: bool)
    requires NothingEnding(ids, recs, phases) && (forall id :: id in recs && recs[id].seen ==> ValidPort(recs[id].port))
    requires |Polled(ids, recs)| <= 2 || |Idle(ids, recs)| <= 1
    ensures HeadroomKept(ids, recs, Pass(ids, recs, phases, needed, inFlight).phases, needed)
  {
    hide Pass, Scan, FreeSlots, NumRoutable, Polled, Idle, GivenUp;
    var after := Pass(ids, recs, phases, needed, inFlight).phases;
    forall i, j | 0 <= i < j < |ids| ensures !(GivenUp(recs, after, ids[i]) && GivenUp(recs, after, ids[j])) {
      if GivenUp(recs, after, ids[i]) && GivenUp(recs, after, ids[j]) {
        GivenUpIsIdle(ids, i, recs, phases, needed, inFlight);
        GivenUpIsIdle(ids, j, recs, phases, needed, inFlight);
        PairIn(Idle(ids, recs), ids[i], ids[j]);
        var c := SomeActivePolled(ids, i, recs, phases, needed, inFlight);
        NotBoth(recs, after, c, ids[i]);
        NotBoth(recs, after, c, ids[j]);
        TripleIn(Polled(ids, recs), ids[i], ids[j], c);
        assert false;
      }
    }
    var k := OneGivenUp(ids, recs, after);
    if SlotsGivenUp(ids, recs, after) > 0 {
      GivenUpIsIdle(ids, k, recs, phases, needed, inFlight);
    }
  }

  lemma {:induction false} NotBoth(recs: Records, phases: Phases, a: int, b: int)
    requires IsActive(recs, phases, a) && GivenUp(recs, phases, b)
    ensures a != b
  {
  }

  lemma {:induction false} SomeActivePolled(ids: seq<int>, k: nat, recs: Records, phases: Phases, needed: nat, inFlight: bool)
    returns (c: int)
    requires NothingEnding(ids, recs, phases) && (forall id :: id in recs && recs[id].seen ==> ValidPort(recs[id].port))
    requires k < |ids| && ids[k] in Polled(ids, recs)
    ensures c in Polled(ids, recs) && IsActive(recs, Pass(ids, recs, phases, needed, inFlight).phases, c)
  {
    hide Pass, Scan, FreeSlots, NumRoutable;
    assert Eligible(recs, phases, ids[k]);
    PassLeavesActive(ids, recs, phases, needed, inFlight);
    PassConsistent(ids, recs, phases, needed, inFlight);
    var after := Pass(ids, recs, phases, needed, inFlight).phases;
    var i :| 0 <= i < |ids| && IsActive(recs, after, ids[i]);
    assert SeenWhenUp(recs, after, ids[i]);
    c := ids[i];
  }

  // --- when it is not ---

  /** Every polled instance active, the others warming. */
  function AllActive(ids: seq<int>, recs: Records): Phases {
    map id | id in ids :: Phase(if IsRunning(recs, id) && recs[id].seen then Active else Warming, 0)
  }

  lemma {:induction false} PolledAreActive(ids: seq<int>, recs: Records, phases: Phases)
    requires forall i :: 0 <= i < |ids| ==> (ids[i] in Polled(ids, recs) ==> IsActive(recs, phases, ids[i]))
    ensures NumActive(ids, recs, phases) >= |Polled(ids, recs)|
  {
    if |ids| > 0 {
      var n := |ids| - 1;
      assert ids == ids[..n] + [ids[n]];
      forall i | 0 <= i < n && ids[..n][i] in Polled(ids[..n], recs) ensures IsActive(recs, phases, ids[..n][i]) {
        assert ids[i] in Polled(ids, recs);
      }
      PolledAreActive(ids[..n], recs, phases);
      var rest, all := Polled(ids[..n], recs), Polled(ids, recs);
      assert all == if IsRunning(recs, ids[n]) && recs[ids[n]].seen then rest + {ids[n]} else rest;
    } else {
      assert Polled(ids, recs) == {};
    }
  }

  /** Idle instances with at most that many slots. */
  predicate Low(ids: seq<int>, recs: Records, most: nat, id: int) {
    id in Idle(ids, recs) && Slots(recs[id]) <= most
  }

  /** While fewer than two have been drained, the counter lets every low instance drain. */
  lemma {:induction false} LowDrain(ids: seq<int>, k: nat, recs: Records, needed: nat, active: int) returns (d: set<int>)
    requires Distinct(ids) && k <= |ids| && active >= 3 && needed <= FreeSlots(ids, recs)
    ensures var acc, most := Scan(ids[..k], recs, AllActive(ids, recs), FreeSlots(ids, recs), needed, false, active),
                             FreeSlots(ids, recs) - needed;
            && |d| <= 2 && (forall id :: id in d ==> id in ids[..k] && Low(ids, recs, most, id) && GivenUp(recs, acc.phases, id))
            && (|d| < 2 ==> acc.active + |d| >= 3 && forall id :: id in ids[..k] && Low(ids, recs, most, id) ==> id in d)
  {
    hide FreeSlots;
    var free, phases := FreeSlots(ids, recs), AllActive(ids, recs);
    if k == 0 {
      d := {};
    } else {
      d := LowDrain(ids, k - 1, recs, needed, active);
      assert ids[..k][..k - 1] == ids[..k - 1] && ids[..k] == ids[..k - 1] + [ids[k - 1]];
      var acc := Scan(ids[..k - 1], recs, phases, free, needed, false, active);
      ScanTouches(ids[..k - 1], recs, phases, free, needed, false, active, ids[k - 1]);
      LowTurn(ids, acc, ids[k - 1], recs, needed);
      if |d| < 2 && Low(ids, recs, free - needed, ids[k - 1]) {
        d := d + {ids[k - 1]};
      }
    }
  }

  /** One turn of that scan. */
  lemma {:induction false} LowTurn(ids: seq<int>, acc: Acc, id: int, recs: Records, needed: nat)
    requires id in ids && PhaseOf(acc.phases, id) == AllActive(ids, recs)[id] && needed <= FreeSlots(ids, recs)
    ensures var next := ScanOne(acc, id, recs, FreeSlots(ids, recs), needed, false);
            && (forall x :: x != id ==> GivenUp(recs, next.phases, x) == GivenUp(recs, acc.phases, x))
            && (acc.active > 1 && Low(ids, recs, FreeSlots(ids, recs) - needed, id) ==>
                  GivenUp(recs, next.phases, id) && next.active == acc.active - 1)
            && (!Low(ids, recs, FreeSlots(ids, recs) - needed, id) ==> next.active == acc.active)
  {
    hide FreeSlots;
  }

  /** The instance with the fewest slots. */
  lemma {:induction false} Fewest(s: set<int>, recs: Records) returns (m: int)
    requires s != {} && forall id :: id in s ==> id in recs
    ensures m in s && forall id :: id in s ==> Slots(recs[m]) <= Slots(recs[id])
  {
    hide Slots;
    SomeInt(s);
    m :| m in s;
    var rest := s - {m};
    if rest != {} {
      var r := Fewest(rest, recs);
      if Slots(recs[r]) < Slots(recs[m]) {
        m := r;
      }
    }
  }

  /** Three polled instances, two of them idle: some headroom is given away, the one that each of the two
      smallest idle ones alone would leave. */
  lemma {:induction false} TwoIdleSpend(ids: seq<int>, recs: Records) returns (needed: nat)
    requires Distinct(ids) && (forall id :: id in recs && recs[id].seen ==> ValidPort(recs[id].port))
    requires |Polled(ids, recs)| >= 3 && |Idle(ids, recs)| >= 2
    ensures var phases := AllActive(ids, recs);
            NothingEnding(ids, recs, phases) && !HeadroomKept(ids, recs, Pass(ids, recs, phases, needed, false).phases, needed)
  {
    hide FreeSlots, Scan, NumActive, NumRoutable, Slots, Polled, GivenUp, SlotsGivenUp;
    var idle, phases := Idle(ids, recs), AllActive(ids, recs);
    var i := Fewest(idle, recs);
    assert |idle - {i}| == |idle| - 1;
    var j := Fewest(idle - {i}, recs);
    needed := FreeSlots(ids, recs) - Slots(recs[j]);
    var active := ManyActive(ids, recs);
    assert ids[..|ids|] == ids;
    var d := LowDrain(ids, |ids|, recs, needed, active);
    if |d| < 2 {
      PairIn(d, i, j);
      assert false;
    }
    var a, b := TwoOf(d, i);
    TwoGivenUp(ids, recs, Pass(ids, recs, phases, needed, false).phases, a, b);
  }

  /** The count with which a pass over them starts. */
  lemma {:induction false} ManyActive(ids: seq<int>, recs: Records) returns (active: nat)
    requires Distinct(ids) && (forall id :: id in recs && recs[id].seen ==> ValidPort(recs[id].port))
    requires |Polled(ids, recs)| >= 3
    ensures NothingEnding(ids, recs, AllActive(ids, recs))
    ensures active == Sat16(NumRoutable(ids, recs, AllActive(ids, recs))) && active >= 3
  {
    hide NumActive, NumRoutable;
    var phases := AllActive(ids, recs);
    active := Sat16(NumRoutable(ids, recs, phases));
    RoutableIsActive(ids, recs, phases);
    PolledAreActive(ids, recs, phases);
  }

  /** Two members, the second not i. */
  lemma {:induction false} TwoOf(d: set<int>, i: int) returns (a: int, b: int)
    requires |d| >= 2
    ensures a in d && b in d && a != b && b != i
  {
    var s := d - {i};
    assert |s| >= 1;
    SomeInt(s);
    b :| b in s;
    var t := d - {b};
    assert |t| == |d| - 1;
    SomeInt(t);
    a :| a in t;
  }

  /** Whatever the lifecycles, the needed headroom and the launch flag: passes keep the headroom if and only
      if at most two instances are polled or at most one of them is idle. */
  lemma {:induction false} HeadroomExact(ids: seq<int>, recs: Records)
    requires Distinct(ids) && forall id :: id in recs && recs[id].seen ==> ValidPort(recs[id].port)
    ensures (forall phases, needed: nat, inFlight :: NothingEnding(ids, recs, phases) ==>
               HeadroomKept(ids, recs, Pass(ids, recs, phases, needed, inFlight).phases, needed))
            <==> |Polled(ids, recs)| <= 2 || |Idle(ids, recs)| <= 1
  {
    hide HeadroomKept, Pass, Polled, Idle, NothingEnding;
    if |Polled(ids, recs)| <= 2 || |Idle(ids, recs)| <= 1 {
      forall phases, needed: nat, inFlight | NothingEnding(ids, recs, phases)
        ensures HeadroomKept(ids, recs, Pass(ids, recs, phases, needed, inFlight).phases, needed)
      {
        FewKeep(ids, recs, phases, needed, inFlight);
      }
    } else {
      var needed := TwoIdleSpend(ids, recs);
      var phases := AllActive(ids, recs);
      assert NothingEnding(ids, recs, phases);
      assert !HeadroomKept(ids, recs, Pass(ids, recs, phases, needed, false).phases, needed);
    }
  }

  /** The slots of an instance being ended count as free until it is gone, so with one around the headroom
      can be lost whatever else there is: passes over all lifecycles keep it only if nothing is polled. */
  lemma {:induction false} HeadroomWhileEnding(ids: seq<int>, recs: Records)
    requires Distinct(ids) && forall id :: id in recs && recs[id].seen ==> ValidPort(recs[id].port)
    ensures (forall phases, needed: nat, inFlight :: Known(ids, recs, phases) ==>
               HeadroomKept(ids, recs, Pass(ids, recs, phases, needed, inFlight).phases, needed))
            <==> Polled(ids, recs) == {}
  {
    hide Pass, FreeSlots, Scan, SlotsGivenUp, Known, NumRoutable;
    if Polled(ids, recs) == {} {
      forall phases, needed: nat, inFlight | Known(ids, recs, phases)
        ensures HeadroomKept(ids, recs, Pass(ids, recs, phases, needed, inFlight).phases, needed)
      {
        NothingPolled(ids, recs, phases, needed, inFlight);
      }
    } else {
      SomeInt(Polled(ids, recs));
      var x: int :| x in Polled(ids, recs);
      var phases, needed := map id | id in ids :: Phase(if id == x then Terminating else Warming, 0), FreeSlots(ids, recs);
      assert Known(ids, recs, phases) by { OneEnding(ids, recs, x, phases); }
      EndingStays(ids, recs, x, phases, needed);
      var after := Pass(ids, recs, phases, needed, false).phases;
      SomeGivenUp(ids, recs, after, x);
      assert !HeadroomKept(ids, recs, after, needed);
    }
  }

  lemma {:induction false} OneEnding(ids: seq<int>, recs: Records, x: int, phases: Phases)
    requires Distinct(ids) && (forall id :: id in recs && recs[id].seen ==> ValidPort(recs[id].port))
    requires x in Polled(ids, recs)
    requires phases == map id | id in ids :: Phase(if id == x then Terminating else Warming, 0)
    ensures Known(ids, recs, phases)
  {
  }

  lemma {:induction false} EndingStays(ids: seq<int>, recs: Records, x: int, phases: Phases, needed: nat)
    requires Known(ids, recs, phases) && x in ids && IsRunning(recs, x) && PhaseOf(phases, x).life == Terminating
    ensures GivenUp(recs, Pass(ids, recs, phases, needed, false).phases, x)
  {
    hide FreeSlots, Scan, NumRoutable, SeenWhenUp;
    PassPhases(ids, recs, phases, FreeSlots(ids, recs), needed, false, Sat16(NumRoutable(ids, recs, phases)));
  }

  lemma {:induction false} NothingPolled(ids: seq<int>, recs: Records, phases: Phases, needed: nat, inFlight: bool)
    requires Known(ids, recs, phases) && Polled(ids, recs) == {}
    requires forall id :: id in recs && recs[id].seen ==> ValidPort(recs[id].port)
    ensures SlotsGivenUp(ids, recs, Pass(ids, recs, phases, needed, inFlight).phases) == 0
  {
    hide Pass, FreeSlots, NumRoutable;
    var after := Pass(ids, recs, phases, needed, inFlight).phases;
    PassConsistent(ids, recs, phases, needed, inFlight);
    forall i | 0 <= i < |ids| ensures !GivenUp(recs, after, ids[i]) {
      assert SeenWhenUp(recs, after, ids[i]) && ids[i] !in Polled(ids, recs);
    }
    NoneGivenUp(ids, recs, after);
  }

  // --- what it means for players ---

  /** Slots open on the running instances that are not given up. */
  function OpenSlots(ids: seq<int>, recs: Records, phases: Phases): int {
    if |ids| == 0 then 0
    else
      var n := |ids| - 1;
      OpenSlots(ids[..n], recs, phases)
      + if IsRunning(recs, ids[n]) && !GivenUp(recs, phases, ids[n]) then recs[ids[n]].maxPlayers - recs[ids[n]].players else 0
  }

  lemma {:induction false} OpenPlusGivenUp(ids: seq<int>, recs: Records, phases: Phases)
    ensures OpenSlots(ids, recs, phases) + SlotsGivenUp(ids, recs, phases) >= SumMaxUsers(ids, recs) - SumUsers(ids, recs)
  {
    if |ids| > 0 {
      OpenPlusGivenUp(ids[..|ids| - 1], recs, phases);
    }
  }

  /** Headroom kept in the pass's own count is kept in open slots. */
  lemma {:induction false} KeptIsOpen(ids: seq<int>, recs: Records, after: Phases, needed: nat)
    requires HeadroomKept(ids, recs, after, needed) && SlotsGivenUp(ids, recs, after) > 0
    ensures OpenSlots(ids, recs, after) >= needed
  {
    hide SlotsGivenUp, OpenSlots, SumMaxUsers, SumUsers;
    OpenPlusGivenUp(ids, recs, after);
  }

  const EMPTY_EIGHT: Instance := Instance(true, true, 0, 8, 26000)

  /** One turn of the scan at such an instance, eight of 24 slots going and ten needed. */
  lemma {:induction false} EightTurn(acc: Acc, id: int, recs: Records)
    requires id in recs && recs[id] == EMPTY_EIGHT && PhaseOf(acc.phases, id) == Phase(Active, 0)
    ensures ScanOne(acc, id, recs, 24, 10, false) ==
            if acc.active > 1 then acc.(phases := acc.phases[id := Phase(Draining, 1)], active := acc.active - 1)
            else acc.(phases := acc.phases[id := Phase(Active, 0)])
  {
  }

  lemma {:induction false} ScanMore(
      ids: seq<int>, id: int, recs: Records, phases: Phases, free: nat, needed: nat, inFlight: bool, active: int)
    ensures Scan(ids + [id], recs, phases, free, needed, inFlight, active) ==
            ScanOne(Scan(ids, recs, phases, free, needed, inFlight, active), id, recs, free, needed, inFlight)
    ensures Scan([], recs, phases, free, needed, inFlight, active) == Acc(phases, active, None)
  {
    hide ScanOne;
    assert (ids + [id])[..|ids|] == ids;
  }

  /** Three empty instances of eight slots, ten needed: a pass drains two and leaves eight open. */
  lemma {:induction false} HeadroomSpent()
    ensures var ids, recs := [0, 1, 2], map[0 := EMPTY_EIGHT, 1 := EMPTY_EIGHT, 2 := EMPTY_EIGHT];
            var phases := map[0 := Phase(Active, 0), 1 := Phase(Active, 0), 2 := Phase(Active, 0)];
            var after := Pass(ids, recs, phases, 10, false).phases;
            && FreeSlots(ids, recs) == 24
            && after == map[0 := Phase(Draining, 1), 1 := Phase(Draining, 1), 2 := Phase(Active, 0)]
            && OpenSlots(ids, recs, after) == 8
  {
    hide Scan, ScanOne, SumUsers, SumMaxUsers, NumRoutable, OpenSlots;
    var ids, recs := [0, 1, 2], map[0 := EMPTY_EIGHT, 1 := EMPTY_EIGHT, 2 := EMPTY_EIGHT];
    var phases := map[0 := Phase(Active, 0), 1 := Phase(Active, 0), 2 := Phase(Active, 0)];
    assert [] + [0] == [0] && [0] + [1] == [0, 1] && [0, 1] + [2] == ids;
    SumsOfThree(recs, phases);
    ScanMore([], 0, recs, phases, 24, 10, false, 3);
    ScanMore([0], 1, recs, phases, 24, 10, false, 3);
    ScanMore([0, 1], 2, recs, phases, 24, 10, false, 3);
    EightTurn(Acc(phases, 3, None), 0, recs);
    EightTurn(Scan([0], recs, phases, 24, 10, false, 3), 1, recs);
    EightTurn(Scan([0, 1], recs, phases, 24, 10, false, 3), 2, recs);
    SumsOfThree(recs, Pass(ids, recs, phases, 10, false).phases);
  }

  /** Free and open slots of three such instances. */
  lemma {:induction false} SumsOfThree(recs: Records, phases: Phases)
    requires recs == map[0 := EMPTY_EIGHT, 1 := EMPTY_EIGHT, 2 := EMPTY_EIGHT]
    requires PhaseOf(phases, 2) == Phase(Active, 0) && phases.Keys == {0, 1, 2}
    ensures FreeSlots([0, 1, 2], recs) == 24
    ensures PhaseOf(phases, 0).life == Active && PhaseOf(phases, 1).life == Active ==> NumRoutable([0, 1, 2], recs, phases) == 3
    ensures PhaseOf(phases, 0).life == Draining && PhaseOf(phases, 1).life == Draining ==> OpenSlots([0, 1, 2], recs, phases) == 8
  {
    assert SumUsers([], recs) == SumMaxUsers([], recs) == NumRoutable([], recs, phases) == OpenSlots([], recs, phases) == 0;
    hide SumUsers, SumMaxUsers, NumRoutable, OpenSlots;
    OneMore([], 0, recs, phases);
    OneMore([0], 1, recs, phases);
    OneMore([0, 1], 2, recs, phases);
    assert [] + [0] == [0] && [0] + [1] == [0, 1] && [0, 1] + [2] == [0, 1, 2];
  }

  lemma {:induction false} OneMore(ids: seq<int>, id: int, recs: Records, phases: Phases)
    ensures SumUsers(ids + [id], recs) == SumUsers(ids, recs) + if IsRunning(recs, id) then recs[id].players else 0
    ensures SumMaxUsers(ids + [id], recs) == SumMaxUsers(ids, recs) + if IsRunning(recs, id) then recs[id].maxPlayers else 0
    ensures NumRoutable(ids + [id], recs, phases) ==
            NumRoutable(ids, recs, phases) + if IsRoutable(recs, phases, id, false) then 1 else 0
    ensures OpenSlots(ids + [id], recs, phases) ==
            OpenSlots(ids, recs, phases)
            + if IsRunning(recs, id) && !GivenUp(recs, phases, id) then recs[id].maxPlayers - recs[id].players else 0
  {
    assert (ids + [id])[..|ids|] == ids;
  }
}
