/** What holds over every run of the autoscaler. */
module AutoscaleRuns {
  import opened Common
  import opened Autoscale
  import opened AutoscaleSystem

  /** The world after a run from time `clock`; an event that cannot happen changes nothing. */
  function After(clock: int, events: seq<Event>, maxInstances: int): World {
    if |events| == 0 then Start(clock)
    else
      var w, e := After(clock, events[..|events| - 1], maxInstances), events[|events| - 1];
      if Enabled(w, e) then Next(w, e, maxInstances) else w
  }

  lemma {:induction false} RunHolds(clock: int, events: seq<Event>, maxInstances: int)
    ensures Inv(After(clock, events, maxInstances))
    ensures maxInstances <= 0xffff ==> UnderCap(After(clock, events, maxInstances), maxInstances)
  {
    assert Inv(Start(clock)) && UnderCap(Start(clock), maxInstances);
    hide Inv, Next, Enabled, UnderCap;
    if |events| > 0 {
      var w, e := After(clock, events[..|events| - 1], maxInstances), events[|events| - 1];
      RunHolds(clock, events[..|events| - 1], maxInstances);
      if Enabled(w, e) {
        StepKeeps(w, e, maxInstances);
      }
    }
  }

  /** When launches have succeeded, read off the run: the ends of started ones. */
  function Successes(clock: int, events: seq<Event>, maxInstances: int): seq<int> {
    if |events| == 0 then []
    else
      var w, e := After(clock, events[..|events| - 1], maxInstances), events[|events| - 1];
      Successes(clock, events[..|events| - 1], maxInstances)
      + if e.Finish? && Enabled(w, e) && w.launches[e.k].Started? then [e.at] else []
  }

  lemma {:induction false} UpsAreSuccesses(clock: int, events: seq<Event>, maxInstances: int)
    ensures After(clock, events, maxInstances).ups == Successes(clock, events, maxInstances)
  {
    hide Next, Enabled;
    if |events| > 0 {
      var before, e := events[..|events| - 1], events[|events| - 1];
      UpsAreSuccesses(clock, before, maxInstances);
      assert Successes(clock, before, maxInstances) + [] == Successes(clock, before, maxInstances);
      if Enabled(After(clock, before, maxInstances), e) {
        UpsStep(After(clock, before, maxInstances), e, maxInstances);
      }
    }
  }

  lemma {:induction false} UpsStep(w: World, e: Event, maxInstances: int)
    requires Enabled(w, e)
    ensures e.Finish? ==> e.k < |w.launches|
    ensures Next(w, e, maxInstances).ups == w.ups + if e.Finish? && w.launches[e.k].Started? then [e.at] else []
  {
    hide Pass, NumRunning, Without, WantsReplica;
    assert w.ups + [] == w.ups;
  }

  /** In every run at most one launch is in flight, as the flag says, successful launches lie thirty seconds
      apart, and with a cap that fits uint16 the running instances and the launch stay within it. */
  lemma {:induction false} CapOverRuns(clock: int, events: seq<Event>, maxInstances: int)
    ensures var w, ups := After(clock, events, maxInstances), Successes(clock, events, maxInstances);
            && |w.launches| <= 1 && (w.inFlight <==> |w.launches| == 1)
            && (forall i, j :: 0 <= i < |ups| && j == i + 1 && j < |ups| ==> ups[j] - ups[i] >= 30_000_000_000)
            && (maxInstances <= 0xffff ==>
                  NumRunning(w.ids, w.recs) + Pending(w) <= if maxInstances > 1 then maxInstances else 1)
  {
    hide Registry, NumRunning;
    RunHolds(clock, events, maxInstances);
    UpsAreSuccesses(clock, events, maxInstances);
  }

  /** In any run a pass starts a launch if and only if none is in flight, some capacity is known, the slots
      left free are fewer than needed, the running instances are below the cap, all three counted up to 65535,
      and the last successful launch is thirty seconds back. */
  lemma {:induction false} LaunchExactly(clock: int, events: seq<Event>, maxInstances: int, now: int, at: int, needed: nat)
    requires Enabled(After(clock, events, maxInstances), Tick(now, at, needed))
    ensures var w, w' := After(clock, events, maxInstances), After(clock, events + [Tick(now, at, needed)], maxInstances);
            var ups, all, taken, running :=
              Successes(clock, events, maxInstances), SumMaxUsers(w.ids, w.recs), SumUsers(w.ids, w.recs), NumRunning(w.ids, w.recs);
            var slots := if all < 65535 then all else 65535;
            var users := if taken < 65535 then taken else 65535;
            var free := if slots > users then slots - users else 0;
            var asks :=
              && |w.launches| == 0 && slots > 0 && free < needed
              && (if running < 65535 then running else 65535) < (if maxInstances > 1 then maxInstances else 1)
              && (|ups| > 0 ==> now - ups[|ups| - 1] >= 30_000_000_000);
            w'.launches == w.launches + if asks then [Asked(now)] else []
  {
    hide Pass, NumRunning, SumUsers, SumMaxUsers, After, Registry;
    RunHolds(clock, events, maxInstances);
    UpsAreSuccesses(clock, events, maxInstances);
    AfterOne(clock, events, Tick(now, at, needed), maxInstances);
  }

  /** What a started replica, the end of a launch and the end of a stop leave behind. */
  lemma {:induction false} LaunchOutcome(w: World, k: nat, ok: bool, maxInstances: int)
    requires Inv(w) && Enabled(w, StartDone(k, ok))
    ensures var w', l := Next(w, StartDone(k, ok), maxInstances), w.launches[k];
            && w'.ids == w.ids && w'.launches == [if ok then Started(l.asked, l.id) else Refused(l.asked, l.id)]
            && (IsRunning(w'.recs, l.id) <==> ok) && PhaseOf(w'.phases, l.id) == Phase(Warming, 0)
            && (ok ==> !w'.recs[l.id].seen && w'.recs[l.id].port == w.recs[l.id].port)
            && forall x :: x != l.id ==> PhaseOf(w'.phases, x) == PhaseOf(w.phases, x)
                                         && (x in w'.recs <==> x in w.recs) && (x in w.recs ==> w'.recs[x] == w.recs[x])
  {
    hide NumRunning;
    assert SeenWhenUp(w.recs, w.phases, w.launches[k].id);
  }

  /** A registered replica is a new last instance that does not run yet. */
  lemma {:induction false} RegisterOutcome(w: World, k: nat, newId: int, maxInstances: int)
    requires Inv(w) && Enabled(w, Register(k, newId))
    ensures var w' := Next(w, Register(k, newId), maxInstances);
            && newId !in w.ids && w'.ids == w.ids + [newId] && w'.inFlight
            && w'.launches == [Registered(w.launches[k].asked, newId)]
            && w'.recs == w.recs[newId := Instance(false, false, 0, 0, 0)] && w'.phases == w.phases[newId := Phase(Warming, 0)]
  {
    hide NumRunning;
  }

  /** What the world outside does to one record: the first start, a port report, a poll reply, a crash. */
  lemma {:induction false} RecordOutcome(w: World, e: Event, maxInstances: int)
    requires Inv(w) && Enabled(w, e) && (e.Boot? || e.Resolve? || e.Poll? || e.Crash?)
    ensures var w', id := Next(w, e, maxInstances), if e.Boot? then 0 else e.id;
            && w'.ids == w.ids && id in w.recs && id in w'.recs && w'.recs == w.recs[id := w'.recs[id]] && w'.phases == w.phases
            && var rec, rec' := w.recs[id], w'.recs[id];
               match e
               case Boot(ok) => IsRunning(w'.recs, 0) == ok && (ok ==> !rec'.seen && rec'.port == rec.port)
               case Resolve(_, port) =>
                 rec' == rec.(port := if rec.port <= 0 && 1 <= port <= 65535 then port else rec.port)
               case Poll(_, players, maxPlayers) =>
                 rec' == rec.(seen := true, players := players, maxPlayers := maxPlayers)
               case Crash(_) => rec' == rec.(running := false)
  {
    hide NumRunning, Distinct;
    if e.Boot? {
      BootIsFirst(w);
    }
  }

  /** The configured instance before its first start. */
  lemma {:induction false} BootIsFirst(w: World)
    requires Inv(w) && w.booting
    ensures 0 in w.recs && !IsRunning(w.recs, 0) && w.phases[0 := Phase(Warming, 0)] == w.phases
  {
    NobodyRuns(w.ids, w.recs);
    assert SeenWhenUp(w.recs, w.phases, 0);
  }

  lemma {:induction false} FinishOutcome(w: World, k: nat, at: int, maxInstances: int)
    requires Inv(w) && Enabled(w, Finish(k, at))
    ensures var w', l := Next(w, Finish(k, at), maxInstances), w.launches[k];
            && !w'.inFlight && w'.launches == []
            && (if l.Started? then
                  w'.ids == w.ids && w'.recs == w.recs && w'.phases == w.phases && w'.lastUp == Some(at)
                else
                  Gone(w, w', l.id) && w'.lastUp == w.lastUp)
  {
    hide NumRunning;
    assert k == 0 && RemoveAt(w.launches, k) == [];
    WithoutMembers(w.ids, w.launches[k].id);
  }

  /** One instance is out of the registry, and nothing else has changed there. */
  ghost predicate Gone(w: World, w': World, id: int) {
    && (forall x :: x in w'.ids <==> x in w.ids && x != id)
    && (forall x :: x in w'.recs <==> x in w.recs && x != id) && (forall x :: x in w'.recs ==> w'.recs[x] == w.recs[x])
    && (forall x :: x in w'.phases <==> x in w.phases && x != id) && (forall x :: x in w'.phases ==> w'.phases[x] == w.phases[x])
  }

  /** A despawn removes its instance if the stop succeeds and makes it active again if not. */
  lemma {:induction false} StopOutcome(w: World, d: nat, ok: bool, maxInstances: int)
    requires Inv(w) && Enabled(w, StopDone(d, ok))
    ensures var w', id := Next(w, StopDone(d, ok), maxInstances), w.despawns[d].id;
            if ok then Gone(w, w', id)
            else w'.ids == w.ids && w'.recs == w.recs && w'.phases == w.phases[id := Phase(Active, 0)]
  {
    hide NumRunning;
    WithoutMembers(w.ids, w.despawns[d].id);
  }

  /** Before the stop: an instance that no longer runs warms up, the last running one stays active, any
      other is stopped. */
  lemma {:induction false} StopCheckOutcome(w: World, d: nat, maxInstances: int)
    requires Inv(w) && Enabled(w, StopCheck(d))
    ensures var w', id := Next(w, StopCheck(d), maxInstances), w.despawns[d].id;
            && w'.ids == w.ids && w'.recs == w.recs
            && (if IsRunning(w.recs, id) && NumRunning(w.ids, w.recs) >= 2 then
                  w'.phases == w.phases && w'.despawns == w.despawns[d := Despawn(id, true)]
                else
                  && w'.phases == w.phases[id := Phase(if IsRunning(w.recs, id) then Active else Warming, 0)]
                  && w'.despawns == w.despawns[..d] + w.despawns[d + 1..])
  {
    hide NumRunning;
  }

  // --- passes within runs ---

  /** After every pass of every run an instance is active, if an eligible one was there before it. */
  lemma {:induction false} RunLeavesActive(clock: int, events: seq<Event>, maxInstances: int, now: int, at: int, needed: nat)
    requires var w := After(clock, events, maxInstances);
             Enabled(w, Tick(now, at, needed)) && exists i :: 0 <= i < |w.ids| && Eligible(w.recs, w.phases, w.ids[i])
    ensures var w := After(clock, events + [Tick(now, at, needed)], maxInstances);
            exists i :: 0 <= i < |w.ids| && IsActive(w.recs, w.phases, w.ids[i])
  {
    hide Pass, After, NumRunning;
    var w := After(clock, events, maxInstances);
    RunHolds(clock, events, maxInstances);
    AfterOne(clock, events, Tick(now, at, needed), maxInstances);
    assert Consistent(w.ids, w.recs, w.phases);
    PassLeavesActive(w.ids, w.recs, w.phases, needed, w.inFlight);
  }

  lemma {:induction false} AfterOne(clock: int, events: seq<Event>, e: Event, maxInstances: int)
    ensures After(clock, events + [e], maxInstances) ==
            var w := After(clock, events, maxInstances); if Enabled(w, e) then Next(w, e, maxInstances) else w
  {
    assert (events + [e])[..|events|] == events;
  }

  // --- six drained passes before the end ---

  /** A pass looks at an instance that runs and is not being ended already. */
  predicate PassesOver(w: World, id: int) {
    id in w.ids && IsRunning(w.recs, id) && PhaseOf(w.phases, id).life != Terminating
  }

  /** The pass found it polled and empty, and left it draining or marked it for the end. */
  predicate FoundEmpty(w: World, w': World, id: int) {
    && id in w.recs && w.recs[id].seen && w.recs[id].players == 0
    && (PhaseOf(w'.phases, id).life == Draining || PhaseOf(w'.phases, id).life == Terminating)
  }

  /** How many of the latest passes over the instance, without a break, found it empty and drained it. */
  function DrainedPasses(clock: int, events: seq<Event>, maxInstances: int, id: int): nat {
    if |events| == 0 then 0
    else
      var before, e := events[..|events| - 1], events[|events| - 1];
      var w, w' := After(clock, before, maxInstances), After(clock, events, maxInstances);
      var n := DrainedPasses(clock, before, maxInstances, id);
      if e.Tick? && Enabled(w, e) && PassesOver(w, id) then (if FoundEmpty(w, w', id) then n + 1 else 0) else n
  }

  lemma {:induction false} StreakCounts(clock: int, events: seq<Event>, maxInstances: int, id: int)
    ensures PhaseOf(After(clock, events, maxInstances).phases, id).streak
            <= DrainedPasses(clock, events, maxInstances, id)
  {
    hide Next, Inv, NumRunning;
    if |events| > 0 {
      var before, e := events[..|events| - 1], events[|events| - 1];
      var w := After(clock, before, maxInstances);
      StreakCounts(clock, before, maxInstances, id);
      RunHolds(clock, before, maxInstances);
      if Enabled(w, e) {
        StreakStep(w, e, maxInstances, id);
      }
    }
  }

  /** Only a pass raises a streak, by one, and only for an instance it found empty. */
  lemma {:induction false} StreakStep(w: World, e: Event, maxInstances: int, id: int)
    requires Inv(w) && Enabled(w, e)
    ensures var w' := Next(w, e, maxInstances);
            var s, s' := PhaseOf(w.phases, id).streak, PhaseOf(w'.phases, id).streak;
            if e.Tick? && PassesOver(w, id) then s' == 0 || (FoundEmpty(w, w', id) && s' == s + 1)
            else s' <= s
  {
    hide NumRunning, FreeSlots, NumRoutable, Scan, Without;
    if e.Tick? {
      var active := Sat16(NumRoutable(w.ids, w.recs, w.phases));
      assert forall i :: 0 <= i < |w.ids| ==> SeenWhenUp(w.recs, w.phases, w.ids[i]);
      ScanPhase(w.ids, w.recs, w.phases, FreeSlots(w.ids, w.recs), e.needed, w.inFlight, active, id);
    }
  }

  /** The phase one turn gives the instance it is at. */
  lemma {:induction false} TurnPhase(acc: Acc, id: int, recs: Records, free: nat, needed: nat, inFlight: bool)
    ensures var p, q := PhaseOf(acc.phases, id), PhaseOf(ScanOne(acc, id, recs, free, needed, inFlight).phases, id);
            if IsRunning(recs, id) && p.life != Terminating then
              q.streak == 0 || (q == Phase(Draining, p.streak + 1) && recs[id].seen && recs[id].players == 0)
            else q == p
  {
  }

  lemma {:induction false} TurnElsewhere(acc: Acc, id: int, recs: Records, free: nat, needed: nat, inFlight: bool, x: int)
    requires x != id
    ensures PhaseOf(ScanOne(acc, id, recs, free, needed, inFlight).phases, x) == PhaseOf(acc.phases, x)
  {
  }

  /** The phase a scan gives one instance. */
  lemma {:induction false} ScanPhase(
      ids: seq<int>, recs: Records, phases: Phases, free: nat, needed: nat, inFlight: bool, active: int, id: int)
    requires Distinct(ids)
    ensures var p, q := PhaseOf(phases, id),
                        PhaseOf(Scan(ids, recs, phases, free, needed, inFlight, active).phases, id);
            if id in ids && IsRunning(recs, id) && p.life != Terminating then
              q.streak == 0 || (q == Phase(Draining, p.streak + 1) && recs[id].seen && recs[id].players == 0)
            else q == p
  {
    hide ScanOne, PhaseOf, IsRunning;
    if |ids| > 0 {
      var n := |ids| - 1;
      assert ids == ids[..n] + [ids[n]];
      var acc := Scan(ids[..n], recs, phases, free, needed, inFlight, active);
      if ids[n] == id {
        assert id !in ids[..n];
        ScanTouches(ids[..n], recs, phases, free, needed, inFlight, active, id);
        TurnPhase(acc, id, recs, free, needed, inFlight);
      } else {
        ScanPhase(ids[..n], recs, phases, free, needed, inFlight, active, id);
        TurnElsewhere(acc, ids[n], recs, free, needed, inFlight, id);
      }
    }
  }

  /** An instance is marked for the end only by a pass, only after six passes over it without a break
      found it empty, and another instance stays active. */
  lemma {:induction false} EndedAfterSix(clock: int, events: seq<Event>, e: Event, maxInstances: int, id: int)
    requires Ended(After(clock, events, maxInstances).phases, After(clock, events + [e], maxInstances).phases, id)
    ensures var w' := After(clock, events + [e], maxInstances);
            && e.Tick? && DrainedPasses(clock, events + [e], maxInstances, id) >= 6
            && exists i :: 0 <= i < |w'.ids| && w'.ids[i] != id && IsActive(w'.recs, w'.phases, w'.ids[i])
  {
    hide After, NumRunning, Without, Scan, FreeSlots, NumRoutable;
    var w := After(clock, events, maxInstances);
    AfterOne(clock, events, e, maxInstances);
    RunHolds(clock, events, maxInstances);
    StreakCounts(clock, events, maxInstances, id);
    OnlyPassesEnd(w, e, maxInstances, id);
    assert Consistent(w.ids, w.recs, w.phases);
    PassTerminates(w.ids, w.recs, w.phases, e.needed, w.inFlight);
    EndedListed(w, e.now, e.at, e.needed, maxInstances, id);
    assert (events + [e])[..|events|] == events;
  }

  lemma {:induction false} OnlyPassesEnd(w: World, e: Event, maxInstances: int, id: int)
    requires Enabled(w, e) && Ended(w.phases, Next(w, e, maxInstances).phases, id)
    ensures e.Tick?
  {
    hide Pass, NumRunning, Without, WantsReplica;
  }

  lemma {:induction false} EndedListed(w: World, now: int, at: int, needed: nat, maxInstances: int, id: int)
    requires Enabled(w, Tick(now, at, needed))
    requires Ended(w.phases, Next(w, Tick(now, at, needed), maxInstances).phases, id)
    ensures exists i :: 0 <= i < |w.ids| && w.ids[i] == id
  {
    if id !in w.ids {
      ScanTouches(w.ids, w.recs, w.phases, FreeSlots(w.ids, w.recs), needed, w.inFlight,
                  Sat16(NumRoutable(w.ids, w.recs, w.phases)), id);
    }
  }

  /** Active instances run, so one that runs and is not active comes on top of them. */
  lemma {:induction false} ActiveAndOneMore(ids: seq<int>, recs: Records, phases: Phases, id: int)
    ensures NumActive(ids, recs, phases) <= NumRunning(ids, recs)
    ensures id in ids && IsRunning(recs, id) && !IsActive(recs, phases, id) ==>
              NumActive(ids, recs, phases) + 1 <= NumRunning(ids, recs)
  {
    if |ids| > 0 {
      assert ids == ids[..|ids| - 1] + [ids[|ids| - 1]];
      ActiveAndOneMore(ids[..|ids| - 1], recs, phases, id);
    }
  }

  /** The point of the scan at which an instance is chosen. */
  lemma {:induction false} ChosenAt(
      ids: seq<int>, n: nat, recs: Records, phases: Phases, free: nat, needed: nat, inFlight: bool, active: int)
    returns (k: nat)
    requires n <= |ids| && Scan(ids[..n], recs, phases, free, needed, inFlight, active).despawn.Some?
    ensures k < n
    ensures Scan(ids[..k], recs, phases, free, needed, inFlight, active).despawn.None?
    ensures Scan(ids[..k + 1], recs, phases, free, needed, inFlight, active).despawn.Some?
  {
    hide ScanOne;
    k := n - 1;
    assert ids[..n][..k] == ids[..k];
    if Scan(ids[..k], recs, phases, free, needed, inFlight, active).despawn.Some? {
      k := ChosenAt(ids, k, recs, phases, free, needed, inFlight, active);
    }
  }

  /** The autoscaler ends an instance only while three or more run: two replicas, however idle, both stay. */
  lemma {:induction false} EndNeedsThree(clock: int, events: seq<Event>, e: Event, maxInstances: int, id: int)
    requires Ended(After(clock, events, maxInstances).phases, After(clock, events + [e], maxInstances).phases, id)
    ensures var w := After(clock, events, maxInstances); NumRunning(w.ids, w.recs) >= 3
  {
    hide After, NumRunning, NumActive, Without, Scan, FreeSlots, NumRoutable;
    var w := After(clock, events, maxInstances);
    AfterOne(clock, events, e, maxInstances);
    RunHolds(clock, events, maxInstances);
    OnlyPassesEnd(w, e, maxInstances, id);
    assert Consistent(w.ids, w.recs, w.phases);
    PassTerminates(w.ids, w.recs, w.phases, e.needed, w.inFlight);
    EndedListed(w, e.now, e.at, e.needed, maxInstances, id);
    PassNeedsThree(w.ids, w.recs, w.phases, e.needed, w.inFlight);
  }

  lemma {:induction false} PassNeedsThree(ids: seq<int>, recs: Records, phases: Phases, needed: nat, inFlight: bool)
    requires Consistent(ids, recs, phases) && Pass(ids, recs, phases, needed, inFlight).despawn.Some?
    ensures NumRunning(ids, recs) >= 3
  {
    hide NumRunning, NumActive, Scan, FreeSlots, NumRoutable;
    var free, active := FreeSlots(ids, recs), Sat16(NumRoutable(ids, recs, phases));
    PassCounter(ids, 0, recs, phases, needed, inFlight);
    assert ids[..|ids|] == ids;
    var k := ChosenAt(ids, |ids|, recs, phases, free, needed, inFlight, active);
    ChoiceMoment(ids, k, recs, phases, free, needed, inFlight, active);
    PassTerminates(ids, recs, phases, needed, inFlight);
    ChosenRuns(ids, k, recs, phases, free, needed, inFlight, active);
    ActiveAndOneMore(ids, recs, Scan(ids[..k], recs, phases, free, needed, inFlight, active).phases, ids[k]);
  }

  lemma {:induction false} ChosenRuns(
      ids: seq<int>, k: nat, recs: Records, phases: Phases, free: nat, needed: nat, inFlight: bool, active: int)
    requires k < |ids|
    requires Scan(ids[..k], recs, phases, free, needed, inFlight, active).despawn.None?
    requires Scan(ids[..k + 1], recs, phases, free, needed, inFlight, active).despawn.Some?
    ensures IsRunning(recs, ids[k])
  {
    assert ids[..k + 1][..k] == ids[..k];
  }
}
