/** Exactly when the autoscaler drains and ends an instance, and that an idle one with two busy others is
    ended within six passes. */
module AutoscaleEnd {
  import opened Common
  import opened Autoscale
  import opened AutoscaleSystem
  import opened AutoscaleRuns

  /** The scan of a pass when it comes to the k-th instance. */
  function Turn(ids: seq<int>, k: nat, recs: Records, phases: Phases, needed: nat, inFlight: bool): Acc
    requires k <= |ids|
  {
    Scan(ids[..k], recs, phases, FreeSlots(ids, recs), needed, inFlight, Sat16(NumRoutable(ids, recs, phases)))
  }

  /** What the scan asks of an instance to drain it: polled and empty, two active ones counted when its turn
      comes, its slots to spare, and with a launch in flight that it was draining before. */
  predicate Drains(ids: seq<int>, k: nat, recs: Records, phases: Phases, needed: nat, inFlight: bool)
    requires k < |ids|
  {
    var id := ids[k];
    && IsRunning(recs, id) && PhaseOf(phases, id).life != Terminating && recs[id].seen && recs[id].players == 0
    && Turn(ids, k, recs, phases, needed, inFlight).active >= 2
    && FreeSlots(ids, recs) - (if recs[id].maxPlayers > 1 then recs[id].maxPlayers else 1) >= needed
    && (inFlight ==> PhaseOf(phases, id).life == Draining)
  }

  /** The turns after an instance's own leave its lifecycle alone. */
  lemma {:induction false} LaterTurns(
      ids: seq<int>, k: nat, n: nat, recs: Records, phases: Phases, free: nat, needed: nat, inFlight: bool, active: int)
    requires Distinct(ids) && k < n <= |ids|
    ensures PhaseOf(Scan(ids[..n], recs, phases, free, needed, inFlight, active).phases, ids[k]) ==
            PhaseOf(Scan(ids[..k + 1], recs, phases, free, needed, inFlight, active).phases, ids[k])
    decreases n
  {
    if n > k + 1 {
      assert ids[..n][..n - 1] == ids[..n - 1];
      LaterTurns(ids, k, n - 1, recs, phases, free, needed, inFlight, active);
    }
  }

  /** What a pass does to its k-th instance is decided at its turn. */
  lemma {:induction false} DecidedAtTurn(ids: seq<int>, k: nat, recs: Records, phases: Phases, needed: nat, inFlight: bool)
    requires Distinct(ids) && k < |ids|
    ensures var turn := Turn(ids, k, recs, phases, needed, inFlight);
            var one := ScanOne(turn, ids[k], recs, FreeSlots(ids, recs), needed, inFlight);
            && PhaseOf(turn.phases, ids[k]) == PhaseOf(phases, ids[k])
            && PhaseOf(Pass(ids, recs, phases, needed, inFlight).phases, ids[k]) == PhaseOf(one.phases, ids[k])
  {
    hide ScanOne;
    var free, active := FreeSlots(ids, recs), Sat16(NumRoutable(ids, recs, phases));
    assert ids[..|ids|] == ids && ids[..k + 1][..k] == ids[..k];
    LaterTurns(ids, k, |ids|, recs, phases, free, needed, inFlight, active);
    ScanTouches(ids[..k], recs, phases, free, needed, inFlight, active, ids[k]);
  }

  /** What a pass makes of a running instance that is not being ended: warming until it has been polled;
      drained exactly when it is polled and empty and the guard holds at its turn, and ended exactly when, on
      top of that, five drained passes lie behind it and no instance has been chosen yet; active otherwise. */
  lemma {:induction false} PassExactly(ids: seq<int>, k: nat, recs: Records, phases: Phases, needed: nat, inFlight: bool)
    requires Consistent(ids, recs, phases) && k < |ids|
    requires IsRunning(recs, ids[k]) && PhaseOf(phases, ids[k]).life != Terminating
    ensures var before, after := PhaseOf(phases, ids[k]), PhaseOf(Pass(ids, recs, phases, needed, inFlight).phases, ids[k]);
            after ==
            if !recs[ids[k]].seen then Phase(Warming, 0)
            else if !Drains(ids, k, recs, phases, needed, inFlight) then Phase(Active, 0)
            else if before.streak >= 5 && Turn(ids, k, recs, phases, needed, inFlight).despawn.None? then Phase(Terminating, 0)
            else Phase(Draining, before.streak + 1)
  {
    hide Scan, Pass, FreeSlots, NumRoutable;
    DecidedAtTurn(ids, k, recs, phases, needed, inFlight);
  }

  /** And of the others: nothing. */
  lemma {:induction false} PassLeaves(ids: seq<int>, recs: Records, phases: Phases, needed: nat, inFlight: bool, id: int)
    requires Distinct(ids) && (id in ids && IsRunning(recs, id) ==> PhaseOf(phases, id).life == Terminating)
    ensures PhaseOf(Pass(ids, recs, phases, needed, inFlight).phases, id) == PhaseOf(phases, id)
  {
    hide Scan, FreeSlots, NumRoutable;
    ScanPhase(ids, recs, phases, FreeSlots(ids, recs), needed, inFlight, Sat16(NumRoutable(ids, recs, phases)), id);
  }

  /** A drained sixth pass ends some instance: this one, or one chosen before it. */
  lemma {:induction false} SixthPass(ids: seq<int>, k: nat, recs: Records, phases: Phases, needed: nat, inFlight: bool)
    requires Consistent(ids, recs, phases) && k < |ids| && Drains(ids, k, recs, phases, needed, inFlight)
    requires PhaseOf(phases, ids[k]).streak >= 5
    ensures var after := Pass(ids, recs, phases, needed, inFlight);
            after.despawn.Some? && Ended(phases, after.phases, after.despawn.value)
  {
    hide Scan, Pass, FreeSlots, NumRoutable, CanDrain;
    PassExactly(ids, k, recs, phases, needed, inFlight);
    PassTerminates(ids, recs, phases, needed, inFlight);
    if Turn(ids, k, recs, phases, needed, inFlight).despawn.Some? {
      ChoiceStays(ids, k, |ids|, recs, phases, needed, inFlight);
    }
  }

  lemma {:induction false} ChoiceStays(ids: seq<int>, k: nat, n: nat, recs: Records, phases: Phases, needed: nat, inFlight: bool)
    requires k <= n <= |ids| && Turn(ids, k, recs, phases, needed, inFlight).despawn.Some?
    ensures Turn(ids, n, recs, phases, needed, inFlight).despawn.Some?
    ensures n == |ids| ==> Turn(ids, n, recs, phases, needed, inFlight) == Pass(ids, recs, phases, needed, inFlight)
    decreases n
  {
    assert ids[..|ids|] == ids;
    if n > k {
      assert ids[..n][..n - 1] == ids[..n - 1];
      ChoiceStays(ids, k, n - 1, recs, phases, needed, inFlight);
    }
  }

  // --- six passes ---

  /** Passes in a run that took place. */
  function PassesIn(clock: int, events: seq<Event>, maxInstances: int): nat {
    if |events| == 0 then 0
    else
      var before, e := events[..|events| - 1], events[|events| - 1];
      PassesIn(clock, before, maxInstances)
      + if e.Tick? && Enabled(After(clock, before, maxInstances), e) then 1 else 0
  }

  /** A registered, running, polled and empty instance; if the event is a pass, the guard holds at its turn. */
  ghost predicate StaysIdle(w: World, e: Event, id: int) {
    && id in w.ids && IsRunning(w.recs, id) && w.recs[id].seen && w.recs[id].players == 0
    && (e.Tick? && Enabled(w, e) ==>
          exists k :: 0 <= k < |w.ids| && w.ids[k] == id && Drains(w.ids, k, w.recs, w.phases, e.needed, w.inFlight))
  }

  /** An event that ends some instance. */
  ghost predicate Ends(w: World, w': World) {
    exists id :: Ended(w.phases, w'.phases, id)
  }

  /** One event of a stretch in which the instance stays idle. */
  lemma {:induction false} IdleStep(w: World, e: Event, maxInstances: int, id: int)
    requires Inv(w) && Enabled(w, e) && StaysIdle(w, e, id) && PhaseOf(w.phases, id).life != Terminating
    ensures var w' := Next(w, e, maxInstances);
            var p, p' := PhaseOf(w.phases, id), PhaseOf(w'.phases, id);
            if e.Tick? then
              && (Ends(w, w') || (p'.life == Draining && p'.streak == p.streak + 1))
              && (p.streak >= 5 ==> Ends(w, w'))
            else p' == p
  {
    hide Pass, NumRunning, Drains, WantsReplica;
    if e.Tick? {
      var k :| 0 <= k < |w.ids| && w.ids[k] == id && Drains(w.ids, k, w.recs, w.phases, e.needed, w.inFlight);
      assert Consistent(w.ids, w.recs, w.phases);
      PassExactly(w.ids, k, w.recs, w.phases, e.needed, w.inFlight);
      if PhaseOf(w.phases, id).streak >= 5 {
        SixthPass(w.ids, k, w.recs, w.phases, e.needed, w.inFlight);
      }
    } else {
      OtherStep(w, e, maxInstances, id);
    }
  }

  lemma {:induction false} OtherStep(w: World, e: Event, maxInstances: int, id: int)
    requires Inv(w) && Enabled(w, e) && !e.Tick?
    requires id in w.ids && IsRunning(w.recs, id) && PhaseOf(w.phases, id).life != Terminating
    ensures PhaseOf(Next(w, e, maxInstances).phases, id) == PhaseOf(w.phases, id)
  {
    hide NumRunning, Without;
    if e.Boot? {
      NobodyRuns(w.ids, w.recs);
    }
  }

  /** After each event of such a stretch something has been ended, or the passes so far are at most five
      and the streak counts them. */
  lemma {:induction false} IdleStretch(clock: int, events: seq<Event>, more: seq<Event>, maxInstances: int, id: int)
    requires PhaseOf(After(clock, events, maxInstances).phases, id).life != Terminating
    requires forall k :: 0 <= k < |more| ==> IdleAt(clock, events, more, maxInstances, id, k)
    ensures var passes := PassesIn(clock, events + more, maxInstances) - PassesIn(clock, events, maxInstances);
            var p := PhaseOf(After(clock, events + more, maxInstances).phases, id);
            || (exists k :: 0 <= k < |more| && EndsAt(clock, events, more, maxInstances, k))
            || (p.life != Terminating && passes <= p.streak && passes < 6)
    decreases |more|
  {
    hide After, Inv, Next, Ended, Enabled, Ends, StaysIdle;
    if |more| == 0 {
      assert events + more == events;
    } else {
      var n := |more| - 1;
      var before, e := more[..n], more[n];
      forall k | 0 <= k < n ensures IdleAt(clock, events, before, maxInstances, id, k) {
        assert before[..k] == more[..k] && IdleAt(clock, events, more, maxInstances, id, k);
      }
      IdleStretch(clock, events, before, maxInstances, id);
      assert events + more == (events + before) + [e] && (events + more)[..|events + more| - 1] == events + before;
      if k :| 0 <= k < n && EndsAt(clock, events, before, maxInstances, k) {
        assert before[..k] == more[..k] && before[..k + 1] == more[..k + 1];
        assert EndsAt(clock, events, more, maxInstances, k);
      } else {
        var w := After(clock, events + before, maxInstances);
        RunHolds(clock, events + before, maxInstances);
        AfterOne(clock, events + before, e, maxInstances);
        assert IdleAt(clock, events, more, maxInstances, id, n);
        assert more[..n + 1] == more;
        if Enabled(w, e) {
          IdleStep(w, e, maxInstances, id);
          assert Ends(w, Next(w, e, maxInstances)) ==> EndsAt(clock, events, more, maxInstances, n);
        }
      }
    }
  }

  /** The instance is idle, unless it is being ended, when the k-th event of the stretch comes. */
  ghost predicate IdleAt(clock: int, events: seq<Event>, more: seq<Event>, maxInstances: int, id: int, k: nat)
    requires k < |more|
  {
    var w := After(clock, events + more[..k], maxInstances);
    PhaseOf(w.phases, id).life != Terminating ==> StaysIdle(w, more[k], id)
  }

  ghost predicate EndsAt(clock: int, events: seq<Event>, more: seq<Event>, maxInstances: int, k: nat)
    requires k < |more|
  {
    Ends(After(clock, events + more[..k], maxInstances), After(clock, events + more[..k + 1], maxInstances))
  }

  /** If an instance stays polled and empty over six passes and the guard holds at its turn in each, some
      instance is ended within them. */
  lemma {:induction false} SixPassesEnd(clock: int, events: seq<Event>, more: seq<Event>, maxInstances: int, id: int)
    requires PhaseOf(After(clock, events, maxInstances).phases, id).life != Terminating
    requires forall k :: 0 <= k < |more| ==> IdleAt(clock, events, more, maxInstances, id, k)
    requires PassesIn(clock, events + more, maxInstances) >= PassesIn(clock, events, maxInstances) + 6
    ensures exists k :: 0 <= k < |more| && EndsAt(clock, events, more, maxInstances, k)
  {
    hide After, IdleAt, EndsAt, PassesIn;
    IdleStretch(clock, events, more, maxInstances, id);
  }

  // --- when the guard holds ---

  predicate Busy(recs: Records, phases: Phases, id: int) {
    IsActive(recs, phases, id) && recs[id].seen && recs[id].players > 0
  }

  lemma {:induction false} BusyStays(
      ids: seq<int>, recs: Records, phases: Phases, free: nat, needed: nat, inFlight: bool, active: int, id: int)
    requires Busy(recs, phases, id)
    ensures Busy(recs, Scan(ids, recs, phases, free, needed, inFlight, active).phases, id)
  {
    if |ids| > 0 {
      BusyStays(ids[..|ids| - 1], recs, phases, free, needed, inFlight, active, id);
    }
  }

  lemma {:induction false} TwoActive(ids: seq<int>, recs: Records, phases: Phases, a: int, b: int)
    requires a in ids && b in ids && a != b && IsActive(recs, phases, a) && IsActive(recs, phases, b)
    ensures NumActive(ids, recs, phases) >= 2
  {
    var n := |ids| - 1;
    assert ids == ids[..n] + [ids[n]];
    if a in ids[..n] && b in ids[..n] {
      TwoActive(ids[..n], recs, phases, a, b);
    } else {
      var x := if a in ids[..n] then a else b;
      var i :| 0 <= i < n && ids[..n][i] == x;
      SomeActive(ids[..n], recs, phases);
    }
  }

  /** Two busy instances carry the scan's count, unless more than 65535 are active; then slots decide. */
  lemma {:induction false} TwoBusyDrain(
      ids: seq<int>, k: nat, recs: Records, phases: Phases, needed: nat, inFlight: bool, a: int, b: int)
    requires Consistent(ids, recs, phases) && k < |ids| && NumActive(ids, recs, phases) <= 0xffff
    requires a in ids && b in ids && a != b && Busy(recs, phases, a) && Busy(recs, phases, b)
    requires IsRunning(recs, ids[k]) && PhaseOf(phases, ids[k]).life != Terminating
    requires recs[ids[k]].seen && recs[ids[k]].players == 0
    ensures Drains(ids, k, recs, phases, needed, inFlight) <==>
            && FreeSlots(ids, recs) - Max(1, recs[ids[k]].maxPlayers) >= needed
            && (inFlight ==> PhaseOf(phases, ids[k]).life == Draining)
  {
    hide Scan, FreeSlots, NumActive, NumRoutable;
    var turn := Turn(ids, k, recs, phases, needed, inFlight);
    PassCounter(ids, k, recs, phases, needed, inFlight);
    var free, active := FreeSlots(ids, recs), Sat16(NumRoutable(ids, recs, phases));
    BusyStays(ids[..k], recs, phases, free, needed, inFlight, active, a);
    BusyStays(ids[..k], recs, phases, free, needed, inFlight, active, b);
    TwoActive(ids, recs, turn.phases, a, b);
    DecidedAtTurn(ids, k, recs, phases, needed, inFlight);
  }

  /** A surplus instance: polled and empty beside two busy ones, with slots to spare at every pass. */
  ghost predicate Surplus(w: World, e: Event, id: int) {
    && id in w.ids && IsRunning(w.recs, id) && w.recs[id].seen && w.recs[id].players == 0
    && (e.Tick? && Enabled(w, e) ==>
          && NumActive(w.ids, w.recs, w.phases) <= 0xffff
          && (exists a, b :: a in w.ids && b in w.ids && a != b
                && Busy(w.recs, w.phases, a) && Busy(w.recs, w.phases, b))
          && FreeSlots(w.ids, w.recs) - Max(1, w.recs[id].maxPlayers) >= e.needed
          && (w.inFlight ==> PhaseOf(w.phases, id).life == Draining))
  }

  ghost predicate SurplusAt(clock: int, events: seq<Event>, more: seq<Event>, maxInstances: int, id: int, k: nat)
    requires k < |more|
  {
    var w := After(clock, events + more[..k], maxInstances);
    PhaseOf(w.phases, id).life != Terminating ==> Surplus(w, more[k], id)
  }

  /** A surplus instance is ended within six passes, or another one is in its place. */
  lemma {:induction false} SurplusIsEnded(clock: int, events: seq<Event>, more: seq<Event>, maxInstances: int, id: int)
    requires PhaseOf(After(clock, events, maxInstances).phases, id).life != Terminating
    requires forall k :: 0 <= k < |more| ==> SurplusAt(clock, events, more, maxInstances, id, k)
    requires PassesIn(clock, events + more, maxInstances) >= PassesIn(clock, events, maxInstances) + 6
    ensures exists k :: 0 <= k < |more| && EndsAt(clock, events, more, maxInstances, k)
  {
    hide After, EndsAt, PassesIn, Inv, Surplus, StaysIdle;
    forall k | 0 <= k < |more| ensures IdleAt(clock, events, more, maxInstances, id, k) {
      assert SurplusAt(clock, events, more, maxInstances, id, k);
      var w := After(clock, events + more[..k], maxInstances);
      RunHolds(clock, events + more[..k], maxInstances);
      if PhaseOf(w.phases, id).life != Terminating {
        SurplusIsIdle(w, more[k], id);
      }
    }
    SixPassesEnd(clock, events, more, maxInstances, id);
  }

  lemma {:induction false} SurplusIsIdle(w: World, e: Event, id: int)
    requires Inv(w) && Surplus(w, e, id) && PhaseOf(w.phases, id).life != Terminating
    ensures StaysIdle(w, e, id)
  {
    hide NumActive, FreeSlots, Drains, NumRunning;
    if e.Tick? && Enabled(w, e) {
      var k :| 0 <= k < |w.ids| && w.ids[k] == id;
      var a, b :| a in w.ids && b in w.ids && a != b && Busy(w.recs, w.phases, a) && Busy(w.recs, w.phases, b);
      assert Consistent(w.ids, w.recs, w.phases);
      TwoBusyDrain(w.ids, k, w.recs, w.phases, e.needed, w.inFlight, a, b);
    }
  }

  // --- a surplus replica that stays ---

  /** The lifecycles after n passes over records that do not change. */
  function Repeated(ids: seq<int>, recs: Records, phases: Phases, needed: nat, n: nat): Phases {
    if n == 0 then phases else Pass(ids, recs, Repeated(ids, recs, phases, needed, n - 1), needed, false).phases
  }

  const IDLE: Instance := Instance(true, true, 0, 8, 26000)

  /** Two idle replicas of eight slots where four are needed: no pass, ever, ends the one too many. */
  lemma {:induction false} IdlePairStays(n: nat)
    ensures var ids, recs := [0, 1], map[0 := IDLE, 1 := IDLE];
            var phases := Repeated(ids, recs, map[0 := Phase(Active, 0), 1 := Phase(Active, 0)], 4, n);
            Pass(ids, recs, phases, 4, false).despawn.None?
  {
    hide Pass, NumRunning;
    var ids, recs := [0, 1], map[0 := IDLE, 1 := IDLE];
    var start := map[0 := Phase(Active, 0), 1 := Phase(Active, 0)];
    RepeatedConsistent(ids, recs, start, 4, n);
    PairRuns(ids, recs);
    if Pass(ids, recs, Repeated(ids, recs, start, 4, n), 4, false).despawn.Some? {
      PassNeedsThree(ids, recs, Repeated(ids, recs, start, 4, n), 4, false);
    }
  }

  lemma {:induction false} PairRuns(ids: seq<int>, recs: Records)
    requires |ids| == 2
    ensures NumRunning(ids, recs) <= 2
  {
  }

  lemma {:induction false} RepeatedConsistent(ids: seq<int>, recs: Records, phases: Phases, needed: nat, n: nat)
    requires Consistent(ids, recs, phases) && forall id :: id in ids ==> id in phases
    requires forall id :: id in recs && recs[id].seen ==> ValidPort(recs[id].port)
    ensures Consistent(ids, recs, Repeated(ids, recs, phases, needed, n))
    ensures Repeated(ids, recs, phases, needed, n).Keys == phases.Keys
  {
    hide FreeSlots, NumRoutable;
    if n > 0 {
      RepeatedConsistent(ids, recs, phases, needed, n - 1);
      PassConsistent(ids, recs, Repeated(ids, recs, phases, needed, n - 1), needed, false);
    }
  }
}
