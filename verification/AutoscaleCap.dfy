/** For which caps the autoscaler's guard holds over every run, and a run that passes any other. */
module AutoscaleCap {
  import opened Common
  import opened Autoscale
  import opened AutoscaleSystem
  import opened AutoscaleRuns

  /** n instances run, one of them polled with its only slot taken, and no launch is under way. */
  ghost predicate Crowd(w: World, n: nat) {
    && !w.booting && !w.inFlight && w.launches == []
    && SumUsers(w.ids, w.recs) == 1 && SumMaxUsers(w.ids, w.recs) == 1 && NumRunning(w.ids, w.recs) == n
  }

  function Share(recs: Records, id: int): (int, int) {
    if IsRunning(recs, id) then (recs[id].players, recs[id].maxPlayers) else (0, 0)
  }

  lemma {:induction false} SameSums(ids: seq<int>, recs: Records, recs': Records)
    requires forall i :: 0 <= i < |ids| ==> Share(recs, ids[i]) == Share(recs', ids[i])
    ensures SumUsers(ids, recs') == SumUsers(ids, recs) && SumMaxUsers(ids, recs') == SumMaxUsers(ids, recs)
  {
    if |ids| > 0 {
      var before := ids[..|ids| - 1];
      assert forall i :: 0 <= i < |before| ==> before[i] == ids[i];
      SameSums(before, recs, recs');
    }
  }

  lemma {:induction false} SumsAppend(ids: seq<int>, recs: Records, id: int)
    requires Share(recs, id) == (0, 0)
    ensures SumUsers(ids + [id], recs) == SumUsers(ids, recs) && SumMaxUsers(ids + [id], recs) == SumMaxUsers(ids, recs)
  {
    assert (ids + [id])[..|ids|] == ids;
  }

  /** The configured instance starts, reports its port and is polled with one player of one. */
  lemma {:induction false} Founded(clock: int, maxInstances: int) returns (events: seq<Event>)
    ensures Crowd(After(clock, events, maxInstances), 1)
  {
    var e: seq<Event> := [];
    assert After(clock, e, maxInstances) == Start(clock);
    AfterOne(clock, e, Boot(true), maxInstances);
    AfterOne(clock, e + [Boot(true)], Resolve(0, 26000), maxInstances);
    AfterOne(clock, e + [Boot(true)] + [Resolve(0, 26000)], Poll(0, 1, 1), maxInstances);
    events := e + [Boot(true)] + [Resolve(0, 26000)] + [Poll(0, 1, 1)];
    hide After;
    var w := After(clock, events, maxInstances);
    assert w.ids == [0] && w.recs == map[0 := Instance(true, true, 1, 1, 26000)];
    OneFull(w.ids, w.recs);
  }

  lemma {:induction false} OneFull(ids: seq<int>, recs: Records)
    requires ids == [0] && recs == map[0 := Instance(true, true, 1, 1, 26000)]
    ensures SumUsers(ids, recs) == 1 && SumMaxUsers(ids, recs) == 1 && NumRunning(ids, recs) == 1
  {
    assert ids[..|ids| - 1] == [];
    assert SumUsers(ids[..|ids| - 1], recs) == 0 && SumMaxUsers(ids[..|ids| - 1], recs) == 0;
  }

  /** Registering a replica and starting it, while the rest stays as it is. */
  lemma {:induction false} Launched(w: World, at: int, maxInstances: int) returns (w': World)
    requires Inv(w) && w.inFlight && w.launches == [Asked(w.launches[0].asked)] && !w.booting && w.clock <= at
    ensures Enabled(w, Register(0, w.nextId))
    ensures var r := Next(w, Register(0, w.nextId), maxInstances);
            && Enabled(r, StartDone(0, true))
            && var s := Next(r, StartDone(0, true), maxInstances);
               && Enabled(s, Finish(0, at)) && w' == Next(s, Finish(0, at), maxInstances)
    ensures SumUsers(w'.ids, w'.recs) == SumUsers(w.ids, w.recs)
    ensures SumMaxUsers(w'.ids, w'.recs) == SumMaxUsers(w.ids, w.recs)
    ensures NumRunning(w'.ids, w'.recs) == NumRunning(w.ids, w.recs) + 1
    ensures !w'.booting && !w'.inFlight && w'.launches == []
  {
    hide NumRunning, SumUsers, SumMaxUsers;
    var id := w.nextId;
    var r := Next(w, Register(0, id), maxInstances);
    var s := Next(r, StartDone(0, true), maxInstances);
    w' := Next(s, Finish(0, at), maxInstances);
    assert id !in w.ids;
    SameSums(w.ids, w.recs, r.recs);
    SumsAppend(w.ids, r.recs, id);
    RunningElsewhere(w.ids, w.recs, id, FRESH);
    RunningAppend(w.ids, r.recs, id);
    DistinctAppend(w.ids, id);
    SameSums(r.ids, r.recs, s.recs);
    RunningUpdate(r.ids, r.recs, id, s.recs[id]);
  }

  /** With a cap over 65535 a pass in a crowd asks for a replica however many run, and gets it. */
  lemma {:induction false} Grows(clock: int, events: seq<Event>, maxInstances: int, n: nat) returns (longer: seq<Event>)
    requires maxInstances > 0xffff && n > 0 && Crowd(After(clock, events, maxInstances), n)
    ensures Crowd(After(clock, longer, maxInstances), n + 1)
  {
    hide After, NumRunning, SumUsers, SumMaxUsers, Pass;
    var w := After(clock, events, maxInstances);
    RunHolds(clock, events, maxInstances);
    var now := if w.lastUp.Some? && w.lastUp.value + SCALE_UP_COOLDOWN > w.clock then w.lastUp.value + SCALE_UP_COOLDOWN
               else w.clock;
    var tick := Tick(now, now, 1);
    var asked := Next(w, tick, maxInstances);
    StepKeeps(w, tick, maxInstances);
    assert asked.launches == [Asked(now)];
    var w' := Launched(asked, now, maxInstances);
    var r := Register(0, asked.nextId);
    AfterOne(clock, events, tick, maxInstances);
    AfterOne(clock, events + [tick], r, maxInstances);
    AfterOne(clock, events + [tick] + [r], StartDone(0, true), maxInstances);
    AfterOne(clock, events + [tick] + [r] + [StartDone(0, true)], Finish(0, now), maxInstances);
    longer := events + [tick] + [r] + [StartDone(0, true)] + [Finish(0, now)];
  }

  lemma {:induction false} GrowsTo(clock: int, maxInstances: int, n: nat) returns (events: seq<Event>)
    requires maxInstances > 0xffff && n > 0
    ensures Crowd(After(clock, events, maxInstances), n)
  {
    hide Crowd, After;
    if n == 1 {
      events := Founded(clock, maxInstances);
    } else {
      events := GrowsTo(clock, maxInstances, n - 1);
      events := Grows(clock, events, maxInstances, n - 1);
    }
  }

  /** Running instances plus the launch in flight stay within the cap in every run, if and only if the
      cap fits uint16: over any larger one some run passes it. */
  lemma {:induction false} CapExact(clock: int, maxInstances: int)
    ensures (forall events :: UnderCap(After(clock, events, maxInstances), maxInstances)) <==> maxInstances <= 0xffff
  {
    hide After;
    if maxInstances <= 0xffff {
      forall events ensures UnderCap(After(clock, events, maxInstances), maxInstances) {
        RunHolds(clock, events, maxInstances);
      }
    } else {
      var events := GrowsTo(clock, maxInstances, maxInstances + 1);
      assert !UnderCap(After(clock, events, maxInstances), maxInstances);
    }
  }
}
