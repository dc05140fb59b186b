/** One autoscaling server over every interleaving of passes, launches, despawns, polls and crashes. */
module AutoscaleSystem {
  import opened Common
  import opened Autoscale

  /** A replica launch under way: asked for by a pass at time `asked`, then step by step. */
  datatype Launch =
    | Asked(asked: int)
    | Registered(asked: int, id: int)
    | Refused(asked: int, id: int)
    | Started(asked: int, id: int)

  /** A despawn under way; stopping once the instance is being shut down outside the lock. */
  datatype Despawn = Despawn(id: int, stopping: bool)

  datatype World = World(
    ids: seq<int>, recs: Records, phases: Phases, inFlight: bool, lastUp: Option<int>,
    nextId: int, launches: seq<Launch>, despawns: seq<Despawn>,
    booting: bool, clock: int, ups: seq<int>)

  datatype Event =
    | Tick(now: int, at: int, needed: nat)      // a reconcile pass; its time was read before the lock
    | Register(k: nat, newId: int)              // registerServerReplicaInstance
    | StartDone(k: nat, ok: bool)               // startRecord of the replica
    | Finish(k: nat, at: int)                   // the end of launchServerReplica
    | Boot(ok: bool)                            // startRecord of the configured instance
    | Resolve(id: int, port: int)               // assignPortLocked
    | Poll(id: int, players: nat, maxPlayers: nat)  // updateGameState on an instance of the port
    | Crash(id: int)
    | StopCheck(d: nat)                         // despawnServerInstance up to the unlock
    | StopDone(d: nat, ok: bool)                // and after stopServer

  const FRESH: Instance := Instance(false, false, 0, 0, 0)

  /** One configured instance, registered and not started yet. */
  function Start(clock: int): World {
    World([0], map[0 := FRESH], map[0 := Phase(Warming, 0)], false, None, 1, [], [], true, clock, [])
  }

  function RemoveAt<T>(s: seq<T>, k: nat): seq<T>
    requires k < |s|
  {
    s[..k] + s[k + 1..]
  }

  /** removeServerRecordLocked. */
  function RemoveRecord(w: World, id: int): World {
    if id !in w.recs then w
    else w.(ids := Without(w.ids, id), recs := w.recs - {id}, phases := w.phases - {id})
  }

  /** setServerInstanceLifecycleLocked: only a state that exists is changed. */
  function SetLifecycle(w: World, id: int, life: Lifecycle): World {
    if id in w.phases then w.(phases := w.phases[id := Phase(life, 0)]) else w
  }

  predicate Enabled(w: World, e: Event) {
    match e
    case Tick(now, at, _) => now <= at && w.clock <= at
    case Register(k, newId) => k < |w.launches| && w.launches[k].Asked? && w.nextId <= newId
    case StartDone(k, _) => k < |w.launches| && w.launches[k].Registered? && w.launches[k].id in w.recs
    case Finish(k, at) => k < |w.launches| && (w.launches[k].Refused? || w.launches[k].Started?) && w.clock <= at
    case Boot(_) => w.booting && 0 in w.recs
    case Resolve(id, _) => id in w.recs
    case Poll(id, _, _) => id in w.recs && ValidPort(w.recs[id].port)
    case Crash(id) => id in w.recs
    case StopCheck(d) => d < |w.despawns| && !w.despawns[d].stopping
    case StopDone(d, _) => d < |w.despawns| && w.despawns[d].stopping
  }

  function Next(w: World, e: Event, maxInstances: int): World
    requires Enabled(w, e)
  {
    match e
    case Tick(now, at, needed) =>
      var acc := Pass(w.ids, w.recs, w.phases, needed, w.inFlight);
      var up := WantsReplica(w.ids, w.recs, needed, w.inFlight, maxInstances, w.lastUp, now);
      w.(phases := acc.phases, clock := at, inFlight := w.inFlight || up,
         launches := w.launches + (if up then [Asked(now)] else []),
         despawns := w.despawns + (if acc.despawn.Some? then [Despawn(acc.despawn.value, false)] else []))
    case Register(k, newId) =>
      if !w.inFlight then w.(launches := RemoveAt(w.launches, k))
      else w.(ids := w.ids + [newId], recs := w.recs[newId := FRESH],
              phases := w.phases[newId := Phase(Warming, 0)], nextId := newId + 1,
              launches := w.launches[k := Registered(w.launches[k].asked, newId)])
    case StartDone(k, ok) =>
      var l := w.launches[k];
      if !ok then w.(launches := w.launches[k := Refused(l.asked, l.id)])
      else
        w.(recs := w.recs[l.id := FRESH.(running := true, port := w.recs[l.id].port)],
           phases := w.phases[l.id := Phase(Warming, 0)],
           launches := w.launches[k := Started(l.asked, l.id)])
    case Finish(k, at) =>
      var l := w.launches[k];
      var w' := w.(inFlight := false, launches := RemoveAt(w.launches, k), clock := at);
      if l.Started? then w'.(lastUp := Some(at), ups := w.ups + [at]) else RemoveRecord(w', l.id)
    case Boot(ok) =>
      if !ok then w.(booting := false)
      else w.(booting := false, recs := w.recs[0 := FRESH.(running := true, port := w.recs[0].port)],
              phases := w.phases[0 := Phase(Warming, 0)])
    case Resolve(id, port) =>
      if w.recs[id].port > 0 || !ValidPort(port) then w
      else w.(recs := w.recs[id := w.recs[id].(port := port)])
    case Poll(id, players, maxPlayers) =>
      w.(recs := w.recs[id := w.recs[id].(seen := true, players := players, maxPlayers := maxPlayers)])
    case Crash(id) => w.(recs := w.recs[id := w.recs[id].(running := false)])
    case StopCheck(d) =>
      var id := w.despawns[d].id;
      if !IsRunning(w.recs, id) then SetLifecycle(w.(despawns := RemoveAt(w.despawns, d)), id, Warming)
      else if NumRunning(w.ids, w.recs) <= 1 then SetLifecycle(w.(despawns := RemoveAt(w.despawns, d)), id, Active)
      else w.(despawns := w.despawns[d := Despawn(id, true)])
    case StopDone(d, ok) =>
      var id, w' := w.despawns[d].id, w.(despawns := RemoveAt(w.despawns, d));
      if ok then RemoveRecord(w', id) else SetLifecycle(w', id, Active)
  }

  // --- invariants ---

  ghost predicate Registry(w: World) {
    && Distinct(w.ids)
    && (forall id :: id in w.recs <==> id in w.ids)
    && (forall id :: id in w.phases <==> id in w.ids)
    && (forall id :: id in w.ids ==> id < w.nextId)
    && (forall id :: id in w.ids ==> SeenWhenUp(w.recs, w.phases, id))
    && (forall id :: id in w.recs && w.recs[id].seen ==> ValidPort(w.recs[id].port))
  }

  /** At most one launch, and the flag says whether there is one. */
  ghost predicate OneLaunch(w: World) {
    && |w.launches| == (if w.inFlight then 1 else 0)
    && (w.inFlight && (w.launches[0].Registered? || w.launches[0].Refused?) ==>
          && w.launches[0].id in w.ids && !IsRunning(w.recs, w.launches[0].id)
          && PhaseOf(w.phases, w.launches[0].id).life == Warming)
  }

  /** Each instance is being despawned at most once, and is marked terminating meanwhile. */
  ghost predicate Despawns(w: World) {
    && (forall d :: 0 <= d < |w.despawns| ==>
          w.despawns[d].id in w.ids && PhaseOf(w.phases, w.despawns[d].id).life == Terminating)
    && (forall c, d :: 0 <= c < d < |w.despawns| ==> w.despawns[c].id != w.despawns[d].id)
  }

  ghost predicate Booting(w: World) {
    w.booting ==> !w.inFlight && w.despawns == [] && NumRunning(w.ids, w.recs) == 0 && 0 in w.ids
                  && PhaseOf(w.phases, 0).life == Warming
  }

  /** The launch that has not started its instance yet. */
  function Pending(w: World): nat {
    if |w.launches| > 0 && (w.launches[0].Asked? || w.launches[0].Registered?) then 1 else 0
  }

  ghost predicate UnderCap(w: World, maxInstances: int) {
    NumRunning(w.ids, w.recs) + Pending(w) <= Max(1, maxInstances)
  }

  ghost predicate Spaced(ups: seq<int>) {
    forall i :: 0 < i < |ups| ==> ups[i] - ups[i - 1] >= SCALE_UP_COOLDOWN
  }

  /** Successful launches lie a cooldown apart, and so does the launch under way. */
  ghost predicate Timed(w: World) {
    && Spaced(w.ups)
    && w.lastUp == (if |w.ups| == 0 then None else Some(w.ups[|w.ups| - 1]))
    && (forall k :: 0 <= k < |w.launches| ==>
          && w.launches[k].asked <= w.clock
          && (w.lastUp.Some? ==> w.launches[k].asked - w.lastUp.value >= SCALE_UP_COOLDOWN))
  }

  ghost predicate Inv(w: World) {
    Registry(w) && OneLaunch(w) && Despawns(w) && Booting(w) && Timed(w)
  }

  /** A step keeps the invariant whatever the cap is, and the cap itself if it fits uint16. */
  ghost predicate Keeps(w: World, w': World, maxInstances: int) {
    Inv(w') && (maxInstances <= 0xffff && UnderCap(w, maxInstances) ==> UnderCap(w', maxInstances))
  }

  // --- counting lemmas ---

  lemma {:induction false} RunningElsewhere(ids: seq<int>, recs: Records, id: int, rec: Instance)
    requires id !in ids
    ensures NumRunning(ids, recs[id := rec]) == NumRunning(ids, recs) == NumRunning(ids, recs - {id})
  {
    if |ids| > 0 {
      assert ids[|ids| - 1] in ids;
      RunningElsewhere(ids[..|ids| - 1], recs, id, rec);
    }
  }

  lemma {:induction false} RunningUpdate(ids: seq<int>, recs: Records, id: int, rec: Instance)
    requires Distinct(ids) && id in ids && id in recs
    ensures NumRunning(ids, recs[id := rec]) ==
            NumRunning(ids, recs) + (if rec.running then 1 else 0) - (if recs[id].running then 1 else 0)
  {
    var n := |ids| - 1;
    if ids[n] == id {
      RunningElsewhere(ids[..n], recs, id, rec);
    } else {
      assert id in ids[..n];
      RunningUpdate(ids[..n], recs, id, rec);
    }
  }

  lemma {:induction false} RunningAppend(ids: seq<int>, recs: Records, id: int)
    ensures NumRunning(ids + [id], recs) == NumRunning(ids, recs) + if IsRunning(recs, id) then 1 else 0
  {
    assert (ids + [id])[..|ids|] == ids;
  }

  lemma {:induction false} RunningWithout(ids: seq<int>, recs: Records, id: int)
    ensures NumRunning(Without(ids, id), recs - {id}) <= NumRunning(ids, recs)
  {
    if |ids| > 0 {
      var n := |ids| - 1;
      RunningWithout(ids[..n], recs, id);
      RunningAppend(Without(ids[..n], id), recs - {id}, ids[n]);
      assert Without(ids[..n], id) + [] == Without(ids[..n], id);
    }
  }

  lemma {:induction false} NobodyRuns(ids: seq<int>, recs: Records)
    requires NumRunning(ids, recs) == 0
    ensures SumMaxUsers(ids, recs) == 0 && forall id :: id in ids ==> !IsRunning(recs, id)
  {
    if |ids| > 0 {
      assert ids == ids[..|ids| - 1] + [ids[|ids| - 1]];
      NobodyRuns(ids[..|ids| - 1], recs);
    }
  }

  /** What a pass does to the phases of the registry. */
  lemma {:induction false} PassPhases(ids: seq<int>, recs: Records, phases: Phases, free: nat, needed: nat, inFlight: bool, active: int)
    requires Distinct(ids) && (forall i :: 0 <= i < |ids| ==> SeenWhenUp(recs, phases, ids[i]))
    requires forall id :: id in ids ==> id in phases
    ensures var after := Scan(ids, recs, phases, free, needed, inFlight, active).phases;
            && after.Keys == phases.Keys
            && forall id :: id in phases ==> PassPhase(recs, phases[id], after[id], id, id in ids)
  {
    if |ids| > 0 {
      var n := |ids| - 1;
      assert ids == ids[..n] + [ids[n]];
      hide ScanOne, PassPhase;
      PassPhases(ids[..n], recs, phases, free, needed, inFlight, active);
      ScanTouches(ids[..n], recs, phases, free, needed, inFlight, active, ids[n]);
      assert SeenWhenUp(recs, phases, ids[n]);
      var acc := Scan(ids[..n], recs, phases, free, needed, inFlight, active);
      StepPhase(acc, ids[n], recs, free, needed, inFlight);
      forall id | id in phases
        ensures PassPhase(recs, phases[id], ScanOne(acc, ids[n], recs, free, needed, inFlight).phases[id], id, id in ids)
      {
        assert id != ids[n] ==> (id in ids <==> id in ids[..n]);
      }
    }
  }

  lemma {:induction false} StepPhase(acc: Acc, id: int, recs: Records, free: nat, needed: nat, inFlight: bool)
    requires id in acc.phases && SeenWhenUp(recs, acc.phases, id)
    ensures var after := ScanOne(acc, id, recs, free, needed, inFlight).phases;
            && after.Keys == acc.phases.Keys && PassPhase(recs, acc.phases[id], after[id], id, true)
            && forall x :: x in acc.phases && x != id ==> after[x] == acc.phases[x]
  {
  }

  /** One instance before and after a pass. */
  ghost predicate PassPhase(recs: Records, before: Phase, after: Phase, id: int, scanned: bool) {
    && (!scanned || !IsRunning(recs, id) || before.life == Terminating ==> after == before)
    && (scanned && IsRunning(recs, id) && !recs[id].seen && before.life != Terminating ==> after.life == Warming)
    && (after != before && after.streak > 0 ==>
          after.life == Draining && after.streak == before.streak + 1 && recs[id].seen && recs[id].players == 0)
  }

  // --- every step keeps the invariant ---

  lemma {:induction false} TickKeeps(w: World, now: int, at: int, needed: nat, maxInstances: int)
    requires Inv(w) && Enabled(w, Tick(now, at, needed))
    ensures Keeps(w, Next(w, Tick(now, at, needed), maxInstances), maxInstances)
  {
    hide Pass, NumRunning, SumMaxUsers, FreeSlots;
    var w' := Next(w, Tick(now, at, needed), maxInstances);
    var acc := Pass(w.ids, w.recs, w.phases, needed, w.inFlight);
    assert Consistent(w.ids, w.recs, w.phases);
    PassTerminates(w.ids, w.recs, w.phases, needed, w.inFlight);
    PassRegistry(w, needed);
    if w.booting {
      NobodyRuns(w.ids, w.recs);
    }
    CapGuard(maxInstances);
  }

  /** Passes keep the lifecycles consistent with the records. */
  lemma {:induction false} PassConsistent(ids: seq<int>, recs: Records, phases: Phases, needed: nat, inFlight: bool)
    requires Consistent(ids, recs, phases) && forall id :: id in ids ==> id in phases
    requires forall id :: id in recs && recs[id].seen ==> ValidPort(recs[id].port)
    ensures var after := Pass(ids, recs, phases, needed, inFlight).phases;
            Consistent(ids, recs, after) && after.Keys == phases.Keys
  {
    hide FreeSlots, NumRoutable, NumRunning;
    var after := Pass(ids, recs, phases, needed, inFlight).phases;
    PassPhases(ids, recs, phases, FreeSlots(ids, recs), needed, inFlight, Sat16(NumRoutable(ids, recs, phases)));
    forall i | 0 <= i < |ids| ensures SeenWhenUp(recs, after, ids[i]) {
      assert SeenWhenUp(recs, phases, ids[i]);
      assert PassPhase(recs, phases[ids[i]], after[ids[i]], ids[i], true);
    }
  }

  lemma {:induction false} PassRegistry(w: World, needed: nat)
    requires Registry(w)
    ensures var after := Pass(w.ids, w.recs, w.phases, needed, w.inFlight).phases;
            && Registry(w.(phases := after))
            && forall id :: id in w.ids && (!IsRunning(w.recs, id) || w.phases[id].life == Terminating) ==>
                 after[id] == w.phases[id]
    ensures var acc := Pass(w.ids, w.recs, w.phases, needed, w.inFlight);
            acc.despawn.Some? ==> acc.despawn.value in w.ids && w.phases[acc.despawn.value].life != Terminating
  {
    hide NumRunning, NumRoutable, FreeSlots, Distinct, Scan, SeenWhenUp;
    var active := Sat16(NumRoutable(w.ids, w.recs, w.phases));
    var after := Pass(w.ids, w.recs, w.phases, needed, w.inFlight).phases;
    assert Consistent(w.ids, w.recs, w.phases);
    PassConsistent(w.ids, w.recs, w.phases, needed, w.inFlight);
    PassPhases(w.ids, w.recs, w.phases, FreeSlots(w.ids, w.recs), needed, w.inFlight, active);
    PassTerminates(w.ids, w.recs, w.phases, needed, w.inFlight);
    forall id | id in w.ids ensures SeenWhenUp(w.recs, after, id) && PassPhase(w.recs, w.phases[id], after[id], id, true) {
      var i :| 0 <= i < |w.ids| && w.ids[i] == id;
      assert SeenWhenUp(w.recs, after, w.ids[i]);
    }
  }

  lemma {:induction false} RegisterKeeps(w: World, k: nat, newId: int, maxInstances: int)
    requires Inv(w) && Enabled(w, Register(k, newId))
    ensures Keeps(w, Next(w, Register(k, newId), maxInstances), maxInstances)
  {
    hide NumRunning;
    if w.inFlight {
      RunningElsewhere(w.ids, w.recs, newId, FRESH);
      RunningAppend(w.ids, w.recs[newId := FRESH], newId);
      DistinctAppend(w.ids, newId);
    }
  }

  lemma {:induction false} StartDoneKeeps(w: World, k: nat, ok: bool, maxInstances: int)
    requires Inv(w) && Enabled(w, StartDone(k, ok))
    ensures Keeps(w, Next(w, StartDone(k, ok), maxInstances), maxInstances)
  {
    hide NumRunning;
    var l := w.launches[k];
    RunningUpdate(w.ids, w.recs, l.id, FRESH.(running := true, port := w.recs[l.id].port));
  }

  lemma {:induction false} RemoveKeepsRegistry(w: World, id: int)
    requires Registry(w)
    ensures Registry(RemoveRecord(w, id))
    ensures NumRunning(RemoveRecord(w, id).ids, RemoveRecord(w, id).recs) <= NumRunning(w.ids, w.recs)
    ensures forall x :: x in RemoveRecord(w, id).ids <==> x in w.ids && x != id
  {
    hide NumRunning, Distinct;
    WithoutMembers(w.ids, id);
    RunningWithout(w.ids, w.recs, id);
    var w' := RemoveRecord(w, id);
    forall x | x in w'.ids ensures SeenWhenUp(w'.recs, w'.phases, x) {
      assert SeenWhenUp(w.recs, w.phases, x);
    }
  }

  lemma {:induction false} FinishKeeps(w: World, k: nat, at: int, maxInstances: int)
    requires Inv(w) && Enabled(w, Finish(k, at))
    ensures Keeps(w, Next(w, Finish(k, at), maxInstances), maxInstances)
  {
    hide NumRunning, Registry, Despawns, Booting, Timed, Next;
    FinishStep(w, k, at, maxInstances);
    var id, w' := w.launches[k].id, Next(w, Finish(k, at), maxInstances);
    if w.launches[k].Refused? {
      RemoveKeepsRegistry(w, id);
      SameRegistry(RemoveRecord(w, id), w');
    } else {
      SameRegistry(w, w');
    }
  }

  /** What the end of a launch changes: the record or the time, and no launch is under way any more. */
  lemma {:induction false} FinishStep(w: World, k: nat, at: int, maxInstances: int)
    requires Inv(w) && Enabled(w, Finish(k, at))
    ensures var w', id := Next(w, Finish(k, at), maxInstances), w.launches[k].id;
            var v := if w.launches[k].Refused? then RemoveRecord(w, id) else w;
            && w'.ids == v.ids && w'.recs == v.recs && w'.phases == v.phases && w'.nextId == v.nextId
            && !w'.inFlight && w'.launches == [] && Timed(w') && Despawns(w') && Booting(w')
  {
    hide NumRunning, Registry, Without, Timed, Despawns, Booting;
    assert k == 0 && RemoveAt(w.launches, k) == [];
    FinishTimes(w, at, maxInstances);
    FinishOthers(w, at, maxInstances);
  }

  lemma {:induction false} FinishTimes(w: World, at: int, maxInstances: int)
    requires OneLaunch(w) && Timed(w) && Enabled(w, Finish(0, at))
    ensures Timed(Next(w, Finish(0, at), maxInstances))
  {
    hide NumRunning, Without, Spaced;
    SpacedAppend(w.ups, at);
  }

  lemma {:induction false} SpacedAppend(ups: seq<int>, at: int)
    requires Spaced(ups) && (|ups| > 0 ==> at - ups[|ups| - 1] >= SCALE_UP_COOLDOWN)
    ensures Spaced(ups + [at])
  {
  }

  /** A refused launch's instance never ran: nothing being despawned or booted is concerned. */
  lemma {:induction false} FinishOthers(w: World, at: int, maxInstances: int)
    requires Inv(w) && Enabled(w, Finish(0, at))
    ensures var w' := Next(w, Finish(0, at), maxInstances); Despawns(w') && Booting(w')
  {
    hide NumRunning, Registry, Timed, PhaseOf, Without;
    var id := w.launches[0].id;
    if w.launches[0].Refused? {
      RemoveKeepsRegistry(w, id);
      RemoveKeepsOthers(w, id);
    }
  }

  lemma {:induction false} SameRegistry(w: World, v: World)
    requires w.ids == v.ids && w.recs == v.recs && w.phases == v.phases && w.nextId == v.nextId && Registry(w)
    ensures Registry(v)
  {
  }

  lemma {:induction false} RemoveKeepsOthers(w: World, id: int)
    ensures forall x :: x != id ==> PhaseOf(RemoveRecord(w, id).phases, x) == PhaseOf(w.phases, x)
    ensures forall x :: x != id ==> IsRunning(RemoveRecord(w, id).recs, x) == IsRunning(w.recs, x)
  {
  }

  /** Leaving Terminating, for an instance that was not warming, keeps the registry. */
  lemma {:induction false} LifecycleKeepsRegistry(w: World, id: int, life: Lifecycle)
    requires Registry(w) && id in w.ids && PhaseOf(w.phases, id).life == Terminating
    ensures Registry(SetLifecycle(w, id, life))
    ensures forall x :: x != id ==> PhaseOf(SetLifecycle(w, id, life).phases, x) == PhaseOf(w.phases, x)
  {
    hide Distinct;
    assert SeenWhenUp(w.recs, w.phases, id);
    forall x | x in w.ids ensures SeenWhenUp(w.recs, SetLifecycle(w, id, life).phases, x) {
      assert SeenWhenUp(w.recs, w.phases, x);
    }
  }

  /** A change of one record's poll, port or crash that leaves its lifecycle alone. */
  lemma {:induction false} RecordKeeps(w: World, e: Event, maxInstances: int)
    requires Inv(w) && Enabled(w, e) && (e.Resolve? || e.Poll? || e.Crash?)
    ensures Keeps(w, Next(w, e, maxInstances), maxInstances)
  {
    hide NumRunning, Registry;
    var w' := Next(w, e, maxInstances);
    RecordRegistry(w, e, maxInstances);
    RunningUpdate(w.ids, w.recs, e.id, w'.recs[e.id]);
  }

  lemma {:induction false} RecordRegistry(w: World, e: Event, maxInstances: int)
    requires Registry(w) && Enabled(w, e) && (e.Resolve? || e.Poll? || e.Crash?)
    ensures var w' := Next(w, e, maxInstances);
            && Registry(w') && Distinct(w.ids) && e.id in w.ids && e.id in w'.recs
            && w'.recs == w.recs[e.id := w'.recs[e.id]] && (w'.recs[e.id].running ==> w.recs[e.id].running)
  {
    hide NumRunning, Distinct;
    var w' := Next(w, e, maxInstances);
    assert w'.recs == w.recs[e.id := w'.recs[e.id]];
    forall id | id in w'.ids ensures SeenWhenUp(w'.recs, w'.phases, id) {
      assert SeenWhenUp(w.recs, w.phases, id);
    }
  }

  lemma {:induction false} BootKeeps(w: World, ok: bool, maxInstances: int)
    requires Inv(w) && Enabled(w, Boot(ok))
    ensures Keeps(w, Next(w, Boot(ok), maxInstances), maxInstances)
  {
    hide NumRunning;
    RunningUpdate(w.ids, w.recs, 0, FRESH.(running := true, port := w.recs[0].port));
  }

  lemma {:induction false} StopCheckKeeps(w: World, d: nat, maxInstances: int)
    requires Inv(w) && Enabled(w, StopCheck(d))
    ensures Keeps(w, Next(w, StopCheck(d), maxInstances), maxInstances)
  {
    hide NumRunning, Registry, PhaseOf;
    var id, w' := w.despawns[d].id, Next(w, StopCheck(d), maxInstances);
    if !IsRunning(w.recs, id) {
      LifecycleKeepsRegistry(w, id, Warming);
      SameRegistry(SetLifecycle(w, id, Warming), w');
    } else if NumRunning(w.ids, w.recs) <= 1 {
      LifecycleKeepsRegistry(w, id, Active);
      SameRegistry(SetLifecycle(w, id, Active), w');
    } else {
      SameRegistry(w, w');
    }
  }

  lemma {:induction false} StopDoneKeeps(w: World, d: nat, ok: bool, maxInstances: int)
    requires Inv(w) && Enabled(w, StopDone(d, ok))
    ensures Keeps(w, Next(w, StopDone(d, ok), maxInstances), maxInstances)
  {
    hide NumRunning, Registry, PhaseOf, Without;
    var id, w' := w.despawns[d].id, Next(w, StopDone(d, ok), maxInstances);
    if ok {
      RemoveKeepsRegistry(w, id);
      RemoveKeepsOthers(w, id);
      SameRegistry(RemoveRecord(w, id), w');
    } else {
      LifecycleKeepsRegistry(w, id, Active);
      SameRegistry(SetLifecycle(w, id, Active), w');
    }
  }

  lemma {:induction false} StepKeeps(w: World, e: Event, maxInstances: int)
    requires Inv(w) && Enabled(w, e)
    ensures Keeps(w, Next(w, e, maxInstances), maxInstances)
  {
    hide Inv, Next, Keeps;
    match e
    case Tick(now, at, needed) => TickKeeps(w, now, at, needed, maxInstances);
    case Register(k, newId) => RegisterKeeps(w, k, newId, maxInstances);
    case StartDone(k, ok) => StartDoneKeeps(w, k, ok, maxInstances);
    case Finish(k, at) => FinishKeeps(w, k, at, maxInstances);
    case Boot(ok) => BootKeeps(w, ok, maxInstances);
    case Resolve(_, _) => RecordKeeps(w, e, maxInstances);
    case Poll(_, _, _) => RecordKeeps(w, e, maxInstances);
    case Crash(_) => RecordKeeps(w, e, maxInstances);
    case StopCheck(d) => StopCheckKeeps(w, d, maxInstances);
    case StopDone(d, ok) => StopDoneKeeps(w, d, ok, maxInstances);
  }
}
