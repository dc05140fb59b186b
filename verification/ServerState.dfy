/** The autoscaler's methods on a server's mutable state: autoscale.go and the snapshot of registry.go. */
module ServerState {
  import opened Common
  import opened Autoscale
  import opened Picking
  import opened AutoscaleSystem

  /** serverRoutableCandidatesLocked as a list; a server that does not autoscale routes to every running instance. */
  function Routable(
      ids: seq<int>, recs: Records, phases: Phases, autoscales: bool, allowDraining: bool): seq<Candidate>
  {
    if |ids| == 0 then []
    else
      var id := ids[|ids| - 1];
      Routable(ids[..|ids| - 1], recs, phases, autoscales, allowDraining)
      + if IsCandidate(recs, phases, autoscales, id, allowDraining) then [CandidateOf(recs, id)] else []
  }

  predicate IsCandidate(recs: Records, phases: Phases, autoscales: bool, id: int, allowDraining: bool) {
    if autoscales then IsRoutable(recs, phases, id, allowDraining) else IsRunning(recs, id) && ValidPort(recs[id].port)
  }

  function CandidateOf(recs: Records, id: int): Candidate
    requires id in recs
  {
    Candidate(id, recs[id].port, recs[id].players, recs[id].maxPlayers)
  }

  lemma {:induction false} RoutableMembers(
      ids: seq<int>, recs: Records, phases: Phases, autoscales: bool, allowDraining: bool)
    ensures forall c :: c in Routable(ids, recs, phases, autoscales, allowDraining) <==>
              c.id in ids && IsCandidate(recs, phases, autoscales, c.id, allowDraining) && c == CandidateOf(recs, c.id)
  {
    hide IsCandidate;
    if |ids| > 0 {
      assert ids == ids[..|ids| - 1] + [ids[|ids| - 1]];
      RoutableMembers(ids[..|ids| - 1], recs, phases, autoscales, allowDraining);
    }
  }

  /** The candidates a pick chooses from. */
  function InForce(ids: seq<int>, recs: Records, phases: Phases, autoscales: bool): seq<Candidate> {
    Pool(Routable(ids, recs, phases, autoscales, false), Routable(ids, recs, phases, autoscales, true))
  }

  // --- what a pick means, in terms of the records ---

  /** Runs, listens on a port, and has the lifecycle if the server autoscales. */
  predicate Serves(recs: Records, phases: Phases, autoscales: bool, id: int, life: Lifecycle) {
    && id in recs && recs[id].running && 1 <= recs[id].port <= 65535
    && (autoscales ==> id in phases && phases[id].life == life)
  }

  predicate ServesWithRoom(recs: Records, phases: Phases, autoscales: bool, id: int, life: Lifecycle) {
    Serves(recs, phases, autoscales, id, life) && (recs[id].maxPlayers == 0 || recs[id].players < recs[id].maxPlayers)
  }

  ghost predicate SomeRoom(ids: seq<int>, recs: Records, phases: Phases, autoscales: bool, life: Lifecycle) {
    exists a :: a in ids && ServesWithRoom(recs, phases, autoscales, a, life)
  }

  /** Active with room while there is such an instance; else draining with room while there is one; else
      active or draining. */
  ghost predicate Choosable(ids: seq<int>, recs: Records, phases: Phases, autoscales: bool, id: int) {
    if SomeRoom(ids, recs, phases, autoscales, Active) then ServesWithRoom(recs, phases, autoscales, id, Active)
    else if SomeRoom(ids, recs, phases, autoscales, Draining) then ServesWithRoom(recs, phases, autoscales, id, Draining)
    else Serves(recs, phases, autoscales, id, Active) || Serves(recs, phases, autoscales, id, Draining)
  }

  lemma {:induction false} RoutableExactly(
      ids: seq<int>, recs: Records, phases: Phases, autoscales: bool, allowDraining: bool, c: Candidate)
    ensures c in Routable(ids, recs, phases, autoscales, allowDraining) <==>
              && c.id in ids && c.id in recs
              && c == Candidate(c.id, recs[c.id].port, recs[c.id].players, recs[c.id].maxPlayers)
              && (Serves(recs, phases, autoscales, c.id, Active)
                  || (allowDraining && Serves(recs, phases, autoscales, c.id, Draining)))
  {
    RoutableMembers(ids, recs, phases, autoscales, allowDraining);
  }

  lemma {:induction false} RoomExactly(
      ids: seq<int>, recs: Records, phases: Phases, autoscales: bool, allowDraining: bool, c: Candidate)
    ensures c in WithRoom(Routable(ids, recs, phases, autoscales, allowDraining)) <==>
              && c.id in ids && c.id in recs
              && c == Candidate(c.id, recs[c.id].port, recs[c.id].players, recs[c.id].maxPlayers)
              && (ServesWithRoom(recs, phases, autoscales, c.id, Active)
                  || (allowDraining && ServesWithRoom(recs, phases, autoscales, c.id, Draining)))
  {
    hide WithRoom, Routable, Serves;
    var all := Routable(ids, recs, phases, autoscales, allowDraining);
    RoutableExactly(ids, recs, phases, autoscales, allowDraining, c);
    if c in all && HasRoom(c) {
      var i := IndexOf(all, c);
    }
    if c in WithRoom(all) {
      var i := IndexOf(WithRoom(all), c);
    }
  }

  lemma {:induction false} RoomLeft(ids: seq<int>, recs: Records, phases: Phases, autoscales: bool, allowDraining: bool)
    ensures |WithRoom(Routable(ids, recs, phases, autoscales, allowDraining))| > 0 <==>
            || SomeRoom(ids, recs, phases, autoscales, Active)
            || (allowDraining && SomeRoom(ids, recs, phases, autoscales, Draining))
  {
    assert forall a, life :: ServesWithRoom(recs, phases, autoscales, a, life) ==> a in recs;
    hide WithRoom, Routable, ServesWithRoom;
    var left := WithRoom(Routable(ids, recs, phases, autoscales, allowDraining));
    if |left| > 0 {
      RoomExactly(ids, recs, phases, autoscales, allowDraining, left[0]);
    }
    forall a | a in ids && a in recs && (ServesWithRoom(recs, phases, autoscales, a, Active)
                            || (allowDraining && ServesWithRoom(recs, phases, autoscales, a, Draining)))
      ensures |left| > 0
    {
      RoomExactly(ids, recs, phases, autoscales, allowDraining, CandidateOf(recs, a));
    }
  }

  /** The candidates in force are exactly the choosable instances, with their records' numbers. */
  lemma {:induction false} InForceExactly(ids: seq<int>, recs: Records, phases: Phases, autoscales: bool, c: Candidate)
    ensures c in InForce(ids, recs, phases, autoscales) <==>
              && c.id in ids && c.id in recs && Choosable(ids, recs, phases, autoscales, c.id)
              && c == Candidate(c.id, recs[c.id].port, recs[c.id].players, recs[c.id].maxPlayers)
  {
    assert c.id in ids && !SomeRoom(ids, recs, phases, autoscales, Active) ==>
             !ServesWithRoom(recs, phases, autoscales, c.id, Active);
    hide WithRoom, Routable, ServesWithRoom, Serves, SomeRoom;
    RoomLeft(ids, recs, phases, autoscales, false);
    RoomLeft(ids, recs, phases, autoscales, true);
    RoomExactly(ids, recs, phases, autoscales, false, c);
    RoomExactly(ids, recs, phases, autoscales, true, c);
    RoutableExactly(ids, recs, phases, autoscales, true, c);
    RoutableExactly(ids, recs, phases, autoscales, false, c);
  }

  /** What a pick takes, in plain numbers: the instances among which the cursor chooses are exactly the
      choosable ones whose load players / max(maxPlayers, 1) is smallest, then their players. */
  lemma {:induction false} PickRule(ids: seq<int>, recs: Records, phases: Phases, autoscales: bool, x: Candidate)
    ensures |InForce(ids, recs, phases, autoscales)| > 0 ==>
              (x in Ties(InForce(ids, recs, phases, autoscales)) <==>
               && x.id in ids && x.id in recs && Choosable(ids, recs, phases, autoscales, x.id)
               && x == Candidate(x.id, recs[x.id].port, recs[x.id].players, recs[x.id].maxPlayers)
               && forall id :: id in ids && id in recs && Choosable(ids, recs, phases, autoscales, id) ==>
                    var mine := recs[x.id].players * (if recs[id].maxPlayers > 1 then recs[id].maxPlayers else 1);
                    var theirs := recs[id].players * (if recs[x.id].maxPlayers > 1 then recs[x.id].maxPlayers else 1);
                    mine < theirs || (mine == theirs && recs[x.id].players <= recs[id].players))
    ensures |InForce(ids, recs, phases, autoscales)| > 0 <==>
              exists id :: id in ids && (Serves(recs, phases, autoscales, id, Active) || Serves(recs, phases, autoscales, id, Draining))
  {
    hide Ties, InForce, Choosable;
    var pool := InForce(ids, recs, phases, autoscales);
    PoolServes(ids, recs, phases, autoscales);
    InForceExactly(ids, recs, phases, autoscales, x);
    forall id | id in ids && id in recs ensures Choosable(ids, recs, phases, autoscales, id) <==> CandidateOf(recs, id) in pool {
      InForceExactly(ids, recs, phases, autoscales, CandidateOf(recs, id));
    }
    forall c | c in pool ensures c.id in ids && c.id in recs && c == CandidateOf(recs, c.id) {
      InForceExactly(ids, recs, phases, autoscales, c);
    }
    if |pool| > 0 {
      TiesAreLeastLoaded(pool, x);
    }
  }

  lemma {:induction false} PoolServes(ids: seq<int>, recs: Records, phases: Phases, autoscales: bool)
    ensures |InForce(ids, recs, phases, autoscales)| > 0 <==>
              exists id :: id in ids && (Serves(recs, phases, autoscales, id, Active) || Serves(recs, phases, autoscales, id, Draining))
  {
    assert forall a, life :: Serves(recs, phases, autoscales, a, life) ==> a in recs;
    hide WithRoom, Serves, Routable;
    var routable := Routable(ids, recs, phases, autoscales, true);
    var actives := Routable(ids, recs, phases, autoscales, false);
    if |routable| > 0 {
      RoutableExactly(ids, recs, phases, autoscales, true, routable[0]);
    }
    if |actives| > 0 {
      RoutableExactly(ids, recs, phases, autoscales, true, actives[0]);
      RoutableExactly(ids, recs, phases, autoscales, false, actives[0]);
    }
    RoomInList(routable);
    RoomInList(actives);
    forall id | id in ids && id in recs
                && (Serves(recs, phases, autoscales, id, Active) || Serves(recs, phases, autoscales, id, Draining))
      ensures |routable| > 0
    {
      RoutableExactly(ids, recs, phases, autoscales, true, CandidateOf(recs, id));
    }
  }

  lemma {:induction false} RoomInList(cs: seq<Candidate>)
    ensures |WithRoom(cs)| > 0 ==> |cs| > 0
  {
  }

  class Server {
    const serverID: nat
    const autoscales: bool
    var ids: seq<int>
    var recs: Records
    var phases: Phases
    var inFlight: bool
    var lastUp: Option<int>
    var cursor: nat
    var aggregateUsers: nat
    var aggregateMaxUsers: nat
    var aggregateInstances: nat
    var joinableInstances: nat

    constructor (serverID: nat, autoscales: bool)
      ensures this.serverID == serverID && this.autoscales == autoscales
      ensures ids == [] && recs == map[] && phases == map[] && !inFlight && lastUp == None
    {
      this.serverID, this.autoscales := serverID, autoscales;
      ids, recs, phases, inFlight, lastUp, cursor := [], map[], map[], false, None, 0;
      aggregateUsers, aggregateMaxUsers, aggregateInstances, joinableInstances := 0, 0, 0, 0;
    }

    method Candidates(allowDraining: bool) returns (out: seq<Candidate>)
      ensures out == Routable(ids, recs, phases, autoscales, allowDraining)
    {
      out := [];
      for i := 0 to |ids|
        invariant out == Routable(ids[..i], recs, phases, autoscales, allowDraining)
      {
        var id := ids[i];
        assert ids[..i + 1][..i] == ids[..i];
        if id !in recs || !recs[id].running {
          continue;
        }
        if autoscales {
          if id !in phases {
            continue;
          }
          if phases[id].life != Active && !(allowDraining && phases[id].life == Draining) {
            continue;
          }
        }
        var port := recs[id].port;
        if port < 1 || port > 65535 {
          continue;
        }
        out := out + [Candidate(id, port, recs[id].players, recs[id].maxPlayers)];
      }
      assert ids[..|ids|] == ids;
    }

    /** refreshServerSnapshotLocked: the aggregates the decisions use. */
    method RefreshSnapshot()
      modifies `aggregateUsers, `aggregateMaxUsers, `aggregateInstances, `joinableInstances
      ensures aggregateUsers == Sat16(SumUsers(ids, recs)) && aggregateMaxUsers == Sat16(SumMaxUsers(ids, recs))
      ensures aggregateInstances == Sat16(NumRunning(ids, recs))
      ensures joinableInstances == Sat16(|Routable(ids, recs, phases, autoscales, false)|)
    {
      var users, maxUsers, instances := 0, 0, 0;
      for i := 0 to |ids|
        invariant users == SumUsers(ids[..i], recs) && maxUsers == SumMaxUsers(ids[..i], recs)
        invariant instances == NumRunning(ids[..i], recs)
      {
        var id := ids[i];
        assert ids[..i + 1][..i] == ids[..i];
        if id !in recs || !recs[id].running {
          continue;
        }
        instances := instances + 1;
        users := users + recs[id].players;
        maxUsers := maxUsers + recs[id].maxPlayers;
      }
      assert ids[..|ids|] == ids;
      var candidates := Candidates(false);
      aggregateUsers, aggregateMaxUsers := Sat16(users), Sat16(maxUsers);
      joinableInstances, aggregateInstances := Sat16(|candidates|), Sat16(instances);
    }

    /** One turn of the scan: the instance's lifecycle, the counter and the choice. */
    method Visit(id: int, freeSlots: nat, needed: nat, active0: int, despawn0: Option<int>)
      returns (active: int, despawn: Option<int>)
      modifies `phases
      ensures Acc(phases, active, despawn) ==
              ScanOne(Acc(old(phases), active0, despawn0), id, recs, freeSlots, needed, inFlight)
    {
      active, despawn := active0, despawn0;
      if id !in recs || !recs[id].running {
        return;
      }
      var rec := recs[id];
      if id !in phases {
        phases := phases[id := Phase(Warming, 0)];
      }
      var prev := phases[id];
      if prev.life == Terminating {
        assert phases == phases[id := prev];
        return;
      }
      if !rec.seen {
        phases, active := phases[id := Phase(Warming, 0)], Recount(active, prev.life, Warming);
        return;
      }
      if rec.players > 0 {
        phases, active := phases[id := Phase(Active, 0)], Recount(active, prev.life, Active);
        return;
      }
      var instanceFreeSlots := rec.maxPlayers - rec.players;
      if instanceFreeSlots < 1 {
        instanceFreeSlots := 1;
      }
      var canDrain := active > 1 && freeSlots - instanceFreeSlots >= needed;
      if inFlight && prev.life != Draining {
        canDrain := false;
      }
      if !canDrain {
        phases, active := phases[id := Phase(Active, 0)], Recount(active, prev.life, Active);
        return;
      }
      active := Recount(active, prev.life, Draining);
      phases := phases[id := Phase(Draining, prev.streak + 1)];
      if phases[id].streak >= DESPAWN_ZERO_POLLS && despawn.None? {
        active := Recount(active, Draining, Terminating);
        phases := phases[id := Phase(Terminating, 0)];
        despawn := Some(id);
      }
    }

    /** decideServerActionsLocked with the needed headroom given. */
    method Decide(now: int, needed: nat, maxInstances: int) returns (scaleUp: Option<int>, despawn: Option<int>)
      modifies this
      ensures ids == old(ids) && recs == old(recs) && lastUp == old(lastUp) && cursor == old(cursor)
      ensures !autoscales ==>
                phases == old(phases) && inFlight == old(inFlight) && scaleUp == None && despawn == None
      ensures autoscales ==>
                var acc := Pass(ids, recs, old(phases), needed, old(inFlight));
                var up := WantsReplica(ids, recs, needed, old(inFlight), maxInstances, lastUp, now);
                && phases == acc.phases && despawn == acc.despawn
                && scaleUp == (if up then Some(serverID) else None)
                && inFlight == (old(inFlight) || up)
    {
      hide NumRunning, NumRoutable, SumUsers, SumMaxUsers, Routable, ScanOne;
      scaleUp, despawn := None, None;
      RefreshSnapshot();
      if !autoscales {
        return;
      }
      RoutableCount(ids, recs, phases);
      var freeSlots := 0;
      if aggregateMaxUsers > 0 {
        freeSlots := aggregateMaxUsers - aggregateUsers;
        if freeSlots < 0 {
          freeSlots := 0;
        }
      }
      var runningCount := aggregateInstances;
      var active := joinableInstances;
      ghost var active0, was := active, phases;
      for i := 0 to |ids|
        modifies `phases
        invariant Acc(phases, active, despawn) == Scan(ids[..i], recs, was, freeSlots, needed, inFlight, active0)
      {
        assert ids[..i + 1][..i] == ids[..i];
        active, despawn := Visit(ids[i], freeSlots, needed, active, despawn);
      }
      assert ids[..|ids|] == ids;
      if aggregateMaxUsers > 0 && freeSlots < needed && !inFlight && runningCount < Max(1, maxInstances)
         && (lastUp.None? || now - lastUp.value >= SCALE_UP_COOLDOWN) {
        inFlight := true;
        scaleUp := Some(serverID);
      }
    }

    /** The fields are the ones of a world of the transition system. */
    ghost predicate Matches(w: World)
      reads this
    {
      ids == w.ids && recs == w.recs && phases == w.phases && inFlight == w.inFlight && lastUp == w.lastUp
    }

    /** decideServerActionsLocked takes the system's Tick step. */
    method Reconcile(now: int, needed: nat, maxInstances: int, ghost at: int, ghost w: World)
      returns (scaleUp: Option<int>, despawn: Option<int>)
      requires autoscales && Matches(w) && Enabled(w, Tick(now, at, needed))
      modifies this
      ensures var w' := Next(w, Tick(now, at, needed), maxInstances);
              && Matches(w')
              && w'.launches == w.launches + (if scaleUp.Some? then [Asked(now)] else [])
              && w'.despawns == w.despawns + (if despawn.Some? then [Despawn(despawn.value, false)] else [])
    {
      hide Pass, WantsReplica;
      scaleUp, despawn := Decide(now, needed, maxInstances);
    }

    /** appendServerInstanceLocked. */
    method AppendInstance(newId: int, life: Lifecycle)
      modifies this
      ensures ids == old(ids) + [newId] && recs == old(recs)[newId := FRESH]
      ensures phases == old(phases)[newId := Phase(life, 0)]
      ensures inFlight == old(inFlight) && lastUp == old(lastUp) && cursor == old(cursor)
    {
      recs := recs[newId := FRESH];
      ids := ids + [newId];
      phases := phases[newId := Phase(life, 0)];
      RefreshSnapshot();
    }

    /** registerServerReplicaInstance, for launch k of the system. */
    method RegisterReplica(newId: int, ghost maxInstances: int, ghost w: World, ghost k: nat) returns (rec: Option<int>)
      requires autoscales && Matches(w) && Enabled(w, Register(k, newId))
      modifies this
      ensures Matches(Next(w, Register(k, newId), maxInstances))
      ensures rec == if w.inFlight then Some(newId) else None
    {
      if !inFlight {
        return None;
      }
      AppendInstance(newId, Warming);
      rec := Some(newId);
    }

    /** setServerInstanceLifecycleLocked. */
    method SetInstanceLifecycle(id: int, life: Lifecycle)
      modifies this
      ensures phases == if id in old(phases) then old(phases)[id := Phase(life, 0)] else old(phases)
      ensures ids == old(ids) && recs == old(recs)
      ensures inFlight == old(inFlight) && lastUp == old(lastUp) && cursor == old(cursor)
    {
      if id in phases {
        phases := phases[id := Phase(life, 0)];
      }
      RefreshSnapshot();
    }

    /** slices.DeleteFunc for one id. */
    method DeleteId(all: seq<int>, id: int) returns (kept: seq<int>)
      ensures kept == Without(all, id)
    {
      kept := [];
      for i := 0 to |all|
        invariant kept == Without(all[..i], id)
      {
        assert all[..i + 1][..i] == all[..i];
        if all[i] != id {
          kept := kept + [all[i]];
        }
      }
      assert all[..|all|] == all;
    }

    /** removeServerRecordLocked, without the port index. */
    method RemoveServerRecord(id: int)
      modifies this
      ensures id !in old(recs) ==> ids == old(ids) && recs == old(recs) && phases == old(phases)
      ensures id in old(recs) ==>
                ids == Without(old(ids), id) && recs == old(recs) - {id} && phases == old(phases) - {id}
      ensures inFlight == old(inFlight) && lastUp == old(lastUp) && cursor == old(cursor)
    {
      hide Without, Routable, SumUsers, SumMaxUsers, NumRunning;
      if id !in recs {
        return;
      }
      phases := phases - {id};
      ids := DeleteId(ids, id);
      RefreshSnapshot();
      recs := recs - {id};
    }

    /** The end of launchServerReplica. */
    method FinishLaunch(id: int, ok: bool, at: int, ghost maxInstances: int, ghost w: World, ghost k: nat)
      requires Matches(w) && Enabled(w, Finish(k, at)) && w.launches[k].id == id && ok == w.launches[k].Started?
      modifies this
      ensures Matches(Next(w, Finish(k, at), maxInstances))
    {
      inFlight := false;
      if ok {
        lastUp := Some(at);
        RefreshSnapshot();
      } else {
        RemoveServerRecord(id);
      }
    }

    /** despawnServerInstance up to the unlock: whether to stop the instance. */
    method CheckDespawn(id: int, ghost maxInstances: int, ghost w: World, ghost d: nat) returns (stop: bool)
      requires Matches(w) && Enabled(w, StopCheck(d)) && w.despawns[d].id == id
      modifies this
      ensures Matches(Next(w, StopCheck(d), maxInstances))
      ensures stop <==> |Next(w, StopCheck(d), maxInstances).despawns| == |w.despawns|
    {
      if id !in recs || !recs[id].running {
        SetInstanceLifecycle(id, Warming);
        return false;
      }
      var count := RunningCount();
      if count <= 1 {
        SetInstanceLifecycle(id, Active);
        return false;
      }
      stop := true;
    }

    /** serverRunningCountLocked. */
    method RunningCount() returns (count: nat)
      ensures count == NumRunning(ids, recs)
    {
      count := 0;
      for i := 0 to |ids|
        invariant count == NumRunning(ids[..i], recs)
      {
        assert ids[..i + 1][..i] == ids[..i];
        if ids[i] in recs && recs[ids[i]].running {
          count := count + 1;
        }
      }
      assert ids[..|ids|] == ids;
    }

    /** despawnServerInstance after stopServer. */
    method FinishDespawn(id: int, ok: bool, ghost maxInstances: int, ghost w: World, ghost d: nat)
      requires Matches(w) && Enabled(w, StopDone(d, ok)) && w.despawns[d].id == id
      modifies this
      ensures Matches(Next(w, StopDone(d, ok), maxInstances))
    {
      if ok {
        RemoveServerRecord(id);
      } else {
        SetInstanceLifecycle(id, Active);
      }
    }

    /** pickServerInstanceLocked; the cursor moves only on an advancing pick that finds a candidate. */
    method Pick(advance: bool) returns (picked: Option<int>)
      modifies `cursor
      ensures var pool := InForce(ids, recs, phases, autoscales);
              if |pool| == 0 then picked == None && cursor == old(cursor)
              else
                && |Ties(pool)| > 0
                && picked == Some(PickAt(pool, old(cursor)).port)
                && cursor == old(cursor) + (if advance then 1 else 0)
    {
      hide Ties, WithRoom;
      var candidates := Candidates(false);
      var all := Candidates(true);
      if |WithRoom(candidates)| > 0 {
        candidates := WithRoom(candidates);
      } else if |WithRoom(all)| > 0 {
        candidates := WithRoom(all);
      } else if |all| > 0 {
        candidates := all;
      }
      var choice := Choose(candidates, cursor);
      if choice.None? {
        return None;
      }
      if advance {
        cursor := cursor + 1;
      }
      picked := Some(choice.value.port);
    }
  }

  /** The two updates of setLifecycle's counter. */
  function Recount(active: int, prev: Lifecycle, next: Lifecycle): int {
    active + (if prev != next && next == Active then 1 else 0) - (if prev != next && prev == Active then 1 else 0)
  }

  lemma {:induction false} RoutableCount(ids: seq<int>, recs: Records, phases: Phases)
    ensures |Routable(ids, recs, phases, true, false)| == NumRoutable(ids, recs, phases)
  {
    if |ids| > 0 {
      RoutableCount(ids[..|ids| - 1], recs, phases);
    }
  }
}
