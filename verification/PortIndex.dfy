/** Resolved listen ports and the index from port to instances: state.go, with what registry.go and
    launcher.go do to it. */
module PortIndex {
  import opened Common

  /** The port and poll fields of an instance record; spec is the listen port of its resolved spec. */
  datatype Record = Record(
    known: bool, port: int, hasPath: bool, spec: Option<int>, seen: bool, players: nat, maxPlayers: nat)

  const UNSTARTED: Record := Record(false, 0, false, None, false, 0, 0)

  /** Records outlive their registration: callbacks of their process still hold them. */
  datatype World = World(recs: map<int, Record>, registered: set<int>, byPort: map<int, seq<int>>)

  const EMPTY: World := World(map[], {}, map[])

  /** recordListenPort. */
  function ListenPort(rec: Record): int {
    if rec.spec.Some? && ValidPort(rec.spec.value) then rec.spec.value
    else if rec.known && ValidPort(rec.port) then rec.port
    else 0
  }

  function IdsAt(byPort: map<int, seq<int>>, port: int): seq<int> {
    if port in byPort then byPort[port] else []
  }

  /** removeServerIDFromPortLocked: no list stays behind empty. */
  function RemovedFrom(byPort: map<int, seq<int>>, port: int, id: int): map<int, seq<int>> {
    if port <= 0 then byPort
    else
      var ids := Without(IdsAt(byPort, port), id);
      if |ids| == 0 then byPort - {port} else byPort[port := ids]
  }

  /** Both removals of a record: at its resolved port and at its spec's. */
  function Cleared(byPort: map<int, seq<int>>, rec: Record, id: int): map<int, seq<int>> {
    var once := RemovedFrom(byPort, rec.port, id);
    if rec.spec.Some? then RemovedFrom(once, rec.spec.value, id) else once
  }

  /** applyResolvedSpecLocked. */
  function WithSpec(rec: Record): Record {
    if rec.known && rec.hasPath then rec.(spec := Some(rec.port)) else rec
  }

  /** Whether assignPortLocked takes a port: the first one, or the first positive one. */
  predicate Takes(rec: Record, port: int) {
    0 <= port <= 65535 && (!rec.known || (rec.port <= 0 && port != 0))
  }

  function Assigned(w: World, id: int, port: int): World
    requires id in w.recs
  {
    if !Takes(w.recs[id], port) then w
    else
      var ids := IdsAt(w.byPort, port);
      w.(recs := w.recs[id := w.recs[id].(known := true, port := port)],
         byPort := if port < 1 || id in ids then w.byPort else w.byPort[port := ids + [id]])
  }

  datatype Event =
    | Register(id: int)
    | StartClears(id: int)                  // startRecord forgets the ports of an earlier run
    | UpdatePort(id: int, port: int)
    | UpdateSearchPath(id: int, nonempty: bool)
    | Remove(id: int)                       // removeServerRecordLocked
    | Poll(port: int, players: nat, maxPlayers: nat)

  predicate Enabled(w: World, e: Event) {
    match e
    case Register(id) => id !in w.recs
    case StartClears(id) => id in w.recs
    case UpdatePort(id, _) => id in w.recs
    case UpdateSearchPath(id, _) => id in w.recs
    case Remove(id) => id in w.recs
    case Poll(_, _, _) => true
  }

  /** The registered ones of some ids, in order: who a poll reply reaches. */
  function Reached(ids: seq<int>, registered: set<int>): seq<int> {
    if |ids| == 0 then []
    else
      Reached(ids[..|ids| - 1], registered) + if ids[|ids| - 1] in registered then [ids[|ids| - 1]] else []
  }

  function Observe(recs: map<int, Record>, ids: seq<int>, players: nat, maxPlayers: nat): map<int, Record> {
    map id | id in recs ::
      if id in ids then recs[id].(seen := true, players := players, maxPlayers := maxPlayers) else recs[id]
  }

  function Next(w: World, e: Event): World
    requires Enabled(w, e)
  {
    match e
    case Register(id) => w.(recs := w.recs[id := UNSTARTED], registered := w.registered + {id})
    case StartClears(id) =>
      w.(byPort := Cleared(w.byPort, w.recs[id], id),
         recs := w.recs[id := w.recs[id].(known := false, port := 0, hasPath := false, spec := None)])
    case UpdatePort(id, port) =>
      if port < 0 || port > 65535 then w
      else
        var w' := Assigned(w, id, port);
        w'.(recs := w'.recs[id := WithSpec(w'.recs[id])])
    case UpdateSearchPath(id, nonempty) =>
      w.(recs := w.recs[id := WithSpec(w.recs[id].(hasPath := nonempty || w.recs[id].hasPath))])
    case Remove(id) =>
      if id !in w.registered then w
      else w.(byPort := Cleared(w.byPort, w.recs[id], id), registered := w.registered - {id})
    case Poll(port, players, maxPlayers) =>
      if !ValidPort(port) then w
      else w.(recs := Observe(w.recs, Reached(IdsAt(w.byPort, port), w.registered), players, maxPlayers))
  }

  function After(events: seq<Event>): World {
    if |events| == 0 then EMPTY
    else
      var w, e := After(events[..|events| - 1]), events[|events| - 1];
      if Enabled(w, e) then Next(w, e) else w
  }

  // --- what holds over every run ---

  predicate Listed(w: World, id: int, port: int) {
    id in IdsAt(w.byPort, port)
  }

  /** The port under which a record belongs in the index, 0 for none. */
  function Home(rec: Record): int {
    if rec.known && ValidPort(rec.port) then rec.port else 0
  }

  ghost predicate GoodRecord(rec: Record) {
    && (if rec.known then 0 <= rec.port <= 65535 else rec.port == 0)
    && rec.spec == if rec.known && rec.hasPath then Some(rec.port) else None
  }

  /** A record is listed nowhere but under its own port, and there if it is registered. */
  ghost predicate Placed(w: World, id: int)
    requires id in w.recs
  {
    && GoodRecord(w.recs[id])
    && (forall port: int :: Listed(w, id, port) ==> port == Home(w.recs[id]) && port > 0)
    && (id in w.registered && Home(w.recs[id]) > 0 ==> Listed(w, id, Home(w.recs[id])))
  }

  ghost predicate Inv(w: World) {
    && (forall id :: id in w.registered ==> id in w.recs)
    && (forall id :: id in w.recs ==> Placed(w, id))
    && (forall port: int, id: int :: Listed(w, id, port) ==> id in w.recs)
    && (forall port :: port in w.byPort ==> |w.byPort[port]| > 0 && Distinct(w.byPort[port]))
  }

  lemma {:induction false} RemovedMembers(byPort: map<int, seq<int>>, port: int, id: int)
    ensures var after := RemovedFrom(byPort, port, id);
            && (forall p: int, x: int :: x in IdsAt(after, p) <==>
                  x in IdsAt(byPort, p) && !(p == port && port > 0 && x == id))
            && ((forall p :: p in byPort ==> |byPort[p]| > 0 && Distinct(byPort[p])) ==>
                  forall p :: p in after ==> |after[p]| > 0 && Distinct(after[p]))
  {
    assert Distinct([]);
    hide Distinct;
    WithoutMembers(IdsAt(byPort, port), id);
  }

  /** Both removals together take the record out of the index and change nothing else. */
  lemma {:induction false} ClearedMembers(w: World, id: int)
    requires Inv(w) && id in w.recs
    ensures var after := Cleared(w.byPort, w.recs[id], id);
            && (forall p: int, x: int :: x in IdsAt(after, p) <==> x in IdsAt(w.byPort, p) && x != id)
            && forall p :: p in after ==> |after[p]| > 0 && Distinct(after[p])
  {
    hide RemovedFrom, Distinct;
    var rec := w.recs[id];
    assert Placed(w, id);
    var once := RemovedFrom(w.byPort, rec.port, id);
    RemovedMembers(w.byPort, rec.port, id);
    if rec.spec.Some? {
      RemovedMembers(once, rec.spec.value, id);
    }
    forall p: int | id in IdsAt(w.byPort, p) ensures p == rec.port && p > 0 {
      assert Listed(w, id, p);
    }
  }

  /** Taking a record out of the index, with no port of its own left or no longer registered. */
  lemma {:induction false} ClearKeeps(w: World, e: Event)
    requires Inv(w) && Enabled(w, e) && (e.StartClears? || e.Remove?)
    ensures Inv(Next(w, e))
    ensures e.StartClears? || e.id in w.registered ==> forall port: int :: !Listed(Next(w, e), e.id, port)
  {
    hide Cleared, Distinct;
    ClearedMembers(w, e.id);
    var w' := Next(w, e);
    if e.StartClears? || e.id in w.registered {
      assert forall p: int, x: int :: Listed(w', x, p) <==> Listed(w, x, p) && x != e.id;
      forall id | id in w'.recs ensures Placed(w', id) {
        assert Placed(w, id);
      }
    }
  }

  lemma {:induction false} UpdateKeeps(w: World, id: int, port: int)
    requires Inv(w) && id in w.recs
    ensures Inv(Next(w, UpdatePort(id, port)))
    ensures forall x: int, p: int :: Listed(Next(w, UpdatePort(id, port)), x, p) <==>
              Listed(w, x, p) || (x == id && p == port && 1 <= port <= 65535 && w.recs[id].port == 0)
  {
    assert Distinct([]);
    hide Distinct;
    var w' := Next(w, UpdatePort(id, port));
    assert Placed(w, id);
    DistinctAppend(IdsAt(w.byPort, port), id);
    forall x: int, p: int
      ensures Listed(w', x, p) <==>
                Listed(w, x, p) || (x == id && p == port && 1 <= port <= 65535 && w.recs[id].port == 0)
    {
    }
    forall x | x in w'.recs ensures Placed(w', x) {
      assert Placed(w, x);
    }
  }

  /** Steps that leave the index and the ports alone. */
  lemma {:induction false} OtherKeeps(w: World, e: Event)
    requires Inv(w) && Enabled(w, e) && (e.Register? || e.UpdateSearchPath? || e.Poll?)
    ensures Inv(Next(w, e)) && Next(w, e).byPort == w.byPort
  {
    hide Distinct, Reached;
    var w' := Next(w, e);
    assert forall p: int, x: int :: Listed(w', x, p) <==> Listed(w, x, p);
    forall id | id in w'.recs ensures Placed(w', id) {
      if id in w.recs {
        assert Placed(w, id);
      }
    }
  }

  lemma {:induction false} RunHolds(events: seq<Event>)
    ensures Inv(After(events))
  {
    assert Inv(EMPTY);
    hide Inv, Next;
    if |events| > 0 {
      var w, e := After(events[..|events| - 1]), events[|events| - 1];
      RunHolds(events[..|events| - 1]);
      if Enabled(w, e) {
        match e
        case Register(_) => OtherKeeps(w, e);
        case StartClears(_) => ClearKeeps(w, e);
        case UpdatePort(id, port) => UpdateKeeps(w, id, port);
        case UpdateSearchPath(_, _) => OtherKeeps(w, e);
        case Remove(_) => ClearKeeps(w, e);
        case Poll(_, _, _) => OtherKeeps(w, e);
      }
    }
  }

  // --- the ports, read off the run ---

  /** An event that makes a record forget what its process had reported. */
  predicate Forgets(e: Event, id: int) {
    e == Register(id) || e == StartClears(id)
  }

  /** The first positive port reported since, 0 while there is none. */
  function Reported(events: seq<Event>, id: int): int {
    if |events| == 0 then 0
    else
      var before, e := events[..|events| - 1], events[|events| - 1];
      if !Enabled(After(before), e) then Reported(before, id)
      else if Forgets(e, id) then 0
      else if e.UpdatePort? && e.id == id && 1 <= e.port <= 65535 && Reported(before, id) == 0 then e.port
      else Reported(before, id)
  }

  /** Whether any port, 0 included, has been reported since. */
  predicate PortHeard(events: seq<Event>, id: int) {
    |events| > 0 &&
    var before, e := events[..|events| - 1], events[|events| - 1];
    if !Enabled(After(before), e) then PortHeard(before, id)
    else !Forgets(e, id) && ((e.UpdatePort? && e.id == id && 0 <= e.port <= 65535) || PortHeard(before, id))
  }

  predicate PathHeard(events: seq<Event>, id: int) {
    |events| > 0 &&
    var before, e := events[..|events| - 1], events[|events| - 1];
    if !Enabled(After(before), e) then PathHeard(before, id)
    else !Forgets(e, id) && (e == UpdateSearchPath(id, true) || PathHeard(before, id))
  }

  /** In every run a record's fields are that: its port, and a spec with it once a search path is known too. */
  lemma {:induction false} RecordIsHistory(events: seq<Event>, id: int)
    requires id in After(events).recs
    ensures var rec := After(events).recs[id];
            && rec.port == Reported(events, id) && rec.known == PortHeard(events, id) && rec.hasPath == PathHeard(events, id)
            && rec.spec == if PortHeard(events, id) && PathHeard(events, id) then Some(Reported(events, id)) else None
  {
    hide Inv, Cleared, Reached, Next;
    var before, e := events[..|events| - 1], events[|events| - 1];
    RunHolds(events);
    if Enabled(After(before), e) {
      RecordStep(After(before), e, id);
    }
    if id in After(before).recs {
      RecordIsHistory(before, id);
      RunHolds(before);
      RecordGood(After(before), id);
    }
    RecordGood(After(events), id);
  }

  lemma {:induction false} RecordGood(w: World, id: int)
    requires Inv(w) && id in w.recs
    ensures GoodRecord(w.recs[id])
  {
    assert Placed(w, id);
  }

  /** One event, on the fields of one record that processes report. */
  lemma {:induction false} RecordStep(w: World, e: Event, id: int)
    requires Enabled(w, e) && id in Next(w, e).recs
    ensures e != Register(id) ==> id in w.recs
    ensures var rec' := Next(w, e).recs[id];
            if Forgets(e, id) then !rec'.known && rec'.port == 0 && !rec'.hasPath
            else
              var rec := w.recs[id];
              var here := e.UpdatePort? && e.id == id && 0 <= e.port <= 65535;
              && rec'.known == (rec.known || here)
              && rec'.port == (if here && (!rec.known || (rec.port <= 0 && e.port != 0)) then e.port else rec.port)
              && rec'.hasPath == (rec.hasPath || e == UpdateSearchPath(id, true))
  {
    hide Cleared, Reached;
  }

  /** In every run a registered instance is listed under exactly the port it listens on, which is the first
      positive one its process has reported, and once. */
  lemma {:induction false} IndexIsListenPort(events: seq<Event>, id: int, port: int)
    requires id in After(events).registered && port > 0
    ensures var w := After(events);
            && id in w.recs && ListenPort(w.recs[id]) == Reported(events, id)
            && (Listed(w, id, port) <==> Reported(events, id) == port)
    ensures Distinct(IdsAt(After(events).byPort, port))
  {
    hide After, Reported, PortHeard, PathHeard;
    RunHolds(events);
    assert Placed(After(events), id);
    RecordIsHistory(events, id);
  }

  lemma {:induction false} ReachedMembers(ids: seq<int>, registered: set<int>)
    ensures forall x :: x in Reached(ids, registered) <==> x in ids && x in registered
    ensures Distinct(ids) ==> Distinct(Reached(ids, registered))
  {
    if |ids| > 0 {
      var n := |ids| - 1;
      assert ids == ids[..n] + [ids[n]];
      ReachedMembers(ids[..n], registered);
      if Distinct(ids) {
        assert ids[n] !in ids[..n];
        DistinctAppend(Reached(ids[..n], registered), ids[n]);
      }
    }
  }

  /** A poll reply reaches exactly the registered instances that listen on its port, each once, and
      changes no other record. */
  lemma {:induction false} PollReaches(events: seq<Event>, port: int, players: nat, maxPlayers: nat, id: int)
    requires ValidPort(port) && id in After(events).recs
    ensures var w := After(events);
            var w', reached := Next(w, Poll(port, players, maxPlayers)), Reached(IdsAt(w.byPort, port), w.registered);
            && Distinct(reached) && (id in reached <==> id in w.registered && ListenPort(w.recs[id]) == port)
            && w'.recs[id] == if id in reached
                              then w.recs[id].(seen := true, players := players, maxPlayers := maxPlayers)
                              else w.recs[id]
  {
    assert Distinct([]);
    hide After, Distinct, ListenPort;
    var w := After(events);
    RunHolds(events);
    ReachedMembers(IdsAt(w.byPort, port), w.registered);
    if id in w.registered {
      IndexIsListenPort(events, id, port);
    }
  }

  // --- removed records ---

  /** The index lists registered instances only. */
  ghost predicate OnlyRegistered(w: World) {
    forall id: int, port: int :: Listed(w, id, port) ==> id in w.registered
  }

  /** A port callback of a removed record that never had a port. */
  predicate LateCallback(w: World, e: Event) {
    && e.UpdatePort? && e.id in w.recs && e.id !in w.registered
    && 1 <= e.port <= 65535 && w.recs[e.id].port == 0
  }

  /** The index goes on listing registered instances only if and only if no such callback comes. */
  lemma {:induction false} LateCallbackBreaks(events: seq<Event>, e: Event)
    requires OnlyRegistered(After(events)) && Enabled(After(events), e)
    ensures OnlyRegistered(Next(After(events), e)) <==> !LateCallback(After(events), e)
  {
    assert e.UpdatePort? ==> Next(After(events), e).registered == After(events).registered;
    hide After, Next;
    var w := After(events);
    RunHolds(events);
    match e
    case Register(_) => RegisteredStay(w, e);
    case UpdateSearchPath(_, _) => RegisteredStay(w, e);
    case Poll(_, _, _) => RegisteredStay(w, e);
    case StartClears(_) => ClearStays(w, e);
    case Remove(_) => ClearStays(w, e);
    case UpdatePort(id, port) =>
      UpdateKeeps(w, id, port);
      if LateCallback(w, e) {
        assert Listed(Next(w, e), id, port);
      }
  }

  lemma {:induction false} RegisteredStay(w: World, e: Event)
    requires Inv(w) && OnlyRegistered(w) && Enabled(w, e) && (e.Register? || e.UpdateSearchPath? || e.Poll?)
    ensures OnlyRegistered(Next(w, e))
  {
    hide Inv;
    OtherKeeps(w, e);
    assert forall p: int, x: int :: Listed(Next(w, e), x, p) <==> Listed(w, x, p);
  }

  lemma {:induction false} ClearStays(w: World, e: Event)
    requires Inv(w) && OnlyRegistered(w) && Enabled(w, e) && (e.StartClears? || e.Remove?)
    ensures OnlyRegistered(Next(w, e))
  {
    hide Cleared, Inv, Distinct;
    ClearedMembers(w, e.id);
    var w' := Next(w, e);
    forall p: int, x: int | Listed(w', x, p) ensures x in w'.registered {
      assert Listed(w, x, p);
    }
  }

  /** A run in which it does come: register, remove, and the port is reported after that. */
  lemma {:induction false} StaleEntry()
    ensures var w := After([Register(0), Remove(0), UpdatePort(0, 26000)]);
            Listed(w, 0, 26000) && 0 !in w.registered
  {
    var e := [Register(0), Remove(0), UpdatePort(0, 26000)];
    var w1 := World(map[0 := UNSTARTED], {0}, map[]);
    assert After(e[..1]) == w1 by {
      assert e[..1][..0] == [];
    }
    assert e[..2][..1] == e[..1];
    assert After(e[..2]) == w1.(registered := {});
  }

  // --- the methods ---

  class Ports {
    var recs: map<int, Record>
    var registered: set<int>
    var byPort: map<int, seq<int>>

    ghost function View(): World
      reads this
    {
      World(recs, registered, byPort)
    }

    constructor ()
      ensures View() == EMPTY
    {
      recs, registered, byPort := map[], {}, map[];
    }

    /** assignPortLocked. */
    method AssignPort(id: int, port: int)
      requires id in recs
      modifies this
      ensures View() == Assigned(old(View()), id, port)
    {
      if port < 0 || port > 65535 {
        return;
      }
      var rec := recs[id];
      if rec.known {
        if rec.port > 0 {
          return;
        }
        if port == 0 {
          return;
        }
      }
      recs := recs[id := rec.(known := true, port := port)];
      if port < 1 {
        return;
      }
      var ids := if port in byPort then byPort[port] else [];
      if id !in ids {
        byPort := byPort[port := ids + [id]];
      }
    }

    /** removeServerIDFromPortLocked. */
    method RemoveFromPort(port: int, id: int)
      modifies `byPort
      ensures byPort == RemovedFrom(old(byPort), port, id)
    {
      if port <= 0 {
        return;
      }
      var all, ids: seq<int> := if port in byPort then byPort[port] else [], [];
      for i := 0 to |all|
        invariant ids == Without(all[..i], id)
      {
        assert all[..i + 1][..i] == all[..i];
        if all[i] != id {
          ids := ids + [all[i]];
        }
      }
      assert all[..|all|] == all;
      if |ids| == 0 {
        byPort := byPort - {port};
        return;
      }
      byPort := byPort[port := ids];
    }

    method UpdatePort(id: int, port: int)
      requires id in recs
      modifies this
      ensures View() == Next(old(View()), Event.UpdatePort(id, port))
    {
      if port < 0 || port > 65535 {
        return;
      }
      AssignPort(id, port);
      recs := recs[id := WithSpec(recs[id])];
    }

    method UpdateSearchPath(id: int, nonempty: bool)
      requires id in recs
      modifies this
      ensures View() == Next(old(View()), Event.UpdateSearchPath(id, nonempty))
    {
      if nonempty {
        recs := recs[id := recs[id].(hasPath := true)];
      }
      recs := recs[id := WithSpec(recs[id])];
    }

    /** The first critical section of startRecord. */
    method ClearForStart(id: int)
      requires id in recs
      modifies this
      ensures View() == Next(old(View()), StartClears(id))
    {
      var rec := recs[id];
      RemoveFromPort(rec.port, id);
      if rec.spec.Some? {
        RemoveFromPort(rec.spec.value, id);
      }
      recs := recs[id := rec.(known := false, port := 0, hasPath := false, spec := None)];
    }

    /** removeServerRecordLocked, without the server's own lists. */
    method RemoveRecord(id: int)
      requires id in recs
      modifies this
      ensures View() == Next(old(View()), Remove(id))
    {
      if id !in registered {
        return;
      }
      var rec := recs[id];
      RemoveFromPort(rec.port, id);
      if rec.spec.Some? {
        RemoveFromPort(rec.spec.value, id);
      }
      registered := registered - {id};
    }

    /** The bookkeeping half of updateGameState. */
    method UpdateGameState(port: int, players: nat, maxPlayers: nat) returns (reached: seq<int>)
      requires registered <= recs.Keys
      modifies this
      ensures View() == Next(old(View()), Poll(port, players, maxPlayers))
      ensures ValidPort(port) ==> reached == Reached(IdsAt(byPort, port), registered)
    {
      reached := [];
      if port < 1 || port > 65535 {
        return;
      }
      var ids := if port in byPort then byPort[port] else [];
      ghost var was := recs;
      for i := 0 to |ids|
        invariant registered == old(registered) && byPort == old(byPort)
        invariant reached == Reached(ids[..i], registered) && recs == Observe(was, reached, players, maxPlayers)
      {
        assert ids[..i + 1][..i] == ids[..i];
        var id := ids[i];
        if id !in registered {
          continue;
        }
        recs := recs[id := recs[id].(seen := true, players := players, maxPlayers := maxPlayers)];
        reached := reached + [id];
      }
      assert ids[..|ids|] == ids;
    }
  }
}
