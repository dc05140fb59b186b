/** The autoscaler's decision pass over one server's instances. */
module Autoscale {
  import opened Common

  datatype Lifecycle = Warming | Active | Draining | Terminating

  /** instanceState. */
  datatype Phase = Phase(life: Lifecycle, streak: nat)

  /** What the pass reads of an instance record; port is its listen port, 0 when unresolved. */
  datatype Instance = Instance(running: bool, seen: bool, players: nat, maxPlayers: nat, port: int)

  const DESPAWN_ZERO_POLLS: nat := 6
  const SCALE_UP_COOLDOWN: int := 30_000_000_000  // nanoseconds

  type Records = map<int, Instance>
  type Phases = map<int, Phase>

  predicate IsRunning(recs: Records, id: int) {
    id in recs && recs[id].running
  }

  /** ensureServerInstanceStateLocked: a missing state is a fresh warming one. */
  function PhaseOf(phases: Phases, id: int): Phase {
    if id in phases then phases[id] else Phase(Warming, 0)
  }

  predicate IsActive(recs: Records, phases: Phases, id: int) {
    IsRunning(recs, id) && PhaseOf(phases, id).life == Active
  }

  /** serverRoutableCandidatesLocked on an autoscaling server. */
  predicate IsRoutable(recs: Records, phases: Phases, id: int, allowDraining: bool) {
    && IsRunning(recs, id) && id in phases && ValidPort(recs[id].port)
    && (phases[id].life == Active || (allowDraining && phases[id].life == Draining))
  }

  function NumRunning(ids: seq<int>, recs: Records): (n: nat)
    ensures n <= |ids|
  {
    if |ids| == 0 then 0
    else NumRunning(ids[..|ids| - 1], recs) + if IsRunning(recs, ids[|ids| - 1]) then 1 else 0
  }

  function NumActive(ids: seq<int>, recs: Records, phases: Phases): nat {
    if |ids| == 0 then 0
    else NumActive(ids[..|ids| - 1], recs, phases) + if IsActive(recs, phases, ids[|ids| - 1]) then 1 else 0
  }

  function NumRoutable(ids: seq<int>, recs: Records, phases: Phases): nat {
    if |ids| == 0 then 0
    else NumRoutable(ids[..|ids| - 1], recs, phases) + if IsRoutable(recs, phases, ids[|ids| - 1], false) then 1 else 0
  }

  function SumUsers(ids: seq<int>, recs: Records): nat {
    if |ids| == 0 then 0
    else SumUsers(ids[..|ids| - 1], recs) + if IsRunning(recs, ids[|ids| - 1]) then recs[ids[|ids| - 1]].players else 0
  }

  function SumMaxUsers(ids: seq<int>, recs: Records): nat {
    if |ids| == 0 then 0
    else SumMaxUsers(ids[..|ids| - 1], recs) + if IsRunning(recs, ids[|ids| - 1]) then recs[ids[|ids| - 1]].maxPlayers else 0
  }

  /** The aggregates are uint16 fields, filled with saturation. */
  function Sat16(x: nat): nat {
    if x > 0xffff then 0xffff else x
  }

  function Max(a: int, b: int): int {
    if a > b then a else b
  }

  function FreeSlots(ids: seq<int>, recs: Records): nat {
    var users, maxUsers := Sat16(SumUsers(ids, recs)), Sat16(SumMaxUsers(ids, recs));
    if maxUsers > 0 && maxUsers >= users then maxUsers - users else 0
  }

  /** The scan's working state: the lifecycles, the running counter of active instances, the choice. */
  datatype Acc = Acc(phases: Phases, active: int, despawn: Option<int>)

  /** setLifecycle and the streak assignment after it. */
  function SetPhase(acc: Acc, id: int, next: Phase): Acc {
    var prev := PhaseOf(acc.phases, id).life;
    var delta := (if next.life == Active then 1 else 0) - (if prev == Active then 1 else 0);
    acc.(phases := acc.phases[id := next], active := acc.active + delta)
  }

  function CanDrain(acc: Acc, id: int, rec: Instance, free: nat, needed: nat, inFlight: bool): bool {
    && acc.active > 1
    && free - Max(1, rec.maxPlayers - rec.players) >= needed
    && !(inFlight && PhaseOf(acc.phases, id).life != Draining)
  }

  /** One turn of the scan. */
  function ScanOne(acc: Acc, id: int, recs: Records, free: nat, needed: nat, inFlight: bool): Acc {
    if !IsRunning(recs, id) then acc
    else
      var rec, phase := recs[id], PhaseOf(acc.phases, id);
      if phase.life == Terminating then acc.(phases := acc.phases[id := phase])
      else if !rec.seen then SetPhase(acc, id, Phase(Warming, 0))
      else if rec.players > 0 then SetPhase(acc, id, Phase(Active, 0))
      else if !CanDrain(acc, id, rec, free, needed, inFlight) then SetPhase(acc, id, Phase(Active, 0))
      else if phase.streak + 1 >= DESPAWN_ZERO_POLLS && acc.despawn.None? then
        SetPhase(acc, id, Phase(Terminating, 0)).(despawn := Some(id))
      else SetPhase(acc, id, Phase(Draining, phase.streak + 1))
  }

  function Scan(ids: seq<int>, recs: Records, phases: Phases, free: nat, needed: nat, inFlight: bool, active: int): Acc {
    if |ids| == 0 then Acc(phases, active, None)
    else
      var n := |ids| - 1;
      ScanOne(Scan(ids[..n], recs, phases, free, needed, inFlight, active), ids[n], recs, free, needed, inFlight)
  }

  /** The lifecycles and the instance to despawn after a pass. */
  function Pass(ids: seq<int>, recs: Records, phases: Phases, needed: nat, inFlight: bool): Acc {
    Scan(ids, recs, phases, FreeSlots(ids, recs), needed, inFlight, Sat16(NumRoutable(ids, recs, phases)))
  }

  /** Whether the pass asks for a new replica. */
  predicate WantsReplica(
      ids: seq<int>, recs: Records, needed: nat, inFlight: bool, maxInstances: int, lastUp: Option<int>, now: int) {
    && Sat16(SumMaxUsers(ids, recs)) > 0
    && FreeSlots(ids, recs) < needed
    && !inFlight
    && Sat16(NumRunning(ids, recs)) < Max(1, maxInstances)
    && (lastUp.None? || now - lastUp.value >= SCALE_UP_COOLDOWN)
  }

  /** What the registry keeps between passes: only polled instances with a port leave Warming. */
  ghost predicate Consistent(ids: seq<int>, recs: Records, phases: Phases) {
    && Distinct(ids)
    && forall i :: 0 <= i < |ids| ==> SeenWhenUp(recs, phases, ids[i])
  }

  ghost predicate SeenWhenUp(recs: Records, phases: Phases, id: int) {
    && (IsRunning(recs, id) && PhaseOf(phases, id).life != Warming ==> recs[id].seen && ValidPort(recs[id].port))
    && (PhaseOf(phases, id).streak > 0 ==> PhaseOf(phases, id).life == Draining)
  }

  // --- the counter ---

  lemma {:induction false} ActiveElsewhere(ids: seq<int>, recs: Records, phases: Phases, id: int, next: Phase)
    requires id !in ids
    ensures NumActive(ids, recs, phases[id := next]) == NumActive(ids, recs, phases)
  {
    if |ids| > 0 {
      assert ids[|ids| - 1] in ids;
      ActiveElsewhere(ids[..|ids| - 1], recs, phases, id, next);
    }
  }

  /** Changing one lifecycle moves the number of active instances by what setLifecycle adds. */
  lemma {:induction false} ActiveUpdate(ids: seq<int>, recs: Records, phases: Phases, id: int, next: Phase)
    requires Distinct(ids) && id in ids && IsRunning(recs, id)
    ensures NumActive(ids, recs, phases[id := next]) ==
            NumActive(ids, recs, phases) + (if next.life == Active then 1 else 0)
            - (if PhaseOf(phases, id).life == Active then 1 else 0)
  {
    var n := |ids| - 1;
    if ids[n] == id {
      ActiveElsewhere(ids[..n], recs, phases, id, next);
    } else {
      assert id in ids[..n];
      ActiveUpdate(ids[..n], recs, phases, id, next);
    }
  }

  /** A scan touches only the instances it has visited. */
  lemma {:induction false} ScanTouches(
      ids: seq<int>, recs: Records, phases: Phases, free: nat, needed: nat, inFlight: bool, active: int, id: int)
    requires id !in ids
    ensures PhaseOf(Scan(ids, recs, phases, free, needed, inFlight, active).phases, id) == PhaseOf(phases, id)
  {
    if |ids| > 0 {
      assert ids[|ids| - 1] in ids;
      ScanTouches(ids[..|ids| - 1], recs, phases, free, needed, inFlight, active, id);
    }
  }

  /** One turn moves the counter and the number of active instances alike. */
  lemma {:induction false} TurnCounter(
      all: seq<int>, acc: Acc, id: int, recs: Records, free: nat, needed: nat, inFlight: bool)
    requires Distinct(all) && id in all
    ensures var next := ScanOne(acc, id, recs, free, needed, inFlight);
            next.active - acc.active == NumActive(all, recs, next.phases) - NumActive(all, recs, acc.phases)
  {
    hide NumActive, CanDrain;
    if IsRunning(recs, id) {
      ActiveUpdate(all, recs, acc.phases, id, PhaseOf(ScanOne(acc, id, recs, free, needed, inFlight).phases, id));
    }
  }

  /** Through the whole scan its counter stays as far behind the number of running active instances as
      it was at the start: d. */
  lemma {:induction false} ScanCounter(
      all: seq<int>, k: nat, recs: Records, phases: Phases, free: nat, needed: nat, inFlight: bool, active: int, d: int)
    requires k <= |all| && Distinct(all) && active + d == NumActive(all, recs, phases)
    ensures var acc := Scan(all[..k], recs, phases, free, needed, inFlight, active);
            acc.active + d == NumActive(all, recs, acc.phases)
  {
    hide NumActive, ScanOne;
    if k > 0 {
      assert all[..k][..k - 1] == all[..k - 1];
      ScanCounter(all, k - 1, recs, phases, free, needed, inFlight, active, d);
      var acc := Scan(all[..k - 1], recs, phases, free, needed, inFlight, active);
      TurnCounter(all, acc, all[k - 1], recs, free, needed, inFlight);
    }
  }

  /** The snapshot's joinable count is that number when a pass starts. */
  lemma {:induction false} RoutableIsActive(ids: seq<int>, recs: Records, phases: Phases)
    requires forall i :: 0 <= i < |ids| ==> SeenWhenUp(recs, phases, ids[i])
    ensures NumRoutable(ids, recs, phases) == NumActive(ids, recs, phases) <= NumRunning(ids, recs)
  {
    if |ids| > 0 {
      RoutableIsActive(ids[..|ids| - 1], recs, phases);
      assert SeenWhenUp(recs, phases, ids[|ids| - 1]);
    }
  }

  /** How far the uint16 count of active instances is behind them. */
  function Behind(ids: seq<int>, recs: Records, phases: Phases): (d: nat)
    ensures NumActive(ids, recs, phases) <= 0xffff ==> d == 0
    ensures NumActive(ids, recs, phases) > 0xffff ==> d > 0
  {
    NumActive(ids, recs, phases) - Sat16(NumActive(ids, recs, phases))
  }

  /** At every point of a pass its counter is the number of running active instances, if and only if no
      more than 65535 were active at its start; otherwise it stays behind by the excess. */
  lemma {:induction false} PassCounter(ids: seq<int>, k: nat, recs: Records, phases: Phases, needed: nat, inFlight: bool)
    requires Consistent(ids, recs, phases) && k <= |ids|
    ensures var active := Sat16(NumRoutable(ids, recs, phases));
            var acc := Scan(ids[..k], recs, phases, FreeSlots(ids, recs), needed, inFlight, active);
            && active == Sat16(NumActive(ids, recs, phases))
            && acc.active + Behind(ids, recs, phases) == NumActive(ids, recs, acc.phases)
            && (acc.active == NumActive(ids, recs, acc.phases) <==> NumActive(ids, recs, phases) <= 0xffff)
  {
    hide NumActive;
    RoutableIsActive(ids, recs, phases);
    var active, d := Sat16(NumActive(ids, recs, phases)), Behind(ids, recs, phases);
    ScanCounter(ids, k, recs, phases, FreeSlots(ids, recs), needed, inFlight, active, d);
  }

  lemma {:induction false} SomeActive(ids: seq<int>, recs: Records, phases: Phases)
    ensures NumActive(ids, recs, phases) > 0 <==> exists i :: 0 <= i < |ids| && IsActive(recs, phases, ids[i])
  {
    if |ids| > 0 {
      var n := |ids| - 1;
      SomeActive(ids[..n], recs, phases);
      if NumActive(ids, recs, phases) > 0 && !IsActive(recs, phases, ids[n]) {
        var i :| 0 <= i < n && IsActive(recs, phases, ids[..n][i]);
        assert IsActive(recs, phases, ids[i]);
      }
      if i :| 0 <= i < n && IsActive(recs, phases, ids[i]) {
        assert IsActive(recs, phases, ids[..n][i]);
      }
    }
  }

  // --- what a pass leaves ---

  ghost predicate Eligible(recs: Records, phases: Phases, id: int) {
    IsRunning(recs, id) && recs[id].seen && PhaseOf(phases, id).life != Terminating
  }

  /** Once the scan's counter is at least one it stays so, and an eligible instance brings it there. */
  lemma {:induction false} ScanKeepsActive(
      all: seq<int>, k: nat, recs: Records, phases: Phases, free: nat, needed: nat, inFlight: bool, active: nat)
    requires k <= |all| && Distinct(all)
    requires forall i :: 0 <= i < |all| ==> SeenWhenUp(recs, phases, all[i])
    requires active == 0 ==> forall i :: 0 <= i < |all| ==> !IsActive(recs, phases, all[i])
    ensures var acc := Scan(all[..k], recs, phases, free, needed, inFlight, active);
            && acc.active >= 0 && (active > 0 ==> acc.active >= 1)
            && ((exists i :: 0 <= i < k && Eligible(recs, phases, all[i])) ==> acc.active >= 1)
  {
    if k > 0 {
      var before, id := all[..k - 1], all[k - 1];
      assert all[..k][..k - 1] == before;
      ScanKeepsActive(all, k - 1, recs, phases, free, needed, inFlight, active);
      ScanTouches(before, recs, phases, free, needed, inFlight, active, id);
      StepKeepsActive(Scan(before, recs, phases, free, needed, inFlight, active), id, recs, phases, free, needed, inFlight);
    }
  }

  /** After a pass some instance is active, if one was running, polled and not terminating before it. */
  lemma {:induction false} PassLeavesActive(ids: seq<int>, recs: Records, phases: Phases, needed: nat, inFlight: bool)
    requires Consistent(ids, recs, phases)
    requires exists i :: 0 <= i < |ids| && Eligible(recs, phases, ids[i])
    ensures var after := Pass(ids, recs, phases, needed, inFlight).phases;
            exists i :: 0 <= i < |ids| && IsActive(recs, after, ids[i])
  {
    assert ids[..|ids|] == ids;
    PassCounter(ids, |ids|, recs, phases, needed, inFlight);
    var active := Sat16(NumRoutable(ids, recs, phases));
    SomeActive(ids, recs, phases);
    ScanKeepsActive(ids, |ids|, recs, phases, FreeSlots(ids, recs), needed, inFlight, active);
    SomeActive(ids, recs, Pass(ids, recs, phases, needed, inFlight).phases);
  }

  /** When the scan marks an instance it has drained it five passes before and counts two others active. */
  ghost predicate Chosen(recs: Records, phases: Phases, acc: Acc, id: int) {
    && acc.despawn == Some(id) && PhaseOf(acc.phases, id) == Phase(Terminating, 0)
    && IsRunning(recs, id) && recs[id].seen && recs[id].players == 0
    && PhaseOf(phases, id).life == Draining && PhaseOf(phases, id).streak + 1 >= DESPAWN_ZERO_POLLS
    && acc.active >= 1
  }

  predicate Ended(before: Phases, after: Phases, id: int) {
    PhaseOf(after, id).life == Terminating && PhaseOf(before, id).life != Terminating
  }

  /** A pass ends at most one instance, and only a drained one with other active instances around. */
  lemma {:induction false} ScanTerminates(
      all: seq<int>, k: nat, recs: Records, phases: Phases, free: nat, needed: nat, inFlight: bool, active: int)
    requires k <= |all| && Distinct(all)
    requires forall i :: 0 <= i < |all| ==> SeenWhenUp(recs, phases, all[i])
    ensures var acc := Scan(all[..k], recs, phases, free, needed, inFlight, active);
            && (acc.despawn.Some? ==> acc.despawn.value in all[..k] && Chosen(recs, phases, acc, acc.despawn.value))
            && (forall i :: 0 <= i < |all| && Ended(phases, acc.phases, all[i]) ==> acc.despawn == Some(all[i]))
  {
    hide NumActive;
    if k > 0 {
      var before, id := all[..k - 1], all[k - 1];
      assert all[..k][..k - 1] == before;
      ScanTerminates(all, k - 1, recs, phases, free, needed, inFlight, active);
      ScanTouches(before, recs, phases, free, needed, inFlight, active, id);
      var acc, next := Scan(before, recs, phases, free, needed, inFlight, active),
                       Scan(all[..k], recs, phases, free, needed, inFlight, active);
      assert SeenWhenUp(recs, phases, id);
      if acc.despawn.Some? {
        var chosen := acc.despawn.value;
        assert chosen in before && chosen != id;
        assert all[..k] == before + [id];
        StepKeepsActive(acc, id, recs, phases, free, needed, inFlight);
      }
    }
  }

  lemma {:induction false} StepKeepsActive(
      acc: Acc, id: int, recs: Records, phases: Phases, free: nat, needed: nat, inFlight: bool)
    requires SeenWhenUp(recs, phases, id) && PhaseOf(acc.phases, id) == PhaseOf(phases, id)
    ensures var next := ScanOne(acc, id, recs, free, needed, inFlight);
            && (acc.active >= 1 ==> next.active >= 1)
            && (acc.active >= 0 && !IsActive(recs, phases, id) ==>
                  next.active >= 0 && (Eligible(recs, phases, id) ==> next.active >= 1))
  {
  }

  /** The moment of choice: the scan has counted at least two active instances, neither the chosen one. */
  lemma {:induction false} ChoiceMoment(
      all: seq<int>, k: nat, recs: Records, phases: Phases, free: nat, needed: nat, inFlight: bool, active: int)
    requires k < |all| && Distinct(all) && active <= NumActive(all, recs, phases)
    requires forall i :: 0 <= i < |all| ==> SeenWhenUp(recs, phases, all[i])
    ensures var acc := Scan(all[..k], recs, phases, free, needed, inFlight, active);
            var next := Scan(all[..k + 1], recs, phases, free, needed, inFlight, active);
            acc.despawn.None? && next.despawn.Some? ==>
              && next.despawn == Some(all[k]) && NumActive(all, recs, acc.phases) >= 2
              && !IsActive(recs, acc.phases, all[k])
  {
    hide NumActive;
    assert all[..k + 1][..k] == all[..k];
    ScanCounter(all, k, recs, phases, free, needed, inFlight, active, NumActive(all, recs, phases) - active);
    ScanTouches(all[..k], recs, phases, free, needed, inFlight, active, all[k]);
    assert SeenWhenUp(recs, phases, all[k]);
  }

  /** The whole rule for one pass. */
  lemma {:induction false} PassTerminates(ids: seq<int>, recs: Records, phases: Phases, needed: nat, inFlight: bool)
    requires Consistent(ids, recs, phases)
    ensures var acc := Pass(ids, recs, phases, needed, inFlight);
            && (acc.despawn.Some? ==>
                  && acc.despawn.value in ids && Chosen(recs, phases, acc, acc.despawn.value)
                  && exists i :: 0 <= i < |ids| && ids[i] != acc.despawn.value && IsActive(recs, acc.phases, ids[i]))
            && (forall i :: 0 <= i < |ids| && Ended(phases, acc.phases, ids[i]) ==> acc.despawn == Some(ids[i]))
  {
    hide NumActive;
    assert ids[..|ids|] == ids;
    PassCounter(ids, |ids|, recs, phases, needed, inFlight);
    ScanTerminates(ids, |ids|, recs, phases, FreeSlots(ids, recs), needed, inFlight, Sat16(NumRoutable(ids, recs, phases)));
    SomeActive(ids, recs, Pass(ids, recs, phases, needed, inFlight).phases);
  }

  /** The saturated running count guards the cap for every number of instances exactly when the cap fits uint16. */
  lemma {:induction false} CapGuard(maxInstances: int)
    ensures (forall n: nat :: Sat16(n) < Max(1, maxInstances) ==> n < Max(1, maxInstances)) <==> maxInstances <= 0xffff
  {
    if maxInstances > 0xffff {
      assert Sat16(maxInstances) < Max(1, maxInstances);
    }
  }
}
