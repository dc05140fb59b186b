/** `stateHub` of sse.go with its fields: each critical section takes the step of the hub's protocol. */
module HubServer {
  import opened Common
  import opened StateHub

  class Server {
    var last: Option<Snapshot>
    // the subscribers' channels, and whether each holds a signal
    var subs: map<int, bool>

    /** The fields are the ones of a hub of the protocol. */
    ghost predicate Matches(h: Hub)
      reads this
    {
      last == h.last && subs.Keys == h.subs.Keys && forall id :: id in subs ==> subs[id] == h.subs[id].pending
    }

    constructor (ghost source: Snapshot)
      ensures Matches(After(source, []))
    {
      last, subs := None, map[];
    }

    method Subscribe(id: int, ghost h: Hub)
      requires Matches(h) && Enabled(h, Event.Subscribe(id))
      modifies this
      ensures Matches(Next(h, Event.Subscribe(id)))
    {
      subs := subs[id := false];
    }

    method Unsubscribe(id: int, ghost h: Hub)
      requires Matches(h) && Enabled(h, Leave(id))
      modifies this
      ensures Matches(Next(h, Leave(id)))
    {
      subs := subs - {id};
    }

    /** Receiving from a channel empties it. */
    method TakeSignal(id: int, ghost h: Hub)
      requires Matches(h) && Enabled(h, Receive(id))
      modifies this
      ensures Matches(Next(h, Receive(id)))
    {
      subs := subs[id := false];
    }

    /** snapshot(): the recorded one, or a build of the source when there is none. */
    method ReadSnapshot(built: Snapshot, id: int, ghost h: Hub) returns (snap: Snapshot)
      requires Matches(h) && Enabled(h, Read(id)) && built == h.source
      ensures var read := Next(h, Read(id));
              var held := if Enabled(read, Build(id)) then Next(read, Build(id)) else read;
              Matches(held) && held.subs[id].phase == Holding(snap)
    {
      snap := built;
      if last.Some? {
        snap := last.value;
      }
    }

    /** The first critical section of a tick: whether anybody listens. */
    method HasSubscribers(ghost h: Hub) returns (some: bool)
      requires Matches(h) && h.poller == Idle
      ensures some <==> Enabled(h, Tick)
    {
      some := |subs| > 0;
      assert |subs| == |subs.Keys| && |h.subs| == |h.subs.Keys|;
    }

    /** The second one: compare, store and signal, a channel that is full left alone. */
    method RecordSnapshot(snap: Snapshot, ghost h: Hub)
      requires Matches(h) && h.poller == Built(snap)
      modifies this
      ensures Matches(Next(h, Record))
    {
      var changed := last.None? || snap != last.value;
      last := Some(snap);
      if !changed {
        return;
      }
      var rest := subs.Keys;
      while rest != {}
        invariant rest <= subs.Keys == h.subs.Keys && last == Some(snap)
        invariant forall id :: id in subs ==> subs[id] == (h.subs[id].pending || id !in rest)
        decreases |rest|
      {
        SomeInt(rest);
        var ch: int :| ch in rest;
        if !subs[ch] {
          subs := subs[ch := true];
        }
        rest := rest - {ch};
      }
    }
  }
}
