/** VirtualIP allocation and the session registry over every interleaving: vip.go, session.go, trunk.go. */
module VirtualIps {
  import opened Common

  datatype Ip4 = Ip4(a: byte, b: byte, c: byte, d: byte)

  const NO_IP: Ip4 := Ip4(0, 0, 0, 0)
  const MAX_PROBES: nat := 4096

  /** binary.BigEndian.Uint32. */
  function Key(ip: Ip4): nat {
    16777216 * ip.a + 65536 * ip.b + 256 * ip.c + ip.d
  }

  lemma {:induction false} KeyInjective(x: Ip4, y: Ip4)
    requires Key(x) == Key(y)
    ensures x == y
  {
    assert x.a == y.a;
    assert x.b == y.b;
    assert x.c == y.c;
  }

  /** The 64-bit hash of a seed, by source key and probe number. */
  type Hash = (string, nat) -> nat

  function Candidate(sum: nat): Ip4 {
    Ip4(127, sum / 0x100_0000_0000_0000 % 256, sum / 0x1_0000_0000_0000 % 256, sum / 0x100_0000_0000 % 256)
  }

  /** The source key with surrounding space trimmed; an empty one has a name of its own. */
  function SeedKey(trimmed: string): string {
    if |trimmed| == 0 then "unknown" else trimmed
  }

  predicate Free(used: set<nat>, server: Option<Ip4>, ip: Ip4) {
    server != Some(ip) && Key(ip) !in used
  }

  /** The first free candidate from probe p on. */
  function FirstFree(used: set<nat>, server: Option<Ip4>, hash: Hash, key: string, p: nat): (r: Option<Ip4>)
    requires p <= MAX_PROBES
    ensures r.Some? ==> Free(used, server, r.value) && r.value.a == 127
    decreases MAX_PROBES - p
  {
    if p == MAX_PROBES then None
    else
      var ip := Candidate(hash(key, p));
      if Free(used, server, ip) then Some(ip) else FirstFree(used, server, hash, key, p + 1)
  }

  /** A probe whose candidate is neither the server's address nor in use. */
  predicate FreeProbe(used: set<nat>, server: Option<Ip4>, hash: Hash, key: string, p: nat) {
    var ip := Candidate(hash(key, p));
    server != Some(ip) && Key(ip) !in used
  }

  /** The candidate is 127 and the three highest bytes of the 64-bit sum. */
  lemma {:induction false} CandidateBytes(sum: nat) returns (low: nat)
    requires sum < 0x1_0000_0000_0000_0000
    ensures var ip := Candidate(sum);
            && ip.a == 127 && low < 0x100_0000_0000
            && sum == 0x100_0000_0000_0000 * ip.b + 0x1_0000_0000_0000 * ip.c + 0x100_0000_0000 * ip.d + low
  {
    low := sum % 0x100_0000_0000;
    var x, y, z := sum / 0x100_0000_0000, sum / 0x1_0000_0000_0000, sum / 0x100_0000_0000_0000;
    assert y == x / 256 && z == y / 256;
  }

  /** The answer is the candidate of the first free probe, and there is one as long as some probe is free. */
  lemma {:induction false} FirstFreeProbe(used: set<nat>, server: Option<Ip4>, hash: Hash, key: string, p: nat)
    returns (q: nat)
    requires p <= 4096
    ensures p <= q <= 4096 && forall j :: p <= j < q ==> !FreeProbe(used, server, hash, key, j)
    ensures q < 4096 ==> FreeProbe(used, server, hash, key, q)
    ensures FirstFree(used, server, hash, key, p) == if q < 4096 then Some(Candidate(hash(key, q))) else None
    decreases 4096 - p
  {
    hide Candidate, Key;
    q := p;
    if p < 4096 && !FreeProbe(used, server, hash, key, p) {
      q := FirstFreeProbe(used, server, hash, key, p + 1);
    }
  }

  class Allocator {
    const server: Option<Ip4>
    const hash: Hash
    var used: set<nat>

    constructor (server: Option<Ip4>, hash: Hash)
      ensures this.server == server && this.hash == hash && used == {}
    {
      this.server, this.hash, used := server, hash, {};
    }

    /** Fails exactly when none of the 4096 probes is free, and takes the first one that is. */
    method Alloc(trimmed: string) returns (ip: Option<Ip4>)
      modifies this
      ensures ip == FirstFree(old(used), server, hash, SeedKey(trimmed), 0)
      ensures var key := if trimmed == "" then "unknown" else trimmed;
              if exists p: nat :: p < 4096 && FreeProbe(old(used), server, hash, key, p) then
                exists p: nat :: p < 4096 && FreeProbe(old(used), server, hash, key, p)
                  && (forall j: nat :: j < p ==> !FreeProbe(old(used), server, hash, key, j))
                  && ip == Some(Candidate(hash(key, p)))
              else ip == None
      ensures used == old(used) + if ip.Some? then {Key(ip.value)} else {}
    {
      var key := SeedKey(trimmed);
      ghost var q := FirstFreeProbe(used, server, hash, key, 0);
      for probe := 0 to MAX_PROBES
        invariant used == old(used)
        invariant FirstFree(used, server, hash, key, 0) == FirstFree(used, server, hash, key, probe)
      {
        var candidate := Candidate(hash(key, probe));
        if server == Some(candidate) {
          continue;
        }
        if Key(candidate) in used {
          continue;
        }
        used := used + {Key(candidate)};
        return Some(candidate);
      }
      ip := None;
    }

    method Release(ip: Ip4)
      modifies this
      ensures used == Released(old(used), ip)
    {
      if ip.a != 127 {
        return;
      }
      used := used - {Key(ip)};
    }
  }

  function Released(used: set<nat>, ip: Ip4): set<nat> {
    if ip.a != 127 then used else used - {Key(ip)}
  }

  // --- the protocol ---

  /** How far a session has come: newSession up to the registry, then the body of End step by step. */
  datatype Stage = Allocated | Registered | Removed | Freed | Ended | ListenFailed

  datatype Session = Session(vip: Ip4, stage: Stage)

  datatype World = World(used: set<nat>, sessions: map<int, Session>, registry: set<int>)

  datatype Event =
    | Alloc(id: int, trimmed: string)
    | ListenFail(id: int)
    | Add(id: int)
    | EndCall(id: int)      // any call of End, by any goroutine
    | EndRelease(id: int)   // allocator.release in the one run of its body
    | EndClear(id: int)     // and the zeroing of virtualIP after it

  predicate InStage(w: World, id: int, stage: Stage) {
    id in w.sessions && w.sessions[id].stage == stage
  }

  predicate Enabled(w: World, e: Event) {
    match e
    case Alloc(id, _) => id !in w.sessions
    case ListenFail(id) => InStage(w, id, Allocated)
    case Add(id) => InStage(w, id, Allocated)
    case EndCall(id) => id in w.sessions && w.sessions[id].stage != Allocated && w.sessions[id].stage != ListenFailed
    case EndRelease(id) => InStage(w, id, Removed)
    case EndClear(id) => InStage(w, id, Freed)
  }

  function Next(w: World, e: Event, server: Option<Ip4>, hash: Hash): World
    requires Enabled(w, e)
  {
    match e
    case Alloc(id, trimmed) =>
      (match FirstFree(w.used, server, hash, SeedKey(trimmed), 0)
       case None => w
       case Some(ip) => w.(used := w.used + {Key(ip)}, sessions := w.sessions[id := Session(ip, Allocated)]))
    case ListenFail(id) =>
      w.(used := Released(w.used, w.sessions[id].vip), sessions := w.sessions[id := w.sessions[id].(stage := ListenFailed)])
    case Add(id) =>
      w.(registry := w.registry + {id}, sessions := w.sessions[id := w.sessions[id].(stage := Registered)])
    case EndCall(id) =>
      // endOnce: only the first call runs the body
      if w.sessions[id].stage != Registered then w
      else w.(registry := w.registry - {id}, sessions := w.sessions[id := w.sessions[id].(stage := Removed)])
    case EndRelease(id) =>
      w.(used := Released(w.used, w.sessions[id].vip), sessions := w.sessions[id := w.sessions[id].(stage := Freed)])
    case EndClear(id) => w.(sessions := w.sessions[id := Session(NO_IP, Ended)])
  }

  function After(events: seq<Event>, server: Option<Ip4>, hash: Hash): World {
    if |events| == 0 then World({}, map[], {})
    else
      var w, e := After(events[..|events| - 1], server, hash), events[|events| - 1];
      if Enabled(w, e) then Next(w, e, server, hash) else w
  }

  /** A session owns its address from its allocation to its release. */
  predicate Holds(w: World, id: int) {
    id in w.sessions
    && (w.sessions[id].stage == Allocated || w.sessions[id].stage == Registered || w.sessions[id].stage == Removed)
  }

  /** `used` is exactly the addresses held; they are distinct loopback addresses, none the server's. */
  ghost predicate HeldExactly(w: World, server: Option<Ip4>) {
    && (forall id :: Holds(w, id) ==>
          Key(w.sessions[id].vip) in w.used && w.sessions[id].vip.a == 127 && server != Some(w.sessions[id].vip))
    && (forall k :: k in w.used ==> exists id :: Holds(w, id) && Key(w.sessions[id].vip) == k)
    && (forall i, j :: Holds(w, i) && Holds(w, j) && i != j ==> w.sessions[i].vip != w.sessions[j].vip)
  }

  ghost predicate Inv(w: World, server: Option<Ip4>) {
    HeldExactly(w, server) && forall id :: id in w.registry <==> InStage(w, id, Registered)
  }

  lemma {:induction false} AllocKeeps(w: World, id: int, trimmed: string, server: Option<Ip4>, hash: Hash)
    requires Inv(w, server) && Enabled(w, Alloc(id, trimmed))
    ensures Inv(Next(w, Alloc(id, trimmed), server, hash), server)
  {
    hide Key, FirstFree;
    var w' := Next(w, Alloc(id, trimmed), server, hash);
    forall i ensures i != id ==> Holds(w', i) == Holds(w, i) {}
    forall k | k in w'.used ensures exists i :: Holds(w', i) && Key(w'.sessions[i].vip) == k {
      if k in w.used {
        var i :| Holds(w, i) && Key(w.sessions[i].vip) == k;
        assert Holds(w', i) && w'.sessions[i] == w.sessions[i];
      } else {
        assert Holds(w', id);
      }
    }
  }

  /** Giving an address back frees that address and nobody else's. */
  lemma {:induction false} ReleaseKeeps(w: World, e: Event, server: Option<Ip4>, hash: Hash)
    requires Inv(w, server) && Enabled(w, e) && (e.ListenFail? || e.EndRelease?)
    ensures var w' := Next(w, e, server, hash);
            && Inv(w', server) && w'.used == w.used - {Key(w.sessions[e.id].vip)}
            && forall i :: Holds(w', i) ==> i != e.id && Holds(w, i) && w'.sessions[i] == w.sessions[i]
  {
    hide Key;
    var w' := Next(w, e, server, hash);
    assert Holds(w, e.id) && !Holds(w', e.id);
    forall i ensures i != e.id ==> Holds(w', i) == Holds(w, i) {}
    forall i | Holds(w', i) ensures Key(w'.sessions[i].vip) in w'.used {
      if Key(w.sessions[i].vip) == Key(w.sessions[e.id].vip) {
        KeyInjective(w.sessions[i].vip, w.sessions[e.id].vip);
      }
    }
    forall k | k in w'.used ensures exists i :: Holds(w', i) && Key(w'.sessions[i].vip) == k {
      var i :| Holds(w, i) && Key(w.sessions[i].vip) == k;
      assert Holds(w', i) && w'.sessions[i] == w.sessions[i];
    }
  }

  lemma {:induction false} RegistryKeeps(w: World, e: Event, server: Option<Ip4>, hash: Hash)
    requires Inv(w, server) && Enabled(w, e) && (e.Add? || e.EndCall? || e.EndClear?)
    ensures Inv(Next(w, e, server, hash), server)
  {
    hide HeldExactly, FirstFree;
    RegistryHolders(w, e, server, hash);
    SameHolders(w, Next(w, e, server, hash), server);
  }

  lemma {:induction false} RegistryHolders(w: World, e: Event, server: Option<Ip4>, hash: Hash)
    requires Enabled(w, e) && (e.Add? || e.EndCall? || e.EndClear?)
    ensures var w' := Next(w, e, server, hash);
            && w'.used == w.used
            && forall i :: Holds(w', i) == Holds(w, i) && (Holds(w, i) ==> w'.sessions[i].vip == w.sessions[i].vip)
  {
    hide FirstFree, Released;
  }

  lemma {:induction false} SameHolders(w: World, w': World, server: Option<Ip4>)
    requires HeldExactly(w, server) && w'.used == w.used
    requires forall i :: Holds(w', i) == Holds(w, i) && (Holds(w, i) ==> w'.sessions[i].vip == w.sessions[i].vip)
    ensures HeldExactly(w', server)
  {
    hide Key;
    forall k | k in w'.used ensures exists i :: Holds(w', i) && Key(w'.sessions[i].vip) == k {
      var i :| Holds(w, i) && Key(w.sessions[i].vip) == k;
      assert Holds(w', i) && w'.sessions[i].vip == w.sessions[i].vip;
    }
  }

  /** Over every run: `used` is exactly the addresses held, which are distinct and never the server's. */
  lemma {:induction false} RunHolds(events: seq<Event>, server: Option<Ip4>, hash: Hash)
    ensures Inv(After(events, server, hash), server)
  {
    assert Inv(World({}, map[], {}), server);
    hide Inv, Next;
    if |events| > 0 {
      var w, e := After(events[..|events| - 1], server, hash), events[|events| - 1];
      RunHolds(events[..|events| - 1], server, hash);
      if Enabled(w, e) {
        match e
        case Alloc(id, trimmed) => AllocKeeps(w, id, trimmed, server, hash);
        case ListenFail(_) => ReleaseKeeps(w, e, server, hash);
        case Add(_) => RegistryKeeps(w, e, server, hash);
        case EndCall(_) => RegistryKeeps(w, e, server, hash);
        case EndRelease(_) => ReleaseKeeps(w, e, server, hash);
        case EndClear(_) => RegistryKeeps(w, e, server, hash);
      }
    }
  }

  /** In any run an allocation is refused exactly when no probe is free, and otherwise takes the first. */
  lemma {:induction false} AllocExactly(
      events: seq<Event>, id: int, trimmed: string, server: Option<Ip4>, hash: Hash) returns (q: nat)
    requires id !in After(events, server, hash).sessions
    ensures var key := if trimmed == "" then "unknown" else trimmed;
            var w, w' := After(events, server, hash), After(events + [Alloc(id, trimmed)], server, hash);
            && q <= 4096 && (forall j: nat :: j < q ==> !FreeProbe(w.used, server, hash, key, j))
            && (q < 4096 ==>
                  && FreeProbe(w.used, server, hash, key, q) && id in w'.sessions
                  && w'.sessions[id] == Session(Candidate(hash(key, q)), Allocated))
            && (q == 4096 ==> w' == w)
  {
    hide After, FirstFree, Candidate, Key;
    AfterOne(events, Alloc(id, trimmed), server, hash);
    q := FirstFreeProbe(After(events, server, hash).used, server, hash, SeedKey(trimmed), 0);
  }

  /** A release in a run never frees an address another session owns, however often End was called. */
  lemma {:induction false} ReleaseFreesOwn(events: seq<Event>, e: Event, server: Option<Ip4>, hash: Hash, other: int)
    requires var w := After(events, server, hash);
             Enabled(w, e) && (e.ListenFail? || e.EndRelease?) && other != e.id && Holds(w, other)
    ensures var w, w' := After(events, server, hash), After(events + [e], server, hash);
            && Key(w.sessions[e.id].vip) !in w'.used
            && Holds(w', other) && w'.sessions[other] == w.sessions[other] && Key(w'.sessions[other].vip) in w'.used
  {
    hide After, Inv, Key;
    RunHolds(events, server, hash);
    AfterOne(events, e, server, hash);
    var w := After(events, server, hash);
    ReleaseKeeps(w, e, server, hash);
    assert Holds(Next(w, e, server, hash), other);
    HeldIsUsed(Next(w, e, server, hash), server, other);
  }

  lemma {:induction false} HeldIsUsed(w: World, server: Option<Ip4>, id: int)
    requires Inv(w, server) && Holds(w, id)
    ensures Key(w.sessions[id].vip) in w.used
  {
  }

  lemma {:induction false} AfterOne(events: seq<Event>, e: Event, server: Option<Ip4>, hash: Hash)
    ensures After(events + [e], server, hash) ==
            var w := After(events, server, hash); if Enabled(w, e) then Next(w, e, server, hash) else w
  {
    assert (events + [e])[..|events|] == events;
  }

  /** A session gives its address back once: from then on it never holds one again, and no continuation
      of the run releases anything for it a second time. */
  lemma {:induction false} ReleasedOnce(events: seq<Event>, more: seq<Event>, server: Option<Ip4>, hash: Hash, id: int)
    requires var w := After(events, server, hash); id in w.sessions && !Holds(w, id)
    ensures var w := After(events + more, server, hash);
            id in w.sessions && !Holds(w, id) && !Enabled(w, EndRelease(id)) && !Enabled(w, ListenFail(id))
    decreases |more|
  {
    hide After, FirstFree;
    if |more| == 0 {
      assert events + more == events;
    } else {
      var before, e := more[..|more| - 1], more[|more| - 1];
      assert events + more == (events + before) + [e];
      ReleasedOnce(events, before, server, hash, id);
      AfterOne(events + before, e, server, hash);
    }
  }

  // --- lookup ---

  predicate Matches(w: World, target: Ip4, id: int) {
    id in w.registry && id in w.sessions && w.sessions[id].vip == target
  }

  /** Lookup by VirtualIP matches at most one registered session, and it holds the address. */
  lemma {:induction false} LookupUnique(events: seq<Event>, server: Option<Ip4>, hash: Hash, target: Ip4, i: int, j: int)
    requires Matches(After(events, server, hash), target, i) && Matches(After(events, server, hash), target, j)
    ensures i == j && Holds(After(events, server, hash), i) && Key(target) in After(events, server, hash).used
  {
    hide After, Key;
    RunHolds(events, server, hash);
    var w := After(events, server, hash);
    assert Holds(w, i) && Holds(w, j);
  }

  /** sessionByVirtualIP: some registered session with the address, in any order of the scan. */
  method SessionByVirtualIP(w: World, target: Ip4) returns (found: Option<int>)
    requires w.registry <= w.sessions.Keys
    ensures found.Some? ==> target.a != 0 && Matches(w, target, found.value)
    ensures found.None? && target.a != 0 ==> forall id :: !Matches(w, target, id)
  {
    if target.a == 0 {
      return None;
    }
    var rest := w.registry;
    while rest != {}
      invariant rest <= w.registry && forall id :: id in w.registry - rest ==> !Matches(w, target, id)
      decreases |rest|
    {
      SomeInt(rest);
      var s: int :| s in rest;
      if w.sessions[s].vip == target {
        return Some(s);
      }
      rest := rest - {s};
    }
    found := None;
  }
}
