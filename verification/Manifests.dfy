/** Per-session asset manifests and the shared hash index of manifest.go. */
module Manifests {
  import opened Common

  type Ref = string
  type Hash = string
  type Asset = int

  const MAX_LIVE: nat := 256

  datatype Manifest = Manifest(createdAt: int, assets: map<Hash, Asset>)

  /** g.manifests and g.assetsByHash. */
  datatype Index = Index(manifests: map<Ref, Manifest>, byHash: map<Hash, Asset>)

  const EMPTY: Index := Index(map[], map[])

  predicate Expired(m: Manifest, now: int, ttl: int) {
    now - m.createdAt > ttl
  }

  function HashesOf(m: map<Ref, Manifest>, refs: set<Ref>): set<Hash> {
    set ref, h | ref in refs && ref in m && h in m[ref].assets :: h
  }

  /** removeManifestLocked on some refs, in any order. */
  function WithoutRefs(s: Index, refs: set<Ref>): Index {
    Index(s.manifests - refs, s.byHash - HashesOf(s.manifests, refs))
  }

  function ExpiredRefs(s: Index, now: int, ttl: int): set<Ref> {
    set ref | ref in s.manifests && Expired(s.manifests[ref], now, ttl)
  }

  function Pruned(s: Index, now: int, ttl: int): Index {
    WithoutRefs(s, ExpiredRefs(s, now, ttl))
  }

  ghost predicate IsOldest(s: Index, ref: Ref) {
    ref in s.manifests && forall r :: r in s.manifests ==> s.manifests[ref].createdAt <= s.manifests[r].createdAt
  }

  function Added(s: Index, ref: Ref, m: Manifest): Index {
    Index(s.manifests[ref := m], s.byHash + m.assets)
  }

  /** Inserting a manifest, after the eviction of some oldest one when the index is full. */
  ghost predicate Inserted(s: Index, s': Index, ref: Ref, m: Manifest) {
    if |s.manifests| < MAX_LIVE then s' == Added(s, ref, m)
    else exists oldest :: IsOldest(s, oldest) && s' == Added(WithoutRefs(s, {oldest}), ref, m)
  }

  ghost predicate IssueStep(s: Index, s': Index, ref: Ref, m: Manifest, ttl: int) {
    Inserted(Pruned(s, m.createdAt, ttl), s', ref, m)
  }

  // --- removing manifests ---

  lemma {:induction false} NothingGone(s: Index)
    ensures WithoutRefs(s, {}) == s
  {
    assert HashesOf(s.manifests, {}) == {};
  }

  lemma {:induction false} HashesOfOne(m: map<Ref, Manifest>, ref: Ref)
    ensures HashesOf(m, {ref}) == if ref in m then m[ref].assets.Keys else {}
  {
  }

  lemma {:induction false} UnknownGone(s: Index, ref: Ref)
    ensures ref !in s.manifests ==> WithoutRefs(s, {ref}) == s
  {
    HashesOfOne(s.manifests, ref);
  }

  lemma {:induction false} HashesOfMore(m: map<Ref, Manifest>, done: set<Ref>, more: set<Ref>)
    ensures HashesOf(m, done) + HashesOf(m - done, more) == HashesOf(m, done + more)
  {
    forall h | h in HashesOf(m, done + more) ensures h in HashesOf(m, done) + HashesOf(m - done, more) {
      var ref :| ref in done + more && ref in m && h in m[ref].assets;
      if ref !in done {
        assert ref in m - done && h in (m - done)[ref].assets;
      }
    }
  }

  lemma {:induction false} WithoutMore(s: Index, done: set<Ref>, more: set<Ref>)
    ensures WithoutRefs(WithoutRefs(s, done), more) == WithoutRefs(s, done + more)
  {
    hide HashesOf;
    HashesOfMore(s.manifests, done, more);
    var a, b := HashesOf(s.manifests, done), HashesOf(s.manifests - done, more);
    assert s.byHash - a - b == s.byHash - (a + b);
    assert s.manifests - done - more == s.manifests - (done + more);
  }

  lemma {:induction false} StillThere(s: Index, done: set<Ref>, ref: Ref)
    requires ref in s.manifests && ref !in done
    ensures ref in WithoutRefs(s, done).manifests && WithoutRefs(s, done).manifests[ref] == s.manifests[ref]
  {
  }

  // --- the server ---

  class AssetServer {
    const ttl: int
    var manifests: map<Ref, Manifest>
    var byHash: map<Hash, Asset>

    ghost function View(): Index
      reads this
    {
      Index(manifests, byHash)
    }

    constructor (ttl: int)
      ensures View() == EMPTY && this.ttl == ttl
    {
      this.ttl := ttl;
      manifests, byHash := map[], map[];
    }

    method RemoveManifest(ref: Ref)
      modifies this
      ensures View() == WithoutRefs(old(View()), {ref})
    {
      HashesOfOne(manifests, ref);
      if ref !in manifests {
        assert manifests - {ref} == manifests && byHash - {} == byHash;
        return;
      }
      var session := manifests[ref];
      var rest := session.assets.Keys;
      while rest != {}
        invariant rest <= session.assets.Keys && manifests == old(manifests)
        invariant byHash == old(byHash) - (session.assets.Keys - rest)
        decreases |rest|
      {
        SomeMember(rest);
        var hash: Hash :| hash in rest;
        byHash := byHash - {hash};
        rest := rest - {hash};
      }
      manifests := manifests - {ref};
    }

    method PruneExpired(now: int)
      modifies this
      ensures View() == Pruned(old(View()), now, ttl)
    {
      hide WithoutRefs;
      ghost var was := View();
      var rest := manifests.Keys;
      ghost var done: set<Ref> := {};
      NothingGone(was);
      while rest != {}
        invariant rest <= was.manifests.Keys && View() == WithoutRefs(was, done)
        invariant done == ExpiredRefs(was, now, ttl) - rest
        decreases |rest|
      {
        SomeMember(rest);
        var ref: Ref :| ref in rest;
        rest := rest - {ref};
        assert ref in manifests && manifests[ref] == was.manifests[ref] by { StillThere(was, done, ref); }
        if now - manifests[ref].createdAt > ttl {
          WithoutMore(was, done, {ref});
          RemoveManifest(ref);
          done := done + {ref};
        }
      }
      assert done == ExpiredRefs(was, now, ttl);
    }

    method EvictOldest()
      requires "" !in manifests
      modifies this
      ensures old(manifests).Keys == {} ==> View() == old(View())
      ensures old(manifests).Keys != {} ==>
                exists ref :: IsOldest(old(View()), ref) && View() == WithoutRefs(old(View()), {ref})
    {
      var oldestRef: Ref := "";
      var oldestAt := 0;
      var rest := manifests.Keys;
      while rest != {}
        invariant rest <= manifests.Keys && manifests == old(manifests) && byHash == old(byHash)
        invariant oldestRef == "" ==> rest == manifests.Keys
        invariant oldestRef != "" ==> oldestRef in manifests && oldestAt == manifests[oldestRef].createdAt
        invariant oldestRef != "" ==> forall r :: r in manifests && r !in rest ==> oldestAt <= manifests[r].createdAt
        decreases |rest|
      {
        SomeMember(rest);
        var ref: Ref :| ref in rest;
        rest := rest - {ref};
        if oldestRef == "" || manifests[ref].createdAt < oldestAt {
          oldestRef := ref;
          oldestAt := manifests[ref].createdAt;
        }
      }
      assert old(manifests).Keys != {} ==> IsOldest(old(View()), oldestRef);
      UnknownGone(View(), oldestRef);
      RemoveManifest(oldestRef);
    }

    /** IssueManifest once the asset tree has been scanned. */
    method Issue(ref: Ref, assets: map<Hash, Asset>, now: int)
      requires ref != "" && "" !in manifests
      modifies this
      ensures IssueStep(old(View()), View(), ref, Manifest(now, assets), ttl)
      ensures "" !in manifests
    {
      PruneExpired(now);
      ghost var p := View();
      if |manifests| >= MAX_LIVE {
        EvictOldest();
      }
      manifests := manifests[ref := Manifest(now, assets)];
      byHash := byHash + assets;
    }

    /** The first critical section of lookupAsset: the index is only read. */
    method Find(hash: Hash) returns (found: bool, asset: Asset)
      ensures found <==> hash in byHash
      ensures found ==> asset == byHash[hash]
    {
      found, asset := hash in byHash, 0;
      if found {
        asset := byHash[hash];
      }
    }

    /** The second one, entered on a miss; an issue may have come between. */
    method PruneAndFind(hash: Hash, now: int) returns (found: bool, asset: Asset)
      modifies this
      ensures View() == Pruned(old(View()), now, ttl)
      ensures found <==> hash in byHash
      ensures found ==> asset == byHash[hash]
    {
      PruneExpired(now);
      found, asset := Find(hash);
    }
  }

  // --- runs ---

  datatype Entry = Entry(ref: Ref, manifest: Manifest)

  datatype Event = Issued(entry: Entry) | Missed(now: int)

  /** A lookup that hits changes nothing; one that misses prunes. */
  ghost predicate Step(s: Index, e: Event, s': Index, ttl: int) {
    match e
    case Issued(entry) => IssueStep(s, s', entry.ref, entry.manifest, ttl)
    case Missed(now) => s' == Pruned(s, now, ttl)
  }

  ghost predicate IsRun(states: seq<Index>, events: seq<Event>, ttl: int) {
    && |states| == |events| + 1 && states[0] == EMPTY
    && forall i :: 0 <= i < |events| ==> Step(states[i], events[i], states[i + 1], ttl)
  }

  function IssueLog(events: seq<Event>): seq<Entry> {
    if |events| == 0 then []
    else
      IssueLog(events[..|events| - 1])
      + if events[|events| - 1].Issued? then [events[|events| - 1].entry] else []
  }

  /** Fresh refs, hashes of their own, strictly increasing issue times. */
  ghost predicate GoodLog(log: seq<Entry>) {
    forall i, j :: 0 <= i < j < |log| ==> Apart(log[i], log[j])
  }

  ghost predicate Apart(a: Entry, b: Entry) {
    && a.ref != b.ref && a.manifest.createdAt < b.manifest.createdAt
    && a.manifest.assets.Keys !! b.manifest.assets.Keys
  }

  function ManifestsOf(live: seq<Entry>): map<Ref, Manifest> {
    if |live| == 0 then map[]
    else ManifestsOf(live[..|live| - 1])[live[|live| - 1].ref := live[|live| - 1].manifest]
  }

  function AssetsOf(live: seq<Entry>): map<Hash, Asset> {
    if |live| == 0 then map[] else AssetsOf(live[..|live| - 1]) + live[|live| - 1].manifest.assets
  }

  /** The index that holds exactly these manifests and the union of their assets. */
  function IndexOf(live: seq<Entry>): Index {
    Index(ManifestsOf(live), AssetsOf(live))
  }

  ghost predicate AllFresh(live: seq<Entry>, now: int, ttl: int) {
    forall i :: 0 <= i < |live| ==> now - live[i].manifest.createdAt <= ttl
  }

  function Last(log: seq<Entry>, n: nat): (live: seq<Entry>)
    requires n <= |log|
    ensures |live| == n
  {
    log[|log| - n..]
  }

  lemma {:induction false} GoodSlice(log: seq<Entry>, lo: nat, hi: nat)
    requires GoodLog(log) && lo <= hi <= |log|
    ensures GoodLog(log[lo..hi])
  {
    forall i, j | 0 <= i < j < hi - lo ensures Apart(log[lo..hi][i], log[lo..hi][j]) {
      assert Apart(log[lo + i], log[lo + j]);
    }
  }

  lemma {:induction false} EntryIn(live: seq<Entry>, i: nat)
    requires GoodLog(live) && i < |live|
    ensures live[i].ref in ManifestsOf(live) && ManifestsOf(live)[live[i].ref] == live[i].manifest
  {
    var n := |live| - 1;
    if i < n {
      GoodSlice(live, 0, n);
      EntryIn(live[..n], i);
      assert Apart(live[i], live[n]);
    }
  }

  lemma {:induction false} WhichEntry(live: seq<Entry>, ref: Ref) returns (i: nat)
    requires ref in ManifestsOf(live)
    ensures i < |live| && live[i].ref == ref && live[i].manifest == ManifestsOf(live)[ref]
  {
    i := |live| - 1;
    if live[i].ref != ref {
      i := WhichEntry(live[..i], ref);
    }
  }

  lemma {:induction false} AsManyManifests(live: seq<Entry>)
    requires GoodLog(live)
    ensures |ManifestsOf(live)| == |live|
  {
    if |live| > 0 {
      var n := |live| - 1;
      GoodSlice(live, 0, n);
      AsManyManifests(live[..n]);
      var m, ref := ManifestsOf(live[..n]), live[n].ref;
      if ref in m {
        var i := WhichEntry(live[..n], ref);
        GoodApart(live, i, n);
        assert false;
      }
      SizeOfAdded(m, ref, live[n].manifest);
    }
  }

  lemma {:induction false} SizeOfAdded(m: map<Ref, Manifest>, ref: Ref, x: Manifest)
    requires ref !in m
    ensures |m[ref := x]| == |m| + 1
  {
    assert m[ref := x].Keys == m.Keys + {ref};
    assert |m| == |m.Keys| && |m[ref := x]| == |m[ref := x].Keys|;
  }

  lemma {:induction false} AddThenDrop(s: Index, e: Entry, ref: Ref)
    requires ref in s.manifests && ref != e.ref && s.manifests[ref].assets.Keys !! e.manifest.assets.Keys
    ensures WithoutRefs(Added(s, e.ref, e.manifest), {ref}) == Added(WithoutRefs(s, {ref}), e.ref, e.manifest)
  {
    hide HashesOf;
    var m := s.manifests;
    HashesOfOne(m, ref);
    HashesOfOne(m[e.ref := e.manifest], ref);
    assert (m - {ref})[e.ref := e.manifest] == m[e.ref := e.manifest] - {ref};
    var keys := m[ref].assets.Keys;
    assert (s.byHash + e.manifest.assets) - keys == (s.byHash - keys) + e.manifest.assets;
  }

  lemma {:induction false} AddAlone(e: Entry)
    ensures WithoutRefs(Added(EMPTY, e.ref, e.manifest), {e.ref}) == EMPTY
  {
    HashesOfOne(Added(EMPTY, e.ref, e.manifest).manifests, e.ref);
  }

  /** Removing the oldest manifest leaves exactly the index of the others. */
  lemma {:induction false} DropFirst(live: seq<Entry>)
    requires GoodLog(live) && |live| > 0
    ensures WithoutRefs(IndexOf(live), {live[0].ref}) == IndexOf(live[1..])
  {
    hide WithoutRefs, GoodLog;
    var n := |live| - 1;
    var e := live[n];
    if n == 0 {
      assert live[..n] == [];
      AddAlone(e);
    } else {
      var before := live[..n];
      GoodSlice(live, 0, n);
      DropFirst(before);
      EntryIn(before, 0);
      GoodApart(live, 0, n);
      AddThenDrop(IndexOf(before), e, live[0].ref);
      assert live[1..][..n - 1] == before[1..];
    }
  }

  lemma {:induction false} GoodApart(log: seq<Entry>, i: nat, j: nat)
    requires GoodLog(log) && i < j < |log|
    ensures Apart(log[i], log[j])
  {
  }

  /** How many of them have expired: a prefix, as issue times increase. */
  function Stale(live: seq<Entry>, now: int, ttl: int): (k: nat)
    ensures k <= |live|
  {
    if |live| > 0 && Expired(live[0].manifest, now, ttl) then 1 + Stale(live[1..], now, ttl) else 0
  }

  lemma {:induction false} RestIsFresh(live: seq<Entry>, now: int, ttl: int)
    requires GoodLog(live)
    ensures AllFresh(live[Stale(live, now, ttl)..], now, ttl)
  {
    if |live| > 0 {
      if Expired(live[0].manifest, now, ttl) {
        GoodSlice(live, 1, |live|);
        RestIsFresh(live[1..], now, ttl);
        assert live[1..][Stale(live[1..], now, ttl)..] == live[Stale(live, now, ttl)..];
      } else {
        forall i | 0 <= i < |live| ensures now - live[i].manifest.createdAt <= ttl {
          if i > 0 {
            GoodApart(live, 0, i);
          }
        }
      }
    }
  }

  /** Pruning removes exactly the expired prefix. */
  lemma {:induction false} PruneDrops(live: seq<Entry>, now: int, ttl: int)
    requires GoodLog(live)
    ensures Pruned(IndexOf(live), now, ttl) == IndexOf(live[Stale(live, now, ttl)..])
  {
    hide WithoutRefs, GoodLog, IndexOf;
    var s := IndexOf(live);
    if Stale(live, now, ttl) == 0 {
      RestIsFresh(live, now, ttl);
      assert live[0..] == live;
      NoneExpired(live, now, ttl);
      NothingGone(s);
    } else {
      var rest, first := live[1..], live[0].ref;
      GoodSlice(live, 1, |live|);
      assert rest == live[1..|live|];
      PruneDrops(rest, now, ttl);
      assert rest[Stale(rest, now, ttl)..] == live[Stale(live, now, ttl)..];
      DropFirst(live);
      FirstExpired(live, now, ttl);
      WithoutMore(s, {first}, ExpiredRefs(IndexOf(rest), now, ttl));
    }
  }

  lemma {:induction false} NoneExpired(live: seq<Entry>, now: int, ttl: int)
    requires AllFresh(live, now, ttl)
    ensures ExpiredRefs(IndexOf(live), now, ttl) == {}
  {
    hide ManifestsOf;
    forall ref | ref in ManifestsOf(live) ensures !Expired(ManifestsOf(live)[ref], now, ttl) {
      var i := WhichEntry(live, ref);
    }
  }

  lemma {:induction false} FirstExpired(live: seq<Entry>, now: int, ttl: int)
    requires GoodLog(live) && |live| > 0 && Expired(live[0].manifest, now, ttl)
    ensures ExpiredRefs(IndexOf(live), now, ttl) == {live[0].ref} + ExpiredRefs(IndexOf(live[1..]), now, ttl)
  {
    hide GoodLog, Expired, ManifestsOf;
    DropFirst(live);
    EntryIn(live, 0);
    assert IndexOf(live[1..]).manifests == IndexOf(live).manifests - {live[0].ref};
  }

  lemma {:induction false} OldestIsFirst(live: seq<Entry>, ref: Ref)
    requires GoodLog(live) && IsOldest(IndexOf(live), ref)
    ensures |live| > 0 && ref == live[0].ref
  {
    hide GoodLog, ManifestsOf;
    var i := WhichEntry(live, ref);
    EntryIn(live, 0);
    if i > 0 {
      GoodApart(live, 0, i);
    }
  }

  /** What the index is after a run: exactly the last `n` issues, at most 256. */
  ghost predicate LiveTail(s: Index, log: seq<Entry>, n: nat) {
    n <= |log| && n <= 256 && s == IndexOf(Last(log, n))
  }

  /** An issue drops the stale prefix, k manifests, and one more, j, if 256 are left. */
  lemma {:induction false} IssueParts(s: Index, s': Index, log: seq<Entry>, n: nat, e: Entry, ttl: int)
    returns (k: nat, j: nat)
    requires LiveTail(s, log, n) && GoodLog(log + [e]) && IssueStep(s, s', e.ref, e.manifest, ttl)
    ensures k == Stale(Last(log, n), e.manifest.createdAt, ttl) && k + j <= n && n - k - j < 256
    ensures j > 0 ==> j == 1 && n - k == 256
    ensures LiveTail(s', log + [e], n - k - j + 1) && GoodLog(Last(log, n))
    ensures Last(log + [e], n - k - j + 1) == Last(log, n)[k..][j..] + [e]
  {
    hide GoodLog, IndexOf, Pruned, Inserted, Stale;
    var all, live, now := log + [e], Last(log, n), e.manifest.createdAt;
    assert all[|log| - n..|log|] == live;
    GoodSlice(all, |log| - n, |log|);
    PruneDrops(live, now, ttl);
    k := Stale(live, now, ttl);
    GoodSlice(live, k, n);
    assert live[k..n] == live[k..];
    j := MakeRoom(live[k..], s', e);
    assert Last(all, n - k - j + 1) == live[k..][j..] + [e];
    AddLast(live[k..][j..], e);
  }

  lemma {:induction false} IssueKeeps(s: Index, s': Index, log: seq<Entry>, n: nat, e: Entry, ttl: int) returns (n': nat)
    requires LiveTail(s, log, n) && GoodLog(log + [e]) && IssueStep(s, s', e.ref, e.manifest, ttl) && ttl >= 0
    ensures LiveTail(s', log + [e], n') && n' > 0
    ensures AllFresh(Last(log + [e], n'), e.manifest.createdAt, ttl)
  {
    hide GoodLog, LiveTail, IssueStep, AllFresh, Stale;
    assert n <= |log| by { TailLength(s, log, n); }
    var k, j := IssueParts(s, s', log, n, e, ttl);
    var live := Last(log, n);
    RestIsFresh(live, e.manifest.createdAt, ttl);
    FreshTail(live[k..], j, e.manifest.createdAt, ttl);
    n' := n - k - j + 1;
    TailLength(s', log + [e], n');
    LastIsFresh(live[k..][j..], e, ttl);
  }

  lemma {:induction false} TailLength(s: Index, log: seq<Entry>, n: nat)
    requires LiveTail(s, log, n)
    ensures n <= |log|
  {
  }

  lemma {:induction false} FreshTail(live: seq<Entry>, j: nat, now: int, ttl: int)
    requires AllFresh(live, now, ttl) && j <= |live|
    ensures AllFresh(live[j..], now, ttl)
  {
  }

  /** Inserting into the index of some live manifests drops none of them, or the first when it is full. */
  lemma {:induction false} MakeRoom(live: seq<Entry>, s': Index, e: Entry) returns (j: nat)
    requires GoodLog(live) && |live| <= MAX_LIVE && Inserted(IndexOf(live), s', e.ref, e.manifest)
    ensures j <= |live| && |live| - j < MAX_LIVE && (j > 0 ==> j == 1 && |live| == MAX_LIVE)
    ensures s' == Added(IndexOf(live[j..]), e.ref, e.manifest)
  {
    AsManyManifests(live);
    assert |IndexOf(live).manifests| == |live|;
    hide GoodLog, IndexOf, WithoutRefs, Added, IsOldest;
    var p := IndexOf(live);
    j := 0;
    assert live[0..] == live;
    if |p.manifests| >= MAX_LIVE {
      var oldest :| IsOldest(p, oldest) && s' == Added(WithoutRefs(p, {oldest}), e.ref, e.manifest);
      OldestIsFirst(live, oldest);
      DropFirst(live);
      j := 1;
    }
  }

  lemma {:induction false} AddLast(live: seq<Entry>, e: Entry)
    ensures Added(IndexOf(live), e.ref, e.manifest) == IndexOf(live + [e])
  {
    assert (live + [e])[..|live|] == live;
  }

  lemma {:induction false} LastIsFresh(live: seq<Entry>, e: Entry, ttl: int)
    requires AllFresh(live, e.manifest.createdAt, ttl) && ttl >= 0
    ensures AllFresh(live + [e], e.manifest.createdAt, ttl)
  {
  }

  lemma {:induction false} MissKeeps(s: Index, log: seq<Entry>, n: nat, now: int, ttl: int) returns (n': nat)
    requires LiveTail(s, log, n) && GoodLog(log)
    ensures LiveTail(Pruned(s, now, ttl), log, n') && AllFresh(Last(log, n'), now, ttl)
  {
    hide GoodLog, IndexOf, Pruned;
    var live := Last(log, n);
    GoodSlice(log, |log| - n, |log|);
    assert log[|log| - n..|log|] == live;
    PruneDrops(live, now, ttl);
    RestIsFresh(live, now, ttl);
    n' := n - Stale(live, now, ttl);
    assert live[Stale(live, now, ttl)..] == Last(log, n');
  }

  function TimeOf(e: Event): int {
    match e
    case Issued(entry) => entry.manifest.createdAt
    case Missed(now) => now
  }

  /** After every run with a good issue log the live manifests are its last ones, at most 256, the hash
      index is exactly their union, and right after an issue or a prune none of them has expired. */
  lemma {:induction false} RunHolds(states: seq<Index>, events: seq<Event>, ttl: int) returns (n: nat)
    requires IsRun(states, events, ttl) && GoodLog(IssueLog(events)) && ttl >= 0
    ensures LiveTail(states[|events|], IssueLog(events), n)
    ensures |events| > 0 ==> AllFresh(Last(IssueLog(events), n), TimeOf(events[|events| - 1]), ttl)
    decreases |events|
  {
    assert LiveTail(EMPTY, [], 0);
    hide IssueStep, Pruned, Expired, LiveTail, GoodLog, AllFresh;
    if |events| == 0 {
      n := 0;
    } else {
      var m := |events| - 1;
      var before, log := events[..m], IssueLog(events[..m]);
      assert Step(states[m], events[m], states[m + 1], ttl);
      match events[m]
      case Issued(e) =>
        assert (log + [e])[0..|log|] == log;
        GoodSlice(log + [e], 0, |log|);
        n := RunHolds(states[..m + 1], before, ttl);
        n := IssueKeeps(states[m], states[m + 1], log, n, e, ttl);
      case Missed(now) =>
        assert IssueLog(events) == log;
        n := RunHolds(states[..m + 1], before, ttl);
        n := MissKeeps(states[m], log, n, now, ttl);
    }
  }

  /** WithoutRefs a repeated hash, the union of the live manifests' assets, both ways. */
  lemma {:induction false} AssetsAreUnion(live: seq<Entry>, hash: Hash)
    requires GoodLog(live)
    ensures hash in AssetsOf(live) <==> exists i :: 0 <= i < |live| && hash in live[i].manifest.assets
    ensures forall i :: 0 <= i < |live| && hash in live[i].manifest.assets ==>
              AssetsOf(live)[hash] == live[i].manifest.assets[hash]
  {
    hide GoodLog;
    if |live| > 0 {
      var n := |live| - 1;
      var before := live[..n];
      GoodSlice(live, 0, n);
      AssetsAreUnion(before, hash);
      forall i | 0 <= i < |live| && hash in live[i].manifest.assets
        ensures hash in AssetsOf(live) && AssetsOf(live)[hash] == live[i].manifest.assets[hash]
      {
        if i < n {
          assert before[i] == live[i];
          GoodApart(live, i, n);
        }
      }
      if hash in AssetsOf(live) && hash in AssetsOf(before) {
        var i :| 0 <= i < |before| && hash in before[i].manifest.assets;
        assert hash in live[i].manifest.assets;
      }
    }
  }

  // --- nothing is dropped without need ---

  /** One of the last 256 issues that has at no event been older than the TTL is still live. */
  lemma {:induction false} StaysLive(states: seq<Index>, events: seq<Event>, ttl: int, i: nat) returns (n: nat)
    requires IsRun(states, events, ttl) && GoodLog(IssueLog(events)) && ttl >= 0
    requires i < |IssueLog(events)| && |IssueLog(events)| - i <= 256
    requires forall k :: 0 <= k < |events| ==> TimeOf(events[k]) - IssueLog(events)[i].manifest.createdAt <= ttl
    ensures LiveTail(states[|events|], IssueLog(events), n) && i >= |IssueLog(events)| - n
    decreases |events|
  {
    hide IssueStep, Pruned, LiveTail, GoodLog;
    var m := |events| - 1;
    var before, log := events[..m], IssueLog(events[..m]);
    assert Step(states[m], events[m], states[m + 1], ttl);
    match events[m]
    case Issued(e) =>
      assert (log + [e])[0..|log|] == log;
      GoodSlice(log + [e], 0, |log|);
      if i < |log| {
        n := StaysLive(states[..m + 1], before, ttl, i);
      } else {
        n := RunHolds(states[..m + 1], before, ttl);
      }
      n := IssueLeaves(states[m], states[m + 1], log, n, e, ttl, i);
    case Missed(now) =>
      assert IssueLog(events) == log;
      n := StaysLive(states[..m + 1], before, ttl, i);
      n := MissLeaves(states[m], log, n, now, ttl, i);
  }

  /** With nothing from entry i on stale, the stale prefix ends before it. */
  lemma {:induction false} FreshFrom(live: seq<Entry>, now: int, ttl: int, i: nat)
    requires i < |live| && now - live[i].manifest.createdAt <= ttl
    ensures Stale(live, now, ttl) <= i
  {
    if i > 0 && Expired(live[0].manifest, now, ttl) {
      FreshFrom(live[1..], now, ttl, i - 1);
    }
  }

  lemma {:induction false} MissLeaves(s: Index, log: seq<Entry>, n: nat, now: int, ttl: int, i: nat) returns (n': nat)
    requires LiveTail(s, log, n) && GoodLog(log) && |log| - n <= i < |log|
    requires now - log[i].manifest.createdAt <= ttl
    ensures LiveTail(Pruned(s, now, ttl), log, n') && i >= |log| - n'
  {
    hide GoodLog, IndexOf, Pruned;
    var live := Last(log, n);
    GoodSlice(log, |log| - n, |log|);
    assert log[|log| - n..|log|] == live;
    PruneDrops(live, now, ttl);
    FreshFrom(live, now, ttl, i - (|log| - n));
    n' := n - Stale(live, now, ttl);
    assert live[Stale(live, now, ttl)..] == Last(log, n');
  }

  lemma {:induction false} IssueLeaves(
      s: Index, s': Index, log: seq<Entry>, n: nat, e: Entry, ttl: int, i: nat) returns (n': nat)
    requires LiveTail(s, log, n) && GoodLog(log + [e]) && IssueStep(s, s', e.ref, e.manifest, ttl) && ttl >= 0
    requires |log| - n <= i <= |log| && |log| + 1 - i <= 256
    requires i < |log| ==> e.manifest.createdAt - log[i].manifest.createdAt <= ttl
    ensures LiveTail(s', log + [e], n') && i >= |log| + 1 - n'
  {
    hide GoodLog, LiveTail, IssueStep, Stale;
    TailLength(s, log, n);
    var k, j := IssueParts(s, s', log, n, e, ttl);
    if i < |log| {
      FreshFrom(Last(log, n), e.manifest.createdAt, ttl, i - (|log| - n));
    }
    n' := n - k - j + 1;
  }
}
