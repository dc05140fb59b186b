/** Least-loaded selection with round-robin ties: pickServerInstanceLocked. */
module Picking {
  import opened Common
  import opened Autoscale

  /** serverInstanceCandidate, with the instance it was made from. */
  datatype Candidate = Candidate(id: int, port: int, players: nat, maxPlayers: nat)

  function Capacity(c: Candidate): (m: nat)
    ensures m >= 1
  {
    if c.maxPlayers > 1 then c.maxPlayers else 1
  }

  /** a has the smaller load players/max, or the same load and fewer players. */
  predicate Lighter(a: Candidate, b: Candidate) {
    var left, right := a.players * Capacity(b), b.players * Capacity(a);
    left < right || (left == right && a.players < b.players)
  }

  predicate Tied(a: Candidate, b: Candidate) {
    a.players * Capacity(b) == b.players * Capacity(a) && a.players == b.players
  }

  predicate Lightest(x: Candidate, cs: seq<Candidate>) {
    forall i :: 0 <= i < |cs| ==> !Lighter(cs[i], x)
  }

  /** The members of xs that no member of cs beats, in order. */
  function Keep(xs: seq<Candidate>, cs: seq<Candidate>): seq<Candidate> {
    if |xs| == 0 then []
    else Keep(xs[..|xs| - 1], cs) + if Lightest(xs[|xs| - 1], cs) then [xs[|xs| - 1]] else []
  }

  function Ties(cs: seq<Candidate>): seq<Candidate> {
    Keep(cs, cs)
  }

  predicate HasRoom(c: Candidate) {
    c.maxPlayers <= 0 || c.players < c.maxPlayers
  }

  function WithRoom(cs: seq<Candidate>): (r: seq<Candidate>)
    ensures forall i :: 0 <= i < |r| ==> r[i] in cs && HasRoom(r[i])
    ensures forall i :: 0 <= i < |cs| && HasRoom(cs[i]) ==> cs[i] in r
  {
    if |cs| == 0 then []
    else
      var n := |cs| - 1;
      assert cs == cs[..n] + [cs[n]];
      WithRoom(cs[..n]) + if HasRoom(cs[n]) then [cs[n]] else []
  }

  /** The candidates in force: active ones with room, else any with room, else any. */
  function Pool(actives: seq<Candidate>, routable: seq<Candidate>): seq<Candidate> {
    if |WithRoom(actives)| > 0 then WithRoom(actives)
    else if |WithRoom(routable)| > 0 then WithRoom(routable)
    else if |routable| > 0 then routable
    else actives
  }

  // --- the order ---

  lemma {:induction false} Cross(p: nat, q: nat, r: nat, a: nat, b: nat, c: nat)
    requires a > 0 && b > 0 && c > 0 && p * b <= q * a && q * c <= r * b
    ensures p * c <= r * a
    ensures p * b < q * a || q * c < r * b ==> p * c < r * a
  {
    Scale(p * b, q * a, c);
    Scale(q * c, r * b, a);
    assert q * a * c == q * c * a by { Swap(q, a, c); }
    assert p * b * c == p * c * b by { Swap(p, b, c); }
    assert r * b * a == r * a * b by { Swap(r, b, a); }
    if p * c > r * a {
      Scale(r * a, p * c, b);
    }
    if p * c == r * a {
      assert p * c * b == r * a * b;
    }
  }

  lemma {:induction false} Scale(x: nat, y: nat, k: nat)
    requires x <= y && k > 0
    ensures x * k <= y * k && (x < y ==> x * k < y * k)
  {
    if x < y {
      assert (y - x) * k >= 1;
      assert y * k == x * k + (y - x) * k;
    }
  }

  lemma {:induction false} Swap(x: nat, y: nat, z: nat)
    ensures x * y * z == x * z * y
  {
    assert x * y * z == x * (y * z) == x * (z * y) == x * z * y;
  }

  /** The comparison is a total preorder: "not lighter" is transitive, strictly so if either part is. */
  lemma {:induction false} Transitive(a: Candidate, b: Candidate, c: Candidate)
    requires !Lighter(b, a) && !Lighter(c, b)
    ensures !Lighter(c, a)
    ensures Lighter(a, b) || Lighter(b, c) ==> Lighter(a, c)
  {
    Cross(a.players, b.players, c.players, Capacity(a), Capacity(b), Capacity(c));
  }

  lemma {:induction false} KeepMembers(xs: seq<Candidate>, cs: seq<Candidate>)
    ensures forall i :: 0 <= i < |Keep(xs, cs)| ==> Keep(xs, cs)[i] in xs && Lightest(Keep(xs, cs)[i], cs)
    ensures forall i :: 0 <= i < |xs| && Lightest(xs[i], cs) ==> xs[i] in Keep(xs, cs)
  {
    hide Lightest;
    if |xs| > 0 {
      var n := |xs| - 1;
      KeepMembers(xs[..n], cs);
      assert xs == xs[..n] + [xs[n]];
    }
  }

  lemma {:induction false} KeepSame(xs: seq<Candidate>, cs: seq<Candidate>, ds: seq<Candidate>)
    requires forall i :: 0 <= i < |xs| ==> (Lightest(xs[i], cs) <==> Lightest(xs[i], ds))
    ensures Keep(xs, cs) == Keep(xs, ds)
  {
    hide Lightest;
    if |xs| > 0 {
      KeepSame(xs[..|xs| - 1], cs, ds);
    }
  }

  lemma {:induction false} KeepNone(xs: seq<Candidate>, cs: seq<Candidate>)
    requires forall i :: 0 <= i < |xs| ==> !Lightest(xs[i], cs)
    ensures Keep(xs, cs) == []
  {
    hide Lightest;
    if |xs| > 0 {
      KeepNone(xs[..|xs| - 1], cs);
    }
  }

  /** One turn of the tie loop, by comparison with any member of the tie list. */
  lemma {:induction false} TiesExtend(cs: seq<Candidate>, c: Candidate, best: Candidate)
    requires best in Ties(cs)
    ensures Lighter(c, best) ==> Ties(cs + [c]) == [c]
    ensures Tied(c, best) ==> Ties(cs + [c]) == Ties(cs) + [c]
    ensures !Lighter(c, best) && !Tied(c, best) ==> Ties(cs + [c]) == Ties(cs)
  {
    hide Lighter, Tied, Lightest;
    var ds := cs + [c];
    KeepMembers(cs, cs);
    LightestExtends(cs, c, best);
    assert ds[..|cs|] == cs;
    if Lighter(c, best) {
      KeepNone(cs, ds);
    } else {
      KeepSame(cs, cs, ds);
    }
  }

  lemma {:induction false} LightestExtends(cs: seq<Candidate>, c: Candidate, best: Candidate)
    requires best in cs && Lightest(best, cs)
    ensures Lightest(c, cs + [c]) <==> Lighter(c, best) || Tied(c, best)
    ensures Lighter(c, best) ==> !Tied(c, best)
    ensures forall i :: 0 <= i < |cs| ==>
              (Lightest(cs[i], cs + [c]) <==> Lightest(cs[i], cs) && !Lighter(c, best))
  {
    hide Lighter, Tied;
    var ds := cs + [c];
    var b := IndexOf(cs, best);
    assert ds[|cs|] == c && ds[b] == best;
    Irreflexive(c);
    Comparison(c, best);
    forall i | 0 <= i < |cs|
      ensures Lightest(cs[i], ds) <==> Lightest(cs[i], cs) && !Lighter(c, best)
      ensures !Lighter(c, best) || !Lighter(cs[i], c)
      ensures Tied(c, best) ==> !Lighter(cs[i], c)
    {
      assert ds[i] == cs[i] && !Lighter(cs[i], best);
      Comparison(cs[i], best);
      if Lighter(c, best) {
        Transitive(c, best, cs[i]);
        Comparison(c, cs[i]);
      } else if Lightest(cs[i], cs) {
        assert !Lighter(cs[b], cs[i]);
        Transitive(cs[i], best, c);
      }
      if Lightest(cs[i], ds) {
        forall j | 0 <= j < |cs| ensures !Lighter(cs[j], cs[i]) {
          assert ds[j] == cs[j];
        }
      }
      if Tied(c, best) {
        Transitive(c, best, cs[i]);
      }
    }
  }

  lemma {:induction false} IndexOf(cs: seq<Candidate>, x: Candidate) returns (i: nat)
    requires x in cs
    ensures i < |cs| && cs[i] == x
  {
    i :| 0 <= i < |cs| && cs[i] == x;
  }

  lemma {:induction false} Irreflexive(c: Candidate)
    ensures !Lighter(c, c)
  {
  }

  lemma {:induction false} Comparison(a: Candidate, b: Candidate)
    ensures !(Lighter(a, b) && Lighter(b, a))
    ensures Lighter(a, b) || Lighter(b, a) || Tied(a, b)
    ensures Tied(a, b) ==> !Lighter(a, b) && !Lighter(b, a)
  {
  }

  /** The tie list is exactly the candidates that no candidate beats, and is never empty. */
  lemma {:induction false} TiesAreMinimal(cs: seq<Candidate>)
    requires |cs| > 0
    ensures |Ties(cs)| > 0
    ensures forall c :: c in Ties(cs) <==> c in cs && Lightest(c, cs)
  {
    hide Lightest;
    KeepMembers(cs, cs);
    TiesNonempty(cs);
    forall c | c in cs && Lightest(c, cs) ensures c in Ties(cs) {
      var i := IndexOf(cs, c);
    }
  }

  /** The tie list in plain numbers: exactly the candidates whose load players / max(maxPlayers, 1), compared
      by cross-multiplication, is smallest, and among those of equal load their players. */
  lemma {:induction false} TiesAreLeastLoaded(cs: seq<Candidate>, x: Candidate)
    requires |cs| > 0
    ensures x in Ties(cs) <==>
            x in cs && forall c :: c in cs ==>
              var mine := x.players * (if c.maxPlayers > 1 then c.maxPlayers else 1);
              var theirs := c.players * (if x.maxPlayers > 1 then x.maxPlayers else 1);
              mine < theirs || (mine == theirs && x.players <= c.players)
  {
    hide Keep;
    TiesAreMinimal(cs);
    forall c | c in cs && Lightest(x, cs) ensures !Lighter(c, x) {
      var i := IndexOf(cs, c);
    }
  }

  lemma {:induction false} TiesNonempty(cs: seq<Candidate>)
    requires |cs| > 0
    ensures |Ties(cs)| > 0
  {
    hide Lightest;
    var n := |cs| - 1;
    assert cs == cs[..n] + [cs[n]];
    if n == 0 {
      assert Lightest(cs[0], cs) by { LightestAlone(cs[0]); assert cs == [cs[0]]; }
    } else {
      TiesNonempty(cs[..n]);
      TiesExtend(cs[..n], cs[n], Ties(cs[..n])[0]);
    }
  }

  lemma {:induction false} LightestAlone(c: Candidate)
    ensures Lightest(c, [c])
  {
    Irreflexive(c);
  }

  /** The candidate a pick takes with the cursor at `cursor`. */
  function PickAt(cs: seq<Candidate>, cursor: nat): Candidate
    requires |Ties(cs)| > 0
  {
    Ties(cs)[cursor % |Ties(cs)|]
  }

  /** What n consecutive advancing picks take. */
  function Picks(cs: seq<Candidate>, cursor: nat, n: nat): (r: seq<Candidate>)
    requires |Ties(cs)| > 0
    ensures |r| == n
    decreases n
  {
    if n == 0 then [] else [PickAt(cs, cursor)] + Picks(cs, cursor + 1, n - 1)
  }

  /** As long as the cursor does not pass the end of the tie list, they take a stretch of it. */
  lemma {:induction false} PicksAreStretch(cs: seq<Candidate>, cursor: nat, n: nat)
    requires |Ties(cs)| > 0 && cursor % |Ties(cs)| + n <= |Ties(cs)|
    ensures Picks(cs, cursor, n) == Ties(cs)[cursor % |Ties(cs)|..cursor % |Ties(cs)| + n]
    decreases n
  {
    hide Ties;
    var ties, c := Ties(cs), cursor % |Ties(cs)|;
    if n > 0 {
      if n == 1 {
        assert Picks(cs, cursor + 1, 0) == [];
        assert ties[c..c + 1] == [ties[c]];
      } else {
        NextCursor(cursor, |ties|);
        PicksAreStretch(cs, cursor + 1, n - 1);
        assert ties[c..c + n] == [ties[c]] + ties[c + 1..c + n];
      }
    }
  }

  lemma {:induction false} PicksSplit(cs: seq<Candidate>, cursor: nat, a: nat, b: nat)
    requires |Ties(cs)| > 0
    ensures Picks(cs, cursor, a + b) == Picks(cs, cursor, a) + Picks(cs, cursor + a, b)
    decreases a
  {
    hide PickAt;
    if a > 0 {
      PicksSplit(cs, cursor + 1, a - 1, b);
    }
  }

  /** As many consecutive advancing picks as there are ties take every member of the tie list exactly
      once, wherever the cursor starts. */
  lemma {:induction false} CursorCycle(cs: seq<Candidate>, cursor: nat)
    requires |cs| > 0
    ensures |Ties(cs)| > 0 && multiset(Picks(cs, cursor, |Ties(cs)|)) == multiset(Ties(cs))
  {
    hide Ties, Picks;
    TiesNonempty(cs);
    var ties, n := Ties(cs), |Ties(cs)|;
    var c := cursor % n;
    PicksSplit(cs, cursor, n - c, c);
    PicksAreStretch(cs, cursor, n - c);
    CursorWraps(cursor, n);
    PicksAreStretch(cs, cursor + (n - c), c);
    assert ties == ties[..c] + ties[c..];
    assert ties[0..c] == ties[..c] && ties[c..n] == ties[c..];
  }

  lemma {:induction false} NextCursor(cursor: nat, n: nat)
    requires n > 0 && cursor % n + 1 < n
    ensures (cursor + 1) % n == cursor % n + 1
  {
    Residue(cursor + 1, cursor / n, n, cursor % n + 1);
  }

  lemma {:induction false} CursorWraps(cursor: nat, n: nat)
    requires n > 0
    ensures (cursor + (n - cursor % n)) % n == 0
  {
    assert (cursor / n + 1) * n == cursor / n * n + n;
    Residue(cursor + (n - cursor % n), cursor / n + 1, n, 0);
  }

  lemma {:induction false} Residue(x: nat, q: nat, n: nat, r: nat)
    requires r < n && x == q * n + r
    ensures x % n == r
  {
    var m := q - x / n;
    assert m * n == q * n - x / n * n;
    Multiple(m, n);
  }

  /** The tie loop and the cursor of pickServerInstanceLocked. */
  method Choose(candidates: seq<Candidate>, cursor: nat) returns (picked: Option<Candidate>)
    ensures picked.None? <==> |candidates| == 0
    ensures |candidates| > 0 ==> |Ties(candidates)| > 0 && picked == Some(PickAt(candidates, cursor))
  {
    hide Lighter, Tied, Lightest, Keep;
    if |candidates| == 0 {
      return None;
    }
    var best := [candidates[0]];
    TiesOfOne(candidates[0]);
    assert candidates[..1] == [candidates[0]];
    for i := 1 to |candidates|
      invariant |best| > 0 && best == Ties(candidates[..i])
    {
      var cand, bestRef := candidates[i], best[0];
      TiesExtend(candidates[..i], cand, bestRef);
      Comparison(cand, bestRef);
      assert candidates[..i + 1] == candidates[..i] + [cand];
      if Lighter(cand, bestRef) {
        best := [cand];
      } else if Tied(cand, bestRef) {
        best := best + [cand];
      }
    }
    assert candidates[..|candidates|] == candidates;
    var idx := 0;
    if |best| > 1 {
      idx := cursor % |best|;
    }
    picked := Some(best[idx]);
  }

  lemma {:induction false} TiesOfOne(c: Candidate)
    ensures Ties([c]) == [c]
  {
    LightestAlone(c);
    assert [c][..0] == [];
    assert Keep([c], [c]) == Keep([c][..0], [c]) + [c];
  }
}
