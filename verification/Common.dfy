/** What several modules share: options, bytes, ports, lists of distinct ids, facts on sets and products. */
module Common {
  datatype Option<+T> = None | Some(value: T)

  type byte = x: int | 0 <= x < 256

  predicate ValidPort(port: int) {
    1 <= port <= 65535
  }

  ghost predicate Distinct(ids: seq<int>) {
    forall i, j :: 0 <= i < j < |ids| ==> ids[i] != ids[j]
  }

  /** A list with every occurrence of one id deleted. */
  function Without(ids: seq<int>, id: int): seq<int> {
    if |ids| == 0 then []
    else Without(ids[..|ids| - 1], id) + if ids[|ids| - 1] == id then [] else [ids[|ids| - 1]]
  }

  lemma {:induction false} DistinctAppend(ids: seq<int>, id: int)
    ensures Distinct(ids) && id !in ids ==> Distinct(ids + [id])
  {
  }

  lemma {:induction false} WithoutMembers(ids: seq<int>, id: int)
    ensures forall x :: x in Without(ids, id) <==> x in ids && x != id
    ensures Distinct(ids) ==> Distinct(Without(ids, id))
  {
    if |ids| > 0 {
      var n := |ids| - 1;
      assert ids == ids[..n] + [ids[n]];
      WithoutMembers(ids[..n], id);
      if Distinct(ids) {
        assert forall i :: 0 <= i < n ==> ids[..n][i] != ids[n];
        DistinctAppend(Without(ids[..n], id), ids[n]);
      }
    }
  }

  lemma {:induction false} SomeMember<T(!new)>(s: set<T>)
    ensures s != {} ==> exists x :: x in s
  {
    if forall x :: x !in s {
      assert s == {};
    }
  }

  /** The same on integers, for the choice of one. */
  lemma {:induction false} SomeInt(s: set<int>)
    ensures s != {} ==> exists x: int :: x in s
  {
    if forall x: int :: x !in s {
      assert s == {};
    }
  }

  lemma {:induction false} Multiple(q: int, n: nat)
    ensures q >= 2 ==> q * n >= 2 * n
    ensures q >= 1 ==> q * n >= n
    ensures q <= -1 ==> q * n + n <= 0
  {
    if q >= 2 {
      assert q * n == 2 * n + (q - 2) * n && (q - 2) * n >= 0;
    }
    if q <= -1 {
      assert q * n + n == (q + 1) * n && (q + 1) * n <= 0;
    }
  }
}
