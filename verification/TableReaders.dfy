/** `pTree` and `cTree` of quake106.go, proved against the readings of TableFormat. */
module TableReaders {
  import opened Common
  import opened Words
  import opened Bits
  import opened BitReaders
  import opened Codes
  import opened Huffman
  import opened TableFormat

  /** A header call did what the reading says: the same tree, the same cursor, the same panic. */
  ghost predicate Agrees(h: Outcome<Huff>, cur: nat, reading: Option<(Tree, nat)>) {
    match reading
    case None => h.Panic?
    case Some((tree, u)) => h.Value? && Represents(h.value, tree) && cur == u
  }

  /** A Go struct literal that sets only `one` and `val`. */
  function OneSymbol(val: nat): (h: Huff)
    ensures Represents(h, Single(val))
  {
    var zeros := Zeros(17);
    Huff(true, val, 0, zeros, zeros, zeros, [])
  }

  method PTree(r: BitReader, bits: nat, special: int, n: nat) returns (h: Outcome<Huff>)
    requires r.Valid() && bits <= 16 && n < TWO_16
    modifies r
    ensures r.Valid() && Agrees(h, r.cur, PTreeAt(r.b, old(r.cur), bits, special, n))
  {
    hide LengthsAt, Val, Represents, ShortLengths;
    var n0: nat := r.Bits(bits);
    if n0 == 0 {
      var v := r.Bits(bits);
      return Value(OneSymbol(v));
    }
    if n0 > n {
      n0 := n;
    }
    var l := new nat[n](_ => 0);
    ReadLengthsInto(r, special, n0, l);
    h := MkH(l[..]);
  }

  method ReadOneLength(r: BitReader) returns (c: nat)
    requires r.Valid()
    modifies r
    ensures r.Valid() && (c, r.cur) == LengthAt(r.b, old(r.cur))
  {
    hide Val, Ones;
    Pow2Values();
    c := r.Bits(3);
    if c == 7 {
      var k := r.Trues(13);
      c := Wrap16(c + k);
    }
  }

  /** The loop of pTree. */
  method ReadLengthsInto(r: BitReader, special: int, n0: nat, l: array<nat>)
    requires r.Valid() && n0 <= l.Length && forall k :: 0 <= k < l.Length ==> l[k] == 0
    modifies r, l
    ensures r.Valid()
    ensures (var (lens, u) := LengthsAt(r.b, old(r.cur), special, n0, []);
             l[..] == Padded(lens, l.Length) && r.cur == u)
  {
    hide Val, LengthAt;
    ghost var goal := LengthsAt(r.b, r.cur, special, n0, []);
    var i := 0;
    assert l[..i] == [];
    while i < n0
      invariant i <= n0 && r.Valid() && forall k :: i <= k < l.Length ==> l[k] == 0
      invariant goal == LengthsAt(r.b, r.cur, special, n0, l[..i])
    {
      ghost var done := l[..i];
      var c := ReadOneLength(r);
      l[i] := Wrap8(c);
      i := i + 1;
      assert l[..i] == done + [c];
      if i == special {
        var z := r.Bits(2);
        i := SkipZeros(l, i, n0, z);
      }
    }
    assert l[..] == Padded(l[..n0], l.Length);
  }

  /** Both zero-run loops: at most z zeros from index i on, none past `end`. */
  method SkipZeros(l: array<nat>, i: nat, end: nat, z: nat) returns (j: nat)
    requires i <= end <= l.Length && forall k :: i <= k < l.Length ==> l[k] == 0
    modifies l
    ensures j == i + Min(z, end - i)
    ensures forall k :: j <= k < l.Length ==> l[k] == 0
    ensures l[..j] == old(l[..i]) + Zeros(Min(z, end - i))
  {
    j := i;
    var z := z;
    ghost var z0, was := z, l[..i];
    while z > 0 && j < end
      invariant i <= j <= end && z >= 0 && z + (j - i) == z0
      invariant l[..i] == was && forall k :: i <= k < l.Length ==> l[k] == 0
    {
      l[j] := 0;
      j := j + 1;
      z := z - 1;
    }
    assert l[..j] == was + Zeros(j - i);
  }

  method CTree(r: BitReader, bits: nat, tmp: Huff, n: nat, ghost tmpTree: Tree) returns (h: Outcome<Huff>)
    requires r.Valid() && bits <= 16 && n < TWO_16 && Represents(tmp, tmpTree)
    modifies r
    ensures r.Valid() && Agrees(h, r.cur, CTreeAt(r.b, old(r.cur), bits, tmpTree, n))
  {
    hide RunsAt, Val, Represents, ShortLengths;
    var n0: nat := r.Bits(bits);
    if n0 == 0 {
      var v := r.Bits(bits);
      return Value(OneSymbol(v));
    }
    if n0 > n {
      n0 := n;
    }
    var l := new nat[n](_ => 0);
    ReadRunsInto(r, bits, tmp, n0, l, tmpTree);
    h := MkH(l[..]);
  }

  /** How many zeros temp-tree symbol c stands for. */
  method ReadRunSize(r: BitReader, bits: nat, c: nat) returns (z: nat)
    requires r.Valid() && bits <= 16 && c <= 2
    modifies r
    ensures r.Valid() && r.cur == old(r.cur) + RunBits(c, bits)
    ensures z == RunSize(r.b, old(r.cur), bits, c)
  {
    hide Val;
    z := 1;
    if c == 1 {
      var k: nat := r.Bits(4);
      z := k + 3;
    } else if c == 2 {
      var k: nat := r.Bits(bits);
      z := k + 20;
    }
  }

  /** One turn of cTree's loop, as the reading has it. */
  lemma {:induction false} RunsTurn(src: seq<u8>, t: nat, bits: nat, tmp: Tree, n0: nat, n: nat, l: seq<nat>)
    requires |l| <= n && n0 <= n
    ensures |l| >= n0 ==> RunsAt(src, t, bits, tmp, n0, n, l) == (l, t)
    ensures |l| < n0 ==>
              var (c, u) := DecodeSymbol(tmp, src, t);
              RunsAt(src, t, bits, tmp, n0, n, l) ==
              if c > 2 then RunsAt(src, u, bits, tmp, n0, n, l + [Wrap8(c - 2)])
              else RunsAt(src, u + RunBits(c, bits), bits, tmp, n0, n, l + Zeros(Min(RunSize(src, u, bits, c), n - |l|)))
  {
    hide DecodeSymbol, RunSize, RunBits, Wrap8;
  }

  /** The loop of cTree. */
  method ReadRunsInto(r: BitReader, bits: nat, tmp: Huff, n0: nat, l: array<nat>, ghost tmpTree: Tree)
    requires r.Valid() && bits <= 16 && Represents(tmp, tmpTree)
    requires n0 <= l.Length && forall k :: 0 <= k < l.Length ==> l[k] == 0
    modifies r, l
    ensures r.Valid()
    ensures (var (lens, u) := RunsAt(r.b, old(r.cur), bits, tmpTree, n0, l.Length, []);
             l[..] == Padded(lens, l.Length) && r.cur == u)
  {
    hide Val, Represents, DecodeSymbol, Wrap8, RunSize, RunBits, RunsAt, BitReader.Valid;
    ghost var n := l.Length;
    ghost var goal := RunsAt(r.b, r.cur, bits, tmpTree, n0, n, []);
    var i := 0;
    assert l[..i] == [];
    while i < n0
      invariant i <= n && r.Valid() && forall k :: i <= k < n ==> l[k] == 0
      invariant goal == RunsAt(r.b, r.cur, bits, tmpTree, n0, n, l[..i])
      decreases n - i
    {
      ghost var done := l[..i];
      RunsTurn(r.b, r.cur, bits, tmpTree, n0, n, done);
      var c := Dec(tmp, r, tmpTree);
      if c > 2 {
        l[i] := Wrap8(c - 2);
        i := i + 1;
        assert l[..i] == done + [Wrap8(c - 2)];
        continue;
      }
      var z := ReadRunSize(r, bits, c);
      i := SkipZeros(l, i, l.Length, z);
    }
    RunsTurn(r.b, r.cur, bits, tmpTree, n0, n, l[..i]);
    assert l[..] == Padded(l[..i], n);
  }
}
