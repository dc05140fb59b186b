/** The `br` bit reader of quake106.go: a 64-bit word refilled a byte at a time. */
module BitReaders {
  import opened Words
  import opened Bits

  class BitReader {
    const b: seq<u8>
    var i: nat
    var v: nat
    var n: nat
    // bits handed out and bytes taken in so far, the zeros past the end included
    ghost var cur: nat
    ghost var fed: nat

    /** v holds the n pending bits in its top bits and nothing else. */
    ghost predicate Word()
      reads this
    {
      && i <= |b| && n <= 23
      && Holds(b, cur, n, v)
      && cur + n == 8 * fed && i == if fed < |b| then fed else |b|
    }

    ghost predicate Valid()
      reads this
    {
      Word() && n < 8
    }

    constructor (src: seq<u8>)
      ensures Valid() && b == src && cur == 0
    {
      b, i, v, n, cur, fed := src, 0, 0, 0, 0, 0;
      UpZero(64);
    }

    /** One turn of the refill loop. */
    method Refill()
      requires Word() && n < 16
      modifies this
      ensures Word() && cur == old(cur) && n == old(n) + 8
    {
      var c := 0;
      WindowOfByte(b, fed);
      if i < |b| {
        c := b[i];
        i := i + 1;
      }
      AppendByte(b, cur, n, v, c);
      v := BitOr(v, Shl(c, 56 - n));
      n := n + 8;
      fed := fed + 1;
    }

    method Bits(k: nat) returns (r: u16)
      requires Valid() && k <= 16
      modifies this
      ensures Valid()
      ensures r == Val(b, old(cur), k) && cur == old(cur) + k
    {
      hide Val, Shr, Up;
      while n < k
        invariant Word() && (n < 8 || n < k + 8) && cur == old(cur)
      {
        Refill();
      }
      TopBits(b, cur, n, k, v);
      DropBits(b, cur, n, k, v);
      ValIsU16(b, cur, k);
      r := Wrap16(Shr(v, 64 - k));
      v := Shl(v, k);
      n := n - k;
      cur := cur + k;
    }

    /** Number of one bits before the first zero bit, at most max; the zero is consumed. */
    method Trues(max: u16) returns (r: u16)
      requires Valid()
      modifies this
      ensures Valid()
      ensures r == Ones(b, old(cur), max) && cur == old(cur) + OnesBits(r, max)
    {
      var i := 0;
      while i < max
        invariant 0 <= i <= max && Valid() && cur == old(cur) + i
        invariant Ones(b, old(cur), max) == i + Ones(b, cur, max - i)
      {
        var one := Bits(1);
        if one == 0 {
          return i;
        }
        i := i + 1;
      }
      r := max;
    }
  }

  /** Count of leading ones at cursor t, at most max. */
  function Ones(src: seq<u8>, t: nat, max: nat): (r: nat)
    ensures r <= max
    decreases max
  {
    if max == 0 || Val(src, t, 1) == 0 then 0 else 1 + Ones(src, t + 1, max - 1)
  }

  /** Bits consumed by that count: the ones, and the zero that stopped it. */
  function OnesBits(r: nat, max: nat): nat {
    if r < max then r + 1 else r
  }

  lemma {:induction false} ValIsU16(src: seq<u8>, t: nat, k: nat)
    requires k <= 16
    ensures Val(src, t, k) < TWO_16
  {
    Pow2Below16(k);
  }

  /** The word v holds the n bits at cursor t in its top bits and nothing else. */
  ghost predicate Holds(src: seq<u8>, t: nat, n: nat, v: nat) {
    n <= 64 && v == Up(Val(src, t, n), 64 - n)
  }

  /** Or-ing the next byte under the pending bits appends it to them. */
  lemma {:induction false} AppendByte(src: seq<u8>, t: nat, n: nat, v: nat, c: u8)
    requires n < 16 && c == Val(src, t + n, BYTE) && Holds(src, t, n, v)
    ensures Holds(src, t, n + 8, BitOr(v, Shl(c, 56 - n)))
  {
    hide Val, BitOr, Pow2, Up, Shl;
    var p := Val(src, t, n);
    ValSplit(src, t, n, 8);
    ShiftedByte(c, n);
    UpSum(Up(p, 8), c, 56 - n);
    UpTwice(p, 8, 56 - n);
    BitOrDisjoint(p, 64 - n, Up(c, 56 - n));
  }

  /** A byte shifted to its place under n pending bits loses nothing and stays below them. */
  lemma {:induction false} ShiftedByte(c: u8, n: nat)
    requires n < 16
    ensures Shl(c, 56 - n) == Up(c, 56 - n) < Pow2(64 - n)
  {
    hide Up, Pow2;
    assert c < Pow2(8) by { Pow2Values(); }
    UpBelow(c, 8, 56 - n);
    Pow2Monotone(64 - n, n + (64 - n));
    Pow2Of64(n + (64 - n));
    UpWord(0, n + (64 - n), Up(c, 56 - n));
    UpZero(n + (64 - n));
  }

  /** A word of k + m pending bits as its next k bits on top of the other m. */
  lemma {:induction false} Decompose(src: seq<u8>, t: nat, k: nat, m: nat, e: nat, v: nat)
    requires v == Up(Val(src, t, k + m), e)
    ensures v == Up(Val(src, t, k), m + e) + Up(Val(src, t + k, m), e)
    ensures Up(Val(src, t + k, m), e) < Pow2(m + e)
  {
    ValSplit(src, t, k, m);
    Regroup(Val(src, t, k), Val(src, t + k, m), m, e);
    UpBelow(Val(src, t + k, m), m, e);
  }

  /** The top k bits of the word are the next k bits. */
  lemma {:induction false} TopBits(src: seq<u8>, t: nat, n: nat, k: nat, v: nat)
    requires k <= n <= 64 && Holds(src, t, n, v)
    ensures Shr(v, 64 - k) == Val(src, t, k)
  {
    hide Val, Up, Pow2, Shr;
    var m, e := n - k, 64 - n;
    Decompose(src, t, k, m, e, v);
    ShrDrops(Val(src, t, k), m + e, Up(Val(src, t + k, m), e));
  }

  /** Shifting the word left drops them. */
  lemma {:induction false} DropBits(src: seq<u8>, t: nat, n: nat, k: nat, v: nat)
    requires k <= n <= 64 && Holds(src, t, n, v)
    ensures Holds(src, t + k, n - k, Shl(v, k))
  {
    hide Val, Up, Pow2, Shl;
    var m, e := n - k, 64 - n;
    var lo := Val(src, t + k, m);
    assert Shl(v, k) == Up(Up(lo, e), k) by {
      Decompose(src, t, k, m, e, v);
      DropTop(Val(src, t, k), Up(lo, e), m + e, k);
    }
    UpTwice(lo, e, k);
  }

  lemma {:induction false} Regroup(hi: nat, lo: nat, a: nat, b: nat)
    ensures Up(Up(hi, a) + lo, b) == Up(hi, a + b) + Up(lo, b)
  {
    UpSum(Up(hi, a), lo, b);
    UpTwice(hi, a, b);
  }

  lemma {:induction false} DropTop(hi: nat, rest: nat, j: nat, k: nat)
    requires j + k == 64 && rest < Pow2(j)
    ensures Shl(Up(hi, j) + rest, k) == Up(rest, k)
  {
    Regroup(hi, rest, j, k);
    UpBelow(rest, j, k);
    Pow2Of64(j + k);
    UpWord(hi, j + k, Up(rest, k));
  }
}
