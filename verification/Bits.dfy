/** Bit sequences, most significant bit first, and the bit stream of a byte source. */
module Bits {
  import opened Words

  function ToNat(bs: seq<bool>): (r: nat)
    ensures r < Pow2(|bs|)
  {
    if |bs| == 0 then 0
    else 2 * ToNat(bs[..|bs| - 1]) + if bs[|bs| - 1] then 1 else 0
  }

  /** The low k bits of v, most significant first. */
  function NatBits(v: nat, k: nat): (bs: seq<bool>)
    ensures |bs| == k
  {
    if k == 0 then [] else NatBits(v / 2, k - 1) + [v % 2 == 1]
  }

  lemma {:induction false} ToNatOfNatBits(v: nat, k: nat)
    requires v < Pow2(k)
    ensures ToNat(NatBits(v, k)) == v
  {
    if k > 0 {
      ToNatOfNatBits(v / 2, k - 1);
      assert NatBits(v, k)[..k - 1] == NatBits(v / 2, k - 1);
    }
  }

  lemma {:induction false} NatBitsOfToNat(bs: seq<bool>)
    ensures NatBits(ToNat(bs), |bs|) == bs
  {
    if |bs| > 0 {
      NatBitsOfToNat(bs[..|bs| - 1]);
    }
  }

  const BYTE: nat := 8

  /** Bit t of the source; the source is followed by zero bits without end. */
  function BitAt(src: seq<u8>, t: nat): bool {
    if |src| == 0 then false
    else if t < BYTE then NatBits(src[0], BYTE)[t]
    else BitAt(src[1..], t - BYTE)
  }

  function Window(src: seq<u8>, t: nat, k: nat): (bs: seq<bool>)
    ensures |bs| == k
  {
    seq(k, j requires 0 <= j < k => BitAt(src, t + j))
  }

  /** The next k bits at cursor t as a number, most significant first. */
  function Val(src: seq<u8>, t: nat, k: nat): (r: nat)
    ensures r < Pow2(k)
  {
    if k == 0 then 0
    else 2 * Val(src, t, k - 1) + if BitAt(src, t + k - 1) then 1 else 0
  }

  lemma {:induction false} ValOfWindow(src: seq<u8>, t: nat, k: nat)
    ensures Val(src, t, k) == ToNat(Window(src, t, k))
  {
    if k > 0 {
      ValOfWindow(src, t, k - 1);
      assert Window(src, t, k)[..k - 1] == Window(src, t, k - 1);
    }
  }

  ghost predicate StartsWith(src: seq<u8>, t: nat, bits: seq<bool>) {
    Window(src, t, |bits|) == bits
  }

  lemma {:induction false} WindowSplit(src: seq<u8>, t: nat, j: nat, k: nat)
    ensures Window(src, t, j + k) == Window(src, t, j) + Window(src, t + j, k)
  {
  }

  lemma {:induction false} ValSplit(src: seq<u8>, t: nat, j: nat, k: nat)
    ensures Val(src, t, j + k) == Up(Val(src, t, j), k) + Val(src, t + j, k)
  {
    if k > 0 {
      ValSplit(src, t, j, k - 1);
    }
  }

  lemma {:induction false} StartsWithSplit(src: seq<u8>, t: nat, a: seq<bool>, b: seq<bool>)
    ensures StartsWith(src, t, a + b) <==> StartsWith(src, t, a) && StartsWith(src, t + |a|, b)
  {
    WindowSplit(src, t, |a|, |b|);
    var w := Window(src, t, |a + b|);
    assert w[..|a|] == Window(src, t, |a|) && w[|a|..] == Window(src, t + |a|, |b|);
    assert (a + b)[..|a|] == a && (a + b)[|a|..] == b;
  }

  lemma {:induction false} StartsWithNumber(src: seq<u8>, t: nat, v: nat, k: nat)
    requires v < Pow2(k)
    ensures StartsWith(src, t, NatBits(v, k)) <==> Val(src, t, k) == v
  {
    ToNatOfNatBits(v, k);
    ValOfWindow(src, t, k);
    NatBitsOfToNat(Window(src, t, k));
  }

  lemma {:induction false} ByteBit(src: seq<u8>, i: nat, j: nat)
    requires j < BYTE
    ensures BitAt(src, 8 * i + j) == (i < |src| && NatBits(src[i], BYTE)[j])
  {
    if |src| > 0 && i > 0 {
      ByteBit(src[1..], i - 1, j);
    }
  }

  lemma {:induction false} WindowOfByte(src: seq<u8>, i: nat)
    ensures Val(src, 8 * i, BYTE) == if i < |src| then src[i] else 0
  {
    var c := if i < |src| then src[i] else 0;
    assert Window(src, 8 * i, BYTE) == NatBits(c, BYTE) by {
      ZeroBits(BYTE);
      forall j: nat | j < BYTE ensures Window(src, 8 * i, BYTE)[j] == NatBits(c, BYTE)[j] {
        ByteBit(src, i, j);
      }
    }
    ValOfWindow(src, 8 * i, BYTE);
    Pow2Values();
    ToNatOfNatBits(c, BYTE);
  }

  lemma {:induction false} ZeroBits(k: nat)
    ensures NatBits(0, k) == seq(k, _ => false)
  {
    if k > 0 {
      ZeroBits(k - 1);
    }
  }

  /** Bits packed into bytes, the last byte padded with zero bits. */
  function Pack(bits: seq<bool>): (src: seq<u8>)
    ensures |bits| <= 8 * |src|
  {
    if |bits| == 0 then []
    else if |bits| <= BYTE then [PackByte(FullByte(bits))]
    else [PackByte(bits[..BYTE])] + Pack(bits[BYTE..])
  }

  function FullByte(bits: seq<bool>): (r: seq<bool>)
    requires |bits| <= BYTE
    ensures |r| == BYTE
    ensures forall t :: 0 <= t < BYTE ==> r[t] == (t < |bits| && bits[t])
  {
    bits + seq(BYTE - |bits|, _ => false)
  }

  function PackByte(bits: seq<bool>): (c: u8)
    requires |bits| == BYTE
  {
    Pow2Values();
    ToNat(bits)
  }

  lemma {:induction false} PackedByte(bits: seq<bool>, rest: seq<u8>, t: nat)
    requires |bits| == BYTE && t < BYTE
    ensures BitAt([PackByte(bits)] + rest, t) == bits[t]
  {
    NatBitsOfToNat(bits);
  }

  lemma {:induction false} BitAfterByte(c: u8, rest: seq<u8>, t: nat)
    ensures BitAt([c] + rest, t + BYTE) == BitAt(rest, t)
  {
    assert ([c] + rest)[1..] == rest;
  }

  lemma {:induction false} PackedBit(bits: seq<bool>, t: nat)
    ensures BitAt(Pack(bits), t) == (t < |bits| && bits[t])
  {
    if |bits| == 0 {
    } else if |bits| <= BYTE {
      var padded := FullByte(bits);
      if t < BYTE {
        PackedByte(padded, [], t);
        assert [PackByte(padded)] + [] == [PackByte(padded)];
      }
    } else if t < BYTE {
      PackedByte(bits[..BYTE], Pack(bits[BYTE..]), t);
    } else {
      PackedBit(bits[BYTE..], t - BYTE);
      BitAfterByte(PackByte(bits[..BYTE]), Pack(bits[BYTE..]), t - BYTE);
    }
  }

  /** Unpacking undoes packing: the packed bits are the stream, and only zeros follow. */
  lemma {:induction false} PackStartsWith(bits: seq<bool>)
    ensures StartsWith(Pack(bits), 0, bits)
    ensures forall t :: t >= |bits| ==> !BitAt(Pack(bits), t)
  {
    forall t: nat ensures BitAt(Pack(bits), t) == (t < |bits| && bits[t]) {
      PackedBit(bits, t);
    }
  }
}
