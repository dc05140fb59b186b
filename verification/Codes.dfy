/** Canonical Huffman codes of a list of code lengths: what `mkH` and `huff.dec` compute. */
module Codes {
  import opened Common
  import opened Words
  import opened Bits

  /** huff.max: the longest code length the tables hold. */
  const MAX_LEN: nat := 16

  /** A code: one symbol that takes no bits, or a length for each symbol (0: not coded). */
  datatype Tree = Single(val: nat) | Coded(lens: seq<nat>)

  predicate ShortLengths(lens: seq<nat>) {
    |lens| < TWO_16 && forall i :: 0 <= i < |lens| ==> lens[i] <= MAX_LEN
  }

  /** Number of symbols of length l. */
  function Count(lens: seq<nat>, l: nat): (r: nat)
    ensures r <= |lens|
  {
    if |lens| == 0 then 0
    else Count(lens[..|lens| - 1], l) + if l > 0 && lens[|lens| - 1] == l then 1 else 0
  }

  /** Symbols of the same length before s. */
  function Rank(lens: seq<nat>, s: nat): nat
    requires s < |lens|
  {
    Count(lens[..s], lens[s])
  }

  /** The first codeword of length l, as a number without a width. */
  function First(lens: seq<nat>, l: nat): nat {
    if l == 0 then 0 else 2 * (First(lens, l - 1) + Count(lens, l - 1))
  }

  /** Number of coded symbols shorter than l. */
  function Start(lens: seq<nat>, l: nat): nat {
    if l == 0 then 0 else Start(lens, l - 1) + Count(lens, l - 1)
  }

  /** The symbol of length l and rank d. */
  function SymbolAt(lens: seq<nat>, l: nat, d: nat): (s: nat)
    requires d < Count(lens, l)
    ensures s < |lens| && lens[s] == l && l > 0 && Rank(lens, s) == d
  {
    var n := |lens| - 1;
    if l > 0 && lens[n] == l && Count(lens[..n], l) == d then n
    else
      var s := SymbolAt(lens[..n], l, d);
      assert lens[..n][..s] == lens[..s];
      s
  }

  /** The codeword of symbol s: canonical codes go by length, then by symbol. */
  function CodeNumber(lens: seq<nat>, s: nat): nat
    requires s < |lens|
  {
    First(lens, lens[s]) + Rank(lens, s)
  }

  function Codeword(lens: seq<nat>, s: nat): (bits: seq<bool>)
    requires s < |lens|
    ensures |bits| == lens[s]
  {
    NatBits(CodeNumber(lens, s), lens[s])
  }

  /** The Kraft sum, in units of 2^-16. */
  function Kraft(lens: seq<nat>): nat
    requires ShortLengths(lens)
  {
    if |lens| == 0 then 0
    else
      var v := lens[|lens| - 1];
      Kraft(lens[..|lens| - 1]) + if v == 0 then 0 else Pow2(MAX_LEN - v)
  }

  predicate Legal(lens: seq<nat>) {
    ShortLengths(lens) && Kraft(lens) <= TWO_16
  }

  /** huff.dec with the code read at t and the cursor at u: the symbol, None at the fallback. */
  function Scan(lens: seq<nat>, src: seq<u8>, t: nat, u: nat): (r: Option<nat>)
    requires t <= u <= t + MAX_LEN
    ensures r.Some? ==> r.value < |lens| && u - t < lens[r.value] <= MAX_LEN
    decreases t + MAX_LEN - u
  {
    var l := u - t + 1;
    if l > MAX_LEN then None
    else
      var code, first := Val(src, t, l), Wrap16(First(lens, l));
      if first <= code && code - first < Count(lens, l) then Some(SymbolAt(lens, l, code - first))
      else Scan(lens, src, t, u + 1)
  }

  /** Decoding one symbol; the fallback answers 0 after 16 bits. */
  function DecodeSymbol(tree: Tree, src: seq<u8>, t: nat): (r: (nat, nat))
    ensures r.1 >= t
  {
    match tree
    case Single(v) => (v, t)
    case Coded(lens) =>
      match Scan(lens, src, t, t)
      case Some(s) => (s, t + lens[s])
      case None => (0, t + MAX_LEN)
  }

  // --- arithmetic of the code space ---

  lemma {:induction false} UpDouble(x: nat, k: nat)
    ensures Up(2 * x, k) == Up(x, k + 1)
  {
    if k > 0 {
      UpDouble(x, k - 1);
    }
  }

  lemma {:induction false} UpPow2(j: nat, k: nat)
    ensures Up(Pow2(j), k) == Pow2(j + k)
  {
    if k > 0 {
      UpPow2(j, k - 1);
    }
  }

  /** Adding a symbol of length v moves the first codewords of all longer lengths. */
  lemma {:induction false} FirstGrows(lens: seq<nat>, l: nat)
    requires |lens| > 0
    ensures var v := lens[|lens| - 1];
            First(lens, l) == First(lens[..|lens| - 1], l) + if 0 < v < l then Pow2(l - v) else 0
  {
    if l > 0 {
      FirstGrows(lens, l - 1);
    }
  }

  /** The Kraft sum is where the codewords of length 16 end. */
  lemma {:induction false} KraftIsEnd(lens: seq<nat>)
    requires ShortLengths(lens)
    ensures First(lens, MAX_LEN) + Count(lens, MAX_LEN) == Kraft(lens)
  {
    if |lens| == 0 {
      NoCodes(MAX_LEN);
    } else {
      KraftIsEnd(lens[..|lens| - 1]);
      FirstGrows(lens, MAX_LEN);
    }
  }

  lemma {:induction false} NoZeroLength(lens: seq<nat>)
    ensures Count(lens, 0) == 0
  {
    if |lens| > 0 {
      NoZeroLength(lens[..|lens| - 1]);
    }
  }

  lemma {:induction false} NoCodes(l: nat)
    ensures First([], l) == 0
  {
    if l > 0 {
      NoCodes(l - 1);
    }
  }

  /** The codewords up to length l fill at most the Kraft sum. */
  lemma {:induction false} PartialKraft(lens: seq<nat>, l: nat, k: nat)
    requires ShortLengths(lens) && l + k == MAX_LEN
    ensures Up(First(lens, l) + Count(lens, l), k) <= Kraft(lens)
    decreases k
  {
    if k == 0 {
      KraftIsEnd(lens);
    } else {
      PartialKraft(lens, l + 1, k - 1);
      var x := First(lens, l) + Count(lens, l);
      UpDouble(x, k - 1);
      UpMonotone(2 * x, First(lens, l + 1) + Count(lens, l + 1), k - 1);
    }
  }

  /** In a legal code the codewords of length l fit in l bits; in an incomplete one a word is left over. */
  lemma {:induction false} CodesFit(lens: seq<nat>, l: nat)
    requires Legal(lens) && l <= MAX_LEN
    ensures First(lens, l) + Count(lens, l) <= Pow2(l)
    ensures Kraft(lens) < TWO_16 ==> First(lens, l) + Count(lens, l) < Pow2(l)
  {
    var x, k, bound := First(lens, l) + Count(lens, l), MAX_LEN - l, Kraft(lens);
    assert Up(x, k) <= bound by { PartialKraft(lens, l, k); }
    FitsIn(x, l, k, bound);
  }

  lemma {:induction false} FitsIn(x: nat, l: nat, k: nat, bound: nat)
    requires l + k == MAX_LEN && Up(x, k) <= bound <= TWO_16
    ensures x <= Pow2(l)
    ensures bound < TWO_16 ==> x < Pow2(l)
  {
    Pow2Of16(l + k);
    UpPow2(l, k);
    if x >= Pow2(l) {
      UpMonotone(Pow2(l), x, k);
    }
  }

  lemma {:induction false} CountPrefix(lens: seq<nat>, n: nat, l: nat)
    requires n <= |lens|
    ensures Count(lens[..n], l) <= Count(lens, l)
    ensures n < |lens| && l > 0 && lens[n] == l ==> Count(lens[..n], l) < Count(lens, l)
  {
    if n == |lens| {
      assert lens[..n] == lens;
    } else {
      var m := |lens| - 1;
      if n < m {
        CountPrefix(lens[..m], n, l);
        assert lens[..m][..n] == lens[..n];
      }
    }
  }

  /** Symbols and (length, rank) pairs determine each other. */
  lemma {:induction false} SymbolAtRank(lens: seq<nat>, s: nat)
    requires s < |lens| && lens[s] > 0
    ensures Rank(lens, s) < Count(lens, lens[s])
    ensures SymbolAt(lens, lens[s], Rank(lens, s)) == s
  {
    CountPrefix(lens, s, lens[s]);
    var n := |lens| - 1;
    if s < n {
      SymbolAtRank(lens[..n], s);
      assert lens[..n][..s] == lens[..s];
    }
  }

  // --- main results on codes ---

  /** Code space, in units of 2^-16, of the symbols before (l, s) in the order by length, then symbol. */
  function SpaceBefore(lens: seq<nat>, l: nat, s: nat): nat
    requires ShortLengths(lens)
  {
    if |lens| == 0 then 0
    else
      var n := |lens| - 1;
      var v := lens[n];
      SpaceBefore(lens[..n], l, s) + if 0 < v < l || (0 < v == l && n < s) then Pow2(MAX_LEN - v) else 0
  }

  /** Each codeword, read as a binary fraction, is the code space taken before it. */
  lemma {:induction false} CodewordIsSpaceBefore(lens: seq<nat>, s: nat)
    requires ShortLengths(lens) && s < |lens| && lens[s] > 0
    ensures Up(CodeNumber(lens, s), MAX_LEN - lens[s]) == SpaceBefore(lens, lens[s], s)
  {
    SpaceIsFirstPlusCount(lens, lens[s], MAX_LEN - lens[s], s);
  }

  lemma {:induction false} SpaceIsFirstPlusCount(lens: seq<nat>, l: nat, k: nat, s: nat)
    requires ShortLengths(lens) && 0 < l && l + k == MAX_LEN
    ensures SpaceBefore(lens, l, s) == Up(First(lens, l) + Count(if s < |lens| then lens[..s] else lens, l), k)
  {
    if |lens| == 0 {
      NoCodes(l);
      UpZero(k);
    } else {
      var n := |lens| - 1;
      var v := lens[n];
      hide First, Up, Pow2, Count;
      SpaceIsFirstPlusCount(lens[..n], l, k, s);
      FirstGrows(lens, l);
      LastCount(lens, l, s);
      assert s < n ==> lens[..n][..s] == lens[..s];
      var below := First(lens[..n], l) + Count(if s < n then lens[..s] else lens[..n], l);
      MoreSpace(below, v, l, k);
    }
  }

  /** The last symbol's part in the count of the symbols of length l before s. */
  lemma {:induction false} LastCount(lens: seq<nat>, l: nat, s: nat)
    requires |lens| > 0 && l > 0
    ensures var n := |lens| - 1;
            Count(if s < |lens| then lens[..s] else lens, l) ==
            Count(if s < n then lens[..s] else lens[..n], l) + if lens[n] == l && n < s then 1 else 0
  {
    var n := |lens| - 1;
    assert s < n ==> lens[..n][..s] == lens[..s];
  }

  lemma {:induction false} MoreSpace(below: nat, v: nat, l: nat, k: nat)
    requires l + k == MAX_LEN
    ensures 0 < v < l ==> Up(below + Pow2(l - v), k) == Up(below, k) + Pow2(MAX_LEN - v)
    ensures v == l ==> Up(below + 1, k) == Up(below, k) + Pow2(MAX_LEN - v)
  {
    hide Up, Pow2;
    if 0 < v < l {
      UpSum(below, Pow2(l - v), k);
      UpPow2(l - v, k);
    }
    UpSum(below, 1, k);
    UpOne(k);
  }

  /** No length below the symbol's own catches the prefix of its codeword. */
  lemma {:induction false} ScanFinds(lens: seq<nat>, src: seq<u8>, t: nat, s: nat, u: nat)
    requires Legal(lens) && s < |lens| && t <= u < t + lens[s]
    requires Val(src, t, lens[s]) == CodeNumber(lens, s)
    ensures Scan(lens, src, t, u) == Some(s)
    decreases t + lens[s] - u
  {
    hide Count, First, SymbolAt, Val;
    var l, m := u - t + 1, lens[s];
    SymbolAtRank(lens, s);
    CodesFit(lens, m);
    CodesFit(lens, l);
    Pow2Below16(l);
    if l < m {
      PrefixTooBig(lens, src, t, l, m);
      ScanFinds(lens, src, t, s, u + 1);
    }
  }

  /** Shorter prefixes of a word at or past First(m) are past every shorter codeword. */
  lemma {:induction false} PrefixTooBig(lens: seq<nat>, src: seq<u8>, t: nat, l: nat, m: nat)
    requires l < m && Val(src, t, m) >= First(lens, m)
    ensures Val(src, t, l) >= First(lens, l) + Count(lens, l)
    decreases m - l
  {
    assert Val(src, t, m) <= 2 * Val(src, t, m - 1) + 1;
    if l < m - 1 {
      PrefixTooBig(lens, src, t, l, m - 1);
    }
  }

  /** Decoding inverts coding, for every legal code, symbol and continuation of the stream. */
  lemma {:induction false} DecodeCodeword(lens: seq<nat>, src: seq<u8>, t: nat, s: nat)
    requires Legal(lens) && s < |lens| && lens[s] > 0
    requires StartsWith(src, t, Codeword(lens, s))
    ensures DecodeSymbol(Coded(lens), src, t) == (s, t + lens[s])
  {
    SymbolAtRank(lens, s);
    CodesFit(lens, lens[s]);
    StartsWithNumber(src, t, CodeNumber(lens, s), lens[s]);
    ScanFinds(lens, src, t, s, t);
  }

  /** Conversely, a decoded symbol's codeword is what the stream starts with. */
  lemma {:induction false} ScanHitsCodeword(lens: seq<nat>, src: seq<u8>, t: nat, u: nat)
    requires Legal(lens) && t <= u <= t + MAX_LEN && Scan(lens, src, t, u).Some?
    ensures StartsWith(src, t, Codeword(lens, Scan(lens, src, t, u).value))
    decreases t + MAX_LEN - u
  {
    hide Count, First, SymbolAt, Val;
    var s, l := Scan(lens, src, t, u).value, u - t + 1;
    var code, first := Val(src, t, l), Wrap16(First(lens, l));
    if first <= code && code - first < Count(lens, l) {
      CodesFit(lens, l);
      Pow2Below16(l);
      StartsWithNumber(src, t, CodeNumber(lens, s), l);
    } else {
      ScanHitsCodeword(lens, src, t, u + 1);
    }
  }

  /** Codewords of a legal code are prefix-free. */
  lemma {:induction false} PrefixFree(lens: seq<nat>, a: nat, b: nat)
    requires Legal(lens) && a < |lens| && b < |lens| && lens[a] > 0 && lens[b] > 0
    requires Codeword(lens, a) <= Codeword(lens, b)
    ensures a == b
  {
    var w := Codeword(lens, b);
    var src := Pack(w);
    PackStartsWith(w);
    DecodeCodeword(lens, src, 0, b);
    assert Window(src, 0, lens[a]) == Window(src, 0, lens[b])[..lens[a]];
    DecodeCodeword(lens, src, 0, a);
  }

  /** A full code catches every word: had no length so far caught it, it would lie past them all. */
  lemma {:induction false} FullCodeHits(lens: seq<nat>, src: seq<u8>, t: nat, u: nat)
    requires Legal(lens) && Kraft(lens) == TWO_16 && t <= u <= t + MAX_LEN
    requires Val(src, t, u - t) >= First(lens, u - t) + Count(lens, u - t)
    ensures Scan(lens, src, t, u).Some?
    decreases t + MAX_LEN - u
  {
    hide Count, SymbolAt, Kraft, First, Val, Wrap16, Pow2;
    var l := u - t + 1;
    if l > MAX_LEN {
      KraftIsEnd(lens);
      Pow2Of16(l - 1);
      assert false;
    } else {
      NextStays(lens, src, t, l);
      FirstFits16(lens, l);
      if Val(src, t, l) - First(lens, l) >= Count(lens, l) {
        FullCodeHits(lens, src, t, u + 1);
      }
    }
  }

  /** Past the codewords of one length means at or past the first of the next. */
  lemma {:induction false} NextStays(lens: seq<nat>, src: seq<u8>, t: nat, l: nat)
    requires l > 0 && Val(src, t, l - 1) >= First(lens, l - 1) + Count(lens, l - 1)
    ensures Val(src, t, l) >= First(lens, l)
  {
    hide Count;
  }

  /** The 16-bit table entry of a length with codewords is the exact one; of a wrapped length, zero. */
  lemma {:induction false} FirstFits16(lens: seq<nat>, l: nat)
    requires Legal(lens) && l <= MAX_LEN
    ensures First(lens, l) < TWO_16 ==> Wrap16(First(lens, l)) == First(lens, l)
    ensures First(lens, l) >= TWO_16 ==> Wrap16(First(lens, l)) == 0 && Count(lens, l) == 0
  {
    hide Count, First;
    CodesFit(lens, l);
    Pow2Below16(l);
  }

  /** The all-ones word misses every length of an incomplete code. */
  lemma {:induction false} OnesMiss(lens: seq<nat>, src: seq<u8>, u: nat)
    requires Legal(lens) && Kraft(lens) < TWO_16 && u <= MAX_LEN
    requires src == [255, 255]
    ensures Scan(lens, src, 0, u).None?
    decreases MAX_LEN - u
  {
    var l := u + 1;
    if l <= MAX_LEN {
      CodesFit(lens, l);
      AllOnes(src, l);
      Pow2Below16(l);
      OnesMiss(lens, src, u + 1);
    }
  }

  lemma {:induction false} AllOnes(src: seq<u8>, l: nat)
    requires src == [255, 255] && l <= MAX_LEN
    ensures Val(src, 0, l) == Pow2(l) - 1
  {
    if l > 0 {
      AllOnes(src, l - 1);
      OneBit(src, l - 1);
    }
  }

  lemma {:induction false} OneBit(src: seq<u8>, t: nat)
    requires src == [255, 255] && t < 16
    ensures BitAt(src, t)
  {
    Pow2Values();
    var i := if t < 8 then 0 else 1;
    OnesByte(BYTE, t - 8 * i);
    ByteBit(src, i, t - 8 * i);
  }

  lemma {:induction false} OnesByte(k: nat, j: nat)
    requires j < k
    ensures NatBits(Pow2(k) - 1, k)[j]
  {
    assert (Pow2(k) - 1) / 2 == Pow2(k - 1) - 1 && (Pow2(k) - 1) % 2 == 1;
    if j < k - 1 {
      OnesByte(k - 1, j);
    }
  }

  /** The `return 0` fallback is unreachable exactly when the code is complete. */
  lemma {:induction false} FallbackUnreachable(lens: seq<nat>)
    requires Legal(lens)
    ensures Kraft(lens) == TWO_16 <==> forall src, t: nat :: Scan(lens, src, t, t).Some?
  {
    if Kraft(lens) == TWO_16 {
      forall src, t: nat ensures Scan(lens, src, t, t).Some? {
        NoZeroLength(lens);
        FullCodeHits(lens, src, t, t);
      }
    } else {
      var zero: nat := 0;
      OnesMiss(lens, [255, 255], zero);
      assert Scan(lens, [255, 255], zero, zero).None?;
    }
  }
}
