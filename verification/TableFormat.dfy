/** The serialised code tables of an LH5 block: how they are written and how they are read. */
module TableFormat {
  import opened Common
  import opened Words
  import opened Bits
  import opened BitReaders
  import opened Codes

  function Zeros(k: nat): (z: seq<nat>)
    ensures |z| == k && forall i :: 0 <= i < k ==> z[i] == 0
  {
    seq(k, _ => 0)
  }

  function Min(a: nat, b: nat): nat {
    if a < b then a else b
  }

  /** Conversion to uint8. */
  function Wrap8(x: nat): u8 {
    if x < 256 then x else Wrap8(x - 256)
  }

  // --- reading, as functions of the source and the cursor ---

  /** One code length of pTree: three bits, and from 7 on a run of ones. */
  function LengthAt(src: seq<u8>, t: nat): (r: (nat, nat))
    ensures r.0 <= 20
  {
    Pow2Values();
    var c := Val(src, t, 3);
    if c < 7 then (c, t + 3)
    else var k := Ones(src, t + 3, 13); (7 + k, t + 3 + OnesBits(k, 13))
  }

  /** The n0 code lengths of pTree; l are the ones read so far. */
  function LengthsAt(src: seq<u8>, t: nat, special: int, n0: nat, l: seq<nat>): (r: (seq<nat>, nat))
    requires |l| <= n0
    ensures |r.0| == n0
    decreases n0 - |l|
  {
    if |l| == n0 then (l, t)
    else
      var (v, u) := LengthAt(src, t);
      var l' := l + [v];
      if |l'| == special then
        LengthsAt(src, u + 2, special, n0, l' + Zeros(Min(Val(src, u, 2), n0 - |l'|)))
      else LengthsAt(src, u, special, n0, l')
  }

  /** The run lengths of cTree; l are the code lengths so far, at most n. */
  function RunsAt(src: seq<u8>, t: nat, bits: nat, tmp: Tree, n0: nat, n: nat, l: seq<nat>): (r: (seq<nat>, nat))
    requires |l| <= n && n0 <= n
    ensures n0 <= |r.0| <= n
    decreases n - |l|
  {
    if |l| >= n0 then (l, t)
    else
      var (c, u) := DecodeSymbol(tmp, src, t);
      if c > 2 then RunsAt(src, u, bits, tmp, n0, n, l + [Wrap8(c - 2)])
      else
        var z := RunSize(src, u, bits, c);
        RunsAt(src, u + RunBits(c, bits), bits, tmp, n0, n, l + Zeros(Min(z, n - |l|)))
  }

  /** The zeros that temp-tree symbol c stands for, its extra bits read at t. */
  function RunSize(src: seq<u8>, t: nat, bits: nat, c: nat): (z: nat)
    ensures z > 0
  {
    if c == 1 then Val(src, t, 4) + 3 else if c == 2 then Val(src, t, bits) + 20 else 1
  }

  /** Extra bits after temp-tree symbol c. */
  function RunBits(c: nat, bits: nat): nat {
    if c == 1 then 4 else if c == 2 then bits else 0
  }

  /** mkH on the lengths filled up with zeros: None is its panic on a length over 16. */
  function Build(l: seq<nat>, n: nat, t: nat): Option<(Tree, nat)>
    requires |l| <= n < TWO_16
  {
    var lens := Padded(l, n);
    if ShortLengths(lens) then Some((Coded(lens), t)) else None
  }

  function PTreeAt(src: seq<u8>, t: nat, bits: nat, special: int, n: nat): Option<(Tree, nat)>
    requires n < TWO_16
  {
    var n0 := Val(src, t, bits);
    if n0 == 0 then Some((Single(Val(src, t + bits, bits)), t + bits + bits))
    else
      var (l, u) := LengthsAt(src, t + bits, special, Min(n0, n), []);
      Build(l, n, u)
  }

  function CTreeAt(src: seq<u8>, t: nat, bits: nat, tmp: Tree, n: nat): Option<(Tree, nat)>
    requires n < TWO_16
  {
    var n0 := Val(src, t, bits);
    if n0 == 0 then Some((Single(Val(src, t + bits, bits)), t + bits + bits))
    else
      var (l, u) := RunsAt(src, t + bits, bits, tmp, Min(n0, n), n, []);
      Build(l, n, u)
  }

  // --- writing ---

  predicate CanCode(tree: Tree, s: nat) {
    match tree
    case Single(v) => s == v
    case Coded(lens) => Legal(lens) && s < |lens| && lens[s] > 0
  }

  /** The bits of symbol s in a tree that can code it. */
  function SymbolBits(tree: Tree, s: nat): seq<bool> {
    if tree.Coded? && s < |tree.lens| then Codeword(tree.lens, s) else []
  }

  /** How a tree is written: its only symbol, the first lengths with their zero skip, or runs. */
  datatype Form =
    | One(val: nat)
    | Lengths(lens: seq<nat>, skip: nat)
    | Runs(n0: nat, runs: seq<Run>)

  datatype Run = Length(v: nat) | Zero | ShortZeros(k: nat) | LongZeros(k: nat)

  function Expand(run: Run): seq<nat> {
    match run
    case Length(v) => [v]
    case Zero => Zeros(1)
    case ShortZeros(k) => Zeros(k)
    case LongZeros(k) => Zeros(k)
  }

  function ExpandAll(runs: seq<Run>): seq<nat> {
    if |runs| == 0 then [] else Expand(runs[0]) + ExpandAll(runs[1..])
  }

  /** The tree of n symbols that a form stands for; lengths left out are zero. */
  function TreeOf(form: Form, n: nat): Tree {
    match form
    case One(v) => Single(v)
    case Lengths(lens, _) => Coded(Padded(lens, n))
    case Runs(_, runs) => Coded(Padded(ExpandAll(runs), n))
  }

  function Clip(l: seq<nat>, n: nat): seq<nat> {
    if |l| > n then l[..n] else l
  }

  function Padded(l: seq<nat>, n: nat): (lens: seq<nat>)
    ensures |lens| == n
  {
    if |l| >= n then l[..n] else l + Zeros(n - |l|)
  }

  function Ones1(k: nat): (bits: seq<bool>)
    ensures |bits| == k
  {
    seq(k, _ => true)
  }

  function LengthBits(v: nat): seq<bool> {
    if v < 7 then NatBits(v, 3) else NatBits(7, 3) + (Ones1(v - 7) + [false])
  }

  /** The lengths from index i on; after index special - 1 comes the number of zeros skipped. */
  function LengthsBits(lens: seq<nat>, i: nat, special: int, skip: nat): seq<bool>
    requires i <= |lens|
    decreases |lens| - i
  {
    if i == |lens| then []
    else if i + 1 == special then
      LengthBits(lens[i]) + (NatBits(skip, 2) + LengthsBits(lens, i + 1 + Min(skip, |lens| - (i + 1)), special, skip))
    else LengthBits(lens[i]) + LengthsBits(lens, i + 1, special, skip)
  }

  function RunSymbol(run: Run): nat {
    match run
    case Length(v) => v + 2
    case Zero => 0
    case ShortZeros(_) => 1
    case LongZeros(_) => 2
  }

  function RunExtra(run: Run, bits: nat): seq<bool> {
    match run
    case Length(_) => []
    case Zero => []
    case ShortZeros(k) => if k < 3 then [] else NatBits(k - 3, 4)
    case LongZeros(k) => if k < 20 then [] else NatBits(k - 20, bits)
  }

  predicate LegalRun(run: Run, bits: nat, tmp: Tree) {
    && CanCode(tmp, RunSymbol(run))
    && match run
       case Length(v) => 1 <= v <= MAX_LEN
       case Zero => true
       case ShortZeros(k) => 3 <= k < 3 + Pow2(4)
       case LongZeros(k) => 20 <= k < 20 + Pow2(bits)
  }

  function RunsBits(runs: seq<Run>, bits: nat, tmp: Tree): seq<bool> {
    if |runs| == 0 then []
    else SymbolBits(tmp, RunSymbol(runs[0])) + (RunExtra(runs[0], bits) + RunsBits(runs[1..], bits, tmp))
  }

  /** The runs end as soon as they cover the room; only the last may reach past it. */
  predicate Covers(runs: seq<Run>, room: int) {
    if |runs| == 0 then room <= 0
    else room > 0 && Covers(runs[1..], room - |Expand(runs[0])|)
  }

  /** Lengths the format can hold, with zeros where the skip says. */
  predicate LegalList(lens: seq<nat>, special: int, skip: nat) {
    && skip < Pow2(2)
    && (forall i :: 0 <= i < |lens| ==> lens[i] <= MAX_LEN)
    && (forall i :: 0 < special <= i < special + skip && i < |lens| ==> lens[i] == 0)
  }

  predicate LegalLengths(form: Form, bits: nat, special: int, n: nat) {
    match form
    case One(v) => v < Pow2(bits)
    case Lengths(lens, skip) =>
      1 <= |lens| <= n && |lens| < Pow2(bits) && LegalList(lens, special, skip)
    case Runs(_, _) => false
  }

  predicate LegalRuns(form: Form, bits: nat, tmp: Tree, n: nat) {
    match form
    case One(v) => v < Pow2(bits)
    case Lengths(_, _) => false
    case Runs(n0, runs) =>
      && 1 <= n0 <= n && n0 < Pow2(bits)
      && (forall i :: 0 <= i < |runs| ==> LegalRun(runs[i], bits, tmp))
      && Covers(runs, n0)
  }

  function PTreeBits(form: Form, bits: nat, special: int): seq<bool> {
    match form
    case One(v) => NatBits(0, bits) + NatBits(v, bits)
    case Lengths(lens, skip) => NatBits(|lens|, bits) + LengthsBits(lens, 0, special, skip)
    case Runs(_, _) => []
  }

  function CTreeBits(form: Form, bits: nat, tmp: Tree): seq<bool> {
    match form
    case One(v) => NatBits(0, bits) + NatBits(v, bits)
    case Lengths(_, _) => []
    case Runs(n0, runs) => NatBits(n0, bits) + RunsBits(runs, bits, tmp)
  }

  // --- reading inverts writing ---

  lemma {:induction false} ReadNumber(src: seq<u8>, t: nat, v: nat, k: nat, rest: seq<bool>)
    requires v < Pow2(k) && StartsWith(src, t, NatBits(v, k) + rest)
    ensures Val(src, t, k) == v && StartsWith(src, t + k, rest)
  {
    StartsWithSplit(src, t, NatBits(v, k), rest);
    StartsWithNumber(src, t, v, k);
  }

  lemma {:induction false} ReadOnes(src: seq<u8>, t: nat, k: nat, max: nat)
    requires k < max && StartsWith(src, t, Ones1(k) + [false])
    ensures Ones(src, t, max) == k
    decreases k
  {
    var bits := Ones1(k) + [false];
    assert Window(src, t, k + 1) == bits;
    assert BitAt(src, t) == bits[0];
    assert Val(src, t, 0) == 0;
    if k > 0 {
      assert Ones1(k) == [true] + Ones1(k - 1);
      assert bits == [true] + (Ones1(k - 1) + [false]);
      StartsWithSplit(src, t, [true], Ones1(k - 1) + [false]);
      ReadOnes(src, t + 1, k - 1, max - 1);
    }
  }

  lemma {:induction false} ReadLength(src: seq<u8>, t: nat, v: nat, rest: seq<bool>)
    requires v <= MAX_LEN && StartsWith(src, t, LengthBits(v) + rest)
    ensures LengthAt(src, t) == (v, t + |LengthBits(v)|)
    ensures StartsWith(src, t + |LengthBits(v)|, rest)
  {
    StartsWithSplit(src, t, LengthBits(v), rest);
    Pow2Values();
    if v < 7 {
      StartsWithNumber(src, t, v, 3);
    } else {
      ReadNumber(src, t, 7, 3, Ones1(v - 7) + [false]);
      ReadOnes(src, t + 3, v - 7, 13);
    }
  }

  lemma {:induction false} ReadLengths(src: seq<u8>, t: nat, lens: seq<nat>, i: nat, special: int, skip: nat)
    requires i <= |lens| && LegalList(lens, special, skip)
    requires StartsWith(src, t, LengthsBits(lens, i, special, skip))
    ensures LengthsAt(src, t, special, |lens|, lens[..i]) == (lens, t + |LengthsBits(lens, i, special, skip)|)
    decreases |lens| - i
  {
    hide StartsWith, Val, NatBits, LengthAt, LengthBits;
    if i == |lens| {
      assert lens[..i] == lens;
    } else {
      assert lens[..i] + [lens[i]] == lens[..i + 1];
      var u := t + |LengthBits(lens[i])|;
      if i + 1 == special {
        var j := i + 1 + Min(skip, |lens| - (i + 1));
        var rest := LengthsBits(lens, j, special, skip);
        ReadLength(src, t, lens[i], NatBits(skip, 2) + rest);
        ReadNumber(src, u, skip, 2, rest);
        ReadLengths(src, u + 2, lens, j, special, skip);
        assert lens[..i + 1] + Zeros(j - (i + 1)) == lens[..j];
      } else {
        ReadLength(src, t, lens[i], LengthsBits(lens, i + 1, special, skip));
        ReadLengths(src, u, lens, i + 1, special, skip);
      }
    }
  }

  /** pTree inverts its serialisation, for every legal form and every continuation of the stream. */
  lemma {:induction false} PTreeRoundTrip(src: seq<u8>, t: nat, form: Form, bits: nat, special: int, n: nat)
    requires n < TWO_16 && LegalLengths(form, bits, special, n)
    requires StartsWith(src, t, PTreeBits(form, bits, special))
    ensures PTreeAt(src, t, bits, special, n) == Some((TreeOf(form, n), t + |PTreeBits(form, bits, special)|))
  {
    hide StartsWith, Val, NatBits, LengthsAt, LengthsBits, RunsAt, RunsBits, ExpandAll, LegalRun, Pow2;
    match form
    case One(v) =>
      ReadNumber(src, t, 0, bits, NatBits(v, bits));
      StartsWithNumber(src, t + bits, v, bits);
    case Lengths(lens, skip) =>
      ReadNumber(src, t, |lens|, bits, LengthsBits(lens, 0, special, skip));
      ReadLengths(src, t + bits, lens, 0, special, skip);
      assert lens[..0] == [];
  }

  /** Decoding a symbol inverts coding it. */
  lemma {:induction false} ReadSymbol(src: seq<u8>, t: nat, tree: Tree, s: nat, rest: seq<bool>)
    requires CanCode(tree, s) && StartsWith(src, t, SymbolBits(tree, s) + rest)
    ensures DecodeSymbol(tree, src, t) == (s, t + |SymbolBits(tree, s)|)
    ensures StartsWith(src, t + |SymbolBits(tree, s)|, rest)
  {
    StartsWithSplit(src, t, SymbolBits(tree, s), rest);
    if tree.Coded? {
      DecodeCodeword(tree.lens, src, t, s);
    }
  }

  lemma {:induction false} ReadRuns(src: seq<u8>, t: nat, runs: seq<Run>, bits: nat, tmp: Tree, n0: nat, n: nat, l: seq<nat>)
    requires |l| <= n && n0 <= n && Covers(runs, n0 - |l|)
    requires forall i :: 0 <= i < |runs| ==> LegalRun(runs[i], bits, tmp)
    requires StartsWith(src, t, RunsBits(runs, bits, tmp))
    ensures var (lens, u) := RunsAt(src, t, bits, tmp, n0, n, l);
            Padded(lens, n) == Padded(l + ExpandAll(runs), n) && u == t + |RunsBits(runs, bits, tmp)|
    decreases |runs|
  {
    hide StartsWith, Val, NatBits, DecodeSymbol, SymbolBits, CanCode, Pow2, RunExtra, Padded, LegalRun, Scan;
    if |runs| == 0 {
      assert l + ExpandAll(runs) == l;
    } else {
      var r, rest := runs[0], RunsBits(runs[1..], bits, tmp);
      var l', u := ReadRun(src, t, r, rest, bits, tmp, n0, n, l);
      PaddedStep(l, runs, n);
      ReadRuns(src, u, runs[1..], bits, tmp, n0, n, l');
    }
  }

  /** Clipping at n after each run loses nothing. */
  lemma {:induction false} PaddedStep(l: seq<nat>, runs: seq<Run>, n: nat)
    requires |runs| > 0 && |l| <= n
    requires |l| + |Expand(runs[0])| > n ==> |runs| == 1
    ensures Padded(Clip(l + Expand(runs[0]), n) + ExpandAll(runs[1..]), n) == Padded(l + ExpandAll(runs), n)
  {
    var r := Expand(runs[0]);
    if |l| + |r| <= n {
      assert (l + r) + ExpandAll(runs[1..]) == l + ExpandAll(runs);
    } else {
      assert l + ExpandAll(runs) == l + r;
    }
  }

  /** One step of cTree's loop reads one run. */
  lemma {:induction false} ReadRun(
      src: seq<u8>, t: nat, r: Run, rest: seq<bool>, bits: nat, tmp: Tree, n0: nat, n: nat, l: seq<nat>)
    returns (l': seq<nat>, u: nat)
    requires |l| < n0 <= n && LegalRun(r, bits, tmp)
    requires StartsWith(src, t, SymbolBits(tmp, RunSymbol(r)) + (RunExtra(r, bits) + rest))
    ensures l' == Clip(l + Expand(r), n)
    ensures u == t + |SymbolBits(tmp, RunSymbol(r))| + |RunExtra(r, bits)|
    ensures RunsAt(src, t, bits, tmp, n0, n, l) == RunsAt(src, u, bits, tmp, n0, n, l')
    ensures StartsWith(src, u, rest)
  {
    hide StartsWith, Val, NatBits, DecodeSymbol, SymbolBits, CanCode, Pow2;
    ReadSymbol(src, t, tmp, RunSymbol(r), RunExtra(r, bits) + rest);
    var v := t + |SymbolBits(tmp, RunSymbol(r))|;
    StartsWithSplit(src, v, RunExtra(r, bits), rest);
    ReadExtra(src, v, r, bits, tmp);
    u := v + |RunExtra(r, bits)|;
    l' := Clip(l + Expand(r), n);
    if r.Length? {
      assert l' == l + [Wrap8(RunSymbol(r) - 2)];
    } else {
      assert l' == l + Zeros(Min(|Expand(r)|, n - |l|));
    }
  }

  lemma {:induction false} ReadExtra(src: seq<u8>, t: nat, r: Run, bits: nat, tmp: Tree)
    requires LegalRun(r, bits, tmp) && StartsWith(src, t, RunExtra(r, bits))
    ensures |RunExtra(r, bits)| == if r.Length? then 0 else RunBits(RunSymbol(r), bits)
    ensures r.ShortZeros? ==> Val(src, t, 4) + 3 == r.k
    ensures r.LongZeros? ==> Val(src, t, bits) + 20 == r.k
  {
    if r.ShortZeros? {
      StartsWithNumber(src, t, r.k - 3, 4);
    } else if r.LongZeros? {
      StartsWithNumber(src, t, r.k - 20, bits);
    }
  }

  lemma {:induction false} ExpandShort(runs: seq<Run>, bits: nat, tmp: Tree)
    requires forall i :: 0 <= i < |runs| ==> LegalRun(runs[i], bits, tmp)
    ensures forall i :: 0 <= i < |ExpandAll(runs)| ==> ExpandAll(runs)[i] <= MAX_LEN
  {
    if |runs| > 0 {
      assert LegalRun(runs[0], bits, tmp);
      ExpandShort(runs[1..], bits, tmp);
    }
  }

  /** cTree inverts its serialisation. */
  lemma {:induction false} CTreeRoundTrip(src: seq<u8>, t: nat, form: Form, bits: nat, tmp: Tree, n: nat)
    requires n < TWO_16 && LegalRuns(form, bits, tmp, n)
    requires StartsWith(src, t, CTreeBits(form, bits, tmp))
    ensures CTreeAt(src, t, bits, tmp, n) == Some((TreeOf(form, n), t + |CTreeBits(form, bits, tmp)|))
  {
    hide StartsWith, Val, NatBits, LengthsAt, LengthsBits, RunsAt, RunsBits, ExpandAll, LegalRun, Pow2;
    match form
    case One(v) =>
      ReadNumber(src, t, 0, bits, NatBits(v, bits));
      StartsWithNumber(src, t + bits, v, bits);
    case Runs(n0, runs) =>
      ReadNumber(src, t, n0, bits, RunsBits(runs, bits, tmp));
      ReadRuns(src, t + bits, runs, bits, tmp, n0, n, []);
      assert [] + ExpandAll(runs) == ExpandAll(runs);
      ExpandShort(runs, bits, tmp);
  }
}
