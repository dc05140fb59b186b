/** The decoding tables of quake106.go: `mkH` builds them, `huff.dec` reads a symbol with them. */
module Huffman {
  import opened Common
  import opened Words
  import opened Bits
  import opened BitReaders
  import opened Codes

  /** The Go struct; a value, copied on every call. */
  datatype Huff = Huff(
    one: bool, val: nat, max: nat,
    cnt: seq<nat>, first: seq<nat>, start: seq<nat>, sym: seq<nat>)

  /** A Go call either returns or panics on an index out of range. */
  datatype Outcome<+T> = Value(value: T) | Panic

  const TABLE: nat := 17

  ghost predicate Represents(h: Huff, tree: Tree) {
    match tree
    case Single(v) => h.one && h.val == v
    case Coded(lens) => !h.one && h.max == MAX_LEN && ShortLengths(lens) && TablesOf(h, lens)
  }

  ghost predicate TablesOf(h: Huff, lens: seq<nat>) {
    && |h.cnt| == |h.first| == |h.start| == TABLE
    && (forall l :: 0 <= l < TABLE ==> Entry(h.cnt, h.first, h.start, lens, l))
    && Filled(h.sym, lens, lens)
  }

  ghost predicate Entry(cnt: seq<nat>, first: seq<nat>, start: seq<nat>, lens: seq<nat>, l: nat)
    requires l < |cnt| && l < |first| && l < |start|
  {
    cnt[l] == Count(lens, l) && first[l] == Wrap16(First(lens, l)) && start[l] == Start(lens, l)
  }

  /** The slots of the symbols of `done` hold them, in order of length and then symbol. */
  ghost predicate Filled(sym: seq<nat>, lens: seq<nat>, done: seq<nat>) {
    forall l: nat, d: nat :: 1 <= l < TABLE && d < Count(done, l) ==> InSlot(sym, lens, done, l, d)
  }

  ghost predicate InSlot(sym: seq<nat>, lens: seq<nat>, done: seq<nat>, l: nat, d: nat)
    requires d < Count(done, l)
  {
    Start(lens, l) + d < |sym| && sym[Start(lens, l) + d] == SymbolAt(done, l, d)
  }

  lemma {:induction false} StartsApart(lens: seq<nat>, l: nat, m: nat)
    requires l < m
    ensures Start(lens, l) + Count(lens, l) <= Start(lens, m)
    decreases m
  {
    if l + 1 < m {
      StartsApart(lens, l, m - 1);
    }
  }

  /** All slots together are the coded symbols. */
  lemma {:induction false} StartGrows(lens: seq<nat>, l: nat)
    requires |lens| > 0
    ensures var n := |lens| - 1;
            Start(lens, l) == Start(lens[..n], l) + if 0 < lens[n] < l then 1 else 0
  {
    if l > 0 {
      StartGrows(lens, l - 1);
    }
  }

  lemma {:induction false} StartBound(lens: seq<nat>, l: nat)
    ensures Start(lens, l) <= |lens|
  {
    if |lens| == 0 {
      NoStart(l);
    } else {
      StartBound(lens[..|lens| - 1], l);
      StartGrows(lens, l);
    }
  }

  lemma {:induction false} NoStart(l: nat)
    ensures Start([], l) == 0
  {
    if l > 0 {
      NoStart(l - 1);
    }
  }

  /** Counting phase: one uint16 entry per length, a panic on a length the table has no entry for. */
  method CountLengths(l: seq<nat>) returns (r: Outcome<seq<nat>>)
    ensures r.Panic? <==> exists i :: 0 <= i < |l| && l[i] > MAX_LEN
    ensures r.Value? ==>
              |r.value| == TABLE && forall k {:trigger r.value[k]} :: 0 <= k < TABLE ==> r.value[k] == Wrap16(Count(l, k))
  {
    assert Wrap16(0) == 0;
    hide Wrap16;
    var cnt: seq<nat> := seq(17, _ => 0);
    for i := 0 to |l|
      invariant forall j :: 0 <= j < i ==> l[j] <= MAX_LEN
      invariant |cnt| == TABLE
      invariant forall k {:trigger cnt[k]} :: 0 <= k < TABLE ==> cnt[k] == Wrap16(Count(l[..i], k))
    {
      assert l[..i + 1][..i] == l[..i];
      if l[i] != 0 {
        if l[i] >= |cnt| {
          return Panic;
        }
        WrapNext(Count(l[..i], l[i]));
        cnt := cnt[l[i] := Wrap16(cnt[l[i]] + 1)];
      }
    }
    assert l[..|l|] == l;
    r := Value(cnt);
  }

  lemma {:induction false} WrapNext(x: nat)
    ensures Wrap16(Wrap16(x) + 1) == Wrap16(x + 1)
  {
    var q := Wraps(x);
    Wrap16Periodic(Wrap16(x) + 1, q);
  }

  /** Placing phase: each symbol goes to the next free slot of its length. */
  method PlaceSymbols(l: seq<nat>, start: seq<nat>, t: nat) returns (sym: seq<nat>)
    requires ShortLengths(l) && |start| == TABLE && t == Start(l, TABLE)
    requires forall k {:trigger start[k]} :: 0 <= k < TABLE ==> start[k] == Start(l, k)
    ensures |sym| == t && Filled(sym, l, l)
  {
    sym := seq(t, _ => 0);
    var next := start;
    for i := 0 to |l|
      invariant |sym| == t && |next| == TABLE
      invariant forall k {:trigger next[k]} :: 0 <= k < TABLE ==> next[k] == Start(l, k) + Count(l[..i], k)
      invariant Filled(sym, l, l[..i])
    {
      assert l[..i + 1][..i] == l[..i];
      var v := l[i];
      if v != 0 {
        StartBound(l, TABLE);
        PlaceKeeps(sym, l, i, next[v]);
        sym := sym[next[v] := Wrap16(i)];
        next := next[v := Wrap16(next[v] + 1)];
      } else {
        PlaceNothing(sym, l, i);
      }
    }
    assert l[..|l|] == l;
  }

  /** Writing symbol i in its slot overwrites no symbol placed before. */
  lemma {:induction false} PlaceKeeps(sym: seq<nat>, lens: seq<nat>, i: nat, at: nat)
    requires ShortLengths(lens) && i < |lens| && lens[i] > 0 && Filled(sym, lens, lens[..i])
    requires |sym| == Start(lens, TABLE) && at == Start(lens, lens[i]) + Count(lens[..i], lens[i])
    ensures at < |sym| && Filled(sym[at := i], lens, lens[..i + 1])
  {
    var v := lens[i];
    CountPrefix(lens, i, v);
    StartsApart(lens, v, TABLE);
    var done, sym' := lens[..i + 1], sym[at := i];
    assert done[..i] == lens[..i];
    forall l: nat, d: nat | 1 <= l < TABLE && d < Count(done, l)
      ensures InSlot(sym', lens, done, l, d)
    {
      if l != v || d < Count(lens[..i], v) {
        assert InSlot(sym, lens, lens[..i], l, d);
        CountPrefix(lens, i, l);
        if l < v {
          StartsApart(lens, l, v);
        } else if v < l {
          StartsApart(lens, v, l);
        }
      }
    }
  }

  /** A symbol that is not coded takes no slot. */
  lemma {:induction false} PlaceNothing(sym: seq<nat>, lens: seq<nat>, i: nat)
    requires i < |lens| && lens[i] == 0 && Filled(sym, lens, lens[..i])
    ensures Filled(sym, lens, lens[..i + 1])
  {
    var done := lens[..i + 1];
    assert done[..i] == lens[..i];
    forall l: nat, d: nat | 1 <= l < TABLE && d < Count(done, l)
      ensures InSlot(sym, lens, done, l, d)
    {
      assert InSlot(sym, lens, lens[..i], l, d);
    }
  }

  method MkH(l: seq<nat>) returns (r: Outcome<Huff>)
    requires |l| < TWO_16
    ensures r.Panic? <==> !ShortLengths(l)
    ensures r.Value? ==> Represents(r.value, Coded(l))
  {
    var counted := CountLengths(l);
    if counted.Panic? {
      return Panic;
    }
    var cnt := counted.value;
    var max := 16;
    var first, start := FirstCodes(l, cnt, max);
    var t := 0;
    NoZeroLength(l);
    for i := 1 to max + 1
      invariant t == Start(l, i)
    {
      assert Entry(cnt, first, start, l, i);
      StartBound(l, i + 1);
      t := Wrap16(t + cnt[i]);
    }
    assert forall k {:trigger start[k]} :: 0 <= k < TABLE ==> Entry(cnt, first, start, l, k);
    var sym := PlaceSymbols(l, start, t);
    r := Value(Huff(false, 0, max, cnt, first, start, sym));
  }

  /** The first codeword and first slot of each length, in 16-bit arithmetic. */
  method FirstCodes(ghost l: seq<nat>, cnt: seq<nat>, max: nat) returns (first: seq<nat>, start: seq<nat>)
    requires |l| < TWO_16 && max == MAX_LEN && |cnt| == TABLE
    requires forall k {:trigger cnt[k]} :: 0 <= k < TABLE ==> cnt[k] == Count(l, k)
    ensures |first| == |start| == TABLE
    ensures forall k :: 0 <= k < TABLE ==> Entry(cnt, first, start, l, k)
  {
    first, start := seq(17, _ => 0), seq(17, _ => 0);
    var code := 0;
    NoZeroLength(l);
    for i := 1 to max + 1
      invariant |first| == |start| == TABLE && code == first[i - 1]
      invariant forall k :: 0 <= k < i ==> Entry(cnt, first, start, l, k)
    {
      StartBound(l, i);
      assert Entry(cnt, first, start, l, i - 1);
      WrapDouble(First(l, i - 1), cnt[i - 1], code);
      code := Wrap16(2 * Wrap16(code + cnt[i - 1]));
      ghost var first', start' := first, start;
      first := first[i := code];
      start := start[i := Wrap16(start[i - 1] + cnt[i - 1])];
      forall k | 0 <= k < i ensures Entry(cnt, first, start, l, k) {
        assert Entry(cnt, first', start', l, k);
      }
    }
  }

  lemma {:induction false} WrapDouble(f: nat, c: nat, code: nat)
    requires code == Wrap16(f)
    ensures Wrap16(2 * Wrap16(code + c)) == Wrap16(2 * (f + c))
  {
    hide Wrap16;
    var p := Wraps(f);
    var q := Wraps(code + c);
    Wrap16Periodic(2 * Wrap16(code + c), 2 * p + 2 * q);
  }

  /** Reading one symbol, bit by bit. */
  method Dec(h: Huff, r: BitReader, ghost tree: Tree) returns (v: nat)
    requires r.Valid() && Represents(h, tree)
    modifies r
    ensures r.Valid() && (v, r.cur) == DecodeSymbol(tree, r.b, old(r.cur))
  {
    hide Count, First, Start, SymbolAt, Val, Scan, Filled, BitOr;
    if h.one {
      return h.val;
    }
    ghost var lens, t := tree.lens, r.cur;
    ghost var found := Scan(lens, r.b, t, t);
    var code := 0;
    for l := 1 to h.max + 1
      invariant r.Valid() && r.cur + 1 == t + l && code == Val(r.b, t, l - 1)
      invariant found == Scan(lens, r.b, t, r.cur)
    {
      ghost var u := r.cur;
      assert Entry(h.cnt, h.first, h.start, lens, l);
      NextBit(r.b, t, l - 1, u);
      var bit := r.Bits(1);
      code := BitOr(Wrap16(2 * code), bit);
      if code < h.first[l] {
        ScanMiss(lens, r.b, t, u, l, h.first[l]);
        continue;
      }
      var d := code - h.first[l];
      if d < h.cnt[l] {
        ScanHit(lens, r.b, t, u, l, h.first[l], d);
        SlotOf(h, lens, l, d);
        return h.sym[Wrap16(h.start[l] + d)];
      }
      ScanMiss(lens, r.b, t, u, l, h.first[l]);
    }
    ScanEnds(lens, r.b, t, r.cur);
    v := 0;
  }

  /** One length of the scan: a hit... */
  lemma {:induction false} ScanHit(lens: seq<nat>, src: seq<u8>, t: nat, u: nat, l: nat, first: nat, d: nat)
    requires 1 <= l <= MAX_LEN && u + 1 == t + l && first == Wrap16(First(lens, l))
    requires Val(src, t, l) == first + d && d < Count(lens, l)
    ensures Scan(lens, src, t, u) == Some(SymbolAt(lens, l, d))
  {
    hide Count, First, SymbolAt, Val;
  }

  /** ... or a miss. */
  lemma {:induction false} ScanMiss(lens: seq<nat>, src: seq<u8>, t: nat, u: nat, l: nat, first: nat)
    requires 1 <= l <= MAX_LEN && u + 1 == t + l && first == Wrap16(First(lens, l))
    requires Val(src, t, l) < first || Count(lens, l) <= Val(src, t, l) - first
    ensures Scan(lens, src, t, u) == Scan(lens, src, t, u + 1)
  {
    hide Count, First, SymbolAt, Val;
  }

  lemma {:induction false} ScanEnds(lens: seq<nat>, src: seq<u8>, t: nat, u: nat)
    requires u == t + MAX_LEN
    ensures Scan(lens, src, t, u) == None
  {
    hide Count, First, SymbolAt, Val;
  }

  /** The slot of the symbol of length l and rank d. */
  lemma {:induction false} SlotOf(h: Huff, lens: seq<nat>, l: nat, d: nat)
    requires ShortLengths(lens) && TablesOf(h, lens) && 1 <= l < TABLE && d < Count(lens, l)
    ensures h.start[l] + d < |h.sym| && h.start[l] + d < TWO_16
    ensures h.sym[h.start[l] + d] == SymbolAt(lens, l, d)
  {
    assert Entry(h.cnt, h.first, h.start, lens, l);
    assert InSlot(h.sym, lens, lens, l, d);
    StartBound(lens, l + 1);
  }

  /** Shifting in one more bit. */
  lemma {:induction false} NextBit(src: seq<u8>, t: nat, k: nat, u: nat)
    requires k < MAX_LEN && u == t + k
    ensures BitOr(Wrap16(2 * Val(src, t, k)), Val(src, u, 1)) == Val(src, t, k + 1)
  {
    Pow2Below16(k);
    var code := Val(src, t, k);
    assert Up(code, 1) == 2 * code;
    assert Pow2(1) == 2;
    BitOrDisjoint(code, 1, Val(src, u, 1));
    ValSplit(src, t, k, 1);
  }
}
