/** `decodeLH5` and `decodeLH5Seg` of quake106.go, proved against the block format. */
module Lh5 {
  import opened Common
  import opened Words
  import opened Bits
  import opened BitReaders
  import opened Codes
  import opened Huffman
  import opened TableFormat
  import opened TableReaders
  import opened Lz
  import opened Lh5Format

  /** Position trees of a header: 14 coded symbols, or a 4-bit single symbol. */
  ghost predicate PositionTree(p: Tree) {
    match p
    case Single(v) => v < 16
    case Coded(lens) => |lens| <= 14
  }

  lemma {:induction false} HeaderPositionTree(src: seq<u8>, t: nat)
    ensures PTreeAt(src, t, 4, -1, 14).Some? ==> PositionTree(PTreeAt(src, t, 4, -1, 14).value.0)
  {
    hide LengthsAt, Val, ShortLengths;
    Pow2Values();
  }

  lemma {:induction false} SlotBelow16(p: Tree, src: seq<u8>, t: nat)
    requires PositionTree(p)
    ensures DecodeSymbol(p, src, t).0 < 16
    ensures !p.Single? || p.val < 14 ==> DecodeSymbol(p, src, t).0 < 14
  {
    hide Scan;
  }

  // --- why the decoder can panic ---

  /** Offsets of the first 14 slots stay inside the window. */
  lemma {:induction false} NearOffset(src: seq<u8>, t: nat, ov: nat)
    requires ov < 14
    ensures OffsetAt(src, t, ov) < WINDOW
  {
    hide Val;
    Pow2Values();
    if ov > 0 {
      Pow2Monotone(ov, 13);
    }
  }

  /** Temp-tree symbols up to 18 stand for code lengths up to 16. */
  lemma {:induction false} RunsShort(src: seq<u8>, t: nat, bits: nat, tmp: Tree, n0: nat, n: nat, l: seq<nat>)
    requires |l| <= n && n0 <= n && (tmp.Single? ==> tmp.val <= 18) && (tmp.Coded? ==> |tmp.lens| <= 19)
    requires forall i :: 0 <= i < |l| ==> l[i] <= MAX_LEN
    ensures forall i :: 0 <= i < |RunsAt(src, t, bits, tmp, n0, n, l).0| ==>
              RunsAt(src, t, bits, tmp, n0, n, l).0[i] <= MAX_LEN
    decreases n - |l|
  {
    hide Val, Scan, RunSize, RunBits;
    if |l| < n0 {
      var (c, u) := DecodeSymbol(tmp, src, t);
      if c > 2 {
        assert Wrap8(c - 2) == c - 2;
        RunsShort(src, u, bits, tmp, n0, n, l + [c - 2]);
      } else {
        RunsShort(src, u + RunBits(c, bits), bits, tmp, n0, n, l + Zeros(Min(RunSize(src, u, bits, c), n - |l|)));
      }
    }
  }

  lemma {:induction false} CTreeNeverPanics(src: seq<u8>, t: nat, tmp: Tree)
    requires (tmp.Single? ==> tmp.val <= 18) && (tmp.Coded? ==> |tmp.lens| <= 19)
    ensures CTreeAt(src, t, 9, tmp, 510).Some?
  {
    hide Val, RunsAt;
    RunsShort(src, t + 9, 9, tmp, Min(Val(src, t, 9), 510), 510, []);
  }

  lemma {:induction false} TempTreeSymbols(src: seq<u8>, t: nat)
    ensures PTreeAt(src, t, 5, 3, 19).Some? && PTreeAt(src, t, 5, 3, 19).value.0.Coded? ==>
              |PTreeAt(src, t, 5, 3, 19).value.0.lens| == 19
  {
    hide Val, LengthsAt, ShortLengths;
  }

  lemma {:induction false} HeaderFaults(src: seq<u8>, t: nat)
    ensures var h := HeaderAt(src, t);
            && (h.Header? ==> PositionTree(h.tables.p))
            && (h.BadHeader? && h.fault.RunLength? ==> h.fault.tmp.Single? && h.fault.tmp.val > 18)
            && (h.BadHeader? ==> !h.fault.Distance?)
  {
    hide PTreeAt, CTreeAt, Val;
    TempTreeSymbols(src, t + 16);
    match PTreeAt(src, t + 16, 5, 3, 19)
    case None =>
    case Some((tmp, u)) =>
      if !(tmp.Single? && tmp.val > 18) {
        CTreeNeverPanics(src, u, tmp);
      }
      if CTreeAt(src, u, 9, tmp, 510).Some? {
        HeaderPositionTree(src, CTreeAt(src, u, 9, tmp, 510).value.1);
      }
  }

  /** A fault that some header shows: in the last two cases a single symbol no code length or slot has. */
  predicate InHeader(fault: Fault) {
    match fault
    case TempLength => true
    case PositionLength => true
    case RunLength(tmp) => tmp.Single? && tmp.val > 18
    case Distance(p) => p.Single? && p.val > 13
  }

  /** Every panic comes from a header: a serialised length over 16, or a single symbol out of range. */
  lemma {:induction false} FaultCauses(src: seq<u8>, t: nat, n: int, tables: Tables, out: seq<u8>, total: nat)
    requires |out| >= WINDOW && (n != 0 ==> PositionTree(tables.p))
    ensures var d := Decode(src, t, n, tables, out, total); d.Failed? ==> InHeader(d.fault)
    decreases total - |out|, 1
  {
    hide HeaderAt, TokenAt, PositionTree, Copy;
    if |out| < total {
      HeaderFaults(src, t);
      if n != 0 {
        TokenFaults(src, t, n, tables, out, total);
      } else {
        match HeaderAt(src, t)
        case BadHeader(_) =>
        case Header(count, tables', u) => TokenFaults(src, u, count, tables', out, total);
      }
    }
  }

  lemma {:induction false} TokenFaults(src: seq<u8>, t: nat, n: int, tables: Tables, out: seq<u8>, total: nat)
    requires WINDOW <= |out| < total && PositionTree(tables.p)
    ensures var d := DecodeToken(src, t, n, tables, out, total); d.Failed? ==> InHeader(d.fault)
    decreases total - |out|, 0
  {
    hide HeaderAt, DecodeSymbol, OffsetAt, PositionTree, Decode;
    match TokenAt(src, t, tables)
    case (Literal(b), u) => FaultCauses(src, u, n - 1, tables, out + [b], total);
    case (Match(len, off), u) =>
      if off < |out| {
        FaultCauses(src, u, n - 1, tables, Copy(out, off, Min(len, total - |out|)), total);
      } else {
        var v := DecodeSymbol(tables.c, src, t).1;
        SlotBelow16(tables.p, src, v);
        var (ov, w) := DecodeSymbol(tables.p, src, v);
        if ov < 14 {
          NearOffset(src, w, ov);
        }
      }
  }

  // --- the decoder ---

  /** The value of an unset `huff`. */
  const NO_HUFF: Huff := Huff(false, 0, 0, Zeros(17), Zeros(17), Zeros(17), [])

  /** A block header: its token count and its two tables, or a panic. */
  method ReadBlockHeader(r: BitReader) returns (ok: bool, count: nat, c: Huff, p: Huff, ghost tables: Tables)
    requires r.Valid()
    modifies r
    ensures r.Valid()
    ensures match HeaderAt(r.b, old(r.cur))
            case BadHeader(_) => !ok
            case Header(n, trees, u) =>
              ok && count == n && tables == trees && r.cur == u && Represents(c, trees.c) && Represents(p, trees.p)
  {
    hide PTreeAt, CTreeAt, Val, Represents;
    c, p := NO_HUFF, NO_HUFF;
    tables := Tables(Single(0), Single(0));
    ghost var t := r.cur;
    count := r.Bits(16);
    var tmp := PTree(r, 5, 3, 19);
    if tmp.Panic? {
      return false, count, c, p, tables;
    }
    ghost var tmpTree := PTreeAt(r.b, t + 16, 5, 3, 19).value.0;
    ghost var u := r.cur;
    var lit := CTree(r, 9, tmp.value, 510, tmpTree);
    if lit.Panic? {
      return false, count, c, p, tables;
    }
    ghost var w := r.cur;
    var dist := PTree(r, 4, -1, 14);
    if dist.Panic? {
      return false, count, c, p, tables;
    }
    tables := Tables(CTreeAt(r.b, u, 9, tmpTree, 510).value.0, PTreeAt(r.b, w, 4, -1, 14).value.0);
    ok, c, p := true, lit.value, dist.value;
  }

  /** The offset of a match: the slot and its extra bits. */
  method ReadOffset(r: BitReader, p: Huff, ghost tree: Tree) returns (off: nat)
    requires r.Valid() && Represents(p, tree) && PositionTree(tree)
    modifies r
    ensures r.Valid()
    ensures (var (ov, u) := DecodeSymbol(tree, r.b, old(r.cur));
             off == OffsetAt(r.b, u, ov) && r.cur == u + OffsetBits(ov))
  {
    hide Val, Represents, Scan;
    ghost var t := r.cur;
    var ov := Dec(p, r, tree);
    off := ov;
    if ov > 0 {
      SlotBelow16(tree, r.b, t);
      var w := ov - 1;
      UpOne(w);
      var e := r.Bits(w);
      off := Up(1, w) + e;
    }
  }

  /** The copy loop: ln bytes from index s on, s possibly negative; false is the bounds panic. */
  method CopyMatch(buf: array<u8>, pos: nat, s: int, ln: nat) returns (ok: bool)
    requires pos + ln <= buf.Length && s < pos && ln > 0
    modifies buf
    ensures ok <==> s >= 0
    ensures ok ==> buf[..pos + ln] == Copy(old(buf[..pos]), pos - s - 1, ln)
  {
    ghost var was := buf[..pos];
    for i := 0 to ln
      invariant i > 0 ==> s >= 0
      invariant buf[..pos + i] == if i == 0 then was else Copy(was, pos - s - 1, i)
    {
      if s + i < 0 {
        return false;
      }
      CopyOneMore(was, pos - s - 1, i);
      buf[pos + i] := buf[s + i];
      assert buf[..pos + i + 1] == buf[..pos + i] + [buf[pos + i]];
    }
    ok := true;
  }

  lemma {:induction false} AtToken(src: seq<u8>, t: nat, n: int, tables: Tables, out: seq<u8>, total: nat)
    requires |out| < total
    ensures n != 0 ==> Decode(src, t, n, tables, out, total) == DecodeToken(src, t, n, tables, out, total)
  {
    hide HeaderAt, DecodeToken;
  }

  lemma {:induction false} AtHeader(src: seq<u8>, t: nat, tables: Tables, out: seq<u8>, total: nat)
    requires |out| < total
    ensures Decode(src, t, 0, tables, out, total) ==
            match HeaderAt(src, t)
            case BadHeader(fault) => Failed(fault)
            case Header(count, trees, u) => DecodeToken(src, u, count, trees, out, total)
  {
    hide HeaderAt, DecodeToken;
  }

  /** One token, by the first symbol read. */
  lemma {:induction false} InBlock(
      src: seq<u8>, t: nat, n: int, tables: Tables, out: seq<u8>, total: nat, goal: Decoded)
    requires |out| < total && goal == DecodeToken(src, t, n, tables, out, total)
    ensures var (v, u) := DecodeSymbol(tables.c, src, t);
            if v < 256 then goal == Decode(src, u, n - 1, tables, out + [v], total)
            else
              var (ov, w) := DecodeSymbol(tables.p, src, u);
              var off, x := OffsetAt(src, w, ov), w + OffsetBits(ov);
              if off >= |out| then goal == Failed(Distance(tables.p))
              else goal == Decode(src, x, n - 1, tables, Copy(out, off, Min(v - 253, total - |out|)), total)
  {
    hide DecodeSymbol, OffsetAt, OffsetBits, Decode, Copy;
  }

  method DecodeLH5(buf: array<u8>, win: nat, src: seq<u8>) returns (ok: bool)
    requires win <= buf.Length
    modifies buf
    ensures match Decode(src, 0, 0, Tables(Single(0), Single(0)), old(buf[..win]), buf.Length)
            case Done(out) => ok && buf[..] == out
            case Failed(_) => !ok
  {
    hide Represents, PositionTree, DecodeSymbol, OffsetAt, OffsetBits, HeaderAt, Decode, DecodeToken, Copy, BitReader.Valid;
    var r := new BitReader(src);
    var pos, nblk: int := win, 0;
    var c, p := NO_HUFF, NO_HUFF;
    ghost var tables := Tables(Single(0), Single(0));
    ghost var goal := Decode(src, 0, 0, tables, buf[..win], buf.Length);
    while pos < buf.Length
      invariant win <= pos <= buf.Length && r.Valid() && r.b == src && fresh(r)
      invariant nblk != 0 ==> Represents(c, tables.c) && Represents(p, tables.p) && PositionTree(tables.p)
      invariant goal == Decode(src, r.cur, nblk, tables, buf[..pos], buf.Length)
      decreases buf.Length - pos
    {
      AtToken(src, r.cur, nblk, tables, buf[..pos], buf.Length);
      if nblk == 0 {
        HeaderFaults(src, r.cur);
        AtHeader(src, r.cur, tables, buf[..pos], buf.Length);
        var found, count, c', p', trees := ReadBlockHeader(r);
        if !found {
          return false;
        }
        nblk, c, p, tables := count, c', p', trees;
      }
      ghost var out := buf[..pos];
      InBlock(src, r.cur, nblk, tables, out, buf.Length, goal);
      nblk := nblk - 1;
      var v := Dec(c, r, tables.c);
      if v < 256 {
        buf[pos] := v;
        pos := pos + 1;
        assert buf[..pos] == out + [v];
        continue;
      }
      var ln := v - 253;
      var off := ReadOffset(r, p, tables.p);
      var s := pos - off - 1;
      if ln > buf.Length - pos {
        ln := buf.Length - pos;
      }
      var copied := CopyMatch(buf, pos, s, ln);
      if !copied {
        return false;
      }
      pos := pos + ln;
    }
    assert buf[..] == buf[..pos];
    DecodeFull(src, r.cur, nblk, tables, buf[..], buf.Length);
    ok := true;
  }

  /** The answers of decodeLH5Seg: the bytes, its error, or a panic of the decoder. */
  datatype Segment = Bytes(out: seq<u8>) | BoundsInvalid | Panicked(fault: Fault)

  function SegmentOf(resource: seq<u8>, off: int, clen: int, outLen: nat): Segment {
    if off < 0 || clen < 0 || off + clen > |resource| then BoundsInvalid
    else
      match Decode(resource[off..off + clen], 0, 0, Tables(Single(0), Single(0)), Blank(WINDOW), WINDOW + outLen)
      case Done(out) => if |out| >= WINDOW then Bytes(out[WINDOW..]) else Bytes([])
      case Failed(fault) => Panicked(fault)
  }

  method DecodeLH5Seg(resource: seq<u8>, off: int, clen: int, outLen: nat) returns (seg: Outcome<Option<seq<u8>>>)
    ensures match SegmentOf(resource, off, clen, outLen)
            case Bytes(out) => seg == Value(Some(out))
            case BoundsInvalid => seg == Value(None)
            case Panicked(_) => seg == Panic
  {
    hide Decode;
    var end := off + clen;
    if off < 0 || clen < 0 || end > |resource| {
      return Value(None);
    }
    var win := 8192;
    var buf := new u8[win + outLen](_ => 0);
    for i := 0 to win
      invariant forall k :: 0 <= k < i ==> buf[k] == 32
    {
      buf[i] := 32;
    }
    assert buf[..win] == Blank(WINDOW);
    var ok := DecodeLH5(buf, win, resource[off..end]);
    if !ok {
      return Panic;
    }
    seg := Value(Some(buf[win..]));
  }
}
