/** What decodeLH5Seg does on whole segments. */
module Lh5Theorems {
  import opened Common
  import opened Words
  import opened Bits
  import opened Codes
  import opened TableFormat
  import opened Lz
  import opened Lh5Format
  import opened Lh5

  /** The window before the output: 8192 spaces. */
  predicate Spaces(window: seq<u8>) {
    |window| == 8192 && forall i :: 0 <= i < |window| ==> window[i] == ' ' as int
  }

  /** A segment that starts with legal blocks decodes to the first outLen bytes of their meaning. */
  lemma {:induction false} SegmentRoundTrip(
      resource: seq<u8>, off: nat, clen: nat, blocks: seq<Block>, outLen: nat, window: seq<u8>)
    requires off + clen <= |resource| && AllLegal(blocks) && Spaces(window)
    requires StartsWith(resource[off..off + clen], 0, BlocksBits(blocks))
    requires 8192 + outLen <= |Expansion(window, blocks)|
    ensures SegmentOf(resource, off, clen, outLen) == Bytes(Expansion(window, blocks)[8192..8192 + outLen])
  {
    assert window == Blank(WINDOW) && |window| == WINDOW;
    hide StartsWith, Decode, Expansion, Spaces, Blank, AllLegal, BlocksBits;
    var src, all := resource[off..off + clen], Expansion(window, blocks);
    DecodeBlocks(src, 0, blocks, Tables(Single(0), Single(0)), window, WINDOW + outLen);
    assert all[..WINDOW + outLen][WINDOW..] == all[WINDOW..WINDOW + outLen];
  }

  /** The same for the bits of the blocks packed into bytes. */
  lemma {:induction false} PackedRoundTrip(blocks: seq<Block>, outLen: nat, window: seq<u8>)
    requires AllLegal(blocks) && Spaces(window) && 8192 + outLen <= |Expansion(window, blocks)|
    ensures var src := Pack(BlocksBits(blocks));
            SegmentOf(src, 0, |src|, outLen) == Bytes(Expansion(window, blocks)[8192..8192 + outLen])
  {
    hide StartsWith, Expansion, Spaces, AllLegal, Pack, BlocksBits, SegmentOf;
    var src := Pack(BlocksBits(blocks));
    PackStartsWith(BlocksBits(blocks));
    assert src[0..0 + |src|] == src;
    SegmentRoundTrip(src, 0, |src|, blocks, outLen, window);
  }

  /** The bounds error comes exactly when the segment does not lie in the resource. */
  lemma {:induction false} BoundsExactly(resource: seq<u8>, off: int, clen: int, outLen: nat)
    ensures SegmentOf(resource, off, clen, outLen) == BoundsInvalid <==> off < 0 || clen < 0 || off + clen > |resource|
  {
    hide Decode;
  }

  /** A panic on any input, truncated ones included, comes from an ill-formed header. */
  lemma {:induction false} SegmentPanics(resource: seq<u8>, off: int, clen: int, outLen: nat)
    ensures var seg := SegmentOf(resource, off, clen, outLen);
            && (seg.Panicked? ==> InHeader(seg.fault))
            && (seg.Bytes? ==> |seg.out| == outLen)
  {
    hide Decode;
    if 0 <= off && 0 <= clen && off + clen <= |resource| {
      var src := resource[off..off + clen];
      FaultCauses(src, 0, 0, Tables(Single(0), Single(0)), Blank(WINDOW), WINDOW + outLen);
      DecodedLength(src, 0, 0, Tables(Single(0), Single(0)), Blank(WINDOW), WINDOW + outLen);
    }
  }

  lemma {:induction false} DecodedLength(src: seq<u8>, t: nat, n: int, tables: Tables, out: seq<u8>, total: nat)
    requires |out| <= total
    ensures var d := Decode(src, t, n, tables, out, total); d.Done? ==> |d.out| == total && d.out[..|out|] == out
    decreases total - |out|
  {
    hide HeaderAt, TokenAt, Copy;
    if |out| < total && Decode(src, t, n, tables, out, total).Done? {
      var m, trees, u := n, tables, t;
      if n == 0 {
        m, trees, u := HeaderAt(src, t).count, HeaderAt(src, t).tables, HeaderAt(src, t).t;
      }
      var (token, w) := TokenAt(src, u, trees);
      var next := match token
        case Literal(b) => out + [b]
        case Match(len, off) => Copy(out, off, Min(len, total - |out|));
      if token.Match? {
        CopyPrefix(out, token.off, 0, Min(token.len, total - |out|));
        assert Copy(out, token.off, 0) == out by { NoCopy(out, token.off); }
      }
      assert next[..|out|] == out;
      assert |next| > |out| by { TokenGrows(src, u, trees); }
      DecodedLength(src, w, m - 1, trees, next, total);
      var r := Decode(src, t, n, tables, out, total).out;
      assert r[..|out|] == r[..|next|][..|out|];
    }
  }

  lemma {:induction false} NoCopy(out: seq<u8>, off: nat)
    requires off < |out|
    ensures Copy(out, off, 0) == out
  {
  }

  lemma {:induction false} TokenGrows(src: seq<u8>, t: nat, tables: Tables)
    ensures TokenAt(src, t, tables).0.Match? ==> TokenAt(src, t, tables).0.len >= 3
  {
    hide DecodeSymbol, OffsetAt;
  }

  // --- every byte string has an encoding ---

  function Literals(data: seq<u8>): (tokens: seq<Token>)
    ensures |tokens| == |data| && forall i :: 0 <= i < |data| ==> tokens[i] == Literal(data[i])
  {
    seq(|data|, i requires 0 <= i < |data| => Literal(data[i]))
  }

  /** k symbols of eight bits each. */
  function Eights(k: nat): (runs: seq<Run>)
    ensures |runs| == k && forall i :: 0 <= i < k ==> runs[i] == Length(8)
  {
    seq(k, _ => Length(8))
  }

  function StoredBlock(data: seq<u8>): Block {
    Block(Literals(data), One(10), Runs(256, Eights(256)), One(0))
  }

  /** The data as literals of eight bits, in blocks of at most 65535. */
  function Stored(data: seq<u8>): seq<Block> {
    if |data| == 0 then []
    else if |data| < TWO_16 then [StoredBlock(data)]
    else [StoredBlock(data[..0xFFFF])] + Stored(data[0xFFFF..])
  }

  lemma {:induction false} EightsMean(k: nat)
    ensures ExpandAll(Eights(k)) == seq(k, _ => 8) && Covers(Eights(k), k)
  {
    if k > 0 {
      EightsMean(k - 1);
      assert Eights(k)[1..] == Eights(k - 1);
      assert ExpandAll(Eights(k)) == [8] + ExpandAll(Eights(k - 1));
    }
  }

  lemma {:induction false} KraftOfEights(k: nat, lens: seq<nat>)
    requires |lens| == k && ShortLengths(lens) && forall i :: 0 <= i < k ==> lens[i] == 8
    ensures Kraft(lens) == 256 * k
  {
    Pow2Values();
    if k > 0 {
      KraftOfEights(k - 1, lens[..k - 1]);
    }
  }

  lemma {:induction false} KraftOfZeros(lens: seq<nat>, j: nat)
    requires ShortLengths(lens + Zeros(j))
    ensures ShortLengths(lens) && Kraft(lens + Zeros(j)) == Kraft(lens)
  {
    var all := lens + Zeros(j);
    assert forall i :: 0 <= i < |lens| ==> lens[i] == all[i];
    if j == 0 {
      assert all == lens;
    } else {
      assert all[..|all| - 1] == lens + Zeros(j - 1);
      KraftOfZeros(lens, j - 1);
    }
  }

  /** The 256 eight-bit literals fill the code space exactly. */
  lemma {:induction false} StoredTree(lens: seq<nat>)
    requires lens == Padded(ExpandAll(Eights(256)), 510)
    ensures Legal(lens) && Kraft(lens) == TWO_16 && forall b: nat :: b < 256 ==> lens[b] == 8
  {
    hide Kraft, ExpandAll;
    var k := 256;
    EightsMean(k);
    var eights: seq<nat> := seq(256, _ => 8);
    assert lens == eights + Zeros(254);
    KraftOfZeros(eights, 254);
    KraftOfEights(256, eights);
  }

  lemma {:induction false} StoredBlockLegal(data: seq<u8>)
    requires 0 < |data| < TWO_16
    ensures StoredBlock(data).Legal()
  {
    hide ExpandAll, Kraft, Covers, Legal;
    Pow2Values();
    var block, k := StoredBlock(data), 256;
    EightsMean(k);
    StoredTree(block.Trees().c.lens);
    assert LegalRuns(block.lit, 9, block.TmpTree(), 510);
  }

  lemma {:induction false} LiteralsMean(out: seq<u8>, data: seq<u8>)
    ensures ApplyAll(out, Literals(data)) == out + data
    decreases |data|
  {
    if |data| > 0 {
      assert Literals(data)[1..] == Literals(data[1..]);
      LiteralsMean(out + [data[0]], data[1..]);
      assert out + [data[0]] + data[1..] == out + data;
    } else {
      assert out + data == out;
    }
  }

  lemma {:induction false} StoredMeans(out: seq<u8>, data: seq<u8>)
    ensures AllLegal(Stored(data)) && Expansion(out, Stored(data)) == out + data
    decreases |data|
  {
    hide Block.Legal, ApplyAll;
    if |data| == 0 {
      assert out + data == out;
    } else if |data| < TWO_16 {
      StoredBlockLegal(data);
      LiteralsMean(out, data);
      assert Expansion(out, Stored(data)) == Expansion(out + data, []);
    } else {
      var head, rest := data[..0xFFFF], data[0xFFFF..];
      StoredBlockLegal(head);
      LiteralsMean(out, head);
      StoredMeans(out + head, rest);
      assert Stored(data)[1..] == Stored(rest);
      assert (out + head) + rest == out + data;
    }
  }

  /** Every byte string is the decoding of some segment. */
  lemma {:induction false} StoredRoundTrip(data: seq<u8>)
    ensures var src := Pack(BlocksBits(Stored(data))); SegmentOf(src, 0, |src|, |data|) == Bytes(data)
  {
    hide Expansion, Stored, AllLegal, BlocksBits;
    StoredMeans(Blank(WINDOW), data);
    PackedRoundTrip(Stored(data), |data|, Blank(WINDOW));
    assert (Blank(WINDOW) + data)[WINDOW..WINDOW + |data|] == data;
  }
}
