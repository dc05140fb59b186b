/** The LH5 block format: what a stream of blocks means, how it is written, how it is read. */
module Lh5Format {
  import opened Common
  import opened Words
  import opened Bits
  import opened BitReaders
  import opened Codes
  import opened TableFormat
  import opened Lz

  const WINDOW: nat := 8192

  /** The literal/length code and the position code in force. */
  datatype Tables = Tables(c: Tree, p: Tree)

  /** The ways the decoder can panic: a code length over 16, or a copy from before the buffer. */
  datatype Fault =
    | TempLength
    | RunLength(tmp: Tree)
    | PositionLength
    | Distance(p: Tree)

  datatype Header = Header(count: nat, tables: Tables, t: nat) | BadHeader(fault: Fault)

  datatype Decoded = Done(out: seq<u8>) | Failed(fault: Fault)

  // --- reading ---

  function HeaderAt(src: seq<u8>, t: nat): Header {
    match PTreeAt(src, t + 16, 5, 3, 19)
    case None => BadHeader(TempLength)
    case Some((tmp, u)) =>
      match CTreeAt(src, u, 9, tmp, 510)
      case None => BadHeader(RunLength(tmp))
      case Some((c, w)) =>
        match PTreeAt(src, w, 4, -1, 14)
        case None => BadHeader(PositionLength)
        case Some((p, x)) => Header(Val(src, t, 16), Tables(c, p), x)
  }

  /** The offset that position slot ov and its extra bits at t stand for. */
  function OffsetAt(src: seq<u8>, t: nat, ov: nat): nat {
    if ov == 0 then 0 else Pow2(ov - 1) + Val(src, t, ov - 1)
  }

  function OffsetBits(ov: nat): nat {
    if ov == 0 then 0 else ov - 1
  }

  function TokenAt(src: seq<u8>, t: nat, tables: Tables): (Token, nat) {
    var (v, u) := DecodeSymbol(tables.c, src, t);
    if v < 256 then (Literal(v), u)
    else
      var (ov, w) := DecodeSymbol(tables.p, src, u);
      (Match(v - 253, OffsetAt(src, w, ov)), w + OffsetBits(ov))
  }

  /** The main loop with n tokens left in the block; the output counts the preset window. */
  function Decode(src: seq<u8>, t: nat, n: int, tables: Tables, out: seq<u8>, total: nat): Decoded
    decreases total - |out|, 1
  {
    if |out| >= total then Done(out)
    else if n != 0 then DecodeToken(src, t, n, tables, out, total)
    else
      match HeaderAt(src, t)
      case BadHeader(fault) => Failed(fault)
      case Header(count, tables', u) => DecodeToken(src, u, count, tables', out, total)
  }

  function DecodeToken(src: seq<u8>, t: nat, n: int, tables: Tables, out: seq<u8>, total: nat): Decoded
    requires |out| < total
    decreases total - |out|, 0
  {
    match TokenAt(src, t, tables)
    case (Literal(b), u) => Decode(src, u, n - 1, tables, out + [b], total)
    case (Match(len, off), u) =>
      if off >= |out| then Failed(Distance(tables.p))
      else Decode(src, u, n - 1, tables, Copy(out, off, Min(len, total - |out|)), total)
  }

  function Blank(k: nat): (w: seq<u8>)
    ensures |w| == k && forall i :: 0 <= i < k ==> w[i] == 32
  {
    seq(k, _ => 32)
  }

  // --- writing ---

  /** A block: its tokens and the forms of its three code tables. */
  datatype Block = Block(tokens: seq<Token>, tmp: Form, lit: Form, dist: Form) {
    function TmpTree(): Tree {
      TreeOf(tmp, 19)
    }

    function Trees(): Tables {
      Tables(TreeOf(lit, 510), TreeOf(dist, 14))
    }

    predicate Legal() {
      && 0 < |tokens| < TWO_16
      && LegalLengths(tmp, 5, 3, 19) && LegalRuns(lit, 9, TmpTree(), 510) && LegalLengths(dist, 4, -1, 14)
      && forall i :: 0 <= i < |tokens| ==> LegalToken(tokens[i], Trees())
    }

    function HeaderBits(): seq<bool> {
      NatBits(|tokens|, 16) + (PTreeBits(tmp, 5, 3) + (CTreeBits(lit, 9, TmpTree()) + PTreeBits(dist, 4, -1)))
    }

    function BlockBits(): seq<bool> {
      HeaderBits() + TokensBits(tokens, Trees())
    }
  }

  /** Number of binary digits of an offset: its position slot. */
  function Slot(off: nat): nat {
    if off == 0 then 0 else 1 + Slot(off / 2)
  }

  predicate LegalToken(token: Token, tables: Tables) {
    match token
    case Literal(b) => CanCode(tables.c, b)
    case Match(len, off) =>
      len >= 3 && off < WINDOW && CanCode(tables.c, len + 253) && CanCode(tables.p, Slot(off))
  }

  function OffsetDigits(off: nat): seq<bool> {
    if off == 0 || off < Pow2(Slot(off) - 1) then [] else NatBits(off - Pow2(Slot(off) - 1), Slot(off) - 1)
  }

  function TokenBits(token: Token, tables: Tables): seq<bool> {
    match token
    case Literal(b) => SymbolBits(tables.c, b)
    case Match(len, off) => SymbolBits(tables.c, len + 253) + (SymbolBits(tables.p, Slot(off)) + OffsetDigits(off))
  }

  function TokensBits(tokens: seq<Token>, tables: Tables): seq<bool> {
    if |tokens| == 0 then [] else TokenBits(tokens[0], tables) + TokensBits(tokens[1..], tables)
  }

  function BlocksBits(blocks: seq<Block>): seq<bool> {
    if |blocks| == 0 then [] else blocks[0].BlockBits() + BlocksBits(blocks[1..])
  }

  predicate AllLegal(blocks: seq<Block>) {
    forall i :: 0 <= i < |blocks| ==> blocks[i].Legal()
  }

  /** The meaning of a sequence of blocks. */
  function Expansion(out: seq<u8>, blocks: seq<Block>): (r: seq<u8>)
    ensures |r| >= |out|
    decreases |blocks|
  {
    if |blocks| == 0 then out else Expansion(ApplyAll(out, blocks[0].tokens), blocks[1..])
  }

  // --- reading inverts writing ---

  lemma {:induction false} SlotBounds(off: nat)
    requires off > 0
    ensures Slot(off) > 0 && Pow2(Slot(off) - 1) <= off < Pow2(Slot(off))
  {
    if off / 2 > 0 {
      SlotBounds(off / 2);
    }
  }

  lemma {:induction false} ReadOffset(src: seq<u8>, t: nat, off: nat, rest: seq<bool>)
    requires StartsWith(src, t, OffsetDigits(off) + rest)
    ensures OffsetAt(src, t, Slot(off)) == off && |OffsetDigits(off)| == OffsetBits(Slot(off))
    ensures StartsWith(src, t + |OffsetDigits(off)|, rest)
  {
    hide StartsWith, Val;
    StartsWithSplit(src, t, OffsetDigits(off), rest);
    if off > 0 {
      SlotBounds(off);
      var k := Slot(off) - 1;
      StartsWithNumber(src, t, off - Pow2(k), k);
    }
  }

  lemma {:induction false} ReadToken(src: seq<u8>, t: nat, token: Token, tables: Tables, rest: seq<bool>)
    requires LegalToken(token, tables) && StartsWith(src, t, TokenBits(token, tables) + rest)
    ensures TokenAt(src, t, tables) == (token, t + |TokenBits(token, tables)|)
    ensures StartsWith(src, t + |TokenBits(token, tables)|, rest)
  {
    hide StartsWith, Val, DecodeSymbol, SymbolBits, CanCode, OffsetAt, OffsetDigits, Slot;
    match token
    case Literal(b) =>
      ReadSymbol(src, t, tables.c, b, rest);
    case Match(len, off) =>
      var a, b, c := SymbolBits(tables.c, len + 253), SymbolBits(tables.p, Slot(off)), OffsetDigits(off);
      assert TokenBits(token, tables) + rest == a + (b + (c + rest));
      ReadSymbol(src, t, tables.c, len + 253, b + (c + rest));
      ReadSymbol(src, t + |a|, tables.p, Slot(off), c + rest);
      ReadOffset(src, t + |a| + |b|, off, rest);
  }

  lemma {:induction false} ReadHeader(src: seq<u8>, t: nat, block: Block, rest: seq<bool>)
    requires block.Legal() && StartsWith(src, t, block.HeaderBits() + rest)
    ensures HeaderAt(src, t) == Header(|block.tokens|, block.Trees(), t + |block.HeaderBits()|)
    ensures StartsWith(src, t + |block.HeaderBits()|, rest)
  {
    hide StartsWith, Val, PTreeAt, CTreeAt, PTreeBits, CTreeBits, LegalLengths, LegalRuns, TreeOf, LegalToken, NatBits;
    StartsWithSplit(src, t, block.HeaderBits(), rest);
    var a, b, c := PTreeBits(block.tmp, 5, 3), CTreeBits(block.lit, 9, block.TmpTree()), PTreeBits(block.dist, 4, -1);
    Pow2Below16(16);
    Pow2Of16(16);
    ReadNumber(src, t, |block.tokens|, 16, a + (b + c));
    var u := t + 16;
    StartsWithSplit(src, u, a, b + c);
    PTreeRoundTrip(src, u, block.tmp, 5, 3, 19);
    StartsWithSplit(src, u + |a|, b, c);
    CTreeRoundTrip(src, u + |a|, block.lit, 9, block.TmpTree(), 510);
    PTreeRoundTrip(src, u + |a| + |b|, block.dist, 4, -1, 14);
  }

  /** Decoding the tokens of a block applies them; once the output is full the rest is cut off. */
  lemma {:induction false} DecodeTokens(
      src: seq<u8>, t: nat, tokens: seq<Token>, tables: Tables, out: seq<u8>, total: nat, rest: seq<bool>)
    requires forall i :: 0 <= i < |tokens| ==> LegalToken(tokens[i], tables)
    requires WINDOW <= |out| <= total && StartsWith(src, t, TokensBits(tokens, tables) + rest)
    ensures var full := ApplyAll(out, tokens); var u := t + |TokensBits(tokens, tables)|;
            && StartsWith(src, u, rest)
            && Decode(src, t, |tokens|, tables, out, total) ==
               if |full| >= total then Done(full[..total]) else Decode(src, u, 0, tables, full, total)
    decreases |tokens|
  {
    hide StartsWith, TokenAt, TokenBits, HeaderAt, Decode, Apply, ApplyAll, LegalToken;
    if |tokens| == 0 {
      NoTokens(out);
      assert TokensBits(tokens, tables) + rest == rest;
      assert |out| == total ==> out[..total] == out;
      if |out| == total {
        DecodeFull(src, t, 0, tables, out, total);
      }
    } else {
      var a, b, n := TokenBits(tokens[0], tables), TokensBits(tokens[1..], tables), |tokens|;
      assert TokensBits(tokens, tables) + rest == a + (b + rest);
      ReadToken(src, t, tokens[0], tables, b + rest);
      StartsWithSplit(src, t + |a|, b, rest);
      FirstToken(out, tokens, total);
      if |out| == total {
        DecodeFull(src, t, n, tables, out, total);
      } else {
        DecodeOneToken(src, t, n, tokens[0], tables, out, total);
        if |Apply(out, tokens[0])| <= total {
          DecodeTokens(src, t + |a|, tokens[1..], tables, Apply(out, tokens[0]), total, rest);
        }
      }
    }
  }

  lemma {:induction false} NoTokens(out: seq<u8>)
    ensures ApplyAll(out, []) == out
  {
  }

  /** Applying the first token, and what is cut off once the output is full. */
  lemma {:induction false} FirstToken(out: seq<u8>, tokens: seq<Token>, total: nat)
    requires |tokens| > 0 && |out| <= total
    ensures var next, full := Apply(out, tokens[0]), ApplyAll(out, tokens);
            && full == ApplyAll(next, tokens[1..])
            && (|out| == total ==> full[..total] == out)
            && (|next| >= total ==> full[..total] == next[..total])
  {
    var next := Apply(out, tokens[0]);
    ApplyKeeps(out, tokens[0]);
    ApplyAllKeeps(next, tokens[1..]);
    var full := ApplyAll(next, tokens[1..]);
    assert |next| >= total ==> full[..total] == full[..|next|][..total];
  }

  /** One turn of the main loop on a legal token. */
  lemma {:induction false} DecodeOneToken(
      src: seq<u8>, t: nat, n: nat, token: Token, tables: Tables, out: seq<u8>, total: nat)
    requires LegalToken(token, tables) && WINDOW <= |out| < total && n > 0
    requires TokenAt(src, t, tables) == (token, t + |TokenBits(token, tables)|)
    ensures var next := Apply(out, token);
            Decode(src, t, n, tables, out, total) ==
            if |next| <= total then Decode(src, t + |TokenBits(token, tables)|, n - 1, tables, next, total)
            else Done(next[..total])
  {
    assert token.Match? ==> token.off < WINDOW;
    hide TokenAt, TokenBits, HeaderAt, Copy, LegalToken;
    var u := t + |TokenBits(token, tables)|;
    if token.Match? {
      var k := Min(token.len, total - |out|);
      CopyPrefix(out, token.off, k, token.len);
      assert DecodeToken(src, t, n, tables, out, total) == Decode(src, u, n - 1, tables, Copy(out, token.off, k), total);
    }
  }

  lemma {:induction false} DecodeFull(src: seq<u8>, t: nat, n: int, tables: Tables, out: seq<u8>, total: nat)
    requires |out| == total
    ensures Decode(src, t, n, tables, out, total) == Done(out)
  {
  }

  /** A block header read at the start of a block. */
  lemma {:induction false} DecodeHeader(src: seq<u8>, t: nat, count: nat, tables: Tables, tables': Tables, u: nat, out: seq<u8>, total: nat)
    requires |out| < total && count > 0 && HeaderAt(src, t) == Header(count, tables', u)
    ensures Decode(src, t, 0, tables, out, total) == Decode(src, u, count, tables', out, total)
  {
    hide HeaderAt, TokenAt, Copy;
  }

  /** Decoding one whole block. */
  lemma {:induction false} DecodeBlock(
      src: seq<u8>, t: nat, block: Block, tables: Tables, out: seq<u8>, total: nat, rest: seq<bool>)
    requires block.Legal() && WINDOW <= |out| < total
    requires StartsWith(src, t, block.BlockBits() + rest)
    ensures var full := ApplyAll(out, block.tokens); var u := t + |block.BlockBits()|;
            && StartsWith(src, u, rest)
            && Decode(src, t, 0, tables, out, total) ==
               if |full| >= total then Done(full[..total]) else Decode(src, u, 0, block.Trees(), full, total)
  {
    hide StartsWith, HeaderAt, LegalToken, ApplyAll, Decode, TokensBits, Block.HeaderBits, Block.Trees;
    var head, body := block.HeaderBits(), TokensBits(block.tokens, block.Trees());
    assert block.BlockBits() + rest == head + (body + rest);
    ReadHeader(src, t, block, body + rest);
    DecodeHeader(src, t, |block.tokens|, tables, block.Trees(), t + |head|, out, total);
    DecodeTokens(src, t + |head|, block.tokens, block.Trees(), out, total, rest);
  }

  /** The decoder inverts the format: legal blocks decode to the first bytes of their expansion. */
  lemma {:induction false} DecodeBlocks(
      src: seq<u8>, t: nat, blocks: seq<Block>, tables: Tables, out: seq<u8>, total: nat)
    requires AllLegal(blocks) && WINDOW <= |out| <= total <= |Expansion(out, blocks)|
    requires StartsWith(src, t, BlocksBits(blocks))
    ensures Decode(src, t, 0, tables, out, total) == Done(Expansion(out, blocks)[..total])
    decreases |blocks|
  {
    hide StartsWith, ApplyAll, Decode, Block.Legal, Block.BlockBits, Block.Trees;
    if |out| == total {
      ExpansionKeeps(out, blocks);
      DecodeFull(src, t, 0, tables, out, total);
    } else {
      var block, rest := blocks[0], BlocksBits(blocks[1..]);
      DecodeBlock(src, t, block, tables, out, total, rest);
      var full := ApplyAll(out, block.tokens);
      if |full| >= total {
        ExpansionKeeps(full, blocks[1..]);
        assert Expansion(out, blocks)[..total] == Expansion(out, blocks)[..|full|][..total];
      } else {
        DecodeBlocks(src, t + |block.BlockBits()|, blocks[1..], block.Trees(), full, total);
      }
    }
  }

  lemma {:induction false} ExpansionKeeps(out: seq<u8>, blocks: seq<Block>)
    ensures Expansion(out, blocks)[..|out|] == out
    decreases |blocks|
  {
    if |blocks| > 0 {
      var next := ApplyAll(out, blocks[0].tokens);
      ApplyAllKeeps(out, blocks[0].tokens);
      ExpansionKeeps(next, blocks[1..]);
      assert Expansion(out, blocks)[..|out|] == Expansion(out, blocks)[..|next|][..|out|];
    }
  }
}
