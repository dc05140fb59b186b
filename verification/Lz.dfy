/** LZ77 over a growing output: literals and copies that may overlap themselves. */
module Lz {
  import opened Words

  /** A copy of len bytes, each from off + 1 bytes back. */
  datatype Token = Literal(b: u8) | Match(len: nat, off: nat)

  function Copy(out: seq<u8>, off: nat, len: nat): (r: seq<u8>)
    requires off < |out|
    ensures |r| == |out| + len
    decreases len
  {
    if len == 0 then out else Copy(out + [out[|out| - off - 1]], off, len - 1)
  }

  function Apply(out: seq<u8>, token: Token): (r: seq<u8>)
    ensures |r| >= |out|
  {
    match token
    case Literal(b) => out + [b]
    case Match(len, off) => if off < |out| then Copy(out, off, len) else out
  }

  function ApplyAll(out: seq<u8>, tokens: seq<Token>): (r: seq<u8>)
    ensures |r| >= |out|
    decreases |tokens|
  {
    if |tokens| == 0 then out else ApplyAll(Apply(out, tokens[0]), tokens[1..])
  }

  /** What an overlapping copy means: the last off + 1 bytes repeated. */
  lemma {:induction false} CopyIsPeriodic(out: seq<u8>, off: nat, len: nat)
    requires off < |out|
    ensures Copy(out, off, len)[..|out|] == out
    ensures forall i :: |out| <= i < |out| + len ==> Copy(out, off, len)[i] == Copy(out, off, len)[i - off - 1]
    decreases len
  {
    if len > 0 {
      var next := out + [out[|out| - off - 1]];
      CopyIsPeriodic(next, off, len - 1);
      var r := Copy(out, off, len);
      assert r == Copy(next, off, len - 1);
      assert r[..|out|] == r[..|next|][..|out|] == out;
      assert r[|out|] == r[..|next|][|out|];
      assert r[|out| - off - 1] == r[..|next|][|out| - off - 1];
    }
  }

  /** Copying one byte more. */
  lemma {:induction false} CopyOneMore(out: seq<u8>, off: nat, k: nat)
    requires off < |out|
    ensures var r := Copy(out, off, k); Copy(out, off, k + 1) == r + [r[|r| - off - 1]]
    decreases k
  {
    if k > 0 {
      CopyOneMore(out + [out[|out| - off - 1]], off, k - 1);
    }
  }

  /** A shorter copy is a prefix of a longer one. */
  lemma {:induction false} CopyPrefix(out: seq<u8>, off: nat, k: nat, len: nat)
    requires off < |out| && k <= len
    ensures Copy(out, off, len)[..|out| + k] == Copy(out, off, k)
    decreases len
  {
    if k < len {
      CopyPrefix(out, off, k, len - 1);
      CopyOneMore(out, off, len - 1);
    }
  }

  /** Expansion only appends. */
  lemma {:induction false} ApplyKeeps(out: seq<u8>, token: Token)
    ensures Apply(out, token)[..|out|] == out
  {
    if token.Match? && token.off < |out| {
      CopyPrefix(out, token.off, 0, token.len);
    }
  }

  lemma {:induction false} ApplyAllKeeps(out: seq<u8>, tokens: seq<Token>)
    ensures ApplyAll(out, tokens)[..|out|] == out
    decreases |tokens|
  {
    if |tokens| > 0 {
      var next := Apply(out, tokens[0]);
      ApplyKeeps(out, tokens[0]);
      ApplyAllKeeps(next, tokens[1..]);
      assert ApplyAll(out, tokens)[..|out|] == ApplyAll(out, tokens)[..|next|][..|out|];
    }
  }
}
