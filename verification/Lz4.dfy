/**
  * copyIncompressible: one LZ4 sequence holding nothing but literals (LZ4 Block Format Description:
  * token, literals-length encoding, and the last sequence, which stops after its literals).
  */
module Lz4 {
  import opened Basics

  // ----- What the block should be -----

  /** The bytes after the token that encode a literals length of `15 + n`. */
  function LengthBytes(n: nat): (s: bytes)
    ensures |s| == n / 255 + 1
  {
    if n < 255 then [n] else [255] + LengthBytes(n - 255)
  }

  function Header(n: nat): (s: bytes)
    ensures |s| >= 1
  {
    if n < 15 then [16 * n] else [0xF0] + LengthBytes(n - 15)
  }

  function LiteralBlock(src: bytes): bytes {
    Header(|src|) + src
  }

  // ----- The decoder of the format, for blocks without matches -----

  /** Sums the length bytes up to and including the first that is not 255; the total, and how many they are. */
  function ReadLength(s: bytes): Option<(nat, nat)> {
    if s == [] then None
    else if s[0] < 255 then Some((s[0], 1))
    else match ReadLength(s[1..])
      case None => None
      case Some((total, used)) => Some((255 + total, 1 + used))
  }

  /** A block that is one last sequence: its literals run to the end of the block. */
  function DecodeLiterals(block: bytes): Option<bytes> {
    if block == [] then None
    else
      var high := block[0] / 16;
      if high < 15 then
        if |block| == 1 + high then Some(block[1..]) else None
      else match ReadLength(block[1..])
        case None => None
        case Some((total, used)) =>
          if |block| == 1 + used + 15 + total then Some(block[|block| - 15 - total..]) else None
  }

  lemma {:induction false} ReadLengthOfWritten(n: nat, rest: bytes)
    ensures ReadLength(LengthBytes(n) + rest) == Some((n, |LengthBytes(n)|))
  {
    var s := LengthBytes(n) + rest;
    if n >= 255 {
      assert s[1..] == LengthBytes(n - 255) + rest;
      ReadLengthOfWritten(n - 255, rest);
    }
  }

  /** The literal block decodes to its source. */
  lemma LiteralRoundTrip(src: bytes)
    ensures DecodeLiterals(LiteralBlock(src)) == Some(src)
  {
    var block := LiteralBlock(src);
    if |src| >= 15 {
      var n := |src| - 15;
      assert block[1..] == LengthBytes(n) + src;
      ReadLengthOfWritten(n, src);
    }
  }

  /** lz4.CompressBlockBound, the size of the buffer the caller allocates. */
  function CompressBlockBound(n: nat): nat {
    n + n / 255 + 16
  }

  lemma BoundSuffices(src: bytes)
    ensures |LiteralBlock(src)| <= CompressBlockBound(|src|)
  {
  }

  // ----- The loop of the source -----

  lemma PrefixOfJoin(a: bytes, b: bytes)
    ensures a <= a + b
  {
  }

  lemma HeaderSteps(n: nat, done: bytes, l: nat)
    ensures n < 15 ==> Header(n) == [16 * n]
    ensures n >= 15 ==> Header(n) == [0xF0] + LengthBytes(n - 15)
    ensures l < 255 ==> done + LengthBytes(l) == done + [l]
    ensures l >= 255 ==> done + LengthBytes(l) == (done + [255]) + LengthBytes(l - 255)
  {
  }

  /** The token and the length bytes; stops early, at the end of `dst`, when they do not fit. */
  method WriteHeader(n: nat, dst: array<byte>) returns (di: nat, more: bool)
    requires dst.Length > 0
    modifies dst
    ensures di <= dst.Length
    ensures if more then dst[..di] == Header(n) else dst[..di] <= Header(n) && di == dst.Length < |Header(n)|
  {
    hide Header, LengthBytes;
    var lLen, dn := n, dst.Length;
    HeaderSteps(n, [], 0);
    di := 0;
    if lLen < 0xF {
      dst[di] := 16 * lLen;
      return 1, true;
    }
    dst[di] := 0xF0;
    di := di + 1;
    lLen := lLen - 0xF;
    ghost var done: bytes := [0xF0];
    while di < dn && lLen >= 0xFF
      invariant 1 <= di <= dn
      invariant dst[..di] == done && done + LengthBytes(lLen) == Header(n)
    {
      HeaderSteps(n, done, lLen);
      dst[di] := 0xFF;
      di := di + 1;
      done := done + [0xFF];
      lLen := lLen - 0xFF;
    }
    PrefixOfJoin(done, LengthBytes(lLen));
    if di == dn {
      return di, false;
    }
    HeaderSteps(n, done, lLen);
    dst[di] := lLen;
    di := di + 1;
    return di, true;
  }

  /**
    * Whatever the size of `dst`, the returned prefix is a prefix of the block; it is the whole block
    * exactly when that fits, which it does in a buffer of the size the caller allocates.
    */
  method CopyIncompressible(src: bytes, dst: array<byte>) returns (di: nat)
    requires dst.Length > 0
    modifies dst
    ensures di <= dst.Length && dst[..di] <= LiteralBlock(src)
    ensures di == |LiteralBlock(src)| <==> |LiteralBlock(src)| <= dst.Length
    ensures dst.Length >= CompressBlockBound(|src|) ==> DecodeLiterals(dst[..di]) == Some(src)
  {
    hide Header, DecodeLiterals;
    LiteralRoundTrip(src);
    BoundSuffices(src);
    var more: bool;
    di, more := WriteHeader(|src|, dst);
    PrefixOfJoin(Header(|src|), src);
    if !more {
      return;
    }
    if di + |src| > dst.Length {
      return;
    }
    ghost var done := dst[..di];
    forall x | 0 <= x < |src| {
      dst[di + x] := src[x];
    }
    assert dst[..di] == done && dst[di..di + |src|] == src;
    di := di + |src|;
    assert dst[..di] == LiteralBlock(src);
  }
}
