/** Base 128 varints (Protocol Buffers Encoding guide, section "Base 128 Varints"). */
module Varint {
  import opened Basics

  datatype WireError =
    | IntOverflow          // more than ten bytes carry the continuation bit
    | UnexpectedEOF
    | InvalidLength        // a length or an index that is negative as an int
    | UnexpectedEndOfGroup
    | IllegalWireType
    | EndGroupForNonGroup
    | IllegalTag
    | WrongWireType
    | RequiredNotSet

  /** What the reader found: the 64-bit word, and the bytes it used. */
  datatype Read = Read(value: nat, size: nat)

  /**
    * Reads one varint from the front of `s`; `k` bytes of it have been read already.
    * The word has 64 bits, so of the tenth byte only the lowest bit is left.
    */
  function ReadVarint(s: bytes, k: nat := 0): (r: Result<Read, WireError>)
    ensures r.Ok? ==> 1 <= r.value.size <= |s| && k + r.value.size <= 10
  {
    if k >= 10 then Err(IntOverflow)
    else if s == [] then Err(UnexpectedEOF)
    else if s[0] < 128 then Ok(Read(if k == 9 then s[0] % 2 else s[0], 1))
    else match ReadVarint(s[1..], k + 1)
      case Err(e) => Err(e)
      case Ok(rest) => Ok(Read(s[0] - 128 + 128 * rest.value, rest.size + 1))
  }

  /** The shortest varint of `v`. */
  function EncVarint(v: nat): (s: bytes)
    ensures |s| >= 1
  {
    if v < 128 then [v] else [v % 128 + 128] + EncVarint(v / 128)
  }

  /** The position of the highest one bit, as bits.Len64 counts it. */
  function Len64(x: nat): nat {
    if x == 0 then 0 else 1 + Len64(x / 2)
  }

  /** `x | 1` */
  function SetLowBit(x: nat): nat {
    if x % 2 == 0 then x + 1 else x
  }

  /** The size of a varint, by the closed formula of the source. */
  function Sov(x: nat): nat {
    (Len64(SetLowBit(x)) + 6) / 7
  }

  lemma Len64Shift7(x: nat)
    requires x >= 128
    ensures Len64(x) == 7 + Len64(x / 128)
  {
    var x1 := x / 2;
    var x2 := x1 / 2;
    var x3 := x2 / 2;
    var x4 := x3 / 2;
    var x5 := x4 / 2;
    var x6 := x5 / 2;
    assert Len64(x) == 1 + Len64(x1) == 2 + Len64(x2) == 3 + Len64(x3);
    assert Len64(x3) == 1 + Len64(x4) == 2 + Len64(x5) == 3 + Len64(x6) == 4 + Len64(x6 / 2);
    assert x6 / 2 == x / 128;
  }

  /** The closed formula is exactly the number of bytes the encoder writes. */
  lemma {:induction false} SovIsExact(v: nat)
    ensures Sov(v) == |EncVarint(v)|
  {
    if v < 128 {
      SmallSov(v);
    } else {
      hide Len64;
      SovIsExact(v / 128);
      Len64Shift7(SetLowBit(v));
      assert SetLowBit(v) / 128 == v / 128;
      LowBitIsFree(v / 128);
    }
  }

  lemma LowBitIsFree(w: nat)
    requires w > 0
    ensures Len64(SetLowBit(w)) == Len64(w)
  {
    if w % 2 == 0 {
      assert (w + 1) / 2 == w / 2;
    }
  }

  lemma {:induction false} Len64Bound(x: nat, bits: nat)
    requires x < Pow2(bits)
    ensures Len64(x) <= bits
  {
    if x > 0 {
      Len64Bound(x / 2, bits - 1);
    }
  }

  function Pow2(k: nat): (p: nat)
    ensures p > 0
  {
    if k == 0 then 1 else 2 * Pow2(k - 1)
  }

  lemma SmallSov(v: nat)
    requires v < 128
    ensures Sov(v) == 1
  {
    assert Pow2(7) == 16 * Pow2(3) && Pow2(3) == 8;
    Len64Bound(SetLowBit(v), 7);
  }

  lemma {:induction false} EncVarintAtMost(v: nat, digits: nat)
    requires v < Pow128(digits) && digits > 0
    ensures |EncVarint(v)| <= digits
  {
    if v >= 128 {
      assert digits > 1;
      EncVarintAtMost(v / 128, digits - 1);
    }
  }

  function Pow128(k: nat): nat {
    if k == 0 then 1 else 128 * Pow128(k - 1)
  }

  lemma EncVarintFits(v: uint64)
    ensures 1 <= |EncVarint(v)| <= 10
  {
    TwoPow63();
    EncVarintAtMost(v, 10);
  }

  /** The word read always fits 64 bits. */
  lemma {:induction false} ReadVarintBounded(s: bytes, k: nat)
    requires k <= 9 && ReadVarint(s, k).Ok?
    ensures ReadVarint(s, k).value.value < 2 * Pow128(9 - k)
  {
    if s[0] >= 128 {
      ReadVarintBounded(s[1..], k + 1);
    } else {
      Pow128AtLeast(9 - k);
    }
  }

  lemma Pow128AtLeast(k: nat)
    ensures if k == 0 then Pow128(k) == 1 else Pow128(k) >= 128
  {
  }

  lemma WordFits(s: bytes)
    requires ReadVarint(s).Ok?
    ensures ReadVarint(s).value.value < TWO64
  {
    ReadVarintBounded(s, 0);
    TwoPow63();
  }

  lemma TwoPow63()
    ensures Pow128(9) == TWO63
  {
    assert Pow128(9) == 128 * 128 * 128 * 128 * Pow128(5);
    assert Pow128(5) == 128 * 128 * 128 * 128 * 128;
  }

  /** Reading looks only at the bytes it uses. */
  lemma {:induction false} ReadVarintLocal(s: bytes, t: bytes, k: nat)
    requires ReadVarint(s, k).Ok?
    requires var n := ReadVarint(s, k).value.size; n <= |t| && s[..n] == t[..n]
    ensures ReadVarint(t, k) == ReadVarint(s, k)
  {
    var n := ReadVarint(s, k).value.size;
    assert s[0] == s[..n][0] == t[0];
    if s[0] >= 128 {
      assert s[1..][..n - 1] == s[..n][1..];
      assert t[1..][..n - 1] == t[..n][1..];
      ReadVarintLocal(s[1..], t[1..], k + 1);
    }
  }

  /** A written varint reads back, whatever follows it. */
  lemma {:induction false} VarintRoundTrip(v: nat, rest: bytes, k: nat)
    requires k <= 9 && v < 2 * Pow128(9 - k)
    ensures ReadVarint(EncVarint(v) + rest, k) == Ok(Read(v, |EncVarint(v)|))
  {
    var s := EncVarint(v) + rest;
    if v >= 128 {
      assert k < 9 && v / 128 < 2 * Pow128(9 - (k + 1));
      assert s[1..] == EncVarint(v / 128) + rest;
      VarintRoundTrip(v / 128, rest, k + 1);
    }
  }

  lemma Uint64RoundTrip(v: uint64, rest: bytes)
    ensures ReadVarint(EncVarint(v) + rest) == Ok(Read(v, |EncVarint(v)|))
  {
    TwoPow63();
    VarintRoundTrip(v, rest, 0);
  }

  // ----- The loops of the source -----

  /** What one byte adds to the word when `k` bytes precede it. */
  function Piece(b: byte, k: nat): nat {
    b % 128 * Pow128(k)
  }

  /** The whole reading, from the word summed over `k` bytes and the reading of what follows. */
  ghost function Joined(word: nat, k: nat, rest: Result<Read, WireError>): Result<Read, WireError> {
    match rest
    case Err(e) => Err(e)
    case Ok(r) => Ok(Read(word + Pow128(k) * r.value, k + r.size))
  }

  lemma NothingRead(r: Result<Read, WireError>)
    ensures 0 < Pow128(0) && Joined(0, 0, r) == r
  {
  }

  lemma JoinedStep(s: bytes, k: nat, word: nat)
    requires s != [] && k < 10 && word < Pow128(k)
    ensures var w := U64(word + Piece(s[0], k));
            && Joined(word, k, ReadVarint(s, k)) ==
               (if s[0] < 128 then Ok(Read(w, k + 1)) else Joined(w, k + 1, ReadVarint(s[1..], k + 1)))
            && w < Pow128(k + 1)
  {
    var b := s[0];
    NoWrap(word, b, k);
    if b >= 128 {
      match ReadVarint(s[1..], k + 1)
      case Err(_) =>
      case Ok(r) =>
        Distribute(Pow128(k), b - 128, r.value);
    }
  }

  /** Only the tenth byte can wrap, and what is left of it is its lowest bit. */
  lemma NoWrap(word: nat, b: byte, k: nat)
    requires k < 10 && word < Pow128(k)
    ensures U64(word + Piece(b, k)) == word + Pow128(k) * (if k == 9 then b % 2 else b % 128)
    ensures U64(word + Piece(b, k)) < Pow128(k + 1)
  {
    var p := Pow128(k);
    TwoPow63();
    if k == 9 {
      assert Piece(b, k) == b % 128 * TWO63;
      assert b % 128 == b % 2 + 2 * (b % 128 / 2);
      assert word + Piece(b, k) == (word + b % 2 * TWO63) + b % 128 / 2 * TWO64;
    } else {
      Pow128Monotone(k + 1, 9);
      assert b % 128 * p <= 127 * p;
    }
  }

  lemma {:induction false} Pow128Monotone(a: nat, b: nat)
    requires a <= b
    ensures 1 <= Pow128(a) <= Pow128(b)
    decreases b
  {
    if a < b {
      Pow128Monotone(a, b - 1);
    } else if a > 0 {
      Pow128Monotone(a - 1, b - 1);
    }
  }

  lemma Distribute(p: nat, b: nat, v: nat)
    ensures p * (b + 128 * v) == p * b + 128 * p * v
  {
  }

  /**
    * The shift loop that opens every field: 7 bits a byte, oldest lowest, into a 64-bit word.
    * The bits or-ed in are disjoint from those already there, so `|` is `+` modulo 2^64.
    */
  method ReadVarintAt(d: bytes, start: nat) returns (r: Result<(uint64, nat), WireError>)
    requires start <= |d|
    ensures match ReadVarint(d[start..])
            case Err(e) => r == Err(e)
            case Ok(v) => r == Ok((v.value, start + v.size))
  {
    hide Pow128, Piece, U64;
    var i, k, word: uint64 := start, 0, 0;
    NothingRead(ReadVarint(d[start..]));
    while true
      invariant start <= i <= |d| && i == start + k && k <= 10
      invariant word < Pow128(k)
      invariant ReadVarint(d[start..]) == Joined(word, k, ReadVarint(d[i..], k))
      decreases 10 - k
    {
      if 7 * k >= 64 {
        return Err(IntOverflow);
      }
      if i >= |d| {
        return Err(UnexpectedEOF);
      }
      var b := d[i];
      JoinedStep(d[i..], k, word);
      assert d[i..][1..] == d[i + 1..];
      word := U64(word + Piece(b, k));
      i, k := i + 1, k + 1;
      if b < 128 {
        return Ok((word, i));
      }
    }
  }

  /** Writes the varint of `v` so that it ends just before `offset`; returns where it starts. */
  method EncodeVarintCls(buf: array<byte>, offset: nat, v: uint64) returns (base: nat)
    requires Sov(v) <= offset <= buf.Length
    modifies buf
    ensures Wrote(buf[..], old(buf[..]), base, offset, EncVarint(v))
  {
    hide Sov, Wrote;
    SovIsExact(v);
    base := offset - Sov(v);
    var at, w := base, v;
    ghost var before, done: bytes := buf[..], [];
    WroteNothing(before, base);
    while w >= 128
      invariant base <= at && at + |EncVarint(w)| == offset
      invariant done + EncVarint(w) == EncVarint(v)
      invariant Wrote(buf[..], before, base, at, done)
      decreases w
    {
      WroteAbove(buf[..], before, base, at, done, w % 128 + 128);
      ghost var mid := buf[..];
      buf[at] := w % 128 + 128;
      assert buf[..] == mid[at := w % 128 + 128];
      done := done + [w % 128 + 128];
      w := w / 128;
      at := at + 1;
    }
    WroteAbove(buf[..], before, base, at, done, w);
    ghost var mid := buf[..];
    buf[at] := w;
    assert buf[..] == mid[at := w];
  }
}
