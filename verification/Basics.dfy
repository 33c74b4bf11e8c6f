/** Shared vocabulary: bytes, the machine integers of the Go source, and the outcomes of a call. */
module Basics {

  const TWO31 := 0x8000_0000
  const TWO32 := 0x1_0000_0000
  const TWO63 := 0x8000_0000_0000_0000
  const TWO64 := 0x1_0000_0000_0000_0000

  /** The largest value of Go's `int`, and so the largest length of a slice. */
  const MAX_INT := TWO63 - 1

  type byte = i: int | 0 <= i < 256
  type bytes = seq<byte>
  type uint64 = i: int | 0 <= i < TWO64
  type int64 = i: int | -TWO63 <= i < TWO63

  datatype Option<+T> = None | Some(value: T)

  datatype Result<+T, +E> = Ok(value: T) | Err(error: E)

  /** Conversion to `uint64`: the low 64 bits. */
  function U64(v: int): uint64 {
    v % TWO64
  }

  /** Conversion to `int64` (or `int`): the low 64 bits read as two's complement. */
  function I64(v: int): int64 {
    var u := v % TWO64;
    if u < TWO63 then u else u - TWO64
  }

  /** Conversion to `int32`. */
  function I32(v: int): int {
    var u := v % TWO32;
    if u < TWO31 then u else u - TWO32
  }

  /** A signed value survives the trip through its unsigned bit pattern. */
  lemma SignedRoundTrip(t: int64)
    ensures I64(U64(t)) == t
  {
  }

  // ----- Buffers filled from the end backwards -----

  /** `now` is `before`, except that the stretch from `i` to `hi` holds `w`. */
  ghost predicate Wrote(now: bytes, before: bytes, i: nat, hi: nat, w: bytes) {
    i + |w| == hi <= |before| && now == before[..i] + w + before[hi..]
  }

  /** Writing `b` just below what is written already. */
  lemma WroteMore(now: bytes, mid: bytes, before: bytes, j: nat, i: nat, hi: nat, b: bytes, w: bytes)
    requires Wrote(mid, before, i, hi, w) && Wrote(now, mid, j, i, b)
    ensures Wrote(now, before, j, hi, b + w)
  {
    assert mid[..j] == before[..j];
    assert mid[i..] == w + before[hi..];
  }

  lemma WroteNothing(before: bytes, hi: nat)
    requires hi <= |before|
    ensures Wrote(before, before, hi, hi, [])
  {
  }

  /** One more byte just above what is written so far. */
  lemma WroteAbove(mid: bytes, before: bytes, i: nat, at: nat, w: bytes, b: byte)
    requires Wrote(mid, before, i, at, w) && at < |before|
    ensures at < |mid| && Wrote(mid[at := b], before, i, at + 1, w + [b])
  {
  }

  lemma WroteBounds(now: bytes, before: bytes, i: nat, hi: nat, w: bytes)
    requires Wrote(now, before, i, hi, w)
    ensures i + |w| == hi <= |before| && |now| == |before|
    ensures now[..i] == before[..i] && now[i..hi] == w && now[hi..] == before[hi..]
  {
  }
}
