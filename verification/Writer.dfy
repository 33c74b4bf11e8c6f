/** Size and MarshalToSizedBuffer as the source runs them: loops over the fields, and a buffer filled from its end. */
module Writer {
  import opened Basics
  import opened Varint
  import opened Wire
  import opened Messages
  import opened Sizes

  // ----- Size -----

  method SizeOfBytes(o: Option<bytes>) returns (n: nat)
    ensures n == OptBytesSize(o)
  {
    n := 0;
    if o.Some? {
      var l := |o.value|;
      n := n + 1 + l + Sov(l);
    }
  }

  method SizeOfPair(p: Pair) returns (n: nat)
    ensures n == |EncPair(p)|
  {
    PairSizeExact(p);
    n := SizeOfBytes(p.key);
    var v := SizeOfBytes(p.value);
    n := n + v + |p.unknown|;
  }

  method SizeOfPairs(ps: seq<Pair>) returns (n: nat)
    ensures n == PairsSize(ps)
  {
    n := 0;
    for i := 0 to |ps|
      invariant n + PairsSize(ps[i..]) == PairsSize(ps)
    {
      var l := SizeOfPair(ps[i]);
      PairSizeExact(ps[i]);
      n := n + 1 + l + Sov(l);
      assert ps[i..][1..] == ps[i + 1..];
    }
  }

  method SizeOfLog(log: Log) returns (n: nat)
    ensures n == |EncLog(log)|
  {
    LogSizeExact(log);
    n := 0;
    if log.time.Some? {
      n := n + 1 + Sov(U64(log.time.value));
    }
    var c := SizeOfPairs(log.contents);
    n := n + c;
    if log.collectTime.Some? {
      n := n + 1 + Sov(U64(log.collectTime.value));
    }
    n := n + |log.unknown|;
  }

  method SizeOfGroup(g: LogGroup) returns (n: nat)
    ensures n == |EncGroup(g)|
  {
    GroupSizeExact(g);
    n := 0;
    for i := 0 to |g.logs|
      invariant n + LogsSize(g.logs[i..]) == LogsSize(g.logs)
    {
      var l := SizeOfLog(g.logs[i]);
      LogSizeExact(g.logs[i]);
      n := n + 1 + l + Sov(l);
      assert g.logs[i..][1..] == g.logs[i + 1..];
    }
    var contextFlow := SizeOfBytes(g.contextFlow);
    var filename := SizeOfBytes(g.filename);
    var source := SizeOfBytes(g.source);
    var tags := SizeOfPairs(g.tags);
    var hostname := SizeOfBytes(g.hostname);
    n := n + contextFlow + filename + source + tags + hostname + |g.unknown|;
  }

  method SizeOfList(m: LogGroupList) returns (n: nat)
    ensures n == |EncList(m)|
  {
    ListSizeExact(m);
    n := 0;
    for i := 0 to |m.groups|
      invariant n + GroupsSize(m.groups[i..]) == GroupsSize(m.groups)
    {
      var l := SizeOfGroup(m.groups[i]);
      GroupSizeExact(m.groups[i]);
      n := n + 1 + l + Sov(l);
      assert m.groups[i..][1..] == m.groups[i + 1..];
    }
    n := n + |m.unknown|;
  }

  // ----- Single writes, each just below the previous one -----

  /** Bytes just below `i`. */
  method PutBytes(buf: array<byte>, i: nat, b: bytes) returns (j: nat)
    requires |b| <= i <= buf.Length
    modifies buf
    ensures Wrote(buf[..], old(buf[..]), j, i, b)
  {
    j := i - |b|;
    forall x | 0 <= x < |b| {
      buf[j + x] := b[x];
    }
    assert buf[j..i] == b;
    assert buf[..j] == old(buf[..])[..j];
    assert buf[i..] == old(buf[..])[i..];
    assert buf[..] == buf[..j] + buf[j..i] + buf[i..];
  }

  /** The varint of a length or a number just below `i`, and its tag below that. */
  method PutHead(buf: array<byte>, i: nat, v: uint64, tag: byte) returns (j: nat)
    requires 1 + Sov(v) <= i <= buf.Length
    modifies buf
    ensures Wrote(buf[..], old(buf[..]), j, i, [tag] + EncVarint(v))
  {
    hide Sov, Wrote;
    SovIsExact(v);
    ghost var before := buf[..];
    j := EncodeVarintCls(buf, i, v);
    WroteBounds(buf[..], before, j, i, EncVarint(v));
    ghost var mid := buf[..];
    j := j - 1;
    WroteNothing(mid, j);
    WroteAbove(mid, mid, j, j, [], tag);
    buf[j] := tag;
    assert buf[..] == mid[j := tag] && [] + [tag] == [tag];
    WroteMore(buf[..], mid, before, j, j + 1, i, [tag], EncVarint(v));
  }

  /** A length-delimited field: payload, length, tag. */
  method PutDelimited(buf: array<byte>, i: nat, b: bytes, tag: byte, ghost num: nat) returns (j: nat)
    requires 1 <= num <= 6 && tag == 8 * num + 2 && Delimited(|b|) <= i <= buf.Length <= MAX_INT
    modifies buf
    ensures Wrote(buf[..], old(buf[..]), j, i, EncRec(RBytes(num, b)))
  {
    hide Sov, Wrote, EncVarint;
    ghost var before := buf[..];
    j := PutBytes(buf, i, b);
    ghost var mid := buf[..];
    WroteBounds(mid, before, j, i, b);
    j := PutHead(buf, j, |b|, tag);
    WroteMore(buf[..], mid, before, j, i - |b|, i, [tag] + EncVarint(|b|), b);
    SmallTag(8 * num + 2);
  }

  /** A varint field: value, tag. */
  method PutTime(buf: array<byte>, i: nat, t: int64, tag: byte, ghost num: nat) returns (j: nat)
    requires 1 <= num <= 6 && tag == 8 * num && 1 + Sov(U64(t)) <= i <= buf.Length
    modifies buf
    ensures Wrote(buf[..], old(buf[..]), j, i, EncRec(RVarint(num, U64(t))))
  {
    hide Sov, Wrote, EncVarint;
    j := PutHead(buf, i, U64(t), tag);
    SmallTag(8 * num);
  }

  lemma EncRecsCons(r: Rec, rs: seq<Rec>, tail: bytes)
    ensures EncRecs([r] + rs) + tail == EncRec(r) + (EncRecs(rs) + tail)
  {
    assert ([r] + rs)[1..] == rs;
  }

  /**
    * What is written so far when the fields `rs` and the unknown bytes are done: they end at `hi`,
    * and nothing below `i` or from `hi` on has changed.
    */
  ghost predicate Done(now: bytes, before: bytes, i: nat, hi: nat, rs: seq<Rec>, unknown: bytes) {
    Wrote(now, before, i, hi, EncRecs(rs) + unknown)
  }

  /** One more field in front. */
  lemma DoneMore(now: bytes, mid: bytes, before: bytes, j: nat, i: nat, hi: nat, r: Rec, rs: seq<Rec>, unknown: bytes)
    requires Done(mid, before, i, hi, rs, unknown) && Wrote(now, mid, j, i, EncRec(r))
    ensures Done(now, before, j, hi, [r] + rs, unknown)
  {
    hide Wrote, EncRecs, EncRec;
    EncRecsCons(r, rs, unknown);
    WroteMore(now, mid, before, j, i, hi, EncRec(r), EncRecs(rs) + unknown);
  }

  /** Where the writer stands, by sizes. */
  lemma DoneBounds(now: bytes, before: bytes, i: nat, hi: nat, rs: seq<Rec>, unknown: bytes)
    requires Done(now, before, i, hi, rs, unknown)
    ensures i + |EncRecs(rs)| + |unknown| == hi <= |before| && |now| == |before|
    ensures now[..i] == before[..i] && now[hi..] == before[hi..]
  {
    WroteBounds(now, before, i, hi, EncRecs(rs) + unknown);
  }

  /** A failed write has touched nothing below `lo` and nothing from `hi` on. */
  ghost predicate Within(now: bytes, before: bytes, lo: int, hi: nat) {
    && 0 <= lo <= hi <= |before| == |now|
    && now[..lo] == before[..lo] && now[hi..] == before[hi..]
  }

  lemma DoneWithin(now: bytes, before: bytes, i: nat, hi: nat, rs: seq<Rec>, unknown: bytes, lo: int)
    requires Done(now, before, i, hi, rs, unknown) && 0 <= lo <= i
    ensures Within(now, before, lo, hi)
  {
    DoneBounds(now, before, i, hi, rs, unknown);
    assert now[..lo] == now[..i][..lo] == before[..i][..lo] == before[..lo];
  }

  lemma NestedWithin(now: bytes, mid: bytes, before: bytes, lo: int, j: int, i: nat, hi: nat)
    requires Within(mid, before, lo, hi) && Within(now, mid, j, i) && lo <= j && i <= hi
    ensures Within(now, before, lo, hi)
  {
    assert now[..lo] == now[..j][..lo] == mid[..j][..lo] == mid[..lo];
    assert now[hi..] == now[i..][hi - i..] == mid[i..][hi - i..] == mid[hi..];
  }

  method PutUnknown(buf: array<byte>, hi: nat, unknown: bytes) returns (i: nat)
    requires |unknown| <= hi <= buf.Length
    modifies buf
    ensures Done(buf[..], old(buf[..]), i, hi, [], unknown)
  {
    i := PutBytes(buf, hi, unknown);
    assert EncRecs([]) + unknown == unknown;
  }

  /** An optional length-delimited field. */
  method PutOptBytes(buf: array<byte>, i: nat, o: Option<bytes>, tag: byte, ghost num: nat,
                     ghost before: bytes, ghost hi: nat, ghost rs: seq<Rec>, ghost unknown: bytes) returns (j: nat)
    requires 1 <= num <= 6 && tag == 8 * num + 2 && OptBytesSize(o) <= i <= buf.Length <= MAX_INT
    requires Done(buf[..], before, i, hi, rs, unknown)
    modifies buf
    ensures Done(buf[..], before, j, hi, OptBytes(num, o) + rs, unknown)
    ensures j == i - OptBytesSize(o)
  {
    hide Done, Wrote, Delimited;
    j := i;
    if o.Some? {
      ghost var mid := buf[..];
      j := PutDelimited(buf, i, o.value, tag, num);
      DoneMore(buf[..], mid, before, j, i, hi, RBytes(num, o.value), rs, unknown);
      DelimitedSize(num, o.value);
      WroteBounds(buf[..], mid, j, i, EncRec(RBytes(num, o.value)));
    } else {
      assert [] + rs == rs;
    }
  }

  method PutOptTime(buf: array<byte>, i: nat, o: Option<int64>, tag: byte, ghost num: nat,
                    ghost before: bytes, ghost hi: nat, ghost rs: seq<Rec>, ghost unknown: bytes) returns (j: nat)
    requires 1 <= num <= 6 && tag == 8 * num && OptTimeSize(o) <= i <= buf.Length
    requires Done(buf[..], before, i, hi, rs, unknown)
    modifies buf
    ensures Done(buf[..], before, j, hi, OptTime(num, o) + rs, unknown)
    ensures j == i - OptTimeSize(o)
  {
    hide Done, Wrote, Sov;
    j := i;
    if o.Some? {
      ghost var mid := buf[..];
      j := PutTime(buf, i, o.value, tag, num);
      var r := RVarint(num, U64(o.value));
      DoneMore(buf[..], mid, before, j, i, hi, r, rs, unknown);
      OptTimeExact(num, o);
      assert EncRecs([r]) == EncRec(r) by {
        assert [r][1..] == [];
      }
      WroteBounds(buf[..], mid, j, i, EncRec(r));
    } else {
      assert [] + rs == rs;
    }
  }

  lemma EncRecsNone()
    ensures EncRecs([]) == []
  {
  }

  // ----- MarshalToSizedBuffer -----

  /**
    * On success exactly the last PairSize(p) bytes below `hi` are written; on failure nothing outside
    * them has changed. The other levels read the same.
    */
  method MarshalPair(buf: array<byte>, hi: nat, p: Pair) returns (r: Result<nat, WireError>)
    requires PairSize(p) <= hi <= buf.Length <= MAX_INT
    modifies buf
    ensures r == if PairReady(p) then Ok(PairSize(p)) else Err(RequiredNotSet)
    ensures r.Ok? ==> Wrote(buf[..], old(buf[..]), hi - PairSize(p), hi, EncPair(p))
    ensures Within(buf[..], old(buf[..]), hi - PairSize(p), hi)
  {
    hide Wrote, Within, OptBytesSize, EncRecs;
    ghost var before, lo := buf[..], hi - PairSize(p);
    PairSizeExact(p);
    var i := PutUnknown(buf, hi, p.unknown);
    DoneBounds(buf[..], before, i, hi, [], p.unknown);
    EncRecsNone();
    DoneWithin(buf[..], before, i, hi, [], p.unknown, lo);
    if p.value.None? {
      return Err(RequiredNotSet);
    }
    i := PutOptBytes(buf, i, p.value, 0x12, 2, before, hi, [], p.unknown);
    ghost var rs := OptBytes(2, p.value) + [];
    assert rs == OptBytes(2, p.value);
    DoneWithin(buf[..], before, i, hi, rs, p.unknown, lo);
    if p.key.None? {
      return Err(RequiredNotSet);
    }
    i := PutOptBytes(buf, i, p.key, 0xa, 1, before, hi, rs, p.unknown);
    DoneWithin(buf[..], before, i, hi, PairRecs(p), p.unknown, lo);
    DoneBounds(buf[..], before, i, hi, PairRecs(p), p.unknown);
    return Ok(hi - i);
  }

  /** The header of an embedded message whose `size` bytes `b` end at `i`. */
  method PutEmbedded(buf: array<byte>, i: nat, size: nat, tag: byte,
                     ghost num: nat, ghost b: bytes, ghost before: bytes) returns (j: nat)
    requires 1 <= num <= 6 && tag == 8 * num + 2 && size == |b| && Delimited(size) <= i <= buf.Length <= MAX_INT
    requires Wrote(buf[..], before, i - size, i, b)
    modifies buf
    ensures j == i - Delimited(size) && Wrote(buf[..], before, j, i, EncRec(RBytes(num, b)))
    ensures Within(buf[..], before, j, i)
  {
    hide Sov, Wrote, EncVarint;
    ghost var mid := buf[..];
    WroteBounds(mid, before, i - size, i, b);
    j := PutHead(buf, i - size, size, tag);
    WroteMore(buf[..], mid, before, j, i - size, i, [tag] + EncVarint(size), b);
    SmallTag(8 * num + 2);
    DelimitedSize(num, b);
    WroteBounds(buf[..], before, j, i, EncRec(RBytes(num, b)));
  }

  method PutPair(buf: array<byte>, i: nat, x: Pair, tag: byte, ghost num: nat) returns (r: Result<nat, WireError>)
    requires 1 <= num <= 6 && tag == 8 * num + 2 && Delimited(PairSize(x)) <= i <= buf.Length <= MAX_INT
    modifies buf
    ensures r == if PairReady(x) then Ok(i - Delimited(PairSize(x))) else Err(RequiredNotSet)
    ensures r.Ok? ==> Wrote(buf[..], old(buf[..]), r.value, i, EncRec(RBytes(num, EncPair(x))))
    ensures Within(buf[..], old(buf[..]), i - Delimited(PairSize(x)), i)
  {
    hide Wrote, Sov, PairSize, EncPair, PairReady;
    ghost var before := buf[..];
    PairSizeExact(x);
    var size := MarshalPair(buf, i, x);
    if size.Err? {
      NestedWithin(buf[..], before, before, i - Delimited(PairSize(x)), i - PairSize(x), i, i);
      return Err(size.error);
    }
    var j := PutEmbedded(buf, i, size.value, tag, num, EncPair(x), before);
    return Ok(j);
  }

  /** The loop over contents, or tags, last element first. */
  method PutPairs(buf: array<byte>, i: nat, xs: seq<Pair>, tag: byte, ghost num: nat,
                   ghost before: bytes, ghost hi: nat, ghost rs: seq<Rec>, ghost unknown: bytes)
    returns (r: Result<nat, WireError>)
    requires 1 <= num <= 6 && tag == 8 * num + 2 && PairsSize(xs) <= i <= buf.Length <= MAX_INT
    requires Done(buf[..], before, i, hi, rs, unknown)
    modifies buf
    ensures r == if forall x <- xs :: PairReady(x) then Ok(i - PairsSize(xs)) else Err(RequiredNotSet)
    ensures r.Ok? ==> Done(buf[..], before, r.value, hi, PairsRecs(num, xs) + rs, unknown)
    ensures Within(buf[..], before, i - PairsSize(xs), hi)
  {
    hide Done, Wrote, Within, Delimited, PairSize, PairReady, EncRec, EncRecs, EncPair, PairsRecs, PairsSize;
    ghost var lo := i - PairsSize(xs);
    var j: nat, k := i, |xs|;
    NoPairs(num, xs, rs);
    DoneBounds(buf[..], before, i, hi, rs, unknown);
    while k > 0
      invariant 0 <= k <= |xs| && |buf[..]| == |before| && i <= hi
      invariant i - j == PairsSize(xs[k..]) && j <= hi <= |before|
      invariant Done(buf[..], before, j, hi, PairsRecs(num, xs[k..]) + rs, unknown)
      invariant forall x <- xs[k..] :: PairReady(x)
    {
      PairsSuffix(num, xs, k - 1, rs);
      k := k - 1;
      ghost var mid := buf[..];
      DoneWithin(mid, before, j, hi, PairsRecs(num, xs[k + 1..]) + rs, unknown, lo);
      var put := PutPair(buf, j, xs[k], tag, num);
      if put.Err? {
        NestedWithin(buf[..], mid, before, lo, j - Delimited(PairSize(xs[k])), j, hi);
        return Err(put.error);
      }
      DoneMore(buf[..], mid, before, put.value, j, hi, RBytes(num, EncPair(xs[k])), PairsRecs(num, xs[k + 1..]) + rs, unknown);
      j := put.value;
      DoneBounds(buf[..], before, j, hi, PairsRecs(num, xs[k..]) + rs, unknown);
    }
    assert xs[0..] == xs;
    DoneWithin(buf[..], before, j, hi, PairsRecs(num, xs) + rs, unknown, lo);
    return Ok(j);
  }

  lemma Front<T>(xs: seq<T>, k: nat)
    requires k < |xs|
    ensures xs[k..] == [xs[k]] + xs[k + 1..] && xs[k..][0] == xs[k] && xs[k..][1..] == xs[k + 1..]
  {
  }

  lemma NoPairs(num: nat, xs: seq<Pair>, rs: seq<Rec>)
    ensures PairsSize(xs[|xs|..]) == 0 && PairsRecs(num, xs[|xs|..]) + rs == rs
  {
  }

  /** The element at `k` before those after it: its field in front of theirs. */
  lemma PairsSuffix(num: nat, xs: seq<Pair>, k: nat, rs: seq<Rec>)
    requires k < |xs|
    ensures xs[k..] == [xs[k]] + xs[k + 1..]
    ensures PairsSize(xs[k..]) == Delimited(PairSize(xs[k])) + PairsSize(xs[k + 1..]) && PairsSize(xs[k..]) <= PairsSize(xs)
    ensures PairsRecs(num, xs[k..]) + rs == [RBytes(num, EncPair(xs[k]))] + (PairsRecs(num, xs[k + 1..]) + rs)
  {
    hide *;
    Front(xs, k);
    FirstPair(num, xs[k..]);
    Rejoin(RBytes(num, EncPair(xs[k])), PairsRecs(num, xs[k + 1..]), rs);
    PairsTail(xs, k);
  }

  lemma FirstPair(num: nat, xs: seq<Pair>)
    requires xs != []
    ensures PairsSize(xs) == Delimited(PairSize(xs[0])) + PairsSize(xs[1..])
    ensures PairsRecs(num, xs) == [RBytes(num, EncPair(xs[0]))] + PairsRecs(num, xs[1..])
  {
    hide EncPair, PairSize;
  }

  lemma {:induction false} PairsTail(xs: seq<Pair>, k: nat)
    requires k <= |xs|
    ensures PairsSize(xs[k..]) <= PairsSize(xs)
  {
    hide PairSize;
    if k == 0 {
      assert xs[0..] == xs;
    } else {
      PairsTail(xs[1..], k - 1);
      assert xs[1..][k - 1..] == xs[k..];
    }
  }

  method MarshalLog(buf: array<byte>, hi: nat, l: Log) returns (r: Result<nat, WireError>)
    requires LogSize(l) <= hi <= buf.Length <= MAX_INT
    modifies buf
    ensures r == if LogReady(l) then Ok(LogSize(l)) else Err(RequiredNotSet)
    ensures r.Ok? ==> Wrote(buf[..], old(buf[..]), hi - LogSize(l), hi, EncLog(l))
    ensures Within(buf[..], old(buf[..]), hi - LogSize(l), hi)
  {
    hide Wrote, Within, OptTimeSize, PairsSize, EncRecs, PairReady;
    ghost var before, lo := buf[..], hi - LogSize(l);
    var i := PutUnknown(buf, hi, l.unknown);
    DoneBounds(buf[..], before, i, hi, [], l.unknown);
    EncRecsNone();
    i := PutOptTime(buf, i, l.collectTime, 0x18, 3, before, hi, [], l.unknown);
    ghost var r3 := OptTime(3, l.collectTime) + [];
    assert r3 == OptTime(3, l.collectTime);
    var put := PutPairs(buf, i, l.contents, 0x12, 2, before, hi, r3, l.unknown);
    if put.Err? {
      NestedWithin(buf[..], before, before, lo, i - PairsSize(l.contents), hi, hi);
      return Err(put.error);
    }
    i := put.value;
    ghost var r2 := PairsRecs(2, l.contents) + r3;
    DoneWithin(buf[..], before, i, hi, r2, l.unknown, lo);
    if l.time.None? {
      return Err(RequiredNotSet);
    }
    i := PutOptTime(buf, i, l.time, 0x8, 1, before, hi, r2, l.unknown);
    DoneWithin(buf[..], before, i, hi, LogRecs(l), l.unknown, lo);
    return Ok(hi - i);
  }

  method PutLog(buf: array<byte>, i: nat, x: Log, tag: byte, ghost num: nat) returns (r: Result<nat, WireError>)
    requires 1 <= num <= 6 && tag == 8 * num + 2 && Delimited(LogSize(x)) <= i <= buf.Length <= MAX_INT
    modifies buf
    ensures r == if LogReady(x) then Ok(i - Delimited(LogSize(x))) else Err(RequiredNotSet)
    ensures r.Ok? ==> Wrote(buf[..], old(buf[..]), r.value, i, EncRec(RBytes(num, EncLog(x))))
    ensures Within(buf[..], old(buf[..]), i - Delimited(LogSize(x)), i)
  {
    hide Wrote, Sov, LogSize, EncLog, LogReady;
    ghost var before := buf[..];
    LogSizeExact(x);
    var size := MarshalLog(buf, i, x);
    if size.Err? {
      NestedWithin(buf[..], before, before, i - Delimited(LogSize(x)), i - LogSize(x), i, i);
      return Err(size.error);
    }
    var j := PutEmbedded(buf, i, size.value, tag, num, EncLog(x), before);
    return Ok(j);
  }

  /** The loop over logs, last element first. */
  method PutLogs(buf: array<byte>, i: nat, xs: seq<Log>, tag: byte, ghost num: nat,
                   ghost before: bytes, ghost hi: nat, ghost rs: seq<Rec>, ghost unknown: bytes)
    returns (r: Result<nat, WireError>)
    requires num == 1 && tag == 8 * num + 2 && LogsSize(xs) <= i <= buf.Length <= MAX_INT
    requires Done(buf[..], before, i, hi, rs, unknown)
    modifies buf
    ensures r == if forall x <- xs :: LogReady(x) then Ok(i - LogsSize(xs)) else Err(RequiredNotSet)
    ensures r.Ok? ==> Done(buf[..], before, r.value, hi, LogsRecs(xs) + rs, unknown)
    ensures Within(buf[..], before, i - LogsSize(xs), hi)
  {
    hide Done, Wrote, Within, Delimited, LogSize, LogReady, EncRec, EncRecs, EncLog, LogsRecs, LogsSize;
    ghost var lo := i - LogsSize(xs);
    var j: nat, k := i, |xs|;
    NoLogs(xs, rs);
    DoneBounds(buf[..], before, i, hi, rs, unknown);
    while k > 0
      invariant 0 <= k <= |xs| && |buf[..]| == |before| && i <= hi
      invariant i - j == LogsSize(xs[k..]) && j <= hi <= |before|
      invariant Done(buf[..], before, j, hi, LogsRecs(xs[k..]) + rs, unknown)
      invariant forall x <- xs[k..] :: LogReady(x)
    {
      LogsSuffix(xs, k - 1, rs);
      k := k - 1;
      ghost var mid := buf[..];
      DoneWithin(mid, before, j, hi, LogsRecs(xs[k + 1..]) + rs, unknown, lo);
      var put := PutLog(buf, j, xs[k], tag, num);
      if put.Err? {
        NestedWithin(buf[..], mid, before, lo, j - Delimited(LogSize(xs[k])), j, hi);
        return Err(put.error);
      }
      DoneMore(buf[..], mid, before, put.value, j, hi, RBytes(num, EncLog(xs[k])), LogsRecs(xs[k + 1..]) + rs, unknown);
      j := put.value;
      DoneBounds(buf[..], before, j, hi, LogsRecs(xs[k..]) + rs, unknown);
    }
    assert xs[0..] == xs;
    DoneWithin(buf[..], before, j, hi, LogsRecs(xs) + rs, unknown, lo);
    return Ok(j);
  }

  lemma NoLogs(xs: seq<Log>, rs: seq<Rec>)
    ensures LogsSize(xs[|xs|..]) == 0 && LogsRecs(xs[|xs|..]) + rs == rs
  {
  }

  /** The element at `k` before those after it: its field in front of theirs. */
  lemma LogsSuffix(xs: seq<Log>, k: nat, rs: seq<Rec>)
    requires k < |xs|
    ensures xs[k..] == [xs[k]] + xs[k + 1..]
    ensures LogsSize(xs[k..]) == Delimited(LogSize(xs[k])) + LogsSize(xs[k + 1..]) && LogsSize(xs[k..]) <= LogsSize(xs)
    ensures LogsRecs(xs[k..]) + rs == [RBytes(1, EncLog(xs[k]))] + (LogsRecs(xs[k + 1..]) + rs)
  {
    hide *;
    Front(xs, k);
    FirstLog(xs[k..]);
    Rejoin(RBytes(1, EncLog(xs[k])), LogsRecs(xs[k + 1..]), rs);
    LogsTail(xs, k);
  }

  lemma FirstLog(xs: seq<Log>)
    requires xs != []
    ensures LogsSize(xs) == Delimited(LogSize(xs[0])) + LogsSize(xs[1..])
    ensures LogsRecs(xs) == [RBytes(1, EncLog(xs[0]))] + LogsRecs(xs[1..])
  {
    hide EncLog, LogSize;
  }

  lemma {:induction false} LogsTail(xs: seq<Log>, k: nat)
    requires k <= |xs|
    ensures LogsSize(xs[k..]) <= LogsSize(xs)
  {
    hide LogSize;
    if k == 0 {
      assert xs[0..] == xs;
    } else {
      LogsTail(xs[1..], k - 1);
      assert xs[1..][k - 1..] == xs[k..];
    }
  }

  method MarshalGroup(buf: array<byte>, hi: nat, g: LogGroup) returns (r: Result<nat, WireError>)
    requires GroupSize(g) <= hi <= buf.Length <= MAX_INT
    modifies buf
    ensures r == if GroupReady(g) then Ok(GroupSize(g)) else Err(RequiredNotSet)
    ensures r.Ok? ==> Wrote(buf[..], old(buf[..]), hi - GroupSize(g), hi, EncGroup(g))
    ensures Within(buf[..], old(buf[..]), hi - GroupSize(g), hi)
  {
    hide Wrote, Within, OptBytesSize, PairsSize, LogsSize, EncRecs, PairReady, LogReady;
    ghost var before, lo := buf[..], hi - GroupSize(g);
    var i := PutUnknown(buf, hi, g.unknown);
    DoneBounds(buf[..], before, i, hi, [], g.unknown);
    EncRecsNone();
    i := PutOptBytes(buf, i, g.hostname, 0x32, 6, before, hi, [], g.unknown);
    ghost var r6 := OptBytes(6, g.hostname) + [];
    assert r6 == OptBytes(6, g.hostname);
    var put := PutPairs(buf, i, g.tags, 0x2a, 5, before, hi, r6, g.unknown);
    if put.Err? {
      NestedWithin(buf[..], before, before, lo, i - PairsSize(g.tags), hi, hi);
      return Err(put.error);
    }
    i := put.value;
    ghost var r5 := PairsRecs(5, g.tags) + r6;
    i := PutOptBytes(buf, i, g.source, 0x22, 4, before, hi, r5, g.unknown);
    ghost var r4 := OptBytes(4, g.source) + r5;
    i := PutOptBytes(buf, i, g.filename, 0x1a, 3, before, hi, r4, g.unknown);
    ghost var r3 := OptBytes(3, g.filename) + r4;
    i := PutOptBytes(buf, i, g.contextFlow, 0x12, 2, before, hi, r3, g.unknown);
    ghost var r2 := OptBytes(2, g.contextFlow) + r3;
    put := PutLogs(buf, i, g.logs, 0xa, 1, before, hi, r2, g.unknown);
    if put.Err? {
      NestedWithin(buf[..], before, before, lo, i - LogsSize(g.logs), hi, hi);
      return Err(put.error);
    }
    i := put.value;
    return Ok(hi - i);
  }

  method PutGroup(buf: array<byte>, i: nat, x: LogGroup, tag: byte, ghost num: nat) returns (r: Result<nat, WireError>)
    requires 1 <= num <= 6 && tag == 8 * num + 2 && Delimited(GroupSize(x)) <= i <= buf.Length <= MAX_INT
    modifies buf
    ensures r == if GroupReady(x) then Ok(i - Delimited(GroupSize(x))) else Err(RequiredNotSet)
    ensures r.Ok? ==> Wrote(buf[..], old(buf[..]), r.value, i, EncRec(RBytes(num, EncGroup(x))))
    ensures Within(buf[..], old(buf[..]), i - Delimited(GroupSize(x)), i)
  {
    hide Wrote, Sov, GroupSize, EncGroup, GroupReady;
    ghost var before := buf[..];
    GroupSizeExact(x);
    var size := MarshalGroup(buf, i, x);
    if size.Err? {
      NestedWithin(buf[..], before, before, i - Delimited(GroupSize(x)), i - GroupSize(x), i, i);
      return Err(size.error);
    }
    var j := PutEmbedded(buf, i, size.value, tag, num, EncGroup(x), before);
    return Ok(j);
  }

  /** The loop over groups, last element first. */
  method PutGroups(buf: array<byte>, i: nat, xs: seq<LogGroup>, tag: byte, ghost num: nat,
                   ghost before: bytes, ghost hi: nat, ghost rs: seq<Rec>, ghost unknown: bytes)
    returns (r: Result<nat, WireError>)
    requires num == 1 && tag == 8 * num + 2 && GroupsSize(xs) <= i <= buf.Length <= MAX_INT
    requires Done(buf[..], before, i, hi, rs, unknown)
    modifies buf
    ensures r == if forall x <- xs :: GroupReady(x) then Ok(i - GroupsSize(xs)) else Err(RequiredNotSet)
    ensures r.Ok? ==> Done(buf[..], before, r.value, hi, GroupsRecs(xs) + rs, unknown)
    ensures Within(buf[..], before, i - GroupsSize(xs), hi)
  {
    hide Done, Wrote, Within, Delimited, GroupSize, GroupReady, EncRec, EncRecs, EncGroup, GroupsRecs, GroupsSize;
    ghost var lo := i - GroupsSize(xs);
    var j: nat, k := i, |xs|;
    NoGroups(xs, rs);
    DoneBounds(buf[..], before, i, hi, rs, unknown);
    while k > 0
      invariant 0 <= k <= |xs| && |buf[..]| == |before| && i <= hi
      invariant i - j == GroupsSize(xs[k..]) && j <= hi <= |before|
      invariant Done(buf[..], before, j, hi, GroupsRecs(xs[k..]) + rs, unknown)
      invariant forall x <- xs[k..] :: GroupReady(x)
    {
      GroupsSuffix(xs, k - 1, rs);
      k := k - 1;
      ghost var mid := buf[..];
      DoneWithin(mid, before, j, hi, GroupsRecs(xs[k + 1..]) + rs, unknown, lo);
      var put := PutGroup(buf, j, xs[k], tag, num);
      if put.Err? {
        NestedWithin(buf[..], mid, before, lo, j - Delimited(GroupSize(xs[k])), j, hi);
        return Err(put.error);
      }
      DoneMore(buf[..], mid, before, put.value, j, hi, RBytes(num, EncGroup(xs[k])), GroupsRecs(xs[k + 1..]) + rs, unknown);
      j := put.value;
      DoneBounds(buf[..], before, j, hi, GroupsRecs(xs[k..]) + rs, unknown);
    }
    assert xs[0..] == xs;
    DoneWithin(buf[..], before, j, hi, GroupsRecs(xs) + rs, unknown, lo);
    return Ok(j);
  }

  lemma NoGroups(xs: seq<LogGroup>, rs: seq<Rec>)
    ensures GroupsSize(xs[|xs|..]) == 0 && GroupsRecs(xs[|xs|..]) + rs == rs
  {
  }

  /** The element at `k` before those after it: its field in front of theirs. */
  lemma GroupsSuffix(xs: seq<LogGroup>, k: nat, rs: seq<Rec>)
    requires k < |xs|
    ensures xs[k..] == [xs[k]] + xs[k + 1..]
    ensures GroupsSize(xs[k..]) == Delimited(GroupSize(xs[k])) + GroupsSize(xs[k + 1..]) && GroupsSize(xs[k..]) <= GroupsSize(xs)
    ensures GroupsRecs(xs[k..]) + rs == [RBytes(1, EncGroup(xs[k]))] + (GroupsRecs(xs[k + 1..]) + rs)
  {
    hide *;
    Front(xs, k);
    FirstGroup(xs[k..]);
    Rejoin(RBytes(1, EncGroup(xs[k])), GroupsRecs(xs[k + 1..]), rs);
    GroupsTail(xs, k);
  }

  lemma FirstGroup(xs: seq<LogGroup>)
    requires xs != []
    ensures GroupsSize(xs) == Delimited(GroupSize(xs[0])) + GroupsSize(xs[1..])
    ensures GroupsRecs(xs) == [RBytes(1, EncGroup(xs[0]))] + GroupsRecs(xs[1..])
  {
    hide EncGroup, GroupSize;
  }

  lemma {:induction false} GroupsTail(xs: seq<LogGroup>, k: nat)
    requires k <= |xs|
    ensures GroupsSize(xs[k..]) <= GroupsSize(xs)
  {
    hide GroupSize;
    if k == 0 {
      assert xs[0..] == xs;
    } else {
      GroupsTail(xs[1..], k - 1);
      assert xs[1..][k - 1..] == xs[k..];
    }
  }

  method MarshalList(buf: array<byte>, hi: nat, m: LogGroupList) returns (r: Result<nat, WireError>)
    requires ListSize(m) <= hi <= buf.Length <= MAX_INT
    modifies buf
    ensures r == if ListReady(m) then Ok(ListSize(m)) else Err(RequiredNotSet)
    ensures r.Ok? ==> Wrote(buf[..], old(buf[..]), hi - ListSize(m), hi, EncList(m))
    ensures Within(buf[..], old(buf[..]), hi - ListSize(m), hi)
  {
    hide Wrote, Within, GroupsSize, EncRecs, GroupReady;
    ghost var before := buf[..];
    var i := PutUnknown(buf, hi, m.unknown);
    DoneBounds(buf[..], before, i, hi, [], m.unknown);
    EncRecsNone();
    var put := PutGroups(buf, i, m.groups, 0xa, 1, before, hi, [], m.unknown);
    assert GroupsRecs(m.groups) + [] == GroupsRecs(m.groups);
    if put.Err? {
      return Err(put.error);
    }
    return Ok(hi - put.value);
  }

  /** Marshal: a buffer of exactly Size bytes, filled by the writer above. */
  method Marshal(m: LogGroupList) returns (r: Result<bytes, WireError>)
    requires ListSize(m) <= MAX_INT
    ensures r == if ListReady(m) then Ok(EncList(m)) else Err(RequiredNotSet)
  {
    hide EncList, ListSize, ListReady, Within, Wrote;
    ListSizeExact(m);
    var size := SizeOfList(m);
    var buf := new byte[size];
    ghost var before := buf[..];
    var n := MarshalList(buf, size, m);
    if n.Err? {
      return Err(n.error);
    }
    WroteBounds(buf[..], before, 0, size, EncList(m));
    return Ok(buf[..n.value]);
  }
}
