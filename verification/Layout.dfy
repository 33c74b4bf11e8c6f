/**
  * The bytes of a message, spelled out: its fields in the order and with the numbers of cls.proto, each behind the
  * one byte of its tag (Protocol Buffers Encoding guide, section "Message Structure"), then what was unknown.
  */
module Layout {
  import opened Basics
  import opened Varint
  import opened Wire
  import opened Messages

  /** The `i`-th digit of a number to the base of 128, the lowest first. */
  function Digit(v: nat, i: nat): (d: byte)
    ensures d < 128
    decreases i
  {
    if i == 0 then v % 128 else Digit(v / 128, i - 1)
  }

  lemma LowDigit(v: nat)
    ensures Digit(v, 0) == v % 128
  {
  }

  lemma HigherDigit(v: nat, i: nat)
    requires i > 0
    ensures Digit(v, i) == Digit(v / 128, i - 1)
  {
  }

  lemma LongVarint(v: nat)
    requires v >= 128
    ensures EncVarint(v) == [v % 128 + 128] + EncVarint(v / 128) && v / 128 > 0
  {
  }

  /** A varint is the digits of its number, the lowest first, all but the last marked, and the last not a zero. */
  lemma {:induction false} VarintDigits(v: nat)
    ensures var s := EncVarint(v);
            && (forall i | 0 <= i < |s| :: s[i] == Digit(v, i) + (if i < |s| - 1 then 128 else 0))
            && (v != 0 ==> Digit(v, |s| - 1) != 0)
  {
    hide Digit;
    LowDigit(v);
    if v >= 128 {
      hide EncVarint;
      VarintDigits(v / 128);
      LongVarint(v);
      var s, rest := EncVarint(v), EncVarint(v / 128);
      forall i | 0 <= i < |s|
        ensures s[i] == Digit(v, i) + (if i < |s| - 1 then 128 else 0)
      {
        if i > 0 {
          HigherDigit(v, i);
        }
      }
      HigherDigit(v, |s| - 1);
    }
  }

  /** A field behind the byte `tag`: the length and that many bytes. */
  function Chunk(tag: byte, b: bytes): bytes {
    [tag] + EncVarint(|b|) + b
  }

  function Optional(tag: byte, o: Option<bytes>): bytes {
    if o.Some? then Chunk(tag, o.value) else []
  }

  /** A 64-bit number as the varint of its two's complement. */
  function Number(tag: byte, o: Option<int64>): bytes {
    if o.None? then []
    else [tag] + EncVarint(if o.value >= 0 then o.value else TWO64 + o.value)
  }

  function Chunks(tag: byte, elements: seq<bytes>): bytes {
    if elements == [] then [] else Chunk(tag, elements[0]) + Chunks(tag, elements[1..])
  }

  function PairsBytes(ps: seq<Pair>): (r: seq<bytes>)
    ensures |r| == |ps| && forall i | 0 <= i < |ps| :: r[i] == EncPair(ps[i])
  {
    seq(|ps|, i requires 0 <= i < |ps| => EncPair(ps[i]))
  }

  function LogsBytes(ls: seq<Log>): (r: seq<bytes>)
    ensures |r| == |ls| && forall i | 0 <= i < |ls| :: r[i] == EncLog(ls[i])
  {
    seq(|ls|, i requires 0 <= i < |ls| => EncLog(ls[i]))
  }

  function GroupsBytes(gs: seq<LogGroup>): (r: seq<bytes>)
    ensures |r| == |gs| && forall i | 0 <= i < |gs| :: r[i] == EncGroup(gs[i])
  {
    seq(|gs|, i requires 0 <= i < |gs| => EncGroup(gs[i]))
  }

  lemma OneByteTag(num: nat, wt: nat)
    requires num < 16 && wt < 8
    ensures EncVarint(num * 8 + wt) == [num * 8 + wt]
  {
  }

  lemma BytesRec(num: nat, b: bytes)
    requires num < 16
    ensures EncRec(RBytes(num, b)) == Chunk(num * 8 + 2, b)
  {
    OneByteTag(num, 2);
  }

  lemma OptionalIs(num: nat, o: Option<bytes>)
    requires num < 16
    ensures EncRecs(OptBytes(num, o)) == Optional(num * 8 + 2, o)
  {
    hide EncRec, Chunk;
    if o.Some? {
      BytesRec(num, o.value);
      OneRec(RBytes(num, o.value));
    }
  }

  lemma OneRec(r: Rec)
    ensures EncRecs([r]) == EncRec(r) && EncRecs([]) == []
  {
    assert EncRec(r) + [] == EncRec(r);
  }

  lemma Complement(t: int64)
    ensures U64(t) == if t >= 0 then t else TWO64 + t
  {
  }

  lemma NumberIs(num: nat, o: Option<int64>)
    requires num < 16
    ensures EncRecs(OptTime(num, o)) == Number(num * 8, o)
  {
    hide U64, EncVarint;
    if o.Some? {
      OneByteTag(num, 0);
      OneRec(RVarint(num, U64(o.value)));
      Complement(o.value);
    }
  }

  lemma {:induction false} PairsAre(num: nat, ps: seq<Pair>)
    requires num < 16
    ensures EncRecs(PairsRecs(num, ps)) == Chunks(num * 8 + 2, PairsBytes(ps))
  {
    hide EncRec, Chunk, EncPair;
    if ps != [] {
      PairsAre(num, ps[1..]);
      BytesRec(num, EncPair(ps[0]));
      assert PairsBytes(ps)[1..] == PairsBytes(ps[1..]);
      assert PairsRecs(num, ps)[1..] == PairsRecs(num, ps[1..]);
    }
  }

  lemma {:induction false} LogsAre(ls: seq<Log>)
    ensures EncRecs(LogsRecs(ls)) == Chunks(0x0a, LogsBytes(ls))
  {
    hide EncRec, Chunk, EncLog;
    if ls != [] {
      LogsAre(ls[1..]);
      BytesRec(1, EncLog(ls[0]));
      assert LogsBytes(ls)[1..] == LogsBytes(ls[1..]);
      assert LogsRecs(ls)[1..] == LogsRecs(ls[1..]);
    }
  }

  lemma {:induction false} GroupsAre(gs: seq<LogGroup>)
    ensures EncRecs(GroupsRecs(gs)) == Chunks(0x0a, GroupsBytes(gs))
  {
    hide EncRec, Chunk, EncGroup;
    if gs != [] {
      GroupsAre(gs[1..]);
      BytesRec(1, EncGroup(gs[0]));
      assert GroupsBytes(gs)[1..] == GroupsBytes(gs[1..]);
      assert GroupsRecs(gs)[1..] == GroupsRecs(gs[1..]);
    }
  }

  lemma ThreeParts(a: seq<Rec>, b: seq<Rec>, c: seq<Rec>)
    ensures EncRecs(a + (b + c)) == EncRecs(a) + EncRecs(b) + EncRecs(c)
  {
    hide EncRecs;
    EncRecsAppend(a, b + c);
    EncRecsAppend(b, c);
  }

  lemma SixParts(a: seq<Rec>, b: seq<Rec>, c: seq<Rec>, d: seq<Rec>, e: seq<Rec>, f: seq<Rec>)
    ensures EncRecs(a + (b + (c + (d + (e + f))))) ==
            EncRecs(a) + EncRecs(b) + EncRecs(c) + EncRecs(d) + EncRecs(e) + EncRecs(f)
  {
    hide EncRecs;
    ThreeParts(a, b, c + (d + (e + f)));
    EncRecsAppend(c, d + (e + f));
    ThreeParts(d, e, f);
  }

  /** A content of a log, and a tag: the key is field 1, the value field 2. */
  lemma PairLayout(p: Pair)
    ensures EncPair(p) == Optional(0x0a, p.key) + Optional(0x12, p.value) + p.unknown
  {
    hide OptBytes, Optional;
    EncRecsAppend(OptBytes(1, p.key), OptBytes(2, p.value));
    OptionalIs(1, p.key);
    OptionalIs(2, p.value);
  }

  /** A log: the time is field 1, the contents are field 2, the collection time is field 3. */
  lemma LogLayout(l: Log)
    ensures EncLog(l) ==
            Number(0x08, l.time) + Chunks(0x12, PairsBytes(l.contents)) + Number(0x18, l.collectTime) + l.unknown
  {
    hide OptTime, PairsRecs, Number, Chunks, EncPair;
    ThreeParts(OptTime(1, l.time), PairsRecs(2, l.contents), OptTime(3, l.collectTime));
    NumberIs(1, l.time);
    PairsAre(2, l.contents);
    NumberIs(3, l.collectTime);
  }

  /** A log group: logs, context flow, file name, source, tags and host name are fields 1 to 6. */
  lemma GroupLayout(g: LogGroup)
    ensures EncGroup(g) ==
            Chunks(0x0a, LogsBytes(g.logs))
            + Optional(0x12, g.contextFlow) + Optional(0x1a, g.filename) + Optional(0x22, g.source)
            + Chunks(0x2a, PairsBytes(g.tags))
            + Optional(0x32, g.hostname) + g.unknown
  {
    hide OptBytes, PairsRecs, LogsRecs, Optional, Chunks, EncPair, EncLog, EncRecs;
    SixParts(LogsRecs(g.logs), OptBytes(2, g.contextFlow), OptBytes(3, g.filename), OptBytes(4, g.source),
             PairsRecs(5, g.tags), OptBytes(6, g.hostname));
    LogsAre(g.logs);
    OptionalIs(2, g.contextFlow);
    OptionalIs(3, g.filename);
    OptionalIs(4, g.source);
    PairsAre(5, g.tags);
    OptionalIs(6, g.hostname);
  }

  /** A list of log groups: each is field 1. */
  lemma ListLayout(m: LogGroupList)
    ensures EncList(m) == Chunks(0x0a, GroupsBytes(m.groups)) + m.unknown
  {
    hide GroupsRecs, Chunks, EncGroup;
    GroupsAre(m.groups);
  }
}
