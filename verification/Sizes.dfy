/** Size is exact: it is the number of bytes Marshal writes, at every level. */
module Sizes {
  import opened Basics
  import opened Varint
  import opened Wire
  import opened Messages

  lemma SmallTag(v: nat)
    requires v < 128
    ensures EncVarint(v) == [v]
  {
  }

  lemma DelimitedSize(num: nat, b: bytes)
    requires 1 <= num <= 6
    ensures |EncRec(RBytes(num, b))| == Delimited(|b|)
    ensures EncRecs([RBytes(num, b)]) == EncRec(RBytes(num, b))
  {
    SmallTag(8 * num + 2);
    SovIsExact(|b|);
    assert [RBytes(num, b)][1..] == [];
  }

  lemma OptBytesExact(num: nat, o: Option<bytes>)
    requires 1 <= num <= 6
    ensures |EncRecs(OptBytes(num, o))| == OptBytesSize(o)
  {
    if o.Some? {
      DelimitedSize(num, o.value);
    }
  }

  lemma OptTimeExact(num: nat, o: Option<int64>)
    requires 1 <= num <= 6
    ensures |EncRecs(OptTime(num, o))| == OptTimeSize(o)
  {
    if o.Some? {
      SmallTag(8 * num);
      SovIsExact(U64(o.value));
      assert OptTime(num, o)[1..] == [];
    }
  }

  lemma PairSizeExact(p: Pair)
    ensures |EncPair(p)| == PairSize(p)
  {
    hide EncRecs;
    EncRecsAppend(OptBytes(1, p.key), OptBytes(2, p.value));
    OptBytesExact(1, p.key);
    OptBytesExact(2, p.value);
  }

  lemma {:induction false} PairsSizeExact(num: nat, ps: seq<Pair>)
    requires 1 <= num <= 6
    ensures |EncRecs(PairsRecs(num, ps))| == PairsSize(ps)
  {
    if ps != [] {
      PairSizeExact(ps[0]);
      DelimitedSize(num, EncPair(ps[0]));
      PairsSizeExact(num, ps[1..]);
    }
  }

  lemma LogSizeExact(l: Log)
    ensures |EncLog(l)| == LogSize(l)
  {
    hide EncRecs;
    EncRecsAppend(OptTime(1, l.time), PairsRecs(2, l.contents) + OptTime(3, l.collectTime));
    EncRecsAppend(PairsRecs(2, l.contents), OptTime(3, l.collectTime));
    OptTimeExact(1, l.time);
    PairsSizeExact(2, l.contents);
    OptTimeExact(3, l.collectTime);
  }

  lemma {:induction false} LogsSizeExact(ls: seq<Log>)
    ensures |EncRecs(LogsRecs(ls))| == LogsSize(ls)
  {
    if ls != [] {
      LogSizeExact(ls[0]);
      DelimitedSize(1, EncLog(ls[0]));
      LogsSizeExact(ls[1..]);
    }
  }

  lemma GroupSizeExact(g: LogGroup)
    ensures |EncGroup(g)| == GroupSize(g)
  {
    hide EncRecs;
    var r6 := OptBytes(6, g.hostname);
    var r5 := PairsRecs(5, g.tags) + r6;
    var r4 := OptBytes(4, g.source) + r5;
    var r3 := OptBytes(3, g.filename) + r4;
    EncRecsAppend(LogsRecs(g.logs), OptBytes(2, g.contextFlow) + r3);
    EncRecsAppend(OptBytes(2, g.contextFlow), r3);
    EncRecsAppend(OptBytes(3, g.filename), r4);
    EncRecsAppend(OptBytes(4, g.source), r5);
    EncRecsAppend(PairsRecs(5, g.tags), r6);
    LogsSizeExact(g.logs);
    OptBytesExact(2, g.contextFlow);
    OptBytesExact(3, g.filename);
    OptBytesExact(4, g.source);
    PairsSizeExact(5, g.tags);
    OptBytesExact(6, g.hostname);
  }

  lemma {:induction false} GroupsSizeExact(gs: seq<LogGroup>)
    ensures |EncRecs(GroupsRecs(gs))| == GroupsSize(gs)
  {
    if gs != [] {
      GroupSizeExact(gs[0]);
      DelimitedSize(1, EncGroup(gs[0]));
      GroupsSizeExact(gs[1..]);
    }
  }

  lemma ListSizeExact(m: LogGroupList)
    ensures |EncList(m)| == ListSize(m)
  {
    GroupsSizeExact(m.groups);
  }
}
