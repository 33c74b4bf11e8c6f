/** Unmarshal undoes Marshal, for every message that Marshal accepts and whose unknown bytes are whole fields. */
module RoundTrip {
  import opened Basics
  import opened Varint
  import opened Wire
  import opened Messages

  predicate Unknowns(rs: seq<Rec>) {
    forall r <- rs :: r.RUnknown?
  }

  /** A message is scanned back into the fields it was written from. */
  lemma WrittenFields(k: Kind, rs: seq<Rec>, unknown: bytes)
    requires (forall r <- rs :: Legal(k, r)) && UnknownOnly(k, unknown)
    requires |EncRecs(rs) + unknown| <= MAX_INT
    ensures Fields(k, EncRecs(rs) + unknown) == Scan(rs + Fields(k, unknown).recs, None)
    ensures EncRecs(Fields(k, unknown).recs) == unknown && Unknowns(Fields(k, unknown).recs)
  {
    hide Next, Legal, Fields;
    FieldsOfEncoded(k, rs, 0);
    FieldsAppend(k, EncRecs(rs), unknown, 0);
    FieldsAnywhere(k, unknown, 0, |EncRecs(rs)|);
    UnknownBytesKept(k, unknown, 0);
  }

  lemma {:induction false} FoldPairUnknown(rs: seq<Rec>, p: Pair)
    requires Unknowns(rs)
    ensures FoldPair(rs, p) == p.(unknown := p.unknown + EncRecs(rs))
  {
    if rs == [] {
      assert p.unknown + [] == p.unknown;
    } else {
      assert rs[0].RUnknown?;
      FoldPairUnknown(rs[1..], ApplyPair(p, rs[0]));
      assert p.unknown + (rs[0].raw + EncRecs(rs[1..])) == (p.unknown + rs[0].raw) + EncRecs(rs[1..]);
    }
  }

  lemma {:induction false} FoldLogUnknown(rs: seq<Rec>, l: Log)
    requires Unknowns(rs)
    ensures FoldLog(rs, l) == Ok(l.(unknown := l.unknown + EncRecs(rs)))
  {
    if rs == [] {
      assert l.unknown + [] == l.unknown;
    } else {
      assert rs[0].RUnknown?;
      FoldLogUnknown(rs[1..], l.(unknown := l.unknown + rs[0].raw));
      assert l.unknown + (rs[0].raw + EncRecs(rs[1..])) == (l.unknown + rs[0].raw) + EncRecs(rs[1..]);
    }
  }

  lemma {:induction false} FoldGroupUnknown(rs: seq<Rec>, g: LogGroup)
    requires Unknowns(rs)
    ensures FoldGroup(rs, g) == Ok(g.(unknown := g.unknown + EncRecs(rs)))
  {
    if rs == [] {
      assert g.unknown + [] == g.unknown;
    } else {
      assert rs[0].RUnknown?;
      FoldGroupUnknown(rs[1..], g.(unknown := g.unknown + rs[0].raw));
      assert g.unknown + (rs[0].raw + EncRecs(rs[1..])) == (g.unknown + rs[0].raw) + EncRecs(rs[1..]);
    }
  }

  lemma {:induction false} FoldListUnknown(rs: seq<Rec>, m: LogGroupList)
    requires Unknowns(rs)
    ensures FoldList(rs, m) == Ok(m.(unknown := m.unknown + EncRecs(rs)))
  {
    if rs == [] {
      assert m.unknown + [] == m.unknown;
    } else {
      assert rs[0].RUnknown?;
      FoldListUnknown(rs[1..], m.(unknown := m.unknown + rs[0].raw));
      assert m.unknown + (rs[0].raw + EncRecs(rs[1..])) == (m.unknown + rs[0].raw) + EncRecs(rs[1..]);
    }
  }

  // ----- The fields a message is written from are legal -----

  /** No field is longer than the run it is written in. */
  lemma {:induction false} PayloadInside(rs: seq<Rec>)
    ensures forall r <- rs :: r.RBytes? ==> |r.payload| <= |EncRecs(rs)|
  {
    if rs != [] {
      PayloadInside(rs[1..]);
    }
  }

  lemma {:induction false} PairsDeclared(num: nat, ps: seq<Pair>)
    ensures forall r <- PairsRecs(num, ps) :: r.RBytes? && r.num == num
  {
    if ps != [] {
      PairsDeclared(num, ps[1..]);
    }
  }

  lemma {:induction false} LogsDeclared(ls: seq<Log>)
    ensures forall r <- LogsRecs(ls) :: r.RBytes? && r.num == 1
  {
    if ls != [] {
      LogsDeclared(ls[1..]);
    }
  }

  lemma {:induction false} GroupsDeclared(gs: seq<LogGroup>)
    ensures forall r <- GroupsRecs(gs) :: r.RBytes? && r.num == 1
  {
    if gs != [] {
      GroupsDeclared(gs[1..]);
    }
  }

  lemma LogRecsLegal(l: Log)
    requires |EncRecs(LogRecs(l))| <= MAX_INT
    ensures forall r <- LogRecs(l) :: Legal(KLog, r)
  {
    hide EncRecs, PairsRecs;
    PayloadInside(LogRecs(l));
    PairsDeclared(2, l.contents);
  }

  lemma GroupRecsLegal(g: LogGroup)
    requires |EncRecs(GroupRecs(g))| <= MAX_INT
    ensures forall r <- GroupRecs(g) :: Legal(KGroup, r)
  {
    hide EncRecs, LogsRecs, PairsRecs;
    PayloadInside(GroupRecs(g));
    PairsDeclared(5, g.tags);
    LogsDeclared(g.logs);
  }

  // ----- Log.Content and LogTag -----

  lemma PairRoundTrip(p: Pair)
    requires PairReady(p) && PairClean(p) && |EncPair(p)| <= MAX_INT
    ensures DecPair(EncPair(p)) == Ok(p)
  {
    hide Next, Fields, EncRecs, ReadVarint;
    var rs := PairRecs(p);
    assert rs == [RBytes(1, p.key.value), RBytes(2, p.value.value)];
    PayloadInside(rs);
    assert forall r <- rs :: Legal(KPair, r);
    WrittenFields(KPair, rs, p.unknown);
    var us := Fields(KPair, p.unknown).recs;
    FoldPairAppend(rs, us, NoPair);
    assert rs[1..] == [rs[1]] && [rs[1]][1..] == [];
    var half := ApplyPair(NoPair, rs[0]);
    assert FoldPair(rs, NoPair) == FoldPair([rs[1]], half) == ApplyPair(half, rs[1]) == Pair(p.key, p.value, []);
    assert [] + p.unknown == p.unknown;
    FoldPairUnknown(us, Pair(p.key, p.value, []));
    assert (rs + us)[0] == rs[0] && (rs + us)[1] == rs[1];
  }

  /** The first of a run of embedded pairs. */
  lemma PairsHead(num: nat, ps: seq<Pair>)
    requires ps != [] && |EncRecs(PairsRecs(num, ps))| <= MAX_INT
    ensures |EncPair(ps[0])| <= MAX_INT && |EncRecs(PairsRecs(num, ps[1..]))| <= MAX_INT
    ensures PairsRecs(num, ps) == [RBytes(num, EncPair(ps[0]))] + PairsRecs(num, ps[1..])
  {
    hide EncPair;
    assert PairsRecs(num, ps)[0] == RBytes(num, EncPair(ps[0]));
    assert PairsRecs(num, ps)[1..] == PairsRecs(num, ps[1..]);
  }

  lemma {:induction false} FoldContents(cs: seq<Pair>, l: Log)
    requires forall c <- cs :: PairReady(c) && PairClean(c)
    requires |EncRecs(PairsRecs(2, cs))| <= MAX_INT
    ensures Fits(PairsRecs(2, cs)) && FoldLog(PairsRecs(2, cs), l) == Ok(l.(contents := l.contents + cs))
  {
    hide EncRecs, EncPair, DecPair, PairReady, PairClean;
    if cs == [] {
      assert l.contents + [] == l.contents;
    } else {
      PairsHead(2, cs);
      PairRoundTrip(cs[0]);
      FoldContents(cs[1..], l.(contents := l.contents + [cs[0]]));
      assert (l.contents + [cs[0]]) + cs[1..] == l.contents + cs;
    }
  }

  lemma FoldTime(num: nat, o: Option<int64>, l: Log)
    requires num == 1 || num == 3
    ensures FoldLog(OptTime(num, o), l) ==
            Ok(if o.None? then l else if num == 1 then l.(time := o) else l.(collectTime := o))
  {
    if o.Some? {
      SignedRoundTrip(o.value);
      assert OptTime(num, o)[1..] == [];
    }
  }

  lemma LogRoundTrip(l: Log)
    requires LogReady(l) && LogClean(l) && |EncLog(l)| <= MAX_INT
    ensures DecLog(EncLog(l)) == Ok(l)
  {
    hide EncRecs, Fields, FoldLog, Legal, OptTime, PairsRecs, Fits;
    var rs := LogRecs(l);
    LogRecsLegal(l);
    WrittenFields(KLog, rs, l.unknown);
    var us := Fields(KLog, l.unknown).recs;
    LogFoldsBack(l, us);
    assert (rs + us)[0] == RVarint(1, U64(l.time.value)) by {
      FirstIsTime(l);
    }
  }

  lemma FirstIsTime(l: Log)
    requires l.time.Some?
    ensures LogRecs(l) != [] && LogRecs(l)[0] == RVarint(1, U64(l.time.value))
  {
  }

  lemma LogFoldsBack(l: Log, us: seq<Rec>)
    requires LogReady(l) && LogClean(l) && |EncLog(l)| <= MAX_INT
    requires Unknowns(us) && EncRecs(us) == l.unknown
    ensures Fits(LogRecs(l) + us) && FoldLog(LogRecs(l) + us, NoLog) == Ok(l)
  {
    hide EncRecs, FoldLog, UnknownOnly;
    var times, cs, ends := OptTime(1, l.time), PairsRecs(2, l.contents), OptTime(3, l.collectTime);
    EncRecsAppend(times, cs + ends);
    EncRecsAppend(cs, ends);
    PayloadInside(LogRecs(l));
    FoldLogAppend(LogRecs(l), us, NoLog);
    FoldLogAppend(times, cs + ends, NoLog);
    FoldTime(1, l.time, NoLog);
    var l1 := NoLog.(time := l.time);
    FoldLogAppend(cs, ends, l1);
    FoldContents(l.contents, l1);
    assert [] + l.contents == l.contents;
    FoldTime(3, l.collectTime, l1.(contents := l.contents));
    FoldLogUnknown(us, l.(unknown := []));
    assert [] + l.unknown == l.unknown;
  }

  // ----- LogGroup -----

  lemma {:induction false} FoldLogs(ls: seq<Log>, g: LogGroup)
    requires forall l <- ls :: LogReady(l) && LogClean(l)
    requires |EncRecs(LogsRecs(ls))| <= MAX_INT
    ensures Fits(LogsRecs(ls)) && FoldGroup(LogsRecs(ls), g) == Ok(g.(logs := g.logs + ls))
  {
    hide EncRecs, EncLog, DecLog, LogReady, LogClean;
    if ls == [] {
      assert g.logs + [] == g.logs;
    } else {
      LogsHead(ls);
      LogRoundTrip(ls[0]);
      FoldLogs(ls[1..], g.(logs := g.logs + [ls[0]]));
      assert (g.logs + [ls[0]]) + ls[1..] == g.logs + ls;
    }
  }

  lemma LogsHead(ls: seq<Log>)
    requires ls != [] && |EncRecs(LogsRecs(ls))| <= MAX_INT
    ensures |EncLog(ls[0])| <= MAX_INT && |EncRecs(LogsRecs(ls[1..]))| <= MAX_INT
    ensures LogsRecs(ls) == [RBytes(1, EncLog(ls[0]))] + LogsRecs(ls[1..])
  {
    hide EncLog;
    assert LogsRecs(ls)[0] == RBytes(1, EncLog(ls[0]));
    assert LogsRecs(ls)[1..] == LogsRecs(ls[1..]);
  }

  lemma {:induction false} FoldTags(ts: seq<Pair>, g: LogGroup)
    requires forall t <- ts :: PairReady(t) && PairClean(t)
    requires |EncRecs(PairsRecs(5, ts))| <= MAX_INT
    ensures Fits(PairsRecs(5, ts)) && FoldGroup(PairsRecs(5, ts), g) == Ok(g.(tags := g.tags + ts))
  {
    hide EncRecs, EncPair, DecPair, PairReady, PairClean;
    if ts == [] {
      assert g.tags + [] == g.tags;
    } else {
      PairsHead(5, ts);
      PairRoundTrip(ts[0]);
      FoldTags(ts[1..], g.(tags := g.tags + [ts[0]]));
      assert (g.tags + [ts[0]]) + ts[1..] == g.tags + ts;
    }
  }

  /** One optional string field of a group. */
  lemma FoldText(num: nat, o: Option<bytes>, g: LogGroup)
    requires num == 2 || num == 3 || num == 4 || num == 6
    requires o.Some? ==> |o.value| <= MAX_INT
    ensures FoldGroup(OptBytes(num, o), g) ==
            Ok(if o.None? then g
               else if num == 2 then g.(contextFlow := o)
               else if num == 3 then g.(filename := o)
               else if num == 4 then g.(source := o)
               else g.(hostname := o))
  {
    if o.Some? {
      assert OptBytes(num, o)[1..] == [];
    }
  }

  lemma GroupFoldsBack(g: LogGroup, us: seq<Rec>)
    requires GroupReady(g) && GroupClean(g) && |EncGroup(g)| <= MAX_INT
    requires Unknowns(us) && EncRecs(us) == g.unknown
    ensures Fits(GroupRecs(g) + us) && FoldGroup(GroupRecs(g) + us, NoGroup) == Ok(g)
  {
    hide EncRecs, FoldGroup, UnknownOnly, LogReady, LogClean, PairReady, PairClean;
    var r6 := OptBytes(6, g.hostname);
    var r5 := PairsRecs(5, g.tags) + r6;
    var r4 := OptBytes(4, g.source) + r5;
    var r3 := OptBytes(3, g.filename) + r4;
    var r2 := OptBytes(2, g.contextFlow) + r3;
    PayloadInside(GroupRecs(g));
    GroupPartsFit(g);
    FoldGroupAppend(GroupRecs(g), us, NoGroup);
    FoldGroupAppend(LogsRecs(g.logs), r2, NoGroup);
    FoldLogs(g.logs, NoGroup);
    assert [] + g.logs == g.logs;
    var g1 := NoGroup.(logs := g.logs);
    FoldGroupAppend(OptBytes(2, g.contextFlow), r3, g1);
    FoldText(2, g.contextFlow, g1);
    var g2 := g1.(contextFlow := g.contextFlow);
    FoldGroupAppend(OptBytes(3, g.filename), r4, g2);
    FoldText(3, g.filename, g2);
    var g3 := g2.(filename := g.filename);
    FoldGroupAppend(OptBytes(4, g.source), r5, g3);
    FoldText(4, g.source, g3);
    var g4 := g3.(source := g.source);
    FoldGroupAppend(PairsRecs(5, g.tags), r6, g4);
    FoldTags(g.tags, g4);
    assert [] + g.tags == g.tags;
    FoldText(6, g.hostname, g4.(tags := g.tags));
    FoldGroupUnknown(us, g.(unknown := []));
    assert [] + g.unknown == g.unknown;
  }

  lemma GroupPartsFit(g: LogGroup)
    requires |EncRecs(GroupRecs(g))| <= MAX_INT
    ensures |EncRecs(LogsRecs(g.logs))| <= MAX_INT && |EncRecs(PairsRecs(5, g.tags))| <= MAX_INT
    ensures g.contextFlow.Some? ==> |g.contextFlow.value| <= MAX_INT
    ensures g.filename.Some? ==> |g.filename.value| <= MAX_INT
    ensures g.source.Some? ==> |g.source.value| <= MAX_INT
    ensures g.hostname.Some? ==> |g.hostname.value| <= MAX_INT
  {
    hide EncRecs;
    var r6 := OptBytes(6, g.hostname);
    var r5 := PairsRecs(5, g.tags) + r6;
    var r4 := OptBytes(4, g.source) + r5;
    var r3 := OptBytes(3, g.filename) + r4;
    EncRecsAppend(LogsRecs(g.logs), OptBytes(2, g.contextFlow) + r3);
    EncRecsAppend(OptBytes(2, g.contextFlow), r3);
    EncRecsAppend(OptBytes(3, g.filename), r4);
    EncRecsAppend(OptBytes(4, g.source), r5);
    EncRecsAppend(PairsRecs(5, g.tags), r6);
    PayloadInside(OptBytes(2, g.contextFlow));
    PayloadInside(OptBytes(3, g.filename));
    PayloadInside(OptBytes(4, g.source));
    PayloadInside(r6);
    assert g.contextFlow.Some? ==> OptBytes(2, g.contextFlow)[0].payload == g.contextFlow.value;
    assert g.filename.Some? ==> OptBytes(3, g.filename)[0].payload == g.filename.value;
    assert g.source.Some? ==> OptBytes(4, g.source)[0].payload == g.source.value;
    assert g.hostname.Some? ==> r6[0].payload == g.hostname.value;
  }

  lemma GroupRoundTrip(g: LogGroup)
    requires GroupReady(g) && GroupClean(g) && |EncGroup(g)| <= MAX_INT
    ensures DecGroup(EncGroup(g)) == Ok(g)
  {
    hide EncRecs, Fields, FoldGroup, Legal, GroupRecs;
    GroupRecsLegal(g);
    WrittenFields(KGroup, GroupRecs(g), g.unknown);
    GroupFoldsBack(g, Fields(KGroup, g.unknown).recs);
  }

  // ----- LogGroupList -----

  lemma {:induction false} FoldGroups(gs: seq<LogGroup>, m: LogGroupList)
    requires forall g <- gs :: GroupReady(g) && GroupClean(g)
    requires |EncRecs(GroupsRecs(gs))| <= MAX_INT
    ensures Fits(GroupsRecs(gs)) && FoldList(GroupsRecs(gs), m) == Ok(m.(groups := m.groups + gs))
  {
    hide EncRecs, EncGroup, DecGroup, GroupReady, GroupClean;
    if gs == [] {
      assert m.groups + [] == m.groups;
    } else {
      GroupsHead(gs);
      GroupRoundTrip(gs[0]);
      FoldGroups(gs[1..], m.(groups := m.groups + [gs[0]]));
      assert (m.groups + [gs[0]]) + gs[1..] == m.groups + gs;
    }
  }

  lemma GroupsHead(gs: seq<LogGroup>)
    requires gs != [] && |EncRecs(GroupsRecs(gs))| <= MAX_INT
    ensures |EncGroup(gs[0])| <= MAX_INT && |EncRecs(GroupsRecs(gs[1..]))| <= MAX_INT
    ensures GroupsRecs(gs) == [RBytes(1, EncGroup(gs[0]))] + GroupsRecs(gs[1..])
  {
    hide EncGroup;
    assert GroupsRecs(gs)[0] == RBytes(1, EncGroup(gs[0]));
    assert GroupsRecs(gs)[1..] == GroupsRecs(gs[1..]);
  }

  lemma ListRecsLegal(gs: seq<LogGroup>)
    requires |EncRecs(GroupsRecs(gs))| <= MAX_INT
    ensures forall r <- GroupsRecs(gs) :: Legal(KList, r)
  {
    hide EncRecs, GroupsRecs;
    PayloadInside(GroupsRecs(gs));
    GroupsDeclared(gs);
  }

  /** The headline law of the codec: what is marshalled unmarshals to the same list. */
  lemma ListRoundTrip(m: LogGroupList)
    requires ListReady(m) && ListClean(m) && |EncList(m)| <= MAX_INT
    ensures DecList(EncList(m)) == Ok(m)
  {
    hide EncRecs, Fields, FoldList, GroupReady, GroupClean, GroupsRecs, Legal;
    var rs := GroupsRecs(m.groups);
    ListRecsLegal(m.groups);
    WrittenFields(KList, rs, m.unknown);
    var us := Fields(KList, m.unknown).recs;
    FoldGroups(m.groups, NoList);
    FoldListAppend(rs, us, NoList);
    assert [] + m.groups == m.groups;
    FoldListUnknown(us, LogGroupList(m.groups, []));
    assert [] + m.unknown == m.unknown;
  }
}
