/**
  * Whatever Unmarshal accepts, Marshal writes back without failing, in no more bytes than were read;
  * and reading that again gives the same message.
  */
module Normalisation {
  import opened Basics
  import opened Varint
  import opened Wire
  import opened Messages
  import opened Sizes
  import opened RoundTrip

  // ----- Nothing is written longer than it was read -----

  lemma {:induction false} ShortestVarint(s: bytes, k: nat)
    requires ReadVarint(s, k).Ok?
    ensures |EncVarint(ReadVarint(s, k).value.value)| <= ReadVarint(s, k).value.size
  {
    if s[0] >= 128 {
      ShortestVarint(s[1..], k + 1);
      var rest := ReadVarint(s[1..], k + 1).value.value;
      assert (s[0] - 128 + 128 * rest) / 128 == rest;
    }
  }

  lemma FieldNoLonger(k: Kind, u: bytes, pos: nat)
    requires u != [] && pos + |u| <= MAX_INT && Next(k, u, pos).Ok?
    ensures |EncRec(Next(k, u, pos).value.rec)| <= Next(k, u, pos).value.size
  {
    hide ReadVarint, EncVarint, Skip;
    var f := Next(k, u, pos).value;
    var tag := ReadVarint(u).value;
    if !f.rec.RUnknown? {
      assert f.rec.num <= 6;
      SmallTag(8 * f.rec.num);
      SmallTag(8 * f.rec.num + 2);
      ShortestVarint(u[tag.size..], 0);
    }
  }

  lemma {:induction false} FieldsNoLonger(k: Kind, u: bytes, pos: nat)
    requires pos + |u| <= MAX_INT
    ensures |EncRecs(Fields(k, u, pos).recs)| <= |u|
    decreases |u|
  {
    hide Next, EncRec;
    if u != [] && Next(k, u, pos).Ok? {
      var f := Next(k, u, pos).value;
      FieldNoLonger(k, u, pos);
      FieldsNoLonger(k, u[f.size..], pos + f.size);
      var all := Fields(k, u, pos).recs;
      assert all[0] == f.rec && all[1..] == Fields(k, u[f.size..], pos + f.size).recs;
    }
  }

  lemma UnsignedRoundTrip(w: uint64)
    ensures U64(I64(w)) == w
  {
  }

  lemma {:induction false} PairsSizeAppend(ps: seq<Pair>, p: Pair)
    ensures PairsSize(ps + [p]) == PairsSize(ps) + Delimited(PairSize(p))
  {
    hide Delimited, PairSize;
    if ps == [] {
      assert [] + [p] == [p] && [p][1..] == [];
    } else {
      assert (ps + [p])[1..] == ps[1..] + [p];
      PairsSizeAppend(ps[1..], p);
    }
  }

  lemma {:induction false} LogsSizeAppend(ls: seq<Log>, l: Log)
    ensures LogsSize(ls + [l]) == LogsSize(ls) + Delimited(LogSize(l))
  {
    hide Delimited, LogSize;
    if ls == [] {
      assert [] + [l] == [l] && [l][1..] == [];
    } else {
      assert (ls + [l])[1..] == ls[1..] + [l];
      LogsSizeAppend(ls[1..], l);
    }
  }

  lemma {:induction false} GroupsSizeAppend(gs: seq<LogGroup>, g: LogGroup)
    ensures GroupsSize(gs + [g]) == GroupsSize(gs) + Delimited(GroupSize(g))
  {
    hide Delimited, GroupSize;
    if gs == [] {
      assert [] + [g] == [g] && [g][1..] == [];
    } else {
      assert (gs + [g])[1..] == gs[1..] + [g];
      GroupsSizeAppend(gs[1..], g);
    }
  }

  lemma {:induction false} Len64Monotone(a: nat, b: nat)
    requires a <= b
    ensures Len64(a) <= Len64(b)
  {
    if a > 0 {
      Len64Monotone(a / 2, b / 2);
    }
  }

  lemma DelimitedMonotone(a: nat, b: nat)
    requires a <= b
    ensures Delimited(a) <= Delimited(b)
  {
    Len64Monotone(SetLowBit(a), SetLowBit(b));
  }

  /** One more unknown field after a run of unknown fields. */
  lemma UnknownGrows(k: Kind, u: bytes, raw: bytes)
    requires UnknownOnly(k, u) && Legal(k, RUnknown(raw)) && |u| + |raw| <= MAX_INT
    ensures UnknownOnly(k, u + raw)
  {
    hide Next;
    assert Fields(k, raw) == Scan([RUnknown(raw)], None) by {
      assert raw[|raw|..] == [];
    }
    hide Fields;
    FieldsAppend(k, u, raw, 0);
    FieldsAnywhere(k, raw, 0, |u|);
  }

  /** The raw bytes of the unknown fields, in order. */
  function Raws(rs: seq<Rec>): bytes {
    if rs == [] then [] else (if rs[0].RUnknown? then rs[0].raw else []) + Raws(rs[1..])
  }

  predicate AllLegal(k: Kind, rs: seq<Rec>) {
    forall r <- rs :: Legal(k, r)
  }

  /** The first field and the others. */
  lemma FirstField(k: Kind, rs: seq<Rec>)
    requires AllLegal(k, rs) && rs != []
    ensures Legal(k, rs[0]) && AllLegal(k, rs[1..]) && (Fits(rs) ==> Fits(rs[1..]))
    ensures Fits(rs) && rs[0].RBytes? ==> |rs[0].payload| <= MAX_INT
    ensures EncRecs(rs) == EncRec(rs[0]) + EncRecs(rs[1..]) && Raws(rs) == Raws([rs[0]]) + Raws(rs[1..])
  {
    hide Legal, EncRec;
    assert rs[0] in rs && Raws([rs[0]][1..]) == [];
  }

  lemma NoFields(u: bytes)
    ensures EncRecs([]) == [] && u + Raws([]) == u && !Has([], 1)
  {
  }

  lemma FieldsAre(k: Kind, s: bytes)
    requires |s| <= MAX_INT
    ensures var rs := Fields(k, s).recs; AllLegal(k, rs) && |EncRecs(rs)| <= |s|
  {
    hide Fields, Legal, EncRecs;
    FieldsLegal(k, s, 0);
    FieldsNoLonger(k, s, 0);
  }

  // ----- Log.Content and LogTag -----

  lemma ApplyPairNormal(p: Pair, r: Rec)
    requires PairClean(p) && Legal(KPair, r) && PairSize(p) + |EncRec(r)| <= MAX_INT
    ensures var q := ApplyPair(p, r);
            && PairClean(q) && PairSize(q) <= PairSize(p) + |EncRec(r)|
            && q.unknown == p.unknown + Raws([r])
  {
    hide Next, UnknownOnly, EncRec, Sov;
    assert [r][1..] == [] && Raws([]) == [];
    match r
    case RVarint(_, _) =>
    case RBytes(num, b) => DelimitedSize(num, b);
    case RUnknown(raw) =>
      EncRecOfRaw(raw);
      UnknownGrows(KPair, p.unknown, raw);
  }

  lemma EncRecOfRaw(raw: bytes)
    ensures EncRec(RUnknown(raw)) == raw
  {
  }

  lemma {:induction false} FoldPairNormal(rs: seq<Rec>, p: Pair)
    requires PairClean(p) && AllLegal(KPair, rs) && PairSize(p) + |EncRecs(rs)| <= MAX_INT
    ensures var q := FoldPair(rs, p);
            && PairClean(q) && PairSize(q) <= PairSize(p) + |EncRecs(rs)|
            && (p.key.Some? || Has(rs, 1) ==> q.key.Some?)
            && (p.value.Some? || Has(rs, 2) ==> q.value.Some?)
            && q.unknown == p.unknown + Raws(rs)
  {
    hide PairClean, EncRec, PairSize, Legal;
    if rs == [] {
      assert p.unknown + [] == p.unknown;
    } else {
      ApplyPairNormal(p, rs[0]);
      var q := ApplyPair(p, rs[0]);
      DeclaredPair(rs[0]);
      FoldPairNormal(rs[1..], q);
      assert Raws([rs[0]]) + Raws(rs[1..]) == Raws(rs);
      HasSplit(rs, 1);
      HasSplit(rs, 2);
    }
  }

  lemma DeclaredPair(r: Rec)
    requires Legal(KPair, r)
    ensures !r.RVarint? && (r.RBytes? ==> r.num == 1 || r.num == 2)
  {
  }

  lemma HasSplit(rs: seq<Rec>, num: nat)
    requires rs != []
    ensures Has(rs, num) <==> (!rs[0].RUnknown? && rs[0].num == num) || Has(rs[1..], num)
  {
    assert rs == [rs[0]] + rs[1..];
  }

  /** What Unmarshal accepted as a pair: complete, clean, and no larger than what was read. */
  lemma PairAccepted(s: bytes)
    requires |s| <= MAX_INT && DecPair(s).Ok?
    ensures var p := DecPair(s).value;
            PairReady(p) && PairClean(p) && PairSize(p) <= |s| && p.unknown == Raws(Fields(KPair, s).recs)
  {
    hide Fields, Has, Legal, FoldPair, PairClean, PairSize, EncRecs, Raws;
    var rs := Fields(KPair, s).recs;
    FieldsLegal(KPair, s, 0);
    FieldsNoLonger(KPair, s, 0);
    EmptyIsClean();
    FoldPairNormal(rs, NoPair);
    assert [] + Raws(rs) == Raws(rs);
  }

  lemma EmptyIsClean()
    ensures PairClean(NoPair) && LogSound(NoLog) && GroupSound(NoGroup) && ListSound(NoList)
    ensures PairSize(NoPair) == LogSize(NoLog) == GroupSize(NoGroup) == ListSize(NoList) == 0
  {
  }

  lemma PairNormalises(s: bytes)
    requires |s| <= MAX_INT && DecPair(s).Ok?
    ensures var p := DecPair(s).value;
            PairReady(p) && |EncPair(p)| <= |s| && DecPair(EncPair(p)) == Ok(p)
  {
    hide DecPair, PairReady, PairClean, EncPair;
    PairAccepted(s);
    PairSizeExact(DecPair(s).value);
    PairRoundTrip(DecPair(s).value);
  }

  // ----- Log -----

  /** The embedded contents are complete and clean, and so are the unknown bytes. */
  ghost predicate LogSound(l: Log) {
    LogClean(l) && forall c <- l.contents :: PairReady(c)
  }

  lemma ApplyLogNormal(l: Log, r: Rec)
    requires LogSound(l) && Legal(KLog, r) && LogSize(l) + |EncRec(r)| <= MAX_INT && ApplyLog(l, r).Ok?
    ensures var m := ApplyLog(l, r).value;
            && LogSound(m) && LogSize(m) <= LogSize(l) + |EncRec(r)|
            && (l.time.Some? || (r.RVarint? && r.num == 1) ==> m.time.Some?)
            && m.unknown == l.unknown + Raws([r])
  {
    hide Next, UnknownOnly, EncRec, Sov, DecPair, PairSize, PairReady;
    assert [r][1..] == [] && Raws([]) == [];
    match r
    case RVarint(num, word) =>
      TimeSize(num, word);
    case RBytes(num, b) =>
      DelimitedSize(num, b);
      PairAccepted(b);
      var c := DecPair(b).value;
      PairsSizeAppend(l.contents, c);
      DelimitedMonotone(PairSize(c), |b|);
    case RUnknown(raw) =>
      EncRecOfRaw(raw);
      UnknownGrows(KLog, l.unknown, raw);
  }

  lemma TimeSize(num: nat, word: uint64)
    requires 1 <= num <= 6
    ensures |EncRec(RVarint(num, word))| == OptTimeSize(Some(I64(word)))
  {
    SmallTag(8 * num);
    SovIsExact(word);
    UnsignedRoundTrip(word);
  }

  lemma {:induction false} FoldLogNormal(rs: seq<Rec>, l: Log)
    requires LogSound(l) && AllLegal(KLog, rs) && Fits(rs) && LogSize(l) + |EncRecs(rs)| <= MAX_INT
    requires FoldLog(rs, l).Ok?
    ensures var m := FoldLog(rs, l).value;
            && LogSound(m) && LogSize(m) <= LogSize(l) + |EncRecs(rs)|
            && (l.time.Some? || Has(rs, 1) ==> m.time.Some?)
            && m.unknown == l.unknown + Raws(rs)
  {
    hide LogSound, EncRec, EncRecs, Raws, Fits, AllLegal, Legal, LogSize, ApplyLog, Has;
    if rs == [] {
      NoFields(l.unknown);
    } else {
      FirstField(KLog, rs);
      ApplyLogNormal(l, rs[0]);
      DeclaredLog(rs[0]);
      FoldLogNormal(rs[1..], ApplyLog(l, rs[0]).value);
      HasSplit(rs, 1);
    }
  }

  lemma DeclaredLog(r: Rec)
    requires Legal(KLog, r)
    ensures r.RBytes? ==> r.num == 2
  {
  }

  /** What is accepted is the fold over all its fields, with the time among them. */
  lemma DecLogIs(s: bytes)
    requires |s| <= MAX_INT && DecLog(s).Ok?
    ensures var rs := Fields(KLog, s).recs; Fits(rs) && FoldLog(rs, NoLog) == DecLog(s) && Has(rs, 1)
  {
    hide Fields, FoldLog, Fits, Has;
    FieldsFit(KLog, s, 0);
  }

  lemma LogAccepted(s: bytes)
    requires |s| <= MAX_INT && DecLog(s).Ok?
    ensures var l := DecLog(s).value;
            LogReady(l) && LogClean(l) && LogSize(l) <= |s| && l.unknown == Raws(Fields(KLog, s).recs)
  {
    hide Fields, Has, AllLegal, DecLog, FoldLog, Fits, LogClean, LogSize, EncRecs, Raws;
    var rs := Fields(KLog, s).recs;
    DecLogIs(s);
    FieldsAre(KLog, s);
    EmptyIsClean();
    FoldLogNormal(rs, NoLog);
    assert [] + Raws(rs) == Raws(rs);
  }

  lemma LogNormalises(s: bytes)
    requires |s| <= MAX_INT && DecLog(s).Ok?
    ensures var l := DecLog(s).value;
            LogReady(l) && |EncLog(l)| <= |s| && DecLog(EncLog(l)) == Ok(l)
  {
    hide DecLog, LogReady, LogClean, EncLog;
    LogAccepted(s);
    LogSizeExact(DecLog(s).value);
    LogRoundTrip(DecLog(s).value);
  }

  // ----- LogGroup -----

  ghost predicate GroupSound(g: LogGroup) {
    GroupClean(g) && GroupReady(g)
  }

  lemma AddLogNormal(g: LogGroup, b: bytes)
    requires GroupSound(g) && |b| <= MAX_INT && DecLog(b).Ok?
    ensures var h := g.(logs := g.logs + [DecLog(b).value]);
            GroupSound(h) && GroupSize(h) <= GroupSize(g) + Delimited(|b|)
  {
    hide UnknownOnly, DecLog, Delimited, LogSize, LogReady, LogClean, PairReady, PairClean;
    LogAccepted(b);
    var l := DecLog(b).value;
    LogsSizeAppend(g.logs, l);
    DelimitedMonotone(LogSize(l), |b|);
  }

  lemma AddTagNormal(g: LogGroup, b: bytes)
    requires GroupSound(g) && |b| <= MAX_INT && DecPair(b).Ok?
    ensures var h := g.(tags := g.tags + [DecPair(b).value]);
            GroupSound(h) && GroupSize(h) <= GroupSize(g) + Delimited(|b|)
  {
    hide UnknownOnly, DecPair, Delimited, PairSize, LogReady, LogClean, PairReady, PairClean;
    PairAccepted(b);
    var t := DecPair(b).value;
    PairsSizeAppend(g.tags, t);
    DelimitedMonotone(PairSize(t), |b|);
  }

  /** One more string field: what it replaces no longer counts. */
  lemma SetTextNormal(g: LogGroup, b: bytes)
    requires GroupSound(g)
    ensures GroupSound(g.(contextFlow := Some(b))) && GroupSize(g.(contextFlow := Some(b))) <= GroupSize(g) + Delimited(|b|)
    ensures GroupSound(g.(filename := Some(b))) && GroupSize(g.(filename := Some(b))) <= GroupSize(g) + Delimited(|b|)
    ensures GroupSound(g.(source := Some(b))) && GroupSize(g.(source := Some(b))) <= GroupSize(g) + Delimited(|b|)
    ensures GroupSound(g.(hostname := Some(b))) && GroupSize(g.(hostname := Some(b))) <= GroupSize(g) + Delimited(|b|)
  {
    hide UnknownOnly, Delimited, LogReady, LogClean, PairReady, PairClean;
  }

  lemma ApplyGroupNormal(g: LogGroup, r: Rec)
    requires GroupSound(g) && Legal(KGroup, r) && GroupSize(g) + |EncRec(r)| <= MAX_INT && ApplyGroup(g, r).Ok?
    ensures var h := ApplyGroup(g, r).value;
            && GroupSound(h) && GroupSize(h) <= GroupSize(g) + |EncRec(r)|
            && h.unknown == g.unknown + Raws([r])
  {
    hide Next, UnknownOnly, EncRec, Delimited, DecPair, DecLog, LogReady, LogClean, PairReady, PairClean;
    assert [r][1..] == [] && Raws([]) == [];
    match r
    case RVarint(_, _) =>
    case RBytes(num, b) =>
      DelimitedSize(num, b);
      hide GroupSound, GroupSize;
      if num == 1 {
        AddLogNormal(g, b);
      } else if num == 5 {
        AddTagNormal(g, b);
      } else {
        SetTextNormal(g, b);
      }
    case RUnknown(raw) =>
      EncRecOfRaw(raw);
      UnknownGrows(KGroup, g.unknown, raw);
  }

  lemma {:induction false} FoldGroupNormal(rs: seq<Rec>, g: LogGroup)
    requires GroupSound(g) && AllLegal(KGroup, rs) && Fits(rs) && GroupSize(g) + |EncRecs(rs)| <= MAX_INT
    requires FoldGroup(rs, g).Ok?
    ensures var h := FoldGroup(rs, g).value;
            && GroupSound(h) && GroupSize(h) <= GroupSize(g) + |EncRecs(rs)|
            && h.unknown == g.unknown + Raws(rs)
  {
    hide GroupSound, EncRec, EncRecs, Raws, Fits, AllLegal, Legal, GroupSize, ApplyGroup;
    if rs == [] {
      NoFields(g.unknown);
    } else {
      FirstField(KGroup, rs);
      ApplyGroupNormal(g, rs[0]);
      FoldGroupNormal(rs[1..], ApplyGroup(g, rs[0]).value);
    }
  }

  /** What is accepted is the fold over all its fields. */
  lemma DecGroupIs(s: bytes)
    requires |s| <= MAX_INT && DecGroup(s).Ok?
    ensures var rs := Fields(KGroup, s).recs; Fits(rs) && FoldGroup(rs, NoGroup) == DecGroup(s)
  {
    hide Fields, FoldGroup, Fits;
    FieldsFit(KGroup, s, 0);
  }

  lemma GroupAccepted(s: bytes)
    requires |s| <= MAX_INT && DecGroup(s).Ok?
    ensures var g := DecGroup(s).value;
            GroupReady(g) && GroupClean(g) && GroupSize(g) <= |s| && g.unknown == Raws(Fields(KGroup, s).recs)
  {
    hide Fields, AllLegal, DecGroup, FoldGroup, Fits, GroupClean, GroupReady, GroupSize, EncRecs, Raws;
    var rs := Fields(KGroup, s).recs;
    DecGroupIs(s);
    FieldsAre(KGroup, s);
    EmptyIsClean();
    FoldGroupNormal(rs, NoGroup);
    assert [] + Raws(rs) == Raws(rs);
  }

  lemma GroupNormalises(s: bytes)
    requires |s| <= MAX_INT && DecGroup(s).Ok?
    ensures var g := DecGroup(s).value;
            GroupReady(g) && |EncGroup(g)| <= |s| && DecGroup(EncGroup(g)) == Ok(g)
  {
    hide DecGroup, GroupReady, GroupClean, EncGroup;
    GroupAccepted(s);
    GroupSizeExact(DecGroup(s).value);
    GroupRoundTrip(DecGroup(s).value);
  }

  // ----- LogGroupList -----

  ghost predicate ListSound(m: LogGroupList) {
    ListClean(m) && ListReady(m)
  }

  lemma ApplyListNormal(m: LogGroupList, r: Rec)
    requires ListSound(m) && Legal(KList, r) && ListSize(m) + |EncRec(r)| <= MAX_INT && ApplyList(m, r).Ok?
    ensures var n := ApplyList(m, r).value;
            && ListSound(n) && ListSize(n) <= ListSize(m) + |EncRec(r)|
            && n.unknown == m.unknown + Raws([r])
  {
    hide Next, UnknownOnly, EncRec, Sov, DecGroup, GroupSize, GroupReady, GroupClean;
    assert [r][1..] == [] && Raws([]) == [];
    match r
    case RVarint(_, _) =>
    case RBytes(num, b) =>
      DelimitedSize(num, b);
      GroupAccepted(b);
      var g := DecGroup(b).value;
      GroupsSizeAppend(m.groups, g);
      DelimitedMonotone(GroupSize(g), |b|);
    case RUnknown(raw) =>
      EncRecOfRaw(raw);
      UnknownGrows(KList, m.unknown, raw);
  }

  lemma {:induction false} FoldListNormal(rs: seq<Rec>, m: LogGroupList)
    requires ListSound(m) && AllLegal(KList, rs) && Fits(rs) && ListSize(m) + |EncRecs(rs)| <= MAX_INT
    requires FoldList(rs, m).Ok?
    ensures var n := FoldList(rs, m).value;
            && ListSound(n) && ListSize(n) <= ListSize(m) + |EncRecs(rs)|
            && n.unknown == m.unknown + Raws(rs)
  {
    hide ListSound, EncRec, EncRecs, Raws, Fits, AllLegal, Legal, ListSize, ApplyList;
    if rs == [] {
      NoFields(m.unknown);
    } else {
      FirstField(KList, rs);
      ApplyListNormal(m, rs[0]);
      FoldListNormal(rs[1..], ApplyList(m, rs[0]).value);
    }
  }

  /** What is accepted is the fold over all its fields. */
  lemma DecListIs(s: bytes)
    requires |s| <= MAX_INT && DecList(s).Ok?
    ensures var rs := Fields(KList, s).recs; Fits(rs) && FoldList(rs, NoList) == DecList(s)
  {
    hide Fields, FoldList, Fits;
    FieldsFit(KList, s, 0);
  }

  lemma ListAccepted(s: bytes)
    requires |s| <= MAX_INT && DecList(s).Ok?
    ensures var m := DecList(s).value;
            ListReady(m) && ListClean(m) && ListSize(m) <= |s| && m.unknown == Raws(Fields(KList, s).recs)
  {
    hide Fields, AllLegal, DecList, FoldList, Fits, ListClean, ListReady, ListSize, EncRecs, Raws;
    var rs := Fields(KList, s).recs;
    DecListIs(s);
    FieldsAre(KList, s);
    EmptyIsClean();
    FoldListNormal(rs, NoList);
    assert [] + Raws(rs) == Raws(rs);
  }

  lemma ListNormalises(s: bytes)
    requires |s| <= MAX_INT && DecList(s).Ok?
    ensures var m := DecList(s).value;
            ListReady(m) && |EncList(m)| <= |s| && DecList(EncList(m)) == Ok(m)
  {
    hide DecList, ListReady, ListClean, EncList;
    ListAccepted(s);
    ListSizeExact(DecList(s).value);
    ListRoundTrip(DecList(s).value);
  }

  // ----- Exactly the messages that survive -----

  /** A message comes back unchanged exactly when its required fields are set and its unknown bytes are fields. */
  lemma PairSurvives(p: Pair)
    requires |EncPair(p)| <= MAX_INT
    ensures DecPair(EncPair(p)) == Ok(p) <==> PairReady(p) && PairClean(p)
  {
    hide DecPair, PairReady, PairClean, EncPair;
    if PairReady(p) && PairClean(p) {
      PairRoundTrip(p);
    }
    if DecPair(EncPair(p)) == Ok(p) {
      PairAccepted(EncPair(p));
    }
  }

  lemma LogSurvives(l: Log)
    requires |EncLog(l)| <= MAX_INT
    ensures DecLog(EncLog(l)) == Ok(l) <==> LogReady(l) && LogClean(l)
  {
    hide DecLog, LogReady, LogClean, EncLog;
    if LogReady(l) && LogClean(l) {
      LogRoundTrip(l);
    }
    if DecLog(EncLog(l)) == Ok(l) {
      LogAccepted(EncLog(l));
    }
  }

  lemma GroupSurvives(g: LogGroup)
    requires |EncGroup(g)| <= MAX_INT
    ensures DecGroup(EncGroup(g)) == Ok(g) <==> GroupReady(g) && GroupClean(g)
  {
    hide DecGroup, GroupReady, GroupClean, EncGroup;
    if GroupReady(g) && GroupClean(g) {
      GroupRoundTrip(g);
    }
    if DecGroup(EncGroup(g)) == Ok(g) {
      GroupAccepted(EncGroup(g));
    }
  }

  lemma ListSurvives(m: LogGroupList)
    requires |EncList(m)| <= MAX_INT
    ensures DecList(EncList(m)) == Ok(m) <==> ListReady(m) && ListClean(m)
  {
    hide DecList, ListReady, ListClean, EncList;
    if ListReady(m) && ListClean(m) {
      ListRoundTrip(m);
    }
    if DecList(EncList(m)) == Ok(m) {
      ListAccepted(EncList(m));
    }
  }
}
