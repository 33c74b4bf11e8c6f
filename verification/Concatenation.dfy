/**
  * Concatenated encodings merge: repeated fields and unknown bytes are appended, singular fields keep
  * the last value (Protocol Buffers Encoding guide, section "Last One Wins").
  */
module Concatenation {
  import opened Basics
  import opened Wire
  import opened Messages

  function LastOf<T>(a: Option<T>, b: Option<T>): Option<T> {
    if b.Some? then b else a
  }

  function MergePair(p: Pair, q: Pair): Pair {
    Pair(LastOf(p.key, q.key), LastOf(p.value, q.value), p.unknown + q.unknown)
  }

  function MergeLog(l: Log, m: Log): Log {
    Log(LastOf(l.time, m.time), l.contents + m.contents, LastOf(l.collectTime, m.collectTime), l.unknown + m.unknown)
  }

  function MergeGroup(g: LogGroup, h: LogGroup): LogGroup {
    LogGroup(g.logs + h.logs,
             LastOf(g.contextFlow, h.contextFlow), LastOf(g.filename, h.filename), LastOf(g.source, h.source),
             g.tags + h.tags,
             LastOf(g.hostname, h.hostname), g.unknown + h.unknown)
  }

  function MergeList(m: LogGroupList, n: LogGroupList): LogGroupList {
    LogGroupList(m.groups + n.groups, m.unknown + n.unknown)
  }

  // ----- Reading into a message is merging what is read into it -----

  lemma {:induction false} FoldPairMerges(rs: seq<Rec>, p: Pair, q: Pair)
    ensures FoldPair(rs, MergePair(p, q)) == MergePair(p, FoldPair(rs, q))
  {
    if rs != [] {
      var r := rs[0];
      if r.RUnknown? {
        assert (p.unknown + q.unknown) + r.raw == p.unknown + (q.unknown + r.raw);
      }
      assert ApplyPair(MergePair(p, q), r) == MergePair(p, ApplyPair(q, r));
      FoldPairMerges(rs[1..], p, ApplyPair(q, r));
    }
  }

  lemma ApplyLogMerges(r: Rec, l: Log, m: Log)
    requires Fits([r])
    ensures ApplyLog(MergeLog(l, m), r) ==
            if ApplyLog(m, r).Ok? then Ok(MergeLog(l, ApplyLog(m, r).value)) else ApplyLog(m, r)
  {
    assert [r][0] == r;
    hide DecPair;
    match r
    case RVarint(_, _) =>
    case RBytes(_, payload) =>
      if DecPair(payload).Ok? {
        var c := [DecPair(payload).value];
        assert (l.contents + m.contents) + c == l.contents + (m.contents + c);
      }
    case RUnknown(raw) =>
      assert (l.unknown + m.unknown) + raw == l.unknown + (m.unknown + raw);
  }

  lemma {:induction false} FoldLogMerges(rs: seq<Rec>, l: Log, m: Log)
    requires Fits(rs)
    ensures FoldLog(rs, MergeLog(l, m)) ==
            if FoldLog(rs, m).Ok? then Ok(MergeLog(l, FoldLog(rs, m).value)) else FoldLog(rs, m)
  {
    hide ApplyLog, MergeLog;
    if rs != [] {
      ApplyLogMerges(rs[0], l, m);
      if ApplyLog(m, rs[0]).Ok? {
        FoldLogMerges(rs[1..], l, ApplyLog(m, rs[0]).value);
      }
    }
  }

  lemma ApplyGroupMerges(r: Rec, g: LogGroup, h: LogGroup)
    requires Fits([r])
    ensures ApplyGroup(MergeGroup(g, h), r) ==
            if ApplyGroup(h, r).Ok? then Ok(MergeGroup(g, ApplyGroup(h, r).value)) else ApplyGroup(h, r)
  {
    assert [r][0] == r;
    hide DecPair, DecLog;
    match r
    case RVarint(_, _) =>
    case RBytes(num, b) =>
      if num == 1 && DecLog(b).Ok? {
        var l := [DecLog(b).value];
        assert (g.logs + h.logs) + l == g.logs + (h.logs + l);
      } else if num == 5 && DecPair(b).Ok? {
        var t := [DecPair(b).value];
        assert (g.tags + h.tags) + t == g.tags + (h.tags + t);
      }
    case RUnknown(raw) =>
      assert (g.unknown + h.unknown) + raw == g.unknown + (h.unknown + raw);
  }

  lemma {:induction false} FoldGroupMerges(rs: seq<Rec>, g: LogGroup, h: LogGroup)
    requires Fits(rs)
    ensures FoldGroup(rs, MergeGroup(g, h)) ==
            if FoldGroup(rs, h).Ok? then Ok(MergeGroup(g, FoldGroup(rs, h).value)) else FoldGroup(rs, h)
  {
    hide ApplyGroup, MergeGroup;
    if rs != [] {
      ApplyGroupMerges(rs[0], g, h);
      if ApplyGroup(h, rs[0]).Ok? {
        FoldGroupMerges(rs[1..], g, ApplyGroup(h, rs[0]).value);
      }
    }
  }

  lemma ApplyListMerges(r: Rec, m: LogGroupList, n: LogGroupList)
    requires Fits([r])
    ensures ApplyList(MergeList(m, n), r) ==
            if ApplyList(n, r).Ok? then Ok(MergeList(m, ApplyList(n, r).value)) else ApplyList(n, r)
  {
    assert [r][0] == r;
    hide DecGroup;
    match r
    case RVarint(_, _) =>
    case RBytes(_, b) =>
      if DecGroup(b).Ok? {
        var g := [DecGroup(b).value];
        assert (m.groups + n.groups) + g == m.groups + (n.groups + g);
      }
    case RUnknown(raw) =>
      assert (m.unknown + n.unknown) + raw == m.unknown + (n.unknown + raw);
  }

  lemma {:induction false} FoldListMerges(rs: seq<Rec>, m: LogGroupList, n: LogGroupList)
    requires Fits(rs)
    ensures FoldList(rs, MergeList(m, n)) ==
            if FoldList(rs, n).Ok? then Ok(MergeList(m, FoldList(rs, n).value)) else FoldList(rs, n)
  {
    hide ApplyList, MergeList;
    if rs != [] {
      ApplyListMerges(rs[0], m, n);
      if ApplyList(n, rs[0]).Ok? {
        FoldListMerges(rs[1..], m, ApplyList(n, rs[0]).value);
      }
    }
  }

  lemma HasAppend(a: seq<Rec>, b: seq<Rec>, num: nat)
    requires Has(a, num)
    ensures Has(a + b, num)
  {
    var i :| 0 <= i < |a| && !a[i].RUnknown? && a[i].num == num;
    assert (a + b)[i] == a[i];
  }

  /** The fields of a concatenation. */
  lemma FieldsOfBoth(k: Kind, a: bytes, b: bytes)
    requires |a| + |b| <= MAX_INT && Fields(k, a).error == None && Fields(k, b).error == None
    ensures Fields(k, a + b) == Scan(Fields(k, a).recs + Fields(k, b).recs, None)
    ensures Fits(Fields(k, a).recs) && Fits(Fields(k, b).recs)
  {
    hide Fields, Fits;
    FieldsAppend(k, a, b, 0);
    FieldsAnywhere(k, b, 0, |a|);
    FieldsFit(k, a, 0);
    FieldsFit(k, b, 0);
  }

  lemma PairConcat(a: bytes, b: bytes)
    requires |a| + |b| <= MAX_INT && DecPair(a).Ok? && DecPair(b).Ok?
    ensures DecPair(a + b) == Ok(MergePair(DecPair(a).value, DecPair(b).value))
  {
    hide Fields, Has, FoldPair;
    FieldsOfBoth(KPair, a, b);
    var ra, rb := Fields(KPair, a).recs, Fields(KPair, b).recs;
    FoldPairAppend(ra, rb, NoPair);
    var p := FoldPair(ra, NoPair);
    FoldPairMerges(rb, p, NoPair);
    assert p.unknown + [] == p.unknown;
    HasAppend(ra, rb, 1);
    HasAppend(ra, rb, 2);
  }

  lemma LogConcat(a: bytes, b: bytes)
    requires |a| + |b| <= MAX_INT && DecLog(a).Ok? && DecLog(b).Ok?
    ensures DecLog(a + b) == Ok(MergeLog(DecLog(a).value, DecLog(b).value))
  {
    hide Fields, Has, FoldLog, Fits;
    FieldsOfBoth(KLog, a, b);
    var ra, rb := Fields(KLog, a).recs, Fields(KLog, b).recs;
    FoldLogAppend(ra, rb, NoLog);
    var l := FoldLog(ra, NoLog).value;
    FoldLogMerges(rb, l, NoLog);
    assert l.unknown + [] == l.unknown && l.contents + [] == l.contents;
    HasAppend(ra, rb, 1);
  }

  lemma GroupConcat(a: bytes, b: bytes)
    requires |a| + |b| <= MAX_INT && DecGroup(a).Ok? && DecGroup(b).Ok?
    ensures DecGroup(a + b) == Ok(MergeGroup(DecGroup(a).value, DecGroup(b).value))
  {
    hide Fields, FoldGroup, Fits;
    FieldsOfBoth(KGroup, a, b);
    var ra, rb := Fields(KGroup, a).recs, Fields(KGroup, b).recs;
    FoldGroupAppend(ra, rb, NoGroup);
    var g := FoldGroup(ra, NoGroup).value;
    FoldGroupMerges(rb, g, NoGroup);
    assert g.unknown + [] == g.unknown && g.logs + [] == g.logs && g.tags + [] == g.tags;
  }

  lemma ListConcat(a: bytes, b: bytes)
    requires |a| + |b| <= MAX_INT && DecList(a).Ok? && DecList(b).Ok?
    ensures DecList(a + b) == Ok(MergeList(DecList(a).value, DecList(b).value))
  {
    hide Fields, FoldList, Fits;
    FieldsOfBoth(KList, a, b);
    var ra, rb := Fields(KList, a).recs, Fields(KList, b).recs;
    FoldListAppend(ra, rb, NoList);
    var m := FoldList(ra, NoList).value;
    FoldListMerges(rb, m, NoList);
    assert m.unknown + [] == m.unknown && m.groups + [] == m.groups;
  }
}
