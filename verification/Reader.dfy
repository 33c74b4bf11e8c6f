/** Unmarshal and skipCls as the source runs them: cursor loops over a slice, with 64-bit indices that wrap. */
module Reader {
  import opened Basics
  import opened Varint
  import opened Wire
  import opened Messages

  /** A sum of two ints that does not fit is seen as a negative one. */
  lemma SumWraps(a: nat, b: nat)
    requires a <= MAX_INT && b <= MAX_INT
    ensures I64(a + b) == if a + b <= MAX_INT then a + b else a + b - TWO64
  {
  }

  lemma TailOfTail(d: bytes, i: nat, n: nat)
    requires i + n <= |d|
    ensures d[i..][n..] == d[i + n..]
  {
  }

  /** How far the skipper's cursor moves past the payload of a tag; mirrors the switch on the wire type. */
  method SkipPayload(d: bytes, start: nat, wireType: nat) returns (r: Result<int, WireError>)
    requires start <= |d| <= MAX_INT
    ensures match PayloadSize(wireType, d[start..])
            case Err(e) => r == Err(e)
            case Ok(n) => r.Ok? && if start + n <= MAX_INT then r.value == start + n else r.value < 0
  {
    hide ReadVarint, I64;
    if wireType == 0 {
      var v := ReadVarintAt(d, start);
      if v.Err? {
        return Err(v.error);
      }
      return Ok(v.value.1);
    } else if wireType == 1 {
      SumWraps(start, 8);
      return Ok(I64(start + 8));
    } else if wireType == 2 {
      var v := ReadVarintAt(d, start);
      if v.Err? {
        return Err(v.error);
      }
      var (word, i) := v.value;
      LengthOf(word);
      var length := I64(word);
      if length < 0 {
        return Err(InvalidLength);
      }
      SumWraps(i, length);
      return Ok(I64(i + length));
    } else if wireType == 3 || wireType == 4 {
      return Ok(start);
    } else if wireType == 5 {
      SumWraps(start, 4);
      return Ok(I64(start + 4));
    } else {
      return Err(IllegalWireType);
    }
  }

  lemma LengthOf(word: uint64)
    ensures I64(word) == if word <= MAX_INT then word else word - TWO64
  {
  }

  lemma NothingToSkip(pos: nat, depth: nat)
    requires pos <= MAX_INT
    ensures Skip([], pos, depth) == Err(UnexpectedEOF)
  {
  }

  /** One tag of the skipper, with its payload. */
  lemma SkipStep(u: bytes, pos: nat, depth: nat)
    requires u != [] && pos + |u| <= MAX_INT
    ensures match ReadVarint(u)
            case Err(e) => Skip(u, pos, depth) == Err(e)
            case Ok(tag) =>
              var wt := tag.value % 8;
              if wt == 4 && depth == 0 then Skip(u, pos, depth) == Err(UnexpectedEndOfGroup)
              else match PayloadSize(wt, u[tag.size..])
                case Err(e) => Skip(u, pos, depth) == Err(e)
                case Ok(size) =>
                  var n, depth' := tag.size + size, if wt == 3 then depth + 1 else if wt == 4 then depth - 1 else depth;
                  Skip(u, pos, depth) ==
                  if pos + n > MAX_INT then Err(InvalidLength)
                  else if depth' == 0 then Ok(pos + n)
                  else if n >= |u| then Err(UnexpectedEOF)
                  else Skip(u[n..], pos + n, depth')
  {
    hide ReadVarint, PayloadSize;
  }

  method SkipCls(d: bytes) returns (r: Result<nat, WireError>)
    requires |d| <= MAX_INT
    ensures r == Skip(d, 0, 0)
  {
    hide ReadVarint, PayloadSize, Skip, HopOver;
    var i: int, depth: nat := 0, 0;
    assert d[0..] == d;
    NothingToSkip(0, 0);
    while i < |d|
      invariant 0 <= i <= MAX_INT
      invariant Skip(d, 0, 0) == if i < |d| then Skip(d[i..], i, depth) else Err(UnexpectedEOF)
      decreases |d| - i
    {
      SkipStep(d[i..], i, depth);
      var tag := ReadVarintAt(d, i);
      if tag.Err? {
        return Err(tag.error);
      }
      var (wire, start) := tag.value;
      var wireType := wire % 8;
      TailOfTail(d, i, start - i);
      if wireType == 4 && depth == 0 {
        return Err(UnexpectedEndOfGroup);
      }
      var end := SkipPayload(d, start, wireType);
      if end.Err? {
        return Err(end.error);
      }
      if wireType == 3 {
        depth := depth + 1;
      } else if wireType == 4 {
        depth := depth - 1;
      }
      if end.value < 0 {
        return Err(InvalidLength);
      }
      if depth == 0 {
        return Ok(end.value);
      }
      if end.value < |d| {
        TailOfTail(d, i, end.value - i);
      }
      i := end.value;
    }
    return Err(UnexpectedEOF);
  }

  /** The tag of the next field, its checks, and its value, bytes or skipped extent, as every Unmarshal starts. */
  method ReadField(k: Kind, d: bytes, i: nat) returns (r: Result<Field, WireError>)
    requires i < |d| <= MAX_INT
    ensures r == Next(k, d[i..], i)
  {
    hide ReadVarint, I32, Skip, NextUnknown, BytesBody;
    var tag := ReadVarintAt(d, i);
    if tag.Err? {
      return Err(tag.error);
    }
    var (wire, start) := tag.value;
    var fieldNum := I32(wire / 8);
    var wireType := wire % 8;
    TailOfTail(d, i, start - i);
    if wireType == 4 {
      return Err(EndGroupForNonGroup);
    }
    if fieldNum <= 0 {
      return Err(IllegalTag);
    }
    match KindOf(k, fieldNum)
    case VarintField =>
      if wireType != 0 {
        return Err(WrongWireType);
      }
      var v := ReadVarintAt(d, start);
      if v.Err? {
        return Err(v.error);
      }
      return Ok(Field(RVarint(fieldNum, v.value.0), v.value.1 - i));
    case BytesField =>
      if wireType != 2 {
        return Err(WrongWireType);
      }
      var body := ReadDelimited(d, start, fieldNum);
      if body.Err? {
        return Err(body.error);
      }
      return Ok(Field(body.value.rec, start - i + body.value.size));
    case UnknownField =>
      r := ReadUnknown(d, i);
  }

  /** The default branch of the switch: a field nobody declared is skipped as a whole and kept. */
  method ReadUnknown(d: bytes, i: nat) returns (r: Result<Field, WireError>)
    requires i < |d| <= MAX_INT
    ensures r == NextUnknown(d[i..], i)
  {
    hide I64, Skip;
    var skippy := SkipCls(d[i..]);
    if skippy.Err? {
      return Err(skippy.error);
    }
    SumWraps(i, skippy.value);
    if I64(i + skippy.value) < 0 {
      return Err(InvalidLength);
    }
    if i + skippy.value > |d| {
      return Err(UnexpectedEOF);
    }
    return Ok(Field(RUnknown(d[i..][..skippy.value]), skippy.value));
  }

  /** A length and that many bytes, cut out of the slice. */
  method ReadDelimited(d: bytes, start: nat, fieldNum: nat) returns (r: Result<Field, WireError>)
    requires start <= |d| <= MAX_INT
    ensures r == BytesBody(fieldNum, d[start..], start)
  {
    hide ReadVarint, I64;
    var v := ReadVarintAt(d, start);
    if v.Err? {
      return Err(v.error);
    }
    var (word, i) := v.value;
    TailOfTail(d, start, i - start);
    LengthOf(word);
    var msglen := I64(word);
    if msglen < 0 {
      return Err(InvalidLength);
    }
    SumWraps(i, msglen);
    var postIndex := I64(i + msglen);
    if postIndex < 0 {
      return Err(InvalidLength);
    }
    if postIndex > |d| {
      return Err(UnexpectedEOF);
    }
    assert d[i..][..msglen] == d[i..postIndex];
    return Ok(Field(RBytes(fieldNum, d[i..postIndex]), postIndex - start));
  }

  // ----- The loop over the fields -----

  /** The fields `done` are behind the cursor and the rest of the scan is ahead of it. */
  ghost predicate Cursor(k: Kind, d: bytes, i: nat, done: seq<Rec>) {
    && i <= |d| <= MAX_INT && Fits(done)
    && Fields(k, d) == Scan(done + Fields(k, d[i..], i).recs, Fields(k, d[i..], i).error)
  }

  lemma CursorStarts(k: Kind, d: bytes)
    requires |d| <= MAX_INT
    ensures Cursor(k, d, 0, [])
  {
    assert d[0..] == d;
    assert [] + Fields(k, d).recs == Fields(k, d).recs;
  }

  lemma CursorMoves(k: Kind, d: bytes, i: nat, done: seq<Rec>)
    requires Cursor(k, d, i, done) && i < |d|
    ensures var next := Next(k, d[i..], i);
            match next
            case Err(e) => Fields(k, d) == Scan(done, Some(e))
            case Ok(f) => i + f.size <= |d| && Cursor(k, d, i + f.size, done + [f.rec])
  {
    hide Next;
    match Next(k, d[i..], i)
    case Err(e) =>
      assert done + [] == done;
    case Ok(f) =>
      TailOfTail(d, i, f.size);
      var rest := Fields(k, d[i + f.size..], i + f.size).recs;
      assert done + ([f.rec] + rest) == (done + [f.rec]) + rest;
      FieldsFit(k, d, 0);
      assert f.rec == Fields(k, d).recs[|done|];
  }

  lemma CursorEnds(k: Kind, d: bytes, i: nat, done: seq<Rec>)
    requires Cursor(k, d, i, done) && i == |d|
    ensures Fields(k, d) == Scan(done, None)
  {
    assert d[i..] == [] && done + [] == done;
  }

  /** What lies behind the field just read. */
  lemma CursorSplits(k: Kind, d: bytes, i: nat, done: seq<Rec>) returns (rest: seq<Rec>)
    requires Cursor(k, d, i, done)
    ensures Fields(k, d).recs == done + rest && Fits(rest)
  {
    hide Fields;
    rest := Fields(k, d[i..], i).recs;
    FieldsFit(k, d[i..], i);
  }

  lemma HasOneMore(rs: seq<Rec>, r: Rec, num: nat)
    ensures Has(rs + [r], num) <==> Has(rs, num) || (!r.RUnknown? && r.num == num)
  {
    var all := rs + [r];
    assert all[|rs|] == r;
    if Has(rs, num) {
      var i :| 0 <= i < |rs| && !rs[i].RUnknown? && rs[i].num == num;
      assert all[i] == rs[i];
    }
  }

  method UnmarshalPair(d: bytes, into: Pair) returns (r: Result<Pair, WireError>)
    requires |d| <= MAX_INT
    ensures r == DecPair(d, into)
  {
    hide Next, Fields, Has, Fits, Cursor;
    var m, i := into, 0;
    var hasKey, hasValue := false, false;
    ghost var done: seq<Rec> := [];
    CursorStarts(KPair, d);
    assert !Has(done, 1) && !Has(done, 2) by { HasNone(1); HasNone(2); }
    while i < |d|
      invariant i <= |d| && Cursor(KPair, d, i, done)
      invariant m == FoldPair(done, into)
      invariant hasKey == Has(done, 1) && hasValue == Has(done, 2)
    {
      CursorMoves(KPair, d, i, done);
      var f := ReadField(KPair, d, i);
      if f.Err? {
        return Err(f.error);
      }
      var rec := f.value.rec;
      HasOneMore(done, rec, 1);
      HasOneMore(done, rec, 2);
      FoldPairAppend(done, [rec], into);
      FoldOnePair(rec, m);
      DeclaredIn(KPair, d, i, done, rec);
      match rec {
        case RVarint(_, _) =>
        case RBytes(num, s) =>
          if num == 1 {
            m := m.(key := Some(s));
            hasKey := true;
          } else {
            m := m.(value := Some(s));
            hasValue := true;
          }
        case RUnknown(raw) =>
          m := m.(unknown := m.unknown + raw);
      }
      i := i + f.value.size;
      done := done + [rec];
    }
    CursorEnds(KPair, d, i, done);
    if !hasKey || !hasValue {
      return Err(RequiredNotSet);
    }
    return Ok(m);
  }

  lemma HasNone(num: nat)
    ensures !Has([], num)
  {
  }

  lemma FoldOnePair(r: Rec, p: Pair)
    ensures FoldPair([r], p) == ApplyPair(p, r)
  {
    assert [r][1..] == [];
  }

  /** A field just read is declared for its kind, or unknown. */
  lemma DeclaredIn(k: Kind, d: bytes, i: nat, done: seq<Rec>, r: Rec)
    requires i < |d| <= MAX_INT && Next(k, d[i..], i).Ok? && r == Next(k, d[i..], i).value.rec
    ensures r.RVarint? ==> KindOf(k, r.num) == VarintField
    ensures r.RBytes? ==> KindOf(k, r.num) == BytesField && |r.payload| <= MAX_INT
  {
    hide Next;
    FieldShape(k, d[i..], i);
  }

  method UnmarshalLog(d: bytes, into: Log) returns (r: Result<Log, WireError>)
    requires |d| <= MAX_INT
    ensures r == DecLog(d, into)
  {
    hide Next, Fields, Has, Fits, Cursor, DecPair;
    var m, i, hasTime := into, 0, false;
    ghost var done: seq<Rec> := [];
    CursorStarts(KLog, d);
    HasNone(1);
    while i < |d|
      invariant i <= |d| && Cursor(KLog, d, i, done) && Fits(done)
      invariant FoldLog(done, into) == Ok(m)
      invariant hasTime == Has(done, 1)
    {
      CursorMoves(KLog, d, i, done);
      var f := ReadField(KLog, d, i);
      if f.Err? {
        return Err(f.error);
      }
      var rec := f.value.rec;
      HasOneMore(done, rec, 1);
      DeclaredIn(KLog, d, i, done, rec);
      LogStep(d, i, f.value.size, done, rec, into, m);
      match rec {
        case RVarint(num, word) =>
          if num == 1 {
            m := m.(time := Some(I64(word)));
            hasTime := true;
          } else {
            m := m.(collectTime := Some(I64(word)));
          }
        case RBytes(_, payload) =>
          var c := UnmarshalPair(payload, NoPair);
          if c.Err? {
            return Err(c.error);
          }
          m := m.(contents := m.contents + [c.value]);
        case RUnknown(raw) =>
          m := m.(unknown := m.unknown + raw);
      }
      i := i + f.value.size;
      done := done + [rec];
    }
    CursorEnds(KLog, d, i, done);
    if !hasTime {
      return Err(RequiredNotSet);
    }
    return Ok(m);
  }

  /** One more field: applied, or the error of the whole message. */
  lemma LogStep(d: bytes, i: nat, size: nat, done: seq<Rec>, r: Rec, into: Log, m: Log)
    requires Fits(done) && i + size <= |d| && Cursor(KLog, d, i + size, done + [r])
    requires FoldLog(done, into) == Ok(m) && (r.RBytes? ==> |r.payload| <= MAX_INT)
    ensures Fits(done + [r]) && FoldLog(done + [r], into) == ApplyLog(m, r)
    ensures ApplyLog(m, r).Err? ==> DecLog(d, into) == Err(ApplyLog(m, r).error)
  {
    hide Fields, ApplyLog, Has;
    assert Fits([r]) && [r][1..] == [];
    FoldLogAppend(done, [r], into);
    assert FoldLog([r], m) == ApplyLog(m, r) by {
      if ApplyLog(m, r).Ok? {
        assert FoldLog([], ApplyLog(m, r).value) == ApplyLog(m, r);
      }
    }
    var rest := CursorSplits(KLog, d, i + size, done + [r]);
    FoldLogAppend(done + [r], rest, into);
  }

  method UnmarshalGroup(d: bytes, into: LogGroup) returns (r: Result<LogGroup, WireError>)
    requires |d| <= MAX_INT
    ensures r == DecGroup(d, into)
  {
    hide Next, Fields, Fits, Cursor, DecPair, DecLog;
    var m, i := into, 0;
    ghost var done: seq<Rec> := [];
    CursorStarts(KGroup, d);
    while i < |d|
      invariant i <= |d| && Cursor(KGroup, d, i, done) && Fits(done)
      invariant FoldGroup(done, into) == Ok(m)
    {
      CursorMoves(KGroup, d, i, done);
      var f := ReadField(KGroup, d, i);
      if f.Err? {
        return Err(f.error);
      }
      var rec := f.value.rec;
      DeclaredIn(KGroup, d, i, done, rec);
      GroupStep(d, i, f.value.size, done, rec, into, m);
      match rec {
        case RVarint(_, _) =>
        case RBytes(num, s) =>
          if num == 1 {
            var l := UnmarshalLog(s, NoLog);
            if l.Err? {
              return Err(l.error);
            }
            m := m.(logs := m.logs + [l.value]);
          } else if num == 2 {
            m := m.(contextFlow := Some(s));
          } else if num == 3 {
            m := m.(filename := Some(s));
          } else if num == 4 {
            m := m.(source := Some(s));
          } else if num == 5 {
            var t := UnmarshalPair(s, NoPair);
            if t.Err? {
              return Err(t.error);
            }
            m := m.(tags := m.tags + [t.value]);
          } else {
            m := m.(hostname := Some(s));
          }
        case RUnknown(raw) =>
          m := m.(unknown := m.unknown + raw);
      }
      i := i + f.value.size;
      done := done + [rec];
    }
    CursorEnds(KGroup, d, i, done);
    return Ok(m);
  }

  lemma GroupStep(d: bytes, i: nat, size: nat, done: seq<Rec>, r: Rec, into: LogGroup, m: LogGroup)
    requires Fits(done) && i + size <= |d| && Cursor(KGroup, d, i + size, done + [r])
    requires FoldGroup(done, into) == Ok(m) && (r.RBytes? ==> |r.payload| <= MAX_INT)
    ensures Fits(done + [r]) && FoldGroup(done + [r], into) == ApplyGroup(m, r)
    ensures ApplyGroup(m, r).Err? ==> DecGroup(d, into) == Err(ApplyGroup(m, r).error)
  {
    hide Fields, ApplyGroup;
    assert Fits([r]) && [r][1..] == [];
    FoldGroupAppend(done, [r], into);
    assert FoldGroup([r], m) == ApplyGroup(m, r) by {
      if ApplyGroup(m, r).Ok? {
        assert FoldGroup([], ApplyGroup(m, r).value) == ApplyGroup(m, r);
      }
    }
    var rest := CursorSplits(KGroup, d, i + size, done + [r]);
    FoldGroupAppend(done + [r], rest, into);
  }

  method UnmarshalList(d: bytes, into: LogGroupList) returns (r: Result<LogGroupList, WireError>)
    requires |d| <= MAX_INT
    ensures r == DecList(d, into)
  {
    hide Next, Fields, Fits, Cursor, DecGroup;
    var m, i := into, 0;
    ghost var done: seq<Rec> := [];
    CursorStarts(KList, d);
    while i < |d|
      invariant i <= |d| && Cursor(KList, d, i, done) && Fits(done)
      invariant FoldList(done, into) == Ok(m)
    {
      CursorMoves(KList, d, i, done);
      var f := ReadField(KList, d, i);
      if f.Err? {
        return Err(f.error);
      }
      var rec := f.value.rec;
      DeclaredIn(KList, d, i, done, rec);
      ListStep(d, i, f.value.size, done, rec, into, m);
      match rec {
        case RVarint(_, _) =>
        case RBytes(_, s) =>
          var g := UnmarshalGroup(s, NoGroup);
          if g.Err? {
            return Err(g.error);
          }
          m := m.(groups := m.groups + [g.value]);
        case RUnknown(raw) =>
          m := m.(unknown := m.unknown + raw);
      }
      i := i + f.value.size;
      done := done + [rec];
    }
    CursorEnds(KList, d, i, done);
    return Ok(m);
  }

  lemma ListStep(d: bytes, i: nat, size: nat, done: seq<Rec>, r: Rec, into: LogGroupList, m: LogGroupList)
    requires Fits(done) && i + size <= |d| && Cursor(KList, d, i + size, done + [r])
    requires FoldList(done, into) == Ok(m) && (r.RBytes? ==> |r.payload| <= MAX_INT)
    ensures Fits(done + [r]) && FoldList(done + [r], into) == ApplyList(m, r)
    ensures ApplyList(m, r).Err? ==> DecList(d, into) == Err(ApplyList(m, r).error)
  {
    hide Fields, ApplyList;
    assert Fits([r]) && [r][1..] == [];
    FoldListAppend(done, [r], into);
    assert FoldList([r], m) == ApplyList(m, r) by {
      if ApplyList(m, r).Ok? {
        assert FoldList([], ApplyList(m, r).value) == ApplyList(m, r);
      }
    }
    var rest := CursorSplits(KList, d, i + size, done + [r]);
    FoldListAppend(done + [r], rest, into);
  }
}
