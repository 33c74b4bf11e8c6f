/**
  * The messages of cls.proto as values: what Marshal writes, what Size counts, and what Unmarshal
  * makes of a byte string. `Pair` stands for both Log.Content and LogTag.
  */
module Messages {
  import opened Basics
  import opened Varint
  import opened Wire

  datatype Pair = Pair(key: Option<bytes>, value: Option<bytes>, unknown: bytes)

  datatype Log = Log(time: Option<int64>, contents: seq<Pair>, collectTime: Option<int64>, unknown: bytes)

  datatype LogGroup = LogGroup(
    logs: seq<Log>,
    contextFlow: Option<bytes>,
    filename: Option<bytes>,
    source: Option<bytes>,
    tags: seq<Pair>,
    hostname: Option<bytes>,
    unknown: bytes)

  datatype LogGroupList = LogGroupList(groups: seq<LogGroup>, unknown: bytes)

  const NoPair := Pair(None, None, [])
  const NoLog := Log(None, [], None, [])
  const NoGroup := LogGroup([], None, None, None, [], None, [])
  const NoList := LogGroupList([], [])

  // ----- Writing: the fields of a message in the order of the schema, then its unknown bytes -----

  function OptBytes(num: nat, o: Option<bytes>): seq<Rec> {
    match o
    case None => []
    case Some(b) => [RBytes(num, b)]
  }

  function OptTime(num: nat, o: Option<int64>): seq<Rec> {
    match o
    case None => []
    case Some(t) => [RVarint(num, U64(t))]
  }

  function PairRecs(p: Pair): seq<Rec> {
    OptBytes(1, p.key) + OptBytes(2, p.value)
  }

  function EncPair(p: Pair): bytes {
    EncRecs(PairRecs(p)) + p.unknown
  }

  function PairsRecs(num: nat, ps: seq<Pair>): seq<Rec> {
    if ps == [] then [] else [RBytes(num, EncPair(ps[0]))] + PairsRecs(num, ps[1..])
  }

  function LogRecs(l: Log): seq<Rec> {
    OptTime(1, l.time) + (PairsRecs(2, l.contents) + OptTime(3, l.collectTime))
  }

  function EncLog(l: Log): bytes {
    EncRecs(LogRecs(l)) + l.unknown
  }

  function LogsRecs(ls: seq<Log>): seq<Rec> {
    if ls == [] then [] else [RBytes(1, EncLog(ls[0]))] + LogsRecs(ls[1..])
  }

  function GroupRecs(g: LogGroup): seq<Rec> {
    LogsRecs(g.logs)
    + (OptBytes(2, g.contextFlow)
       + (OptBytes(3, g.filename)
          + (OptBytes(4, g.source)
             + (PairsRecs(5, g.tags) + OptBytes(6, g.hostname)))))
  }

  function EncGroup(g: LogGroup): bytes {
    EncRecs(GroupRecs(g)) + g.unknown
  }

  function GroupsRecs(gs: seq<LogGroup>): seq<Rec> {
    if gs == [] then [] else [RBytes(1, EncGroup(gs[0]))] + GroupsRecs(gs[1..])
  }

  function EncList(m: LogGroupList): bytes {
    EncRecs(GroupsRecs(m.groups)) + m.unknown
  }

  // ----- Sizes -----

  /** The size of a length-delimited field whose payload has `l` bytes. */
  function Delimited(l: nat): nat {
    1 + l + Sov(l)
  }

  function OptBytesSize(o: Option<bytes>): nat {
    match o
    case None => 0
    case Some(b) => Delimited(|b|)
  }

  function OptTimeSize(o: Option<int64>): nat {
    match o
    case None => 0
    case Some(t) => 1 + Sov(U64(t))
  }

  function PairSize(p: Pair): nat {
    OptBytesSize(p.key) + OptBytesSize(p.value) + |p.unknown|
  }

  function PairsSize(ps: seq<Pair>): nat {
    if ps == [] then 0 else Delimited(PairSize(ps[0])) + PairsSize(ps[1..])
  }

  function LogSize(l: Log): nat {
    OptTimeSize(l.time) + PairsSize(l.contents) + OptTimeSize(l.collectTime) + |l.unknown|
  }

  function LogsSize(ls: seq<Log>): nat {
    if ls == [] then 0 else Delimited(LogSize(ls[0])) + LogsSize(ls[1..])
  }

  function GroupSize(g: LogGroup): nat {
    LogsSize(g.logs) + OptBytesSize(g.contextFlow) + OptBytesSize(g.filename) + OptBytesSize(g.source)
    + PairsSize(g.tags) + OptBytesSize(g.hostname) + |g.unknown|
  }

  function GroupsSize(gs: seq<LogGroup>): nat {
    if gs == [] then 0 else Delimited(GroupSize(gs[0])) + GroupsSize(gs[1..])
  }

  function ListSize(m: LogGroupList): nat {
    GroupsSize(m.groups) + |m.unknown|
  }

  // ----- Required fields: Marshal fails without them -----

  predicate PairReady(p: Pair) {
    p.key.Some? && p.value.Some?
  }

  predicate LogReady(l: Log) {
    l.time.Some? && forall c <- l.contents :: PairReady(c)
  }

  predicate GroupReady(g: LogGroup) {
    && (forall l <- g.logs :: LogReady(l))
    && (forall t <- g.tags :: PairReady(t))
  }

  predicate ListReady(m: LogGroupList) {
    forall g <- m.groups :: GroupReady(g)
  }

  // ----- Unknown bytes that are whole fields, at every level -----

  predicate PairClean(p: Pair) {
    UnknownOnly(KPair, p.unknown)
  }

  predicate LogClean(l: Log) {
    UnknownOnly(KLog, l.unknown) && forall c <- l.contents :: PairClean(c)
  }

  predicate GroupClean(g: LogGroup) {
    && UnknownOnly(KGroup, g.unknown)
    && (forall l <- g.logs :: LogClean(l))
    && (forall t <- g.tags :: PairClean(t))
  }

  predicate ListClean(m: LogGroupList) {
    UnknownOnly(KList, m.unknown) && forall g <- m.groups :: GroupClean(g)
  }

  // ----- Reading: every field is applied to the message in turn -----

  /** Whether a declared field with this number was seen. */
  predicate Has(rs: seq<Rec>, num: nat) {
    exists r <- rs :: !r.RUnknown? && r.num == num
  }

  predicate Fits(rs: seq<Rec>) {
    forall r <- rs :: r.RBytes? ==> |r.payload| <= MAX_INT
  }

  function ApplyPair(p: Pair, r: Rec): Pair {
    match r
    case RVarint(_, _) => p
    case RBytes(num, b) => if num == 1 then p.(key := Some(b)) else p.(value := Some(b))
    case RUnknown(raw) => p.(unknown := p.unknown + raw)
  }

  function FoldPair(rs: seq<Rec>, p: Pair): Pair {
    if rs == [] then p else FoldPair(rs[1..], ApplyPair(p, rs[0]))
  }

  function DecPair(s: bytes, into: Pair := NoPair): Result<Pair, WireError>
    requires |s| <= MAX_INT
  {
    var scan := Fields(KPair, s);
    if scan.error.Some? then Err(scan.error.value)
    else if !Has(scan.recs, 1) || !Has(scan.recs, 2) then Err(RequiredNotSet)
    else Ok(FoldPair(scan.recs, into))
  }

  function ApplyLog(l: Log, r: Rec): Result<Log, WireError>
    requires r.RBytes? ==> |r.payload| <= MAX_INT
  {
    match r
    case RVarint(num, word) =>
      Ok(if num == 1 then l.(time := Some(I64(word))) else l.(collectTime := Some(I64(word))))
    case RBytes(_, payload) =>
      (match DecPair(payload)
       case Err(e) => Err(e)
       case Ok(c) => Ok(l.(contents := l.contents + [c])))
    case RUnknown(raw) => Ok(l.(unknown := l.unknown + raw))
  }

  function FoldLog(rs: seq<Rec>, l: Log): Result<Log, WireError>
    requires Fits(rs)
  {
    if rs == [] then Ok(l)
    else match ApplyLog(l, rs[0])
      case Err(e) => Err(e)
      case Ok(m) => FoldLog(rs[1..], m)
  }

  /** A field that cannot be applied is reported before anything wrong behind it. */
  function DecLog(s: bytes, into: Log := NoLog): Result<Log, WireError>
    requires |s| <= MAX_INT
  {
    var scan := Fields(KLog, s);
    FieldsFit(KLog, s, 0);
    match FoldLog(scan.recs, into)
    case Err(e) => Err(e)
    case Ok(l) =>
      if scan.error.Some? then Err(scan.error.value)
      else if !Has(scan.recs, 1) then Err(RequiredNotSet)
      else Ok(l)
  }

  function ApplyGroup(g: LogGroup, r: Rec): Result<LogGroup, WireError>
    requires r.RBytes? ==> |r.payload| <= MAX_INT
  {
    match r
    case RVarint(_, _) => Ok(g)
    case RBytes(num, b) =>
      if num == 1 then
        match DecLog(b)
        case Err(e) => Err(e)
        case Ok(l) => Ok(g.(logs := g.logs + [l]))
      else if num == 2 then Ok(g.(contextFlow := Some(b)))
      else if num == 3 then Ok(g.(filename := Some(b)))
      else if num == 4 then Ok(g.(source := Some(b)))
      else if num == 5 then
        match DecPair(b)
        case Err(e) => Err(e)
        case Ok(t) => Ok(g.(tags := g.tags + [t]))
      else Ok(g.(hostname := Some(b)))
    case RUnknown(raw) => Ok(g.(unknown := g.unknown + raw))
  }

  function FoldGroup(rs: seq<Rec>, g: LogGroup): Result<LogGroup, WireError>
    requires Fits(rs)
  {
    if rs == [] then Ok(g)
    else match ApplyGroup(g, rs[0])
      case Err(e) => Err(e)
      case Ok(m) => FoldGroup(rs[1..], m)
  }

  function DecGroup(s: bytes, into: LogGroup := NoGroup): Result<LogGroup, WireError>
    requires |s| <= MAX_INT
  {
    var scan := Fields(KGroup, s);
    FieldsFit(KGroup, s, 0);
    match FoldGroup(scan.recs, into)
    case Err(e) => Err(e)
    case Ok(g) => if scan.error.Some? then Err(scan.error.value) else Ok(g)
  }

  function ApplyList(m: LogGroupList, r: Rec): Result<LogGroupList, WireError>
    requires r.RBytes? ==> |r.payload| <= MAX_INT
  {
    match r
    case RVarint(_, _) => Ok(m)
    case RBytes(_, b) =>
      (match DecGroup(b)
       case Err(e) => Err(e)
       case Ok(g) => Ok(m.(groups := m.groups + [g])))
    case RUnknown(raw) => Ok(m.(unknown := m.unknown + raw))
  }

  function FoldList(rs: seq<Rec>, m: LogGroupList): Result<LogGroupList, WireError>
    requires Fits(rs)
  {
    if rs == [] then Ok(m)
    else match ApplyList(m, rs[0])
      case Err(e) => Err(e)
      case Ok(n) => FoldList(rs[1..], n)
  }

  function DecList(s: bytes, into: LogGroupList := NoList): Result<LogGroupList, WireError>
    requires |s| <= MAX_INT
  {
    var scan := Fields(KList, s);
    FieldsFit(KList, s, 0);
    match FoldList(scan.recs, into)
    case Err(e) => Err(e)
    case Ok(m) => if scan.error.Some? then Err(scan.error.value) else Ok(m)
  }

  lemma FieldsFit(k: Kind, s: bytes, pos: nat)
    requires pos + |s| <= MAX_INT
    ensures Fits(Fields(k, s, pos).recs)
  {
    hide Next, Fields;
    FieldsLegal(k, s, pos);
  }

  // ----- Folding a concatenation -----

  lemma {:induction false} FoldPairAppend(a: seq<Rec>, b: seq<Rec>, p: Pair)
    ensures FoldPair(a + b, p) == FoldPair(b, FoldPair(a, p))
  {
    if a == [] {
      assert a + b == b;
    } else {
      assert (a + b)[1..] == a[1..] + b;
      FoldPairAppend(a[1..], b, ApplyPair(p, a[0]));
    }
  }

  lemma {:induction false} FoldLogAppend(a: seq<Rec>, b: seq<Rec>, l: Log)
    requires Fits(a) && Fits(b)
    ensures FoldLog(a + b, l) == if FoldLog(a, l).Ok? then FoldLog(b, FoldLog(a, l).value) else FoldLog(a, l)
  {
    hide ApplyLog;
    if a == [] {
      assert a + b == b;
    } else {
      assert (a + b)[1..] == a[1..] + b;
      if ApplyLog(l, a[0]).Ok? {
        FoldLogAppend(a[1..], b, ApplyLog(l, a[0]).value);
      }
    }
  }

  lemma {:induction false} FoldGroupAppend(a: seq<Rec>, b: seq<Rec>, g: LogGroup)
    requires Fits(a) && Fits(b)
    ensures FoldGroup(a + b, g) ==
            if FoldGroup(a, g).Ok? then FoldGroup(b, FoldGroup(a, g).value) else FoldGroup(a, g)
  {
    hide ApplyGroup;
    if a == [] {
      assert a + b == b;
    } else {
      assert (a + b)[1..] == a[1..] + b;
      if ApplyGroup(g, a[0]).Ok? {
        FoldGroupAppend(a[1..], b, ApplyGroup(g, a[0]).value);
      }
    }
  }

  lemma {:induction false} FoldListAppend(a: seq<Rec>, b: seq<Rec>, m: LogGroupList)
    requires Fits(a) && Fits(b)
    ensures FoldList(a + b, m) == if FoldList(a, m).Ok? then FoldList(b, FoldList(a, m).value) else FoldList(a, m)
  {
    hide ApplyList;
    if a == [] {
      assert a + b == b;
    } else {
      assert (a + b)[1..] == a[1..] + b;
      if ApplyList(m, a[0]).Ok? {
        FoldListAppend(a[1..], b, ApplyList(m, a[0]).value);
      }
    }
  }
}
