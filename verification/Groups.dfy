/**
  * A grammar for what the skipper passes over: a scalar field, or a group of fields between a start
  * and an end tag. It is written without counters, as a reference for the depth-counting skipper
  * (Protocol Buffers Encoding guide, section "Groups").
  */
module Groups {
  import opened Basics
  import opened Varint
  import opened Wire

  datatype Item = Scalar(tag: bytes, payload: bytes) | Group(open: bytes, body: Items, close: bytes)

  datatype Items = Nil | Cons(head: Item, tail: Items)

  // ----- The grammar -----

  /** One varint and nothing else. */
  predicate IsVarint(raw: bytes) {
    ReadVarint(raw).Ok? && ReadVarint(raw).value.size == |raw|
  }

  /** A tag of this wire type. */
  predicate IsTag(raw: bytes, wt: nat) {
    IsVarint(raw) && ReadVarint(raw).value.value % 8 == wt
  }

  /** A length and that many bytes. */
  predicate IsDelimited(raw: bytes) {
    ReadVarint(raw).Ok? && ReadVarint(raw).value.value <= MAX_INT &&
    |raw| == ReadVarint(raw).value.size + ReadVarint(raw).value.value
  }

  /** A tag with the payload its wire type asks for: a varint, eight bytes, a delimited one, or four bytes. */
  predicate IsScalar(tag: bytes, payload: bytes) {
    || (IsTag(tag, 0) && IsVarint(payload))
    || (IsTag(tag, 1) && |payload| == 8)
    || (IsTag(tag, 2) && IsDelimited(payload))
    || (IsTag(tag, 5) && |payload| == 4)
  }

  predicate Valid(item: Item) {
    match item
    case Scalar(tag, payload) => IsScalar(tag, payload)
    case Group(open, body, close) => IsTag(open, 3) && AllValid(body) && IsTag(close, 4)
  }

  predicate AllValid(items: Items) {
    items.Cons? ==> Valid(items.head) && AllValid(items.tail)
  }

  function Flat(item: Item): bytes {
    match item
    case Scalar(tag, payload) => tag + payload
    case Group(open, body, close) => open + (FlatAll(body) + close)
  }

  function FlatAll(items: Items): bytes {
    match items
    case Nil => []
    case Cons(head, tail) => Flat(head) + FlatAll(tail)
  }

  // ----- What the skipper passes over in one go -----

  /** The bytes `raw` are one tag with its payload, and `delta` is the change in open groups. */
  ghost predicate IsHop(raw: bytes, delta: int) {
    raw != [] && -1 <= delta && HopOver(raw, 1) == Ok(Hop(|raw|, 1 + delta))
  }

  /** A varint followed by anything reads as it does alone. */
  lemma VarintAlone(v: bytes, rest: bytes)
    requires IsVarint(v)
    ensures ReadVarint(v + rest) == ReadVarint(v) && (v + rest)[|v|..] == rest
  {
    hide ReadVarint;
    assert Agree(v, v + rest, |v|);
    VarintAgree(v, v + rest, |v|);
  }

  /** The bytes a varint is read from, cut off. */
  lemma VarintCut(u: bytes)
    requires ReadVarint(u).Ok?
    ensures var n := ReadVarint(u).value.size; IsVarint(u[..n]) && ReadVarint(u[..n]) == ReadVarint(u)
    ensures u == u[..ReadVarint(u).value.size] + u[ReadVarint(u).value.size..]
  {
    hide ReadVarint;
    var n := ReadVarint(u).value.size;
    assert Agree(u, u[..n], n);
    VarintAgree(u, u[..n], n);
  }

  /** What the skipper passes over without a change of depth is exactly a scalar of the grammar. */
  lemma ScalarIsHop(tag: bytes, payload: bytes)
    requires IsVarint(tag)
    ensures IsScalar(tag, payload) <==> IsHop(tag + payload, 0)
  {
    hide ReadVarint;
    VarintAlone(tag, payload);
  }

  /** A start or an end tag is passed over alone, and nothing else opens or closes a group. */
  lemma TagIsHop(raw: bytes)
    ensures IsHop(raw, 1) <==> IsTag(raw, 3)
    ensures IsHop(raw, -1) <==> IsTag(raw, 4)
  {
    hide ReadVarint;
  }

  /** The tag and the payload of a hop. */
  lemma HopSplits(raw: bytes)
    requires IsHop(raw, 0)
    ensures ReadVarint(raw).Ok?
    ensures var n := ReadVarint(raw).value.size; IsScalar(raw[..n], raw[n..]) && raw == raw[..n] + raw[n..]
  {
    hide PayloadSize;
    VarintCut(raw);
    ScalarIsHop(raw[..ReadVarint(raw).value.size], raw[ReadVarint(raw).value.size..]);
  }

  /** A hop is the same at any depth, and whatever follows it. */
  lemma HopAnywhere(raw: bytes, rest: bytes, delta: int, depth: nat)
    requires IsHop(raw, delta) && depth + delta >= 0
    ensures HopOver(raw + rest, depth) == Ok(Hop(|raw|, depth + delta))
  {
    assert Agree(raw, raw + rest, |raw|);
    HopLocal(raw, raw + rest, 1);
    hide PayloadSize;
  }

  /** The first hop of `u`, cut off from the rest. */
  lemma HopCut(u: bytes, depth: nat)
    requires u != [] && HopOver(u, depth).Ok? && HopOver(u, depth).value.size <= |u|
    ensures var hop := HopOver(u, depth).value; IsHop(u[..hop.size], hop.depth - depth)
  {
    var hop := HopOver(u, depth).value;
    assert Agree(u, u[..hop.size], hop.size);
    HopLocal(u, u[..hop.size], depth);
    hide PayloadSize;
  }

  /** Inside an open group, a run of valid items is passed over as a whole. */
  lemma {:induction false} SkipPassesItems(items: Items, rest: bytes, pos: nat, depth: nat)
    requires AllValid(items) && depth >= 1 && pos + |FlatAll(items)| + |rest| <= MAX_INT
    ensures Skip(FlatAll(items) + rest, pos, depth) == Skip(rest, pos + |FlatAll(items)|, depth)
    decreases items
  {
    hide Skip;
    if items.Nil? {
      assert FlatAll(items) + rest == rest;
    } else {
      var more := FlatAll(items.tail) + rest;
      assert FlatAll(items) + rest == Flat(items.head) + more;
      SkipPassesItem(items.head, more, pos, depth);
      SkipPassesItems(items.tail, rest, pos + |Flat(items.head)|, depth);
    }
  }

  lemma {:induction false} SkipPassesItem(item: Item, rest: bytes, pos: nat, depth: nat)
    requires Valid(item) && pos + |Flat(item)| + |rest| <= MAX_INT
    ensures Skip(Flat(item) + rest, pos, depth) ==
            if depth == 0 then Ok(pos + |Flat(item)|) else Skip(rest, pos + |Flat(item)|, depth)
    decreases item
  {
    hide HopOver, Skip, IsHop, ReadVarint;
    match item
    case Scalar(tag, payload) =>
      ScalarIsHop(tag, payload);
      SkipHop(tag + payload, rest, 0, pos, depth);
    case Group(open, body, close) =>
      TagIsHop(open);
      TagIsHop(close);
      var more := FlatAll(body) + (close + rest);
      assert Flat(item) + rest == open + more;
      SkipHop(open, more, 1, pos, depth);
      SkipPassesItems(body, close + rest, pos + |open|, depth + 1);
      SkipHop(close, rest, -1, pos + |open| + |FlatAll(body)|, depth + 1);
  }

  lemma SkipHop(raw: bytes, rest: bytes, delta: int, pos: nat, depth: nat)
    requires IsHop(raw, delta) && depth + delta >= 0 && pos + |raw| + |rest| <= MAX_INT
    ensures Skip(raw + rest, pos, depth) ==
            if depth + delta == 0 then Ok(pos + |raw|) else Skip(rest, pos + |raw|, depth + delta)
  {
    hide HopOver;
    HopAnywhere(raw, rest, delta, depth);
    assert (raw + rest)[|raw|..] == rest;
  }

  /**
    * Inside an open group, a successful skip has passed over valid items and the end tag;
    * these are the first `n` bytes.
    */
  lemma {:induction false} SkipClosesGroup(u: bytes, pos: nat, depth: nat)
    returns (items: Items, close: bytes, n: nat)
    requires depth >= 1 && pos + |u| <= MAX_INT
    requires Skip(u, pos, depth).Ok? && Skip(u, pos, depth).value <= pos + |u|
    ensures AllValid(items) && IsTag(close, 4)
    ensures n <= |u| && u[..n] == FlatAll(items) + close
    ensures Skip(u, pos, depth) == if depth == 1 then Ok(pos + n) else Skip(u[n..], pos + n, depth - 1)
    decreases |u|
  {
    hide HopOver, IsHop, Skip, IsTag, IsScalar, Valid, AllValid, Flat, FlatAll;
    var hop := FirstHop(u, pos, depth);
    var raw, rest := u[..hop.size], u[hop.size..];
    TagIsHop(raw);
    if hop.depth == depth - 1 {
      items, close, n := Nil, raw, hop.size;
      NilFlat(raw);
    } else if hop.depth == depth {
      var more, end, m := SkipClosesGroup(rest, pos + hop.size, depth);
      HopSplits(raw);
      var t := ReadVarint(raw).value.size;
      items, close, n := Cons(Scalar(raw[..t], raw[t..]), more), end, hop.size + m;
      JoinCuts(u, hop.size, m);
      ScalarFlat(raw[..t], raw[t..]);
      ConsFlat(Scalar(raw[..t], raw[t..]), more, end);
    } else {
      var body, inner, l := SkipClosesGroup(rest, pos + hop.size, depth + 1);
      var more, end, m := SkipClosesGroup(rest[l..], pos + hop.size + l, depth);
      items, close, n := Cons(Group(raw, body, inner), more), end, hop.size + l + m;
      JoinCuts(u, hop.size, l);
      JoinCuts(u, hop.size + l, m);
      GroupFlat(raw, body, inner);
      ConsFlat(Group(raw, body, inner), more, end);
    }
  }

  lemma NilFlat(close: bytes)
    ensures AllValid(Nil) && FlatAll(Nil) + close == close
  {
  }

  lemma ScalarFlat(tag: bytes, payload: bytes)
    requires IsScalar(tag, payload)
    ensures Valid(Scalar(tag, payload)) && Flat(Scalar(tag, payload)) == tag + payload
  {
  }

  lemma GroupFlat(open: bytes, body: Items, close: bytes)
    requires IsTag(open, 3) && AllValid(body) && IsTag(close, 4)
    ensures Valid(Group(open, body, close)) && Flat(Group(open, body, close)) == open + (FlatAll(body) + close)
  {
    hide IsTag;
  }

  lemma ConsFlat(head: Item, tail: Items, close: bytes)
    requires Valid(head) && AllValid(tail)
    ensures AllValid(Cons(head, tail))
    ensures FlatAll(Cons(head, tail)) + close == Flat(head) + (FlatAll(tail) + close)
  {
    hide Valid, Flat;
  }

  /** The first hop of a successful skip. */
  lemma FirstHop(u: bytes, pos: nat, depth: nat) returns (hop: Hop)
    requires pos + |u| <= MAX_INT
    requires Skip(u, pos, depth).Ok? && Skip(u, pos, depth).value <= pos + |u|
    ensures 0 < hop.size <= |u| && depth - 1 <= hop.depth <= depth + 1
    ensures IsHop(u[..hop.size], hop.depth - depth)
    ensures Skip(u, pos, depth) ==
            if hop.depth == 0 then Ok(pos + hop.size) else Skip(u[hop.size..], pos + hop.size, hop.depth)
  {
    hop := HopOver(u, depth).value;
    assert depth - 1 <= hop.depth <= depth + 1 by {
      hide PayloadSize, ReadVarint;
    }
    hide HopOver;
    HopCut(u, depth);
  }

  lemma JoinCuts(u: bytes, a: nat, b: nat)
    requires a + b <= |u|
    ensures u[..a + b] == u[..a] + u[a..][..b]
    ensures u[a + b..] == u[a..][b..]
  {
  }

  /** The bytes are a well-nested field. */
  ghost predicate InGrammar(raw: bytes) {
    exists item :: Valid(item) && Flat(item) == raw
  }

  /** The skipper accepts exactly the well-nested fields: `n` bytes of `u` that the grammar generates. */
  lemma SkipIsTheGrammar(u: bytes, n: nat)
    requires |u| <= MAX_INT
    ensures n <= |u| && Skip(u, 0, 0) == Ok(n) <==>
            n <= |u| && InGrammar(u[..n])
  {
    hide Skip, Valid, Flat;
    if n <= |u| {
      if Skip(u, 0, 0) == Ok(n) {
        SkippedIsValid(u, n);
      }
      forall item | Valid(item) && Flat(item) == u[..n]
        ensures Skip(u, 0, 0) == Ok(n)
      {
        ValidIsSkipped(item, u, n);
      }
    }
  }

  lemma ValidIsSkipped(item: Item, u: bytes, n: nat)
    requires n <= |u| <= MAX_INT && Valid(item) && Flat(item) == u[..n]
    ensures Skip(u, 0, 0) == Ok(n)
  {
    hide Skip, Valid, Flat;
    assert Flat(item) + u[n..] == u;
    SkipPassesItem(item, u[n..], 0, 0);
  }

  lemma SkippedIsValid(u: bytes, n: nat)
    requires n <= |u| <= MAX_INT && Skip(u, 0, 0) == Ok(n)
    ensures exists item :: Valid(item) && Flat(item) == u[..n]
  {
    hide Skip, IsHop, IsTag, IsScalar;
    var hop := FirstHop(u, 0, 0);
    var raw := u[..hop.size];
    TagIsHop(raw);
    if hop.depth == 0 {
      HopSplits(raw);
      var item := Scalar(raw[..ReadVarint(raw).value.size], raw[ReadVarint(raw).value.size..]);
      assert Valid(item) && Flat(item) == u[..n];
    } else {
      var body, close, m := SkipClosesGroup(u[hop.size..], hop.size, 1);
      JoinCuts(u, hop.size, m);
      assert Valid(Group(raw, body, close)) && Flat(Group(raw, body, close)) == u[..n];
    }
  }

  // ----- The fields of a message -----

  /** The fields cls.proto declares as numbers. */
  function NumberFields(k: Kind): set<int> {
    if k.KLog? then {1, 3} else {}
  }

  /** The fields it declares as strings or messages. */
  function BytesFields(k: Kind): set<int> {
    match k
    case KPair => {1, 2}
    case KLog => {2}
    case KGroup => {1, 2, 3, 4, 5, 6}
    case KList => {1}
  }

  /**
    * The first bytes of `u` are this field of a message of kind `k`: a tag of a positive number that ends no group;
    * then, for a declared number, a payload of its wire type, or else whatever the grammar allows as a whole.
    */
  ghost predicate IsField(k: Kind, u: bytes, f: Field) {
    && ReadVarint(u).Ok? && ReadVarint(u).value.size <= f.size <= |u|
    && var tag := ReadVarint(u).value;
       var num, wt, body := I32(tag.value / 8), tag.value % 8, u[tag.size..f.size];
       && num > 0 && wt != 4
       && if num in NumberFields(k) then
            wt == 0 && IsVarint(body) && f.rec == RVarint(num, ReadVarint(body).value.value)
          else if num in BytesFields(k) then
            wt == 2 && IsDelimited(body) && f.rec == RBytes(num, body[ReadVarint(body).value.size..])
          else f.rec == RUnknown(u[..f.size]) && InGrammar(u[..f.size])
  }

  lemma VarintBodyIs(num: nat, u: bytes, f: Field)
    ensures VarintBody(num, u) == Ok(f) <==>
            f.size <= |u| && IsVarint(u[..f.size]) && f.rec == RVarint(num, ReadVarint(u[..f.size]).value.value)
  {
    hide ReadVarint;
    if ReadVarint(u).Ok? {
      VarintCut(u);
    }
    if f.size <= |u| && IsVarint(u[..f.size]) {
      VarintAlone(u[..f.size], u[f.size..]);
      assert u == u[..f.size] + u[f.size..];
    }
  }

  lemma BytesBodyIs(num: nat, u: bytes, pos: nat, f: Field)
    requires pos + |u| <= MAX_INT
    ensures BytesBody(num, u, pos) == Ok(f) <==>
            f.size <= |u| && IsDelimited(u[..f.size]) &&
            f.rec == RBytes(num, u[..f.size][ReadVarint(u[..f.size]).value.size..])
  {
    hide ReadVarint;
    if BytesBody(num, u, pos).Ok? {
      var n, m := ReadVarint(u).value.size, BytesBody(num, u, pos).value.size;
      assert Agree(u, u[..m], m);
      VarintAgree(u, u[..m], m);
      assert u[..m][n..] == u[n..][..m - n];
    }
    if f.size <= |u| && IsDelimited(u[..f.size]) {
      assert Agree(u[..f.size], u, f.size);
      VarintAgree(u[..f.size], u, f.size);
      var n := ReadVarint(u).value.size;
      assert u[..f.size][n..] == u[n..][..f.size - n];
    }
  }

  lemma UnknownIs(u: bytes, pos: nat, f: Field)
    requires u != [] && pos + |u| <= MAX_INT
    ensures NextUnknown(u, pos) == Ok(f) <==>
            f.size <= |u| && f.rec == RUnknown(u[..f.size]) && InGrammar(u[..f.size])
  {
    hide Skip, Valid, Flat;
    SkipIsTheGrammar(u, f.size);
  }

  /** The reader takes exactly the fields of the grammar. */
  lemma NextIsTheGrammar(k: Kind, u: bytes, pos: nat, f: Field)
    requires u != [] && pos + |u| <= MAX_INT
    ensures Next(k, u, pos) == Ok(f) <==> IsField(k, u, f)
  {
    hide ReadVarint, I32, InGrammar, VarintBody, BytesBody, NextUnknown, IsVarint, IsDelimited;
    if ReadVarint(u).Ok? {
      var tag := ReadVarint(u).value;
      var num, rest := I32(tag.value / 8), u[tag.size..];
      if num > 0 && tag.value % 8 != 4 {
        match KindOf(k, num)
        case UnknownField =>
          UnknownIs(u, pos, f);
          if NextUnknown(u, pos).Ok? {
            UnknownHasTag(u, pos);
          }
        case _ =>
          if tag.size <= f.size <= |u| {
            var body := Field(f.rec, f.size - tag.size);
            assert rest[..body.size] == u[tag.size..f.size];
            VarintBodyIs(num, rest, body);
            BytesBodyIs(num, rest, pos + tag.size, body);
          }
      }
    }
  }

  // ----- What is refused, and how -----

  /** A varint is refused when ten bytes carry the continuation bit, or when all there is, less than ten, does. */
  lemma {:induction false} VarintRefuses(s: bytes, k: nat)
    requires k <= 10
    ensures ReadVarint(s, k) == Err(IntOverflow) <==> |s| >= 10 - k && forall i | 0 <= i < 10 - k :: s[i] >= 128
    ensures ReadVarint(s, k) == Err(UnexpectedEOF) <==> |s| < 10 - k && forall i | 0 <= i < |s| :: s[i] >= 128
    ensures ReadVarint(s, k).Ok? || ReadVarint(s, k) == Err(IntOverflow) || ReadVarint(s, k) == Err(UnexpectedEOF)
    decreases 10 - k
  {
    if k < 10 && s != [] && s[0] >= 128 {
      VarintRefuses(s[1..], k + 1);
      assert forall i | 0 < i < |s| :: s[i] == s[1..][i - 1];
    }
  }

  lemma {:induction false} SkipRefuses(u: bytes, pos: nat, depth: nat)
    requires pos + |u| <= MAX_INT && Skip(u, pos, depth).Err?
    requires depth > 0 || (ReadVarint(u).Ok? && ReadVarint(u).value.value % 8 != 4)
    ensures var e := Skip(u, pos, depth).error;
            e == IntOverflow || e == UnexpectedEOF || e == InvalidLength || e == IllegalWireType
    decreases |u|
  {
    hide ReadVarint;
    VarintRefuses(u, 0);
    if u != [] && HopOver(u, depth).Ok? {
      var hop := HopOver(u, depth).value;
      if pos + hop.size <= MAX_INT && hop.depth != 0 && hop.size < |u| {
        SkipRefuses(u[hop.size..], pos + hop.size, hop.depth);
      }
    } else if u != [] && ReadVarint(u).Ok? {
      VarintRefuses(u[ReadVarint(u).value.size..], 0);
    }
  }

  /** What is refused for its tag alone: an end of a group, a number that is not positive, a wrong wire type. */
  lemma NextRefuses(k: Kind, u: bytes, pos: nat)
    requires u != [] && pos + |u| <= MAX_INT
    ensures ReadVarint(u).Err? ==> Next(k, u, pos) == Err(ReadVarint(u).error)
    ensures ReadVarint(u).Ok? ==>
              var tag := ReadVarint(u).value.value;
              var num, wt := I32(tag / 8), tag % 8;
              && (Next(k, u, pos) == Err(EndGroupForNonGroup) <==> wt == 4)
              && (Next(k, u, pos) == Err(IllegalTag) <==> wt != 4 && num <= 0)
              && (Next(k, u, pos) == Err(WrongWireType) <==>
                    wt != 4 && ((num in NumberFields(k) && wt != 0) || (num in BytesFields(k) && wt != 2)))
    ensures Next(k, u, pos) != Err(UnexpectedEndOfGroup) && Next(k, u, pos) != Err(RequiredNotSet)
  {
    hide ReadVarint, I32, Skip;
    VarintRefuses(u, 0);
    if ReadVarint(u).Ok? {
      var tag := ReadVarint(u).value;
      VarintRefuses(u[tag.size..], 0);
      if tag.value % 8 != 4 && Skip(u, 0, 0).Err? {
        SkipRefuses(u, 0, 0);
      }
    }
  }

  /** A delimited field is refused when its length or its end is no index at all, or when it ends too late. */
  lemma DelimitedRefuses(k: Kind, u: bytes, pos: nat)
    requires u != [] && pos + |u| <= MAX_INT && ReadVarint(u).Ok?
    requires I32(ReadVarint(u).value.value / 8) in BytesFields(k) && ReadVarint(u).value.value % 8 == 2
    ensures var n := ReadVarint(u).value.size;
            match ReadVarint(u[n..])
            case Err(e) => Next(k, u, pos) == Err(e)
            case Ok(len) =>
              var end := n + len.size + len.value;
              && (Next(k, u, pos) == Err(InvalidLength) <==> len.value > MAX_INT || pos + end > MAX_INT)
              && (Next(k, u, pos) == Err(UnexpectedEOF) <==>
                    len.value <= MAX_INT && pos + end <= MAX_INT && end > |u|)
  {
    hide ReadVarint, I32;
  }

  /** A skipped field holds its whole tag. */
  lemma UnknownHasTag(u: bytes, pos: nat)
    requires u != [] && pos + |u| <= MAX_INT && ReadVarint(u).Ok? && NextUnknown(u, pos).Ok?
    ensures ReadVarint(u).value.size <= NextUnknown(u, pos).value.size
  {
    hide ReadVarint, PayloadSize;
  }

  // ----- Exactly when the field numbers are those of the standard -----

  /** The tags of a group's two ends name the same field. */
  predicate SameNumber(open: bytes, close: bytes) {
    && ReadVarint(open).Ok? && ReadVarint(close).Ok?
    && ReadVarint(open).value.value / 8 == ReadVarint(close).value.value / 8
  }

  /** Every group, at every level, is ended by a tag of its own field. */
  predicate Agreeing(item: Item) {
    match item
    case Scalar(_, _) => true
    case Group(open, body, close) => SameNumber(open, close) && AllAgreeing(body)
  }

  predicate AllAgreeing(items: Items) {
    items.Cons? ==> Agreeing(items.head) && AllAgreeing(items.tail)
  }

  /** The same grammar as the standard has it, where a group ends with a tag of its own field. */
  predicate Standard(item: Item) {
    match item
    case Scalar(tag, payload) => IsScalar(tag, payload)
    case Group(open, body, close) =>
      IsTag(open, 3) && AllStandard(body) && IsTag(close, 4) && SameNumber(open, close)
  }

  predicate AllStandard(items: Items) {
    items.Cons? ==> Standard(items.head) && AllStandard(items.tail)
  }

  lemma {:induction false} StandardIs(item: Item)
    ensures Standard(item) <==> Valid(item) && Agreeing(item)
    decreases item
  {
    hide IsTag, IsScalar, SameNumber;
    if item.Group? {
      StandardsAre(item.body);
    }
  }

  lemma {:induction false} StandardsAre(items: Items)
    ensures AllStandard(items) <==> AllValid(items) && AllAgreeing(items)
    decreases items
  {
    if items.Cons? {
      hide Standard, Valid, Agreeing;
      StandardIs(items.head);
      StandardsAre(items.tail);
    }
  }

  /** Of two ways to start the same bytes with a hop there is only one. */
  lemma OneFirstHop(a: bytes, da: int, x: bytes, b: bytes, db: int, y: bytes)
    requires IsHop(a, da) && IsHop(b, db) && a + x == b + y
    ensures a == b && da == db && x == y
  {
    HopAnywhere(a, x, da, 1);
    HopAnywhere(b, y, db, 1);
    hide IsHop, HopOver;
    assert a == (a + x)[..|a|] && b == (b + y)[..|b|];
    assert x == (a + x)[|a|..] && y == (b + y)[|b|..];
  }

  /** The first hop of some items and the end tag after them, and the open groups it adds. */
  function FirstRaw(items: Items, close: bytes): bytes {
    if items.Nil? then close else if items.head.Scalar? then items.head.tag + items.head.payload else items.head.open
  }

  function FirstDelta(items: Items): int {
    if items.Nil? then -1 else if items.head.Scalar? then 0 else 1
  }

  function Behind(items: Items, close: bytes, rest: bytes): bytes {
    if items.Nil? then rest
    else
      var more := FlatAll(items.tail) + (close + rest);
      if items.head.Scalar? then more else FlatAll(items.head.body) + (items.head.close + more)
  }

  lemma FirstIs(items: Items, close: bytes, rest: bytes)
    requires AllValid(items) && IsTag(close, 4)
    ensures FlatAll(items) + (close + rest) == FirstRaw(items, close) + Behind(items, close, rest)
    ensures IsHop(FirstRaw(items, close), FirstDelta(items))
  {
    hide IsHop, ReadVarint;
    TagIsHop(close);
    match items
    case Nil => assert [] + (close + rest) == close + rest;
    case Cons(Scalar(tag, payload), tail) =>
      ScalarIsHop(tag, payload);
      Regroup(tag + payload, FlatAll(tail), close + rest);
    case Cons(Group(open, body, end), tail) =>
      TagIsHop(open);
      Regroup(open + (FlatAll(body) + end), FlatAll(tail), close + rest);
      var more := FlatAll(tail) + (close + rest);
      Regroup(open, FlatAll(body) + end, more);
      Regroup(FlatAll(body), end, more);
  }

  lemma Regroup(a: bytes, b: bytes, c: bytes)
    ensures (a + b) + c == a + (b + c)
  {
  }

  /** Some items, an end tag and a rest can be told apart in one way only. */
  lemma {:induction false} OneParse(a: Items, ca: bytes, x: bytes, b: Items, cb: bytes, y: bytes)
    requires AllValid(a) && AllValid(b) && IsTag(ca, 4) && IsTag(cb, 4)
    requires FlatAll(a) + (ca + x) == FlatAll(b) + (cb + y)
    ensures a == b && ca == cb && x == y
    decreases a
  {
    hide IsHop, IsTag, IsScalar, FlatAll, Flat;
    FirstIs(a, ca, x);
    FirstIs(b, cb, y);
    OneFirstHop(FirstRaw(a, ca), FirstDelta(a), Behind(a, ca, x), FirstRaw(b, cb), FirstDelta(b), Behind(b, cb, y));
    if a.Cons? {
      if a.head.Group? {
        var restA, restB := FlatAll(a.tail) + (ca + x), FlatAll(b.tail) + (cb + y);
        OneParse(a.head.body, a.head.close, restA, b.head.body, b.head.close, restB);
      } else {
        OneScalar(a.head, b.head);
      }
      OneParse(a.tail, ca, x, b.tail, cb, y);
    }
  }

  lemma OneScalar(a: Item, b: Item)
    requires a.Scalar? && b.Scalar? && Valid(a) && Valid(b) && a.tag + a.payload == b.tag + b.payload
    ensures a == b
  {
    hide ReadVarint;
    VarintAlone(a.tag, a.payload);
    VarintAlone(b.tag, b.payload);
    assert a.tag == (a.tag + a.payload)[..|a.tag|];
    assert b.tag == (b.tag + b.payload)[..|b.tag|];
  }

  /** The grammar is unambiguous: bytes are a field in one way at most. */
  lemma OneField(a: Item, b: Item)
    requires Valid(a) && Valid(b) && Flat(a) == Flat(b)
    ensures a == b
  {
    hide IsHop, IsTag, IsScalar, FlatAll;
    var ha, hb := FirstRaw(Cons(a, Nil), []), FirstRaw(Cons(b, Nil), []);
    var xa := if a.Scalar? then [] else FlatAll(a.body) + a.close;
    var xb := if b.Scalar? then [] else FlatAll(b.body) + b.close;
    HeadIsHop(a);
    HeadIsHop(b);
    assert Flat(a) == ha + xa && Flat(b) == hb + xb;
    OneFirstHop(ha, FirstDelta(Cons(a, Nil)), xa, hb, FirstDelta(Cons(b, Nil)), xb);
    if a.Group? {
      assert a.close + [] == a.close && b.close + [] == b.close;
      OneParse(a.body, a.close, [], b.body, b.close, []);
    } else {
      OneScalar(a, b);
    }
  }

  lemma HeadIsHop(a: Item)
    requires Valid(a)
    ensures IsHop(FirstRaw(Cons(a, Nil), []), FirstDelta(Cons(a, Nil)))
  {
    hide IsHop, ReadVarint;
    if a.Scalar? {
      ScalarIsHop(a.tag, a.payload);
    } else {
      TagIsHop(a.open);
    }
  }

  /** What the skipper accepted is a field of the standard grammar exactly if every group in it has matching ends. */
  lemma StandardExactly(u: bytes, n: nat, item: Item)
    requires n <= |u| <= MAX_INT && Valid(item) && Flat(item) == u[..n]
    ensures Skip(u, 0, 0) == Ok(n)
    ensures (exists std :: Standard(std) && Flat(std) == u[..n]) <==> Agreeing(item)
  {
    hide Skip, Valid, Flat, Standard, Agreeing;
    ValidIsSkipped(item, u, n);
    StandardIs(item);
    forall std | Standard(std) && Flat(std) == u[..n]
      ensures std == item
    {
      StandardIs(std);
      OneField(std, item);
    }
  }

  /**
    * The skipper does not compare field numbers: any end tag in the place of a group's own is accepted, and
    * the result is a field of the standard grammar exactly if the numbers agree.
    */
  lemma EndTagNumberIgnored(open: bytes, body: Items, close: bytes, other: bytes)
    requires Valid(Group(open, body, close)) && |Flat(Group(open, body, other))| <= MAX_INT
    requires IsTag(other, 4)
    ensures var u := Flat(Group(open, body, other)); Skip(u, 0, 0) == Ok(|u|)
    ensures (exists std :: Standard(std) && Flat(std) == Flat(Group(open, body, other))) <==>
            SameNumber(open, other) && AllAgreeing(body)
  {
    hide Skip, Flat, IsTag, Standard, SameNumber;
    var item := Group(open, body, other);
    var u := Flat(item);
    assert u[..|u|] == u;
    StandardExactly(u, |u|, item);
  }
}
