/**
  * The wire layer shared by all generated messages: one field at a time, known or skipped
  * (Protocol Buffers Encoding guide, sections "Message Structure", "Length-Delimited Records", "Groups").
  */
module Wire {
  import opened Basics
  import opened Varint

  /** The message types of cls.proto. `Pair` stands for both Log.Content and LogTag, whose code is the same. */
  datatype Kind = KPair | KLog | KGroup | KList

  datatype FieldKind = VarintField | BytesField | UnknownField

  /** One field of a message, as the reader hands it to the message. */
  datatype Rec =
    | RVarint(num: nat, word: nat)
    | RBytes(num: nat, payload: bytes)
    | RUnknown(raw: bytes)

  datatype Field = Field(rec: Rec, size: nat)

  /** A scan of a whole message: the fields before the first error, and that error. */
  datatype Scan = Scan(recs: seq<Rec>, error: Option<WireError>)

  function KindOf(k: Kind, num: nat): FieldKind {
    match k
    case KPair => if num == 1 || num == 2 then BytesField else UnknownField
    case KLog => if num == 1 || num == 3 then VarintField else if num == 2 then BytesField else UnknownField
    case KGroup => if 1 <= num <= 6 then BytesField else UnknownField
    case KList => if num == 1 then BytesField else UnknownField
  }

  // ----- Skipping a field nobody declared -----

  /** How far the payload of a tag with wire type `wt` reaches into `rest`; it may reach past the end. */
  function PayloadSize(wt: int, rest: bytes): Result<nat, WireError> {
    if wt == 0 then
      match ReadVarint(rest)
      case Err(e) => Err(e)
      case Ok(v) => Ok(v.size)
    else if wt == 1 then Ok(8)
    else if wt == 2 then
      match ReadVarint(rest)
      case Err(e) => Err(e)
      case Ok(v) => if v.value > MAX_INT then Err(InvalidLength) else Ok(v.size + v.value)
    else if wt == 3 || wt == 4 then Ok(0)
    else if wt == 5 then Ok(4)
    else Err(IllegalWireType)
  }

  /** One tag with its payload inside a skipped field: its size, and the groups open after it. */
  datatype Hop = Hop(size: nat, depth: nat)

  function HopOver(u: bytes, depth: nat): (r: Result<Hop, WireError>)
    requires u != []
    ensures r.Ok? ==> r.value.size > 0
  {
    match ReadVarint(u)
    case Err(e) => Err(e)
    case Ok(tag) =>
      var wt := tag.value % 8;
      if wt == 4 && depth == 0 then Err(UnexpectedEndOfGroup)
      else match PayloadSize(wt, u[tag.size..])
        case Err(e) => Err(e)
        case Ok(size) =>
          Ok(Hop(tag.size + size, if wt == 3 then depth + 1 else if wt == 4 then depth - 1 else depth))
  }

  /**
    * Skips from `pos` on, `u` being what is left of the slice and `depth` the number of open groups;
    * returns the index after the field, which may lie past the end. An index beyond the largest int
    * has wrapped to a negative one, and is refused as such.
    */
  function Skip(u: bytes, pos: nat, depth: nat): (r: Result<nat, WireError>)
    requires pos + |u| <= MAX_INT
    ensures r.Ok? ==> pos < r.value <= MAX_INT
    decreases |u|
  {
    if u == [] then Err(UnexpectedEOF)
    else match HopOver(u, depth)
      case Err(e) => Err(e)
      case Ok(hop) =>
        if pos + hop.size > MAX_INT then Err(InvalidLength)
        else if hop.depth == 0 then Ok(pos + hop.size)
        else if hop.size >= |u| then Err(UnexpectedEOF)
        else Skip(u[hop.size..], pos + hop.size, hop.depth)
  }

  // ----- Reading the next field -----

  /** The next field of a message of kind `k`; `u` is what is left of its slice from index `pos`. */
  function Next(k: Kind, u: bytes, pos: nat): (r: Result<Field, WireError>)
    requires u != [] && pos + |u| <= MAX_INT
    ensures r.Ok? ==> 1 <= r.value.size <= |u|
  {
    match ReadVarint(u)
    case Err(e) => Err(e)
    case Ok(tag) =>
      var num := I32(tag.value / 8);
      var wt := tag.value % 8;
      if wt == 4 then Err(EndGroupForNonGroup)
      else if num <= 0 then Err(IllegalTag)
      else match KindOf(k, num)
        case VarintField =>
          if wt != 0 then Err(WrongWireType) else After(tag.size, VarintBody(num, u[tag.size..]))
        case BytesField =>
          if wt != 2 then Err(WrongWireType) else After(tag.size, BytesBody(num, u[tag.size..], pos + tag.size))
        case UnknownField => NextUnknown(u, pos)
  }

  /** A field whose tag took `n` bytes. */
  function After(n: nat, body: Result<Field, WireError>): Result<Field, WireError> {
    match body
    case Err(e) => Err(e)
    case Ok(f) => Ok(Field(f.rec, n + f.size))
  }

  function VarintBody(num: nat, u: bytes): (r: Result<Field, WireError>)
    ensures r.Ok? ==> r.value.size <= |u|
  {
    match ReadVarint(u)
    case Err(e) => Err(e)
    case Ok(v) => Ok(Field(RVarint(num, v.value), v.size))
  }

  function BytesBody(num: nat, u: bytes, pos: nat): (r: Result<Field, WireError>)
    ensures r.Ok? ==> r.value.size <= |u|
  {
    match ReadVarint(u)
    case Err(e) => Err(e)
    case Ok(len) =>
      if len.value > MAX_INT || pos + len.size + len.value > MAX_INT then Err(InvalidLength)
      else if len.value > |u[len.size..]| then Err(UnexpectedEOF)
      else Ok(Field(RBytes(num, u[len.size..][..len.value]), len.size + len.value))
  }

  function NextUnknown(u: bytes, pos: nat): (r: Result<Field, WireError>)
    requires u != [] && pos + |u| <= MAX_INT
    ensures r.Ok? ==> 1 <= r.value.size <= |u|
  {
    match Skip(u, 0, 0)
    case Err(e) => Err(e)
    case Ok(n) =>
      if pos + n > MAX_INT then Err(InvalidLength)
      else if n > |u| then Err(UnexpectedEOF)
      else Ok(Field(RUnknown(u[..n]), n))
  }

  /** All the fields of a message of kind `k`. */
  function Fields(k: Kind, u: bytes, pos: nat := 0): Scan
    requires pos + |u| <= MAX_INT
    decreases |u|
  {
    if u == [] then Scan([], None)
    else match Next(k, u, pos)
      case Err(e) => Scan([], Some(e))
      case Ok(f) =>
        var rest := Fields(k, u[f.size..], pos + f.size);
        Scan([f.rec] + rest.recs, rest.error)
  }

  // ----- Writing fields -----

  function EncRec(r: Rec): bytes {
    match r
    case RVarint(num, word) => EncVarint(8 * num) + EncVarint(word)
    case RBytes(num, p) => EncVarint(8 * num + 2) + EncVarint(|p|) + p
    case RUnknown(raw) => raw
  }

  function EncRecs(rs: seq<Rec>): bytes {
    if rs == [] then [] else EncRec(rs[0]) + EncRecs(rs[1..])
  }

  /** A field that a message of kind `k` can hold: declared, or skipped as a whole. */
  predicate Legal(k: Kind, r: Rec) {
    match r
    case RVarint(num, word) => KindOf(k, num) == VarintField && word < TWO64
    case RBytes(num, p) => KindOf(k, num) == BytesField && |p| <= MAX_INT
    case RUnknown(raw) => 0 < |raw| <= MAX_INT && Next(k, raw, 0) == Ok(Field(r, |raw|))
  }

  /** `u` is a run of complete fields unknown to messages of kind `k`. */
  predicate UnknownOnly(k: Kind, u: bytes) {
    && |u| <= MAX_INT
    && Fields(k, u).error == None
    && forall r <- Fields(k, u).recs :: r.RUnknown?
  }

  lemma {:induction false} EncRecsAppend(a: seq<Rec>, b: seq<Rec>)
    ensures EncRecs(a + b) == EncRecs(a) + EncRecs(b)
  {
    if a == [] {
      assert a + b == b;
    } else {
      assert (a + b)[1..] == a[1..] + b;
      EncRecsAppend(a[1..], b);
    }
  }

  // ----- A field depends on its own bytes only -----

  /** `s` and `t` start with the same `n` bytes. */
  ghost predicate Agree(s: bytes, t: bytes, n: nat) {
    n <= |s| && n <= |t| && s[..n] == t[..n]
  }

  lemma AgreeFrom(s: bytes, t: bytes, n: nat, a: nat)
    requires Agree(s, t, n) && a <= n
    ensures Agree(s, t, a) && Agree(s[a..], t[a..], n - a)
  {
    assert s[..a] == s[..n][..a] == t[..n][..a] == t[..a];
    assert s[a..][..n - a] == s[..n][a..] == t[..n][a..] == t[a..][..n - a];
  }

  lemma AgreePrefix(s: bytes, t: bytes, n: nat)
    requires Agree(s, t, n)
    ensures n <= |s| && n <= |t| && s[..n] == t[..n]
  {
  }

  lemma VarintAgree(s: bytes, t: bytes, n: nat)
    requires ReadVarint(s).Ok? && ReadVarint(s).value.size <= n && Agree(s, t, n)
    ensures ReadVarint(t) == ReadVarint(s)
    ensures var m := ReadVarint(s).value.size; Agree(s[m..], t[m..], n - m)
  {
    AgreeFrom(s, t, n, ReadVarint(s).value.size);
    ReadVarintLocal(s, t, 0);
  }

  lemma PayloadLocal(wt: int, s: bytes, t: bytes, n: nat)
    requires PayloadSize(wt, s) == Ok(n) && Agree(s, t, n)
    ensures PayloadSize(wt, t) == Ok(n)
  {
    if wt == 0 || wt == 2 {
      VarintAgree(s, t, n);
    }
  }

  lemma HopLocal(s: bytes, t: bytes, depth: nat)
    requires s != [] && t != [] && HopOver(s, depth).Ok? && Agree(s, t, HopOver(s, depth).value.size)
    ensures HopOver(t, depth) == HopOver(s, depth)
  {
    hide PayloadSize;
    var n := HopOver(s, depth).value.size;
    var tag := ReadVarint(s).value;
    VarintAgree(s, t, n);
    PayloadLocal(tag.value % 8, s[tag.size..], t[tag.size..], n - tag.size);
  }

  lemma {:induction false} SkipLocal(s: bytes, t: bytes, pos: nat, depth: nat)
    requires pos + |s| <= MAX_INT && pos + |t| <= MAX_INT
    requires Skip(s, pos, depth).Ok? && Agree(s, t, Skip(s, pos, depth).value - pos)
    ensures Skip(t, pos, depth) == Skip(s, pos, depth)
    decreases |s|
  {
    hide HopOver;
    var n := Skip(s, pos, depth).value - pos;
    var hop := HopOver(s, depth).value;
    AgreeFrom(s, t, n, hop.size);
    HopLocal(s, t, depth);
    if hop.depth != 0 {
      SkipLocal(s[hop.size..], t[hop.size..], pos + hop.size, hop.depth);
    }
  }

  lemma NextLocal(k: Kind, s: bytes, p: nat, t: bytes, q: nat)
    requires s != [] && t != [] && p + |s| <= MAX_INT && q + |t| <= MAX_INT
    requires Next(k, s, p).Ok? && Agree(s, t, Next(k, s, p).value.size)
    ensures Next(k, t, q) == Next(k, s, p)
  {
    hide I32, Skip, VarintBody, BytesBody, NextUnknown;
    var n := Next(k, s, p).value.size;
    var tag := ReadVarint(s).value;
    var num := I32(tag.value / 8);
    match KindOf(k, num)
    case VarintField =>
      VarintAgree(s, t, n);
      VarintBodyLocal(num, s[tag.size..], t[tag.size..]);
    case BytesField =>
      VarintAgree(s, t, n);
      BytesBodyLocal(num, s[tag.size..], p + tag.size, t[tag.size..], q + tag.size);
    case UnknownField =>
      NextUnknownLocal(s, p, t, q, n);
  }

  lemma VarintBodyLocal(num: nat, s: bytes, t: bytes)
    requires VarintBody(num, s).Ok? && Agree(s, t, VarintBody(num, s).value.size)
    ensures VarintBody(num, t) == VarintBody(num, s)
  {
    VarintAgree(s, t, VarintBody(num, s).value.size);
  }

  lemma BytesBodyLocal(num: nat, s: bytes, p: nat, t: bytes, q: nat)
    requires BytesBody(num, s, p).Ok? && Agree(s, t, BytesBody(num, s, p).value.size) && q + |t| <= MAX_INT
    ensures BytesBody(num, t, q) == BytesBody(num, s, p)
  {
    hide ReadVarint, Agree;
    var n := BytesBody(num, s, p).value.size;
    var len := ReadVarint(s).value;
    VarintAgree(s, t, n);
    AgreePrefix(s[len.size..], t[len.size..], len.value);
    AgreePrefix(s, t, n);
  }

  lemma NextUnknownLocal(s: bytes, p: nat, t: bytes, q: nat, n: nat)
    requires s != [] && t != [] && p + |s| <= MAX_INT && q + |t| <= MAX_INT && ReadVarint(s).Ok?
    requires NextUnknown(s, p).Ok? && NextUnknown(s, p).value.size == n && Agree(s, t, n)
    ensures ReadVarint(t) == ReadVarint(s) && NextUnknown(t, q) == NextUnknown(s, p)
  {
    SkipLocal(s, t, 0, 0);
    hide Agree;
    assert HopOver(s, 0).value.size <= n by {
      hide HopOver;
    }
    VarintAgree(s, t, n) by {
      hide Skip;
    }
  }

  /** Where a message sits in memory does not matter to its fields. */
  lemma {:induction false} FieldsAnywhere(k: Kind, u: bytes, p: nat, q: nat)
    requires p + |u| <= MAX_INT && q + |u| <= MAX_INT
    requires Fields(k, u, p).error == None
    ensures Fields(k, u, q) == Fields(k, u, p)
    decreases |u|
  {
    hide Next;
    if u != [] {
      NextLocal(k, u, p, u, q);
      var n := Next(k, u, p).value.size;
      FieldsAnywhere(k, u[n..], p + n, q + n);
    }
  }

  lemma FieldsStep(k: Kind, u: bytes, pos: nat)
    requires u != [] && pos + |u| <= MAX_INT && Next(k, u, pos).Ok?
    ensures var f := Next(k, u, pos).value;
            var rest := Fields(k, u[f.size..], pos + f.size);
            Fields(k, u, pos) == Scan([f.rec] + rest.recs, rest.error)
  {
    hide Next;
  }

  lemma NoFields(k: Kind, pos: nat)
    requires pos <= MAX_INT
    ensures Fields(k, [], pos) == Scan([], None)
  {
  }

  lemma FieldsError(k: Kind, u: bytes, pos: nat)
    requires pos + |u| <= MAX_INT && Fields(k, u, pos).error == None
    ensures u != [] ==> Next(k, u, pos).Ok?
  {
    hide Next;
  }

  lemma Rejoin(r: Rec, a: seq<Rec>, b: seq<Rec>)
    ensures [r] + (a + b) == ([r] + a) + b
  {
  }

  lemma FirstOfAppended(k: Kind, a: bytes, b: bytes, pos: nat)
    requires a != [] && pos + |a| + |b| <= MAX_INT && Fields(k, a, pos).error == None
    ensures Next(k, a, pos).Ok? && Next(k, a + b, pos) == Next(k, a, pos)
    ensures (a + b)[Next(k, a, pos).value.size..] == a[Next(k, a, pos).value.size..] + b
  {
    hide Next, Fields;
    FieldsError(k, a, pos);
    var n := Next(k, a, pos).value.size;
    assert Agree(a, a + b, n);
    NextLocal(k, a, pos, a + b, pos);
  }

  /** Scanning a concatenation is concatenating the scans. */
  lemma {:induction false} FieldsAppend(k: Kind, a: bytes, b: bytes, pos: nat)
    requires pos + |a| + |b| <= MAX_INT
    requires Fields(k, a, pos).error == None
    ensures var fb := Fields(k, b, pos + |a|);
            Fields(k, a + b, pos) == Scan(Fields(k, a, pos).recs + fb.recs, fb.error)
    decreases |a|
  {
    hide Next, Fields;
    if a == [] {
      NoFields(k, pos);
      assert a + b == b;
      assert [] + Fields(k, b, pos).recs == Fields(k, b, pos).recs;
    } else {
      FirstOfAppended(k, a, b, pos);
      var n := Next(k, a, pos).value.size;
      FieldsStep(k, a, pos);
      FieldsStep(k, a + b, pos);
      FieldsAppend(k, a[n..], b, pos + n);
      Rejoin(Next(k, a, pos).value.rec, Fields(k, a[n..], pos + n).recs, Fields(k, b, pos + |a|).recs);
    }
  }

  /** What one reading says about the bytes it used. */
  lemma FieldShape(k: Kind, u: bytes, pos: nat)
    requires u != [] && pos + |u| <= MAX_INT && Next(k, u, pos).Ok?
    ensures var f := Next(k, u, pos).value; f.rec.RUnknown? ==> f.rec.raw == u[..f.size]
    ensures Legal(k, Next(k, u, pos).value.rec)
  {
    hide ReadVarint, Skip;
    var f := Next(k, u, pos).value;
    if f.rec.RVarint? {
      WordFits(u[ReadVarint(u).value.size..]);
    } else if f.rec.RUnknown? {
      hide Next;
      NextLocal(k, u, pos, f.rec.raw, 0);
    }
  }

  /** Every scanned field is legal. */
  lemma {:induction false} FieldsLegal(k: Kind, u: bytes, pos: nat)
    requires pos + |u| <= MAX_INT
    ensures forall r <- Fields(k, u, pos).recs :: Legal(k, r)
    decreases |u|
  {
    hide Next, Legal;
    if u != [] && Next(k, u, pos).Ok? {
      FieldShape(k, u, pos);
      var f := Next(k, u, pos).value;
      FieldsLegal(k, u[f.size..], pos + f.size);
    }
  }

  /** Unknown fields are kept byte for byte: written back in order they are the bytes that were read. */
  lemma {:induction false} UnknownBytesKept(k: Kind, u: bytes, pos: nat)
    requires pos + |u| <= MAX_INT && Fields(k, u, pos).error == None
    requires forall r <- Fields(k, u, pos).recs :: r.RUnknown?
    ensures EncRecs(Fields(k, u, pos).recs) == u
    decreases |u|
  {
    hide Next, Fields;
    if u == [] {
      NoFields(k, pos);
    } else {
      FieldsError(k, u, pos);
      FieldsStep(k, u, pos);
      FieldShape(k, u, pos);
      var f := Next(k, u, pos).value;
      var rest := Fields(k, u[f.size..], pos + f.size).recs;
      var all := [f.rec] + rest;
      assert f.rec in all && all[0] == f.rec && all[1..] == rest;
      UnknownBytesKept(k, u[f.size..], pos + f.size);
      assert u == u[..f.size] + u[f.size..];
    }
  }

  // ----- What is written reads back -----

  /** A tag of a declared field is one byte, and reads back as its number and wire type. */
  lemma TagReadsBack(num: nat, wt: nat, rest: bytes)
    requires 1 <= num <= 6 && wt < 8
    ensures EncVarint(8 * num + wt) == [8 * num + wt]
    ensures ReadVarint([8 * num + wt] + rest) == Ok(Read(8 * num + wt, 1))
    ensures I32((8 * num + wt) / 8) == num && (8 * num + wt) % 8 == wt
  {
    assert ([8 * num + wt] + rest)[0] == 8 * num + wt;
  }

  lemma NextOfVarint(k: Kind, num: nat, word: uint64, rest: bytes, pos: nat)
    requires KindOf(k, num) == VarintField && pos + 1 + |EncVarint(word)| + |rest| <= MAX_INT
    ensures Next(k, [8 * num] + (EncVarint(word) + rest), pos) ==
            Ok(Field(RVarint(num, word), 1 + |EncVarint(word)|))
  {
    hide ReadVarint, EncVarint, I32;
    var u := [8 * num] + (EncVarint(word) + rest);
    TagReadsBack(num, 0, EncVarint(word) + rest);
    assert u[1..] == EncVarint(word) + rest;
    Uint64RoundTrip(word, rest);
  }

  lemma NextOfBytes(k: Kind, num: nat, p: bytes, rest: bytes, pos: nat)
    requires KindOf(k, num) == BytesField && pos + 1 + |EncVarint(|p|)| + |p| + |rest| <= MAX_INT
    ensures Next(k, [8 * num + 2] + (EncVarint(|p|) + (p + rest)), pos) ==
            Ok(Field(RBytes(num, p), 1 + |EncVarint(|p|)| + |p|))
  {
    hide ReadVarint, EncVarint, I32;
    var u := [8 * num + 2] + (EncVarint(|p|) + (p + rest));
    TagReadsBack(num, 2, EncVarint(|p|) + (p + rest));
    assert u[1..] == EncVarint(|p|) + (p + rest);
    Uint64RoundTrip(|p|, p + rest);
    assert u[1..][|EncVarint(|p|)|..] == p + rest;
    assert (p + rest)[..|p|] == p;
  }

  /** Declared fields start with a one-byte tag. */
  lemma EncRecShape(k: Kind, r: Rec, rest: bytes)
    requires Legal(k, r)
    ensures r.RVarint? ==> EncRec(r) == [8 * r.num] + EncVarint(r.word)
    ensures r.RVarint? ==> EncRec(r) + rest == [8 * r.num] + (EncVarint(r.word) + rest)
    ensures r.RBytes? ==> EncRec(r) == [8 * r.num + 2] + EncVarint(|r.payload|) + r.payload
    ensures r.RBytes? ==> EncRec(r) + rest == [8 * r.num + 2] + (EncVarint(|r.payload|) + (r.payload + rest))
  {
    hide Next;
    match r
    case RVarint(num, word) => TagReadsBack(num, 0, []);
    case RBytes(num, p) => TagReadsBack(num, 2, []);
    case RUnknown(_) =>
  }

  lemma NextOfEncoded(k: Kind, r: Rec, rest: bytes, pos: nat)
    requires Legal(k, r) && pos + |EncRec(r)| + |rest| <= MAX_INT
    ensures EncRec(r) != []
    ensures Next(k, EncRec(r) + rest, pos) == Ok(Field(r, |EncRec(r)|))
  {
    hide Next, EncVarint, ReadVarint;
    EncRecShape(k, r, rest);
    match r
    case RVarint(num, word) =>
      NextOfVarint(k, num, word, rest, pos);
    case RBytes(num, p) =>
      NextOfBytes(k, num, p, rest, pos);
    case RUnknown(raw) =>
      assert Agree(raw, raw + rest, |raw|);
      NextLocal(k, raw, 0, raw + rest, pos);
  }

  lemma {:induction false} FieldsOfEncoded(k: Kind, rs: seq<Rec>, pos: nat)
    requires forall r <- rs :: Legal(k, r)
    requires pos + |EncRecs(rs)| <= MAX_INT
    ensures Fields(k, EncRecs(rs), pos) == Scan(rs, None)
  {
    hide Next, Legal, Fields, EncRec;
    if rs == [] {
      NoFields(k, pos);
    } else {
      var n := |EncRec(rs[0])|;
      NextOfEncoded(k, rs[0], EncRecs(rs[1..]), pos);
      assert EncRecs(rs)[n..] == EncRecs(rs[1..]);
      FieldsStep(k, EncRecs(rs), pos);
      FieldsOfEncoded(k, rs[1..], pos + n);
      assert rs == [rs[0]] + rs[1..];
    }
  }
}
