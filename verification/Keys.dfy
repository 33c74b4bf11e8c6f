/** The text keys of the partition workers: printed as "topic:id", split and parsed again by the cleanup. */
module Keys {
  import opened Basics

  function Digit(d: nat): char
    requires d < 10
  {
    "0123456789"[d]
  }

  function Digits(n: nat): string {
    if n < 10 then [Digit(n)] else Digits(n / 10) + [Digit(n % 10)]
  }

  /** %d */
  function Itoa(n: int): string {
    if n < 0 then ['-'] + Digits(-n) else Digits(n)
  }

  function DigitValue(c: char): Option<nat> {
    if '0' <= c <= '9' then Some((c - '0') as int) else None
  }

  function ParseDigits(s: string): Option<nat> {
    if s == [] then Some(0)
    else
      match ParseDigits(s[..|s| - 1])
      case None => None
      case Some(high) =>
        match DigitValue(s[|s| - 1])
        case None => None
        case Some(low) => Some(10 * high + low)
  }

  /** strconv.Atoi: a sign or none, then at least one digit and nothing else, within int64. */
  function Atoi(s: string): Option<int> {
    var signed := s != [] && (s[0] == '-' || s[0] == '+');
    var digits := if signed then s[1..] else s;
    if digits == [] then None
    else
      match ParseDigits(digits)
      case None => None
      case Some(n) =>
        var v: int := if signed && s[0] == '-' then 0 - (n as int) else n as int;
        if -TWO63 <= v < TWO63 then Some(v) else None
  }

  /** strings.Split by one character. */
  function Split(s: string, sep: char): seq<string> {
    if s == [] then [""]
    else if s[0] == sep then [""] + Split(s[1..], sep)
    else
      var rest := Split(s[1..], sep);
      if rest == [] then [[s[0]]] else [[s[0]] + rest[0]] + rest[1..]
  }

  function Key(topic: string, id: int): string {
    topic + ":" + Itoa(id)
  }

  /** What the cleanup makes of a key. */
  function ParseKey(key: string): Option<(string, int)> {
    var parts := Split(key, ':');
    if |parts| != 2 then None
    else
      match Atoi(parts[1])
      case None => None
      case Some(id) => Some((parts[0], id))
  }

  // ----- Numbers -----

  predicate AllDigits(s: string) {
    forall c <- s :: '0' <= c <= '9'
  }

  lemma DigitBack(d: nat)
    requires d < 10
    ensures '0' <= Digit(d) <= '9' && DigitValue(Digit(d)) == Some(d)
  {
  }

  lemma {:induction false} DigitsParse(n: nat)
    ensures Digits(n) != [] && AllDigits(Digits(n)) && ParseDigits(Digits(n)) == Some(n)
  {
    hide Digit, DigitValue;
    DigitBack(n % 10);
    if n < 10 {
      assert [Digit(n)][..0] == [];
    } else {
      DigitsParse(n / 10);
      var high := Digits(n / 10);
      assert (high + [Digit(n % 10)])[..|high|] == high;
    }
  }

  /** Every int64 is read back from its text. */
  lemma AtoiItoa(n: int)
    requires -TWO63 <= n < TWO63
    ensures Atoi(Itoa(n)) == Some(n)
    ensures ':' !in Itoa(n)
  {
    hide Digits, ParseDigits;
    if n < 0 {
      DigitsParse(-n);
      assert Itoa(n)[1..] == Digits(-n);
    } else {
      DigitsParse(n);
      assert Itoa(n)[0] in Itoa(n);
    }
  }

  lemma NoColon(n: int)
    ensures ':' !in Itoa(n)
  {
    DigitsParse(if n < 0 then -n else n);
  }

  // ----- Splitting -----

  function Count(s: string, c: char): nat {
    if s == [] then 0 else (if s[0] == c then 1 else 0) + Count(s[1..], c)
  }

  lemma {:induction false} SplitCount(s: string, sep: char)
    ensures |Split(s, sep)| == Count(s, sep) + 1
  {
    if s != [] {
      SplitCount(s[1..], sep);
    }
  }

  lemma {:induction false} CountAppend(a: string, b: string, c: char)
    ensures Count(a + b, c) == Count(a, c) + Count(b, c)
  {
    if a == [] {
      assert a + b == b;
    } else {
      assert (a + b)[1..] == a[1..] + b;
      CountAppend(a[1..], b, c);
    }
  }

  lemma {:induction false} CountNone(s: string, c: char)
    ensures Count(s, c) == 0 <==> c !in s
  {
    if s != [] {
      assert s == [s[0]] + s[1..];
      CountNone(s[1..], c);
    }
  }

  lemma {:induction false} SplitWhole(s: string, sep: char)
    requires sep !in s
    ensures Split(s, sep) == [s]
  {
    if s != [] {
      SplitWhole(s[1..], sep);
      assert [s[0]] + s[1..] == s;
    }
  }

  lemma {:induction false} SplitTwo(a: string, b: string, sep: char)
    requires sep !in a && sep !in b
    ensures Split(a + [sep] + b, sep) == [a, b]
  {
    var s := a + [sep] + b;
    if a == [] {
      assert s == [sep] + b && s[1..] == b;
      SplitWhole(b, sep);
    } else {
      assert s[1..] == a[1..] + [sep] + b;
      SplitTwo(a[1..], b, sep);
      assert [a[0]] + a[1..] == a;
    }
  }

  /** A key is read back exactly when the topic has no colon. */
  lemma KeyRoundTrip(topic: string, id: int)
    requires -TWO63 <= id < TWO63
    ensures ParseKey(Key(topic, id)) == (if ':' in topic then None else Some((topic, id)))
  {
    hide Atoi, Itoa, Split, Count;
    AtoiItoa(id);
    var text := Itoa(id);
    assert Key(topic, id) == topic + [':'] + text;
    if ':' in topic {
      CountAppend(topic + [':'], text, ':');
      CountAppend(topic, [':'], ':');
      CountNone(topic, ':');
      CountNone([':'], ':');
      SplitCount(Key(topic, id), ':');
    } else {
      SplitTwo(topic, text, ':');
    }
  }

  /** Different partitions have different keys, colons or not. */
  lemma KeyInjective(t: string, i: int, u: string, j: int)
    requires -TWO63 <= i < TWO63 && -TWO63 <= j < TWO63 && Key(t, i) == Key(u, j)
    ensures t == u && i == j
  {
    hide Atoi, Itoa;
    NoColon(i);
    NoColon(j);
    var k := Key(t, i);
    if |t| < |u| {
      ColonWithin(t, Itoa(i), u, Itoa(j));
    } else if |u| < |t| {
      ColonWithin(u, Itoa(j), t, Itoa(i));
    } else {
      assert t == k[..|t|] == u;
      assert Itoa(i) == k[|t| + 1..] == Itoa(j);
      AtoiItoa(i);
      AtoiItoa(j);
    }
  }

  lemma ColonWithin(t: string, a: string, u: string, b: string)
    requires t + ":" + a == u + ":" + b && |t| < |u|
    ensures ':' in a
  {
    assert (t + ":" + a)[|u|] == ':';
    assert a[|u| - |t| - 1] == ':';
  }
}
