/** Producer batches as values: sizes, the three append branches, the retry backoff. */
module Batch {
  import opened Basics
  import opened Varint
  import opened Messages

  type Topic = string

  const FIVE_MIB := 5242880
  const MAX_VALUE := 10 * 1024 * 1024

  /** The settings the pipeline uses. */
  datatype Config = Config(
    totalSizeLnBytes: int,
    maxSendWorkerCount: int,
    maxBatchSize: int,
    maxBatchCount: int,
    lingerMs: int,
    retries: int,
    maxReservedAttempts: int,
    baseRetryBackoffMs: int,
    maxRetryBackoffMs: int,
    source: bytes,
    hostName: bytes)

  /** What validateProducerConfig guarantees. */
  ghost predicate ValidConfig(c: Config) {
    && c.totalSizeLnBytes > 0 && c.maxSendWorkerCount > 0
    && 0 < c.maxBatchSize <= FIVE_MIB && 0 < c.maxBatchCount <= 40960
    && c.lingerMs >= 100 && c.maxReservedAttempts > 0
    && c.baseRetryBackoffMs > 0 && c.maxRetryBackoffMs > 0
  }

  datatype Attempt = Attempt(success: bool, code: int, timeStampMs: int)

  datatype Batch = Batch(
    topic: Topic,
    packageId: bytes,
    logs: seq<Log>,
    callbacks: seq<nat>,
    totalDataSize: int,
    accountedSize: int,
    createTimeMs: int,
    attemptCount: nat,
    nextRetryMs: int,
    attempts: seq<Attempt>,
    successful: bool)

  // ----- Accounting -----

  /** Key and value are dereferenced without a check, so they must be set. */
  predicate Filled(l: Log) {
    forall c <- l.contents :: c.key.Some? && c.value.Some?
  }

  predicate AllFilled(ls: seq<Log>) {
    forall l <- ls :: Filled(l)
  }

  /** One call of SendLog or SendLogList; `callback` names the object passed in, if any. */
  datatype AnyCall = Call(topic: Topic, logs: seq<Log>, callback: Option<nat>)

  type Call = call: AnyCall | AllFilled(call.logs) witness Call("", [], None)

  function ContentBytes(cs: seq<Pair>): nat
    requires forall c <- cs :: c.key.Some? && c.value.Some?
  {
    if cs == [] then 0 else |cs[0].value.value| + |cs[0].key.value| + ContentBytes(cs[1..])
  }

  function LogBytes(l: Log): nat
    requires Filled(l)
  {
    4 + ContentBytes(l.contents)
  }

  function ListBytes(ls: seq<Log>): nat
    requires AllFilled(ls)
  {
    if ls == [] then 0 else LogBytes(ls[0]) + ListBytes(ls[1..])
  }

  predicate SmallValues(l: Log)
    requires Filled(l)
  {
    forall c <- l.contents :: |c.value.value| <= MAX_VALUE
  }

  /** All keys and values of a log, one behind the other. */
  function Text(cs: seq<Pair>): bytes
    requires forall c <- cs :: c.key.Some? && c.value.Some?
  {
    if cs == [] then [] else cs[0].key.value + cs[0].value.value + Text(cs[1..])
  }

  lemma {:induction false} ContentBytesAre(cs: seq<Pair>)
    requires forall c <- cs :: c.key.Some? && c.value.Some?
    ensures ContentBytes(cs) == |Text(cs)|
  {
    if cs != [] {
      ContentBytesAre(cs[1..]);
    }
  }

  /**
    * GetLogSizeCalculate: four bytes and those of the keys and values; the first value above 10 MiB refuses the
    * log.
    */
  method GetLogSizeCalculate(l: Log) returns (r: Option<nat>)
    requires Filled(l)
    ensures r == if SmallValues(l) then Some(LogBytes(l)) else None
    ensures r == if forall c <- l.contents :: |c.value.value| <= 10485760 then Some(4 + |Text(l.contents)|) else None
  {
    hide Text;
    ContentBytesAre(l.contents);
    var sizeInBytes := 4;
    for i := 0 to |l.contents|
      invariant sizeInBytes + ContentBytes(l.contents[i..]) == LogBytes(l)
      invariant forall c <- l.contents[..i] :: |c.value.value| <= MAX_VALUE
    {
      var c := l.contents[i];
      if |c.value.value| > MAX_VALUE {
        return None;
      }
      sizeInBytes := sizeInBytes + |c.value.value|;
      sizeInBytes := sizeInBytes + |c.key.value|;
      assert l.contents[i..][1..] == l.contents[i + 1..];
      assert l.contents[..i + 1] == l.contents[..i] + [c];
    }
    assert l.contents[..|l.contents|] == l.contents;
    return Some(sizeInBytes);
  }

  method GetLogListSize(ls: seq<Log>) returns (r: Option<nat>)
    requires AllFilled(ls)
    ensures r == if forall l <- ls :: SmallValues(l) then Some(ListBytes(ls)) else None
  {
    var sizeInBytes := 0;
    for i := 0 to |ls|
      invariant sizeInBytes + ListBytes(ls[i..]) == ListBytes(ls)
      invariant forall l <- ls[..i] :: SmallValues(l)
    {
      var sz := GetLogSizeCalculate(ls[i]);
      if sz.None? {
        return None;
      }
      sizeInBytes := sizeInBytes + sz.value;
      assert ls[i..][1..] == ls[i + 1..];
      assert ls[..i + 1] == ls[..i] + [ls[i]];
    }
    assert ls[..|ls|] == ls;
    return Some(sizeInBytes);
  }

  lemma ListBytesOfOne(l: Log)
    requires Filled(l)
    ensures ListBytes([]) == 0 && ListBytes([l]) == 4 + |Text(l.contents)|
  {
    ContentBytesAre(l.contents);
  }

  lemma {:induction false} ListBytesAppend(a: seq<Log>, b: seq<Log>)
    requires AllFilled(a) && AllFilled(b)
    ensures AllFilled(a + b) && ListBytes(a + b) == ListBytes(a) + ListBytes(b)
  {
    if a == [] {
      assert a + b == b;
    } else {
      assert (a + b)[1..] == a[1..] + b;
      ListBytesAppend(a[1..], b);
    }
  }

  // ----- The accounted size never exceeds the encoded size -----

  /** The log has contents, or a time, or at least two unknown bytes. NewCLSLog always sets the time. */
  predicate Covered(l: Log) {
    l.contents != [] || l.time.Some? || l.collectTime.Some? || |l.unknown| >= 2
  }

  predicate AllCovered(ls: seq<Log>) {
    forall l <- ls :: Covered(l)
  }

  lemma SovPositive(x: nat)
    ensures Sov(x) >= 1
  {
    SovIsExact(x);
  }

  /** Every content takes at least six bytes more than its key and value. */
  lemma {:induction false} ContentsWithinSize(cs: seq<Pair>)
    requires forall c <- cs :: c.key.Some? && c.value.Some?
    ensures ContentBytes(cs) + 6 * |cs| <= PairsSize(cs)
  {
    hide Sov;
    if cs != [] {
      ContentsWithinSize(cs[1..]);
      SovPositive(|cs[0].key.value|);
      SovPositive(|cs[0].value.value|);
      SovPositive(PairSize(cs[0]));
    }
  }

  /** The bytes accounted for a log are at most those its field takes exactly if the log is covered. */
  lemma LogWithinSize(l: Log)
    requires Filled(l)
    ensures LogBytes(l) <= Delimited(LogSize(l)) <==> Covered(l)
  {
    hide Sov, PairsSize, ContentBytes;
    ContentsWithinSize(l.contents);
    SovPositive(LogSize(l));
    if l.time.Some? {
      SovPositive(U64(l.time.value));
    }
    if l.collectTime.Some? {
      SovPositive(U64(l.collectTime.value));
    }
    if l.contents == [] {
      NoContents();
    }
    if LogSize(l) < 2 {
      SmallSov(LogSize(l));
    }
  }

  lemma NoContents()
    ensures PairsSize([]) == 0 && ContentBytes([]) == 0
  {
  }

  lemma {:induction false} LogsWithinSize(ls: seq<Log>)
    requires AllFilled(ls) && AllCovered(ls)
    ensures ListBytes(ls) <= LogsSize(ls)
  {
    hide Delimited, LogSize, LogBytes, Covered;
    if ls != [] {
      LogsWithinSize(ls[1..]);
      assert Filled(ls[0]) && Covered(ls[0]);
      LogWithinSize(ls[0]);
    }
  }

  /** The log group a new batch starts with. */
  function NewGroup(c: Config, logs: seq<Log>, packageId: bytes): LogGroup {
    LogGroup(logs, Some(packageId), None, Some(c.source), [], Some(c.hostName), [])
  }

  /** When every log is covered, what is accounted for is at most what would be sent. */
  lemma AccountedWithinSize(c: Config, logs: seq<Log>, packageId: bytes)
    requires AllFilled(logs) && AllCovered(logs)
    ensures ListBytes(logs) <= GroupSize(NewGroup(c, logs, packageId))
  {
    hide Sov;
    LogsWithinSize(logs);
  }

  function Copies(l: Log, n: nat): seq<Log> {
    if n == 0 then [] else [l] + Copies(l, n - 1)
  }

  lemma {:induction false} CopiesOfLog(l: Log, n: nat)
    requires Filled(l)
    ensures AllFilled(Copies(l, n)) && |Copies(l, n)| == n && (forall x <- Copies(l, n) :: x == l)
    ensures ListBytes(Copies(l, n)) == n * LogBytes(l) && LogsSize(Copies(l, n)) == n * Delimited(LogSize(l))
  {
    hide Delimited, LogSize, LogBytes;
    if n > 0 {
      CopiesOfLog(l, n - 1);
      assert Copies(l, n)[1..] == Copies(l, n - 1);
      assert n * LogBytes(l) == LogBytes(l) + (n - 1) * LogBytes(l);
      assert n * Delimited(LogSize(l)) == Delimited(LogSize(l)) + (n - 1) * Delimited(LogSize(l));
    }
  }

  lemma GroupOverhead(c: Config, logs: seq<Log>, packageId: bytes)
    ensures GroupSize(NewGroup(c, logs, packageId)) == LogsSize(logs) + GroupSize(NewGroup(c, [], packageId))
  {
    hide Sov;
  }

  /** Empty logs without a time exceed the group's size once twice their number exceeds its overhead. */
  lemma UntimedExceedsSize(c: Config, n: nat, packageId: bytes)
    ensures AllFilled(Copies(NoLog, n))
    ensures ListBytes(Copies(NoLog, n)) <= GroupSize(NewGroup(c, Copies(NoLog, n), packageId)) <==>
            2 * n <= GroupSize(NewGroup(c, [], packageId))
  {
    hide Copies, GroupSize, ListBytes, LogsSize;
    CopiesOfLog(NoLog, n);
    GroupOverhead(c, Copies(NoLog, n), packageId);
    SmallSov(0);
  }

  /** Every log that is not covered makes a group exceed its size if it is sent often enough. */
  lemma UncoveredExceeds(c: Config, l: Log, n: nat, packageId: bytes)
    requires Filled(l) && !Covered(l) && n > GroupSize(NewGroup(c, [], packageId))
    ensures AllFilled(Copies(l, n)) && ListBytes(Copies(l, n)) > GroupSize(NewGroup(c, Copies(l, n), packageId))
  {
    hide Copies, GroupSize, ListBytes, LogsSize, LogBytes, Delimited, LogSize, Covered;
    CopiesOfLog(l, n);
    GroupOverhead(c, Copies(l, n), packageId);
    LogWithinSize(l);
    ScaleUp(n, LogBytes(l), Delimited(LogSize(l)));
  }

  lemma {:induction false} ScaleUp(n: nat, a: nat, b: nat)
    requires a > b
    ensures n * a >= n * b + n
  {
    if n > 0 {
      ScaleUp(n - 1, a, b);
      assert n * a == (n - 1) * a + a && n * b == (n - 1) * b + b;
    }
  }

  /** Exactly the covered logs can be sent in any number without being accounted for more than their group takes. */
  lemma CoveredExactly(c: Config, l: Log, packageId: bytes)
    requires Filled(l)
    ensures forall n: nat :: AllFilled(Copies(l, n))
    ensures Covered(l) <==>
            forall n: nat :: ListBytes(Copies(l, n)) <= GroupSize(NewGroup(c, Copies(l, n), packageId))
  {
    hide Copies, GroupSize, ListBytes, Covered, NewGroup;
    forall n: nat
      ensures AllFilled(Copies(l, n))
      ensures Covered(l) ==> ListBytes(Copies(l, n)) <= GroupSize(NewGroup(c, Copies(l, n), packageId))
    {
      CopiesOfLog(l, n);
      if Covered(l) {
        AccountedWithinSize(c, Copies(l, n), packageId);
      }
    }
    if !Covered(l) {
      UncoveredExceeds(c, l, GroupSize(NewGroup(c, [], packageId)) + 1, packageId);
    }
  }

  // ----- Batches -----

  function Callbacks(o: Option<nat>): seq<nat> {
    if o.Some? then [o.value] else []
  }

  function NewBatch(c: Config, call: Call, now: int, packageId: bytes): Batch {
    Batch(call.topic, packageId, call.logs, Callbacks(call.callback),
          GroupSize(NewGroup(c, call.logs, packageId)), ListBytes(call.logs), now, 0, 0, [], false)
  }

  datatype Branch = AppendAndFlush | AppendOnly | FlushAndNew

  /** The three branches of addOrSendProducerBatch; `total` includes the new call's size. */
  function BranchOf(c: Config, total: int, count: nat): Branch {
    if total > c.maxBatchSize && total < FIVE_MIB && count <= c.maxBatchCount then AppendAndFlush
    else if total <= c.maxBatchSize && count <= c.maxBatchCount then AppendOnly
    else FlushAndNew
  }

  /** The size of the call is added to the total before the branch is chosen. */
  function Charged(b: Batch, size: nat): Batch {
    b.(totalDataSize := b.totalDataSize + size)
  }

  function Grown(b: Batch, call: Call): Batch {
    var charged := Charged(b, ListBytes(call.logs));
    charged.(logs := b.logs + call.logs,
             accountedSize := b.accountedSize + ListBytes(call.logs),
             callbacks := b.callbacks + Callbacks(call.callback))
  }

  // ----- Sending: attempts and backoff -----

  function Succeeded(c: Config, b: Batch, now: int): Batch {
    b.(attempts := if b.attemptCount < c.maxReservedAttempts then b.attempts + [Attempt(true, 0, now)] else b.attempts,
       successful := true)
  }

  /** addErrorMessageToBatchAttempt */
  function Failed(c: Config, b: Batch, code: int, now: int): Batch {
    b.(attempts := if b.attemptCount < c.maxReservedAttempts then b.attempts + [Attempt(false, code, now)] else b.attempts,
       successful := false,
       attemptCount := b.attemptCount + 1)
  }

  function TwoTo(k: nat): nat {
    if k == 0 then 1 else 2 * TwoTo(k - 1)
  }

  /**
    * retryWaitTime after `k` recorded attempts, capped: `base * int64(math.Pow(2, k - 1))` in 64-bit
    * arithmetic. A power that does not fit int64 converts to some value `garbage` of the platform.
    */
  function RetryDelay(base: int, k: nat, cap: int, garbage: int64): int
    requires k >= 1
  {
    var power := if k <= 63 then TwoTo(k - 1) else garbage;
    var wait := I64(base * power);
    if wait < cap then wait else cap
  }

  /** Doubling from `base` up to `cap`, without any overflow. */
  function IdealDelay(base: int, k: nat, cap: int): int
    requires k >= 1
  {
    var wait := base * TwoTo(k - 1);
    if wait < cap then wait else cap
  }

  lemma {:induction false} TwoToMonotone(a: nat, b: nat)
    requires a <= b
    ensures 1 <= TwoTo(a) <= TwoTo(b)
    decreases b
  {
    if a < b {
      TwoToMonotone(a, b - 1);
    } else if a > 0 {
      TwoToMonotone(a - 1, b - 1);
    }
  }

  lemma TwoTo63()
    ensures TwoTo(63) == TWO63
  {
    TwoToAdd(32, 31);
    TwoToAdd(16, 16);
    TwoToAdd(16, 15);
    SmallPowers();
  }

  lemma SmallPowers()
    ensures TwoTo(8) == 0x100 && TwoTo(9) == 0x200 && TwoTo(15) == 0x8000 && TwoTo(16) == 0x1_0000
  {
    TwoToAdd(8, 7);
    TwoToAdd(8, 8);
    assert TwoTo(7) == 128;
  }

  lemma {:induction false} TwoToAdd(a: nat, b: nat)
    ensures TwoTo(a + b) == TwoTo(a) * TwoTo(b)
  {
    if a > 0 {
      TwoToAdd(a - 1, b);
      Doubled(TwoTo(a - 1), TwoTo(b));
    }
  }

  lemma Doubled(x: nat, y: nat)
    ensures 2 * (x * y) == (2 * x) * y
  {
  }

  /**
    * The delay is the ideal one exactly when the product has not wrapped, or has wrapped to a value
    * that the cap hides.
    */
  lemma DelayIsIdeal(base: int, k: nat, cap: int, garbage: int64)
    requires 0 < base < TWO63 && 0 < cap < TWO63 && 1 <= k <= 63
    ensures RetryDelay(base, k, cap, garbage) == IdealDelay(base, k, cap) <==>
            base * TwoTo(k - 1) < TWO63 || I64(base * TwoTo(k - 1)) >= cap
  {
  }

  /** Before the last retry the delays double up to the cap, if the largest product fits int64. */
  lemma DelaysNeverDecrease(base: int, retries: nat, cap: int, garbage: int64, j: nat, k: nat)
    requires 0 < base && 0 < cap < TWO63 && 1 <= j <= k <= retries
    requires base * TwoTo(retries - 1) < TWO63
    ensures RetryDelay(base, j, cap, garbage) == IdealDelay(base, j, cap)
    ensures RetryDelay(base, j, cap, garbage) <= RetryDelay(base, k, cap, garbage)
  {
    PowerFits(base, retries);
    TwoToMonotone(j - 1, k - 1);
    TwoToMonotone(k - 1, retries - 1);
    MulMonotone(base, TwoTo(j - 1), TwoTo(k - 1));
    MulMonotone(base, TwoTo(k - 1), TwoTo(retries - 1));
    NotWrapped(base * TwoTo(j - 1));
    NotWrapped(base * TwoTo(k - 1));
  }

  lemma NotWrapped(v: nat)
    requires v < TWO63
    ensures I64(v) == v
  {
  }

  lemma MulMonotone(base: int, a: nat, b: nat)
    requires 0 < base && a <= b
    ensures 0 <= base * a <= base * b && a <= base * a
  {
  }

  lemma PowerFits(base: int, retries: nat)
    requires 0 < base && retries >= 1 && base * TwoTo(retries - 1) < TWO63
    ensures retries <= 63
  {
    if retries > 63 {
      TwoTo63();
      TwoToMonotone(63, retries - 1);
      MulMonotone(base, TwoTo(63), TwoTo(retries - 1));
      assert false;
    }
  }

  /** The first delay whose product does not fit int64; the one before still fits. */
  lemma {:induction false} FirstWrap(base: int, retries: nat) returns (k: nat)
    requires 2 <= base < TWO63 && retries >= 1 && base * TwoTo(retries - 1) >= TWO63
    ensures 2 <= k <= retries && k <= 63 && base * TwoTo(k - 2) < TWO63 <= base * TwoTo(k - 1)
  {
    if retries >= 2 && base * TwoTo(retries - 2) >= TWO63 {
      k := FirstWrap(base, retries - 1);
    } else {
      k := retries;
      HalfFits(base, k);
    }
  }

  lemma HalfFits(base: int, k: nat)
    requires 2 <= base && k >= 2 && base * TwoTo(k - 2) < TWO63
    ensures k <= 63
  {
    if k > 63 {
      TwoToMonotone(62, k - 2);
      TwoTo63();
      MulMonotone(base, TwoTo(62), TwoTo(k - 2));
      MulMonotone(TwoTo(62), 2, base);
      assert false;
    }
  }

  /** At the first wrap the delay is negative, after a positive one. */
  lemma WrapDecreases(base: int, k: nat, cap: int, garbage: int64)
    requires 2 <= base && 0 < cap < TWO63 && 2 <= k <= 63
    requires base * TwoTo(k - 2) < TWO63 <= base * TwoTo(k - 1)
    ensures RetryDelay(base, k, cap, garbage) < 0 < RetryDelay(base, k - 1, cap, garbage)
    ensures RetryDelay(base, k, cap, garbage) != IdealDelay(base, k, cap)
  {
    var half := base * TwoTo(k - 2);
    assert base * TwoTo(k - 1) == 2 * half by {
      assert TwoTo(k - 1) == 2 * TwoTo(k - 2);
    }
    TwoToMonotone(0, k - 2);
    MulMonotone(base, 1, TwoTo(k - 2));
    hide TwoTo;
    NotWrapped(half);
    WrappedOnce(2 * half);
  }

  lemma WrappedOnce(v: int)
    requires TWO63 <= v < TWO64
    ensures I64(v) == v - TWO64
  {
  }

  /**
    * The settings for which the backoff is the documented one. For a base of at least two milliseconds, the
    * delays up to the last retry never decrease, and each is the ideal one, exactly if the largest product
    * fits int64.
    */
  lemma DelaysExactly(base: int, retries: nat, cap: int, garbage: int64)
    requires 2 <= base < TWO63 && 0 < cap < TWO63 && retries >= 1
    ensures base * TwoTo(retries - 1) < TWO63 <==>
            forall j, k | 1 <= j <= k <= retries :: RetryDelay(base, j, cap, garbage) <= RetryDelay(base, k, cap, garbage)
    ensures base * TwoTo(retries - 1) < TWO63 <==>
            forall k | 1 <= k <= retries :: RetryDelay(base, k, cap, garbage) == IdealDelay(base, k, cap)
  {
    hide RetryDelay, IdealDelay, TwoTo;
    if base * TwoTo(retries - 1) < TWO63 {
      forall j, k | 1 <= j <= k <= retries
        ensures RetryDelay(base, j, cap, garbage) <= RetryDelay(base, k, cap, garbage)
        ensures RetryDelay(base, j, cap, garbage) == IdealDelay(base, j, cap)
      {
        DelaysNeverDecrease(base, retries, cap, garbage, j, k);
      }
    } else {
      var k := FirstWrap(base, retries);
      WrapDecreases(base, k, cap, garbage);
    }
  }

  /** For a base of one the same holds up to 63 retries; beyond, it is up to the platform's conversion. */
  lemma DelaysOfOne(retries: nat, cap: int, garbage: int64)
    requires 0 < cap < TWO63 && retries >= 1
    ensures retries <= 63 || garbage >= cap || garbage >= TwoTo(62) <==>
            forall j, k | 1 <= j <= k <= retries :: RetryDelay(1, j, cap, garbage) <= RetryDelay(1, k, cap, garbage)
  {
    hide RetryDelay, TwoTo;
    var first := if retries <= 63 then retries else 63;
    TwoTo63();
    TwoToMonotone(first - 1, 62);
    OneDelay62(cap, garbage);
    forall j, k | 1 <= j <= k <= retries && (k <= 63 || garbage >= cap || garbage >= TwoTo(62))
      ensures RetryDelay(1, j, cap, garbage) <= RetryDelay(1, k, cap, garbage)
    {
      if k <= 63 {
        DelaysNeverDecrease(1, first, cap, garbage, j, k);
      } else {
        OneDelayBeyond(k, cap, garbage);
        if j <= 63 {
          DelaysNeverDecrease(1, 63, cap, garbage, j, 63);
        } else {
          OneDelayBeyond(j, cap, garbage);
        }
      }
    }
    if retries > 63 {
      OneDelayBeyond(64, cap, garbage);
    }
  }

  lemma OneDelay62(cap: int, garbage: int64)
    requires 0 < cap < TWO63
    ensures TwoTo(62) < TWO63 && RetryDelay(1, 63, cap, garbage) == (if TwoTo(62) < cap then TwoTo(62) else cap)
  {
    TwoTo63();
    NotWrapped(TwoTo(62));
    hide TwoTo;
  }

  lemma OneDelayBeyond(k: nat, cap: int, garbage: int64)
    requires k > 63
    ensures RetryDelay(1, k, cap, garbage) == if garbage < cap then garbage else cap
  {
    hide TwoTo;
  }

  /** With the default base of 100 ms the 58th delay has wrapped to a negative one. */
  lemma BackoffWraps(garbage: int64)
    ensures RetryDelay(100, 58, 50000, garbage) < 0
  {
    TwoToAdd(32, 25);
    TwoToAdd(16, 16);
    TwoToAdd(16, 9);
    SmallPowers();
    assert TwoTo(57) == 144115188075855872;
  }
}
