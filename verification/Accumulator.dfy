/** The accumulator, the thread pool and the timer's passes as objects, against their meaning on values. */
module Accumulator {
  import opened Basics
  import opened Batch
  import opened Pipeline
  import opened Ownership
  import opened ProducerBatches

  // ----- On values -----

  /** What the accumulator and the thread pool hold. */
  datatype Held = Held(pending: map<Topic, Batch>, queue: seq<Batch>)

  function Flushed(h: Held, t: Topic): Held
    requires t in h.pending
  {
    Held(h.pending - {t}, h.queue + [h.pending[t]])
  }

  function Renewed(h: Held, t: Topic, b: Batch): Held {
    h.(pending := h.pending[t := b])
  }

  function Appended(c: Config, h: Held, call: Call, now: int, pkg: bytes): Held {
    var created := NewBatch(c, call, now, pkg);
    if call.topic !in h.pending then Renewed(h, call.topic, created)
    else
      var b := h.pending[call.topic];
      var size := ListBytes(call.logs);
      match BranchOf(c, b.totalDataSize + size, |b.logs| + 1)
      case AppendAndFlush => Flushed(Renewed(h, call.topic, Grown(b, call)), call.topic)
      case AppendOnly => Renewed(h, call.topic, Grown(b, call))
      case FlushAndNew => Renewed(Flushed(Renewed(h, call.topic, Charged(b, size)), call.topic), call.topic, created)
  }

  /**
    * Whether a call joins the pending batch of its topic, and whether the batch stays, for any sizes: it joins while
    * the count allows and the total is within the limit of a batch or at least below 5 MiB, and the batch stays
    * only within the limit. A call that does not join starts a new batch, and the old one goes out.
    */
  lemma AppendExactly(c: Config, h: Held, call: Call, now: int, pkg: bytes)
    ensures var h', t := Appended(c, h, call, now, pkg), call.topic;
            var created := NewBatch(c, call, now, pkg);
            if t !in h.pending then h' == Held(h.pending[t := created], h.queue)
            else
              var b := h.pending[t];
              var total, count := b.totalDataSize + ListBytes(call.logs), |b.logs| + 1;
              var joined := b.(logs := b.logs + call.logs, totalDataSize := total,
                               accountedSize := b.accountedSize + ListBytes(call.logs),
                               callbacks := b.callbacks + (if call.callback.Some? then [call.callback.value] else []));
              if count <= c.maxBatchCount && total <= c.maxBatchSize then h' == Held(h.pending[t := joined], h.queue)
              else if count <= c.maxBatchCount && total < 5242880 then h' == Held(h.pending - {t}, h.queue + [joined])
              else h' == Held(h.pending[t := created], h.queue + [b.(totalDataSize := total)])
  {
    hide NewBatch, ListBytes, AllFilled;
    var t := call.topic;
    if t in h.pending {
      Replaced(h.pending, t, Grown(h.pending[t], call), NewBatch(c, call, now, pkg));
      Replaced(h.pending, t, Charged(h.pending[t], ListBytes(call.logs)), NewBatch(c, call, now, pkg));
    }
  }

  lemma Replaced(m: map<Topic, Batch>, t: Topic, a: Batch, b: Batch)
    ensures m[t := a] - {t} == m - {t} && (m[t := a] - {t})[t := b] == m[t := b]
  {
  }

  // ----- The same in the step system -----

  function PendingView(s: State): map<Topic, Batch> {
    map t | t in s.pending && Known(s, s.pending[t]) :: s.store[s.pending[t]].b
  }

  ghost predicate QueueKnown(s: State) {
    forall i | 0 <= i < |s.queue| :: Known(s, s.queue[i]) && s.queue[i] !in s.pending.Values
  }

  function QueueView(store: seq<Entry>, queue: seq<nat>): seq<Batch>
    requires forall i | 0 <= i < |queue| :: queue[i] < |store|
  {
    seq(|queue|, i requires 0 <= i < |queue| => store[queue[i]].b)
  }

  ghost predicate Viewed(s: State, h: Held) {
    QueueKnown(s) && h == Held(PendingView(s), QueueView(s.store, s.queue))
  }

  lemma {:induction false} InSeqAt(q: seq<nat>, i: nat)
    requires i < |q|
    ensures InSeq(q, q[i]) > 0
  {
    if i > 0 {
      InSeqAt(q[1..], i - 1);
    }
  }

  /** In every owned state the view is defined: what is queued exists and is not pending. */
  lemma OwnedIsViewed(s: State)
    requires Owned(s)
    ensures QueueKnown(s) && Viewed(s, Held(PendingView(s), QueueView(s.store, s.queue)))
  {
    forall i | 0 <= i < |s.queue|
      ensures Known(s, s.queue[i]) && s.queue[i] !in s.pending.Values
    {
      InSeqAt(s.queue, i);
      assert Places(s, s.queue[i]) == Live(s.store, s.queue[i]);
    }
  }

  lemma ViewPut(s: State, t: Topic, e: Entry, h: Held)
    requires PendingOk(s) && Viewed(s, h) && t in s.pending && Known(s, s.pending[t]) && e.b.topic == t
    ensures Viewed(Put(s, s.pending[t], e), Renewed(h, t, e.b))
  {
    var s' := Put(s, s.pending[t], e);
    assert s.pending[t] in s.pending.Values;
    assert forall i | 0 <= i < |s.queue| :: s.queue[i] in s.queue;
    forall u | u in s.pending && u != t
      ensures s'.store[s'.pending[u]] == s.store[s.pending[u]]
    {
      assert s.store[s.pending[u]].b.topic == u && s.store[s.pending[t]].b.topic == t;
    }
    assert PendingView(s') == Renewed(h, t, e.b).pending;
    assert QueueView(s'.store, s'.queue) == h.queue;
  }

  lemma ViewHandOver(s: State, t: Topic, h: Held)
    requires PendingOk(s) && Viewed(s, h) && t in s.pending
    ensures Viewed(HandOver(s, t), Flushed(h, t))
  {
    var s' := HandOver(s, t);
    forall x | x in s'.pending.Values
      ensures x in s.pending.Values && x != s.pending[t]
    {
      var u :| u in s'.pending && s'.pending[u] == x;
      assert u in s.pending && s.store[s.pending[u]].b.topic == u;
    }
    assert PendingView(s') == Flushed(h, t).pending;
    assert QueueView(s'.store, s'.queue) == Flushed(h, t).queue;
  }

  lemma ViewNew(c: Config, s: State, call: Call, now: int, pkg: bytes, h: Held)
    requires PendingOk(s) && Viewed(s, h) && call.topic !in s.pending
    ensures Viewed(NewPending(c, s, call, now, pkg), Renewed(h, call.topic, NewBatch(c, call, now, pkg)))
  {
    var s' := NewPending(c, s, call, now, pkg);
    var b := NewBatch(c, call, now, pkg);
    assert NewEntry(c, call, now, pkg).b == b;
    hide NewEntry, NewBatch;
    forall x | x in s'.pending.Values
      ensures x in s.pending.Values || x == |s.store|
    {
      var u :| u in s'.pending && s'.pending[u] == x;
      assert u == call.topic || (u in s.pending && s.pending[u] == x);
    }
    assert PendingView(s') == Renewed(h, call.topic, b).pending;
    assert QueueView(s'.store, s'.queue) == h.queue;
  }

  /** The append of the step system is the append of the accumulator's code. */
  lemma PlaceIsAppended(c: Config, s: State, call: Call, now: int, pkg: bytes, h: Held)
    requires Owned(s) && Viewed(s, h) && (call.topic in s.pending ==> Known(s, s.pending[call.topic]))
    ensures Viewed(Place(c, s, call, now, pkg), Appended(c, h, call, now, pkg))
  {
    hide Owned, Viewed, NewBatch, BranchOf, NewPending, HandOver, Put;
    var t := call.topic;
    PendingPart(s);
    ViewHas(s, h, t);
    if t !in s.pending {
      ViewNew(c, s, call, now, pkg, h);
    } else {
      PendingKnown(s, t);
      var id := s.pending[t];
      var e := s.store[id];
      var size := ListBytes(call.logs);
      var grown, charged := GrownEntry(e, call), e.(b := Charged(e.b, size));
      PutOwned(s, id, grown);
      PutOwned(s, id, charged);
      ViewPut(s, t, grown, h);
      ViewPut(s, t, charged, h);
      PendingPut(s, id, grown);
      PendingPut(s, id, charged);
      match BranchOf(c, e.b.totalDataSize + size, |e.b.logs| + 1)
      case AppendAndFlush =>
        PendingPart(Put(s, id, grown));
        ViewHandOver(Put(s, id, grown), t, Renewed(h, t, grown.b));
      case AppendOnly =>
      case FlushAndNew =>
        var s1 := Put(s, id, charged);
        PendingPart(s1);
        ViewHandOver(s1, t, Renewed(h, t, charged.b));
        HandOverOwned(s1, t);
        PendingPart(HandOver(s1, t));
        PendingGone(s1, t);
        ViewNew(c, HandOver(s1, t), call, now, pkg, Flushed(Renewed(h, t, charged.b), t));
    }
  }

  lemma PendingPart(s: State)
    requires Owned(s)
    ensures PendingOk(s)
  {
  }

  lemma PendingPut(s: State, id: nat, e: Entry)
    requires Known(s, id)
    ensures Put(s, id, e).pending == s.pending
  {
  }

  lemma PendingGone(s: State, t: Topic)
    requires t in s.pending
    ensures t !in HandOver(s, t).pending
  {
  }

  lemma ViewHas(s: State, h: Held, t: Topic)
    requires PendingOk(s) && Viewed(s, h)
    ensures t in h.pending <==> t in s.pending
    ensures t in s.pending ==> Known(s, s.pending[t]) && h.pending[t] == s.store[s.pending[t]].b
  {
  }

  // ----- The objects -----

  class SendThreadPool {
    var queue: seq<ProducerBatch>

    constructor ()
      ensures queue == []
    {
      queue := [];
    }

    method AddTask(b: ProducerBatch)
      modifies this
      ensures queue == old(queue) + [b]
    {
      queue := queue + [b];
    }

    method PopTask() returns (r: Option<ProducerBatch>)
      modifies this
      ensures if old(queue) == [] then r == None && queue == [] else r == Some(old(queue)[0]) && queue == old(queue)[1..]
    {
      if |queue| <= 0 {
        return None;
      }
      r := Some(queue[0]);
      queue := queue[1..];
    }

    method HasTask() returns (r: bool)
      ensures r == (queue != [])
    {
      r := |queue| > 0;
    }
  }

  /** The part of the client the accumulator and the workers share. */
  class AsyncProducerClient {
    var producerLogGroupSize: int

    constructor ()
      ensures producerLogGroupSize == 0
    {
      producerLogGroupSize := 0;
    }
  }

  ghost function Values(q: seq<ProducerBatch>): seq<Batch>
    reads q
  {
    seq(|q|, i requires 0 <= i < |q| reads q => q[i].Value())
  }

  class LogAccumulator {
    const config: Config
    const threadPool: SendThreadPool
    const producer: AsyncProducerClient
    var logTopicData: map<Topic, ProducerBatch>
    var shutDownFlag: bool

    constructor (c: Config, pool: SendThreadPool, client: AsyncProducerClient)
      ensures config == c && threadPool == pool && producer == client
      ensures Valid() && logTopicData == map[] && !shutDownFlag
    {
      config, threadPool, producer := c, pool, client;
      logTopicData := map[];
      shutDownFlag := false;
    }

    /** Each topic has its own batch, and a batch that was handed over is not appended to any more. */
    ghost predicate Valid()
      reads this, threadPool
    {
      forall t <- logTopicData :: logTopicData[t].topicID == t && logTopicData[t] !in threadPool.queue
    }

    ghost function Pending(): map<Topic, Batch>
      reads this, logTopicData.Values
    {
      map t | t in logTopicData :: logTopicData[t].Value()
    }

    ghost function Contents(): Held
      reads this, threadPool, logTopicData.Values, threadPool.queue
    {
      Held(Pending(), Values(threadPool.queue))
    }

    ghost function Created(): map<Topic, int>
      reads this
    {
      map t | t in logTopicData :: logTopicData[t].createTimeMs
    }

    method CreateNewProducerBatch(call: Call, now: int, pkg: bytes)
      requires Valid() && Admissible(call)
      modifies this`logTopicData
      ensures Valid() && Contents() == Renewed(old(Contents()), call.topic, NewBatch(config, call, now, pkg))
    {
      hide NewBatch, ListBytes, SmallValues;
      var b := new ProducerBatch(call.topic, config, call.callback, call.logs, pkg, now);
      ghost var h := Contents();
      logTopicData := logTopicData[call.topic := b];
      assert Pending() == Renewed(h, call.topic, NewBatch(config, call, now, pkg)).pending;
      assert Values(threadPool.queue) == h.queue;
    }

    method InnerSendToServer(t: Topic)
      requires Valid() && t in logTopicData
      modifies this`logTopicData, threadPool
      ensures Valid() && Contents() == Flushed(old(Contents()), t)
      ensures t !in logTopicData && (forall u | u in logTopicData :: u in old(logTopicData))
    {
      ghost var h := Contents();
      threadPool.AddTask(logTopicData[t]);
      logTopicData := logTopicData - {t};
      assert Pending() == Flushed(h, t).pending;
      assert Values(threadPool.queue) == Flushed(h, t).queue;
    }

    lemma Unfold()
      ensures Contents() == Held(Pending(), Values(threadPool.queue))
    {
    }

    lemma Reheld(h: Held, t: Topic, b: Batch)
      requires Pending() == h.pending[t := b] && Values(threadPool.queue) == h.queue
      ensures Contents() == Renewed(h, t, b)
    {
    }

    static method ExtendBatch(b: ProducerBatch, call: Call, size: nat)
      requires size == ListBytes(call.logs)
      modifies b
      ensures b.Value() == Extended(old(b.Value()), call)
    {
      b.AddLogToLogGroup(call.logs);
      b.accountedSize := b.accountedSize + size;
      if call.callback.Some? {
        b.AddProducerBatchCallBack(call.callback.value);
      }
    }

    /** Adds the call's logs and callback to the pending batch. */
    method AddToBatch(b: ProducerBatch, call: Call, size: nat)
      requires Valid() && call.topic in logTopicData && b == logTopicData[call.topic] && size == ListBytes(call.logs)
      modifies b
      ensures Valid() && b.Value() == Extended(old(b.Value()), call)
      ensures Contents() == Renewed(old(Contents()), call.topic, b.Value())
    {
      ghost var h := Contents();
      hide ListBytes, Contents, Renewed, Extended;
      assert h == Held(Pending(), Values(threadPool.queue)) by { Unfold(); }
      ExtendBatch(b, call, size);
      assert Pending() == h.pending[call.topic := b.Value()];
      assert Values(threadPool.queue) == h.queue;
      Reheld(h, call.topic, b.Value());
    }

    /** Its last branch: the old batch goes out, the call starts a new one. */
    method FlushAndCreate(call: Call, now: int, pkg: bytes)
      requires Valid() && Admissible(call) && call.topic in logTopicData
      modifies this`logTopicData, threadPool
      ensures Valid()
      ensures Contents() == Renewed(Flushed(old(Contents()), call.topic), call.topic, NewBatch(config, call, now, pkg))
    {
      hide NewBatch, Contents, Flushed, Renewed;
      InnerSendToServer(call.topic);
      CreateNewProducerBatch(call, now, pkg);
    }

    /** addOrSendProducerBatch; the size of the call is already in the batch's total. */
    method AddOrSendProducerBatch(b: ProducerBatch, call: Call, size: nat, now: int, pkg: bytes)
      requires Valid() && Admissible(call) && call.topic in logTopicData && b == logTopicData[call.topic]
      requires size == ListBytes(call.logs)
      modifies this`logTopicData, b, threadPool
      ensures Valid()
      ensures Contents() == OnceCharged(config, old(Contents()), call, now, pkg)
    {
      ghost var h := Contents();
      assert h.pending[call.topic] == b.Value();
      ghost var branch := BranchOf(config, b.totalDataSize, |b.logs| + 1);
      hide NewBatch, Contents, Flushed, Renewed, BranchOf, Extended;
      var totalDataCount := |b.logs| + 1;
      if b.totalDataSize > config.maxBatchSize && b.totalDataSize < 5242880 && totalDataCount <= config.maxBatchCount {
        assert branch.AppendAndFlush? by { Branches(config, b.totalDataSize, totalDataCount); }
        AddToBatch(b, call, size);
        InnerSendToServer(call.topic);
      } else if b.totalDataSize <= config.maxBatchSize && totalDataCount <= config.maxBatchCount {
        assert branch.AppendOnly? by { Branches(config, b.totalDataSize, totalDataCount); }
        AddToBatch(b, call, size);
      } else {
        assert branch.FlushAndNew? by { Branches(config, b.totalDataSize, totalDataCount); }
        FlushAndCreate(call, now, pkg);
      }
    }

    /** The size of a call is added to the total before the branch is chosen. */
    method ChargeBatch(b: ProducerBatch, t: Topic, size: nat)
      requires Valid() && t in logTopicData && b == logTopicData[t]
      modifies b
      ensures Valid() && Contents() == Renewed(old(Contents()), t, Charged(old(Pending()[t]), size))
    {
      ghost var h := Contents();
      b.totalDataSize := b.totalDataSize + size;
      assert Pending() == Renewed(h, t, b.Value()).pending;
      assert Values(threadPool.queue) == h.queue;
    }

    /** The end of tryReserveAndAppend, with the quota reserved. */
    method Append(call: Call, size: nat, now: int, pkg: bytes)
      requires Valid() && Admissible(call) && size == ListBytes(call.logs)
      modifies this`logTopicData, threadPool, if call.topic in logTopicData then {logTopicData[call.topic]} else {}
      ensures Valid() && Contents() == Appended(config, old(Contents()), call, now, pkg)
    {
      ghost var h := Contents();
      hide NewBatch, BranchOf, Charged, Grown, OnceCharged, Flushed;
      if call.topic in logTopicData {
        var b := logTopicData[call.topic];
        ChargeBatch(b, call.topic, size);
        AddOrSendProducerBatch(b, call, size, now, pkg);
        ChargedThenPlaced(config, h, call, now, pkg);
      } else {
        CreateNewProducerBatch(call, now, pkg);
      }
    }

    /**
      * tryReserveAndAppend, undisturbed: refused when shut down or over the quota, with nothing changed;
      * otherwise the quota is charged and the call is in.
      */
    method TryReserveAndAppend(call: Call, size: nat, now: int, pkg: bytes) returns (ok: bool, failed: bool)
      requires Valid() && Admissible(call) && size == ListBytes(call.logs)
      modifies this`logTopicData, producer, threadPool, if call.topic in logTopicData then {logTopicData[call.topic]} else {}
      ensures Valid()
      ensures failed == shutDownFlag
      ensures ok <==> !shutDownFlag && old(producer.producerLogGroupSize) + size <= config.totalSizeLnBytes
      ensures !ok ==> Contents() == old(Contents()) && producer.producerLogGroupSize == old(producer.producerLogGroupSize)
      ensures !ok ==> logTopicData == old(logTopicData)
      ensures ok ==> producer.producerLogGroupSize == old(producer.producerLogGroupSize) + size
      ensures ok ==> Contents() == Appended(config, old(Contents()), call, now, pkg)
    {
      if shutDownFlag {
        return false, true;
      }
      var cur := producer.producerLogGroupSize;
      if cur + size > config.totalSizeLnBytes {
        return false, false;
      }
      producer.producerLogGroupSize := producer.producerLogGroupSize + size;
      Append(call, size, now, pkg);
      return true, false;
    }

    /**
      * addLogToProducerBatch. While it sleeps before its try `i` + 1, the workers release `released(i)` bytes.
      * The unlimited mode is followed for `patience` tries.
      */
    method AddLogToProducerBatch(call: Call, maxBlockSec: int, now: int, pkg: bytes, released: nat -> nat,
                                 patience: nat)
      returns (r: Added)
      requires Valid()
      modifies this`logTopicData, producer, threadPool, if call.topic in logTopicData then {logTopicData[call.topic]} else {}
      ensures Valid()
      ensures r == AddResult(shutDownFlag, call, old(producer.producerLogGroupSize), config.totalSizeLnBytes,
                            Tries(maxBlockSec, patience), maxBlockSec < 0, released)
      ensures Contents() == if r.Accepted? then Appended(config, old(Contents()), call, now, pkg) else old(Contents())
      ensures r.Accepted? ==>
                producer.producerLogGroupSize ==
                QuotaAt(old(producer.producerLogGroupSize), released, r.at) + ListBytes(call.logs)
    {
      hide Appended, Contents, ListBytes, AllFilled, SmallValues, FirstFit, QuotaAt;
      if shutDownFlag {
        return Refused(ShutDown);
      }
      var sz := GetLogListSize(call.logs);
      if sz.None? {
        return Refused(ValueTooLarge);
      }
      var tries := if maxBlockSec == 0 then 1 else if maxBlockSec < 0 then patience else maxBlockSec;
      ghost var q := producer.producerLogGroupSize;
      ghost var h := Contents();
      ghost var data := logTopicData;
      var i := 0;
      NoTries(q, ListBytes(call.logs), config.totalSizeLnBytes, released);
      while i < tries
        invariant 0 <= i <= tries && Valid() && !shutDownFlag && logTopicData == data && Contents() == h
        invariant producer.producerLogGroupSize == QuotaAt(q, released, i)
        invariant FirstFit(q, ListBytes(call.logs), config.totalSizeLnBytes, released, i) == None
      {
        var ok, _ := TryReserveAndAppend(call, sz.value, now, pkg);
        if ok {
          FitsFirst(q, ListBytes(call.logs), config.totalSizeLnBytes, released, i, tries);
          return Accepted(i);
        }
        OneMoreTry(q, ListBytes(call.logs), config.totalSizeLnBytes, released, i);
        producer.producerLogGroupSize := producer.producerLogGroupSize - released(i);
        i := i + 1;
      }
      return if maxBlockSec < 0 then StillWaiting else Refused(OverMaxBlock);
    }
  }

  lemma Branches(c: Config, total: int, count: nat)
    ensures BranchOf(c, total, count).AppendAndFlush? <==>
            total > c.maxBatchSize && total < FIVE_MIB && count <= c.maxBatchCount
    ensures BranchOf(c, total, count).AppendOnly? <==> total <= c.maxBatchSize && count <= c.maxBatchCount
  {
  }

  // ----- Waiting for quota -----

  datatype Refusal = ShutDown | ValueTooLarge | OverMaxBlock

  datatype Added = Accepted(at: nat) | Refused(reason: Refusal) | StillWaiting

  function Tries(maxBlockSec: int, patience: nat): nat {
    if maxBlockSec == 0 then 1 else if maxBlockSec < 0 then patience else maxBlockSec
  }

  /** The counter at try `i`, when the workers released what they did before. */
  function QuotaAt(q: int, released: nat -> nat, i: nat): int {
    if i == 0 then q else QuotaAt(q, released, i - 1) - released(i - 1)
  }

  /** The first of `n` tries that finds room. */
  function FirstFit(q: int, size: nat, total: int, released: nat -> nat, n: nat): Option<nat> {
    if n == 0 then None
    else
      var earlier := FirstFit(q, size, total, released, n - 1);
      if earlier.Some? then earlier
      else if QuotaAt(q, released, n - 1) + size <= total then Some(n - 1)
      else None
  }

  lemma NoTries(q: int, size: nat, total: int, released: nat -> nat)
    ensures QuotaAt(q, released, 0) == q && FirstFit(q, size, total, released, 0) == None
  {
  }

  lemma OneMoreTry(q: int, size: nat, total: int, released: nat -> nat, i: nat)
    requires FirstFit(q, size, total, released, i) == None && QuotaAt(q, released, i) + size > total
    ensures FirstFit(q, size, total, released, i + 1) == None
    ensures QuotaAt(q, released, i + 1) == QuotaAt(q, released, i) - released(i)
  {
  }

  lemma {:induction false} FitsFirst(q: int, size: nat, total: int, released: nat -> nat, i: nat, n: nat)
    requires i < n && FirstFit(q, size, total, released, i) == None && QuotaAt(q, released, i) + size <= total
    ensures FirstFit(q, size, total, released, n) == Some(i)
    decreases n
  {
    if i < n - 1 {
      FitsFirst(q, size, total, released, i, n - 1);
    }
  }

  /** A call is accepted exactly when one of its tries finds room, and then at the first that does. */
  lemma {:induction false} FirstFitMeans(q: int, size: nat, total: int, released: nat -> nat, n: nat)
    ensures FirstFit(q, size, total, released, n).Some? <==>
            exists i :: 0 <= i < n && QuotaAt(q, released, i) + size <= total
    ensures var f := FirstFit(q, size, total, released, n);
            f.Some? ==>
              && f.value < n && QuotaAt(q, released, f.value) + size <= total
              && forall i | 0 <= i < f.value :: QuotaAt(q, released, i) + size > total
  {
    if n > 0 {
      FirstFitMeans(q, size, total, released, n - 1);
      var f := FirstFit(q, size, total, released, n);
      if f.Some? {
        assert QuotaAt(q, released, f.value) + size <= total;
      } else {
        forall i | 0 <= i < n
          ensures QuotaAt(q, released, i) + size > total
        {
        }
      }
    }
  }

  /** What addLogToProducerBatch returns. */
  function AddResult(shut: bool, call: Call, q: int, total: int, tries: nat, unlimited: bool, released: nat -> nat): Added {
    if shut then Refused(ShutDown)
    else if !Admissible(call) then Refused(ValueTooLarge)
    else
      match FirstFit(q, ListBytes(call.logs), total, released, tries)
      case Some(i) => Accepted(i)
      case None => if unlimited then StillWaiting else Refused(OverMaxBlock)
  }

  /**
    * The answer to a call, for every waiting time: shut down, a value above the limit, accepted at the first try
    * that finds room, or else refused, unless the caller is willing to wait for ever.
    */
  lemma AnswerMeans(shut: bool, call: Call, q: int, total: int, maxBlockSec: int, patience: nat, released: nat -> nat)
    ensures var tries := if maxBlockSec == 0 then 1 else if maxBlockSec > 0 then maxBlockSec else patience;
            var r := AddResult(shut, call, q, total, Tries(maxBlockSec, patience), maxBlockSec < 0, released);
            var room := total - ListBytes(call.logs);
            && (r == Refused(ShutDown) <==> shut)
            && (r == Refused(ValueTooLarge) <==> !shut && exists l <- call.logs :: !SmallValues(l))
            && (r.Accepted? ==> r.at < tries && QuotaAt(q, released, r.at) <= room &&
                                 forall i | 0 <= i < r.at :: QuotaAt(q, released, i) > room)
            && (r == StillWaiting ==> maxBlockSec < 0) && (r == Refused(OverMaxBlock) ==> maxBlockSec >= 0)
            && (r == StillWaiting || r == Refused(OverMaxBlock) ==>
                  forall i | 0 <= i < tries :: QuotaAt(q, released, i) > room)
  {
    hide ListBytes, SmallValues, QuotaAt, FirstFit;
    FirstFitMeans(q, ListBytes(call.logs), total, released, Tries(maxBlockSec, patience));
  }

  /** A batch with the logs and the callback of one more call. */
  function Extended(b: Batch, call: Call): Batch {
    b.(logs := b.logs + call.logs, accountedSize := b.accountedSize + ListBytes(call.logs),
       callbacks := b.callbacks + Callbacks(call.callback))
  }

  /** The branches, taken on a pending batch whose total includes the call already. */
  function OnceCharged(c: Config, h: Held, call: Call, now: int, pkg: bytes): Held
    requires call.topic in h.pending
  {
    var b := h.pending[call.topic];
    var grown := Extended(b, call);
    match BranchOf(c, b.totalDataSize, |b.logs| + 1)
    case AppendAndFlush => Flushed(Renewed(h, call.topic, grown), call.topic)
    case AppendOnly => Renewed(h, call.topic, grown)
    case FlushAndNew => Renewed(Flushed(h, call.topic), call.topic, NewBatch(c, call, now, pkg))
  }

  lemma ChargedThenPlaced(c: Config, h: Held, call: Call, now: int, pkg: bytes)
    requires call.topic in h.pending
    ensures OnceCharged(c, Renewed(h, call.topic, Charged(h.pending[call.topic], ListBytes(call.logs))), call, now, pkg)
            == Appended(c, h, call, now, pkg)
  {
    hide NewBatch;
    var t := call.topic;
    var b := h.pending[t];
    var grown := Grown(b, call);
    assert Renewed(Renewed(h, t, Charged(b, ListBytes(call.logs))), t, grown) == Renewed(h, t, grown);
  }
}
