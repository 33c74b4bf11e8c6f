/** The worker and the configuration as objects, against the step system. */
module Worker {
  import opened Basics
  import opened Batch
  import opened Pipeline
  import opened ProducerBatches
  import opened RetryQueue
  import opened Accumulator

  /** One undisturbed pass of a send goroutine over its batch, up to the push or the settling. */
  function SendPass(c: Config, e: Entry, id: nat, result: Option<int>, stop: bool, now: int, retryNow: int,
                    garbage: int64): (Entry, Work)
  {
    match result
    case None => Outcome(c, e, Sending(id), SendOk(now), stop)
    case Some(code) =>
      var failing := Outcome(c, e, Sending(id), SendError(code), stop).0;
      var (flagged, g) := Outcome(c, failing, SendFailed(id, code), LoadFlag(now), stop);
      if stop then (flagged, g) else Outcome(c, flagged, FlagClear(id, code), Decide(now, retryNow, garbage), stop)
  }

  /**
    * The pass ends by pushing the batch or by settling it, with success exactly when Send returned nil. Every
    * outcome is recorded but that of a batch whose retries are used up; nothing else of the batch changes.
    */
  lemma SendPassEnds(c: Config, e: Entry, id: nat, result: Option<int>, stop: bool, now: int, retryNow: int, garbage: int64)
    ensures var (e', g) := SendPass(c, e, id, result, stop, now, retryNow, garbage);
            var final := result.Some? && (result.value == 401 || result.value == 404 || result.value == 413);
            var recorded := result.None? || stop || final || e.b.attemptCount < c.retries;
            var reserved := recorded && e.b.attemptCount < c.maxReservedAttempts;
            && e'.sends == e.sends + 1
            && (g == Pushing(id) || g == Settling(id, result.None?))
            && (g.Pushing? <==> result.Some? && !stop && !final && e.b.attemptCount < c.retries)
            && e'.b == e.b.(attempts := e'.b.attempts, attemptCount := e'.b.attemptCount,
                            successful := e'.b.successful, nextRetryMs := e'.b.nextRetryMs)
            && e'.b.attemptCount == e.b.attemptCount + (if recorded && result.Some? then 1 else 0)
            && e'.b.attempts == e.b.attempts +
               (if reserved then [Attempt(result.None?, if result.None? then 0 else result.value, now)] else [])
            && e'.b.successful == (if recorded then result.None? else e.b.successful)
            && e'.b.nextRetryMs == if g.Pushing? then retryNow +
                 RetryDelay(c.baseRetryBackoffMs, e.b.attemptCount + 1, c.maxRetryBackoffMs, garbage) else e.b.nextRetryMs
  {
    hide RetryDelay;
  }

  /** The pass, branch by branch. */
  lemma SendPassCases(c: Config, e: Entry, id: nat, result: Option<int>, stop: bool, now: int, retryNow: int, garbage: int64)
    ensures var (e', g) := SendPass(c, e, id, result, stop, now, retryNow, garbage);
            match result
            case None => e'.b == Succeeded(c, e.b, now) && g == Settling(id, true)
            case Some(code) =>
              var failed := Failed(c, e.b, code, now);
              if stop || NoRetryCode(code) then e'.b == failed && g == Settling(id, false)
              else if e.b.attemptCount < c.retries then
                e'.b == failed.(nextRetryMs := retryNow +
                          RetryDelay(c.baseRetryBackoffMs, failed.attemptCount, c.maxRetryBackoffMs, garbage)) &&
                g == Pushing(id)
              else e'.b == e.b && g == Settling(id, false)
  {
    hide RetryDelay;
  }

  /** A call of Success or Fail on a callback. */
  datatype Called = Called(callback: nat, ok: bool)

  /** What a goroutine at `g` calls when it settles its batch, step by step. */
  function Fired(c: Config, e: Entry, g: Work): seq<Firing>
    requires g.Settling? || (g.Calling? && g.k <= |e.b.callbacks|)
    decreases if g.Settling? then |e.b.callbacks| + 1 else |e.b.callbacks| - g.k
  {
    if g.Settling? then
      var (e', g') := Outcome(c, e, g, Release, false);
      Fired(c, e', g')
    else if g.k < |e.b.callbacks| then
      var (e', g') := Outcome(c, e, g, CallNext, false);
      Calls(g, CallNext) + Fired(c, e', g')
    else []
  }

  /** Every callback from the `k`-th on is fired once, in order, with the outcome of the settling. */
  lemma {:induction false} CallingFires(c: Config, e: Entry, id: nat, ok: bool, k: nat)
    requires k <= |e.b.callbacks|
    ensures |Fired(c, e, Calling(id, ok, k))| == |e.b.callbacks| - k
    ensures forall i | k <= i < |e.b.callbacks| :: Fired(c, e, Calling(id, ok, k))[i - k] == Firing(id, i, ok)
    decreases |e.b.callbacks| - k
  {
    var g := Calling(id, ok, k);
    if k < |e.b.callbacks| {
      var e' := Outcome(c, e, g, CallNext, false).0;
      CallingFires(c, e', id, ok, k + 1);
      assert Fired(c, e, g) == [Firing(id, k, ok)] + Fired(c, e', Calling(id, ok, k + 1));
    }
  }

  lemma SettlingFires(c: Config, e: Entry, id: nat, ok: bool)
    ensures |Fired(c, e, Settling(id, ok))| == |e.b.callbacks|
    ensures forall i | 0 <= i < |e.b.callbacks| :: Fired(c, e, Settling(id, ok))[i] == Firing(id, i, ok)
  {
    var e' := Outcome(c, e, Settling(id, ok), Release, false).0;
    CallingFires(c, e', id, ok, 0);
    assert Fired(c, e, Settling(id, ok)) == Fired(c, e', Calling(id, ok, 0));
  }

  class SendWorker {
    const config: Config
    const retryQueue: LogSendRetryQueue
    const producer: AsyncProducerClient
    var retryQueueShutDownFlag: bool
    var taskCount: int
    var tokens: nat  // what the semaphore channel holds

    constructor (c: Config, queue: LogSendRetryQueue, client: AsyncProducerClient)
      ensures config == c && retryQueue == queue && producer == client
      ensures !retryQueueShutDownFlag && taskCount == 0 && tokens == 0
    {
      config, retryQueue, producer := c, queue, client;
      retryQueueShutDownFlag, taskCount, tokens := false, 0, 0;
    }

    method AddErrorMessageToBatchAttempt(b: ProducerBatch, code: int, now: int)
      requires b.Follows(config)
      modifies b
      ensures b.Value() == Failed(config, old(b.Value()), code, now)
      ensures b.attemptCount == old(b.attemptCount) + 1 && !b.successful
      ensures b.attemptList == old(b.attemptList) +
              (if old(b.attemptCount) < config.maxReservedAttempts then [Attempt(false, code, now)] else [])
    {
      if b.attemptCount < b.maxReservedAttempts {
        b.attemptList := b.attemptList + [Attempt(false, code, now)];
      }
      b.successful := false;
      b.attemptCount := b.attemptCount + 1;
    }

    /** Releases the quota, then calls every callback once. */
    method Settle(b: ProducerBatch, ok: bool) returns (called: seq<Called>)
      modifies producer
      ensures producer.producerLogGroupSize == old(producer.producerLogGroupSize) - b.accountedSize
      ensures |called| == |b.callBackList|
      ensures forall i | 0 <= i < |called| :: called[i].callback == b.callBackList[i] && called[i].ok == ok
    {
      producer.producerLogGroupSize := producer.producerLogGroupSize - b.accountedSize;
      called := [];
      if |b.callBackList| > 0 {
        for i := 0 to |b.callBackList|
          invariant |called| == i
          invariant forall k | 0 <= k < i :: called[k].callback == b.callBackList[k] && called[k].ok == ok
        {
          called := called + [Called(b.callBackList[i], ok)];
        }
      }
    }

    /** The wait before the next try, as sendToServer computes it. */
    method NextRetry(b: ProducerBatch, retryNow: int, garbage: int64)
      requires b.Follows(config) && b.attemptCount >= 1
      modifies b`nextRetryMs
      ensures b.Value() == old(b.Value()).(nextRetryMs := retryNow +
                RetryDelay(config.baseRetryBackoffMs, old(b.attemptCount), config.maxRetryBackoffMs, garbage))
    {
      hide TwoTo;
      var power := if b.attemptCount <= 63 then TwoTo(b.attemptCount - 1) else garbage;
      var retryWaitTime := I64(b.baseRetryBackoffMs * power);
      if retryWaitTime < b.maxRetryIntervalInMs {
        b.nextRetryMs := retryNow + retryWaitTime;
      } else {
        b.nextRetryMs := retryNow + b.maxRetryIntervalInMs;
      }
    }

    /** What follows an error while retries are still possible. */
    method Retry(b: ProducerBatch, code: int, now: int, retryNow: int, garbage: int64)
      requires retryQueue.Valid() && b !in retryQueue.batch && b.Follows(config)
      modifies b, retryQueue
      ensures retryQueue.Valid() && multiset(retryQueue.batch) == multiset(old(retryQueue.batch)) + multiset{b}
      ensures var failed := Failed(config, old(b.Value()), code, now);
              b.Value() == failed.(nextRetryMs := retryNow +
                RetryDelay(config.baseRetryBackoffMs, failed.attemptCount, config.maxRetryBackoffMs, garbage))
    {
      hide RetryDelay, Heap, KeysOf;
      AddErrorMessageToBatchAttempt(b, code, now);
      NextRetry(b, retryNow, garbage);
      retryQueue.SendToRetryQueue(b);
    }

    method Succeed(b: ProducerBatch, now: int) returns (called: seq<Called>)
      requires b.Follows(config)
      modifies b, producer
      ensures b.Value() == Succeeded(config, old(b.Value()), now)
      ensures producer.producerLogGroupSize == old(producer.producerLogGroupSize) - old(b.accountedSize)
      ensures |called| == |old(b.callBackList)|
      ensures forall i | 0 <= i < |called| :: called[i].callback == old(b.callBackList)[i] && called[i].ok
    {
      if b.attemptCount < b.maxReservedAttempts {
        b.attemptList := b.attemptList + [Attempt(true, 0, now)];
      }
      b.successful := true;
      called := Settle(b, true);
    }

    /**
      * sendToServer, undisturbed; `result` is what Send returned, nil or an error with an HTTP code. The batch
      * must not be in the retry heap: its retry time changes before it is pushed.
      */
    method SendToServer(b: ProducerBatch, result: Option<int>, now: int, retryNow: int, garbage: int64,
                        ghost e: Entry, ghost id: nat)
      returns (called: seq<Called>)
      requires retryQueue.Valid() && b !in retryQueue.batch && b.Follows(config) && e.b == b.Value()
      modifies b, producer, retryQueue
      ensures retryQueue.Valid() && b.Follows(config)
      ensures var (e', g) := SendPass(config, e, id, result, retryQueueShutDownFlag, now, retryNow, garbage);
              && b.Value() == e'.b
              && multiset(retryQueue.batch) == multiset(old(retryQueue.batch)) + (if g.Pushing? then multiset{b} else multiset{})
              && (g.Pushing? ==> called == [] && producer.producerLogGroupSize == old(producer.producerLogGroupSize))
              && (g.Settling? ==>
                    && producer.producerLogGroupSize == old(producer.producerLogGroupSize) - old(b.accountedSize)
                    && |called| == |old(b.callBackList)| == |Fired(config, e', g)|
                    && forall i | 0 <= i < |called| :: Fired(config, e', g)[i] == Firing(id, i, called[i].ok))
      ensures forall i | 0 <= i < |called| ::
                called[i].callback == old(b.callBackList)[i] && (called[i].ok <==> result.None?)
    {
      hide RetryDelay, SendPass, Heap, KeysOf, Fired;
      SendPassCases(config, e, id, result, retryQueueShutDownFlag, now, retryNow, garbage);
      ghost var pass := SendPass(config, e, id, result, retryQueueShutDownFlag, now, retryNow, garbage);
      if pass.1.Settling? {
        SettlingFires(config, pass.0, id, pass.1.ok);
      }
      called := [];
      if result.None? {
        called := Succeed(b, now);
      } else {
        var code := result.value;
        if retryQueueShutDownFlag {
          AddErrorMessageToBatchAttempt(b, code, now);
          called := Settle(b, false);
          return;
        }
        if code == 413 || code == 404 || code == 401 {
          AddErrorMessageToBatchAttempt(b, code, now);
          called := Settle(b, false);
          return;
        }
        if b.attemptCount < b.maxRetryTimes {
          Retry(b, code, now, retryNow, garbage);
        } else {
          called := Settle(b, false);
        }
      }
    }

    /** The first moment of startSendTask: the task counts from here on. */
    method CountTask()
      modifies this`taskCount
      ensures taskCount == old(taskCount) + 1
    {
      taskCount := taskCount + 1;
    }

    /** The second moment, once the semaphore has room. */
    method TakePlace()
      requires tokens < config.maxSendWorkerCount
      modifies this`tokens
      ensures tokens == old(tokens) + 1 <= config.maxSendWorkerCount
    {
      tokens := tokens + 1;
    }

    /**
      * startSendTask. Between its two moments it may have to wait; meanwhile goroutines give back `freed` places
      * and of those count out `finished` tasks.
      */
    method StartSendTask(freed: nat, finished: nat)
      requires finished <= freed <= tokens && tokens - freed < config.maxSendWorkerCount
      modifies this`taskCount, this`tokens
      ensures taskCount == old(taskCount) + 1 - finished
      ensures tokens == old(tokens) - freed + 1 <= config.maxSendWorkerCount
    {
      CountTask();
      tokens, taskCount := tokens - freed, taskCount - finished;
      TakePlace();
    }

    method CloseSendTask()
      requires tokens > 0
      modifies this`taskCount, this`tokens
      ensures taskCount == old(taskCount) - 1 && tokens == old(tokens) - 1
    {
      tokens := tokens - 1;
      taskCount := taskCount - 1;
    }
  }

  /**
    * The test Close repeats: no task counted, then nothing queued. Between the two readings `started` batches
    * may leave the queue and be counted; the count is not read again.
    */
  method SeesIdle(worker: SendWorker, pool: SendThreadPool, started: nat) returns (idle: bool)
    requires started <= |pool.queue|
    modifies worker`taskCount, pool
    ensures pool.queue == old(pool.queue)[started..] && worker.taskCount == old(worker.taskCount) + started
    ensures idle <==> old(worker.taskCount) == 0 && started == |old(pool.queue)|
    ensures idle ==> worker.taskCount == started
  {
    var count := worker.taskCount;
    var k := 0;
    while k < started
      invariant k <= started && pool.queue == old(pool.queue)[k..]
      invariant worker.taskCount == old(worker.taskCount) + k
    {
      var b := pool.PopTask();
      worker.CountTask();
      k := k + 1;
    }
    var queued := pool.HasTask();
    idle := count == 0 && !queued;
  }

  /** The settings of the producer, as the caller filled them in. */
  class AsyncProducerClientConfig {
    var totalSizeLnBytes: int
    var maxSendWorkerCount: int
    var maxBatchSize: int
    var maxBatchCount: int
    var lingerMs: int
    var retries: int
    var maxReservedAttempts: int
    var baseRetryBackoffMs: int
    var maxRetryBackoffMs: int
    var source: bytes
    var hostName: bytes
    var timeout: int
    var idleConn: int

    function Value(): Config
      reads this
    {
      Config(totalSizeLnBytes, maxSendWorkerCount, maxBatchSize, maxBatchCount, lingerMs, retries,
             maxReservedAttempts, baseRetryBackoffMs, maxRetryBackoffMs, source, hostName)
    }

    /** Every setting that was usable is kept; the others get their defaults. `Retries` is never changed. */
    method ValidateProducerConfig(localIP: bytes)
      modifies this
      ensures ValidConfig(Value()) && timeout > 0 && idleConn > 0
      ensures retries == old(retries) && hostName == old(hostName)
      ensures maxReservedAttempts == (if old(maxReservedAttempts) > 0 then old(maxReservedAttempts) else 11)
      ensures maxBatchCount == (if 0 < old(maxBatchCount) <= 40960 then old(maxBatchCount) else 40960)
      ensures maxBatchSize == (if 0 < old(maxBatchSize) <= FIVE_MIB then old(maxBatchSize) else FIVE_MIB)
      ensures maxSendWorkerCount == (if old(maxSendWorkerCount) > 0 then old(maxSendWorkerCount) else 50)
      ensures baseRetryBackoffMs == (if old(baseRetryBackoffMs) > 0 then old(baseRetryBackoffMs) else 100)
      ensures maxRetryBackoffMs == (if old(maxRetryBackoffMs) > 0 then old(maxRetryBackoffMs) else 50000)
      ensures totalSizeLnBytes == (if old(totalSizeLnBytes) > 0 then old(totalSizeLnBytes) else 104857600)
      ensures lingerMs == (if old(lingerMs) >= 100 then old(lingerMs) else 2000)
      ensures source == (if old(source) != [] then old(source) else localIP)
      ensures timeout == (if old(timeout) > 0 then old(timeout) else 10000)
      ensures idleConn == (if old(idleConn) > 0 then old(idleConn) else 50)
    {
      ValidateBatches();
      ValidateSending();
      ValidateRest(localIP);
    }

    method ValidateRest(localIP: bytes)
      modifies this`totalSizeLnBytes, this`lingerMs, this`source
      ensures totalSizeLnBytes == (if old(totalSizeLnBytes) > 0 then old(totalSizeLnBytes) else 104857600)
      ensures lingerMs == (if old(lingerMs) >= 100 then old(lingerMs) else 2000)
      ensures source == (if old(source) != [] then old(source) else localIP)
    {
      if totalSizeLnBytes <= 0 {
        totalSizeLnBytes := 100 * 1024 * 1024;
      }
      if lingerMs < 100 {
        lingerMs := 2000;
      }
      if source == [] {
        source := localIP;
      }
    }

    method ValidateBatches()
      modifies this`maxReservedAttempts, this`maxBatchCount, this`maxBatchSize
      ensures maxReservedAttempts == (if old(maxReservedAttempts) > 0 then old(maxReservedAttempts) else 11)
      ensures maxBatchCount == (if 0 < old(maxBatchCount) <= 40960 then old(maxBatchCount) else 40960)
      ensures maxBatchSize == (if 0 < old(maxBatchSize) <= FIVE_MIB then old(maxBatchSize) else FIVE_MIB)
    {
      if maxReservedAttempts <= 0 {
        maxReservedAttempts := 11;
      }
      if maxBatchCount > 40960 || maxBatchCount <= 0 {
        maxBatchCount := 40960;
      }
      if maxBatchSize > 1024 * 1024 * 5 || maxBatchSize <= 0 {
        maxBatchSize := 1024 * 1024 * 5;
      }
    }

    method ValidateSending()
      modifies this`maxSendWorkerCount, this`baseRetryBackoffMs, this`idleConn, this`timeout, this`maxRetryBackoffMs
      ensures maxSendWorkerCount == (if old(maxSendWorkerCount) > 0 then old(maxSendWorkerCount) else 50)
      ensures baseRetryBackoffMs == (if old(baseRetryBackoffMs) > 0 then old(baseRetryBackoffMs) else 100)
      ensures maxRetryBackoffMs == (if old(maxRetryBackoffMs) > 0 then old(maxRetryBackoffMs) else 50000)
      ensures timeout == (if old(timeout) > 0 then old(timeout) else 10000)
      ensures idleConn == (if old(idleConn) > 0 then old(idleConn) else 50)
    {
      if maxSendWorkerCount <= 0 {
        maxSendWorkerCount := 50;
      }
      if baseRetryBackoffMs <= 0 {
        baseRetryBackoffMs := 100;
      }
      if idleConn <= 0 {
        idleConn := 50;
      }
      if timeout <= 0 {
        timeout := 10000;
      }
      if maxRetryBackoffMs <= 0 {
        maxRetryBackoffMs := 50 * 1000;
      }
    }
  }
}
