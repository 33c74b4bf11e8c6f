/** The batch as the mutable object the accumulator fills and the worker settles. */
module ProducerBatches {
  import opened Basics
  import opened Messages
  import opened Sizes
  import opened Batch
  import opened Pipeline
  import Writer

  class ProducerBatch {
    const topicID: Topic
    const packageID: bytes
    const createTimeMs: int
    const maxRetryTimes: int
    const baseRetryBackoffMs: int
    const maxRetryIntervalInMs: int
    const maxReservedAttempts: int
    var totalDataSize: int
    var accountedSize: int
    var logs: seq<Log>
    var callBackList: seq<nat>
    var attemptCount: nat
    var nextRetryMs: int
    var attemptList: seq<Attempt>
    var successful: bool

    function Value(): Batch
      reads this
    {
      Batch(topicID, packageID, logs, callBackList, totalDataSize, accountedSize, createTimeMs, attemptCount,
            nextRetryMs, attemptList, successful)
    }

    /** The limits the batch carries are those of the configuration. */
    ghost predicate Follows(c: Config) {
      && maxRetryTimes == c.retries && baseRetryBackoffMs == c.baseRetryBackoffMs
      && maxRetryIntervalInMs == c.maxRetryBackoffMs && maxReservedAttempts == c.maxReservedAttempts
    }

    /** NewProducerBatch; logs whose size cannot be calculated are accounted by their encoded size. */
    constructor (topic: Topic, c: Config, callback: Option<nat>, ls: seq<Log>, pkg: bytes, now: int)
      requires AllFilled(ls)
      ensures Follows(c) && topicID == topic && packageID == pkg && createTimeMs == now
      ensures logs == ls && callBackList == if callback.Some? then [callback.value] else []
      ensures attemptCount == 0 && nextRetryMs == 0 && attemptList == [] && !successful
      ensures totalDataSize ==
              |EncGroup(LogGroup(ls, Some(pkg), None, Some(c.source), [], Some(c.hostName), []))|
      ensures accountedSize == if forall l <- ls :: SmallValues(l) then ListBytes(ls) else totalDataSize
      ensures var b := NewBatch(c, Call(topic, ls, callback), now, pkg);
              Value() == if Admissible(Call(topic, ls, callback)) then b else b.(accountedSize := b.totalDataSize)
    {
      hide GroupSize, ListBytes, AllFilled, SmallValues, EncGroup;
      topicID := topic;
      packageID := pkg;
      createTimeMs := now;
      maxRetryTimes := c.retries;
      baseRetryBackoffMs := c.baseRetryBackoffMs;
      maxRetryIntervalInMs := c.maxRetryBackoffMs;
      maxReservedAttempts := c.maxReservedAttempts;
      logs := ls;
      callBackList := [];
      attemptCount := 0;
      nextRetryMs := 0;
      attemptList := [];
      successful := false;
      new;
      var group := LogGroup(ls, Some(packageID), None, Some(c.source), [], Some(c.hostName), []);
      var size := Writer.SizeOfGroup(group);
      GroupSizeExact(group);
      assert size == NewBatch(c, Call(topic, ls, callback), now, pkg).totalDataSize;
      totalDataSize := size;
      var accounted := GetLogListSize(ls);
      if accounted.Some? {
        accountedSize := accounted.value;
      } else {
        accountedSize := totalDataSize;
      }
      if callback.Some? {
        callBackList := callBackList + [callback.value];
      }
    }

    method AddLogToLogGroup(ls: seq<Log>)
      modifies this`logs
      ensures Value() == old(Value()).(logs := old(logs) + ls)
    {
      logs := logs + ls;
    }

    method AddProducerBatchCallBack(callback: nat)
      modifies this`callBackList
      ensures Value() == old(Value()).(callbacks := old(callBackList) + [callback])
    {
      callBackList := callBackList + [callback];
    }
  }
}
