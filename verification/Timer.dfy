/** The timer's passes over the pending batches: the linger pass and the final drain. */
module Timer {
  import opened Batch
  import opened Accumulator

  /** Hands over the batches of some topics, in this order. */
  function FlushedAll(h: Held, order: seq<Topic>): Held {
    if order == [] then h
    else
      var before := FlushedAll(h, order[..|order| - 1]);
      var t := order[|order| - 1];
      if t in before.pending then Flushed(before, t) else before
  }

  ghost predicate Distinct(order: seq<Topic>) {
    forall i, j | 0 <= i < j < |order| :: order[i] != order[j]
  }

  /** Exactly the topics of the list left the pending map, and their batches queue up in that order. */
  ghost predicate FlushedIs(h: Held, order: seq<Topic>, f: Held) {
    && (forall t :: t in f.pending <==> t in h.pending && t !in order)
    && (forall t <- f.pending :: f.pending[t] == h.pending[t])
    && |f.queue| == |h.queue| + |order| && f.queue[..|h.queue|] == h.queue
    && forall i | 0 <= i < |order| :: order[i] in h.pending && f.queue[|h.queue| + i] == h.pending[order[i]]
  }

  lemma {:induction false} FlushedAllIs(h: Held, order: seq<Topic>)
    requires Distinct(order) && forall t <- order :: t in h.pending
    ensures FlushedIs(h, order, FlushedAll(h, order))
  {
    if order == [] {
    } else {
      hide FlushedIs;
      var n := |order| - 1;
      assert order == order[..n] + [order[n]];
      FlushedAllIs(h, order[..n]);
      OneMoreFlushed(h, order[..n], FlushedAll(h, order[..n]), order[n]);
    }
  }

  lemma OneMoreFlushed(h: Held, order: seq<Topic>, f: Held, t: Topic)
    requires FlushedIs(h, order, f) && t in h.pending && t !in order
    ensures t in f.pending && FlushedIs(h, order + [t], Flushed(f, t))
  {
    assert forall x :: x in order + [t] <==> x in order || x == t;
  }

  lemma FlushedSnoc(h: Held, order: seq<Topic>, t: Topic)
    requires t in FlushedAll(h, order).pending
    ensures FlushedAll(h, order + [t]) == Flushed(FlushedAll(h, order), t)
  {
    assert (order + [t])[..|order|] == order;
  }

  class TimerSendLogTask {
    const logAccumulator: LogAccumulator

    constructor (acc: LogAccumulator)
      ensures logAccumulator == acc
    {
      logAccumulator := acc;
    }

    /** sendToServer: the clock is read again. */
    method SendToServer(t: Topic, visitNow: int) returns (sent: bool)
      requires logAccumulator.Valid() && t in logAccumulator.logTopicData
      modifies logAccumulator`logTopicData, logAccumulator.threadPool
      ensures logAccumulator.Valid()
      ensures sent == (visitNow - old(logAccumulator.logTopicData)[t].createTimeMs >= logAccumulator.config.lingerMs)
      ensures logAccumulator.Contents() ==
              if sent then Flushed(old(logAccumulator.Contents()), t) else old(logAccumulator.Contents())
      ensures logAccumulator.logTopicData ==
              if sent then old(logAccumulator.logTopicData) - {t} else old(logAccumulator.logTopicData)
    {
      var value := logAccumulator.logTopicData[t];
      if visitNow - value.createTimeMs < logAccumulator.config.lingerMs {
        return false;
      }
      ghost var h := logAccumulator.Contents();
      logAccumulator.threadPool.AddTask(value);
      logAccumulator.logTopicData := logAccumulator.logTopicData - {t};
      assert logAccumulator.Pending() == Flushed(h, t).pending;
      assert Values(logAccumulator.threadPool.queue) == Flushed(h, t).queue;
      return true;
    }

    /** The body of the pass for one topic. */
    method Visit(t: Topic, passNow: int, visitNow: int, sleepMs: int) returns (sleep: int, sent: bool)
      requires logAccumulator.Valid() && t in logAccumulator.logTopicData
      modifies logAccumulator`logTopicData, logAccumulator.threadPool
      ensures logAccumulator.Valid()
      ensures var created, lingerMs := old(logAccumulator.logTopicData)[t].createTimeMs, logAccumulator.config.lingerMs;
              && sent == (created + lingerMs <= passNow && created + lingerMs <= visitNow)
              && sleep == if 0 < created + lingerMs - passNow < sleepMs then created + lingerMs - passNow else sleepMs
      ensures logAccumulator.Contents() ==
              if sent then Flushed(old(logAccumulator.Contents()), t) else old(logAccumulator.Contents())
      ensures logAccumulator.logTopicData ==
              if sent then old(logAccumulator.logTopicData) - {t} else old(logAccumulator.logTopicData)
    {
      sleep, sent := sleepMs, false;
      var b := logAccumulator.logTopicData[t];
      var timeInterval := b.createTimeMs + logAccumulator.config.lingerMs - passNow;
      if timeInterval <= 0 {
        sent := SendToServer(t, visitNow);
      } else {
        if sleep > timeInterval {
          sleep := timeInterval;
        }
      }
    }

    /**
      * The pass of run: the due batches go to the thread pool, in some order; the sleep is the shortest time
      * until one of the others is due, at most the linger time.
      */
    method LingerPass(passNow: int, clock: Topic -> int) returns (sleepMs: int, ghost order: seq<Topic>)
      requires logAccumulator.Valid()
      modifies logAccumulator`logTopicData, logAccumulator.threadPool
      ensures logAccumulator.Valid()
      ensures logAccumulator.Contents() == FlushedAll(old(logAccumulator.Contents()), order)
      ensures Distinct(order)
      ensures forall t :: t in order <==>
                && t in old(logAccumulator.logTopicData)
                && old(logAccumulator.logTopicData[t].createTimeMs) + logAccumulator.config.lingerMs <= passNow
                && old(logAccumulator.logTopicData[t].createTimeMs) + logAccumulator.config.lingerMs <= clock(t)
      ensures SleepIs(sleepMs, old(logAccumulator.Created()), {}, logAccumulator.config.lingerMs, passNow)
    {
      hide *;
      var acc := logAccumulator;
      var lingerMs := acc.config.lingerMs;
      ghost var created := acc.Created();
      ghost var h := acc.Contents();
      sleepMs := lingerMs;
      order := [];
      var mapCount := |acc.logTopicData|;
      var todo := acc.logTopicData.Keys;
      NoneVisited(h, created, lingerMs, passNow, clock);
      assert todo == created.Keys && forall t <- todo :: acc.logTopicData[t].createTimeMs == created[t] by {
        CreatedIs(acc);
      }
      while todo != {}
        invariant acc.Valid() && acc.Contents() == FlushedAll(h, order)
        invariant forall t <- todo :: t in acc.logTopicData && t in created && acc.logTopicData[t].createTimeMs == created[t]
        invariant OrderIs(order, created, todo, lingerMs, passNow, clock)
        invariant SleepIs(sleepMs, created, todo, lingerMs, passNow)
        decreases todo
      {
        var t :| t in todo;
        VisitOne(order, sleepMs, created, todo, t, lingerMs, passNow, clock);
        PendingKeys(acc);
        FlushedSnoc(h, order, t);
        var sent;
        sleepMs, sent := Visit(t, passNow, clock(t), sleepMs);
        if sent {
          order := order + [t];
        }
        todo := todo - {t};
      }
      Visited(order, created, lingerMs, passNow, clock);
      if mapCount == 0 {
        assert created.Keys == {};
        NothingWaits(created, lingerMs, passNow);
        sleepMs := lingerMs;
      }
    }

    /** The final drain of run: everything pending goes to the thread pool, in some order. */
    method DrainPass() returns (ghost order: seq<Topic>)
      requires logAccumulator.Valid()
      modifies logAccumulator`logTopicData, logAccumulator.threadPool
      ensures logAccumulator.Valid() && logAccumulator.logTopicData == map[]
      ensures logAccumulator.Contents() == FlushedAll(old(logAccumulator.Contents()), order)
      ensures Distinct(order) && forall t :: t in order <==> t in old(logAccumulator.logTopicData)
    {
      hide Followed, Distinct, FlushedAll;
      var acc := logAccumulator;
      ghost var h := acc.Contents();
      ghost var added: seq<Batch> := [];
      order := [];
      NoneFollow(h);
      var todo := acc.logTopicData.Keys;
      while todo != {}
        invariant todo <= acc.logTopicData.Keys && Distinct(order)
        invariant acc.logTopicData == old(acc.logTopicData)
        invariant forall t :: t in order <==> t in acc.logTopicData && t !in todo
        invariant Followed(h, order, added) && Values(acc.threadPool.queue) == h.queue + added
        decreases |todo|
      {
        var t :| t in todo;
        ghost var queued := acc.threadPool.queue;
        acc.threadPool.AddTask(acc.logTopicData[t]);
        assert Values(acc.threadPool.queue) == Values(queued) + [h.pending[t]];
        OneFollows(h, order, added, t);
        order, added := order + [t], added + [h.pending[t]];
        todo := todo - {t};
      }
      acc.logTopicData := map[];
      assert acc.Contents() == Held(map[], h.queue + added);
      Drained(h, order, added);
    }
  }

  /** Exactly the topics visited so far and due, each once. */
  ghost predicate OrderIs(order: seq<Topic>, created: map<Topic, int>, todo: set<Topic>, lingerMs: int, passNow: int,
                          clock: Topic -> int) {
    && Distinct(order)
    && forall t :: t in order <==>
         t in created && t !in todo && created[t] + lingerMs <= passNow && created[t] + lingerMs <= clock(t)
  }

  /** The shortest time until a visited batch is due that was not yet, at most the linger time. */
  ghost predicate SleepIs(sleepMs: int, created: map<Topic, int>, todo: set<Topic>, lingerMs: int, passNow: int) {
    && sleepMs <= lingerMs
    && (forall t <- created | t !in todo && created[t] + lingerMs - passNow > 0 :: sleepMs <= created[t] + lingerMs - passNow)
    && (sleepMs == lingerMs || exists t <- created :: sleepMs == created[t] + lingerMs - passNow > 0)
  }

  lemma NoneVisited(h: Held, created: map<Topic, int>, lingerMs: int, passNow: int, clock: Topic -> int)
    ensures FlushedAll(h, []) == h
    ensures OrderIs([], created, created.Keys, lingerMs, passNow, clock)
    ensures SleepIs(lingerMs, created, created.Keys, lingerMs, passNow)
  {
  }

  lemma Visited(order: seq<Topic>, created: map<Topic, int>, lingerMs: int, passNow: int, clock: Topic -> int)
    requires OrderIs(order, created, {}, lingerMs, passNow, clock)
    ensures Distinct(order)
    ensures forall t :: t in order <==>
              t in created && created[t] + lingerMs <= passNow && created[t] + lingerMs <= clock(t)
  {
    hide Distinct;
  }

  lemma NothingWaits(created: map<Topic, int>, lingerMs: int, passNow: int)
    requires created.Keys == {}
    ensures SleepIs(lingerMs, created, {}, lingerMs, passNow)
  {
  }

  lemma VisitOne(order: seq<Topic>, sleepMs: int, created: map<Topic, int>, todo: set<Topic>, t: Topic, lingerMs: int,
                 passNow: int, clock: Topic -> int)
    requires OrderIs(order, created, todo, lingerMs, passNow, clock) && SleepIs(sleepMs, created, todo, lingerMs, passNow)
    requires t in created && t in todo
    ensures var due := created[t] + lingerMs <= passNow && created[t] + lingerMs <= clock(t);
            OrderIs(if due then order + [t] else order, created, todo - {t}, lingerMs, passNow, clock)
    ensures var interval := created[t] + lingerMs - passNow;
            SleepIs(if 0 < interval < sleepMs then interval else sleepMs, created, todo - {t}, lingerMs, passNow)
  {
  }

  /** The batches of these topics, one for one. */
  ghost predicate Followed(h: Held, order: seq<Topic>, added: seq<Batch>) {
    && |added| == |order|
    && forall i | 0 <= i < |order| :: order[i] in h.pending && added[i] == h.pending[order[i]]
  }

  lemma NoneFollow(h: Held)
    ensures Followed(h, [], []) && Distinct([])
  {
  }

  lemma OneFollows(h: Held, order: seq<Topic>, added: seq<Batch>, t: Topic)
    requires Followed(h, order, added) && Distinct(order) && t in h.pending && t !in order
    ensures Followed(h, order + [t], added + [h.pending[t]]) && Distinct(order + [t])
  {
  }

  lemma Drained(h: Held, order: seq<Topic>, added: seq<Batch>)
    requires Distinct(order) && Followed(h, order, added) && (forall t :: t in order <==> t in h.pending)
    ensures FlushedAll(h, order) == Held(map[], h.queue + added)
  {
    hide FlushedAll;
    FlushedAllIs(h, order);
    var f := FlushedAll(h, order);
    assert f.pending == map[];
    forall i | 0 <= i < |f.queue|
      ensures f.queue[i] == (h.queue + added)[i]
    {
      if i < |h.queue| {
        assert f.queue[i] == f.queue[..|h.queue|][i];
      } else {
        assert f.queue[|h.queue| + (i - |h.queue|)] == h.pending[order[i - |h.queue|]];
      }
    }
  }

  lemma CreatedIs(acc: LogAccumulator)
    ensures acc.Created().Keys == acc.logTopicData.Keys
    ensures forall t <- acc.logTopicData :: acc.Created()[t] == acc.logTopicData[t].createTimeMs
  {
  }

  lemma PendingKeys(acc: LogAccumulator)
    requires acc.Valid()
    ensures acc.Contents().pending.Keys == acc.logTopicData.Keys
  {
  }
}
