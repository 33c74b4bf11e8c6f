/** The worker of one partition as an object, proved against the functions of its loop. */
module PartitionWorker {
  import opened Basics
  import opened Offsets
  import opened PartitionLoop

  class PartitionConsumerWorker {
    const topicID: string
    const partitionID: int
    const tracker: OffsetTracker
    const startTime: int
    const endTime: int
    var nextFetchOffset: int
    var shutdown: bool
    var closed: bool  // closeOnce has run
    var reachEnd: bool
    var initialized: bool
    var lastFetchTime: int
    var lastFetchCount: nat
    var lastEmptyFlushTime: int

    constructor (topic: string, id: int, start: int, end: int)
      ensures topicID == topic && partitionID == id && startTime == start && endTime == end
      ensures fresh(tracker) && tracker.Value() == NewTracker
      ensures !initialized && Registers() == Loop(-1, false, false, false, 0, 0, 0, 0)
    {
      topicID, partitionID := topic, id;
      tracker := new OffsetTracker();
      startTime, endTime := start, end;
      nextFetchOffset := -1;
      shutdown, closed, reachEnd, initialized := false, false, false, false;
      lastFetchTime, lastFetchCount, lastEmptyFlushTime := 0, 0, 0;
    }

    function Registers(): Loop
      reads this, tracker
    {
      Loop(nextFetchOffset, shutdown, closed, reachEnd, lastFetchTime, lastFetchCount, lastEmptyFlushTime,
           tracker.lastCheckTime)
    }

    /** The fetch refuses a time range that ends before it starts. */
    predicate Inverted() {
      endTime > 0 && startTime > endTime
    }

    /** initialize; `stored` and `begin` are what GetPartitionOffsets answers, if it does. */
    method Initialize(stored: Option<int>, begin: Option<int>) returns (ghost es: seq<Event>)
      modifies this`nextFetchOffset, this`initialized, tracker
      ensures initialized && tracker.Value() == After(old(tracker.Value()), es)
      ensures tracker.Value() ==
              if stored.Some? && stored.value >= 0 then old(tracker.Value()).(temp := stored.value, last := stored.value)
              else old(tracker.Value())
      ensures es == InitEvents(stored) && Commits(old(tracker.Value()), es) == []
      ensures nextFetchOffset ==
              if stored.Some? && stored.value >= 0 then stored.value
              else if begin.Some? && begin.value >= 0 then begin.value else 0
      ensures Registers() == old(Registers()).(nextFetchOffset := nextFetchOffset)
    {
      if stored.Some? && stored.value >= 0 {
        nextFetchOffset := stored.value;
        tracker.SetMemoryOffset(stored.value);
        tracker.SetPersistentOffset(stored.value);
        es := [SetMemory(stored.value), SetPersistent(stored.value)];
        TwoEvents(old(tracker.Value()), SetMemory(stored.value), SetPersistent(stored.value));
      } else {
        es := [];
        if begin.Some? && begin.value >= 0 {
          nextFetchOffset := begin.value;
        } else {
          nextFetchOffset := 0;
        }
      }
      initialized := true;
    }

    /** Another goroutine shuts the worker down, if the round says that it does so now. */
    method Outside(r: Round, at: nat) returns (sent: seq<int>, ghost es: seq<Event>)
      modifies this`shutdown, this`closed, tracker
      ensures Registers() == OutsideOf(old(Registers()), r, at).0 && es == OutsideOf(old(Registers()), r, at).1
      ensures tracker.Value() == After(old(tracker.Value()), es) && sent == Commits(old(tracker.Value()), es)
    {
      sent, es := [], [];
      if StopsAt(r, at) {
        sent, es := Close(r.stop.value.ok, r.stop.value.saves);
      }
    }

    /** The loop of fetchData over the tries. */
    method PullWithRetry(r: Round) returns (p: Pull, sent: seq<int>, ghost es: seq<Event>)
      requires !shutdown
      modifies this`nextFetchOffset, this`shutdown, this`closed, tracker
      ensures (Registers(), p, es) == TryOf(old(Registers()), r, 0)
      ensures tracker.Value() == After(old(tracker.Value()), es) && sent == Commits(old(tracker.Value()), es)
    {
      hide After, Commits, OutsideOf;
      ghost var t := tracker.Value();
      NoEvents(t);
      p, sent, es := PullFailed, [], [];
      assert [] + TryOf(Registers(), r, 0).2 == TryOf(Registers(), r, 0).2;
      for retryTimes := 0 to 3
        invariant var (l, q, more) := TryOf(Registers(), r, retryTimes);
                  TryOf(old(Registers()), r, 0) == (l, q, es + more)
        invariant tracker.Value() == After(t, es) && sent == Commits(t, es)
      {
        var one;
        ghost var stopped;
        one, stopped := Outside(r, retryTimes + 1);
        EventsAppend(t, es, stopped);
        ghost var before := es;
        sent, es := sent + one, es + stopped;
        if shutdown {
          return PullFailed, sent, es;
        }
        p := r.pulls(retryTimes);
        if !Retried(p) {
          return;
        }
        Regroup(before, stopped, TryOf(if retryTimes == 0 && p.InvalidOffset? && r.endOffset.Some?
                                       then Registers().(nextFetchOffset := r.endOffset.value) else Registers(),
                                       r, retryTimes + 1).2);
        if retryTimes == 0 && p.InvalidOffset? {
          if r.endOffset.Some? {
            nextFetchOffset := r.endOffset.value;
            continue;
          }
        }
        if retryTimes == 2 {
          assert TryOf(Registers(), r, 3) == (Registers(), PullFailed, []) && es + [] == es;
          return PullFailed, sent, es;
        }
      }
      p := PullFailed;
      assert TryOf(Registers(), r, 3) == (Registers(), PullFailed, []) && es + [] == es;
    }

    /** fetchData: how many log groups came, and what happened to the tracker. */
    method FetchData(r: Round) returns (groups: nat, sent: seq<int>, ghost es: seq<Event>)
      modifies this, tracker
      ensures initialized == old(initialized)
      ensures (Registers(), groups, es) == FetchOf(old(Registers()), endTime > 0 && startTime > endTime, r)
      ensures tracker.Value() == After(old(tracker.Value()), es) && sent == Commits(old(tracker.Value()), es)
    {
      hide After, Commits, TryOf;
      ghost var t := tracker.Value();
      NoEvents(t);
      groups, sent, es := 0, [], [];
      if shutdown {
        return;
      }
      var minIntervalMs;
      if lastFetchCount < 100 {
        minIntervalMs := 500;
      } else if lastFetchCount < 500 {
        minIntervalMs := 200;
      } else if lastFetchCount < 1000 {
        minIntervalMs := 50;
      } else {
        minIntervalMs := 0;
      }
      if minIntervalMs > 0 && r.nowMs - lastFetchTime < minIntervalMs {
        return;
      }
      lastFetchTime := r.nowMs;
      if startTime > 0 || endTime > 0 {
        if startTime > endTime && endTime > 0 {
          return;
        }
      }
      var p;
      p, sent, es := PullWithRetry(r);
      if !p.Pulled? {
        return;
      }
      var idle;
      ghost var more;
      idle, more := Take(r, p.next, p.groups);
      EventsAppend(t, es, more);
      sent, es := sent + idle, es + more;
      lastFetchCount := p.groups;
      groups := p.groups;
    }

    /** What came is taken over: the position, and the idle timer with its flush. */
    method Take(r: Round, next: int, groups: nat) returns (sent: seq<int>, ghost es: seq<Event>)
      modifies this`nextFetchOffset, this`reachEnd, this`lastEmptyFlushTime, tracker
      ensures var (l, idle) := IdleOf(Moved(old(Registers()), next), r, groups);
              Registers() == l && es == [Fetched(next)] + idle
      ensures tracker.Value() == After(old(tracker.Value()), es) && sent == Commits(old(tracker.Value()), es)
    {
      ghost var t := tracker.Value();
      if next > 0 {
        nextFetchOffset := next;
        tracker.SetOffset(next);
        reachEnd := false;
      } else {
        reachEnd := true;
      }
      sent, es := [], [Fetched(next)];
      OneEvent(t, Fetched(next));
      if groups == 0 {
        if lastEmptyFlushTime == 0 {
          lastEmptyFlushTime := r.nowSec;
        } else if r.nowSec - lastEmptyFlushTime >= 30 {
          var failed;
          failed, sent := tracker.FlushOffset(false, r.idleOk);
          TwoEvents(t, Fetched(next), Flush(false, r.idleOk));
          es := [Fetched(next), Flush(false, r.idleOk)];
          lastEmptyFlushTime := r.nowSec;
        }
      } else {
        lastEmptyFlushTime := 0;
      }
    }

    /** The processor gets the logs and the tracker. */
    method ProcessData(r: Round, groups: nat) returns (sent: seq<int>, ghost es: seq<Event>)
      modifies tracker
      ensures tracker.Value() == After(old(tracker.Value()), es) && sent == Commits(old(tracker.Value()), es)
      ensures es == ProcessOf(old(Registers()), r, groups) && Registers() == old(Registers())
    {
      hide After, Commits, SaveEvents;
      ghost var t := tracker.Value();
      NoEvents(t);
      sent, es := [], [];
      if shutdown {
        return;
      }
      if groups == 0 {
        return;
      }
      Turn(t, groups);
      ghost var saved;
      sent, saved := RunSaves(r.saves);
      EventsAppend(t, [Processed(groups)], saved);
      es := [Processed(groups)] + saved;
      assert [] + sent == sent;
    }

    method RunSaves(saves: seq<UserSave>) returns (sent: seq<int>, ghost es: seq<Event>)
      modifies tracker
      ensures tracker.Value() == After(old(tracker.Value()), es) && sent == Commits(old(tracker.Value()), es)
      ensures es == SaveEvents(saves) && tracker.lastCheckTime == old(tracker.lastCheckTime)
    {
      hide After, Commits, Offsets.Next, Sent;
      ghost var t := tracker.Value();
      sent, es := [], [];
      NoEvents(t);
      for i := 0 to |saves|
        invariant tracker.Value() == After(t, es) && sent == Commits(t, es) && es == SaveEvents(saves[..i])
        invariant tracker.lastCheckTime == old(tracker.lastCheckTime)
      {
        var failed, one;
        ghost var more;
        failed, one, more := tracker.SaveOffset(saves[i].persistent, saves[i].explicit, saves[i].ok);
        EventsAppend(t, es, more);
        assert saves[..i + 1][..i] == saves[..i];
        sent, es := sent + one, es + more;
      }
      assert saves[..|saves|] == saves;
    }

    /** close: the forced flush and the processor's shutdown happen once. */
    method Close(ok: bool, saves: seq<UserSave>) returns (sent: seq<int>, ghost es: seq<Event>)
      modifies this`shutdown, this`closed, tracker
      ensures shutdown && closed && Registers() == old(Registers()).(shutdown := true, closed := true)
      ensures es == if old(closed) then [] else [Flush(true, ok)] + SaveEvents(saves)
      ensures tracker.Value() == After(old(tracker.Value()), es) && sent == Commits(old(tracker.Value()), es)
    {
      shutdown := true;
      sent, es := [], [];
      if !closed {
        closed := true;
        ghost var t := tracker.Value();
        var failed, first := tracker.FlushOffset(true, ok);
        OneEvent(t, Flush(true, ok));
        ghost var more;
        sent, more := RunSaves(saves);
        EventsAppend(t, [Flush(true, ok)], more);
        sent, es := first + sent, [Flush(true, ok)] + more;
      }
    }

    /** The periodic check at the end of a round. */
    method Check(r: Round) returns (sent: seq<int>, ghost es: seq<Event>)
      modifies tracker
      ensures tracker.Value() == After(old(tracker.Value()), es) && sent == Commits(old(tracker.Value()), es)
      ensures Registers() == CheckOf(old(Registers()), r).0 && es == CheckOf(old(Registers()), r).1
    {
      es := if r.checkSec > tracker.lastCheckTime + 60 then [Flush(false, r.checkOk)] else [];
      OneEvent(tracker.Value(), Flush(false, r.checkOk));
      sent := tracker.FlushCheck(r.checkSec, r.checkOk);
    }

    /** One round of the loop: fetch, process, periodic check. */
    method RunRound(r: Round) returns (sent: seq<int>, ghost es: seq<Event>)
      modifies this, tracker
      ensures initialized == old(initialized)
      ensures (Registers(), es) == RoundOf(old(Registers()), Inverted(), r)
      ensures tracker.Value() == After(old(tracker.Value()), es) && sent == Commits(old(tracker.Value()), es)
    {
      hide After, Commits, Offsets.Next, Sent, ProcessOf, OutsideOf, FetchOf, CheckOf;
      ghost var t := tracker.Value();
      sent, es := Outside(r, 0);
      var groups, one;
      ghost var more;
      groups, one, more := FetchData(r);
      EventsAppend(t, es, more);
      sent, es := sent + one, es + more;
      one, more := Outside(r, 4);
      EventsAppend(t, es, more);
      sent, es := sent + one, es + more;
      if groups > 0 {
        one, more := ProcessData(r, groups);
        EventsAppend(t, es, more);
        sent, es := sent + one, es + more;
      } else {
        NoTurn(Registers(), r);
        assert es + [] == es;
      }
      one, more := Outside(r, 5);
      EventsAppend(t, es, more);
      sent, es := sent + one, es + more;
      one, more := Check(r);
      EventsAppend(t, es, more);
      sent, es := sent + one, es + more;
    }

    /**
      * ConsumeWithContext: a shut-down worker does nothing, a new one is initialised. Otherwise it runs the rounds
      * until it is shut down or, after the last of them, the context is cancelled, and closes. `past` is what
      * happened to the tracker before; if what it learned advanced, and the answers of the rounds do, the commits
      * never go back.
      */
    method ConsumeWithContext(rounds: seq<Round>, closeOk: bool, closeSaves: seq<UserSave>, stored: Option<int>,
                              begin: Option<int>, ghost past: seq<Event>)
      returns (sent: seq<int>, ghost es: seq<Event>)
      requires tracker.Value() == After(NewTracker, past)
      modifies this, tracker
      ensures tracker.Value() == After(NewTracker, past + es)
      ensures Commits(NewTracker, past + es) == Commits(NewTracker, past) + sent
      ensures initialized == (old(initialized) || !old(shutdown))
      ensures old(shutdown) ==> es == [] && Registers() == old(Registers())
      ensures !old(shutdown) && !old(initialized) ==>
                es == InitEvents(stored) && Registers() == old(Registers()).(nextFetchOffset := nextFetchOffset)
      ensures !old(shutdown) && old(initialized) ==>
                && (Registers(), es) == ConsumeOf(old(Registers()), Inverted(), rounds, closeOk, closeSaves)
                && shutdown && closed && Forced(es) == (if old(closed) then 0 else 1)
                && (ServerAdvances(past) && AnswersAdvance(rounds, Floor(past)) ==>
                      && ServerAdvances(past + es)
                      && (NoExplicitOffset(past) && NoneExplicit(closeSaves) && (forall r <- rounds :: Implicit(r)) ==>
                            NonDecreasing(Commits(NewTracker, past) + sent))
                      && (SafeSaves(past + es) ==> NonDecreasing(Commits(NewTracker, past) + sent)))
    {
      if shutdown {
        sent, es := [], [];
        assert past + [] == past;
        return;
      }
      if !initialized {
        sent := [];
        es := Initialize(stored, begin);
        EventsAppend(NewTracker, past, es);
        return;
      }
      sent, es := RunRounds(rounds, closeOk, closeSaves);
      EventsAppend(NewTracker, past, es);
      TheLaws(past, old(Registers()), Inverted(), rounds, closeOk, closeSaves);
      ClosedOnce(old(Registers()), Inverted(), rounds, closeOk, closeSaves);
    }

    method RunRounds(rounds: seq<Round>, closeOk: bool, closeSaves: seq<UserSave>)
      returns (sent: seq<int>, ghost es: seq<Event>)
      modifies this, tracker
      ensures initialized == old(initialized)
      ensures (Registers(), es) == ConsumeOf(old(Registers()), Inverted(), rounds, closeOk, closeSaves)
      ensures tracker.Value() == After(old(tracker.Value()), es) && sent == Commits(old(tracker.Value()), es)
    {
      hide After, Commits, RoundOf, SaveEvents;
      ghost var t := tracker.Value();
      NoEvents(t);
      sent, es := [], [];
      var i := 0;
      while !shutdown && i < |rounds|
        invariant i <= |rounds| && initialized == old(initialized)
        invariant (Registers(), es) == LoopOf(old(Registers()), Inverted(), rounds[..i])
        invariant tracker.Value() == After(t, es) && sent == Commits(t, es)
        decreases |rounds| - i
      {
        var one;
        ghost var more;
        one, more := RunRound(rounds[i]);
        EventsAppend(t, es, more);
        assert rounds[..i + 1][..i] == rounds[..i];
        sent, es := sent + one, es + more;
        i := i + 1;
      }
      if shutdown {
        LoopEnds(old(Registers()), Inverted(), rounds, i);
      }
      assert rounds[..|rounds|] == rounds;
      var last;
      ghost var ended;
      last, ended := Close(closeOk, closeSaves);
      EventsAppend(t, es, ended);
      sent, es := sent + last, es + ended;
    }
  }

  lemma NoEvents(t: Tracker)
    ensures After(t, []) == t && Commits(t, []) == []
  {
  }

  /** The processor's turn by itself does nothing to the tracker. */
  lemma Turn(t: Tracker, groups: nat)
    ensures After(t, [Processed(groups)]) == t && Commits(t, [Processed(groups)]) == []
  {
    OneEvent(t, Processed(groups));
  }

  lemma NoTurn(l: Loop, r: Round)
    ensures ProcessOf(l, r, 0) == []
  {
  }

  lemma Regroup(a: seq<Event>, b: seq<Event>, c: seq<Event>)
    ensures (a + b) + c == a + (b + c)
  {
  }

  /** Once the worker is shut down the other rounds are not run. */
  lemma {:induction false} LoopEnds(l: Loop, inverted: bool, rounds: seq<Round>, i: nat)
    requires i <= |rounds| && LoopOf(l, inverted, rounds[..i]).0.shutdown
    ensures LoopOf(l, inverted, rounds) == LoopOf(l, inverted, rounds[..i])
    decreases |rounds|
  {
    hide RoundOf;
    if i < |rounds| {
      var n := |rounds| - 1;
      assert rounds[..n][..i] == rounds[..i];
      LoopEnds(l, inverted, rounds[..n], i);
    } else {
      assert rounds[..i] == rounds;
    }
  }

  /** The laws of the loop, for the commits before and in it. */
  lemma TheLaws(past: seq<Event>, l: Loop, inverted: bool, rounds: seq<Round>, ok: bool, saves: seq<UserSave>)
    ensures ServerAdvances(past) && AnswersAdvance(rounds, Floor(past)) ==>
              var all := past + ConsumeOf(l, inverted, rounds, ok, saves).1;
              && ServerAdvances(all)
              && (NoExplicitOffset(past) && NoneExplicit(saves) && (forall r <- rounds :: Implicit(r)) ==>
                    NonDecreasing(Commits(NewTracker, all)))
              && (SafeSaves(all) ==> NonDecreasing(Commits(NewTracker, all)))
  {
    hide ServerAdvances, AnswersAdvance, Floor, ConsumeOf, Commits, SafeSaves, NonDecreasing;
    if ServerAdvances(past) && AnswersAdvance(rounds, Floor(past)) {
      ConsumeAdvances(past, l, inverted, rounds, ok, saves);
      if NoExplicitOffset(past) && NoneExplicit(saves) && forall r <- rounds :: Implicit(r) {
        LoopNeverGoesBack(past, l, inverted, rounds, ok, saves);
      }
      if SafeSaves(past + ConsumeOf(l, inverted, rounds, ok, saves).1) {
        SafeLoopNeverGoesBack(past, l, inverted, rounds, ok, saves);
      }
    }
  }
}
