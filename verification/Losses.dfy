/** Runs in which an accepted call is lost: five around a nil from Close, and one in which it never comes. */
module Losses {
  import opened Basics
  import opened Messages
  import opened Batch
  import opened Pipeline
  import opened Ownership
  import opened Runs
  import opened Reaching
  import opened Close
  import opened Leftovers

  // ----- Five runs in which Close returns nil too early -----

  /** Close has returned nil, and the batch with the one accepted call is neither sent nor settled. */
  ghost predicate LostACall(s: State) {
    && s.closer.CloseReturned? && |s.store| == 1 && |s.accepted| == 1
    && s.store[0].stage.Waiting? && s.quota > 0
  }

  /** And so it is in every state that can follow. */
  ghost predicate LostForGood(c: Config, s: State) {
    LostACall(s) && forall s' | Reaches(c, s, s') :: WaitingAt(s'.store, 0)
  }

  /** Where one batch is left when the timer has ended: pending, with the senders shut out, or in the retry heap. */
  lemma LeftForGood(c: Config, s: State)
    requires ValidConfig(c) && Reachable(c, s) && LostACall(s)
    requires (TimerGone(s) && s.pending == map["t" := 0]) || (s.timer.TimerDone? && s.heap == multiset{0 as nat})
    ensures LostForGood(c, s)
  {
    hide Reachable, IsRun, After;
    forall s' | Reaches(c, s, s')
      ensures WaitingAt(s'.store, 0)
    {
      var steps: seq<Step> :| IsRun(c, s, steps) && After(c, s, steps) == s';
      if s.heap == multiset{0 as nat} && s.timer.TimerDone? {
        HeapForGood(c, s, steps);
        assert 0 as nat in s.heap;
      } else {
        PendingForGood(c, s, steps);
        assert s.pending["t"] == 0 && 0 as nat in s.pending.Values;
      }
    }
  }

  const ONE_CALL: Call := Call("t", [NoLog], None)

  lemma OneCallBytes()
    ensures ListBytes(ONE_CALL.logs) == 4
  {
    assert [NoLog][1..] == [];
  }

  /** From a finished drain with no task and an empty queue, Close runs through to its nil. */
  lemma CloseThrough(c: Config, s: State)
    requires Reachable(c, s) && s.closer.RetryFlagged? && TestsIdle(s)
    ensures Reachable(c, s.(poolStop := true, closer := CloseReturned))
  {
    hide Reachable;
    var s1 := s.(poolStop := true, closer := PoolFlagged);
    Go(c, s, OfClose(SetPoolStop), s1);
    Go(c, s1, OfClose(SeeZero), s1.(closer := SawZero));
    Go(c, s1.(closer := SawZero), OfClose(SeeIdle), s1.(closer := CloseReturned));
  }

  /** The timer, told to stop, comes to hold the lock for its drain. */
  lemma ToDrain(c: Config, s: State)
    requires Reachable(c, s) && s.closer.NotClosing? && s.timer.Looping? && s.lock.Free?
    ensures Reachable(c, s.(timerStop := true, closer := TimerFlagged, timer := Draining, lock := TimerHolds))
  {
    hide Reachable;
    var s1 := s.(timerStop := true, closer := TimerFlagged);
    Go(c, s, OfClose(SetTimerStop), s1);
    Go(c, s1, OfTimer(TestTimerStop), s1.(timer := DrainWait));
    Go(c, s1.(timer := DrainWait), OfTimer(DrainLock), s1.(timer := Draining, lock := TimerHolds));
  }

  /** Close sets its other two flags. */
  lemma SetFlags(c: Config, s: State)
    requires Reachable(c, s) && s.closer.TimerFlagged?
    ensures Reachable(c, s.(accStop := true, retryStop := true, closer := RetryFlagged))
  {
    hide Reachable;
    var s1 := s.(accStop := true, closer := AccFlagged);
    Go(c, s, OfClose(SetAccStop), s1);
    Go(c, s1, OfClose(SetRetryStop), s1.(retryStop := true, closer := RetryFlagged));
  }

  /** The timer finds the retry heap empty and ends. */
  lemma ToTimerDone(c: Config, s: State)
    requires Reachable(c, s) && s.timer.FinalTake? && s.heap == multiset{}
    ensures Reachable(c, s.(timer := TimerDone))
  {
    hide Reachable;
    var none: seq<nat> := [];
    assert multiset(none) == multiset{};
    var s1 := s.(timer := FinalMoving(none));
    assert s.heap - multiset(none) == s.heap;
    Go(c, s, OfTimer(FinalTakeAll(none)), s1);
    Go(c, s1, OfTimer(MoveOne), s1.(timer := TimerDone));
  }

  /** A call accepted between the drain and the setting of the accumulator's flag stays pending for ever. */
  lemma LateFlagLoses(c: Config)
    requires c.totalSizeLnBytes >= 4
    ensures exists s :: Reachable(c, s) && LostACall(s) && (ValidConfig(c) ==> LostForGood(c, s)) &&
                        s.pending == map["t" := 0]
  {
    hide Reachable, ListBytes, LostForGood;
    OneCallBytes();
    ReachableStart(c);
    ToDrain(c, Start);
    var s1 := Start.(timerStop := true, closer := TimerFlagged, timer := Draining, lock := TimerHolds);
    var s2 := s1.(timer := FinalTake, lock := Free);
    Go(c, s1, OfTimer(DrainUnlock), s2);
    AcceptOne(c, ONE_CALL, s2);
    var s3 := OnePending(c, ONE_CALL, s2);
    SetFlags(c, s3);
    var s4 := s3.(accStop := true, retryStop := true, closer := RetryFlagged);
    ToTimerDone(c, s4);
    CloseThrough(c, s4.(timer := TimerDone));
    var s := s4.(timer := TimerDone, poolStop := true, closer := CloseReturned);
    assert LostACall(s);
    if ValidConfig(c) {
      LeftForGood(c, s);
    }
  }

  /** One call accepted and the timer told to stop; it holds the lock for the drain. */
  function OneDraining(c: Config): State {
    OnePending(c, ONE_CALL, Start).(timerStop := true, closer := TimerFlagged, timer := Draining, lock := TimerHolds)
  }

  lemma DrainOneCall(c: Config)
    requires c.totalSizeLnBytes >= 4
    ensures Reachable(c, OneDraining(c))
  {
    hide Reachable, ListBytes;
    OneCallBytes();
    ReachableStart(c);
    AcceptOne(c, ONE_CALL, Start);
    ToDrain(c, OnePending(c, ONE_CALL, Start));
  }

  /** The drain hands the one batch over and ends. */
  lemma DrainThrough(c: Config, s: State)
    requires Reachable(c, s) && s.timer.Draining? && s.pending == map["t" := 0] && s.queue == [] && s.handed == []
    ensures Reachable(c, s.(pending := map[], queue := [0], handed := [0], timer := FinalTake, lock := Free))
  {
    hide Reachable;
    var s1 := s.(pending := map[], queue := [0], handed := [0]);
    assert s.pending - {"t"} == map[] && [] + [0] == [0];
    Go(c, s, OfTimer(DrainOne("t")), s1);
    Go(c, s1, OfTimer(DrainUnlock), s1.(timer := FinalTake, lock := Free));
  }

  /** All flags were set during the drain, and the timer found no retries and has ended: one batch is queued. */
  function OneQueued(c: Config): State {
    OneDraining(c).(accStop := true, retryStop := true, closer := RetryFlagged, pending := map[], queue := [0],
                    handed := [0], timer := TimerDone, lock := Free)
  }

  lemma QueueOne(c: Config)
    requires c.totalSizeLnBytes >= 4
    ensures Reachable(c, OneQueued(c)) && Sealed(OneQueued(c)) && RetryShut(OneQueued(c))
  {
    hide Reachable, ListBytes;
    DrainOneCall(c);
    SetFlags(c, OneDraining(c));
    var s1 := OneDraining(c).(accStop := true, retryStop := true, closer := RetryFlagged);
    DrainThrough(c, s1);
    var s2 := s1.(pending := map[], queue := [0], handed := [0], timer := FinalTake, lock := Free);
    ToTimerDone(c, s2);
  }

  /** A batch popped and not yet counted is seen neither as a task nor in the queue. */
  lemma UncountedPopLoses(c: Config)
    requires c.totalSizeLnBytes >= 4
    ensures exists s :: Reachable(c, s) && LostACall(s) && s.hand == Popped(0) && Sealed(s) && RetryShut(s)
  {
    hide Reachable, ListBytes;
    OneCallBytes();
    QueueOne(c);
    var s0 := OneQueued(c);
    assert [0][1..] == [];
    var s1 := s0.(queue := [], hand := Popped(0));
    Go(c, s0, OfDispatcher(Pop), s1);
    CloseThrough(c, s1);
    assert LostACall(s1.(poolStop := true, closer := CloseReturned));
  }

  /** From a popped batch to a goroutine that is to send it. */
  lemma SendOne(c: Config, s: State)
    requires Reachable(c, s) && s.queue == [0] && s.hand.NoTask? && s.flight == [] && c.maxSendWorkerCount > 0
    ensures Reachable(c, s.(queue := [], taskCount := s.taskCount + 1, flight := [Sending(0)]))
  {
    hide Reachable;
    assert [0][1..] == [];
    var s1 := s.(queue := [], hand := Popped(0));
    Go(c, s, OfDispatcher(Pop), s1);
    var s2 := s1.(hand := Counted(0), taskCount := s.taskCount + 1);
    Go(c, s1, OfDispatcher(Count), s2);
    assert [] + [Sending(0)] == [Sending(0)];
    Go(c, s2, OfDispatcher(Spawn), s2.(hand := NoTask, flight := [Sending(0)]));
  }

  /** Close has read that there is no task; the batch is still queued. */
  function OneUnseen(c: Config): State {
    OneQueued(c).(poolStop := true, closer := SawZero)
  }

  /**
    * The two readings of Close are two moments. The drain is over and nothing can be added or pushed any more;
    * no task is counted while the batch is queued; before the queue is read, the batch is popped, counted and
    * given to a goroutine. Nothing is pending, retried or popped at the nil, and the call is not sent.
    */
  lemma SplitTestLoses(c: Config)
    requires c.totalSizeLnBytes >= 4 && c.maxSendWorkerCount > 0
    ensures exists s :: Reachable(c, s) && LostACall(s) && Sealed(s) && RetryShut(s) &&
                        s.hand == NoTask && s.queue == [] && s.flight == [Sending(0)] && s.taskCount == 1
  {
    hide Reachable, ListBytes;
    OneCallBytes();
    QueueOne(c);
    var s0 := OneQueued(c);
    Go(c, s0, OfClose(SetPoolStop), s0.(poolStop := true, closer := PoolFlagged));
    Go(c, s0.(poolStop := true, closer := PoolFlagged), OfClose(SeeZero), OneUnseen(c));
    SendOne(c, OneUnseen(c));
    var s1 := OneUnseen(c).(queue := [], taskCount := 1, flight := [Sending(0)]);
    Go(c, s1, OfClose(SeeIdle), s1.(closer := CloseReturned));
    assert LostACall(s1.(closer := CloseReturned));
  }

  /** The batch sent in vain by a goroutine that has read a clear flag; the timer has yet to take the heap. */
  function OneFailing(c: Config): State {
    var e := NewEntry(c, ONE_CALL, 0, []);
    OneDraining(c).(pending := map[], handed := [0], timer := FinalTake, lock := Free, taskCount := 1,
                    flight := [FlagClear(0, 500)], store := [e.(sends := 1, lastOk := false, stage := Failing)])
  }

  lemma FailOne(c: Config)
    requires c.totalSizeLnBytes >= 4 && c.maxSendWorkerCount > 0
    ensures Reachable(c, OneFailing(c))
  {
    hide Reachable, GroupSize, ListBytes;
    DrainOneCall(c);
    DrainThrough(c, OneDraining(c));
    var s0 := OneDraining(c).(pending := map[], queue := [0], handed := [0], timer := FinalTake, lock := Free);
    SendOne(c, s0);
    var s3 := s0.(queue := [], taskCount := 1, flight := [Sending(0)]);
    var s4 := OneFailing(c).(flight := [SendFailed(0, 500)]);
    assert s3.flight[0 := SendFailed(0, 500)] == [SendFailed(0, 500)];
    assert s3.store[0 := s4.store[0]] == s4.store;
    assert s3.fired + [] == s3.fired;
    Go(c, s3, OfWorker(0, SendError(500)), s4);
    assert s4.flight[0 := FlagClear(0, 500)] == [FlagClear(0, 500)];
    assert s4.store[0 := s4.store[0]] == s4.store;
    Go(c, s4, OfWorker(0, LoadFlag(0)), OneFailing(c));
  }

  lemma PushOne(c: Config, s: State)
    requires Reachable(c, s) && s.flight == [Pushing(0)] && Known(s, 0) && s.heap == multiset{} && s.taskCount == 1
    ensures Reachable(c, s.(heap := multiset{0}, flight := [Exited], taskCount := 0))
  {
    hide Reachable;
    var s1 := s.(heap := multiset{0}, flight := [Closing]);
    assert s.heap + multiset{0} == multiset{0} && s.flight[0 := Closing] == [Closing];
    Go(c, s, OfWorker(0, Push), s1);
    var s2 := s1.(flight := [Uncounting]);
    assert s1.flight[0 := Uncounting] == [Uncounting];
    Go(c, s1, OfWorker(0, FreeToken), s2);
    assert s2.flight[0 := Exited] == [Exited];
    Go(c, s2, OfWorker(0, Uncount), s2.(flight := [Exited], taskCount := 0));
  }

  /** A goroutine that read the flag before the shutdown pushes its batch when the heap has been emptied for good. */
  lemma LatePushLoses(c: Config)
    requires c.totalSizeLnBytes >= 4 && c.maxSendWorkerCount > 0 && c.retries > 0
    ensures exists s :: Reachable(c, s) && LostACall(s) && (ValidConfig(c) ==> LostForGood(c, s)) &&
                        s.heap == multiset{0 as nat}
  {
    hide Reachable, GroupSize, ListBytes, RetryDelay, LostForGood;
    OneCallBytes();
    FailOne(c);
    SetFlags(c, OneFailing(c));
    var s0 := OneFailing(c).(accStop := true, retryStop := true, closer := RetryFlagged);
    ToTimerDone(c, s0);
    var s1 := s0.(timer := TimerDone);
    var e := Requeued(c, s1.store[0], 500, 0, 0, 0);
    var s2 := s1.(store := [e], flight := [Pushing(0)]);
    assert s1.store[0 := e] == [e] && s1.flight[0 := Pushing(0)] == [Pushing(0)] && s1.fired + [] == s1.fired;
    Go(c, s1, OfWorker(0, Decide(0, 0, 0)), s2);
    PushOne(c, s2);
    var s5 := s2.(heap := multiset{0}, flight := [Exited], taskCount := 0);
    CloseThrough(c, s5);
    var s := s5.(poolStop := true, closer := CloseReturned);
    assert LostACall(s);
    if ValidConfig(c) {
      LeftForGood(c, s);
    }
  }

  /** A sender that read the flag before it was set appends its call after the nil. */
  lemma LateSenderLoses(c: Config)
    requires c.totalSizeLnBytes >= 4
    ensures exists s, s' ::
              && Reachable(c, s) && s.closer.CloseReturned? && s.store == [] && s.quota == 0
              && s.lock == Checked(ONE_CALL) && Reaches(c, s, s') && LostACall(s') && s'.pending == map["t" := 0]
              && (ValidConfig(c) ==> LostForGood(c, s'))
  {
    hide Reachable, Reaches, ListBytes, LostForGood;
    OneCallBytes();
    ReachableStart(c);
    ToDrain(c, Start);
    var s1 := Start.(timerStop := true, closer := TimerFlagged, timer := Draining, lock := TimerHolds);
    var s2 := s1.(timer := FinalTake, lock := Free);
    Go(c, s1, OfTimer(DrainUnlock), s2);
    Go(c, s2, OfSender(Acquire(ONE_CALL)), s2.(lock := Locked(ONE_CALL)));
    var s3 := s2.(lock := Checked(ONE_CALL));
    Go(c, s2.(lock := Locked(ONE_CALL)), OfSender(TestStop), s3);
    SetFlags(c, s3);
    var s4 := s3.(accStop := true, retryStop := true, closer := RetryFlagged);
    ToTimerDone(c, s4);
    CloseThrough(c, s4.(timer := TimerDone));
    var s := s4.(timer := TimerDone, poolStop := true, closer := CloseReturned);
    var s' := OnePending(c, ONE_CALL, s).(lock := Free);
    AppendsAfter(c, s);
    StillReachable(c, s, s');
    assert LostACall(s');
    if ValidConfig(c) {
      LeftForGood(c, s');
    }
  }

  lemma AppendsAfter(c: Config, s: State)
    requires c.totalSizeLnBytes >= 4 && s.lock == Checked(ONE_CALL)
    requires s.store == [] && s.pending == map[] && s.quota == 0 && s.accepted == []
    ensures Reaches(c, s, OnePending(c, ONE_CALL, s).(lock := Free))
  {
    hide Reaches, ListBytes, NewEntry;
    OneCallBytes();
    ReachesItself(c, s);
    ReachesNext(c, s, s, OfSender(LoadQuota));
    ReachesNext(c, s, s.(lock := Loaded(ONE_CALL, 0)), OfSender(TestQuota));
    ReachesNext(c, s, s.(lock := Tested(ONE_CALL)), OfSender(Reserve));
    ReachesNext(c, s, s.(lock := Reserved(ONE_CALL), quota := 4), OfSender(Append(0, [])));
    assert [] + [NewEntry(c, ONE_CALL, 0, [])] == [NewEntry(c, ONE_CALL, 0, [])];
    assert [] + [ONE_CALL] == [ONE_CALL];
  }

  // ----- A run in which Close never returns nil -----

  /** The dispatcher has ended with one batch queued: it is never sent, and Close never returns nil. */
  ghost predicate StuckForGood(c: Config, s: State) {
    && s.hand.DispatcherDone? && s.queue == [0]
    && forall s' | Reaches(c, s, s') :: s'.queue == [0] && WaitingAt(s'.store, 0) && !s'.closer.CloseReturned?
  }

  /** The dispatcher sees an empty queue; the drain fills it and the pool's flag is set before it is tested. */
  lemma EarlyStopLoses(c: Config)
    requires ValidConfig(c) && c.totalSizeLnBytes >= 4
    ensures exists s :: Reachable(c, s) && StuckForGood(c, s) && Sealed(s) && RetryShut(s)
  {
    hide Reachable, ListBytes, StuckForGood;
    OneCallBytes();
    ReachableStart(c);
    var s0 := Start.(hand := SawEmpty);
    Go(c, Start, OfDispatcher(Pop), s0);
    AcceptOne(c, ONE_CALL, s0);
    ToDrain(c, OnePending(c, ONE_CALL, s0));
    var s1 := OneDraining(c).(hand := SawEmpty);
    SetFlags(c, s1);
    var s2 := s1.(accStop := true, retryStop := true, closer := RetryFlagged);
    DrainThrough(c, s2);
    ToTimerDone(c, s2.(pending := map[], queue := [0], handed := [0], timer := FinalTake, lock := Free));
    var s3 := OneQueued(c).(hand := SawEmpty);
    var s4 := s3.(poolStop := true, closer := PoolFlagged);
    Go(c, s3, OfClose(SetPoolStop), s4);
    var s5 := s4.(hand := DispatcherDone);
    Go(c, s4, OfDispatcher(TestPoolStop), s5);
    StaysStuck(c, s5);
  }

  lemma StaysStuck(c: Config, s: State)
    requires ValidConfig(c) && Reachable(c, s) && s.hand.DispatcherDone? && s.queue == [0]
    requires TimerGone(s) && !s.closer.CloseReturned?
    ensures StuckForGood(c, s)
  {
    hide Reachable, IsRun, After;
    forall s' | Reaches(c, s, s')
      ensures s'.queue == [0] && WaitingAt(s'.store, 0) && !s'.closer.CloseReturned?
    {
      var steps: seq<Step> :| IsRun(c, s, steps) && After(c, s, steps) == s';
      RunLeaves(c, s, steps);
      QueueForGood(c, s, steps);
      assert 0 in s.queue;
    }
  }
}
