/** When a nil from Close means that everything was settled. */
module Close {
  import opened Batch
  import opened Pipeline
  import opened Frames
  import opened Ownership
  import opened Accounts
  import opened Order
  import opened Runs

  // ----- After the drain -----

  /** The final drain is over and no sender is past the test of the accumulator's flag. */
  ghost predicate Sealed(s: State) {
    && s.accStop && s.pending == map[]
    && (s.timer.FinalTake? || s.timer.FinalMoving? || s.timer.TimerDone?)
    && (s.lock.Free? || s.lock.Locked?)
  }

  /** A drain that ends with the accumulator's flag set leaves nothing pending. */
  lemma DrainSeals(c: Config, s: State)
    requires QuotaOk(c, s) && TimerEnabled(s, DrainUnlock) && s.accStop
    ensures Sealed(ApplyTimer(c, s, DrainUnlock))
  {
  }

  lemma TimerSealed(c: Config, s: State, st: TimerStep)
    requires Sealed(s) && TimerEnabled(s, st)
    ensures Sealed(ApplyTimer(c, s, st))
  {
    hide MayTake, HandOver, Known;
  }

  lemma WorkSealed(c: Config, s: State, w: nat, st: WorkStep)
    requires Sealed(s) && WorkEnabled(s, w, st)
    ensures Sealed(ApplyWork(c, s, w, st))
  {
    hide WorkEnabled, ApplyWork;
    WorkFrame(c, s, w, st);
  }

  lemma SenderSealed(c: Config, s: State, st: SenderStep)
    requires Sealed(s) && SenderEnabled(s, st)
    ensures Sealed(ApplySender(c, s, st))
  {
    hide Place, ListBytes, Known;
  }

  lemma DispatchSealed(c: Config, s: State, st: DispatchStep)
    requires Sealed(s) && DispatchEnabled(c, s, st)
    ensures Sealed(ApplyDispatch(c, s, st))
  {
    hide DispatchEnabled, ApplyDispatch;
    DispatchFrame(c, s, st);
  }

  lemma CloseSealed(s: State, st: CloseStep)
    requires Sealed(s) && CloseEnabled(s, st)
    ensures Sealed(ApplyClose(s, st))
  {
  }

  lemma SealedStays(c: Config, s: State, st: Step)
    requires Sealed(s) && Enabled(c, s, st)
    ensures Sealed(Apply(c, s, st))
  {
    hide Sealed, ApplyTimer, ApplyWork, ApplySender, ApplyDispatch, ApplyClose;
    hide TimerEnabled, SenderEnabled, DispatchEnabled, WorkEnabled, CloseEnabled;
    match st
    case OfSender(x) => SenderSealed(c, s, x);
    case OfTimer(x) => TimerSealed(c, s, x);
    case OfDispatcher(x) => DispatchSealed(c, s, x);
    case OfWorker(w, x) => WorkSealed(c, s, w, x);
    case OfClose(x) => CloseSealed(s, x);
  }

  /** Nobody can put a batch into the retry heap any more. */
  ghost predicate RetryShut(s: State) {
    s.retryStop && s.heap == multiset{} && NoPusher(s.flight)
  }

  /** No goroutine is between reading a clear flag and pushing its batch. */
  ghost predicate NoPusher(ws: seq<Work>) {
    forall w | 0 <= w < |ws| :: !ws[w].FlagClear? && !ws[w].Pushing?
  }

  lemma TakeShuts(c: Config, s: State, ids: seq<nat>)
    requires TimerEnabled(s, FinalTakeAll(ids)) && s.retryStop && NoPusher(s.flight)
    ensures RetryShut(ApplyTimer(c, s, FinalTakeAll(ids)))
  {
  }

  lemma OutcomeNoPush(c: Config, e: Entry, g: Work, st: WorkStep)
    requires Follows(g, st) && Holding(g) && !st.Push? && !g.FlagClear?
    ensures var g' := Outcome(c, e, g, st, true).1; !g'.FlagClear? && !g'.Pushing?
  {
    hide Recorded;
  }

  lemma WorkShut(c: Config, s: State, w: nat, st: WorkStep)
    requires RetryShut(s) && WorkEnabled(s, w, st)
    ensures RetryShut(ApplyWork(c, s, w, st))
  {
    hide Outcome, ApplyWork;
    if Holding(s.flight[w]) {
      WorkChanges(c, s, w, st);
      OutcomeNoPush(c, s.store[s.flight[w].id], s.flight[w], st);
    } else {
      IdleChanges(c, s, w, st);
    }
  }

  lemma TimerShut(c: Config, s: State, st: TimerStep)
    requires RetryShut(s) && TimerEnabled(s, st)
    ensures RetryShut(ApplyTimer(c, s, st))
  {
    hide NoPusher, ApplyTimer, TimerEnabled;
    TimerFrame(c, s, st);
    TimerHeap(c, s, st);
  }

  lemma TimerHeap(c: Config, s: State, st: TimerStep)
    requires TimerEnabled(s, st)
    ensures ApplyTimer(c, s, st).heap <= s.heap
  {
    hide MayTake, Known, HandOver;
    if st.LingerVisit? {
      LingerFrame(c, s, st.topic, st.visitNow);
    } else if st.DrainOne? {
      HandOverFrame(s, st.topic);
    }
  }

  lemma SenderShut(c: Config, s: State, st: SenderStep)
    requires RetryShut(s) && SenderEnabled(s, st)
    ensures RetryShut(ApplySender(c, s, st))
  {
    hide NoPusher, ApplySender, SenderEnabled;
    SenderFrame(c, s, st);
  }

  lemma DispatchShut(c: Config, s: State, st: DispatchStep)
    requires RetryShut(s) && DispatchEnabled(c, s, st)
    ensures RetryShut(ApplyDispatch(c, s, st))
  {
    hide Tokens;
  }

  lemma CloseShut(s: State, st: CloseStep)
    requires RetryShut(s) && CloseEnabled(s, st)
    ensures RetryShut(ApplyClose(s, st))
  {
    hide NoPusher;
  }

  lemma ShutStays(c: Config, s: State, st: Step)
    requires RetryShut(s) && Enabled(c, s, st)
    ensures RetryShut(Apply(c, s, st))
  {
    hide RetryShut, ApplyTimer, ApplyWork, ApplySender, ApplyDispatch, ApplyClose;
    hide TimerEnabled, SenderEnabled, DispatchEnabled, WorkEnabled, CloseEnabled;
    match st
    case OfSender(x) => SenderShut(c, s, x);
    case OfTimer(x) => TimerShut(c, s, x);
    case OfDispatcher(x) => DispatchShut(c, s, x);
    case OfWorker(w, x) => WorkShut(c, s, w, x);
    case OfClose(x) => CloseShut(s, x);
  }

  lemma {:induction false} RunSealed(c: Config, s: State, steps: seq<Step>)
    requires Sealed(s) && IsRun(c, s, steps)
    ensures Sealed(After(c, s, steps))
    ensures RetryShut(s) ==> RetryShut(After(c, s, steps))
    decreases |steps|
  {
    hide Sealed, RetryShut, Enabled, Apply;
    if steps != [] {
      SealedStays(c, s, steps[0]);
      if RetryShut(s) {
        ShutStays(c, s, steps[0]);
      }
      RunSealed(c, Apply(c, s, steps[0]), steps[1..]);
    }
  }

  /** With the accumulator's flag set before the drain ends, nothing is pending after it, in any later state. */
  lemma NothingPendingAfterDrain(c: Config, s: State, steps: seq<Step>)
    requires ValidConfig(c) && Reachable(c, s) && s.accStop
    requires Enabled(c, s, OfTimer(DrainUnlock)) && IsRun(c, Apply(c, s, OfTimer(DrainUnlock)), steps)
    ensures After(c, Apply(c, s, OfTimer(DrainUnlock)), steps).pending == map[]
  {
    ReachableInv(c, s);
    DrainSeals(c, s);
    hide Enabled, Inv, Reachable, ApplyTimer;
    RunSealed(c, Apply(c, s, OfTimer(DrainUnlock)), steps);
  }

  // ----- A nil from Close -----

  /** What Close tests, read at one instant: no task counted, nothing queued; its wait for the timer is over. */
  predicate TestsIdle(s: State) {
    s.timer.TimerDone? && s.taskCount == 0 && s.queue == []
  }

  lemma {:induction false} NoneRunning(ws: seq<Work>)
    ensures Running(ws) == 0 ==> forall w | 0 <= w < |ws| :: !Holding(ws[w])
  {
    if ws != [] {
      NoneRunning(ws[1..]);
      assert forall w | 0 < w < |ws| :: ws[w] == ws[1..][w - 1];
    }
  }

  lemma {:induction false} NoneHeld(ws: seq<Work>, id: nat)
    requires forall w | 0 <= w < |ws| :: !Holding(ws[w])
    ensures InFlight(ws, id) == 0
  {
    if ws != [] {
      NoneHeld(ws[1..], id);
    }
  }

  /** Nobody has a batch in hand: neither the dispatcher nor a goroutine. */
  ghost predicate NoneInHand(s: State) {
    !s.hand.Popped? && !s.hand.Counted? && forall w | 0 <= w < |s.flight| :: !Holding(s.flight[w])
  }

  /** After the timer's end and with an empty queue, all is settled exactly if nothing is left anywhere else. */
  lemma SettledExactly(c: Config, s: State)
    requires ValidConfig(c) && Reachable(c, s) && s.timer.TimerDone? && s.queue == []
    ensures (forall e <- s.store :: e.stage.Finished?) <==> s.pending == map[] && s.heap == multiset{} && NoneInHand(s)
    ensures (forall e <- s.store :: e.stage.Finished?) && !s.lock.Reserved? ==> s.quota == 0
  {
    ReachableInv(c, s);
    QuotaConserved(c, s);
    hide Reachable, Sound, QuotaOk, FiredOk, OrderOk, TasksOk;
    if s.pending == map[] && s.heap == multiset{} && NoneInHand(s) {
      forall id | 0 <= id < |s.store|
        ensures s.store[id].stage.Finished?
      {
        NoneHeld(s.flight, id);
        assert Places(s, id) == Live(s.store, id);
      }
    } else {
      SomethingLeft(s);
    }
  }

  /**
    * A nil from Close, as the source decides it: the task count was read earlier, and now the queue is seen
    * empty. All is settled exactly if nothing is pending, in the heap, in the dispatcher's hand or held by a
    * goroutine, any of which may be.
    */
  lemma NilMeansSettled(c: Config, s: State)
    requires ValidConfig(c) && Reachable(c, s) && Enabled(c, s, OfClose(SeeIdle))
    ensures (forall e <- s.store :: e.stage.Finished?) <==> s.pending == map[] && s.heap == multiset{} && NoneInHand(s)
    ensures (forall e <- s.store :: e.stage.Finished?) && !s.lock.Reserved? ==> s.quota == 0
  {
    hide Reachable, NoneInHand;
    ShutdownInOrder(c, s);
    SettledExactly(c, s);
  }

  /** If both are read in one instant, all is settled exactly if none is pending, in the heap or popped but uncounted. */
  lemma IdleMeansSettled(c: Config, s: State)
    requires ValidConfig(c) && Reachable(c, s) && TestsIdle(s)
    ensures (forall e <- s.store :: e.stage.Finished?) <==>
            s.pending == map[] && s.heap == multiset{} && !s.hand.Popped?
    ensures s.pending == map[] && s.heap == multiset{} && !s.hand.Popped? && !s.lock.Reserved? ==> s.quota == 0
  {
    hide Reachable;
    SettledExactly(c, s);
    TasksCounted(c, s);
    NoneRunning(s.flight);
  }

  /** Whatever rests or is held somewhere is an unfinished batch. */
  lemma SomethingLeft(s: State)
    requires Owned(s) && !(s.pending == map[] && s.heap == multiset{} && NoneInHand(s))
    ensures exists e :: e in s.store && !e.stage.Finished?
  {
    if s.pending != map[] {
      var t: Topic :| t in s.pending;
      assert s.pending[t] in s.pending.Values;
      RestingLeft(s, s.pending[t]);
    } else if s.heap != multiset{} {
      var id :| id in s.heap;
      RestingLeft(s, id);
    } else if s.hand.Popped? || s.hand.Counted? {
      RestingLeft(s, s.hand.id);
    } else {
      var w :| 0 <= w < |s.flight| && Holding(s.flight[w]);
      SoleOwner(s, w);
      assert s.store[s.flight[w].id] in s.store;
    }
  }

  lemma RestingLeft(s: State, id: nat)
    requires SinglePlace(s) && Resting(s, id) > 0
    ensures id < |s.store| && s.store[id] in s.store && !s.store[id].stage.Finished?
  {
    hide Resting;
    assert Places(s, id) == Live(s.store, id);
  }

  /** Everything is settled, the quota is back, and the accepted logs are those of the handed-over batches. */
  ghost predicate AllSettled(s: State) {
    && (forall e <- s.store :: e.stage.Finished?)
    && s.quota == 0
    && forall t: Topic :: LogsOf(AcceptedFor(s.accepted, t)) == HandedLogs(s.store, s.handed, t)
  }

  /**
    * The conditional drain. The three flags are set when the drain of the pending map ends; no goroutine is
    * between the flag test and the push when the timer takes the retry heap for the last time; and at some
    * instant there is no task, no queue and no popped batch uncounted. Then every accepted call was handed over
    * and settled, and the quota is back, at that instant and after any further run: also at a nil from Close
    * that reads the task count at that instant and the queue later, whatever happens between.
    */
  lemma ConditionalDrain(c: Config, s0: State, before: seq<Step>, ids: seq<nat>, later: seq<Step>, rest: seq<Step>)
    requires ValidConfig(c) && Reachable(c, s0) && s0.timerStop && s0.accStop && s0.retryStop
    requires Enabled(c, s0, OfTimer(DrainUnlock)) && IsRun(c, Apply(c, s0, OfTimer(DrainUnlock)), before)
    requires var s2 := After(c, Apply(c, s0, OfTimer(DrainUnlock)), before);
             NoPusher(s2.flight) && Enabled(c, s2, OfTimer(FinalTakeAll(ids))) &&
             IsRun(c, Apply(c, s2, OfTimer(FinalTakeAll(ids))), later)
    requires var s2 := After(c, Apply(c, s0, OfTimer(DrainUnlock)), before);
             var s := After(c, Apply(c, s2, OfTimer(FinalTakeAll(ids))), later);
             TestsIdle(s) && !s.hand.Popped? && IsRun(c, s, rest)
    ensures var s2 := After(c, Apply(c, s0, OfTimer(DrainUnlock)), before);
            var s := After(c, Apply(c, s2, OfTimer(FinalTakeAll(ids))), later);
            AllSettled(s) && AllSettled(After(c, s, rest))
  {
    hide Enabled, Apply, Inv, Reachable, TestsIdle, AllSettled;
    var s1 := Apply(c, s0, OfTimer(DrainUnlock));
    var s2 := After(c, s1, before);
    var s3 := Apply(c, s2, OfTimer(FinalTakeAll(ids)));
    DrainTakes(c, s0, before, ids);
    RunSealed(c, s3, later);
    ReachableRun(c, s3, later);
    hide IsRun, After;
    StaysSettled(c, After(c, s3, later), rest);
  }

  /**
    * The stable case of Close's two readings. If the drain sealed the producer and the heap is shut, and when
    * Close reads no task the queue is empty too and nothing is popped, then all is settled and stays so: a nil
    * means it, whatever runs between the two readings.
    */
  lemma NilAfterStableZero(c: Config, s: State, between: seq<Step>)
    requires ValidConfig(c) && Reachable(c, s) && Sealed(s) && RetryShut(s)
    requires Enabled(c, s, OfClose(SeeZero)) && s.queue == [] && !s.hand.Popped?
    requires IsRun(c, Apply(c, s, OfClose(SeeZero)), between)
    ensures AllSettled(After(c, Apply(c, s, OfClose(SeeZero)), between))
  {
    hide Reachable, AllSettled, Sealed, RetryShut, IsRun, After, Apply;
    ShutdownInOrder(c, s);
    assert IsRun(c, s, [OfClose(SeeZero)] + between) &&
           After(c, s, [OfClose(SeeZero)] + between) == After(c, Apply(c, s, OfClose(SeeZero)), between) by {
      StepThenRun(c, s, OfClose(SeeZero), between);
    }
    StaysSettled(c, s, [OfClose(SeeZero)] + between);
  }

  /** Once idle without anything popped, a sealed and shut producer is settled for good. */
  lemma StaysSettled(c: Config, s: State, rest: seq<Step>)
    requires ValidConfig(c) && Reachable(c, s) && Sealed(s) && RetryShut(s)
    requires TestsIdle(s) && !s.hand.Popped? && IsRun(c, s, rest)
    ensures AllSettled(s) && AllSettled(After(c, s, rest))
  {
    hide Reachable, Inv, IsRun, After, TestsIdle, AllSettled;
    assert forall e <- s.store :: e.stage.Finished? by {
      IdleMeansSettled(c, s);
    }
    FinishedIsSettled(c, s);
    ReachableInv(c, s);
    RunSealed(c, s, rest);
    SettledForGood(c, s, rest);
    RunSameStore(c, s, rest);
    ReachableRun(c, s, rest);
    FinishedForward(s.store, After(c, s, rest).store);
    FinishedIsSettled(c, After(c, s, rest));
  }

  lemma FinishedForward(a: seq<Entry>, b: seq<Entry>)
    requires AllForward(a, b) && |a| == |b| && forall e <- a :: e.stage.Finished?
    ensures forall e <- b :: e.stage.Finished?
  {
    forall e | e in b
      ensures e.stage.Finished?
    {
      var id :| 0 <= id < |b| && b[id] == e;
      assert Forward(a[id], b[id]) && a[id] in a;
    }
  }

  /** A sealed producer takes in no batch. */
  lemma SealedSameStore(c: Config, s: State, st: Step)
    requires Sealed(s) && Enabled(c, s, st)
    ensures |Apply(c, s, st).store| == |s.store|
  {
    hide Quiet, Apply, MayTake;
    if Writes(s, st) {
      match st
      case OfSender(x) =>
      case OfWorker(w, x) =>
        WorkChanges(c, s, w, x);
        WorkApplied(c, s, w, x);
    } else {
      QuietSteps(c, s, st);
      QuietStore(s, Apply(c, s, st));
    }
  }

  lemma QuietStore(s: State, s': State)
    requires Quiet(s, s')
    ensures s'.store == s.store
  {
  }

  lemma {:induction false} RunSameStore(c: Config, s: State, steps: seq<Step>)
    requires Sealed(s) && IsRun(c, s, steps)
    ensures |After(c, s, steps).store| == |s.store|
    decreases |steps|
  {
    hide Sealed, Enabled, Apply;
    if steps != [] {
      SealedStays(c, s, steps[0]);
      SealedSameStore(c, s, steps[0]);
      RunSameStore(c, Apply(c, s, steps[0]), steps[1..]);
    }
  }

  /** After the last take the state is sealed and the heap shut for good. */
  lemma DrainTakes(c: Config, s0: State, before: seq<Step>, ids: seq<nat>)
    requires ValidConfig(c) && Reachable(c, s0) && s0.accStop && s0.retryStop
    requires Enabled(c, s0, OfTimer(DrainUnlock)) && IsRun(c, Apply(c, s0, OfTimer(DrainUnlock)), before)
    requires var s2 := After(c, Apply(c, s0, OfTimer(DrainUnlock)), before);
             NoPusher(s2.flight) && Enabled(c, s2, OfTimer(FinalTakeAll(ids)))
    ensures var s2 := After(c, Apply(c, s0, OfTimer(DrainUnlock)), before);
            var s3 := Apply(c, s2, OfTimer(FinalTakeAll(ids)));
            Sealed(s3) && RetryShut(s3) && Reachable(c, s3)
  {
    hide Reachable, Inv, Sealed, RetryShut, IsRun, After, NoPusher;
    var s1 := Apply(c, s0, OfTimer(DrainUnlock));
    var s2 := After(c, s1, before);
    var take := OfTimer(FinalTakeAll(ids));
    ReachableInv(c, s0);
    QuotaPart(c, s0);
    assert s1 == ApplyTimer(c, s0, DrainUnlock) && s1.retryStop;
    DrainSeals(c, s0);
    RunSealed(c, s1, before);
    FlagStays(c, s1, before);
    SealedStays(c, s2, take);
    assert Apply(c, s2, take) == ApplyTimer(c, s2, FinalTakeAll(ids));
    TakeShuts(c, s2, ids);
    ReachableStep(c, s0, OfTimer(DrainUnlock));
    ReachableRun(c, s1, before);
    ReachableStep(c, s2, take);
  }

  lemma QuotaPart(c: Config, s: State)
    requires Inv(c, s)
    ensures QuotaOk(c, s)
  {
  }

  lemma {:induction false} FlagStays(c: Config, s: State, steps: seq<Step>)
    requires s.retryStop && IsRun(c, s, steps)
    ensures After(c, s, steps).retryStop
    decreases |steps|
  {
    hide Enabled, Apply;
    if steps != [] {
      FlagStep(c, s, steps[0]);
      FlagStays(c, Apply(c, s, steps[0]), steps[1..]);
    }
  }

  lemma FlagStep(c: Config, s: State, st: Step)
    requires s.retryStop && Enabled(c, s, st)
    ensures Apply(c, s, st).retryStop
  {
    hide ApplyTimer, ApplyWork, ApplySender, ApplyDispatch;
    hide TimerEnabled, SenderEnabled, DispatchEnabled, WorkEnabled;
    match st
    case OfSender(x) => SenderFrame(c, s, x);
    case OfTimer(x) => TimerFrame(c, s, x);
    case OfDispatcher(x) => DispatchFrame(c, s, x);
    case OfWorker(w, x) => WorkFrame(c, s, w, x);
    case OfClose(x) =>
  }

  lemma FinishedIsSettled(c: Config, s: State)
    requires ValidConfig(c) && Reachable(c, s) && s.pending == map[] && !s.lock.Reserved?
    requires forall e <- s.store :: e.stage.Finished?
    ensures AllSettled(s)
  {
    hide Reachable, Inv;
    QuotaConserved(c, s);
    forall t: Topic
      ensures LogsOf(AcceptedFor(s.accepted, t)) == HandedLogs(s.store, s.handed, t)
    {
      NoLossNoRepeat(c, s, t);
      hide LogsOf, HandedLogs;
      assert PendingLogs(s, t) == [];
    }
  }

  // ----- The shutdown in order -----

  predicate Drains(t: TimerPc) {
    t.DrainWait? || t.Draining? || t.FinalTake? || t.FinalMoving? || t.TimerDone?
  }

  /** Close sets its flags one by one, the timer drains only when told to, and Close waits for its end. */
  ghost predicate Orderly(s: State) {
    && (s.timerStop <==> !s.closer.NotClosing?)
    && (s.accStop <==> !s.closer.NotClosing? && !s.closer.TimerFlagged?)
    && (s.retryStop <==> !s.closer.NotClosing? && !s.closer.TimerFlagged? && !s.closer.AccFlagged?)
    && (s.poolStop <==> s.closer.PoolFlagged? || s.closer.SawZero? || s.closer.CloseReturned?)
    && (s.poolStop ==> s.timer.TimerDone?)
    && (Drains(s.timer) ==> s.timerStop)
    && (s.hand.DispatcherDone? ==> s.poolStop)
  }

  lemma TimerOrderly(c: Config, s: State, st: TimerStep)
    requires TimerEnabled(s, st)
    ensures !s.timer.TimerDone? && (Drains(ApplyTimer(c, s, st).timer) ==> Drains(s.timer) || s.timerStop)
  {
    hide MayTake, Known, HandOver;
    if st.LingerVisit? {
      LingerFrame(c, s, st.topic, st.visitNow);
    } else if st.DrainOne? {
      HandOverFrame(s, st.topic);
    }
  }

  lemma DispatchOrderly(c: Config, s: State, st: DispatchStep)
    requires DispatchEnabled(c, s, st)
    ensures ApplyDispatch(c, s, st).hand.DispatcherDone? ==> s.poolStop
  {
    hide Tokens;
  }

  lemma CloseOrderly(s: State, st: CloseStep)
    requires Orderly(s) && CloseEnabled(s, st)
    ensures Orderly(ApplyClose(s, st))
  {
  }

  lemma StepOrderly(c: Config, s: State, st: Step)
    requires Orderly(s) && Enabled(c, s, st)
    ensures Orderly(Apply(c, s, st))
  {
    hide ApplySender, ApplyTimer, ApplyDispatch, ApplyWork, ApplyClose;
    hide TimerEnabled, SenderEnabled, DispatchEnabled, WorkEnabled, CloseEnabled;
    match st
    case OfSender(x) => SenderFrame(c, s, x);
    case OfTimer(x) =>
      TimerFrame(c, s, x);
      TimerOrderly(c, s, x);
    case OfDispatcher(x) =>
      DispatchFrame(c, s, x);
      DispatchOrderly(c, s, x);
    case OfWorker(w, x) => WorkFrame(c, s, w, x);
    case OfClose(x) => CloseOrderly(s, x);
  }

  lemma {:induction false} RunOrderly(c: Config, s: State, steps: seq<Step>)
    requires Orderly(s) && IsRun(c, s, steps)
    ensures Orderly(After(c, s, steps))
    decreases |steps|
  {
    hide Orderly, Enabled, Apply;
    if steps != [] {
      StepOrderly(c, s, steps[0]);
      RunOrderly(c, Apply(c, s, steps[0]), steps[1..]);
    }
  }

  /** In every reachable state the flags follow Close's progress, and no pool flag is set before the timer's end. */
  lemma ShutdownInOrder(c: Config, s: State)
    requires Reachable(c, s)
    ensures Orderly(s)
  {
    hide IsRun, After;
    var steps: seq<Step> :| IsRun(c, Start, steps) && After(c, Start, steps) == s;
    RunOrderly(c, Start, steps);
  }

  /** If nothing happens between its two tests, Close returns nil exactly when it sees idle. */
  lemma NilWhenIdle(c: Config, s: State)
    requires Reachable(c, s) && s.closer.PoolFlagged?
    ensures TestsIdle(s) <==>
            Enabled(c, s, OfClose(SeeZero)) && Enabled(c, Apply(c, s, OfClose(SeeZero)), OfClose(SeeIdle))
    ensures TestsIdle(s) ==>
            Apply(c, Apply(c, s, OfClose(SeeZero)), OfClose(SeeIdle)) == s.(closer := CloseReturned)
  {
    ShutdownInOrder(c, s);
  }
}
