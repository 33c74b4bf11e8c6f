/** What is never settled once the timer or the dispatcher has ended. */
module Leftovers {
  import opened Basics
  import opened Batch
  import opened Pipeline
  import opened Frames
  import opened Ownership
  import opened Runs
  import opened Reaching
  import opened Close

  // ----- What each end leaves behind -----

  /** The timer has ended and no sender is past the test of the accumulator's flag. */
  ghost predicate TimerGone(s: State) {
    s.timer.TimerDone? && s.accStop && (s.lock.Free? || s.lock.Locked?)
  }

  /** The dispatcher has ended, or is about to find the pool's flag set. */
  ghost predicate Stopping(s: State) {
    s.hand.DispatcherDone? || (s.hand.SawEmpty? && s.poolStop)
  }

  /** Once the timer has ended nothing leaves the heap. */
  lemma HeapOnlyGrows(c: Config, s: State, st: Step)
    requires s.timer.TimerDone? && Enabled(c, s, st)
    ensures Apply(c, s, st).timer.TimerDone? && s.heap <= Apply(c, s, st).heap
  {
    hide ApplySender, ApplyTimer, ApplyDispatch, ApplyWork;
    hide TimerEnabled, SenderEnabled, DispatchEnabled, WorkEnabled, CloseEnabled;
    match st
    case OfSender(x) => SenderFrame(c, s, x);
    case OfTimer(x) => TimerOrderly(c, s, x);
    case OfDispatcher(x) => DispatchFrame(c, s, x);
    case OfWorker(w, x) =>
      WorkFrame(c, s, w, x);
      WorkHeap(c, s, w, x);
    case OfClose(x) =>
  }

  lemma WorkHeap(c: Config, s: State, w: nat, st: WorkStep)
    requires WorkEnabled(s, w, st)
    ensures s.heap <= ApplyWork(c, s, w, st).heap
  {
    hide ApplyWork, Outcome;
    if Holding(s.flight[w]) && !st.Push? {
      WorkChanges(c, s, w, st);
    } else {
      IdleChanges(c, s, w, st);
    }
  }

  /** Once the timer has ended and the senders are shut out, the pending map stays as it is. */
  lemma PendingStays(c: Config, s: State, st: Step)
    requires TimerGone(s) && Enabled(c, s, st)
    ensures TimerGone(Apply(c, s, st)) && Apply(c, s, st).pending == s.pending
    ensures Stopping(s) ==> Apply(c, s, st).queue == s.queue
  {
    hide ApplySender, ApplyDispatch, ApplyTimer, ApplyWork;
    hide SenderEnabled, DispatchEnabled, TimerEnabled, WorkEnabled, CloseEnabled;
    match st
    case OfSender(x) => ShutOut(c, s, x);
    case OfTimer(x) => TimerOrderly(c, s, x);
    case OfDispatcher(x) =>
      DispatchFrame(c, s, x);
      if Stopping(s) {
        NothingPopped(c, s, x);
      }
    case OfWorker(w, x) => WorkFrame(c, s, w, x);
    case OfClose(x) =>
  }

  /** A sender gets no further than the flag. */
  lemma ShutOut(c: Config, s: State, st: SenderStep)
    requires TimerGone(s) && SenderEnabled(s, st)
    ensures ApplySender(c, s, st) == s.(lock := ApplySender(c, s, st).lock) && TimerGone(ApplySender(c, s, st))
  {
    hide Place, ListBytes, Known, Admissible;
  }

  lemma NothingPopped(c: Config, s: State, st: DispatchStep)
    requires Stopping(s) && DispatchEnabled(c, s, st)
    ensures ApplyDispatch(c, s, st) == s.(hand := DispatcherDone)
  {
    hide Tokens;
  }

  /** A stopping dispatcher takes nothing from the queue any more. */
  lemma QueueOnlyGrows(c: Config, s: State, st: Step)
    requires Stopping(s) && Enabled(c, s, st)
    ensures Stopping(Apply(c, s, st)) && s.queue <= Apply(c, s, st).queue
  {
    hide ApplySender, ApplyTimer, ApplyWork, SenderEnabled, TimerEnabled, WorkEnabled, DispatchEnabled, ApplyDispatch;
    match st
    case OfSender(x) =>
      SenderFrame(c, s, x);
      SenderQueue(c, s, x);
    case OfTimer(x) =>
      TimerFrame(c, s, x);
      TimerQueue(c, s, x);
    case OfDispatcher(x) => NothingPopped(c, s, x);
    case OfWorker(w, x) => WorkFrame(c, s, w, x);
    case OfClose(x) =>
  }

  lemma SenderQueue(c: Config, s: State, st: SenderStep)
    requires SenderEnabled(s, st)
    ensures s.queue <= ApplySender(c, s, st).queue
  {
    hide Place, ListBytes, Admissible;
    if st.Append? {
      AppendFrame(c, s, st.now, st.pkg);
      PlaceQueue(c, s, s.lock.call, st.now, st.pkg);
    }
  }

  lemma PlaceQueue(c: Config, s: State, call: Call, now: int, pkg: bytes)
    requires call.topic in s.pending ==> Known(s, s.pending[call.topic])
    ensures s.queue <= Place(c, s, call, now, pkg).queue
  {
    hide HandOver, NewPending, NewEntry, GrownEntry, BranchOf, ListBytes, Charged;
    if call.topic in s.pending {
      var id := s.pending[call.topic];
      var e := s.store[id];
      HandOverQueue(Put(s, id, GrownEntry(e, call)), call.topic);
      var flushed := HandOver(Put(s, id, e.(b := Charged(e.b, ListBytes(call.logs)))), call.topic);
      HandOverQueue(Put(s, id, e.(b := Charged(e.b, ListBytes(call.logs)))), call.topic);
      NewPendingQueue(c, flushed, call, now, pkg);
    } else {
      NewPendingQueue(c, s, call, now, pkg);
    }
  }

  lemma HandOverQueue(s: State, t: Topic)
    requires t in s.pending
    ensures s.queue <= HandOver(s, t).queue
  {
  }

  lemma NewPendingQueue(c: Config, s: State, call: Call, now: int, pkg: bytes)
    ensures NewPending(c, s, call, now, pkg).queue == s.queue
  {
    hide NewEntry;
  }

  lemma TimerQueue(c: Config, s: State, st: TimerStep)
    requires TimerEnabled(s, st)
    ensures s.queue <= ApplyTimer(c, s, st).queue
  {
    hide MayTake, Known, DueAt, HandOver;
    if st.LingerVisit? {
      HandOverQueue(s, st.topic);
    } else if st.DrainOne? {
      HandOverQueue(s, st.topic);
    }
  }

  lemma {:induction false} RunLeaves(c: Config, s: State, rest: seq<Step>)
    requires IsRun(c, s, rest)
    ensures s.timer.TimerDone? ==> s.heap <= After(c, s, rest).heap
    ensures TimerGone(s) ==> After(c, s, rest).pending == s.pending
    ensures Stopping(s) ==> Stopping(After(c, s, rest)) && s.queue <= After(c, s, rest).queue
    ensures Stopping(s) && TimerGone(s) ==> After(c, s, rest).queue == s.queue
    decreases |rest|
  {
    hide Enabled, Apply, TimerGone, Stopping;
    if rest != [] {
      var s' := Apply(c, s, rest[0]);
      if s.timer.TimerDone? {
        HeapOnlyGrows(c, s, rest[0]);
      }
      if TimerGone(s) {
        PendingStays(c, s, rest[0]);
      }
      if Stopping(s) {
        QueueOnlyGrows(c, s, rest[0]);
      }
      RunLeaves(c, s', rest[1..]);
    }
  }

  /** What is pending when the timer has ended and the senders are shut out is never sent, whatever runs. */
  lemma PendingForGood(c: Config, s: State, rest: seq<Step>)
    requires ValidConfig(c) && Reachable(c, s) && TimerGone(s) && IsRun(c, s, rest)
    ensures var s' := After(c, s, rest);
            s'.pending == s.pending && forall id <- s.pending.Values :: WaitingAt(s'.store, id)
  {
    hide Reachable, IsRun, After, TimerGone, Stopping, WaitingAt;
    RunLeaves(c, s, rest);
    ReachableRun(c, s, rest);
    forall id | id in s.pending.Values
      ensures WaitingAt(After(c, s, rest).store, id)
    {
      RestingWaits(c, After(c, s, rest), id);
    }
  }

  /** What is in the retry heap when the timer has ended is never sent again, whatever runs. */
  lemma HeapForGood(c: Config, s: State, rest: seq<Step>)
    requires ValidConfig(c) && Reachable(c, s) && s.timer.TimerDone? && IsRun(c, s, rest)
    ensures var s' := After(c, s, rest);
            s.heap <= s'.heap && forall id <- s.heap :: WaitingAt(s'.store, id)
  {
    hide Reachable, IsRun, After, TimerGone, Stopping, WaitingAt;
    RunLeaves(c, s, rest);
    ReachableRun(c, s, rest);
    forall id | id in s.heap
      ensures WaitingAt(After(c, s, rest).store, id)
    {
      RestingWaits(c, After(c, s, rest), id);
    }
  }

  /** What is queued when the dispatcher ends is never sent, and if that is anything Close never returns nil. */
  lemma QueueForGood(c: Config, s: State, rest: seq<Step>)
    requires ValidConfig(c) && Reachable(c, s) && Stopping(s) && IsRun(c, s, rest)
    ensures var s' := After(c, s, rest);
            s.queue <= s'.queue && forall id <- s.queue :: WaitingAt(s'.store, id)
    ensures s.queue != [] && !s.closer.CloseReturned? ==> !After(c, s, rest).closer.CloseReturned?
  {
    hide Reachable, IsRun, After, TimerGone, Stopping, WaitingAt;
    RunLeaves(c, s, rest);
    ReachableRun(c, s, rest);
    forall id | id in s.queue
      ensures WaitingAt(After(c, s, rest).store, id)
    {
      RestingWaits(c, After(c, s, rest), id);
    }
    if s.queue != [] && !s.closer.CloseReturned? {
      NeverNil(c, s, rest);
    }
  }

  lemma {:induction false} NeverNil(c: Config, s: State, rest: seq<Step>)
    requires Stopping(s) && s.queue != [] && !s.closer.CloseReturned? && IsRun(c, s, rest)
    ensures !After(c, s, rest).closer.CloseReturned?
    decreases |rest|
  {
    hide Enabled, Apply, Stopping;
    if rest != [] {
      QueueOnlyGrows(c, s, rest[0]);
      CloserMoves(c, s, rest[0]);
      NeverNil(c, Apply(c, s, rest[0]), rest[1..]);
    }
  }

  /** Only Close's own step on an empty queue makes it return nil. */
  lemma CloserMoves(c: Config, s: State, st: Step)
    requires Enabled(c, s, st) && s.queue != [] && !s.closer.CloseReturned?
    ensures !Apply(c, s, st).closer.CloseReturned?
  {
    hide ApplySender, ApplyTimer, ApplyDispatch, ApplyWork;
    hide TimerEnabled, SenderEnabled, DispatchEnabled, WorkEnabled;
    match st
    case OfSender(x) => SenderFrame(c, s, x);
    case OfTimer(x) => TimerFrame(c, s, x);
    case OfDispatcher(x) => DispatchFrame(c, s, x);
    case OfWorker(w, x) => WorkFrame(c, s, w, x);
    case OfClose(x) =>
  }

  /**
    * The dispatcher saw an empty queue earlier and now finds the pool's flag set. It ends, and, no sender being
    * past the flag test, something stays queued for good exactly if the queue is not empty by now.
    */
  lemma StopsExactly(c: Config, s: State, rest: seq<Step>)
    requires ValidConfig(c) && Reachable(c, s) && TimerGone(s)
    requires s.poolStop && Enabled(c, s, OfDispatcher(TestPoolStop))
    requires IsRun(c, Apply(c, s, OfDispatcher(TestPoolStop)), rest)
    ensures var s' := After(c, Apply(c, s, OfDispatcher(TestPoolStop)), rest);
            s'.hand.DispatcherDone? && s'.queue == s.queue && forall id <- s.queue :: WaitingAt(s'.store, id)
    ensures s.queue != [] && !s.closer.CloseReturned? ==>
            !After(c, Apply(c, s, OfDispatcher(TestPoolStop)), rest).closer.CloseReturned?
  {
    hide Reachable, IsRun, After, WaitingAt;
    var s1 := Apply(c, s, OfDispatcher(TestPoolStop));
    ReachableStep(c, s, OfDispatcher(TestPoolStop));
    RunLeaves(c, s1, rest);
    DoneStays(c, s1, rest);
    QueueForGood(c, s1, rest);
  }

  lemma {:induction false} DoneStays(c: Config, s: State, rest: seq<Step>)
    requires s.hand.DispatcherDone? && IsRun(c, s, rest)
    ensures After(c, s, rest).hand.DispatcherDone?
    decreases |rest|
  {
    hide Enabled, Apply;
    if rest != [] {
      DoneStep(c, s, rest[0]);
      DoneStays(c, Apply(c, s, rest[0]), rest[1..]);
    }
  }

  lemma DoneStep(c: Config, s: State, st: Step)
    requires s.hand.DispatcherDone? && Enabled(c, s, st)
    ensures Apply(c, s, st).hand.DispatcherDone?
  {
    hide ApplySender, ApplyTimer, ApplyWork, TimerEnabled, SenderEnabled, WorkEnabled;
    match st
    case OfSender(x) => SenderFrame(c, s, x);
    case OfTimer(x) => TimerFrame(c, s, x);
    case OfDispatcher(x) =>
    case OfWorker(w, x) => WorkFrame(c, s, w, x);
    case OfClose(x) =>
  }
}
