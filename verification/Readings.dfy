/** Which readings of Close are safe: exactly when every nil ahead means that all is settled. */
module Readings {
  import opened Batch
  import opened Pipeline
  import opened Frames
  import opened Ownership
  import opened Accounts
  import opened Order
  import opened Runs
  import opened Reaching
  import opened Close
  import opened Leftovers

  /** A queue can be emptied but for the last batch, which is popped and not counted. */
  lemma {:induction false} PopAll(c: Config, s0: State, s: State) returns (s': State)
    requires ValidConfig(c) && Reachable(c, s0) && Reaches(c, s0, s)
    requires s.hand.NoTask? && s.taskCount == 0 && s.queue != []
    ensures Reaches(c, s0, s') && s'.hand.Popped? && s'.queue == [] && s'.closer == s.closer
    decreases |s.queue|
  {
    hide Reachable, Reaches, ValidConfig;
    s' := s.(hand := Popped(s.queue[0]), queue := s.queue[1..]);
    ReachesNext(c, s0, s, OfDispatcher(Pop));
    if s'.queue != [] {
      var s1 := SendPopped(c, s0, s');
      s' := PopAll(c, s0, s1);
    }
  }

  /** From here on a nil from Close means that everything is settled. */
  ghost predicate NilIsHonest(c: Config, s: State) {
    forall s' | Reaches(c, s, s') && s'.closer.CloseReturned? :: AllSettled(s')
  }

  /** The lock holder, if there is one, is going to be refused. */
  predicate AppendsNothing(c: Config, s: State) {
    match s.lock
    case Free => true
    case Locked(_) => true
    case Checked(call) => ListBytes(call.logs) > c.totalSizeLnBytes
    case Loaded(call, cur) => cur + ListBytes(call.logs) > c.totalSizeLnBytes
    case _ => false
  }

  /** Nothing is left anywhere, and nothing is to come. */
  ghost predicate Emptied(c: Config, s: State) {
    && s.queue == [] && !s.hand.Popped? && s.pending == map[] && s.heap == multiset{} && AppendsNothing(c, s)
  }

  /**
    * Exactly when a producer in which Close is about to read that there is no task has only honest nils ahead:
    * nothing is queued, popped, pending or in the retry heap and the lock holder is going to be refused; or the
    * dispatcher is stopping before a queue that is not empty, which keeps Close from ever returning nil.
    */
  lemma NilHonestExactly(c: Config, s: State)
    requires ValidConfig(c) && Reachable(c, s) && Enabled(c, s, OfClose(SeeZero))
    ensures NilIsHonest(c, s) <==> Emptied(c, s) || (Stopping(s) && s.queue != [])
  {
    hide Reachable, Reaches, AllSettled, ValidConfig, Stopping, Emptied;
    if Emptied(c, s) || (Stopping(s) && s.queue != []) {
      forall s' | Reaches(c, s, s') && s'.closer.CloseReturned?
        ensures AllSettled(s')
      {
        OnlyHonest(c, s, s');
      }
    } else {
      Dishonest(c, s);
    }
  }

  /** For a sealed and shut producer only the queue and the dispatcher matter. */
  lemma NilHonestWhenShut(c: Config, s: State)
    requires ValidConfig(c) && Reachable(c, s) && Sealed(s) && RetryShut(s) && Enabled(c, s, OfClose(SeeZero))
    ensures NilIsHonest(c, s) <==> (s.queue == [] && !s.hand.Popped?) || Stopping(s)
  {
    hide Reachable, NilIsHonest, ValidConfig;
    NilHonestExactly(c, s);
  }

  // ----- Nothing left -----

  /** After the timer's end nothing is left, nothing is held, and nothing is to come. */
  ghost predicate Spent(c: Config, s: State) {
    s.timer.TimerDone? && s.accStop && Emptied(c, s) && NoneInHand(s)
  }

  lemma SpentIsSettled(c: Config, s: State)
    requires ValidConfig(c) && Reachable(c, s) && Spent(c, s)
    ensures AllSettled(s)
  {
    hide Reachable, NoneInHand;
    SettledExactly(c, s);
    FinishedIsSettled(c, s);
  }

  lemma SpentStays(c: Config, s: State, st: Step)
    requires Spent(c, s) && s.quota == 0 && Enabled(c, s, st)
    ensures Spent(c, Apply(c, s, st))
  {
    hide ApplyTimer, TimerEnabled, ApplyWork, WorkEnabled, ApplySender, SenderEnabled, ApplyDispatch, DispatchEnabled;
    hide ApplyClose, CloseEnabled, Emptied, NoneInHand;
    match st
    case OfSender(x) => SpentSender(c, s, x);
    case OfTimer(x) => TimerOrderly(c, s, x);
    case OfDispatcher(x) => SpentDispatch(c, s, x);
    case OfWorker(w, x) => SpentWork(c, s, w, x);
    case OfClose(x) => SpentClose(c, s, x);
  }

  /** Whoever touches none of this keeps it. */
  lemma SpentFrame(c: Config, s: State, s': State)
    requires Spent(c, s) && NoneInHand(s')
    requires s'.queue == s.queue && s'.pending == s.pending && s'.heap == s.heap && s'.lock == s.lock
    requires s'.timer == s.timer && s'.accStop
    ensures Spent(c, s')
  {
    hide ListBytes;
  }

  lemma SpentDispatch(c: Config, s: State, st: DispatchStep)
    requires Spent(c, s) && DispatchEnabled(c, s, st)
    ensures Spent(c, ApplyDispatch(c, s, st))
  {
    hide Tokens, AppendsNothing;
    DispatchFrame(c, s, st);
    SpentFrame(c, s, ApplyDispatch(c, s, st));
  }

  lemma SpentWork(c: Config, s: State, w: nat, st: WorkStep)
    requires Spent(c, s) && WorkEnabled(s, w, st)
    ensures Spent(c, ApplyWork(c, s, w, st))
  {
    hide ApplyWork, Emptied;
    WorkFrame(c, s, w, st);
    IdleChanges(c, s, w, st);
    SpentFrame(c, s, ApplyWork(c, s, w, st));
  }

  lemma SpentClose(c: Config, s: State, st: CloseStep)
    requires Spent(c, s) && CloseEnabled(s, st)
    ensures Spent(c, ApplyClose(s, st))
  {
    hide Emptied;
    SpentFrame(c, s, ApplyClose(s, st));
  }

  lemma SpentSender(c: Config, s: State, st: SenderStep)
    requires Spent(c, s) && s.quota == 0 && SenderEnabled(s, st)
    ensures Spent(c, ApplySender(c, s, st))
  {
    hide Place, ListBytes, Known, Admissible;
  }

  lemma {:induction false} RunSpent(c: Config, s: State, rest: seq<Step>)
    requires ValidConfig(c) && Reachable(c, s) && Spent(c, s) && IsRun(c, s, rest)
    ensures AllSettled(After(c, s, rest))
    decreases |rest|
  {
    hide Reachable, Enabled, Apply, Spent;
    SpentIsSettled(c, s);
    if rest != [] {
      SpentStays(c, s, rest[0]);
      ReachableStep(c, s, rest[0]);
      RunSpent(c, Apply(c, s, rest[0]), rest[1..]);
    }
  }

  /** At the reading of the count nobody holds a batch, so nothing left is nothing left for good. */
  lemma EmptiedIsSpent(c: Config, s: State)
    requires ValidConfig(c) && Reachable(c, s) && Enabled(c, s, OfClose(SeeZero)) && Emptied(c, s)
    ensures Spent(c, s)
  {
    hide Reachable, NoneInHand, AppendsNothing;
    ShutdownInOrder(c, s);
    NobodyHolds(c, s);
  }

  lemma NobodyHolds(c: Config, s: State)
    requires ValidConfig(c) && Reachable(c, s) && Enabled(c, s, OfClose(SeeZero)) && !s.hand.Popped?
    ensures NoneInHand(s)
  {
    hide Reachable, Running;
    TasksCounted(c, s);
    NoneRunning(s.flight);
  }

  lemma OnlyHonest(c: Config, s: State, s': State)
    requires ValidConfig(c) && Reachable(c, s) && Enabled(c, s, OfClose(SeeZero))
    requires Emptied(c, s) || (Stopping(s) && s.queue != [])
    requires Reaches(c, s, s') && s'.closer.CloseReturned?
    ensures AllSettled(s')
  {
    hide Reachable, Emptied, AllSettled, ValidConfig, IsRun, After, Spent;
    var steps: seq<Step> :| IsRun(c, s, steps) && After(c, s, steps) == s';
    if Emptied(c, s) {
      EmptiedIsSpent(c, s);
      RunSpent(c, s, steps);
    } else {
      QueueForGood(c, s, steps);
      assert false;
    }
  }

  // ----- Something left -----

  /** Close can return nil at once, and what is left, or is to come, is not settled. */
  lemma Dishonest(c: Config, s: State)
    requires ValidConfig(c) && Reachable(c, s) && Enabled(c, s, OfClose(SeeZero))
    requires !Emptied(c, s) && !(Stopping(s) && s.queue != [])
    ensures exists s' :: Reaches(c, s, s') && s'.closer.CloseReturned? && !AllSettled(s')
  {
    hide Reachable, Reaches, ValidConfig, AllSettled, ListBytes;
    if !Stopping(s) && (s.queue != [] || s.hand.Popped?) {
      EarlyNil(c, s);
    } else {
      ReachesItself(c, s);
      ReachesNext(c, s, s, OfClose(SeeZero));
      ReachesNext(c, s, s.(closer := SawZero), OfClose(SeeIdle));
      var s1 := s.(closer := CloseReturned);
      StillReachable(c, s, s1);
      if s.pending != map[] || s.heap != multiset{} {
        SomeLeft(c, s1);
      } else {
        ShutdownInOrder(c, s);
        NobodyHolds(c, s);
        LateSender(c, s, s1);
      }
    }
  }

  lemma SomeLeft(c: Config, s: State)
    requires ValidConfig(c) && Reachable(c, s) && (s.pending != map[] || s.heap != multiset{})
    ensures !AllSettled(s)
  {
    hide Reachable;
    if s.pending != map[] {
      var t: Topic :| t in s.pending;
      assert s.pending[t] in s.pending.Values;
      RestingWaits(c, s, s.pending[t]);
      assert s.store[s.pending[t]] in s.store;
    } else {
      var id :| id in s.heap;
      RestingWaits(c, s, id);
      assert s.store[id] in s.store;
    }
  }

  /** A sender past the flag test that is not going to be refused appends its call after the nil. */
  lemma LateSender(c: Config, s0: State, s: State)
    requires ValidConfig(c) && Reachable(c, s0) && Reaches(c, s0, s) && s.closer.CloseReturned? && s.timer.TimerDone?
    requires s.queue == [] && s.pending == map[] && s.heap == multiset{} && NoneInHand(s) && !AppendsNothing(c, s)
    ensures exists s' :: Reaches(c, s0, s') && s'.closer.CloseReturned? && !AllSettled(s')
  {
    hide Reachable, Reaches, ListBytes, AllSettled, Place, AppendsNothing;
    StillReachable(c, s0, s);
    if s.lock.Checked? {
      SettledExactly(c, s);
    }
    NoTimerHolds(c, s);
    var s1 := ToReserved(c, s0, s);
    ReachesNext(c, s0, s1, OfSender(Append(0, [])));
    var s2 := ApplySender(c, s1, Append(0, []));
    AppendedLate(c, s1, s2);
    StillReachable(c, s0, s2);
    SomeLeft(c, s2);
  }

  lemma ToReserved(c: Config, s0: State, s: State) returns (s1: State)
    requires Reaches(c, s0, s) && !s.lock.TimerHolds? && !AppendsNothing(c, s) && (s.lock.Checked? ==> s.quota == 0)
    ensures Reaches(c, s0, s1) && s1.lock.Reserved? && s1 == s.(lock := s1.lock, quota := s1.quota)
  {
    hide Reaches, ListBytes, Place, Admissible, Known;
    s1 := s;
    if s1.lock.Checked? {
      ReachesNext(c, s0, s1, OfSender(LoadQuota));
      s1 := s1.(lock := Loaded(s1.lock.call, s1.quota));
    }
    if s1.lock.Loaded? {
      ReachesNext(c, s0, s1, OfSender(TestQuota));
      s1 := s1.(lock := Tested(s1.lock.call));
    }
    if s1.lock.Tested? {
      ReachesNext(c, s0, s1, OfSender(Reserve));
      s1 := s1.(lock := Reserved(s1.lock.call), quota := s1.quota + ListBytes(s1.lock.call.logs));
    }
  }

  lemma NoTimerHolds(c: Config, s: State)
    requires ValidConfig(c) && Reachable(c, s) && s.timer.TimerDone?
    ensures !s.lock.TimerHolds?
  {
    hide Reachable, Owned, Sound, FiredOk, OrderOk, TasksOk, Owed;
    ReachableInv(c, s);
  }

  lemma AppendedLate(c: Config, s: State, s': State)
    requires s.lock.Reserved? && s.pending == map[] && s' == ApplySender(c, s, Append(0, []))
    ensures s'.pending != map[] && s'.closer == s.closer
  {
    hide NewEntry, ListBytes;
    assert s.lock.call.topic in s'.pending;
  }

  /** Something is queued or popped and the dispatcher goes on: a run to a nil with a popped batch uncounted. */
  lemma EarlyNil(c: Config, s: State)
    requires ValidConfig(c) && Reachable(c, s) && Enabled(c, s, OfClose(SeeZero))
    requires (s.queue != [] || s.hand.Popped?) && !Stopping(s)
    ensures exists s' :: Reaches(c, s, s') && s'.closer.CloseReturned? && !AllSettled(s')
  {
    hide Reachable, Reaches, ValidConfig;
    ReachesItself(c, s);
    ReachesNext(c, s, s, OfClose(SeeZero));
    var s1 := s.(closer := SawZero);
    HandIs(c, s);
    if s.hand.Popped? && s.queue != [] {
      s1 := SendPopped(c, s, s1);
    }
    if s1.queue != [] {
      s1 := PopAll(c, s, s1);
    }
    ReachesNext(c, s, s1, OfClose(SeeIdle));
    var s' := s1.(closer := CloseReturned);
    StillReachable(c, s, s');
    RestingWaits(c, s', s'.hand.id);
    assert s'.store[s'.hand.id] in s'.store;
  }

  /** When Close reads that there is no task, the dispatcher has none in hand that is counted. */
  lemma HandIs(c: Config, s: State)
    requires ValidConfig(c) && Reachable(c, s) && Enabled(c, s, OfClose(SeeZero)) && !Stopping(s)
    ensures s.hand.NoTask? || s.hand.Popped?
  {
    hide Reachable, Running;
    TasksCounted(c, s);
    ShutdownInOrder(c, s);
  }
}
