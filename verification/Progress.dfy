/** From every state before Close everything accepted can still be settled: no party blocks another for good. */
module Progress {
  import opened Batch
  import opened Pipeline
  import opened Frames
  import opened Ownership
  import opened Accounts
  import opened Order
  import opened Runs
  import opened Reaching
  import opened Close

  // ----- The goroutines come to their ends -----

  ghost predicate AllExited(ws: seq<Work>) {
    forall w | 0 <= w < |ws| :: ws[w].Exited?
  }

  lemma PushAll(c: Config, s0: State, s: State, w: nat) returns (s': State)
    requires Reaches(c, s0, s) && w < |s.flight| && s.flight[w].Pushing? && Known(s, s.flight[w].id)
    ensures Reaches(c, s0, s') && WorkOnly(s, s') && s'.flight == s.flight[w := Exited]
  {
    hide Reaches, ApplyWork;
    IdleChanges(c, s, w, Push);
    WorkFrame(c, s, w, Push);
    ReachesNext(c, s0, s, OfWorker(w, Push));
    WorkApplied(c, s, w, Push);
    s' := EndStep(c, s0, ApplyWork(c, s, w, Push), w);
  }

  lemma DecideAll(c: Config, s0: State, s: State, w: nat) returns (s': State)
    requires Reaches(c, s0, s) && w < |s.flight| && s.flight[w].FlagClear? && Known(s, s.flight[w].id)
    ensures Reaches(c, s0, s') && WorkOnly(s, s') && s'.flight == s.flight[w := Exited]
  {
    hide Reaches, Requeued, Recorded;
    var s1 := HoldStep(c, s0, s, w, Decide(0, 0, 0));
    if s1.flight[w].Pushing? {
      s' := PushAll(c, s0, s1, w);
    } else {
      s' := SettleAll(c, s0, s1, w);
    }
  }

  /** Wherever a goroutine is, it can go on to its end. */
  lemma WorkerDone(c: Config, s0: State, s: State, w: nat) returns (s': State)
    requires Reaches(c, s0, s) && w < |s.flight| && !s.retryStop && (Holding(s.flight[w]) ==> Known(s, s.flight[w].id))
    ensures Reaches(c, s0, s') && WorkOnly(s, s') && s'.flight == s.flight[w := Exited]
  {
    hide Reaches;
    match s.flight[w]
    case Sending(_) => s' := SendAll(c, s0, s, w);
    case SendFailed(_, _) =>
      var s1 := HoldStep(c, s0, s, w, LoadFlag(0));
      s' := DecideAll(c, s0, s1, w);
    case FlagClear(_, _) => s' := DecideAll(c, s0, s, w);
    case Pushing(_) => s' := PushAll(c, s0, s, w);
    case Settling(_, _) => s' := SettleAll(c, s0, s, w);
    case Calling(_, _, _) => s' := CallAll(c, s0, s, w);
    case Closing => s' := EndStep(c, s0, s, w);
    case Uncounting => s' := EndStep(c, s0, s, w);
    case Exited => s' := s;
  }

  lemma {:induction false} WorkersDone(c: Config, s0: State, s: State, w: nat) returns (s': State)
    requires ValidConfig(c) && Reachable(c, s0) && Reaches(c, s0, s) && !s.retryStop
    requires w <= |s.flight| && forall v | 0 <= v < w :: s.flight[v].Exited?
    ensures Reaches(c, s0, s') && WorkOnly(s, s') && AllExited(s'.flight)
    decreases |s.flight| - w
  {
    hide Reachable, Reaches, ValidConfig;
    s' := s;
    if w < |s.flight| {
      HolderKnown(c, s0, s, w);
      var s1 := WorkerDone(c, s0, s, w);
      s' := WorkersDone(c, s0, s1, w + 1);
    }
  }

  lemma HolderKnown(c: Config, s0: State, s: State, w: nat)
    requires ValidConfig(c) && Reachable(c, s0) && Reaches(c, s0, s) && w < |s.flight|
    ensures Holding(s.flight[w]) ==> Known(s, s.flight[w].id)
  {
    hide Reachable, Reaches, Owned, Sound, QuotaOk, FiredOk, OrderOk, TasksOk;
    StillReachable(c, s0, s);
    ReachableInv(c, s);
    FitsNow(s, w);
  }

  // ----- The lock becomes free -----

  /** Before Close a sender that holds the lock gets as far as the test of the quota. */
  lemma SenderTests(c: Config, s0: State, s: State) returns (s': State)
    requires Reaches(c, s0, s) && !s.accStop && !s.lock.TimerHolds?
    ensures Reaches(c, s0, s') && s' == s.(lock := s'.lock) && (s'.lock.Free? || s'.lock.Tested? || s'.lock.Reserved?)
  {
    hide Reaches, ListBytes, Place, Admissible, Known;
    s' := s;
    if s'.lock.Locked? {
      ReachesNext(c, s0, s', OfSender(TestStop));
      s' := s'.(lock := Checked(s'.lock.call));
    }
    if s'.lock.Checked? {
      ReachesNext(c, s0, s', OfSender(LoadQuota));
      s' := s'.(lock := Loaded(s'.lock.call, s'.quota));
    }
    if s'.lock.Loaded? {
      ReachesNext(c, s0, s', OfSender(TestQuota));
      s' := s'.(lock := if s'.lock.cur + ListBytes(s'.lock.call.logs) > c.totalSizeLnBytes then Free
                        else Tested(s'.lock.call));
    }
  }

  /** It gets its call in or is refused, and lets go. */
  lemma SenderDone(c: Config, s0: State, s: State) returns (s': State)
    requires ValidConfig(c) && Reachable(c, s0) && Reaches(c, s0, s) && !s.accStop && !s.lock.TimerHolds?
    ensures Reaches(c, s0, s') && SenderOnly(s, s') && s'.lock.Free?
  {
    hide Reachable, Reaches, ListBytes, Place, Admissible, ValidConfig;
    s' := SenderTests(c, s0, s);
    if s'.lock.Tested? {
      ReachesNext(c, s0, s', OfSender(Reserve));
      s' := s'.(lock := Reserved(s'.lock.call), quota := s'.quota + ListBytes(s'.lock.call.logs));
    }
    if s'.lock.Reserved? {
      PendingKnown(c, s0, s');
      AppendFrame(c, s', 0, []);
      ReachesNext(c, s0, s', OfSender(Append(0, [])));
      s' := ApplySender(c, s', Append(0, []));
    }
  }

  lemma PendingKnown(c: Config, s0: State, s: State)
    requires ValidConfig(c) && Reachable(c, s0) && Reaches(c, s0, s)
    ensures forall t <- s.pending :: Known(s, s.pending[t])
  {
    hide Reachable, Reaches, Sound, QuotaOk, FiredOk, OrderOk, TasksOk;
    StillReachable(c, s0, s);
    ReachableInv(c, s);
    hide SinglePlace, RestWaits, WorkOk, HandedOk;
  }

  // ----- The timer comes around -----

  /** While the timer visits the pending map, it holds the lock, and what it has yet to visit is pending. */
  ghost predicate TodoOk(s: State) {
    s.timer.Lingering? ==> s.lock.TimerHolds? && s.timer.todo <= s.pending.Keys
  }

  lemma StepTodo(c: Config, s: State, st: Step)
    requires TodoOk(s) && Enabled(c, s, st)
    ensures TodoOk(Apply(c, s, st))
  {
    hide ApplySender, ApplyTimer, ApplyDispatch, ApplyWork, DispatchEnabled, WorkEnabled, TimerEnabled;
    match st
    case OfSender(x) => SenderFrame(c, s, x);
    case OfTimer(x) => TimerTodo(c, s, x);
    case OfDispatcher(x) => DispatchFrame(c, s, x);
    case OfWorker(w, x) => WorkFrame(c, s, w, x);
    case OfClose(x) =>
  }

  lemma TimerTodo(c: Config, s: State, st: TimerStep)
    requires TodoOk(s) && TimerEnabled(s, st)
    ensures TodoOk(ApplyTimer(c, s, st))
  {
    hide MayTake, Known, HandOver;
    if st.LingerVisit? {
      LingerFrame(c, s, st.topic, st.visitNow);
    } else if st.DrainOne? {
      HandOverFrame(s, st.topic);
    }
  }

  lemma {:induction false} RunTodo(c: Config, s: State, steps: seq<Step>)
    requires TodoOk(s) && IsRun(c, s, steps)
    ensures TodoOk(After(c, s, steps))
    decreases |steps|
  {
    hide TodoOk, Enabled, Apply;
    if steps != [] {
      StepTodo(c, s, steps[0]);
      RunTodo(c, Apply(c, s, steps[0]), steps[1..]);
    }
  }

  lemma ReachableTodo(c: Config, s0: State, s: State)
    requires Reachable(c, s0) && Reaches(c, s0, s)
    ensures TodoOk(s)
  {
    StillReachable(c, s0, s);
    hide IsRun, After;
    var steps: seq<Step> :| IsRun(c, Start, steps) && After(c, Start, steps) == s;
    RunTodo(c, Start, steps);
  }

  /** The rest of a pass over the pending map, at one clock reading. */
  lemma {:induction false} VisitAll(c: Config, s0: State, s: State, now: int) returns (s': State)
    requires ValidConfig(c) && Reachable(c, s0) && Reaches(c, s0, s) && s.timer.Lingering?
    ensures Reaches(c, s0, s') && TimerOnly(s, s') && s'.lock == s.lock && s'.heap == s.heap
    ensures s'.timer == Lingering(s.timer.now, {}) && s'.pending.Keys <= s.pending.Keys
    ensures (forall t <- s.timer.todo :: t in s.pending && Known(s, s.pending[t]) &&
               DueAt(s.store[s.pending[t]].b.createTimeMs, c.lingerMs, s.timer.now, now)) ==>
              s'.pending == s.pending - s.timer.todo
    decreases s.timer.todo
  {
    hide Reachable, Reaches, ValidConfig, DueAt, HandOver;
    s' := s;
    if s.timer.todo != {} {
      var t :| t in s.timer.todo;
      ReachableTodo(c, s0, s);
      PendingKnown(c, s0, s);
      VisitFrame(c, s, t, now);
      ReachesNext(c, s0, s, OfTimer(LingerVisit(t, now)));
      var s1 := ApplyTimer(c, s, LingerVisit(t, now));
      assert s1 == Apply(c, s, OfTimer(LingerVisit(t, now)));
      hide ApplyTimer;
      s' := VisitAll(c, s0, s1, now);
      assert s.pending - s.timer.todo == (s.pending - {t}) - (s.timer.todo - {t});
    }
  }

  lemma VisitFrame(c: Config, s: State, t: Topic, now: int)
    requires TimerEnabled(s, LingerVisit(t, now))
    ensures var s' := ApplyTimer(c, s, LingerVisit(t, now));
            && TimerOnly(s, s') && s'.lock == s.lock && s'.heap == s.heap
            && s'.timer == Lingering(s.timer.now, s.timer.todo - {t})
            && (s'.pending == s.pending || s'.pending == s.pending - {t})
            && (DueAt(s.store[s.pending[t]].b.createTimeMs, c.lingerMs, s.timer.now, now) ==>
                  s'.pending == s.pending - {t})
  {
    hide MayTake, DueAt;
    LingerFrame(c, s, t, now);
  }

  ghost predicate Ordered(ids: seq<nat>, key: nat -> int) {
    forall i, j | 0 <= i < j < |ids| :: key(ids[i]) <= key(ids[j])
  }

  lemma OrderedCons(x: nat, ids: seq<nat>, key: nat -> int)
    requires Ordered(ids, key) && forall y <- ids :: key(x) <= key(y)
    ensures Ordered([x] + ids, key)
  {
    forall i | 0 <= i < |ids| ensures key(x) <= key(ids[i]) { assert ids[i] in ids; }
  }

  lemma OrderedTail(ids: seq<nat>, key: nat -> int)
    requires Ordered(ids, key) && ids != []
    ensures Ordered(ids[1..], key) && forall y <- ids :: key(ids[0]) <= key(y)
    ensures multiset(ids) == multiset{ids[0]} + multiset(ids[1..])
  {
    assert ids == [ids[0]] + ids[1..];
  }

  /** Some ordering of a multiset by a key. */
  lemma {:induction false} Sorted(m: multiset<nat>, key: nat -> int) returns (ids: seq<nat>)
    ensures multiset(ids) == m && Ordered(ids, key)
    decreases |m|
  {
    if m == multiset{} {
      ids := [];
    } else {
      hide Ordered;
      var x :| x in m;
      var rest := Sorted(m - multiset{x}, key);
      ids := Inserted(rest, x, key);
    }
  }

  lemma {:induction false} Inserted(ids: seq<nat>, x: nat, key: nat -> int) returns (more: seq<nat>)
    requires Ordered(ids, key)
    ensures multiset(more) == multiset(ids) + multiset{x} && Ordered(more, key)
  {
    hide Ordered;
    if ids == [] {
      more := [x];
      OneOrdered(x, key);
    } else {
      OrderedTail(ids, key);
      if key(x) <= key(ids[0]) {
        more := [x] + ids;
        OrderedCons(x, ids, key);
      } else {
        var rest := Inserted(ids[1..], x, key);
        more := [ids[0]] + rest;
        forall y | y in rest
          ensures key(ids[0]) <= key(y)
        {
          assert y in multiset(rest);
          assert y == x || y in multiset(ids[1..]);
        }
        OrderedCons(ids[0], rest, key);
      }
    }
  }

  lemma OneOrdered(x: nat, key: nat -> int)
    ensures Ordered([x], key)
  {
  }

  /** Once all retries are due the timer takes them all. */
  lemma TakeAll(c: Config, s0: State, s: State) returns (s': State)
    requires ValidConfig(c) && Reachable(c, s0) && Reaches(c, s0, s) && s.timer.Retrying?
    ensures Reaches(c, s0, s') && s'.timer.Moving? && s'.heap == multiset{}
    ensures s' == s.(timer := s'.timer, heap := s'.heap)
  {
    hide Reachable, Reaches, ValidConfig, RetryKey;
    HeapKnown(c, s0, s);
    var key: nat -> int := (id: nat) => if Known(s, id) then RetryKey(s, id) else 0;
    var ids := Sorted(s.heap, key);
    var clock := seq(|ids|, i requires 0 <= i < |ids| => key(ids[i]) + 1);
    assert forall id <- ids :: id in multiset(ids);
    ReachesNext(c, s0, s, OfTimer(TakeRetries(ids, clock, false)));
    s' := s.(timer := Moving(ids), heap := multiset{});
  }

  lemma HeapKnown(c: Config, s0: State, s: State)
    requires ValidConfig(c) && Reachable(c, s0) && Reaches(c, s0, s)
    ensures forall id <- s.heap :: Known(s, id)
  {
    hide Reachable, Reaches;
    StillReachable(c, s0, s);
    forall id | id in s.heap
      ensures Known(s, id)
    {
      RestingWaits(c, s, id);
    }
  }

  lemma {:induction false} MoveAll(c: Config, s0: State, s: State) returns (s': State)
    requires Reaches(c, s0, s) && s.timer.Moving?
    ensures Reaches(c, s0, s') && s'.timer.Looping? && s' == s.(timer := Looping, queue := s'.queue)
    decreases |s.timer.list|
  {
    hide Reaches;
    ReachesNext(c, s0, s, OfTimer(MoveOne));
    if s.timer.list == [] {
      s' := s.(timer := Looping);
    } else {
      var s1 := s.(queue := s.queue + [s.timer.list[0]], timer := Moving(s.timer.list[1..]));
      s' := MoveAll(c, s0, s1);
    }
  }

  /** From the end of its pass over the pending map the timer takes what retries there are and starts over. */
  lemma Around(c: Config, s0: State, s: State) returns (s': State)
    requires ValidConfig(c) && Reachable(c, s0) && Reaches(c, s0, s) && s.timer.Retrying? && s.lock.Free?
    ensures Reaches(c, s0, s') && TimerOnly(s, s') && s'.timer.Looping? && s'.lock.Free?
    ensures s'.pending == s.pending && s'.heap == multiset{}
  {
    hide Reachable, Reaches;
    var s1 := TakeAll(c, s0, s);
    s' := MoveAll(c, s0, s1);
  }

  /** Wherever the timer is in its loop, it can come to the start of it. */
  lemma ToLooping(c: Config, s0: State, s: State) returns (s': State)
    requires ValidConfig(c) && Reachable(c, s0) && Reaches(c, s0, s) && !s.timerStop
    requires s.lock.Free? || s.lock.TimerHolds?
    ensures Reaches(c, s0, s') && TimerOnly(s, s') && s'.timer.Looping? && s'.lock.Free?
  {
    hide Reachable, Reaches, ValidConfig;
    InTheLoop(c, s0, s);
    s' := s;
    if s'.timer.LingerWait? {
      ReachesNext(c, s0, s', OfTimer(LingerLock(0)));
      s' := s'.(timer := Lingering(0, s'.pending.Keys), lock := TimerHolds);
    }
    if s'.timer.Lingering? {
      var s1 := VisitAll(c, s0, s', 0);
      ReachesNext(c, s0, s1, OfTimer(LingerUnlock));
      s' := s1.(timer := Retrying, lock := Free);
    }
    if s'.timer.Retrying? {
      s' := Around(c, s0, s');
    } else if s'.timer.Moving? {
      s' := MoveAll(c, s0, s');
    }
  }

  /** Before Close the timer does not drain, and it holds the lock exactly during its pass. */
  lemma InTheLoop(c: Config, s0: State, s: State)
    requires ValidConfig(c) && Reachable(c, s0) && Reaches(c, s0, s) && !s.timerStop
    ensures !Drains(s.timer) && (s.lock.TimerHolds? <==> s.timer.Lingering?)
  {
    hide Reachable, Reaches, Owned, Sound, FiredOk, OrderOk, TasksOk, Owed;
    StillReachable(c, s0, s);
    ShutdownInOrder(c, s);
    ReachableInv(c, s);
  }

  /** A time at which all of these batches are old enough. */
  lemma {:induction false} LatestDue(c: Config, s: State, topics: set<Topic>) returns (now: int)
    requires forall t <- topics :: t in s.pending && Known(s, s.pending[t])
    ensures forall t <- topics :: t in s.pending && Known(s, s.pending[t]) &&
              s.store[s.pending[t]].b.createTimeMs + c.lingerMs <= now
    decreases |topics|
  {
    if topics == {} {
      now := 0;
    } else {
      var t :| t in topics;
      var earlier := LatestDue(c, s, topics - {t});
      var due := s.store[s.pending[t]].b.createTimeMs + c.lingerMs;
      now := if due > earlier then due else earlier;
    }
  }

  /** A pass late enough hands over everything that was pending or to be retried. */
  lemma FullPass(c: Config, s0: State, s: State) returns (s': State)
    requires ValidConfig(c) && Reachable(c, s0) && Reaches(c, s0, s) && !s.timerStop
    requires s.timer.Looping? && s.lock.Free?
    ensures Reaches(c, s0, s') && TimerOnly(s, s') && s'.timer.Looping? && s'.lock.Free?
    ensures s'.pending == map[] && s'.heap == multiset{}
  {
    hide Reachable, Reaches, ValidConfig;
    PendingKnown(c, s0, s);
    var now := LatestDue(c, s, s.pending.Keys);
    ReachesNext(c, s0, s, OfTimer(TestTimerStop));
    var s1 := s.(timer := LingerWait);
    ReachesNext(c, s0, s1, OfTimer(LingerLock(now)));
    var s2 := s.(timer := Lingering(now, s.pending.Keys), lock := TimerHolds);
    var s3 := VisitAll(c, s0, s2, now);
    assert s3.pending == map[];
    ReachesNext(c, s0, s3, OfTimer(LingerUnlock));
    s' := Around(c, s0, s3.(timer := Retrying, lock := Free));
  }

  // ----- The dispatcher empties the queue -----

  /** Between two batches, with no goroutine running. */
  lemma ToNoTask(c: Config, s0: State, s: State) returns (s': State)
    requires ValidConfig(c) && Reachable(c, s0) && Reaches(c, s0, s) && !s.poolStop && AllExited(s.flight)
    ensures Reaches(c, s0, s') && s'.hand.NoTask? && s'.taskCount == 0 && SentOnly(s, s')
  {
    hide Reachable, Reaches, ValidConfig, Running;
    StillReachable(c, s0, s);
    ShutdownInOrder(c, s);
    TasksCounted(c, s);
    NoneCounted(s.flight);
    s' := s;
    if s.hand.Popped? || s.hand.Counted? {
      s' := SendPopped(c, s0, s);
    } else if s.hand.SawEmpty? {
      ReachesNext(c, s0, s, OfDispatcher(TestPoolStop));
      s' := s.(hand := NoTask);
    }
  }

  lemma {:induction false} NoneCounted(ws: seq<Work>)
    requires AllExited(ws)
    ensures Running(ws) == 0
  {
    if ws != [] {
      assert forall w | 0 <= w < |ws| - 1 :: ws[1..][w] == ws[w + 1];
      NoneCounted(ws[1..]);
    }
  }

  lemma {:induction false} EmptyQueue(c: Config, s0: State, s: State) returns (s': State)
    requires ValidConfig(c) && Reachable(c, s0) && Reaches(c, s0, s) && s.hand.NoTask? && s.taskCount == 0
    ensures Reaches(c, s0, s') && s'.hand.NoTask? && s'.taskCount == 0 && s'.queue == []
    ensures SentOnly(s.(queue := []), s')
    decreases |s.queue|
  {
    hide Reachable, Reaches, ValidConfig;
    s' := s;
    if s.queue != [] {
      ReachesNext(c, s0, s, OfDispatcher(Pop));
      var s1 := SendPopped(c, s0, s.(hand := Popped(s.queue[0]), queue := s.queue[1..]));
      s' := EmptyQueue(c, s0, s1);
    }
  }

  // ----- Together -----

  /** Nothing anywhere: everything is settled. */
  lemma NothingAnywhere(c: Config, s: State)
    requires ValidConfig(c) && Reachable(c, s) && s.lock.Free? && s.timer.Looping? && s.hand.NoTask?
    requires s.pending == map[] && s.queue == [] && s.heap == multiset{} && s.taskCount == 0
    ensures AllSettled(s)
  {
    hide Reachable, Sound, QuotaOk, FiredOk, OrderOk, TasksOk, Running, AllSettled;
    ReachableInv(c, s);
    TasksCounted(c, s);
    NoneRunning(s.flight);
    forall id | 0 <= id < |s.store|
      ensures s.store[id].stage.Finished?
    {
      NoneHeld(s.flight, id);
      assert Places(s, id) == Live(s.store, id);
    }
    FinishedIsSettled(c, s);
  }

  /** The goroutines end, the lock is let go, the timer comes around once, and the dispatcher empties the queue. */
  lemma CanSettle(c: Config, s: State)
    requires ValidConfig(c) && Reachable(c, s) && s.closer.NotClosing?
    ensures exists s' :: Reaches(c, s, s') && AllSettled(s') && s'.closer.NotClosing?
  {
    hide Reachable, Reaches, ValidConfig, AllSettled, AllExited;
    ReachesItself(c, s);
    ShutdownInOrder(c, s);
    var s1 := WorkersDone(c, s, s, 0);
    var s2 := s1;
    if !s1.lock.TimerHolds? {
      s2 := SenderDone(c, s, s1);
    }
    var s3 := ToLooping(c, s, s2);
    var s4 := FullPass(c, s, s3);
    var s5 := ToNoTask(c, s, s4);
    var s6 := EmptyQueue(c, s, s5);
    StillReachable(c, s, s6);
    NothingAnywhere(c, s6);
  }
}
