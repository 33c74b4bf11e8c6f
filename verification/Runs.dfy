/** What holds after every run of the producer, however its parties interleave. */
module Runs {
  import opened Basics
  import opened Messages
  import opened Batch
  import opened Pipeline
  import opened Frames
  import opened Ownership
  import opened Accounts
  import opened Order

  ghost predicate Inv(c: Config, s: State) {
    Owned(s) && Sound(c, s) && QuotaOk(c, s) && FiredOk(s) && OrderOk(s) && TasksOk(c, s)
  }

  lemma StepKeeps(c: Config, s: State, st: Step)
    requires ValidConfig(c) && Inv(c, s) && Enabled(c, s, st)
    ensures Inv(c, Apply(c, s, st))
  {
    hide Owned, Sound, QuotaOk, FiredOk, OrderOk, TasksOk, Enabled, Apply;
    StepOwned(c, s, st);
    StepSound(c, s, st);
    StepQuota(c, s, st);
    StepFired(c, s, st);
    StepOrder(c, s, st);
    StepTasks(c, s, st);
  }

  lemma StartKeeps(c: Config)
    requires ValidConfig(c)
    ensures Inv(c, Start)
  {
    StartOwned();
  }

  lemma {:induction false} RunKeeps(c: Config, s: State, steps: seq<Step>)
    requires ValidConfig(c) && Inv(c, s) && IsRun(c, s, steps)
    ensures Inv(c, After(c, s, steps))
    decreases |steps|
  {
    hide Inv, Enabled, Apply;
    if steps != [] {
      StepKeeps(c, s, steps[0]);
      RunKeeps(c, Apply(c, s, steps[0]), steps[1..]);
    }
  }

  /** A state some run of the producer reaches. */
  ghost predicate Reachable(c: Config, s: State) {
    exists steps: seq<Step> :: IsRun(c, Start, steps) && After(c, Start, steps) == s
  }

  lemma ReachableInv(c: Config, s: State)
    requires ValidConfig(c) && Reachable(c, s)
    ensures Inv(c, s)
  {
    hide Inv;
    var steps: seq<Step> :| IsRun(c, Start, steps) && After(c, Start, steps) == s;
    StartKeeps(c);
    RunKeeps(c, Start, steps);
  }

  // ----- Ownership and quota -----

  /**
    * A batch that is not finished is in exactly one of: the pending map, the queue, the dispatcher's hand,
    * the retry heap, the timer's list, one goroutine. A finished batch is in none.
    */
  lemma OnePlace(c: Config, s: State, id: nat)
    requires ValidConfig(c) && Reachable(c, s)
    ensures Places(s, id) == (if Known(s, id) && !s.store[id].stage.Finished? then 1 else 0)
    ensures forall w | 0 <= w < |s.flight| && Holding(s.flight[w]) && s.flight[w].id == id ::
              Resting(s, id) == 0 && WorkFits(s.store, s.flight[w])
  {
    ReachableInv(c, s);
    hide Sound, QuotaOk, FiredOk, OrderOk, TasksOk, Resting, Places, WorkFits;
    assert Places(s, id) == Live(s.store, id);
    forall w | 0 <= w < |s.flight| && Holding(s.flight[w]) && s.flight[w].id == id
      ensures Resting(s, id) == 0 && WorkFits(s.store, s.flight[w])
    {
      SoleOwner(s, w);
      FitsNow(s, w);
    }
  }

  /** The counter is what the unsettled batches owe plus what the lock holder has reserved, and stays in bounds. */
  lemma QuotaConserved(c: Config, s: State)
    requires ValidConfig(c) && Reachable(c, s)
    ensures s.quota == Owed(s.store) + Charge(s.lock)
    ensures 0 <= s.quota <= c.totalSizeLnBytes
    ensures forall e <- s.store :: AllFilled(e.b.logs) && e.b.accountedSize == ListBytes(e.b.logs)
    ensures (forall e <- s.store :: e.stage.Finished?) && !s.lock.Reserved? ==> s.quota == 0
  {
    ReachableInv(c, s);
    hide Owned, FiredOk, OrderOk, TasksOk;
    OwedNonNegative(c, s.store);
    forall e | e in s.store
      ensures AllFilled(e.b.logs) && e.b.accountedSize == ListBytes(e.b.logs)
    {
      assert EntryOk(c, e);
      hide Attempted, Sized, ListBytes;
    }
    if forall e <- s.store :: e.stage.Finished? {
      NothingOwed(s.store);
    }
  }

  lemma {:induction false} NothingOwed(store: seq<Entry>)
    requires forall e <- store :: e.stage.Finished?
    ensures Owed(store) == 0
  {
    if store != [] {
      NothingOwed(store[..|store| - 1]);
    }
  }

  // ----- Order -----

  /**
    * For each topic, the logs of its batches in the order of first hand-over, then those of its pending
    * batch, are the accepted logs in the order the lock was taken. No batch is handed over twice.
    */
  lemma NoLossNoRepeat(c: Config, s: State, t: Topic)
    requires ValidConfig(c) && Reachable(c, s)
    ensures LogsOf(AcceptedFor(s.accepted, t)) == HandedLogs(s.store, s.handed, t) + PendingLogs(s, t)
    ensures forall i, j | 0 <= i < j < |s.handed| :: s.handed[i] != s.handed[j]
    ensures forall id <- s.handed :: Known(s, id) && id !in s.pending.Values
  {
    ReachableInv(c, s);
    hide QuotaOk, FiredOk, TasksOk, OrderOk, SinglePlace, RestWaits, WorkOk, PendingOk, Sound;
    LogsInOrder(c, s, t);
  }

  // ----- Settling -----

  /** The settled outcome of a batch, once there is one. */
  function OutcomeOf(stage: Stage): Option<bool> {
    match stage
    case Decided(ok) => Some(ok)
    case Released(ok, _) => Some(ok)
    case Finished(ok) => Some(ok)
    case _ => None
  }

  /** Nothing is called before the quota is released; then each callback once and in order, with one outcome. */
  lemma SettledOnce(c: Config, s: State, id: nat)
    requires ValidConfig(c) && Reachable(c, s) && Known(s, id)
    ensures var e := s.store[id];
            && e.b.callbacks == CallbacksOf(e.calls) && e.b.logs == LogsOf(e.calls)
            && (e.stage.Waiting? || e.stage.Failing? || e.stage.Decided? ==> FiredOf(s.fired, id) == [])
            && (e.stage.Released? ==>
                  e.stage.fired <= |e.b.callbacks| && FiredOf(s.fired, id) == FirstFirings(id, e.stage.fired, e.lastOk))
            && (e.stage.Finished? ==> FiredOf(s.fired, id) == FirstFirings(id, |e.b.callbacks|, e.lastOk))
    ensures var e := s.store[id];
            OutcomeOf(e.stage).Some? ==> e.sends >= 1 && e.lastOk == e.b.successful == OutcomeOf(e.stage).value
  {
    ReachableInv(c, s);
    hide Owned, QuotaOk, OrderOk, TasksOk, FiredOf, FirstFirings;
    assert FiredOf(s.fired, id) == Expected(s.store, id);
    assert EntryOk(c, s.store[id]);
    hide FiredOk, Sound;
  }

  function Rank(stage: Stage): nat {
    match stage
    case Waiting => 0
    case Failing => 0
    case Decided(_) => 1
    case Released(_, _) => 2
    case Finished(_) => 3
  }

  /** How a batch may change: settled ones keep their outcome and logs and never go back. */
  predicate Forward(a: Entry, b: Entry) {
    && Rank(a.stage) <= Rank(b.stage)
    && (Rank(a.stage) > 0 ==>
          OutcomeOf(b.stage) == OutcomeOf(a.stage) && b.sends == a.sends && b.calls == a.calls &&
          b.b.accountedSize == a.b.accountedSize && b.b.attemptCount == a.b.attemptCount)
  }

  ghost predicate AllForward(a: seq<Entry>, b: seq<Entry>) {
    |a| <= |b| && forall id | 0 <= id < |a| :: Forward(a[id], b[id])
  }

  lemma OutcomeForward(c: Config, e: Entry, g: Work, st: WorkStep, stop: bool, store: seq<Entry>)
    requires Follows(g, st) && Holding(g) && !st.Push? && WorkFits(store, g) && e == store[g.id]
    ensures Forward(e, Outcome(c, e, g, st, stop).0)
  {
    hide RetryDelay;
  }

  /** The append adds a batch, or changes the pending one of the topic, or charges that and adds one. */
  lemma PlaceStore(c: Config, s: State, call: Call, now: int, pkg: bytes)
    requires call.topic in s.pending ==> Known(s, s.pending[call.topic])
    ensures var store := Place(c, s, call, now, pkg).store;
            var entry := NewEntry(c, call, now, pkg);
            if call.topic !in s.pending then store == s.store + [entry]
            else
              var id := s.pending[call.topic];
              var e := s.store[id];
              || store == s.store[id := GrownEntry(e, call)]
              || store == s.store[id := e.(b := Charged(e.b, ListBytes(call.logs)))] + [entry]
  {
    hide NewEntry, GrownEntry, BranchOf, Charged, ListBytes;
  }

  lemma PlaceForward(c: Config, s: State, call: Call, now: int, pkg: bytes)
    requires Owned(s) && (call.topic in s.pending ==> Known(s, s.pending[call.topic]))
    ensures AllForward(s.store, Place(c, s, call, now, pkg).store)
  {
    forall e: Entry ensures Forward(e, e) { ForwardSame(e); }
    PlaceStore(c, s, call, now, pkg);
    if call.topic in s.pending {
      PendingKnown(s, call.topic);
      hide Owned, Place, NewEntry, ListBytes;
      var e := s.store[s.pending[call.topic]];
      assert Forward(e, GrownEntry(e, call)) && Forward(e, e.(b := Charged(e.b, ListBytes(call.logs))));
      hide GrownEntry, Charged, Forward;
    } else {
      hide Owned, NewEntry, Forward, Place;
    }
  }

  lemma StepForward(c: Config, s: State, st: Step)
    requires Inv(c, s) && Enabled(c, s, st)
    ensures AllForward(s.store, Apply(c, s, st).store)
  {
    hide Owned, Sound, QuotaOk, FiredOk, OrderOk, TasksOk, Forward, ApplyWork, ApplyTimer, ApplyDispatch, ApplyClose;
    hide MayTake, Place, TimerEnabled, DispatchEnabled, CloseEnabled;
    forall e: Entry ensures Forward(e, e) { ForwardSame(e); }
    if Writes(s, st) {
      match st
      case OfSender(x) =>
        PlaceForward(c, s, s.lock.call, x.now, x.pkg);
      case OfWorker(w, x) =>
        FitsNow(s, w);
        WorkChanges(c, s, w, x);
        OutcomeForward(c, s.store[s.flight[w].id], s.flight[w], x, s.retryStop, s.store);
    } else {
      QuietSteps(c, s, st);
    }
  }

  lemma ForwardSame(e: Entry)
    ensures Forward(e, e)
  {
  }

  lemma AllForwardChain(a: seq<Entry>, b: seq<Entry>, d: seq<Entry>)
    requires AllForward(a, b) && AllForward(b, d)
    ensures AllForward(a, d)
  {
    forall id | 0 <= id < |a|
      ensures Forward(a[id], d[id])
    {
      assert Forward(a[id], b[id]) && Forward(b[id], d[id]);
    }
  }

  /** Once settled, always settled the same way: no run decides, releases or finishes a batch twice. */
  lemma {:induction false} SettledForGood(c: Config, s: State, steps: seq<Step>)
    requires ValidConfig(c) && Inv(c, s) && IsRun(c, s, steps)
    ensures AllForward(s.store, After(c, s, steps).store)
    decreases |steps|
  {
    hide Inv, Enabled, Apply, AllForward;
    if steps == [] {
      AllForwardSame(s.store);
    } else {
      var s1 := Apply(c, s, steps[0]);
      StepForward(c, s, steps[0]);
      StepKeeps(c, s, steps[0]);
      SettledForGood(c, s1, steps[1..]);
      AllForwardChain(s.store, s1.store, After(c, s1, steps[1..]).store);
    }
  }

  lemma AllForwardSame(a: seq<Entry>)
    ensures AllForward(a, a)
  {
  }

  // ----- Retries and sizes -----

  /** At most max(Retries, 0) + 1 sends; until settled one attempt per send, up to the reserved number. */
  lemma RetryBound(c: Config, s: State, id: nat)
    requires ValidConfig(c) && Reachable(c, s) && Known(s, id)
    ensures var e := s.store[id];
            && e.sends <= Limit(c) + 1
            && (e.stage.Waiting? || e.stage.Failing? ==>
                  && |e.b.attempts| == Min(e.b.attemptCount, c.maxReservedAttempts)
                  && e.sends == e.b.attemptCount + (if e.stage.Failing? then 1 else 0))
            && (e.stage.Finished? && !e.stage.ok ==>
                  |e.b.attempts| == Min(e.b.attemptCount, c.maxReservedAttempts) &&
                  (e.sends == e.b.attemptCount || (e.sends == e.b.attemptCount + 1 && e.b.attemptCount >= c.retries)))
  {
    ReachableInv(c, s);
    hide Owned, QuotaOk, FiredOk, OrderOk, TasksOk;
    assert EntryOk(c, s.store[id]);
    hide Sound, Books, Sized;
  }

  // ----- The queue of the thread pool -----

  /** The batches the dispatcher pops during a run, in order. */
  ghost function Served(c: Config, s: State, steps: seq<Step>): seq<nat>
    requires IsRun(c, s, steps)
    decreases |steps|
  {
    if steps == [] then []
    else
      var s' := Apply(c, s, steps[0]);
      (if s'.hand.Popped? && !s.hand.Popped? then [s'.hand.id] else []) + Served(c, s', steps[1..])
  }

  lemma QueueStep(c: Config, s: State, st: Step)
    requires Enabled(c, s, st)
    ensures var s' := Apply(c, s, st);
            if s'.hand.Popped? && !s.hand.Popped? then s.queue == [s'.hand.id] + s'.queue else s.queue <= s'.queue
  {
    hide ApplySender, ApplyTimer, ApplyDispatch, ApplyWork, ApplyClose;
    match st
    case OfSender(x) => SenderQueues(c, s, x);
    case OfTimer(x) => TimerQueues(c, s, x);
    case OfDispatcher(x) => DispatchQueues(c, s, x);
    case OfWorker(w, x) => WorkFrame(c, s, w, x);
    case OfClose(x) => CloseQueues(s, x);
  }

  lemma SenderQueues(c: Config, s: State, st: SenderStep)
    requires SenderEnabled(s, st)
    ensures s.queue <= ApplySender(c, s, st).queue && ApplySender(c, s, st).hand == s.hand
  {
    hide Place, ListBytes, AllFilled;
    SenderFrame(c, s, st);
    if st.Append? {
      PlaceQueues(c, s, s.lock.call, st.now, st.pkg);
    }
  }

  lemma PlaceQueues(c: Config, s: State, call: Call, now: int, pkg: bytes)
    requires call.topic in s.pending ==> Known(s, s.pending[call.topic])
    ensures s.queue <= Place(c, s, call, now, pkg).queue
  {
    hide NewEntry, GrownEntry, ListBytes, BranchOf, AllFilled, Charged;
  }

  lemma TimerQueues(c: Config, s: State, st: TimerStep)
    requires TimerEnabled(s, st)
    ensures s.queue <= ApplyTimer(c, s, st).queue && ApplyTimer(c, s, st).hand == s.hand
  {
    hide MayTake, Known, DueAt, HandOver;
    TimerFrame(c, s, st);
    if st.LingerVisit? {
      HandOverQueues(s, st.topic);
    } else if st.DrainOne? {
      HandOverQueues(s, st.topic);
    }
  }

  lemma HandOverQueues(s: State, t: Topic)
    requires t in s.pending
    ensures HandOver(s, t).queue == s.queue + [s.pending[t]]
  {
  }

  lemma DispatchQueues(c: Config, s: State, st: DispatchStep)
    requires DispatchEnabled(c, s, st)
    ensures var s' := ApplyDispatch(c, s, st);
            if s'.hand.Popped? && !s.hand.Popped? then s.queue == [s'.hand.id] + s'.queue else s.queue <= s'.queue
  {
    hide Tokens;
  }

  lemma CloseQueues(s: State, st: CloseStep)
    requires CloseEnabled(s, st)
    ensures ApplyClose(s, st).queue == s.queue && ApplyClose(s, st).hand == s.hand
  {
  }

  /** What is queued is sent in that order, and before whatever is queued later. */
  lemma {:induction false} FirstComeFirstServed(c: Config, s: State, steps: seq<Step>)
    requires IsRun(c, s, steps)
    ensures s.queue <= Served(c, s, steps) + After(c, s, steps).queue
    decreases |steps|
  {
    hide Apply, Enabled;
    if steps != [] {
      var s' := Apply(c, s, steps[0]);
      QueueStep(c, s, steps[0]);
      FirstComeFirstServed(c, s', steps[1..]);
    }
  }

  /**
    * The linger pass hands a pending batch over exactly when its age has reached the linger time both when the pass
    * began and when the clock is read for it; otherwise it stays where it is.
    */
  lemma LingerExactly(c: Config, s: State, t: Topic, visitNow: int)
    requires TimerEnabled(s, LingerVisit(t, visitNow))
    ensures var s' := ApplyTimer(c, s, LingerVisit(t, visitNow));
            var due := s.store[s.pending[t]].b.createTimeMs + c.lingerMs;
            && s'.store == s.store && s'.heap == s.heap
            && (t !in s'.pending <==> due <= s.timer.now && due <= visitNow)
            && s'.pending == (if t in s'.pending then s.pending else s.pending - {t})
            && s'.queue == (if t in s'.pending then s.queue else s.queue + [s.pending[t]])
  {
  }

  /** A batch goes back to the retry heap only with one retry fewer left. */
  lemma RetriesDecrease(c: Config, e: Entry, g: Work, st: WorkStep, stop: bool)
    requires Follows(g, st) && Holding(g) && !st.Push?
    requires Outcome(c, e, g, st, stop).1.Pushing?
    ensures var e' := Outcome(c, e, g, st, stop).0;
            0 <= c.retries - e'.b.attemptCount < c.retries - e.b.attemptCount
    ensures st.Decide? && g.FlagClear?
    ensures g.code != 401 && g.code != 404 && g.code != 413
    ensures Outcome(c, e, g, st, stop).0.b.nextRetryMs ==
            st.retryNow + RetryDelay(c.baseRetryBackoffMs, e.b.attemptCount + 1, c.maxRetryBackoffMs, st.garbage)
  {
    hide RetryDelay;
  }

  predicate SingleLogs(calls: seq<Call>) {
    forall call <- calls :: |call.logs| == 1
  }

  lemma {:induction false} SingleLogsCount(calls: seq<Call>)
    requires SingleLogs(calls)
    ensures |LogsOf(calls)| == |calls|
  {
    if calls != [] {
      SingleLogsCount(calls[..|calls| - 1]);
    }
  }

  /**
    * A batch made of more than one call had, when the last was put in, at most five MiB by the running total
    * and fewer than the maximal count of logs before it; with single logs only, at most the maximal count
    * after it.
    */
  lemma SizeBound(c: Config, s: State, id: nat)
    requires ValidConfig(c) && Reachable(c, s) && Known(s, id)
    ensures var e := s.store[id];
            && (AllCovered(e.b.logs) ==> e.b.accountedSize <= e.sized)
            && (|e.calls| > 1 ==> e.sized <= FIVE_MIB)
            && (|e.calls| > 1 ==> |e.b.logs| - |e.calls[|e.calls| - 1].logs| < c.maxBatchCount)
            && (SingleLogs(e.calls) ==> |e.b.logs| <= c.maxBatchCount)
  {
    ReachableInv(c, s);
    hide Owned, QuotaOk, FiredOk, OrderOk, TasksOk;
    assert EntryOk(c, s.store[id]);
    hide Sound, Attempted, LogsOf, CallbacksOf, ListBytes;
    if SingleLogs(s.store[id].calls) {
      SingleLogsCount(s.store[id].calls);
    }
  }

  /** The counter of tasks is the number of goroutines not yet counted out, plus a counted batch without one. */
  lemma TasksCounted(c: Config, s: State)
    requires ValidConfig(c) && Reachable(c, s)
    ensures s.taskCount == Running(s.flight) + (if s.hand.Counted? then 1 else 0) >= 0
    ensures Tokens(s.flight) <= c.maxSendWorkerCount
  {
    ReachableInv(c, s);
    hide Owned, Sound, QuotaOk, FiredOk, OrderOk, Running, Tokens;
  }

  /** No step changes the retry time of a batch while it is in the heap. */
  lemma HeapKeysStill(c: Config, s: State, st: Step, id: nat)
    requires Inv(c, s) && Enabled(c, s, st) && id in s.heap
    ensures Known(s, id) && Known(Apply(c, s, st), id) && RetryKey(Apply(c, s, st), id) == RetryKey(s, id)
  {
    InHeapOnly(s, id);
    hide Owned, Sound, QuotaOk, FiredOk, OrderOk, TasksOk, ApplyWork, ApplyTimer, ApplyDispatch, ApplyClose;
    hide MayTake, TimerEnabled, DispatchEnabled, CloseEnabled, Place;
    if Writes(s, st) {
      match st
      case OfSender(x) =>
        AppendElsewhere(c, s, x.now, x.pkg, id);
      case OfWorker(w, x) =>
        SoleOwner(s, w);
        WorkChanges(c, s, w, x);
        OutcomeForward(c, s.store[s.flight[w].id], s.flight[w], x, s.retryStop, s.store);
    } else {
      QuietSteps(c, s, st);
    }
  }

  lemma InHeapOnly(s: State, id: nat)
    requires Owned(s) && id in s.heap
    ensures Known(s, id) && Resting(s, id) > 0 && id !in s.pending.Values
  {
    assert Places(s, id) == Live(s.store, id);
  }

  lemma AppendElsewhere(c: Config, s: State, now: int, pkg: bytes, id: nat)
    requires SenderEnabled(s, Append(now, pkg)) && Known(s, id) && id !in s.pending.Values
    ensures var s' := ApplySender(c, s, Append(now, pkg));
            Known(s', id) && s'.store[id] == s.store[id]
  {
    PlaceStore(c, s, s.lock.call, now, pkg);
    hide Place, ListBytes, NewEntry, GrownEntry, Charged;
  }

  // ----- Reaching states -----

  lemma {:induction false} RunThenStep(c: Config, s: State, steps: seq<Step>, st: Step)
    requires IsRun(c, s, steps) && Enabled(c, After(c, s, steps), st)
    ensures IsRun(c, s, steps + [st]) && After(c, s, steps + [st]) == Apply(c, After(c, s, steps), st)
    decreases |steps|
  {
    hide Enabled, Apply;
    var longer := steps + [st];
    if steps == [] {
      assert longer == [st] && longer[1..] == [];
      assert IsRun(c, Apply(c, s, st), longer[1..]);
    } else {
      assert longer[1..] == steps[1..] + [st] && longer[0] == steps[0];
      RunThenStep(c, Apply(c, s, steps[0]), steps[1..], st);
    }
  }

  lemma StepThenRun(c: Config, s: State, st: Step, steps: seq<Step>)
    requires Enabled(c, s, st) && IsRun(c, Apply(c, s, st), steps)
    ensures IsRun(c, s, [st] + steps) && After(c, s, [st] + steps) == After(c, Apply(c, s, st), steps)
  {
    hide Enabled, Apply;
    var longer := [st] + steps;
    assert longer[0] == st && longer[1..] == steps;
  }

  lemma ReachableStep(c: Config, s: State, st: Step)
    requires Reachable(c, s) && Enabled(c, s, st)
    ensures Reachable(c, Apply(c, s, st))
  {
    hide Enabled, Apply, IsRun, After;
    var steps: seq<Step> :| IsRun(c, Start, steps) && After(c, Start, steps) == s;
    RunThenStep(c, Start, steps, st);
  }

  lemma {:induction false} ReachableRun(c: Config, s: State, steps: seq<Step>)
    requires Reachable(c, s) && IsRun(c, s, steps)
    ensures Reachable(c, After(c, s, steps))
    decreases |steps|
  {
    hide Reachable, Enabled, Apply;
    if steps != [] {
      ReachableStep(c, s, steps[0]);
      ReachableRun(c, Apply(c, s, steps[0]), steps[1..]);
    }
  }

  lemma ReachableStart(c: Config)
    ensures Reachable(c, Start)
  {
    var none: seq<Step> := [];
    assert IsRun(c, Start, none) && After(c, Start, none) == Start;
  }

  lemma Go(c: Config, s: State, st: Step, s': State)
    requires Reachable(c, s) && Enabled(c, s, st) && s' == Apply(c, s, st)
    ensures Reachable(c, s')
  {
    hide Reachable, Enabled, Apply;
    ReachableStep(c, s, st);
  }

  /** A producer that has taken no call yet and may still take one. */
  ghost predicate Fresh(s: State) {
    && s.store == [] && s.pending == map[] && s.quota == 0 && s.accepted == [] && s.lock.Free? && !s.accStop
  }

  /** The same state with one accepted and pending call. */
  function OnePending(c: Config, call: Call, s: State): State {
    s.(store := [NewEntry(c, call, 0, [])], pending := map[call.topic := 0], quota := ListBytes(call.logs),
       accepted := [call])
  }

  /** A sender gets any call accepted that fits the quota and has no oversized value. */
  lemma AcceptOne(c: Config, call: Call, s: State)
    requires ListBytes(call.logs) <= c.totalSizeLnBytes && Admissible(call) && Fresh(s) && Reachable(c, s)
    ensures Reachable(c, OnePending(c, call, s))
  {
    hide Reachable, ListBytes, NewEntry;
    var s1 := s.(lock := Locked(call));
    Go(c, s, OfSender(Acquire(call)), s1);
    var s2 := s.(lock := Checked(call));
    Go(c, s1, OfSender(TestStop), s2);
    var s3 := s.(lock := Loaded(call, 0));
    Go(c, s2, OfSender(LoadQuota), s3);
    var s4 := s.(lock := Tested(call));
    Go(c, s3, OfSender(TestQuota), s4);
    var s5 := s.(lock := Reserved(call), quota := ListBytes(call.logs));
    Go(c, s4, OfSender(Reserve), s5);
    assert [] + [NewEntry(c, call, 0, [])] == [NewEntry(c, call, 0, [])];
    assert [] + [call] == [call];
    Go(c, s5, OfSender(Append(0, [])), OnePending(c, call, s));
  }

  /** A list send counts as one log: whatever the limit, a reachable batch holds any number that fits the quota. */
  lemma ListsEscapeTheCount(c: Config, n: nat)
    requires 4 * n <= c.totalSizeLnBytes
    ensures exists s :: Reachable(c, s) && |s.store| == 1 && |s.store[0].b.logs| == n && s.store[0].stage.Waiting?
  {
    hide Reachable, ListBytes, Copies, NewEntry, SmallValues, Filled;
    EmptyLogs(n);
    var call: Call := Call("t", Copies(NoLog, n), None);
    NewEntryLogs(c, call);
    ReachableStart(c);
    AcceptOne(c, call, Start);
  }

  lemma EmptyLogs(n: nat)
    ensures Filled(NoLog) && SmallValues(NoLog) && AllFilled(Copies(NoLog, n)) && |Copies(NoLog, n)| == n
    ensures ListBytes(Copies(NoLog, n)) == 4 * n && forall l <- Copies(NoLog, n) :: l == NoLog
  {
    hide ListBytes, Copies, Delimited, LogSize, LogsSize;
    NoContents();
    CopiesOfLog(NoLog, n);
  }

  lemma NewEntryLogs(c: Config, call: Call)
    ensures NewEntry(c, call, 0, []).b.logs == call.logs && NewEntry(c, call, 0, []).stage.Waiting?
  {
    hide GroupSize, ListBytes;
  }
}
