/** Runs built step by step, from one state of the producer to another. */
module Reaching {
  import opened Batch
  import opened Pipeline
  import opened Frames
  import opened Ownership
  import opened Accounts
  import opened Order
  import opened Runs

  /** A batch that rests anywhere is neither sent nor settled. */
  lemma RestingWaits(c: Config, s: State, id: nat)
    requires ValidConfig(c) && Reachable(c, s)
    requires id in s.pending.Values || id in s.queue || id in s.heap ||
             ((s.hand.Popped? || s.hand.Counted?) && s.hand.id == id)
    ensures WaitingAt(s.store, id)
  {
    hide Reachable, Sound, QuotaOk, FiredOk, OrderOk, TasksOk;
    ReachableInv(c, s);
    InSeqIsCount(s.queue, id);
    assert Resting(s, id) > 0;
  }

  /** Some run leads from one state to the other. */
  ghost predicate Reaches(c: Config, s: State, s': State) {
    exists steps: seq<Step> :: IsRun(c, s, steps) && After(c, s, steps) == s'
  }

  lemma ReachesItself(c: Config, s: State)
    ensures Reaches(c, s, s)
  {
    var none: seq<Step> := [];
    assert IsRun(c, s, none) && After(c, s, none) == s;
  }

  lemma ReachesNext(c: Config, s0: State, s: State, st: Step)
    requires Reaches(c, s0, s) && Enabled(c, s, st)
    ensures Reaches(c, s0, Apply(c, s, st))
  {
    hide Enabled, Apply, IsRun, After;
    var steps: seq<Step> :| IsRun(c, s0, steps) && After(c, s0, steps) == s;
    RunThenStep(c, s0, steps, st);
  }

  lemma StillReachable(c: Config, s0: State, s: State)
    requires Reachable(c, s0) && Reaches(c, s0, s)
    ensures Reachable(c, s)
  {
    hide Reachable, IsRun, After;
    var steps: seq<Step> :| IsRun(c, s0, steps) && After(c, s0, steps) == s;
    ReachableRun(c, s0, steps);
  }

  /** A goroutine takes a step with the batch it holds. */
  lemma HoldStep(c: Config, s0: State, s: State, w: nat, st: WorkStep) returns (s': State)
    requires Reaches(c, s0, s) && WorkEnabled(s, w, st) && Holding(s.flight[w]) && !st.Push?
    ensures Reaches(c, s0, s') && WorkOnly(s, s') && s'.taskCount == s.taskCount && s'.heap == s.heap
    ensures var (e', g') := Outcome(c, s.store[s.flight[w].id], s.flight[w], st, s.retryStop);
            s'.flight == s.flight[w := g'] && s'.store[s.flight[w].id] == e'
  {
    hide Reaches, Outcome, ApplyWork, Freed, Calls;
    s' := ApplyWork(c, s, w, st);
    WorkChanges(c, s, w, st);
    WorkFrame(c, s, w, st);
    ReachesNext(c, s0, s, OfWorker(w, st));
    WorkApplied(c, s, w, st);
  }

  /** It ends: it gives its place back, and then it is counted out. */
  lemma EndStep(c: Config, s0: State, s: State, w: nat) returns (s': State)
    requires Reaches(c, s0, s) && w < |s.flight| && (s.flight[w].Closing? || s.flight[w].Uncounting?)
    ensures Reaches(c, s0, s') && WorkOnly(s, s') && s'.taskCount == s.taskCount - 1 && s'.heap == s.heap
    ensures s'.flight == s.flight[w := Exited]
  {
    hide Reaches, ApplyWork;
    s' := s;
    if s.flight[w].Closing? {
      IdleChanges(c, s, w, FreeToken);
      ReachesNext(c, s0, s, OfWorker(w, FreeToken));
      WorkApplied(c, s, w, FreeToken);
      s' := ApplyWork(c, s, w, FreeToken);
    }
    IdleChanges(c, s', w, Uncount);
    ReachesNext(c, s0, s', OfWorker(w, Uncount));
    WorkApplied(c, s', w, Uncount);
    s' := ApplyWork(c, s', w, Uncount);
    assert s.flight[w := Uncounting][w := Exited] == s.flight[w := Exited];
  }

  /** It calls the callbacks that are left, one by one, and ends. */
  lemma {:induction false} CallAll(c: Config, s0: State, s: State, w: nat) returns (s': State)
    requires Reaches(c, s0, s) && w < |s.flight| && s.flight[w].Calling? && Known(s, s.flight[w].id)
    ensures Reaches(c, s0, s') && WorkOnly(s, s') && s'.taskCount == s.taskCount - 1 && s'.heap == s.heap
    ensures s'.flight == s.flight[w := Exited]
    decreases if s.flight[w].k < |s.store[s.flight[w].id].b.callbacks|
              then |s.store[s.flight[w].id].b.callbacks| - s.flight[w].k else 0
  {
    hide Reaches;
    if s.flight[w].k < |s.store[s.flight[w].id].b.callbacks| {
      var s1 := HoldStep(c, s0, s, w, CallNext);
      s' := CallAll(c, s0, s1, w);
    } else {
      var s1 := HoldStep(c, s0, s, w, CallsDone);
      s' := EndStep(c, s0, s1, w);
    }
  }

  /** It releases the quota of its batch, calls the callbacks and ends. */
  lemma SettleAll(c: Config, s0: State, s: State, w: nat) returns (s': State)
    requires Reaches(c, s0, s) && w < |s.flight| && s.flight[w].Settling? && Known(s, s.flight[w].id)
    ensures Reaches(c, s0, s') && WorkOnly(s, s') && s'.taskCount == s.taskCount - 1 && s'.heap == s.heap
    ensures s'.flight == s.flight[w := Exited]
  {
    hide Reaches;
    var s1 := HoldStep(c, s0, s, w, Release);
    s' := CallAll(c, s0, s1, w);
  }

  /** It sends its batch with success, settles it and ends. */
  lemma SendAll(c: Config, s0: State, s: State, w: nat) returns (s': State)
    requires Reaches(c, s0, s) && w < |s.flight| && s.flight[w].Sending? && Known(s, s.flight[w].id)
    ensures Reaches(c, s0, s') && WorkOnly(s, s') && s'.taskCount == s.taskCount - 1 && s'.heap == s.heap
    ensures s'.flight == s.flight[w := Exited]
  {
    hide Reaches, Succeeded;
    var s1 := HoldStep(c, s0, s, w, SendOk(0));
    s' := SettleAll(c, s0, s1, w);
  }

  lemma {:induction false} NoTokens(ws: seq<Work>)
    requires Running(ws) == 0
    ensures Tokens(ws) == 0
  {
    if ws != [] {
      NoTokens(ws[1..]);
    }
  }

  /** What the rest of a round of the dispatcher leaves alone. */
  ghost predicate SentOnly(s: State, s': State) {
    && SameFlags(s, s') && s'.pending == s.pending && s'.queue == s.queue && s'.heap == s.heap && s'.timer == s.timer
    && s'.lock == s.lock
  }

  /** While no goroutine runs, a popped batch can be sent and settled before anything else happens. */
  lemma SendPopped(c: Config, s0: State, s: State) returns (s': State)
    requires ValidConfig(c) && Reachable(c, s0) && Reaches(c, s0, s)
    requires s.hand.Popped? || s.hand.Counted?
    requires s.taskCount == if s.hand.Counted? then 1 else 0
    ensures Reaches(c, s0, s') && s'.hand.NoTask? && s'.taskCount == 0 && SentOnly(s, s')
  {
    hide Reachable, Reaches, Tokens, Running, ValidConfig;
    StillReachable(c, s0, s);
    TasksCounted(c, s);
    NoTokens(s.flight);
    RestingWaits(c, s, s.hand.id);
    SomeWorker(c);
    var id, w := s.hand.id, |s.flight|;
    var s1 := s.(hand := Counted(id), taskCount := 1);
    if s.hand.Popped? {
      ReachesNext(c, s0, s, OfDispatcher(Count));
    }
    var s2 := s1.(hand := NoTask, flight := s.flight + [Sending(id)]);
    ReachesNext(c, s0, s1, OfDispatcher(Spawn));
    assert s2.flight[w] == Sending(id);
    s' := SendAll(c, s0, s2, w);
  }

  lemma SomeWorker(c: Config)
    requires ValidConfig(c)
    ensures c.maxSendWorkerCount > 0
  {
  }
}
