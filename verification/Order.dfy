/** Per topic, the producer neither loses nor repeats nor reorders a log; goroutines are counted and limited. */
module Order {
  import opened Basics
  import opened Messages
  import opened Batch
  import opened Pipeline
  import opened Frames
  import opened Ownership
  import opened Accounts

  // ----- Accepted calls and where they went -----

  /** The accepted calls for one topic, in the order the accumulator took them. */
  function AcceptedFor(calls: seq<Call>, t: Topic): seq<Call> {
    if calls == [] then []
    else
      var last := calls[|calls| - 1];
      AcceptedFor(calls[..|calls| - 1], t) + (if last.topic == t then [last] else [])
  }

  /** The calls in the batches of one topic, in the order those were first handed over. */
  function HandedCalls(store: seq<Entry>, handed: seq<nat>, t: Topic): seq<Call> {
    if handed == [] then []
    else
      var last := handed[|handed| - 1];
      HandedCalls(store, handed[..|handed| - 1], t) +
      (if last < |store| && store[last].b.topic == t then store[last].calls else [])
  }

  function PendingCalls(s: State, t: Topic): seq<Call> {
    if t in s.pending && s.pending[t] < |s.store| then s.store[s.pending[t]].calls else []
  }

  function Flow(s: State, t: Topic): seq<Call> {
    HandedCalls(s.store, s.handed, t) + PendingCalls(s, t)
  }

  ghost predicate OrderOk(s: State) {
    forall t: Topic :: AcceptedFor(s.accepted, t) == Flow(s, t)
  }

  /** The batches keep their topics and calls. */
  ghost predicate SameCalls(a: seq<Entry>, b: seq<Entry>) {
    |a| <= |b| && forall id | 0 <= id < |a| :: b[id].calls == a[id].calls && b[id].b.topic == a[id].b.topic
  }

  lemma {:induction false} HandedSame(a: seq<Entry>, b: seq<Entry>, handed: seq<nat>, t: Topic)
    requires forall i | 0 <= i < |handed| :: handed[i] < |a| && handed[i] < |b| &&
               b[handed[i]].calls == a[handed[i]].calls && b[handed[i]].b.topic == a[handed[i]].b.topic
    ensures HandedCalls(b, handed, t) == HandedCalls(a, handed, t)
  {
    if handed != [] {
      HandedSame(a, b, handed[..|handed| - 1], t);
    }
  }

  lemma AcceptedSnoc(calls: seq<Call>, call: Call, t: Topic)
    ensures AcceptedFor(calls + [call], t) == AcceptedFor(calls, t) + (if call.topic == t then [call] else [])
  {
    assert (calls + [call])[..|calls|] == calls;
  }

  /** A hand-over moves the calls of the pending batch to the end of the handed ones. */
  lemma HandOverFlow(s: State, t0: Topic, t: Topic)
    requires PendingOk(s) && t0 in s.pending
    ensures Flow(HandOver(s, t0), t) == Flow(s, t)
  {
    var s' := HandOver(s, t0);
    var id := s.pending[t0];
    assert s'.handed[..|s.handed|] == s.handed;
    assert s'.handed[|s.handed|] == id;
    assert s.store[id].b.topic == t0;
    assert [] + s.store[id].calls == s.store[id].calls;
  }

  /** The pending batch of a topic takes one more call, or only a charge when `more` is empty. */
  lemma PutFlow(s: State, t0: Topic, e: Entry, more: seq<Call>, t: Topic)
    requires PendingOk(s) && HandedOk(s) && t0 in s.pending
    requires e.b.topic == t0 && e.calls == s.store[s.pending[t0]].calls + more
    ensures Flow(Put(s, s.pending[t0], e), t) == Flow(s, t) + (if t == t0 then more else [])
  {
    var id := s.pending[t0];
    assert id in s.pending.Values;
    HandedSame(s.store, s.store[id := e], s.handed, t);
    hide HandedCalls, HandedOk;
    PendingPut(s, t0, e, more, t);
  }

  lemma PendingPut(s: State, t0: Topic, e: Entry, more: seq<Call>, t: Topic)
    requires PendingOk(s) && t0 in s.pending
    requires e.b.topic == t0 && e.calls == s.store[s.pending[t0]].calls + more
    ensures PendingCalls(Put(s, s.pending[t0], e), t) == PendingCalls(s, t) + (if t == t0 then more else [])
  {
    if t in s.pending && t != t0 {
      assert s.store[s.pending[t]].b.topic == t;
    }
  }

  lemma NewPendingFlow(c: Config, s: State, call: Call, now: int, pkg: bytes, t: Topic)
    requires HandedOk(s) && call.topic !in s.pending
    requires t in s.pending ==> Known(s, s.pending[t])
    ensures Flow(NewPending(c, s, call, now, pkg), t) == Flow(s, t) + (if t == call.topic then [call] else [])
  {
    hide NewEntry;
    var e := NewEntry(c, call, now, pkg);
    assert e.calls == [call] by {
      NewCalls(c, call, now, pkg);
    }
    HandedSame(s.store, s.store + [e], s.handed, t);
  }

  lemma NewCalls(c: Config, call: Call, now: int, pkg: bytes)
    ensures NewEntry(c, call, now, pkg).calls == [call]
  {
  }

  lemma GrownCalls(e: Entry, call: Call)
    ensures GrownEntry(e, call).calls == e.calls + [call]
    ensures GrownEntry(e, call).b.topic == e.b.topic && GrownEntry(e, call).stage == e.stage
  {
  }

  /** Whatever branch it takes, the append adds the call at the end of its topic and touches no other. */
  lemma PlaceFlow(c: Config, s: State, call: Call, now: int, pkg: bytes, t: Topic)
    requires Owned(s) && (call.topic in s.pending ==> Known(s, s.pending[call.topic]))
    ensures Flow(Place(c, s, call, now, pkg), t) == Flow(s, t) + (if t == call.topic then [call] else [])
  {
    hide Owned, NewEntry, GrownEntry, NewPending, HandOver, Flow, BranchOf;
    OwnedParts(s);
    var t0 := call.topic;
    if t0 !in s.pending {
      PendingAt(s, t);
      NewPendingFlow(c, s, call, now, pkg, t);
    } else {
      PendingKnown(s, t0);
      var id := s.pending[t0];
      var e := s.store[id];
      var size := ListBytes(call.logs);
      if BranchOf(c, e.b.totalDataSize + size, |e.b.logs| + 1).FlushAndNew? {
        var charged := e.(b := Charged(e.b, size));
        var s1 := Put(s, id, charged);
        PutOwned(s, id, charged);
        PutFlow(s, t0, charged, [], t);
        FlushFlow(c, s1, call, now, pkg, t);
      } else {
        var grown := GrownEntry(e, call);
        GrownCalls(e, call);
        PutOwned(s, id, grown);
        PutFlow(s, t0, grown, [call], t);
        OwnedParts(Put(s, id, grown));
        HandOverFlow(Put(s, id, grown), t0, t);
      }
    }
  }

  lemma FlushFlow(c: Config, s: State, call: Call, now: int, pkg: bytes, t: Topic)
    requires Owned(s) && call.topic in s.pending
    ensures Flow(NewPending(c, HandOver(s, call.topic), call, now, pkg), t) ==
            Flow(s, t) + (if t == call.topic then [call] else [])
  {
    hide NewPending, Flow;
    var s2 := HandOver(s, call.topic);
    HandOverFlow(s, call.topic, t);
    HandOverHanded(s, call.topic);
    assert HandedOk(s2) && call.topic !in s2.pending && (t in s2.pending ==> Known(s2, s2.pending[t]));
    hide Owned, HandOver;
    NewPendingFlow(c, s2, call, now, pkg, t);
  }

  lemma OwnedParts(s: State)
    requires Owned(s)
    ensures PendingOk(s) && HandedOk(s)
  {
  }

  lemma PendingAt(s: State, t: Topic)
    requires PendingOk(s)
    ensures t in s.pending ==> Known(s, s.pending[t])
  {
  }

  lemma AppendOrder(c: Config, s: State, now: int, pkg: bytes)
    requires Owned(s) && OrderOk(s) && SenderEnabled(s, Append(now, pkg))
    ensures OrderOk(ApplySender(c, s, Append(now, pkg)))
  {
    hide Owned, Place;
    var call := s.lock.call;
    var s1 := Place(c, s, call, now, pkg);
    var s' := ApplySender(c, s, Append(now, pkg));
    assert s'.store == s1.store && s'.handed == s1.handed && s'.pending == s1.pending;
    assert s'.accepted == s.accepted + [call];
    hide ApplySender;
    forall t: Topic
      ensures AcceptedFor(s'.accepted, t) == Flow(s', t)
    {
      assert Flow(s', t) == Flow(s1, t);
      PlaceFlow(c, s, call, now, pkg, t);
      AcceptedSnoc(s.accepted, call, t);
      assert AcceptedFor(s.accepted, t) == Flow(s, t);
    }
  }

  lemma OrderFrame(s: State, s': State)
    requires OrderOk(s) && PendingOk(s) && HandedOk(s)
    requires SameCalls(s.store, s'.store)
    requires s'.pending == s.pending && s'.handed == s.handed && s'.accepted == s.accepted
    ensures OrderOk(s')
  {
    forall t: Topic
      ensures AcceptedFor(s'.accepted, t) == Flow(s', t)
    {
      assert AcceptedFor(s.accepted, t) == Flow(s, t);
      HandedSame(s.store, s'.store, s.handed, t);
    }
  }

  lemma HandOverOrder(s: State, t0: Topic)
    requires OrderOk(s) && PendingOk(s) && t0 in s.pending
    ensures OrderOk(HandOver(s, t0))
  {
    var s' := HandOver(s, t0);
    assert s'.accepted == s.accepted;
    hide HandOver, Flow, AcceptedFor;
    forall t: Topic
      ensures AcceptedFor(s'.accepted, t) == Flow(s', t)
    {
      assert AcceptedFor(s.accepted, t) == Flow(s, t);
      HandOverFlow(s, t0, t);
    }
  }

  lemma SenderOrder(c: Config, s: State, st: SenderStep)
    requires Owned(s) && OrderOk(s) && SenderEnabled(s, st)
    ensures OrderOk(ApplySender(c, s, st))
  {
    if st.Append? {
      AppendOrder(c, s, st.now, st.pkg);
    } else {
      OwnedParts(s);
      hide Owned, OrderOk, Place, ListBytes, PendingOk, HandedOk;
      OrderFrame(s, ApplySender(c, s, st));
    }
  }

  lemma LingerOrder(c: Config, s: State, t: Topic, now: int)
    requires PendingOk(s) && OrderOk(s) && TimerEnabled(s, LingerVisit(t, now))
    ensures OrderOk(ApplyTimer(c, s, LingerVisit(t, now)))
  {
    hide OrderOk, PendingOk, HandOver, MayTake;
    var b := s.store[s.pending[t]].b;
    if DueAt(b.createTimeMs, c.lingerMs, s.timer.now, now) {
      HandOverOrder(s, t);
      OrderStore(HandOver(s, t), ApplyTimer(c, s, LingerVisit(t, now)));
    } else {
      OrderStore(s, ApplyTimer(c, s, LingerVisit(t, now)));
    }
  }

  lemma TimerElsewhere(c: Config, s: State, st: TimerStep)
    requires TimerEnabled(s, st) && !st.DrainOne? && !st.LingerVisit?
    ensures ApplyTimer(c, s, st).handed == s.handed
  {
    hide MayTake, HandOver, Known;
  }

  lemma TimerOrder(c: Config, s: State, st: TimerStep)
    requires Owned(s) && OrderOk(s) && TimerEnabled(s, st)
    ensures OrderOk(ApplyTimer(c, s, st))
  {
    OwnedParts(s);
    hide Owned, OrderOk, PendingOk, HandedOk, MayTake, HandOver;
    if st.LingerVisit? {
      hide ApplyTimer, TimerEnabled;
      LingerOrder(c, s, st.topic, st.visitNow);
    } else if st.DrainOne? {
      HandOverOrder(s, st.topic);
    } else {
      hide ApplyTimer, TimerEnabled;
      TimerElsewhere(c, s, st);
      TimerFrame(c, s, st);
      TimerPending(c, s, st);
      OrderStore(s, ApplyTimer(c, s, st));
    }
  }

  lemma OrderStore(s: State, s': State)
    requires OrderOk(s)
    requires s'.store == s.store && s'.pending == s.pending && s'.handed == s.handed && s'.accepted == s.accepted
    ensures OrderOk(s')
  {
    forall t: Topic
      ensures AcceptedFor(s'.accepted, t) == Flow(s', t)
    {
      assert AcceptedFor(s.accepted, t) == Flow(s, t);
    }
  }

  lemma OutcomeCalls(c: Config, e: Entry, g: Work, st: WorkStep, stop: bool)
    requires Follows(g, st) && Holding(g) && !st.Push?
    ensures var e' := Outcome(c, e, g, st, stop).0; e'.calls == e.calls && e'.b.topic == e.b.topic
  {
    hide RetryDelay;
  }

  lemma WorkOrder(c: Config, s: State, w: nat, st: WorkStep)
    requires Owned(s) && OrderOk(s) && WorkEnabled(s, w, st)
    ensures OrderOk(ApplyWork(c, s, w, st))
  {
    OwnedParts(s);
    hide Owned, OrderOk, Outcome, PendingOk, HandedOk;
    if Holding(s.flight[w]) && !st.Push? {
      WorkChanges(c, s, w, st);
      OutcomeCalls(c, s.store[s.flight[w].id], s.flight[w], st, s.retryStop);
      hide ApplyWork;
      OrderFrame(s, ApplyWork(c, s, w, st));
    } else {
      OrderStore(s, ApplyWork(c, s, w, st));
    }
  }

  lemma DispatchOrder(c: Config, s: State, st: DispatchStep)
    requires OrderOk(s) && DispatchEnabled(c, s, st)
    ensures OrderOk(ApplyDispatch(c, s, st))
  {
    hide OrderOk, Tokens;
    OrderStore(s, ApplyDispatch(c, s, st));
  }

  lemma CloseOrder(s: State, st: CloseStep)
    requires OrderOk(s) && CloseEnabled(s, st)
    ensures OrderOk(ApplyClose(s, st))
  {
    hide OrderOk;
    OrderStore(s, ApplyClose(s, st));
  }

  lemma StepOrder(c: Config, s: State, st: Step)
    requires Owned(s) && OrderOk(s) && Enabled(c, s, st)
    ensures OrderOk(Apply(c, s, st))
  {
    hide Owned, OrderOk;
    match st
    case OfSender(x) => SenderOrder(c, s, x);
    case OfTimer(x) => TimerOrder(c, s, x);
    case OfDispatcher(x) => DispatchOrder(c, s, x);
    case OfWorker(w, x) => WorkOrder(c, s, w, x);
    case OfClose(x) => CloseOrder(s, x);
  }

  // ----- From calls to logs -----

  function HandedLogs(store: seq<Entry>, handed: seq<nat>, t: Topic): seq<Log> {
    if handed == [] then []
    else
      var last := handed[|handed| - 1];
      HandedLogs(store, handed[..|handed| - 1], t) +
      (if last < |store| && store[last].b.topic == t then store[last].b.logs else [])
  }

  function PendingLogs(s: State, t: Topic): seq<Log> {
    if t in s.pending && s.pending[t] < |s.store| then s.store[s.pending[t]].b.logs else []
  }

  lemma {:induction false} LogsOfAppend(a: seq<Call>, b: seq<Call>)
    ensures LogsOf(a + b) == LogsOf(a) + LogsOf(b)
  {
    hide LogsOf;
    if b == [] {
      NoCalls();
      assert a + b == a;
    } else {
      var n := |b| - 1;
      assert b == b[..n] + [b[n]] && a + b == (a + b[..n]) + [b[n]];
      CallsSnoc(a + b[..n], b[n]);
      CallsSnoc(b[..n], b[n]);
      LogsOfAppend(a, b[..n]);
    }
  }

  lemma NoCalls()
    ensures LogsOf([]) == []
  {
  }

  lemma BatchLogs(c: Config, store: seq<Entry>, id: nat)
    requires EntriesOk(c, store) && id < |store|
    ensures store[id].b.logs == LogsOf(store[id].calls)
  {
    assert EntryOk(c, store[id]);
    hide Attempted, Sized, ListBytes;
  }

  lemma {:induction false} HandedLogsAre(c: Config, store: seq<Entry>, handed: seq<nat>, t: Topic)
    requires EntriesOk(c, store)
    ensures LogsOf(HandedCalls(store, handed, t)) == HandedLogs(store, handed, t)
  {
    hide EntriesOk, LogsOf;
    if handed == [] {
      NoCalls();
    } else {
      var n := |handed| - 1;
      var last := handed[n];
      HandedLogsAre(c, store, handed[..n], t);
      if last < |store| && store[last].b.topic == t {
        BatchLogs(c, store, last);
        LogsOfAppend(HandedCalls(store, handed[..n], t), store[last].calls);
      } else {
        assert HandedCalls(store, handed, t) == HandedCalls(store, handed[..n], t);
      }
    }
  }

  /** The logs of a topic, in the order they were accepted, are those of its batches in hand-over order. */
  lemma LogsInOrder(c: Config, s: State, t: Topic)
    requires Sound(c, s) && OrderOk(s)
    ensures LogsOf(AcceptedFor(s.accepted, t)) == HandedLogs(s.store, s.handed, t) + PendingLogs(s, t)
  {
    hide EntriesOk, LogsOf, HandedCalls, HandedLogs;
    assert AcceptedFor(s.accepted, t) == Flow(s, t);
    LogsOfAppend(HandedCalls(s.store, s.handed, t), PendingCalls(s, t));
    HandedLogsAre(c, s.store, s.handed, t);
    if t in s.pending && s.pending[t] < |s.store| {
      BatchLogs(c, s.store, s.pending[t]);
    } else {
      NoCalls();
    }
  }

  // ----- Goroutines -----

  /** Goroutines not yet counted out. */
  function Running(ws: seq<Work>): nat {
    if ws == [] then 0 else (if ws[0].Exited? then 0 else 1) + Running(ws[1..])
  }

  ghost predicate TasksOk(c: Config, s: State) {
    && s.taskCount == Running(s.flight) + (if s.hand.Counted? then 1 else 0)
    && Tokens(s.flight) <= c.maxSendWorkerCount
  }

  function Weight(g: Work): nat {
    if g.Exited? then 0 else 1
  }

  function Token(g: Work): nat {
    if g.Uncounting? || g.Exited? then 0 else 1
  }

  lemma {:induction false} GoroutineMoves(ws: seq<Work>, w: nat, g: Work)
    requires w < |ws|
    ensures Running(ws[w := g]) + Weight(ws[w]) == Running(ws) + Weight(g)
    ensures Tokens(ws[w := g]) + Token(ws[w]) == Tokens(ws) + Token(g)
  {
    if w == 0 {
      assert ws[0 := g][1..] == ws[1..];
    } else {
      assert ws[w := g][1..] == ws[1..][w - 1 := g] && ws[w := g][0] == ws[0];
      GoroutineMoves(ws[1..], w - 1, g);
    }
  }

  lemma {:induction false} GoroutineAdded(ws: seq<Work>, g: Work)
    ensures Running(ws + [g]) == Running(ws) + Weight(g) && Tokens(ws + [g]) == Tokens(ws) + Token(g)
  {
    if ws == [] {
      assert [] + [g] == [g] && [g][1..] == [];
    } else {
      assert (ws + [g])[1..] == ws[1..] + [g];
      GoroutineAdded(ws[1..], g);
    }
  }

  lemma OutcomeGoes(c: Config, e: Entry, g: Work, st: WorkStep, stop: bool)
    requires Follows(g, st) && Holding(g) && !st.Push?
    ensures var g' := Outcome(c, e, g, st, stop).1; !g'.Exited? && !g'.Uncounting?
  {
    hide RetryDelay, Recorded;
  }

  lemma WorkTasks(c: Config, s: State, w: nat, st: WorkStep)
    requires TasksOk(c, s) && WorkEnabled(s, w, st)
    ensures TasksOk(c, ApplyWork(c, s, w, st))
  {
    hide Outcome, Running, Tokens, ApplyWork;
    if Holding(s.flight[w]) && !st.Push? {
      WorkChanges(c, s, w, st);
      OutcomeGoes(c, s.store[s.flight[w].id], s.flight[w], st, s.retryStop);
    } else {
      IdleChanges(c, s, w, st);
    }
    GoroutineMoves(s.flight, w, ApplyWork(c, s, w, st).flight[w]);
  }

  lemma DispatchTasks(c: Config, s: State, st: DispatchStep)
    requires TasksOk(c, s) && DispatchEnabled(c, s, st)
    ensures TasksOk(c, ApplyDispatch(c, s, st))
  {
    hide Running, Tokens;
    if st.Spawn? {
      GoroutineAdded(s.flight, Sending(s.hand.id));
    }
  }

  lemma TasksElsewhere(c: Config, s: State, s': State)
    requires TasksOk(c, s) && s'.taskCount == s.taskCount && s'.flight == s.flight && s'.hand == s.hand
    ensures TasksOk(c, s')
  {
  }

  lemma SenderTasks(c: Config, s: State, st: SenderStep)
    requires TasksOk(c, s) && SenderEnabled(s, st)
    ensures TasksOk(c, ApplySender(c, s, st))
  {
    hide TasksOk, ApplySender, SenderEnabled;
    SenderFrame(c, s, st);
    TasksElsewhere(c, s, ApplySender(c, s, st));
  }

  lemma TimerTasks(c: Config, s: State, st: TimerStep)
    requires TasksOk(c, s) && TimerEnabled(s, st)
    ensures TasksOk(c, ApplyTimer(c, s, st))
  {
    hide TasksOk, ApplyTimer, TimerEnabled;
    TimerFrame(c, s, st);
    TasksElsewhere(c, s, ApplyTimer(c, s, st));
  }

  lemma StepTasks(c: Config, s: State, st: Step)
    requires TasksOk(c, s) && Enabled(c, s, st)
    ensures TasksOk(c, Apply(c, s, st))
  {
    hide TasksOk, ApplySender, ApplyTimer, ApplyDispatch, ApplyWork;
    match st
    case OfSender(x) => SenderTasks(c, s, x);
    case OfTimer(x) => TimerTasks(c, s, x);
    case OfDispatcher(x) => DispatchTasks(c, s, x);
    case OfWorker(w, x) => WorkTasks(c, s, w, x);
    case OfClose(x) => TasksElsewhere(c, s, ApplyClose(s, x));
  }
}
