/**
  * The asynchronous producer as a step system. Senders, the timer, the dispatcher, any number of send
  * goroutines and Close interleave freely; the accumulator lock, the retry-queue lock and the thread-pool
  * lock make the stretches they guard single steps, except that the quota is loaded, tested and charged
  * in separate steps inside the accumulator lock, because the workers release quota without any lock.
  *
  * Batches live in `store`; every container holds their indices, as the source holds pointers.
  */
module Pipeline {
  import opened Basics
  import opened Batch

  /** How far a batch has come. */
  datatype Stage =
    | Waiting                       // pending, queued, in retry, or being sent
    | Failing                       // Send has returned an error that is not recorded yet
    | Decided(ok: bool)             // the outcome is final, the quota not yet released
    | Released(ok: bool, fired: nat) // quota released, `fired` callbacks called
    | Finished(ok: bool)            // all callbacks called

  /** A batch with what the proofs remember about it. */
  datatype Entry = Entry(
    b: Batch,
    calls: seq<Call>,   // the accepted calls whose logs it holds
    sized: int,         // totalDataSize when a call was last put in
    sends: nat,         // how often Send has returned
    lastOk: bool,       // whether the last Send returned nil
    stage: Stage)

  datatype Hand =
    | NoTask
    | SawEmpty            // popTask has returned nil, the flag is not tested yet
    | Popped(id: nat)     // popped, not yet counted
    | Counted(id: nat)    // counted in taskCount, waiting for the semaphore
    | DispatcherDone

  datatype Lock =
    | Free
    | Locked(call: Call)
    | Checked(call: Call)
    | Loaded(call: Call, cur: int)
    | Tested(call: Call)
    | Reserved(call: Call)
    | TimerHolds

  datatype TimerPc =
    | Looping
    | LingerWait
    | Lingering(now: int, todo: set<Topic>)
    | Retrying
    | Moving(list: seq<nat>)
    | DrainWait
    | Draining
    | FinalTake
    | FinalMoving(list: seq<nat>)
    | TimerDone

  /** A send goroutine. */
  datatype Work =
    | Sending(id: nat)
    | SendFailed(id: nat, code: int)
    | FlagClear(id: nat, code: int)
    | Pushing(id: nat)
    | Settling(id: nat, ok: bool)
    | Calling(id: nat, ok: bool, k: nat)
    | Closing
    | Uncounting
    | Exited

  datatype CloserPc =
    | NotClosing
    | TimerFlagged
    | AccFlagged
    | RetryFlagged
    | PoolFlagged
    | SawZero
    | CloseReturned

  datatype Firing = Firing(id: nat, k: nat, ok: bool)

  datatype State = State(
    store: seq<Entry>,
    pending: map<Topic, nat>,
    queue: seq<nat>,
    hand: Hand,
    flight: seq<Work>,
    heap: multiset<nat>,
    timer: TimerPc,
    lock: Lock,
    quota: int,
    taskCount: int,
    timerStop: bool,
    accStop: bool,
    retryStop: bool,
    poolStop: bool,
    closer: CloserPc,
    accepted: seq<Call>,   // in the order the accumulator took them
    handed: seq<nat>,      // batches in the order of their first hand-over to the thread pool
    fired: seq<Firing>)    // callbacks called

  const Start := State([], map[], [], NoTask, [], multiset{}, Looping, Free, 0, 0,
                       false, false, false, false, NotClosing, [], [], [])

  // ----- The accumulator -----

  function NewEntry(c: Config, call: Call, now: int, pkg: bytes): Entry {
    var b := NewBatch(c, call, now, pkg);
    Entry(b, [call], b.totalDataSize, 0, false, Waiting)
  }

  function GrownEntry(e: Entry, call: Call): Entry {
    var b := Grown(e.b, call);
    e.(b := b, calls := e.calls + [call], sized := b.totalDataSize)
  }

  predicate Known(s: State, id: nat) {
    id < |s.store|
  }

  function Put(s: State, id: nat, e: Entry): State
    requires Known(s, id)
  {
    s.(store := s.store[id := e])
  }

  /** innerSendToServer, the linger flush and the drain: the batch of `t` goes to the thread pool. */
  function HandOver(s: State, t: Topic): State
    requires t in s.pending
  {
    s.(queue := s.queue + [s.pending[t]], handed := s.handed + [s.pending[t]], pending := s.pending - {t})
  }

  function NewPending(c: Config, s: State, call: Call, now: int, pkg: bytes): State {
    s.(store := s.store + [NewEntry(c, call, now, pkg)], pending := s.pending[call.topic := |s.store|])
  }

  /** The append under the lock, once the quota is reserved. */
  function Place(c: Config, s: State, call: Call, now: int, pkg: bytes): State
    requires call.topic in s.pending ==> Known(s, s.pending[call.topic])
  {
    if call.topic !in s.pending then NewPending(c, s, call, now, pkg)
    else
      var id := s.pending[call.topic];
      var e := s.store[id];
      var size := ListBytes(call.logs);
      match BranchOf(c, e.b.totalDataSize + size, |e.b.logs| + 1)
      case AppendAndFlush => HandOver(Put(s, id, GrownEntry(e, call)), call.topic)
      case AppendOnly => Put(s, id, GrownEntry(e, call))
      case FlushAndNew =>
        NewPending(c, HandOver(Put(s, id, e.(b := Charged(e.b, size))), call.topic), call, now, pkg)
  }

  // ----- Steps -----

  datatype SenderStep =
    | Acquire(call: Call)
    | TestStop
    | LoadQuota
    | TestQuota
    | Reserve
    | Append(now: int, pkg: bytes)

  /** addLogToProducerBatch refuses a call with a value above 10 MiB before it takes the lock. */
  predicate Admissible(call: Call) {
    forall l <- call.logs :: SmallValues(l)
  }

  predicate SenderEnabled(s: State, st: SenderStep) {
    match st
    case Acquire(call) => s.lock.Free? && Admissible(call)
    case TestStop => s.lock.Locked?
    case LoadQuota => s.lock.Checked?
    case TestQuota => s.lock.Loaded?
    case Reserve => s.lock.Tested?
    case Append(_, _) =>
      s.lock.Reserved? && (s.lock.call.topic in s.pending ==> Known(s, s.pending[s.lock.call.topic]))
  }

  function ApplySender(c: Config, s: State, st: SenderStep): State
    requires SenderEnabled(s, st)
  {
    match st
    case Acquire(call) => s.(lock := Locked(call))
    case TestStop => s.(lock := if s.accStop then Free else Checked(s.lock.call))
    case LoadQuota => s.(lock := Loaded(s.lock.call, s.quota))
    case TestQuota =>
      s.(lock := if s.lock.cur + ListBytes(s.lock.call.logs) > c.totalSizeLnBytes then Free else Tested(s.lock.call))
    case Reserve => s.(quota := s.quota + ListBytes(s.lock.call.logs), lock := Reserved(s.lock.call))
    case Append(now, pkg) =>
      var call := s.lock.call;
      Place(c, s, call, now, pkg).(lock := Free, accepted := s.accepted + [call])
  }

  datatype TimerStep =
    | TestTimerStop
    | LingerLock(passNow: int)
    | LingerVisit(topic: Topic, visitNow: int)
    | LingerUnlock
    | TakeRetries(ids: seq<nat>, clock: seq<int>, all: bool)  // `all`: the stop flag, as read before the call
    | MoveOne
    | DrainLock
    | DrainOne(topic: Topic)
    | DrainUnlock
    | FinalTakeAll(ids: seq<nat>)

  function RetryKey(s: State, id: nat): int
    requires Known(s, id)
  {
    s.store[id].b.nextRetryMs
  }

  /**
    * What getRetryBatch may return: a sorted part of the heap, each batch due at its own reading of the
    * clock, and nothing left that was due at the last reading; all of the heap when stopping.
    */
  ghost predicate MayTake(s: State, ids: seq<nat>, clock: seq<int>, all: bool) {
    && multiset(ids) <= s.heap
    && (forall id <- s.heap :: Known(s, id))
    && (forall id <- ids :: Known(s, id))
    && (forall i, j | 0 <= i < j < |ids| :: RetryKey(s, ids[i]) <= RetryKey(s, ids[j]))
    && if all || multiset(ids) == s.heap then
         && multiset(ids) == s.heap
         && (!all ==> |clock| == |ids| && forall i | 0 <= i < |ids| :: RetryKey(s, ids[i]) < clock[i])
       else
         && |clock| == |ids| + 1
         && (forall i | 0 <= i < |ids| :: RetryKey(s, ids[i]) < clock[i])
         && (forall id <- s.heap - multiset(ids) :: clock[|ids|] <= RetryKey(s, id))
  }

  /** Both readings of the clock find the batch old enough: that of the pass and that of its visit. */
  predicate DueAt(created: int, lingerMs: int, passNow: int, visitNow: int) {
    created + lingerMs - passNow <= 0 && visitNow - created >= lingerMs
  }

  ghost predicate TimerEnabled(s: State, st: TimerStep) {
    match st
    case TestTimerStop => s.timer.Looping?
    case LingerLock(_) => s.timer.LingerWait? && s.lock.Free?
    case LingerVisit(t, _) =>
      s.timer.Lingering? && t in s.timer.todo && t in s.pending && Known(s, s.pending[t])
    case LingerUnlock => s.timer.Lingering? && s.timer.todo == {}
    case TakeRetries(ids, clock, all) => s.timer.Retrying? && (all ==> s.timerStop) && MayTake(s, ids, clock, all)
    case MoveOne => s.timer.Moving? || s.timer.FinalMoving?
    case DrainLock => s.timer.DrainWait? && s.lock.Free?
    case DrainOne(t) => s.timer.Draining? && t in s.pending
    case DrainUnlock => s.timer.Draining? && s.pending == map[]
    case FinalTakeAll(ids) => s.timer.FinalTake? && MayTake(s, ids, [], true)
  }

  ghost function ApplyTimer(c: Config, s: State, st: TimerStep): State
    requires TimerEnabled(s, st)
  {
    match st
    case TestTimerStop => s.(timer := if s.timerStop then DrainWait else LingerWait)
    case LingerLock(now) => s.(timer := Lingering(now, s.pending.Keys), lock := TimerHolds)
    case LingerVisit(t, now) =>
      var b := s.store[s.pending[t]].b;
      var due := DueAt(b.createTimeMs, c.lingerMs, s.timer.now, now);
      (if due then HandOver(s, t) else s).(timer := Lingering(s.timer.now, s.timer.todo - {t}))
    case LingerUnlock => s.(timer := Retrying, lock := Free)
    case TakeRetries(ids, _, _) => s.(timer := Moving(ids), heap := s.heap - multiset(ids))
    case MoveOne =>
      var list := s.timer.list;
      if list == [] then s.(timer := if s.timer.Moving? then Looping else TimerDone)
      else s.(queue := s.queue + [list[0]],
              timer := if s.timer.Moving? then Moving(list[1..]) else FinalMoving(list[1..]))
    case DrainLock => s.(timer := Draining, lock := TimerHolds)
    case DrainOne(t) => HandOver(s, t)
    case DrainUnlock => s.(timer := FinalTake, lock := Free)
    case FinalTakeAll(ids) => s.(timer := FinalMoving(ids), heap := s.heap - multiset(ids))
  }

  datatype DispatchStep = Pop | Count | Spawn | TestPoolStop

  /** Goroutines that hold a place in the semaphore. */
  function Tokens(ws: seq<Work>): nat {
    if ws == [] then 0 else (if ws[0].Uncounting? || ws[0].Exited? then 0 else 1) + Tokens(ws[1..])
  }

  predicate DispatchEnabled(c: Config, s: State, st: DispatchStep) {
    match st
    case Pop => s.hand.NoTask?
    case Count => s.hand.Popped?
    case Spawn => s.hand.Counted? && Tokens(s.flight) < c.maxSendWorkerCount
    case TestPoolStop => s.hand.SawEmpty?
  }

  function ApplyDispatch(c: Config, s: State, st: DispatchStep): State
    requires DispatchEnabled(c, s, st)
  {
    match st
    case Pop =>
      if s.queue == [] then s.(hand := SawEmpty) else s.(hand := Popped(s.queue[0]), queue := s.queue[1..])
    case Count => s.(hand := Counted(s.hand.id), taskCount := s.taskCount + 1)
    case Spawn => s.(hand := NoTask, flight := s.flight + [Sending(s.hand.id)])
    case TestPoolStop => s.(hand := if s.poolStop then DispatcherDone else NoTask)
  }

  datatype WorkStep =
    | SendOk(now: int)
    | SendError(code: int)
    | LoadFlag(now: int)
    | Decide(now: int, retryNow: int, garbage: int64)
    | Push
    | Release
    | CallNext
    | CallsDone
    | FreeToken
    | Uncount

  /** Every phase but the last three holds a batch. */
  predicate Holding(w: Work) {
    !w.Closing? && !w.Uncounting? && !w.Exited?
  }

  /** The step is the next one of a goroutine at `g`. */
  predicate Follows(g: Work, st: WorkStep) {
    match st
    case SendOk(_) => g.Sending?
    case SendError(_) => g.Sending?
    case LoadFlag(_) => g.SendFailed?
    case Decide(_, _, _) => g.FlagClear?
    case Push => g.Pushing?
    case Release => g.Settling?
    case CallNext => g.Calling?
    case CallsDone => g.Calling?
    case FreeToken => g.Closing?
    case Uncount => g.Uncounting?
  }

  predicate WorkEnabled(s: State, w: nat, st: WorkStep) {
    && w < |s.flight| && Follows(s.flight[w], st)
    && (Holding(s.flight[w]) ==> Known(s, s.flight[w].id))
    && (st.CallNext? ==> s.flight[w].k < |s.store[s.flight[w].id].b.callbacks|)
    && (st.CallsDone? ==> s.flight[w].k >= |s.store[s.flight[w].id].b.callbacks|)
  }

  predicate NoRetryCode(code: int) {
    code == 413 || code == 404 || code == 401
  }

  function Goes(s: State, w: nat, g: Work): State
    requires w < |s.flight|
  {
    s.(flight := s.flight[w := g])
  }

  function Recorded(c: Config, e: Entry, code: int, now: int, stage: Stage): Entry {
    e.(b := Failed(c, e.b, code, now), stage := stage)
  }

  /** A failed batch below its retry limit: recorded, and due again after the backoff. */
  function Requeued(c: Config, e: Entry, code: int, now: int, retryNow: int, garbage: int64): Entry {
    var r := Recorded(c, e, code, now, Waiting);
    var delay := RetryDelay(c.baseRetryBackoffMs, r.b.attemptCount, c.maxRetryBackoffMs, garbage);
    r.(b := r.b.(nextRetryMs := retryNow + delay))
  }

  /** What a goroutine at `g` makes of its batch `e`, and where it is then. */
  function Outcome(c: Config, e: Entry, g: Work, st: WorkStep, retryStop: bool): (Entry, Work)
    requires Follows(g, st) && Holding(g) && !st.Push?
  {
    match st
    case SendOk(now) =>
      (e.(b := Succeeded(c, e.b, now), sends := e.sends + 1, lastOk := true, stage := Decided(true)),
       Settling(g.id, true))
    case SendError(code) =>
      (e.(sends := e.sends + 1, lastOk := false, stage := Failing), SendFailed(g.id, code))
    case LoadFlag(now) =>
      if retryStop then (Recorded(c, e, g.code, now, Decided(false)), Settling(g.id, false))
      else (e, FlagClear(g.id, g.code))
    case Decide(now, retryNow, garbage) =>
      if NoRetryCode(g.code) then (Recorded(c, e, g.code, now, Decided(false)), Settling(g.id, false))
      else if e.b.attemptCount < c.retries then (Requeued(c, e, g.code, now, retryNow, garbage), Pushing(g.id))
      else (e.(stage := Decided(false)), Settling(g.id, false))
    case Release => (e.(stage := Released(g.ok, 0)), Calling(g.id, g.ok, 0))
    case CallNext => (e.(stage := Released(g.ok, g.k + 1)), Calling(g.id, g.ok, g.k + 1))
    case CallsDone => (e.(stage := Finished(g.ok)), Closing)
  }

  /** The quota a goroutine gives back by its next step. */
  function Freed(e: Entry, g: Work): int {
    if g.Settling? then e.b.accountedSize else 0
  }

  /** The callback a goroutine calls by the step, if any. */
  function Calls(g: Work, st: WorkStep): seq<Firing> {
    if g.Calling? && st.CallNext? then [Firing(g.id, g.k, g.ok)] else []
  }

  function ApplyWork(c: Config, s: State, w: nat, st: WorkStep): State
    requires WorkEnabled(s, w, st)
  {
    var g := s.flight[w];
    match st
    case Push => Goes(s.(heap := s.heap + multiset{g.id}), w, Closing)
    case FreeToken => Goes(s, w, Uncounting)
    case Uncount => Goes(s, w, Exited).(taskCount := s.taskCount - 1)
    case _ =>
      var e := s.store[g.id];
      var (e', g') := Outcome(c, e, g, st, s.retryStop);
      Goes(Put(s, g.id, e'), w, g').(
        quota := s.quota - Freed(e, g),
        fired := s.fired + Calls(g, st))
  }

  datatype CloseStep = SetTimerStop | SetAccStop | SetRetryStop | SetPoolStop | SeeZero | SeeIdle | SeeBusy

  predicate CloseEnabled(s: State, st: CloseStep) {
    match st
    case SetTimerStop => s.closer.NotClosing?
    case SetAccStop => s.closer.TimerFlagged?
    case SetRetryStop => s.closer.AccFlagged?
    case SetPoolStop => s.closer.RetryFlagged? && s.timer.TimerDone?
    case SeeZero => s.closer.PoolFlagged? && s.taskCount == 0
    case SeeIdle => s.closer.SawZero? && s.queue == []
    case SeeBusy => s.closer.SawZero? && s.queue != []
  }

  function ApplyClose(s: State, st: CloseStep): State
    requires CloseEnabled(s, st)
  {
    match st
    case SetTimerStop => s.(timerStop := true, closer := TimerFlagged)
    case SetAccStop => s.(accStop := true, closer := AccFlagged)
    case SetRetryStop => s.(retryStop := true, closer := RetryFlagged)
    case SetPoolStop => s.(poolStop := true, closer := PoolFlagged)
    case SeeZero => s.(closer := SawZero)
    case SeeIdle => s.(closer := CloseReturned)
    case SeeBusy => s.(closer := PoolFlagged)
  }

  datatype Step =
    | OfSender(sender: SenderStep)
    | OfTimer(timer: TimerStep)
    | OfDispatcher(dispatch: DispatchStep)
    | OfWorker(w: nat, work: WorkStep)
    | OfClose(close: CloseStep)

  ghost predicate Enabled(c: Config, s: State, st: Step) {
    match st
    case OfSender(x) => SenderEnabled(s, x)
    case OfTimer(x) => TimerEnabled(s, x)
    case OfDispatcher(x) => DispatchEnabled(c, s, x)
    case OfWorker(w, x) => WorkEnabled(s, w, x)
    case OfClose(x) => CloseEnabled(s, x)
  }

  ghost function Apply(c: Config, s: State, st: Step): State
    requires Enabled(c, s, st)
  {
    match st
    case OfSender(x) => ApplySender(c, s, x)
    case OfTimer(x) => ApplyTimer(c, s, x)
    case OfDispatcher(x) => ApplyDispatch(c, s, x)
    case OfWorker(w, x) => ApplyWork(c, s, w, x)
    case OfClose(x) => ApplyClose(s, x)
  }

  /** A run: every step is enabled where it is taken. */
  ghost predicate IsRun(c: Config, s: State, steps: seq<Step>)
    decreases |steps|
  {
    steps == [] || (Enabled(c, s, steps[0]) && IsRun(c, Apply(c, s, steps[0]), steps[1..]))
  }

  ghost function After(c: Config, s: State, steps: seq<Step>): State
    requires IsRun(c, s, steps)
    decreases |steps|
  {
    if steps == [] then s else After(c, Apply(c, s, steps[0]), steps[1..])
  }
}
