/**
  * What every reachable state of the producer keeps: each batch holds the logs and callbacks of its calls,
  * within the size limits and the retry limit; the quota is what is owed; callbacks fire once each.
  */
module Accounts {
  import opened Basics
  import opened Messages
  import opened Batch
  import opened Pipeline
  import opened Frames
  import opened Ownership

  // ----- One batch -----

  function LogsOf(calls: seq<Call>): seq<Log> {
    if calls == [] then [] else LogsOf(calls[..|calls| - 1]) + calls[|calls| - 1].logs
  }

  function CallbacksOf(calls: seq<Call>): seq<nat> {
    if calls == [] then [] else CallbacksOf(calls[..|calls| - 1]) + Callbacks(calls[|calls| - 1].callback)
  }

  /** The batch is exactly its calls: their logs in order, their callbacks in order, their accounted size. */
  ghost predicate Books(e: Entry) {
    && e.calls != []
    && (forall call <- e.calls :: call.topic == e.b.topic)
    && e.b.logs == LogsOf(e.calls)
    && e.b.callbacks == CallbacksOf(e.calls)
    && AllFilled(e.b.logs) && e.b.accountedSize == ListBytes(e.b.logs)
  }

  function Min(a: int, b: int): int {
    if a < b then a else b
  }

  function Limit(c: Config): nat {
    if c.retries > 0 then c.retries else 0
  }

  /** Sends, recorded attempts and outcome, stage by stage. */
  ghost predicate Attempted(c: Config, e: Entry) {
    var b := e.b;
    match e.stage
    case Waiting =>
      && e.sends == b.attemptCount <= Limit(c)
      && |b.attempts| == Min(b.attemptCount, c.maxReservedAttempts)
      && !b.successful && !e.lastOk
    case Failing =>
      && e.sends == b.attemptCount + 1 && b.attemptCount <= Limit(c)
      && |b.attempts| == Min(b.attemptCount, c.maxReservedAttempts)
      && !b.successful && !e.lastOk
    case Decided(ok) => Final(c, e, ok)
    case Released(ok, _) => Final(c, e, ok)
    case Finished(ok) => Final(c, e, ok)
  }

  /** Once settled: success exactly when the last Send returned nil. A failure beyond the limit is not recorded. */
  ghost predicate Final(c: Config, e: Entry, ok: bool) {
    var b := e.b;
    && e.lastOk == b.successful == ok && 1 <= e.sends <= Limit(c) + 1
    && if ok then
         e.sends == b.attemptCount + 1 && |b.attempts| == Min(b.attemptCount + 1, c.maxReservedAttempts)
       else
         && |b.attempts| == Min(b.attemptCount, c.maxReservedAttempts)
         && (e.sends == b.attemptCount || (e.sends == b.attemptCount + 1 && b.attemptCount >= c.retries))
  }

  /** At its last append: within five MiB and below the count limit, if more than one call went in. */
  ghost predicate Sized(c: Config, e: Entry) {
    && (AllCovered(e.b.logs) ==> e.b.accountedSize <= e.sized)
    && (|e.calls| > 1 ==>
          && e.sized <= FIVE_MIB
          && |e.b.logs| - |e.calls[|e.calls| - 1].logs| < c.maxBatchCount)
  }

  ghost predicate EntryOk(c: Config, e: Entry) {
    Books(e) && Attempted(c, e) && Sized(c, e)
  }

  lemma CallsSnoc(calls: seq<Call>, call: Call)
    ensures LogsOf(calls + [call]) == LogsOf(calls) + call.logs
    ensures CallbacksOf(calls + [call]) == CallbacksOf(calls) + Callbacks(call.callback)
  {
    assert (calls + [call])[..|calls|] == calls;
  }

  lemma NewEntryOk(c: Config, call: Call, now: int, pkg: bytes)
    requires ValidConfig(c)
    ensures EntryOk(c, NewEntry(c, call, now, pkg))
  {
    hide GroupSize;
    CallsSnoc([], call);
    assert [] + [call] == [call] && [] + call.logs == call.logs;
    assert [] + Callbacks(call.callback) == Callbacks(call.callback);
    if AllCovered(call.logs) {
      AccountedWithinSize(c, call.logs, pkg);
    }
  }

  lemma GrownEntryOk(c: Config, e: Entry, call: Call)
    requires ValidConfig(c) && EntryOk(c, e) && call.topic == e.b.topic && e.stage.Waiting?
    requires e.sized == e.b.totalDataSize
    requires !BranchOf(c, e.b.totalDataSize + ListBytes(call.logs), |e.b.logs| + 1).FlushAndNew?
    ensures EntryOk(c, GrownEntry(e, call))
  {
    CallsSnoc(e.calls, call);
    ListBytesAppend(e.b.logs, call.logs);
    var e' := GrownEntry(e, call);
    assert e'.calls[|e'.calls| - 1] == call;
    if AllCovered(e'.b.logs) {
      forall l | l in e.b.logs
        ensures Covered(l)
      {
        assert l in e'.b.logs;
      }
    }
  }

  lemma ChargedOk(c: Config, e: Entry, size: nat)
    requires EntryOk(c, e)
    ensures EntryOk(c, e.(b := Charged(e.b, size)))
  {
  }

  lemma OutcomeOk(c: Config, e: Entry, g: Work, st: WorkStep, stop: bool, store: seq<Entry>)
    requires ValidConfig(c) && EntryOk(c, e)
    requires Follows(g, st) && Holding(g) && !st.Push? && WorkFits(store, g) && e == store[g.id]
    ensures EntryOk(c, Outcome(c, e, g, st, stop).0)
    ensures Outcome(c, e, g, st, stop).0.calls == e.calls
    ensures Outcome(c, e, g, st, stop).0.b.callbacks == e.b.callbacks
    ensures Outcome(c, e, g, st, stop).0.b.accountedSize == e.b.accountedSize
  {
    hide Attempted, Sized, RetryDelay, ListBytes, LogsOf, CallbacksOf, AllFilled;
    OutcomeAttempted(c, e, g, st, stop, store);
    OutcomeSized(c, e, g, st, stop);
  }

  lemma OutcomeAttempted(c: Config, e: Entry, g: Work, st: WorkStep, stop: bool, store: seq<Entry>)
    requires ValidConfig(c) && Attempted(c, e)
    requires Follows(g, st) && Holding(g) && !st.Push? && WorkFits(store, g) && e == store[g.id]
    ensures Attempted(c, Outcome(c, e, g, st, stop).0)
  {
    hide RetryDelay;
  }

  lemma OutcomeSized(c: Config, e: Entry, g: Work, st: WorkStep, stop: bool)
    requires Sized(c, e) && Follows(g, st) && Holding(g) && !st.Push?
    ensures Sized(c, Outcome(c, e, g, st, stop).0)
  {
    hide RetryDelay, AllCovered;
  }

  // ----- All batches -----

  ghost predicate EntriesOk(c: Config, store: seq<Entry>) {
    forall id | 0 <= id < |store| :: EntryOk(c, store[id])
  }

  /** A pending batch has not been charged since its last append. */
  ghost predicate PendingSized(s: State) {
    forall t <- s.pending :: Known(s, s.pending[t]) && s.store[s.pending[t]].sized == s.store[s.pending[t]].b.totalDataSize
  }

  ghost predicate Sound(c: Config, s: State) {
    EntriesOk(c, s.store) && PendingSized(s)
  }

  /** A step that leaves the batches, the callbacks and the accepted calls alone, and adds nothing pending. */
  ghost predicate Quiet(s: State, s': State) {
    && s'.store == s.store && s'.fired == s.fired && s'.accepted == s.accepted
    && forall t <- s'.pending :: t in s.pending && s'.pending[t] == s.pending[t]
  }

  /** The steps that change a batch: the append, and a goroutine working on the batch it holds. */
  predicate Writes(s: State, st: Step) {
    match st
    case OfSender(x) => x.Append?
    case OfWorker(w, x) => w < |s.flight| && Holding(s.flight[w]) && !x.Push?
    case _ => false
  }

  lemma QuietSender(c: Config, s: State, st: SenderStep)
    requires SenderEnabled(s, st) && !st.Append?
    ensures Quiet(s, ApplySender(c, s, st))
  {
    hide Place, ListBytes, Admissible;
  }

  lemma QuietTimer(c: Config, s: State, st: TimerStep)
    requires TimerEnabled(s, st)
    ensures Quiet(s, ApplyTimer(c, s, st))
  {
    hide TimerEnabled, ApplyTimer;
    TimerFrame(c, s, st);
    TimerPending(c, s, st);
  }

  lemma QuietDispatch(c: Config, s: State, st: DispatchStep)
    requires DispatchEnabled(c, s, st)
    ensures Quiet(s, ApplyDispatch(c, s, st))
  {
    hide DispatchEnabled, ApplyDispatch;
    DispatchFrame(c, s, st);
  }

  lemma QuietWork(c: Config, s: State, w: nat, st: WorkStep)
    requires WorkEnabled(s, w, st) && (st.Push? || !Holding(s.flight[w]))
    ensures Quiet(s, ApplyWork(c, s, w, st))
  {
    hide ApplyWork;
    IdleChanges(c, s, w, st);
  }

  lemma QuietClose(s: State, st: CloseStep)
    requires CloseEnabled(s, st)
    ensures Quiet(s, ApplyClose(s, st))
  {
  }

  lemma QuietSteps(c: Config, s: State, st: Step)
    requires Enabled(c, s, st) && !Writes(s, st)
    ensures Quiet(s, Apply(c, s, st))
  {
    hide Quiet, ApplySender, ApplyTimer, ApplyDispatch, ApplyWork, ApplyClose;
    hide SenderEnabled, TimerEnabled, DispatchEnabled, CloseEnabled;
    match st
    case OfSender(x) => QuietSender(c, s, x);
    case OfTimer(x) => QuietTimer(c, s, x);
    case OfDispatcher(x) => QuietDispatch(c, s, x);
    case OfWorker(w, x) => QuietWork(c, s, w, x);
    case OfClose(x) => QuietClose(s, x);
  }

  lemma SoundQuiet(c: Config, s: State, s': State)
    requires Sound(c, s) && Quiet(s, s')
    ensures Sound(c, s')
  {
    hide EntryOk;
  }

  lemma PutSound(c: Config, s: State, id: nat, e: Entry)
    requires Sound(c, s) && Known(s, id) && EntryOk(c, e) && e.sized == e.b.totalDataSize
    ensures Sound(c, Put(s, id, e))
  {
    hide EntryOk;
  }

  /** A batch that leaves the pending map may have been charged for the call that pushed it out. */
  lemma FlushSound(c: Config, s: State, t: Topic, e: Entry)
    requires Sound(c, s) && PendingOk(s) && t in s.pending && EntryOk(c, e)
    ensures Sound(c, HandOver(Put(s, s.pending[t], e), t))
  {
    hide EntryOk;
    var s' := HandOver(Put(s, s.pending[t], e), t);
    forall u | u in s'.pending
      ensures Known(s', s'.pending[u]) && s'.store[s'.pending[u]].sized == s'.store[s'.pending[u]].b.totalDataSize
    {
      assert u in s.pending && s.store[s.pending[u]].b.topic == u;
    }
  }

  lemma NewPendingSound(c: Config, s: State, call: Call, now: int, pkg: bytes)
    requires ValidConfig(c) && Sound(c, s)
    ensures Sound(c, NewPending(c, s, call, now, pkg))
  {
    NewEntryOk(c, call, now, pkg);
    NewEntrySized(c, call, now, pkg);
    hide EntryOk, NewEntry;
  }

  lemma PlaceSound(c: Config, s: State, call: Call, now: int, pkg: bytes)
    requires ValidConfig(c) && Owned(s) && Sound(c, s)
    requires call.topic in s.pending ==> Known(s, s.pending[call.topic])
    ensures Sound(c, Place(c, s, call, now, pkg))
  {
    hide EntryOk, NewEntry, GrownEntry, Charged, NewPending, Sound;
    var t := call.topic;
    if t !in s.pending {
      NewPendingSound(c, s, call, now, pkg);
    } else {
      PendingKnown(s, t);
      SoundAt(c, s, t);
      var id := s.pending[t];
      var e := s.store[id];
      var size := ListBytes(call.logs);
      if BranchOf(c, e.b.totalDataSize + size, |e.b.logs| + 1).FlushAndNew? {
        var charged := e.(b := Charged(e.b, size));
        ChargedOk(c, e, size);
        FlushSound(c, s, t, charged);
        NewPendingSound(c, HandOver(Put(s, id, charged), t), call, now, pkg);
      } else {
        GrownEntryOk(c, e, call);
        GrownEntrySized(e, call);
        PutSound(c, s, id, GrownEntry(e, call));
        FlushSound(c, s, t, GrownEntry(e, call));
      }
    }
  }

  lemma SoundAt(c: Config, s: State, t: Topic)
    requires Sound(c, s) && t in s.pending && Known(s, s.pending[t])
    ensures EntryOk(c, s.store[s.pending[t]]) && s.store[s.pending[t]].sized == s.store[s.pending[t]].b.totalDataSize
  {
  }

  lemma NewEntrySized(c: Config, call: Call, now: int, pkg: bytes)
    ensures var e := NewEntry(c, call, now, pkg); e.sized == e.b.totalDataSize
  {
  }

  lemma GrownEntrySized(e: Entry, call: Call)
    ensures var e' := GrownEntry(e, call); e'.sized == e'.b.totalDataSize
  {
  }

  /** The batch a goroutine holds is sound and not pending. */
  lemma HeldSound(c: Config, s: State, w: nat)
    requires Owned(s) && Sound(c, s) && w < |s.flight| && Holding(s.flight[w])
    ensures WorkFits(s.store, s.flight[w]) && Known(s, s.flight[w].id) && EntryOk(c, s.store[s.flight[w].id])
    ensures forall t <- s.pending :: s.pending[t] != s.flight[w].id
  {
    hide EntryOk;
    FitsNow(s, w);
    SoleOwner(s, w);
    forall t | t in s.pending
      ensures s.pending[t] != s.flight[w].id
    {
      assert s.pending[t] in s.pending.Values;
    }
  }

  lemma WorkSound(c: Config, s: State, w: nat, st: WorkStep)
    requires ValidConfig(c) && Owned(s) && Sound(c, s)
    requires WorkEnabled(s, w, st) && Holding(s.flight[w]) && !st.Push?
    ensures Sound(c, ApplyWork(c, s, w, st))
  {
    var g := s.flight[w];
    HeldSound(c, s, w);
    OutcomeOk(c, s.store[g.id], g, st, s.retryStop, s.store);
    hide Owned, EntryOk, Outcome, WorkFits, ApplyWork;
    WorkChanges(c, s, w, st);
  }

  lemma StepSound(c: Config, s: State, st: Step)
    requires ValidConfig(c) && Owned(s) && Sound(c, s) && Enabled(c, s, st)
    ensures Sound(c, Apply(c, s, st))
  {
    hide Owned, Sound, Quiet, ApplyTimer, ApplyDispatch, ApplyClose, MayTake, TimerEnabled, DispatchEnabled, CloseEnabled;
    if Writes(s, st) {
      match st
      case OfSender(x) =>
        var s1 := Place(c, s, s.lock.call, x.now, x.pkg);
        PlaceSound(c, s, s.lock.call, x.now, x.pkg);
        SoundStore(c, s1, Apply(c, s, st));
      case OfWorker(w, x) =>
        WorkSound(c, s, w, x);
    } else {
      QuietSteps(c, s, st);
      SoundQuiet(c, s, Apply(c, s, st));
    }
  }

  lemma SoundStore(c: Config, s: State, s': State)
    requires Sound(c, s) && s'.store == s.store && s'.pending == s.pending
    ensures Sound(c, s')
  {
  }

  // ----- Quota -----

  /** What a batch still owes: its accounted size until the quota is released. */
  function Due(e: Entry): int {
    if e.stage.Released? || e.stage.Finished? then 0 else e.b.accountedSize
  }

  function Owed(store: seq<Entry>): int {
    if store == [] then 0 else Owed(store[..|store| - 1]) + Due(store[|store| - 1])
  }

  /** What the lock holder has reserved and not yet put into a batch. */
  function Charge(l: Lock): nat {
    if l.Reserved? then ListBytes(l.call.logs) else 0
  }

  ghost predicate QuotaOk(c: Config, s: State) {
    && s.quota == Owed(s.store) + Charge(s.lock)
    && s.quota <= c.totalSizeLnBytes
    && (s.lock.TimerHolds? <==> s.timer.Lingering? || s.timer.Draining?)
    && (s.lock.Loaded? ==> s.quota <= s.lock.cur)
    && (s.lock.Tested? ==> s.quota + ListBytes(s.lock.call.logs) <= c.totalSizeLnBytes)
  }

  lemma {:induction false} OwedPut(store: seq<Entry>, id: nat, e: Entry)
    requires id < |store|
    ensures Owed(store[id := e]) == Owed(store) - Due(store[id]) + Due(e)
  {
    hide Due;
    var n := |store| - 1;
    if id == n {
      assert store[id := e][..n] == store[..n];
    } else {
      assert store[id := e][..n] == store[..n][id := e];
      OwedPut(store[..n], id, e);
    }
  }

  lemma OwedSnoc(store: seq<Entry>, e: Entry)
    ensures Owed(store + [e]) == Owed(store) + Due(e)
  {
    assert (store + [e])[..|store|] == store;
  }

  lemma {:induction false} OwedNonNegative(c: Config, store: seq<Entry>)
    requires EntriesOk(c, store)
    ensures Owed(store) >= 0
  {
    if store != [] {
      var n := |store| - 1;
      assert EntryOk(c, store[n]);
      assert forall id | 0 <= id < n :: store[..n][id] == store[id];
      hide EntryOk;
      OwedNonNegative(c, store[..n]);
    }
  }

  /** The append moves the reserved bytes into what is owed, and nothing else. */
  lemma PlaceOwes(c: Config, s: State, call: Call, now: int, pkg: bytes)
    requires Owned(s) && (call.topic in s.pending ==> Known(s, s.pending[call.topic]))
    ensures Owed(Place(c, s, call, now, pkg).store) == Owed(s.store) + ListBytes(call.logs)
  {
    hide BranchOf, ListBytes;
    var t := call.topic;
    var entry := NewEntry(c, call, now, pkg);
    assert Due(entry) == ListBytes(call.logs);
    if t !in s.pending {
      OwedSnoc(s.store, entry);
    } else {
      PendingKnown(s, t);
      hide Owned;
      var id := s.pending[t];
      var e := s.store[id];
      var size := ListBytes(call.logs);
      OwedPut(s.store, id, GrownEntry(e, call));
      var charged := e.(b := Charged(e.b, size));
      OwedPut(s.store, id, charged);
      OwedSnoc(s.store[id := charged], entry);
    }
  }

  lemma OutcomeOwes(c: Config, e: Entry, g: Work, st: WorkStep, stop: bool, store: seq<Entry>)
    requires Follows(g, st) && Holding(g) && !st.Push? && WorkFits(store, g) && e == store[g.id]
    ensures Due(Outcome(c, e, g, st, stop).0) == Due(e) - Freed(e, g)
  {
    hide RetryDelay;
  }

  lemma WorkQuota(c: Config, s: State, w: nat, st: WorkStep)
    requires ValidConfig(c) && Owned(s) && Sound(c, s) && QuotaOk(c, s)
    requires WorkEnabled(s, w, st) && Holding(s.flight[w]) && !st.Push?
    ensures QuotaOk(c, ApplyWork(c, s, w, st))
    ensures ApplyWork(c, s, w, st).quota <= s.quota
  {
    hide Owned, Sound;
    var g := s.flight[w];
    var e := s.store[g.id];
    HeldSound(c, s, w);
    assert e.b.accountedSize >= 0;
    OutcomeOwes(c, e, g, st, s.retryStop, s.store);
    hide Outcome, Due, EntryOk, WorkFits, ApplyWork;
    WorkChanges(c, s, w, st);
    OwedPut(s.store, g.id, Outcome(c, e, g, st, s.retryStop).0);
  }

  lemma AppendQuota(c: Config, s: State, now: int, pkg: bytes)
    requires Owned(s) && QuotaOk(c, s) && SenderEnabled(s, Append(now, pkg))
    ensures QuotaOk(c, ApplySender(c, s, Append(now, pkg)))
  {
    hide Owned, Place, ListBytes, Owed, ApplySender;
    PlaceOwes(c, s, s.lock.call, now, pkg);
    AppendFrame(c, s, now, pkg);
  }

  lemma SenderQuota(c: Config, s: State, st: SenderStep)
    requires QuotaOk(c, s) && SenderEnabled(s, st) && !st.Append?
    ensures QuotaOk(c, ApplySender(c, s, st))
  {
    hide Place, ListBytes, Owed;
  }

  lemma TimerQuota(c: Config, s: State, st: TimerStep)
    requires QuotaOk(c, s) && TimerEnabled(s, st)
    ensures QuotaOk(c, ApplyTimer(c, s, st))
  {
    hide ListBytes, Owed, TimerEnabled, ApplyTimer;
    TimerFrame(c, s, st);
    TimerLock(c, s, st);
  }

  lemma DispatchQuota(c: Config, s: State, st: DispatchStep)
    requires QuotaOk(c, s) && DispatchEnabled(c, s, st)
    ensures QuotaOk(c, ApplyDispatch(c, s, st))
  {
    hide ListBytes, Owed, DispatchEnabled, ApplyDispatch;
    DispatchFrame(c, s, st);
  }

  lemma IdleWorkQuota(c: Config, s: State, w: nat, st: WorkStep)
    requires QuotaOk(c, s) && WorkEnabled(s, w, st) && (st.Push? || !Holding(s.flight[w]))
    ensures QuotaOk(c, ApplyWork(c, s, w, st))
  {
    hide ListBytes, Owed, ApplyWork;
    IdleChanges(c, s, w, st);
  }

  lemma CloseQuota(c: Config, s: State, st: CloseStep)
    requires QuotaOk(c, s) && CloseEnabled(s, st)
    ensures QuotaOk(c, ApplyClose(s, st))
  {
    hide ListBytes, Owed;
  }

  lemma StepQuota(c: Config, s: State, st: Step)
    requires ValidConfig(c) && Owned(s) && Sound(c, s) && QuotaOk(c, s) && Enabled(c, s, st)
    ensures QuotaOk(c, Apply(c, s, st))
  {
    hide Owned, Sound, QuotaOk, ApplySender, ApplyTimer, ApplyDispatch, ApplyWork, ApplyClose;
    hide SenderEnabled, TimerEnabled, DispatchEnabled, CloseEnabled;
    match st
    case OfSender(x) =>
      if x.Append? {
        AppendQuota(c, s, x.now, x.pkg);
      } else {
        SenderQuota(c, s, x);
      }
    case OfTimer(x) => TimerQuota(c, s, x);
    case OfDispatcher(x) => DispatchQuota(c, s, x);
    case OfWorker(w, x) =>
      if Holding(s.flight[w]) && !x.Push? {
        WorkQuota(c, s, w, x);
      } else {
        IdleWorkQuota(c, s, w, x);
      }
    case OfClose(x) => CloseQuota(c, s, x);
  }

  // ----- Callbacks -----

  /** The callbacks of one batch that have been called, in order. */
  function FiredOf(fired: seq<Firing>, id: nat): seq<Firing> {
    if fired == [] then []
    else
      var last := fired[|fired| - 1];
      FiredOf(fired[..|fired| - 1], id) + (if last.id == id then [last] else [])
  }

  /** The first `n` callbacks of a batch, each called once, in order, with the same outcome. */
  function FirstFirings(id: nat, n: nat, ok: bool): seq<Firing> {
    if n == 0 then [] else FirstFirings(id, n - 1, ok) + [Firing(id, n - 1, ok)]
  }

  /** The callbacks that should have been called by now. */
  function Expected(store: seq<Entry>, id: nat): seq<Firing> {
    if id >= |store| then []
    else match store[id].stage
      case Released(ok, n) => FirstFirings(id, n, ok)
      case Finished(ok) => FirstFirings(id, |store[id].b.callbacks|, ok)
      case _ => []
  }

  ghost predicate FiredOk(s: State) {
    && (forall id: nat :: FiredOf(s.fired, id) == Expected(s.store, id))
    && (forall id | 0 <= id < |s.store| && s.store[id].stage.Released? ::
          s.store[id].stage.fired <= |s.store[id].b.callbacks|)
  }

  lemma FiredSnoc(fired: seq<Firing>, f: Firing, id: nat)
    ensures FiredOf(fired + [f], id) == FiredOf(fired, id) + (if f.id == id then [f] else [])
  {
    assert (fired + [f])[..|fired|] == fired;
  }

  /** A batch that goes from one expectation to the next by the callbacks called meanwhile. */
  lemma FiredPut(s: State, s': State, id: nat, e: Entry, calls: seq<Firing>)
    requires FiredOk(s) && Known(s, id)
    requires s'.store == s.store[id := e] && s'.fired == s.fired + calls
    requires calls == [] || (|calls| == 1 && calls[0].id == id)
    requires Expected(s'.store, id) == Expected(s.store, id) + calls
    requires e.stage.Released? ==> e.stage.fired <= |e.b.callbacks|
    ensures FiredOk(s')
  {
    hide FirstFirings;
    forall x: nat
      ensures FiredOf(s'.fired, x) == Expected(s'.store, x)
    {
      assert FiredOf(s.fired, x) == Expected(s.store, x);
      if calls == [] {
        assert s.fired + calls == s.fired;
        assert Expected(s.store, id) + calls == Expected(s.store, id);
      } else {
        assert calls == [calls[0]];
        FiredSnoc(s.fired, calls[0], x);
      }
    }
  }

  /** A new batch expects no calls yet. */
  lemma FiredNew(s: State, s': State, e: Entry)
    requires FiredOk(s) && s'.store == s.store + [e] && s'.fired == s.fired && e.stage.Waiting?
    ensures FiredOk(s')
  {
    hide FirstFirings;
    forall x: nat
      ensures FiredOf(s'.fired, x) == Expected(s'.store, x)
    {
      assert FiredOf(s.fired, x) == Expected(s.store, x);
    }
  }

  lemma FiredSame(s: State, s': State)
    requires FiredOk(s) && s'.store == s.store && s'.fired == s.fired
    ensures FiredOk(s')
  {
  }

  lemma PlaceFired(c: Config, s: State, call: Call, now: int, pkg: bytes)
    requires Owned(s) && FiredOk(s) && (call.topic in s.pending ==> Known(s, s.pending[call.topic]))
    ensures FiredOk(Place(c, s, call, now, pkg))
  {
    var s' := Place(c, s, call, now, pkg);
    PlaceKeeps(c, s, call, now, pkg);
    var entry := NewEntry(c, call, now, pkg);
    if call.topic !in s.pending {
      hide Owned, FiredOk;
      FiredNew(s, s', entry);
    } else {
      PendingKnown(s, call.topic);
      hide Owned, BranchOf, ListBytes, FiredOk, FirstFirings;
      var id := s.pending[call.topic];
      var e := s.store[id];
      var grown := GrownEntry(e, call);
      var charged := e.(b := Charged(e.b, ListBytes(call.logs)));
      assert s.fired + [] == s.fired;
      FiredPut(s, Put(s, id, grown), id, grown, []);
      FiredPut(s, Put(s, id, charged), id, charged, []);
      if s'.store == s.store[id := grown] {
        FiredSame(Put(s, id, grown), s');
      } else {
        FiredNew(Put(s, id, charged), s', entry);
      }
    }
  }

  /** What is expected of the batch of a goroutine after its step. */
  lemma OutcomeExpected(c: Config, store: seq<Entry>, g: Work, st: WorkStep, stop: bool)
    requires Follows(g, st) && Holding(g) && !st.Push? && WorkFits(store, g)
    requires var e := store[g.id];
             && Outcome(c, e, g, st, stop).0.b.callbacks == e.b.callbacks
             && (e.stage.Released? ==> e.stage.fired <= |e.b.callbacks|)
             && (st.CallNext? ==> g.k < |e.b.callbacks|) && (st.CallsDone? ==> g.k >= |e.b.callbacks|)
    ensures var e' := Outcome(c, store[g.id], g, st, stop).0;
            && Expected(store[g.id := e'], g.id) == Expected(store, g.id) + Calls(g, st)
            && (e'.stage.Released? ==> e'.stage.fired <= |e'.b.callbacks|)
  {
    hide RetryDelay, Failed, Succeeded;
    assert Expected(store, g.id) + [] == Expected(store, g.id);
  }

  lemma WorkFired(c: Config, s: State, w: nat, st: WorkStep)
    requires ValidConfig(c) && Owned(s) && Sound(c, s) && FiredOk(s)
    requires WorkEnabled(s, w, st) && Holding(s.flight[w]) && !st.Push?
    ensures FiredOk(ApplyWork(c, s, w, st))
  {
    hide Owned, Sound, EntryOk, Outcome, Expected, FiredOf, WorkFits;
    var g := s.flight[w];
    HeldSound(c, s, w);
    OutcomeOk(c, s.store[g.id], g, st, s.retryStop, s.store);
    OutcomeExpected(c, s.store, g, st, s.retryStop);
    hide FiredOk, ApplyWork;
    WorkChanges(c, s, w, st);
    FiredPut(s, ApplyWork(c, s, w, st), g.id, Outcome(c, s.store[g.id], g, st, s.retryStop).0, Calls(g, st));
  }

  lemma StepFired(c: Config, s: State, st: Step)
    requires ValidConfig(c) && Owned(s) && Sound(c, s) && FiredOk(s) && Enabled(c, s, st)
    ensures FiredOk(Apply(c, s, st))
  {
    hide Owned, Sound, FiredOk, ApplyTimer, ApplyDispatch, ApplyClose, MayTake, TimerEnabled, DispatchEnabled, CloseEnabled;
    if Writes(s, st) {
      match st
      case OfSender(x) =>
        PlaceFired(c, s, s.lock.call, x.now, x.pkg);
        FiredSame(Place(c, s, s.lock.call, x.now, x.pkg), Apply(c, s, st));
      case OfWorker(w, x) =>
        hide ApplyWork;
        WorkFired(c, s, w, x);
    } else {
      QuietSteps(c, s, st);
      FiredSame(s, Apply(c, s, st));
    }
  }
}
