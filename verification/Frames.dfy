/** What each party of the producer leaves alone. */
module Frames {
  import opened Basics
  import opened Batch
  import opened Pipeline

  ghost predicate SameFlags(s: State, s': State) {
    && s'.timerStop == s.timerStop && s'.accStop == s.accStop && s'.retryStop == s.retryStop
    && s'.poolStop == s.poolStop && s'.closer == s.closer
  }

  /** A sender changes batches, the pending map, the queue, the quota and its lock. */
  ghost predicate SenderOnly(s: State, s': State) {
    && SameFlags(s, s') && s'.hand == s.hand && s'.flight == s.flight && s'.heap == s.heap && s'.timer == s.timer
    && s'.taskCount == s.taskCount && s'.fired == s.fired && |s.store| <= |s'.store|
  }

  /** The append within it changes neither lock nor quota. */
  ghost predicate PlaceOnly(s: State, s': State) {
    SenderOnly(s, s') && s'.lock == s.lock && s'.quota == s.quota && s'.accepted == s.accepted
  }

  /** The timer moves batches and takes the lock; it changes no batch. */
  ghost predicate TimerOnly(s: State, s': State) {
    && SameFlags(s, s') && s'.store == s.store && s'.hand == s.hand && s'.flight == s.flight && s'.quota == s.quota
    && s'.taskCount == s.taskCount && s'.accepted == s.accepted && s'.fired == s.fired
  }

  ghost predicate DispatchOnly(s: State, s': State) {
    && SameFlags(s, s') && s'.store == s.store && s'.pending == s.pending && s'.heap == s.heap && s'.timer == s.timer
    && s'.lock == s.lock && s'.quota == s.quota && s'.accepted == s.accepted && s'.handed == s.handed
    && s'.fired == s.fired
  }

  ghost predicate WorkOnly(s: State, s': State) {
    && SameFlags(s, s') && s'.pending == s.pending && s'.queue == s.queue && s'.hand == s.hand && s'.timer == s.timer
    && s'.lock == s.lock && s'.accepted == s.accepted && s'.handed == s.handed && |s'.store| == |s.store|
  }

  // ----- Moves -----

  lemma HandOverFrame(s: State, t: Topic)
    requires t in s.pending
    ensures var s' := HandOver(s, t);
            && TimerOnly(s, s') && PlaceOnly(s, s') && s'.pending == s.pending - {t}
            && s'.timer == s.timer && s'.lock == s.lock && s'.heap == s.heap
  {
  }

  lemma PutFrame(s: State, id: nat, e: Entry)
    requires Known(s, id)
    ensures PlaceOnly(s, Put(s, id, e)) && Put(s, id, e).pending == s.pending
  {
  }

  lemma NewPendingFrame(c: Config, s: State, call: Call, now: int, pkg: bytes)
    ensures PlaceOnly(s, NewPending(c, s, call, now, pkg))
  {
    hide NewEntry;
  }

  lemma PlaceChain(a: State, b: State, d: State)
    requires PlaceOnly(a, b) && PlaceOnly(b, d)
    ensures PlaceOnly(a, d)
  {
  }

  /** The append changes only the store, the pending map, the queue and the hand-over history. */
  lemma PlaceKeeps(c: Config, s: State, call: Call, now: int, pkg: bytes)
    requires call.topic in s.pending ==> Known(s, s.pending[call.topic])
    ensures PlaceOnly(s, Place(c, s, call, now, pkg))
  {
    hide PlaceOnly, NewPending, Put, HandOver, GrownEntry, Charged, BranchOf, ListBytes;
    if call.topic !in s.pending {
      NewPendingFrame(c, s, call, now, pkg);
    } else {
      var id := s.pending[call.topic];
      var e := s.store[id];
      var grown, charged := GrownEntry(e, call), e.(b := Charged(e.b, ListBytes(call.logs)));
      PutFrame(s, id, grown);
      PutFrame(s, id, charged);
      HandOverFrame(Put(s, id, grown), call.topic);
      HandOverFrame(Put(s, id, charged), call.topic);
      PlaceChain(s, Put(s, id, grown), HandOver(Put(s, id, grown), call.topic));
      PlaceChain(s, Put(s, id, charged), HandOver(Put(s, id, charged), call.topic));
      NewPendingFrame(c, HandOver(Put(s, id, charged), call.topic), call, now, pkg);
      PlaceChain(s, HandOver(Put(s, id, charged), call.topic),
                 NewPending(c, HandOver(Put(s, id, charged), call.topic), call, now, pkg));
    }
  }

  // ----- Steps -----

  lemma AppendFrame(c: Config, s: State, now: int, pkg: bytes)
    requires SenderEnabled(s, Append(now, pkg))
    ensures var s' := ApplySender(c, s, Append(now, pkg));
            var placed := Place(c, s, s.lock.call, now, pkg);
            && SenderOnly(s, s') && s'.lock.Free? && s'.quota == s.quota && s'.accepted == s.accepted + [s.lock.call]
            && s'.store == placed.store && s'.pending == placed.pending && s'.queue == placed.queue
            && s'.handed == placed.handed
  {
    hide Place, ListBytes, Admissible;
    PlaceKeeps(c, s, s.lock.call, now, pkg);
  }

  lemma SenderFrame(c: Config, s: State, st: SenderStep)
    requires SenderEnabled(s, st)
    ensures SenderOnly(s, ApplySender(c, s, st))
  {
    hide Place, ListBytes, Admissible;
    if st.Append? {
      AppendFrame(c, s, st.now, st.pkg);
    }
  }

  lemma LingerFrame(c: Config, s: State, t: Topic, now: int)
    requires TimerEnabled(s, LingerVisit(t, now))
    ensures var s' := ApplyTimer(c, s, LingerVisit(t, now));
            && TimerOnly(s, s') && s'.lock == s.lock && s'.heap == s.heap
            && s'.timer == Lingering(s.timer.now, s.timer.todo - {t})
            && (s'.pending == s.pending || s'.pending == s.pending - {t})
  {
    hide MayTake, Known, HandOver, DueAt;
    HandOverFrame(s, t);
  }

  lemma TimerFrame(c: Config, s: State, st: TimerStep)
    requires TimerEnabled(s, st)
    ensures TimerOnly(s, ApplyTimer(c, s, st))
  {
    hide MayTake, Known, HandOver;
    if st.LingerVisit? {
      LingerFrame(c, s, st.topic, st.visitNow);
    } else if st.DrainOne? {
      HandOverFrame(s, st.topic);
    }
  }

  /** Nothing comes to be pending by the timer. */
  lemma TimerPending(c: Config, s: State, st: TimerStep)
    requires TimerEnabled(s, st)
    ensures forall t <- ApplyTimer(c, s, st).pending :: t in s.pending && ApplyTimer(c, s, st).pending[t] == s.pending[t]
    ensures !st.LingerVisit? && !st.DrainOne? ==> ApplyTimer(c, s, st).pending == s.pending
  {
    hide MayTake, Known, HandOver;
    if st.LingerVisit? {
      LingerFrame(c, s, st.topic, st.visitNow);
      hide ApplyTimer;
    } else if st.DrainOne? {
      HandOverFrame(s, st.topic);
    }
  }

  /** The timer holds the lock during its passes over the pending map. */
  lemma TimerLock(c: Config, s: State, st: TimerStep)
    requires TimerEnabled(s, st) && (s.lock.TimerHolds? <==> s.timer.Lingering? || s.timer.Draining?)
    ensures var s' := ApplyTimer(c, s, st);
            && (s'.lock.TimerHolds? <==> s'.timer.Lingering? || s'.timer.Draining?)
            && (s'.lock == s.lock || (s.lock.Free? && s'.lock.TimerHolds?) || (s.lock.TimerHolds? && s'.lock.Free?))
  {
    hide MayTake, Known, HandOver;
    if st.LingerVisit? {
      LingerFrame(c, s, st.topic, st.visitNow);
    } else if st.DrainOne? {
      HandOverFrame(s, st.topic);
    }
  }

  lemma DispatchFrame(c: Config, s: State, st: DispatchStep)
    requires DispatchEnabled(c, s, st)
    ensures DispatchOnly(s, ApplyDispatch(c, s, st))
  {
    hide Tokens;
  }

  /** What a goroutine changes when it works on its batch. */
  lemma WorkChanges(c: Config, s: State, w: nat, st: WorkStep)
    requires WorkEnabled(s, w, st) && Holding(s.flight[w]) && !st.Push?
    ensures var g := s.flight[w];
            var e := s.store[g.id];
            var (e', g') := Outcome(c, e, g, st, s.retryStop);
            ApplyWork(c, s, w, st) == s.(store := s.store[g.id := e'], flight := s.flight[w := g'],
                                         quota := s.quota - Freed(e, g), fired := s.fired + Calls(g, st))
  {
    hide Outcome, Freed, Calls;
  }

  /** What it changes otherwise: it pushes its batch, or ends. */
  lemma IdleChanges(c: Config, s: State, w: nat, st: WorkStep)
    requires WorkEnabled(s, w, st) && (st.Push? || !Holding(s.flight[w]))
    ensures ApplyWork(c, s, w, st) ==
            s.(flight := s.flight[w := if st.Push? then Closing else if st.FreeToken? then Uncounting else Exited],
               heap := if st.Push? then s.heap + multiset{s.flight[w].id} else s.heap,
               taskCount := if st.Uncount? then s.taskCount - 1 else s.taskCount)
  {
    hide Outcome, Freed, Calls;
  }

  lemma WorkFrame(c: Config, s: State, w: nat, st: WorkStep)
    requires WorkEnabled(s, w, st)
    ensures WorkOnly(s, ApplyWork(c, s, w, st))
  {
    hide ApplyWork, Outcome, Freed, Calls;
    if Holding(s.flight[w]) && !st.Push? {
      WorkChanges(c, s, w, st);
    } else {
      IdleChanges(c, s, w, st);
    }
  }

  lemma WorkApplied(c: Config, s: State, w: nat, st: WorkStep)
    requires WorkEnabled(s, w, st)
    ensures Apply(c, s, OfWorker(w, st)) == ApplyWork(c, s, w, st)
  {
  }
}
