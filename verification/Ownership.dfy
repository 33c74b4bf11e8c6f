/** Every unfinished batch is in exactly one place, and its stage fits the place. */
module Ownership {
  import opened Basics
  import opened Batch
  import opened Pipeline

  // ----- How often a batch is found in each place -----

  ghost function Here(x: nat, id: nat): nat {
    if x == id then 1 else 0
  }

  ghost function InPending(p: map<Topic, nat>, id: nat): nat {
    if id in p.Values then 1 else 0
  }

  ghost function InSeq(q: seq<nat>, id: nat): nat {
    if q == [] then 0 else Here(q[0], id) + InSeq(q[1..], id)
  }

  ghost function InHand(h: Hand, id: nat): nat {
    if h.Popped? || h.Counted? then Here(h.id, id) else 0
  }

  ghost function InTimer(t: TimerPc, id: nat): nat {
    if t.Moving? || t.FinalMoving? then InSeq(t.list, id) else 0
  }

  ghost function InWork(g: Work, id: nat): nat {
    if Holding(g) then Here(g.id, id) else 0
  }

  ghost function InFlight(ws: seq<Work>, id: nat): nat {
    if ws == [] then 0 else InWork(ws[0], id) + InFlight(ws[1..], id)
  }

  /** The places outside the goroutines. */
  ghost function Resting(s: State, id: nat): nat {
    InPending(s.pending, id) + InSeq(s.queue, id) + InHand(s.hand, id) + s.heap[id] + InTimer(s.timer, id)
  }

  /** In how many places a batch is. */
  ghost function Places(s: State, id: nat): nat {
    Resting(s, id) + InFlight(s.flight, id)
  }

  /** 1 for a batch that somebody still has to deal with. */
  ghost function Live(store: seq<Entry>, id: nat): nat {
    if id < |store| && !store[id].stage.Finished? then 1 else 0
  }

  ghost predicate PendingOk(s: State) {
    forall t <- s.pending :: Known(s, s.pending[t]) && s.store[s.pending[t]].b.topic == t
  }

  ghost predicate HandedOk(s: State) {
    && (forall i | 0 <= i < |s.handed| :: Known(s, s.handed[i]) && s.handed[i] !in s.pending.Values)
    && (forall i, j | 0 <= i < j < |s.handed| :: s.handed[i] != s.handed[j])
  }

  ghost predicate WaitingAt(store: seq<Entry>, id: nat) {
    id < |store| && store[id].stage.Waiting?
  }

  /** The stage a batch is in while a goroutine is at `g`. */
  ghost predicate WorkFits(store: seq<Entry>, g: Work) {
    match g
    case Sending(id) => WaitingAt(store, id)
    case SendFailed(id, _) => id < |store| && store[id].stage.Failing?
    case FlagClear(id, _) => id < |store| && store[id].stage.Failing?
    case Pushing(id) => WaitingAt(store, id)
    case Settling(id, ok) => id < |store| && store[id].stage == Decided(ok)
    case Calling(id, ok, k) => id < |store| && store[id].stage == Released(ok, k)
    case _ => true
  }

  /** One place for every live batch, none for the others. */
  ghost predicate SinglePlace(s: State) {
    forall id: nat :: Places(s, id) == Live(s.store, id)
  }

  /** Whatever rests is waiting to be sent. */
  ghost predicate RestWaits(s: State) {
    forall id: nat :: Resting(s, id) > 0 ==> WaitingAt(s.store, id)
  }

  ghost predicate WorkOk(s: State) {
    forall w | 0 <= w < |s.flight| :: WorkFits(s.store, s.flight[w])
  }

  ghost predicate Owned(s: State) {
    SinglePlace(s) && RestWaits(s) && WorkOk(s) && PendingOk(s) && HandedOk(s)
  }

  // ----- Counting -----

  lemma {:induction false} InSeqSnoc(q: seq<nat>, x: nat, id: nat)
    ensures InSeq(q + [x], id) == InSeq(q, id) + Here(x, id)
  {
    if q == [] {
      assert [] + [x] == [x] && [x][1..] == [];
    } else {
      assert (q + [x])[1..] == q[1..] + [x];
      InSeqSnoc(q[1..], x, id);
    }
  }

  lemma {:induction false} InSeqIsCount(q: seq<nat>, id: nat)
    ensures InSeq(q, id) == multiset(q)[id]
  {
    if q != [] {
      InSeqIsCount(q[1..], id);
      assert q == [q[0]] + q[1..];
    }
  }

  lemma {:induction false} InFlightUpdate(ws: seq<Work>, w: nat, g: Work, id: nat)
    requires w < |ws|
    ensures InFlight(ws[w := g], id) + InWork(ws[w], id) == InFlight(ws, id) + InWork(g, id)
    ensures InWork(ws[w], id) <= InFlight(ws, id)
  {
    hide InWork;
    if w == 0 {
      assert ws[0 := g][1..] == ws[1..];
    } else {
      assert ws[w := g][1..] == ws[1..][w - 1 := g] && ws[w := g][0] == ws[0];
      InFlightUpdate(ws[1..], w - 1, g, id);
    }
  }

  lemma {:induction false} InFlightSnoc(ws: seq<Work>, g: Work, id: nat)
    ensures InFlight(ws + [g], id) == InFlight(ws, id) + InWork(g, id)
  {
    hide InWork;
    if ws == [] {
      assert [] + [g] == [g] && [g][1..] == [];
    } else {
      assert (ws + [g])[1..] == ws[1..] + [g];
      InFlightSnoc(ws[1..], g, id);
    }
  }

  /** The batch a goroutine holds is nowhere else. */
  lemma SoleOwner(s: State, w: nat)
    requires SinglePlace(s) && w < |s.flight| && Holding(s.flight[w])
    ensures var id := s.flight[w].id;
            && Known(s, id) && Live(s.store, id) == 1 && Resting(s, id) == 0
            && forall v | 0 <= v < |s.flight| && v != w && Holding(s.flight[v]) :: s.flight[v].id != id
  {
    hide Resting;
    var id := s.flight[w].id;
    assert Places(s, id) == Live(s.store, id);
    var rest := s.flight[w := Exited];
    InFlightUpdate(s.flight, w, Exited, id);
    forall v | 0 <= v < |s.flight| && v != w && Holding(s.flight[v])
      ensures s.flight[v].id != id
    {
      assert rest[v] == s.flight[v];
      InFlightUpdate(rest, v, Exited, id);
    }
  }

  // ----- Pending map -----

  lemma PendingRemoved(s: State, t: Topic, id: nat)
    requires PendingOk(s) && t in s.pending
    ensures InPending(s.pending, id) == InPending(s.pending - {t}, id) + Here(s.pending[t], id)
  {
    var p, q := s.pending, s.pending - {t};
    if id in p.Values && id != p[t] {
      var u :| u in p && p[u] == id;
      assert u in q && q[u] == id;
    }
    if id in q.Values {
      var u :| u in q && q[u] == id;
      assert u in p && p[u] == id;
    }
  }

  lemma PendingAdded(p: map<Topic, nat>, t: Topic, x: nat, id: nat)
    requires t !in p && x !in p.Values
    ensures InPending(p[t := x], id) == InPending(p, id) + Here(x, id)
  {
    var q := p[t := x];
    assert t in q && q[t] == x;
    if id in p.Values {
      var u :| u in p && p[u] == id;
      assert u in q && q[u] == id;
    }
    if id in q.Values {
      var u :| u in q && q[u] == id;
      assert u == t || (u in p && p[u] == id);
    }
  }

  lemma PendingKnown(s: State, t: Topic)
    requires Owned(s) && t in s.pending
    ensures Known(s, s.pending[t]) && s.store[s.pending[t]].b.topic == t
    ensures s.store[s.pending[t]].stage.Waiting?
  {
    var id := s.pending[t];
    assert id in s.pending.Values;
    assert Resting(s, id) > 0;
  }

  // ----- Moves outside the goroutines -----

  lemma HandOverOwned(s: State, t: Topic)
    requires Owned(s) && t in s.pending
    ensures Owned(HandOver(s, t))
  {
    var s' := HandOver(s, t);
    var id := s.pending[t];
    forall x: nat
      ensures Resting(s', x) == Resting(s, x) && Places(s', x) == Places(s, x)
    {
      PendingRemoved(s, t, x);
      InSeqSnoc(s.queue, id, x);
    }
    HandOverHanded(s, t);
    hide Resting, Places, HandedOk;
  }

  lemma HandOverHanded(s: State, t: Topic)
    requires PendingOk(s) && HandedOk(s) && t in s.pending
    ensures HandedOk(HandOver(s, t))
  {
    var s' := HandOver(s, t);
    var id := s.pending[t];
    assert id in s.pending.Values;
    forall x | x in s'.pending.Values
      ensures x in s.pending.Values && x != id
    {
      var u :| u in s'.pending && s'.pending[u] == x;
      assert u in s.pending && s.pending[u] == x;
    }
  }

  /** Changing a batch without touching its stage or topic. */
  lemma PutOwned(s: State, id: nat, e: Entry)
    requires Owned(s) && Known(s, id) && e.stage == s.store[id].stage && e.b.topic == s.store[id].b.topic
    ensures Owned(Put(s, id, e))
  {
    var s' := Put(s, id, e);
    forall x: nat
      ensures Resting(s', x) == Resting(s, x) && Places(s', x) == Places(s, x) && Live(s'.store, x) == Live(s.store, x)
      ensures WaitingAt(s'.store, x) == WaitingAt(s.store, x)
    {
    }
    hide Resting, Places, Live;
    assert WorkOk(s') by {
      forall w | 0 <= w < |s'.flight| ensures WorkFits(s'.store, s'.flight[w]) {
        assert WorkFits(s.store, s.flight[w]);
      }
    }
  }

  lemma NewPendingOwned(c: Config, s: State, call: Call, now: int, pkg: bytes)
    requires Owned(s) && call.topic !in s.pending
    ensures Owned(NewPending(c, s, call, now, pkg))
  {
    var s' := NewPending(c, s, call, now, pkg);
    var id := |s.store|;
    assert id !in s.pending.Values by {
      assert Places(s, id) == Live(s.store, id);
    }
    forall x: nat
      ensures Resting(s', x) == Resting(s, x) + Here(id, x) && Places(s', x) == Places(s, x) + Here(id, x)
      ensures Live(s'.store, x) == Live(s.store, x) + Here(id, x)
      ensures WaitingAt(s.store, x) || x == id ==> WaitingAt(s'.store, x)
    {
      PendingAdded(s.pending, call.topic, id, x);
    }
    hide Resting, Places, Live;
    assert WorkOk(s') by {
      forall w | 0 <= w < |s'.flight| ensures WorkFits(s'.store, s'.flight[w]) {
        assert WorkFits(s.store, s.flight[w]);
      }
    }
    NewPendingHanded(c, s, call, now, pkg);
  }

  lemma NewPendingHanded(c: Config, s: State, call: Call, now: int, pkg: bytes)
    requires HandedOk(s) && call.topic !in s.pending
    ensures HandedOk(NewPending(c, s, call, now, pkg))
  {
    var s' := NewPending(c, s, call, now, pkg);
    forall x | x in s'.pending.Values
      ensures x in s.pending.Values || x == |s.store|
    {
      var u :| u in s'.pending && s'.pending[u] == x;
      assert u == call.topic || (u in s.pending && s.pending[u] == x);
    }
  }

  lemma PlaceOwned(c: Config, s: State, call: Call, now: int, pkg: bytes)
    requires Owned(s)
    ensures call.topic in s.pending ==> Known(s, s.pending[call.topic])
    ensures Owned(Place(c, s, call, now, pkg))
  {
    hide Owned, NewEntry;
    var t := call.topic;
    if t !in s.pending {
      NewPendingOwned(c, s, call, now, pkg);
    } else {
      PendingKnown(s, t);
      var id := s.pending[t];
      var e := s.store[id];
      var size := ListBytes(call.logs);
      match BranchOf(c, e.b.totalDataSize + size, |e.b.logs| + 1)
      case AppendAndFlush =>
        PutOwned(s, id, GrownEntry(e, call));
        HandOverOwned(Put(s, id, GrownEntry(e, call)), t);
      case AppendOnly =>
        PutOwned(s, id, GrownEntry(e, call));
      case FlushAndNew =>
        var s1 := Put(s, id, e.(b := Charged(e.b, size)));
        PutOwned(s, id, e.(b := Charged(e.b, size)));
        HandOverOwned(s1, t);
        NewPendingOwned(c, HandOver(s1, t), call, now, pkg);
    }
  }

  /** A step that only moves batches between resting places. */
  lemma RestMoves(s: State, s': State)
    requires Owned(s)
    requires s'.store == s.store && s'.pending == s.pending && s'.flight == s.flight && s'.handed == s.handed
    requires forall x: nat :: Resting(s', x) == Resting(s, x)
    ensures Owned(s')
  {
    hide Resting;
    assert forall x: nat :: Places(s', x) == Places(s, x);
    hide Places;
  }

  lemma OwnedFrame(s: State, s': State)
    requires Owned(s)
    requires s'.store == s.store && s'.pending == s.pending && s'.queue == s.queue && s'.hand == s.hand
    requires s'.flight == s.flight && s'.heap == s.heap && s'.handed == s.handed
    requires s'.timer == s.timer ||
             (forall t :: t == s.timer || t == s'.timer ==> !t.Moving? && !t.FinalMoving?)
    ensures Owned(s')
  {
    forall x: nat
      ensures Resting(s', x) == Resting(s, x)
    {
      assert InTimer(s'.timer, x) == InTimer(s.timer, x);
    }
    hide Owned;
    RestMoves(s, s');
  }

  lemma SenderOwned(c: Config, s: State, st: SenderStep)
    requires Owned(s) && SenderEnabled(s, st)
    ensures Owned(ApplySender(c, s, st))
  {
    hide Owned, Place;
    if st.Append? {
      PlaceOwned(c, s, s.lock.call, st.now, st.pkg);
      OwnedFrame(Place(c, s, s.lock.call, st.now, st.pkg), ApplySender(c, s, st));
    } else {
      OwnedFrame(s, ApplySender(c, s, st));
    }
  }

  lemma TimerOwned(c: Config, s: State, st: TimerStep)
    requires Owned(s) && TimerEnabled(s, st)
    ensures Owned(ApplyTimer(c, s, st))
  {
    hide MayTake, Owned;
    var s' := ApplyTimer(c, s, st);
    match st
    case LingerVisit(t, _) =>
      HandOverOwned(s, t);
      if s'.pending == s.pending {
        OwnedFrame(s, s');
      } else {
        OwnedFrame(HandOver(s, t), s');
      }
    case DrainOne(t) =>
      HandOverOwned(s, t);
    case TakeRetries(ids, clock, all) =>
      TakeOwned(s, Moving(ids), ids, clock, all);
    case FinalTakeAll(ids) =>
      TakeOwned(s, FinalMoving(ids), ids, [], true);
    case MoveOne =>
      MoveOwned(c, s);
    case _ =>
      OwnedFrame(s, s');
  }

  lemma TakeOwned(s: State, t: TimerPc, ids: seq<nat>, clock: seq<int>, all: bool)
    requires Owned(s) && MayTake(s, ids, clock, all) && (s.timer.Retrying? || s.timer.FinalTake?)
    requires t == Moving(ids) || t == FinalMoving(ids)
    ensures Owned(s.(timer := t, heap := s.heap - multiset(ids)))
  {
    var s' := s.(timer := t, heap := s.heap - multiset(ids));
    forall x: nat
      ensures Resting(s', x) == Resting(s, x)
    {
      InSeqIsCount(ids, x);
      assert multiset(ids)[x] <= s.heap[x];
    }
    hide Owned;
    RestMoves(s, s');
  }

  lemma MoveOwned(c: Config, s: State)
    requires Owned(s) && (s.timer.Moving? || s.timer.FinalMoving?)
    ensures Owned(ApplyTimer(c, s, MoveOne))
  {
    hide Owned, Resting, InSeq;
    var s' := ApplyTimer(c, s, MoveOne);
    forall x: nat
      ensures Resting(s', x) == Resting(s, x)
    {
      FrontMoves(s.queue, s.timer.list, x);
      TimerKeeps(s, s', x);
    }
    RestMoves(s, s');
  }

  lemma TimerKeeps(s: State, s': State, x: nat)
    requires s'.pending == s.pending && s'.hand == s.hand && s'.heap == s.heap
    requires InSeq(s'.queue, x) + InTimer(s'.timer, x) == InSeq(s.queue, x) + InTimer(s.timer, x)
    ensures Resting(s', x) == Resting(s, x)
  {
  }

  /** The front of one list joins the back of another. */
  lemma FrontMoves(q: seq<nat>, list: seq<nat>, x: nat)
    ensures InSeq([], x) == 0
    ensures list != [] ==> InSeq(q + [list[0]], x) + InSeq(list[1..], x) == InSeq(q, x) + InSeq(list, x)
  {
    if list != [] {
      InSeqSnoc(q, list[0], x);
    }
  }

  lemma DispatchOwned(c: Config, s: State, st: DispatchStep)
    requires Owned(s) && DispatchEnabled(c, s, st)
    ensures Owned(ApplyDispatch(c, s, st))
  {
    hide Owned, Resting;
    match st
    case Pop => PopOwned(c, s);
    case Spawn => SpawnOwned(s);
    case _ =>
      var s' := ApplyDispatch(c, s, st);
      forall x: nat ensures Resting(s', x) == Resting(s, x) { HandKeeps(s, s', x); }
      RestMoves(s, s');
  }

  lemma HandKeeps(s: State, s': State, x: nat)
    requires s'.pending == s.pending && s'.queue == s.queue && s'.heap == s.heap && s'.timer == s.timer
    requires InHand(s'.hand, x) == InHand(s.hand, x)
    ensures Resting(s', x) == Resting(s, x)
  {
  }

  lemma PopOwned(c: Config, s: State)
    requires Owned(s) && s.hand.NoTask?
    ensures Owned(ApplyDispatch(c, s, Pop))
  {
    hide Owned, InPending, InTimer;
    var s' := ApplyDispatch(c, s, Pop);
    forall x: nat ensures Resting(s', x) == Resting(s, x) {}
    RestMoves(s, s');
  }

  lemma SpawnOwned(s: State)
    requires Owned(s) && s.hand.Counted?
    ensures Owned(s.(hand := NoTask, flight := s.flight + [Sending(s.hand.id)]))
  {
    var id := s.hand.id;
    var s' := s.(hand := NoTask, flight := s.flight + [Sending(id)]);
    forall x: nat
      ensures Resting(s', x) + Here(id, x) == Resting(s, x) && Places(s', x) == Places(s, x)
    {
      InFlightSnoc(s.flight, Sending(id), x);
    }
    assert Resting(s, id) > 0;
    hide Resting, Places;
    assert WorkOk(s') by {
      forall w | 0 <= w < |s'.flight| ensures WorkFits(s'.store, s'.flight[w]) {
        if w < |s.flight| {
          assert WorkFits(s.store, s.flight[w]);
        }
      }
    }
  }

  lemma CloseOwned(s: State, st: CloseStep)
    requires Owned(s) && CloseEnabled(s, st)
    ensures Owned(ApplyClose(s, st))
  {
    hide Owned;
    OwnedFrame(s, ApplyClose(s, st));
  }

  // ----- Goroutines -----

  /** A goroutine changes the batch it holds, and goes on with it or lets it go for good. */
  lemma WorkPutOwned(s: State, w: nat, e: Entry, g: Work)
    requires Owned(s) && w < |s.flight| && Holding(s.flight[w]) && Known(s, s.flight[w].id)
    requires e.b.topic == s.store[s.flight[w].id].b.topic
    requires Holding(g) ==> g.id == s.flight[w].id
    requires Holding(g) <==> !e.stage.Finished?
    requires WorkFits(s.store[s.flight[w].id := e], g)
    ensures Owned(Goes(Put(s, s.flight[w].id, e), w, g))
  {
    var id := s.flight[w].id;
    var s' := Goes(Put(s, id, e), w, g);
    SoleOwner(s, w);
    forall x: nat
      ensures Resting(s', x) == Resting(s, x)
      ensures Places(s', x) == Live(s'.store, x)
    {
      assert Places(s, x) == Live(s.store, x);
      InFlightUpdate(s.flight, w, g, x);
    }
    hide Resting, Places, Live;
    assert WorkOk(s') by {
      forall v | 0 <= v < |s'.flight|
        ensures WorkFits(s'.store, s'.flight[v])
      {
        if v != w {
          assert WorkFits(s.store, s.flight[v]);
        }
      }
    }
    assert RestWaits(s') by {
      forall x: nat | Resting(s', x) > 0
        ensures WaitingAt(s'.store, x)
      {
        assert x != id && WaitingAt(s.store, x);
      }
    }
  }

  lemma PushOwned(s: State, w: nat)
    requires Owned(s) && w < |s.flight| && s.flight[w].Pushing?
    ensures Owned(Goes(s.(heap := s.heap + multiset{s.flight[w].id}), w, Closing))
  {
    var id := s.flight[w].id;
    var s' := Goes(s.(heap := s.heap + multiset{id}), w, Closing);
    assert WorkFits(s.store, s.flight[w]);
    forall x: nat
      ensures Resting(s', x) == Resting(s, x) + Here(id, x) && Places(s', x) == Places(s, x)
    {
      InFlightUpdate(s.flight, w, Closing, x);
    }
    hide Resting, Places;
  }

  /** A goroutine that holds nothing. */
  lemma IdleOwned(s: State, w: nat, g: Work)
    requires Owned(s) && w < |s.flight| && !Holding(s.flight[w]) && !Holding(g)
    ensures Owned(Goes(s, w, g))
  {
    var s' := Goes(s, w, g);
    forall x: nat
      ensures Resting(s', x) == Resting(s, x) && Places(s', x) == Places(s, x)
    {
      InFlightUpdate(s.flight, w, g, x);
    }
    hide Resting, Places;
  }

  lemma WorkOwned(c: Config, s: State, w: nat, st: WorkStep)
    requires Owned(s) && WorkEnabled(s, w, st)
    ensures Owned(ApplyWork(c, s, w, st))
  {
    hide Owned;
    match st
    case Push => PushOwned(s, w);
    case FreeToken => IdleOwned(s, w, Uncounting);
    case Uncount =>
      IdleOwned(s, w, Exited);
      OwnedFrame(Goes(s, w, Exited), ApplyWork(c, s, w, st));
    case _ =>
      HoldOwned(c, s, w, st);
  }

  lemma FitsNow(s: State, w: nat)
    requires Owned(s) && w < |s.flight|
    ensures WorkFits(s.store, s.flight[w])
  {
  }

  /** The stage of the batch goes along with the goroutine. */
  lemma OutcomeFits(c: Config, e: Entry, g: Work, st: WorkStep, stop: bool, store: seq<Entry>)
    requires Follows(g, st) && Holding(g) && !st.Push? && WorkFits(store, g) && e == store[g.id]
    ensures var (e', g') := Outcome(c, e, g, st, stop);
            && e'.b.topic == e.b.topic
            && (Holding(g') ==> g'.id == g.id) && (Holding(g') <==> !e'.stage.Finished?)
            && WorkFits(store[g.id := e'], g')
  {
    hide RetryDelay;
  }

  lemma HoldOwned(c: Config, s: State, w: nat, st: WorkStep)
    requires Owned(s) && WorkEnabled(s, w, st) && Holding(s.flight[w]) && !st.Push?
    ensures Owned(ApplyWork(c, s, w, st))
  {
    FitsNow(s, w);
    var g := s.flight[w];
    OutcomeFits(c, s.store[g.id], g, st, s.retryStop, s.store);
    hide Owned, Outcome;
    var (e', g') := Outcome(c, s.store[g.id], g, st, s.retryStop);
    WorkPutOwned(s, w, e', g');
    OwnedFrame(Goes(Put(s, g.id, e'), w, g'), ApplyWork(c, s, w, st));
  }

  lemma StepOwned(c: Config, s: State, st: Step)
    requires Owned(s) && Enabled(c, s, st)
    ensures Owned(Apply(c, s, st))
  {
    hide Owned;
    match st
    case OfSender(x) => SenderOwned(c, s, x);
    case OfTimer(x) => TimerOwned(c, s, x);
    case OfDispatcher(x) => DispatchOwned(c, s, x);
    case OfWorker(w, x) => WorkOwned(c, s, w, x);
    case OfClose(x) => CloseOwned(s, x);
  }

  lemma StartOwned()
    ensures Owned(Start)
  {
  }
}
