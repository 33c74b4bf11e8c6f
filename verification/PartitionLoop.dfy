/**
  * The consumption loop of one partition as functions of what it meets: how its registers change and which
  * events it makes of the offset tracker. Another goroutine may shut the worker down at any moment of a round.
  */
module PartitionLoop {
  import opened Basics
  import opened Offsets

  /** What PullLogs returns. */
  datatype Pull =
    | Pulled(next: int, groups: nat)
    | NoResponse
    | InvalidOffset
    | PullFailed

  /** A call of SaveOffset by the user's processor. */
  datatype UserSave = UserSave(persistent: bool, explicit: Option<int>, ok: bool)

  /**
    * A shutdown from outside: at moment 0 before the fetch, 1 to 3 before that try, 4 before the processing, 5
    * before the periodic check. Its flush and the processor's last saves meet the rest.
    */
  datatype Stop = Stop(at: nat, ok: bool, saves: seq<UserSave>)

  /** What one round of the loop meets: clock readings, the server's answers, the user's saves, a shutdown. */
  datatype Round = Round(
    nowMs: int,
    nowSec: int,
    pulls: nat -> Pull,
    endOffset: Option<int>,
    idleOk: bool,
    saves: seq<UserSave>,
    checkSec: int,
    checkOk: bool,
    stop: Option<Stop>)

  /** The registers of the worker, and the time of the tracker's last check. */
  datatype Loop = Loop(
    nextFetchOffset: int,
    shutdown: bool,
    closed: bool,
    reachEnd: bool,
    lastFetchTime: int,
    lastFetchCount: nat,
    lastEmptyFlushTime: int,
    lastCheckTime: int)

  // ----- The parts of a round -----

  function SaveEvents(saves: seq<UserSave>): seq<Event> {
    if saves == [] then []
    else
      var s := saves[|saves| - 1];
      SaveEvents(saves[..|saves| - 1]) +
      [if s.explicit.Some? then SaveAt(s.explicit.value) else Save] +
      (if s.persistent then [Flush(false, s.ok)] else [])
  }

  /** close: the forced flush and the processor's shutdown happen once. */
  function CloseOf(l: Loop, ok: bool, saves: seq<UserSave>): (Loop, seq<Event>) {
    (l.(shutdown := true, closed := true), if l.closed then [] else [Flush(true, ok)] + SaveEvents(saves))
  }

  predicate StopsAt(r: Round, at: nat) {
    r.stop.Some? && r.stop.value.at == at
  }

  function OutsideOf(l: Loop, r: Round, at: nat): (Loop, seq<Event>) {
    if StopsAt(r, at) then CloseOf(l, r.stop.value.ok, r.stop.value.saves) else (l, [])
  }

  /** A try failed in a way that leads to another one. */
  predicate Retried(p: Pull) {
    p.InvalidOffset? || p.PullFailed?
  }

  /** The tries from number `i` on, three in all: an invalid offset at the first starts the next from the end. */
  function TryOf(l: Loop, r: Round, i: nat): (Loop, Pull, seq<Event>)
    decreases 3 - i
  {
    if i >= 3 then (l, PullFailed, [])
    else
      var (l1, es) := OutsideOf(l, r, i + 1);
      if l1.shutdown then (l1, PullFailed, es)
      else if !Retried(r.pulls(i)) then (l1, r.pulls(i), es)
      else
        var jumps := i == 0 && r.pulls(0).InvalidOffset? && r.endOffset.Some?;
        var (l2, p, more) := TryOf(if jumps then l1.(nextFetchOffset := r.endOffset.value) else l1, r, i + 1);
        (l2, p, es + more)
  }

  /** The fetch waits until some time has passed, the less the more came last time. */
  function MinInterval(lastCount: nat): nat {
    if lastCount < 100 then 500 else if lastCount < 500 then 200 else if lastCount < 1000 then 50 else 0
  }

  /** Without data the offset is flushed when 30 seconds passed since the last such flush, or the start of it. */
  function IdleOf(l: Loop, r: Round, groups: nat): (Loop, seq<Event>) {
    if groups > 0 then (l.(lastEmptyFlushTime := 0), [])
    else if l.lastEmptyFlushTime == 0 then (l.(lastEmptyFlushTime := r.nowSec), [])
    else if r.nowSec - l.lastEmptyFlushTime >= 30 then (l.(lastEmptyFlushTime := r.nowSec), [Flush(false, r.idleOk)])
    else (l, [])
  }

  /** A positive next offset is the new position; another one means that the end is reached. */
  function Moved(l: Loop, next: int): Loop {
    if next > 0 then l.(nextFetchOffset := next, reachEnd := false) else l.(reachEnd := true)
  }

  /** fetchData: the registers, how many log groups came, and the events. */
  function FetchOf(l: Loop, inverted: bool, r: Round): (Loop, nat, seq<Event>) {
    var interval := MinInterval(l.lastFetchCount);
    if l.shutdown || (interval > 0 && r.nowMs - l.lastFetchTime < interval) then (l, 0, [])
    else if inverted then (l.(lastFetchTime := r.nowMs), 0, [])
    else
      var (l1, p, es) := TryOf(l.(lastFetchTime := r.nowMs), r, 0);
      if !p.Pulled? then (l1, 0, es)
      else
        var (l2, idle) := IdleOf(Moved(l1, p.next), r, p.groups);
        (l2.(lastFetchCount := p.groups), p.groups, es + ([Fetched(p.next)] + idle))
  }

  function CheckOf(l: Loop, r: Round): (Loop, seq<Event>) {
    if r.checkSec > l.lastCheckTime + 60 then (l.(lastCheckTime := r.checkSec), [Flush(false, r.checkOk)]) else (l, [])
  }

  /** processData: the processor's turn, and what it saves. */
  function ProcessOf(l: Loop, r: Round, groups: nat): seq<Event> {
    if groups > 0 && !l.shutdown then [Processed(groups)] + SaveEvents(r.saves) else []
  }

  /** One round: fetch, process, periodic check. */
  function RoundOf(l: Loop, inverted: bool, r: Round): (Loop, seq<Event>) {
    var (l0, e0) := OutsideOf(l, r, 0);
    var (l1, groups, e1) := FetchOf(l0, inverted, r);
    var (l2, e2) := OutsideOf(l1, r, 4);
    var e3 := ProcessOf(l2, r, groups);
    var (l4, e4) := OutsideOf(l2, r, 5);
    var (l5, e5) := CheckOf(l4, r);
    (l5, e0 + e1 + e2 + e3 + e4 + e5)
  }

  /** The rounds until the worker is shut down or the context cancelled after the last of them. */
  function LoopOf(l: Loop, inverted: bool, rounds: seq<Round>): (Loop, seq<Event>) {
    if rounds == [] then (l, [])
    else
      var n := |rounds| - 1;
      var (l1, es) := LoopOf(l, inverted, rounds[..n]);
      if l1.shutdown then (l1, es)
      else
        var (l2, more) := RoundOf(l1, inverted, rounds[n]);
        (l2, es + more)
  }

  /** The loop and the close at its end. */
  function ConsumeOf(l: Loop, inverted: bool, rounds: seq<Round>, ok: bool, saves: seq<UserSave>): (Loop, seq<Event>) {
    var (l1, es) := LoopOf(l, inverted, rounds);
    var (l2, more) := CloseOf(l1, ok, saves);
    (l2, es + more)
  }

  /** What initialize makes of the tracker. */
  function InitEvents(stored: Option<int>): seq<Event> {
    if stored.Some? && stored.value >= 0 then [SetMemory(stored.value), SetPersistent(stored.value)] else []
  }

  // ----- When a round fetches, and what -----

  predicate Answered(p: Pull) {
    p.Pulled? || p.NoResponse?
  }

  /** The answer the fetch works with: the first of three tries that is not an error. */
  function Answer(pulls: nat -> Pull): Pull {
    if FirstGood(pulls) < 3 then pulls(FirstGood(pulls)) else PullFailed
  }

  function FirstGood(pulls: nat -> Pull): (n: nat)
    ensures n <= 3
  {
    if Answered(pulls(0)) then 0 else if Answered(pulls(1)) then 1 else if Answered(pulls(2)) then 2 else 3
  }

  /** Half a second has passed since the last fetch, or a fifth after 100 groups, or a twentieth after 500. */
  predicate Waited(l: Loop, r: Round) {
    var passed := r.nowMs - l.lastFetchTime;
    || l.lastFetchCount >= 1000 || passed >= 500
    || (l.lastFetchCount >= 100 && passed >= 200) || (l.lastFetchCount >= 500 && passed >= 50)
  }

  /** The fetch gets to its first try: the worker runs, enough time has passed, the time range is not inverted. */
  predicate Tries(l: Loop, inverted: bool, r: Round) {
    !l.shutdown && !inverted && Waited(l, r)
  }

  /** A shutdown comes before one of the tries that would be made. */
  predicate Cut(l: Loop, inverted: bool, r: Round) {
    Tries(l, inverted, r) && r.stop.Some? && 1 <= r.stop.value.at <= 3 && r.stop.value.at <= FirstGood(r.pulls) + 1
  }

  /** The fetch gets an answer. */
  predicate Comes(l: Loop, inverted: bool, r: Round) {
    Tries(l, inverted, r) && !Cut(l, inverted, r) && Answer(r.pulls).Pulled?
  }

  /** The first try is told that the offset is invalid, and the end offset is known. */
  predicate Jumps(r: Round) {
    !StopsAt(r, 1) && r.pulls(0).InvalidOffset? && r.endOffset.Some?
  }

  lemma {:induction false} TryExactly(l: Loop, r: Round, i: nat)
    requires !l.shutdown && i <= FirstGood(r.pulls) && forall k | 0 <= k < i :: Retried(r.pulls(k))
    ensures var (l', p, es) := TryOf(l, r, i);
            var stopped := r.stop.Some? && i < r.stop.value.at <= FirstGood(r.pulls) + 1 && r.stop.value.at <= 3;
            && p == (if stopped then PullFailed else Answer(r.pulls))
            && es == (if stopped && !l.closed then [Flush(true, r.stop.value.ok)] + SaveEvents(r.stop.value.saves) else [])
            && l' == l.(nextFetchOffset := if i == 0 && Jumps(r) then r.endOffset.value else l.nextFetchOffset,
                        shutdown := stopped, closed := l.closed || stopped)
    decreases 3 - i
  {
    if i < 3 && Retried(r.pulls(i)) && !StopsAt(r, i + 1) {
      var jumps := i == 0 && r.pulls(0).InvalidOffset? && r.endOffset.Some?;
      TryExactly(if jumps then l.(nextFetchOffset := r.endOffset.value) else l, r, i + 1);
    }
  }

  /** Nothing came, for the 30th second since a flush or the first time. */
  predicate Idle(l: Loop, inverted: bool, r: Round) {
    && Comes(l, inverted, r) && Answer(r.pulls).groups == 0
    && l.lastEmptyFlushTime != 0 && r.nowSec - l.lastEmptyFlushTime >= 30
  }

  /**
    * Exactly when data comes, and then what changes: the position, the idle timer, and whether an idle
    * partition's offset is flushed. Otherwise nothing is learned, and nothing flushed but by a shutdown; an
    * invalid offset alone moves the position, to the end.
    */
  lemma FetchExactly(l: Loop, inverted: bool, r: Round)
    ensures var (l', groups, es) := FetchOf(l, inverted, r);
            var p := Answer(r.pulls);
            var comes, cut, idle := Comes(l, inverted, r), Cut(l, inverted, r), Idle(l, inverted, r);
            && groups == (if comes then p.groups else 0)
            && es == (if comes then [Fetched(p.next)] + (if idle then [Flush(false, r.idleOk)] else [])
                      else if cut && !l.closed then [Flush(true, r.stop.value.ok)] + SaveEvents(r.stop.value.saves)
                      else [])
            && l'.nextFetchOffset ==
               (if comes && p.next > 0 then p.next
                else if Tries(l, inverted, r) && Jumps(r) then r.endOffset.value else l.nextFetchOffset)
            && l'.shutdown == (l.shutdown || cut) && l'.closed == (l.closed || cut)
            && l'.reachEnd == (if comes then p.next <= 0 else l.reachEnd)
            && l'.lastFetchTime == (if !l.shutdown && Waited(l, r) then r.nowMs else l.lastFetchTime)
            && l'.lastFetchCount == (if comes then p.groups else l.lastFetchCount)
            && l'.lastEmptyFlushTime ==
               (if !comes then l.lastEmptyFlushTime else if p.groups > 0 then 0
                else if idle || l.lastEmptyFlushTime == 0 then r.nowSec else l.lastEmptyFlushTime)
            && l'.lastCheckTime == l.lastCheckTime
  {
    hide TryOf, SaveEvents;
    if Tries(l, inverted, r) {
      TryExactly(l.(lastFetchTime := r.nowMs), r, 0);
    }
  }

  // ----- What a round does, and in which order -----

  /** The round gets an answer from the server. */
  predicate Fetches(l: Loop, inverted: bool, r: Round) {
    !StopsAt(r, 0) && Comes(l, inverted, r)
  }

  /** The processor gets its logs. */
  predicate Processes(l: Loop, inverted: bool, r: Round) {
    Fetches(l, inverted, r) && Answer(r.pulls).groups > 0 && !StopsAt(r, 4)
  }

  /** The round's shutdown finds its moment. */
  predicate Stops(l: Loop, inverted: bool, r: Round) {
    StopsAt(r, 0) || Cut(l, inverted, r) || StopsAt(r, 4) || StopsAt(r, 5)
  }

  /**
    * The events of any round, in order. The processor has its turn exactly if the fetch comes with data and no
    * shutdown precedes it; then it saves what it saves, after the offset is known and before the periodic check.
    * A shutdown, once, is a forced flush and the processor's last saves.
    */
  lemma RoundExactly(l: Loop, inverted: bool, r: Round)
    ensures var (l', es) := RoundOf(l, inverted, r);
            var p := Answer(r.pulls);
            var ended := if r.stop.Some? && !l.closed then
                           [Flush(true, r.stop.value.ok)] + SaveEvents(r.stop.value.saves) else [];
            && es ==
               (if StopsAt(r, 0) then ended else []) +
               (if Fetches(l, inverted, r) then
                  [Fetched(p.next)] + (if Idle(l, inverted, r) then [Flush(false, r.idleOk)] else [])
                else if Cut(l, inverted, r) then ended else []) +
               (if StopsAt(r, 4) then ended else []) +
               (if Processes(l, inverted, r) then [Processed(p.groups)] + SaveEvents(r.saves) else []) +
               (if StopsAt(r, 5) then ended else []) +
               (if r.checkSec > l.lastCheckTime + 60 then [Flush(false, r.checkOk)] else [])
            && l'.shutdown == (l.shutdown || Stops(l, inverted, r))
            && l'.closed == (l.closed || Stops(l, inverted, r))
            && l'.lastCheckTime == if r.checkSec > l.lastCheckTime + 60 then r.checkSec else l.lastCheckTime
  {
    hide FetchOf, SaveEvents, Answer, FirstGood, Waited;
    FetchExactly(OutsideOf(l, r, 0).0, inverted, r);
  }

  /** The turns of the processor among the events, with the number of groups. */
  function Turns(es: seq<Event>): seq<nat> {
    if es == [] then []
    else
      var e := es[|es| - 1];
      Turns(es[..|es| - 1]) + (if e.Processed? then [e.groups] else [])
  }

  lemma {:induction false} TurnsAppend(a: seq<Event>, b: seq<Event>)
    ensures Turns(a + b) == Turns(a) + Turns(b)
  {
    if b == [] {
      assert a + b == a;
    } else {
      var n := |b| - 1;
      assert (a + b)[..|a| + n] == a + b[..n] && (a + b)[|a| + n] == b[n];
      TurnsAppend(a, b[..n]);
    }
  }

  lemma {:induction false} NoTurns(es: seq<Event>)
    requires forall e <- es :: !e.Processed?
    ensures Turns(es) == []
  {
    if es != [] {
      NoTurns(es[..|es| - 1]);
    }
  }

  /** A save of the user is one event, with an unforced flush if it is to be persistent. */
  lemma SaveIs(s: UserSave)
    ensures SaveEvents([s]) == [if s.explicit.Some? then SaveAt(s.explicit.value) else Save] +
                               (if s.persistent then [Flush(false, s.ok)] else [])
  {
    assert [s][..0] == [];
  }

  /** Several are so in their order. */
  lemma {:induction false} SavesAppend(a: seq<UserSave>, b: seq<UserSave>)
    ensures SaveEvents(a + b) == SaveEvents(a) + SaveEvents(b)
  {
    if b == [] {
      assert a + b == a;
    } else {
      var n := |b| - 1;
      assert (a + b)[..|a| + n] == a + b[..n] && (a + b)[|a| + n] == b[n];
      SavesAppend(a, b[..n]);
    }
  }

  /** No turn of the processor. */
  predicate Turnless(es: seq<Event>) {
    forall e <- es :: !e.Processed?
  }

  lemma {:induction false} SavesTurnless(saves: seq<UserSave>)
    ensures Turnless(SaveEvents(saves))
  {
    if saves != [] {
      SavesTurnless(saves[..|saves| - 1]);
    }
  }

  lemma TurnBetween(before: seq<Event>, groups: nat, saves: seq<UserSave>, after: seq<Event>)
    requires Turnless(before) && Turnless(after)
    ensures Turns(before + ([Processed(groups)] + SaveEvents(saves)) + after) == [groups]
  {
    hide SaveEvents;
    var turn := [Processed(groups)] + SaveEvents(saves);
    TurnsAppend(before + turn, after);
    TurnsAppend(before, turn);
    TurnsAppend([Processed(groups)], SaveEvents(saves));
    SavesTurnless(saves);
    NoTurns(before);
    NoTurns(after);
    NoTurns(SaveEvents(saves));
    assert [Processed(groups)][..0] == [];
  }

  /** The processor's turn in a round, if it has one. */
  lemma RoundTurns(l: Loop, inverted: bool, r: Round)
    ensures Turns(RoundOf(l, inverted, r).1) == if Processes(l, inverted, r) then [Answer(r.pulls).groups] else []
  {
    hide RoundOf, SaveEvents, Turns, Tries, Cut, Answer, Idle;
    RoundExactly(l, inverted, r);
    var p := Answer(r.pulls);
    var ended := if r.stop.Some? && !l.closed then [Flush(true, r.stop.value.ok)] + SaveEvents(r.stop.value.saves) else [];
    if r.stop.Some? {
      SavesTurnless(r.stop.value.saves);
    }
    assert Turnless(ended);
    var before := (if StopsAt(r, 0) then ended else []) +
                  (if Fetches(l, inverted, r) then
                     [Fetched(p.next)] + (if Idle(l, inverted, r) then [Flush(false, r.idleOk)] else [])
                   else if Cut(l, inverted, r) then ended else []) +
                  (if StopsAt(r, 4) then ended else []);
    var five := if StopsAt(r, 5) then ended else [];
    var check := if r.checkSec > l.lastCheckTime + 60 then [Flush(false, r.checkOk)] else [];
    assert Turnless(before) && Turnless(five + check);
    if Processes(l, inverted, r) {
      var turn := [Processed(p.groups)] + SaveEvents(r.saves);
      assert RoundOf(l, inverted, r).1 == before + turn + (five + check);
      TurnBetween(before, p.groups, r.saves, five + check);
    } else {
      assert RoundOf(l, inverted, r).1 == before + (five + check);
      NoTurns(before + (five + check));
    }
  }

  function Joined(parts: seq<seq<Event>>): seq<Event> {
    if parts == [] then [] else Joined(parts[..|parts| - 1]) + parts[|parts| - 1]
  }

  /** The groups the processor should get in these rounds, met in these states. */
  function Due(states: seq<Loop>, inverted: bool, rounds: seq<Round>): seq<nat>
    requires |states| == |rounds|
  {
    if rounds == [] then []
    else
      var n := |rounds| - 1;
      Due(states[..n], inverted, rounds[..n]) +
      (if Processes(states[n], inverted, rounds[n]) then [Answer(rounds[n].pulls).groups] else [])
  }

  /** The first `n` rounds are run one after another, each in the state the one before left. */
  ghost predicate Chain(l: Loop, inverted: bool, rounds: seq<Round>, states: seq<Loop>, traces: seq<seq<Event>>) {
    && |states| == |traces| + 1 && |traces| <= |rounds| && states[0] == l
    && forall i | 0 <= i < |traces| ::
         !states[i].shutdown && states[i + 1] == RoundOf(states[i], inverted, rounds[i]).0
         && traces[i] == RoundOf(states[i], inverted, rounds[i]).1
  }

  /**
    * The loop runs the rounds in their order, all of them unless one ends with the worker shut down; and the
    * processor has its turn exactly in those of them whose fetch comes with data and no shutdown before.
    */
  lemma {:induction false} LoopExactly(l: Loop, inverted: bool, rounds: seq<Round>)
    returns (states: seq<Loop>, traces: seq<seq<Event>>)
    ensures Chain(l, inverted, rounds, states, traces)
    ensures LoopOf(l, inverted, rounds) == (states[|traces|], Joined(traces))
    ensures |traces| < |rounds| ==> states[|traces|].shutdown
    ensures Turns(LoopOf(l, inverted, rounds).1) == Due(states[..|traces|], inverted, rounds[..|traces|])
  {
    hide RoundOf, Processes, Answer, Chain, Joined, Due;
    if rounds == [] {
      states, traces := [l], [];
      NoRounds(l, inverted);
    } else {
      var n := |rounds| - 1;
      states, traces := LoopExactly(l, inverted, rounds[..n]);
      ChainIs(l, inverted, rounds[..n], states, traces);
      if states[|traces|].shutdown {
        ChainEnds(l, inverted, rounds, states, traces);
      } else {
        OneMoreRound(l, inverted, rounds, states, traces);
        var (l', es) := RoundOf(states[n], inverted, rounds[n]);
        states, traces := states + [l'], traces + [es];
      }
    }
  }

  lemma NoRounds(l: Loop, inverted: bool)
    ensures Chain(l, inverted, [], [l], []) && Joined([]) == [] && Turns([]) == Due([], inverted, []) == []
  {
  }

  lemma ChainIs(l: Loop, inverted: bool, rounds: seq<Round>, states: seq<Loop>, traces: seq<seq<Event>>)
    requires Chain(l, inverted, rounds, states, traces)
    ensures |states| == |traces| + 1 && |traces| <= |rounds|
  {
  }

  lemma ChainEnds(l: Loop, inverted: bool, rounds: seq<Round>, states: seq<Loop>, traces: seq<seq<Event>>)
    requires rounds != [] && Chain(l, inverted, rounds[..|rounds| - 1], states, traces)
    ensures Chain(l, inverted, rounds, states, traces)
    ensures rounds[..|rounds| - 1][..|traces|] == rounds[..|traces|]
  {
    hide RoundOf;
  }

  lemma OneMoreRound(l: Loop, inverted: bool, rounds: seq<Round>, states: seq<Loop>, traces: seq<seq<Event>>)
    requires rounds != [] && Chain(l, inverted, rounds[..|rounds| - 1], states, traces)
    requires |traces| == |rounds| - 1 && !states[|traces|].shutdown
    requires Turns(Joined(traces)) == Due(states[..|traces|], inverted, rounds[..|rounds| - 1][..|traces|])
    ensures var n := |traces|;
            var (l', es) := RoundOf(states[n], inverted, rounds[n]);
            && Chain(l, inverted, rounds, states + [l'], traces + [es])
            && Joined(traces + [es]) == Joined(traces) + es
            && Turns(Joined(traces + [es])) == Due((states + [l'])[..n + 1], inverted, rounds[..n + 1])
  {
    hide RoundOf, Processes, Answer, Turns, Chain, Joined, Due;
    var n := |traces|;
    ChainIs(l, inverted, rounds[..n], states, traces);
    var (l', es) := RoundOf(states[n], inverted, rounds[n]);
    LongerChain(l, inverted, rounds, states, traces);
    JoinedSnoc(traces, es);
    TurnsAppend(Joined(traces), es);
    RoundTurns(states[n], inverted, rounds[n]);
    assert (states + [l'])[..n + 1] == states[..n] + [states[n]] && rounds[..n][..n] == rounds[..n];
    assert rounds[..n + 1] == rounds[..n] + [rounds[n]];
    DueSnoc(states[..n], inverted, rounds[..n], states[n], rounds[n]);
  }

  lemma DueSnoc(states: seq<Loop>, inverted: bool, rounds: seq<Round>, l: Loop, r: Round)
    requires |states| == |rounds|
    ensures Due(states + [l], inverted, rounds + [r]) ==
            Due(states, inverted, rounds) + (if Processes(l, inverted, r) then [Answer(r.pulls).groups] else [])
  {
    hide Processes, Answer;
    assert (states + [l])[..|states|] == states && (rounds + [r])[..|rounds|] == rounds;
  }

  lemma JoinedSnoc(traces: seq<seq<Event>>, es: seq<Event>)
    ensures Joined(traces + [es]) == Joined(traces) + es
  {
    assert (traces + [es])[..|traces|] == traces;
  }

  lemma LongerChain(l: Loop, inverted: bool, rounds: seq<Round>, states: seq<Loop>, traces: seq<seq<Event>>)
    requires rounds != [] && Chain(l, inverted, rounds[..|rounds| - 1], states, traces) && |traces| == |rounds| - 1
    requires !states[|traces|].shutdown
    ensures var (l', es) := RoundOf(states[|traces|], inverted, rounds[|traces|]);
            Chain(l, inverted, rounds, states + [l'], traces + [es])
  {
    hide RoundOf;
  }

  // ----- Data that is fetched and never processed -----

  /**
    * A shutdown between the fetch and the processing: the processor does not get the data, and the forced flush
    * commits the offset behind it exactly if no other offset is recorded, for instance because nothing was saved
    * yet. At-least-once delivery is lost in just these cases.
    */
  lemma EarlyStopExactly(past: seq<Event>, l: Loop, inverted: bool, r: Round)
    requires !l.closed && Fetches(l, inverted, r) && StopsAt(r, 4)
    requires Answer(r.pulls).groups > 0 && Answer(r.pulls).next > 0
    ensures var es, next := RoundOf(l, inverted, r).1, Answer(r.pulls).next;
            var first := [Fetched(next), Flush(true, r.stop.value.ok)];
            && Turns(es) == [] && first <= es
            && Commits(NewTracker, past + first) ==
               Commits(NewTracker, past) + [if Recorded(past) != -1 then Recorded(past) else next]
            && (Commits(NewTracker, past + first) == Commits(NewTracker, past) + [next] <==>
                  Recorded(past) == -1 || Recorded(past) == next)
  {
    hide RoundOf, SaveEvents, Turns, Tries, Answer, Recorded, Acknowledged, LastFetched, Commits;
    var next := Answer(r.pulls).next;
    RoundExactly(l, inverted, r);
    RoundTurns(l, inverted, r);
    FetchThenFlush(past, next, r.stop.value.ok);
    var sent := Commits(NewTracker, past);
    var v := if Recorded(past) != -1 then Recorded(past) else next;
    assert (sent + [v])[|sent|] == v && (sent + [next])[|sent|] == next;
  }

  lemma FetchThenFlush(past: seq<Event>, next: int, ok: bool)
    requires next > 0
    ensures Commits(NewTracker, past + [Fetched(next), Flush(true, ok)]) ==
            Commits(NewTracker, past) + [if Recorded(past) != -1 then Recorded(past) else next]
  {
    hide Commits;
    var fetched := past + [Fetched(next)];
    assert fetched[..|past|] == past;
    assert past + [Fetched(next), Flush(true, ok)] == fetched + [Flush(true, ok)];
    OnlyFlushSends(past, Fetched(next));
    FlushSends(fetched, true, ok);
  }

  // ----- The one forced flush -----

  /** How many forced flushes are among the events. */
  function Forced(es: seq<Event>): nat {
    if es == [] then 0
    else
      var e := es[|es| - 1];
      Forced(es[..|es| - 1]) + (if e.Flush? && e.force then 1 else 0)
  }

  lemma {:induction false} ForcedAppend(a: seq<Event>, b: seq<Event>)
    ensures Forced(a + b) == Forced(a) + Forced(b)
  {
    if b == [] {
      assert a + b == a;
    } else {
      var n := |b| - 1;
      assert (a + b)[..|a| + n] == a + b[..n] && (a + b)[|a| + n] == b[n];
      ForcedAppend(a, b[..n]);
    }
  }

  lemma OneForced(e: Event)
    ensures Forced([]) == 0 && Forced([e]) == if e.Flush? && e.force then 1 else 0
  {
    assert [e][..0] == [];
  }

  lemma {:induction false} SavesNotForced(saves: seq<UserSave>)
    ensures Forced(SaveEvents(saves)) == 0
  {
    if saves != [] {
      var n := |saves| - 1;
      var s := saves[n];
      var save := if s.explicit.Some? then SaveAt(s.explicit.value) else Save;
      SavesNotForced(saves[..n]);
      ForcedAppend(SaveEvents(saves[..n]) + [save], if s.persistent then [Flush(false, s.ok)] else []);
      ForcedAppend(SaveEvents(saves[..n]), [save]);
      OneForced(save);
      OneForced(Flush(false, s.ok));
    }
  }

  lemma HeadForced(e: Event, saves: seq<UserSave>)
    ensures Forced([e] + SaveEvents(saves)) == if e.Flush? && e.force then 1 else 0
  {
    hide SaveEvents, Forced;
    ForcedAppend([e], SaveEvents(saves));
    OneForced(e);
    SavesNotForced(saves);
  }

  lemma SixForced(a: seq<Event>, b: seq<Event>, c: seq<Event>, d: seq<Event>, e: seq<Event>, f: seq<Event>)
    ensures Forced(a + b + c + d + e + f) == Forced(a) + Forced(b) + Forced(c) + Forced(d) + Forced(e) + Forced(f)
  {
    hide Forced;
    ForcedAppend(a + b + c + d + e, f);
    ForcedAppend(a + b + c + d, e);
    ForcedAppend(a + b + c, d);
    ForcedAppend(a + b, c);
    ForcedAppend(a, b);
  }

  lemma RoundForced(l: Loop, inverted: bool, r: Round)
    ensures var (l', es) := RoundOf(l, inverted, r);
            (l.closed ==> l'.closed) && Forced(es) == if l'.closed && !l.closed then 1 else 0
  {
    hide RoundOf, SaveEvents, Forced, Tries, Answer, Idle, FirstGood;
    RoundExactly(l, inverted, r);
    var p := Answer(r.pulls);
    var ended := if r.stop.Some? && !l.closed then [Flush(true, r.stop.value.ok)] + SaveEvents(r.stop.value.saves) else [];
    if r.stop.Some? {
      HeadForced(Flush(true, r.stop.value.ok), r.stop.value.saves);
    }
    OneForced(Flush(false, r.checkOk));
    var fetch := if Fetches(l, inverted, r) then
                   [Fetched(p.next)] + (if Idle(l, inverted, r) then [Flush(false, r.idleOk)] else [])
                 else if Cut(l, inverted, r) then ended else [];
    if Fetches(l, inverted, r) {
      ForcedAppend([Fetched(p.next)], if Idle(l, inverted, r) then [Flush(false, r.idleOk)] else []);
      OneForced(Fetched(p.next));
      OneForced(Flush(false, r.idleOk));
    }
    if Processes(l, inverted, r) {
      HeadForced(Processed(p.groups), r.saves);
    }
    SixForced(if StopsAt(r, 0) then ended else [], fetch, if StopsAt(r, 4) then ended else [],
              if Processes(l, inverted, r) then [Processed(p.groups)] + SaveEvents(r.saves) else [],
              if StopsAt(r, 5) then ended else [],
              if r.checkSec > l.lastCheckTime + 60 then [Flush(false, r.checkOk)] else []);
  }

  lemma {:induction false} LoopForced(l: Loop, inverted: bool, rounds: seq<Round>)
    ensures var (l', es) := LoopOf(l, inverted, rounds);
            (l.closed ==> l'.closed) && Forced(es) == if l'.closed && !l.closed then 1 else 0
  {
    hide RoundOf;
    if rounds != [] {
      var n := |rounds| - 1;
      LoopForced(l, inverted, rounds[..n]);
      var (l1, es) := LoopOf(l, inverted, rounds[..n]);
      RoundForced(l1, inverted, rounds[n]);
      ForcedAppend(es, RoundOf(l1, inverted, rounds[n]).1);
    }
  }

  /**
    * Whoever closes the worker, and whenever: in its whole consumption the offset is forced out exactly once. If
    * no round closed it, that is the last thing done but for the processor's last saves.
    */
  lemma ClosedOnce(l: Loop, inverted: bool, rounds: seq<Round>, ok: bool, saves: seq<UserSave>)
    ensures var (l', es) := ConsumeOf(l, inverted, rounds, ok, saves);
            && l'.shutdown && l'.closed && Forced(es) == (if l.closed then 0 else 1)
            && var (l1, before) := LoopOf(l, inverted, rounds);
               es == before + (if l1.closed then [] else [Flush(true, ok)] + SaveEvents(saves))
  {
    hide LoopOf, SaveEvents, Forced;
    LoopForced(l, inverted, rounds);
    HeadForced(Flush(true, ok), saves);
    var before := LoopOf(l, inverted, rounds).1;
    ForcedAppend(before, [Flush(true, ok)] + SaveEvents(saves));
    assert before + [] == before;
  }

  // ----- What is learned -----

  /** The positive next offsets among the events. */
  function Gains(es: seq<Event>): seq<int> {
    if es == [] then []
    else
      var e := es[|es| - 1];
      Gains(es[..|es| - 1]) + (if e.Fetched? && e.next > 0 then [e.next] else [])
  }

  /** Nothing is learned: no positive offset fetched, no stored one set. */
  predicate Learnless(es: seq<Event>) {
    forall e <- es :: Learned(e).None?
  }

  /** The events learn these offsets from the server, in this order, and none from a store. */
  ghost predicate Learns(es: seq<Event>, gains: seq<int>) {
    Gains(es) == gains && forall e <- es :: !e.SetMemory?
  }

  lemma {:induction false} GainsAppend(a: seq<Event>, b: seq<Event>)
    ensures Gains(a + b) == Gains(a) + Gains(b)
  {
    if b == [] {
      assert a + b == a;
    } else {
      var n := |b| - 1;
      assert (a + b)[..|a| + n] == a + b[..n] && (a + b)[|a| + n] == b[n];
      GainsAppend(a, b[..n]);
    }
  }

  lemma {:induction false} LearnsNothing(es: seq<Event>)
    requires Learnless(es)
    ensures Learns(es, [])
  {
    if es != [] {
      var n := |es| - 1;
      assert es[n] in es;
      LearnsNothing(es[..n]);
      assert forall e <- es :: Learned(e).None? && !e.SetMemory?;
    }
  }

  lemma LearnsMore(a: seq<Event>, gains: seq<int>, b: seq<Event>)
    requires Learns(a, gains) && Learnless(b)
    ensures Learns(a + b, gains)
  {
    hide Gains, Learnless;
    GainsAppend(a, b);
    LearnsNothing(b);
    assert gains + [] == gains;
  }

  lemma LearnsFirst(a: seq<Event>, b: seq<Event>, gains: seq<int>)
    requires Learnless(a) && Learns(b, gains)
    ensures Learns(a + b, gains)
  {
    hide Gains, Learnless;
    GainsAppend(a, b);
    LearnsNothing(a);
    assert [] + gains == gains;
  }

  lemma {:induction false} SavesLearnless(saves: seq<UserSave>)
    ensures Learnless(SaveEvents(saves))
  {
    if saves != [] {
      SavesLearnless(saves[..|saves| - 1]);
    }
  }

  lemma CloseLearnless(l: Loop, ok: bool, saves: seq<UserSave>)
    ensures Learnless(CloseOf(l, ok, saves).1)
  {
    hide SaveEvents;
    SavesLearnless(saves);
  }

  lemma OutsideLearnless(l: Loop, r: Round, at: nat)
    ensures Learnless(OutsideOf(l, r, at).1)
  {
    hide CloseOf;
    if StopsAt(r, at) {
      CloseLearnless(l, r.stop.value.ok, r.stop.value.saves);
    }
  }

  /** What a fetch learns: the positive next offset of its answer, if it comes. */
  function Gain(l: Loop, inverted: bool, r: Round): seq<int> {
    if Comes(l, inverted, r) && Answer(r.pulls).next > 0 then [Answer(r.pulls).next] else []
  }

  lemma FetchLearns(l: Loop, inverted: bool, r: Round)
    ensures Learns(FetchOf(l, inverted, r).2, Gain(l, inverted, r))
  {
    hide FetchOf, Tries;
    FetchExactly(l, inverted, r);
    if Comes(l, inverted, r) {
      var p := Answer(r.pulls);
      var es := FetchOf(l, inverted, r).2;
      OneFetched(p.next);
      assert es == [Fetched(p.next)] + es[1..];
      LearnsMore([Fetched(p.next)], Gain(l, inverted, r), es[1..]);
    } else {
      NoFetchLearnless(l, inverted, r);
      LearnsNothing(FetchOf(l, inverted, r).2);
    }
  }

  lemma OneFetched(next: int)
    ensures Learns([Fetched(next)], if next > 0 then [next] else [])
  {
    assert [Fetched(next)][..0] == [];
  }

  lemma NoFetchLearnless(l: Loop, inverted: bool, r: Round)
    requires !Comes(l, inverted, r)
    ensures Learnless(FetchOf(l, inverted, r).2)
  {
    hide FetchOf, Tries, SaveEvents;
    FetchExactly(l, inverted, r);
    if r.stop.Some? {
      SavesLearnless(r.stop.value.saves);
    }
  }

  lemma RoundLearns(l: Loop, inverted: bool, r: Round)
    ensures Learns(RoundOf(l, inverted, r).1, Gain(OutsideOf(l, r, 0).0, inverted, r))
  {
    hide OutsideOf, FetchOf, ProcessOf, Gain, Learns, Learnless, CheckOf;
    var (l0, e0) := OutsideOf(l, r, 0);
    var (l1, groups, e1) := FetchOf(l0, inverted, r);
    var (l2, e2) := OutsideOf(l1, r, 4);
    var e3 := ProcessOf(l2, r, groups);
    var (l4, e4) := OutsideOf(l2, r, 5);
    var (l5, e5) := CheckOf(l4, r);
    var gain := Gain(l0, inverted, r);
    OutsideLearnless(l, r, 0);
    FetchLearns(l0, inverted, r);
    LearnsFirst(e0, e1, gain);
    OutsideLearnless(l1, r, 4);
    LearnsMore(e0 + e1, gain, e2);
    ProcessLearnless(l2, r, groups);
    CheckLearnless(l4, r);
    LearnsMore(e0 + e1 + e2, gain, e3);
    OutsideLearnless(l2, r, 5);
    LearnsMore(e0 + e1 + e2 + e3, gain, e4);
    LearnsMore(e0 + e1 + e2 + e3 + e4, gain, e5);
  }

  lemma ProcessLearnless(l: Loop, r: Round, groups: nat)
    ensures Learnless(ProcessOf(l, r, groups))
  {
    hide SaveEvents;
    SavesLearnless(r.saves);
  }

  lemma CheckLearnless(l: Loop, r: Round)
    ensures Learnless(CheckOf(l, r).1) && Learnless([])
  {
  }

  // ----- Over the rounds -----

  predicate Positive(r: Round) {
    Answer(r.pulls).Pulled? && Answer(r.pulls).next > 0
  }

  /** The positive next offsets of the answers never decrease and start at or above the last offset learned. */
  predicate AnswersAdvance(rounds: seq<Round>, floor: int) {
    && (forall i | 0 <= i < |rounds| && Positive(rounds[i]) :: floor <= Answer(rounds[i].pulls).next)
    && (forall i, j | 0 <= i < j < |rounds| && Positive(rounds[i]) && Positive(rounds[j]) ::
          Answer(rounds[i].pulls).next <= Answer(rounds[j].pulls).next)
  }

  lemma AdvanceOne(past: seq<Event>, e: Event)
    requires ServerAdvances(past) && !e.SetMemory? && (Learned(e).Some? ==> Floor(past) <= Learned(e).value)
    ensures ServerAdvances(past + [e])
    ensures Floor(past + [e]) == if Learned(e).Some? then Learned(e).value else Floor(past)
  {
    var all := past + [e];
    assert all[..|past|] == past;
    FloorIsLast(past);
    hide Floor;
    forall i, j | 0 <= i < j < |all| && Learned(all[i]).Some? && Learned(all[j]).Some?
      ensures !all[j].SetMemory? && Learned(all[i]).value <= Learned(all[j]).value
    {
      assert all[i] == past[i];
      if j < |past| {
        assert all[j] == past[j];
      }
    }
  }

  /** At most one more offset is learned, not below the last. */
  lemma {:induction false} AdvanceMore(past: seq<Event>, es: seq<Event>, gains: seq<int>)
    requires ServerAdvances(past) && Learns(es, gains) && |gains| <= 1 && (gains != [] ==> Floor(past) <= gains[0])
    ensures ServerAdvances(past + es)
    ensures Floor(past + es) == if gains == [] then Floor(past) else gains[0]
    decreases |es|
  {
    hide ServerAdvances, Floor;
    if es == [] {
      assert past + es == past;
    } else {
      var n := |es| - 1;
      var e := es[n];
      assert e in es && past + es == (past + es[..n]) + [e];
      AdvanceMore(past, es[..n], Gains(es[..n]));
      AdvanceOne(past + es[..n], e);
    }
  }

  /** What the loop learns advances if the answers do; the last offset learned is the old one or an answer's. */
  lemma {:induction false} LoopAdvances(past: seq<Event>, l: Loop, inverted: bool, rounds: seq<Round>)
    requires ServerAdvances(past) && AnswersAdvance(rounds, Floor(past))
    ensures var all := past + LoopOf(l, inverted, rounds).1;
            && ServerAdvances(all)
            && (Floor(all) == Floor(past) ||
                exists i :: 0 <= i < |rounds| && Positive(rounds[i]) && Answer(rounds[i].pulls).next == Floor(all))
  {
    hide ServerAdvances, Floor, RoundOf, Answer, Learns;
    if rounds == [] {
      assert past + [] == past;
    } else {
      var n := |rounds| - 1;
      LoopAdvances(past, l, inverted, rounds[..n]);
      var (l1, es) := LoopOf(l, inverted, rounds[..n]);
      if !l1.shutdown {
        var gain := Gain(OutsideOf(l1, rounds[n], 0).0, inverted, rounds[n]);
        var more := RoundOf(l1, inverted, rounds[n]).1;
        RoundLearns(l1, inverted, rounds[n]);
        if Floor(past + es) != Floor(past) {
          var i :| 0 <= i < n && Positive(rounds[..n][i]) && Answer(rounds[..n][i].pulls).next == Floor(past + es);
          assert Positive(rounds[i]);
        }
        AdvanceMore(past + es, more, gain);
        assert past + (es + more) == (past + es) + more;
      } else if Floor(past + es) != Floor(past) {
        var i :| 0 <= i < n && Positive(rounds[..n][i]) && Answer(rounds[..n][i].pulls).next == Floor(past + es);
        assert Positive(rounds[i]) && Answer(rounds[i].pulls).next == Floor(past + es);
      }
    }
  }

  /** So does the whole of it, the close included. */
  lemma ConsumeAdvances(past: seq<Event>, l: Loop, inverted: bool, rounds: seq<Round>, ok: bool, saves: seq<UserSave>)
    requires ServerAdvances(past) && AnswersAdvance(rounds, Floor(past))
    ensures ServerAdvances(past + ConsumeOf(l, inverted, rounds, ok, saves).1)
  {
    hide ServerAdvances, Floor, AnswersAdvance, LoopOf, CloseOf;
    var (l1, es) := LoopOf(l, inverted, rounds);
    var more := CloseOf(l1, ok, saves).1;
    LoopAdvances(past, l, inverted, rounds);
    CloseLearnless(l1, ok, saves);
    LearnsNothing(more);
    AdvanceMore(past + es, more, []);
    assert past + (es + more) == (past + es) + more;
  }

  // ----- Without offsets of the user's choice -----

  predicate NoneExplicit(saves: seq<UserSave>) {
    forall s <- saves :: s.explicit.None?
  }

  /** Neither the processing of a round nor a shutdown during it saves an offset of the user's choice. */
  predicate Implicit(r: Round) {
    NoneExplicit(r.saves) && (r.stop.Some? ==> NoneExplicit(r.stop.value.saves))
  }

  lemma {:induction false} SavesImplicit(saves: seq<UserSave>)
    requires NoneExplicit(saves)
    ensures NoExplicitOffset(SaveEvents(saves))
  {
    if saves != [] {
      SavesImplicit(saves[..|saves| - 1]);
      assert saves[|saves| - 1] in saves;
    }
  }

  lemma CloseImplicit(l: Loop, ok: bool, saves: seq<UserSave>)
    requires NoneExplicit(saves)
    ensures NoExplicitOffset(CloseOf(l, ok, saves).1)
  {
    hide SaveEvents;
    SavesImplicit(saves);
  }

  lemma OutsideImplicit(l: Loop, r: Round, at: nat)
    requires Implicit(r)
    ensures NoExplicitOffset(OutsideOf(l, r, at).1)
  {
    hide CloseOf;
    if StopsAt(r, at) {
      CloseImplicit(l, r.stop.value.ok, r.stop.value.saves);
    }
  }

  lemma {:induction false} TryImplicit(l: Loop, r: Round, i: nat)
    requires Implicit(r)
    ensures NoExplicitOffset(TryOf(l, r, i).2)
    decreases 3 - i
  {
    hide OutsideOf, Implicit;
    if i < 3 {
      OutsideImplicit(l, r, i + 1);
      var l1 := OutsideOf(l, r, i + 1).0;
      var jumps := i == 0 && r.pulls(0).InvalidOffset? && r.endOffset.Some?;
      TryImplicit(if jumps then l1.(nextFetchOffset := r.endOffset.value) else l1, r, i + 1);
    }
  }

  lemma RoundImplicit(l: Loop, inverted: bool, r: Round)
    requires Implicit(r)
    ensures NoExplicitOffset(RoundOf(l, inverted, r).1)
  {
    hide OutsideOf, TryOf, SaveEvents;
    var (l0, e0) := OutsideOf(l, r, 0);
    var (l1, groups, e1) := FetchOf(l0, inverted, r);
    OutsideImplicit(l, r, 0);
    TryImplicit(l0.(lastFetchTime := r.nowMs), r, 0);
    OutsideImplicit(l1, r, 4);
    SavesImplicit(r.saves);
    OutsideImplicit(OutsideOf(l1, r, 4).0, r, 5);
  }

  lemma {:induction false} LoopImplicit(l: Loop, inverted: bool, rounds: seq<Round>)
    requires forall r <- rounds :: Implicit(r)
    ensures NoExplicitOffset(LoopOf(l, inverted, rounds).1)
  {
    hide RoundOf, Implicit;
    if rounds != [] {
      var n := |rounds| - 1;
      assert rounds[n] in rounds;
      LoopImplicit(l, inverted, rounds[..n]);
      RoundImplicit(LoopOf(l, inverted, rounds[..n]).0, inverted, rounds[n]);
    }
  }

  // ----- The commits of the loop -----

  /** With the user's own offsets only where they are safe, the offsets committed never go back. */
  lemma SafeLoopNeverGoesBack(past: seq<Event>, l: Loop, inverted: bool, rounds: seq<Round>, ok: bool,
                              saves: seq<UserSave>)
    requires ServerAdvances(past) && AnswersAdvance(rounds, Floor(past))
    requires SafeSaves(past + ConsumeOf(l, inverted, rounds, ok, saves).1)
    ensures NonDecreasing(Commits(NewTracker, past + ConsumeOf(l, inverted, rounds, ok, saves).1))
  {
    hide ServerAdvances, Floor, AnswersAdvance, ConsumeOf, Commits, SafeSaves;
    ConsumeAdvances(past, l, inverted, rounds, ok, saves);
    CommitsNeverGoBack(past + ConsumeOf(l, inverted, rounds, ok, saves).1);
  }

  /**
    * Whatever the rounds meet, shutdowns from outside included: if the offsets the server answers never decrease
    * and the user saves none of his own choice, the offsets committed never go back.
    */
  lemma LoopNeverGoesBack(past: seq<Event>, l: Loop, inverted: bool, rounds: seq<Round>, ok: bool, saves: seq<UserSave>)
    requires ServerAdvances(past) && NoExplicitOffset(past) && AnswersAdvance(rounds, Floor(past))
    requires NoneExplicit(saves) && forall r <- rounds :: Implicit(r)
    ensures NonDecreasing(Commits(NewTracker, past + ConsumeOf(l, inverted, rounds, ok, saves).1))
  {
    hide ServerAdvances, Floor, AnswersAdvance, LoopOf, CloseOf, Implicit, NoneExplicit, Commits, SafeSaves;
    var (l1, es) := LoopOf(l, inverted, rounds);
    LoopImplicit(l, inverted, rounds);
    CloseImplicit(l1, ok, saves);
    NoExplicitIsSafe(past + ConsumeOf(l, inverted, rounds, ok, saves).1);
    SafeLoopNeverGoesBack(past, l, inverted, rounds, ok, saves);
  }

  /** From the stored offset on, through the whole life of a worker. */
  lemma LifeNeverGoesBack(stored: Option<int>, l: Loop, inverted: bool, rounds: seq<Round>, ok: bool,
                          saves: seq<UserSave>)
    requires AnswersAdvance(rounds, if stored.Some? && stored.value >= 0 then stored.value else -1)
    requires NoneExplicit(saves) && forall r <- rounds :: Implicit(r)
    ensures NonDecreasing(Commits(NewTracker, InitEvents(stored) + ConsumeOf(l, inverted, rounds, ok, saves).1))
  {
    hide AnswersAdvance, Implicit, NoneExplicit, Commits, ConsumeOf;
    FloorOfInit(stored);
    LoopNeverGoesBack(InitEvents(stored), l, inverted, rounds, ok, saves);
  }

  lemma FloorOfInit(stored: Option<int>)
    ensures ServerAdvances(InitEvents(stored)) && NoExplicitOffset(InitEvents(stored))
    ensures Floor(InitEvents(stored)) == if stored.Some? && stored.value >= 0 then stored.value else -1
  {
    if stored.Some? && stored.value >= 0 {
      assert InitEvents(stored)[..1] == [SetMemory(stored.value)];
    }
  }
}
