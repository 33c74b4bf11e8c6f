/**
  * The offset tracker of a partition: three registers with the sentinel -1, driven in any interleaving by
  * the fetch loop, the user's saves, the periodic and idle flushes, and the forced flush of close.
  */
module Offsets {
  import opened Basics

  datatype Tracker = Tracker(offset: int, temp: int, last: int)

  const NewTracker := Tracker(-1, -1, -1)

  /** One locked operation on the tracker, or the processor's turn, which by itself leaves it alone. */
  datatype Event =
    | SetMemory(offset: int)         // initialize, from the stored offset
    | SetPersistent(offset: int)
    | Fetched(next: int)             // fetchData, with the NextOffset of the response
    | Save                           // SaveOffset without an offset
    | SaveAt(offset: int)            // SaveOffset with an offset of the user's choice
    | Flush(force: bool, ok: bool)   // FlushOffset; `ok`: UpdateOffsets returned no error
    | Processed(groups: nat)         // the processor gets the logs of so many groups

  /** What a flush would send to UpdateOffsets, if anything. */
  function ToFlush(t: Tracker, force: bool): Option<int> {
    var flushOffset := if t.temp == -1 then t.offset else t.temp;
    if flushOffset == -1 then None
    else if flushOffset != t.last || force then Some(flushOffset)
    else None
  }

  function Next(t: Tracker, e: Event): Tracker {
    match e
    case SetMemory(o) => t.(temp := o)
    case SetPersistent(o) => t.(last := o)
    case Fetched(n) => if n > 0 then t.(offset := n) else t
    case Save => t.(temp := t.offset)
    case SaveAt(o) => t.(temp := o)
    case Flush(force, ok) =>
      var v := ToFlush(t, force);
      if v.Some? && ok then t.(temp := v.value, last := v.value) else t
    case Processed(_) => t
  }

  function Sent(t: Tracker, e: Event): seq<int> {
    if e.Flush? && ToFlush(t, e.force).Some? then [ToFlush(t, e.force).value] else []
  }

  function After(t: Tracker, es: seq<Event>): Tracker {
    if es == [] then t else Next(After(t, es[..|es| - 1]), es[|es| - 1])
  }

  /** Everything sent to UpdateOffsets, in order, whether or not the server took it. */
  function Commits(t: Tracker, es: seq<Event>): seq<int> {
    if es == [] then []
    else Commits(t, es[..|es| - 1]) + Sent(After(t, es[..|es| - 1]), es[|es| - 1])
  }

  // ----- Which offset a flush sends -----

  /** The offset fetched last, or -1. */
  function LastFetched(es: seq<Event>): int {
    if es == [] then -1
    else
      var e := es[|es| - 1];
      if e.Fetched? && e.next > 0 then e.next else LastFetched(es[..|es| - 1])
  }

  /** What the last event sent. */
  function SentLast(es: seq<Event>): seq<int>
    requires es != []
  {
    Commits(NewTracker, es)[|Commits(NewTracker, es[..|es| - 1])|..]
  }

  /** A flush that sent an offset and was answered without an error. */
  predicate Delivers(es: seq<Event>) {
    es != [] && es[|es| - 1].Flush? && es[|es| - 1].ok && SentLast(es) != []
  }

  /** The offset recorded last, at the start, by a save or by the delivery of it, or -1. */
  function Recorded(es: seq<Event>): int {
    if es == [] then -1
    else
      var past, e := es[..|es| - 1], es[|es| - 1];
      if e.SetMemory? || e.SaveAt? then e.offset
      else if e.Save? then LastFetched(past)
      else if Delivers(es) then SentLast(es)[0]
      else Recorded(past)
  }

  /** The offset the server is last known to have, or -1. */
  function Acknowledged(es: seq<Event>): int {
    if es == [] then -1
    else
      var past, e := es[..|es| - 1], es[|es| - 1];
      if e.SetPersistent? then e.offset
      else if Delivers(es) then SentLast(es)[0]
      else Acknowledged(past)
  }

  /** The three registers are what was fetched, recorded and acknowledged last. */
  lemma {:induction false} RegistersAre(es: seq<Event>)
    ensures After(NewTracker, es) == Tracker(LastFetched(es), Recorded(es), Acknowledged(es))
  {
    if es != [] {
      RegistersAre(es[..|es| - 1]);
    }
  }

  /**
    * What any flush sends, after anything: the offset recorded last or, while none is, the one fetched last; none
    * at all if there is neither, or if the server has it already and the flush is not forced.
    */
  lemma FlushSends(es: seq<Event>, force: bool, ok: bool)
    ensures var v := if Recorded(es) != -1 then Recorded(es) else LastFetched(es);
            Commits(NewTracker, es + [Flush(force, ok)]) ==
            Commits(NewTracker, es) + (if v != -1 && (force || v != Acknowledged(es)) then [v] else [])
  {
    hide LastFetched, Recorded, Acknowledged;
    RegistersAre(es);
    assert (es + [Flush(force, ok)])[..|es|] == es;
  }

  /** Nothing but a flush sends. */
  lemma OnlyFlushSends(es: seq<Event>, e: Event)
    requires !e.Flush?
    ensures Commits(NewTracker, es + [e]) == Commits(NewTracker, es)
  {
    assert (es + [e])[..|es|] == es;
  }

  predicate Records(e: Event) {
    e.SetMemory? || e.Save? || e.SaveAt?
  }

  /**
    * From the moment an offset is recorded until another one is, every offset sent is that one, whatever is
    * fetched meanwhile; and if the server has it, nothing is sent unless forced.
    */
  lemma {:induction false} RecordedIsSent(es: seq<Event>, more: seq<Event>)
    requires Recorded(es) != -1 && forall e <- more :: !Records(e)
    ensures Recorded(es + more) == Recorded(es)
    ensures Commits(NewTracker, es) <= Commits(NewTracker, es + more)
    ensures forall v <- Commits(NewTracker, es + more)[|Commits(NewTracker, es)|..] :: v == Recorded(es)
    ensures Acknowledged(es) == Recorded(es) && (forall e <- more :: !e.SetPersistent? && (e.Flush? ==> !e.force)) ==>
              Acknowledged(es + more) == Recorded(es) && Commits(NewTracker, es + more) == Commits(NewTracker, es)
  {
    hide Recorded, Acknowledged, LastFetched, Commits;
    if more == [] {
      assert es + more == es;
    } else {
      var n := |more| - 1;
      var e, past := more[n], es + more[..n];
      assert e in more && es + more == past + [e] && (past + [e])[..|past|] == past;
      RecordedIsSent(es, more[..n]);
      SentNow(past, e);
      var first, before, after := Commits(NewTracker, es), Commits(NewTracker, past), Commits(NewTracker, es + more);
      assert after[|first|..] == before[|first|..] + after[|before|..];
    }
  }

  /** One event that records nothing, while an offset is recorded. */
  lemma SentNow(past: seq<Event>, e: Event)
    requires Recorded(past) != -1 && !Records(e)
    ensures Recorded(past + [e]) == Recorded(past)
    ensures var sends := e.Flush? && (e.force || Recorded(past) != Acknowledged(past));
            Commits(NewTracker, past + [e]) == Commits(NewTracker, past) + (if sends then [Recorded(past)] else [])
    ensures Acknowledged(past + [e]) == Acknowledged(past) || e.SetPersistent? || Acknowledged(past + [e]) == Recorded(past)
  {
    assert (past + [e])[..|past|] == past;
    RegistersAre(past);
    RegistersAre(past + [e]);
    hide Recorded, Acknowledged, LastFetched;
  }

  // ----- The hypotheses -----

  /** The offsets the partition goroutine learns, in order: the stored one at the start, then the server's. */
  function Learned(e: Event): Option<int> {
    match e
    case SetMemory(o) => Some(o)
    case Fetched(n) => if n > 0 then Some(n) else None
    case _ => None
  }

  /** User code only saves what was fetched. */
  predicate NoExplicitOffset(es: seq<Event>) {
    forall e <- es :: !e.SaveAt?
  }

  /**
    * initialize comes once and before any fetch, with an offset that is not negative; the server's positive
    * next offsets never decrease and are at least that offset.
    */
  predicate ServerAdvances(es: seq<Event>) {
    && (forall i | 0 <= i < |es| && es[i].SetMemory? :: es[i].offset >= 0)
    && (forall i, j | 0 <= i < j < |es| && Learned(es[i]).Some? && Learned(es[j]).Some? ::
          !es[j].SetMemory? && Learned(es[i]).value <= Learned(es[j]).value)
  }

  /** The last offset learned, or -1. */
  function Floor(es: seq<Event>): int {
    if es == [] then -1
    else
      var learned := Learned(es[|es| - 1]);
      if learned.Some? then learned.value else Floor(es[..|es| - 1])
  }

  /** The last offset sent, or -1. */
  function LastSent(es: seq<Event>): int {
    var sent := Commits(NewTracker, es);
    if sent == [] then -1 else sent[|sent| - 1]
  }

  /** An explicit offset between what was sent last and what was learned last, or the sentinel. */
  predicate SafeSave(past: seq<Event>, offset: int) {
    offset == -1 || LastSent(past) <= offset <= Floor(past)
  }

  /** Every explicit offset is safe when it is saved. */
  predicate SafeSaves(es: seq<Event>) {
    forall i | 0 <= i < |es| && es[i].SaveAt? :: SafeSave(es[..i], es[i].offset)
  }

  lemma NoExplicitIsSafe(es: seq<Event>)
    ensures NoExplicitOffset(es) ==> SafeSaves(es)
  {
  }

  ghost predicate NonDecreasing(s: seq<int>) {
    forall i, j | 0 <= i < j < |s| :: s[i] <= s[j]
  }

  // ----- The proof -----

  lemma {:induction false} FloorIsLast(es: seq<Event>)
    requires ServerAdvances(es)
    ensures Floor(es) >= -1
    ensures forall i | 0 <= i < |es| && Learned(es[i]).Some? :: Learned(es[i]).value <= Floor(es)
    ensures Floor(es) == -1 || exists i :: 0 <= i < |es| && Learned(es[i]) == Some(Floor(es))
  {
    if es != [] {
      var n := |es| - 1;
      PrefixAdvances(es);
      FloorIsLast(es[..n]);
      if Learned(es[n]).Some? {
        assert Learned(es[n]) == Some(Floor(es));
      } else if Floor(es) != -1 {
        var i :| 0 <= i < n && Learned(es[..n][i]) == Some(Floor(es));
        assert Learned(es[i]) == Some(Floor(es));
      }
    }
  }

  lemma PrefixAdvances(es: seq<Event>)
    requires ServerAdvances(es) && es != []
    ensures ServerAdvances(es[..|es| - 1])
  {
  }

  lemma PrefixSafe(es: seq<Event>)
    requires SafeSaves(es) && es != []
    ensures SafeSaves(es[..|es| - 1])
    ensures es[|es| - 1].SaveAt? ==> SafeSave(es[..|es| - 1], es[|es| - 1].offset)
  {
    hide SafeSave;
    var past := es[..|es| - 1];
    forall i | 0 <= i < |past| && past[i].SaveAt?
      ensures SafeSave(past[..i], past[i].offset)
    {
      assert past[..i] == es[..i] && past[i] == es[i];
    }
  }

  /** The registers are -1 or between what was sent last and what was learned last. */
  ghost predicate Bounded(t: Tracker, floor: int, sent: seq<int>) {
    && NonDecreasing(sent)
    && floor >= -1 && (t.offset == -1 || t.offset == floor)
    && (forall v <- sent :: 0 <= v <= floor)
    && (t.temp == -1 || (0 <= t.temp <= floor && forall v <- sent :: v <= t.temp))
  }

  lemma StepBounded(t: Tracker, floor: int, sent: seq<int>, e: Event)
    requires Bounded(t, floor, sent)
    requires e.SaveAt? ==> e.offset == -1 || (0 <= e.offset <= floor && forall v <- sent :: v <= e.offset)
    requires Learned(e).Some? ==> Learned(e).value >= 0 && floor <= Learned(e).value
    requires e.SetMemory? ==> t.offset == -1
    ensures Bounded(Next(t, e), if Learned(e).Some? then Learned(e).value else floor, sent + Sent(t, e))
  {
    if Sent(t, e) == [] {
      assert sent + [] == sent;
    } else {
      var v := Sent(t, e)[0];
      assert Sent(t, e) == [v] && 0 <= v <= floor;
      assert forall x <- sent :: x <= v;
      SentMore(sent, v);
    }
  }

  lemma SentMore(sent: seq<int>, v: int)
    requires NonDecreasing(sent) && forall x <- sent :: x <= v
    ensures NonDecreasing(sent + [v])
  {
    forall i | 0 <= i < |sent|
      ensures sent[i] <= v
    {
      assert sent[i] in sent;
    }
  }

  lemma {:induction false} RunBounded(es: seq<Event>)
    requires SafeSaves(es) && ServerAdvances(es)
    ensures Bounded(After(NewTracker, es), Floor(es), Commits(NewTracker, es))
  {
    hide Bounded, ToFlush, SafeSave, SafeSaves, ServerAdvances, LastSent;
    if es == [] {
      StartBounded();
    } else {
      var n := |es| - 1;
      PrefixAdvances(es);
      PrefixSafe(es);
      RunBounded(es[..n]);
      if Learned(es[n]).Some? {
        LearnedLater(es);
      }
      if es[n].SetMemory? {
        NothingFetchedYet(es);
      }
      if es[n].SaveAt? {
        SafeIsBounded(es[..n], es[n].offset);
      }
      StepBounded(After(NewTracker, es[..n]), Floor(es[..n]), Commits(NewTracker, es[..n]), es[n]);
    }
  }

  lemma SafeIsBounded(past: seq<Event>, offset: int)
    requires SafeSave(past, offset) && Bounded(After(NewTracker, past), Floor(past), Commits(NewTracker, past))
    ensures offset == -1 || (0 <= offset <= Floor(past) && forall v <- Commits(NewTracker, past) :: v <= offset)
  {
    hide Commits, After, Floor;
    var sent := Commits(NewTracker, past);
    forall v | v in sent
      ensures v <= LastSent(past)
    {
      var i :| 0 <= i < |sent| && sent[i] == v;
    }
    if sent != [] {
      assert sent[|sent| - 1] in sent;
    }
  }

  lemma StartBounded()
    ensures Bounded(NewTracker, -1, [])
  {
  }

  lemma LearnedLater(es: seq<Event>)
    requires ServerAdvances(es) && es != [] && Learned(es[|es| - 1]).Some?
    ensures Learned(es[|es| - 1]).value >= 0 && Floor(es[..|es| - 1]) <= Learned(es[|es| - 1]).value
  {
    var n := |es| - 1;
    PrefixAdvances(es);
    FloorIsLast(es[..n]);
    if Floor(es[..n]) != -1 {
      var i :| 0 <= i < n && Learned(es[..n][i]) == Some(Floor(es[..n]));
      assert Learned(es[i]).Some?;
    }
  }

  /** When the stored offset is set, nothing was fetched, so the offset register is still -1. */
  lemma NothingFetchedYet(es: seq<Event>)
    requires ServerAdvances(es) && es != [] && es[|es| - 1].SetMemory?
    ensures After(NewTracker, es[..|es| - 1]).offset == -1
  {
    var n := |es| - 1;
    forall i | 0 <= i < n
      ensures Learned(es[..n][i]).None?
    {
      assert es[..n][i] == es[i];
      assert Learned(es[n]).Some?;
    }
    OffsetStays(es[..n]);
  }

  lemma {:induction false} OffsetStays(es: seq<Event>)
    requires forall i | 0 <= i < |es| :: Learned(es[i]).None?
    ensures After(NewTracker, es).offset == -1
  {
    if es != [] {
      var n := |es| - 1;
      assert forall i | 0 <= i < n :: es[..n][i] == es[i];
      OffsetStays(es[..n]);
      assert Learned(es[n]).None?;
    }
  }

  /**
    * Over every interleaving of initialisation, fetches, saves and flushes, failed or not, the offsets sent to
    * the server never go back, and none is beyond what was learned from it; explicit offsets are allowed where
    * they lie between the two.
    */
  lemma CommitsNeverGoBack(es: seq<Event>)
    requires SafeSaves(es) && ServerAdvances(es)
    ensures NonDecreasing(Commits(NewTracker, es))
    ensures forall v <- Commits(NewTracker, es) :: exists i :: 0 <= i < |es| && Learned(es[i]).Some? && v <= Learned(es[i]).value
  {
    hide Commits, ToFlush, Floor;
    RunBounded(es);
    FloorIsLast(es);
    forall v | v in Commits(NewTracker, es)
      ensures exists i :: 0 <= i < |es| && Learned(es[i]).Some? && v <= Learned(es[i]).value
    {
      assert 0 <= v <= Floor(es);
      var i :| 0 <= i < |es| && Learned(es[i]) == Some(Floor(es));
    }
  }

  lemma Extended(sent: seq<int>, v: int)
    requires NonDecreasing(sent)
    ensures NonDecreasing(sent + [v]) <==> sent == [] || sent[|sent| - 1] <= v
  {
    if sent != [] && sent[|sent| - 1] <= v {
      forall x | x in sent
        ensures x <= v
      {
        var i :| 0 <= i < |sent| && sent[i] == x;
      }
      SentMore(sent, v);
    } else if sent != [] {
      assert (sent + [v])[|sent| - 1] > (sent + [v])[|sent|];
    } else {
      assert sent + [v] == [v];
    }
  }

  /** An explicit offset that is flushed next keeps the order exactly if it is not below what was sent last. */
  lemma ExplicitExactly(es: seq<Event>, o: int, ok: bool)
    requires SafeSaves(es) && ServerAdvances(es) && o != -1
    ensures var sent := Commits(NewTracker, es);
            NonDecreasing(Commits(NewTracker, es + [SaveAt(o), Flush(false, ok)])) <==>
            o == After(NewTracker, es).last || sent == [] || sent[|sent| - 1] <= o
  {
    hide Commits, After, Floor, SafeSaves, ServerAdvances, NonDecreasing;
    RunBounded(es);
    BoundedSent(es);
    var t := After(NewTracker, es);
    var sent := Commits(NewTracker, es);
    EventsAppend(NewTracker, es, [SaveAt(o), Flush(false, ok)]);
    TwoEvents(t, SaveAt(o), Flush(false, ok));
    if o == t.last {
      assert sent + ([] + []) == sent;
    } else {
      assert sent + ([] + [o]) == sent + [o];
      Extended(sent, o);
    }
  }

  lemma BoundedSent(es: seq<Event>)
    requires Bounded(After(NewTracker, es), Floor(es), Commits(NewTracker, es))
    ensures NonDecreasing(Commits(NewTracker, es))
  {
  }

  /**
    * Both ends of the interval are needed: with something fetched, an explicit offset that is flushed, followed
    * by a save of the fetched one that is flushed, keeps the order exactly if it lies between what was sent
    * last and what was fetched.
    */
  lemma ExplicitIntervalExactly(es: seq<Event>, o: int, ok: bool)
    requires SafeSaves(es) && ServerAdvances(es) && o != -1 && After(NewTracker, es).offset != -1
    ensures var sent := Commits(NewTracker, es);
            NonDecreasing(Commits(NewTracker, es + [SaveAt(o), Flush(true, ok)] + [Save, Flush(true, ok)])) <==>
            (sent == [] || sent[|sent| - 1] <= o) && o <= After(NewTracker, es).offset
  {
    hide Commits, After, Floor, SafeSaves, ServerAdvances, NonDecreasing;
    RunBounded(es);
    BoundedSent(es);
    var t := After(NewTracker, es);
    var sent := Commits(NewTracker, es);
    var first, second := [SaveAt(o), Flush(true, ok)], [Save, Flush(true, ok)];
    EventsAppend(NewTracker, es, first);
    TwoEvents(t, SaveAt(o), Flush(true, ok));
    var t1 := After(NewTracker, es + first);
    EventsAppend(NewTracker, es + first, second);
    TwoEvents(t1, Save, Flush(true, ok));
    assert sent + ([] + [o]) == sent + [o];
    assert (sent + [o]) + ([] + [t.offset]) == (sent + [o]) + [t.offset];
    Extended(sent, o);
    if NonDecreasing(sent + [o]) {
      Extended(sent + [o], t.offset);
    } else {
      PrefixOrdered(sent + [o], t.offset);
    }
  }

  lemma PrefixOrdered(sent: seq<int>, v: int)
    ensures NonDecreasing(sent + [v]) ==> NonDecreasing(sent)
  {
    if NonDecreasing(sent + [v]) {
      forall i, j | 0 <= i < j < |sent|
        ensures sent[i] <= sent[j]
      {
        assert (sent + [v])[i] <= (sent + [v])[j];
      }
    }
  }

  // ----- The tracker as an object -----

  class OffsetTracker {
    var offset: int
    var tempOffset: int
    var lastPersistentOffset: int
    var lastCheckTime: int
    const defaultFlushOffsetInterval := 60

    constructor ()
      ensures Value() == NewTracker && lastCheckTime == 0
    {
      offset, tempOffset, lastPersistentOffset, lastCheckTime := -1, -1, -1, 0;
    }

    function Value(): Tracker
      reads this
    {
      Tracker(offset, tempOffset, lastPersistentOffset)
    }

    method SetOffset(o: int)
      modifies this`offset
      ensures o > 0 ==> Value() == Next(old(Value()), Fetched(o))
      ensures Value() == old(Value()).(offset := o)
    {
      offset := o;
    }

    method SetMemoryOffset(o: int)
      modifies this`tempOffset
      ensures Value() == Next(old(Value()), SetMemory(o))
    {
      tempOffset := o;
    }

    method SetPersistentOffset(o: int)
      modifies this`lastPersistentOffset
      ensures Value() == Next(old(Value()), SetPersistent(o))
    {
      lastPersistentOffset := o;
    }

    /** SaveOffset; `ok` is the answer of UpdateOffsets, should it be asked. */
    method SaveOffset(persistent: bool, explicit: Option<int>, ok: bool)
      returns (failed: bool, sent: seq<int>, ghost es: seq<Event>)
      modifies this`tempOffset, this`lastPersistentOffset
      ensures es == [if explicit.Some? then SaveAt(explicit.value) else Save] + (if persistent then [Flush(false, ok)] else [])
      ensures Value() == After(old(Value()), es) && sent == Commits(old(Value()), es)
      ensures failed == (sent != [] && !ok)
    {
      if explicit.Some? {
        tempOffset := explicit.value;
      } else {
        tempOffset := offset;
      }
      ghost var save := if explicit.Some? then SaveAt(explicit.value) else Save;
      ghost var start := old(Value());
      es := [save];
      OneEvent(start, save);
      if persistent {
        failed, sent := FlushOffset(false, ok);
        TwoEvents(start, save, Flush(false, ok));
        es := [save, Flush(false, ok)];
      } else {
        failed, sent := false, [];
      }
    }

    /** FlushOffset: `sent` is what UpdateOffsets was called with. */
    method FlushOffset(force: bool, ok: bool) returns (failed: bool, sent: seq<int>)
      modifies this`tempOffset, this`lastPersistentOffset
      ensures Value() == Next(old(Value()), Flush(force, ok)) && sent == Sent(old(Value()), Flush(force, ok))
      ensures failed == (sent != [] && !ok)
    {
      var flushOffset := tempOffset;
      if flushOffset == -1 {
        flushOffset := offset;
      }
      if flushOffset == -1 {
        return false, [];
      }
      if flushOffset != lastPersistentOffset || force {
        if !ok {
          return true, [flushOffset];
        }
        tempOffset := flushOffset;
        lastPersistentOffset := flushOffset;
        return false, [flushOffset];
      }
      return false, [];
    }

    /** FlushCheck: a flush when more than the interval has passed since the last check that flushed. */
    method FlushCheck(now: int, ok: bool) returns (sent: seq<int>)
      modifies this`tempOffset, this`lastPersistentOffset, this`lastCheckTime
      ensures var due := now > old(lastCheckTime) + defaultFlushOffsetInterval;
              && Value() == (if due then Next(old(Value()), Flush(false, ok)) else old(Value()))
              && sent == (if due then Sent(old(Value()), Flush(false, ok)) else [])
              && lastCheckTime == (if due then now else old(lastCheckTime))
    {
      sent := [];
      if now > lastCheckTime + defaultFlushOffsetInterval {
        var failed;
        failed, sent := FlushOffset(false, ok);
        lastCheckTime := now;
      }
    }
  }

  lemma OneEvent(t: Tracker, e: Event)
    ensures After(t, [e]) == Next(t, e) && Commits(t, [e]) == Sent(t, e)
  {
    assert [e][..0] == [];
  }

  lemma TwoEvents(t: Tracker, a: Event, b: Event)
    ensures After(t, [a, b]) == Next(Next(t, a), b) && Commits(t, [a, b]) == Sent(t, a) + Sent(Next(t, a), b)
  {
    assert [a, b][..1] == [a];
    OneEvent(t, a);
  }

  lemma {:induction false} EventsAppend(t: Tracker, a: seq<Event>, b: seq<Event>)
    ensures After(t, a + b) == After(After(t, a), b)
    ensures Commits(t, a + b) == Commits(t, a) + Commits(After(t, a), b)
  {
    hide Next, Sent;
    if b == [] {
      assert a + b == a;
    } else {
      var n := |b| - 1;
      assert (a + b)[..|a| + n] == a + b[..n] && (a + b)[|a| + n] == b[n];
      EventsAppend(t, a, b[..n]);
    }
  }
}
