/** The consumer worker: one partition worker per held partition, reconciled with the heartbeat's lists. */
module ConsumerWorkers {
  import opened Basics
  import opened Heartbeat
  import opened HeartbeatWorkers
  import opened Keys
  import PL = PartitionLoop
  import PW = PartitionWorker
  import Offsets

  function KeysFor(t: Topic, ids: seq<int>): set<string> {
    set id | id in ids :: Key(t, id)
  }

  /** The keys of the listed partitions. */
  function ActiveKeys(list: seq<Assigned>): set<string> {
    if list == [] then {}
    else
      var last := list[|list| - 1];
      ActiveKeys(list[..|list| - 1]) + KeysFor(last.topic, last.ids)
  }

  lemma {:induction false} ActiveKeysAre(list: seq<Assigned>, t: Topic, id: int)
    requires Int64Ids(list) && -TWO63 <= id < TWO63
    ensures Key(t, id) in ActiveKeys(list) <==> id in IdsAt(list, t)
  {
    hide Key;
    if list != [] {
      var n := |list| - 1;
      var last := list[n];
      ActiveKeysAre(list[..n], t, id);
      if x :| x in last.ids && Key(last.topic, x) == Key(t, id) {
        assert last in list;
        KeyInjective(last.topic, x, t, id);
      }
    }
  }

  /** Whether a partition of a topic is taken from the lists when the workers of these keys go. */
  predicate Cleaned(gone: set<string>, t: Topic, id: int) {
    Key(t, id) in gone && ':' !in t
  }

  /** A list without the partitions whose workers went. */
  ghost predicate Without(before: seq<Assigned>, gone: set<string>, after: seq<Assigned>) {
    && Topics(after) == Topics(before)
    && forall t: Topic, id: int :: id in IdsAt(after, t) <==> id in IdsAt(before, t) && !Cleaned(gone, t, id)
  }

  ghost predicate Int64s(ids: seq<int>) {
    forall id <- ids :: -TWO63 <= id < TWO63
  }

  ghost predicate Int64Ids(list: seq<Assigned>) {
    forall a <- list :: Int64s(a.ids)
  }

  // ----- What the cleanup leaves of any list -----

  /** The ids without the first of each whose key is among the gone ones. */
  function DropGone(t: Topic, ids: seq<int>, gone: set<string>): seq<int> {
    if ids == [] then []
    else if Key(t, ids[0]) in gone then DropGone(t, ids[1..], gone - {Key(t, ids[0])})
    else [ids[0]] + DropGone(t, ids[1..], gone)
  }

  /** Only the first entry of a topic is ever looked at, and none of a topic with a colon. */
  function Trim(list: seq<Assigned>, gone: set<string>, seen: set<Topic>): seq<Assigned> {
    if list == [] then []
    else
      var a := list[0];
      var kept := a.topic in seen || ':' in a.topic;
      [if kept then a else Assigned(a.topic, DropGone(a.topic, a.ids, gone))] + Trim(list[1..], gone, seen + {a.topic})
  }

  lemma KeysAre(t: Topic, i: int, u: Topic, j: int)
    requires -TWO63 <= i < TWO63 && -TWO63 <= j < TWO63
    ensures Key(t, i) == Key(u, j) <==> t == u && i == j
  {
    hide Key;
    if Key(t, i) == Key(u, j) {
      KeyInjective(t, i, u, j);
    }
  }

  lemma Int64Tail(ids: seq<int>)
    requires Int64s(ids) && ids != []
    ensures -TWO63 <= ids[0] < TWO63 && Int64s(ids[1..])
  {
    assert ids[0] in ids;
    forall id | id in ids[1..]
      ensures -TWO63 <= id < TWO63
    {
      assert id in ids;
    }
  }

  lemma {:induction false} DropNoneGone(t: Topic, ids: seq<int>)
    ensures DropGone(t, ids, {}) == ids
  {
    hide Key;
    if ids != [] {
      DropNoneGone(t, ids[1..]);
    }
  }

  lemma {:induction false} TrimNone(list: seq<Assigned>, seen: set<Topic>)
    ensures Trim(list, {}, seen) == list
  {
    if list != [] {
      DropNoneGone(list[0].topic, list[0].ids);
      TrimNone(list[1..], seen + {list[0].topic});
    }
  }

  /** The key of a partition of another topic makes no difference. */
  lemma {:induction false} DropOther(t: Topic, ids: seq<int>, gone: set<string>, u: Topic, id: int)
    requires t != u && Int64s(ids) && -TWO63 <= id < TWO63
    ensures DropGone(t, ids, gone + {Key(u, id)}) == DropGone(t, ids, gone)
  {
    hide Key;
    if ids != [] {
      var key := Key(t, ids[0]);
      Int64Tail(ids);
      KeysAre(t, ids[0], u, id);
      if key in gone {
        assert (gone + {Key(u, id)}) - {key} == (gone - {key}) + {Key(u, id)};
        DropOther(t, ids[1..], gone - {key}, u, id);
      } else {
        DropOther(t, ids[1..], gone, u, id);
      }
    }
  }

  lemma {:induction false} DropOneMore(t: Topic, ids: seq<int>, gone: set<string>, id: int)
    requires Int64s(ids) && -TWO63 <= id < TWO63 && Key(t, id) !in gone
    ensures Drop(DropGone(t, ids, gone), id) == DropGone(t, ids, gone + {Key(t, id)})
  {
    hide Key;
    if ids != [] {
      var key := Key(t, ids[0]);
      Int64Tail(ids);
      KeysAre(t, ids[0], t, id);
      if key in gone {
        assert (gone + {Key(t, id)}) - {key} == (gone - {key}) + {Key(t, id)};
        DropOneMore(t, ids[1..], gone - {key}, id);
      } else if ids[0] == id {
        assert (gone + {key}) - {key} == gone;
      } else {
        DropOneMore(t, ids[1..], gone, id);
      }
    }
  }

  /** A key of a topic that is not looked at any more makes no difference. */
  lemma {:induction false} TrimOther(list: seq<Assigned>, gone: set<string>, seen: set<Topic>, t: Topic, id: int)
    requires Int64Ids(list) && -TWO63 <= id < TWO63 && (t in seen || ':' in t)
    ensures Trim(list, gone + {Key(t, id)}, seen) == Trim(list, gone, seen)
  {
    hide Key, DropGone, Int64s;
    if list != [] {
      assert list[0] in list;
      if list[0].topic != t {
        DropOther(list[0].topic, list[0].ids, gone, t, id);
      }
      TrimOther(list[1..], gone, seen + {list[0].topic}, t, id);
    }
  }

  /** One more removal is one more key gone. */
  lemma {:induction false} TrimOne(list: seq<Assigned>, gone: set<string>, seen: set<Topic>, t: Topic, id: int)
    requires Int64Ids(list) && -TWO63 <= id < TWO63 && t !in seen && ':' !in t && Key(t, id) !in gone
    ensures Removed(Trim(list, gone, seen), t, id) == Trim(list, gone + {Key(t, id)}, seen)
  {
    hide Key, DropGone, Int64s;
    if list != [] {
      var a := list[0];
      assert a in list;
      if a.topic == t {
        DropOneMore(t, a.ids, gone, id);
        TrimOther(list[1..], gone, seen + {t}, t, id);
      } else {
        DropOther(a.topic, a.ids, gone, t, id);
        TrimOne(list[1..], gone, seen + {a.topic}, t, id);
      }
    }
  }

  // ----- What it leaves of a list without repetitions -----

  lemma {:induction false} DropGoneIs(t: Topic, ids: seq<int>, gone: set<string>)
    requires DistinctIds(ids) && Int64s(ids)
    ensures DistinctIds(DropGone(t, ids, gone))
    ensures forall id :: id in DropGone(t, ids, gone) <==> id in ids && Key(t, id) !in gone
  {
    hide Key;
    if ids != [] {
      var head, rest := ids[0], ids[1..];
      var key := Key(t, head);
      assert ids == [head] + rest;
      Int64Tail(ids);
      forall id | id in rest
        ensures Key(t, id) != key
      {
        KeysAre(t, id, t, head);
      }
      if key in gone {
        DropGoneIs(t, rest, gone - {key});
      } else {
        DropGoneIs(t, rest, gone);
        DistinctCons(head, DropGone(t, rest, gone));
      }
    }
  }

  lemma {:induction false} TrimIs(list: seq<Assigned>, gone: set<string>, seen: set<Topic>)
    requires Proper(list) && Int64Ids(list) && forall a <- list :: a.topic !in seen
    ensures Proper(Trim(list, gone, seen)) && Without(list, gone, Trim(list, gone, seen))
  {
    hide Key, DropGone, Int64s, DistinctIds, IdsAt, Topics;
    if list == [] {
      NoIds();
    } else {
      var a, rest := list[0], list[1..];
      assert list == [a] + rest && a in list;
      ProperTail(list);
      TrimIs(rest, gone, seen + {a.topic});
      var more := Trim(rest, gone, seen + {a.topic});
      var b := if ':' in a.topic then a else Assigned(a.topic, DropGone(a.topic, a.ids, gone));
      DropGoneIs(a.topic, a.ids, gone);
      ProperCons(b, more, rest);
      Front(a, rest);
      Front(b, more);
      forall t: Topic, id: int
        ensures id in IdsAt([b] + more, t) <==> id in IdsAt(list, t) && !Cleaned(gone, t, id)
      {
        IdsFront(a, rest, t);
        IdsFront(b, more, t);
      }
    }
  }

  lemma NoIds()
    ensures Topics([]) == {} && forall t: Topic :: IdsAt([], t) == {}
  {
  }

  lemma ProperTail(list: seq<Assigned>)
    requires Proper(list) && list != []
    ensures Proper(list[1..]) && DistinctIds(list[0].ids) && forall a <- list[1..] :: a.topic != list[0].topic
  {
    hide DistinctIds;
  }

  lemma ProperCons(b: Assigned, more: seq<Assigned>, rest: seq<Assigned>)
    requires Proper(more) && DistinctIds(b.ids) && Topics(more) == Topics(rest) && forall a <- rest :: a.topic != b.topic
    ensures Proper([b] + more)
  {
    hide DistinctIds;
    forall i | 0 <= i < |more|
      ensures more[i].topic != b.topic
    {
      assert more[i] in more && more[i].topic in Topics(rest);
    }
  }

  /** The keys of all listed partitions, as the cleanup collects them. */
  method CollectKeys(active: seq<PartitionInfo>) returns (keys: set<string>)
    requires Fits(active)
    ensures keys == ActiveKeys(Values(active))
  {
    hide Values, Key;
    keys := {};
    ghost var v, arrays := Values(active), Arrays(active);
    ValuesLength(active);
    forall k | 0 <= k < |active| ensures active[k] in active && v[k] == ValueOf(active[k]) { ValuesAt(active, k); }
    for i := 0 to |active|
      invariant keys == ActiveKeys(v[..i]) && Values(active) == v
      invariant forall k | 0 <= k < |active| :: active[k] in active && v[k] == ValueOf(active[k])
    {
      var p := active[i];
      ghost var before := keys;
      for j := 0 to p.len
        invariant keys == before + KeysFor(p.topic, v[i].ids[..j]) && ValueOf(p) == v[i] && Values(active) == v
        invariant forall k | 0 <= k < |active| :: v[k] == ValueOf(active[k])
      {
        keys := keys + {Key(p.topic, p.arr[j])};
        assert v[i].ids[..j + 1] == v[i].ids[..j] + [p.arr[j]];
        KeysSnoc(p.topic, v[i].ids[..j], p.arr[j]);
      }
      assert v[i].ids[..p.len] == v[i].ids;
      assert v[..i + 1][..i] == v[..i];
    }
    assert v[..|v|] == v;
  }

  lemma KeysSnoc(t: Topic, ids: seq<int>, id: int)
    ensures KeysFor(t, ids + [id]) == KeysFor(t, ids) + {Key(t, id)}
  {
    hide Key;
    assert forall x :: x in ids + [id] <==> x in ids || x == id;
    assert id in ids + [id];
  }

  /** What the close of a worker meets: the answer to the forced flush, and the processor's last saves. */
  datatype Ending = Ending(ok: bool, saves: seq<PL.UserSave>)

  /** All that changes of a worker. */
  datatype Seen = Seen(registers: PL.Loop, tracker: Offsets.Tracker, initialized: bool)

  ghost function See(w: PW.PartitionConsumerWorker): Seen
    reads w, w.tracker
  {
    Seen(w.Registers(), w.tracker.Value(), w.initialized)
  }

  /** A worker after its close: unless it was closed already, the offset is forced out and the last saves are made. */
  function Closed(s: Seen, end: Ending): Seen {
    var events := [Offsets.Flush(true, end.ok)] + PL.SaveEvents(end.saves);
    Seen(s.registers.(shutdown := true, closed := true),
         if s.registers.closed then s.tracker else Offsets.After(s.tracker, events), s.initialized)
  }

  /** Of the workers visited so far the unassigned ones are closed, and those shut down are the gone ones. */
  ghost predicate Swept(was: map<string, Seen>, now: map<string, Seen>, activeKeys: set<string>, todo: set<string>,
                        gone: set<string>, ends: string -> Ending) {
    && now.Keys == was.Keys && todo <= was.Keys && gone <= was.Keys - todo
    && (forall k <- todo :: now[k] == was[k])
    && (forall k <- was.Keys - todo ::
          now[k] == (if k in activeKeys then was[k] else Closed(was[k], ends(k))) &&
          (k in gone <==> now[k].registers.shutdown))
  }

  lemma NoneSwept(was: map<string, Seen>, activeKeys: set<string>, ends: string -> Ending)
    ensures Swept(was, was, activeKeys, was.Keys, {}, ends)
  {
  }

  lemma SweepOne(was: map<string, Seen>, now: map<string, Seen>, activeKeys: set<string>, todo: set<string>,
                 gone: set<string>, key: string, ends: string -> Ending)
    requires Swept(was, now, activeKeys, todo, gone, ends) && key in todo
    ensures key in now && key in was && key !in gone
    ensures var seen := if key in activeKeys then now[key] else Closed(now[key], ends(key));
            Swept(was, now[key := seen], activeKeys, todo - {key},
                  if seen.registers.shutdown then gone + {key} else gone, ends)
  {
    hide Closed;
  }

  /** Deleting the gone ones leaves exactly the assigned workers that were not shut down. */
  lemma AllSwept(was: map<string, Seen>, now: map<string, Seen>, activeKeys: set<string>, gone: set<string>,
                 left: set<string>, removeKeys: seq<string>, ends: string -> Ending)
    requires Swept(was, now, activeKeys, {}, gone, ends) && (forall k :: k in gone <==> k in removeKeys)
    requires forall k :: k in left <==> k in was && k !in removeKeys
    ensures now.Keys == was.Keys && was.Keys - left == gone
    ensures forall k :: k in left <==> k in was && k in activeKeys && !was[k].registers.shutdown
    ensures forall k <- was :: now[k] == if k in activeKeys then was[k] else Closed(was[k], ends(k))
  {
  }

  /** Every worker is filed under the key of its partition and has a tracker of its own. */
  ghost predicate FiledIn(workers: map<string, PW.PartitionConsumerWorker>) {
    forall k <- workers ::
      && k == Key(workers[k].topicID, workers[k].partitionID)
      && -TWO63 <= workers[k].partitionID < TWO63
      && forall j <- workers :: j != k ==> workers[j].tracker != workers[k].tracker
  }

  lemma FewerFiled(all: map<string, PW.PartitionConsumerWorker>, some: map<string, PW.PartitionConsumerWorker>)
    requires FiledIn(all) && forall k <- some :: k in all && some[k] == all[k]
    ensures FiledIn(some)
  {
    hide Key;
  }

  /** Of the workers before and the created ones, which run, exactly the assigned ones that ran before stay. */
  lemma Reconciled(before: map<string, Seen>, all: map<string, Seen>, activeKeys: set<string>, left: set<string>)
    requires all.Keys == before.Keys + activeKeys && forall k <- before :: all[k] == before[k]
    requires forall k <- all :: k !in before ==> !all[k].registers.shutdown
    requires forall k :: k in left <==> k in all && k in activeKeys && !all[k].registers.shutdown
    ensures forall k :: k in left <==> k in activeKeys && !(k in before && before[k].registers.shutdown)
    ensures all.Keys - left == before.Keys - left
  {
  }

  class ConsumerWorker {
    const heartbeat: HeartbeatWorker
    var partitionWorkers: map<string, PW.PartitionConsumerWorker>

    constructor (hb: HeartbeatWorker)
      ensures heartbeat == hb && partitionWorkers == map[]
    {
      heartbeat := hb;
      partitionWorkers := map[];
    }

    ghost predicate Filed()
      reads this
    {
      FiledIn(partitionWorkers)
    }

    ghost function Trackers(): set<Offsets.OffsetTracker>
      reads this
    {
      set w | w in partitionWorkers.Values :: w.tracker
    }

    /** A worker of this time range as its constructor leaves it. */
    static ghost predicate Created(w: PW.PartitionConsumerWorker, start: int, end: int)
      reads w, w.tracker
    {
      && w.startTime == start && w.endTime == end
      && See(w) == Seen(PL.Loop(-1, false, false, false, 0, 0, 0, 0), Offsets.Tracker(-1, -1, -1), false)
    }

    method GetOrCreatePartitionWorker(t: Topic, id: int, start: int, end: int) returns (w: PW.PartitionConsumerWorker)
      requires Filed() && -TWO63 <= id < TWO63
      modifies this`partitionWorkers
      ensures Filed() && Key(t, id) in partitionWorkers && w == partitionWorkers[Key(t, id)]
      ensures if Key(t, id) in old(partitionWorkers) then partitionWorkers == old(partitionWorkers)
              else fresh(w) && fresh(w.tracker) && partitionWorkers == old(partitionWorkers)[Key(t, id) := w]
                   && w.topicID == t && w.partitionID == id && w.startTime == start && w.endTime == end
                   && See(w) == Seen(PL.Loop(-1, false, false, false, 0, 0, 0, 0), Offsets.Tracker(-1, -1, -1), false)
    {
      var key := Key(t, id);
      if key in partitionWorkers {
        return partitionWorkers[key];
      }
      w := new PW.PartitionConsumerWorker(t, id, start, end);
      partitionWorkers := partitionWorkers[key := w];
    }

    /** One worker of the cleanup: closed if unassigned; once closed, its partition leaves the lists. */
    method Visit(key: string, inUse: bool, end: Ending) returns (remove: bool)
      requires Filed() && heartbeat.Valid() && key in partitionWorkers
      modifies partitionWorkers[key], partitionWorkers[key].tracker
      modifies heartbeat`heldPartitions, heartbeat`heartPartitions
      modifies Arrays(heartbeat.heldPartitions), Arrays(heartbeat.heartPartitions)
      ensures heartbeat.Valid()
      ensures Arrays(heartbeat.heldPartitions) == old(Arrays(heartbeat.heldPartitions))
      ensures Arrays(heartbeat.heartPartitions) == old(Arrays(heartbeat.heartPartitions))
      ensures remove == See(partitionWorkers[key]).registers.shutdown
      ensures See(partitionWorkers[key]) ==
              if inUse then old(See(partitionWorkers[key])) else Closed(old(See(partitionWorkers[key])), end)
      ensures var w := partitionWorkers[key];
              var held, heart := old(Values(heartbeat.heldPartitions)), old(Values(heartbeat.heartPartitions));
              if remove && ':' !in w.topicID then
                heartbeat.Shows(Removed(held, w.topicID, w.partitionID), Removed(heart, w.topicID, w.partitionID))
              else heartbeat.Shows(held, heart)
    {
      hide Values, Proper, Kosher, Removed, Key, Atoi, Split, NoShare;
      ghost var a0, a1 := Arrays(heartbeat.heldPartitions), Arrays(heartbeat.heartPartitions);
      ghost var held, heart := Values(heartbeat.heldPartitions), Values(heartbeat.heartPartitions);
      var worker := partitionWorkers[key];
      if !inUse {
        var sent;
        ghost var es;
        sent, es := worker.Close(end.ok, end.saves);
      }
      remove := false;
      if worker.shutdown {
        KeyRoundTrip(worker.topicID, worker.partitionID);
        var parsed := ParseKey(key);
        if parsed.Some? {
          heartbeat.RemoveHeartPartition(parsed.value.0, parsed.value.1);
        }
        remove := true;
      }
    }

    /** The lists after the partitions of some workers left them. */
    ghost predicate Lost(gone: set<string>, held: seq<Assigned>, heart: seq<Assigned>)
      reads heartbeat, Arrays(heartbeat.heldPartitions), Arrays(heartbeat.heartPartitions)
    {
      heartbeat.Valid() && heartbeat.Shows(Trim(held, gone, {}), Trim(heart, gone, {}))
    }

    lemma NothingLost()
      requires heartbeat.Valid()
      ensures Lost({}, Values(heartbeat.heldPartitions), Values(heartbeat.heartPartitions))
    {
      hide Values, Trim;
      TrimNone(Values(heartbeat.heldPartitions), {});
      TrimNone(Values(heartbeat.heartPartitions), {});
    }

    /** What one visit takes from the lists. */
    lemma OneLost(gone: set<string>, held: seq<Assigned>, heart: seq<Assigned>, t: Topic, id: int)
      requires Int64Ids(held) && Int64Ids(heart) && -TWO63 <= id < TWO63 && Key(t, id) !in gone && heartbeat.Valid()
      requires var trimmed, trimmed' := Trim(held, gone, {}), Trim(heart, gone, {});
               if ':' !in t then heartbeat.Shows(Removed(trimmed, t, id), Removed(trimmed', t, id))
               else heartbeat.Shows(trimmed, trimmed')
      ensures Lost(gone + {Key(t, id)}, held, heart)
    {
      hide Values, Removed, Trim, Int64Ids, Key;
      if ':' !in t {
        TrimOne(held, gone, {}, t, id);
        TrimOne(heart, gone, {}, t, id);
      } else {
        TrimOther(held, gone, {}, t, id);
        TrimOther(heart, gone, {}, t, id);
      }
    }

    /** Exactly the partitions of those workers are gone from the lists, and the lists repeat nothing. */
    ghost predicate Cleared(gone: set<string>, held: seq<Assigned>, heart: seq<Assigned>)
      reads heartbeat, Arrays(heartbeat.heldPartitions), Arrays(heartbeat.heartPartitions)
    {
      && heartbeat.Tidy()
      && Without(held, gone, Values(heartbeat.heldPartitions))
      && Without(heart, gone, Values(heartbeat.heartPartitions))
    }

    /** So it is if the lists repeated nothing before. */
    lemma LostIs(gone: set<string>, held: seq<Assigned>, heart: seq<Assigned>)
      requires Lost(gone, held, heart) && Proper(held) && Proper(heart) && Int64Ids(held) && Int64Ids(heart)
      ensures Cleared(gone, held, heart)
    {
      hide Values, Trim, Proper, Without, Int64Ids;
      TrimIs(held, gone, {});
      TrimIs(heart, gone, {});
    }

    /** What the workers look like. */
    ghost function Look(): map<string, Seen>
      reads this, partitionWorkers.Values, Trackers()
    {
      map k | k in partitionWorkers :: See(partitionWorkers[k])
    }

    /** The loop of the cleanup over the workers. */
    method Sweep(activeKeys: set<string>, ends: string -> Ending)
      returns (removeKeys: seq<string>, ghost gone: set<string>)
      requires Filed() && heartbeat.Valid()
      requires Int64Ids(Values(heartbeat.heldPartitions)) && Int64Ids(Values(heartbeat.heartPartitions))
      modifies partitionWorkers.Values, Trackers(), heartbeat`heldPartitions, heartbeat`heartPartitions
      modifies Arrays(heartbeat.heldPartitions), Arrays(heartbeat.heartPartitions)
      ensures forall k :: k in gone <==> k in removeKeys
      ensures Swept(old(Look()), Look(), activeKeys, {}, gone, ends)
      ensures Lost(gone, old(Values(heartbeat.heldPartitions)), old(Values(heartbeat.heartPartitions)))
      ensures old(heartbeat.Tidy()) ==>
                Cleared(gone, old(Values(heartbeat.heldPartitions)), old(Values(heartbeat.heartPartitions)))
    {
      hide Values, Int64Ids, Key, Lost, HeartbeatWorker.Valid, HeartbeatWorker.Shows, Swept, Trim, NoShare;
      hide HeartbeatWorker.Tidy, Proper, Cleared, Look, Filed, Closed, See, Trackers;
      ghost var tidy := heartbeat.Tidy();
      ListsFit();
      if tidy {
        ListsProper();
      }
      ghost var a0, a1 := Arrays(heartbeat.heldPartitions), Arrays(heartbeat.heartPartitions);
      ghost var held0, heart0 := Values(heartbeat.heldPartitions), Values(heartbeat.heartPartitions);
      ghost var trackers, was := Trackers(), Look();
      LookIs();
      removeKeys, gone := [], {};
      var todo := partitionWorkers.Keys;
      NothingLost();
      assert todo == was.Keys;
      NoneSwept(was, activeKeys, ends);
      while todo != {}
        invariant todo <= partitionWorkers.Keys
        invariant Lost(gone, held0, heart0)
        invariant Arrays(heartbeat.heldPartitions) == a0 && Arrays(heartbeat.heartPartitions) == a1
        invariant Swept(was, Look(), activeKeys, todo, gone, ends)
        invariant forall k :: k in gone <==> k in removeKeys
        decreases |todo|
      {
        var key :| key in todo;
        SweepOne(was, Look(), activeKeys, todo, gone, key, ends);
        InReach(key);
        var remove := VisitOne(key, key in activeKeys, ends(key), gone, held0, heart0);
        if remove {
          removeKeys := removeKeys + [key];
          gone := gone + {key};
        }
        todo := todo - {key};
      }
      if tidy {
        LostIs(gone, held0, heart0);
      }
    }

    /** A visit, and what has been lost so far. */
    method VisitOne(key: string, inUse: bool, end: Ending, ghost gone: set<string>,
                    ghost held0: seq<Assigned>, ghost heart0: seq<Assigned>)
      returns (remove: bool)
      requires Filed() && key in partitionWorkers && key !in gone
      requires Lost(gone, held0, heart0) && Int64Ids(held0) && Int64Ids(heart0)
      modifies partitionWorkers[key], partitionWorkers[key].tracker
      modifies heartbeat`heldPartitions, heartbeat`heartPartitions
      modifies Arrays(heartbeat.heldPartitions), Arrays(heartbeat.heartPartitions)
      ensures Arrays(heartbeat.heldPartitions) == old(Arrays(heartbeat.heldPartitions))
      ensures Arrays(heartbeat.heartPartitions) == old(Arrays(heartbeat.heartPartitions))
      ensures var seen := if inUse then old(Look())[key] else Closed(old(Look())[key], end);
              Look() == old(Look())[key := seen] && remove == seen.registers.shutdown
      ensures Lost(if remove then gone + {key} else gone, held0, heart0)
    {
      hide Values, Removed, Int64Ids, Key, Trim, NoShare, Filed, Look, See, Closed, HeartbeatWorker.Shows;
      hide HeartbeatWorker.Valid;
      ghost var was := Look();
      LookIs();
      Apart(key);
      LostValid(gone, held0, heart0);
      remove := Visit(key, inUse, end);
      LookNow(was, key, if inUse then was[key] else Closed(was[key], end));
      if remove {
        OneLost(gone, held0, heart0, partitionWorkers[key].topicID, partitionWorkers[key].partitionID);
      }
    }

    lemma LostValid(gone: set<string>, held: seq<Assigned>, heart: seq<Assigned>)
      requires Lost(gone, held, heart)
      ensures heartbeat.Valid()
      ensures Values(heartbeat.heldPartitions) == Trim(held, gone, {})
      ensures Values(heartbeat.heartPartitions) == Trim(heart, gone, {})
    {
      hide Values, Trim;
    }

    lemma InReach(key: string)
      requires key in partitionWorkers
      ensures partitionWorkers[key] in partitionWorkers.Values && partitionWorkers[key].tracker in Trackers()
    {
    }

    /** No other worker shares anything with this one. */
    lemma Apart(key: string)
      requires Filed() && key in partitionWorkers
      ensures key == Key(partitionWorkers[key].topicID, partitionWorkers[key].partitionID)
      ensures -TWO63 <= partitionWorkers[key].partitionID < TWO63
      ensures forall k <- partitionWorkers :: k != key ==>
                partitionWorkers[k] != partitionWorkers[key] && partitionWorkers[k].tracker != partitionWorkers[key].tracker
    {
      hide Key;
    }

    lemma LookNow(was: map<string, Seen>, key: string, seen: Seen)
      requires was.Keys == partitionWorkers.Keys && key in was && See(partitionWorkers[key]) == seen
      requires forall k <- partitionWorkers :: k != key ==> See(partitionWorkers[k]) == was[k]
      ensures Look() == was[key := seen]
    {
      hide See;
    }

    /** The keys in use, and the loop. */
    method CloseUnused(active: seq<PartitionInfo>, ends: string -> Ending)
      returns (removeKeys: seq<string>, ghost gone: set<string>)
      requires Filed() && heartbeat.Valid() && Fits(active)
      requires Int64Ids(Values(heartbeat.heldPartitions)) && Int64Ids(Values(heartbeat.heartPartitions))
      modifies partitionWorkers.Values, Trackers(), heartbeat`heldPartitions, heartbeat`heartPartitions
      modifies Arrays(heartbeat.heldPartitions), Arrays(heartbeat.heartPartitions)
      ensures forall k :: k in gone <==> k in removeKeys
      ensures Swept(old(Look()), Look(), ActiveKeys(old(Values(active))), {}, gone, ends)
      ensures Lost(gone, old(Values(heartbeat.heldPartitions)), old(Values(heartbeat.heartPartitions)))
      ensures old(heartbeat.Tidy()) ==>
                Cleared(gone, old(Values(heartbeat.heldPartitions)), old(Values(heartbeat.heartPartitions)))
    {
      hide Values, Int64Ids, ActiveKeys, Lost, NoShare, Swept, Topics, Cleared, Trackers, Proper;
      ListsFit();
      ghost var a0, a1, a2 := Arrays(heartbeat.heldPartitions), Arrays(heartbeat.heartPartitions), Arrays(active);
      ghost var held, heart, was := Values(heartbeat.heldPartitions), Values(heartbeat.heartPartitions), Look();
      var activeKeys := CollectKeys(active);
      assert Values(heartbeat.heldPartitions) == held && Values(heartbeat.heartPartitions) == heart;
      assert Look() == was;
      removeKeys, gone := Sweep(activeKeys, ends);
    }

    /**
      * cleanupUnusedPartitionWorkers: exactly the assigned workers that are not shut down stay. The others are
      * shut down and gone, and of each of their partitions whose topic has no colon the first mention in the
      * first entry of its topic is gone from both lists: all of it, if the lists repeat nothing.
      */
    method CleanupUnusedPartitionWorkers(active: seq<PartitionInfo>, ends: string -> Ending)
      requires Filed() && heartbeat.Valid() && Fits(active)
      requires Int64Ids(Values(heartbeat.heldPartitions)) && Int64Ids(Values(heartbeat.heartPartitions))
      modifies this`partitionWorkers, partitionWorkers.Values, Trackers()
      modifies heartbeat`heldPartitions, heartbeat`heartPartitions
      modifies Arrays(heartbeat.heldPartitions), Arrays(heartbeat.heartPartitions)
      ensures Filed()
      ensures forall k :: k in partitionWorkers <==>
                k in old(partitionWorkers) && k in ActiveKeys(old(Values(active))) && !old(partitionWorkers[k].shutdown)
      ensures forall k <- partitionWorkers :: partitionWorkers[k] == old(partitionWorkers)[k] && !partitionWorkers[k].shutdown
      ensures forall k <- old(partitionWorkers) :: k !in partitionWorkers ==> old(partitionWorkers)[k].shutdown
      ensures forall k <- old(partitionWorkers) :: k in ActiveKeys(old(Values(active))) ==>
                See(old(partitionWorkers)[k]) == old(See(partitionWorkers[k]))
      ensures forall k <- old(partitionWorkers) :: k !in ActiveKeys(old(Values(active))) ==>
                var w := old(partitionWorkers)[k];
                && w.initialized == old(w.initialized)
                && w.Registers() == old(w.Registers()).(shutdown := true, closed := true)
                && w.tracker.Value() ==
                   if old(w.closed) then old(w.tracker.Value())
                   else Offsets.After(old(w.tracker.Value()),
                                      [Offsets.Flush(true, ends(k).ok)] + PL.SaveEvents(ends(k).saves))
      ensures Lost(old(partitionWorkers).Keys - partitionWorkers.Keys,
                   old(Values(heartbeat.heldPartitions)), old(Values(heartbeat.heartPartitions)))
      ensures old(heartbeat.Tidy()) ==>
                Cleared(old(partitionWorkers).Keys - partitionWorkers.Keys,
                        old(Values(heartbeat.heldPartitions)), old(Values(heartbeat.heartPartitions)))
    {
      hide Values, Int64Ids, ActiveKeys, Lost, Cleared, HeartbeatWorker.Valid, HeartbeatWorker.Tidy, Filed, Trackers;
      hide Look, See, Closed, Offsets.After, PL.SaveEvents;
      ghost var was, look := partitionWorkers, Look();
      ghost var activeKeys := ActiveKeys(Values(active));
      LookIs();
      LookShows();
      Clean(active, ends);
      forall k | k in was && k !in activeKeys
        ensures ClosedAs(was[k], look[k], ends(k)) && was[k].shutdown
      {
        CloseShows(was[k], look[k], ends(k));
      }
      forall k | k in was
        ensures See(was[k]).registers.shutdown == was[k].shutdown
      {
        SeeShows(was[k]);
      }
    }

    /** The two loops of the cleanup. */
    method Clean(active: seq<PartitionInfo>, ends: string -> Ending)
      requires Filed() && heartbeat.Valid() && Fits(active)
      requires Int64Ids(Values(heartbeat.heldPartitions)) && Int64Ids(Values(heartbeat.heartPartitions))
      modifies this`partitionWorkers, partitionWorkers.Values, Trackers()
      modifies heartbeat`heldPartitions, heartbeat`heartPartitions
      modifies Arrays(heartbeat.heldPartitions), Arrays(heartbeat.heartPartitions)
      ensures Filed()
      ensures old(Look()).Keys == old(partitionWorkers).Keys
      ensures forall k :: k in partitionWorkers <==>
                k in old(Look()) && k in ActiveKeys(old(Values(active))) && !old(Look())[k].registers.shutdown
      ensures forall k <- partitionWorkers :: k in old(partitionWorkers) && partitionWorkers[k] == old(partitionWorkers)[k]
      ensures forall k <- old(partitionWorkers) :: See(old(partitionWorkers)[k]) ==
                if k in ActiveKeys(old(Values(active))) then old(Look())[k] else Closed(old(Look())[k], ends(k))
      ensures Lost(old(partitionWorkers).Keys - partitionWorkers.Keys,
                   old(Values(heartbeat.heldPartitions)), old(Values(heartbeat.heartPartitions)))
      ensures old(heartbeat.Tidy()) ==>
                Cleared(old(partitionWorkers).Keys - partitionWorkers.Keys,
                        old(Values(heartbeat.heldPartitions)), old(Values(heartbeat.heartPartitions)))
    {
      hide Values, Int64Ids, ActiveKeys, Lost, NoShare, Swept, Topics, HeartbeatWorker.Tidy, Cleared, Trackers;
      hide Look, HeartbeatWorker.Valid, FiledIn, See, Closed;
      ListsFit();
      LookIs();
      ghost var held, heart, tidy := Values(heartbeat.heldPartitions), Values(heartbeat.heartPartitions), heartbeat.Tidy();
      ghost var workers, was := partitionWorkers, Look();
      ghost var activeKeys := ActiveKeys(Values(active));
      var removeKeys;
      ghost var gone;
      removeKeys, gone := CloseUnused(active, ends);
      ghost var now := Look();
      LookIs();
      DeleteAll(removeKeys, gone, held, heart, tidy);
      AllSwept(was, now, activeKeys, gone, partitionWorkers.Keys, removeKeys, ends);
      FewerFiled(workers, partitionWorkers);
    }

    static lemma SeeShows(w: PW.PartitionConsumerWorker)
      ensures var s := See(w);
              && s.registers == w.Registers() && s.tracker == w.tracker.Value() && s.initialized == w.initialized
              && s.registers.shutdown == w.shutdown && s.registers.closed == w.closed
    {
    }

    lemma LookShows()
      ensures forall k <- partitionWorkers ::
                && See(partitionWorkers[k]).registers == partitionWorkers[k].Registers()
                && See(partitionWorkers[k]).tracker == partitionWorkers[k].tracker.Value()
                && See(partitionWorkers[k]).initialized == partitionWorkers[k].initialized
                && See(partitionWorkers[k]).registers.shutdown == partitionWorkers[k].shutdown
                && See(partitionWorkers[k]).registers.closed == partitionWorkers[k].closed
    {
    }

    /** The worker looks as it looked before but for being closed. */
    static ghost predicate ClosedAs(w: PW.PartitionConsumerWorker, before: Seen, end: Ending)
      reads w, w.tracker
    {
      && w.initialized == before.initialized
      && w.Registers() == before.registers.(shutdown := true, closed := true)
      && w.tracker.Value() ==
         if before.registers.closed then before.tracker
         else Offsets.After(before.tracker, [Offsets.Flush(true, end.ok)] + PL.SaveEvents(end.saves))
    }

    static lemma CloseShows(w: PW.PartitionConsumerWorker, before: Seen, end: Ending)
      requires See(w) == Closed(before, end)
      ensures ClosedAs(w, before, end) && w.shutdown
    {
      hide Offsets.After, PL.SaveEvents;
      SeeShows(w);
    }

    lemma LookIs()
      ensures Look().Keys == partitionWorkers.Keys
      ensures forall k <- partitionWorkers :: Look()[k] == See(partitionWorkers[k])
    {
    }

    lemma ListsFit()
      requires heartbeat.Valid()
      ensures Fits(heartbeat.heldPartitions) && Fits(heartbeat.heartPartitions)
    {
    }

    lemma ListsProper()
      requires heartbeat.Tidy()
      ensures heartbeat.Valid() && Proper(Values(heartbeat.heldPartitions)) && Proper(Values(heartbeat.heartPartitions))
    {
      hide Values, Proper;
    }

    /** The last loop, which leaves the lists as they are. */
    method DeleteAll(removeKeys: seq<string>, ghost gone: set<string>, ghost held: seq<Assigned>,
                     ghost heart: seq<Assigned>, ghost tidy: bool)
      requires Lost(gone, held, heart) && (tidy ==> Cleared(gone, held, heart))
      modifies this`partitionWorkers
      ensures forall k :: k in partitionWorkers <==> k in old(partitionWorkers) && k !in removeKeys
      ensures forall k <- partitionWorkers :: partitionWorkers[k] == old(partitionWorkers)[k]
      ensures Lost(gone, held, heart) && (tidy ==> Cleared(gone, held, heart))
    {
      hide Lost, Cleared;
      ghost var a0, a1 := Arrays(heartbeat.heldPartitions), Arrays(heartbeat.heartPartitions);
      for i := 0 to |removeKeys|
        invariant forall k :: k in partitionWorkers <==> k in old(partitionWorkers) && k !in removeKeys[..i]
        invariant forall k <- partitionWorkers :: partitionWorkers[k] == old(partitionWorkers)[k]
      {
        partitionWorkers := partitionWorkers - {removeKeys[i]};
        assert removeKeys[..i + 1] == removeKeys[..i] + [removeKeys[i]];
      }
      assert removeKeys[..|removeKeys|] == removeKeys;
    }

    /** The workers for the partitions of one topic. */
    method CreateForTopic(p: PartitionInfo, start: int, end: int)
      requires Filed() && p.len <= p.arr.Length && forall id <- p.arr[..p.len] :: -TWO63 <= id < TWO63
      modifies this`partitionWorkers
      ensures Filed() && partitionWorkers.Keys == old(partitionWorkers.Keys) + KeysFor(p.topic, p.arr[..p.len])
      ensures forall k <- old(partitionWorkers) :: k in partitionWorkers && partitionWorkers[k] == old(partitionWorkers)[k]
      ensures forall k <- partitionWorkers :: k !in old(partitionWorkers) ==>
                && fresh(partitionWorkers[k]) && fresh(partitionWorkers[k].tracker)
                && Created(partitionWorkers[k], start, end)
    {
      hide Key, Filed;
      ghost var was, ids := partitionWorkers, p.arr[..p.len];
      assert forall id <- ids :: -TWO63 <= id < TWO63;
      for j := 0 to p.len
        invariant Filed() && partitionWorkers.Keys == was.Keys + KeysFor(p.topic, ids[..j]) && p.arr[..p.len] == ids
        invariant forall k <- was :: k in partitionWorkers && partitionWorkers[k] == was[k]
        invariant forall k <- partitionWorkers :: k !in was ==>
                    && fresh(partitionWorkers[k]) && fresh(partitionWorkers[k].tracker)
                    && Created(partitionWorkers[k], start, end)
      {
        assert ids[j] == p.arr[j] && ids[..j + 1] == ids[..j] + [ids[j]];
        assert ids[j] in ids;
        var w := GetOrCreatePartitionWorker(p.topic, p.arr[j], start, end);
        KeysSnoc(p.topic, ids[..j], ids[j]);
      }
      assert ids[..p.len] == ids;
    }

    /** The workers for the partitions of one cycle; those for partitions new to it are created. */
    method CreateWorkers(active: seq<PartitionInfo>, start: int, end: int)
      requires Filed() && Fits(active) && Int64Ids(Values(active))
      modifies this`partitionWorkers
      ensures Filed()
      ensures partitionWorkers.Keys == old(partitionWorkers.Keys) + ActiveKeys(Values(active))
      ensures forall k <- old(partitionWorkers) :: partitionWorkers[k] == old(partitionWorkers)[k]
      ensures forall k <- partitionWorkers :: k !in old(partitionWorkers) ==>
                && fresh(partitionWorkers[k]) && fresh(partitionWorkers[k].tracker)
                && Created(partitionWorkers[k], start, end)
    {
      hide Values, Key, Int64Ids, Filed, KeysFor;
      ghost var v, arrays := Values(active), Arrays(active);
      ghost var was := partitionWorkers;
      ValuesLength(active);
      forall k | 0 <= k < |active| ensures active[k] in active && v[k] == ValueOf(active[k]) { ValuesAt(active, k); }
      for i := 0 to |active|
        invariant Filed() && partitionWorkers.Keys == was.Keys + ActiveKeys(v[..i]) && Values(active) == v
        invariant forall k <- was :: k in partitionWorkers && partitionWorkers[k] == was[k]
        invariant forall k <- partitionWorkers :: k !in was ==>
                    && fresh(partitionWorkers[k]) && fresh(partitionWorkers[k].tracker)
                    && Created(partitionWorkers[k], start, end)
        invariant forall k | 0 <= k < |active| :: active[k] in active && v[k] == ValueOf(active[k])
      {
        var p := active[i];
        IdsInRange(v, i);
        CreateForTopic(p, start, end);
        assert v[..i + 1][..i] == v[..i];
      }
      assert v[..|v|] == v;
    }

    /**
      * The create-then-cleanup part of run: afterwards there is a worker for exactly the assigned partitions,
      * except those whose worker was shut down before.
      */
    method Reconcile(active: seq<PartitionInfo>, start: int, end: int, ends: string -> Ending)
      requires Filed() && heartbeat.Valid() && Fits(active) && Int64Ids(Values(active))
      requires Int64Ids(Values(heartbeat.heldPartitions)) && Int64Ids(Values(heartbeat.heartPartitions))
      modifies this`partitionWorkers, partitionWorkers.Values, Trackers()
      modifies heartbeat`heldPartitions, heartbeat`heartPartitions
      modifies Arrays(heartbeat.heldPartitions), Arrays(heartbeat.heartPartitions)
      ensures Filed()
      ensures forall k :: k in partitionWorkers <==>
                k in ActiveKeys(old(Values(active))) &&
                !(k in old(partitionWorkers) && old(partitionWorkers[k].shutdown))
      ensures forall k <- partitionWorkers :: !partitionWorkers[k].shutdown
      ensures forall k <- partitionWorkers ::
                if k in old(partitionWorkers) then
                  partitionWorkers[k] == old(partitionWorkers)[k] && See(partitionWorkers[k]) == old(See(partitionWorkers[k]))
                else fresh(partitionWorkers[k]) && Created(partitionWorkers[k], start, end)
      ensures forall k <- old(partitionWorkers) :: k !in ActiveKeys(old(Values(active))) ==>
                ClosedAs(old(partitionWorkers)[k], old(See(partitionWorkers[k])), ends(k))
      ensures Lost(old(partitionWorkers).Keys - partitionWorkers.Keys,
                   old(Values(heartbeat.heldPartitions)), old(Values(heartbeat.heartPartitions)))
      ensures old(heartbeat.Tidy()) ==>
                Cleared(old(partitionWorkers).Keys - partitionWorkers.Keys,
                        old(Values(heartbeat.heldPartitions)), old(Values(heartbeat.heartPartitions)))
    {
      hide Values, Key, Int64Ids, ActiveKeys, Lost, Cleared, HeartbeatWorker.Valid, HeartbeatWorker.Tidy, Filed, Trim, Without;
      hide Look, See, Closed, ClosedAs;
      ListsFit();
      ghost var a0, a1, a2 := Arrays(heartbeat.heldPartitions), Arrays(heartbeat.heartPartitions), Arrays(active);
      ghost var v, held, heart := Values(active), Values(heartbeat.heldPartitions), Values(heartbeat.heartPartitions);
      ghost var activeKeys := ActiveKeys(v);
      ghost var was, look := partitionWorkers, Look();
      LookIs();
      LookShows();
      CreateWorkers(active, start, end);
      assert forall k <- was :: See(was[k]) == look[k];
      assert Values(heartbeat.heldPartitions) == held && Values(heartbeat.heartPartitions) == heart;
      ghost var all, looks := partitionWorkers, Look();
      LookIs();
      Clean(active, ends);
      Reconciled(look, looks, activeKeys, partitionWorkers.Keys);
      forall k | k in partitionWorkers
        ensures See(partitionWorkers[k]).registers.shutdown == partitionWorkers[k].shutdown
      {
        SeeShows(partitionWorkers[k]);
      }
      forall k | k in was && k !in activeKeys
        ensures ClosedAs(was[k], look[k], ends(k))
      {
        CloseShows(was[k], look[k], ends(k));
      }
    }
  }

  lemma IdsInRange(v: seq<Assigned>, i: nat)
    requires Int64Ids(v) && i < |v|
    ensures Int64s(v[i].ids)
  {
    assert v[i] in v;
  }
}
