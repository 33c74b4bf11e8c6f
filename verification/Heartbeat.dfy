/**
  * The partition lists of the heartbeat worker. Partition ids live in arrays that slices share, as in Go:
  * a removal shifts the ids of one slice in place, so no two slices in use may share an array.
  */
module Heartbeat {
  type Topic = string

  // ----- Lists as values -----

  datatype Assigned = Assigned(topic: Topic, ids: seq<int>)

  function IdSet(ids: seq<int>): set<int> {
    set id | id in ids
  }

  function Topics(list: seq<Assigned>): set<Topic> {
    set a | a in list :: a.topic
  }

  /** All ids listed for a topic. */
  function IdsAt(list: seq<Assigned>, t: Topic): set<int> {
    if list == [] then {}
    else
      var last := list[|list| - 1];
      IdsAt(list[..|list| - 1], t) + (if last.topic == t then IdSet(last.ids) else {})
  }

  /** The ids of the first entry for a topic. */
  function FirstSeq(list: seq<Assigned>, t: Topic): seq<int> {
    if list == [] then [] else if list[0].topic == t then list[0].ids else FirstSeq(list[1..], t)
  }

  ghost predicate DistinctIds(ids: seq<int>) {
    forall i, j | 0 <= i < j < |ids| :: ids[i] != ids[j]
  }

  /** No topic twice. */
  ghost predicate DistinctEntries(list: seq<Assigned>) {
    forall i, j | 0 <= i < j < |list| :: list[i].topic != list[j].topic
  }

  /** No topic twice, no id twice in a topic. */
  ghost predicate Proper(list: seq<Assigned>) {
    DistinctEntries(list) && forall a <- list :: DistinctIds(a.ids)
  }

  /** Every topic and id of `a` is in `b`. */
  ghost predicate Within(a: seq<Assigned>, b: seq<Assigned>) {
    Topics(a) <= Topics(b) && forall t: Topic :: IdsAt(a, t) <= IdsAt(b, t)
  }

  // ----- addPartitions on lists -----

  /** The entries whose topic is not among `others`. */
  function Only(list: seq<Assigned>, others: set<Topic>): seq<Assigned> {
    if list == [] then []
    else
      var last := list[|list| - 1];
      Only(list[..|list| - 1], others) + (if last.topic in others then [] else [last])
  }

  /**
    * The entries of `a` for topics of `b`: each with its own ids and those of the first entry of `b` for its
    * topic, every id once, in any order.
    */
  ghost predicate Common(a: seq<Assigned>, b: seq<Assigned>, common: seq<Assigned>) {
    if a == [] then common == []
    else
      var last := a[|a| - 1];
      var before := a[..|a| - 1];
      if last.topic in Topics(b) then
        && common != []
        && Merges(last, FirstSeq(b, last.topic), common[|common| - 1])
        && Common(before, b, common[..|common| - 1])
      else Common(before, b, common)
  }

  ghost predicate Merges(a: Assigned, more: seq<int>, r: Assigned) {
    r.topic == a.topic && DistinctIds(r.ids) && IdSet(r.ids) == IdSet(a.ids) + IdSet(more)
  }

  /** What addPartitions makes of any two lists: the common entries, then those of only one list, unchanged. */
  ghost predicate Added(a: seq<Assigned>, b: seq<Assigned>, r: seq<Assigned>) {
    exists common :: Common(a, b, common) && r == common + Only(a, Topics(b)) + Only(b, Topics(a))
  }

  // ----- Removal on lists -----

  function Drop(ids: seq<int>, id: int): seq<int> {
    if ids == [] then [] else if ids[0] == id then ids[1..] else [ids[0]] + Drop(ids[1..], id)
  }

  /** Takes the first `id` out of the first entry for the topic. */
  function Removed(list: seq<Assigned>, t: Topic, id: int): seq<Assigned> {
    if list == [] then []
    else if list[0].topic == t then [Assigned(t, Drop(list[0].ids, id))] + list[1..]
    else [list[0]] + Removed(list[1..], t, id)
  }

  // ----- Facts about lists -----

  lemma Snoc(list: seq<Assigned>, a: Assigned)
    ensures Topics(list + [a]) == Topics(list) + {a.topic}
    ensures forall t :: IdsAt(list + [a], t) == IdsAt(list, t) + (if a.topic == t then IdSet(a.ids) else {})
  {
    assert (list + [a])[..|list|] == list;
    assert a in list + [a];
    assert forall x :: x in list + [a] <==> x in list || x == a;
  }

  lemma {:induction false} NotListed(list: seq<Assigned>, t: Topic)
    requires forall a <- list :: a.topic != t
    ensures IdsAt(list, t) == {} && t !in Topics(list)
  {
    if list != [] {
      NotListed(list[..|list| - 1], t);
    }
  }

  lemma IdSetCons(x: int, rest: seq<int>)
    ensures IdSet([x] + rest) == {x} + IdSet(rest)
  {
  }

  lemma DistinctTail(ids: seq<int>)
    requires DistinctIds(ids) && ids != []
    ensures DistinctIds(ids[1..]) && ids[0] !in ids[1..]
  {
  }

  lemma DistinctCons(x: int, rest: seq<int>)
    requires DistinctIds(rest) && x !in rest
    ensures DistinctIds([x] + rest)
  {
  }

  lemma {:induction false} DropIs(ids: seq<int>, id: int)
    requires DistinctIds(ids)
    ensures DistinctIds(Drop(ids, id)) && IdSet(Drop(ids, id)) == IdSet(ids) - {id}
  {
    hide DistinctIds;
    if ids == [] {
      assert Drop(ids, id) == ids;
    } else {
      var rest := ids[1..];
      assert ids == [ids[0]] + rest;
      DistinctTail(ids);
      IdSetCons(ids[0], rest);
      DropIs(rest, id);
      if ids[0] != id {
        IdSetCons(ids[0], Drop(rest, id));
        assert ids[0] !in IdSet(Drop(rest, id));
        DistinctCons(ids[0], Drop(rest, id));
      }
    }
  }

  /** IdsAt from the front. */
  lemma {:induction false} IdsFront(a: Assigned, list: seq<Assigned>, t: Topic)
    ensures IdsAt([a] + list, t) == (if a.topic == t then IdSet(a.ids) else {}) + IdsAt(list, t)
  {
    if list == [] {
      assert [a] + list == [a] && [a][..0] == [];
    } else {
      var n := |list| - 1;
      assert ([a] + list)[..n + 1] == [a] + list[..n] && ([a] + list)[n + 1] == list[n];
      IdsFront(a, list[..n], t);
    }
  }

  /** A removal takes one id from one topic and nothing else. */
  lemma {:induction false} RemovedIs(list: seq<Assigned>, t: Topic, id: int)
    requires Proper(list)
    ensures var r := Removed(list, t, id);
            && |r| == |list| && (forall i | 0 <= i < |r| :: r[i].topic == list[i].topic)
            && (forall a <- r :: DistinctIds(a.ids))
            && forall u :: IdsAt(r, u) == if u == t then IdsAt(list, u) - {id} else IdsAt(list, u)
  {
    if list != [] {
      var head, rest := list[0], list[1..];
      assert list == [head] + rest;
      forall u ensures IdsAt(list, u) == (if head.topic == u then IdSet(head.ids) else {}) + IdsAt(rest, u) {
        IdsFront(head, rest, u);
      }
      if head.topic == t {
        DropIs(head.ids, id);
        var changed := Assigned(t, Drop(head.ids, id));
        forall u ensures IdsAt([changed] + rest, u) == (if t == u then IdSet(changed.ids) else {}) + IdsAt(rest, u) {
          IdsFront(changed, rest, u);
        }
        NotListed(rest, t);
      } else {
        RemovedIs(rest, t, id);
        var r := Removed(rest, t, id);
        forall u ensures IdsAt([head] + r, u) == (if head.topic == u then IdSet(head.ids) else {}) + IdsAt(r, u) {
          IdsFront(head, r, u);
        }
      }
    }
  }

  lemma SameTopics(a: seq<Assigned>, b: seq<Assigned>)
    requires |a| == |b| && forall i | 0 <= i < |a| :: a[i].topic == b[i].topic
    ensures Topics(a) == Topics(b)
  {
    forall t | t in Topics(a)
      ensures t in Topics(b)
    {
      var x :| x in a && x.topic == t;
      var i :| 0 <= i < |a| && a[i] == x;
      assert b[i] in b;
    }
    forall t | t in Topics(b)
      ensures t in Topics(a)
    {
      var x :| x in b && x.topic == t;
      var i :| 0 <= i < |b| && b[i] == x;
      assert a[i] in a;
    }
  }

  lemma RemovedProper(list: seq<Assigned>, t: Topic, id: int)
    requires Proper(list)
    ensures Proper(Removed(list, t, id)) && Topics(Removed(list, t, id)) == Topics(list)
  {
    RemovedIs(list, t, id);
    SameTopics(list, Removed(list, t, id));
  }

  // ----- What addPartitions does to topics and ids -----

  lemma {:induction false} Concat(a: seq<Assigned>, b: seq<Assigned>, t: Topic)
    ensures IdsAt(a + b, t) == IdsAt(a, t) + IdsAt(b, t)
    ensures t in Topics(a + b) <==> t in Topics(a) || t in Topics(b)
  {
    if b == [] {
      assert a + b == a;
    } else {
      var n := |b| - 1;
      assert a + b == (a + b[..n]) + [b[n]] && b == b[..n] + [b[n]];
      Snoc(a + b[..n], b[n]);
      Snoc(b[..n], b[n]);
      Concat(a, b[..n], t);
    }
  }

  lemma {:induction false} OnlyIs(list: seq<Assigned>, others: set<Topic>, t: Topic)
    ensures IdsAt(Only(list, others), t) == if t in others then {} else IdsAt(list, t)
    ensures t in Topics(Only(list, others)) <==> t in Topics(list) && t !in others
    ensures forall x <- Only(list, others) :: x in list && x.topic !in others
  {
    if list != [] {
      var n := |list| - 1;
      assert list == list[..n] + [list[n]];
      Snoc(list[..n], list[n]);
      Snoc(Only(list[..n], others), list[n]);
      OnlyIs(list[..n], others, t);
      assert Only(list[..n], others) + [] == Only(list[..n], others);
    }
  }

  lemma {:induction false} CommonIs(a: seq<Assigned>, b: seq<Assigned>, common: seq<Assigned>, t: Topic)
    requires Common(a, b, common)
    ensures IdsAt(common, t) ==
            if t in Topics(a) && t in Topics(b) then IdsAt(a, t) + IdSet(FirstSeq(b, t)) else {}
    ensures t in Topics(common) <==> t in Topics(a) && t in Topics(b)
    ensures forall x <- common :: DistinctIds(x.ids)
    decreases |a|
  {
    hide FirstSeq, DistinctIds;
    if a != [] {
      var n := |a| - 1;
      var last := a[n];
      assert a == a[..n] + [last];
      Snoc(a[..n], last);
      if last.topic in Topics(b) {
        var m := |common| - 1;
        assert common == common[..m] + [common[m]];
        Snoc(common[..m], common[m]);
        CommonIs(a[..n], b, common[..m], t);
        NotListedAt(a[..n], t);
      } else {
        CommonIs(a[..n], b, common, t);
      }
    }
  }

  lemma NotListedAt(list: seq<Assigned>, t: Topic)
    ensures t !in Topics(list) ==> IdsAt(list, t) == {} && FirstSeq(list, t) == []
  {
    if t !in Topics(list) {
      forall x | x in list
        ensures x.topic != t
      {
        assert x.topic in Topics(list);
      }
      NotListed(list, t);
      FirstNotListed(list, t);
    }
  }

  lemma {:induction false} FirstNotListed(list: seq<Assigned>, t: Topic)
    requires forall a <- list :: a.topic != t
    ensures FirstSeq(list, t) == []
  {
    if list != [] {
      FirstNotListed(list[1..], t);
    }
  }

  /** The union, except that of a repeated topic of `b` only the first entry is merged into one of `a`. */
  lemma AddedIs(a: seq<Assigned>, b: seq<Assigned>, r: seq<Assigned>)
    requires Added(a, b, r)
    ensures Topics(r) == Topics(a) + Topics(b)
    ensures forall t: Topic :: IdsAt(r, t) ==
              IdsAt(a, t) + (if t in Topics(a) && t in Topics(b) then IdSet(FirstSeq(b, t)) else IdsAt(b, t))
  {
    hide IdsAt, Topics, Only, Common, FirstSeq;
    var common :| Common(a, b, common) && r == common + Only(a, Topics(b)) + Only(b, Topics(a));
    forall t: Topic
      ensures t in Topics(r) <==> t in Topics(a) || t in Topics(b)
      ensures IdsAt(r, t) ==
              IdsAt(a, t) + (if t in Topics(a) && t in Topics(b) then IdSet(FirstSeq(b, t)) else IdsAt(b, t))
    {
      CommonIs(a, b, common, t);
      OnlyIs(a, Topics(b), t);
      OnlyIs(b, Topics(a), t);
      Concat(common, Only(a, Topics(b)), t);
      Concat(common + Only(a, Topics(b)), Only(b, Topics(a)), t);
      NotListedAt(a, t);
      NotListedAt(b, t);
    }
  }

  /** IdsAt and FirstSeq from the front. */
  lemma {:induction false} EntriesFirst(list: seq<Assigned>, t: Topic)
    requires DistinctEntries(list)
    ensures IdsAt(list, t) == IdSet(FirstSeq(list, t))
  {
    if list != [] {
      assert list == [list[0]] + list[1..];
      IdsFront(list[0], list[1..], t);
      assert DistinctEntries(list[1..]);
      if list[0].topic == t {
        NotListed(list[1..], t);
      } else {
        EntriesFirst(list[1..], t);
      }
    }
  }

  // ----- Distinct topics stay distinct -----

  lemma EntriesConcat(a: seq<Assigned>, b: seq<Assigned>)
    requires DistinctEntries(a) && DistinctEntries(b) && Topics(a) !! Topics(b)
    ensures DistinctEntries(a + b)
  {
    forall i, j | 0 <= i < |a| && 0 <= j < |b|
      ensures a[i].topic != b[j].topic
    {
      assert a[i].topic in Topics(a) && b[j].topic in Topics(b);
    }
  }

  lemma {:induction false} OnlyEntries(list: seq<Assigned>, others: set<Topic>)
    requires DistinctEntries(list)
    ensures DistinctEntries(Only(list, others))
  {
    if list != [] {
      var n := |list| - 1;
      OnlyEntries(list[..n], others);
      OnlyIs(list[..n], others, list[n].topic);
      LastIsNew(list);
      if list[n].topic !in others {
        OneTopic(list[n]);
        EntriesConcat(Only(list[..n], others), [list[n]]);
      } else {
        assert Only(list, others) == Only(list[..n], others);
      }
    }
  }

  lemma OneTopic(a: Assigned)
    ensures Topics([a]) == {a.topic}
  {
    assert a in [a];
  }

  lemma LastIsNew(list: seq<Assigned>)
    requires DistinctEntries(list) && list != []
    ensures list[|list| - 1].topic !in Topics(list[..|list| - 1]) && DistinctEntries(list[..|list| - 1])
  {
  }

  lemma {:induction false} CommonEntries(a: seq<Assigned>, b: seq<Assigned>, common: seq<Assigned>)
    requires DistinctEntries(a) && Common(a, b, common)
    ensures DistinctEntries(common)
    decreases |a|
  {
    hide FirstSeq;
    if a != [] {
      var n := |a| - 1;
      LastIsNew(a);
      if a[n].topic in Topics(b) {
        var m := |common| - 1;
        CommonEntries(a[..n], b, common[..m]);
        CommonIs(a[..n], b, common[..m], a[n].topic);
        OneTopic(common[m]);
        EntriesConcat(common[..m], [common[m]]);
        assert common == common[..m] + [common[m]];
      } else {
        CommonEntries(a[..n], b, common);
      }
    }
  }

  lemma AddedEntries(a: seq<Assigned>, b: seq<Assigned>, r: seq<Assigned>)
    requires Added(a, b, r) && DistinctEntries(a) && DistinctEntries(b)
    ensures DistinctEntries(r)
    ensures Proper(a) && Proper(b) ==> Proper(r)
  {
    hide DistinctEntries, Topics, Only, Common, DistinctIds, FirstSeq, IdsAt;
    var common :| Common(a, b, common) && r == common + Only(a, Topics(b)) + Only(b, Topics(a));
    var oa, ob := Only(a, Topics(b)), Only(b, Topics(a));
    CommonEntries(a, b, common);
    OnlyEntries(a, Topics(b));
    OnlyEntries(b, Topics(a));
    forall t: Topic
      ensures !(t in Topics(common) && t in Topics(oa)) && !(t in Topics(common + oa) && t in Topics(ob))
    {
      CommonIs(a, b, common, t);
      OnlyIs(a, Topics(b), t);
      OnlyIs(b, Topics(a), t);
      Concat(common, oa, t);
    }
    EntriesConcat(common, oa);
    EntriesConcat(common + oa, ob);
    CommonIs(a, b, common, "");
    OnlyIs(a, Topics(b), "");
    OnlyIs(b, Topics(a), "");
  }

  // ----- Every run of heartbeats -----

  /** What happens to the two lists. */
  datatype Beat =
    | Success(response: seq<Assigned>)
    | Kept                           // a failed heartbeat within the timeout
    | TimedOut
    | Remove(topic: Topic, id: int)

  /** One beat takes the lists (held, heart) to (held', heart'); merged ids may come in any order. */
  ghost predicate BeatTakes(topics: seq<Topic>, b: Beat, held: seq<Assigned>, heart: seq<Assigned>,
                            held': seq<Assigned>, heart': seq<Assigned>) {
    match b
    case Success(response) => held' == response && Added(heart, response, heart')
    case Kept => held' == held && Added(heart, held, heart')
    case TimedOut => held' == heart' == Nothing(topics)
    case Remove(t, id) => held' == Removed(held, t, id) && heart' == Removed(heart, t, id)
  }

  function Nothing(topics: seq<Topic>): seq<Assigned> {
    seq(|topics|, i requires 0 <= i < |topics| => Assigned(topics[i], []))
  }

  ghost predicate DistinctTopics(topics: seq<Topic>) {
    forall i, j | 0 <= i < j < |topics| :: topics[i] != topics[j]
  }

  /** The lists after each beat of a run. */
  datatype Lists = Lists(held: seq<Assigned>, heart: seq<Assigned>)

  ghost predicate BeatRun(topics: seq<Topic>, beats: seq<Beat>, lists: seq<Lists>) {
    && |lists| == |beats| + 1 && lists[0] == Lists(Nothing(topics), Nothing(topics))
    && forall i | 0 <= i < |beats| ::
         BeatTakes(topics, beats[i], lists[i].held, lists[i].heart, lists[i + 1].held, lists[i + 1].heart)
  }

  /** A proper list, or one that lists no id; repeated topics in the configuration leave only the latter. */
  ghost predicate Plain(list: seq<Assigned>) {
    Proper(list) || forall a <- list :: a.ids == []
  }

  /** What is held is also reported. */
  ghost predicate Kosher(held: seq<Assigned>, heart: seq<Assigned>) {
    Plain(held) && Within(held, heart)
  }

  lemma NothingKosher(topics: seq<Topic>)
    ensures Kosher(Nothing(topics), Nothing(topics))
    ensures DistinctTopics(topics) ==> Proper(Nothing(topics))
  {
  }

  lemma {:induction false} BlankIs(list: seq<Assigned>, t: Topic)
    requires forall a <- list :: a.ids == []
    ensures IdsAt(list, t) == {} && FirstSeq(list, t) == []
  {
    BlankFirst(list, t);
    if list != [] {
      BlankIs(list[..|list| - 1], t);
    }
  }

  lemma {:induction false} BlankFirst(list: seq<Assigned>, t: Topic)
    requires forall a <- list :: a.ids == []
    ensures FirstSeq(list, t) == []
  {
    if list != [] {
      assert list[0] in list;
      BlankFirst(list[1..], t);
    }
  }

  lemma PlainFirst(list: seq<Assigned>, t: Topic)
    requires Plain(list)
    ensures IdsAt(list, t) == IdSet(FirstSeq(list, t))
  {
    if Proper(list) {
      EntriesFirst(list, t);
    } else {
      BlankIs(list, t);
    }
  }

  /** Merging a list into the reported ones reports it, if each topic has all its ids in its first entry. */
  lemma AddedWithin(a: seq<Assigned>, b: seq<Assigned>, r: seq<Assigned>)
    requires Added(a, b, r) && Plain(b)
    ensures Within(b, r)
  {
    hide Added, Plain, IdsAt, Topics, FirstSeq;
    AddedIs(a, b, r);
    forall t: Topic
      ensures IdsAt(b, t) <= IdsAt(r, t)
    {
      PlainFirst(b, t);
    }
  }

  /** A removal takes at most one id of one topic, whatever the list. */
  lemma {:induction false} RemovedBounds(list: seq<Assigned>, t: Topic, id: int, u: Topic)
    ensures Topics(Removed(list, t, id)) == Topics(list)
    ensures IdsAt(Removed(list, t, id), u) <= IdsAt(list, u)
    ensures IdsAt(list, u) - (if u == t then {id} else {}) <= IdsAt(Removed(list, t, id), u)
  {
    if list != [] {
      var head, rest := list[0], list[1..];
      assert list == [head] + rest;
      IdsFront(head, rest, u);
      OneTopic(head);
      Front(head, rest);
      if head.topic == t {
        var changed := Assigned(t, Drop(head.ids, id));
        DropBounds(head.ids, id);
        IdsFront(changed, rest, u);
        Front(changed, rest);
      } else {
        RemovedBounds(rest, t, id, u);
        IdsFront(head, Removed(rest, t, id), u);
        Front(head, Removed(rest, t, id));
      }
    }
  }

  lemma Front(a: Assigned, list: seq<Assigned>)
    ensures Topics([a] + list) == {a.topic} + Topics(list)
  {
    assert a in [a] + list;
    assert forall x :: x in [a] + list <==> x == a || x in list;
  }

  lemma {:induction false} DropBounds(ids: seq<int>, id: int)
    ensures IdSet(ids) - {id} <= IdSet(Drop(ids, id)) <= IdSet(ids)
  {
    if ids != [] {
      assert ids == [ids[0]] + ids[1..];
      IdSetCons(ids[0], ids[1..]);
      DropBounds(ids[1..], id);
      if ids[0] != id {
        IdSetCons(ids[0], Drop(ids[1..], id));
      }
    }
  }

  lemma RemoveKeeps(held: seq<Assigned>, heart: seq<Assigned>, t: Topic, id: int)
    requires Kosher(held, heart)
    ensures Kosher(Removed(held, t, id), Removed(heart, t, id))
  {
    hide Removed, IdsAt, Topics, Proper;
    var held', heart' := Removed(held, t, id), Removed(heart, t, id);
    RemovedBounds(held, t, id, t);
    RemovedBounds(heart, t, id, t);
    if Proper(held) {
      RemovedProper(held, t, id);
      RemovedIs(held, t, id);
    } else {
      RemovedBlank(held, t, id);
    }
    forall u: Topic
      ensures IdsAt(held', u) <= IdsAt(heart', u)
    {
      RemovedBounds(held, t, id, u);
      RemovedBounds(heart, t, id, u);
      if !Proper(held) {
        BlankIs(held', u);
      }
    }
  }

  lemma {:induction false} RemovedBlank(list: seq<Assigned>, t: Topic, id: int)
    requires forall a <- list :: a.ids == []
    ensures forall a <- Removed(list, t, id) :: a.ids == []
  {
    if list != [] {
      assert list[0] in list;
      RemovedBlank(list[1..], t, id);
    }
  }

  /** Every beat whose response repeats no topic and no id keeps what is held within what is reported. */
  lemma BeatKeeps(topics: seq<Topic>, b: Beat, held: seq<Assigned>, heart: seq<Assigned>,
                  held': seq<Assigned>, heart': seq<Assigned>)
    requires (b.Success? ==> Proper(b.response)) && Kosher(held, heart)
    requires BeatTakes(topics, b, held, heart, held', heart')
    ensures Kosher(held', heart')
  {
    hide Proper, Removed, Within, Added;
    match b
    case Success(response) => AddedWithin(heart, response, heart');
    case Kept => AddedWithin(heart, held, heart');
    case TimedOut => NothingKosher(topics);
    case Remove(t, id) => RemoveKeeps(held, heart, t, id);
  }

  /** With distinct configured topics it also keeps both lists free of repetitions. */
  lemma BeatKeepsProper(topics: seq<Topic>, b: Beat, held: seq<Assigned>, heart: seq<Assigned>,
                        held': seq<Assigned>, heart': seq<Assigned>)
    requires DistinctTopics(topics) && (b.Success? ==> Proper(b.response)) && Proper(held) && Proper(heart)
    requires BeatTakes(topics, b, held, heart, held', heart')
    ensures Proper(held') && Proper(heart')
  {
    hide Removed, Added, DistinctEntries, DistinctIds;
    match b
    case Success(response) => AddedEntries(heart, response, heart');
    case Kept => AddedEntries(heart, held, heart');
    case TimedOut => NothingKosher(topics);
    case Remove(t, id) =>
      RemovedProper(held, t, id);
      RemovedProper(heart, t, id);
  }

  /**
    * Through every run of successful, kept and timed-out heartbeats and removals, what is held stays within
    * what the heartbeat has ever reported and not removed; with distinct configured topics, no topic and no id
    * comes twice in either list.
    */
  lemma {:induction false} HeldWithinHeart(topics: seq<Topic>, beats: seq<Beat>, lists: seq<Lists>)
    requires BeatRun(topics, beats, lists) && forall b <- beats :: b.Success? ==> Proper(b.response)
    ensures forall i | 0 <= i < |lists| :: Kosher(lists[i].held, lists[i].heart)
    ensures DistinctTopics(topics) ==> forall i | 0 <= i < |lists| :: Proper(lists[i].held) && Proper(lists[i].heart)
    decreases |beats|
  {
    hide Kosher, BeatTakes, Proper, DistinctTopics;
    if beats == [] {
      NothingKosher(topics);
    } else {
      var n := |beats| - 1;
      HeldWithinHeart(topics, beats[..n], lists[..n + 1]);
      assert lists[..n + 1][n] == lists[n];
      assert beats[n] in beats;
      BeatKeeps(topics, beats[n], lists[n].held, lists[n].heart, lists[n + 1].held, lists[n + 1].heart);
      if DistinctTopics(topics) {
        BeatKeepsProper(topics, beats[n], lists[n].held, lists[n].heart, lists[n + 1].held, lists[n + 1].heart);
      }
      forall i | 0 <= i < |lists|
        ensures Kosher(lists[i].held, lists[i].heart)
        ensures DistinctTopics(topics) ==> Proper(lists[i].held) && Proper(lists[i].heart)
      {
        if i <= n {
          assert lists[..n + 1][i] == lists[i];
        }
      }
    }
  }

  // ----- Exactly which responses are safe -----

  /**
    * After any response what is held is reported exactly if no later entry of a topic that was reported before
    * brings an id that neither the reported ones nor the first entry have: only the first is merged.
    */
  lemma RepeatedTopicsExactly(heart: seq<Assigned>, response: seq<Assigned>, heart': seq<Assigned>)
    requires Added(heart, response, heart')
    ensures Within(response, heart') <==>
            forall t: Topic | t in Topics(heart) && t in Topics(response) ::
              IdsAt(response, t) <= IdsAt(heart, t) + IdSet(FirstSeq(response, t))
  {
    hide Added, IdsAt, Topics, FirstSeq;
    AddedIs(heart, response, heart');
  }

  /** In a list without repeated topics a removal drops the first occurrence of the id in the topic's entry. */
  lemma {:induction false} RemovedEntries(list: seq<Assigned>, t: Topic, id: int, u: Topic)
    requires DistinctEntries(list)
    ensures IdsAt(Removed(list, t, id), u) == IdSet(if u == t then Drop(FirstSeq(list, t), id) else FirstSeq(list, u))
  {
    if list != [] {
      var head, rest := list[0], list[1..];
      assert list == [head] + rest && DistinctEntries(rest);
      if head.topic == t {
        IdsFront(Assigned(t, Drop(head.ids, id)), rest, u);
        EntriesFirst(rest, u);
        NotListedAt(rest, t);
        NotInRest(list);
      } else {
        IdsFront(head, Removed(rest, t, id), u);
        RemovedEntries(rest, t, id, u);
        NotListedAt(rest, head.topic);
        NotInRest(list);
      }
    }
  }

  lemma NotInRest(list: seq<Assigned>)
    requires DistinctEntries(list) && list != []
    ensures list[0].topic !in Topics(list[1..])
  {
  }

  lemma {:induction false} FirstConcat(a: seq<Assigned>, b: seq<Assigned>, t: Topic)
    ensures FirstSeq(a + b, t) == if t in Topics(a) then FirstSeq(a, t) else FirstSeq(b, t)
  {
    if a == [] {
      assert a + b == b;
    } else {
      assert (a + b)[1..] == a[1..] + b && a == [a[0]] + a[1..];
      Front(a[0], a[1..]);
      FirstConcat(a[1..], b, t);
    }
  }

  lemma {:induction false} FirstOnly(list: seq<Assigned>, others: set<Topic>, t: Topic)
    requires t !in others
    ensures FirstSeq(Only(list, others), t) == FirstSeq(list, t)
  {
    if list != [] {
      var n := |list| - 1;
      var last := list[n];
      assert list == list[..n] + [last];
      FirstOnly(list[..n], others, t);
      FirstConcat(list[..n], [last], t);
      OnlyIs(list[..n], others, t);
      if last.topic !in others {
        FirstConcat(Only(list[..n], others), [last], t);
      } else {
        assert Only(list, others) == Only(list[..n], others);
        NotListedAt(list[..n], t);
      }
    }
  }

  lemma {:induction false} FirstEntry(list: seq<Assigned>, t: Topic)
    requires t in Topics(list)
    ensures Assigned(t, FirstSeq(list, t)) in list
  {
    assert list == [list[0]] + list[1..];
    Front(list[0], list[1..]);
    if list[0].topic == t {
      assert list[0] == Assigned(t, list[0].ids);
    } else {
      FirstEntry(list[1..], t);
    }
  }

  /** The entry the reported list has for a topic of the response: merged, or the response's own. */
  lemma AddedFirst(heart: seq<Assigned>, response: seq<Assigned>, heart': seq<Assigned>, t: Topic)
    requires Added(heart, response, heart') && t in Topics(response)
    ensures t in Topics(heart) ==> DistinctIds(FirstSeq(heart', t))
    ensures t !in Topics(heart) ==> FirstSeq(heart', t) == FirstSeq(response, t)
  {
    hide FirstSeq, Only, Common, Topics, IdsAt, DistinctIds;
    var common :| Common(heart, response, common) &&
                  heart' == common + Only(heart, Topics(response)) + Only(response, Topics(heart));
    var oh, op := Only(heart, Topics(response)), Only(response, Topics(heart));
    CommonIs(heart, response, common, t);
    OnlyIs(heart, Topics(response), t);
    OnlyIs(response, Topics(heart), t);
    FirstConcat(common, oh, t);
    FirstConcat(common + oh, op, t);
    Concat(common, oh, t);
    if t in Topics(heart) {
      FirstEntry(common, t);
    } else {
      FirstOnly(response, Topics(heart), t);
    }
  }

  /** An id listed twice survives its removal; an id listed once does not. */
  lemma {:induction false} DropTwice(ids: seq<int>)
    ensures DistinctIds(ids) <==> forall id :: id !in Drop(ids, id)
  {
    if DistinctIds(ids) {
      forall id
        ensures id !in Drop(ids, id)
      {
        DropIs(ids, id);
        assert id !in IdSet(Drop(ids, id));
      }
    } else {
      var i, j :| 0 <= i < j < |ids| && ids[i] == ids[j];
      SecondStays(ids, i, j);
    }
  }

  lemma {:induction false} SecondStays(ids: seq<int>, i: nat, j: nat)
    requires i < j < |ids| && ids[i] == ids[j]
    ensures ids[i] in Drop(ids, ids[i])
  {
    if ids[0] == ids[i] {
      assert ids[1..][j - 1] == ids[i];
    } else {
      SecondStays(ids[1..], i - 1, j - 1);
    }
  }

  /**
    * A response without repeated topics is safe for every removal after it exactly if it repeats no id in a
    * topic that was reported before. Otherwise the removal of the repeated id leaves a copy held that is not
    * reported any more.
    */
  lemma RepeatedIdsExactly(heart: seq<Assigned>, response: seq<Assigned>, heart': seq<Assigned>)
    requires DistinctEntries(heart) && DistinctEntries(response) && Added(heart, response, heart')
    ensures (forall t: Topic, id: int :: Within(Removed(response, t, id), Removed(heart', t, id))) <==>
            forall t: Topic | t in Topics(heart) && t in Topics(response) :: DistinctIds(FirstSeq(response, t))
  {
    hide Added, DistinctEntries, DistinctIds, FirstSeq, Removed, IdsAt, Topics, Drop, Within;
    if forall t: Topic | t in Topics(heart) && t in Topics(response) :: DistinctIds(FirstSeq(response, t)) {
      forall t: Topic, id: int
        ensures Within(Removed(response, t, id), Removed(heart', t, id))
      {
        DistinctIsSafe(heart, response, heart', t, id);
      }
    } else {
      var t: Topic :| t in Topics(heart) && t in Topics(response) && !DistinctIds(FirstSeq(response, t));
      RepeatedEscapes(heart, response, heart', t);
    }
  }

  lemma DistinctIsSafe(heart: seq<Assigned>, response: seq<Assigned>, heart': seq<Assigned>, t: Topic, id: int)
    requires DistinctEntries(heart) && DistinctEntries(response) && Added(heart, response, heart')
    requires t in Topics(heart) && t in Topics(response) ==> DistinctIds(FirstSeq(response, t))
    ensures Within(Removed(response, t, id), Removed(heart', t, id))
  {
    hide Added, DistinctEntries, DistinctIds, FirstSeq, Removed, IdsAt, Topics, Drop;
    AddedIs(heart, response, heart');
    AddedEntries(heart, response, heart');
    RemovedBounds(response, t, id, t);
    RemovedBounds(heart', t, id, t);
    forall u: Topic
      ensures IdsAt(Removed(response, t, id), u) <= IdsAt(Removed(heart', t, id), u)
    {
      RemovedBounds(response, t, id, u);
      RemovedBounds(heart', t, id, u);
      EntriesFirst(response, u);
      RemovedEntries(response, t, id, u);
      RemovedEntries(heart', t, id, u);
      if u == t {
        if t !in Topics(response) {
          NotListedAt(response, t);
        } else {
          AddedFirst(heart, response, heart', t);
          if t in Topics(heart) {
            DropIs(FirstSeq(response, t), id);
          }
        }
      }
    }
  }

  lemma RepeatedEscapes(heart: seq<Assigned>, response: seq<Assigned>, heart': seq<Assigned>, t: Topic)
    requires DistinctEntries(heart) && DistinctEntries(response) && Added(heart, response, heart')
    requires t in Topics(heart) && t in Topics(response) && !DistinctIds(FirstSeq(response, t))
    ensures exists id: int :: !Within(Removed(response, t, id), Removed(heart', t, id))
  {
    hide Added, DistinctEntries, DistinctIds, FirstSeq, Removed, IdsAt, Topics, Drop;
    AddedEntries(heart, response, heart');
    AddedFirst(heart, response, heart', t);
    DropTwice(FirstSeq(response, t));
    var id: int :| id in Drop(FirstSeq(response, t), id);
    DropTwice(FirstSeq(heart', t));
    RemovedEntries(response, t, id, t);
    RemovedEntries(heart', t, id, t);
    assert id in IdsAt(Removed(response, t, id), t) && id !in IdsAt(Removed(heart', t, id), t);
    assert !Within(Removed(response, t, id), Removed(heart', t, id));
  }
}
