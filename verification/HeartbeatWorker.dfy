/** The heartbeat worker as an object, its slices as arrays that may be shared and are changed in place. */
module HeartbeatWorkers {
  import opened Heartbeat

  /** A partition list entry: the slice of the ids is the first `len` elements of an array. */
  datatype PartitionInfo = PartitionInfo(topic: Topic, arr: array<int>, len: nat)

  ghost predicate Fits(list: seq<PartitionInfo>) {
    forall p <- list :: p.len <= p.arr.Length
  }

  ghost function Arrays(list: seq<PartitionInfo>): set<array<int>> {
    set p | p in list :: p.arr
  }

  ghost predicate NoShare(list: seq<PartitionInfo>) {
    forall i, j | 0 <= i < j < |list| :: list[i].arr != list[j].arr
  }

  ghost function ValueOf(p: PartitionInfo): Assigned
    requires p.len <= p.arr.Length
    reads p.arr
  {
    Assigned(p.topic, p.arr[..p.len])
  }

  ghost function Values(list: seq<PartitionInfo>): seq<Assigned>
    requires Fits(list)
    reads Arrays(list)
  {
    if list == [] then [] else Values(list[..|list| - 1]) + [ValueOf(list[|list| - 1])]
  }

  lemma {:induction false} ValuesAt(list: seq<PartitionInfo>, i: nat)
    requires Fits(list) && i < |list|
    ensures |Values(list)| == |list| && Values(list)[i] == ValueOf(list[i])
    decreases |list|
  {
    var n := |list| - 1;
    if i < n {
      ValuesAt(list[..n], i);
    } else if n > 0 {
      ValuesAt(list[..n], 0);
    }
  }

  lemma ValuesLength(list: seq<PartitionInfo>)
    requires Fits(list)
    ensures |Values(list)| == |list|
  {
    if list != [] {
      ValuesAt(list, 0);
    }
  }

  lemma ValuesSnoc(list: seq<PartitionInfo>, p: PartitionInfo)
    requires Fits(list) && p.len <= p.arr.Length
    ensures Fits(list + [p]) && Values(list + [p]) == Values(list) + [ValueOf(p)]
    ensures Arrays(list + [p]) == Arrays(list) + {p.arr}
  {
    assert (list + [p])[..|list|] == list;
    assert p in list + [p];
    assert forall x :: x in list + [p] <==> x in list || x == p;
  }

  // ----- Sharing -----

  lemma ShareAppend(a: seq<PartitionInfo>, b: seq<PartitionInfo>)
    requires NoShare(a) && NoShare(b) && forall p <- a, q <- b :: p.arr != q.arr
    ensures NoShare(a + b)
  {
    var s := a + b;
    forall i, j | 0 <= i < j < |s|
      ensures s[i].arr != s[j].arr
    {
      if i < |a| <= j {
        assert a[i] in a && b[j - |a|] in b;
      }
    }
  }

  lemma ShareParts(a: seq<PartitionInfo>, b: seq<PartitionInfo>)
    requires NoShare(a + b)
    ensures NoShare(a) && NoShare(b) && NoShare(b + a) && forall p <- a, q <- b :: p.arr != q.arr
  {
    var s := a + b;
    forall i, j | 0 <= i < j < |a| ensures a[i].arr != a[j].arr { assert s[i].arr != s[j].arr; }
    forall i, j | 0 <= i < j < |b| ensures b[i].arr != b[j].arr { assert s[|a| + i].arr != s[|a| + j].arr; }
    forall p, q | p in a && q in b
      ensures p.arr != q.arr
    {
      var i :| 0 <= i < |a| && a[i] == p;
      var j :| 0 <= j < |b| && b[j] == q;
      assert s[i].arr != s[|a| + j].arr;
    }
    ShareAppend(b, a);
  }

  lemma ArraysApart(a: seq<PartitionInfo>, b: seq<PartitionInfo>)
    ensures (forall p <- a, q <- b :: p.arr != q.arr) <==> Arrays(a) !! Arrays(b)
  {
    if forall p <- a, q <- b :: p.arr != q.arr {
      forall x | x in Arrays(a)
        ensures x !in Arrays(b)
      {
        var p :| p in a && p.arr == x;
      }
    } else {
      var p, q :| p in a && q in b && p.arr == q.arr;
      assert p.arr in Arrays(a) && q.arr in Arrays(b);
    }
  }

  // ----- Merging, entry by entry -----

  lemma CommonMore(v1: seq<Assigned>, v2: seq<Assigned>, i: nat, vr: seq<Assigned>, j: nat, a: Assigned)
    requires i < |v1| && j < |v2| && Common(v1[..i], v2, vr)
    requires v2[j].topic == v1[i].topic && forall k | 0 <= k < j :: v2[k].topic != v1[i].topic
    requires Merges(v1[i], v2[j].ids, a)
    ensures Common(v1[..i + 1], v2, vr + [a]) && v1[i].topic in Topics(v2)
  {
    hide Merges;
    FirstAt(v2, j);
    assert v1[..i + 1][..i] == v1[..i] && v1[..i + 1][i] == v1[i];
    assert (vr + [a])[..|vr|] == vr;
    assert v2[j] in v2;
  }

  lemma {:induction false} FirstAt(v: seq<Assigned>, j: nat)
    requires j < |v| && forall k | 0 <= k < j :: v[k].topic != v[j].topic
    ensures FirstSeq(v, v[j].topic) == v[j].ids
  {
    if j > 0 {
      assert forall k | 0 <= k < j - 1 :: v[1..][k].topic != v[j].topic;
      FirstAt(v[1..], j - 1);
    }
  }

  lemma CommonSkip(v1: seq<Assigned>, v2: seq<Assigned>, i: nat, vr: seq<Assigned>)
    requires i < |v1| && Common(v1[..i], v2, vr) && forall j | 0 <= j < |v2| :: v2[j].topic != v1[i].topic
    ensures Common(v1[..i + 1], v2, vr) && v1[i].topic !in Topics(v2)
  {
    assert v1[..i + 1][..i] == v1[..i] && v1[..i + 1][i] == v1[i];
    NotListed(v2, v1[i].topic);
  }

  lemma Prefix(v: seq<Assigned>, i: nat)
    requires i < |v|
    ensures Topics(v[..i + 1]) == Topics(v[..i]) + {v[i].topic}
  {
    assert v[..i + 1] == v[..i] + [v[i]];
    Snoc(v[..i], v[i]);
  }

  lemma OnlyMore(v: seq<Assigned>, others: set<Topic>, i: nat, before: seq<Assigned>)
    requires i < |v|
    ensures before + Only(v[..i + 1], others) ==
            if v[i].topic in others then before + Only(v[..i], others) else before + Only(v[..i], others) + [v[i]]
    ensures v[i].topic in Topics(v)
  {
    assert v[..i + 1][..i] == v[..i] && v[..i + 1][i] == v[i];
    assert v[i] in v;
    assert Only(v[..i], others) + [] == Only(v[..i], others);
  }

  lemma NothingCommon(v1: seq<Assigned>, v2: seq<Assigned>)
    ensures Common(v1[..0], v2, []) && Topics(v1[..0]) == {} && Values([]) == []
  {
  }

  // ----- The methods -----

  /** mergePartitionIDs: the ids of both, each once, in any order. */
  method MergePartitionIDs(a: PartitionInfo, b: PartitionInfo) returns (r: array<int>)
    requires a.len <= a.arr.Length && b.len <= b.arr.Length
    ensures fresh(r) && DistinctIds(r[..]) && IdSet(r[..]) == IdSet(a.arr[..a.len]) + IdSet(b.arr[..b.len])
  {
    var merged: set<int> := {};
    for i := 0 to a.len
      invariant merged == IdSet(a.arr[..i])
    {
      merged := merged + {a.arr[i]};
      assert a.arr[..i + 1] == a.arr[..i] + [a.arr[i]];
    }
    ghost var first := merged;
    for i := 0 to b.len
      invariant merged == first + IdSet(b.arr[..i])
    {
      merged := merged + {b.arr[i]};
      assert b.arr[..i + 1] == b.arr[..i] + [b.arr[i]];
    }
    r := ToArray(merged);
  }

  lemma NonEmpty(s: set<int>)
    ensures s == {} || exists x: int :: x in s
  {
    if forall x: int :: x !in s {
      assert s == {};
    }
  }

  lemma IdsSnoc(ids: seq<int>, id: int)
    ensures IdSet(ids + [id]) == IdSet(ids) + {id}
    ensures DistinctIds(ids) && id !in IdSet(ids) ==> DistinctIds(ids + [id])
  {
    assert id in ids + [id];
    assert forall x :: x in ids + [id] <==> x in ids || x == id;
    if DistinctIds(ids) && id !in IdSet(ids) {
      assert forall i | 0 <= i < |ids| :: ids[i] in ids;
    }
  }

  /** The elements of a set, in any order. */
  method ToArray(s: set<int>) returns (r: array<int>)
    ensures fresh(r) && DistinctIds(r[..]) && IdSet(r[..]) == s
  {
    r := new int[|s|];
    var todo: set<int> := s;
    var k := 0;
    while todo != {}
      invariant k + |todo| == |s| == r.Length && todo <= s
      invariant DistinctIds(r[..k]) && IdSet(r[..k]) == s - todo
      decreases |todo|
    {
      assert exists id: int :: id in todo by {
        NonEmpty(todo);
      }
      var id: int :| id in todo;
      assert id !in IdSet(r[..k]);
      ghost var done := r[..k];
      r[k] := id;
      assert r[..k + 1] == done + [id];
      IdsSnoc(done, id);
      todo := todo - {id};
      k := k + 1;
    }
    assert r[..k] == r[..];
  }

  /** copyPartitions: the same lists over arrays of their own. */
  method CopyPartitions(list: seq<PartitionInfo>) returns (r: seq<PartitionInfo>)
    requires Fits(list)
    ensures Fits(r) && Values(r) == Values(list) && NoShare(r) && forall p <- r :: fresh(p.arr)
  {
    hide Values;
    r := [];
    ghost var v, arrays := Values(list), Arrays(list);
    ValuesLength(list);
    for i := 0 to |list|
      invariant |r| == i && Fits(r) && NoShare(r) && (forall p <- r :: fresh(p.arr)) && Values(list) == v
      invariant forall k | 0 <= k < i :: ValueOf(r[k]) == v[k]
    {
      ValuesAt(list, i);
      var p := list[i];
      assert p in list;
      var arr := new int[p.len](k requires 0 <= k < p.len reads p.arr => p.arr[k]);
      assert arr[..] == p.arr[..p.len] && arr[..p.len] == arr[..];
      r := r + [PartitionInfo(p.topic, arr, p.len)];
    }
    ValuesFrom(r, v);
  }

  method EmptyPartitions(topics: seq<Topic>) returns (r: seq<PartitionInfo>)
    ensures |r| == |topics| && forall i | 0 <= i < |r| :: r[i].topic == topics[i] && r[i].len == 0
    ensures Fits(r) && Values(r) == Nothing(topics) && NoShare(r) && forall p <- r :: fresh(p.arr)
  {
    hide Values;
    r := [];
    for i := 0 to |topics|
      invariant |r| == i && Fits(r) && NoShare(r) && (forall p <- r :: fresh(p.arr))
      invariant forall k | 0 <= k < i :: r[k].topic == topics[k] && r[k].len == 0
      invariant forall k | 0 <= k < i :: ValueOf(r[k]) == Assigned(topics[k], [])
    {
      var arr := new int[0];
      r := r + [PartitionInfo(topics[i], arr, 0)];
    }
    ValuesFrom(r, Nothing(topics));
  }

  // ----- addPartitions -----

  /** The index of the first entry for a topic, or the length. */
  method FindTopic(list: seq<PartitionInfo>, t: Topic) returns (j: nat)
    ensures j <= |list| && (j < |list| ==> list[j].topic == t)
    ensures forall k | 0 <= k < j :: list[k].topic != t
  {
    j := 0;
    while j < |list|
      invariant j <= |list| && forall k | 0 <= k < j :: list[k].topic != t
    {
      if list[j].topic == t {
        return;
      }
      j := j + 1;
    }
  }

  lemma TopicAt(list: seq<PartitionInfo>, i: nat)
    requires Fits(list) && i < |list|
    ensures |Values(list)| == |list| && Values(list)[i].topic == list[i].topic
    ensures Values(list)[i].ids == list[i].arr[..list[i].len]
  {
    ValuesAt(list, i);
  }

  /** The first part: entries for topics of both lists, over new arrays. */
  method MergeCommon(p1: seq<PartitionInfo>, p2: seq<PartitionInfo>)
    returns (result: seq<PartitionInfo>, sameTopics: set<Topic>)
    requires Fits(p1) && Fits(p2)
    ensures Fits(result) && NoShare(result) && forall p <- result :: fresh(p.arr)
    ensures Common(Values(p1), Values(p2), Values(result))
    ensures sameTopics == Topics(Values(p1)) * Topics(Values(p2))
  {
    hide Common, Values, DistinctIds, IdSet, Topics;
    result, sameTopics := [], {};
    ghost var v1, v2 := Values(p1), Values(p2);
    ghost var a1, a2 := Arrays(p1), Arrays(p2);
    ValuesLength(p1);
    ValuesLength(p2);
    NothingCommon(v1, v2);
    for i := 0 to |p1|
      invariant Fits(result) && NoShare(result) && forall p <- result :: fresh(p.arr)
      invariant Values(p1) == v1 && Values(p2) == v2
      invariant Common(v1[..i], v2, Values(result)) && sameTopics == Topics(v1[..i]) * Topics(v2)
    {
      ghost var vr, ar := Values(result), Arrays(result);
      var j := FindTopic(p2, p1[i].topic);
      TopicAt(p1, i);
      Prefix(v1, i);
      if j < |p2| {
        forall k | 0 <= k < j ensures v2[k].topic != v1[i].topic { TopicAt(p2, k); }
        TopicAt(p2, j);
        assert p1[i] in p1 && p2[j] in p2;
        var arr := MergePartitionIDs(p1[i], p2[j]);
        var q := PartitionInfo(p1[i].topic, arr, arr.Length);
        assert arr[..arr.Length] == arr[..] && Values(result) == vr;
        CommonMore(v1, v2, i, vr, j, ValueOf(q));
        ValuesSnoc(result, q);
        result := result + [q];
        sameTopics := sameTopics + {p1[i].topic};
      } else {
        forall k | 0 <= k < |v2| ensures v2[k].topic != v1[i].topic { TopicAt(p2, k); }
        CommonSkip(v1, v2, i, vr);
      }
    }
    assert v1[..|v1|] == v1;
  }

  /** The second part, and the third: entries for topics of one list only join with the arrays they have. */
  method KeepOthers(list: seq<PartitionInfo>, before: seq<PartitionInfo>, sameTopics: set<Topic>,
                    ghost others: set<Topic>)
    returns (result: seq<PartitionInfo>)
    requires Fits(list) && NoShare(list) && Fits(before) && NoShare(before) && Arrays(before) !! Arrays(list)
    requires sameTopics == Topics(Values(list)) * others
    ensures Fits(result) && NoShare(result) && Values(result) == Values(before) + Only(Values(list), others)
    ensures forall p <- result :: p in before || (p in list && p.topic !in others)
  {
    hide Only, Values, NoShare, Topics;
    result := before;
    ghost var v, vb, arrays := Values(list), Values(before), Arrays(list) + Arrays(before);
    ValuesLength(list);
    OnlyNone(v, others, vb);
    for i := 0 to |list|
      invariant Fits(result) && NoShare(result) && Values(result) == vb + Only(v[..i], others)
      invariant forall p <- result :: p in before || (p in list[..i] && p.topic !in others)
    {
      TopicAt(list, i);
      ValuesAt(list, i);
      OnlyMore(v, others, i, vb);
      if list[i].topic !in sameTopics {
        assert list[i] in list;
        ValuesSnoc(result, list[i]);
        ShareNext(list, before, result, i);
        result := result + [list[i]];
      }
      assert list[..i + 1] == list[..i] + [list[i]];
    }
    assert list[..|list|] == list && v[..|v|] == v;
  }

  lemma OnlyNone(v: seq<Assigned>, others: set<Topic>, before: seq<Assigned>)
    ensures before + Only(v[..0], others) == before
  {
  }

  lemma ShareSnoc(list: seq<PartitionInfo>, q: PartitionInfo)
    requires NoShare(list) && forall p <- list :: p.arr != q.arr
    ensures NoShare(list + [q])
  {
    forall i | 0 <= i < |list|
      ensures list[i].arr != q.arr
    {
      assert list[i] in list;
    }
  }

  lemma ShareNext(list: seq<PartitionInfo>, before: seq<PartitionInfo>, result: seq<PartitionInfo>, i: nat)
    requires NoShare(list) && NoShare(result) && i < |list| && Arrays(before) !! Arrays(list)
    requires forall p <- result :: p in before || p in list[..i]
    ensures NoShare(result + [list[i]])
  {
    forall p | p in result
      ensures p.arr != list[i].arr
    {
      if p in before {
        assert list[i] in list && p.arr in Arrays(before) && list[i].arr in Arrays(list);
      } else {
        var k :| 0 <= k < i && list[k] == p;
      }
    }
    ShareSnoc(result, list[i]);
  }

  /** addPartitions, for any two lists: only entries for topics of one list share their array with it. */
  method AddPartitions(p1: seq<PartitionInfo>, p2: seq<PartitionInfo>) returns (result: seq<PartitionInfo>)
    requires Fits(p1) && Fits(p2) && NoShare(p1 + p2)
    ensures Fits(result) && NoShare(result) && Added(Values(p1), Values(p2), Values(result))
    ensures forall p <- result :: fresh(p.arr) || p in p1 || (p in p2 && p.topic !in Topics(Values(p1)))
  {
    hide Common, Only, Values, NoShare, Topics;
    ghost var arrays := Arrays(p1) + Arrays(p2);
    ShareParts(p1, p2);
    ArraysApart(p1, p2);
    var common, sameTopics := MergeCommon(p1, p2);
    assert Arrays(common) !! arrays;
    ghost var made, v1, v2, vc := Arrays(common), Values(p1), Values(p2), Values(common);
    var first := KeepOthers(p1, common, sameTopics, Topics(v2));
    assert Arrays(first) !! Arrays(p2) by {
      ArraysApart(first, p2);
    }
    result := KeepOthers(p2, first, sameTopics, Topics(v1));
    assert Common(v1, v2, vc) && Values(result) == vc + Only(v1, Topics(v2)) + Only(v2, Topics(v1));
  }

  // ----- Removal in place -----

  lemma {:induction false} DropAt(ids: seq<int>, id: int, j: nat)
    requires j < |ids| && ids[j] == id && forall k | 0 <= k < j :: ids[k] != id
    ensures Drop(ids, id) == ids[..j] + ids[j + 1..]
  {
    if j > 0 {
      DropAt(ids[1..], id, j - 1);
    }
  }

  lemma {:induction false} DropNone(ids: seq<int>, id: int)
    requires id !in ids
    ensures Drop(ids, id) == ids
  {
    if ids != [] {
      DropNone(ids[1..], id);
    }
  }

  /** Takes out the id at `j`: those after it move down by one in the same array. */
  method ShiftDown(p: PartitionInfo, j: nat) returns (q: PartitionInfo)
    requires p.len <= p.arr.Length && j < p.len
    modifies p.arr
    ensures q == p.(len := p.len - 1)
    ensures p.arr[..q.len] == old(p.arr[..j]) + old(p.arr[j + 1..p.len])
  {
    var a := p.arr;
    for k := j to p.len - 1
      invariant a[..j] == old(a[..j])
      invariant forall m | j <= m < k :: a[m] == old(a[m + 1])
      invariant forall m | k <= m < p.len :: a[m] == old(a[m])
    {
      a[k] := a[k + 1];
    }
    q := p.(len := p.len - 1);
    ghost var want := old(a[..j]) + old(a[j + 1..p.len]);
    forall m | 0 <= m < q.len
      ensures a[..q.len][m] == want[m]
    {
      if m < j {
        assert a[..j][m] == old(a[..j])[m];
      }
    }
  }

  /** Removes an id from one slice, if it is there. */
  method RemoveID(p: PartitionInfo, id: int) returns (q: PartitionInfo)
    requires p.len <= p.arr.Length
    modifies p.arr
    ensures q.topic == p.topic && q.arr == p.arr && q.len <= p.len
    ensures ValueOf(q) == Assigned(p.topic, Drop(old(p.arr[..p.len]), id))
  {
    ghost var ids := p.arr[..p.len];
    for j := 0 to p.len
      invariant p.arr[..p.len] == ids && forall k | 0 <= k < j :: ids[k] != id
    {
      if p.arr[j] == id {
        DropAt(ids, id, j);
        assert ids[..j] == p.arr[..j] && ids[j + 1..] == p.arr[j + 1..p.len];
        q := ShiftDown(p, j);
        return;
      }
    }
    DropNone(ids, id);
    q := p;
  }

  lemma {:induction false} RemovedAt(list: seq<Assigned>, t: Topic, id: int, i: nat)
    requires i < |list| && list[i].topic == t && forall k | 0 <= k < i :: list[k].topic != t
    ensures Removed(list, t, id) == list[i := Assigned(t, Drop(list[i].ids, id))]
  {
    if i > 0 {
      RemovedAt(list[1..], t, id, i - 1);
    }
  }

  lemma {:induction false} RemovedNone(list: seq<Assigned>, t: Topic, id: int)
    requires forall a <- list :: a.topic != t
    ensures Removed(list, t, id) == list
  {
    if list != [] {
      RemovedNone(list[1..], t, id);
    }
  }

  /** Removes an id from the first entry for a topic. */
  method RemoveFrom(list: seq<PartitionInfo>, t: Topic, id: int) returns (r: seq<PartitionInfo>)
    requires Fits(list) && NoShare(list)
    modifies Arrays(list)
    ensures Fits(r) && NoShare(r) && |r| == |list| && forall i | 0 <= i < |r| :: r[i].arr == list[i].arr
    ensures Values(r) == Removed(old(Values(list)), t, id)
  {
    hide Removed, Values;
    ghost var v := Values(list);
    ValuesLength(list);
    var i := FindTopic(list, t);
    if i < |list| {
      TopicAt(list, i);
      forall k | 0 <= k < i ensures v[k].topic != t { TopicAt(list, k); }
      RemovedAt(v, t, id, i);
      assert list[i] in list;
      forall k | 0 <= k < |list| ensures list[k] in list && v[k] == ValueOf(list[k]) { ValuesAt(list, k); }
      var q := RemoveID(list[i], id);
      r := list[i := q];
      assert forall p <- r :: p in list || p == q;
      ValuesFrom(r, v[i := ValueOf(q)]);
    } else {
      forall a | a in v
        ensures a.topic != t
      {
        var k :| 0 <= k < |v| && v[k] == a;
        TopicAt(list, k);
      }
      RemovedNone(v, t, id);
      r := list;
    }
  }

  /** What a list shows is what its slices show. */
  lemma {:induction false} ValuesFrom(list: seq<PartitionInfo>, v: seq<Assigned>)
    requires Fits(list) && |v| == |list| && forall k | 0 <= k < |list| :: ValueOf(list[k]) == v[k]
    ensures Values(list) == v
  {
    ValuesLength(list);
    forall k | 0 <= k < |list| ensures Values(list)[k] == v[k] { ValuesAt(list, k); }
  }

  // ----- The worker -----

  lemma SameShape(a: seq<PartitionInfo>, b: seq<PartitionInfo>)
    requires |a| == |b| && forall i | 0 <= i < |a| :: a[i].arr == b[i].arr
    ensures Arrays(a) == Arrays(b) && (NoShare(a) ==> NoShare(b))
  {
    forall x | x in Arrays(a)
      ensures x in Arrays(b)
    {
      var p :| p in a && p.arr == x;
      var i :| 0 <= i < |a| && a[i] == p;
      assert b[i] in b;
    }
    forall x | x in Arrays(b)
      ensures x in Arrays(a)
    {
      var p :| p in b && p.arr == x;
      var i :| 0 <= i < |b| && b[i] == p;
      assert a[i] in a;
    }
  }

  lemma TopicListed(list: seq<PartitionInfo>, p: PartitionInfo)
    requires Fits(list) && p in list
    ensures p.topic in Topics(Values(list))
  {
    var i :| 0 <= i < |list| && list[i] == p;
    ValuesAt(list, i);
    assert Values(list)[i] in Values(list);
  }

  class HeartbeatWorker {
    const topicIDs: seq<Topic>
    const consumerGroupTimeout: int
    const heartbeatInterval: int
    var heldPartitions: seq<PartitionInfo>
    var heartPartitions: seq<PartitionInfo>
    var lastHeartbeatSuccessTime: int

    /** No slice in use shares its array with another, and every held topic is reported. */
    ghost predicate Valid()
      reads this, Arrays(heldPartitions), Arrays(heartPartitions)
    {
      && Fits(heldPartitions) && Fits(heartPartitions) && NoShare(heldPartitions + heartPartitions)
      && Topics(Values(heldPartitions)) <= Topics(Values(heartPartitions))
    }

    /** Moreover, neither list repeats a topic or an id. */
    ghost predicate Tidy()
      reads this, Arrays(heldPartitions), Arrays(heartPartitions)
    {
      Valid() && Proper(Values(heldPartitions)) && Proper(Values(heartPartitions))
    }

    ghost predicate Shows(held: seq<Assigned>, heart: seq<Assigned>)
      reads this, Arrays(heldPartitions), Arrays(heartPartitions)
    {
      && Fits(heldPartitions) && Fits(heartPartitions)
      && Values(heldPartitions) == held && Values(heartPartitions) == heart
    }

    constructor (topics: seq<Topic>, timeout: int, interval: int, now: int)
      ensures Valid() && topicIDs == topics && Shows(Nothing(topics), Nothing(topics))
      ensures consumerGroupTimeout == timeout && heartbeatInterval == interval && lastHeartbeatSuccessTime == now
    {
      hide Values, NoShare, Topics;
      topicIDs, consumerGroupTimeout, heartbeatInterval, lastHeartbeatSuccessTime := topics, timeout, interval, now;
      var held := EmptyPartitions(topics);
      ghost var a0, v0 := Arrays(held), Values(held);
      var heart := EmptyPartitions(topics);
      ghost var a1 := Arrays(heart);
      forall p, q | p in held && q in heart
        ensures p.arr != q.arr
      {
        assert p.arr in a0 && q.arr !in a0;
      }
      ShareAppend(held, heart);
      heldPartitions, heartPartitions := held, heart;
    }

    /** GetHeldPartitions: a snapshot that shares nothing with the lists. */
    method GetHeldPartitions() returns (r: seq<PartitionInfo>)
      requires Valid()
      ensures Fits(r) && Values(r) == Values(heldPartitions) && NoShare(r) && forall p <- r :: fresh(p.arr)
    {
      hide Values, NoShare;
      r := CopyPartitions(heldPartitions);
    }

    /** sendHeartbeat after a successful call. */
    method TakeResponse(response: seq<PartitionInfo>)
      requires Valid() && Fits(response) && NoShare(heartPartitions + response)
      modifies this`heldPartitions, this`heartPartitions
      ensures Valid()
      ensures BeatTakes(topicIDs, Success(old(Values(response))), old(Values(heldPartitions)),
                        old(Values(heartPartitions)), Values(heldPartitions), Values(heartPartitions))
    {
      hide Values, NoShare, Added, Topics;
      ghost var heart, v := Values(heartPartitions), Values(response);
      ghost var a0, b0 := Arrays(response), Arrays(heartPartitions);
      var added := AddPartitions(heartPartitions, response);
      ghost var a1, heart' := Arrays(added), Values(added);
      var copied := CopyPartitions(response);
      ghost var a2 := Arrays(copied);
      forall p, q | p in copied && q in added
        ensures p.arr != q.arr
      {
        assert q.arr in a1 && p.arr !in a1;
      }
      ShareAppend(copied, added);
      AddedIs(heart, v, heart');
      heartPartitions := added;
      heldPartitions := copied;
    }

    /** sendHeartbeat after a failure within the timeout. */
    method KeepLists()
      requires Valid()
      modifies this`heartPartitions
      ensures Valid()
      ensures BeatTakes(topicIDs, Kept, old(Values(heldPartitions)), old(Values(heartPartitions)),
                        Values(heldPartitions), Values(heartPartitions))
    {
      hide Values, NoShare, Added, Topics;
      ghost var held, heart := Values(heldPartitions), Values(heartPartitions);
      ghost var a0, a1 := Arrays(heldPartitions), Arrays(heartPartitions);
      ShareParts(heldPartitions, heartPartitions);
      forall q | q in heldPartitions ensures q.topic in Topics(held) { TopicListed(heldPartitions, q); }
      var added := AddPartitions(heartPartitions, heldPartitions);
      ghost var a2 := Arrays(added);
      forall p, q | p in heldPartitions && q in added
        ensures p.arr != q.arr
      {
        assert p.arr in a0;
      }
      ShareAppend(heldPartitions, added);
      AddedIs(heart, held, Values(added));
      heartPartitions := added;
    }

    /** sendHeartbeat after too long without success. */
    method ResetLists()
      requires Valid()
      modifies this`heldPartitions, this`heartPartitions
      ensures Valid()
      ensures BeatTakes(topicIDs, TimedOut, old(Values(heldPartitions)), old(Values(heartPartitions)),
                        Values(heldPartitions), Values(heartPartitions))
    {
      hide Values, NoShare, Topics;
      var emptied := EmptyPartitions(topicIDs);
      ghost var a1 := Arrays(emptied);
      var copied := CopyPartitions(emptied);
      ghost var a0 := Arrays(copied);
      forall p, q | p in copied && q in emptied
        ensures p.arr != q.arr
      {
        assert q.arr in a1 && p.arr !in a1;
      }
      ShareAppend(copied, emptied);
      heartPartitions := emptied;
      heldPartitions := copied;
    }

    /** The part of sendHeartbeat under the write lock; `response` is what was decoded on success. */
    method SendHeartbeat(success: bool, response: seq<PartitionInfo>, now: int) returns (ok: bool)
      requires Valid() && Fits(response) && NoShare(heartPartitions + response)
      modifies this`heldPartitions, this`heartPartitions
      ensures Valid() && ok == success
      ensures success ==> Values(heldPartitions) == old(Values(response)) &&
                          Added(old(Values(heartPartitions)), old(Values(response)), Values(heartPartitions))
      ensures !success && now - lastHeartbeatSuccessTime <= consumerGroupTimeout + heartbeatInterval ==>
                Values(heldPartitions) == old(Values(heldPartitions)) &&
                Added(old(Values(heartPartitions)), old(Values(heldPartitions)), Values(heartPartitions))
      ensures BeatTakes(topicIDs,
                        if success then Success(old(Values(response)))
                        else if now - lastHeartbeatSuccessTime > consumerGroupTimeout + heartbeatInterval then TimedOut
                        else Kept,
                        old(Values(heldPartitions)), old(Values(heartPartitions)),
                        Values(heldPartitions), Values(heartPartitions))
    {
      hide Values, NoShare, Topics, Added, Nothing;
      if success {
        TakeResponse(response);
        return true;
      } else {
        if now - lastHeartbeatSuccessTime > consumerGroupTimeout + heartbeatInterval {
          ResetLists();
        } else {
          KeepLists();
        }
        return false;
      }
    }

    /**
      * One round of the loop of run: the heartbeat, and the time of its success. What is held stays reported if
      * it was and the response repeats nothing.
      */
    method RunRound(success: bool, response: seq<PartitionInfo>, now: int, later: int)
      requires Valid() && Fits(response) && NoShare(heartPartitions + response)
      modifies this`heldPartitions, this`heartPartitions, this`lastHeartbeatSuccessTime
      ensures Valid() && lastHeartbeatSuccessTime == (if success then later else old(lastHeartbeatSuccessTime))
      ensures (success ==> Proper(old(Values(response)))) ==>
                && (old(Kosher(Values(heldPartitions), Values(heartPartitions))) ==>
                      Kosher(Values(heldPartitions), Values(heartPartitions)))
                && (old(Tidy()) && DistinctTopics(topicIDs) ==> Tidy())
      ensures success ==> Values(heldPartitions) == old(Values(response)) &&
                          Added(old(Values(heartPartitions)), old(Values(response)), Values(heartPartitions))
      ensures !success && now - old(lastHeartbeatSuccessTime) <= consumerGroupTimeout + heartbeatInterval ==>
                Values(heldPartitions) == old(Values(heldPartitions)) &&
                Added(old(Values(heartPartitions)), old(Values(heldPartitions)), Values(heartPartitions))
      ensures !success && now - old(lastHeartbeatSuccessTime) > consumerGroupTimeout + heartbeatInterval ==>
                Shows(Nothing(topicIDs), Nothing(topicIDs))
    {
      hide Values, NoShare, Topics, Kosher, Proper, DistinctTopics, Added;
      ghost var held, heart, v := Values(heldPartitions), Values(heartPartitions), Values(response);
      var ok := SendHeartbeat(success, response, now);
      ghost var a0, a1 := Arrays(heldPartitions), Arrays(heartPartitions);
      ghost var held', heart' := Values(heldPartitions), Values(heartPartitions);
      ghost var beat := if success then Success(v)
                        else if now - lastHeartbeatSuccessTime > consumerGroupTimeout + heartbeatInterval then TimedOut
                        else Kept;
      if Kosher(held, heart) && (success ==> Proper(v)) {
        BeatKeeps(topicIDs, beat, held, heart, held', heart');
      }
      if Proper(held) && Proper(heart) && DistinctTopics(topicIDs) && (success ==> Proper(v)) {
        BeatKeepsProper(topicIDs, beat, held, heart, held', heart');
      }
      if ok {
        lastHeartbeatSuccessTime := later;
      }
    }

    method RemoveHeartPartition(t: Topic, id: int)
      requires Valid()
      modifies this`heldPartitions, this`heartPartitions, Arrays(heldPartitions), Arrays(heartPartitions)
      ensures Valid()
      ensures BeatTakes(topicIDs, Remove(t, id), old(Values(heldPartitions)), old(Values(heartPartitions)),
                        Values(heldPartitions), Values(heartPartitions))
      ensures Arrays(heldPartitions) == old(Arrays(heldPartitions)) && Arrays(heartPartitions) == old(Arrays(heartPartitions))
    {
      hide Values, NoShare, Topics, Removed;
      ghost var held, heart := Values(heldPartitions), Values(heartPartitions);
      ghost var list0, list1 := heldPartitions, heartPartitions;
      ghost var a0, a1 := Arrays(heldPartitions), Arrays(heartPartitions);
      ShareParts(heldPartitions, heartPartitions);
      ArraysApart(heldPartitions, heartPartitions);
      heldPartitions := RemoveFrom(heldPartitions, t, id);
      SameShape(list0, heldPartitions);
      ghost var held' := Values(heldPartitions);
      assert Values(heartPartitions) == heart;
      heartPartitions := RemoveFrom(heartPartitions, t, id);
      SameShape(list1, heartPartitions);
      assert Values(heldPartitions) == held';
      ArraysApart(heldPartitions, heartPartitions);
      ShareAppend(heldPartitions, heartPartitions);
      RemovedBounds(held, t, id, t);
      RemovedBounds(heart, t, id, t);
    }
  }
}
