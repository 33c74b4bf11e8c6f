/** The retry queue takes only what the step system allows its timer to take. */
module RetryRefinement {
  import opened Pipeline
  import opened ProducerBatches
  import opened RetryQueue

  /** The indices of batches, by some numbering. */
  function Ids(id: ProducerBatch -> nat, q: seq<ProducerBatch>): seq<nat> {
    if q == [] then [] else Ids(id, q[..|q| - 1]) + [id(q[|q| - 1])]
  }

  lemma {:induction false} IdsAt(id: ProducerBatch -> nat, q: seq<ProducerBatch>)
    ensures |Ids(id, q)| == |q| && forall i | 0 <= i < |q| :: Ids(id, q)[i] == id(q[i])
  {
    if q != [] {
      IdsAt(id, q[..|q| - 1]);
    }
  }

  lemma {:induction false} IdsAppend(id: ProducerBatch -> nat, a: seq<ProducerBatch>, b: seq<ProducerBatch>)
    ensures Ids(id, a + b) == Ids(id, a) + Ids(id, b)
  {
    if b == [] {
      assert a + b == a;
    } else {
      var n := |b| - 1;
      assert (a + b)[..|a| + n] == a + b[..n] && (a + b)[|a| + n] == b[n];
      IdsAppend(id, a, b[..n]);
    }
  }

  lemma TakenOut<T>(b: seq<T>, j: nat)
    requires j < |b|
    ensures multiset(b) == multiset(b[..j] + b[j + 1..]) + multiset{b[j]}
  {
    assert b == b[..j] + ([b[j]] + b[j + 1..]);
  }

  lemma Cancel<T>(m: multiset<T>, n: multiset<T>, x: T)
    requires m + multiset{x} == n + multiset{x}
    ensures m == n
  {
    forall y
      ensures m[y] == n[y]
    {
      assert (m + multiset{x})[y] == (n + multiset{x})[y];
    }
  }

  lemma IdsTakenOut(id: ProducerBatch -> nat, b: seq<ProducerBatch>, j: nat)
    requires j < |b|
    ensures multiset(Ids(id, b)) == multiset(Ids(id, b[..j] + b[j + 1..])) + multiset{id(b[j])}
  {
    hide Ids;
    assert b == b[..j] + ([b[j]] + b[j + 1..]);
    IdsAppend(id, b[..j], [b[j]] + b[j + 1..]);
    IdsAppend(id, [b[j]], b[j + 1..]);
    IdsAppend(id, b[..j], b[j + 1..]);
    OneId(id, b[j]);
  }

  /** The indices of the same batches in another order are the same indices in another order. */
  lemma {:induction false} IdsPermuted(id: ProducerBatch -> nat, a: seq<ProducerBatch>, b: seq<ProducerBatch>)
    requires multiset(a) == multiset(b)
    ensures multiset(Ids(id, a)) == multiset(Ids(id, b))
    decreases |a|
  {
    hide Ids;
    if a == [] {
      assert |multiset(b)| == |b|;
    } else {
      var n := |a| - 1;
      TakenOut(a, n);
      assert a[n] in multiset(b);
      var j :| 0 <= j < |b| && b[j] == a[n];
      TakenOut(b, j);
      Cancel(multiset(a[..n] + a[n + 1..]), multiset(b[..j] + b[j + 1..]), a[n]);
      IdsPermuted(id, a[..n] + a[n + 1..], b[..j] + b[j + 1..]);
      IdsTakenOut(id, a, n);
      IdsTakenOut(id, b, j);
    }
  }

  lemma OneId(id: ProducerBatch -> nat, b: ProducerBatch)
    ensures Ids(id, [b]) == [id(b)]
  {
    assert [b][..0] == [];
  }

  /** The clock readings of a call that took `n` batches and left some, or none. */
  function Readings(clock: nat -> int, n: nat, left: bool): seq<int> {
    seq(if left then n + 1 else n, i requires 0 <= i => clock(i))
  }

  /**
    * What getRetryBatch ensures about the list it returns and the queue it leaves is what the step system asks
    * of a take of the same batches with the same clock readings.
    */
  lemma TakeIsAllowed(s: State, id: ProducerBatch -> nat, before: seq<ProducerBatch>, list: seq<ProducerBatch>,
                      rest: seq<ProducerBatch>, stop: bool, clock: nat -> int)
    requires multiset(list) + multiset(rest) == multiset(before)
    requires s.heap == multiset(Ids(id, before))
    requires forall b <- before :: Known(s, id(b)) && RetryKey(s, id(b)) == b.nextRetryMs
    requires Sorted(list) && (stop ==> rest == [])
    requires !stop ==> forall i | 0 <= i < |list| :: list[i].nextRetryMs < clock(i)
    requires !stop ==> forall b <- rest :: clock(|list|) <= b.nextRetryMs
    ensures MayTake(s, Ids(id, list), if stop then [] else Readings(clock, |list|, rest != []), stop)
    ensures s.heap - multiset(Ids(id, list)) == multiset(Ids(id, rest))
  {
    hide Ids, MayTake, RetryKey, Readings, Sorted, Known;
    HeapSplits(id, before, list, rest);
    TakenKeys(s, id, before, list);
    TakenKeys(s, id, before, rest);
    if stop {
      AllowedWhenDue(s, Ids(id, list), Ids(id, rest), [], true, list, rest);
    } else {
      AllowedAtReadings(s, Ids(id, list), Ids(id, rest), clock, list, rest);
    }
  }

  lemma AllowedAtReadings(s: State, ids: seq<nat>, others: seq<nat>, clock: nat -> int,
                          list: seq<ProducerBatch>, rest: seq<ProducerBatch>)
    requires s.heap == multiset(ids) + multiset(others) && |ids| == |list| && |others| == |rest|
    requires forall i | 0 <= i < |ids| :: Known(s, ids[i]) && RetryKey(s, ids[i]) == list[i].nextRetryMs
    requires forall i | 0 <= i < |others| :: Known(s, others[i]) && RetryKey(s, others[i]) == rest[i].nextRetryMs
    requires Sorted(list) && forall i | 0 <= i < |list| :: list[i].nextRetryMs < clock(i)
    requires forall b <- rest :: clock(|list|) <= b.nextRetryMs
    ensures MayTake(s, ids, Readings(clock, |list|, rest != []), false) && s.heap - multiset(ids) == multiset(others)
  {
    hide MayTake, RetryKey, Readings, Sorted, Known;
    ReadingsAre(clock, |list|, rest != []);
    AllowedWhenDue(s, ids, others, Readings(clock, |list|, rest != []), false, list, rest);
  }

  lemma ReadingsAre(clock: nat -> int, n: nat, left: bool)
    ensures |Readings(clock, n, left)| == n + (if left then 1 else 0)
    ensures forall i | 0 <= i < |Readings(clock, n, left)| :: Readings(clock, n, left)[i] == clock(i)
  {
  }

  /** The conditions on the batches are conditions on their keys. */
  lemma AllowedWhenDue(s: State, ids: seq<nat>, others: seq<nat>, clock: seq<int>, all: bool,
                       list: seq<ProducerBatch>, rest: seq<ProducerBatch>)
    requires s.heap == multiset(ids) + multiset(others) && |ids| == |list| && |others| == |rest|
    requires forall i | 0 <= i < |ids| :: Known(s, ids[i]) && RetryKey(s, ids[i]) == list[i].nextRetryMs
    requires forall i | 0 <= i < |others| :: Known(s, others[i]) && RetryKey(s, others[i]) == rest[i].nextRetryMs
    requires Sorted(list) && (all ==> rest == [])
    requires !all ==> |clock| == |list| + (if rest == [] then 0 else 1)
    requires !all ==> forall i | 0 <= i < |list| :: list[i].nextRetryMs < clock[i]
    requires !all ==> forall b <- rest :: clock[|list|] <= b.nextRetryMs
    ensures MayTake(s, ids, clock, all) && s.heap - multiset(ids) == multiset(others)
  {
    hide MayTake, RetryKey;
    if !all {
      forall i | 0 <= i < |others|
        ensures clock[|ids|] <= RetryKey(s, others[i])
      {
        assert rest[i] in rest;
      }
    }
    Allowed(s, ids, others, clock, all);
  }

  lemma HeapSplits(id: ProducerBatch -> nat, before: seq<ProducerBatch>, list: seq<ProducerBatch>, rest: seq<ProducerBatch>)
    requires multiset(list) + multiset(rest) == multiset(before)
    ensures multiset(Ids(id, before)) == multiset(Ids(id, list)) + multiset(Ids(id, rest))
    ensures |Ids(id, list)| == |list| && |Ids(id, rest)| == |rest|
    ensures forall b :: b in list || b in rest ==> b in before
  {
    hide Ids;
    Members(before, list, rest);
    IdsPermuted(id, list + rest, before);
    IdsAppend(id, list, rest);
    IdsAt(id, list);
    IdsAt(id, rest);
  }

  lemma TakenKeys(s: State, id: ProducerBatch -> nat, before: seq<ProducerBatch>, part: seq<ProducerBatch>)
    requires forall b <- before :: Known(s, id(b)) && RetryKey(s, id(b)) == b.nextRetryMs
    requires forall b <- part :: b in before
    ensures |Ids(id, part)| == |part|
    ensures forall i | 0 <= i < |part| :: Known(s, Ids(id, part)[i]) && RetryKey(s, Ids(id, part)[i]) == part[i].nextRetryMs
  {
    hide Ids, RetryKey;
    IdsAt(id, part);
    forall i | 0 <= i < |part|
      ensures Known(s, Ids(id, part)[i]) && RetryKey(s, Ids(id, part)[i]) == part[i].nextRetryMs
    {
      assert part[i] in part;
    }
  }

  lemma Allowed(s: State, ids: seq<nat>, others: seq<nat>, clock: seq<int>, all: bool)
    requires s.heap == multiset(ids) + multiset(others)
    requires (forall i | 0 <= i < |ids| :: Known(s, ids[i])) && (forall i | 0 <= i < |others| :: Known(s, others[i]))
    requires forall i, j | 0 <= i < j < |ids| :: RetryKey(s, ids[i]) <= RetryKey(s, ids[j])
    requires all ==> others == []
    requires !all ==> |clock| == |ids| + (if others == [] then 0 else 1)
    requires !all ==> forall i | 0 <= i < |ids| :: RetryKey(s, ids[i]) < clock[i]
    requires !all ==> forall i | 0 <= i < |others| :: clock[|ids|] <= RetryKey(s, others[i])
    ensures MayTake(s, ids, clock, all) && s.heap - multiset(ids) == multiset(others)
  {
    hide RetryKey, Known;
    TakenIds(s.heap, ids, others);
    forall id | id in s.heap ensures Known(s, id) { assert id in ids || id in others; }
  }

  /** What is taken from a heap, and what is left. */
  lemma TakenIds(heap: multiset<nat>, ids: seq<nat>, others: seq<nat>)
    requires heap == multiset(ids) + multiset(others)
    ensures multiset(ids) <= heap && heap - multiset(ids) == multiset(others)
    ensures multiset(ids) == heap <==> others == []
    ensures forall id :: id in heap <==> id in ids || id in others
    ensures forall id :: id in multiset(others) <==> id in others
  {
    assert |multiset(others)| == |others|;
    assert heap - multiset(ids) == multiset(others);
  }

  lemma Members(before: seq<ProducerBatch>, list: seq<ProducerBatch>, rest: seq<ProducerBatch>)
    requires multiset(list) + multiset(rest) == multiset(before)
    ensures multiset(list + rest) == multiset(before)
    ensures forall b :: b in list || b in rest ==> b in before
  {
    forall b: ProducerBatch | b in list || b in rest
      ensures b in before
    {
      assert b in multiset(list) || b in multiset(rest);
      assert b in multiset(before);
    }
  }
}
