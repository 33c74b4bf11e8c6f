/**
  * The retry queue: a binary heap of batches ordered by their next retry time, kept by the sift-up and
  * sift-down of Go's container/heap over the queue's own Less, Swap, Push and Pop.
  */
module RetryQueue {
  import opened ProducerBatches

  // ----- Heaps of keys -----

  function Parent(k: nat): (p: nat)
    requires k > 0
    ensures p < k && (k == 2 * p + 1 || k == 2 * p + 2)
  {
    (k - 1) / 2
  }

  ghost predicate Heap(keys: seq<int>) {
    forall k | 0 < k < |keys| :: keys[Parent(k)] <= keys[k]
  }

  /** A heap but for the key at `j`, which may be too small for its place. */
  ghost predicate HeapAbove(keys: seq<int>, j: nat) {
    && (forall k | 0 < k < |keys| && k != j :: keys[Parent(k)] <= keys[k])
    && (j > 0 ==> forall k | 0 < k < |keys| && Parent(k) == j :: keys[Parent(j)] <= keys[k])
  }

  /** A heap but for the key at `i`, which may be too large for its place. */
  ghost predicate HeapBelow(keys: seq<int>, i: nat) {
    && (forall k | 0 < k < |keys| && Parent(k) != i :: keys[Parent(k)] <= keys[k])
    && (i > 0 ==> forall k | 0 < k < |keys| && Parent(k) == i :: keys[Parent(i)] <= keys[k])
  }

  function Swapped<T>(s: seq<T>, i: nat, j: nat): (r: seq<T>)
    requires i < |s| && j < |s|
    ensures |r| == |s|
  {
    s[i := s[j]][j := s[i]]
  }

  lemma SiftedUp(keys: seq<int>, j: nat)
    requires 0 < j < |keys| && HeapAbove(keys, j) && keys[j] < keys[Parent(j)]
    ensures HeapAbove(Swapped(keys, Parent(j), j), Parent(j))
  {
    var p := Parent(j);
    var s := Swapped(keys, p, j);
    forall k | 0 < k < |s| && k != p
      ensures s[Parent(k)] <= s[k]
    {
      if k != j {
        assert keys[Parent(k)] <= keys[k];
      }
    }
    if p > 0 {
      forall k | 0 < k < |s| && Parent(k) == p
        ensures s[Parent(p)] <= s[k]
      {
        assert keys[Parent(p)] <= keys[p];
        if k != j {
          assert keys[Parent(k)] <= keys[k];
        }
      }
    }
  }

  lemma SiftedDown(keys: seq<int>, i: nat, j: nat)
    requires 0 < j < |keys| && Parent(j) == i && HeapBelow(keys, i) && keys[j] < keys[i]
    requires forall k | 0 < k < |keys| && Parent(k) == i :: keys[j] <= keys[k]
    ensures HeapBelow(Swapped(keys, i, j), j)
  {
    var s := Swapped(keys, i, j);
    forall k | 0 < k < |s| && Parent(k) != j
      ensures s[Parent(k)] <= s[k]
    {
      if k == i {
        assert keys[Parent(i)] <= keys[j];
      } else if Parent(k) != i {
        assert keys[Parent(k)] <= keys[k];
      }
    }
    forall k | 0 < k < |s| && Parent(k) == j
      ensures s[Parent(j)] <= s[k]
    {
      assert keys[Parent(k)] <= keys[k];
    }
  }

  lemma {:induction false} RootIsLeast(keys: seq<int>, k: nat)
    requires Heap(keys) && k < |keys|
    ensures keys[0] <= keys[k]
    decreases k
  {
    if k > 0 {
      RootIsLeast(keys, Parent(k));
    }
  }

  /** The last key moved to the root of the shortened heap. */
  lemma LastToRoot(keys: seq<int>)
    requires Heap(keys) && |keys| > 0
    ensures HeapBelow(Swapped(keys, 0, |keys| - 1)[..|keys| - 1], 0)
  {
    var n := |keys| - 1;
    var s := Swapped(keys, 0, n)[..n];
    forall k | 0 < k < |s| && Parent(k) != 0
      ensures s[Parent(k)] <= s[k]
    {
      assert keys[Parent(k)] <= keys[k];
    }
  }

  /** The smaller of two children is at most both. */
  lemma SmallerChild(keys: seq<int>, i: nat, j: nat)
    requires 2 * i + 1 <= j <= 2 * i + 2 && j < |keys|
    requires forall k | 2 * i + 1 <= k <= 2 * i + 2 && k < |keys| :: keys[j] <= keys[k]
    ensures Parent(j) == i && forall k | 0 < k < |keys| && Parent(k) == i :: keys[j] <= keys[k]
  {
  }

  lemma Settled(keys: seq<int>, i: nat)
    requires HeapBelow(keys, i) && forall k | 0 < k < |keys| && Parent(k) == i :: keys[i] <= keys[k]
    ensures Heap(keys)
  {
  }

  lemma Raised(keys: seq<int>, j: nat)
    requires j < |keys| && HeapAbove(keys, j) && (j > 0 ==> keys[Parent(j)] <= keys[j])
    ensures Heap(keys)
  {
  }

  lemma SwapFront<T>(q: seq<T>, keys: seq<int>, n: nat, i: nat, j: nat)
    requires n <= |q| == |keys| && i < n && j < n
    ensures Swapped(keys, i, j)[..n] == Swapped(keys[..n], i, j) && Swapped(q, i, j)[n..] == q[n..]
  {
  }

  lemma SwapKeepsMultiset<T>(s: seq<T>, i: nat, j: nat)
    requires i < |s| && j < |s|
    ensures multiset(Swapped(s, i, j)) == multiset(s)
  {
  }

  // ----- The queue -----

  ghost function KeysOf(q: seq<ProducerBatch>): (keys: seq<int>)
    reads q
    ensures |keys| == |q| && forall i | 0 <= i < |q| :: keys[i] == q[i].nextRetryMs
  {
    if q == [] then [] else [q[0].nextRetryMs] + KeysOf(q[1..])
  }

  ghost predicate Sorted(q: seq<ProducerBatch>)
    reads q
  {
    forall i, j | 0 <= i < j < |q| :: q[i].nextRetryMs <= q[j].nextRetryMs
  }

  /** Every batch of `a` is due no later than every one of `b`. */
  ghost predicate NoLater(a: seq<ProducerBatch>, b: seq<ProducerBatch>)
    reads a, b
  {
    forall x <- a, y <- b :: x.nextRetryMs <= y.nextRetryMs
  }

  class LogSendRetryQueue {
    var batch: seq<ProducerBatch>

    constructor ()
      ensures Valid() && batch == []
    {
      batch := [];
    }

    ghost predicate Valid()
      reads this, batch
    {
      Heap(KeysOf(batch))
    }

    method Less(i: nat, j: nat) returns (r: bool)
      requires i < |batch| && j < |batch|
      ensures r == (batch[i].nextRetryMs < batch[j].nextRetryMs) == (KeysOf(batch)[i] < KeysOf(batch)[j])
    {
      r := batch[i].nextRetryMs < batch[j].nextRetryMs;
    }

    method Swap(i: nat, j: nat)
      requires i < |batch| && j < |batch|
      modifies this
      ensures batch == Swapped(old(batch), i, j)
      ensures KeysOf(batch) == Swapped(old(KeysOf(batch)), i, j)
      ensures multiset(batch) == multiset(old(batch))
    {
      SwapKeepsMultiset(batch, i, j);
      batch := batch[i := batch[j]][j := batch[i]];
    }

    method Up(start: nat)
      requires start < |batch| && HeapAbove(KeysOf(batch), start)
      modifies this
      ensures Valid() && multiset(batch) == multiset(old(batch))
    {
      hide HeapAbove, Heap, KeysOf, Swapped;
      var j: nat := start;
      while true
        invariant j < |batch| && |batch| == |old(batch)| && HeapAbove(KeysOf(batch), j)
        invariant multiset(batch) == multiset(old(batch))
        decreases j
      {
        var i: nat := if j == 0 then 0 else (j - 1) / 2;  // Go truncates: (0 - 1) / 2 == 0
        var less := Less(j, i);
        if i == j || !less {
          Raised(KeysOf(batch), j);
          break;
        }
        SiftedUp(KeysOf(batch), j);
        Swap(i, j);
        j := i;
      }
    }

    /** Sifts down within the first `n` batches. */
    method Down(n: nat)
      requires n <= |batch| && HeapBelow(KeysOf(batch)[..n], 0)
      modifies this
      ensures |batch| == |old(batch)| && batch[n..] == old(batch)[n..]
      ensures Heap(KeysOf(batch)[..n]) && multiset(batch) == multiset(old(batch))
    {
      hide HeapBelow, Heap, KeysOf, Parent, Swapped;
      var i: nat := 0;
      while true
        invariant |batch| == |old(batch)| && batch[n..] == old(batch)[n..]
        invariant HeapBelow(KeysOf(batch)[..n], i) && multiset(batch) == multiset(old(batch))
        decreases n - i
      {
        ghost var keys := KeysOf(batch)[..n];
        var j1 := 2 * i + 1;
        if j1 >= n {
          Settled(keys, i);
          break;
        }
        var j := j1;
        var j2 := j1 + 1;
        if j2 < n {
          var right := Less(j2, j1);
          if right {
            j := j2;
          }
        }
        SmallerChild(keys, i, j);
        var less := Less(j, i);
        if !less {
          Settled(keys, i);
          break;
        }
        SiftedDown(keys, i, j);
        SwapFront(batch, KeysOf(batch), n, i, j);
        Swap(i, j);
        i := j;
      }
    }

    /** heap.Push */
    method Push(x: ProducerBatch)
      requires Valid()
      modifies this
      ensures Valid() && multiset(batch) == multiset(old(batch)) + multiset{x}
    {
      ghost var keys := KeysOf(batch);
      batch := batch + [x];
      assert KeysOf(batch)[..|keys|] == keys;
      HeapWithLast(keys, KeysOf(batch));
      Up(|batch| - 1);
    }

    /** heap.Pop */
    method Pop() returns (x: ProducerBatch)
      requires Valid() && |batch| > 0
      modifies this
      ensures Valid() && multiset(old(batch)) == multiset(batch) + multiset{x}
      ensures forall b <- old(batch) :: x.nextRetryMs <= b.nextRetryMs
    {
      hide HeapBelow, Heap, KeysOf, Swapped;
      ghost var all := batch;
      var n := |batch| - 1;
      LastToRoot(KeysOf(batch));
      LeastFirst(batch);
      Swap(0, n);
      Down(n);
      x := batch[n];
      LastOut(all, batch);
      assert KeysOf(batch[..n]) == KeysOf(batch)[..n];
      batch := batch[..n];
    }

    method SendToRetryQueue(b: ProducerBatch)
      requires Valid()
      modifies this
      ensures Valid() && multiset(batch) == multiset(old(batch)) + multiset{b}
    {
      Push(b);
    }

    /** The due batches in order, each due at its own reading of the clock; what stays was not due at the last. */
    method TakeDue(clock: nat -> int) returns (list: seq<ProducerBatch>)
      requires Valid()
      modifies this
      ensures Valid() && multiset(list) + multiset(batch) == multiset(old(batch))
      ensures Sorted(list)
      ensures forall i | 0 <= i < |list| :: list[i].nextRetryMs < clock(i)
      ensures forall b <- batch :: clock(|list|) <= b.nextRetryMs
    {
      hide Heap, KeysOf, Sorted, NoLater, Parts;
      ghost var all := multiset(batch);
      list := [];
      NoneTaken(batch);
      while |batch| > 0
        invariant Valid() && Parts(list, batch, all)
        invariant Sorted(list) && NoLater(list, batch)
        invariant forall i | 0 <= i < |list| :: list[i].nextRetryMs < clock(i)
        decreases |batch|
      {
        ghost var was := batch;
        var b := Pop();
        if b.nextRetryMs < clock(|list|) {
          TakenOne(list, was, batch, b, all);
          list := list + [b];
        } else {
          ghost var rest := batch;
          Push(b);
          PutBack(list, was, rest, batch, b, all);
          return;
        }
      }
      AllParts(list, batch, all);
    }

    method TakeAll() returns (list: seq<ProducerBatch>)
      requires Valid()
      modifies this
      ensures Valid() && batch == [] && multiset(list) == multiset(old(batch)) && Sorted(list)
    {
      hide Heap, KeysOf, Sorted, NoLater, Parts;
      ghost var all := multiset(batch);
      list := [];
      NoneTaken(batch);
      while |batch| > 0
        invariant Valid() && Parts(list, batch, all)
        invariant Sorted(list) && NoLater(list, batch)
        decreases |batch|
      {
        ghost var was := batch;
        var b := Pop();
        TakenOne(list, was, batch, b, all);
        list := list + [b];
      }
      AllParts(list, batch, all);
    }

    /** getRetryBatch */
    method GetRetryBatch(stop: bool, clock: nat -> int) returns (list: seq<ProducerBatch>)
      requires Valid()
      modifies this
      ensures Valid() && multiset(list) + multiset(batch) == multiset(old(batch)) && Sorted(list)
      ensures stop ==> batch == []
      ensures !stop ==> forall i | 0 <= i < |list| :: list[i].nextRetryMs < clock(i)
      ensures !stop ==> forall b <- batch :: clock(|list|) <= b.nextRetryMs
    {
      hide Heap, KeysOf, Sorted, NoLater;
      if !stop {
        list := TakeDue(clock);
      } else {
        list := TakeAll();
      }
    }
  }

  /** The list and the queue together are `all`. */
  ghost predicate Parts(list: seq<ProducerBatch>, q: seq<ProducerBatch>, all: multiset<ProducerBatch>) {
    multiset(list) + multiset(q) == all
  }

  lemma NoneTaken(q: seq<ProducerBatch>)
    ensures Sorted([]) && NoLater([], q) && Parts([], q, multiset(q))
  {
  }

  lemma AllParts(list: seq<ProducerBatch>, q: seq<ProducerBatch>, all: multiset<ProducerBatch>)
    requires Parts(list, q, all)
    ensures multiset(list) + multiset(q) == all
  {
  }

  /** The least batch was popped and pushed again. */
  lemma PutBack(list: seq<ProducerBatch>, was: seq<ProducerBatch>, rest: seq<ProducerBatch>,
                now: seq<ProducerBatch>, b: ProducerBatch, all: multiset<ProducerBatch>)
    requires Sorted(list) && Parts(list, was, all) && multiset(was) == multiset(rest) + multiset{b} == multiset(now)
    requires forall x <- was :: b.nextRetryMs <= x.nextRetryMs
    ensures multiset(list) + multiset(now) == all
    ensures forall x <- now :: b.nextRetryMs <= x.nextRetryMs
  {
    Elements(was, rest, b);
    Elements(now, rest, b);
  }

  /** The least batch of the heap goes to the end of the list. */
  lemma TakenOne(list: seq<ProducerBatch>, was: seq<ProducerBatch>, rest: seq<ProducerBatch>, b: ProducerBatch,
                 all: multiset<ProducerBatch>)
    requires Sorted(list) && NoLater(list, was) && Parts(list, was, all)
    requires multiset(was) == multiset(rest) + multiset{b} && forall x <- was :: b.nextRetryMs <= x.nextRetryMs
    ensures Sorted(list + [b]) && NoLater(list + [b], rest) && Parts(list + [b], rest, all)
    ensures |rest| < |was|
  {
    Elements(was, rest, b);
    forall i | 0 <= i < |list|
      ensures list[i].nextRetryMs <= b.nextRetryMs
    {
      assert list[i] in list;
    }
  }

  lemma HeapWithLast(keys: seq<int>, longer: seq<int>)
    requires Heap(keys) && |longer| == |keys| + 1 && longer[..|keys|] == keys
    ensures HeapAbove(longer, |keys|)
  {
    forall k | 0 < k < |keys|
      ensures longer[Parent(k)] <= longer[k]
    {
      assert keys[Parent(k)] <= keys[k];
      assert longer[Parent(k)] == keys[Parent(k)] && longer[k] == keys[k];
    }
  }

  /** Once the root was swapped to the end, cutting the end off takes the root out. */
  lemma LastOut<T>(all: seq<T>, q: seq<T>)
    requires 0 < |all| == |q| && multiset(q) == multiset(all)
    requires q[|q| - 1..] == Swapped(all, 0, |all| - 1)[|q| - 1..]
    ensures q[|q| - 1] == all[0] && multiset(all) == multiset(q[..|q| - 1]) + multiset{all[0]}
  {
    assert q[|q| - 1..][0] == all[0];
    assert q == q[..|q| - 1] + [q[|q| - 1]];
  }

  lemma LeastFirst(q: seq<ProducerBatch>)
    requires Heap(KeysOf(q)) && |q| > 0
    ensures forall b <- q :: q[0].nextRetryMs <= b.nextRetryMs
  {
    hide KeysOf, Heap;
    forall k | 0 <= k < |q|
      ensures q[0].nextRetryMs <= q[k].nextRetryMs
    {
      RootIsLeast(KeysOf(q), k);
    }
  }

  /** What is in a queue that is another one and one more. */
  lemma Elements(whole: seq<ProducerBatch>, rest: seq<ProducerBatch>, b: ProducerBatch)
    requires multiset(whole) == multiset(rest) + multiset{b}
    ensures forall x :: x in whole <==> x in rest || x == b
    ensures |whole| == |rest| + 1
  {
    forall x: ProducerBatch
      ensures x in whole <==> x in rest || x == b
    {
      assert x in whole <==> x in multiset(whole);
      assert x in rest <==> x in multiset(rest);
    }
    assert |multiset(whole)| == |whole| && |multiset(rest)| == |rest|;
  }
}
