/**
 The bounded priority queue of LLM jobs (src/analyzer_ng/llm/queue.py).

 The list of the source is kept as a binary heap (`heapq`). Its abstract value is the
 sequence of waiting entries in arrival order; the class is proved against that value, and
 the results (what is kept, what comes out, what is lost) are lemmas about it.
 */
module LlmQueue {
  import opened Wrappers
  import opened Sorting

  datatype Role = Judge | Extractor | ColdStart | Explainer | AbstainExplainer

  datatype Job = Job(role: Role, project: int, item: int) {
    function Priority(): nat {
      match role
      case Judge => 0
      case Extractor => 1
      case ColdStart => 1
      case Explainer => 2
      case AbstainExplainer => 2
    }
  }

  /** A heap entry: Python compares (priority, stamp) and, stamps being distinct, never the job. */
  datatype Entry = Entry(priority: nat, stamp: nat, job: Job)

  function Stamp(): Entry -> int { (e: Entry) => e.stamp }

  predicate Leq(a: Entry, b: Entry) {
    a.priority < b.priority || (a.priority == b.priority && a.stamp <= b.stamp)
  }

  // ----- the binary heap ---------------------------------------------------

  function Parent(i: nat): nat
    requires i > 0
  {
    (i - 1) / 2
  }

  /** Every entry whose parent is at `lo` or beyond is no smaller than that parent. */
  predicate HeapFrom(h: seq<Entry>, lo: nat) {
    forall i :: 0 < i < |h| && Parent(i) >= lo ==> Leq(h[Parent(i)], h[i])
  }

  function Swap(h: seq<Entry>, i: nat, j: nat): seq<Entry>
    requires i < |h| && j < |h|
  {
    h[i := h[j]][j := h[i]]
  }

  lemma {:induction false} SwapPermutes(h: seq<Entry>, i: nat, j: nat)
    requires i < |h| && j < |h|
    ensures multiset(Swap(h, i, j)) == multiset(h)
  {
  }

  lemma {:induction false} RootIsLeast(h: seq<Entry>, i: nat)
    requires HeapFrom(h, 0) && i < |h|
    ensures Leq(h[0], h[i])
  {
    if i > 0 {
      RootIsLeast(h, Parent(i));
    }
  }

  /** A heap but for the entry at `p`, which may be smaller than its parent. */
  predicate UpHole(h: seq<Entry>, p: nat) {
    && p < |h|
    && (forall i :: 0 < i < |h| && i != p ==> Leq(h[Parent(i)], h[i]))
    && (forall i :: 0 < i < |h| && Parent(i) == p && p > 0 ==> Leq(h[Parent(p)], h[i]))
  }

  lemma {:induction false} UpStep(h: seq<Entry>, p: nat)
    requires UpHole(h, p) && p > 0 && !Leq(h[Parent(p)], h[p])
    ensures UpHole(Swap(h, p, Parent(p)), Parent(p))
  {
    var q := Parent(p);
    var r := Swap(h, p, q);
    forall i | 0 < i < |r| && i != q ensures Leq(r[Parent(i)], r[i]) {
      if i != p && Parent(i) == q { assert Leq(h[q], h[i]); }
    }
    forall i | 0 < i < |r| && Parent(i) == q && q > 0 ensures Leq(r[Parent(q)], r[i]) {
      assert Leq(h[Parent(q)], h[q]);
      if i != p { assert Leq(h[q], h[i]); }
    }
  }

  /** Move the entry at the end toward the root until its parent is no larger. */
  method SiftUp(h: seq<Entry>) returns (r: seq<Entry>)
    requires h != [] && HeapFrom(h[..|h| - 1], 0)
    ensures HeapFrom(r, 0) && multiset(r) == multiset(h)
  {
    hide Leq, Swap;
    r := h;
    var p := |h| - 1;
    assert forall i :: 0 < i < |h| - 1 ==> h[..|h| - 1][i] == h[i] && h[..|h| - 1][Parent(i)] == h[Parent(i)];
    while p > 0 && !Leq(r[Parent(p)], r[p])
      invariant 0 <= p && UpHole(r, p) && multiset(r) == multiset(h)
    {
      SwapPermutes(r, p, Parent(p));
      UpStep(r, p);
      r := Swap(r, p, Parent(p));
      p := Parent(p);
    }
  }

  /** A heap from `lo` on but for the entry at `p`, which may be larger than its children. */
  predicate DownHole(h: seq<Entry>, lo: nat, p: nat) {
    && lo <= p
    && (forall i :: 0 < i < |h| && Parent(i) >= lo && Parent(i) != p ==> Leq(h[Parent(i)], h[i]))
    && (forall i :: 0 < i < |h| && Parent(i) == p && p > 0 && Parent(p) >= lo ==> Leq(h[Parent(p)], h[i]))
  }

  /** `child` is a least child of `p`. */
  predicate LeastChild(h: seq<Entry>, p: nat, child: nat) {
    && 0 < child < |h| && Parent(child) == p
    && forall i :: 0 < i < |h| && Parent(i) == p ==> Leq(h[child], h[i])
  }

  lemma {:induction false} DownStep(h: seq<Entry>, lo: nat, p: nat, child: nat)
    requires DownHole(h, lo, p) && LeastChild(h, p, child) && !Leq(h[p], h[child])
    ensures DownHole(Swap(h, p, child), lo, child)
  {
    var r := Swap(h, p, child);
    forall i | 0 < i < |r| && Parent(i) >= lo && Parent(i) != child ensures Leq(r[Parent(i)], r[i]) {
      if i == p { assert Leq(h[Parent(p)], h[child]); }
    }
    forall i | 0 < i < |r| && Parent(i) == child ensures Leq(r[p], r[i]) {
      assert Leq(h[child], h[i]);
    }
  }

  lemma {:induction false} DownStop(h: seq<Entry>, lo: nat, p: nat, child: nat)
    requires DownHole(h, lo, p) && LeastChild(h, p, child) && Leq(h[p], h[child])
    ensures HeapFrom(h, lo)
  {
  }

  /** Move the entry at `lo` toward the leaves until no child is smaller. */
  method SiftDown(h: seq<Entry>, lo: nat) returns (r: seq<Entry>)
    requires HeapFrom(h, lo + 1)
    ensures HeapFrom(r, lo) && multiset(r) == multiset(h) && |r| == |h|
  {
    hide Swap;
    r := h;
    var p := lo;
    while 2 * p + 1 < |r|
      invariant |r| == |h| && DownHole(r, lo, p) && multiset(r) == multiset(h)
    {
      var child := 2 * p + 1;
      if child + 1 < |r| && !Leq(r[child], r[child + 1]) {
        child := child + 1;
      }
      assert LeastChild(r, p, child);
      if Leq(r[p], r[child]) {
        DownStop(r, lo, p, child);
        return;
      }
      SwapPermutes(r, p, child);
      DownStep(r, lo, p, child);
      r := Swap(r, p, child);
      p := child;
    }
  }

  method Heapify(h: seq<Entry>) returns (r: seq<Entry>)
    ensures HeapFrom(r, 0) && multiset(r) == multiset(h)
  {
    r := h;
    var i := |h| / 2;
    while i > 0
      invariant 0 <= i && |r| == |h| && multiset(r) == multiset(h) && HeapFrom(r, i)
    {
      i := i - 1;
      r := SiftDown(r, i);
    }
  }

  // ----- the abstract queue: entries in arrival order -----------------------

  /** The eviction candidate: the oldest entry of the least urgent priority present. */
  function OldestWorst(w: seq<Entry>): (i: nat)
    requires w != []
    ensures i < |w|
    ensures forall j :: 0 <= j < |w| ==> w[j].priority <= w[i].priority
    ensures forall j :: 0 <= j < i ==> w[j].priority < w[i].priority
  {
    if |w| == 1 then 0
    else
      var k := OldestWorst(w[..|w| - 1]);
      if w[k].priority < w[|w| - 1].priority then |w| - 1 else k
  }

  /** The next job out: the oldest entry of the most urgent priority present. */
  function NextUp(w: seq<Entry>): (i: nat)
    requires w != []
    ensures i < |w|
    ensures forall j :: 0 <= j < |w| ==> w[i].priority <= w[j].priority
    ensures forall j :: 0 <= j < i ==> w[i].priority < w[j].priority
  {
    if |w| == 1 then 0
    else
      var k := NextUp(w[..|w| - 1]);
      if w[|w| - 1].priority < w[k].priority then |w| - 1 else k
  }

  function Without(w: seq<Entry>, i: nat): (r: seq<Entry>)
    requires i < |w|
    ensures |r| == |w| - 1
  {
    w[..i] + w[i + 1..]
  }

  /** The newcomer is less urgent than everything in a full queue. */
  predicate Rejects(w: seq<Entry>, priority: nat, k: nat)
    requires k >= 1
  {
    |w| >= k && priority > w[OldestWorst(w)].priority
  }

  /** What one enqueue does to a queue bounded by `k`. */
  function Offer(w: seq<Entry>, e: Entry, k: nat): seq<Entry>
    requires k >= 1
  {
    if |w| < k then w + [e]
    else if Rejects(w, e.priority, k) then w
    else Without(w, OldestWorst(w)) + [e]
  }

  lemma {:induction false} WithoutPermutes(w: seq<Entry>, i: nat)
    requires i < |w|
    ensures multiset(Without(w, i)) == multiset(w) - multiset{w[i]}
  {
    assert w == w[..i] + [w[i]] + w[i + 1..];
  }

  lemma {:induction false} WithoutStrict(w: seq<Entry>, i: nat)
    requires StrictlyAscending(Stamp(), w) && i < |w|
    ensures StrictlyAscending(Stamp(), Without(w, i))
  {
    var v := Without(w, i);
    forall a, b | 0 <= a < b < |v| ensures Stamp()(v[a]) < Stamp()(v[b]) {
      assert v[a] == w[if a < i then a else a + 1] && v[b] == w[if b < i then b else b + 1];
    }
  }

  /** Where an entry of the shortened order stood. */
  lemma {:induction false} Stood(w: seq<Entry>, i: nat, e: Entry) returns (j: nat)
    requires i < |w| && e in Without(w, i)
    ensures j < |w| && j != i && w[j] == e
  {
    var k :| 0 <= k < |Without(w, i)| && Without(w, i)[k] == e;
    j := if k < i then k else k + 1;
  }

  /** A heap with one entry fewer stands for the arrival order with that entry removed. */
  lemma {:induction false} RemovedFrom(h: seq<Entry>, h': seq<Entry>, i: nat)
    requires DistinctKeys(Stamp(), h) && i < |SortBy(Stamp(), h)|
    requires multiset(h') == multiset(h) - multiset{SortBy(Stamp(), h)[i]}
    ensures SortBy(Stamp(), h') == Without(SortBy(Stamp(), h), i)
    ensures DistinctKeys(Stamp(), h')
  {
    hide Without, SortBy, StrictlyAscending, DistinctKeys;
    var w := SortBy(Stamp(), h);
    SortSorts(Stamp(), h);
    SortIsStrict(Stamp(), h);
    WithoutPermutes(w, i);
    WithoutStrict(w, i);
    StrictlyDistinct(Without(w, i));
    DistinctKeysOfPermutation(Stamp(), Without(w, i), h');
    SortOfPermutation(Stamp(), h', Without(w, i));
    SortedIsSelf(Without(w, i));
  }

  lemma {:induction false} StrictlyDistinct(w: seq<Entry>)
    requires StrictlyAscending(Stamp(), w)
    ensures DistinctKeys(Stamp(), w)
  {
  }

  lemma {:induction false} SortedIsSelf(w: seq<Entry>)
    requires StrictlyAscending(Stamp(), w)
    ensures SortBy(Stamp(), w) == w
  {
    StrictlyDistinct(w);
    SortSorts(Stamp(), w);
    SortIsStrict(Stamp(), w);
    StrictIsUnique(Stamp(), SortBy(Stamp(), w), w);
  }

  /** A newest entry goes to the back of the arrival order. */
  lemma {:induction false} AddedTo(h: seq<Entry>, h': seq<Entry>, e: Entry)
    requires DistinctKeys(Stamp(), h) && multiset(h') == multiset(h) + multiset{e}
    requires forall i :: 0 <= i < |h| ==> h[i].stamp < e.stamp
    ensures SortBy(Stamp(), h') == SortBy(Stamp(), h) + [e]
    ensures DistinctKeys(Stamp(), h')
  {
    var w := SortBy(Stamp(), h);
    SortSorts(Stamp(), h);
    SortIsStrict(Stamp(), h);
    forall i | 0 <= i < |w| ensures w[i].stamp < e.stamp {
      assert w[i] in multiset(h);
    }
    StrictlyDistinct(w + [e]);
    DistinctKeysOfPermutation(Stamp(), w + [e], h');
    SortOfPermutation(Stamp(), h', w + [e]);
    SortedIsSelf(w + [e]);
  }

  /** The eviction candidate found by scanning the heap is the one of the arrival order. */
  lemma {:induction false} SameVictim(h: seq<Entry>, x: Entry)
    requires DistinctKeys(Stamp(), h) && x in h
    requires forall i :: 0 <= i < |h| ==> h[i].priority <= x.priority
    requires forall i :: 0 <= i < |h| && h[i].priority == x.priority ==> x.stamp <= h[i].stamp
    ensures SortBy(Stamp(), h) != []
    ensures var w := SortBy(Stamp(), h); w[OldestWorst(w)] == x
  {
    var w := SortBy(Stamp(), h);
    SortSorts(Stamp(), h);
    SortIsStrict(Stamp(), h);
    assert x in multiset(w);
    var y := w[OldestWorst(w)];
    assert y in multiset(h);
    var i :| 0 <= i < |w| && w[i] == x;
  }

  lemma {:induction false} SameNext(h: seq<Entry>)
    requires DistinctKeys(Stamp(), h) && h != [] && HeapFrom(h, 0)
    ensures SortBy(Stamp(), h) != []
    ensures var w := SortBy(Stamp(), h); w[NextUp(w)] == h[0]
  {
    hide SortBy, HeapFrom, DistinctKeys;
    var w := SortBy(Stamp(), h);
    SortSorts(Stamp(), h);
    SortIsStrict(Stamp(), h);
    assert h[0] in multiset(w);
    var y := w[NextUp(w)];
    assert y in multiset(h);
    var j :| 0 <= j < |h| && h[j] == y;
    RootIsLeast(h, j);
    var i :| 0 <= i < |w| && w[i] == h[0];
  }

  // ----- the class ---------------------------------------------------------

  class LlmQueue {
    const maxsize: nat
    var heap: seq<Entry>
    var nextStamp: nat
    var stopping: bool
    var dropped: nat          // what on_drop has counted
    ghost var offered: nat    // calls to Enqueue
    ghost var popped: nat     // jobs handed to the worker

    ghost predicate Valid()
      reads this
    {
      && maxsize >= 1 && |heap| <= maxsize
      && HeapFrom(heap, 0)
      && DistinctKeys(Stamp(), heap)
      && (forall e | e in heap :: e.stamp < nextStamp && e.priority == e.job.Priority())
      && offered == popped + dropped + |heap|
    }

    ghost function Waiting(): seq<Entry>
      reads this
    {
      SortBy(Stamp(), heap)
    }

    constructor (maxsize: nat)
      requires maxsize >= 1
      ensures Valid() && Waiting() == [] && this.maxsize == maxsize && nextStamp == 0
      ensures offered == 0 && popped == 0 && dropped == 0 && !stopping
    {
      this.maxsize := maxsize;
      heap, nextStamp, stopping, dropped := [], 0, false, 0;
      offered, popped := 0, 0;
    }

    method Enqueue(job: Job)
      requires Valid()
      modifies this
      ensures Valid()
      ensures Waiting() == Offer(old(Waiting()), Entry(job.Priority(), old(nextStamp), job), maxsize)
      ensures dropped == old(dropped) + (if |old(heap)| == maxsize then 1 else 0)
      ensures nextStamp == old(nextStamp) + (if Rejects(old(Waiting()), job.Priority(), maxsize) then 0 else 1)
      ensures offered == old(offered) + 1 && popped == old(popped) && stopping == old(stopping)
    {
      hide HeapFrom, SortBy, DistinctKeys;
      WaitingSize();
      offered := offered + 1;
      if |heap| >= maxsize {
        var rejected := RejectOrEvict(job);
        if rejected {
          return;
        }
      }
      PushHeap(Entry(job.Priority(), nextStamp, job));
      nextStamp := nextStamp + 1;
    }

    lemma {:induction false} WaitingSize()
      ensures |Waiting()| == |heap|
    {
      SortSorts(Stamp(), heap);
      assert |multiset(Waiting())| == |Waiting()| && |multiset(heap)| == |heap|;
    }

    method PushHeap(e: Entry)
      requires HeapFrom(heap, 0) && DistinctKeys(Stamp(), heap)
      requires forall x | x in heap :: x.stamp < e.stamp
      modifies this`heap
      ensures HeapFrom(heap, 0) && DistinctKeys(Stamp(), heap) && |heap| == |old(heap)| + 1
      ensures Waiting() == old(Waiting()) + [e]
      ensures forall x | x in heap :: x in old(heap) || x == e
    {
      ghost var before := heap;
      assert (heap + [e])[..|heap + [e]| - 1] == heap;
      heap := SiftUp(heap + [e]);
      AddedTo(before, heap, e);
      MultisetFacts(before, heap, e);
    }

    /** Drop one job: the oldest of the least urgent, unless the newcomer is less urgent still. */
    method RejectOrEvict(incoming: Job) returns (rejected: bool)
      requires maxsize >= 1 && |heap| == maxsize && HeapFrom(heap, 0) && DistinctKeys(Stamp(), heap)
      modifies this`heap, this`dropped
      ensures old(Waiting()) != []
      ensures var w := old(Waiting());
        && rejected == (incoming.Priority() > w[OldestWorst(w)].priority)
        && Waiting() == if rejected then w else Without(w, OldestWorst(w))
      ensures HeapFrom(heap, 0) && DistinctKeys(Stamp(), heap) && dropped == old(dropped) + 1
      ensures |heap| == if rejected then maxsize else maxsize - 1
      ensures forall e | e in heap :: e in old(heap)
    {
      var idx := Worst(heap);
      dropped := dropped + 1;
      SameVictim(heap, heap[idx]);
      rejected := incoming.Priority() > heap[idx].priority;
      if !rejected {
        ghost var w := Waiting();
        var last := |heap| - 1;
        ghost var before := heap;
        heap := heap[idx := heap[last]][..last];
        OverwriteAndPop(before, idx);
        heap := Heapify(heap);
        RemovedFrom(before, heap, OldestWorst(w));
        forall e | e in heap ensures e in before {
          assert e in multiset(heap);
        }
        assert |multiset(heap)| == last;
      }
    }

    /** Hand the most urgent, oldest job to the worker; nothing once stopping. */
    method PopBlocking() returns (job: Option<Job>)
      requires Valid() && (heap != [] || stopping)  // the wait is over
      modifies this
      ensures Valid() && stopping == old(stopping) && dropped == old(dropped) && offered == old(offered)
      ensures nextStamp == old(nextStamp)
      ensures stopping ==> job == None && Waiting() == old(Waiting()) && popped == old(popped)
      ensures !stopping ==> old(Waiting()) != [] && popped == old(popped) + 1
      ensures !stopping ==> job == Some(old(Waiting())[NextUp(old(Waiting()))].job)
      ensures !stopping ==> Waiting() == Without(old(Waiting()), NextUp(old(Waiting())))
    {
      if stopping || heap == [] {
        return None;
      }
      var e := PopHeap();
      popped := popped + 1;
      job := Some(e.job);
    }

    method PopHeap() returns (e: Entry)
      requires maxsize >= 1 && HeapFrom(heap, 0) && DistinctKeys(Stamp(), heap) && heap != []
      modifies this`heap
      ensures HeapFrom(heap, 0) && DistinctKeys(Stamp(), heap) && |heap| == |old(heap)| - 1
      ensures old(Waiting()) != [] && e == old(Waiting())[NextUp(old(Waiting()))]
      ensures Waiting() == Without(old(Waiting()), NextUp(old(Waiting())))
      ensures forall x | x in heap :: x in old(heap)
    {
      ghost var before, w := heap, Waiting();
      SameNext(heap);
      e := heap[0];
      var last := |heap| - 1;
      OverwriteAndPop(heap, 0);
      heap := heap[0 := heap[last]][..last];
      heap := SiftDown(heap, 0);
      RemovedFrom(before, heap, NextUp(w));
      forall x | x in heap ensures x in before {
        assert x in multiset(heap);
      }
    }

    method Stop()
      modifies this`stopping
      ensures stopping
    {
      stopping := true;
    }
  }

  lemma {:induction false} MultisetFacts(h: seq<Entry>, h': seq<Entry>, e: Entry)
    requires multiset(h') == multiset(h) + multiset{e}
    ensures |h'| == |h| + 1 && forall x | x in h' :: x in h || x == e
  {
    assert |multiset(h')| == |h'| && |multiset(h)| == |h|;
    forall x | x in h' ensures x in h || x == e {
      assert x in multiset(h');
    }
  }

  lemma {:induction false} OverwriteAndPop(h: seq<Entry>, i: nat)
    requires i < |h|
    ensures multiset(h[i := h[|h| - 1]][..|h| - 1]) == multiset(h) - multiset{h[i]}
  {
    var last := |h| - 1;
    assert h == h[..last] + [h[last]];
    if i < last {
      assert h[i := h[last]][..last] == h[..last][i := h[last]];
    } else {
      assert h[i := h[last]][..last] == h[..last];
    }
  }

  /** Index of the oldest entry among those of the numerically highest priority. */
  method Worst(h: seq<Entry>) returns (idx: nat)
    requires h != []
    ensures idx < |h|
    ensures forall i :: 0 <= i < |h| ==> h[i].priority <= h[idx].priority
    ensures forall i :: 0 <= i < |h| && h[i].priority == h[idx].priority ==> h[idx].stamp <= h[i].stamp
  {
    idx := 0;
    for k := 1 to |h|
      invariant idx < k
      invariant forall i :: 0 <= i < k ==> h[i].priority <= h[idx].priority
      invariant forall i :: 0 <= i < k && h[i].priority == h[idx].priority ==> h[idx].stamp <= h[i].stamp
    {
      if h[k].priority > h[idx].priority || (h[k].priority == h[idx].priority && h[k].stamp < h[idx].stamp) {
        idx := k;
      }
    }
  }

  // ----- what is kept, and in which order it comes out ----------------------

  /** The offline choice: drop the eviction candidate until `k` entries are left. */
  function KeepBest(w: seq<Entry>, k: nat): (r: seq<Entry>)
    requires k >= 1
    ensures |r| == if |w| <= k then |w| else k
    ensures forall e | e in r :: e in w
    decreases |w|
  {
    if |w| <= k then w else KeepBest(Without(w, OldestWorst(w)), k)
  }

  /** More urgent, or as urgent and newer. */
  predicate Better(a: Entry, b: Entry) {
    a.priority < b.priority || (a.priority == b.priority && a.stamp > b.stamp)
  }

  lemma {:induction false} KeptAreBest(w: seq<Entry>, k: nat, a: Entry, b: Entry)
    requires k >= 1 && StrictlyAscending(Stamp(), w)
    requires a in KeepBest(w, k) && b in w && b !in KeepBest(w, k)
    ensures Better(a, b)
    decreases |w|
  {
    var i := OldestWorst(w);
    var v := Without(w, i);
    WithoutStrict(w, i);
    if b in v {
      KeptAreBest(v, k, a, b);
    } else {
      var j := Stood(w, i, a);
      NotWithout(w, i, b);
      if i < j { assert Stamp()(w[i]) < Stamp()(w[j]); }
    }
  }

  lemma {:induction false} NotWithout(w: seq<Entry>, i: nat, b: Entry)
    requires i < |w| && b in w && b !in Without(w, i)
    ensures b == w[i]
  {
    assert w == w[..i] + [w[i]] + w[i + 1..];
  }

  lemma {:induction false} WorstOfAppend(w: seq<Entry>, e: Entry)
    requires w != []
    ensures OldestWorst(w + [e]) == if e.priority > w[OldestWorst(w)].priority then |w| else OldestWorst(w)
  {
    assert (w + [e])[..|w|] == w;
  }

  lemma {:induction false} WithoutOfAppend(w: seq<Entry>, e: Entry, i: nat)
    requires i < |w|
    ensures Without(w + [e], i) == Without(w, i) + [e] && Without(w + [e], |w|) == w
  {
  }

  /** One more arrival: choosing offline again is one online enqueue. */
  lemma {:induction false} KeepBestAppend(w: seq<Entry>, e: Entry, k: nat)
    requires k >= 1
    ensures KeepBest(w + [e], k) == Offer(KeepBest(w, k), e, k)
    decreases |w|
  {
    hide OldestWorst;
    if |w| >= k {
      var i := OldestWorst(w);
      WorstOfAppend(w, e);
      WithoutOfAppend(w, e, i);
      if |w| > k {
        if e.priority > w[i].priority {
          var kept := KeepBest(w, k);
          assert kept[OldestWorst(kept)] in w;
        } else {
          KeepBestAppend(Without(w, i), e, k);
        }
      }
    }
  }

  datatype Run = Run(waiting: seq<Entry>, nextStamp: nat)

  /** The queue after enqueueing `jobs` in turn, with nothing popped. */
  function Online(jobs: seq<Job>, k: nat): Run
    requires k >= 1
  {
    if jobs == [] then Run([], 0)
    else
      var r := Online(jobs[..|jobs| - 1], k);
      var job := jobs[|jobs| - 1];
      var w := Offer(r.waiting, Entry(job.Priority(), r.nextStamp, job), k);
      Run(w, if Rejects(r.waiting, job.Priority(), k) then r.nextStamp else r.nextStamp + 1)
  }

  /** All the jobs ever offered, stamped by position. */
  function Arrivals(jobs: seq<Job>): (r: seq<Entry>)
    ensures StrictlyAscending(Stamp(), r)
  {
    seq(|jobs|, i requires 0 <= i < |jobs| => Entry(jobs[i].Priority(), i, jobs[i]))
  }

  lemma {:induction false} ArrivalsAppend(jobs: seq<Job>)
    requires jobs != []
    ensures var n := |jobs| - 1;
      Arrivals(jobs) == Arrivals(jobs[..n]) + [Entry(jobs[n].Priority(), n, jobs[n])]
  {
  }

  predicate SameJobs(a: seq<Entry>, b: seq<Entry>) {
    |a| == |b| && forall i :: 0 <= i < |a| ==> a[i].job == b[i].job && a[i].priority == b[i].priority
  }

  lemma {:induction false} SameWorst(a: seq<Entry>, b: seq<Entry>)
    requires SameJobs(a, b) && a != []
    ensures OldestWorst(a) == OldestWorst(b)
  {
    var i, j := OldestWorst(a), OldestWorst(b);
    assert a[i].priority == b[i].priority && a[j].priority == b[j].priority;
  }

  lemma {:induction false} OfferSameJobs(a: seq<Entry>, b: seq<Entry>, x: Entry, y: Entry, k: nat)
    requires SameJobs(a, b) && k >= 1 && x.job == y.job && x.priority == y.priority
    ensures SameJobs(Offer(a, x, k), Offer(b, y, k))
  {
    if |a| >= k {
      SameWorst(a, b);
      var i := OldestWorst(a);
      assert a[i].priority == b[i].priority;
      forall j | 0 <= j < |a| - 1
        ensures Without(a, i)[j].job == Without(b, i)[j].job && Without(a, i)[j].priority == Without(b, i)[j].priority
      {
        assert Without(a, i)[j] == a[if j < i then j else j + 1] && Without(b, i)[j] == b[if j < i then j else j + 1];
      }
    }
  }

  /** Online eviction is offline choice: after any enqueues the queue holds the `k` best jobs. */
  lemma {:induction false} OnlineIsOffline(jobs: seq<Job>, k: nat)
    requires k >= 1
    ensures SameJobs(Online(jobs, k).waiting, KeepBest(Arrivals(jobs), k))
  {
    if jobs != [] {
      hide KeepBest, Offer, Arrivals, Rejects;
      var n := |jobs| - 1;
      var last := Entry(jobs[n].Priority(), n, jobs[n]);
      var before := Arrivals(jobs[..n]);
      var r := Online(jobs[..n], k);
      OnlineIsOffline(jobs[..n], k);
      ArrivalsAppend(jobs);
      KeepBestAppend(before, last, k);
      OfferSameJobs(r.waiting, KeepBest(before, k), Entry(jobs[n].Priority(), r.nextStamp, jobs[n]), last, k);
    } else {
      assert Arrivals(jobs) == [];
    }
  }

  /** Popping until nothing is left. */
  function Drained(w: seq<Entry>): seq<Entry>
    decreases |w|
  {
    if w == [] then [] else [w[NextUp(w)]] + Drained(Without(w, NextUp(w)))
  }

  lemma {:induction false} DrainedPermutes(w: seq<Entry>)
    ensures multiset(Drained(w)) == multiset(w)
    decreases |w|
  {
    if w != [] {
      var i := NextUp(w);
      DrainedPermutes(Without(w, i));
      WithoutPermutes(w, i);
    }
  }

  predicate InOrder(w: seq<Entry>) {
    forall i, j :: 0 <= i < j < |w| ==> Leq(w[i], w[j])
  }

  lemma {:induction false} InOrderCons(e: Entry, w: seq<Entry>)
    requires InOrder(w) && forall x | x in w :: Leq(e, x)
    ensures InOrder([e] + w)
  {
  }

  lemma {:induction false} NextIsLeast(w: seq<Entry>, e: Entry)
    requires StrictlyAscending(Stamp(), w) && w != [] && e in Without(w, NextUp(w))
    ensures Leq(w[NextUp(w)], e)
  {
    var i := NextUp(w);
    var j := Stood(w, i, e);
    if i < j { assert Stamp()(w[i]) < Stamp()(w[j]); }
  }

  /** Jobs come out most urgent first, oldest first within a priority, and none is lost. */
  lemma {:induction false} DrainedInOrder(w: seq<Entry>)
    requires StrictlyAscending(Stamp(), w)
    ensures multiset(Drained(w)) == multiset(w)
    ensures InOrder(Drained(w))
    decreases |w|
  {
    hide Leq, Without, NextUp;
    DrainedPermutes(w);
    if w != [] {
      var v := Without(w, NextUp(w));
      WithoutStrict(w, NextUp(w));
      DrainedInOrder(v);
      forall e | e in Drained(v) ensures Leq(w[NextUp(w)], e) {
        assert e in multiset(v);
        NextIsLeast(w, e);
      }
      InOrderCons(w[NextUp(w)], Drained(v));
    }
  }

  /** So judgements come out before everything else, extractions and cold starts before explanations, and jobs
      of one kind in the order of their arrival. */
  lemma {:induction false} JudgesComeFirst(w: seq<Entry>, i: nat, j: nat)
    requires StrictlyAscending(Stamp(), w) && forall e <- w :: e.priority == e.job.Priority()
    requires i < j < |Drained(w)|
    ensures var a, b := Drained(w)[i], Drained(w)[j];
      && (b.job.role == Judge ==> a.job.role == Judge)
      && (b.job.role in {Extractor, ColdStart} ==> a.job.role !in {Explainer, AbstainExplainer})
      && (a.job.role == b.job.role ==> a.stamp <= b.stamp)
  {
    DrainedInOrder(w);
    var r := Drained(w);
    forall e | e in r ensures e in w { assert e in multiset(r); }
    assert r[i] in r && r[j] in r;
    assert Leq(r[i], r[j]);
  }
}
