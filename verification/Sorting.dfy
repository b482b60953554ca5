/**
 Python's `sorted(xs, key=...)` for integer keys: stable, and a permutation of its input.
 When no key occurs twice the result depends only on the elements, not on their order.
 */
module Sorting {
  function Insert<T>(key: T -> int, x: T, xs: seq<T>): seq<T> {
    if xs == [] || key(x) <= key(xs[0]) then [x] + xs else [xs[0]] + Insert(key, x, xs[1..])
  }

  /** Insertion from the right, before the first key that is not smaller, is stable. */
  function SortBy<T>(key: T -> int, xs: seq<T>): seq<T> {
    if xs == [] then [] else Insert(key, xs[0], SortBy(key, xs[1..]))
  }

  predicate Ascending<T>(key: T -> int, xs: seq<T>) {
    forall i, j :: 0 <= i < j < |xs| ==> key(xs[i]) <= key(xs[j])
  }

  predicate StrictlyAscending<T>(key: T -> int, xs: seq<T>) {
    forall i, j :: 0 <= i < j < |xs| ==> key(xs[i]) < key(xs[j])
  }

  /** No key belongs to two occurrences. */
  predicate DistinctKeys<T>(key: T -> int, xs: seq<T>) {
    forall i, j :: 0 <= i < j < |xs| ==> key(xs[i]) != key(xs[j])
  }

  lemma {:induction false} InsertPermutes<T>(key: T -> int, x: T, xs: seq<T>)
    ensures multiset(Insert(key, x, xs)) == multiset{x} + multiset(xs)
  {
    if xs == [] || key(x) <= key(xs[0]) {
    } else {
      InsertPermutes(key, x, xs[1..]);
      assert xs == [xs[0]] + xs[1..];
    }
  }

  lemma {:induction false} ConsAscending<T>(key: T -> int, x: T, xs: seq<T>)
    requires Ascending(key, xs) && forall j :: 0 <= j < |xs| ==> key(x) <= key(xs[j])
    ensures Ascending(key, [x] + xs)
  {
  }

  lemma {:induction false} InsertSorts<T>(key: T -> int, x: T, xs: seq<T>)
    requires Ascending(key, xs)
    ensures Ascending(key, Insert(key, x, xs))
  {
    if xs == [] || key(x) <= key(xs[0]) {
      ConsAscending(key, x, xs);
    } else {
      var r := Insert(key, x, xs[1..]);
      InsertSorts(key, x, xs[1..]);
      InsertPermutes(key, x, xs[1..]);
      forall j | 0 <= j < |r| ensures key(xs[0]) <= key(r[j]) {
        assert r[j] in multiset(r);
        assert r[j] == x || r[j] in xs[1..];
      }
      ConsAscending(key, xs[0], r);
    }
  }

  lemma {:induction false} SortSorts<T>(key: T -> int, xs: seq<T>)
    ensures Ascending(key, SortBy(key, xs))
    ensures multiset(SortBy(key, xs)) == multiset(xs)
  {
    if xs != [] {
      SortSorts(key, xs[1..]);
      InsertSorts(key, xs[0], SortBy(key, xs[1..]));
      InsertPermutes(key, xs[0], SortBy(key, xs[1..]));
      assert xs == [xs[0]] + xs[1..];
    }
  }

  lemma {:induction false} CountTwice<T>(xs: seq<T>, i: nat, j: nat)
    requires i < j < |xs| && xs[i] == xs[j]
    ensures multiset(xs)[xs[i]] >= 2
  {
    assert xs == xs[..j] + [xs[j]] + xs[j + 1..];
    assert xs[..j][i] == xs[i];
  }

  lemma {:induction false} FirstPosition<T>(xs: seq<T>, x: T) returns (i: nat)
    requires x in xs
    ensures i < |xs| && xs[i] == x && x !in xs[..i]
  {
    if xs[0] == x {
      i := 0;
    } else {
      var k := FirstPosition(xs[1..], x);
      i := k + 1;
      assert xs[..i] == [xs[0]] + xs[1..][..k];
    }
  }

  lemma {:induction false} TwoPositions<T>(xs: seq<T>, x: T) returns (i: nat, j: nat)
    requires multiset(xs)[x] >= 2
    ensures i < j < |xs| && xs[i] == xs[j] == x
  {
    assert x in multiset(xs);
    i := FirstPosition(xs, x);
    assert xs == xs[..i] + [x] + xs[i + 1..];
    assert x in multiset(xs[i + 1..]);
    var k :| 0 <= k < |xs[i + 1..]| && xs[i + 1..][k] == x;
    j := i + 1 + k;
  }

  lemma {:induction false} DistinctKeysOfPermutation<T>(key: T -> int, xs: seq<T>, ys: seq<T>)
    requires DistinctKeys(key, xs) && multiset(xs) == multiset(ys)
    ensures DistinctKeys(key, ys)
  {
    forall i, j | 0 <= i < j < |ys| ensures key(ys[i]) != key(ys[j]) {
      assert ys[i] in multiset(xs) && ys[j] in multiset(xs);
      if ys[i] == ys[j] {
        CountTwice(ys, i, j);
        var a, b := TwoPositions(xs, ys[i]);
      }
    }
  }

  lemma {:induction false} SortIsStrict<T>(key: T -> int, xs: seq<T>)
    requires DistinctKeys(key, xs)
    ensures StrictlyAscending(key, SortBy(key, xs))
  {
    SortSorts(key, xs);
    DistinctKeysOfPermutation(key, xs, SortBy(key, xs));
  }

  lemma {:induction false} LeastFirst<T>(key: T -> int, x: T, ys: seq<T>)
    requires StrictlyAscending(key, ys) && x in ys
    ensures key(ys[0]) <= key(x) && (key(ys[0]) == key(x) ==> ys[0] == x)
  {
    var j :| 0 <= j < |ys| && ys[j] == x;
  }

  lemma {:induction false} DropFirst<T>(xs: seq<T>)
    requires xs != []
    ensures multiset(xs[1..]) == multiset(xs) - multiset{xs[0]}
  {
    assert xs == [xs[0]] + xs[1..];
  }

  lemma {:induction false} TailStrict<T>(key: T -> int, xs: seq<T>)
    requires xs != [] && StrictlyAscending(key, xs)
    ensures StrictlyAscending(key, xs[1..]) && multiset(xs[1..]) == multiset(xs) - multiset{xs[0]}
  {
    DropFirst(xs);
  }

  lemma {:induction false} SameFirst<T>(key: T -> int, xs: seq<T>, ys: seq<T>)
    requires StrictlyAscending(key, xs) && StrictlyAscending(key, ys) && multiset(xs) == multiset(ys)
    ensures |xs| == |ys| && (xs != [] ==> xs[0] == ys[0])
  {
    assert |multiset(xs)| == |xs| && |multiset(ys)| == |ys|;
    if xs != [] {
      assert xs[0] in multiset(ys) && ys[0] in multiset(xs);
      LeastFirst(key, xs[0], ys);
      LeastFirst(key, ys[0], xs);
    }
  }

  lemma {:induction false} StrictIsUnique<T>(key: T -> int, xs: seq<T>, ys: seq<T>)
    requires StrictlyAscending(key, xs) && StrictlyAscending(key, ys)
    requires multiset(xs) == multiset(ys)
    ensures xs == ys
  {
    hide StrictlyAscending;
    SameFirst(key, xs, ys);
    if xs != [] {
      TailStrict(key, xs);
      TailStrict(key, ys);
      StrictIsUnique(key, xs[1..], ys[1..]);
      assert xs == [xs[0]] + xs[1..] && ys == [ys[0]] + ys[1..];
    }
  }

  /** With distinct keys, sorting forgets the order of its input. */
  lemma {:induction false} SortOfPermutation<T>(key: T -> int, xs: seq<T>, ys: seq<T>)
    requires DistinctKeys(key, xs) && multiset(xs) == multiset(ys)
    ensures SortBy(key, xs) == SortBy(key, ys)
  {
    DistinctKeysOfPermutation(key, xs, ys);
    SortSorts(key, xs);
    SortSorts(key, ys);
    SortIsStrict(key, xs);
    SortIsStrict(key, ys);
    StrictIsUnique(key, SortBy(key, xs), SortBy(key, ys));
  }

  // ----- filtering --------------------------------------------------------

  function Filter<T>(p: T -> bool, xs: seq<T>): (r: seq<T>)
    ensures forall x | x in r :: x in xs && p(x)
    ensures forall x | x in xs && p(x) :: x in r
    ensures |r| <= |xs|
  {
    if xs == [] then [] else (if p(xs[0]) then [xs[0]] else []) + Filter(p, xs[1..])
  }

  lemma {:induction false} FilterSnoc<T>(p: T -> bool, xs: seq<T>, x: T)
    ensures Filter(p, xs + [x]) == Filter(p, xs) + (if p(x) then [x] else [])
  {
    if xs == [] {
      assert xs + [x] == [x];
    } else {
      assert (xs + [x])[1..] == xs[1..] + [x];
      FilterSnoc(p, xs[1..], x);
    }
  }

  lemma {:induction false} FilterAppend<T>(p: T -> bool, xs: seq<T>, ys: seq<T>)
    ensures Filter(p, xs + ys) == Filter(p, xs) + Filter(p, ys)
  {
    if xs == [] {
      assert xs + ys == ys;
    } else {
      assert (xs + ys)[1..] == xs[1..] + ys;
      FilterAppend(p, xs[1..], ys);
    }
  }

  lemma {:induction false} FilterAll<T>(p: T -> bool, xs: seq<T>)
    ensures (forall x | x in xs :: p(x)) ==> Filter(p, xs) == xs
    ensures (forall x | x in xs :: !p(x)) ==> Filter(p, xs) == []
  {
    if xs != [] {
      FilterAll(p, xs[1..]);
      assert xs == [xs[0]] + xs[1..];
    }
  }

  lemma {:induction false} FilterCount<T>(p: T -> bool, xs: seq<T>, x: T)
    ensures multiset(Filter(p, xs))[x] == if p(x) then multiset(xs)[x] else 0
  {
    if xs != [] {
      FilterCount(p, xs[1..], x);
      assert xs == [xs[0]] + xs[1..];
    }
  }

  lemma {:induction false} FilterOfPermutation<T(!new)>(p: T -> bool, xs: seq<T>, ys: seq<T>)
    requires multiset(xs) == multiset(ys)
    ensures multiset(Filter(p, xs)) == multiset(Filter(p, ys))
  {
    forall x ensures multiset(Filter(p, xs))[x] == multiset(Filter(p, ys))[x] {
      FilterCount(p, xs, x);
      FilterCount(p, ys, x);
    }
  }

  lemma {:induction false} FilterKeepsDistinct<T>(p: T -> bool, key: T -> int, xs: seq<T>)
    requires DistinctKeys(key, xs)
    ensures DistinctKeys(key, Filter(p, xs))
  {
    if xs != [] {
      FilterKeepsDistinct(p, key, xs[1..]);
      var r := Filter(p, xs[1..]);
      forall j | 0 <= j < |r| ensures key(xs[0]) != key(r[j]) {
        assert r[j] in xs[1..];
      }
    }
  }

  lemma {:induction false} FilterFirst<T>(p: T -> bool, xs: seq<T>)
    ensures multiset(Filter(p, xs)) ==
      if xs == [] then multiset{} else multiset(Filter(p, xs[1..])) + if p(xs[0]) then multiset{xs[0]} else multiset{}
  {
  }

  /** Two complementary filters share out the elements. */
  lemma {:induction false} FilterSplits<T>(p: T -> bool, q: T -> bool, xs: seq<T>)
    requires forall x :: x in xs ==> p(x) != q(x)
    ensures multiset(xs) == multiset(Filter(p, xs)) + multiset(Filter(q, xs))
  {
    hide Filter;
    FilterFirst(p, xs);
    FilterFirst(q, xs);
    if xs != [] {
      FilterSplits(p, q, xs[1..]);
      assert xs == [xs[0]] + xs[1..];
      assert xs[0] in xs;
    }
  }

  // ----- sets of integers ---------------------------------------------------

  /** Python's `sorted` of a set of integers. */
  function SortedSet(s: set<int>): (r: seq<int>)
    ensures StrictlyAscending(x => x, r)
    ensures forall x :: x in r <==> x in s
  {
    if s == {} then []
    else
      MinExists(s);
      var m :| m in s && forall x :: x in s ==> m <= x;
      [m] + SortedSet(s - {m})
  }

  lemma {:induction false} HasElement(s: set<int>)
    ensures s == {} || exists a :: a in s
  {
    if forall a :: a !in s { assert s == {}; }
  }

  lemma {:induction false} MinExists(s: set<int>)
    requires s != {}
    ensures exists m :: m in s && forall x :: x in s ==> m <= x
  {
    HasElement(s);
    var a :| a in s;
    var rest := s - {a};
    if rest != {} {
      MinExists(rest);
      var m :| m in rest && forall x :: x in rest ==> m <= x;
      var least := if a < m then a else m;
      forall x | x in s ensures least <= x {
        assert x == a || x in rest;
      }
      assert least in s;
    } else {
      forall x | x in s ensures a <= x {
        assert x == a || x in rest;
      }
    }
  }
}
