/**
 Launch grouping (src/analyzer_ng/core/grouping.py): fingerprint buckets, greedy attachment
 by cosine, one ordered merge pass, then a representative and a burst prior per group.

 Embeddings are values of an abstract type `V`; the vector operations are functions of
 their arguments and nothing else (`Vectors`). The three passes are given as functions on
 group values, and `GroupLaunch` is the code of the source on mutable groups, proved to
 leave exactly those values.
 */
module Grouping {
  import opened Numbers
  import opened Wrappers
  import opened Sorting

  const JACCARD_MIN := 0.5
  const SI_PRIOR_CAP := 0.9
  const SI_PRIOR_BASE := 0.5

  datatype Item<V> = Item(
    id: int, fp: int, errorHash: int, emb: Option<V>, hasStacktrace: bool, logCount: int, templates: seq<int>)

  /** The float32 vector arithmetic: mean of a stack, one vector alone, running mean, dot product. */
  datatype Vectors<!V> = Vectors(
    mean: seq<V> -> V, normalize: V -> V, absorb: (V, nat, V) -> V, dot: (V, V) -> real)

  datatype Config<!V> = Config(vectors: Vectors<V>, theta: real, burstX: real, burstN: int, isNew: int -> bool)

  datatype Group<V> = Group(members: seq<Item<V>>, centroid: Option<V>, templates: set<int>)

  datatype Grouped<V> = Grouped(group: Group<V>, representative: Item<V>, siPrior: real)

  function Id<V>(): Item<V> -> int { (i: Item<V>) => i.id }

  // ----- one group --------------------------------------------------------

  function Embeddings<V>(members: seq<Item<V>>): seq<V> {
    if members == [] then []
    else (if members[0].emb.Some? then [members[0].emb.value] else []) + Embeddings(members[1..])
  }

  function TemplateSet<V>(members: seq<Item<V>>): set<int> {
    set k, t | 0 <= k < |members| && t in members[k].templates :: t
  }

  function NewGroup<V>(c: Config<V>, members: seq<Item<V>>): Group<V> {
    var vecs := Embeddings(members);
    Group(members, if vecs == [] then None else Some(c.vectors.normalize(c.vectors.mean(vecs))), TemplateSet(members))
  }

  function AddMember<V>(c: Config<V>, g: Group<V>, item: Item<V>): Group<V> {
    var n := |Embeddings(g.members)|;
    var centroid :=
      if item.emb.None? then g.centroid
      else if g.centroid.None? || n == 0 then Some(c.vectors.normalize(item.emb.value))
      else Some(c.vectors.normalize(c.vectors.absorb(g.centroid.value, n, item.emb.value)));
    Group(g.members + [item], centroid, g.templates + set t | t in item.templates)
  }

  function Cosine<V>(c: Config<V>, a: Option<V>, b: Option<V>): real {
    if a.None? || b.None? then -1.0 else c.vectors.dot(a.value, b.value)
  }

  function Jaccard(a: set<int>, b: set<int>): real {
    if a == {} && b == {} then 0.0 else |a * b| as real / |a + b| as real
  }

  // ----- pass 1: fingerprint buckets, ascending fingerprint ----------------

  function Fps<V>(items: seq<Item<V>>): (r: set<int>)
    ensures 0 !in r
  {
    set k | 0 <= k < |items| && items[k].fp != 0 :: items[k].fp
  }

  function WithFp<V>(items: seq<Item<V>>, fp: int): seq<Item<V>> {
    Filter((i: Item<V>) => i.fp == fp, items)
  }

  function Buckets<V>(c: Config<V>, items: seq<Item<V>>, fps: seq<int>): (r: seq<Group<V>>)
    ensures |r| == |fps|
    ensures forall k :: 0 <= k < |fps| ==> r[k].members == SortBy(Id(), WithFp(items, fps[k]))
  {
    if fps == [] then []
    else
      var n := |fps| - 1;
      Buckets(c, items, fps[..n]) + [NewGroup(c, SortBy(Id(), WithFp(items, fps[n])))]
  }

  // ----- pass 2: leftovers, ascending item id ------------------------------

  /** The last group among `groups[..n]` whose cosine is the highest, if it reaches theta. */
  function Best<V>(c: Config<V>, groups: seq<Group<V>>, n: nat, vec: V): (r: Option<nat>)
    requires n <= |groups|
    ensures r.Some? ==> r.value < n
    ensures r.None? <==> forall k :: 0 <= k < n ==> Cosine(c, Some(vec), groups[k].centroid) < c.theta
    ensures r.Some? ==> forall k :: 0 <= k < n ==>
      Cosine(c, Some(vec), groups[k].centroid) <= Cosine(c, Some(vec), groups[r.value].centroid)
    ensures r.Some? ==> forall k :: r.value < k < n ==>
      Cosine(c, Some(vec), groups[k].centroid) < Cosine(c, Some(vec), groups[r.value].centroid)
  {
    if n == 0 then None
    else
      var prev := Best(c, groups, n - 1, vec);
      var bestSim := if prev.None? then c.theta else Cosine(c, Some(vec), groups[prev.value].centroid);
      if Cosine(c, Some(vec), groups[n - 1].centroid) >= bestSim then Some(n - 1) else prev
  }

  function Attach<V>(c: Config<V>, groups: seq<Group<V>>, item: Item<V>): seq<Group<V>> {
    var best := if item.emb.None? then None else Best(c, groups, |groups|, item.emb.value);
    if best.Some? then groups[best.value := AddMember(c, groups[best.value], item)]
    else groups + [NewGroup(c, [item])]
  }

  function AttachAll<V>(c: Config<V>, groups: seq<Group<V>>, items: seq<Item<V>>): seq<Group<V>> {
    if items == [] then groups
    else Attach(c, AttachAll(c, groups, items[..|items| - 1]), items[|items| - 1])
  }

  // ----- pass 3: merge close groups, in group order ------------------------

  predicate Close<V>(c: Config<V>, a: Group<V>, b: Group<V>) {
    Cosine(c, a.centroid, b.centroid) >= c.theta && Jaccard(a.templates, b.templates) >= JACCARD_MIN
  }

  /** The first of `merged[from..]` that is close to `g`. */
  function FirstClose<V>(c: Config<V>, merged: seq<Group<V>>, from: nat, g: Group<V>): (r: Option<nat>)
    requires from <= |merged|
    ensures r.Some? ==> from <= r.value < |merged| && Close(c, merged[r.value], g)
    ensures forall k :: from <= k < (if r.Some? then r.value else |merged|) ==> !Close(c, merged[k], g)
    decreases |merged| - from
  {
    if from == |merged| then None
    else if Close(c, merged[from], g) then Some(from)
    else FirstClose(c, merged, from + 1, g)
  }

  function AddMembers<V>(c: Config<V>, g: Group<V>, items: seq<Item<V>>): Group<V> {
    if items == [] then g else AddMember(c, AddMembers(c, g, items[..|items| - 1]), items[|items| - 1])
  }

  function Merge<V>(c: Config<V>, merged: seq<Group<V>>, g: Group<V>): seq<Group<V>> {
    var target := FirstClose(c, merged, 0, g);
    if target.Some? then merged[target.value := AddMembers(c, merged[target.value], g.members)] else merged + [g]
  }

  function MergeAll<V>(c: Config<V>, groups: seq<Group<V>>): seq<Group<V>> {
    if groups == [] then []
    else Merge(c, MergeAll(c, groups[..|groups| - 1]), groups[|groups| - 1])
  }

  // ----- representatives and burst prior -----------------------------------

  /** `a` ranks above `b`: stack trace first, then more logs, then the smaller id. */
  predicate Ranks<V>(a: Item<V>, b: Item<V>) {
    if a.hasStacktrace != b.hasStacktrace then a.hasStacktrace
    else if a.logCount != b.logCount then a.logCount > b.logCount
    else a.id < b.id
  }

  function Representative<V>(members: seq<Item<V>>): (r: Item<V>)
    requires members != []
    ensures r in members
    ensures forall m | m in members :: !Ranks(m, r)
  {
    var n := |members| - 1;
    if n == 0 then members[0]
    else
      var best := Representative(members[..n]);
      assert members == members[..n] + [members[n]];
      if Ranks(members[n], best) then members[n] else best
  }

  function SiPrior<V>(c: Config<V>, g: Group<V>, rep: Item<V>, total: nat): real {
    if total > 0 && c.isNew(rep.errorHash) && |g.members| >= c.burstN &&
        |g.members| as real / total as real > c.burstX then
      var p := SI_PRIOR_BASE + |g.members| as real / total as real;
      if p < SI_PRIOR_CAP then p else SI_PRIOR_CAP
    else 0.0
  }

  function Finish<V>(c: Config<V>, groups: seq<Group<V>>, total: nat): (r: seq<Grouped<V>>)
    requires forall g | g in groups :: g.members != []
    ensures |r| == |groups|
    ensures forall k :: 0 <= k < |r| ==>
      && r[k].group == groups[k]
      && r[k].representative == Representative(groups[k].members)
      && r[k].siPrior == SiPrior(c, groups[k], r[k].representative, total)
  {
    seq(|groups|, k requires 0 <= k < |groups| =>
      var rep := Representative(groups[k].members);
      Grouped(groups[k], rep, SiPrior(c, groups[k], rep, total)))
  }

  function Unranked<V>(c: Config<V>, items: seq<Item<V>>): (r: seq<Group<V>>) {
    var buckets := Buckets(c, items, SortedSet(Fps(items)));
    MergeAll(c, AttachAll(c, buckets, SortBy(Id(), WithFp(items, 0))))
  }

  function Launch<V>(c: Config<V>, items: seq<Item<V>>): seq<Grouped<V>> {
    UnrankedNonEmpty(c, items);
    Finish(c, Unranked(c, items), |items|)
  }

  // ----- every item in exactly one group -----------------------------------

  ghost function Members<V>(groups: seq<Group<V>>): multiset<Item<V>> {
    if groups == [] then multiset{}
    else Members(groups[..|groups| - 1]) + multiset(groups[|groups| - 1].members)
  }

  lemma MembersUpdate<V>(groups: seq<Group<V>>, k: nat, g: Group<V>, extra: multiset<Item<V>>)
    requires k < |groups| && multiset(g.members) == multiset(groups[k].members) + extra
    ensures Members(groups[k := g]) == Members(groups) + extra
  {
    var n := |groups| - 1;
    if k == n {
      assert groups[k := g][..n] == groups[..n];
    } else {
      MembersUpdate(groups[..n], k, g, extra);
      assert groups[k := g][..n] == groups[..n][k := g];
    }
  }

  lemma MembersAppend<V>(groups: seq<Group<V>>, g: Group<V>)
    ensures Members(groups + [g]) == Members(groups) + multiset(g.members)
  {
    assert (groups + [g])[..|groups|] == groups;
  }

  lemma AttachConserves<V>(c: Config<V>, groups: seq<Group<V>>, item: Item<V>)
    ensures Members(Attach(c, groups, item)) == Members(groups) + multiset{item}
  {
    var best := if item.emb.None? then None else Best(c, groups, |groups|, item.emb.value);
    if best.Some? {
      MembersUpdate(groups, best.value, AddMember(c, groups[best.value], item), multiset{item});
    } else {
      MembersAppend(groups, NewGroup(c, [item]));
    }
  }

  lemma AttachAllConserves<V>(c: Config<V>, groups: seq<Group<V>>, items: seq<Item<V>>)
    ensures Members(AttachAll(c, groups, items)) == Members(groups) + multiset(items)
  {
    hide Attach, Members;
    if items != [] {
      var n := |items| - 1;
      AttachAllConserves(c, groups, items[..n]);
      AttachConserves(c, AttachAll(c, groups, items[..n]), items[n]);
      assert items == items[..n] + [items[n]];
    }
  }

  lemma AddMembersAppends<V>(c: Config<V>, g: Group<V>, items: seq<Item<V>>)
    ensures AddMembers(c, g, items).members == g.members + items
  {
    if items != [] {
      var n := |items| - 1;
      AddMembersAppends(c, g, items[..n]);
      assert items == items[..n] + [items[n]];
    }
  }

  lemma MergeConserves<V>(c: Config<V>, merged: seq<Group<V>>, g: Group<V>)
    ensures Members(Merge(c, merged, g)) == Members(merged) + multiset(g.members)
  {
    var target := FirstClose(c, merged, 0, g);
    if target.Some? {
      AddMembersAppends(c, merged[target.value], g.members);
      MembersUpdate(merged, target.value, AddMembers(c, merged[target.value], g.members), multiset(g.members));
    } else {
      MembersAppend(merged, g);
    }
  }

  lemma MergeAllConserves<V>(c: Config<V>, groups: seq<Group<V>>)
    ensures Members(MergeAll(c, groups)) == Members(groups)
  {
    if groups != [] {
      var n := |groups| - 1;
      MergeAllConserves(c, groups[..n]);
      MergeConserves(c, MergeAll(c, groups[..n]), groups[n]);
    }
  }

  /** The buckets of a strictly ascending list of fingerprints hold just the items that have one of them. */
  function InFps<V>(fps: seq<int>): Item<V> -> bool { (i: Item<V>) => i.fp in fps }

  lemma {:induction false} BucketsConserve<V>(c: Config<V>, items: seq<Item<V>>, fps: seq<int>)
    requires StrictlyAscending(x => x, fps)
    ensures Members(Buckets(c, items, fps)) == multiset(Filter(InFps(fps), items))
  {
    hide Filter, SortBy, NewGroup, Members;
    if fps == [] {
      FilterAll(InFps(fps), items);
      NoMembers<V>();
    } else {
      var n := |fps| - 1;
      BucketsConserve(c, items, fps[..n]);
      SortSorts(Id(), WithFp(items, fps[n]));
      MembersAppend(Buckets(c, items, fps[..n]), NewGroup(c, SortBy(Id(), WithFp(items, fps[n]))));
      BucketMembersOf(c, items, fps[n]);
      LastFp(items, fps);
    }
  }

  lemma NoMembers<V>()
    ensures Members<V>([]) == multiset{}
  {
  }

  lemma BucketMembersOf<V>(c: Config<V>, items: seq<Item<V>>, fp: int)
    ensures NewGroup(c, SortBy(Id(), WithFp(items, fp))).members == SortBy(Id(), WithFp(items, fp))
  {
  }

  /** The items with one of the fingerprints are those with an earlier one and those with the last. */
  lemma LastFp<V>(items: seq<Item<V>>, fps: seq<int>)
    requires fps != [] && StrictlyAscending(x => x, fps)
    ensures var n := |fps| - 1;
      multiset(Filter(InFps(fps), items)) == multiset(Filter(InFps(fps[..n]), items)) + multiset(WithFp(items, fps[n]))
  {
    var n := |fps| - 1;
    assert fps == fps[..n] + [fps[n]];
    assert fps[n] !in fps[..n];
    FilterUnion(InFps(fps), InFps(fps[..n]), (i: Item<V>) => i.fp == fps[n], items);
  }

  lemma FilterUnion<T>(p: T -> bool, q: T -> bool, r: T -> bool, xs: seq<T>)
    requires forall x | x in xs :: (p(x) <==> q(x) || r(x)) && !(q(x) && r(x))
    ensures multiset(Filter(p, xs)) == multiset(Filter(q, xs)) + multiset(Filter(r, xs))
  {
    if xs != [] {
      FilterUnion(p, q, r, xs[1..]);
    }
  }

  /** Every item lands in exactly one group, once. */
  lemma EveryItemGroupedOnce<V>(c: Config<V>, items: seq<Item<V>>)
    ensures Members(Unranked(c, items)) == multiset(items)
  {
    var fps := SortedSet(Fps(items));
    var buckets := Buckets(c, items, fps);
    var leftovers := SortBy(Id(), WithFp(items, 0));
    BucketsConserve(c, items, fps);
    SortSorts(Id(), WithFp(items, 0));
    FilterSplits(InFps(fps), (i: Item<V>) => i.fp == 0, items);
    AttachAllConserves(c, buckets, leftovers);
    MergeAllConserves(c, AttachAll(c, buckets, leftovers));
  }

  lemma BucketMembers<V>(items: seq<Item<V>>, fp: int)
    ensures forall m | m in SortBy(Id(), WithFp(items, fp)) :: m in items && m.fp == fp
  {
    SortSorts(Id(), WithFp(items, fp));
    forall m | m in SortBy(Id(), WithFp(items, fp)) ensures m in WithFp(items, fp) {
      assert m in multiset(SortBy(Id(), WithFp(items, fp)));
    }
  }

  // ----- no group is empty --------------------------------------------------

  ghost predicate NonEmpty<V>(groups: seq<Group<V>>) {
    forall g | g in groups :: g.members != []
  }

  lemma BucketNonEmpty<V>(items: seq<Item<V>>, fp: int)
    requires fp in Fps(items)
    ensures SortBy(Id(), WithFp(items, fp)) != []
  {
    var i :| i in items && i.fp == fp;
    SortSorts(Id(), WithFp(items, fp));
    assert i in multiset(WithFp(items, fp));
  }

  lemma BucketsNonEmpty<V>(c: Config<V>, items: seq<Item<V>>, fps: seq<int>)
    requires forall fp :: fp in fps ==> fp in Fps(items)
    ensures NonEmpty(Buckets(c, items, fps))
  {
    if fps != [] {
      BucketsNonEmpty(c, items, fps[..|fps| - 1]);
      BucketNonEmpty(items, fps[|fps| - 1]);
    }
  }

  lemma AttachAllNonEmpty<V>(c: Config<V>, groups: seq<Group<V>>, items: seq<Item<V>>)
    requires NonEmpty(groups)
    ensures NonEmpty(AttachAll(c, groups, items))
  {
    if items != [] {
      AttachAllNonEmpty(c, groups, items[..|items| - 1]);
    }
  }

  lemma MergeAllNonEmpty<V>(c: Config<V>, groups: seq<Group<V>>)
    requires NonEmpty(groups)
    ensures NonEmpty(MergeAll(c, groups))
  {
    if groups != [] {
      var n := |groups| - 1;
      MergeAllNonEmpty(c, groups[..n]);
      var merged := MergeAll(c, groups[..n]);
      var target := FirstClose(c, merged, 0, groups[n]);
      if target.Some? {
        AddMembersAppends(c, merged[target.value], groups[n].members);
      }
    }
  }

  lemma UnrankedNonEmpty<V>(c: Config<V>, items: seq<Item<V>>)
    ensures NonEmpty(Unranked(c, items))
  {
    var fps := SortedSet(Fps(items));
    BucketsNonEmpty(c, items, fps);
    AttachAllNonEmpty(c, Buckets(c, items, fps), SortBy(Id(), WithFp(items, 0)));
    MergeAllNonEmpty(c, AttachAll(c, Buckets(c, items, fps), SortBy(Id(), WithFp(items, 0))));
  }

  // ----- the order of the input does not matter ----------------------------

  lemma BucketOfPermutation<V(!new)>(xs: seq<Item<V>>, ys: seq<Item<V>>, fp: int)
    requires DistinctKeys(Id(), xs) && multiset(xs) == multiset(ys)
    ensures SortBy(Id(), WithFp(xs, fp)) == SortBy(Id(), WithFp(ys, fp))
  {
    var p := (i: Item<V>) => i.fp == fp;
    FilterOfPermutation(p, xs, ys);
    FilterKeepsDistinct(p, Id(), xs);
    SortOfPermutation(Id(), Filter(p, xs), Filter(p, ys));
  }

  lemma BucketsOfPermutation<V(!new)>(c: Config<V>, xs: seq<Item<V>>, ys: seq<Item<V>>, fps: seq<int>)
    requires DistinctKeys(Id(), xs) && multiset(xs) == multiset(ys)
    ensures Buckets(c, xs, fps) == Buckets(c, ys, fps)
  {
    if fps != [] {
      BucketsOfPermutation(c, xs, ys, fps[..|fps| - 1]);
      BucketOfPermutation(xs, ys, fps[|fps| - 1]);
    }
  }

  lemma FpsOfPermutation<V>(xs: seq<Item<V>>, ys: seq<Item<V>>)
    requires multiset(xs) == multiset(ys)
    ensures Fps(xs) <= Fps(ys)
  {
    forall fp | fp in Fps(xs) ensures fp in Fps(ys) {
      var k :| 0 <= k < |xs| && xs[k].fp != 0 && xs[k].fp == fp;
      assert xs[k] in multiset(ys);
      var j :| 0 <= j < |ys| && ys[j] == xs[k];
    }
  }

  /** Any permutation of items with distinct ids gives the same groups, in the same order. */
  lemma LaunchIgnoresInputOrder<V(!new)>(c: Config<V>, xs: seq<Item<V>>, ys: seq<Item<V>>)
    requires DistinctKeys(Id(), xs) && multiset(xs) == multiset(ys)
    ensures Launch(c, xs) == Launch(c, ys)
  {
    hide AttachAll, MergeAll, Buckets, Fps, WithFp, SortBy, Finish, DistinctKeys;
    assert |xs| == |multiset(xs)| == |ys|;
    FpsOfPermutation(xs, ys);
    FpsOfPermutation(ys, xs);
    BucketsOfPermutation(c, xs, ys, SortedSet(Fps(xs)));
    BucketOfPermutation(xs, ys, 0);
    assert Fps(xs) == Fps(ys);
    UnrankedNonEmpty(c, xs);
  }

  // ----- items with one fingerprint stay together --------------------------

  ghost predicate Holds<V>(g: Group<V>, fp: int) {
    exists m | m in g.members :: m.fp == fp
  }

  /** No two groups share a non-zero fingerprint. */
  ghost predicate Together<V>(groups: seq<Group<V>>) {
    forall i, j, fp | 0 <= i < j < |groups| && fp != 0 :: !(Holds(groups[i], fp) && Holds(groups[j], fp))
  }

  lemma BucketHolds<V>(c: Config<V>, items: seq<Item<V>>, fps: seq<int>, k: nat, fp: int)
    requires k < |fps| && Holds(Buckets(c, items, fps)[k], fp)
    ensures fp == fps[k]
  {
    var m :| m in Buckets(c, items, fps)[k].members && m.fp == fp;
    BucketMembers(items, fps[k]);
  }

  lemma BucketsTogether<V>(c: Config<V>, items: seq<Item<V>>, fps: seq<int>)
    requires StrictlyAscending(x => x, fps)
    ensures Together(Buckets(c, items, fps))
  {
    var r := Buckets(c, items, fps);
    forall i, j, fp | 0 <= i < j < |r| && fp != 0 ensures !(Holds(r[i], fp) && Holds(r[j], fp)) {
      if Holds(r[i], fp) && Holds(r[j], fp) {
        BucketHolds(c, items, fps, i, fp);
        BucketHolds(c, items, fps, j, fp);
      }
    }
  }

  lemma AttachTogether<V>(c: Config<V>, groups: seq<Group<V>>, item: Item<V>)
    requires Together(groups) && item.fp == 0
    ensures Together(Attach(c, groups, item))
  {
    var r := Attach(c, groups, item);
    forall i, fp | 0 <= i < |r| && fp != 0 && Holds(r[i], fp)
      ensures i < |groups| && Holds(groups[i], fp)
    {
      var m :| m in r[i].members && m.fp == fp;
      assert m != item;
    }
  }

  lemma AttachAllTogether<V>(c: Config<V>, groups: seq<Group<V>>, items: seq<Item<V>>)
    requires Together(groups) && forall i | i in items :: i.fp == 0
    ensures Together(AttachAll(c, groups, items))
  {
    if items != [] {
      var n := |items| - 1;
      AttachAllTogether(c, groups, items[..n]);
      AttachTogether(c, AttachAll(c, groups, items[..n]), items[n]);
    }
  }

  /** Whatever a merged group holds was held by one of the groups merged so far. */
  lemma {:induction false} MergeAllTogether<V>(c: Config<V>, groups: seq<Group<V>>)
    requires Together(groups)
    ensures Together(MergeAll(c, groups))
    ensures forall k, fp | 0 <= k < |MergeAll(c, groups)| && Holds(MergeAll(c, groups)[k], fp) ::
      exists j :: 0 <= j < |groups| && Holds(groups[j], fp)
  {
    if groups != [] {
      var n := |groups| - 1;
      var less, g := groups[..n], groups[n];
      var merged := MergeAll(c, less);
      var r := MergeAll(c, groups);
      MergeAllTogether(c, less);
      forall k, fp | 0 <= k < |r| && Holds(r[k], fp)
        ensures (k < |merged| && Holds(merged[k], fp)) || Holds(g, fp)
      {
        MergedHolds(c, merged, g, k, fp);
      }
      forall k, fp | 0 <= k < |merged| && fp != 0 && Holds(merged[k], fp)
        ensures !Holds(g, fp)
      {
        var j :| 0 <= j < |less| && Holds(less[j], fp);
        assert Holds(groups[j], fp);
      }
      MergeTogether(c, merged, g);
      forall k, fp | 0 <= k < |r| && Holds(r[k], fp)
        ensures exists j :: 0 <= j < |groups| && Holds(groups[j], fp)
      {
        if k < |merged| && Holds(merged[k], fp) {
          var j :| 0 <= j < |less| && Holds(less[j], fp);
          assert Holds(groups[j], fp);
        } else {
          assert Holds(groups[n], fp);
        }
      }
    }
  }

  lemma MergedHolds<V>(c: Config<V>, merged: seq<Group<V>>, g: Group<V>, k: nat, fp: int)
    requires k < |Merge(c, merged, g)| && Holds(Merge(c, merged, g)[k], fp)
    ensures (k < |merged| && Holds(merged[k], fp)) ||
        (Holds(g, fp) && (k == |merged| || FirstClose(c, merged, 0, g) == Some(k)))
  {
    var target := FirstClose(c, merged, 0, g);
    if target == Some(k) {
      AddMembersAppends(c, merged[k], g.members);
    }
  }

  lemma MergeTogether<V>(c: Config<V>, merged: seq<Group<V>>, g: Group<V>)
    requires Together(merged)
    requires forall k, fp | 0 <= k < |merged| && fp != 0 && Holds(merged[k], fp) :: !Holds(g, fp)
    ensures Together(Merge(c, merged, g))
  {
    var r := Merge(c, merged, g);
    forall i, j, fp | 0 <= i < j < |r| && fp != 0 ensures !(Holds(r[i], fp) && Holds(r[j], fp)) {
      if Holds(r[i], fp) && Holds(r[j], fp) {
        MergedHolds(c, merged, g, i, fp);
        MergedHolds(c, merged, g, j, fp);
      }
    }
  }

  lemma UnrankedTogether<V>(c: Config<V>, items: seq<Item<V>>)
    ensures Together(Unranked(c, items))
  {
    hide AttachAll, MergeAll, Together, Buckets;
    var fps := SortedSet(Fps(items));
    var buckets := Buckets(c, items, fps);
    var leftovers := SortBy(Id(), WithFp(items, 0));
    BucketsTogether(c, items, fps);
    BucketMembers(items, 0);
    AttachAllTogether(c, buckets, leftovers);
    MergeAllTogether(c, AttachAll(c, buckets, leftovers));
  }

  /** Items sharing a non-zero exception fingerprint end in one group, even after the merge pass. */
  lemma SameFingerprintSameGroup<V>(c: Config<V>, items: seq<Item<V>>, i: nat, j: nat, a: Item<V>, b: Item<V>)
    requires i < |Unranked(c, items)| && j < |Unranked(c, items)|
    requires a in Unranked(c, items)[i].members && b in Unranked(c, items)[j].members
    requires a.fp == b.fp != 0
    ensures i == j
  {
    UnrankedTogether(c, items);
    assert Holds(Unranked(c, items)[i], a.fp) && Holds(Unranked(c, items)[j], a.fp);
  }

  // ----- burst priors are few ----------------------------------------------

  function Bursts<V>(r: seq<Grouped<V>>): nat {
    if r == [] then 0 else Bursts(r[..|r| - 1]) + if r[|r| - 1].siPrior > 0.0 then 1 else 0
  }

  function TotalMembers<V>(groups: seq<Group<V>>): nat {
    if groups == [] then 0 else TotalMembers(groups[..|groups| - 1]) + |groups[|groups| - 1].members|
  }

  lemma MembersSize<V>(groups: seq<Group<V>>)
    ensures |Members(groups)| == TotalMembers(groups)
  {
    if groups != [] {
      MembersSize(groups[..|groups| - 1]);
    }
  }

  lemma PriorMeansBurst<V>(c: Config<V>, g: Group<V>, rep: Item<V>, total: nat)
    ensures SiPrior(c, g, rep, total) > 0.0 ==>
      && total > 0 && c.isNew(rep.errorHash) && |g.members| >= c.burstN
      && |g.members| as real > c.burstX * total as real
      && SI_PRIOR_BASE <= SiPrior(c, g, rep, total) <= SI_PRIOR_CAP
  {
    if SiPrior(c, g, rep, total) > 0.0 {
      var share := |g.members| as real / total as real;
      assert share * total as real == |g.members| as real;
      assert share * total as real > c.burstX * total as real;
    }
  }

  function BurstWeight<V>(r: seq<Grouped<V>>, k: real): real {
    if r == [] then 0.0 else BurstWeight(r[..|r| - 1], k) + if r[|r| - 1].siPrior > 0.0 then k else 0.0
  }

  lemma BurstWeightIsProduct<V>(r: seq<Grouped<V>>, k: real)
    ensures BurstWeight(r, k) == Times(Bursts(r), k)
  {
    if r != [] {
      var n := |r| - 1;
      BurstWeightIsProduct(r[..n], k);
      OneMore(Bursts(r[..n]), k);
    }
  }

  /** The groups with a burst prior weigh more than the threshold `k` each. */
  lemma {:induction false} BurstsWeigh<V>(groups: seq<Group<V>>, r: seq<Grouped<V>>, k: real)
    requires |r| == |groups|
    requires forall i :: 0 <= i < |r| ==> r[i].siPrior > 0.0 ==> |groups[i].members| as real > k
    ensures BurstWeight(r, k) <= TotalMembers(groups) as real
    ensures Bursts(r) > 0 ==> BurstWeight(r, k) < TotalMembers(groups) as real
  {
    if groups != [] {
      BurstsWeigh(groups[..|groups| - 1], r[..|groups| - 1], k);
    }
  }

  lemma NoBurstWithoutItems<V>(groups: seq<Group<V>>, r: seq<Grouped<V>>, total: nat)
    requires |r| == |groups| && forall i :: 0 <= i < |r| ==> r[i].siPrior > 0.0 ==> total > 0
    ensures Bursts(r) > 0 ==> total > 0
  {
    if r != [] { NoBurstWithoutItems(groups[..|r| - 1], r[..|r| - 1], total); }
  }

  /** Fewer than 1/burst_x groups of a launch can carry a burst prior. */
  lemma FewBursts<V>(c: Config<V>, items: seq<Item<V>>)
    ensures Times(Bursts(Launch(c, items)), c.burstX) < 1.0
  {
    hide Unranked, Members, TotalMembers, Bursts, SiPrior;
    var groups, r := Unranked(c, items), Launch(c, items);
    var t := |items| as real;
    UnrankedNonEmpty(c, items);
    forall i | 0 <= i < |r|
      ensures r[i].siPrior > 0.0 ==> |items| > 0 && |groups[i].members| as real > c.burstX * t
    {
      PriorMeansBurst(c, groups[i], r[i].representative, |items|);
    }
    assert TotalMembers(groups) == |items| by {
      EveryItemGroupedOnce(c, items);
      MembersSize(groups);
      assert |multiset(items)| == |items|;
    }
    NoBurstWithoutItems(groups, r, |items|);
    BurstsOf(groups, r, c.burstX, t);
    assert r == Launch(c, items);
  }

  lemma BurstsOf<V>(groups: seq<Group<V>>, r: seq<Grouped<V>>, x: real, t: real)
    requires |r| == |groups| && TotalMembers(groups) as real == t
    requires Bursts(r) > 0 ==> t > 0.0
    requires forall i :: 0 <= i < |r| ==> r[i].siPrior > 0.0 ==> |groups[i].members| as real > x * t
    ensures Times(Bursts(r), x) < 1.0
  {
    BurstsWeigh(groups, r, x * t);
    BurstWeightIsProduct(r, x * t);
    hide Times;
    if Bursts(r) > 0 { CancelTotal(Bursts(r), x, t); } else { NoneWeighNothing(x); }
  }

  lemma NoneWeighNothing(x: real)
    ensures Times(0, x) == 0.0
  {
  }

  lemma CancelTotal(n: nat, x: real, t: real)
    requires t > 0.0 && Times(n, x * t) < t
    ensures Times(n, x) < 1.0
  {
    var b := n as real;
    assert b * (x * t) == (b * x) * t;
  }

  // ----- what the passes compare, field by field ---------------------------

  lemma {:induction false} HalfShared(a: set<int>, b: set<int>)
    ensures Jaccard(a, b) >= JACCARD_MIN <==> 2 * |a * b| >= |a + b| > 0
  {
    if a == {} && b == {} {
      assert a + b == {};
    } else {
      assert |a + b| == |a| + |b - a| == |b| + |a - b|;
      HalfOf(|a * b|, |a + b|);
    }
  }

  lemma {:induction false} HalfOf(n: nat, m: nat)
    requires m > 0
    ensures n as real / m as real >= 0.5 <==> 2 * n >= m
  {
    var r := n as real / m as real;
    assert r * m as real == n as real;
    if r >= 0.5 {
      assert r * m as real >= 0.5 * m as real;
    } else {
      assert r * m as real < 0.5 * m as real;
    }
  }

  /** A group is absorbed exactly if some earlier one has a centroid at least theta close and at least half of all
      templates of the two in common; a missing centroid counts as a cosine of -1. */
  lemma {:induction false} MergesIff<V>(c: Config<V>, merged: seq<Group<V>>, g: Group<V>)
    ensures |Merge(c, merged, g)| == |merged| <==>
      exists k :: 0 <= k < |merged|
        && (if merged[k].centroid.Some? && g.centroid.Some?
            then c.vectors.dot(merged[k].centroid.value, g.centroid.value) else -1.0) >= c.theta
        && 2 * |merged[k].templates * g.templates| >= |merged[k].templates + g.templates| > 0
  {
    hide Jaccard, AddMembers;
    forall k | 0 <= k < |merged|
      ensures Close(c, merged[k], g) <==>
        && (if merged[k].centroid.Some? && g.centroid.Some?
            then c.vectors.dot(merged[k].centroid.value, g.centroid.value) else -1.0) >= c.theta
        && 2 * |merged[k].templates * g.templates| >= |merged[k].templates + g.templates| > 0
    {
      HalfShared(merged[k].templates, g.templates);
    }
  }

  /** The first such group takes all members and templates; the others stay, and without one `g` stands last. */
  lemma {:induction false} MergeGoesToTheFirst<V>(c: Config<V>, merged: seq<Group<V>>, g: Group<V>)
    returns (k: nat)
    ensures k <= |merged|
    ensures k < |merged| ==> |Merge(c, [merged[k]], g)| == 1
    ensures forall j :: 0 <= j < k ==> |Merge(c, [merged[j]], g)| == 2
    ensures k == |merged| ==> Merge(c, merged, g) == merged + [g]
    ensures k < |merged| ==>
      var r := Merge(c, merged, g);
      && |r| == |merged| && r[..k] == merged[..k] && r[k + 1..] == merged[k + 1..]
      && r[k].members == merged[k].members + g.members
      && (TemplatesAgree(g) ==> r[k].templates == merged[k].templates + g.templates)
  {
    hide Close, AddMembers, TemplatesAgree;
    var first := FirstClose(c, merged, 0, g);
    k := if first.Some? then first.value else |merged|;
    forall j | 0 <= j < |merged|
      ensures |Merge(c, [merged[j]], g)| == if Close(c, merged[j], g) then 1 else 2
    {
    }
    if first.Some? {
      AddMembersAppends(c, merged[k], g.members);
      AddMembersTemplates(c, merged[k], g.members);
      if TemplatesAgree(g) { TemplatesOf(g); }
    }
  }

  /** The templates of a group are those of its members. */
  ghost predicate TemplatesAgree<V>(g: Group<V>) {
    forall t :: t in g.templates <==> exists k :: 0 <= k < |g.members| && t in g.members[k].templates
  }

  lemma {:induction false} TemplatesOf<V>(g: Group<V>)
    requires TemplatesAgree(g)
    ensures g.templates == TemplateSet(g.members)
  {
    forall t | t in g.templates ensures t in TemplateSet(g.members) {
      var k :| 0 <= k < |g.members| && t in g.members[k].templates;
    }
  }

  lemma {:induction false} TemplateSetSnoc<V>(items: seq<Item<V>>, item: Item<V>)
    ensures TemplateSet(items + [item]) == TemplateSet(items) + set t | t in item.templates
  {
    var all := items + [item];
    forall t | t in TemplateSet(all) ensures t in TemplateSet(items) || t in item.templates {
      var j :| 0 <= j < |all| && t in all[j].templates;
      assert j < |items| ==> items[j] == all[j];
    }
    forall t | t in TemplateSet(items) ensures t in TemplateSet(all) {
      var j :| 0 <= j < |items| && t in items[j].templates;
      assert all[j] == items[j];
    }
    forall t | t in item.templates ensures t in TemplateSet(all) {
      assert all[|items|] == item;
    }
  }

  lemma {:induction false} AddMembersTemplates<V>(c: Config<V>, g: Group<V>, items: seq<Item<V>>)
    ensures AddMembers(c, g, items).templates == g.templates + TemplateSet(items)
  {
    if items != [] {
      var n := |items| - 1;
      AddMembersTemplates(c, g, items[..n]);
      TemplateSetSnoc(items[..n], items[n]);
      assert items == items[..n] + [items[n]];
    }
  }

  /** An item joins the last of the groups nearest to it, if they are at least theta near; else it opens a group. */
  lemma {:induction false} AttachGoesToTheLastBest<V>(c: Config<V>, groups: seq<Group<V>>, item: Item<V>)
    returns (k: nat)
    ensures k <= |groups|
    ensures k < |groups| <==> exists j :: 0 <= j < |groups| && Near(c, item, groups[j]) >= c.theta && item.emb.Some?
    ensures k < |groups| ==>
      && (forall j :: 0 <= j < |groups| ==> Near(c, item, groups[j]) <= Near(c, item, groups[k]))
      && (forall j :: k < j < |groups| ==> Near(c, item, groups[j]) < Near(c, item, groups[k]))
    ensures var r := Attach(c, groups, item);
      && (k == |groups| ==> r[..k] == groups && |r| == k + 1 && r[k].members == [item])
      && (k < |groups| ==>
        && |r| == |groups| && r[..k] == groups[..k] && r[k + 1..] == groups[k + 1..]
        && r[k].members == groups[k].members + [item])
  {
    var best := if item.emb.None? then None else Best(c, groups, |groups|, item.emb.value);
    k := if best.Some? then best.value else |groups|;
    assert item.emb.Some? ==> forall j :: 0 <= j < |groups| ==>
      Near(c, item, groups[j]) == Cosine(c, Some(item.emb.value), groups[j].centroid);
  }

  /** The cosine of an item and a group; -1 where either has no vector. */
  ghost function Near<V>(c: Config<V>, item: Item<V>, g: Group<V>): real {
    if item.emb.Some? && g.centroid.Some? then c.vectors.dot(item.emb.value, g.centroid.value) else -1.0
  }

  /** The representative has a stack trace if any member has, then the most logs, then the smallest id. */
  lemma {:induction false} RepresentativeIsTheBest<V>(c: Config<V>, items: seq<Item<V>>, k: nat, m: Item<V>)
    requires k < |Launch(c, items)| && m in Launch(c, items)[k].group.members
    ensures var r := Launch(c, items)[k].representative;
      && r in Launch(c, items)[k].group.members
      && (m.hasStacktrace ==> r.hasStacktrace)
      && (m.hasStacktrace == r.hasStacktrace ==> m.logCount <= r.logCount)
      && (m.hasStacktrace == r.hasStacktrace && m.logCount == r.logCount ==> r.id <= m.id)
  {
    hide Unranked;
    UnrankedNonEmpty(c, items);
    assert !Ranks(m, Representative(Launch(c, items)[k].group.members));
  }

  /** A group of a launch carries a prior exactly if the failure of its representative is new and its members are
      many, and a large share of the launch; the prior is a half and that share, up to 0.9. */
  lemma {:induction false} PriorIff<V>(c: Config<V>, items: seq<Item<V>>, k: nat)
    requires k < |Launch(c, items)|
    ensures var g, total, size := Launch(c, items)[k], |items| as real, |Launch(c, items)[k].group.members| as real;
      && (g.siPrior != 0.0 <==>
            && items != [] && c.isNew(g.representative.errorHash) && |g.group.members| >= c.burstN
            && size > c.burstX * total)
      && (g.siPrior != 0.0 ==>
            && (g.siPrior == 0.9 <==> size >= 0.4 * total)
            && (g.siPrior != 0.9 ==> g.siPrior < 0.9 && (g.siPrior - 0.5) * total == size))
  {
    hide Unranked, Representative, Ranks;
    UnrankedNonEmpty(c, items);
    if items != [] {
      ShareAgainst(|Launch(c, items)[k].group.members|, |items|, c.burstX);
      ShareAgainst(|Launch(c, items)[k].group.members|, |items|, 0.4);
    }
  }

  lemma {:induction false} ShareAgainst(n: nat, total: nat, x: real)
    requires total > 0
    ensures n as real / total as real > x <==> n as real > x * total as real
    ensures n as real / total as real >= x <==> n as real >= x * total as real
    ensures n as real / total as real * total as real == n as real
    ensures n as real / total as real >= 0.0
  {
    var r, t := n as real / total as real, total as real;
    assert r * t == n as real;
    assert (r - x) * t == r * t - x * t;
    if r > x { assert (r - x) * t > 0.0; } else { assert (x - r) * t >= 0.0 && (x - r) * t == x * t - r * t; }
    assert r < 0.0 ==> r * t < 0.0;
  }

  // ----- what a finished group looks like ----------------------------------

  /** The templates are those of the members, and there is a centroid exactly if some member has a vector. */
  ghost predicate Consistent<V>(g: Group<V>) {
    && TemplatesAgree(g)
    && (g.centroid.Some? <==> exists k :: 0 <= k < |g.members| && g.members[k].emb.Some?)
  }

  function Embedded<V>(): Item<V> -> bool { (m: Item<V>) => m.emb.Some? }

  lemma {:induction false} EmbeddingsOf<V>(members: seq<Item<V>>)
    ensures |Embeddings(members)| == |Filter(Embedded(), members)|
    ensures forall k :: 0 <= k < |Embeddings(members)| ==>
      Filter(Embedded(), members)[k].emb == Some(Embeddings(members)[k])
  {
    if members != [] {
      EmbeddingsOf(members[1..]);
    }
  }

  /** A new group starts from the mean of the vectors its members have, made a unit. */
  lemma {:induction false} CentroidIsMean<V>(c: Config<V>, members: seq<Item<V>>, vecs: seq<V>)
    requires |vecs| == |Filter(Embedded(), members)|
    requires forall k :: 0 <= k < |vecs| ==> Filter(Embedded(), members)[k].emb == Some(vecs[k])
    ensures NewGroup(c, members).members == members
    ensures NewGroup(c, members).centroid == if vecs == [] then None
        else Some(c.vectors.normalize(c.vectors.mean(vecs)))
  {
    EmbeddingsOf(members);
    assert vecs == Embeddings(members);
  }

  lemma {:induction false} NoEmbeddings<V>(members: seq<Item<V>>)
    ensures Embeddings(members) == [] <==> forall k :: 0 <= k < |members| ==> members[k].emb.None?
  {
    if members != [] {
      NoEmbeddings(members[1..]);
      assert members[0].emb.None? && Embeddings(members[1..]) == [] ==>
        forall k :: 0 <= k < |members| ==> k > 0 ==> members[k] == members[1..][k - 1];
      assert forall k :: 0 <= k < |members[1..]| ==> members[1..][k] == members[k + 1];
    }
  }

  /** A new member moves the centroid as the running mean over the members that have a vector, made a unit again. */
  lemma {:induction false} CentroidIsRunningMean<V>(c: Config<V>, g: Group<V>, item: Item<V>)
    ensures item.emb.None? ==> AddMember(c, g, item).centroid == g.centroid
    ensures item.emb.Some? ==>
      var n := |Filter(Embedded(), g.members)|;
      AddMember(c, g, item).centroid == Some(c.vectors.normalize(
        if g.centroid.None? || n == 0 then item.emb.value
        else c.vectors.absorb(g.centroid.value, n, item.emb.value)))
  {
    EmbeddingsOf(g.members);
    NoEmbeddings(g.members);
  }

  lemma {:induction false} NewGroupConsistent<V>(c: Config<V>, members: seq<Item<V>>)
    ensures Consistent(NewGroup(c, members))
  {
    NoEmbeddings(members);
  }

  lemma {:induction false} AddMemberConsistent<V>(c: Config<V>, g: Group<V>, item: Item<V>)
    requires Consistent(g)
    ensures Consistent(AddMember(c, g, item))
  {
    TemplatesOf(g);
    TemplateSetSnoc(g.members, item);
    var r := AddMember(c, g, item);
    assert r.members[|g.members|] == item;
    assert forall k :: 0 <= k < |g.members| ==> r.members[k] == g.members[k];
  }

  lemma {:induction false} AddMembersConsistent<V>(c: Config<V>, g: Group<V>, items: seq<Item<V>>)
    requires Consistent(g)
    ensures Consistent(AddMembers(c, g, items))
  {
    hide Consistent, AddMember;
    if items != [] {
      AddMembersConsistent(c, g, items[..|items| - 1]);
      AddMemberConsistent(c, AddMembers(c, g, items[..|items| - 1]), items[|items| - 1]);
    }
  }

  lemma {:induction false} BucketsConsistent<V>(c: Config<V>, items: seq<Item<V>>, fps: seq<int>)
    ensures forall g <- Buckets(c, items, fps) :: Consistent(g)
  {
    hide Consistent, NewGroup, SortBy, WithFp;
    if fps != [] {
      BucketsConsistent(c, items, fps[..|fps| - 1]);
      NewGroupConsistent(c, SortBy(Id(), WithFp(items, fps[|fps| - 1])));
    }
  }

  lemma {:induction false} AttachAllConsistent<V>(c: Config<V>, groups: seq<Group<V>>, items: seq<Item<V>>)
    requires forall g <- groups :: Consistent(g)
    ensures forall g <- AttachAll(c, groups, items) :: Consistent(g)
  {
    hide Consistent, NewGroup, AddMember, Best;
    if items != [] {
      var n := |items| - 1;
      var before := AttachAll(c, groups, items[..n]);
      AttachAllConsistent(c, groups, items[..n]);
      NewGroupConsistent(c, [items[n]]);
      forall g <- before ensures Consistent(AddMember(c, g, items[n])) {
        AddMemberConsistent(c, g, items[n]);
      }
    }
  }

  lemma {:induction false} MergeAllConsistent<V>(c: Config<V>, groups: seq<Group<V>>)
    requires forall g <- groups :: Consistent(g)
    ensures forall g <- MergeAll(c, groups) :: Consistent(g)
  {
    hide Consistent, AddMembers, FirstClose;
    if groups != [] {
      var n := |groups| - 1;
      var before := MergeAll(c, groups[..n]);
      MergeAllConsistent(c, groups[..n]);
      forall g <- before ensures Consistent(AddMembers(c, g, groups[n].members)) {
        AddMembersConsistent(c, g, groups[n].members);
      }
    }
  }

  /** However a group came about: its templates are those of its members, and it has a centroid exactly if some
      member has a vector. */
  lemma {:induction false} GroupsAreConsistent<V>(c: Config<V>, items: seq<Item<V>>, g: Group<V>)
    requires g in Unranked(c, items)
    ensures forall t :: t in g.templates <==> exists k :: 0 <= k < |g.members| && t in g.members[k].templates
    ensures g.centroid.Some? <==> exists k :: 0 <= k < |g.members| && g.members[k].emb.Some?
  {
    hide Buckets, AttachAll, MergeAll, SortBy, WithFp, Fps;
    var fps := SortedSet(Fps(items));
    var leftovers := SortBy(Id(), WithFp(items, 0));
    BucketsConsistent(c, items, fps);
    AttachAllConsistent(c, Buckets(c, items, fps), leftovers);
    MergeAllConsistent(c, AttachAll(c, Buckets(c, items, fps), leftovers));
  }

  // ----- the order of the groups --------------------------------------------

  /** `a` opens an earlier group than `b`: smaller fingerprints first, then the leftovers by id. */
  predicate OpensBefore<V>(a: Item<V>, b: Item<V>) {
    if b.fp != 0 then a.fp != 0 && a.fp < b.fp else a.fp != 0 || a.id <= b.id
  }

  ghost predicate InOrder<V>(groups: seq<Group<V>>) {
    && NonEmpty(groups)
    && forall i, j :: 0 <= i < j < |groups| ==> OpensBefore(groups[i].members[0], groups[j].members[0])
  }

  lemma {:induction false} BucketsInOrder<V>(c: Config<V>, items: seq<Item<V>>, fps: seq<int>)
    requires StrictlyAscending(x => x, fps) && forall fp <- fps :: fp in Fps(items)
    ensures InOrder(Buckets(c, items, fps))
    ensures forall g <- Buckets(c, items, fps) :: g.members[0].fp != 0
  {
    hide SortBy, WithFp, Fps, Buckets;
    var r := Buckets(c, items, fps);
    BucketsNonEmpty(c, items, fps);
    forall k | 0 <= k < |fps| ensures r[k].members[0].fp == fps[k] != 0 {
      BucketMembers(items, fps[k]);
      assert r[k] in r;
      assert fps[k] in fps;
    }
  }

  lemma {:induction false} AttachAllInOrder<V>(c: Config<V>, groups: seq<Group<V>>, items: seq<Item<V>>)
    requires InOrder(groups) && forall g <- groups :: g.members[0].fp != 0
    requires Ascending(Id(), items) && forall m <- items :: m.fp == 0
    ensures var r := AttachAll(c, groups, items);
      InOrder(r) && forall g <- r :: g.members[0].fp != 0 || exists m <- items :: m.id == g.members[0].id
  {
    hide Best, NewGroup, AddMember;
    if items != [] {
      var n := |items| - 1;
      var before := AttachAll(c, groups, items[..n]);
      AttachAllInOrder(c, groups, items[..n]);
      var item := items[n];
      assert item in items;
      forall g <- before ensures OpensBefore(g.members[0], item) {
        if g.members[0].fp == 0 {
          var m :| m in items[..n] && m.id == g.members[0].id;
          var j :| 0 <= j < n && items[j] == m;
          assert Id()(items[j]) <= Id()(items[n]);
        }
      }
      AttachHeads(c, before, item);
    }
  }

  lemma {:induction false} AttachHeads<V>(c: Config<V>, groups: seq<Group<V>>, item: Item<V>)
    requires InOrder(groups) && forall g <- groups :: OpensBefore(g.members[0], item)
    ensures var r := Attach(c, groups, item);
      && InOrder(r) && |groups| <= |r| <= |groups| + 1
      && (forall k :: 0 <= k < |groups| ==> r[k].members[0] == groups[k].members[0])
      && (|r| > |groups| ==> r[|groups|].members[0] == item)
  {
    hide Best;
    var r := Attach(c, groups, item);
    assert forall k :: 0 <= k < |groups| ==> groups[k] in groups && r[k].members[0] == groups[k].members[0];
  }

  lemma {:induction false} MergeAllInOrder<V>(c: Config<V>, groups: seq<Group<V>>)
    requires InOrder(groups)
    ensures var r := MergeAll(c, groups);
      && InOrder(r)
      && forall k :: 0 <= k < |r| ==> exists j :: 0 <= j < |groups| && r[k].members[0] == groups[j].members[0]
  {
    if groups != [] {
      var n := |groups| - 1;
      var less, g := groups[..n], groups[n];
      assert NonEmpty(less) && forall j :: 0 <= j < n ==> less[j] == groups[j];
      MergeAllInOrder(c, less);
      var before, r := MergeAll(c, less), MergeAll(c, groups);
      assert g in groups;
      forall k | 0 <= k < |before| ensures OpensBefore(before[k].members[0], g.members[0]) {
        var j :| 0 <= j < n && before[k].members[0] == less[j].members[0];
      }
      MergeHeads(c, before, g);
      forall k | 0 <= k < |r| ensures exists j :: 0 <= j < |groups| && r[k].members[0] == groups[j].members[0] {
        if k < |before| {
          var j :| 0 <= j < n && before[k].members[0] == less[j].members[0];
          assert groups[j].members[0] == r[k].members[0];
        } else {
          assert r[k].members[0] == groups[n].members[0];
        }
      }
    }
  }

  lemma {:induction false} MergeHeads<V>(c: Config<V>, merged: seq<Group<V>>, g: Group<V>)
    requires InOrder(merged) && g.members != []
    requires forall k :: 0 <= k < |merged| ==> OpensBefore(merged[k].members[0], g.members[0])
    ensures var r := Merge(c, merged, g);
      && InOrder(r) && |merged| <= |r| <= |merged| + 1
      && (forall k :: 0 <= k < |merged| ==> r[k].members[0] == merged[k].members[0])
      && (|r| > |merged| ==> r[|merged|] == g)
  {
    hide FirstClose, AddMembers;
    var r := Merge(c, merged, g);
    forall k | 0 <= k < |merged| ensures r[k].members != [] && r[k].members[0] == merged[k].members[0] {
      assert merged[k] in merged;
      AddMembersAppends(c, merged[k], g.members);
    }
  }

  /** The groups with a fingerprint stand first, by the fingerprint of their first member; the others follow by id. */
  lemma {:induction false} GroupsStandInOrder<V>(c: Config<V>, items: seq<Item<V>>, i: nat, j: nat)
    requires i < j < |Unranked(c, items)|
    ensures var r := Unranked(c, items);
      && r[i].members != [] && r[j].members != []
      && var a, b := r[i].members[0], r[j].members[0];
         if b.fp != 0 then a.fp != 0 && a.fp < b.fp else a.fp != 0 || a.id <= b.id
  {
    hide Buckets, AttachAll, MergeAll, SortBy, WithFp, Fps;
    var fps := SortedSet(Fps(items));
    var leftovers := SortBy(Id(), WithFp(items, 0));
    SortSorts(Id(), WithFp(items, 0));
    BucketMembers(items, 0);
    BucketsInOrder(c, items, fps);
    AttachAllInOrder(c, Buckets(c, items, fps), leftovers);
    MergeAllInOrder(c, AttachAll(c, Buckets(c, items, fps), leftovers));
    assert Unranked(c, items)[i] in Unranked(c, items) && Unranked(c, items)[j] in Unranked(c, items);
  }

  // ----- the code of the source, on mutable groups --------------------------

  class LaunchGroup<V> {
    var members: seq<Item<V>>
    var centroid: Option<V>
    var templateIds: set<int>
    var representative: Option<Item<V>>
    var siPrior: real

    ghost function View(): Group<V>
      reads this
    {
      Group(members, centroid, templateIds)
    }

    constructor (c: Config<V>, items: seq<Item<V>>)
      ensures View() == NewGroup(c, items)
      ensures representative == None && siPrior == 0.0
    {
      members := items;
      var vecs := Embeddings(items);
      centroid := if vecs == [] then None else Some(c.vectors.normalize(c.vectors.mean(vecs)));
      templateIds := TemplateSet(items);
      representative := None;
      siPrior := 0.0;
    }

    method Add(c: Config<V>, item: Item<V>)
      modifies this
      ensures View() == AddMember(c, old(View()), item)
    {
      if item.emb.Some? {
        var vec := item.emb.value;
        var n := |Embeddings(members)|;
        if centroid.None? || n == 0 {
          centroid := Some(c.vectors.normalize(vec));
        } else {
          centroid := Some(c.vectors.normalize(c.vectors.absorb(centroid.value, n, vec)));
        }
      }
      members := members + [item];
      templateIds := templateIds + set t | t in item.templates;
    }
  }

  ghost function Views<V>(groups: seq<LaunchGroup<V>>): (r: seq<Group<V>>)
    reads groups
    ensures |r| == |groups|
    ensures forall k :: 0 <= k < |r| ==> r[k] == groups[k].View()
  {
    seq(|groups|, k requires 0 <= k < |groups| reads groups => groups[k].View())
  }

  ghost predicate Distinct<V>(groups: seq<LaunchGroup<V>>) {
    forall i, j :: 0 <= i < j < |groups| ==> groups[i] != groups[j]
  }

  /** What the finished groups say, in order. */
  ghost predicate Shows<V>(groups: seq<LaunchGroup<V>>, r: seq<Grouped<V>>)
    reads groups
  {
    && |groups| == |r|
    && forall k :: 0 <= k < |r| ==>
      && groups[k].View() == r[k].group
      && groups[k].representative == Some(r[k].representative)
      && groups[k].siPrior == r[k].siPrior
  }

  method FindClose<V>(c: Config<V>, merged: seq<LaunchGroup<V>>, group: LaunchGroup<V>) returns (target: Option<nat>)
    ensures target == FirstClose(c, Views(merged), 0, group.View())
    ensures target.Some? ==> target.value < |merged|
  {
    target := None;
    var i := 0;
    while i < |merged| && target.None?
      invariant i <= |merged|
      invariant FirstClose(c, Views(merged), 0, group.View())
             == if target.None? then FirstClose(c, Views(merged), i, group.View()) else target
    {
      if Cosine(c, merged[i].centroid, group.centroid) >= c.theta
         && Jaccard(merged[i].templateIds, group.templateIds) >= JACCARD_MIN {
        target := Some(i);
      }
      i := i + 1;
    }
  }

  method AddAll<V>(c: Config<V>, target: LaunchGroup<V>, items: seq<Item<V>>)
    modifies target
    ensures target.View() == AddMembers(c, old(target.View()), items)
  {
    for n := 0 to |items|
      invariant target.View() == AddMembers(c, old(target.View()), items[..n])
    {
      assert items[..n + 1][..n] == items[..n];
      target.Add(c, items[n]);
    }
    assert items[..|items|] == items;
  }

  lemma ViewsAppend<V>(groups: seq<LaunchGroup<V>>, g: LaunchGroup<V>)
    ensures Views(groups + [g]) == Views(groups) + [g.View()]
  {
  }

  /** One round of the merge pass: into the first close group, or behind them all. */
  method MergeOne<V>(c: Config<V>, merged: seq<LaunchGroup<V>>, group: LaunchGroup<V>) returns (r: seq<LaunchGroup<V>>)
    requires Distinct(merged) && group !in merged
    modifies merged
    ensures r == merged || r == merged + [group]
    ensures Views(r) == Merge(c, old(Views(merged)), old(group.View()))
  {
    hide AddMembers, FirstClose, Jaccard, Cosine, Close;
    var target := FindClose(c, merged, group);
    if target.None? {
      r := merged + [group];
      ViewsAppend(merged, group);
    } else {
      ghost var before := Views(merged);
      r := merged;
      AddAll(c, merged[target.value], group.members);
      assert Views(r) == before[target.value := AddMembers(c, before[target.value], group.members)];
    }
  }

  method MergeClose<V>(c: Config<V>, groups: seq<LaunchGroup<V>>) returns (merged: seq<LaunchGroup<V>>)
    requires Distinct(groups)
    modifies groups
    ensures Distinct(merged) && forall k :: 0 <= k < |merged| ==> merged[k] in groups
    ensures Views(merged) == MergeAll(c, old(Views(groups)))
  {
    hide Merge, Views, LaunchGroup.View;
    merged := [];
    ghost var was := Views(groups);
    for k := 0 to |groups|
      invariant Distinct(merged) && forall i :: 0 <= i < |merged| ==> merged[i] in groups[..k]
      invariant forall j :: k <= j < |groups| ==> groups[j].View() == was[j]
      invariant Views(merged) == MergeAll(c, was[..k])
    {
      var group := groups[k];
      assert was[..k + 1][..k] == was[..k] && groups[..k + 1] == groups[..k] + [group];
      assert forall i :: 0 <= i < |merged| ==> merged[i] != group && merged[i] in groups[..k + 1];
      merged := MergeOne(c, merged, group);
    }
    assert was[..|groups|] == was && groups[..|groups|] == groups;
  }

  lemma WithFpSnoc<V>(items: seq<Item<V>>, k: nat, fp: int)
    requires k < |items|
    ensures WithFp(items[..k + 1], fp) == WithFp(items[..k], fp) + (if items[k].fp == fp then [items[k]] else [])
  {
    assert items[..k + 1] == items[..k] + [items[k]];
    FilterSnoc((i: Item<V>) => i.fp == fp, items[..k], items[k]);
  }

  lemma WithFpNone<V>()
    ensures Fps<V>([]) == {} && forall fp :: WithFp<V>([], fp) == []
  {
  }

  /** Pass 1: the fingerprint buckets in input order, and the items without a fingerprint. */
  method Partition<V>(items: seq<Item<V>>) returns (byFp: map<int, seq<Item<V>>>, leftovers: seq<Item<V>>)
    ensures byFp.Keys == Fps(items)
    ensures forall fp | fp in byFp :: byFp[fp] == WithFp(items, fp)
    ensures leftovers == WithFp(items, 0)
  {
    hide WithFp, Fps;
    byFp, leftovers := map[], [];
    WithFpNone<V>();
    for k := 0 to |items|
      invariant byFp.Keys == Fps(items[..k])
      invariant forall fp | fp != 0 :: WithFp(items[..k], fp) == if fp in byFp then byFp[fp] else []
      invariant leftovers == WithFp(items[..k], 0)
    {
      var item := items[k];
      forall fp ensures WithFp(items[..k + 1], fp) == WithFp(items[..k], fp) + (if item.fp == fp then [item] else []) {
        WithFpSnoc(items, k, fp);
      }
      FpsSnoc(items, k);
      if item.fp == 0 {
        leftovers := leftovers + [item];
      } else {
        byFp := byFp[item.fp := (if item.fp in byFp then byFp[item.fp] else []) + [item]];
      }
    }
    assert items[..|items|] == items;
  }

  lemma FpsSnoc<V>(items: seq<Item<V>>, k: nat)
    requires k < |items|
    ensures Fps(items[..k + 1]) == Fps(items[..k]) + if items[k].fp != 0 then {items[k].fp} else {}
  {
    forall fp | fp in Fps(items[..k + 1]) ensures fp in Fps(items[..k]) + {items[k].fp} {
      var j :| 0 <= j < k + 1 && items[..k + 1][j].fp == fp != 0;
      if j < k { assert items[..k][j].fp == fp; }
    }
    forall fp | fp in Fps(items[..k]) ensures fp in Fps(items[..k + 1]) {
      var j :| 0 <= j < k && items[..k][j].fp == fp != 0;
      assert items[..k + 1][j].fp == fp;
    }
    assert items[..k + 1][k] == items[k];
  }

  /** Pass 2 for one item: attach to the best group, or open a new one. */
  method AttachItem<V>(c: Config<V>, groups: seq<LaunchGroup<V>>, item: Item<V>) returns (r: seq<LaunchGroup<V>>)
    requires Distinct(groups)
    modifies groups
    ensures Distinct(r) && |groups| <= |r| && r[..|groups|] == groups
    ensures forall k :: |groups| <= k < |r| ==> fresh(r[k])
    ensures Views(r) == Attach(c, old(Views(groups)), item)
  {
    ghost var was := Views(groups);
    var best: Option<nat> := None;
    var bestSim := c.theta;
    if item.emb.Some? {
      var vec := item.emb.value;
      for k := 0 to |groups|
        invariant best == Best(c, was, k, vec)
        invariant bestSim == if best.None? then c.theta else Cosine(c, Some(vec), was[best.value].centroid)
      {
        var sim := Cosine(c, Some(vec), groups[k].centroid);
        if sim >= bestSim {
          bestSim := sim;
          best := Some(k);
        }
      }
    }
    if best.Some? {
      groups[best.value].Add(c, item);
      r := groups;
      assert Views(r) == was[best.value := AddMember(c, was[best.value], item)];
    } else {
      r := OpenGroup(c, groups, [item]);
    }
  }

  /** Representative and burst prior of one group. */
  method RankOne<V>(c: Config<V>, group: LaunchGroup<V>, total: nat)
    requires group.members != []
    modifies group
    ensures group.View() == old(group.View())
    ensures group.representative == Some(Representative(group.members))
    ensures group.siPrior == SiPrior(c, group.View(), Representative(group.members), total)
  {
    hide Representative;
    var rep := Representative(group.members);
    group.representative := Some(rep);
    group.siPrior := 0.0;
    if total > 0 && c.isNew(rep.errorHash) && |group.members| >= c.burstN
       && |group.members| as real / total as real > c.burstX {
      var p := SI_PRIOR_BASE + |group.members| as real / total as real;
      group.siPrior := if p < SI_PRIOR_CAP then p else SI_PRIOR_CAP;
    }
  }

  /** Representatives and burst priors, group by group. */
  method Rank<V>(c: Config<V>, groups: seq<LaunchGroup<V>>, total: nat)
    requires Distinct(groups) && NonEmpty(Views(groups))
    modifies groups
    ensures Shows(groups, Finish(c, old(Views(groups)), total))
  {
    hide Representative, SiPrior, Finish;
    ghost var views := Views(groups);
    ghost var r := Finish(c, views, total);
    for k := 0 to |groups|
      invariant forall j :: 0 <= j < |groups| ==> groups[j].View() == views[j]
      invariant forall j :: 0 <= j < k ==>
        groups[j].representative == Some(r[j].representative) && groups[j].siPrior == r[j].siPrior
    {
      assert views[k] in views;
      RankOne(c, groups[k], total);
    }
  }

  method OpenGroup<V>(c: Config<V>, groups: seq<LaunchGroup<V>>, members: seq<Item<V>>) returns (r: seq<LaunchGroup<V>>)
    requires Distinct(groups)
    ensures Distinct(r) && |r| == |groups| + 1 && fresh(r[|groups|])
    ensures forall k :: 0 <= k < |groups| ==> r[k] == groups[k]
    ensures Views(r) == Views(groups) + [NewGroup(c, members)]
  {
    var g := new LaunchGroup(c, members);
    ViewsAppend(groups, g);
    r := groups + [g];
  }

  method OpenBuckets<V>(c: Config<V>, items: seq<Item<V>>, fps: seq<int>, byFp: map<int, seq<Item<V>>>)
    returns (groups: seq<LaunchGroup<V>>)
    requires forall k :: 0 <= k < |fps| ==> fps[k] in byFp && byFp[fps[k]] == WithFp(items, fps[k])
    ensures Distinct(groups) && forall k :: 0 <= k < |groups| ==> fresh(groups[k])
    ensures Views(groups) == Buckets(c, items, fps)
  {
    hide NewGroup, WithFp, SortBy, Views, LaunchGroup.View;
    groups := [];
    for k := 0 to |fps|
      invariant Distinct(groups) && forall k :: 0 <= k < |groups| ==> fresh(groups[k])
      invariant Views(groups) == Buckets(c, items, fps[..k])
    {
      assert fps[..k + 1][..k] == fps[..k];
      groups := OpenGroup(c, groups, SortBy(Id(), byFp[fps[k]]));
    }
    assert fps[..|fps|] == fps;
  }

  method AttachLeftovers<V>(
      c: Config<V>, groups: seq<LaunchGroup<V>>, items: seq<Item<V>>) returns (r: seq<LaunchGroup<V>>)
    requires Distinct(groups)
    modifies groups
    ensures Distinct(r) && |groups| <= |r| && r[..|groups|] == groups
    ensures forall k :: |groups| <= k < |r| ==> fresh(r[k])
    ensures Views(r) == AttachAll(c, old(Views(groups)), items)
  {
    hide Attach, Views;
    r := groups;
    for k := 0 to |items|
      invariant Distinct(r) && |groups| <= |r| && r[..|groups|] == groups
      invariant forall k :: |groups| <= k < |r| ==> fresh(r[k])
      invariant Views(r) == AttachAll(c, old(Views(groups)), items[..k])
    {
      assert items[..k + 1][..k] == items[..k];
      ghost var before := r;
      assert forall j :: 0 <= j < |groups| ==> r[j] == groups[j];
      r := AttachItem(c, r, items[k]);
      assert forall j :: 0 <= j < |before| ==> r[j] == before[j];
    }
    assert items[..|items|] == items;
  }

  method GroupLaunch<V>(c: Config<V>, items: seq<Item<V>>) returns (groups: seq<LaunchGroup<V>>)
    ensures Distinct(groups) && forall k :: 0 <= k < |groups| ==> fresh(groups[k])
    ensures Shows(groups, Launch(c, items))
  {
    hide WithFp, SortBy, AttachAll, MergeAll, Finish, Shows, Buckets;
    var byFp, leftovers := Partition(items);
    groups := OpenBuckets(c, items, SortedSet(byFp.Keys), byFp);
    ghost var buckets := groups;
    groups := AttachLeftovers(c, groups, SortBy(Id(), leftovers));
    assert forall j :: 0 <= j < |buckets| ==> groups[j] == buckets[j];
    groups := MergeClose(c, groups);
    UnrankedNonEmpty(c, items);
    Rank(c, groups, |items|);
  }
}
