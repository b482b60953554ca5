/**
 Pruning of passed subtrees before a project is transferred (`drop_passed` in tools/rp-migrate/migrate.py).
 Items name their parent by id. No shape is assumed but that the recursion of the source ends: no line of
 descent from a root meets an id twice, which holds whenever ids are unique. An item whose parent chain does
 not reach a root is never visited.
 */
module DropPassed {
  import opened Wrappers
  import opened Sorting

  datatype Item = Item(id: int, parent: Option<int>, status: Option<string>)

  /** `str.upper`, as far as a comparison with PASSED can tell: besides the ASCII letters, only the long s
      and the sharp s turn into letters of that word. */
  function Upper(s: string): string {
    if s == "" then ""
    else
      (if 'a' <= s[0] <= 'z' then [(s[0] as int - 32) as char]
       else if s[0] == '\U{17F}' then "S"
       else if s[0] == '\U{DF}' then "SS"
       else [s[0]]) + Upper(s[1..])
  }

  predicate Passed(it: Item) { it.status.Some? && Upper(it.status.value) == "PASSED" }

  /** The status is the word in any mixture of cases; a long s stands for an s, and a sharp s for both. */
  predicate Spells(s: string, word: string) {
    if word == "" || s == "" then word == s
    else if s[0] == '\U{DF}' then "SS" <= word && Spells(s[1..], word[2..])
    else
      && (s[0] == word[0] || ('a' <= s[0] <= 'z' && s[0] as int == word[0] as int + 32)
          || (s[0] == '\U{17F}' && word[0] == 'S'))
      && Spells(s[1..], word[1..])
  }

  lemma {:induction false} Cons(c: char, rest: string, word: string)
    ensures [c] + rest == word <==> word != "" && word[0] == c && word[1..] == rest
  {
    if word != "" { assert word == [word[0]] + word[1..]; }
    assert ([c] + rest)[1..] == rest;
  }

  lemma {:induction false} ConsTwice(rest: string, word: string)
    ensures "SS" + rest == word <==> "SS" <= word && word[2..] == rest
  {
    if "SS" <= word { assert word == "SS" + word[2..]; }
    assert ("SS" + rest)[2..] == rest;
  }

  /** A character other than the sharp s becomes one letter. */
  lemma {:induction false} UpperOne(s: string, l: char) returns (c: char)
    requires s != "" && s[0] != '\U{DF}' && 'A' <= l <= 'Z'
    ensures Upper(s) == [c] + Upper(s[1..])
    ensures
      c == l <==> s[0] == l || ('a' <= s[0] <= 'z' && s[0] as int == l as int + 32) || (s[0] == '\U{17F}' && l == 'S')
  {
    c := if 'a' <= s[0] <= 'z' then (s[0] as int - 32) as char else if s[0] == '\U{17F}' then 'S' else s[0];
  }

  lemma {:induction false} UpperSpells(s: string, word: string)
    requires forall c <- word :: 'A' <= c <= 'Z'
    ensures Upper(s) == word <==> Spells(s, word)
  {
    if s != "" && word != "" {
      assert word[0] in word && forall c <- word[1..] :: c in word;
      if s[0] == '\U{DF}' {
        assert Upper(s) == "SS" + Upper(s[1..]);
        hide Upper;
        ConsTwice(Upper(s[1..]), word);
        if "SS" <= word {
          assert forall c <- word[2..] :: c in word;
          UpperSpells(s[1..], word[2..]);
        }
      } else {
        hide Upper;
        var c := UpperOne(s, word[0]);
        Cons(c, Upper(s[1..]), word);
        UpperSpells(s[1..], word[1..]);
      }
    } else if s == "" {
    } else {
      UpperGrows(s);
    }
  }

  lemma {:induction false} UpperGrows(s: string)
    ensures s != "" ==> Upper(s) != ""
  {
  }

  /** Passed means a status that spells PASSED, in any mixture of cases; a missing one is not. */
  lemma {:induction false} PassedIff(it: Item)
    ensures Passed(it) <==> it.status.Some? && Spells(it.status.value, "PASSED")
  {
    if it.status.Some? { UpperSpells(it.status.value, "PASSED"); }
  }

  function Id(): Item -> int { (it: Item) => it.id }

  function HasParent(p: Option<int>): Item -> bool { (it: Item) => it.parent == p }

  function Children(items: seq<Item>, p: Option<int>): seq<Item> { Filter(HasParent(p), items) }

  // ----- what ought to survive ---------------------------------------------------

  predicate ChildOf(p: Item, c: Item) { c.parent == Some(p.id) }

  /** A line of descent, each item the parent of the next. */
  predicate Chain(items: seq<Item>, path: seq<Item>) {
    && path != [] && (forall k :: 0 <= k < |path| ==> path[k] in items)
    && forall k :: 0 < k < |path| ==> ChildOf(path[k - 1], path[k])
  }

  ghost predicate Descends(items: seq<Item>, a: Item, d: Item) {
    exists path: seq<Item> :: Chain(items, path) && path[0] == a && path[|path| - 1] == d
  }

  /** It or some descendant is not passed. */
  ghost predicate Survives(items: seq<Item>, a: Item) {
    exists d :: d in items && Descends(items, a, d) && !Passed(d)
  }

  ghost predicate Rooted(items: seq<Item>, d: Item) {
    exists r :: r in items && r.parent.None? && Descends(items, r, d)
  }

  /** An item with this id hangs from a root and survives; what is kept is a set of ids. */
  ghost predicate Kept(items: seq<Item>, it: Item) {
    exists x :: x in items && x.id == it.id && Rooted(items, x) && Survives(items, x)
  }

  /** The visits of the source end: no line of descent from a root meets an id twice. */
  ghost predicate Ends(items: seq<Item>) {
    forall path: seq<Item> :: Chain(items, path) && path[0].parent.None? ==> DistinctKeys(Id(), path)
  }

  ghost function Keeps(items: seq<Item>): Item -> bool { (it: Item) => Kept(items, it) }

  ghost function Pruned(items: seq<Item>): seq<Item> { Filter(Keeps(items), items) }

  // ----- lines of descent ----------------------------------------------------------

  lemma {:induction false} DescendsSelf(items: seq<Item>, a: Item)
    requires a in items
    ensures Descends(items, a, a)
  {
    assert Chain(items, [a]);
    assert [a][0] == a && [a][|[a]| - 1] == a;
  }

  lemma {:induction false} DescendsTrans(items: seq<Item>, a: Item, b: Item, d: Item)
    requires Descends(items, a, b) && Descends(items, b, d)
    ensures Descends(items, a, d)
  {
    var p: seq<Item> :| Chain(items, p) && p[0] == a && p[|p| - 1] == b;
    var q: seq<Item> :| Chain(items, q) && q[0] == b && q[|q| - 1] == d;
    var r := p + q[1..];
    forall k | 0 < k < |r| ensures ChildOf(r[k - 1], r[k]) {
      if k >= |p| { assert r[k] == q[k - |p| + 1] && r[k - 1] == q[k - |p|]; }
    }
    assert Chain(items, r) && r[0] == a && r[|r| - 1] == d;
  }

  lemma {:induction false} DescendsChild(items: seq<Item>, a: Item, c: Item)
    requires a in items && c in items && ChildOf(a, c)
    ensures Descends(items, a, c)
  {
    assert Chain(items, [a, c]);
    assert [a, c][0] == a && [a, c][|[a, c]| - 1] == c;
  }

  /** Descent is the item itself, or descent from one of its children. */
  lemma {:induction false} DescendsStep(items: seq<Item>, a: Item, d: Item)
    requires Descends(items, a, d) && a != d
    ensures exists c :: c in items && ChildOf(a, c) && Descends(items, c, d)
  {
    var p: seq<Item> :| Chain(items, p) && p[0] == a && p[|p| - 1] == d;
    var q := p[1..];
    assert Chain(items, q) && q[0] == p[1] && q[|q| - 1] == d;
    assert Descends(items, p[1], d);
    assert p[1] in items && ChildOf(p[0], p[1]);
  }

  /** Every item on a line of descent lies between its ends. */
  lemma {:induction false} OnChain(items: seq<Item>, p: seq<Item>, k: nat)
    requires Chain(items, p) && k < |p|
    ensures Descends(items, p[0], p[k]) && Descends(items, p[k], p[|p| - 1])
  {
    assert Chain(items, p[..k + 1]) && p[..k + 1][0] == p[0] && p[..k + 1][|p[..k + 1]| - 1] == p[k];
    assert Chain(items, p[k..]) && p[k..][0] == p[k] && p[k..][|p[k..]| - 1] == p[|p| - 1];
  }

  lemma {:induction false} SurvivesUp(items: seq<Item>, a: Item, b: Item)
    requires Descends(items, a, b) && Survives(items, b)
    ensures Survives(items, a)
  {
    var d :| d in items && Descends(items, b, d) && !Passed(d);
    DescendsTrans(items, a, b, d);
  }

  lemma {:induction false} RootedDown(items: seq<Item>, a: Item, b: Item)
    requires Rooted(items, a) && Descends(items, a, b)
    ensures Rooted(items, b)
  {
    var r :| r in items && r.parent.None? && Descends(items, r, a);
    DescendsTrans(items, r, a, b);
  }

  // ----- the walk --------------------------------------------------------------------

  /** Ids of the surviving items at or below some item of `tops`. */
  ghost function Under(items: seq<Item>, tops: seq<Item>): set<int> {
    set d | d in items && (exists m :: m in tops && Descends(items, m, d)) && Survives(items, d) :: d.id
  }

  lemma {:induction false} UnderSnoc(items: seq<Item>, tops: seq<Item>, t: Item)
    ensures Under(items, tops + [t]) == Under(items, tops) + Under(items, [t])
  {
    hide Descends, Survives;
  }

  /** The survivors below an item: those below its children, and itself if it survives. */
  lemma {:induction false} UnderItem(items: seq<Item>, it: Item, kids: seq<Item>)
    requires it in items && forall c :: c in kids <==> c in items && ChildOf(it, c)
    ensures Under(items, [it]) == Under(items, kids) + if Survives(items, it) then {it.id} else {}
    ensures Survives(items, it) <==> !Passed(it) || exists c :: c in kids && Survives(items, c)
  {
    hide Descends, Survives;
    forall d | d in items && Descends(items, it, d) && d != it
      ensures exists m :: m in kids && Descends(items, m, d)
    {
      DescendsStep(items, it, d);
    }
    forall m, d | m in kids && Descends(items, m, d) ensures Descends(items, it, d) {
      DescendsChild(items, it, m);
      DescendsTrans(items, it, m, d);
    }
    DescendsSelf(items, it);
    assert it in [it];
    SurvivesIff(items, it, kids);
  }

  lemma {:induction false} SurvivesIff(items: seq<Item>, it: Item, kids: seq<Item>)
    requires it in items && forall c :: c in kids <==> c in items && ChildOf(it, c)
    ensures Survives(items, it) <==> !Passed(it) || exists c :: c in kids && Survives(items, c)
  {
    hide Descends;
    DescendsSelf(items, it);
    if Survives(items, it) && Passed(it) {
      var d :| d in items && Descends(items, it, d) && !Passed(d);
      DescendsStep(items, it, d);
      var c :| c in items && ChildOf(it, c) && Descends(items, c, d);
      assert c in kids && Survives(items, c);
    }
    if c :| c in kids && Survives(items, c) {
      DescendsChild(items, it, c);
      SurvivesUp(items, it, c);
    }
  }

  /** A line of descent from a root meets no id twice, so it cannot be longer than the list. */
  lemma {:induction false} Fits(xs: seq<Item>, ys: seq<Item>)
    requires DistinctKeys(Id(), xs) && forall x | x in xs :: x in ys
    ensures |xs| <= |ys|
    decreases |xs|
  {
    if xs != [] {
      var n := |xs| - 1;
      assert xs[n] in xs;
      var j :| 0 <= j < |ys| && ys[j] == xs[n];
      var rest := ys[..j] + ys[j + 1..];
      forall x | x in xs[..n] ensures x in rest {
        var k :| 0 <= k < n && xs[..n][k] == x;
        assert Id()(xs[k]) != Id()(xs[n]) && xs[k] in xs;
        var i :| 0 <= i < |ys| && ys[i] == x;
        assert if i < j then rest[i] == x else rest[i - 1] == x;
      }
      Fits(xs[..n], rest);
    }
  }

  lemma {:induction false} ExtendLine(items: seq<Item>, path: seq<Item>, c: Item)
    requires Ends(items) && Chain(items, path) && path[0].parent.None?
    requires c in items && ChildOf(path[|path| - 1], c)
    ensures Chain(items, path + [c]) && DistinctKeys(Id(), path + [c]) && (path + [c])[0].parent.None?
  {
  }

  /** With unique ids the visits end. */
  lemma {:induction false} UniqueIdsEnd(items: seq<Item>)
    requires DistinctKeys(Id(), items)
    ensures Ends(items)
  {
    forall path: seq<Item> | Chain(items, path) && path[0].parent.None?
        ensures DistinctKeys(Id(), path) { LineIsDistinct(items, path); }
  }

  lemma {:induction false} LineIsDistinct(items: seq<Item>, path: seq<Item>)
    requires DistinctKeys(Id(), items) && Chain(items, path) && path[0].parent.None?
    ensures DistinctKeys(Id(), path)
  {
    var n := |path| - 1;
    if n > 0 {
      var init := path[..n];
      LineIsDistinct(items, init);
      forall j | 0 <= j < n ensures path[j].id != path[n].id {
        assert ChildOf(path[n - 1], path[n]);
        if j > 0 {
          assert ChildOf(path[j - 1], path[j]);
          assert Id()(init[j - 1]) != Id()(init[n - 1]);
        }
        assert path[j].parent != path[n].parent;
        if path[j].id == path[n].id { SameItem(items, path[j], path[n]); }
      }
    }
  }

  /** Where a line from a root meets an id twice, lines from that root have any length: the visits of the
      source never end. */
  lemma {:induction false} RepeatNeverEnds(items: seq<Item>, path: seq<Item>, i: nat, j: nat, n: nat)
      returns (longer: seq<Item>)
    requires Chain(items, path) && path[0].parent.None? && i < j < |path| && path[i].id == path[j].id
    ensures Chain(items, longer) && longer[0] == path[0] && |longer| >= n
    decreases n - |path|
  {
    if |path| >= n {
      longer := path;
    } else {
      var tail := path[i + 1..];
      var next := path[..j + 1] + tail;
      forall k | 0 < k < |next| ensures ChildOf(next[k - 1], next[k]) {
        if k > j + 1 { assert next[k] == path[i + k - j] && next[k - 1] == path[i + k - j - 1]; }
        else if k == j + 1 { assert next[k] == path[i + 1] && next[k - 1] == path[j]; }
      }
      assert Chain(items, next);
      assert |next| == |path| + (j - i);
      assert next[i] == path[i] && next[j] == path[j];
      longer := RepeatNeverEnds(items, next, i, j, n);
    }
  }

  lemma {:induction false} SameItem(items: seq<Item>, a: Item, b: Item)
    requires DistinctKeys(Id(), items) && a in items && b in items && a.id == b.id
    ensures a == b
  {
    var i :| 0 <= i < |items| && items[i] == a;
    var j :| 0 <= j < |items| && items[j] == b;
    assert Id()(items[i]) == Id()(items[j]);
  }

  function ListAt(children: map<Option<int>, seq<Item>>, p: Option<int>): seq<Item> {
    if p in children then children[p] else []
  }

  lemma {:induction false} ChildrenSnoc(items: seq<Item>, it: Item, p: Option<int>)
    ensures Children(items + [it], p) == if it.parent == p then Children(items, p) + [it] else Children(items, p)
  {
    FilterSnoc(HasParent(p), items, it);
    assert Children(items, p) + [] == Children(items, p);
  }

  lemma {:induction false} NoChildren(p: Option<int>)
    ensures Children([], p) == []
  {
  }

  method ByParent(items: seq<Item>) returns (children: map<Option<int>, seq<Item>>)
    ensures forall p :: ListAt(children, p) == Children(items, p)
  {
    hide Children;
    children := map[];
    forall p { NoChildren(p); }
    for i := 0 to |items|
      invariant forall p :: ListAt(children, p) == Children(items[..i], p)
    {
      var it := items[i];
      assert items[..i + 1] == items[..i] + [it];
      forall p { ChildrenSnoc(items[..i], it, p); }
      children := children[it.parent := ListAt(children, it.parent) + [it]];
    }
    assert items[..|items|] == items;
  }

  class Pruner {
    const items: seq<Item>
    var children: map<Option<int>, seq<Item>>
    var keep: set<int>

    ghost predicate Valid()
      reads this
    {
      Ends(items) && forall p :: Get(p) == Children(items, p)
    }

    function Get(p: Option<int>): seq<Item>
      reads this
    {
      ListAt(children, p)
    }

    constructor (items: seq<Item>)
      requires Ends(items)
      ensures Valid() && this.items == items && keep == {}
    {
      hide Children;
      var byParent := ByParent(items);
      this.items, children, keep := items, byParent, {};
    }

    /** Visit an item and all below it; `path` is the line that led here. */
    method Visit(it: Item, ghost path: seq<Item>) returns (kept: bool)
      requires Valid() && Chain(items, path) && path[0].parent.None? && DistinctKeys(Id(), path) &&
          path[|path| - 1] == it
      modifies this`keep
      ensures Valid()
      ensures kept == Survives(items, it)
      ensures keep == old(keep) + Under(items, [it])
      decreases |items| - |path|
    {
      hide Descends, Survives, Under, DistinctKeys, Chain, Children, Passed, Ends;
      ghost var before := keep;
      PathEnds(items, path);
      var keptChild := false;
      var kids := Get(Some(it.id));
      KidsAre(items, it);
      UnderNone(items);
      for k := 0 to |kids|
        invariant Valid() && kids == Children(items, Some(it.id))
        invariant keep == before + Under(items, kids[..k])
        invariant keptChild <==> exists c :: c in kids[..k] && Survives(items, c)
      {
        var child := kids[k];
        assert child in kids;
        ExtendLine(items, path, child);
        PathFits(items, path + [child]);
        var below := Visit(child, path + [child]);
        assert kids[..k + 1] == kids[..k] + [child];
        UnderSnoc(items, kids[..k], child);
        keptChild := below || keptChild;
      }
      assert kids[..|kids|] == kids;
      UnderItem(items, it, kids);
      if keptChild || !Passed(it) {
        keep := keep + {it.id};
        return true;
      }
      kept := false;
    }

    method Walk()
      requires Valid() && keep == {}
      modifies this`keep
      ensures Valid() && keep == Under(items, Children(items, None))
    {
      hide Descends, Survives, Under, DistinctKeys, Children, Ends;
      var roots := Get(None);
      UnderNone(items);
      for k := 0 to |roots|
        invariant Valid() && roots == Children(items, None)
        invariant keep == Under(items, roots[..k])
      {
        assert roots[k] in roots;
        RootLine(items, roots[k]);
        var _ := Visit(roots[k], [roots[k]]);
        assert roots[..k + 1] == roots[..k] + [roots[k]];
        UnderSnoc(items, roots[..k], roots[k]);
      }
      assert roots[..|roots|] == roots;
    }
  }

  lemma {:induction false} PathEnds(items: seq<Item>, path: seq<Item>)
    requires Chain(items, path)
    ensures path != [] && path[|path| - 1] in items
  {
  }

  lemma {:induction false} PathFits(items: seq<Item>, path: seq<Item>)
    requires Chain(items, path) && DistinctKeys(Id(), path)
    ensures |path| <= |items|
  {
    Fits(path, items);
  }

  lemma {:induction false} RootLine(items: seq<Item>, r: Item)
    requires r in Children(items, None)
    ensures r in items && r.parent.None? && Chain(items, [r]) && DistinctKeys(Id(), [r])
  {
    assert HasParent(None)(r);
  }

  lemma {:induction false} KidsAre(items: seq<Item>, it: Item)
    ensures forall c :: c in Children(items, Some(it.id)) <==> c in items && ChildOf(it, c)
  {
    var p := HasParent(Some(it.id));
    forall c ensures c in Children(items, Some(it.id)) <==> c in items && ChildOf(it, c) {
      assert p(c) <==> ChildOf(it, c);
    }
  }

  lemma {:induction false} UnderNone(items: seq<Item>)
    ensures Under(items, []) == {}
  {
  }

  lemma {:induction false} FilterSame(p: Item -> bool, q: Item -> bool, xs: seq<Item>)
    requires forall x | x in xs :: p(x) == q(x)
    ensures Filter(p, xs) == Filter(q, xs)
  {
    if xs != [] { FilterSame(p, q, xs[1..]); }
  }

  lemma {:induction false} KeptIsUnderRoots(items: seq<Item>, it: Item)
    requires it in items
    ensures it.id in Under(items, Children(items, None)) <==> Kept(items, it)
  {
    hide Descends, Survives;
    var roots := Children(items, None);
    forall r ensures r in roots <==> r in items && r.parent.None? { assert HasParent(None)(r) <==> r.parent.None?; }
    if it.id in Under(items, roots) {
      var d :| d in items && (exists m :: m in roots && Descends(items, m, d)) && Survives(items, d) && d.id == it.id;
    }
  }

  method Prune(items: seq<Item>) returns (r: seq<Item>)
    requires Ends(items)
    ensures r == Pruned(items)
  {
    hide Under, Kept, Filter, Ends;
    var pruner := new Pruner(items);
    pruner.Walk();
    var keep := pruner.keep;
    var p := (it: Item) => it.id in keep;
    r := Filter(p, items);
    forall x | x in items ensures p(x) == Keeps(items)(x) { KeptIsUnderRoots(items, x); }
    FilterSame(p, Keeps(items), items);
  }

  // ----- what the result is -------------------------------------------------------------

  lemma {:induction false} InPruned(items: seq<Item>, it: Item)
    requires it in items
    ensures it in Pruned(items) <==> Kept(items, it)
  {
    hide Kept;
    assert Keeps(items)(it) == Kept(items, it);
  }

  /** With unique ids an item is kept exactly when it hangs from a root and it or some descendant is not passed;
      on a forest, where all hang from a root, exactly when it or some descendant is not passed. */
  lemma {:induction false} KeptIff(items: seq<Item>, it: Item)
    requires it in items
    ensures Rooted(items, it) && Survives(items, it) ==> it in Pruned(items)
    ensures DistinctKeys(Id(), items) ==> (it in Pruned(items) <==> Rooted(items, it) && Survives(items, it))
    ensures DistinctKeys(Id(), items) && (forall x | x in items :: Rooted(items, x)) ==>
        (it in Pruned(items) <==> Survives(items, it))
  {
    hide Rooted, Survives, Pruned;
    InPruned(items, it);
    if DistinctKeys(Id(), items) && it in Pruned(items) {
      var x :| x in items && x.id == it.id && Rooted(items, x) && Survives(items, x);
      SameItem(items, x, it);
    }
  }

  /** The kept items are closed under ancestors. */
  ghost predicate Closed(items: seq<Item>) {
    forall a, d :: a in items && Rooted(items, a) && Descends(items, a, d) && d in Pruned(items) ==> a in Pruned(items)
  }

  /** An item that is not passed shares its id with a child of another parent only where an item with that
      parent's id survives anyway. */
  ghost predicate NoTornTwin(items: seq<Item>) {
    forall p, c, x :: Torn(items, p, c, x) ==> Kept(items, p)
  }

  ghost predicate Torn(items: seq<Item>, p: Item, c: Item, x: Item) {
    && p in items && c in items && x in items && Rooted(items, p) && Rooted(items, x)
    && ChildOf(p, c) && x.id == c.id && !ChildOf(p, x) && !Passed(x)
  }

  /** Items with one id have the same children, so what survives below one survives below the other. */
  lemma {:induction false} TwinsShareChildren(items: seq<Item>, x: Item, c: Item)
    requires x in items && c in items && x.id == c.id && Survives(items, x)
    ensures !Passed(x) || Survives(items, c)
  {
    hide Descends;
    if Passed(x) {
      var e :| e in items && Descends(items, x, e) && !Passed(e);
      DescendsStep(items, x, e);
      var k :| k in items && ChildOf(x, k) && Descends(items, k, e);
      DescendsChild(items, c, k);
      DescendsTrans(items, c, k, e);
    }
  }

  lemma {:induction false} ParentIsKept(items: seq<Item>, p: Item, c: Item)
    requires NoTornTwin(items) && p in items && c in items && Rooted(items, p) && ChildOf(p, c) && Kept(items, c)
    ensures Kept(items, p)
  {
    hide Descends, Rooted, Survives;
    var x :| x in items && x.id == c.id && Rooted(items, x) && Survives(items, x);
    TwinsShareChildren(items, x, c);
    if Survives(items, c) {
      DescendsChild(items, p, c);
      SurvivesUp(items, p, c);
    } else if ChildOf(p, x) {
      DescendsChild(items, p, x);
      SurvivesUp(items, p, x);
    } else {
      assert Torn(items, p, c, x);
    }
  }

  lemma {:induction false} ChainIsKept(items: seq<Item>, path: seq<Item>, k: nat)
    requires NoTornTwin(items) && Chain(items, path) && Rooted(items, path[0])
    requires k < |path| && Kept(items, path[|path| - 1])
    ensures Kept(items, path[k])
    decreases |path| - k
  {
    hide NoTornTwin, Rooted, Kept, Descends;
    if k < |path| - 1 {
      ChainIsKept(items, path, k + 1);
      OnChain(items, path, k);
      RootedDown(items, path[0], path[k]);
      assert ChildOf(path[k], path[k + 1]);
      ParentIsKept(items, path[k], path[k + 1]);
    }
  }

  /** A kept item keeps every ancestor, on exactly the lists without a torn twin. */
  lemma {:induction false} AncestorsAreKeptIff(items: seq<Item>)
    ensures Closed(items) <==> NoTornTwin(items)
  {
    hide Rooted, Kept, Pruned, Torn;
    if NoTornTwin(items) {
      forall a, d | a in items && Rooted(items, a) && Descends(items, a, d) && d in Pruned(items)
        ensures a in Pruned(items)
      {
        DescendsStays(items, a, d);
        InPruned(items, a);
        InPruned(items, d);
        var path: seq<Item> :| Chain(items, path) && path[0] == a && path[|path| - 1] == d;
        ChainIsKept(items, path, 0);
      }
    }
    if Closed(items) {
      forall p, c, x | Torn(items, p, c, x) ensures Kept(items, p) { TornNeedsParent(items, p, c, x); }
    }
  }

  lemma {:induction false} DescendsStays(items: seq<Item>, a: Item, d: Item)
    requires Descends(items, a, d)
    ensures a in items && d in items
  {
    var path: seq<Item> :| Chain(items, path) && path[0] == a && path[|path| - 1] == d;
    assert path[0] in items && path[|path| - 1] in items;
  }

  lemma {:induction false} TornNeedsParent(items: seq<Item>, p: Item, c: Item, x: Item)
    requires Closed(items) && Torn(items, p, c, x)
    ensures Kept(items, p)
  {
    hide Descends, Pruned, Rooted, Passed;
    DescendsSelf(items, x);
    assert Survives(items, x);
    InPruned(items, c);
    InPruned(items, p);
    DescendsChild(items, p, c);
  }

  /** Unique ids, and items that name the same parent wherever they share an id, leave no torn twin. */
  lemma {:induction false} SameParentIsWhole(items: seq<Item>)
    requires forall c, x | c in items && x in items && x.id == c.id :: x.parent == c.parent
    ensures NoTornTwin(items) && Closed(items)
  {
    hide Rooted, Kept;
    AncestorsAreKeptIff(items);
  }

  lemma {:induction false} UniqueIdsAreWhole(items: seq<Item>)
    requires DistinctKeys(Id(), items)
    ensures NoTornTwin(items) && Closed(items)
  {
    forall c, x | c in items && x in items && x.id == c.id ensures x.parent == c.parent { SameItem(items, c, x); }
    SameParentIsWhole(items);
  }

  /** An item is dropped only with all that is below it passed; without torn twins all of that is dropped too. */
  lemma {:induction false} OnlyPassedIsDropped(items: seq<Item>, it: Item, d: Item)
    requires it in items && Rooted(items, it) && it !in Pruned(items) && d in items && Descends(items, it, d)
    ensures Passed(it) && Passed(d)
    ensures NoTornTwin(items) ==> d !in Pruned(items)
  {
    hide Rooted, Descends, Pruned, NoTornTwin;
    KeptIff(items, it);
    DescendsSelf(items, it);
    DescendsSelf(items, d);
    if Survives(items, d) { SurvivesUp(items, it, d); }
    AncestorsAreKeptIff(items);
  }

  /** A survivor keeps every ancestor, whoever shares ids. */
  lemma {:induction false} AncestorsAreKept(items: seq<Item>, a: Item, d: Item)
    requires a in items && d in items && Rooted(items, a) && Descends(items, a, d) && Survives(items, d)
    ensures a in Pruned(items)
  {
    hide Rooted, Survives, Descends, Pruned;
    KeptIff(items, a);
    SurvivesUp(items, a, d);
  }

  /** An id that occurs twice can lose an ancestor: a passed item stays for the sake of its twin while its own
      parent goes. */
  lemma {:induction false} TwinLosesItsParent(a: Item, d: Item, twin: Item)
    requires a.id == 1 && a.parent == None && Passed(a)
    requires d.id == 2 && d.parent == Some(1) && Passed(d)
    requires twin.id == 2 && twin.parent == None && !Passed(twin)
    ensures var items := [a, d, twin];
      Ends(items) && Descends(items, a, d) && d in Pruned(items) && a in items && a !in Pruned(items)
  {
    hide Chain, Passed, Pruned, Ends, Kept, Rooted, Survives, Descends;
    var items := [a, d, twin];
    assert a in items && d in items && twin in items;
    TwinLines(items, a, d, twin);
    DescendsChild(items, a, d);
    TwinStays(items, d, twin);
    ParentGoes(items, a, d);
  }

  lemma {:induction false} TwinStays(items: seq<Item>, d: Item, twin: Item)
    requires d in items && twin in items && twin.id == d.id && twin.parent == None && !Passed(twin)
    ensures d in Pruned(items)
  {
    hide Descends, Passed, Pruned;
    DescendsSelf(items, twin);
    assert Rooted(items, twin) && Survives(items, twin);
    InPruned(items, d);
  }

  lemma {:induction false} ParentGoes(items: seq<Item>, a: Item, d: Item)
    requires a in items && Passed(a) && Passed(d)
    requires forall x :: x in items && x.id == a.id ==> x == a
    requires forall x :: Descends(items, a, x) ==> x == a || x == d
    ensures a !in Pruned(items)
  {
    hide Descends, Passed, Pruned, Rooted;
    InPruned(items, a);
  }

  lemma {:induction false} TwinLines(items: seq<Item>, a: Item, d: Item, twin: Item)
    requires items == [a, d, twin] && a.id == 1 && d.id == twin.id == 2
    requires a.parent == None == twin.parent && d.parent == Some(1)
    ensures Ends(items)
    ensures forall x :: Descends(items, a, x) ==> x == a || x == d
    ensures forall x :: x in items && x.id == a.id ==> x == a
  {
    forall path: seq<Item> | Chain(items, path) ensures |path| <= 2 && (|path| == 2 ==> path[0] == a && path[1] == d) {
      ShortLine(items, a, d, path);
    }
  }

  lemma {:induction false} ShortLine(items: seq<Item>, a: Item, d: Item, path: seq<Item>)
    requires Chain(items, path) && a != d && forall x, y | x in items && y in items && ChildOf(x, y) :: x == a && y == d
    ensures |path| <= 2 && (|path| == 2 ==> path[0] == a && path[1] == d)
  {
    hide Chain;
    if |path| >= 2 { Link(items, a, d, path, 1); }
    if |path| > 2 { Link(items, a, d, path, 2); }
  }

  lemma {:induction false} Link(items: seq<Item>, a: Item, d: Item, path: seq<Item>, k: nat)
    requires Chain(items, path) && 0 < k < |path|
    requires forall x, y | x in items && y in items && ChildOf(x, y) :: x == a && y == d
    ensures path[k - 1] == a && path[k] == d
  {
    assert path[k - 1] in items && path[k] in items && ChildOf(path[k - 1], path[k]);
  }

  /** Lines of descent of survivors lie wholly inside the result. */
  lemma {:induction false} LineIsKept(items: seq<Item>, path: seq<Item>)
    requires Chain(items, path) && Rooted(items, path[0]) && Survives(items, path[|path| - 1])
    ensures Chain(Pruned(items), path)
  {
    hide Rooted, Survives, Descends, Pruned;
    forall k | 0 <= k < |path| ensures path[k] in Pruned(items) {
      OnChain(items, path, k);
      RootedDown(items, path[0], path[k]);
      SurvivesUp(items, path[k], path[|path| - 1]);
      KeptIff(items, path[k]);
    }
  }

  lemma {:induction false} SurvivorStays(items: seq<Item>, it: Item)
    requires it in items && Rooted(items, it) && Survives(items, it)
    ensures it in Pruned(items) && Rooted(Pruned(items), it) && Survives(Pruned(items), it)
  {
    hide Pruned, Kept;
    KeptIff(items, it);
    var kept := Pruned(items);
    var r :| r in items && r.parent.None? && Descends(items, r, it);
    var up: seq<Item> :| Chain(items, up) && up[0] == r && up[|up| - 1] == it;
    DescendsSelf(items, r);
    LineIsKept(items, up);
    assert Descends(kept, r, it) && r in kept;
    var d :| d in items && Descends(items, it, d) && !Passed(d);
    var down: seq<Item> :| Chain(items, down) && down[0] == it && down[|down| - 1] == d;
    DescendsSelf(items, d);
    LineIsKept(items, down);
    assert Descends(kept, it, d) && d in kept;
  }

  /** Pruning again ends and changes nothing. */
  lemma {:induction false} PruneTwice(items: seq<Item>)
    ensures Ends(items) ==> Ends(Pruned(items))
    ensures Pruned(Pruned(items)) == Pruned(items)
  {
    hide Rooted, Survives, DistinctKeys;
    var kept := Pruned(items);
    forall path: seq<Item> | Chain(kept, path) ensures Chain(items, path) {}
    forall it | it in kept ensures Keeps(kept)(it) {
      InPruned(items, it);
      var x :| x in items && x.id == it.id && Rooted(items, x) && Survives(items, x);
      SurvivorStays(items, x);
    }
    FilterAll(Keeps(kept), kept);
  }
}
