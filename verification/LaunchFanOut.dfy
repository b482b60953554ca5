/**
 The fan-out of group decisions over the items of a launch (`_analyze_launch` and
 `_canonical_discriminants` in src/analyzer_ng/core/analysis.py). One decision is taken per group, on
 its representative; it stands for a member only when the member's discriminant is the same.

 The decision layer is `decide`, a function of the item, its group and the number of the call, so that
 two decisions on the same item may differ.
 */
module LaunchFanOut {
  import opened Wrappers
  import G = Grouping
  import D = Decision
  import F = Features

  datatype Discriminant = Discriminant(errorHash: int, statusCodes: set<string>, msgTokens: set<string>)

  /** An analyzed item and the discriminant recomputed for it. */
  datatype Analysis<V> = Analysis(item: G.Item<V>, own: Discriminant)

  datatype Outcome = Outcome(action: D.Action, group: F.Label, issueType: string, relevantItem: Option<int>,
      mode: Option<int>)

  /** A suggestion row: whose decision it carries, and which call took it. */
  datatype Suggestion = Suggestion(item: int, group: nat, decidedOn: int, call: nat, outcome: Outcome)

  datatype AnalysisResult = AnalysisResult(item: int, issueType: string, relevantItem: int)

  /** What the fan-out writes: the items decided, the rows, the mode memberships and the results. */
  datatype State = State(
    calls: seq<int>, suggestions: seq<Suggestion>, memberships: seq<(int, int)>, out: seq<AnalysisResult>)

  const NOTHING := State([], [], [], [])

  type Decider = (int, nat, nat) -> Outcome

  function Lookup(disc: map<int, Discriminant>, id: int): Option<Discriminant> {
    if id in disc then Some(disc[id]) else None
  }

  predicate Same(disc: map<int, Discriminant>, a: int, b: int) { Lookup(disc, a) == Lookup(disc, b) }

  function Ids<V>(items: seq<G.Item<V>>): seq<int> {
    if items == [] then [] else Ids(items[..|items| - 1]) + [items[|items| - 1].id]
  }

  function Pairs(ids: seq<int>, mode: int): seq<(int, int)> {
    if ids == [] then [] else Pairs(ids[..|ids| - 1], mode) + [(ids[|ids| - 1], mode)]
  }

  // ----- the fan-out as a function ------------------------------------------------

  function Call(decide: Decider, s: State, group: nat, id: int): (State, Outcome) {
    (s.(calls := s.calls + [id]), decide(id, group, |s.calls|))
  }

  function Record(s: State, ids: seq<int>, mode: Option<int>): State {
    if mode.None? || ids == [] then s else s.(memberships := s.memberships + Pairs(ids, mode.value))
  }

  function ResultOf(row: Suggestion): seq<AnalysisResult> {
    if row.outcome.action.Auto? && row.outcome.group != F.Ti then
      var relevant := if row.outcome.relevantItem.Some? then row.outcome.relevantItem.value else 0;
      [AnalysisResult(row.item, row.outcome.issueType, relevant)]
    else []
  }

  function Write(s: State, row: Suggestion): State {
    s.(suggestions := s.suggestions + [row], out := s.out + ResultOf(row))
  }

  /** The group's own row for a member: the outcome, who it was decided on, and the call. */
  datatype Shared = Shared(group: nat, rep: int, call: nat, outcome: Outcome)

  function FanMember(disc: map<int, Discriminant>, decide: Decider, g: Shared, s: State, id: int): State {
    if Same(disc, id, g.rep) then Write(s, Suggestion(id, g.group, g.rep, g.call, g.outcome))
    else
      var (s1, own) := Call(decide, s, g.group, id);
      Write(Record(s1, [id], own.mode), Suggestion(id, g.group, id, |s.calls|, own))
  }

  function FanMembers(disc: map<int, Discriminant>, decide: Decider, g: Shared, s: State, ids: seq<int>): State {
    if ids == [] then s
    else FanMember(disc, decide, g, FanMembers(disc, decide, g, s, ids[..|ids| - 1]), ids[|ids| - 1])
  }

  function Inheriting(disc: map<int, Discriminant>, rep: int, ids: seq<int>): seq<int> {
    if ids == [] then []
    else
      Inheriting(disc, rep, ids[..|ids| - 1]) + if Same(disc, ids[|ids| - 1], rep) then [ids[|ids| - 1]] else []
  }

  function FanGroup(disc: map<int, Discriminant>, decide: Decider, s: State, group: nat, rep: int,
      ids: seq<int>): State {
    var (s1, outcome) := Call(decide, s, group, rep);
    var s2 := FanMembers(disc, decide, Shared(group, rep, |s.calls|, outcome), s1, ids);
    Record(s2, Inheriting(disc, rep, ids), outcome.mode)
  }

  function FanGroups<V>(disc: map<int, Discriminant>, decide: Decider, s: State, groups: seq<G.Grouped<V>>): State {
    if groups == [] then s
    else
      var n := |groups| - 1;
      var g := groups[n];
      FanGroup(disc, decide, FanGroups(disc, decide, s, groups[..n]), n, g.representative.id, Ids(g.group.members))
  }

  // ----- the code of the source ----------------------------------------------------

  /** The last analysis of the item; a dictionary keeps the last of several. */
  function LastOf<V>(analyses: seq<Analysis<V>>, id: int): (r: Option<Analysis<V>>)
    ensures r.Some? ==> r.value in analyses && r.value.item.id == id
    ensures r.None? ==> forall a | a in analyses :: a.item.id != id
  {
    if analyses == [] then None
    else
      var n := |analyses| - 1;
      assert analyses == analyses[..n] + [analyses[n]];
      if analyses[n].item.id == id then Some(analyses[n]) else LastOf(analyses[..n], id)
  }

  /** The stored discriminant, or else the one recomputed for the item. */
  function Canonical<V>(analyses: seq<Analysis<V>>, stored: map<int, Discriminant>, id: int): Option<Discriminant> {
    var a := LastOf(analyses, id);
    if a.None? then None else Some(if id in stored then stored[id] else a.value.own)
  }

  lemma {:induction false} CanonicalSnoc<V>(
      analyses: seq<Analysis<V>>, a: Analysis<V>, stored: map<int, Discriminant>, id: int)
    ensures Canonical(analyses + [a], stored, id) ==
      if a.item.id == id then Some(if id in stored then stored[id] else a.own) else Canonical(analyses, stored, id)
  {
    assert (analyses + [a])[..|analyses|] == analyses;
  }

  /** Items without an analysis have none; the others have the stored one, or else that of their last analysis. */
  lemma {:induction false} CanonicalIs<V>(analyses: seq<Analysis<V>>, stored: map<int, Discriminant>, id: int)
      returns (k: nat)
    ensures k <= |analyses| && forall j :: k < j < |analyses| ==> analyses[j].item.id != id
    ensures k < |analyses| ==> analyses[k].item.id == id
    ensures k == |analyses| ==> (forall j :: 0 <= j < k ==> analyses[j].item.id != id)
    ensures Canonical(analyses, stored, id) ==
      if k == |analyses| then None else if id in stored then Some(stored[id]) else Some(analyses[k].own)
  {
    var n := |analyses| - 1;
    if analyses == [] {
      k := 0;
    } else if analyses[n].item.id == id {
      k := n;
    } else {
      k := CanonicalIs(analyses[..n], stored, id);
      if k == n { k := |analyses|; }
    }
  }

  method CanonicalDiscriminants<V>(analyses: seq<Analysis<V>>, stored: map<int, Discriminant>)
      returns (disc: map<int, Discriminant>)
    ensures forall id :: Lookup(disc, id) == Canonical(analyses, stored, id)
    ensures forall id :: id in disc <==> exists k :: 0 <= k < |analyses| && analyses[k].item.id == id
    ensures forall id :: id in disc && id in stored ==> disc[id] == stored[id]
  {
    disc := map[];
    for i := 0 to |analyses|
      invariant forall id :: Lookup(disc, id) == Canonical(analyses[..i], stored, id)
    {
      var a := analyses[i];
      forall id { CanonicalSnoc(analyses[..i], a, stored, id); }
      assert analyses[..i + 1] == analyses[..i] + [a];
      disc := disc[a.item.id := if a.item.id in stored then stored[a.item.id] else a.own];
    }
    assert analyses[..|analyses|] == analyses;
    forall id
      ensures id in disc <==> exists k :: 0 <= k < |analyses| && analyses[k].item.id == id
      ensures id in disc && id in stored ==> disc[id] == stored[id]
    {
      var k := CanonicalIs(analyses, stored, id);
      assert Lookup(disc, id) == Canonical(analyses, stored, id);
    }
  }

  class Analyzer {
    const decide: Decider
    var calls: seq<int>
    var suggestions: seq<Suggestion>
    var memberships: seq<(int, int)>
    var out: seq<AnalysisResult>

    function Now(): State
      reads this
    {
      State(calls, suggestions, memberships, out)
    }

    constructor (decide: Decider)
      ensures this.decide == decide && Now() == NOTHING
    {
      this.decide := decide;
      calls, suggestions, memberships, out := [], [], [], [];
    }

    method DecideItem(group: nat, id: int) returns (r: Outcome)
      modifies this
      ensures (Now(), r) == Call(decide, old(Now()), group, id)
    {
      r := decide(id, group, |calls|);
      calls := calls + [id];
    }

    method RecordMembership(ids: seq<int>, mode: Option<int>)
      modifies this
      ensures Now() == Record(old(Now()), ids, mode)
    {
      if mode.None? || ids == [] { return; }
      memberships := memberships + Pairs(ids, mode.value);
    }

    /** One member: it keeps the group's decision, or takes and books its own. */
    method AnalyzeMember(disc: map<int, Discriminant>, shared: Shared, id: int) returns (inherits: bool)
      modifies this
      ensures Now() == FanMember(disc, decide, shared, old(Now()), id)
      ensures inherits == Same(disc, id, shared.rep)
    {
      var who, from, outcome := shared.rep, shared.call, shared.outcome;
      inherits := Lookup(disc, id) == Lookup(disc, shared.rep);
      if !inherits {
        who, from := id, |calls|;
        outcome := DecideItem(shared.group, id);
        RecordMembership([id], outcome.mode);
      }
      suggestions := suggestions + [Suggestion(id, shared.group, who, from, outcome)];
      if outcome.action.Auto? && outcome.group != F.Ti {
        var relevant := if outcome.relevantItem.Some? then outcome.relevantItem.value else 0;
        out := out + [AnalysisResult(id, outcome.issueType, relevant)];
      }
    }

    method AnalyzeGroup(disc: map<int, Discriminant>, group: nat, rep: int, members: seq<int>)
      modifies this
      ensures Now() == FanGroup(disc, decide, old(Now()), group, rep, members)
    {
      hide FanMember, Record, Same;
      var call := |calls|;
      var decision := DecideItem(group, rep);
      var shared := Shared(group, rep, call, decision);
      ghost var s1 := Now();
      var inheritIds: seq<int> := [];
      for i := 0 to |members|
        invariant Now() == FanMembers(disc, decide, shared, s1, members[..i])
        invariant inheritIds == Inheriting(disc, rep, members[..i])
      {
        assert members[..i + 1][..i] == members[..i];
        var inherits := AnalyzeMember(disc, shared, members[i]);
        if inherits { inheritIds := inheritIds + [members[i]]; }
      }
      assert members[..|members|] == members;
      RecordMembership(inheritIds, decision.mode);
    }

    method AnalyzeLaunch<V>(c: G.Config<V>, analyses: seq<Analysis<V>>, stored: map<int, Discriminant>)
        returns (ghost disc: map<int, Discriminant>)
      modifies this
      ensures forall id :: Lookup(disc, id) == Canonical(analyses, stored, id)
      ensures Now() == FanGroups(disc, decide, old(Now()), G.Launch(c, Items(analyses)))
    {
      hide G.Launch, FanGroup, Ids, Items, Canonical, Lookup;
      var canonical := CanonicalDiscriminants(analyses, stored);
      var groups := G.Launch(c, Items(analyses));
      ghost var s0 := Now();
      for i := 0 to |groups|
        invariant Now() == FanGroups(canonical, decide, s0, groups[..i])
      {
        assert groups[..i + 1][..i] == groups[..i];
        AnalyzeGroup(canonical, i, groups[i].representative.id, Ids(groups[i].group.members));
      }
      assert groups[..|groups|] == groups;
      disc := canonical;
    }
  }

  function Items<V>(analyses: seq<Analysis<V>>): seq<G.Item<V>> {
    seq(|analyses|, k requires 0 <= k < |analyses| => analyses[k].item)
  }

  // ----- one row for every item -------------------------------------------------------

  function RowItems(rows: seq<Suggestion>): seq<int> {
    if rows == [] then [] else RowItems(rows[..|rows| - 1]) + [rows[|rows| - 1].item]
  }

  function Flat<V>(groups: seq<G.Group<V>>): seq<G.Item<V>> {
    if groups == [] then [] else Flat(groups[..|groups| - 1]) + groups[|groups| - 1].members
  }

  function GroupsOf<V>(r: seq<G.Grouped<V>>): seq<G.Group<V>> {
    seq(|r|, k requires 0 <= k < |r| => r[k].group)
  }

  lemma {:induction false} RowItemsSnoc(rows: seq<Suggestion>, row: Suggestion)
    ensures RowItems(rows + [row]) == RowItems(rows) + [row.item]
  {
    assert (rows + [row])[..|rows|] == rows;
  }

  lemma {:induction false} MembersGetRows(disc: map<int, Discriminant>, decide: Decider, g: Shared, s: State,
      ids: seq<int>)
    ensures RowItems(FanMembers(disc, decide, g, s, ids).suggestions) == RowItems(s.suggestions) + ids
  {
    hide RowItems, FanMember;
    if ids == [] {
      assert RowItems(s.suggestions) + ids == RowItems(s.suggestions);
    } else {
      var n := |ids| - 1;
      MembersGetRows(disc, decide, g, s, ids[..n]);
      MemberGetsRow(disc, decide, g, FanMembers(disc, decide, g, s, ids[..n]), ids[n]);
      assert RowItems(s.suggestions) + ids[..n] + [ids[n]] == RowItems(s.suggestions) + ids;
    }
  }

  lemma {:induction false} MemberGetsRow(disc: map<int, Discriminant>, decide: Decider, g: Shared, s: State, id: int)
    ensures RowItems(FanMember(disc, decide, g, s, id).suggestions) == RowItems(s.suggestions) + [id]
  {
    hide RowItems;
    var after := FanMember(disc, decide, g, s, id);
    RowItemsSnoc(s.suggestions, after.suggestions[|s.suggestions|]);
  }

  lemma {:induction false} IdsAppend<V>(xs: seq<G.Item<V>>, ys: seq<G.Item<V>>)
    ensures Ids(xs + ys) == Ids(xs) + Ids(ys)
  {
    if ys == [] {
      assert xs + ys == xs;
    } else {
      var n := |ys| - 1;
      IdsAppend(xs, ys[..n]);
      assert (xs + ys)[..|xs| + n] == xs + ys[..n] && (xs + ys)[|xs| + n] == ys[n];
      assert Ids(xs) + Ids(ys[..n]) + [ys[n].id] == Ids(xs) + (Ids(ys[..n]) + [ys[n].id]);
    }
  }

  /** The rows follow the groups and the members inside them, one each. */
  lemma {:induction false} RowsFollowGroups<V>(
      disc: map<int, Discriminant>, decide: Decider, s: State, groups: seq<G.Grouped<V>>)
    ensures RowItems(FanGroups(disc, decide, s, groups).suggestions) == RowItems(s.suggestions) +
        Ids(Flat(GroupsOf(groups)))
  {
    hide FanGroup, RowItems, Ids, Flat;
    if groups == [] {
      NoGroups<V>();
      assert RowItems(s.suggestions) + [] == RowItems(s.suggestions);
    } else {
      var n := |groups| - 1;
      var g := groups[n];
      var before := FanGroups(disc, decide, s, groups[..n]);
      RowsFollowGroups(disc, decide, s, groups[..n]);
      var ids := Ids(g.group.members);
      GroupGetsRows(disc, decide, before, n, g.representative.id, ids);
      FlatSnoc(groups);
      assert RowItems(s.suggestions) + Ids(Flat(GroupsOf(groups[..n]))) + ids ==
        RowItems(s.suggestions) + (Ids(Flat(GroupsOf(groups[..n]))) + ids);
    }
  }

  lemma {:induction false} NoGroups<V>()
    ensures Ids(Flat(GroupsOf<V>([]))) == []
  {
  }

  lemma {:induction false} FlatSnoc<V>(groups: seq<G.Grouped<V>>)
    requires groups != []
    ensures var n := |groups| - 1;
      Ids(Flat(GroupsOf(groups))) == Ids(Flat(GroupsOf(groups[..n]))) + Ids(groups[n].group.members)
  {
    hide Ids;
    var n := |groups| - 1;
    assert GroupsOf(groups)[..n] == GroupsOf(groups[..n]);
    IdsAppend(Flat(GroupsOf(groups[..n])), groups[n].group.members);
  }

  lemma {:induction false} GroupGetsRows(disc: map<int, Discriminant>, decide: Decider, s: State, group: nat,
      rep: int, ids: seq<int>)
    ensures RowItems(FanGroup(disc, decide, s, group, rep, ids).suggestions) == RowItems(s.suggestions) + ids
  {
    hide FanMembers, RowItems, Inheriting;
    var (s1, outcome) := Call(decide, s, group, rep);
    MembersGetRows(disc, decide, Shared(group, rep, |s.calls|, outcome), s1, ids);
  }

  lemma {:induction false} FlatIsMembers<V>(groups: seq<G.Group<V>>)
    ensures multiset(Flat(groups)) == G.Members(groups)
  {
    if groups != [] { FlatIsMembers(groups[..|groups| - 1]); }
  }

  lemma {:induction false} IdsSnoc<V>(xs: seq<G.Item<V>>, x: G.Item<V>)
    ensures multiset(Ids(xs + [x])) == multiset(Ids(xs)) + multiset{x.id}
  {
    assert (xs + [x])[..|xs|] == xs;
  }

  lemma {:induction false} TakeOut<V>(ys: seq<G.Item<V>>, x: G.Item<V>) returns (rest: seq<G.Item<V>>)
    requires x in ys
    ensures multiset(ys) == multiset(rest) + multiset{x}
    ensures multiset(Ids(ys)) == multiset(Ids(rest)) + multiset{x.id}
  {
    hide Ids;
    var n := |ys| - 1;
    var init, last := ys[..n], ys[n];
    assert ys == init + [last];
    IdsSnoc(init, last);
    if last == x {
      rest := init;
    } else {
      var inner := TakeOut(init, x);
      IdsSnoc(inner, last);
      rest := inner + [last];
    }
  }

  lemma {:induction false} IdsOfPermutation<V>(xs: seq<G.Item<V>>, ys: seq<G.Item<V>>)
    requires multiset(xs) == multiset(ys)
    ensures multiset(Ids(xs)) == multiset(Ids(ys))
    decreases |xs|
  {
    if xs == [] {
      assert |multiset(ys)| == 0;
      assert ys == [];
    } else {
      var n := |xs| - 1;
      assert xs == xs[..n] + [xs[n]];
      assert xs[n] in multiset(ys);
      var rest := TakeOut(ys, xs[n]);
      assert multiset(xs[..n]) == multiset(xs) - multiset{xs[n]};
      assert multiset(rest) == multiset(ys) - multiset{xs[n]};
      IdsOfPermutation(xs[..n], rest);
    }
  }

  /** Analyzing a launch writes exactly one suggestion row for every analyzed item. */
  lemma {:induction false} OneRowPerItem<V>(
      c: G.Config<V>, disc: map<int, Discriminant>, decide: Decider, items: seq<G.Item<V>>)
    ensures multiset(RowItems(FanGroups(disc, decide, NOTHING, G.Launch(c, items)).suggestions)) == multiset(Ids(items))
  {
    hide FanGroups, Ids, RowItems, Flat, GroupsOf, G.Launch, G.Unranked, G.Members;
    var groups := G.Launch(c, items);
    RowsFollowGroups(disc, decide, NOTHING, groups);
    G.EveryItemGroupedOnce(c, items);
    GroupsOfLaunch(c, items);
    FlatIsMembers(GroupsOf(groups));
    IdsOfPermutation(Flat(GroupsOf(groups)), items);
    NoRows(Ids(Flat(GroupsOf(groups))));
  }

  lemma {:induction false} NoRows(ids: seq<int>)
    ensures RowItems(NOTHING.suggestions) + ids == ids
  {
  }

  lemma {:induction false} GroupsOfLaunch<V>(c: G.Config<V>, items: seq<G.Item<V>>)
    ensures GroupsOf(G.Launch(c, items)) == G.Unranked(c, items)
  {
    hide G.Unranked;
    G.UnrankedNonEmpty(c, items);
  }

  // ----- whose decision a row carries ----------------------------------------------------

  /** Two items have the same discriminant; having none counts as one. */
  predicate Identical(disc: map<int, Discriminant>, a: int, b: int) {
    (a in disc <==> b in disc) && (a in disc ==> disc[a] == disc[b])
  }

  /** The items decided on: in every group the representative, and then each member that differs from it. */
  function CallsOf<V>(disc: map<int, Discriminant>, groups: seq<G.Grouped<V>>): seq<int> {
    if groups == [] then []
    else
      var g := groups[|groups| - 1];
      CallsOf(disc, groups[..|groups| - 1]) + [g.representative.id]
      + Strangers(disc, g.representative.id, Ids(g.group.members))
  }

  function Strangers(disc: map<int, Discriminant>, rep: int, ids: seq<int>): seq<int> {
    if ids == [] then []
    else
      var n := |ids| - 1;
      Strangers(disc, rep, ids[..n]) + if Identical(disc, ids[n], rep) then [] else [ids[n]]
  }

  /** The row carries a decision that was really taken: the one on the representative of its group if the item's
      discriminant is identical to that one's, and otherwise one on the item itself. */
  ghost predicate Owned<V>(
      disc: map<int, Discriminant>, decide: Decider, calls: seq<int>, groups: seq<G.Grouped<V>>, row: Suggestion) {
    && row.group < |groups| && row.item in Ids(groups[row.group].group.members)
    && var rep, first := groups[row.group].representative.id, |CallsOf(disc, groups[..row.group])|;
       OwnedIn(disc, decide, calls, row.group, rep, first, row)
  }

  ghost predicate AllOwned<V>(disc: map<int, Discriminant>, decide: Decider, s: State, groups: seq<G.Grouped<V>>) {
    forall row | row in s.suggestions :: Owned(disc, decide, s.calls, groups, row)
  }

  /** The row carries the call `first` on the representative, or a call on its own item. */
  ghost predicate OwnedIn(disc: map<int, Discriminant>, decide: Decider, calls: seq<int>, group: nat, rep: int,
      first: nat, row: Suggestion) {
    && row.call < |calls| && calls[row.call] == row.decidedOn && row.group == group
    && row.outcome == decide(row.decidedOn, group, row.call)
    && if Identical(disc, row.item, rep) then row.decidedOn == rep && row.call == first else row.decidedOn == row.item
  }

  lemma {:induction false} MembersOwnRows(disc: map<int, Discriminant>, decide: Decider, g: Shared, s: State,
      ids: seq<int>)
    requires g.call < |s.calls| && s.calls[g.call] == g.rep && g.outcome == decide(g.rep, g.group, g.call)
    ensures var r := FanMembers(disc, decide, g, s, ids);
      && r.calls == s.calls + Strangers(disc, g.rep, ids) && s.suggestions <= r.suggestions
      && forall k :: |s.suggestions| <= k < |r.suggestions| ==>
          r.suggestions[k].item in ids && OwnedIn(disc, decide, r.calls, g.group, g.rep, g.call, r.suggestions[k])
  {
    hide Record;
    if ids != [] {
      var n := |ids| - 1;
      MembersOwnRows(disc, decide, g, s, ids[..n]);
      var before := FanMembers(disc, decide, g, s, ids[..n]);
      RecordOnlyMemberships(Call(decide, before, g.group, ids[n]).0, [ids[n]],
        decide(ids[n], g.group, |before.calls|).mode);
      assert ids == ids[..n] + [ids[n]];
    }
  }

  lemma {:induction false} RecordOnlyMemberships(s: State, ids: seq<int>, mode: Option<int>)
    ensures Record(s, ids, mode) == s.(memberships := Record(s, ids, mode).memberships)
  {
  }

  lemma {:induction false} GroupOwnsRows(disc: map<int, Discriminant>, decide: Decider, s: State, group: nat,
      rep: int, ids: seq<int>)
    ensures var r := FanGroup(disc, decide, s, group, rep, ids);
      && r.calls == s.calls + [rep] + Strangers(disc, rep, ids) && s.suggestions <= r.suggestions
      && forall k :: |s.suggestions| <= k < |r.suggestions| ==>
          r.suggestions[k].item in ids && OwnedIn(disc, decide, r.calls, group, rep, |s.calls|, r.suggestions[k])
  {
    hide FanMembers, Record, Inheriting, OwnedIn, Strangers;
    var (s1, outcome) := Call(decide, s, group, rep);
    var g := Shared(group, rep, |s.calls|, outcome);
    MembersOwnRows(disc, decide, g, s1, ids);
    RecordOnlyMemberships(FanMembers(disc, decide, g, s1, ids), Inheriting(disc, rep, ids), outcome.mode);
  }

  lemma {:induction false} OwnedLater<V>(disc: map<int, Discriminant>, decide: Decider, calls: seq<int>,
      more: seq<int>, groups: seq<G.Grouped<V>>, g: G.Grouped<V>, row: Suggestion)
    requires Owned(disc, decide, calls, groups, row)
    ensures Owned(disc, decide, calls + more, groups + [g], row)
  {
    assert (groups + [g])[..row.group] == groups[..row.group];
  }

  /** The decision of a group's representative reaches just the members with an identical discriminant, as one
      decision; every other member is decided on its own, and nothing else is decided. */
  lemma {:induction false} DecisionsAreOwned<V>(
      disc: map<int, Discriminant>, decide: Decider, groups: seq<G.Grouped<V>>)
    ensures AllOwned(disc, decide, FanGroups(disc, decide, NOTHING, groups), groups)
    ensures FanGroups(disc, decide, NOTHING, groups).calls == CallsOf(disc, groups)
  {
    hide FanGroup, Ids, Strangers, OwnedIn;
    if groups != [] {
      var n := |groups| - 1;
      var g := groups[n];
      DecisionsAreOwned(disc, decide, groups[..n]);
      var before := FanGroups(disc, decide, NOTHING, groups[..n]);
      var rep, ids := g.representative.id, Ids(g.group.members);
      GroupOwnsRows(disc, decide, before, n, rep, ids);
      var r := FanGroups(disc, decide, NOTHING, groups);
      assert groups == groups[..n] + [g];
      forall row | row in r.suggestions ensures Owned(disc, decide, r.calls, groups, row) {
        if row in before.suggestions {
          OwnedLater(disc, decide, before.calls, [rep] + Strangers(disc, rep, ids), groups[..n], g, row);
          assert r.calls == before.calls + ([rep] + Strangers(disc, rep, ids));
        } else {
          var k :| 0 <= k < |r.suggestions| && r.suggestions[k] == row;
          assert r.suggestions[..|before.suggestions|] == before.suggestions;
          assert OwnedIn(disc, decide, r.calls, n, rep, |before.calls|, row);
          GroupOfRow(disc, decide, r.calls, n, rep, |before.calls|, row);
        }
      }
    }
  }

  lemma {:induction false} GroupOfRow(disc: map<int, Discriminant>, decide: Decider, calls: seq<int>, group: nat,
      rep: int, first: nat, row: Suggestion)
    requires OwnedIn(disc, decide, calls, group, rep, first, row)
    ensures row.group == group
  {
  }

  // ----- results and memberships follow the rows -------------------------------------------

  function Results(rows: seq<Suggestion>): seq<AnalysisResult> {
    if rows == [] then [] else Results(rows[..|rows| - 1]) + ResultOf(rows[|rows| - 1])
  }

  function Joined(rows: seq<Suggestion>): seq<(int, int)> {
    if rows == [] then []
    else
      var row := rows[|rows| - 1];
      Joined(rows[..|rows| - 1]) + if row.outcome.mode.Some? then [(row.item, row.outcome.mode.value)] else []
  }

  lemma {:induction false} RowsSnoc(rows: seq<Suggestion>, row: Suggestion)
    ensures Results(rows + [row]) == Results(rows) + ResultOf(row)
    ensures Joined(rows + [row]) == Joined(rows) + if row.outcome.mode.Some? then [(row.item, row.outcome.mode.value)]
        else []
  {
    assert (rows + [row])[..|rows|] == rows;
  }

  /** Memberships still owed to the members that kept the group's decision. */
  function Owed(disc: map<int, Discriminant>, g: Shared, ids: seq<int>): seq<(int, int)> {
    if g.outcome.mode.None? then [] else Pairs(Inheriting(disc, g.rep, ids), g.outcome.mode.value)
  }

  ghost predicate Booked(s: State, owed: seq<(int, int)>) {
    s.out == Results(s.suggestions) && multiset(s.memberships) + multiset(owed) == multiset(Joined(s.suggestions))
  }

  lemma {:induction false} PairsSnoc(ids: seq<int>, id: int, mode: int)
    ensures Pairs(ids + [id], mode) == Pairs(ids, mode) + [(id, mode)]
    ensures Pairs([id], mode) == [(id, mode)]
  {
    assert (ids + [id])[..|ids|] == ids;
    assert [id][..0] == [];
  }

  lemma {:induction false} OwedSnoc(disc: map<int, Discriminant>, g: Shared, ids: seq<int>, id: int)
    ensures Owed(disc, g, ids + [id]) == Owed(disc, g, ids) +
      if g.outcome.mode.Some? && Same(disc, id, g.rep) then [(id, g.outcome.mode.value)] else []
  {
    assert (ids + [id])[..|ids|] == ids;
    var kept := Inheriting(disc, g.rep, ids);
    assert kept + [] == kept;
    if g.outcome.mode.Some? { PairsSnoc(kept, id, g.outcome.mode.value); }
  }

  lemma {:induction false} MemberBooked(disc: map<int, Discriminant>, decide: Decider, g: Shared, s: State,
      ids: seq<int>, id: int)
    requires Booked(s, Owed(disc, g, ids))
    ensures Booked(FanMember(disc, decide, g, s, id), Owed(disc, g, ids + [id]))
  {
    hide Results, Joined, Owed, Pairs, Same;
    var r := FanMember(disc, decide, g, s, id);
    RowsSnoc(s.suggestions, r.suggestions[|s.suggestions|]);
    OwedSnoc(disc, g, ids, id);
    var own := decide(id, g.group, |s.calls|);
    if own.mode.Some? { PairsSnoc([], id, own.mode.value); }
    assert Owed(disc, g, ids) + [] == Owed(disc, g, ids);
  }

  lemma {:induction false} MembersBooked(disc: map<int, Discriminant>, decide: Decider, g: Shared, s: State,
      ids: seq<int>)
    requires Booked(s, [])
    ensures Booked(FanMembers(disc, decide, g, s, ids), Owed(disc, g, ids))
  {
    hide Booked, FanMember;
    if ids == [] {
      assert Owed(disc, g, ids) == [];
    } else {
      var n := |ids| - 1;
      MembersBooked(disc, decide, g, s, ids[..n]);
      MemberBooked(disc, decide, g, FanMembers(disc, decide, g, s, ids[..n]), ids[..n], ids[n]);
      assert ids == ids[..n] + [ids[n]];
    }
  }

  lemma {:induction false} GroupBooked(disc: map<int, Discriminant>, decide: Decider, s: State, group: nat,
      rep: int, ids: seq<int>)
    requires Booked(s, [])
    ensures Booked(FanGroup(disc, decide, s, group, rep, ids), [])
  {
    hide FanMembers, Results, Joined, Inheriting;
    var (s1, outcome) := Call(decide, s, group, rep);
    var g := Shared(group, rep, |s.calls|, outcome);
    MembersBooked(disc, decide, g, s1, ids);
    var kept := Inheriting(disc, rep, ids);
    var s2 := FanMembers(disc, decide, g, s1, ids);
    assert kept == [] && outcome.mode.Some? ==> Pairs(kept, outcome.mode.value) == [];
    assert multiset(s2.memberships + Owed(disc, g, ids)) == multiset(s2.memberships) + multiset(Owed(disc, g, ids));
  }

  /** The row is applied without being asked about. */
  predicate Applies(row: Suggestion) { row.outcome.action == D.Auto && row.outcome.group != F.Ti }

  predicate Reports(row: Suggestion, result: AnalysisResult) {
    && result.item == row.item && result.issueType == row.outcome.issueType
    && result.relevantItem == if row.outcome.relevantItem.Some? then row.outcome.relevantItem.value else 0
  }

  /** The results report the rows at `at`, in order, and those are all rows that are applied. */
  ghost predicate Reported(rows: seq<Suggestion>, results: seq<AnalysisResult>, at: seq<nat>) {
    && |at| == |results|
    && (forall j, k :: 0 <= j < k < |at| ==> at[j] < at[k])
    && (forall k :: 0 <= k < |at| ==> at[k] < |rows| && Applies(rows[at[k]]) && Reports(rows[at[k]], results[k]))
    && (forall i :: 0 <= i < |rows| && Applies(rows[i]) ==> i in at)
  }

  lemma {:induction false} ReportedSnoc(rows: seq<Suggestion>, results: seq<AnalysisResult>, at: seq<nat>,
      row: Suggestion, result: AnalysisResult)
    requires Reported(rows, results, at) && Applies(row) && Reports(row, result)
    ensures Reported(rows + [row], results + [result], at + [|rows|])
  {
    hide Applies, Reports;
    var all := at + [|rows|];
    assert all[|at|] == |rows|;
    forall i | 0 <= i < |rows| + 1 && Applies((rows + [row])[i]) ensures i in all {
      if i < |rows| { assert i in at; }
    }
  }

  lemma {:induction false} AppliedRows(rows: seq<Suggestion>) returns (at: seq<nat>)
    ensures Reported(rows, Results(rows), at)
  {
    if rows == [] {
      at := [];
    } else {
      hide Reported;
      var n := |rows| - 1;
      var before := AppliedRows(rows[..n]);
      var isApplied := Applies(rows[n]);
      assert rows == rows[..n] + [rows[n]];
      var r := ResultOf(rows[n]);
      if isApplied {
        at := before + [n];
        assert r == [r[0]] && Reports(rows[n], r[0]);
        ReportedSnoc(rows[..n], Results(rows[..n]), before, rows[n], r[0]);
      } else {
        at := before;
        assert Results(rows[..n]) + [] == Results(rows[..n]);
        NotReported(rows[..n], Results(rows[..n]), at, rows[n]);
      }
    }
  }

  lemma {:induction false} NotReported(rows: seq<Suggestion>, results: seq<AnalysisResult>, at: seq<nat>,
      row: Suggestion)
    requires Reported(rows, results, at) && !Applies(row)
    ensures Reported(rows + [row], results, at)
  {
    hide Applies, Reports;
  }

  /** The results are the rows applied automatically to a base group, every one of them and in their order, each
      with its item, its locator and its relevant item, 0 where there is none. And every item whose decision
      matched a mode joins that mode once: the group's decision for those that kept it, their own for the others. */
  lemma {:induction false} ResultsAndMemberships<V>(
      disc: map<int, Discriminant>, decide: Decider, groups: seq<G.Grouped<V>>) returns (at: seq<nat>)
    ensures var r := FanGroups(disc, decide, NOTHING, groups);
      && |at| == |r.out| && (forall j, k :: 0 <= j < k < |at| ==> at[j] < at[k])
      && (forall k :: 0 <= k < |at| ==>
            && at[k] < |r.suggestions|
            && var row := r.suggestions[at[k]];
            && row.outcome.action == D.Auto && row.outcome.group != F.Ti
            && r.out[k].item == row.item && r.out[k].issueType == row.outcome.issueType
            && r.out[k].relevantItem ==
               if row.outcome.relevantItem.Some? then row.outcome.relevantItem.value else 0)
      && (forall i :: 0 <= i < |r.suggestions| ==>
            r.suggestions[i].outcome.action == D.Auto && r.suggestions[i].outcome.group != F.Ti ==> i in at)
      && multiset(r.memberships) == multiset(Joined(r.suggestions))
  {
    hide FanGroups, Results, Joined;
    BookedAll(disc, decide, groups);
    at := AppliedRows(FanGroups(disc, decide, NOTHING, groups).suggestions);
  }

  lemma {:induction false} BookedAll<V>(disc: map<int, Discriminant>, decide: Decider, groups: seq<G.Grouped<V>>)
    ensures Booked(FanGroups(disc, decide, NOTHING, groups), [])
  {
    hide FanGroup, Ids;
    if groups != [] {
      var n := |groups| - 1;
      BookedAll(disc, decide, groups[..n]);
      GroupBooked(disc, decide, FanGroups(disc, decide, NOTHING, groups[..n]), n, groups[n].representative.id,
        Ids(groups[n].group.members));
    }
  }

  // ----- which results carry no locator ----------------------------------------------------

  /** The decider is the decision layer, on whatever it is given for each item and call. */
  ghost predicate Follows(decide: Decider, inputs: (int, nat, nat) -> D.Inputs, gbm: (int, nat, nat) -> Option<D.Gbm>) {
    forall id: int, g: nat, n: nat :: SameDecision(decide(id, g, n), D.Decide(inputs(id, g, n), gbm(id, g, n)))
  }

  predicate SameDecision(o: Outcome, r: D.Result) {
    o.action == r.action && o.group == r.group && o.issueType == r.issueType && o.relevantItem == r.relevantItem
  }

  /** A result is applied under a locator of no base group exactly when the decision behind its row slipped: a
      strong mode without a recognised locator, or a confident seed of an unrecognised group. */
  lemma {:induction false} ResultsWithoutLocator<V>(
      disc: map<int, Discriminant>, decide: Decider, inputs: (int, nat, nat) -> D.Inputs,
      gbm: (int, nat, nat) -> Option<D.Gbm>, groups: seq<G.Grouped<V>>, k: nat) returns (row: Suggestion)
    requires Follows(decide, inputs, gbm) && k < |FanGroups(disc, decide, NOTHING, groups).out|
    ensures var r := FanGroups(disc, decide, NOTHING, groups);
      && row in r.suggestions && row.outcome.action == D.Auto
      && r.out[k].item == row.item && r.out[k].issueType == row.outcome.issueType
      && (F.BaseGroup(r.out[k].issueType) !in F.BASE_LABELS <==>
            D.LabelSlips(inputs(row.decidedOn, row.group, row.call), gbm(row.decidedOn, row.group, row.call)))
  {
    hide FanGroups, D.Decide, D.LabelSlips, F.BaseGroup;
    var r := FanGroups(disc, decide, NOTHING, groups);
    var at := ResultsAndMemberships(disc, decide, groups);
    row := r.suggestions[at[k]];
    DecisionsAreOwned(disc, decide, groups);
    assert Owned(disc, decide, r.calls, groups, row);
    var i, g := inputs(row.decidedOn, row.group, row.call), gbm(row.decidedOn, row.group, row.call);
    assert SameDecision(decide(row.decidedOn, row.group, row.call), D.Decide(i, g));
    D.AutoWithoutLabelIff(i, g);
    D.LocatorFitsGroup(i, g);
  }
}
