/**
 The reply to a suggest request (`_suggestion_candidates`, `_reorder_for_judge`, `_render_suggestions`
 and `_row_band` in src/analyzer_ng/core/analysis.py): which candidates are shown, in which order, and
 which rows ride behind them as looked at and declined.
 */
module SuggestReply {
  import opened Wrappers
  import opened Sorting
  import opened Features
  import opened Decision
  import LabelProb

  const SUGGEST_BELOW_FLOOR := 0.30
  const SUGGEST_BELOW_MAX_CAP := 3

  datatype Settings = Settings(belowEnabled: bool, suggestMax: nat, belowMax: int)

  datatype Provenance = KbMode | HumanConfirmed | AutoAnalyzed | SeedCatalog | Unlabeled

  datatype Row = Row(issueType: string, item: int, score: real, es: real, provenance: Provenance)

  datatype Band = BelowSuggest | AutoBand | SuggestBand

  /** A rendered row; `why` is the narrated reason of an abstain. */
  datatype Shown = Shown(row: Row, position: nat, band: Band, conf: Option<real>, plabel: Option<real>,
      why: Option<Reason>)

  function Item(): Row -> int { (r: Row) => r.item }

  function Cap(x: real): real { if x < 1.0 then x else 1.0 }

  function Cosine(c: Candidate): real { Cap(if c.cosine.Some? then c.cosine.value else 0.0) }

  function ProvenanceOf(source: Source, isAuto: bool): Provenance {
    if isAuto || source.AiSuggested? then AutoAnalyzed
    else if source.Rp? || source.Human? then HumanConfirmed
    else if source.Seed? then SeedCatalog
    else Unlabeled
  }

  // ----- candidates ------------------------------------------------------------

  /** The decision's own answer, if it has one with an item. */
  function Answer(d: Result): seq<Row> {
    if d.group == Ti || d.relevantItem.None? then []
    else
      [Row(d.issueType, d.relevantItem.value, d.confidence, 0.0,
           if d.stage.ByKb? then KbMode else ProvenanceOf(d.relevantSource, d.relevantIsAuto))]
  }

  predicate Has(rows: seq<Row>, item: int) { exists k :: 0 <= k < |rows| && rows[k].item == item }

  function Neighbour(c: Candidate): Row
    requires c.itemId.Some? && c.issueType.Some?
  {
    Row(c.issueType.value, c.itemId.value, Cosine(c), c.rrf, ProvenanceOf(c.source, false))
  }

  function Add(rows: seq<Row>, c: Candidate): seq<Row> {
    if c.itemId.None? || c.issueType.None? || Has(rows, c.itemId.value) then rows else rows + [Neighbour(c)]
  }

  function AddAll(rows: seq<Row>, cs: seq<Candidate>): seq<Row> {
    if cs == [] then rows else Add(AddAll(rows, cs[..|cs| - 1]), cs[|cs| - 1])
  }

  function Candidates(d: Result): seq<Row> { AddAll(Answer(d), d.stageC) }

  method SuggestionCandidates(d: Result) returns (rows: seq<Row>)
    ensures rows == Candidates(d)
  {
    rows := [];
    if d.group != Ti && d.relevantItem.Some? {
      var prov := if d.stage.ByKb? then KbMode else ProvenanceOf(d.relevantSource, d.relevantIsAuto);
      rows := rows + [Row(d.issueType, d.relevantItem.value, d.confidence, 0.0, prov)];
    }
    for i := 0 to |d.stageC|
      invariant rows == AddAll(Answer(d), d.stageC[..i])
    {
      var c := d.stageC[i];
      assert d.stageC[..i + 1][..i] == d.stageC[..i];
      if c.itemId.None? || c.issueType.None? { continue; }
      if Has(rows, c.itemId.value) { continue; }
      rows := rows + [Neighbour(c)];
    }
    assert d.stageC[..|d.stageC|] == d.stageC;
  }

  // ----- the judge -------------------------------------------------------------

  function Find(rows: seq<Row>, item: int): (r: Option<nat>)
    ensures r.Some? ==> r.value < |rows| && rows[r.value].item == item
    ensures forall k :: 0 <= k < (if r.Some? then r.value else |rows|) ==> rows[k].item != item
  {
    if rows == [] then None
    else if rows[0].item == item then Some(0)
    else
      var r := Find(rows[1..], item);
      if r.Some? then Some(r.value + 1) else None
  }

  /** `verdict` is the chosen item of a fresh verdict that chose one. */
  function ReorderForJudge(rows: seq<Row>, verdict: Option<int>, isAuto: bool): seq<Row> {
    if isAuto || verdict.None? then rows
    else
      var at := Find(rows, verdict.value);
      if at.None? || at.value == 0 then rows
      else [rows[at.value]] + rows[..at.value] + rows[at.value + 1..]
  }

  // ----- the reply -------------------------------------------------------------

  datatype Reply = Reply(endorsed: seq<Row>, below: seq<Row>) {
    function Rows(): seq<Row> { endorsed + below }
  }

  /** Stand-in for the largest probability: the confidence, or else the top cosine. */
  function Proxy(d: Result): real {
    if d.confidence == 0.0 && d.stageC != [] then Cosine(d.stageC[0]) else d.confidence
  }

  function Gate(s: Settings): real { if s.belowEnabled then SUGGEST_BELOW_FLOOR else TAU_SUGGEST }

  function AtLeast(t: real): Row -> bool { (r: Row) => Cap(r.score) >= t }

  function Under(t: real): Row -> bool { (r: Row) => Cap(r.score) < t }

  function Take(n: nat, rows: seq<Row>): (r: seq<Row>)
    ensures r <= rows && |r| <= n && (|r| == n || r == rows)
  {
    if n < |rows| then rows[..n] else rows
  }

  function Shortlist(s: Settings, d: Result, verdict: Option<int>): seq<Row> {
    ReorderForJudge(Filter(AtLeast(Gate(s)), Candidates(d)), verdict, d.action.Auto?)
  }

  const ORDER: seq<Label> := [Pb, Ab, Si, Nd]

  /** The first group with the largest raw probability. */
  function ArgMax(probs: map<Label, real>, groups: seq<Label>): (r: Option<Label>)
    ensures r.Some? ==> r.value in probs && r.value in groups
    ensures r.Some? ==> forall g | g in groups && g in probs :: probs[g] <= probs[r.value]
    ensures r.None? ==> forall g | g in groups :: g !in probs
  {
    if groups == [] then None
    else
      var n := |groups| - 1;
      var best := ArgMax(probs, groups[..n]);
      assert groups == groups[..n] + [groups[n]];
      if groups[n] in probs && (best.None? || probs[groups[n]] > probs[best.value]) then Some(groups[n]) else best
  }

  predicate Declines(s: Settings, d: Result) {
    && s.belowEnabled && d.reason == Some(GbmBelowSuggest) && ArgMax(d.probs, ORDER).Some?
    && SUGGEST_BELOW_FLOOR <= d.confidence < TAU_SUGGEST
  }

  /** A labelled neighbour of the group whose item is not shown yet. */
  predicate CanStandFor(c: Candidate, group: Label, used: seq<Row>) {
    && c.itemId.Some? && !Has(used, c.itemId.value)
    && c.issueType.Some? && c.issueType.value != "" && BaseGroup(c.issueType.value) == group
  }

  /** The best candidate of the declined group that is not shown yet. */
  function Unused(cs: seq<Candidate>, group: Label, used: seq<Row>): (r: Option<Candidate>)
    ensures r.Some? ==> r.value in cs && CanStandFor(r.value, group, used)
    ensures r.None? ==> forall c | c in cs :: !CanStandFor(c, group, used)
  {
    if cs == [] then None
    else if CanStandFor(cs[0], group, used) then Some(cs[0])
    else Unused(cs[1..], group, used)
  }

  /** Of several such candidates the first is taken. */
  lemma {:induction false} UnusedIsFirst(cs: seq<Candidate>, group: Label, used: seq<Row>) returns (k: nat)
    requires exists c :: c in cs && CanStandFor(c, group, used)
    ensures k < |cs| && Unused(cs, group, used) == Some(cs[k])
    ensures forall j :: 0 <= j < k ==> !CanStandFor(cs[j], group, used)
  {
    if CanStandFor(cs[0], group, used) {
      k := 0;
    } else {
      k := UnusedIsFirst(cs[1..], group, used);
      k := k + 1;
    }
  }

  /** Of several groups with the largest probability the first in dictionary order is taken. */
  lemma {:induction false} ArgMaxIsFirst(probs: map<Label, real>, groups: seq<Label>) returns (k: nat)
    requires ArgMax(probs, groups).Some?
    ensures k < |groups| && ArgMax(probs, groups) == Some(groups[k])
    ensures forall j :: 0 <= j < k && groups[j] in probs ==> probs[groups[j]] < probs[groups[k]]
  {
    var n := |groups| - 1;
    var best := ArgMax(probs, groups[..n]);
    if best.Some? { k := ArgMaxIsFirst(probs, groups[..n]); } else { k := n; }
    if groups[n] in probs && (best.None? || probs[groups[n]] > probs[best.value]) { k := n; }
  }

  /** The declined hypothesis as one row, on the calibrated scale. */
  function DeclinedRow(s: Settings, d: Result, used: seq<Row>): seq<Row> {
    if !Declines(s, d) then []
    else
      var c := Unused(d.stageC, ArgMax(d.probs, ORDER).value, used);
      if c.None? then []
      else [Row(c.value.issueType.value, c.value.itemId.value, d.confidence, c.value.rrf,
          ProvenanceOf(c.value.source, false))]
  }

  function BelowCap(s: Settings): nat {
    if s.belowMax < 0 then 0 else if s.belowMax < SUGGEST_BELOW_MAX_CAP then s.belowMax else SUGGEST_BELOW_MAX_CAP
  }

  function Minus(a: nat, b: nat): nat { if a < b then 0 else a - b }

  function Compose(s: Settings, d: Result, list: seq<Row>): Reply {
    var all := Filter(AtLeast(TAU_SUGGEST), list);
    var declined := if s.belowEnabled then Filter(Under(TAU_SUGGEST), list) else [];
    var below := Take(BelowCap(s), declined + DeclinedRow(s, d, Take(s.suggestMax, all) + declined));
    Reply(Take(if below != [] && d.group == Ti then Minus(s.suggestMax, |below|) else s.suggestMax, all), below)
  }

  function ReplyTo(s: Settings, d: Result, verdict: Option<int>): Reply {
    var list := Shortlist(s, d, verdict);
    if Proxy(d) < Gate(s) || list == [] then Reply([], []) else Compose(s, d, list)
  }

  function RowBand(d: Result, item: int, score: real): Band {
    if score < TAU_SUGGEST then BelowSuggest
    else if d.action.Auto? && d.relevantItem == Some(item) then AutoBand
    else SuggestBand
  }

  function Entries(probs: map<Label, real>, groups: seq<Label>): seq<LabelProb.Entry> {
    if groups == [] then []
    else
      var rest := Entries(probs, groups[1..]);
      if groups[0] in probs then [LabelProb.Entry(groups[0], probs[groups[0]])] + rest else rest
  }

  function Show(d: Result, r: Reply, k: nat): Shown
    requires k < |r.Rows()|
  {
    var row := r.Rows()[k];
    var band := RowBand(d, row.item, Cap(row.score));
    var group := BaseGroup(row.issueType);
    Shown(row, k, band,
          if d.group != Ti && d.relevantItem == Some(row.item) && d.confidence > 0.0 then Some(d.confidence) else None,
          if group == NoLabel then None else LabelProb.CalibratedLabelProb(d.calibrated, Entries(d.probs, ORDER),
              group),
          if band.BelowSuggest? && k == |r.endorsed| then d.reason else None)
  }

  method RenderSuggestions(s: Settings, d: Result, verdict: Option<int>) returns (out: seq<Shown>)
    ensures var r := ReplyTo(s, d, verdict);
      |out| == |r.Rows()| && forall k :: 0 <= k < |out| ==> out[k] == Show(d, r, k)
  {
    hide Filter, DeclinedRow, ReorderForJudge, RowBand, LabelProb.CalibratedLabelProb, BaseGroup, Entries, Candidates;
    out := [];
    if Proxy(d) < Gate(s) { return; }
    var candidates := SuggestionCandidates(d);
    candidates := Filter(AtLeast(Gate(s)), candidates);
    if candidates == [] { EmptyStays(verdict, d.action.Auto?); return; }
    ReorderKeepsLength(candidates, verdict, d.action.Auto?);
    candidates := ReorderForJudge(candidates, verdict, d.action.Auto?);
    var all := Filter(AtLeast(TAU_SUGGEST), candidates);
    var shown := Take(s.suggestMax, all);
    var below := if s.belowEnabled then Filter(Under(TAU_SUGGEST), candidates) else [];
    below := below + DeclinedRow(s, d, shown + below);
    below := Take(BelowCap(s), below);
    if below != [] && d.group == Ti {
      shown := Take(Minus(s.suggestMax, |below|), all);
    }
    ghost var r := ReplyTo(s, d, verdict);
    assert r == Reply(shown, below);
    var rows := shown + below;
    for rank := 0 to |rows|
      invariant |out| == rank && forall k :: 0 <= k < rank ==> out[k] == Show(d, r, k)
    {
      var row := rows[rank];
      var band := RowBand(d, row.item, Cap(row.score));
      var conf := if d.group != Ti && d.relevantItem == Some(row.item) && d.confidence > 0.0 then Some(d.confidence)
        else None;
      var group := BaseGroup(row.issueType);
      var plabel :=
        if group == NoLabel then None else LabelProb.CalibratedLabelProb(d.calibrated, Entries(d.probs, ORDER), group);
      var why := if band.BelowSuggest? && rank == |shown| then d.reason else None;
      out := out + [Shown(row, rank, band, conf, plabel, why)];
    }
  }

  lemma {:induction false} EmptyStays(verdict: Option<int>, isAuto: bool)
    ensures ReorderForJudge([], verdict, isAuto) == []
  {
  }

  lemma {:induction false} ReorderKeepsLength(rows: seq<Row>, verdict: Option<int>, isAuto: bool)
    ensures |ReorderForJudge(rows, verdict, isAuto)| == |rows|
  {
  }

  /** The probabilities a row is judged by are those of the decision, group by group. */
  lemma {:induction false} EntriesAre(probs: map<Label, real>, groups: seq<Label>)
    ensures forall e <- Entries(probs, groups) :: e.group in groups && e.group in probs && e.p == probs[e.group]
    ensures forall g <- groups :: g in probs ==> LabelProb.Entry(g, probs[g]) in Entries(probs, groups)
  {
    if groups != [] { EntriesAre(probs, groups[1..]); }
  }

  /** The answer of a decision is shown exactly if it decided and has an item: that item, with the label and the
      confidence of the decision. */
  lemma {:induction false} AnswerIs(d: Result)
    ensures |Answer(d)| == if d.group != Ti && d.relevantItem.Some? then 1 else 0
    ensures forall row <- Answer(d) ::
      && d.relevantItem == Some(row.item) && row.issueType == d.issueType && row.score == d.confidence
      && (row.provenance == KbMode <==> d.stage == ByKb)
      && (row.provenance == HumanConfirmed ==> d.relevantSource in {Rp, Human} && !d.relevantIsAuto)
      && (row.provenance == AutoAnalyzed <==> d.stage != ByKb && (d.relevantIsAuto || d.relevantSource == AiSuggested))
  {
  }

  // ----- candidates: distinct, real, complete ------------------------------------

  lemma {:induction false} CandidatesAreDistinct(rows: seq<Row>, cs: seq<Candidate>)
    requires DistinctKeys(Item(), rows)
    ensures DistinctKeys(Item(), AddAll(rows, cs))
    ensures rows <= AddAll(rows, cs)
  {
    if cs != [] { CandidatesAreDistinct(rows, cs[..|cs| - 1]); }
  }

  predicate Neighbouring(cs: seq<Candidate>, row: Row) {
    exists k :: 0 <= k < |cs| && cs[k].itemId.Some? && cs[k].issueType.Some? && row == Neighbour(cs[k])
  }

  lemma {:induction false} CandidatesComeFrom(rows: seq<Row>, cs: seq<Candidate>)
    ensures forall r | r in AddAll(rows, cs) :: r in rows || Neighbouring(cs, r)
    ensures forall k | 0 <= k < |cs| && cs[k].itemId.Some? && cs[k].issueType.Some? ::
        Has(AddAll(rows, cs), cs[k].itemId.value)
  {
    if cs != [] {
      var n := |cs| - 1;
      CandidatesComeFrom(rows, cs[..n]);
      var before := AddAll(rows, cs[..n]);
      forall r | r in AddAll(rows, cs) ensures r in rows || Neighbouring(cs, r) {
        if r in before && r !in rows {
          var k :| 0 <= k < n && cs[..n][k].itemId.Some? && cs[..n][k].issueType.Some? && r == Neighbour(cs[..n][k]);
          assert cs[k] == cs[..n][k];
        }
      }
      forall k | 0 <= k < |cs| && cs[k].itemId.Some? && cs[k].issueType.Some?
        ensures Has(AddAll(rows, cs), cs[k].itemId.value)
      {
        if k < n {
          assert cs[..n][k] == cs[k] && Has(before, cs[k].itemId.value);
          var j :| 0 <= j < |before| && before[j].item == cs[k].itemId.value;
          assert AddAll(rows, cs)[j] == before[j];
        } else if !Has(before, cs[n].itemId.value) {
          assert AddAll(rows, cs)[|before|].item == cs[n].itemId.value;
        }
      }
    }
  }

  /** The candidate is labelled, its item is not the answer's, and no labelled one before it has the same item. */
  ghost predicate FirstSeen(rows: seq<Row>, cs: seq<Candidate>, i: int) {
    && 0 <= i < |cs| && cs[i].itemId.Some? && cs[i].issueType.Some?
    && (forall k :: 0 <= k < |rows| ==> rows[k].item != cs[i].itemId.value)
    && (forall j :: 0 <= j < i ==> cs[j].issueType.None? || cs[j].itemId != cs[i].itemId)
  }

  /** The row that shows a neighbour: its item and label, its similarity up to 1, its retrieval score. */
  predicate RowOf(c: Candidate, row: Row) {
    && c.itemId == Some(row.item) && c.issueType == Some(row.issueType) && row.es == c.rrf
    && row.score == (if c.cosine.None? then 0.0 else if c.cosine.value < 1.0 then c.cosine.value else 1.0)
    && row.provenance == (if c.source == AiSuggested then AutoAnalyzed
                          else if c.source == Rp || c.source == Human then HumanConfirmed
                          else if c.source == Seed then SeedCatalog else Unlabeled)
  }

  /** The neighbours at `at` are the ones first seen there, all of them, and `more` shows them in that order. */
  ghost predicate InRetrievalOrder(rows: seq<Row>, cs: seq<Candidate>, at: seq<nat>, more: seq<Row>) {
    && |at| == |more| && (forall j, k :: 0 <= j < k < |at| ==> at[j] < at[k])
    && (forall k :: 0 <= k < |at| ==> FirstSeen(rows, cs, at[k]) && RowOf(cs[at[k]], more[k]))
    && (forall i :: FirstSeen(rows, cs, i) ==> i in at)
  }

  lemma {:induction false} SeenBefore(rows: seq<Row>, cs: seq<Candidate>, c: Candidate, i: int)
    ensures i < |cs| ==> (FirstSeen(rows, cs + [c], i) <==> FirstSeen(rows, cs, i))
  {
    assert forall j :: 0 <= j < |cs| ==> (cs + [c])[j] == cs[j];
  }

  lemma {:induction false} NewIsFirstSeen(rows: seq<Row>, cs: seq<Candidate>, c: Candidate)
    ensures FirstSeen(rows, cs + [c], |cs|) <==>
      c.itemId.Some? && c.issueType.Some? && !Has(AddAll(rows, cs), c.itemId.value)
  {
    hide AddAll;
    if c.itemId.Some? && c.issueType.Some? {
      CandidatesComeFrom(rows, cs);
      RowsStay(rows, cs);
      var item, all := c.itemId.value, AddAll(rows, cs);
      forall k | 0 <= k < |rows| ensures rows[k].item == item ==> Has(all, item) { assert all[k] == rows[k]; }
      if k :| 0 <= k < |all| && all[k].item == item {
        assert all[k] in all;
        if all[k] in rows {
          var j :| 0 <= j < |rows| && rows[j] == all[k];
        } else {
          var j :| 0 <= j < |cs| && cs[j].itemId.Some? && cs[j].issueType.Some? && all[k] == Neighbour(cs[j]);
          assert (cs + [c])[j] == cs[j];
        }
      }
    }
  }

  lemma {:induction false} RowsStay(rows: seq<Row>, cs: seq<Candidate>)
    ensures rows <= AddAll(rows, cs)
  {
    if cs != [] { RowsStay(rows, cs[..|cs| - 1]); }
  }

  lemma {:induction false} OneMoreNeighbour(rows: seq<Row>, cs: seq<Candidate>, at: seq<nat>, more: seq<Row>,
      c: Candidate)
    requires InRetrievalOrder(rows, cs, at, more)
    ensures FirstSeen(rows, cs + [c], |cs|) ==>
      InRetrievalOrder(rows, cs + [c], at + [|cs|], more + [Neighbour(c)])
    ensures !FirstSeen(rows, cs + [c], |cs|) ==> InRetrievalOrder(rows, cs + [c], at, more)
  {
    forall i ensures i < |cs| ==> (FirstSeen(rows, cs + [c], i) <==> FirstSeen(rows, cs, i)) {
      SeenBefore(rows, cs, c, i);
    }
    assert forall i :: FirstSeen(rows, cs + [c], i) ==> i <= |cs|;
    hide FirstSeen;
    var longer := at + [|cs|];
    assert longer[|at|] == |cs| && forall i <- at :: i in longer;
  }

  /** Behind the answer the labelled neighbours stand in the order in which retrieval first names their items,
      each once, with its own label, similarity and source. */
  lemma {:induction false} CandidatesStandInOrder(rows: seq<Row>, cs: seq<Candidate>) returns (at: seq<nat>)
    ensures rows <= AddAll(rows, cs)
    ensures InRetrievalOrder(rows, cs, at, AddAll(rows, cs)[|rows|..])
  {
    if cs == [] {
      at := [];
    } else {
      hide InRetrievalOrder, FirstSeen, Has;
      var n := |cs| - 1;
      var before := AddAll(rows, cs[..n]);
      at := CandidatesStandInOrder(rows, cs[..n]);
      OneMoreNeighbour(rows, cs[..n], at, before[|rows|..], cs[n]);
      NewIsFirstSeen(rows, cs[..n], cs[n]);
      assert cs == cs[..n] + [cs[n]];
      if FirstSeen(rows, cs, n) {
        at := at + [n];
        assert AddAll(rows, cs)[|rows|..] == before[|rows|..] + [Neighbour(cs[n])];
      }
    }
  }

  // ----- the judge only permutes ---------------------------------------------------

  function Others(item: int): Row -> bool { (r: Row) => r.item != item }

  /** A verdict moves one candidate to the front and does nothing else. */
  lemma {:induction false} JudgeOnlyPermutes(rows: seq<Row>, verdict: Option<int>, isAuto: bool)
    ensures var r := ReorderForJudge(rows, verdict, isAuto);
      && multiset(r) == multiset(rows) && |r| == |rows|
      && (isAuto || verdict.None? || !Has(rows, verdict.value) ==> r == rows)
      && (!isAuto && verdict.Some? && Has(rows, verdict.value) ==>
            r[0].item == verdict.value && Filter(Others(verdict.value), r) == Filter(Others(verdict.value), rows))
  {
    hide Filter;
    if !isAuto && verdict.Some? {
      var at := Find(rows, verdict.value);
      if at.Some? && at.value != 0 {
        var i := at.value;
        var a, x, b := rows[..i], rows[i], rows[i + 1..];
        var p := Others(verdict.value);
        assert rows == a + [x] + b;
        FilterAppend(p, a + [x], b);
        FilterAppend(p, a, [x]);
        FilterAppend(p, [x] + a, b);
        FilterAppend(p, [x], a);
        FilterAll(p, [x]);
        assert [] + Filter(p, a) == Filter(p, a) + [];
      }
    }
  }

  // ----- every reply ---------------------------------------------------------------

  lemma {:induction false} AnswerIsDistinct(d: Result)
    ensures DistinctKeys(Item(), Answer(d))
  {
  }

  lemma {:induction false} ShortlistIsDistinct(s: Settings, d: Result, verdict: Option<int>)
    ensures DistinctKeys(Item(), Shortlist(s, d, verdict))
    ensures forall r | r in Shortlist(s, d, verdict) :: r in Candidates(d) && Cap(r.score) >= Gate(s)
  {
    hide ReorderForJudge, AddAll;
    AnswerIsDistinct(d);
    CandidatesAreDistinct(Answer(d), d.stageC);
    var fit := Filter(AtLeast(Gate(s)), Candidates(d));
    FilterKeepsDistinct(AtLeast(Gate(s)), Item(), Candidates(d));
    JudgeOnlyPermutes(fit, verdict, d.action.Auto?);
    DistinctKeysOfPermutation(Item(), fit, Shortlist(s, d, verdict));
    forall r | r in Shortlist(s, d, verdict) ensures r in fit {
      assert r in multiset(Shortlist(s, d, verdict));
    }
  }

  predicate Apart(xs: seq<Row>, ys: seq<Row>) {
    forall i, j :: 0 <= i < |xs| && 0 <= j < |ys| ==> xs[i].item != ys[j].item
  }

  lemma {:induction false} DistinctSplits(rows: seq<Row>, a: seq<Row>, b: seq<Row>)
    requires DistinctKeys(Item(), rows) && forall r | r in a :: r in rows && r !in b
    requires forall r | r in b :: r in rows
    ensures Apart(a, b)
  {
    forall i, j | 0 <= i < |a| && 0 <= j < |b| ensures a[i].item != b[j].item {
      assert a[i] in rows && b[j] in rows && a[i] != b[j];
      var m :| 0 <= m < |rows| && rows[m] == a[i];
      var n :| 0 <= n < |rows| && rows[n] == b[j];
      assert Item()(rows[m]) != Item()(rows[n]);
    }
  }

  /** What the composition of a reply guarantees about its two parts. */
  lemma {:induction false} ComposeParts(s: Settings, d: Result, list: seq<Row>)
    requires DistinctKeys(Item(), list)
    ensures var r := Compose(s, d, list);
      && DistinctKeys(Item(), r.endorsed) && DistinctKeys(Item(), r.below) && Apart(r.endorsed, r.below)
      && (forall x | x in r.endorsed :: x in list && Cap(x.score) >= TAU_SUGGEST)
      && (forall x | x in r.below :: Cap(x.score) < TAU_SUGGEST)
      && |r.below| <= BelowCap(s) && |r.endorsed| <= s.suggestMax
      && (r.below != [] && d.group == Ti ==> |r.endorsed| <= Minus(s.suggestMax, |r.below|))
      && (!s.belowEnabled ==> r.below == [])
  {
    hide Unused, ArgMax;
    var p, q := AtLeast(TAU_SUGGEST), Under(TAU_SUGGEST);
    var all := Filter(p, list);
    var declined := if s.belowEnabled then Filter(q, list) else [];
    FilterKeepsDistinct(p, Item(), list);
    FilterKeepsDistinct(q, Item(), list);
    var top := Take(s.suggestMax, all);
    var extra := DeclinedRow(s, d, top + declined);
    DistinctSplits(list, all, declined);
    ExtraIsNew(s, d, top, declined);
    assert DistinctKeys(Item(), declined + extra) by { AppendDistinct(declined, extra); }
    assert Apart(top, declined + extra);
    var r := Compose(s, d, list);
    forall x | x in r.endorsed ensures x in list && Cap(x.score) >= TAU_SUGGEST {
      assert x in all && p(x);
    }
    forall x | x in r.below ensures Cap(x.score) < TAU_SUGGEST {
      assert x in declined + extra;
      if x in declined { assert q(x); }
    }
  }

  lemma {:induction false} AppendDistinct(xs: seq<Row>, ys: seq<Row>)
    requires DistinctKeys(Item(), xs) && DistinctKeys(Item(), ys) && Apart(xs, ys)
    ensures DistinctKeys(Item(), xs + ys)
  {
  }

  lemma {:induction false} ExtraIsNew(s: Settings, d: Result, top: seq<Row>, declined: seq<Row>)
    ensures var extra := DeclinedRow(s, d, top + declined);
      && |extra| <= 1 && Apart(top, extra) && Apart(declined, extra)
      && (forall x | x in extra :: Cap(x.score) < TAU_SUGGEST)
      && (!s.belowEnabled ==> extra == [])
  {
    hide ArgMax, BaseGroup;
    var used := top + declined;
    var extra := DeclinedRow(s, d, used);
    if extra != [] {
      forall i | 0 <= i < |top| ensures top[i].item != extra[0].item { assert used[i] == top[i]; }
      forall i | 0 <= i < |declined|
          ensures declined[i].item != extra[0].item { assert used[|top| + i] == declined[i]; }
    }
  }

  /** Every reply: distinct items, the declined rows exactly a suffix and below the threshold, nothing else
      below it, and the sizes within their budgets. */
  lemma {:induction false} ReplyIsWellFormed(s: Settings, d: Result, verdict: Option<int>)
    ensures var r := ReplyTo(s, d, verdict);
      && DistinctKeys(Item(), r.Rows())
      && (forall k :: 0 <= k < |r.Rows()| ==>
            (RowBand(d, r.Rows()[k].item, Cap(r.Rows()[k].score)).BelowSuggest? <==> k >= |r.endorsed|))
      && |r.below| <= BelowCap(s) <= SUGGEST_BELOW_MAX_CAP && |r.endorsed| <= s.suggestMax
      && (!s.belowEnabled ==> r.below == [])
      && (d.group == Ti && r.below != [] ==>
            |r.Rows()| <= if s.suggestMax < |r.below| then |r.below| else s.suggestMax)
  {
    hide Shortlist, Compose, BaseGroup;
    var list := Shortlist(s, d, verdict);
    ShortlistIsDistinct(s, d, verdict);
    ComposeParts(s, d, list);
    var r := ReplyTo(s, d, verdict);
    if r != Reply([], []) { AppendDistinct(r.endorsed, r.below); }
    forall k | 0 <= k < |r.Rows()|
      ensures RowBand(d, r.Rows()[k].item, Cap(r.Rows()[k].score)).BelowSuggest? <==> k >= |r.endorsed|
    {
      if k < |r.endorsed| { assert r.Rows()[k] in r.endorsed; } else { assert r.Rows()[k] in r.below; }
    }
  }

  /** At most one row carries the decision's confidence, never on an abstain; the reason of an abstain is told
      on the first declined row and nowhere else; a row's own probability, where known, is one. */
  lemma {:induction false} TokensStandOnce(s: Settings, d: Result, verdict: Option<int>, i: nat, j: nat)
    requires var rows := ReplyTo(s, d, verdict).Rows(); i < |rows| && j < |rows|
    ensures var r := ReplyTo(s, d, verdict);
      var a, b := Show(d, r, i), Show(d, r, j);
      && a.position == i && a.row == r.Rows()[i]
      && (a.band.BelowSuggest? <==> i >= |r.endorsed|)
      && (a.band.AutoBand? <==> i < |r.endorsed| && d.action == Auto && d.relevantItem == Some(a.row.item))
      && (a.conf.Some? && b.conf.Some? ==> i == j)
      && (a.conf.Some? <==> d.group != Ti && d.relevantItem == Some(a.row.item) && d.confidence > 0.0)
      && (a.conf.Some? ==> a.conf.value == d.confidence)
      && (i == |r.endorsed| ==> a.why == d.reason)
      && (i != |r.endorsed| ==> a.why == None)
      && (a.plabel.Some? ==> 0.0 <= a.plabel.value <= 1.0)
      && a.plabel == (if BaseGroup(a.row.issueType) == NoLabel then None else
                        LabelProb.CalibratedLabelProb(d.calibrated, Entries(d.probs, ORDER),
                                                      BaseGroup(a.row.issueType)))
  {
    hide ReplyTo, BaseGroup, Entries, LabelProb.Share;
    ReplyIsWellFormed(s, d, verdict);
    var rows := ReplyTo(s, d, verdict).Rows();
    assert i != j ==> Item()(rows[i]) != Item()(rows[j]);
  }

  lemma {:induction false} SameFilter(p: Row -> bool, q: Row -> bool, rows: seq<Row>)
    requires forall r: Row :: p(r) <==> q(r)
    ensures Filter(p, rows) == Filter(q, rows)
  {
    if rows != [] { SameFilter(p, q, rows[1..]); }
  }

  lemma {:induction false} DeclinedPart(s: Settings, d: Result, verdict: Option<int>)
    requires s.belowEnabled
    ensures Filter(Under(TAU_SUGGEST), Shortlist(s, d, verdict)) ==
      ReorderForJudge(Filter((r: Row) => 0.3 <= r.score < 0.45, Candidates(d)), verdict, d.action.Auto?)
  {
    hide Filter, ReorderForJudge, AddAll;
    AnswerIsDistinct(d);
    CandidatesAreDistinct(Answer(d), d.stageC);
    FilterKeepsDistinct(AtLeast(Gate(s)), Item(), Candidates(d));
    PromoteThenFilter(Under(TAU_SUGGEST), Filter(AtLeast(Gate(s)), Candidates(d)), verdict, d.action.Auto?);
    BetweenGates(Candidates(d));
  }

  lemma {:induction false} BetweenGates(rows: seq<Row>)
    ensures Filter(Under(TAU_SUGGEST), Filter(AtLeast(SUGGEST_BELOW_FLOOR), rows)) ==
      Filter((r: Row) => 0.3 <= r.score < 0.45, rows)
  {
    if rows != [] {
      BetweenGates(rows[1..]);
      var rest := Filter(AtLeast(SUGGEST_BELOW_FLOOR), rows[1..]);
      if AtLeast(SUGGEST_BELOW_FLOOR)(rows[0]) {
        assert ([rows[0]] + rest)[1..] == rest;
      } else {
        assert [] + rest == rest;
      }
    }
  }

  /** What a reply holds, read off the candidates. It is empty where the confidence, or without one the similarity
      of the top neighbour, or every candidate stays under the gate: 0.45, or 0.3 with the dock. Otherwise the
      answers are the candidates of 0.45 and more, and the declined ones behind them those from 0.3 up and then the
      hypothesis of the model; each kind is cut to its budget, and on an abstention the declined rows take theirs
      from the answers. */
  lemma {:induction false} WhatAReplyHolds(s: Settings, d: Result, verdict: Option<int>)
    ensures var r := ReplyTo(s, d, verdict);
      var gate := if s.belowEnabled then 0.3 else 0.45;
      var proxy := if d.confidence != 0.0 || d.stageC == [] then d.confidence
                   else if d.stageC[0].cosine.None? then 0.0
                   else if d.stageC[0].cosine.value < 1.0 then d.stageC[0].cosine.value else 1.0;
      var answers := ReorderForJudge(Filter((r: Row) => r.score >= 0.45, Candidates(d)), verdict, d.action == Auto);
      var declined := ReorderForJudge(
        Filter((r: Row) => s.belowEnabled && 0.3 <= r.score < 0.45, Candidates(d)), verdict, d.action == Auto);
      if proxy < gate || (forall row <- Candidates(d) :: row.score < gate) then r == Reply([], [])
      else
        && r.below <= declined + DeclinedRow(s, d, Take(s.suggestMax, answers) + declined)
        && (|r.below| < 3 && |r.below| < s.belowMax ==>
              r.below == declined + DeclinedRow(s, d, Take(s.suggestMax, answers) + declined))
        && |r.below| <= (if s.belowMax < 0 then 0 else s.belowMax) && |r.below| <= 3
        && r.endorsed <= answers
        && var room := if r.below != [] && d.group == Ti then s.suggestMax - |r.below| else s.suggestMax;
           r.endorsed == answers || |r.endorsed| == (if room < 0 then 0 else room) < |answers|
  {
    hide DeclinedRow, ReorderForJudge, Candidates, Shortlist, Filter, Proxy, Compose, Take, Gate;
    var list := Shortlist(s, d, verdict);
    EndorsedOf(s, d, verdict);
    SameFilter(AtLeast(TAU_SUGGEST), (r: Row) => r.score >= 0.45, Candidates(d));
    DockPart(s, d, verdict);
    EmptyShortlist(s, d, verdict);
    GateIs(s, d);
    ComposeHolds(s, d, list);
  }

  lemma {:induction false} GateIs(s: Settings, d: Result)
    ensures Gate(s) == if s.belowEnabled then 0.3 else 0.45
    ensures Proxy(d) ==
      if d.confidence != 0.0 || d.stageC == [] then d.confidence
      else if d.stageC[0].cosine.None? then 0.0
      else if d.stageC[0].cosine.value < 1.0 then d.stageC[0].cosine.value else 1.0
  {
  }

  lemma {:induction false} DockPart(s: Settings, d: Result, verdict: Option<int>)
    ensures (if s.belowEnabled then Filter(Under(TAU_SUGGEST), Shortlist(s, d, verdict)) else []) ==
      ReorderForJudge(Filter((r: Row) => s.belowEnabled && 0.3 <= r.score < 0.45, Candidates(d)), verdict,
        d.action == Auto)
  {
    hide ReorderForJudge, Candidates, Shortlist, Filter;
    if s.belowEnabled {
      DeclinedPart(s, d, verdict);
      SameFilter((r: Row) => 0.3 <= r.score < 0.45, (r: Row) => s.belowEnabled && 0.3 <= r.score < 0.45, Candidates(d));
    } else {
      FilterAll((r: Row) => s.belowEnabled && 0.3 <= r.score < 0.45, Candidates(d));
      EmptyStays(verdict, d.action.Auto?);
    }
  }

  lemma {:induction false} ComposeHolds(s: Settings, d: Result, list: seq<Row>)
    ensures var r := Compose(s, d, list);
      var answers := Filter(AtLeast(TAU_SUGGEST), list);
      var declined := if s.belowEnabled then Filter(Under(TAU_SUGGEST), list) else [];
      var all := declined + DeclinedRow(s, d, Take(s.suggestMax, answers) + declined);
      && r.below <= all && (|r.below| < 3 && |r.below| < s.belowMax ==> r.below == all)
      && |r.below| <= (if s.belowMax < 0 then 0 else s.belowMax) && |r.below| <= 3
      && r.endorsed <= answers
      && var room := if r.below != [] && d.group == Ti then s.suggestMax - |r.below| else s.suggestMax;
         r.endorsed == answers || |r.endorsed| == (if room < 0 then 0 else room) < |answers|
  {
    hide DeclinedRow, Filter;
  }

  lemma {:induction false} EmptyShortlist(s: Settings, d: Result, verdict: Option<int>)
    ensures Shortlist(s, d, verdict) == [] <==> forall row <- Candidates(d) :: row.score < Gate(s)
  {
    hide ReorderForJudge, Candidates;
    var fit := Filter(AtLeast(Gate(s)), Candidates(d));
    JudgeOnlyPermutes(fit, verdict, d.action.Auto?);
    if fit != [] { assert fit[0] in fit; }
    forall row | row in Candidates(d) && row.score >= Gate(s) ensures fit != [] {
      assert AtLeast(Gate(s))(row);
      assert row in fit;
    }
  }

  /** The hypothesis of the model is one more declined row exactly if the dock is on, the model had one it was 0.3
      and more but not 0.45 sure of, and some labelled neighbour of its group is not shown yet; it shows the first
      of those, with the confidence of the decision. */
  lemma {:induction false} HypothesisIff(s: Settings, d: Result, used: seq<Row>, hypothesis: Option<Label>)
    requires hypothesis == ArgMax(d.probs, ORDER)
    ensures var row := DeclinedRow(s, d, used);
      if && s.belowEnabled && d.reason == Some(GbmBelowSuggest) && hypothesis.Some? && 0.3 <= d.confidence < 0.45
         && exists c <- d.stageC :: CanStandFor(c, hypothesis.value, used)
      then
        var c := Unused(d.stageC, hypothesis.value, used);
        && c.Some? && |row| == 1 && c.value.itemId == Some(row[0].item) && c.value.issueType == Some(row[0].issueType)
        && row[0].score == d.confidence && row[0].es == c.value.rrf
      else row == []
  {
    hide ArgMax, BaseGroup, CanStandFor;
    if hypothesis.Some? {
      CanStandForHas(d.stageC, hypothesis.value, used);
    }
  }

  lemma {:induction false} CanStandForHas(cs: seq<Candidate>, group: Label, used: seq<Row>)
    ensures Unused(cs, group, used).Some? ==>
      Unused(cs, group, used).value.itemId.Some? && Unused(cs, group, used).value.issueType.Some?
  {
  }

  /** The row has the item and the label of a neighbour. */
  predicate ShowsNeighbour(cs: seq<Candidate>, row: Row) {
    exists k :: 0 <= k < |cs| && cs[k].itemId == Some(row.item) && cs[k].issueType == Some(row.issueType)
  }

  /** Nothing is fabricated: every row shows the decision's own item or the item of a neighbour. */
  lemma {:induction false} NothingFabricated(s: Settings, d: Result, verdict: Option<int>, row: Row)
    requires row in ReplyTo(s, d, verdict).Rows()
    ensures row in Answer(d) || ShowsNeighbour(d.stageC, row)
  {
    hide ReorderForJudge, ArgMax, BaseGroup;
    var list := Shortlist(s, d, verdict);
    ShortlistIsDistinct(s, d, verdict);
    CandidatesComeFrom(Answer(d), d.stageC);
    var r := ReplyTo(s, d, verdict);
    if row in list {
      if row !in Answer(d) { assert Neighbouring(d.stageC, row); }
    } else {
      var all := Filter(AtLeast(TAU_SUGGEST), list);
      assert row !in r.endorsed;
      var declined := if s.belowEnabled then Filter(Under(TAU_SUGGEST), list) else [];
      var used := Take(s.suggestMax, all) + declined;
      assert row in DeclinedRow(s, d, used);
      var c := Unused(d.stageC, ArgMax(d.probs, ORDER).value, used).value;
      assert c in d.stageC;
    }
  }

  // ----- the dock never costs an answer ----------------------------------------------

  lemma {:induction false} ReorderAt(a: seq<Row>, x: Row, b: seq<Row>)
    requires forall k :: 0 <= k < |a| ==> a[k].item != x.item
    ensures ReorderForJudge(a + [x] + b, Some(x.item), false) == [x] + a + b
  {
    var rows := a + [x] + b;
    assert rows[|a|] == x;
    assert forall k :: 0 <= k < |a| ==> rows[k] == a[k];
    assert rows[..|a|] == a && rows[|a| + 1..] == b;
    assert a == [] ==> rows == [x] + a + b;
  }

  lemma {:induction false} ReorderMissing(rows: seq<Row>, item: int)
    requires forall k :: 0 <= k < |rows| ==> rows[k].item != item
    ensures ReorderForJudge(rows, Some(item), false) == rows
  {
  }

  lemma {:induction false} FilterParts(p: Row -> bool, a: seq<Row>, x: Row, b: seq<Row>)
    requires p(x)
    ensures Filter(p, a + [x] + b) == Filter(p, a) + [x] + Filter(p, b)
    ensures Filter(p, [x] + a + b) == [x] + Filter(p, a) + Filter(p, b)
  {
    hide Filter;
    FilterAppend(p, a + [x], b);
    FilterAppend(p, a, [x]);
    FilterAppend(p, [x] + a, b);
    FilterAppend(p, [x], a);
    FilterAll(p, [x]);
  }

  lemma {:induction false} FilterWithout(p: Row -> bool, a: seq<Row>, x: Row, b: seq<Row>)
    requires !p(x)
    ensures Filter(p, a + [x] + b) == Filter(p, a) + Filter(p, b)
    ensures Filter(p, [x] + a + b) == Filter(p, a) + Filter(p, b)
  {
    hide Filter;
    FilterAppend(p, a + [x], b);
    FilterAppend(p, a, [x]);
    FilterAppend(p, [x] + a, b);
    FilterAppend(p, [x], a);
    FilterAll(p, [x]);
    assert Filter(p, a) + [] == Filter(p, a) && [] + Filter(p, a) == Filter(p, a);
  }

  lemma {:induction false} MissingFromBoth(a: seq<Row>, b: seq<Row>, item: int)
    requires forall k :: 0 <= k < |a| ==> a[k].item != item
    requires forall k :: 0 <= k < |b| ==> b[k].item != item
    ensures ReorderForJudge(a + b, Some(item), false) == a + b
  {
    ReorderMissing(a + b, item);
  }

  /** Filtering and promoting commute when items are distinct. */
  lemma {:induction false} PromoteThenFilter(p: Row -> bool, rows: seq<Row>, verdict: Option<int>, isAuto: bool)
    requires DistinctKeys(Item(), rows)
    ensures Filter(p, ReorderForJudge(rows, verdict, isAuto)) == ReorderForJudge(Filter(p, rows), verdict, isAuto)
  {
    if !isAuto && verdict.Some? {
      var at := Find(rows, verdict.value);
      if at.Some? {
        PromotedThenFilter(p, rows, at.value);
      } else {
        MissingFromFilter(p, rows, verdict.value);
        ReorderMissing(Filter(p, rows), verdict.value);
      }
    }
  }

  lemma {:induction false} MissingFromFilter(p: Row -> bool, rows: seq<Row>, item: int)
    requires forall k :: 0 <= k < |rows| ==> rows[k].item != item
    ensures forall k :: 0 <= k < |Filter(p, rows)| ==> Filter(p, rows)[k].item != item
  {
    hide Filter;
    var r := Filter(p, rows);
    forall k | 0 <= k < |r| ensures r[k].item != item { assert r[k] in rows; }
  }

  lemma {:induction false} PromotedThenFilter(p: Row -> bool, rows: seq<Row>, i: nat)
    requires DistinctKeys(Item(), rows) && i < |rows|
    ensures var verdict := Some(rows[i].item);
      Filter(p, ReorderForJudge(rows, verdict, false)) == ReorderForJudge(Filter(p, rows), verdict, false)
  {
    hide Filter, ReorderForJudge;
    var a, x, b := rows[..i], rows[i], rows[i + 1..];
    assert rows == a + [x] + b;
    forall k | 0 <= k < |a| ensures a[k].item != x.item { assert Item()(rows[k]) != Item()(rows[i]); }
    forall k | 0 <= k < |b| ensures b[k].item != x.item { assert Item()(rows[i + 1 + k]) != Item()(rows[i]); }
    PromotePart(p, a, x, b);
  }

  lemma {:induction false} PromotePart(p: Row -> bool, a: seq<Row>, x: Row, b: seq<Row>)
    requires forall k :: 0 <= k < |a| ==> a[k].item != x.item
    requires forall k :: 0 <= k < |b| ==> b[k].item != x.item
    ensures Filter(p, ReorderForJudge(a + [x] + b, Some(x.item), false)) ==
      ReorderForJudge(Filter(p, a + [x] + b), Some(x.item), false)
  {
    hide Filter, ReorderForJudge;
    MissingFromFilter(p, a, x.item);
    MissingFromFilter(p, b, x.item);
    ReorderAt(a, x, b);
    if p(x) {
      FilterParts(p, a, x, b);
      ReorderAt(Filter(p, a), x, Filter(p, b));
    } else {
      FilterWithout(p, a, x, b);
      MissingFromBoth(Filter(p, a), Filter(p, b), x.item);
    }
  }

  lemma {:induction false} FilterTwice(t: real, u: real, rows: seq<Row>)
    requires u <= t
    ensures Filter(AtLeast(t), Filter(AtLeast(u), rows)) == Filter(AtLeast(t), rows)
  {
    if rows != [] {
      FilterTwice(t, u, rows[1..]);
      var rest := Filter(AtLeast(u), rows[1..]);
      if AtLeast(u)(rows[0]) { assert ([rows[0]] + rest)[1..] == rest; } else { assert [] + rest == rest; }
    }
  }

  /** The endorsed candidates do not depend on the dock: the lower gate lets more rows in, and a verdict on
      one of those moves none of the others. */
  lemma {:induction false} SameEndorsed(s: Settings, t: Settings, d: Result, verdict: Option<int>)
    ensures Filter(AtLeast(TAU_SUGGEST), Shortlist(s, d, verdict)) ==
        Filter(AtLeast(TAU_SUGGEST), Shortlist(t, d, verdict))
  {
    EndorsedOf(s, d, verdict);
    EndorsedOf(t, d, verdict);
  }

  lemma {:induction false} EndorsedOf(s: Settings, d: Result, verdict: Option<int>)
    ensures Filter(AtLeast(TAU_SUGGEST), Shortlist(s, d, verdict)) ==
      ReorderForJudge(Filter(AtLeast(TAU_SUGGEST), Candidates(d)), verdict, d.action.Auto?)
  {
    hide Filter, ReorderForJudge, AddAll;
    AnswerIsDistinct(d);
    CandidatesAreDistinct(Answer(d), d.stageC);
    FilterKeepsDistinct(AtLeast(Gate(s)), Item(), Candidates(d));
    PromoteThenFilter(AtLeast(TAU_SUGGEST), Filter(AtLeast(Gate(s)), Candidates(d)), verdict, d.action.Auto?);
    FilterTwice(TAU_SUGGEST, Gate(s), Candidates(d));
  }

  /** Turning the dock on never costs a decided reply an answer, whatever the input; where the reply passes the
      gate either way the answers are the same, and an abstained reply keeps a beginning of its neighbours. */
  lemma {:induction false} DockNeverCrowdsOut(s: Settings, d: Result, verdict: Option<int>)
    ensures var on, off := ReplyTo(s.(belowEnabled := true), d, verdict),
        ReplyTo(s.(belowEnabled := false), d, verdict);
      && off.below == []
      && (d.group != Ti || on.below == [] ==> off.endorsed <= on.endorsed)
      && (Proxy(d) >= TAU_SUGGEST ==>
            on.endorsed <= off.endorsed && (d.group != Ti || on.below == [] ==> on.endorsed == off.endorsed))
  {
    var on, off := s.(belowEnabled := true), s.(belowEnabled := false);
    if Proxy(d) >= TAU_SUGGEST {
      hide ReplyTo, Shortlist;
      SameEndorsed(on, off, d, verdict);
      EndorsedPart(on, d, verdict);
      EndorsedPart(off, d, verdict);
    } else {
      hide Shortlist, Compose;
      assert ReplyTo(off, d, verdict) == Reply([], []);
    }
  }

  lemma {:induction false} EndorsedPart(s: Settings, d: Result, verdict: Option<int>)
    requires Proxy(d) >= TAU_SUGGEST
    ensures var r := ReplyTo(s, d, verdict);
      && r.endorsed == Take(if r.below != [] && d.group == Ti then Minus(s.suggestMax, |r.below|) else s.suggestMax,
                            Filter(AtLeast(TAU_SUGGEST), Shortlist(s, d, verdict)))
      && (!s.belowEnabled ==> r.below == [])
  {
    hide Shortlist, DeclinedRow, Proxy, Filter;
    NothingToFilter();
    if !s.belowEnabled { NoExtraWhenOff(s, d); }
  }

  lemma {:induction false} NothingToFilter()
    ensures Filter(AtLeast(TAU_SUGGEST), []) == []
  {
  }

  lemma {:induction false} NoExtraWhenOff(s: Settings, d: Result)
    requires !s.belowEnabled
    ensures forall used :: DeclinedRow(s, d, used) == []
  {
  }

  /** The decision's own answer is the first row and the only one in the auto band. */
  predicate AnswerLeads(s: Settings, d: Result, verdict: Option<int>) {
    var rows := ReplyTo(s, d, verdict).Rows();
    && rows != [] && Answer(d) == [rows[0]]
    && forall k :: 0 <= k < |rows| ==> (RowBand(d, rows[k].item, Cap(rows[k].score)).AutoBand? <==> k == 0)
  }

  /** An auto decision's own answer comes first, in the auto band, and is the only row in it; a verdict
      never moves it. */
  lemma {:induction false} AutoAnswerFirst(s: Settings, d: Result, verdict: Option<int>)
    requires d.action.Auto? && d.group != Ti && d.relevantItem.Some? && d.confidence >= TAU_SUGGEST && s.suggestMax > 0
    ensures AnswerLeads(s, d, verdict)
  {
    hide ReplyTo, Filter, Shortlist, AddAll, BaseGroup;
    AnswerIsDistinct(d);
    CandidatesAreDistinct(Answer(d), d.stageC);
    var list := Shortlist(s, d, verdict);
    assert Candidates(d)[0] == Answer(d)[0];
    AutoKeepsOrder(s, d, verdict);
    FirstStays(AtLeast(Gate(s)), Candidates(d));
    FirstStays(AtLeast(TAU_SUGGEST), list);
    EndorsedPart(s, d, verdict);
    ReplyIsWellFormed(s, d, verdict);
    var rows := ReplyTo(s, d, verdict).Rows();
    forall k | 0 < k < |rows| ensures rows[k].item != rows[0].item { assert Item()(rows[0]) != Item()(rows[k]); }
  }

  /** So every auto decision with an item leads its reply, with no condition on the confidence left. */
  lemma {:induction false} AutoDecisionLeads(s: Settings, i: Inputs, gbm: Option<Gbm>, verdict: Option<int>)
    requires Decide(i, gbm).action == Auto && Decide(i, gbm).relevantItem.Some? && s.suggestMax > 0
    ensures AnswerLeads(s, Decide(i, gbm), verdict)
  {
    hide Decide, AnswerLeads;
    AutoIsConfident(i, gbm);
    AutoAnswerFirst(s, Decide(i, gbm), verdict);
  }

  lemma {:induction false} AutoKeepsOrder(s: Settings, d: Result, verdict: Option<int>)
    requires d.action.Auto?
    ensures Shortlist(s, d, verdict) == Filter(AtLeast(Gate(s)), Candidates(d))
  {
  }

  lemma {:induction false} FirstStays(p: Row -> bool, rows: seq<Row>)
    requires rows != [] && p(rows[0])
    ensures Filter(p, rows) != [] && Filter(p, rows)[0] == rows[0]
  {
  }
}
