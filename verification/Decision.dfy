/**
 The decision for one failed item (src/analyzer_ng/core/decision.py): the exact-hash inherit of
 Stage A behind its discriminant gate, the knowledge-base short circuit, the calibrated model
 with its promote and demote guards, the cold fallback, and the policy bands. Over the reals.
 */
module Decision {
  import opened Numbers
  import opened Wrappers
  import opened Sorting
  import opened Features
  import Calibration

  const TAU_AUTO := 0.75
  const TAU_SUGGEST := 0.45
  const STAGE_A_CONFIDENCE := 0.95
  const STAGE_A_MAX_AGE_DAYS := 180.0
  const STAGE_A_MSG_JACCARD := 0.5
  const STAGE_A_HUMAN_MIN_CONF := 0.9
  const KB_STRONG_PURITY := 0.95
  const KB_STRONG_SUPPORT := 10
  const KB_STRONG_SCORE := 0.85
  const KB_CONFIDENCE_CAP := 0.93
  const SEED_PRIOR_MIN_CONF := 0.7
  const KB_W_COS := 0.6
  const KB_W_JACCARD := 0.25
  const KB_W_FP := 0.15

  datatype Source = Rp | Human | AiSuggested | Seed | NoSource
  datatype Method = ByHash | ByKb | ByGbm | ByRule
  datatype Action = Auto | Suggest | Abstain
  datatype Reason = GbmBelowSuggest | GbmBoilerplateOnlyNeighbor | NoConfidentRule

  /** An exact error-hash match; `labelTs` in seconds. */
  datatype HashMatch = HashMatch(
    itemId: int, issueType: string, source: Source, labelTs: Option<nat>, confidence: real, isAuto: bool,
    statusCodes: set<string>, msgTokens: set<string>)

  /** A retrieval candidate: a labelled item, or a knowledge-base mode. */
  datatype Candidate = Candidate(
    itemId: Option<int>, modeId: Option<int>, issueType: Option<string>, source: Source, cosine: Option<real>,
    rrf: real, jaccardTemplates: real, sameErrorHash: bool, sameExceptionFp: bool, msgTokens: set<string>,
    confirmed: bool, purity: real, support: int)
  {
    function Locator(): string { if issueType.Some? then issueType.value else "" }
    function Base(): Label { BaseGroup(Locator()) }
  }

  datatype Query = Query(statusCodes: set<string>, msgTokens: set<string>)
  datatype SeedSignal = SeedSignal(group: string, confidence: real)

  /** A served prediction; its label is `Ti` or `NoLabel` when the model names no base group. */
  datatype Gbm = Gbm(group: Label, maxProb: real, probs: map<Label, real>)

  /** Everything the decision reads but the model's prediction. */
  datatype Inputs = Inputs(
    exceptionFp: int, hashMatches: seq<HashMatch>, query: Query, kbCandidates: seq<Candidate>,
    seed: Option<SeedSignal>, stageC: seq<Candidate>, now: int, tauAuto: real)

  datatype Result = Result(
    group: Label, issueType: string, confidence: real, stage: Method, action: Action, reason: Option<Reason>,
    relevantItem: Option<int>, relevantSource: Source, relevantIsAuto: bool, matchedMode: Option<int>,
    probs: map<Label, real>, calibrated: Option<real>, stageC: seq<Candidate>)

  function DefaultLocator(base: Label): string {
    match base
    case Pb => "pb001"
    case Ab => "ab001"
    case Si => "si001"
    case Nd => "nd001"
    case Ti => "ti001"
    case NoLabel => ""
  }

  // ----- Stage A -----------------------------------------------------------

  /** Agreement on the un-masked evidence. */
  predicate Agrees(q: Query, m: HashMatch) {
    m.statusCodes == q.statusCodes && IdentifierJaccard(q.msgTokens, m.msgTokens) >= STAGE_A_MSG_JACCARD
  }

  function Eligible(q: Query, matches: seq<HashMatch>): seq<HashMatch> {
    Filter((m: HashMatch) => Agrees(q, m), matches)
  }

  /** What passes, match by match and in order: equal status codes, and half of the message terms. */
  lemma {:induction false} EligibleExactly(q: Query, ms: seq<HashMatch>, m: HashMatch)
    ensures Eligible(q, []) == []
    ensures Eligible(q, ms + [m]) == Eligible(q, ms) +
      if m.statusCodes == q.statusCodes && IdentifierJaccard(q.msgTokens, m.msgTokens) >= 0.5 then [m] else []
    ensures m in Eligible(q, ms) <==>
      m in ms && m.statusCodes == q.statusCodes && IdentifierJaccard(q.msgTokens, m.msgTokens) >= 0.5
  {
    FilterSnoc((m: HashMatch) => Agrees(q, m), ms, m);
  }

  predicate GateBlocked(fp: int, matches: seq<HashMatch>, q: Query) {
    fp != 0 && matches != [] && Eligible(q, matches) == []
  }

  /** When it was labelled; never labelled counts as the earliest. */
  function LabelTime(): HashMatch -> int {
    (m: HashMatch) => if m.labelTs.Some? then m.labelTs.value + 1 else 0
  }

  /** Python's `max`: the first of the newest. */
  function Newest(ms: seq<HashMatch>): (r: HashMatch)
    requires ms != []
    ensures r in ms && forall m | m in ms :: LabelTime()(m) <= LabelTime()(r)
  {
    if |ms| == 1 then ms[0]
    else
      var best := Newest(ms[..|ms| - 1]);
      assert ms == ms[..|ms| - 1] + [ms[|ms| - 1]];
      if LabelTime()(ms[|ms| - 1]) > LabelTime()(best) then ms[|ms| - 1] else best
  }

  /** Of several newest matches the first is taken. */
  lemma {:induction false} NewestIsFirst(ms: seq<HashMatch>) returns (k: nat)
    requires ms != []
    ensures k < |ms| && ms[k] == Newest(ms)
    ensures forall j :: 0 <= j < k ==> LabelTime()(ms[j]) < LabelTime()(ms[k])
    ensures forall j :: k < j < |ms| ==> LabelTime()(ms[j]) <= LabelTime()(ms[k])
  {
    var n := |ms| - 1;
    if n == 0 {
      k := 0;
    } else {
      k := NewestIsFirst(ms[..n]);
      if LabelTime()(ms[n]) > LabelTime()(ms[k]) { k := n; }
    }
  }

  function AgeDays(ts: Option<nat>, now: int): (r: real)
    ensures r >= 0.0
  {
    if ts.None? || now <= ts.value then 0.0 else (now - ts.value) as real / 86400.0
  }

  predicate Unanimous(ms: seq<HashMatch>) {
    forall i, j :: 0 <= i < j < |ms| ==> ms[i].issueType == ms[j].issueType
  }

  function StageA(fp: int, matches: seq<HashMatch>, q: Query, now: int): Option<HashMatch> {
    if fp == 0 || matches == [] then None
    else
      var ms := Eligible(q, matches);
      if ms == [] then None
      else
        var newest := Newest(ms);
        if AgeDays(newest.labelTs, now) > STAGE_A_MAX_AGE_DAYS then None
        else
          var human := newest.source.Rp? || newest.source.Human?;
          var singleHuman := |ms| == 1 && human && newest.confidence >= STAGE_A_HUMAN_MIN_CONF;
          if !((|ms| >= 2 && Unanimous(ms)) || singleHuman) then None
          else
            var base := BaseGroup(newest.issueType);
            if base == NoLabel then None
            else if base == Nd && newest.source.AiSuggested? then None
            else Some(newest)
  }

  lemma {:induction false} NewestOfPermutation(xs: seq<HashMatch>, ys: seq<HashMatch>)
    requires xs != [] && multiset(xs) == multiset(ys) && DistinctKeys(LabelTime(), xs)
    ensures ys != [] && Newest(xs) == Newest(ys)
  {
    assert |xs| == |multiset(xs)| == |ys|;
    var a, b := Newest(xs), Newest(ys);
    assert a in multiset(ys) && b in multiset(xs);
    assert LabelTime()(a) == LabelTime()(b);
    var i :| 0 <= i < |xs| && xs[i] == a;
    var j :| 0 <= j < |xs| && xs[j] == b;
  }

  lemma {:induction false} UnanimousOfPermutation(xs: seq<HashMatch>, ys: seq<HashMatch>)
    requires multiset(xs) == multiset(ys) && Unanimous(xs)
    ensures Unanimous(ys)
  {
    forall i, j | 0 <= i < j < |ys| ensures ys[i].issueType == ys[j].issueType {
      assert ys[i] in multiset(xs) && ys[j] in multiset(xs);
      var a :| 0 <= a < |xs| && xs[a] == ys[i];
      var b :| 0 <= b < |xs| && xs[b] == ys[j];
    }
  }

  /** Stage A sees only the matches that pass the gate: adding, removing or reordering the others, and,
      with distinct label times, reordering those that pass, never changes what is inherited. */
  lemma {:induction false} StageASeesOnlyEligible(fp: int, xs: seq<HashMatch>, ys: seq<HashMatch>, q: Query, now: int)
    requires multiset(Eligible(q, xs)) == multiset(Eligible(q, ys))
    requires DistinctKeys(LabelTime(), Eligible(q, xs))
    ensures StageA(fp, xs, q, now) == StageA(fp, ys, q, now)
  {
    var a, b := Eligible(q, xs), Eligible(q, ys);
    assert |a| == |multiset(a)| == |b|;
    if a != [] {
      NewestOfPermutation(a, b);
      if Unanimous(a) { UnanimousOfPermutation(a, b); }
      if Unanimous(b) { UnanimousOfPermutation(b, a); }
    }
  }

  /** Rejected matches do not count even when label times tie. */
  lemma {:induction false} RejectedMatchesDoNotCount(fp: int, xs: seq<HashMatch>, rejected: seq<HashMatch>,
      ys: seq<HashMatch>, q: Query, now: int)
    requires forall m | m in rejected ::
      m.statusCodes != q.statusCodes || IdentifierJaccard(q.msgTokens, m.msgTokens) < 0.5
    ensures StageA(fp, xs + rejected + ys, q, now) == StageA(fp, xs + ys, q, now)
  {
    EligibleWithoutRejected(xs, rejected, ys, q);
    NoneEligible(q);
  }

  lemma {:induction false} EligibleWithoutRejected(xs: seq<HashMatch>, rejected: seq<HashMatch>, ys: seq<HashMatch>,
      q: Query)
    requires forall m | m in rejected :: !Agrees(q, m)
    ensures Eligible(q, xs + rejected + ys) == Eligible(q, xs + ys)
  {
    hide Agrees, Filter;
    var p := (m: HashMatch) => Agrees(q, m);
    FilterAppend(p, xs + rejected, ys);
    FilterAppend(p, xs, rejected);
    FilterAppend(p, xs, ys);
    FilterAll(p, rejected);
    assert Filter(p, xs) + [] == Filter(p, xs);
  }

  /** Exactly when a match is inherited: the newest that passes the gate is at most 180 days old and names a base
      group, not as an automatic no-defect; and of the matches that pass, two or more agree on the issue type, or
      the only one is a person's with a confidence of 0.9. */
  lemma {:induction false} StageAInherits(fp: int, matches: seq<HashMatch>, q: Query, now: int)
    ensures var ms := Eligible(q, matches);
      StageA(fp, matches, q, now) == if
        && fp != 0 && ms != []
        && (Newest(ms).labelTs.Some? ==> now - Newest(ms).labelTs.value <= 180 * 86400)
        && BaseGroup(Newest(ms).issueType) in {Pb, Ab, Si, Nd}
        && !(BaseGroup(Newest(ms).issueType) == Nd && Newest(ms).source == AiSuggested)
        && (if |ms| >= 2 then forall i, j :: 0 <= i < j < |ms| ==> ms[i].issueType == ms[j].issueType
            else Newest(ms).source in {Rp, Human} && Newest(ms).confidence >= 0.9)
        then Some(Newest(ms)) else None
  {
    hide Agrees, BaseGroup, AgeDays, Newest, Eligible;
    NoneEligible(q);
    if Eligible(q, matches) != [] { AgeInSeconds(Newest(Eligible(q, matches)).labelTs, now); }
  }

  lemma {:induction false} AgeInSeconds(ts: Option<nat>, now: int)
    ensures AgeDays(ts, now) <= STAGE_A_MAX_AGE_DAYS <==> (ts.Some? ==> now - ts.value <= 180 * 86400)
  {
  }

  /** One dissenting voice among the matches that pass the gate stops the inherit, however many agree. */
  lemma {:induction false} DissentBlocks(fp: int, matches: seq<HashMatch>, q: Query, now: int, a: HashMatch,
      b: HashMatch)
    requires a in matches && b in matches && a.issueType != b.issueType
    requires a.statusCodes == b.statusCodes == q.statusCodes
    requires IdentifierJaccard(q.msgTokens, a.msgTokens) >= 0.5 && IdentifierJaccard(q.msgTokens, b.msgTokens) >= 0.5
    ensures StageA(fp, matches, q, now) == None
  {
    hide BaseGroup, AgeDays, Newest;
    StageAInherits(fp, matches, q, now);
    var ms := Eligible(q, matches);
    assert a in ms && b in ms;
    var i :| 0 <= i < |ms| && ms[i] == a;
    var j :| 0 <= j < |ms| && ms[j] == b;
    assert i < j || j < i;
  }

  lemma {:induction false} NoneEligible(q: Query)
    ensures Eligible(q, []) == []
  {
  }

  /** The inherited match has the status codes of the query and half of its message terms, and no match with
      both was labelled later. */
  lemma {:induction false} InheritedIsNewestEligible(fp: int, matches: seq<HashMatch>, q: Query, now: int)
    requires StageA(fp, matches, q, now).Some?
    ensures var r := StageA(fp, matches, q, now).value;
      && r in matches && r.statusCodes == q.statusCodes && IdentifierJaccard(q.msgTokens, r.msgTokens) >= 0.5
      && forall m | m in matches && m.statusCodes == q.statusCodes
                    && IdentifierJaccard(q.msgTokens, m.msgTokens) >= 0.5 && m.labelTs.Some? ::
           r.labelTs.Some? && m.labelTs.value <= r.labelTs.value
  {
    hide BaseGroup, AgeDays;
    var ms := Eligible(q, matches);
    assert Newest(ms) in ms;
    forall m | m in matches && Agrees(q, m) ensures LabelTime()(m) <= LabelTime()(Newest(ms)) { assert m in ms; }
  }

  // ----- Stage B -----------------------------------------------------------

  function Score(c: Candidate): real {
    KB_W_COS * (if c.cosine.Some? then c.cosine.value else 0.0) + KB_W_JACCARD * c.jaccardTemplates
      + KB_W_FP * (if c.sameExceptionFp then 1.0 else 0.0)
  }

  function ModeId(c: Candidate): int { if c.modeId.Some? then c.modeId.value else 0 }

  /** `a` scores above `b`; ties go to the smaller mode id. */
  predicate ScoresAbove(a: Candidate, b: Candidate) {
    Score(a) > Score(b) || (Score(a) == Score(b) && ModeId(a) < ModeId(b))
  }

  function BestKb(cs: seq<Candidate>): (r: Option<Candidate>)
    ensures r.Some? ==> r.value in cs && r.value.modeId.Some?
    ensures r.Some? ==> forall c | c in cs && c.modeId.Some? :: !ScoresAbove(c, r.value)
    ensures r.None? ==> forall c | c in cs :: c.modeId.None?
  {
    if cs == [] then None
    else
      var last := cs[|cs| - 1];
      var best := BestKb(cs[..|cs| - 1]);
      assert cs == cs[..|cs| - 1] + [last];
      if last.modeId.Some? && (best.None? || ScoresAbove(last, best.value)) then Some(last) else best
  }

  predicate KbShortCircuit(c: Candidate) {
    c.confirmed && c.purity >= KB_STRONG_PURITY && c.support >= KB_STRONG_SUPPORT && Score(c) >= KB_STRONG_SCORE
  }

  /** The mode that is considered scores highest, and among equals has the smallest id. */
  lemma {:induction false} BestKbScores(cs: seq<Candidate>, c: Candidate)
    requires c in cs && c.modeId.Some?
    ensures var best := BestKb(cs);
      && best.Some? && best.value in cs && best.value.modeId.Some?
      && Score(c) <= Score(best.value)
      && (Score(c) == Score(best.value) ==> best.value.modeId.value <= c.modeId.value)
  {
    hide Score;
    assert BestKb(cs).Some? ==> !ScoresAbove(c, BestKb(cs).value);
  }

  // ----- policy bands and the assembled decision ----------------------------

  function BandAction(confidence: real, shortCircuit: bool, tauAuto: real): Action {
    if shortCircuit || confidence >= tauAuto then Auto
    else if confidence >= TAU_SUGGEST then Suggest
    else Abstain
  }

  /** What the decision layer reads back of the feature snapshot. */
  datatype Snapshot = Snapshot(statusCodesPresent: bool, statusCodesMatchTop1: bool, hashGateBlocked: bool)

  function ExtractFeatures(i: Inputs): Snapshot {
    Snapshot(
      i.query.statusCodes != {},
      i.hashMatches != [] && i.query.statusCodes != {} && i.query.statusCodes == i.hashMatches[0].statusCodes,
      GateBlocked(i.exceptionFp, i.hashMatches, i.query))
  }

  function Decided(i: Inputs, group: Label, issueType: string, confidence: real, stage: Method,
      shortCircuit: bool): Result {
    var action := if group == Ti then Abstain else BandAction(confidence, shortCircuit, i.tauAuto);
    Result(group, issueType, confidence, stage, action, None, None, NoSource, false, None,
           if group == Ti then map[] else map[group := confidence], None, i.stageC)
  }

  function Declined(i: Inputs, confidence: real, stage: Method, reason: Reason): Result {
    Decided(i, Ti, "ti", confidence, stage, false).(reason := Some(reason))
  }

  /** The first Stage-C candidate with an item and the predicted base group. */
  function PickRelevant(cs: seq<Candidate>, base: Label): (r: Option<Candidate>)
    ensures r.Some? ==> r.value in cs && r.value.itemId.Some? && r.value.Base() == base
    ensures r.None? ==> forall c | c in cs && c.itemId.Some? :: c.Base() != base
  {
    if cs == [] then None
    else if cs[0].itemId.Some? && cs[0].Base() == base then Some(cs[0])
    else PickRelevant(cs[1..], base)
  }

  /** Of several fitting candidates the first is taken. */
  lemma {:induction false} PickRelevantIsFirst(cs: seq<Candidate>, base: Label) returns (k: nat)
    requires PickRelevant(cs, base).Some?
    ensures k < |cs| && cs[k] == PickRelevant(cs, base).value
    ensures forall j :: 0 <= j < k ==> cs[j].itemId.None? || cs[j].Base() != base
  {
    if cs[0].itemId.Some? && cs[0].Base() == base {
      k := 0;
    } else {
      k := PickRelevantIsFirst(cs[1..], base);
      k := k + 1;
    }
  }

  /** The human-confirmed exact-hash neighbour that lifts an abstain to the suggest floor. */
  predicate Floor(i: Inputs) {
    && i.stageC != []
    && var top1, f := i.stageC[0], ExtractFeatures(i);
    && top1.sameErrorHash && (top1.source.Rp? || top1.source.Human?)
    && !f.hashGateBlocked
    && (f.statusCodesPresent ==> f.statusCodesMatchTop1)
    && IdentifierJaccard(i.query.msgTokens, top1.msgTokens) >= STAGE_A_MSG_JACCARD
    && top1.Base() in BASE_LABELS
  }

  /** The top neighbour shares no structural evidence with the query. */
  predicate BoilerplateOnly(i: Inputs) {
    && i.stageC != []
    && var top1 := i.stageC[0];
    && !(top1.sameExceptionFp || top1.sameErrorHash || top1.jaccardTemplates > 0.0)
    && IdentifierJaccard(i.query.msgTokens, top1.msgTokens) < STAGE_A_MSG_JACCARD
  }

  function AllProbs(g: Gbm): map<Label, real> {
    map b | b in BASE_LABELS :: if b in g.probs then g.probs[b] else 0.0
  }

  function GbmResult(i: Inputs, g: Gbm): Result {
    var p := Calibration.Clamp(g.maxProb);
    var group := if g.group in BASE_LABELS then g.group else Ti;
    var r :=
      if group == Ti || p < TAU_SUGGEST then
        if Floor(i) then
          var top1 := i.stageC[0];
          var locator := if top1.Locator() != "" then top1.Locator() else DefaultLocator(top1.Base());
          Decided(i, top1.Base(), locator, TAU_SUGGEST, ByGbm, false)
            .(relevantItem := top1.itemId, relevantSource := top1.source)
        else Declined(i, p, ByGbm, GbmBelowSuggest)
      else if p < i.tauAuto && BoilerplateOnly(i) then Declined(i, p, ByGbm, GbmBoilerplateOnlyNeighbor)
      else
        var cand := PickRelevant(i.stageC, group);
        var locator := if cand.Some? && cand.value.Locator() != "" then cand.value.Locator() else DefaultLocator(group);
        Decided(i, group, locator, p, ByGbm, false)
          .(relevantItem := if cand.Some? then cand.value.itemId else None,
            relevantSource := if cand.Some? then cand.value.source else NoSource);
    r.(probs := AllProbs(g), calibrated := Some(p))
  }

  /** Stage A, then the knowledge-base short circuit: neither looks at the model. */
  function ShortCircuit(i: Inputs): Option<Result> {
    var inherit := StageA(i.exceptionFp, i.hashMatches, i.query, i.now);
    var kb := BestKb(i.kbCandidates);
    if inherit.Some? then
      var m := inherit.value;
      Some(Decided(i, BaseGroup(m.issueType), m.issueType, STAGE_A_CONFIDENCE, ByHash, true)
        .(relevantItem := Some(m.itemId), relevantSource := m.source, relevantIsAuto := m.isAuto))
    else if kb.Some? && KbShortCircuit(kb.value) then
      Some(Decided(i, kb.value.Base(), kb.value.Locator(), Min(KB_CONFIDENCE_CAP, kb.value.purity * Score(kb.value)),
        ByKb, true)
        .(matchedMode := Some(ModeId(kb.value))))
    else None
  }

  /** `gbm` is what the serving hook returns; `None` on a cold install. */
  function Decide(i: Inputs, gbm: Option<Gbm>): Result {
    var short := ShortCircuit(i);
    if short.Some? then short.value
    else if gbm.Some? then GbmResult(i, gbm.value)
    else if i.seed.Some? && i.seed.value.confidence >= SEED_PRIOR_MIN_CONF then
      var base := BaseGroup(i.seed.value.group);
      Decided(i, base, DefaultLocator(base), i.seed.value.confidence, ByRule, false)
    else Declined(i, 0.0, ByRule, NoConfidentRule)
  }

  // ----- which path decides, and what it says ---------------------------------

  /** A mode decides exactly if nothing is inherited and the best one is confirmed, pure to 0.95, supported ten
      times and scores 0.85, six tenths of it for the cosine, a quarter for the templates, the rest for the
      fingerprint. */
  lemma {:induction false} KbDecidesIff(i: Inputs, gbm: Option<Gbm>)
    ensures var best := BestKb(i.kbCandidates);
      Decide(i, gbm).stage == ByKb <==>
        && StageA(i.exceptionFp, i.hashMatches, i.query, i.now) == None
        && best.Some? && best.value.confirmed && best.value.purity >= 0.95 && best.value.support >= 10
        && (if best.value.cosine.Some? then 0.6 * best.value.cosine.value else 0.0)
           + 0.25 * best.value.jaccardTemplates + (if best.value.sameExceptionFp then 0.15 else 0.0) >= 0.85
  {
    hide BaseGroup, StageA, BestKb, PickRelevant, Floor, BoilerplateOnly;
  }

  /** It is reported with the purity times the score for confidence, up to 0.93, and without a neighbour. */
  lemma {:induction false} KbReports(i: Inputs, gbm: Option<Gbm>)
    requires Decide(i, gbm).stage == ByKb
    ensures BestKb(i.kbCandidates).Some?
    ensures var best, r := BestKb(i.kbCandidates).value, Decide(i, gbm);
      && r.group == BaseGroup(best.Locator()) && r.issueType == best.Locator() && r.matchedMode == best.modeId
      && r.relevantItem == None
      && r.confidence == Min(0.93, best.purity * Score(best))
  {
    hide BaseGroup, StageA, BestKb, PickRelevant, Floor, BoilerplateOnly, Score, Min;
  }

  /** An inherit is reported as what was inherited, at 0.95. */
  lemma {:induction false} InheritDecidesIff(i: Inputs, gbm: Option<Gbm>)
    ensures Decide(i, gbm).stage == ByHash <==> StageA(i.exceptionFp, i.hashMatches, i.query, i.now).Some?
    ensures Decide(i, gbm).stage == ByHash ==>
      var m, r := StageA(i.exceptionFp, i.hashMatches, i.query, i.now).value, Decide(i, gbm);
      && r.group == BaseGroup(m.issueType) && r.issueType == m.issueType && r.confidence == 0.95 && r.action == Auto
      && r.relevantItem == Some(m.itemId) && r.relevantSource == m.source && r.relevantIsAuto == m.isAuto
  {
    hide BaseGroup, Eligible, Newest, BestKb, PickRelevant, Floor, BoilerplateOnly;
  }

  /** Where neither short circuit applies and there is no model, a seed of 0.7 decides with its own group. */
  lemma {:induction false} ColdDecision(i: Inputs)
    requires Decide(i, None).stage !in {ByHash, ByKb}
    ensures var r := Decide(i, None);
      if i.seed.Some? && i.seed.value.confidence >= 0.7
      then r.group == BaseGroup(i.seed.value.group) && r.confidence == i.seed.value.confidence && r.reason == None
      else r.group == Ti && r.confidence == 0.0 && r.action == Abstain && r.reason == Some(NoConfidentRule)
  {
    hide BaseGroup, StageA, BestKb, PickRelevant;
  }

  /** A prediction below 0.45, or for no base group, becomes the label of the top neighbour exactly if that
      neighbour has the same error hash and a person's base-group label, some exact match passes the gate or none
      is there, the status codes of the query, if any, are those of the first match, and half of the message
      terms agree; it is then a suggestion's worth of confidence, and otherwise an abstention. */
  lemma {:induction false} PromotedIff(i: Inputs, g: Gbm)
    requires g.maxProb < 0.45 || g.group !in {Pb, Ab, Si, Nd}
    ensures var r := GbmResult(i, g);
      if && i.stageC != []
         && i.stageC[0].sameErrorHash && i.stageC[0].source in {Rp, Human}
         && (i.exceptionFp != 0 && i.hashMatches != [] ==> exists m | m in i.hashMatches ::
               m.statusCodes == i.query.statusCodes && IdentifierJaccard(i.query.msgTokens, m.msgTokens) >= 0.5)
         && (i.query.statusCodes != {} ==>
               i.hashMatches != [] && i.hashMatches[0].statusCodes == i.query.statusCodes)
         && IdentifierJaccard(i.query.msgTokens, i.stageC[0].msgTokens) >= 0.5
         && BaseGroup(i.stageC[0].Locator()) in {Pb, Ab, Si, Nd}
      then
        && r.group == BaseGroup(i.stageC[0].Locator()) && r.issueType == i.stageC[0].Locator()
        && r.confidence == 0.45 && r.reason == None
        && r.relevantItem == i.stageC[0].itemId && r.relevantSource == i.stageC[0].source
      else r.group == Ti && r.issueType == "ti" && r.action == Abstain && r.reason == Some(GbmBelowSuggest)
           && r.relevantItem == None
  {
    hide IdentifierJaccard, PickRelevant, BaseGroup, Eligible;
    EmptyHasNoGroup();
    GateBlockedIff(i.exceptionFp, i.hashMatches, i.query);
  }

  /** Every answer of the model, promoted, withheld or not, carries the probability it was calibrated to and what the
      model gave each base group, and the neighbours it was given. */
  lemma {:induction false} GbmReports(i: Inputs, g: Gbm)
    ensures var r := GbmResult(i, g);
      && r.stage == ByGbm && r.matchedMode == None && r.stageC == i.stageC
      && r.calibrated == Some(if g.maxProb < 0.0 then 0.0 else if g.maxProb > 1.0 then 1.0 else g.maxProb)
      && r.probs.Keys == {Pb, Ab, Si, Nd}
      && forall b <- {Pb, Ab, Si, Nd} :: r.probs[b] == if b in g.probs then g.probs[b] else 0.0
  {
    hide Floor, BoilerplateOnly, PickRelevant;
  }

  /** The gate is blocked exactly if there are exact matches, and none has both the status codes and the terms. */
  lemma {:induction false} GateBlockedIff(fp: int, matches: seq<HashMatch>, q: Query)
    ensures GateBlocked(fp, matches, q) <==> fp != 0 && matches != [] && forall m | m in matches ::
      !(m.statusCodes == q.statusCodes && IdentifierJaccard(q.msgTokens, m.msgTokens) >= 0.5)
  {
    hide IdentifierJaccard;
    var ms := Eligible(q, matches);
    if ms != [] { assert ms[0] in ms; }
    forall m | m in matches && Agrees(q, m) ensures ms != [] { assert m in ms; }
  }

  /** A prediction of 0.45 or more for a base group is withheld exactly if it is below the auto threshold and the
      top neighbour shares no fingerprint, no error hash, no template and less than half of the message terms;
      otherwise it stands, with the first neighbour of its group. */
  lemma {:induction false} DemotedIff(i: Inputs, g: Gbm)
    requires g.maxProb >= 0.45 && g.group in {Pb, Ab, Si, Nd}
    ensures var r := GbmResult(i, g);
      var p := if g.maxProb > 1.0 then 1.0 else g.maxProb;
      if && p < i.tauAuto && i.stageC != []
         && !i.stageC[0].sameExceptionFp && !i.stageC[0].sameErrorHash && i.stageC[0].jaccardTemplates <= 0.0
         && IdentifierJaccard(i.query.msgTokens, i.stageC[0].msgTokens) < 0.5
      then r.group == Ti && r.action == Abstain && r.reason == Some(GbmBoilerplateOnlyNeighbor) &&
        r.relevantItem == None
      else
        var near := PickRelevant(i.stageC, g.group);
        && r.group == g.group && r.confidence == p && r.reason == None
        && r.relevantItem == (if near.Some? then near.value.itemId else None)
        && r.issueType == if near.Some? then near.value.Locator() else DefaultLocator(g.group)
  {
    hide IdentifierJaccard, BaseGroup, Floor;
    EmptyHasNoGroup();
  }

  // ----- results about the decision -----------------------------------------

  function Rank(a: Action): nat {
    match a
    case Abstain => 0
    case Suggest => 1
    case Auto => 2
  }

  /** The guards cannot both apply: one needs an equal error hash on the top neighbour, one forbids it. */
  lemma {:induction false} GuardsExclude(i: Inputs)
    ensures !(Floor(i) && BoilerplateOnly(i))
  {
  }

  /** With everything else fixed, a higher calibrated probability never lowers the action. */
  lemma {:induction false} GbmActionMonotone(i: Inputs, g: Gbm, p: real)
    requires g.maxProb <= p
    ensures Rank(GbmResult(i, g).action) <= Rank(GbmResult(i, g.(maxProb := p)).action)
  {
    GuardsExclude(i);
    assert Calibration.Clamp(g.maxProb) <= Calibration.Clamp(p);
  }

  /** The same for the whole decision, and for the raw probability behind a fitted calibrator. */
  lemma {:induction false} ActionMonotoneInRawProbability(i: Inputs, g: Gbm, c: Calibration.Calibrator, raw: real,
      raw': real)
    requires Calibration.Fitted(c) && raw <= raw'
    ensures Rank(Decide(i, Some(g.(maxProb := Calibration.Predict(c, raw)))).action)
         <= Rank(Decide(i, Some(g.(maxProb := Calibration.Predict(c, raw')))).action)
  {
    hide ShortCircuit, GbmResult, Calibration.Predict;
    Calibration.PredictMonotone(c, raw, raw');
    GbmActionMonotone(i, g.(maxProb := Calibration.Predict(c, raw)), Calibration.Predict(c, raw'));
  }

  /** A gate that rejects every exact-hash match rules out both the inherit and the later promotion. */
  lemma {:induction false} BlockedGateExcludesInheritAndFloor(i: Inputs)
    requires GateBlocked(i.exceptionFp, i.hashMatches, i.query)
    ensures StageA(i.exceptionFp, i.hashMatches, i.query, i.now) == None && !Floor(i)
    ensures forall gbm :: Decide(i, gbm).stage != ByHash
    ensures forall gbm :: Decide(i, gbm).stage == ByGbm && Calibration.Clamp(gbm.value.maxProb) < TAU_SUGGEST ==>
      Decide(i, gbm).action == Abstain
  {
  }

  /** Whatever is applied automatically has at least the confidence of a suggestion, even with a lower tau_auto. */
  lemma {:induction false} AutoIsConfident(i: Inputs, gbm: Option<Gbm>)
    requires Decide(i, gbm).action == Auto
    ensures Decide(i, gbm).confidence >= TAU_SUGGEST && Decide(i, gbm).group != Ti
  {
    var mode := BestKb(i.kbCandidates);
    if mode.Some? && KbShortCircuit(mode.value) { Product(mode.value.purity, Score(mode.value)); }
  }

  /** The promotion to the suggest floor becomes an auto-label exactly when tau_auto is not above tau_suggest. */
  lemma {:induction false} FloorIsAutoIff(i: Inputs, g: Gbm)
    requires Floor(i) && (g.group !in BASE_LABELS || Calibration.Clamp(g.maxProb) < TAU_SUGGEST)
    ensures GbmResult(i, g).group in BASE_LABELS && GbmResult(i, g).confidence == TAU_SUGGEST
    ensures GbmResult(i, g).action == Auto <==> i.tauAuto <= TAU_SUGGEST
    ensures i.tauAuto > TAU_SUGGEST ==> GbmResult(i, g).action == Suggest
  {
  }

  /** A promoted abstain that is applied automatically: with tau_auto at the suggest threshold, the neighbour of
      a model that is nearly sure of nothing labels the item. */
  lemma {:induction false} FloorCanBeAuto() returns (i: Inputs, g: Gbm)
    ensures Floor(i) && g.maxProb < TAU_SUGGEST && i.tauAuto == TAU_SUGGEST
    ensures ShortCircuit(i) == None && Decide(i, Some(g)).action == Auto
  {
    var top := Candidate(Some(7), None, Some("pb001"), Human, Some(1.0), 0.0, 0.0, true, false, {}, false, 0.0, 0);
    i := Inputs(0, [], Query({}, {}), [], None, [top], 0, TAU_SUGGEST);
    g := Gbm(Ab, 0.1, map[]);
    assert IdentifierTokens({}) == {};
    assert BaseGroup("pb001") == Pb;
  }

  /** The decision reaches the auto band with a label the model does not know: by a strong mode without a
      recognised locator, or on a cold install by a confident seed of an unrecognised group. */
  predicate LabelSlips(i: Inputs, gbm: Option<Gbm>) {
    && StageA(i.exceptionFp, i.hashMatches, i.query, i.now).None?
    && var mode := BestKb(i.kbCandidates);
    if mode.Some? && KbShortCircuit(mode.value) then mode.value.Base() == NoLabel
    else
      && gbm.None? && i.seed.Some? && BaseGroup(i.seed.value.group) == NoLabel
      && i.seed.value.confidence >= SEED_PRIOR_MIN_CONF && i.seed.value.confidence >= i.tauAuto
  }

  /** Exactly when an auto decision carries no base group. */
  lemma {:induction false} AutoWithoutLabelIff(i: Inputs, gbm: Option<Gbm>)
    ensures Decide(i, gbm).action == Auto && Decide(i, gbm).group !in BASE_LABELS <==> LabelSlips(i, gbm)
  {
    hide BaseGroup, Newest, Eligible, Score, BestKb;
    ActionMatchesBand(i, gbm);
  }

  /** The locator a decision hands out belongs to the group it decided; where the group is none, so does the
      locator. */
  lemma {:induction false} LocatorFitsGroup(i: Inputs, gbm: Option<Gbm>)
    requires Decide(i, gbm).group != Ti
    ensures BaseGroup(Decide(i, gbm).issueType) == Decide(i, gbm).group
  {
    hide Newest, Eligible, Score, BestKb, BaseGroup, IdentifierJaccard;
    forall base ensures base in BASE_LABELS ==> BaseGroup(DefaultLocator(base)) == base { DefaultFitsGroup(base); }
    EmptyHasNoGroup();
  }

  lemma {:induction false} DefaultFitsGroup(base: Label)
    ensures base in BASE_LABELS ==> BaseGroup(DefaultLocator(base)) == base
  {
  }

  lemma {:induction false} EmptyHasNoGroup()
    ensures BaseGroup("") == NoLabel
  {
  }

  /** A confirmed mode that carries no locator is applied, with nothing for a label. */
  lemma {:induction false} ModeCanSlip(gbm: Option<Gbm>) returns (i: Inputs)
    ensures LabelSlips(i, gbm) && Decide(i, gbm).stage == ByKb && Decide(i, gbm).issueType == ""
  {
    var mode := Candidate(None, Some(1), None, NoSource, Some(1.0), 0.0, 1.0, false, true, {}, true, 1.0, 10);
    i := Inputs(0, [], Query({}, {}), [mode], None, [], 0, TAU_AUTO);
    assert [mode][..0] == [];
    assert BestKb([mode]) == Some(mode);
  }

  /** So is a confident seed of an unrecognised group. */
  lemma {:induction false} SeedCanSlip() returns (i: Inputs)
    ensures LabelSlips(i, None) && Decide(i, None).stage == ByRule && Decide(i, None).issueType == ""
  {
    i := Inputs(0, [], Query({}, {}), [], Some(SeedSignal("xx", 0.9)), [], 0, TAU_AUTO);
    assert BaseGroup("xx") == NoLabel;
  }

  /** What a short circuit implies: a close centroid, and either the same exception fingerprint or a perfect
      match in both cosine and templates; its confidence clears the default auto band and stays under the cap. */
  lemma {:induction false} KbEvidence(i: Inputs, gbm: Option<Gbm>)
    requires Decide(i, gbm).stage == ByKb
    requires forall c | c in i.kbCandidates :: c.jaccardTemplates <= 1.0
    requires forall c | c in i.kbCandidates && c.cosine.Some? :: c.cosine.value <= 1.0
    ensures var c := BestKb(i.kbCandidates).value;
      && c.cosine.Some? && c.cosine.value >= 0.75
      && (c.sameExceptionFp || (c.cosine.value == 1.0 && c.jaccardTemplates == 1.0))
      && TAU_AUTO < 0.8075 <= Decide(i, gbm).confidence <= KB_CONFIDENCE_CAP
  {
    var c := BestKb(i.kbCandidates).value;
    Product(c.purity, Score(c));
  }

  lemma {:induction false} Product(purity: real, score: real)
    requires purity >= KB_STRONG_PURITY && score >= KB_STRONG_SCORE
    ensures purity * score >= 0.8075
  {
    assert (purity - 0.95) * score >= 0.0;
  }

  /** Nothing but an exact-hash inherit or a strong mode labels outside the bands. */
  lemma {:induction false} ActionMatchesBand(i: Inputs, gbm: Option<Gbm>)
    ensures var r := Decide(i, gbm);
      && (r.action == Auto <==> r.group != Ti && (r.stage == ByHash || r.stage == ByKb || r.confidence >= i.tauAuto))
      && (r.action == Abstain <==>
            r.group == Ti || (r.stage !in {ByHash, ByKb} && r.confidence < i.tauAuto && r.confidence < 0.45))
      && (r.reason.Some? ==> r.action == Abstain)
  {
  }
}
