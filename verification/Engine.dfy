/**
 The execution of one LLM role (class LlmEngine in src/analyzer_ng/llm/engine.py): cache lookup with
 negative rows, the circuit breaker, two seeds, the repair of a cut answer, and the cache write.

 The sidecar is `world`: the k-th chat call ever made is answered by `world(k)`. A run is given as a
 function on state values, class `LlmEngine` is the code of the source proved equal to it, and the
 results are about single runs, pairs of runs and whole lifetimes.
 */
module Engine {
  import opened Wrappers
  import opened TextScreen
  import Breaker

  datatype Outcome = Ok | SchemaFail | ValidationFail | Timeout | BreakerOpen

  /** What a chat call brings back; `parsed` is absent when the content is not a JSON object. */
  datatype Reply =
    | Down
    | Answer(toolCalls: bool, parsed: Option<Body>, finish: Option<string>, latency: nat)

  datatype Exchange = Exchange(reply: Reply, done: real)

  /** A role applied to an input: its cache key, its validators and its settings. */
  datatype Job = Job(
    key: int, schema: Body -> bool, postValidate: Body -> bool, freeText: seq<string>, numPredict: nat,
    ttl: real, negativeTtl: Option<real>, templateHash: Option<int>)

  datatype Row = Row(output: Body, templateHash: Option<int>, createdAt: real)

  datatype Request = Request(seed: nat, numPredict: nat)

  datatype Event = Event(
    itemId: int, key: int, cacheHit: bool, outcome: Outcome, output: Option<Body>, latency: Option<nat>)

  datatype State = State(breaker: Breaker.View, cache: map<int, Row>, sent: seq<Request>, events: seq<Event>)

  datatype Config = Config(breaker: Breaker.Config, world: nat -> Exchange)

  datatype RoleResult = RoleResult(outcome: Outcome, output: Option<Body>, cacheHit: bool)

  /** The result of one call, or of the calls so far. */
  datatype Tried = Tried(outcome: Outcome, output: Option<Body>, latency: Option<nat>, finish: Option<string>)

  // ----- negative rows -------------------------------------------------------

  const NEGATIVE := "negative"

  predicate Cacheable(o: Outcome) { o.ValidationFail? }

  function Named(o: Outcome): string {
    match o
    case Ok => "ok"
    case SchemaFail => "schema_fail"
    case ValidationFail => "validation_fail"
    case Timeout => "timeout"
    case BreakerOpen => "breaker_open"
  }

  function NegativePayload(o: Outcome): Body {
    map[NEGATIVE := Flag(true), "outcome" := Text(Named(o))]
  }

  predicate IsNegative(output: Body) {
    NEGATIVE in output && output[NEGATIVE] == Flag(true)
  }

  // ----- one run, as a function ------------------------------------------------

  function GetFresh(s: State, key: int, ttl: real, now: real): Option<Body> {
    if key in s.cache && s.cache[key].createdAt >= now - ttl then Some(s.cache[key].output) else None
  }

  /** A stored outcome is reported only if it is one that may be stored; that leaves one. */
  function FreshNegative(s: State, job: Job, now: real): Option<Outcome> {
    if job.negativeTtl.None? then None
    else
      var row := GetFresh(s, job.key, job.negativeTtl.value, now);
      if row.None? || !IsNegative(row.value) then None else Some(ValidationFail)
  }

  function Judge(job: Job, reply: Reply): Tried {
    match reply
    case Down => Tried(Timeout, None, None, None)
    case Answer(toolCalls, parsed, finish, latency) =>
      if toolCalls || parsed.None? || !job.schema(parsed.value) then Tried(SchemaFail, None, Some(latency), finish)
      else if !job.postValidate(parsed.value) then Tried(ValidationFail, None, Some(latency), finish)
      else Tried(Ok, parsed, Some(latency), finish)
  }

  function AfterCall(c: Config, s: State, request: Request): State {
    var x := c.world(|s.sent|);
    s.(breaker := if x.reply.Down? then Breaker.AfterFailure(c.breaker, s.breaker, x.done)
                  else Breaker.AfterSuccess(c.breaker, s.breaker),
       sent := s.sent + [request])
  }

  function Attempt(c: Config, s: State, job: Job, request: Request): (State, Tried) {
    (AfterCall(c, s, request), Judge(job, c.world(|s.sent|).reply))
  }

  /** Seed 7, and seed 8 once if the body was unusable. */
  function Generate(c: Config, s: State, job: Job): (State, Tried) {
    var (s1, first) := Attempt(c, s, job, Request(7, job.numPredict));
    if first.outcome.SchemaFail? || first.outcome.ValidationFail? then
      Attempt(c, s1, job, Request(8, job.numPredict))
    else (s1, first)
  }

  /** A cut answer is asked for once more with twice the budget; what is still cut is marked. */
  function ResolveTruncation(c: Config, s: State, job: Job, output: Body, finish: Option<string>): (State, Body) {
    if TruncatedFields(job.freeText, output, finish) == [] then (s, output)
    else
      var (s1, again) := Attempt(c, s, job, Request(7, job.numPredict * 2));
      if again.outcome.Ok? && again.output.Some? then (s1, Screened(job.freeText, again.output.value, again.finish))
      else (s1, Screened(job.freeText, output, finish))
  }

  /** The store stamps the row when the last call was done. */
  function Put(c: Config, s: State, job: Job, output: Body, hash: Option<int>): State
    requires s.sent != []
  {
    s.(cache := s.cache[job.key := Row(output, hash, c.world(|s.sent| - 1).done)])
  }

  function Finish(s: State, job: Job, itemId: int, r: RoleResult, latency: Option<nat>): (State, RoleResult) {
    (s.(events := s.events + [Event(itemId, job.key, r.cacheHit, r.outcome, if r.outcome.Ok? then r.output
      else None, latency)]),
     r)
  }

  /** The part of a run that follows a miss and an open door. */
  function Ask(c: Config, s: State, job: Job, itemId: int): (State, RoleResult) {
    var (s1, t) := Generate(c, s, job);
    if t.outcome.Ok? && t.output.Some? then
      var (s2, output) := ResolveTruncation(c, s1, job, t.output.value, t.finish);
      Finish(Put(c, s2, job, output, job.templateHash), job, itemId, RoleResult(Ok, Some(output), false), t.latency)
    else if Cacheable(t.outcome) && job.negativeTtl.Some? then
      Finish(Put(c, s1, job, NegativePayload(t.outcome), None), job, itemId, RoleResult(t.outcome, t.output, false),
        t.latency)
    else Finish(s1, job, itemId, RoleResult(t.outcome, t.output, false), t.latency)
  }

  function Run(c: Config, s: State, job: Job, itemId: int, now: real): (State, RoleResult) {
    var cached := GetFresh(s, job.key, job.ttl, now);
    if cached.Some? && !IsNegative(cached.value) then
      Finish(s, job, itemId, RoleResult(Ok, cached, true), Some(0))
    else if cached.Some? && FreshNegative(s, job, now).Some? then
      Finish(s, job, itemId, RoleResult(FreshNegative(s, job, now).value, None, true), Some(0))
    else
      var s1 := s.(breaker := Breaker.AfterAllow(s.breaker, now));
      if !Breaker.Allowed(s.breaker, now) then Finish(s1, job, itemId, RoleResult(BreakerOpen, None, false), None)
      else Ask(c, s1, job, itemId)
  }

  // ----- the engine ------------------------------------------------------------

  class LlmEngine {
    const c: Config
    const breaker: Breaker.CircuitBreaker
    var cache: map<int, Row>
    var sent: seq<Request>
    var events: seq<Event>

    ghost predicate Valid()
      reads this
    {
      breaker.c == c.breaker
    }

    function Now(): State
      reads this, breaker
    {
      State(breaker.Now(), cache, sent, events)
    }

    constructor (c: Config, breaker: Breaker.CircuitBreaker)
      requires breaker.c == c.breaker
      ensures Valid() && this.c == c && this.breaker == breaker
      ensures Now() == State(breaker.Now(), map[], [], [])
    {
      this.c, this.breaker := c, breaker;
      cache, sent, events := map[], [], [];
    }

    /** One chat call: a transport failure counts against the breaker, any response heals it. */
    method TryOnce(job: Job, seed: nat, numPredict: nat) returns (t: Tried)
      requires Valid()
      modifies this`sent, breaker
      ensures Valid()
      ensures (Now(), t) == Attempt(c, old(Now()), job, Request(seed, numPredict))
    {
      var x := c.world(|sent|);
      sent := sent + [Request(seed, numPredict)];
      if x.reply.Down? {
        breaker.RecordFailure(x.done);
        return Tried(Timeout, None, None, None);
      }
      breaker.RecordResponse();
      var latency, finish := Some(x.reply.latency), x.reply.finish;
      if x.reply.toolCalls || x.reply.parsed.None? {
        return Tried(SchemaFail, None, latency, finish);
      }
      var parsed := x.reply.parsed.value;
      if !job.schema(parsed) { return Tried(SchemaFail, None, latency, finish); }
      if !job.postValidate(parsed) { return Tried(ValidationFail, None, latency, finish); }
      t := Tried(Ok, Some(parsed), latency, finish);
    }

    method Resolve(job: Job, output: Body, finish: Option<string>) returns (r: Body)
      requires Valid()
      modifies this`sent, breaker
      ensures Valid()
      ensures (Now(), r) == ResolveTruncation(c, old(Now()), job, output, finish)
    {
      hide Breaker.AfterFailure, Breaker.AfterSuccess, Judge, MarkTruncated, TruncatedFields, AfterCall;
      var fields := FindTruncated(job.freeText, output, finish);
      if fields == [] { return output; }
      var again := TryOnce(job, 7, job.numPredict * 2);
      if again.outcome.Ok? && again.output.Some? {
        var more := FindTruncated(job.freeText, again.output.value, again.finish);
        if more == [] { return again.output.value; }
        r := Mark(again.output.value, more);
        return;
      }
      r := Mark(output, fields);
    }

    method NegativeOutcome(job: Job, now: real) returns (r: Option<Outcome>)
      ensures r == FreshNegative(Now(), job, now)
    {
      if job.negativeTtl.None? { return None; }
      var row := GetFresh(Now(), job.key, job.negativeTtl.value, now);
      if row.None? || !IsNegative(row.value) { return None; }
      r := Some(ValidationFail);
    }

    method Record(job: Job, itemId: int, r: RoleResult, latency: Option<nat>)
      modifies this`events
      ensures (Now(), r) == Finish(old(Now()), job, itemId, r, latency)
    {
      events := events + [Event(itemId, job.key, r.cacheHit, r.outcome, if r.outcome.Ok? then r.output
        else None, latency)];
    }

    method Execute(job: Job, itemId: int, now: real) returns (r: RoleResult)
      requires Valid()
      modifies this, breaker
      ensures Valid()
      ensures (Now(), r) == Run(c, old(Now()), job, itemId, now)
    {
      hide Judge, AfterCall, Breaker.AfterFailure, Breaker.AfterSuccess, Breaker.AfterAllow, Breaker.Allowed,
        ResolveTruncation, FreshNegative, Screened;
      var cached := GetFresh(Now(), job.key, job.ttl, now);
      if cached.Some? && IsNegative(cached.value) {
        var outcome := NegativeOutcome(job, now);
        if outcome.Some? {
          r := RoleResult(outcome.value, None, true);
          Record(job, itemId, r, Some(0));
          return;
        }
      } else if cached.Some? {
        r := RoleResult(Ok, cached, true);
        Record(job, itemId, r, Some(0));
        return;
      }
      var allowed := breaker.Allow(now);
      if !allowed {
        r := RoleResult(BreakerOpen, None, false);
        Record(job, itemId, r, None);
        return;
      }
      r := Produce(job, itemId);
    }

    method Produce(job: Job, itemId: int) returns (r: RoleResult)
      requires Valid()
      modifies this, breaker
      ensures Valid()
      ensures (Now(), r) == Ask(c, old(Now()), job, itemId)
    {
      hide Judge, Breaker.AfterFailure, Breaker.AfterSuccess, Screened, TruncatedFields;
      var t := TryOnce(job, 7, job.numPredict);
      if t.outcome.SchemaFail? || t.outcome.ValidationFail? {
        t := TryOnce(job, 8, job.numPredict);
      }
      if t.outcome.Ok? && t.output.Some? {
        var output := Resolve(job, t.output.value, t.finish);
        cache := cache[job.key := Row(output, job.templateHash, c.world(|sent| - 1).done)];
        r := RoleResult(Ok, Some(output), false);
      } else {
        if Cacheable(t.outcome) && job.negativeTtl.Some? {
          cache := cache[job.key := Row(NegativePayload(t.outcome), None, c.world(|sent| - 1).done)];
        }
        r := RoleResult(t.outcome, t.output, false);
      }
      Record(job, itemId, r, t.latency);
    }
  }

  // ----- one run ---------------------------------------------------------------

  /** A fresh answer, or a fresh negative row of a role that still opts in. */
  predicate Answered(s: State, job: Job, now: real) {
    var cached := GetFresh(s, job.key, job.ttl, now);
    cached.Some? && (IsNegative(cached.value) ==> FreshNegative(s, job, now).Some?)
  }

  /** The reply is a response that one of the checks turns down. */
  predicate Refused(job: Job, reply: Reply) {
    reply.Answer? && (reply.toolCalls || reply.parsed.None? || !Accepts(job, reply.parsed.value))
  }

  predicate Usable(job: Job, reply: Reply) {
    reply.Answer? && !reply.toolCalls && reply.parsed.Some? && Accepts(job, reply.parsed.value)
  }

  predicate ReadsAsCut(output: Body, finish: Option<string>, name: string) {
    name in output && output[name].Text? && LooksTruncated(output[name].text, finish)
  }

  /** Some free-text field of the body reads as cut off. */
  predicate IsCutOff(job: Job, reply: Reply) {
    Usable(job, reply) && exists name <- job.freeText :: ReadsAsCut(reply.parsed.value, reply.finish, name)
  }

  /** The reply to the first seed, or to the second where the first was refused. */
  function LastReply(c: Config, s: State, job: Job): Reply {
    var first := c.world(|s.sent|).reply;
    if Refused(job, first) then c.world(|s.sent| + 1).reply else first
  }

  function AskedFor(c: Config, s: State, job: Job): seq<Request> {
    var n := job.numPredict;
    [Request(7, n)] + (if Refused(job, c.world(|s.sent|).reply) then [Request(8, n)] else [])
    + if IsCutOff(job, LastReply(c, s, job)) then [Request(7, n * 2)] else []
  }

  /** What a run asks, call by call: nothing if the cache answers or the breaker stands in the way; else seed 7,
      seed 8 exactly if the first response is turned down by any check, and twice the budget exactly if a free-text
      field of the accepted body is cut. The cache answers exactly if its row is fresh and, where that row is a
      negative marker, fresh under the window of those too. */
  lemma {:induction false} CallsPerRun(c: Config, s: State, job: Job, itemId: int, now: real)
    ensures var (s', r) := Run(c, s, job, itemId, now);
      && (r.cacheHit <==>
            && job.key in s.cache && s.cache[job.key].createdAt >= now - job.ttl
            && var output := s.cache[job.key].output;
               "negative" in output && output["negative"] == Flag(true) ==>
                 job.negativeTtl.Some? && s.cache[job.key].createdAt >= now - job.negativeTtl.value)
      && (r.outcome.BreakerOpen? <==> !r.cacheHit && !Breaker.Allowed(s.breaker, now))
      && s'.sent == s.sent + if r.cacheHit || r.outcome.BreakerOpen? then [] else AskedFor(c, s, job)
  {
    hide Judge, AskedFor, TruncatedFields, Screened, Breaker.AfterAllow, Breaker.AfterFailure, Breaker.AfterSuccess,
      Breaker.Allowed;
    var s0 := s.(breaker := Breaker.AfterAllow(s.breaker, now));
    AskCalls(c, s0, job, itemId);
    AskResult(c, s0, job, itemId);
    assert AskedFor(c, s0, job) == AskedFor(c, s, job) by { SameAsked(c, s0, s, job); }
  }

  lemma {:induction false} SameAsked(c: Config, s: State, t: State, job: Job)
    requires s.sent == t.sent
    ensures AskedFor(c, s, job) == AskedFor(c, t, job)
  {
  }

  lemma {:induction false} CutFieldsThere(job: Job, output: Body, finish: Option<string>)
    ensures TruncatedFields(job.freeText, output, finish) != [] <==>
      exists name <- job.freeText :: ReadsAsCut(output, finish, name)
  {
    var fields := TruncatedFields(job.freeText, output, finish);
    if fields != [] { assert fields[0] in fields; }
  }

  lemma {:induction false} JudgeReads(job: Job, reply: Reply)
    ensures var t := Judge(job, reply);
      && (t.outcome.SchemaFail? || t.outcome.ValidationFail? <==> Refused(job, reply))
      && (t.outcome.Ok? <==> Usable(job, reply))
      && (t.outcome.Ok? ==> t.output == reply.parsed && t.finish == reply.finish)
      && (t.outcome.Ok? <==> t.output.Some?)
  {
  }

  lemma {:induction false} GenerateAsks(c: Config, s: State, job: Job)
    ensures var (s1, t) := Generate(c, s, job);
      && t == Judge(job, LastReply(c, s, job))
      && s1.sent == s.sent + [Request(7, job.numPredict)] +
         (if Refused(job, c.world(|s.sent|).reply) then [Request(8, job.numPredict)] else [])
      && s1.cache == s.cache && s1.events == s.events
  {
    hide Judge, Refused, Breaker.AfterFailure, Breaker.AfterSuccess;
    JudgeReads(job, c.world(|s.sent|).reply);
  }

  /** What the repair of a cut answer asks and gives. */
  lemma {:induction false} ResolveReads(c: Config, s: State, job: Job, reply: Reply)
    requires Usable(job, reply)
    ensures var (s', output) := ResolveTruncation(c, s, job, reply.parsed.value, reply.finish);
      var again := c.world(|s.sent|).reply;
      var kept := if IsCutOff(job, reply) && Usable(job, again) then again else reply;
      && s'.sent == s.sent + (if IsCutOff(job, reply) then [Request(7, job.numPredict * 2)] else [])
      && s'.cache == s.cache && s'.events == s.events
      && output == Screened(job.freeText, kept.parsed.value, kept.finish)
  {
    hide Judge, TruncatedFields, Screened, Accepts, Breaker.AfterFailure, Breaker.AfterSuccess;
    CutFieldsThere(job, reply.parsed.value, reply.finish);
    UnscreenedIsSame(job.freeText, reply.parsed.value, reply.finish);
    JudgeReads(job, c.world(|s.sent|).reply);
  }

  lemma {:induction false} AskCalls(c: Config, s: State, job: Job, itemId: int)
    ensures var (s', r) := Ask(c, s, job, itemId);
      s'.sent == s.sent + AskedFor(c, s, job)
  {
    hide Judge, Screened, Generate, Refused, Usable, IsCutOff, LastReply, ResolveTruncation;
    var last := LastReply(c, s, job);
    var (s1, t) := Generate(c, s, job);
    GenerateAsks(c, s, job);
    JudgeReads(job, last);
    OnlyUsableIsCut(job, last);
    if Usable(job, last) {
      UsableIsAnswer(job, last);
      ResolveReads(c, s1, job, last);
    }
    assert s1.sent + [] == s1.sent;
  }

  lemma {:induction false} OnlyUsableIsCut(job: Job, reply: Reply)
    ensures IsCutOff(job, reply) ==> Usable(job, reply)
  {
  }

  lemma {:induction false} UsableIsAnswer(job: Job, reply: Reply)
    ensures Usable(job, reply) ==> reply.Answer? && reply.parsed.Some?
  {
  }

  /** The reply that is kept: the one asked for with twice the budget where that was needed and is usable. */
  function KeptReply(c: Config, s: State, job: Job): Reply {
    var last := LastReply(c, s, job);
    var again := c.world(|s.sent| + if Refused(job, c.world(|s.sent|).reply) then 2 else 1).reply;
    if IsCutOff(job, last) && Usable(job, again) then again else last
  }

  lemma {:induction false} AskResult(c: Config, s: State, job: Job, itemId: int)
    ensures var (s', r) := Ask(c, s, job, itemId);
      var last := LastReply(c, s, job);
      && !r.cacheHit && !r.outcome.BreakerOpen?
      && (r.outcome.Timeout? <==> last.Down?)
      && (r.outcome.SchemaFail? <==>
            last.Answer? && (last.toolCalls || last.parsed.None? || !job.schema(last.parsed.value)))
      && (r.outcome.Ok? <==> Usable(job, last))
      && (r.outcome.Ok? ==>
            var kept := KeptReply(c, s, job);
            Usable(job, kept) && r.output == Some(Screened(job.freeText, kept.parsed.value, kept.finish)))
      && s'.events == s.events + [Event(itemId, job.key, false, r.outcome, if r.outcome.Ok? then r.output else None,
        if last.Down? then None else Some(last.latency))]
  {
    hide Screened, Generate, Refused, IsCutOff, LastReply, ResolveTruncation;
    var last := LastReply(c, s, job);
    var (s1, t) := Generate(c, s, job);
    GenerateAsks(c, s, job);
    if Usable(job, last) {
      ResolveReads(c, s1, job, last);
    }
  }

  /** What a run that asks reports, read off the replies alone: the first response, or the second where the first
      is turned down, decides the outcome; an accepted body is reported as screened, in the longer form where that
      was asked for and is usable. */
  lemma {:induction false} ResultFromReplies(c: Config, s: State, job: Job, itemId: int, now: real)
    requires var r := Run(c, s, job, itemId, now).1; !r.cacheHit && !r.outcome.BreakerOpen?
    ensures var r := Run(c, s, job, itemId, now).1;
      var first := c.world(|s.sent|).reply;
      var refused := first.Answer? &&
        (first.toolCalls || first.parsed.None? || !job.schema(first.parsed.value)
         || !job.postValidate(first.parsed.value));
      var last := if refused then c.world(|s.sent| + 1).reply else first;
      && (last.Down? ==> r == RoleResult(Timeout, None, false))
      && (last.Answer? && (last.toolCalls || last.parsed.None? || !job.schema(last.parsed.value)) ==>
            r == RoleResult(SchemaFail, None, false))
      && (last.Answer? && !last.toolCalls && last.parsed.Some? && job.schema(last.parsed.value) ==>
            if !job.postValidate(last.parsed.value) then r == RoleResult(ValidationFail, None, false)
            else
              var again := c.world(|s.sent| + if refused then 2 else 1).reply;
              var kept := if IsCutOff(job, last) && Usable(job, again) then again else last;
              && kept.Answer? && kept.parsed.Some?
              && r == RoleResult(Ok, Some(Screened(job.freeText, kept.parsed.value, kept.finish)), false))
  {
    hide TruncatedFields, Screened, Ask, IsNegative, FreshNegative, GetFresh, Breaker.AfterAllow, Breaker.Allowed;
    var s0 := s.(breaker := Breaker.AfterAllow(s.breaker, now));
    AskResult(c, s0, job, itemId);
    RunWrites(c, s, job, itemId, now);
  }

  /** Every run records one event, which says what it reports: an answer is in it, and the latency is that of the
      deciding response, 0 for the cache and none where no response came. */
  lemma {:induction false} OneEventPerRun(c: Config, s: State, job: Job, itemId: int, now: real)
    ensures var (s', r) := Run(c, s, job, itemId, now);
      var latency := if r.cacheHit then Some(0)
                     else if r.outcome.BreakerOpen? || r.outcome.Timeout? then None
                     else if LastReply(c, s, job).Answer? then Some(LastReply(c, s, job).latency)
                     else None;
      s'.events == s.events + [Event(itemId, job.key, r.cacheHit, r.outcome,
        if r.outcome.Ok? then r.output else None, latency)]
  {
    hide TruncatedFields, Screened, Ask, IsNegative, FreshNegative, Breaker.AfterAllow, Breaker.Allowed;
    var s0 := s.(breaker := Breaker.AfterAllow(s.breaker, now));
    AskResult(c, s0, job, itemId);
  }

  /** What the cache holds afterwards is decided by the result: an answer is stored as reported, a failed
      validation leaves a negative row where the role opts in, and nothing else is ever written. */
  lemma {:induction false} RunWrites(c: Config, s: State, job: Job, itemId: int, now: real)
    ensures var (s', r) := Run(c, s, job, itemId, now);
      if r.cacheHit || r.outcome in {SchemaFail, Timeout, BreakerOpen} ||
          (r.outcome.ValidationFail? && job.negativeTtl.None?)
      then s'.cache == s.cache
      else
        && s'.sent != []
        && s'.cache == s.cache[job.key := s'.cache[job.key]]
        && s'.cache[job.key].createdAt == c.world(|s'.sent| - 1).done
        && (r.outcome.Ok? ==>
              r.output == Some(s'.cache[job.key].output) && s'.cache[job.key].templateHash == job.templateHash)
        && (r.outcome.ValidationFail? ==>
              s'.cache[job.key].output == NegativePayload(ValidationFail) && s'.cache[job.key].templateHash == None)
    ensures Run(c, s, job, itemId, now).1.output.Some? <==> Run(c, s, job, itemId, now).1.outcome.Ok?
  {
    hide TruncatedFields, Screened, Breaker.AfterFailure, Breaker.AfterSuccess, Breaker.AfterAllow, Breaker.Allowed,
      IsNegative, NegativePayload, Generate, FreshNegative;
    GenerateGives(c, s.(breaker := Breaker.AfterAllow(s.breaker, now)), job);
    assert FreshNegative(s, job, now).Some? ==>
      FreshNegative(s, job, now).value.ValidationFail? by { NegativeMeansFailed(s, job, now); }
  }

  lemma {:induction false} NegativeMeansFailed(s: State, job: Job, now: real)
    ensures FreshNegative(s, job, now).Some? ==> FreshNegative(s, job, now).value.ValidationFail?
  {
  }

  lemma {:induction false} GenerateGives(c: Config, s: State, job: Job)
    ensures var (s1, t) := Generate(c, s, job);
      && s1.cache == s.cache && s1.events == s.events && s.sent < s1.sent
      && !t.outcome.BreakerOpen?
      && (t.output.Some? <==> t.outcome.Ok?)
      && t == Judge(job, c.world(|s1.sent| - 1).reply)
  {
    hide Breaker.AfterFailure, Breaker.AfterSuccess;
  }

  /** A stored negative row inside both windows is reported as the failure it stands for, never as an answer. */
  lemma {:induction false} NegativeIsNeverOk(c: Config, s: State, job: Job, itemId: int, now: real)
    ensures var (s', r) := Run(c, s, job, itemId, now);
      var cached := GetFresh(s, job.key, job.ttl, now);
      && (r.cacheHit && r.outcome.Ok? ==> cached == r.output && !IsNegative(r.output.value))
      && (cached.Some? && IsNegative(cached.value) && job.negativeTtl.Some? &&
          s.cache[job.key].createdAt >= now - job.negativeTtl.value ==>
            r == RoleResult(ValidationFail, None, true))
  {
    hide Ask, Breaker.AfterAllow, Breaker.Allowed;
    AskResult(c, s.(breaker := Breaker.AfterAllow(s.breaker, now)), job, itemId);
  }

  // ----- two runs --------------------------------------------------------------

  /** An answer just produced is served again, unchanged and without a call, for as long as it is fresh;
      exactly unless the validators let through a body that itself carries the negative marker. */
  lemma {:induction false} AnswerIsServedAgain(c: Config, s: State, job: Job, itemId: int, now: real, itemId2: int,
      now2: real)
    requires var (s1, r1) := Run(c, s, job, itemId, now);
      !r1.cacheHit && r1.outcome.Ok? && c.world(|s1.sent| - 1).done >= now2 - job.ttl
    ensures var (s1, r1) := Run(c, s, job, itemId, now);
      var (s2, r2) := Run(c, s1, job, itemId2, now2);
      (r2 == RoleResult(Ok, r1.output, true) && s2 == s1.(events := s2.events)) <==> !IsNegative(r1.output.value)
  {
    RunWrites(c, s, job, itemId, now);
    var (s1, r1) := Run(c, s, job, itemId, now);
    NegativeIsNeverOk(c, s1, job, itemId2, now2);
    ServedFromCache(c, s1, job, itemId2, now2);
  }

  /** A failure just stored costs nothing while it is inside both the answer window and its own. */
  lemma {:induction false} FailureIsServedAgain(c: Config, s: State, job: Job, itemId: int, now: real, itemId2: int,
      now2: real)
    requires var (s1, r1) := Run(c, s, job, itemId, now);
      !r1.cacheHit && r1.outcome.ValidationFail? && job.negativeTtl.Some?
    ensures var (s1, r1) := Run(c, s, job, itemId, now);
      var (s2, r2) := Run(c, s1, job, itemId2, now2);
      var at := c.world(|s1.sent| - 1).done;
      && (r2.cacheHit <==> at >= now2 - job.ttl && at >= now2 - job.negativeTtl.value)
      && (r2.cacheHit ==> r2 == RoleResult(ValidationFail, None, true) && s2 == s1.(events := s2.events))
  {
    RunWrites(c, s, job, itemId, now);
    var (s1, r1) := Run(c, s, job, itemId, now);
    NegativeIsNeverOk(c, s1, job, itemId2, now2);
    ServedFromCache(c, s1, job, itemId2, now2);
    assert IsNegative(NegativePayload(ValidationFail));
  }

  lemma {:induction false} ServedFromCache(c: Config, s: State, job: Job, itemId: int, now: real)
    ensures var (s', r) := Run(c, s, job, itemId, now);
      && (r.cacheHit <==> Answered(s, job, now))
      && (Answered(s, job, now) ==>
            && s' == s.(events := s'.events)
            && r == if IsNegative(GetFresh(s, job.key, job.ttl, now).value) then RoleResult(ValidationFail, None, true)
                    else RoleResult(Ok, GetFresh(s, job.key, job.ttl, now), true))
  {
    hide Ask, Breaker.AfterAllow, Breaker.Allowed;
    AskResult(c, s.(breaker := Breaker.AfterAllow(s.breaker, now)), job, itemId);
  }

  // ----- any sequence of runs --------------------------------------------------

  datatype Visit = Visit(job: Job, itemId: int, now: real)

  function Start(c: Config): State { State(Breaker.Fresh(c.breaker), map[], [], []) }

  function Runs(c: Config, visits: seq<Visit>): State {
    if visits == [] then Start(c)
    else
      var v := visits[|visits| - 1];
      Run(c, Runs(c, visits[..|visits| - 1]), v.job, v.itemId, v.now).0
  }

  /** The stored form of the reply to call `n`: accepted by both validators, and screened under the finish
      reason that came with it. */
  predicate StoredReply(c: Config, job: Job, row: Row, n: nat) {
    var t := Judge(job, c.world(n).reply);
    t.outcome.Ok? && row.output == Screened(job.freeText, t.output.value, t.finish) &&
      row.templateHash == job.templateHash
  }

  /** A negative marker, written because call `n` failed the validation of the role. */
  predicate NegativeRow(c: Config, job: Job, row: Row, n: nat) {
    && row.output == NegativePayload(ValidationFail) && row.templateHash == None && job.negativeTtl.Some?
    && Judge(job, c.world(n).reply).outcome.ValidationFail?
  }

  /** One of the calls `from, ..., to - 1` accounts for the row. */
  ghost predicate Justified(c: Config, job: Job, row: Row, from: nat, to: nat) {
    exists n :: from <= n < to && (StoredReply(c, job, row, n) || NegativeRow(c, job, row, n))
  }

  lemma {:induction false} RunJustifies(c: Config, s: State, job: Job, itemId: int, now: real)
    ensures var s' := Run(c, s, job, itemId, now).0;
      || s'.cache == s.cache
      || (&& job.key in s'.cache && s'.cache == s.cache[job.key := s'.cache[job.key]]
          && Justified(c, job, s'.cache[job.key], |s.sent|, |s'.sent|))
  {
    hide TruncatedFields, MarkTruncated, Breaker.AfterFailure, Breaker.AfterSuccess, Breaker.AfterAllow,
      Breaker.Allowed, IsNegative, NegativePayload, Generate, Judge, FreshNegative, GetFresh;
    var s0 := s.(breaker := Breaker.AfterAllow(s.breaker, now));
    var (s1, t) := Generate(c, s0, job);
    GenerateGives(c, s0, job);
    var s' := Run(c, s, job, itemId, now).0;
    if s'.cache != s.cache {
      var row := s'.cache[job.key];
      var again := Judge(job, c.world(|s1.sent|).reply);
      if !(t.outcome.Ok? && t.output.Some?) {
        assert NegativeRow(c, job, row, |s1.sent| - 1);
      } else if TruncatedFields(job.freeText, t.output.value, t.finish) != [] && again.outcome.Ok? &&
        again.output.Some? {
        assert StoredReply(c, job, row, |s1.sent|);
      } else {
        assert StoredReply(c, job, row, |s1.sent| - 1);
      }
    }
  }

  lemma {:induction false} ScreeningKeepsTheMarker(freeText: seq<string>, output: Body, finish: Option<string>)
    ensures IsNegative(Screened(freeText, output, finish)) <==> IsNegative(output)
  {
    hide TruncatedFields;
    var fields := TruncatedFields(freeText, output, finish);
    MarkFieldsAt(output, fields, NEGATIVE);
    assert NEGATIVE != "truncated" by { assert |NEGATIVE| != |"truncated"|; }
  }

  /** Both validators accept the body. */
  predicate Accepts(job: Job, b: Body) { job.schema(b) && job.postValidate(b) }

  /** Where the validators together refuse the marker field, no answer is ever mistaken for a negative row. */
  lemma {:induction false} StrictValidatorsKeepThemApart(c: Config, s: State, job: Job, itemId: int, now: real)
    requires forall b :: Accepts(job, b) ==> !IsNegative(b)
    requires Run(c, s, job, itemId, now).1.outcome.Ok?
    ensures !IsNegative(Run(c, s, job, itemId, now).1.output.value)
  {
    hide IsNegative, TruncatedFields, MarkTruncated, FreshNegative, Breaker.AfterAllow, Breaker.Allowed,
      Breaker.AfterFailure, Breaker.AfterSuccess;
    var (s', r) := Run(c, s, job, itemId, now);
    if r.cacheHit {
      NegativeIsNeverOk(c, s, job, itemId, now);
    } else {
      var s0 := s.(breaker := Breaker.AfterAllow(s.breaker, now));
      var (s1, t) := Generate(c, s0, job);
      ScreeningKeepsTheMarker(job.freeText, t.output.value, t.finish);
      var again := Judge(job, c.world(|s1.sent|).reply);
      if again.output.Some? { ScreeningKeepsTheMarker(job.freeText, again.output.value, again.finish); }
    }
  }

  /** What the first run answered is answered again by the second, unchanged and without a call, if the row is
      still fresh by then. */
  ghost predicate ServedAgain(c: Config, s: State, job: Job, itemId: int, now: real, itemId2: int, now2: real) {
    var (s1, r1) := Run(c, s, job, itemId, now);
    var (s2, r2) := Run(c, s1, job, itemId2, now2);
    !r1.cacheHit && r1.outcome.Ok? && c.world(|s1.sent| - 1).done >= now2 - job.ttl ==>
      r2 == RoleResult(Ok, r1.output, true) && s2 == s1.(events := s2.events)
  }

  /** A body that the validators accept and that carries the marker is an answer that can be lost: it is stored
      and fresh, and the next run does not serve it. */
  lemma {:induction false} MarkerHidesAnAnswer(bc: Breaker.Config, job: Job, body: Body)
    requires Accepts(job, body) && IsNegative(body)
    ensures var c := Config(bc, _ => Exchange(Answer(false, Some(body), None, 0), 0.0));
      !ServedAgain(c, Start(c), job, 0, 0.0, 0, job.ttl)
  {
    hide TruncatedFields, Screened, IsNegative, FreshNegative;
    var c := Config(bc, _ => Exchange(Answer(false, Some(body), None, 0), 0.0));
    var s := Start(c);
    assert Judge(job, c.world(0).reply).outcome.Ok?;
    ScreeningKeepsTheMarker(job.freeText, body, None);
    UnscreenedIsSame(job.freeText, body, None);
    var (s1, r1) := Run(c, s, job, 0, 0.0);
    assert r1 == RoleResult(Ok, Some(Screened(job.freeText, body, None)), false);
    AnswerIsServedAgain(c, s, job, 0, 0.0, 0, job.ttl);
  }

  lemma {:induction false} UnscreenedIsSame(freeText: seq<string>, output: Body, finish: Option<string>)
    ensures TruncatedFields(freeText, output, finish) == [] ==> Screened(freeText, output, finish) == output
  {
  }

  /** Per role: every answer is served again for as long as it is fresh, whatever the state, the sidecar and the
      times, exactly if the validators together refuse the marker field. */
  lemma {:induction false} AnswersAreServedAgainIff(job: Job)
    ensures (forall c, s, itemId, now, itemId2, now2 :: ServedAgain(c, s, job, itemId, now, itemId2, now2)) <==>
      (forall b :: Accepts(job, b) ==> !IsNegative(b))
  {
    hide IsNegative, Accepts, ServedAgain;
    if b :| Accepts(job, b) && IsNegative(b) {
      MarkerHidesAnAnswer(Breaker.Config(1, 0.0, 0.0), job, b);
    } else {
      forall c, s, itemId, now, itemId2, now2 ensures ServedAgain(c, s, job, itemId, now, itemId2, now2) {
        StrictServesAgain(c, s, job, itemId, now, itemId2, now2);
      }
    }
  }

  lemma {:induction false} StrictServesAgain(c: Config, s: State, job: Job, itemId: int, now: real, itemId2: int,
      now2: real)
    requires forall b :: Accepts(job, b) ==> !IsNegative(b)
    ensures ServedAgain(c, s, job, itemId, now, itemId2, now2)
  {
    hide Run, IsNegative, Accepts;
    RunWrites(c, s, job, itemId, now);
    var (s1, r1) := Run(c, s, job, itemId, now);
    if !r1.cacheHit && r1.outcome.Ok? && c.world(|s1.sent| - 1).done >= now2 - job.ttl {
      StrictValidatorsKeepThemApart(c, s, job, itemId, now);
      AnswerIsServedAgain(c, s, job, itemId, now, itemId2, now2);
    }
  }

  /** The calls that visit `i` made account for the row. */
  ghost predicate JustifiedBy(c: Config, visits: seq<Visit>, i: nat, key: int, row: Row)
    requires i < |visits|
  {
    visits[i].job.key == key &&
    Justified(c, visits[i].job, row, |Runs(c, visits[..i]).sent|, |Runs(c, visits[..i + 1]).sent|)
  }

  /** After any sequence of runs, every cache row comes from a run with its key: it is the screened form of a
      reply to a call of that run which that run accepted, or a negative marker without a template hash for
      a call of that run that failed validation. */
  lemma {:induction false} EveryRowIsJustified(c: Config, visits: seq<Visit>, key: int)
    requires key in Runs(c, visits).cache
    ensures exists i :: 0 <= i < |visits| && JustifiedBy(c, visits, i, key, Runs(c, visits).cache[key])
  {
    hide Run, Justified;
    var n := |visits| - 1;
    var v, row := visits[n], Runs(c, visits).cache[key];
    var before := Runs(c, visits[..n]);
    RunJustifies(c, before, v.job, v.itemId, v.now);
    assert visits[..n + 1] == visits;
    if key in before.cache && row == before.cache[key] {
      EveryRowIsJustified(c, visits[..n], key);
      var i :| 0 <= i < n && JustifiedBy(c, visits[..n], i, key, row);
      assert visits[..n][..i] == visits[..i] && visits[..n][..i + 1] == visits[..i + 1] && visits[..n][i] == visits[i];
      assert JustifiedBy(c, visits, i, key, row);
    } else {
      assert JustifiedBy(c, visits, n, key, row);
    }
  }

  lemma {:induction false} JudgedOk(job: Job, reply: Reply)
    ensures Judge(job, reply).output.Some? <==> Judge(job, reply).outcome.Ok?
  {
  }

  /** The row is the stored form of the reply to call `n`, one of those that visit `i` made, and no free-text
      field of it screens as cut under the finish reason of that reply. */
  ghost predicate CleanFrom(c: Config, visits: seq<Visit>, row: Row, i: nat, n: nat)
    requires i < |visits|
  {
    var job := visits[i].job;
    && |Runs(c, visits[..i]).sent| <= n < |Runs(c, visits[..i + 1]).sent|
    && StoredReply(c, job, row, n)
    && forall f | f in job.freeText :: !ReadsAsCut(row.output, Judge(job, c.world(n).reply).finish, f)
  }

  /** So no stored body has a free-text field that screens as cut under its own finish reason. */
  lemma {:induction false} NoStoredCut(c: Config, visits: seq<Visit>, key: int)
    requires key in Runs(c, visits).cache
    ensures var row := Runs(c, visits).cache[key];
      || (row.output == NegativePayload(ValidationFail) && row.templateHash == None)
      || exists i, n :: 0 <= i < |visits| && 0 <= n && visits[i].job.key == key && CleanFrom(c, visits, row, i, n)
  {
    hide Run, Judge, Screened, LooksTruncated, NegativePayload;
    EveryRowIsJustified(c, visits, key);
    var row := Runs(c, visits).cache[key];
    var i :| 0 <= i < |visits| && JustifiedBy(c, visits, i, key, row);
    var job := visits[i].job;
    var n :| |Runs(c, visits[..i]).sent| <= n < |Runs(c, visits[..i + 1]).sent| &&
      (StoredReply(c, job, row, n) || NegativeRow(c, job, row, n));
    if StoredReply(c, job, row, n) {
      var t := Judge(job, c.world(n).reply);
      JudgedOk(job, c.world(n).reply);
      forall f | f in job.freeText ensures !ReadsAsCut(row.output, t.finish, f) {
        ScreenedIsClean(job.freeText, t.output.value, t.finish, f);
      }
      assert CleanFrom(c, visits, row, i, n);
    }
  }

  // ----- the breaker over a lifetime -------------------------------------------

  /** How many of the last of `n` calls failed in transport, without a break. */
  function TrailingDown(c: Config, n: nat): nat {
    if n == 0 || !c.world(n - 1).reply.Down? then 0 else TrailingDown(c, n - 1) + 1
  }

  /** A breaker history that explains the state, with one outcome per call made. */
  ghost predicate Tracks(c: Config, s: State, h: seq<Breaker.Event>) {
    Breaker.Replay(c.breaker, h) == s.breaker && Breaker.TrailingFailures(h) == TrailingDown(c, |s.sent|)
  }

  lemma {:induction false} TrackAsk(c: Config, s: State, h: seq<Breaker.Event>, now: real)
      returns (h': seq<Breaker.Event>)
    requires Tracks(c, s, h)
    ensures Tracks(c, s.(breaker := Breaker.AfterAllow(s.breaker, now)), h')
  {
    h' := h + [Breaker.Ask(now)];
    assert h'[..|h|] == h;
  }

  lemma {:induction false} TrackCall(c: Config, s: State, h: seq<Breaker.Event>, request: Request)
      returns (h': seq<Breaker.Event>)
    requires Tracks(c, s, h)
    ensures Tracks(c, AfterCall(c, s, request), h')
  {
    var x := c.world(|s.sent|);
    h' := h + [if x.reply.Down? then Breaker.Failure(x.done) else Breaker.Success];
    assert h'[..|h|] == h;
  }

  lemma {:induction false} TrackRun(c: Config, s: State, h: seq<Breaker.Event>, job: Job, itemId: int, now: real)
      returns (h': seq<Breaker.Event>)
    requires Tracks(c, s, h)
    ensures Tracks(c, Run(c, s, job, itemId, now).0, h')
  {
    hide Breaker.AfterAllow, Breaker.Allowed, AfterCall, Judge, TruncatedFields, Screened, IsNegative, GetFresh,
      FreshNegative, Breaker.Replay, Breaker.TrailingFailures, TrailingDown;
    var n := job.numPredict;
    var s' := Run(c, s, job, itemId, now).0;
    h' := h;
    if s'.breaker != s.breaker || s'.sent != s.sent {
      h' := TrackAsk(c, s, h, now);
      var s1 := s.(breaker := Breaker.AfterAllow(s.breaker, now));
      if s'.breaker != s1.breaker || s'.sent != s1.sent {
        h' := TrackAskCalls(c, s1, h', job, itemId);
      }
    }
  }

  lemma {:induction false} TrackAskCalls(c: Config, s: State, h: seq<Breaker.Event>, job: Job, itemId: int)
      returns (h': seq<Breaker.Event>)
    requires Tracks(c, s, h)
    ensures Tracks(c, Ask(c, s, job, itemId).0, h')
  {
    hide Breaker.AfterFailure, Breaker.AfterSuccess, Judge, TruncatedFields, Screened,
      Breaker.Replay, Breaker.TrailingFailures, TrailingDown;
    var n := job.numPredict;
    var s' := Ask(c, s, job, itemId).0;
    var (s1, first) := Attempt(c, s, job, Request(7, n));
    h' := TrackCall(c, s, h, Request(7, n));
    if first.outcome.SchemaFail? || first.outcome.ValidationFail? {
      h' := TrackCall(c, s1, h', Request(8, n));
    }
    var (s2, t) := Generate(c, s, job);
    if t.outcome.Ok? && t.output.Some? && TruncatedFields(job.freeText, t.output.value, t.finish) != [] {
      h' := TrackCall(c, s2, h', Request(7, n * 2));
    }
  }

  lemma {:induction false} TrackRuns(c: Config, visits: seq<Visit>) returns (h: seq<Breaker.Event>)
    ensures Tracks(c, Runs(c, visits), h)
  {
    hide Run;
    if visits == [] {
      h := [];
    } else {
      var n := |visits| - 1;
      h := TrackRuns(c, visits[..n]);
      h := TrackRun(c, Runs(c, visits[..n]), h, visits[n].job, visits[n].itemId, visits[n].now);
    }
  }

  /** Over any lifetime the engine refuses or probes exactly while its last calls, as many as the threshold or
      more, all failed in transport; what the bodies were worth plays no part. */
  lemma {:induction false} OutOfClosedIffTransportDown(c: Config, visits: seq<Visit>)
    ensures var s := Runs(c, visits);
      s.breaker.phase != Breaker.Closed <==>
      TrailingDown(c, |s.sent|) >= if c.breaker.failThreshold == 0 then 1 else c.breaker.failThreshold
  {
    var h := TrackRuns(c, visits);
    Breaker.OutOfClosedIff(c.breaker, h);
  }
}
