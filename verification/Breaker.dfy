/**
 The circuit breaker around the LLM sidecar (src/analyzer_ng/llm/breaker.py). The clock is an
 argument of every call that reads it. What the methods do to the fields is given by functions on
 a value, and the results are about whole histories of calls.
 */
module Breaker {
  import opened Numbers

  datatype Phase = Closed | Open | HalfOpen

  datatype Config = Config(failThreshold: nat, baseCooldown: real, maxCooldown: real)

  datatype View = View(phase: Phase, failures: nat, cooldown: real, openedAt: real)

  function Fresh(c: Config): View { View(Closed, 0, c.baseCooldown, 0.0) }

  function Allowed(v: View, now: real): bool {
    v.phase != Open || now - v.openedAt >= v.cooldown
  }

  function AfterAllow(v: View, now: real): View {
    if v.phase == Open && Allowed(v, now) then v.(phase := HalfOpen) else v
  }

  function AfterSuccess(c: Config, v: View): View {
    v.(phase := Closed, failures := 0, cooldown := c.baseCooldown)
  }

  function AfterFailure(c: Config, v: View, now: real): View {
    if v.phase == HalfOpen then
      v.(phase := Open, cooldown := Min(v.cooldown * 2.0, c.maxCooldown), openedAt := now)
    else if v.phase == Closed && v.failures + 1 >= c.failThreshold then
      View(Open, v.failures + 1, c.baseCooldown, now)
    else v.(failures := v.failures + 1)
  }

  class CircuitBreaker {
    const c: Config
    var phase: Phase
    var failures: nat
    var cooldown: real
    var openedAt: real

    function Now(): View
      reads this
    {
      View(phase, failures, cooldown, openedAt)
    }

    constructor (c: Config)
      ensures this.c == c && Now() == Fresh(c)
    {
      this.c := c;
      phase, failures, cooldown, openedAt := Closed, 0, c.baseCooldown, 0.0;
    }

    /** Whether a call may proceed; once the cooldown has passed, the next call is the probe. */
    method Allow(now: real) returns (ok: bool)
      modifies this
      ensures ok == Allowed(old(Now()), now) && Now() == AfterAllow(old(Now()), now)
    {
      if phase == Open {
        if now - openedAt >= cooldown {
          phase := HalfOpen;
          return true;
        }
        return false;
      }
      ok := true;
    }

    method RecordSuccess()
      modifies this
      ensures Now() == AfterSuccess(c, old(Now()))
    {
      failures := 0;
      cooldown := c.baseCooldown;
      phase := Closed;
    }

    /** The server answered, whatever the body was worth. */
    method RecordResponse()
      modifies this
      ensures Now() == AfterSuccess(c, old(Now()))
    {
      RecordSuccess();
    }

    method RecordFailure(now: real)
      modifies this
      ensures Now() == AfterFailure(c, old(Now()), now)
    {
      if phase == HalfOpen {
        cooldown := Min(cooldown * 2.0, c.maxCooldown);
        openedAt := now;
        phase := Open;
        return;
      }
      failures := failures + 1;
      if phase == Closed && failures >= c.failThreshold {
        cooldown := c.baseCooldown;
        openedAt := now;
        phase := Open;
      }
    }
  }

  // ----- any history ---------------------------------------------------------

  datatype Event = Ask(at: real) | Success | Failure(at: real)

  function Apply(c: Config, v: View, e: Event): View {
    match e
    case Ask(at) => AfterAllow(v, at)
    case Success => AfterSuccess(c, v)
    case Failure(at) => AfterFailure(c, v, at)
  }

  function Replay(c: Config, h: seq<Event>): View {
    if h == [] then Fresh(c) else Apply(c, Replay(c, h[..|h| - 1]), h[|h| - 1])
  }

  /** Failures since the last success; questions in between do not count. */
  function TrailingFailures(h: seq<Event>): nat {
    if h == [] then 0
    else
      match h[|h| - 1]
      case Ask(_) => TrailingFailures(h[..|h| - 1])
      case Success => 0
      case Failure(_) => TrailingFailures(h[..|h| - 1]) + 1
  }

  /** Failed probes since the breaker last opened from closed. */
  function FailedProbes(c: Config, h: seq<Event>): nat {
    if h == [] then 0
    else
      var before := Replay(c, h[..|h| - 1]);
      var k := FailedProbes(c, h[..|h| - 1]);
      match h[|h| - 1]
      case Ask(_) => k
      case Success => 0
      case Failure(_) => if before.phase == HalfOpen then k + 1 else k
  }

  /** The breaker is out of closed exactly when the trailing run of failures has reached the threshold
      (a threshold of zero acts as one). */
  lemma {:induction false} OutOfClosedIff(c: Config, h: seq<Event>)
    ensures Replay(c, h).phase != Closed <==>
      TrailingFailures(h) >= if c.failThreshold == 0 then 1 else c.failThreshold
    ensures Replay(c, h).phase == Closed ==> Replay(c, h).failures == TrailingFailures(h)
  {
    if h != [] { OutOfClosedIff(c, h[..|h| - 1]); }
  }

  function Pow2(k: nat): real { if k == 0 then 1.0 else 2.0 * Pow2(k - 1) }

  /** The wait after the k-th failed probe. */
  function Cooldown(c: Config, k: nat): real {
    if k == 0 then c.baseCooldown else Min(c.baseCooldown * Pow2(k), c.maxCooldown)
  }

  lemma {:induction false} Pow2Positive(k: nat)
    ensures Pow2(k) >= 1.0
  {
    if k > 0 { Pow2Positive(k - 1); }
  }

  lemma {:induction false} CooldownDoubles(c: Config, k: nat)
    requires 0.0 <= c.baseCooldown && 0.0 <= c.maxCooldown
    ensures Cooldown(c, k + 1) == Min(Cooldown(c, k) * 2.0, c.maxCooldown)
    ensures Cooldown(c, k) >= 0.0
  {
    Pow2Positive(k);
    var x := c.baseCooldown * Pow2(k);
    assert x >= 0.0;
    assert c.baseCooldown * (2.0 * Pow2(k)) == 2.0 * x;
  }

  /** After k failed probes the cooldown is min(base * 2^k, max), in every history. */
  lemma {:induction false} CooldownAfterFailedProbes(c: Config, h: seq<Event>)
    requires 0.0 <= c.baseCooldown && 0.0 <= c.maxCooldown
    ensures Replay(c, h).cooldown == Cooldown(c, FailedProbes(c, h))
    ensures Replay(c, h).phase == Closed ==> FailedProbes(c, h) == 0
  {
    if h != [] {
      CooldownAfterFailedProbes(c, h[..|h| - 1]);
      CooldownDoubles(c, FailedProbes(c, h[..|h| - 1]));
    }
  }

  // ----- one worker, a clock that does not go back ---------------------------

  /** A call: asked at `at`, and, if allowed, over at `done`. */
  datatype Call = Call(at: real, done: real, ok: bool)

  predicate InTurn(calls: seq<Call>) {
    && (forall i :: 0 <= i < |calls| ==> calls[i].at <= calls[i].done)
    && (forall i, j :: 0 <= i < j < |calls| ==> calls[i].done <= calls[j].at)
  }

  function Events(c: Config, v: View, call: Call): seq<Event> {
    if Allowed(v, call.at) then [Ask(call.at), if call.ok then Success else Failure(call.done)] else [Ask(call.at)]
  }

  function History(c: Config, calls: seq<Call>): seq<Event> {
    if calls == [] then []
    else
      var h := History(c, calls[..|calls| - 1]);
      h + Events(c, Replay(c, h), calls[|calls| - 1])
  }

  /** All the waiting that n failed probes take. */
  function Backoff(c: Config, n: nat): real {
    if n == 0 then 0.0 else Backoff(c, n - 1) + Cooldown(c, n - 1)
  }

  /** When the breaker last opened from closed; meaningful while it is out of closed. */
  function FirstOpened(c: Config, h: seq<Event>): real {
    if h == [] then 0.0
    else
      var before := Replay(c, h[..|h| - 1]);
      if before.phase == Closed && h[|h| - 1].Failure? then h[|h| - 1].at else FirstOpened(c, h[..|h| - 1])
  }

  lemma {:induction false} ReplaySnoc(c: Config, h: seq<Event>, e: Event)
    ensures Replay(c, h + [e]) == Apply(c, Replay(c, h), e)
    ensures FailedProbes(c, h + [e]) == match e
      case Ask(_) => FailedProbes(c, h)
      case Success => 0
      case Failure(_) => FailedProbes(c, h) + if Replay(c, h).phase == HalfOpen then 1 else 0
    ensures FirstOpened(c, h + [e]) == if Replay(c, h).phase == Closed && e.Failure? then e.at else FirstOpened(c, h)
  {
    assert (h + [e])[..|h|] == h;
  }

  /** With one worker, each failed probe comes at least the cooldown then in force after the opening before
      it, so n failed probes in a row take at least base + min(2 base, max) + ... of time. */
  lemma {:induction false} ProbesKeepTheirDistance(c: Config, calls: seq<Call>)
    requires 0.0 <= c.baseCooldown && 0.0 <= c.maxCooldown && InTurn(calls)
    ensures var h := History(c, calls);
      var v := Replay(c, h);
      && v.phase != HalfOpen
      && (v.phase == Open ==>
           && v.openedAt - FirstOpened(c, h) >= Backoff(c, FailedProbes(c, h))
           && calls != [] && v.openedAt <= calls[|calls| - 1].done)
  {
    if calls != [] {
      var n := |calls| - 1;
      var h := History(c, calls[..n]);
      ProbesKeepTheirDistance(c, calls[..n]);
      CooldownAfterFailedProbes(c, h);
      OneCall(c, h, calls[n]);
    }
  }

  lemma {:induction false} OneCall(c: Config, h: seq<Event>, call: Call)
    requires 0.0 <= c.baseCooldown && 0.0 <= c.maxCooldown && call.at <= call.done
    requires Replay(c, h).phase != HalfOpen
    requires Replay(c, h).cooldown == Cooldown(c, FailedProbes(c, h))
    requires Replay(c, h).phase == Closed ==> FailedProbes(c, h) == 0
    requires Replay(c, h).phase == Open ==>
      Replay(c, h).openedAt - FirstOpened(c, h) >= Backoff(c, FailedProbes(c, h)) && Replay(c, h).openedAt <= call.at
    ensures var h' := h + Events(c, Replay(c, h), call);
      var v := Replay(c, h');
      && v.phase != HalfOpen
      && (v.phase == Open ==> v.openedAt - FirstOpened(c, h') >= Backoff(c, FailedProbes(c, h')))
      && (v.phase == Open ==> v.openedAt <= call.done)
  {
    hide Replay, FailedProbes, FirstOpened, Cooldown;
    var v := Replay(c, h);
    ReplaySnoc(c, h, Ask(call.at));
    if Allowed(v, call.at) {
      var e := if call.ok then Success else Failure(call.done);
      ReplaySnoc(c, h + [Ask(call.at)], e);
      assert h + Events(c, v, call) == h + [Ask(call.at)] + [e];
    } else {
      assert h + Events(c, v, call) == h + [Ask(call.at)];
    }
  }

  lemma {:induction false} BackoffAtLeast(c: Config, n: nat, x: real)
    requires forall k: nat :: k < n ==> Cooldown(c, k) >= x
    ensures Backoff(c, n) >= Times(n, x)
  {
    if n > 0 {
      BackoffAtLeast(c, n - 1, x);
      OneMore(n - 1, x);
    }
  }

  lemma {:induction false} CooldownAtLeast(c: Config, k: nat)
    requires 0.0 <= c.baseCooldown && 0.0 <= c.maxCooldown
    ensures Cooldown(c, k) >= Min(c.baseCooldown, c.maxCooldown)
  {
    Pow2Positive(k);
    assert c.baseCooldown * (Pow2(k) - 1.0) >= 0.0;
  }

  /** So while the breaker stays out of closed, the failed probes in any span since it opened number at
      most the span divided by the shortest cooldown. */
  lemma {:induction false} FailedProbesPerTime(c: Config, calls: seq<Call>)
    requires 0.0 <= c.baseCooldown && 0.0 <= c.maxCooldown && InTurn(calls)
    requires Replay(c, History(c, calls)).phase == Open
    ensures var h := History(c, calls);
      Times(FailedProbes(c, h), Min(c.baseCooldown, c.maxCooldown)) <= calls[|calls| - 1].done - FirstOpened(c, h)
  {
    ProbesKeepTheirDistance(c, calls);
    var n := FailedProbes(c, History(c, calls));
    forall k: nat | k < n ensures Cooldown(c, k) >= Min(c.baseCooldown, c.maxCooldown) { CooldownAtLeast(c, k); }
    BackoffAtLeast(c, n, Min(c.baseCooldown, c.maxCooldown));
  }

  /** When the last failure was; 0 before the first. */
  function LastFailure(h: seq<Event>): real {
    if h == [] then 0.0 else if h[|h| - 1].Failure? then h[|h| - 1].at else LastFailure(h[..|h| - 1])
  }

  lemma {:induction false} TrailingSnoc(h: seq<Event>, e: Event)
    ensures TrailingFailures(h + [e]) == match e
      case Ask(_) => TrailingFailures(h)
      case Success => 0
      case Failure(_) => TrailingFailures(h) + 1
    ensures LastFailure(h + [e]) == if e.Failure? then e.at else LastFailure(h)
  {
    assert (h + [e])[..|h|] == h;
  }

  /** The failures in a row that open the breaker. */
  function Threshold(c: Config): nat { if c.failThreshold == 0 then 1 else c.failThreshold }

  /** With one worker an open breaker opened at the last failure, and every failure past the threshold was a probe. */
  lemma {:induction false} OpenInTurn(c: Config, calls: seq<Call>)
    ensures var h := History(c, calls);
      var v := Replay(c, h);
      && v.phase != HalfOpen
      && (v.phase == Open ==>
            v.openedAt == LastFailure(h) && TrailingFailures(h) == Threshold(c) + FailedProbes(c, h))
      && (v.phase == Closed ==> FailedProbes(c, h) == 0 && v.failures == TrailingFailures(h) < Threshold(c))
  {
    if calls != [] {
      hide Replay, FailedProbes, TrailingFailures, LastFailure;
      var n := |calls| - 1;
      var h := History(c, calls[..n]);
      OpenInTurn(c, calls[..n]);
      var v, call := Replay(c, h), calls[n];
      ReplaySnoc(c, h, Ask(call.at));
      TrailingSnoc(h, Ask(call.at));
      if Allowed(v, call.at) {
        var e := if call.ok then Success else Failure(call.done);
        ReplaySnoc(c, h + [Ask(call.at)], e);
        TrailingSnoc(h + [Ask(call.at)], e);
        assert History(c, calls) == h + [Ask(call.at)] + [e];
      } else {
        assert History(c, calls) == h + [Ask(call.at)];
      }
    } else {
      assert Replay(c, []) == Fresh(c);
    }
  }

  /** Whether the next call may proceed, read off the calls so far: fewer failures in a row than the threshold, or
      the base cooldown, doubled for every further failure up to the maximum, has passed since the last one. */
  lemma {:induction false} DoorOpensIff(c: Config, calls: seq<Call>, now: real)
    requires 0.0 <= c.baseCooldown && 0.0 <= c.maxCooldown
    ensures var h := History(c, calls);
      var threshold := if c.failThreshold > 1 then c.failThreshold else 1;
      Allowed(Replay(c, h), now) <==>
        || TrailingFailures(h) < threshold
        || now - LastFailure(h) >= Cooldown(c, TrailingFailures(h) - threshold)
  {
    hide Replay, FailedProbes, TrailingFailures, LastFailure, History, Cooldown;
    OpenInTurn(c, calls);
    CooldownAfterFailedProbes(c, History(c, calls));
  }

  // ----- any stretch in which the breaker stays open ----------------------------

  /** The breaker is open before call `i`, after call `j - 1`, and between any two calls in that stretch. */
  predicate OpenThroughout(c: Config, calls: seq<Call>, i: nat, j: nat) {
    i <= j <= |calls| && forall m :: i <= m <= j ==> Replay(c, History(c, calls[..m])).phase == Open
  }

  /** One call while open: refused, or a probe that fails at least the cooldown in force after the opening
      before it. */
  lemma {:induction false} OpenCall(c: Config, h: seq<Event>, call: Call)
    requires 0.0 <= c.baseCooldown && 0.0 <= c.maxCooldown && call.at <= call.done
    requires Replay(c, h).phase == Open && Replay(c, h + Events(c, Replay(c, h), call)).phase == Open
    ensures var h' := h + Events(c, Replay(c, h), call);
      var v, v' := Replay(c, h), Replay(c, h');
      if Allowed(v, call.at) then
        && FailedProbes(c, h') == FailedProbes(c, h) + 1
        && v'.openedAt == call.done && v'.openedAt - v.openedAt >= Cooldown(c, FailedProbes(c, h))
      else FailedProbes(c, h') == FailedProbes(c, h) && v' == v
  {
    CooldownAfterFailedProbes(c, h);
    hide Replay, FailedProbes, FirstOpened, Cooldown;
    var v := Replay(c, h);
    ReplaySnoc(c, h, Ask(call.at));
    if Allowed(v, call.at) {
      var e := if call.ok then Success else Failure(call.done);
      ReplaySnoc(c, h + [Ask(call.at)], e);
      assert h + Events(c, v, call) == h + [Ask(call.at)] + [e];
    } else {
      assert h + Events(c, v, call) == h + [Ask(call.at)];
    }
  }

  lemma {:induction false} HistorySnoc(c: Config, calls: seq<Call>, j: nat)
    requires 0 < j <= |calls|
    ensures var before := History(c, calls[..j - 1]);
      History(c, calls[..j]) == before + Events(c, Replay(c, before), calls[j - 1])
  {
    assert calls[..j][..j - 1] == calls[..j - 1];
  }

  /** Successive failed probes are a cooldown apart wherever the stretch begins: from the opening in force before
      it to the one in force after it there lie all the cooldowns of the probes that failed in between. */
  lemma {:induction false} ProbesApartInStretch(c: Config, calls: seq<Call>, i: nat, j: nat)
    requires 0.0 <= c.baseCooldown && 0.0 <= c.maxCooldown && InTurn(calls) && OpenThroughout(c, calls, i, j)
    ensures var h, h' := History(c, calls[..i]), History(c, calls[..j]);
      && FailedProbes(c, h) <= FailedProbes(c, h')
      && Replay(c, h').openedAt - Replay(c, h).openedAt >=
          Backoff(c, FailedProbes(c, h')) - Backoff(c, FailedProbes(c, h))
    decreases j
  {
    hide History, Replay, FailedProbes, Events, Cooldown, Allowed;
    if i < j {
      ProbesApartInStretch(c, calls, i, j - 1);
      HistorySnoc(c, calls, j);
      var before := History(c, calls[..j - 1]);
      assert Replay(c, before).phase == Open && Replay(c, History(c, calls[..j])).phase == Open;
      OpenCall(c, before, calls[j - 1]);
    }
  }

  lemma {:induction false} BackoffGrows(c: Config, k: nat, n: nat, x: real)
    requires k <= n && forall m: nat :: k <= m < n ==> Cooldown(c, m) >= x
    ensures Backoff(c, n) - Backoff(c, k) >= Times(n - k, x)
    decreases n
  {
    if k < n {
      BackoffGrows(c, k, n - 1, x);
      OneMore(n - 1 - k, x);
    }
  }

  /** How many of the calls `i, ..., j - 1` the breaker lets through. */
  function LetThrough(c: Config, calls: seq<Call>, i: nat, j: nat): nat
    requires i <= j <= |calls|
    decreases j
  {
    if i == j then 0
    else
      LetThrough(c, calls, i, j - 1) +
      if Allowed(Replay(c, History(c, calls[..j - 1])), calls[j - 1].at) then 1 else 0
  }

  /** While the breaker stays open the calls let through are the failed probes. */
  lemma {:induction false} LetThroughAreProbes(c: Config, calls: seq<Call>, i: nat, j: nat)
    requires 0.0 <= c.baseCooldown && 0.0 <= c.maxCooldown && InTurn(calls) && OpenThroughout(c, calls, i, j)
    ensures FailedProbes(c, History(c, calls[..j])) == FailedProbes(c, History(c, calls[..i])) +
        LetThrough(c, calls, i, j)
    decreases j
  {
    hide History, Replay, FailedProbes, Events, Cooldown, Allowed;
    if i < j {
      LetThroughAreProbes(c, calls, i, j - 1);
      HistorySnoc(c, calls, j);
      var before := History(c, calls[..j - 1]);
      assert Replay(c, before).phase == Open && Replay(c, History(c, calls[..j])).phase == Open;
      OpenCall(c, before, calls[j - 1]);
    }
  }

  /** So in any stretch of a lasting outage the calls let through, times the shortest cooldown, are at most the
      time between the opening in force before the stretch and the one in force after it. */
  lemma {:induction false} ProbeRateInStretch(c: Config, calls: seq<Call>, i: nat, j: nat)
    requires 0.0 <= c.baseCooldown && 0.0 <= c.maxCooldown && InTurn(calls) && OpenThroughout(c, calls, i, j)
    ensures var h, h' := History(c, calls[..i]), History(c, calls[..j]);
      && FailedProbes(c, h') == FailedProbes(c, h) + LetThrough(c, calls, i, j)
      && Times(LetThrough(c, calls, i, j), Min(c.baseCooldown, c.maxCooldown))
           <= Replay(c, h').openedAt - Replay(c, h).openedAt
  {
    hide LetThrough, History, Replay, FailedProbes, Times, Backoff, Cooldown;
    ProbesApartInStretch(c, calls, i, j);
    LetThroughAreProbes(c, calls, i, j);
    var k, n := FailedProbes(c, History(c, calls[..i])), FailedProbes(c, History(c, calls[..j]));
    forall m: nat | k <= m < n ensures Cooldown(c, m) >= Min(c.baseCooldown, c.maxCooldown) { CooldownAtLeast(c, m); }
    BackoffGrows(c, k, n, Min(c.baseCooldown, c.maxCooldown));
  }
}
