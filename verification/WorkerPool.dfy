/**
 The worker pool of the AMQP consumer (src/analyzer_ng/amqp/dispatcher.py).

 A bounded priority queue feeds a fixed number of worker threads; each message is handled with
 retries, and ends in a reply, a published result, a dead letter, or nothing. First the handling
 of one message as the loop of the source; then the pool as steps that consumers, workers and
 shutdown take in any order.
 */
module WorkerPool {
  import opened Wrappers
  import opened Sorting

  datatype Item = Item(priority: int, number: nat, routingKey: string, replyTo: string, body: string)

  /** How one run of the handler ends. */
  datatype Outcome =
    | Handled(reply: Option<string>)
    | UnknownKey
    | NonRetryable(error: string)  // bad payload, unknown key deeper down, watchdog timeout
    | Error(error: string)

  datatype Message =
    | RpcReply(number: nat, body: string)
    | Result(number: nat, body: string)
    | DeadLetter(number: nat, error: string, retries: nat)

  datatype Config = Config(workers: nat, queueSize: int, maxRetries: nat, resultExchange: string)

  const RESULT_QUEUE_ROUTES := {"analyze", "analyze_item_early"}

  /** `_publish_reply`: the RPC contract, else the result exchange, else nothing. */
  function Outbound(c: Config, item: Item, reply: Option<string>): (r: Option<Message>)
    ensures r.Some? ==> r.value.number == item.number && !r.value.DeadLetter? && reply == Some(r.value.body)
    ensures r.Some? && r.value.RpcReply? <==> reply.Some? && item.replyTo != ""
    ensures r.Some? && r.value.Result? <==>
      && reply.Some? && item.replyTo == "" && (item.routingKey == "analyze" || item.routingKey == "analyze_item_early")
      && c.resultExchange != "" && reply.value != "" && reply.value != "[]"
  {
    if reply.None? then None
    else if item.replyTo != "" then Some(RpcReply(item.number, reply.value))
    else if item.routingKey in RESULT_QUEUE_ROUTES && c.resultExchange != "" && reply.value != "[]" &&
        reply.value != "" then
      Some(Result(item.number, reply.value))
    else None
  }

  datatype Verdict = Retry | Finish(message: Option<Message>)

  /** What follows the run of the handler after `attempt` failed ones. */
  function Decide(c: Config, item: Item, attempt: nat, o: Outcome): Verdict {
    match o
    case Handled(reply) => Finish(Outbound(c, item, reply))
    case UnknownKey => Finish(None)
    case NonRetryable(e) => Finish(Some(DeadLetter(item.number, e, attempt)))
    case Error(e) => if attempt >= c.maxRetries then Finish(Some(DeadLetter(item.number, e, attempt))) else Retry
  }

  // ----- one message -------------------------------------------------------

  /** Attempts `from, from + 1, ...`: how many handler runs there are in all, and what goes out.
      `stopped(k)` tells whether the pool stops during the wait after failed run `k`. */
  function Handle(c: Config, item: Item, from: nat, outcomes: nat -> Outcome,
      stopped: nat -> bool): (r: (nat, Option<Message>))
    requires from <= c.maxRetries
    ensures from < r.0 <= c.maxRetries + 1
    ensures r.1.Some? ==> r.1.value.number == item.number
    ensures r.1.Some? && r.1.value.DeadLetter? ==> r.1.value.retries == r.0 - 1
    ensures forall k :: from <= k < r.0 - 1 ==> outcomes(k).Error? && !stopped(k)
    ensures r.1 == match Decide(c, item, r.0 - 1, outcomes(r.0 - 1)) case Retry => None case Finish(m) => m
    ensures Decide(c, item, r.0 - 1, outcomes(r.0 - 1)).Retry? ==> stopped(r.0 - 1)
    decreases c.maxRetries - from
  {
    match Decide(c, item, from, outcomes(from))
    case Finish(m) => (from + 1, m)
    case Retry => if stopped(from) then (from + 1, None) else Handle(c, item, from + 1, outcomes, stopped)
  }

  /** How the handling of one message ends: all runs but the last raised an error that is tried again, and the last
      one decides. A failure is reported with the number of runs before it; an error only after the last of the
      runs that are allowed, and a stop in between leaves no message at all. */
  lemma {:induction false} HandleEnds(c: Config, item: Item, outcomes: nat -> Outcome, stopped: nat -> bool)
    ensures var (n, message) := Handle(c, item, 0, outcomes, stopped);
      && 1 <= n <= c.maxRetries + 1
      && (forall k :: 0 <= k < n - 1 ==> outcomes(k).Error? && !stopped(k))
      && match outcomes(n - 1)
         case Handled(reply) => message == Outbound(c, item, reply)
         case UnknownKey => message == None
         case NonRetryable(e) => message == Some(DeadLetter(item.number, e, n - 1))
         case Error(e) =>
           if n == c.maxRetries + 1 then message == Some(DeadLetter(item.number, e, c.maxRetries))
           else message == None && stopped(n - 1)
  {
    hide Outbound;
  }

  class Processor {
    const c: Config
    var sent: seq<Message>
    var calls: nat

    constructor (c: Config)
      ensures this.c == c && sent == [] && calls == 0
    {
      this.c := c;
      sent, calls := [], 0;
    }

    /** `sinkOk` tells whether handing the message to the publisher succeeds; its failures are only logged. */
    method ProcessBound(item: Item, outcomes: nat -> Outcome, stopped: nat -> bool, sinkOk: bool) returns (retries: nat)
      modifies this
      ensures var (n, message) := Handle(c, item, 0, outcomes, stopped);
        && calls == old(calls) + n
        && sent == old(sent) + (if message.Some? && sinkOk then [message.value] else [])
        && (message.Some? && message.value.DeadLetter? ==> retries == n - 1)
    {
      var attempt := 0;
      retries := 0;
      while true
        invariant attempt <= c.maxRetries && retries == attempt
        invariant calls == old(calls) + attempt && sent == old(sent)
        invariant Handle(c, item, attempt, outcomes, stopped) == Handle(c, item, 0, outcomes, stopped)
        decreases c.maxRetries - attempt
      {
        calls := calls + 1;
        var outcome := outcomes(attempt);
        if outcome.UnknownKey? {
          return;
        }
        if outcome.NonRetryable? {
          if sinkOk { sent := sent + [DeadLetter(item.number, outcome.error, retries)]; }
          return;
        }
        if outcome.Error? {
          if attempt >= c.maxRetries {
            if sinkOk { sent := sent + [DeadLetter(item.number, outcome.error, retries)]; }
            return;
          }
          attempt := attempt + 1;
          retries := attempt;
          if stopped(attempt - 1) {
            return;
          }
        } else {
          var message := Outbound(c, item, outcome.reply);
          if message.Some? && sinkOk { sent := sent + [message.value]; }
          return;
        }
      }
    }
  }

  // ----- the pool ----------------------------------------------------------

  /** Where a worker thread stands; `attempt` counts the handler runs of its item that have failed. */
  datatype Worker =
    | AtCheck                        // about to test the stop flag
    | Polling                        // past the test, waiting on the queue
    | Running(item: Item, attempt: nat)
    | Backoff(item: Item, attempt: nat)
    | Exited
  {
    predicate Busy() { Running? || Backoff? }
  }

  /** A message that is over: the runs it took, and what went out for it. */
  datatype Done = Done(item: Item, calls: nat, message: Option<Message>)

  datatype State = State(
    submitted: seq<Item>, queue: seq<Item>, workers: seq<Worker>, finished: seq<Done>,
    calls: map<nat, nat>, sent: seq<Message>, stopping: bool)
  {
    function With(w: nat, phase: Worker): State
      requires w < |workers|
    {
      this.(workers := workers[w := phase])
    }
  }

  function CallsOf(calls: map<nat, nat>, number: nat): nat {
    if number in calls then calls[number] else 0
  }

  function InitialState(c: Config): State {
    State([], [], seq(if c.workers == 0 then 1 else c.workers, _ => AtCheck), [], map[], [], false)
  }

  predicate Before(a: Item, b: Item) {
    a.priority < b.priority || (a.priority == b.priority && a.number < b.number)
  }

  /** The position of the least (priority, number) waiting. */
  function Least(q: seq<Item>): (i: nat)
    requires q != []
    ensures i < |q|
    ensures forall j :: 0 <= j < |q| ==> !Before(q[j], q[i])
  {
    if |q| == 1 then 0
    else
      var k := Least(q[..|q| - 1]);
      if Before(q[|q| - 1], q[k]) then |q| - 1 else k
  }

  datatype Event =
    | Submit(item: Item)
    | Check(w: nat)
    | Take(w: nat)
    | Empty(w: nat)
    | Call(w: nat, outcome: Outcome, sinkOk: bool)
    | Wake(w: nat)
    | Shutdown

  function Close(s: State, w: nat, item: Item, calls: nat, message: Option<Message>): State
    requires w < |s.workers|
  {
    s.(finished := s.finished + [Done(item, calls, message)],
       sent := s.sent + if message.Some? then [message.value] else []).With(w, AtCheck)
  }

  /** One atomic step; `None` when the event cannot happen. */
  function Step(c: Config, s: State, ev: Event): Option<State> {
    match ev
    case Submit(item) =>
      // put() blocks while the queue is full; numbers come from one counter, so they are never reused
      if (c.queueSize > 0 && |s.queue| >= c.queueSize) || exists i | i in s.submitted :: i.number == item.number then
          None
      else Some(s.(submitted := s.submitted + [item], queue := s.queue + [item]))
    case Check(w) =>
      if w < |s.workers| && s.workers[w].AtCheck? then Some(s.With(w, if s.stopping then Exited else Polling)) else None
    case Take(w) =>
      if w < |s.workers| && s.workers[w].Polling? && s.queue != [] then
        var i := Least(s.queue);
        Some(s.(queue := s.queue[..i] + s.queue[i + 1..]).With(w, Running(s.queue[i], 0)))
      else None
    case Empty(w) =>
      if w < |s.workers| && s.workers[w].Polling? && s.queue == [] then Some(s.With(w, AtCheck)) else None
    case Call(w, outcome, sinkOk) =>
      if w < |s.workers| && s.workers[w].Running? then
        var Running(item, attempt) := s.workers[w];
        var s1 := s.(calls := s.calls[item.number := CallsOf(s.calls, item.number) + 1]);
        match Decide(c, item, attempt, outcome)
        case Retry => Some(s1.With(w, Backoff(item, attempt + 1)))
        case Finish(m) => Some(Close(s1, w, item, attempt + 1, if sinkOk then m else None))
      else None
    case Wake(w) =>
      if w < |s.workers| && s.workers[w].Backoff? then
        var Backoff(item, attempt) := s.workers[w];
        if s.stopping then Some(Close(s, w, item, attempt, None)) else Some(s.With(w, Running(item, attempt)))
      else None
    case Shutdown => Some(s.(stopping := true))
  }

  function Run(c: Config, events: seq<Event>): Option<State> {
    if events == [] then Some(InitialState(c))
    else
      var s := Run(c, events[..|events| - 1]);
      if s.None? then None else Step(c, s.value, events[|events| - 1])
  }

  // ----- what every step keeps ---------------------------------------------

  function InHand(workers: seq<Worker>): seq<Item> {
    if workers == [] then []
    else InHand(workers[..|workers| - 1]) +
         if workers[|workers| - 1].Busy() then [workers[|workers| - 1].item] else []
  }

  function Over(finished: seq<Done>): seq<Item> {
    seq(|finished|, i requires 0 <= i < |finished| => finished[i].item)
  }

  /** Every submitted message is in exactly one place, once. */
  ghost predicate Conserved(submitted: seq<Item>, queue: seq<Item>, workers: seq<Worker>, finished: seq<Done>) {
    multiset(submitted) == multiset(queue) + multiset(InHand(workers)) + multiset(Over(finished))
  }

  function Number(): Item -> int { (i: Item) => i.number }

  predicate Quiet(sent: seq<Message>, number: nat) {
    forall i :: 0 <= i < |sent| ==> sent[i].number != number
  }

  ghost predicate QueueOk(queue: seq<Item>, calls: map<nat, nat>, sent: seq<Message>) {
    forall i :: 0 <= i < |queue| ==> CallsOf(calls, queue[i].number) == 0 && Quiet(sent, queue[i].number)
  }

  ghost predicate WorkerOk(c: Config, w: Worker, calls: map<nat, nat>, sent: seq<Message>) {
    match w
    case Running(item, attempt) => attempt <= c.maxRetries && CallsOf(calls, item.number) == attempt &&
      Quiet(sent, item.number)
    case Backoff(item, attempt) => 0 < attempt <= c.maxRetries && CallsOf(calls, item.number) == attempt &&
      Quiet(sent, item.number)
    case _ => true
  }

  ghost predicate WorkersOk(c: Config, workers: seq<Worker>, calls: map<nat, nat>, sent: seq<Message>) {
    forall w :: 0 <= w < |workers| ==> WorkerOk(c, workers[w], calls, sent)
  }

  ghost predicate DoneOk(c: Config, d: Done, calls: map<nat, nat>, sent: seq<Message>) {
    && 0 < d.calls == CallsOf(calls, d.item.number) <= c.maxRetries + 1
    && (d.message.Some? ==> d.message.value.number == d.item.number && d.message.value in sent)
    && (d.message.Some? && d.message.value.DeadLetter? ==> d.message.value.retries == d.calls - 1)
    && (forall i :: 0 <= i < |sent| && sent[i].number == d.item.number ==> d.message == Some(sent[i]))
  }

  ghost predicate DonesOk(c: Config, finished: seq<Done>, calls: map<nat, nat>, sent: seq<Message>) {
    forall d :: 0 <= d < |finished| ==> DoneOk(c, finished[d], calls, sent)
  }

  ghost predicate Known(submitted: seq<Item>, number: nat) {
    exists i :: 0 <= i < |submitted| && submitted[i].number == number
  }

  /** At most one message per number, and only numbers that were submitted are counted or sent. */
  ghost predicate TrafficOk(submitted: seq<Item>, calls: map<nat, nat>, sent: seq<Message>) {
    && (forall i, j :: 0 <= i < j < |sent| ==> sent[i].number != sent[j].number)
    && (forall i :: 0 <= i < |sent| ==> Known(submitted, sent[i].number))
    && (forall n | n in calls :: Known(submitted, n))
  }

  ghost predicate Inv(c: Config, s: State) {
    && Conserved(s.submitted, s.queue, s.workers, s.finished)
    && DistinctKeys(Number(), s.submitted)
    && QueueOk(s.queue, s.calls, s.sent)
    && WorkersOk(c, s.workers, s.calls, s.sent)
    && DonesOk(c, s.finished, s.calls, s.sent)
    && TrafficOk(s.submitted, s.calls, s.sent)
    && (c.queueSize > 0 ==> |s.queue| <= c.queueSize)
  }

  function Held(worker: Worker): multiset<Item> {
    if worker.Busy() then multiset{worker.item} else multiset{}
  }

  /** What the workers other than `w` hold. */
  function HeldByOthers(workers: seq<Worker>, w: nat): multiset<Item>
    requires w < |workers|
  {
    multiset(InHand(workers[..w])) + multiset(InHand(workers[w + 1..]))
  }

  lemma {:induction false} InHandLast(workers: seq<Worker>)
    requires workers != []
    ensures multiset(InHand(workers)) == multiset(InHand(workers[..|workers| - 1])) + Held(workers[|workers| - 1])
  {
  }

  lemma {:induction false} Slices(workers: seq<Worker>, w: nat)
    requires w < |workers| - 1
    ensures var n, others := |workers| - 1, workers[w + 1..];
      && workers[..n][..w] == workers[..w] && workers[..n][w + 1..] == others[..|others| - 1]
      && workers[..n][w] == workers[w] && others[|others| - 1] == workers[n]
  {
  }

  lemma {:induction false} InHandSplit(workers: seq<Worker>, w: nat)
    requires w < |workers|
    ensures multiset(InHand(workers)) == HeldByOthers(workers, w) + Held(workers[w])
  {
    hide InHand, Held;
    var n := |workers| - 1;
    if w == n {
      assert workers[w + 1..] == [];
      NobodyBusy([]);
      InHandLast(workers);
    } else {
      InHandSplit(workers[..n], w);
      Slices(workers, w);
      InHandLast(workers);
      InHandLast(workers[w + 1..]);
    }
  }

  lemma {:induction false} InHandUpdate(workers: seq<Worker>, w: nat, phase: Worker)
    requires w < |workers|
    ensures multiset(InHand(workers)) == HeldByOthers(workers, w) + Held(workers[w])
    ensures multiset(InHand(workers[w := phase])) == HeldByOthers(workers, w) + Held(phase)
  {
    InHandSplit(workers, w);
    InHandSplit(workers[w := phase], w);
    assert workers[w := phase][..w] == workers[..w] && workers[w := phase][w + 1..] == workers[w + 1..];
  }

  lemma {:induction false} BusyInHand(workers: seq<Worker>, w: nat)
    requires w < |workers| && workers[w].Busy()
    ensures workers[w].item in InHand(workers)
  {
    if w < |workers| - 1 { BusyInHand(workers[..|workers| - 1], w); }
  }

  /** With distinct numbers, nothing else submitted has the number of `x`. */
  lemma {:induction false} Lone(all: seq<Item>, rest: multiset<Item>, x: Item, y: Item)
    requires DistinctKeys(Number(), all) && multiset(all) == rest + multiset{x} && y in rest
    ensures y.number != x.number
  {
    assert x in multiset(all) && y in multiset(all);
    if y == x {
      var i, j := TwoPositions(all, x);
    } else {
      var i :| 0 <= i < |all| && all[i] == x;
      var j :| 0 <= j < |all| && all[j] == y;
      assert Number()(all[i]) == x.number && Number()(all[j]) == y.number;
    }
  }

  /** What is in hand of a worker is nowhere else. */
  lemma {:induction false} Apart(s: State, w: nat, x: Item)
    requires Conserved(s.submitted, s.queue, s.workers, s.finished) && DistinctKeys(Number(), s.submitted)
    requires w < |s.workers| && s.workers[w].Busy() && s.workers[w].item == x
    ensures forall i :: 0 <= i < |s.queue| ==> s.queue[i].number != x.number
    ensures forall v :: 0 <= v < |s.workers| && v != w && s.workers[v].Busy() ==> s.workers[v].item.number != x.number
    ensures forall d :: 0 <= d < |s.finished| ==> s.finished[d].item.number != x.number
    ensures Known(s.submitted, x.number)
  {
    hide InHand, HeldByOthers, DistinctKeys;
    var others := s.workers[w := AtCheck];
    var rest := multiset(s.queue) + multiset(InHand(others)) + multiset(Over(s.finished));
    InHandUpdate(s.workers, w, AtCheck);
    assert multiset(s.submitted) == rest + multiset{x};
    forall i | 0 <= i < |s.queue| ensures s.queue[i].number != x.number {
      assert s.queue[i] in multiset(s.queue);
      Lone(s.submitted, rest, x, s.queue[i]);
    }
    forall v | 0 <= v < |s.workers| && v != w && s.workers[v].Busy() ensures s.workers[v].item.number != x.number {
      BusyInHand(others, v);
      assert s.workers[v].item in multiset(InHand(others));
      Lone(s.submitted, rest, x, s.workers[v].item);
    }
    forall d | 0 <= d < |s.finished| ensures s.finished[d].item.number != x.number {
      assert Over(s.finished)[d] in multiset(Over(s.finished));
      Lone(s.submitted, rest, x, s.finished[d].item);
    }
    assert x in multiset(s.submitted);
    var i :| 0 <= i < |s.submitted| && s.submitted[i] == x;
  }

  lemma {:induction false} RemoveAtPermutes(q: seq<Item>, i: nat)
    requires i < |q|
    ensures multiset(q) == multiset(q[..i] + q[i + 1..]) + multiset{q[i]}
  {
    assert q == q[..i] + [q[i]] + q[i + 1..];
  }

  lemma {:induction false} TakeConserves(s: State, i: nat, w: nat)
    requires Conserved(s.submitted, s.queue, s.workers, s.finished)
    requires i < |s.queue| && w < |s.workers| && s.workers[w].Polling?
    ensures Conserved(s.submitted, s.queue[..i] + s.queue[i + 1..], s.workers[w := Running(s.queue[i], 0)], s.finished)
  {
    hide InHand, HeldByOthers, Over;
    RemoveAtPermutes(s.queue, i);
    InHandUpdate(s.workers, w, Running(s.queue[i], 0));
  }

  lemma {:induction false} CloseConserves(s: State, w: nat, d: Done)
    requires Conserved(s.submitted, s.queue, s.workers, s.finished)
    requires w < |s.workers| && s.workers[w].Busy() && s.workers[w].item == d.item
    ensures Conserved(s.submitted, s.queue, s.workers[w := AtCheck], s.finished + [d])
  {
    hide InHand, HeldByOthers;
    InHandUpdate(s.workers, w, AtCheck);
    assert Over(s.finished + [d]) == Over(s.finished) + [d.item];
  }

  lemma {:induction false} TakeKeeps(c: Config, s: State, s': State, w: nat)
    requires Inv(c, s) && Step(c, s, Take(w)) == Some(s')
    ensures Inv(c, s')
  {
    hide InHand, HeldByOthers, DonesOk, TrafficOk, DistinctKeys, Least, Conserved;
    var i := Least(s.queue);
    TakeConserves(s, i, w);
    assert forall j :: 0 <= j < |s'.queue| ==> s'.queue[j] == s.queue[if j < i then j else j + 1];
  }

  lemma {:induction false} SubmitKeeps(c: Config, s: State, s': State, item: Item)
    requires Inv(c, s) && Step(c, s, Submit(item)) == Some(s')
    ensures Inv(c, s')
  {
    hide InHand, HeldByOthers, DonesOk, WorkersOk;
    assert forall i :: 0 <= i < |s.submitted| ==> s.submitted[i] in s.submitted;
    assert !Known(s.submitted, item.number);
    SubmitTraffic(s.submitted, item, s.calls, s.sent);
    forall i, j | 0 <= i < j < |s'.submitted| ensures Number()(s'.submitted[i]) != Number()(s'.submitted[j]) {
      if j < |s.submitted| { assert Number()(s.submitted[i]) != Number()(s.submitted[j]); }
    }
  }

  lemma {:induction false} SubmitTraffic(submitted: seq<Item>, item: Item, calls: map<nat, nat>, sent: seq<Message>)
    requires TrafficOk(submitted, calls, sent) && !Known(submitted, item.number)
    ensures TrafficOk(submitted + [item], calls, sent)
    ensures CallsOf(calls, item.number) == 0 && Quiet(sent, item.number)
  {
    forall n | Known(submitted, n) ensures Known(submitted + [item], n) {
      var i :| 0 <= i < |submitted| && submitted[i].number == n;
      assert (submitted + [item])[i].number == n;
    }
  }

  /** Steps that move a worker without touching queue, messages or counts. */
  lemma {:induction false} MoveKeeps(c: Config, s: State, s': State, w: nat, phase: Worker)
    requires Inv(c, s) && w < |s.workers| && s' == s.With(w, phase)
    requires s.workers[w].Busy() == phase.Busy() && (phase.Busy() ==> phase.item == s.workers[w].item)
    requires WorkerOk(c, phase, s.calls, s.sent)
    ensures Inv(c, s')
  {
    hide InHand, HeldByOthers, DonesOk, TrafficOk, DistinctKeys, QueueOk;
    InHandUpdate(s.workers, w, phase);
  }

  /** One more run of the handler for the message in hand of `w`: nothing about other messages changes. */
  lemma {:induction false} CountKeeps(c: Config, s: State, w: nat, n: nat)
    requires Inv(c, s) && w < |s.workers| && s.workers[w].Busy()
    ensures var x := s.workers[w].item;
      var calls := s.calls[x.number := n];
      && QueueOk(s.queue, calls, s.sent) && DonesOk(c, s.finished, calls, s.sent) &&
          TrafficOk(s.submitted, calls, s.sent)
      && forall v :: 0 <= v < |s.workers| && v != w ==> WorkerOk(c, s.workers[v], calls, s.sent)
  {
    hide InHand, HeldByOthers, DistinctKeys;
    var x := s.workers[w].item;
    Apart(s, w, x);
    var calls := s.calls[x.number := n];
    forall v | 0 <= v < |s.workers| && v != w ensures WorkerOk(c, s.workers[v], calls, s.sent) {
      assert WorkerOk(c, s.workers[v], s.calls, s.sent);
    }
  }

  lemma {:induction false} RetryKeeps(c: Config, s: State, w: nat)
    requires Inv(c, s) && w < |s.workers| && s.workers[w].Running? && s.workers[w].attempt < c.maxRetries
    ensures var Running(x, attempt) := s.workers[w];
      Inv(c, s.(calls := s.calls[x.number := CallsOf(s.calls, x.number) + 1]).With(w, Backoff(x, attempt + 1)))
  {
    hide InHand, HeldByOthers, DonesOk, TrafficOk, DistinctKeys, QueueOk;
    var Running(x, attempt) := s.workers[w];
    assert WorkerOk(c, s.workers[w], s.calls, s.sent);
    CountKeeps(c, s, w, CallsOf(s.calls, x.number) + 1);
    InHandUpdate(s.workers, w, Backoff(x, attempt + 1));
  }

  /** A message for a number that was silent so far leaves the other numbers alone. */
  lemma {:induction false} SendKeeps(c: Config, s: State, calls: map<nat, nat>, w: nat, m: Message)
    requires Inv(c, s) && w < |s.workers| && s.workers[w].Busy() && m.number == s.workers[w].item.number &&
        Quiet(s.sent, m.number)
    requires QueueOk(s.queue, calls, s.sent) && DonesOk(c, s.finished, calls, s.sent) &&
        TrafficOk(s.submitted, calls, s.sent)
    requires forall v :: 0 <= v < |s.workers| && v != w ==> WorkerOk(c, s.workers[v], calls, s.sent)
    ensures var sent := s.sent + [m];
      && QueueOk(s.queue, calls, sent) && DonesOk(c, s.finished, calls, sent) && TrafficOk(s.submitted, calls, sent)
      && forall v :: 0 <= v < |s.workers| && v != w ==> WorkerOk(c, s.workers[v], calls, sent)
  {
    hide InHand, HeldByOthers, DistinctKeys, CallsOf;
    var sent := s.sent + [m];
    Apart(s, w, s.workers[w].item);
    forall number | Quiet(s.sent, number) && number != m.number ensures Quiet(sent, number) {}
    forall v | 0 <= v < |s.workers| && v != w ensures WorkerOk(c, s.workers[v], calls, sent) {
      assert WorkerOk(c, s.workers[v], calls, s.sent);
    }
    forall d | 0 <= d < |s.finished| ensures DoneOk(c, s.finished[d], calls, sent) {
      assert DoneOk(c, s.finished[d], calls, s.sent);
    }
  }

  /** The message in hand of `w` is over, with at most one message for it. */
  lemma {:induction false} CloseKeeps(c: Config, s: State, w: nat, n: nat, message: Option<Message>)
    requires Inv(c, s) && w < |s.workers| && s.workers[w].Busy()
    requires var x := s.workers[w].item;
      && 0 < n <= c.maxRetries + 1 && Quiet(s.sent, x.number)
      && (message.Some? ==> message.value.number == x.number)
      && (message.Some? && message.value.DeadLetter? ==> message.value.retries == n - 1)
    ensures var x := s.workers[w].item;
      Inv(c, Close(s.(calls := s.calls[x.number := n]), w, x, n, message))
  {
    hide InHand, HeldByOthers, DistinctKeys, QueueOk, TrafficOk, Conserved;
    var x := s.workers[w].item;
    var s' := Close(s.(calls := s.calls[x.number := n]), w, x, n, message);
    CountKeeps(c, s, w, n);
    if message.Some? { SendKeeps(c, s, s'.calls, w, message.value); } else { assert s'.sent == s.sent; }
    CloseConserves(s, w, Done(x, n, message));
    assert DoneOk(c, Done(x, n, message), s'.calls, s'.sent) by {
      if message.Some? { assert s'.sent[|s.sent|] == message.value; }
    }
  }

  lemma {:induction false} StepKeeps(c: Config, s: State, s': State, ev: Event)
    requires Inv(c, s) && Step(c, s, ev) == Some(s')
    ensures Inv(c, s')
  {
    hide Conserved, DistinctKeys, QueueOk, DonesOk, TrafficOk;
    match ev
    case Submit(item) => SubmitKeeps(c, s, s', item);
    case Check(w) => MoveKeeps(c, s, s', w, s'.workers[w]);
    case Take(w) => TakeKeeps(c, s, s', w);
    case Empty(w) => MoveKeeps(c, s, s', w, AtCheck);
    case Call(w, outcome, sinkOk) =>
      var Running(item, attempt) := s.workers[w];
      assert WorkerOk(c, s.workers[w], s.calls, s.sent);
      match Decide(c, item, attempt, outcome) {
        case Retry => RetryKeeps(c, s, w);
        case Finish(m) => CloseKeeps(c, s, w, attempt + 1, if sinkOk then m else None);
      }
    case Wake(w) =>
      var Backoff(item, attempt) := s.workers[w];
      assert WorkerOk(c, s.workers[w], s.calls, s.sent);
      if s.stopping {
        assert s.calls == s.calls[item.number := attempt];
        assert s == s.(calls := s.calls[item.number := attempt]);
        CloseKeeps(c, s, w, attempt, None);
      } else {
        MoveKeeps(c, s, s', w, Running(item, attempt));
      }
    case Shutdown =>
  }

  lemma {:induction false} NobodyBusy(workers: seq<Worker>)
    requires forall w :: 0 <= w < |workers| ==> !workers[w].Busy()
    ensures InHand(workers) == []
  {
    if workers != [] { NobodyBusy(workers[..|workers| - 1]); }
  }

  lemma {:induction false} RunKeeps(c: Config, events: seq<Event>)
    requires Run(c, events).Some?
    ensures Inv(c, Run(c, events).value)
  {
    if events == [] {
      NobodyBusy(InitialState(c).workers);
    } else {
      var n := |events| - 1;
      RunKeeps(c, events[..n]);
      StepKeeps(c, Run(c, events[..n]).value, Run(c, events).value, events[n]);
    }
  }

  // ----- the results -------------------------------------------------------

  /** Submitted = queued + running + finished, message by message. */
  lemma {:induction false} EveryMessageAccountedFor(c: Config, events: seq<Event>)
    requires Run(c, events).Some?
    ensures var s := Run(c, events).value;
      && multiset(s.submitted) == multiset(s.queue) + multiset(InHand(s.workers)) + multiset(Over(s.finished))
      && |s.submitted| == |s.queue| + |InHand(s.workers)| + |s.finished|
  {
    RunKeeps(c, events);
    var s := Run(c, events).value;
    assert |multiset(s.submitted)| == |s.submitted| && |multiset(s.queue)| == |s.queue|;
    assert |multiset(InHand(s.workers))| == |InHand(s.workers)| && |multiset(Over(s.finished))| == |s.finished|;
  }

  /** Some finished message ended with `m`. */
  predicate EndsWith(finished: seq<Done>, m: Message) {
    exists d :: 0 <= d < |finished| && finished[d].message == Some(m)
  }

  /** However the pool is scheduled: no message is handled more than max_retries + 1 times, none causes two
      outbound messages, everything sent is what some finished message ended with, and a dead letter says
      attempts minus one. */
  lemma {:induction false} AtMostOneOutboundMessage(c: Config, events: seq<Event>)
    requires Run(c, events).Some?
    ensures var s := Run(c, events).value;
      && (forall n: nat :: CallsOf(s.calls, n) <= c.maxRetries + 1)
      && (forall i, j :: 0 <= i < j < |s.sent| ==> s.sent[i].number != s.sent[j].number)
      && (forall k :: 0 <= k < |s.sent| ==> EndsWith(s.finished, s.sent[k]))
      && (forall k :: 0 <= k < |s.sent| && s.sent[k].DeadLetter? ==>
          s.sent[k].retries == CallsOf(s.calls, s.sent[k].number) - 1)
      && (forall d :: 0 <= d < |s.finished| && s.finished[d].message.Some? ==>
            s.finished[d].message.value.number == s.finished[d].item.number && s.finished[d].message.value in s.sent)
  {
    RunKeeps(c, events);
    var s := Run(c, events).value;
    hide Run, Inv;
    forall n: nat ensures CallsOf(s.calls, n) <= c.maxRetries + 1 {
      if n in s.calls { Counted(c, s, n); }
    }
    SentAreFinished(c, s);
  }

  lemma {:induction false} Counted(c: Config, s: State, n: nat)
    requires Inv(c, s) && n in s.calls
    ensures CallsOf(s.calls, n) <= c.maxRetries + 1
  {
    CallsBounded(c, s, n);
  }

  lemma {:induction false} SentAreFinished(c: Config, s: State)
    requires Inv(c, s)
    ensures forall i, j :: 0 <= i < j < |s.sent| ==> s.sent[i].number != s.sent[j].number
    ensures forall k :: 0 <= k < |s.sent| ==> EndsWith(s.finished, s.sent[k])
    ensures forall k :: 0 <= k < |s.sent| && s.sent[k].DeadLetter? ==>
      s.sent[k].retries == CallsOf(s.calls, s.sent[k].number) - 1
    ensures forall d :: 0 <= d < |s.finished| && s.finished[d].message.Some? ==>
      s.finished[d].message.value.number == s.finished[d].item.number && s.finished[d].message.value in s.sent
  {
    assert TrafficOk(s.submitted, s.calls, s.sent);
    assert forall d :: 0 <= d < |s.finished| ==> DoneOk(c, s.finished[d], s.calls, s.sent);
    hide Inv;
    forall k | 0 <= k < |s.sent|
      ensures EndsWith(s.finished, s.sent[k])
      ensures s.sent[k].DeadLetter? ==> s.sent[k].retries == CallsOf(s.calls, s.sent[k].number) - 1
    {
      var d := SentBy(c, s, k);
    }
  }

  /** The finished message that a sent one belongs to. */
  lemma {:induction false} SentBy(c: Config, s: State, k: nat) returns (d: nat)
    requires Inv(c, s) && k < |s.sent|
    ensures d < |s.finished| && s.finished[d].message == Some(s.sent[k]) && DoneOk(c, s.finished[d], s.calls, s.sent)
  {
    assert Known(s.submitted, s.sent[k].number);
    var i :| 0 <= i < |s.submitted| && s.submitted[i].number == s.sent[k].number;
    var x := s.submitted[i];
    assert x in multiset(s.submitted);
    SentIsOver(c, s, x);
    d :| 0 <= d < |s.finished| && Over(s.finished)[d] == x;
    assert DoneOk(c, s.finished[d], s.calls, s.sent);
  }

  /** What has been sent for is neither waiting nor in hand. */
  lemma {:induction false} SentIsOver(c: Config, s: State, x: Item)
    requires Inv(c, s) && x in multiset(s.submitted) && !Quiet(s.sent, x.number)
    ensures x in Over(s.finished)
  {
    forall j | 0 <= j < |s.queue| ensures s.queue[j] != x { assert Quiet(s.sent, s.queue[j].number); }
    assert x !in multiset(s.queue);
    if x in InHand(s.workers) { NotInHand(c, s, x); }
    assert x !in multiset(InHand(s.workers));
  }

  lemma {:induction false} NotInHand(c: Config, s: State, x: Item)
    requires Inv(c, s) && !Quiet(s.sent, x.number)
    ensures x !in InHand(s.workers)
  {
    if x in InHand(s.workers) {
      HeldIsQuiet(c, s, x);
    }
  }

  lemma {:induction false} HeldIsQuiet(c: Config, s: State, x: Item)
    requires Inv(c, s) && x in InHand(s.workers)
    ensures Quiet(s.sent, x.number)
  {
    var w := HolderOf(s.workers, x);
    assert WorkerOk(c, s.workers[w], s.calls, s.sent);
  }

  lemma {:induction false} CallsBounded(c: Config, s: State, n: nat)
    requires Inv(c, s) && Known(s.submitted, n)
    ensures CallsOf(s.calls, n) <= c.maxRetries + 1
  {
    var i :| 0 <= i < |s.submitted| && s.submitted[i].number == n;
    var x := s.submitted[i];
    assert x in multiset(s.submitted);
    if x in multiset(s.queue) {
      var j :| 0 <= j < |s.queue| && s.queue[j] == x;
    } else if x in multiset(InHand(s.workers)) {
      var w := HolderOf(s.workers, x);
      assert WorkerOk(c, s.workers[w], s.calls, s.sent);
    } else {
      var d :| 0 <= d < |s.finished| && Over(s.finished)[d] == x;
      assert DoneOk(c, s.finished[d], s.calls, s.sent);
    }
  }

  lemma {:induction false} HolderOf(workers: seq<Worker>, x: Item) returns (w: nat)
    requires x in InHand(workers)
    ensures w < |workers| && workers[w].Busy() && workers[w].item == x
  {
    var n := |workers| - 1;
    if workers[n].Busy() && workers[n].item == x { w := n; } else { w := HolderOf(workers[..n], x); }
  }

  /** A worker takes the oldest message waiting: nothing left in the queue comes before it. */
  lemma {:induction false} TakesLeast(c: Config, events: seq<Event>, w: nat)
    requires Run(c, events).Some? && Step(c, Run(c, events).value, Take(w)).Some?
    ensures var s, s' := Run(c, events).value, Step(c, Run(c, events).value, Take(w)).value;
      && s'.workers[w].Running? && s'.workers[w].attempt == 0 && s'.workers[w].item in s.queue
      && multiset(s.queue) == multiset(s'.queue) + multiset{s'.workers[w].item}
      && forall other <- s'.queue :: var item := s'.workers[w].item;
           item.priority < other.priority || (item.priority == other.priority && item.number < other.number)
  {
    RunKeeps(c, events);
    RemoveAtPermutes(Run(c, events).value.queue, Least(Run(c, events).value.queue));
    TakesLeastStep(c, Run(c, events).value, w);
  }

  lemma {:induction false} TakesLeastStep(c: Config, s: State, w: nat)
    requires Inv(c, s) && Step(c, s, Take(w)).Some?
    ensures var s' := Step(c, s, Take(w)).value;
      && s'.workers[w].Running? && s'.workers[w].item in s.queue
      && forall i :: 0 <= i < |s'.queue| ==> Before(s'.workers[w].item, s'.queue[i])
  {
    hide Inv, Conserved, DistinctKeys;
    var s' := Step(c, s, Take(w)).value;
    TakeKeeps(c, s, s', w);
    NumbersApart(c, s', w);
    var k := Least(s.queue);
    forall i | 0 <= i < |s'.queue| ensures Before(s'.workers[w].item, s'.queue[i]) {
      assert s'.queue[i] == s.queue[if i < k then i else i + 1];
    }
  }

  lemma {:induction false} NumbersApart(c: Config, s: State, w: nat)
    requires Inv(c, s) && w < |s.workers| && s.workers[w].Busy()
    ensures forall i :: 0 <= i < |s.queue| ==> s.queue[i].number != s.workers[w].item.number
  {
    Apart(s, w, s.workers[w].item);
  }

  lemma {:induction false} StepKeepsWorkers(c: Config, s: State, ev: Event)
    ensures Step(c, s, ev).Some? ==> |Step(c, s, ev).value.workers| == |s.workers|
  {
  }

  lemma {:induction false} WorkersStay(c: Config, events: seq<Event>)
    requires Run(c, events).Some?
    ensures |Run(c, events).value.workers| == if c.workers > 1 then c.workers else 1
  {
    hide Step;
    if events != [] {
      var n := |events| - 1;
      WorkersStay(c, events[..n]);
      StepKeepsWorkers(c, Run(c, events[..n]).value, events[n]);
    }
  }

  /** Until shutdown no worker leaves, and whatever a worker is doing, it can go on. */
  lemma {:induction false} NoWorkerIsLost(c: Config, events: seq<Event>, w: nat, o: Outcome)
    requires Run(c, events).Some? && w < |Run(c, events).value.workers|
    ensures var s := Run(c, events).value;
      && (s.workers[w].Exited? ==> s.stopping)
      && (s.workers[w].AtCheck? ==> Step(c, s, Check(w)).Some?)
      && (s.workers[w].Polling? ==> Step(c, s, if s.queue == [] then Empty(w) else Take(w)).Some?)
      && (s.workers[w].Running? ==> Step(c, s, Call(w, o, true)).Some?)
      && (s.workers[w].Backoff? ==> Step(c, s, Wake(w)).Some?)
  {
    if !Run(c, events).value.stopping { NobodyLeavesEarly(c, events); }
  }

  lemma {:induction false} NobodyLeavesEarly(c: Config, events: seq<Event>)
    requires Run(c, events).Some? && !Run(c, events).value.stopping
    ensures forall w <- Run(c, events).value.workers :: !w.Exited?
  {
    if events != [] {
      var n := |events| - 1;
      StepLosesNobody(c, Run(c, events[..n]).value, Run(c, events).value, events[n]);
      NobodyLeavesEarly(c, events[..n]);
    }
  }

  lemma {:induction false} StepLosesNobody(c: Config, s: State, s': State, ev: Event)
    requires Step(c, s, ev) == Some(s') && !s'.stopping
    ensures !s.stopping
    ensures (forall w <- s.workers :: !w.Exited?) ==> forall w <- s'.workers :: !w.Exited?
  {
  }

  lemma {:induction false} HandsFull(workers: seq<Worker>)
    ensures |InHand(workers)| <= |workers|
  {
    if workers != [] { HandsFull(workers[..|workers| - 1]); }
  }

  /** However the pool is scheduled, it never has more workers than configured, at least one, never more messages in
      hand than workers, and never more waiting than the queue takes; a message with a new number is turned away
      exactly while the queue is full. */
  lemma {:induction false} PoolIsBounded(c: Config, events: seq<Event>, item: Item)
    requires Run(c, events).Some?
    ensures var s := Run(c, events).value;
      && |s.workers| == (if c.workers > 1 then c.workers else 1)
      && |InHand(s.workers)| <= |s.workers|
      && (c.queueSize > 0 ==> |s.queue| <= c.queueSize)
      && ((forall i | i in s.submitted :: i.number != item.number) ==>
            (Step(c, s, Submit(item)) == None <==> |s.queue| == c.queueSize && c.queueSize > 0))
  {
    WorkersStay(c, events);
    RunKeeps(c, events);
    HandsFull(Run(c, events).value.workers);
    hide Conserved, DistinctKeys, QueueOk, WorkersOk, DonesOk, TrafficOk, InHand, Run;
  }

  function PastCheck(workers: seq<Worker>): nat {
    if workers == [] then 0
    else PastCheck(workers[..|workers| - 1]) + if workers[|workers| - 1].Polling? then 1 else 0
  }

  function Takes(events: seq<Event>): nat {
    if events == [] then 0 else Takes(events[..|events| - 1]) + if events[|events| - 1].Take? then 1 else 0
  }

  lemma {:induction false} PastCheckUpdate(workers: seq<Worker>, w: nat, phase: Worker)
    requires w < |workers|
    ensures PastCheck(workers[w := phase]) + (if workers[w].Polling? then 1 else 0)
         == PastCheck(workers) + (if phase.Polling? then 1 else 0)
  {
    var n := |workers| - 1;
    if w == n {
      assert workers[w := phase][..n] == workers[..n];
    } else {
      PastCheckUpdate(workers[..n], w, phase);
      assert workers[w := phase][..n] == workers[..n][w := phase];
    }
  }

  /** After shutdown, only workers already past the stop test can still take a message, one each. */
  lemma {:induction false} FewTakesAfterShutdown(c: Config, before: seq<Event>, after: seq<Event>)
    requires Run(c, before + after).Some? && Run(c, before).Some? && Run(c, before).value.stopping
    ensures Run(c, before + after).value.stopping
    ensures Takes(after) + PastCheck(Run(c, before + after).value.workers) <= PastCheck(Run(c, before).value.workers)
  {
    hide Step, PastCheck;
    if after == [] {
      assert before + after == before;
    } else {
      var n := |after| - 1;
      assert (before + after)[..|before| + n] == before + after[..n];
      FewTakesAfterShutdown(c, before, after[..n]);
      StepPastCheck(c, Run(c, before + after[..n]).value, Run(c, before + after).value, after[n]);
    }
  }

  lemma {:induction false} StepPastCheck(c: Config, s: State, s': State, ev: Event)
    requires s.stopping && Step(c, s, ev) == Some(s')
    ensures s'.stopping && PastCheck(s'.workers) + (if ev.Take? then 1 else 0) <= PastCheck(s.workers)
  {
    if !ev.Submit? && !ev.Shutdown? {
      PastCheckUpdate(s.workers, ev.w, s'.workers[ev.w]);
      assert s'.workers == s.workers[ev.w := s'.workers[ev.w]];
    }
  }

  // ----- handling one message is a run of the pool --------------------------------

  lemma {:induction false} RunSnoc(c: Config, events: seq<Event>, ev: Event)
    ensures Run(c, events + [ev]) == if Run(c, events).None? then None else Step(c, Run(c, events).value, ev)
  {
    assert (events + [ev])[..|events|] == events;
  }

  /** The pool after worker `w` is done with an item: `n` more handler runs, and `message` if it could be sent. */
  ghost predicate LeavesPool(s: State, s': State, w: nat, item: Item, n: int, calls: nat, message: Option<Message>)
    requires w < |s.workers|
  {
    && s'.workers == s.workers[w := AtCheck] && s'.queue == s.queue && s'.submitted == s.submitted
    && s'.finished == s.finished + [Done(item, calls, message)]
    && s'.sent == s.sent + (if message.Some? then [message.value] else [])
    && CallsOf(s'.calls, item.number) == CallsOf(s.calls, item.number) + n
  }

  /** One more handler run on the books. */
  function Counting(s: State, item: Item): map<nat, nat> {
    s.calls[item.number := CallsOf(s.calls, item.number) + 1]
  }

  /** The last handler run of an item. */
  lemma {:induction false} LastCall(c: Config, s: State, w: nat, item: Item, attempt: nat, o: Outcome, sinkOk: bool)
    requires w < |s.workers| && s.workers[w] == Running(item, attempt) && Decide(c, item, attempt, o).Finish?
    ensures var next := Step(c, s, Call(w, o, sinkOk));
      var message := if sinkOk then Decide(c, item, attempt, o).message else None;
      next.Some? && LeavesPool(s, next.value, w, item, 1, attempt + 1, message)
  {
  }

  /** A failed run that will be tried again. */
  lemma {:induction false} RetryCall(c: Config, s: State, w: nat, item: Item, attempt: nat, o: Outcome, sinkOk: bool)
    requires w < |s.workers| && s.workers[w] == Running(item, attempt) && Decide(c, item, attempt, o).Retry?
    ensures Step(c, s, Call(w, o, sinkOk)) ==
      Some(s.(calls := Counting(s, item), workers := s.workers[w := Backoff(item, attempt + 1)]))
  {
  }

  lemma {:induction false} WakeUp(c: Config, s: State, calls: map<nat, nat>, w: nat, item: Item, attempt: nat)
    requires w < |s.workers| && !s.stopping
    ensures Step(c, s.(calls := calls, workers := s.workers[w := Backoff(item, attempt)]), Wake(w)) ==
      Some(s.(calls := calls, workers := s.workers[w := Running(item, attempt)]))
  {
    var back := s.workers[w := Backoff(item, attempt)];
    assert back[w := Running(item, attempt)] == s.workers[w := Running(item, attempt)];
  }

  lemma {:induction false} WakeToStop(c: Config, s: State, w: nat, item: Item, attempt: nat)
    requires w < |s.workers|
    ensures var waiting := s.(calls := Counting(s, item), workers := s.workers[w := Backoff(item, attempt)],
        stopping := true);
      var next := Step(c, waiting, Wake(w));
      next.Some? && LeavesPool(s, next.value, w, item, 1, attempt, None)
  {
  }

  /** One run more in front of the others. */
  lemma {:induction false} OneRunMore(s: State, s': State, w: nat, item: Item, phase: Worker, n: int, calls: nat,
      message: Option<Message>)
    requires w < |s.workers|
    requires LeavesPool(s.(calls := Counting(s, item), workers := s.workers[w := phase]), s', w, item, n, calls,
        message)
    ensures LeavesPool(s, s', w, item, n + 1, calls, message)
  {
  }

  /** The attempt loop on one message is a run of the pool: calls and waits of its worker, with the shutdown
      during the wait in which the pool stops, leave what `Handle` gives. */
  lemma {:induction false} HandlingIsARun(
      c: Config, before: seq<Event>, s: State, w: nat, item: Item, attempt: nat,
      outcomes: nat -> Outcome, stopped: nat -> bool, sinkOk: bool) returns (after: seq<Event>)
    requires Run(c, before) == Some(s) && w < |s.workers| && s.workers[w] == Running(item, attempt)
    requires attempt <= c.maxRetries && !s.stopping
    ensures before <= after && Run(c, after).Some?
    ensures var (n, message) := Handle(c, item, attempt, outcomes, stopped);
      LeavesPool(s, Run(c, after).value, w, item, n - attempt, n, if sinkOk then message else None)
    decreases c.maxRetries - attempt
  {
    hide Run, Step, LeavesPool, Outbound, Counting;
    var o := outcomes(attempt);
    RunSnoc(c, before, Call(w, o, sinkOk));
    after := before + [Call(w, o, sinkOk)];
    if Decide(c, item, attempt, o).Finish? {
      LastCall(c, s, w, item, attempt, o, sinkOk);
    } else if stopped(attempt) {
      RetryCall(c, s, w, item, attempt, o, sinkOk);
      RunSnoc(c, after, Shutdown);
      after := after + [Shutdown];
      StopNow(c, s.(calls := Counting(s, item), workers := s.workers[w := Backoff(item, attempt + 1)]));
      WakeToStop(c, s, w, item, attempt + 1);
      RunSnoc(c, after, Wake(w));
      after := after + [Wake(w)];
    } else {
      RetryCall(c, s, w, item, attempt, o, sinkOk);
      WakeUp(c, s, Counting(s, item), w, item, attempt + 1);
      RunSnoc(c, after, Wake(w));
      after := after + [Wake(w)];
      var again := Running(item, attempt + 1);
      after := HandlingIsARun(c, after, s.(calls := Counting(s, item), workers := s.workers[w := again]), w,
        item, attempt + 1, outcomes, stopped, sinkOk);
      var (n, message) := Handle(c, item, attempt + 1, outcomes, stopped);
      OneRunMore(s, Run(c, after).value, w, item, again, n - attempt - 1, n, if sinkOk then message else None);
    }
  }

  lemma {:induction false} StopNow(c: Config, s: State)
    ensures Step(c, s, Shutdown) == Some(s.(stopping := true))
  {
  }
}
