/**
 Indexing under compare-and-swap (src/analyzer_ng/core/ingest.py, src/analyzer_ng/ml/drain.py).

 One project's Drain state lives in a register with a version. An indexer loads it, mines its
 batch in memory, and saves if the version has not moved; otherwise it starts over, a bounded
 number of times. Projects share nothing, so one register is enough. The miner, its codec and
 the template table are abstract: `Miner` is what the code relies on.

 First the retry loop of one indexer against a store that others change in between; then any
 number of indexers interleaved step by step, with or without the advisory lock.
 */
module DrainCas {
  import opened Wrappers

  /** `S` mined state, `E` one entry, `R` what mining it yields, `G` its signature, `T` the template table. */
  datatype Miner<!S, !E, !R, !G, !T> = Miner(
    mine: (S, E) -> (S, R),       // one item against the tree, which it changes
    sign: (S, R) -> G,            // template texts filled in from the final tree
    encode: S -> seq<int>,
    decode: seq<int> -> Option<S>,
    rebuild: T -> S,              // warm an empty tree from the stored templates
    mirror: (T, S) -> T)          // upsert the clusters into the template table

  /** The blob that is stored is the state that is loaded. */
  ghost predicate Lawful<S(!new), E, R, G, T>(m: Miner<S, E, R, G, T>) {
    forall s :: m.decode(m.encode(s)) == Some(s)
  }

  datatype Row = Row(blob: seq<int>, version: nat)

  function VersionOf(row: Option<Row>): nat {
    if row.Some? then row.value.version else 0
  }

  /** `load_manager`: the stored state if it decodes, else a tree rebuilt from the templates. */
  function Base<S, E, R, G, T>(m: Miner<S, E, R, G, T>, row: Option<Row>, templates: T): S {
    if row.Some? && m.decode(row.value.blob).Some? then m.decode(row.value.blob).value else m.rebuild(templates)
  }

  function MineAll<S, E, R, G, T>(m: Miner<S, E, R, G, T>, s: S, entries: seq<E>): (S, seq<R>) {
    if entries == [] then (s, [])
    else
      var (s', rs) := MineAll(m, s, entries[..|entries| - 1]);
      var (s'', r) := m.mine(s', entries[|entries| - 1]);
      (s'', rs + [r])
  }

  function Mined<S, E, R, G, T>(m: Miner<S, E, R, G, T>, s: S, entries: seq<E>): S {
    MineAll(m, s, entries).0
  }

  /** The signatures of a batch mined from `s`. */
  function Signatures<S, E, R, G, T>(m: Miner<S, E, R, G, T>, s: S, entries: seq<E>): (r: seq<G>)
    ensures |r| == |MineAll(m, s, entries).1|
  {
    var (s', rs) := MineAll(m, s, entries);
    seq(|rs|, i requires 0 <= i < |rs| => m.sign(s', rs[i]))
  }

  /** Mine whole batches one after the other. */
  function Fold<S, E, R, G, T>(m: Miner<S, E, R, G, T>, s: S, batches: seq<seq<E>>): S {
    if batches == [] then s
    else Mined(m, Fold(m, s, batches[..|batches| - 1]), batches[|batches| - 1])
  }

  lemma {:induction false} MinedAppend<S, E, R, G, T>(m: Miner<S, E, R, G, T>, s: S, a: seq<E>, b: seq<E>)
    ensures Mined(m, s, a + b) == Mined(m, Mined(m, s, a), b)
  {
    if b == [] {
      assert a + b == a;
    } else {
      var n := |b| - 1;
      assert (a + b)[..|a + b| - 1] == a + b[..n];
      MinedAppend(m, s, a, b[..n]);
    }
  }

  /** A batch is mined entry by entry, in order; the signature of an entry is that of what mining it gave, after the
      entries before it, filled in from the tree that the whole batch left. */
  lemma {:induction false} SignaturesAfterTheBatch<S, E, R, G, T>(
      m: Miner<S, E, R, G, T>, s: S, entries: seq<E>, i: nat)
    requires i < |entries|
    ensures Mined(m, s, entries[..0]) == s
    ensures Mined(m, s, entries[..i + 1]) == m.mine(Mined(m, s, entries[..i]), entries[i]).0
    ensures |Signatures(m, s, entries)| == |entries|
    ensures Signatures(m, s, entries)[i] ==
      m.sign(Mined(m, s, entries), m.mine(Mined(m, s, entries[..i]), entries[i]).1)
  {
    ResultAt(m, s, entries, i);
    assert entries[..i + 1][..i] == entries[..i];
  }

  lemma {:induction false} ResultAt<S, E, R, G, T>(m: Miner<S, E, R, G, T>, s: S, entries: seq<E>, i: nat)
    requires i < |entries|
    ensures |MineAll(m, s, entries).1| == |entries|
    ensures MineAll(m, s, entries).1[i] == m.mine(Mined(m, s, entries[..i]), entries[i]).1
  {
    var n := |entries| - 1;
    if n > 0 { ResultAt(m, s, entries[..n], if i < n then i else 0); }
    if i < n { assert entries[..n][..i] == entries[..i]; }
  }

  function Flat<E>(batches: seq<seq<E>>): seq<E> {
    if batches == [] then [] else Flat(batches[..|batches| - 1]) + batches[|batches| - 1]
  }

  /** Batches one after the other are their entries one after the other: no entry is lost or mined twice. */
  lemma {:induction false} FoldIsMined<S, E, R, G, T>(m: Miner<S, E, R, G, T>, s: S, batches: seq<seq<E>>)
    ensures Fold(m, s, batches) == Mined(m, s, Flat(batches))
  {
    if batches != [] {
      var n := |batches| - 1;
      FoldIsMined(m, s, batches[..n]);
      MinedAppend(m, s, Flat(batches[..n]), batches[n]);
    }
  }

  lemma {:induction false} FoldAppend<S, E, R, G, T>(m: Miner<S, E, R, G, T>, s: S, a: seq<seq<E>>, b: seq<seq<E>>)
    ensures Fold(m, s, a + b) == Fold(m, Fold(m, s, a), b)
  {
    if b == [] {
      assert a + b == a;
    } else {
      var n := |b| - 1;
      assert (a + b)[..|a + b| - 1] == a + b[..n];
      FoldAppend(m, s, a, b[..n]);
    }
  }

  /** The template table after each of the batches has been committed and mirrored in turn. */
  function Mirrors<S, E, R, G, T>(m: Miner<S, E, R, G, T>, t: T, s: S, batches: seq<seq<E>>): T {
    if batches == [] then t else m.mirror(Mirrors(m, t, s, batches[..|batches| - 1]), Fold(m, s, batches))
  }

  lemma {:induction false} MirrorsAppend<S, E, R, G, T>(
      m: Miner<S, E, R, G, T>, t: T, s: S, a: seq<seq<E>>, b: seq<seq<E>>)
    ensures Mirrors(m, t, s, a + b) == Mirrors(m, Mirrors(m, t, s, a), Fold(m, s, a), b)
  {
    if b == [] {
      assert a + b == a;
    } else {
      var n := |b| - 1;
      assert (a + b)[..|a + b| - 1] == a + b[..n];
      MirrorsAppend(m, t, s, a, b[..n]);
      FoldAppend(m, s, a, b);
    }
  }

  lemma {:induction false} MirrorsSnoc<S, E, R, G, T>(
      m: Miner<S, E, R, G, T>, t: T, s: S, a: seq<seq<E>>, entries: seq<E>)
    ensures Mirrors(m, t, s, a + [entries]) == m.mirror(Mirrors(m, t, s, a), Mined(m, Fold(m, s, a), entries))
  {
    assert (a + [entries])[..|a|] == a;
  }

  lemma {:induction false} MirrorsNone<S, E, R, G, T>(m: Miner<S, E, R, G, T>, t: T, s: S)
    ensures Mirrors(m, t, s, []) == t
  {
  }

  lemma {:induction false} FoldSnoc<S, E, R, G, T>(m: Miner<S, E, R, G, T>, s: S, a: seq<seq<E>>, entries: seq<E>)
    ensures Fold(m, s, a + [entries]) == Mined(m, Fold(m, s, a), entries)
  {
    assert (a + [entries])[..|a|] == a;
  }

  lemma {:induction false} FoldNone<S, E, R, G, T>(m: Miner<S, E, R, G, T>, s: S)
    ensures Fold(m, s, []) == s
  {
  }

  lemma SavedState<S(!new), E, R, G, T>(m: Miner<S, E, R, G, T>, row: Option<Row>, templates: T, state: S)
    requires Lawful(m) && row.Some? && row.value.blob == m.encode(state)
    ensures Base(m, row, templates) == state
  {
  }

  // ----- one indexer, the store changing under it ---------------------------

  class DrainStore<S(!new), E, R, G, T> {
    const m: Miner<S, E, R, G, T>
    var row: Option<Row>
    var templates: T

    constructor (m: Miner<S, E, R, G, T>, templates: T)
      ensures this.m == m && row == None && this.templates == templates
    {
      this.m := m;
      row := None;
      this.templates := templates;
    }

    /** The state an indexer would load now. */
    ghost function Now(): S
      reads this
    {
      Base(m, row, templates)
    }

    method SaveManager(state: S, expected: nat) returns (saved: bool)
      modifies this
      ensures saved <==> VersionOf(old(row)) == expected
      ensures row == if saved then Some(Row(m.encode(state), expected + 1)) else old(row)
      ensures templates == if saved then m.mirror(old(templates), state) else old(templates)
    {
      saved := VersionOf(row) == expected;
      if saved {
        row := Some(Row(m.encode(state), expected + 1));
        templates := m.mirror(templates, state);
      }
    }

    /** Other indexers commit `batches` in turn. */
    method Rivals(batches: seq<seq<E>>)
      requires Lawful(m)
      modifies this
      ensures Now() == Fold(m, old(Now()), batches)
      ensures templates == Mirrors(m, old(templates), old(Now()), batches)
      ensures VersionOf(row) == VersionOf(old(row)) + |batches|
      ensures batches == [] ==> row == old(row) && templates == old(templates)
    {
      for i := 0 to |batches|
        invariant Now() == Fold(m, old(Now()), batches[..i])
        invariant templates == Mirrors(m, old(templates), old(Now()), batches[..i])
        invariant VersionOf(row) == VersionOf(old(row)) + i
        invariant i == 0 ==> row == old(row) && templates == old(templates)
      {
        assert batches[..i + 1][..i] == batches[..i];
        var saved := SaveManager(Mined(m, Base(m, row, templates), batches[i]), VersionOf(row));
      }
      assert batches[..|batches|] == batches;
    }

    /**
     Mine and save, starting over on a lost race. `rivals(k)` are the batches that others commit
     between the load and the save of attempt `k`; the first attempt without any wins.
     */
    method MineAndBuild(entries: seq<E>, retries: nat, rivals: nat -> seq<seq<E>>) returns (signatures: Option<seq<G>>)
      requires Lawful(m)
      modifies this
      ensures signatures.Some? <==> exists k | 0 <= k < retries :: rivals(k) == []
      ensures signatures.Some? ==>
        var lost := Batches(rivals, FirstQuiet(rivals, retries));
        && signatures == Some(Signatures(m, Fold(m, old(Now()), lost), entries))
        && Now() == Fold(m, old(Now()), lost + [entries])
        && templates == Mirrors(m, old(templates), old(Now()), lost + [entries])
        && VersionOf(row) == VersionOf(old(row)) + |lost| + 1
      ensures signatures.None? ==>
        && Now() == Fold(m, old(Now()), Batches(rivals, retries))
        && templates == Mirrors(m, old(templates), old(Now()), Batches(rivals, retries))
        && VersionOf(row) == VersionOf(old(row)) + |Batches(rivals, retries)|
    {
      hide Fold, FirstQuiet, MineAll, Mined, Lawful, Signatures, Mirrors;
      FoldNone(m, Now());
      MirrorsNone(m, templates, Now());
      var attempt := 0;
      while attempt < retries
        invariant attempt <= retries
        invariant forall k :: 0 <= k < attempt ==> rivals(k) != []
        invariant Now() == Fold(m, old(Now()), Batches(rivals, attempt))
        invariant templates == Mirrors(m, old(templates), old(Now()), Batches(rivals, attempt))
        invariant VersionOf(row) == VersionOf(old(row)) + |Batches(rivals, attempt)|
      {
        var base, version := Base(m, row, templates), VersionOf(row);
        var state := Mined(m, base, entries);
        ghost var lost := Batches(rivals, attempt);
        FoldAppend(m, old(Now()), lost, rivals(attempt));
        MirrorsAppend(m, old(templates), old(Now()), lost, rivals(attempt));
        Rivals(rivals(attempt));
        var saved := SaveManager(state, version);
        if saved {
          FirstQuietIs(rivals, retries, attempt);
          SavedState(m, row, templates, state);
          FoldSnoc(m, old(Now()), lost, entries);
          MirrorsSnoc(m, old(templates), old(Now()), lost, entries);
          return Some(Signatures(m, base, entries));
        }
        attempt := attempt + 1;
      }
      signatures := None;
    }
  }

  /** All that others commit during the first `n` attempts. */
  function Batches<E>(rivals: nat -> seq<seq<E>>, n: nat): seq<seq<E>> {
    if n == 0 then [] else Batches(rivals, n - 1) + rivals(n - 1)
  }

  /** The first attempt, below `n`, during which nobody else commits. */
  function FirstQuiet<E>(rivals: nat -> seq<seq<E>>, n: nat): nat {
    if n == 0 then 0
    else if FirstQuiet(rivals, n - 1) < n - 1 then FirstQuiet(rivals, n - 1)
    else if rivals(n - 1) == [] then n - 1
    else n
  }

  lemma {:induction false} FirstQuietIs<E>(rivals: nat -> seq<seq<E>>, n: nat, k: nat)
    requires k < n && rivals(k) == [] && forall j :: 0 <= j < k ==> rivals(j) != []
    ensures FirstQuiet(rivals, n) == k
  {
    if n == k + 1 {
      NoneQuiet(rivals, k);
    } else {
      FirstQuietIs(rivals, n - 1, k);
    }
  }

  lemma {:induction false} NoneQuiet<E>(rivals: nat -> seq<seq<E>>, n: nat)
    requires forall j :: 0 <= j < n ==> rivals(j) != []
    ensures FirstQuiet(rivals, n) == n
  {
    if n > 0 { NoneQuiet(rivals, n - 1); }
  }

  // ----- any number of indexers, step by step --------------------------------

  /** A won race: the batch, the state it was mined from, and the state it left. */
  datatype Commit<S, E> = Commit(pid: int, entries: seq<E>, base: S, result: S)

  datatype Phase<S, G> =
    | Idle
    | Ready(attempt: nat)
    | InMemory(attempt: nat, base: S, version: nat)  // loaded and mined, not saved
    | Saved(base: S)                                  // race won, templates not mirrored yet
    | Returned(signatures: seq<G>)
    | Exhausted
    | Crashed

  datatype Worker<S, E, G> = Worker(entries: seq<E>, phase: Phase<S, G>)

  datatype System<!S, !E, !R, !G, !T> = System(
    m: Miner<S, E, R, G, T>, retries: nat, locking: bool, row: Option<Row>, templates: T)

  datatype State<S, E, G, T> = State(
    row: Option<Row>, templates: T, lock: Option<int>, workers: map<int, Worker<S, E, G>>, commits: seq<Commit<S, E>>)
  {
    function With(pid: int, phase: Phase<S, G>): State<S, E, G, T>
      requires pid in workers
    {
      this.(workers := workers[pid := workers[pid].(phase := phase)])
    }

    /** Leaving the guarded section, normally or not. */
    function Leave(pid: int, phase: Phase<S, G>): State<S, E, G, T>
      requires pid in workers
    {
      this.(lock := if lock == Some(pid) then None else lock).With(pid, phase)
    }
  }

  datatype Event<E> =
    | Begin(pid: int, entries: seq<E>)
    | Enter(pid: int)
    | Load(pid: int)
    | Save(pid: int)
    | Mirror(pid: int)
    | GiveUp(pid: int)
    | Crash(pid: int)

  ghost function Step<S(!new), E, R, G, T>(
      sys: System<S, E, R, G, T>, s: State<S, E, G, T>, ev: Event<E>): Option<State<S, E, G, T>> {
    if ev.Begin? then
      if ev.pid in s.workers then None else Some(s.(workers := s.workers[ev.pid := Worker(ev.entries, Idle)]))
    else if ev.pid !in s.workers then None
    else
      var Worker(entries, phase) := s.workers[ev.pid];
      match ev
      case Enter(pid) =>
        if phase.Idle? && (!sys.locking || s.lock.None?) then
          Some(s.(lock := if sys.locking then Some(pid) else s.lock).With(pid, Ready(0)))
        else None
      case Load(pid) =>
        if phase.Ready? && phase.attempt < sys.retries then
          Some(s.With(pid, InMemory(phase.attempt, Base(sys.m, s.row, s.templates), VersionOf(s.row))))
        else None
      case Save(pid) =>
        if !phase.InMemory? then None
        else if VersionOf(s.row) == phase.version then
          var result := Mined(sys.m, phase.base, entries);
          Some(s.(row := Some(Row(sys.m.encode(result), phase.version + 1)),
                  commits := s.commits + [Commit(pid, entries, phase.base, result)]).With(pid, Saved(phase.base)))
        else Some(s.With(pid, Ready(phase.attempt + 1)))
      case Mirror(pid) =>
        if phase.Saved? then
          Some(s.(templates := sys.m.mirror(s.templates, Mined(sys.m, phase.base, entries)))
                .Leave(pid, Returned(Signatures(sys.m, phase.base, entries))))
        else None
      case GiveUp(pid) =>
        if phase.Ready? && phase.attempt == sys.retries then Some(s.Leave(pid, Exhausted)) else None
      case Crash(pid) =>
        if phase.Returned? || phase.Exhausted? || phase.Crashed? then None else Some(s.Leave(pid, Crashed))
      case Begin(_, _) => None
  }

  ghost function Run<S(!new), E, R, G, T>(
      sys: System<S, E, R, G, T>, events: seq<Event<E>>): Option<State<S, E, G, T>> {
    if events == [] then Some(State(sys.row, sys.templates, None, map[], []))
    else
      var s := Run(sys, events[..|events| - 1]);
      if s.None? then None else Step(sys, s.value, events[|events| - 1])
  }

  // ----- what every step keeps ----------------------------------------------

  ghost function Start<S, E, R, G, T>(sys: System<S, E, R, G, T>): S {
    Base(sys.m, sys.row, sys.templates)
  }

  /** The state after the commits so far. */
  ghost function Latest<S, E, R, G, T>(sys: System<S, E, R, G, T>, commits: seq<Commit<S, E>>): S {
    if commits == [] then Start(sys) else commits[|commits| - 1].result
  }

  /** Each commit was mined from exactly the state it replaced. */
  ghost predicate Chain<S, E, R, G, T>(sys: System<S, E, R, G, T>, commits: seq<Commit<S, E>>) {
    forall i :: 0 <= i < |commits| ==>
      && commits[i].base == Latest(sys, commits[..i])
      && commits[i].result == Mined(sys.m, commits[i].base, commits[i].entries)
  }

  ghost predicate StoreInv<S, E, R, G, T>(sys: System<S, E, R, G, T>, s: State<S, E, G, T>) {
    && VersionOf(s.row) == VersionOf(sys.row) + |s.commits|
    && (s.commits == [] ==> s.row == sys.row && s.templates == sys.templates)
    && (s.commits != [] ==> s.row.Some? && s.row.value.blob == sys.m.encode(Latest(sys, s.commits)))
    && Chain(sys, s.commits)
  }

  /** The commit of `pid` at position `i`, if it is one. */
  ghost predicate IsCommitOf<S, E>(commits: seq<Commit<S, E>>, i: nat, pid: int, entries: seq<E>) {
    i < |commits| && commits[i].pid == pid && commits[i].entries == entries
  }

  ghost predicate NoCommitOf<S, E>(commits: seq<Commit<S, E>>, pid: int) {
    forall c | c in commits :: c.pid != pid
  }

  ghost predicate WorkerInv<S, E, R, G, T>(
      sys: System<S, E, R, G, T>, s: State<S, E, G, T>, pid: int, w: Worker<S, E, G>) {
    match w.phase
    case Idle => NoCommitOf(s.commits, pid)
    case Ready(a) => NoCommitOf(s.commits, pid) && a <= sys.retries && (sys.locking ==> a == 0)
    case InMemory(a, base, version) =>
      && NoCommitOf(s.commits, pid) && a < sys.retries
      && version <= VersionOf(s.row)
      && (version == VersionOf(s.row) ==> base == Latest(sys, s.commits))
      && (sys.locking ==> a == 0 && version == VersionOf(s.row))
    case Saved(base) => exists i: nat :: IsCommitOf(s.commits, i, pid, w.entries) && s.commits[i].base == base
    case Returned(signatures) =>
      exists i: nat :: IsCommitOf(s.commits, i, pid, w.entries)
        && signatures == Signatures(sys.m, s.commits[i].base, w.entries)
    case Exhausted => NoCommitOf(s.commits, pid) && (sys.locking ==> sys.retries == 0)
    case Crashed => true
  }

  predicate Inside<S, G>(phase: Phase<S, G>) {
    phase.Ready? || phase.InMemory? || phase.Saved?
  }

  ghost predicate LockInv<S, E, R, G, T>(sys: System<S, E, R, G, T>, s: State<S, E, G, T>) {
    && (sys.locking ==> forall p | p in s.workers && Inside(s.workers[p].phase) :: s.lock == Some(p))
    && (s.lock.Some? ==> s.lock.value in s.workers && Inside(s.workers[s.lock.value].phase))
  }

  ghost predicate OncePerWorker<S, E, G, T>(s: State<S, E, G, T>) {
    && (forall i, j :: 0 <= i < j < |s.commits| ==> s.commits[i].pid != s.commits[j].pid)
    && (forall c | c in s.commits :: c.pid in s.workers)
  }

  ghost predicate Inv<S(!new), E, R, G, T>(sys: System<S, E, R, G, T>, s: State<S, E, G, T>) {
    && StoreInv(sys, s)
    && LockInv(sys, s)
    && OncePerWorker(s)
    && forall p | p in s.workers :: WorkerInv(sys, s, p, s.workers[p])
  }

  lemma LoadedIsLatest<S(!new), E, R, G, T>(sys: System<S, E, R, G, T>, s: State<S, E, G, T>)
    requires Lawful(sys.m) && StoreInv(sys, s)
    ensures Base(sys.m, s.row, s.templates) == Latest(sys, s.commits)
  {
  }

  /** A step that commits nothing keeps every other worker. */
  lemma QuietStepKeeps<S(!new), E, R, G, T>(
      sys: System<S, E, R, G, T>, s: State<S, E, G, T>, s': State<S, E, G, T>, pid: int)
    requires Inv(sys, s) && s'.commits == s.commits && s'.row == s.row
    requires s'.templates != s.templates ==> s.commits != []
    requires pid in s'.workers && s'.workers.Keys == s.workers.Keys + {pid}
    requires forall p | p in s.workers && p != pid :: s'.workers[p] == s.workers[p]
    requires WorkerInv(sys, s', pid, s'.workers[pid])
    requires LockInv(sys, s')
    ensures Inv(sys, s')
  {
    forall p | p in s'.workers && p != pid ensures WorkerInv(sys, s', p, s'.workers[p]) {
      assert WorkerInv(sys, s, p, s.workers[p]);
    }
  }

  lemma LeaveKeepsLock<S(!new), E, R, G, T>(
      sys: System<S, E, R, G, T>, s: State<S, E, G, T>, pid: int, phase: Phase<S, G>)
    requires LockInv(sys, s) && pid in s.workers && !Inside(phase)
    ensures LockInv(sys, s.Leave(pid, phase))
  {
    var s' := s.Leave(pid, phase);
    forall p | p in s'.workers && Inside(s'.workers[p].phase) ensures sys.locking ==> s'.lock == Some(p) {
      assert p != pid && Inside(s.workers[p].phase);
    }
  }

  lemma {:induction false} ChainAppend<S, E, R, G, T>(
      sys: System<S, E, R, G, T>, commits: seq<Commit<S, E>>, c: Commit<S, E>)
    requires Chain(sys, commits) && c.base == Latest(sys, commits) && c.result == Mined(sys.m, c.base, c.entries)
    ensures Chain(sys, commits + [c])
  {
    var r := commits + [c];
    forall i | 0 <= i < |r| ensures r[i].base == Latest(sys, r[..i]) &&
        r[i].result == Mined(sys.m, r[i].base, r[i].entries) {
      if i < |commits| { assert r[..i] == commits[..i]; } else { assert r[..i] == commits; }
    }
  }

  lemma WonRaceStore<S(!new), E, R, G, T>(
      sys: System<S, E, R, G, T>, s: State<S, E, G, T>, s': State<S, E, G, T>, c: Commit<S, E>)
    requires StoreInv(sys, s) && c.base == Latest(sys, s.commits) && c.result == Mined(sys.m, c.base, c.entries)
    requires s'.commits == s.commits + [c]
    requires s'.row == Some(Row(sys.m.encode(c.result), VersionOf(s.row) + 1))
    ensures StoreInv(sys, s')
  {
    hide Mined;
    ChainAppend(sys, s.commits, c);
  }

  lemma {:induction false} WonRaceOnce<S, E, G, T>(s: State<S, E, G, T>, s': State<S, E, G, T>, c: Commit<S, E>)
    requires OncePerWorker(s) && NoCommitOf(s.commits, c.pid) && c.pid in s.workers
    requires s'.commits == s.commits + [c] && s'.workers.Keys == s.workers.Keys
    ensures OncePerWorker(s')
  {
  }

  /** A won race moves the version on, so every other worker in memory is now behind. */
  lemma WonRaceKeeps<S(!new), E, R, G, T>(
      sys: System<S, E, R, G, T>, s: State<S, E, G, T>, s': State<S, E, G, T>, pid: int)
    requires Inv(sys, s) && Step(sys, s, Save(pid)) == Some(s')
    requires s.workers[pid].phase.version == VersionOf(s.row)
    ensures Inv(sys, s')
  {
    hide Mined, Chain, Signatures;
    var w := s.workers[pid];
    assert WorkerInv(sys, s, pid, w);
    var c := Commit(pid, w.entries, w.phase.base, Mined(sys.m, w.phase.base, w.entries));
    WonRaceStore(sys, s, s', c);
    WonRaceOnce(s, s', c);
    forall p | p in s'.workers ensures WorkerInv(sys, s', p, s'.workers[p]) {
      if p == pid {
        assert IsCommitOf(s'.commits, |s.commits|, pid, w.entries);
      } else {
        NotBothInside(sys, s, p, pid);
        OtherAfterCommit(sys, s, s', p, c);
      }
    }
  }

  lemma NotBothInside<S(!new), E, R, G, T>(sys: System<S, E, R, G, T>, s: State<S, E, G, T>, p: int, pid: int)
    requires Inv(sys, s) && p in s.workers && pid in s.workers && p != pid && Inside(s.workers[pid].phase)
    ensures sys.locking ==> !Inside(s.workers[p].phase)
  {
  }

  lemma {:induction false} StillCommitOf<S, E>(
      commits: seq<Commit<S, E>>, c: Commit<S, E>, i: nat, pid: int, entries: seq<E>)
    requires IsCommitOf(commits, i, pid, entries)
    ensures IsCommitOf(commits + [c], i, pid, entries) && (commits + [c])[i] == commits[i]
  {
  }

  lemma OtherAfterCommit<S(!new), E, R, G, T>(
      sys: System<S, E, R, G, T>, s: State<S, E, G, T>, s': State<S, E, G, T>, p: int, c: Commit<S, E>)
    requires p in s.workers && p != c.pid && WorkerInv(sys, s, p, s.workers[p])
    requires sys.locking ==> !Inside(s.workers[p].phase)
    requires s'.commits == s.commits + [c] && VersionOf(s'.row) == VersionOf(s.row) + 1
    ensures WorkerInv(sys, s', p, s.workers[p])
  {
    hide Signatures, Latest, VersionOf;
    var w := s.workers[p];
    if w.phase.Saved? {
      var i: nat :| IsCommitOf(s.commits, i, p, w.entries) && s.commits[i].base == w.phase.base;
      StillCommitOf(s.commits, c, i, p, w.entries);
    } else if w.phase.Returned? {
      var i: nat :| IsCommitOf(s.commits, i, p, w.entries) &&
        w.phase.signatures == Signatures(sys.m, s.commits[i].base, w.entries);
      StillCommitOf(s.commits, c, i, p, w.entries);
    }
  }

  lemma StepKeeps<S(!new), E, R, G, T>(
      sys: System<S, E, R, G, T>, s: State<S, E, G, T>, s': State<S, E, G, T>, ev: Event<E>)
    requires Lawful(sys.m) && Inv(sys, s) && Step(sys, s, ev) == Some(s')
    ensures Inv(sys, s')
  {
    var pid := ev.pid;
    if ev.Begin? {
      assert NoCommitOf(s.commits, pid);
      QuietStepKeeps(sys, s, s', pid);
    } else {
      var w := s.workers[pid];
      assert WorkerInv(sys, s, pid, w);
      match ev
      case Enter(_) => QuietStepKeeps(sys, s, s', pid);
      case Load(_) =>
        LoadedIsLatest(sys, s);
        QuietStepKeeps(sys, s, s', pid);
      case Save(_) =>
        if VersionOf(s.row) == w.phase.version {
          WonRaceKeeps(sys, s, s', pid);
        } else {
          QuietStepKeeps(sys, s, s', pid);
        }
      case Mirror(_) =>
        LeaveKeepsLock(sys, s, pid, s'.workers[pid].phase);
        QuietStepKeeps(sys, s, s', pid);
      case GiveUp(_) =>
        LeaveKeepsLock(sys, s, pid, Exhausted);
        QuietStepKeeps(sys, s, s', pid);
      case Crash(_) =>
        LeaveKeepsLock(sys, s, pid, Crashed);
        QuietStepKeeps(sys, s, s', pid);
    }
  }

  lemma RunKeeps<S(!new), E, R, G, T>(sys: System<S, E, R, G, T>, events: seq<Event<E>>)
    requires Lawful(sys.m) && Run(sys, events).Some?
    ensures Inv(sys, Run(sys, events).value)
  {
    if events != [] {
      var n := |events| - 1;
      RunKeeps(sys, events[..n]);
      StepKeeps(sys, Run(sys, events[..n]).value, Run(sys, events).value, events[n]);
    }
  }

  // ----- the results ---------------------------------------------------------

  function BatchesOf<S, E>(commits: seq<Commit<S, E>>): seq<seq<E>> {
    seq(|commits|, i requires 0 <= i < |commits| => commits[i].entries)
  }

  lemma {:induction false} ChainIsFold<S, E, R, G, T>(sys: System<S, E, R, G, T>, commits: seq<Commit<S, E>>)
    requires Chain(sys, commits)
    ensures Latest(sys, commits) == Fold(sys.m, Start(sys), BatchesOf(commits))
  {
    if commits != [] {
      var n := |commits| - 1;
      assert forall i :: 0 <= i <= n ==> commits[..n][..i] == commits[..i];
      ChainIsFold(sys, commits[..n]);
      assert BatchesOf(commits)[..n] == BatchesOf(commits[..n]);
    }
  }

  /** Whatever the interleaving, the stored state is the committed batches mined one after the other,
      in version order, and no indexer commits twice. */
  lemma StoredStateIsFoldOfCommits<S(!new), E, R, G, T>(sys: System<S, E, R, G, T>, events: seq<Event<E>>)
    requires Lawful(sys.m) && Run(sys, events).Some?
    ensures var s := Run(sys, events).value;
      && Base(sys.m, s.row, s.templates) == Fold(sys.m, Start(sys), BatchesOf(s.commits))
      && VersionOf(s.row) == VersionOf(sys.row) + |s.commits|
      && forall i, j :: 0 <= i < j < |s.commits| ==> s.commits[i].pid != s.commits[j].pid
  {
    RunKeeps(sys, events);
    var s := Run(sys, events).value;
    LoadedIsLatest(sys, s);
    ChainIsFold(sys, s.commits);
  }

  /** The signatures an indexer returns were mined from the state that its own commit replaced. */
  lemma ReturnedSignaturesMatchTheCommit<S(!new), E, R, G, T>(
      sys: System<S, E, R, G, T>, events: seq<Event<E>>, pid: int)
    returns (i: nat)
    requires Lawful(sys.m) && Run(sys, events).Some? && pid in Run(sys, events).value.workers
    requires Run(sys, events).value.workers[pid].phase.Returned?
    ensures var s := Run(sys, events).value;
      && i < |s.commits| && s.commits[i].pid == pid && s.commits[i].entries == s.workers[pid].entries
      && s.workers[pid].phase.signatures
           == Signatures(sys.m, Fold(sys.m, Start(sys), BatchesOf(s.commits)[..i]), s.workers[pid].entries)
  {
    RunKeeps(sys, events);
    var s := Run(sys, events).value;
    var w := s.workers[pid];
    assert WorkerInv(sys, s, pid, w);
    assert StoreInv(sys, s) && Chain(sys, s.commits);
    i :| IsCommitOf(s.commits, i, pid, w.entries) &&
      w.phase.signatures == Signatures(sys.m, s.commits[i].base, w.entries);
    hide *;
    CommitBaseIsFold(sys, s.commits, i);
  }

  lemma {:induction false} CommitBaseIsFold<S, E, R, G, T>(
      sys: System<S, E, R, G, T>, commits: seq<Commit<S, E>>, i: nat)
    requires Chain(sys, commits) && i < |commits|
    ensures commits[i].base == Fold(sys.m, Start(sys), BatchesOf(commits)[..i])
  {
    hide Mined, Start, Fold;
    assert forall j :: 0 <= j <= i ==> commits[..i][..j] == commits[..j];
    ChainIsFold(sys, commits[..i]);
    assert BatchesOf(commits)[..i] == BatchesOf(commits[..i]);
  }

  /** An indexer that runs out of attempts has committed nothing. */
  lemma ExhaustedLeavesNothing<S(!new), E, R, G, T>(sys: System<S, E, R, G, T>, events: seq<Event<E>>, pid: int)
    requires Lawful(sys.m) && Run(sys, events).Some? && pid in Run(sys, events).value.workers
    requires Run(sys, events).value.workers[pid].phase.Exhausted?
    ensures forall c | c in Run(sys, events).value.commits :: c.pid != pid
  {
    RunKeeps(sys, events);
    var s := Run(sys, events).value;
    assert WorkerInv(sys, s, pid, s.workers[pid]);
  }

  /** Under the advisory lock no race is lost: a save that can happen wins, and with one attempt
      allowed no indexer runs out of attempts. */
  lemma LockPreventsConflicts<S(!new), E, R, G, T>(sys: System<S, E, R, G, T>, events: seq<Event<E>>, pid: int)
    requires Lawful(sys.m) && sys.locking && sys.retries >= 1
    requires Run(sys, events).Some? && pid in Run(sys, events).value.workers
    ensures var s := Run(sys, events).value;
      && !s.workers[pid].phase.Exhausted?
      && (s.workers[pid].phase.InMemory? ==>
            Step(sys, s, Save(pid)).Some? && Step(sys, s, Save(pid)).value.workers[pid].phase.Saved?)
  {
    RunKeeps(sys, events);
    var s := Run(sys, events).value;
    assert WorkerInv(sys, s, pid, s.workers[pid]);
  }

  /** The lock is held only by an indexer that is inside the guarded section: one that returned, gave up or crashed
      has let it go. */
  lemma LockIsNeverLeaked<S(!new), E, R, G, T>(sys: System<S, E, R, G, T>, events: seq<Event<E>>)
    requires Lawful(sys.m) && Run(sys, events).Some? && Run(sys, events).value.lock.Some?
    ensures var s := Run(sys, events).value;
      && s.lock.value in s.workers
      && var phase := s.workers[s.lock.value].phase;
         phase.Ready? || phase.InMemory? || phase.Saved?
  {
    RunKeeps(sys, events);
  }

  // ----- the retry loop is a run of the protocol ------------------------------------

  lemma RunSnoc<S(!new), E, R, G, T>(sys: System<S, E, R, G, T>, events: seq<Event<E>>, ev: Event<E>)
    ensures Run(sys, events + [ev]) ==
      if Run(sys, events).None? then None else Step(sys, Run(sys, events).value, ev)
  {
    assert (events + [ev])[..|events|] == events;
  }

  /** The state that an indexer would load. */
  ghost function Loaded<S, E, R, G, T>(m: Miner<S, E, R, G, T>, s: State<S, E, G, T>): S {
    Base(m, s.row, s.templates)
  }

  /** Everybody that `s` knows, but for `except`, stands where it stood. */
  ghost predicate OthersStay<S, E, G, T>(s: State<S, E, G, T>, s': State<S, E, G, T>, except: set<int>) {
    forall p | p in s.workers && p !in except :: p in s'.workers && s'.workers[p] == s.workers[p]
  }

  /** Names for the rivals: from the `n`-th on they are all different and still free. */
  ghost predicate Free<S, E, G, T>(s: State<S, E, G, T>, name: nat -> int, n: nat) {
    && (forall i, j :: n <= i < j ==> name(i) != name(j))
    && forall i :: n <= i ==> name(i) !in s.workers
  }

  /** An indexer that saves what it loaded, and mirrors it. */
  lemma SavesAsRun<S(!new), E, R, G, T>(
      sys: System<S, E, R, G, T>, before: seq<Event<E>>, s: State<S, E, G, T>, pid: int)
      returns (after: seq<Event<E>>)
    requires Lawful(sys.m) && Run(sys, before) == Some(s) && pid in s.workers
    requires s.workers[pid].phase.InMemory? && VersionOf(s.row) == s.workers[pid].phase.version
    ensures before <= after && Run(sys, after).Some?
    ensures var w, s' := s.workers[pid], Run(sys, after).value;
      && Loaded(sys.m, s') == Mined(sys.m, w.phase.base, w.entries)
      && s'.templates == sys.m.mirror(s.templates, Mined(sys.m, w.phase.base, w.entries))
      && VersionOf(s'.row) == VersionOf(s.row) + 1
      && s'.workers == s.workers[pid := w.(phase := Returned(Signatures(sys.m, w.phase.base, w.entries)))]
  {
    hide Run, Mined, Signatures;
    RunSnoc(sys, before, Save(pid));
    var saved := before + [Save(pid)];
    RunSnoc(sys, saved, Mirror(pid));
    after := saved + [Mirror(pid)];
    var w, s' := s.workers[pid], Run(sys, after).value;
    SavedState(sys.m, s'.row, s'.templates, Mined(sys.m, w.phase.base, w.entries));
    assert s'.workers == s.workers[pid := w.(phase := Returned(Signatures(sys.m, w.phase.base, w.entries)))];
  }

  /** One rival, from its start to its return. */
  lemma RivalAsRun<S(!new), E, R, G, T>(
      sys: System<S, E, R, G, T>, before: seq<Event<E>>, s: State<S, E, G, T>, p: int, batch: seq<E>)
      returns (after: seq<Event<E>>)
    requires Lawful(sys.m) && Run(sys, before) == Some(s) && p !in s.workers && !sys.locking && sys.retries > 0
    ensures before <= after && Run(sys, after).Some?
    ensures var s' := Run(sys, after).value;
      && Loaded(sys.m, s') == Mined(sys.m, Loaded(sys.m, s), batch) && VersionOf(s'.row) == VersionOf(s.row) + 1
      && s'.templates == sys.m.mirror(s.templates, Mined(sys.m, Loaded(sys.m, s), batch))
      && s'.workers.Keys == s.workers.Keys + {p} && OthersStay(s, s', {})
  {
    hide Run, Mined, Signatures, Lawful;
    RunSnoc(sys, before, Begin(p, batch));
    after := before + [Begin(p, batch)];
    RunSnoc(sys, after, Enter(p));
    after := after + [Enter(p)];
    RunSnoc(sys, after, Load(p));
    after := after + [Load(p)];
    after := SavesAsRun(sys, after, Run(sys, after).value, p);
  }

  /** Rivals one after the other. */
  lemma RivalsAsRun<S(!new), E, R, G, T>(
      sys: System<S, E, R, G, T>, before: seq<Event<E>>, s: State<S, E, G, T>,
      batches: seq<seq<E>>, name: nat -> int, n: nat) returns (after: seq<Event<E>>)
    requires Lawful(sys.m) && Run(sys, before) == Some(s) && Free(s, name, n) && !sys.locking && sys.retries > 0
    ensures before <= after && Run(sys, after).Some?
    ensures var s' := Run(sys, after).value;
      && Loaded(sys.m, s') == Fold(sys.m, Loaded(sys.m, s), batches)
      && s'.templates == Mirrors(sys.m, s.templates, Loaded(sys.m, s), batches)
      && VersionOf(s'.row) == VersionOf(s.row) + |batches|
      && Free(s', name, n + |batches|) && OthersStay(s, s', {})
    decreases |batches|
  {
    hide Run, Step, Lawful, Loaded, Fold, Mirrors;
    if batches == [] {
      after := before;
      MirrorsNone(sys.m, s.templates, Loaded(sys.m, s));
      FoldNone(sys.m, Loaded(sys.m, s));
    } else {
      var k := |batches| - 1;
      after := RivalsAsRun(sys, before, s, batches[..k], name, n);
      assert batches == batches[..k] + [batches[k]];
      FoldSnoc(sys.m, Loaded(sys.m, s), batches[..k], batches[k]);
      MirrorsSnoc(sys.m, s.templates, Loaded(sys.m, s), batches[..k], batches[k]);
      after := RivalAsRun(sys, after, Run(sys, after).value, name(n + k), batches[k]);
    }
  }

  /** What the retry loop leaves, from the attempt `k` on which it stands: the contract of `MineAndBuild`. */
  ghost predicate LoopLeaves<S, E, R, G, T>(
      m: Miner<S, E, R, G, T>, start: S, table: T, version: nat, entries: seq<E>, retries: nat,
      rivals: nat -> seq<seq<E>>, s': State<S, E, G, T>, pid: int)
  {
    && pid in s'.workers
    && if exists k :: 0 <= k < retries && rivals(k) == [] then
         var lost := Batches(rivals, FirstQuiet(rivals, retries));
         && s'.workers[pid].phase == Returned(Signatures(m, Fold(m, start, lost), entries))
         && Loaded(m, s') == Fold(m, start, lost + [entries])
         && s'.templates == Mirrors(m, table, start, lost + [entries])
         && VersionOf(s'.row) == version + |lost| + 1
       else
         && s'.workers[pid].phase.Exhausted?
         && Loaded(m, s') == Fold(m, start, Batches(rivals, retries))
         && s'.templates == Mirrors(m, table, start, Batches(rivals, retries))
         && VersionOf(s'.row) == version + |Batches(rivals, retries)|
  }

  /** Attempt `k` and all after it. */
  lemma AttemptsAsRun<S(!new), E, R, G, T>(
      sys: System<S, E, R, G, T>, before: seq<Event<E>>, s: State<S, E, G, T>, pid: int, start: S, table: T,
      version: nat, rivals: nat -> seq<seq<E>>, name: nat -> int, n: nat, k: nat) returns (after: seq<Event<E>>)
    requires Lawful(sys.m) && Run(sys, before) == Some(s) && Free(s, name, n) && !sys.locking && k <= sys.retries
    requires pid in s.workers && s.workers[pid].phase == Ready(k)
    requires forall j :: 0 <= j < k ==> rivals(j) != []
    requires Loaded(sys.m, s) == Fold(sys.m, start, Batches(rivals, k))
    requires s.templates == Mirrors(sys.m, table, start, Batches(rivals, k))
    requires VersionOf(s.row) == version + |Batches(rivals, k)|
    ensures before <= after && Run(sys, after).Some?
    ensures LoopLeaves(sys.m, start, table, version, s.workers[pid].entries, sys.retries, rivals,
                       Run(sys, after).value, pid)
    decreases sys.retries - k
  {
    hide Run, Lawful, Fold, FirstQuiet, Mined, Signatures, Mirrors;
    var entries, lost := s.workers[pid].entries, Batches(rivals, k);
    if k == sys.retries {
      RunSnoc(sys, before, GiveUp(pid));
      after := before + [GiveUp(pid)];
    } else {
      RunSnoc(sys, before, Load(pid));
      after := before + [Load(pid)];
      var loaded := Run(sys, after).value;
      after := RivalsAsRun(sys, after, loaded, rivals(k), name, n);
      FoldAppend(sys.m, start, lost, rivals(k));
      MirrorsAppend(sys.m, table, start, lost, rivals(k));
      var s2 := Run(sys, after).value;
      assert s2.workers[pid] == loaded.workers[pid];
      if rivals(k) == [] {
        FirstQuietIs(rivals, sys.retries, k);
        FoldSnoc(sys.m, start, lost, entries);
        MirrorsSnoc(sys.m, table, start, lost, entries);
        assert lost + [] == lost;
        after := SavesAsRun(sys, after, s2, pid);
      } else {
        RunSnoc(sys, after, Save(pid));
        after := after + [Save(pid)];
        after := AttemptsAsRun(sys, after, Run(sys, after).value, pid, start, table, version, rivals, name,
          n + |rivals(k)|, k + 1);
      }
    }
  }

  /** The retry loop of one indexer, with the rivals it meets, is a run of the protocol without the lock: the
      steps leave the store, and give the signatures or the failure, that `MineAndBuild` does. */
  lemma MiningIsARun<S(!new), E, R, G, T>(
      sys: System<S, E, R, G, T>, before: seq<Event<E>>, s: State<S, E, G, T>, pid: int,
      rivals: nat -> seq<seq<E>>, name: nat -> int) returns (after: seq<Event<E>>)
    requires Lawful(sys.m) && Run(sys, before) == Some(s) && Free(s, name, 0) && !sys.locking
    requires pid in s.workers && s.workers[pid].phase == Ready(0)
    ensures before <= after && Run(sys, after).Some?
    ensures LoopLeaves(sys.m, Loaded(sys.m, s), s.templates, VersionOf(s.row), s.workers[pid].entries, sys.retries,
                       rivals, Run(sys, after).value, pid)
  {
    FoldNone(sys.m, Loaded(sys.m, s));
    MirrorsNone(sys.m, s.templates, Loaded(sys.m, s));
    after := AttemptsAsRun(sys, before, s, pid, Loaded(sys.m, s), s.templates, VersionOf(s.row), rivals, name, 0, 0);
  }
}
