/**
 The migration runner (src/analyzer_ng/db/migrate.py): which files are pending, and what a
 start does to the database under the advisory lock.

 First the runner itself, on one database object. Then the protocol: any number of container
 starts, each with the files of its own image, interleaved step by step and crashing anywhere.
 The database keeps a log of every statement that took effect, which is what "exactly once"
 is about.
 */
module Migrations {
  import opened Wrappers
  import opened Sorting
  import SqlScript

  datatype Migration = Migration(version: int, filename: string, checksum: string, sql: string, noTransaction: bool) {
    function Statements(): seq<string> { SqlScript.Split(sql) }
  }

  function Version(): Migration -> int { (m: Migration) => m.version }

  datatype Error = Duplicate | NoFile(version: int) | Changed(version: int) | Failed(version: int)
  datatype Result<T> = Success(value: T) | Failure(error: Error)

  // ----- which files are pending -------------------------------------------

  /** Files in version order; two files of one version are an error, a gap is not. */
  method DiscoverMigrations(files: seq<Migration>) returns (r: Result<seq<Migration>>)
    ensures r.Success? <==> DistinctKeys(Version(), files)
    ensures r.Success? ==> r.value == SortBy(Version(), files) && StrictlyAscending(Version(), r.value)
    ensures r.Failure? ==> r.error == Duplicate
  {
    var ms := SortBy(Version(), files);
    SortSorts(Version(), files);
    for k := 0 to |ms|
      invariant StrictlyAscending(Version(), ms[..k])
    {
      if k > 0 && ms[k].version == ms[k - 1].version {
        Duplicated(files, k);
        return Failure(Duplicate);
      }
      Snoc(ms, k);
    }
    assert ms[..|ms|] == ms;
    StrictIsDistinct(ms, files);
    r := Success(ms);
  }

  lemma {:induction false} Duplicated(files: seq<Migration>, k: nat)
    requires 0 < k < |SortBy(Version(), files)|
    requires SortBy(Version(), files)[k].version == SortBy(Version(), files)[k - 1].version
    ensures !DistinctKeys(Version(), files)
  {
    if DistinctKeys(Version(), files) {
      SortIsStrict(Version(), files);
    }
  }

  lemma {:induction false} Snoc(ms: seq<Migration>, k: nat)
    requires k < |ms| && Ascending(Version(), ms) && StrictlyAscending(Version(), ms[..k])
    requires k > 0 ==> ms[k].version != ms[k - 1].version
    ensures StrictlyAscending(Version(), ms[..k + 1])
  {
    var r := ms[..k + 1];
    forall i, j | 0 <= i < j < |r| ensures Version()(r[i]) < Version()(r[j]) {
      if j < k {
        assert Version()(ms[..k][i]) < Version()(ms[..k][j]);
      } else {
        assert Version()(ms[k - 1]) <= Version()(ms[k]);
        if i < k - 1 { assert Version()(ms[..k][i]) < Version()(ms[..k][k - 1]); }
      }
    }
  }

  lemma {:induction false} StrictIsDistinct(ms: seq<Migration>, files: seq<Migration>)
    requires StrictlyAscending(Version(), ms) && multiset(ms) == multiset(files)
    ensures DistinctKeys(Version(), files)
  {
    assert DistinctKeys(Version(), ms);
    DistinctKeysOfPermutation(Version(), ms, files);
  }

  /** Files whose version is not in the ledger, ascending: membership, not a high-water mark. */
  function SelectPending(applied: set<int>, ms: seq<Migration>): seq<Migration> {
    SortBy(Version(), Filter((m: Migration) => m.version !in applied, ms))
  }

  /** Everything on disk that the ledger lacks is pending, wherever it lies, and nothing else is. */
  lemma {:induction false} PendingIsWhatIsMissing(applied: set<int>, ms: seq<Migration>)
    ensures forall m :: m in SelectPending(applied, ms) <==> m in ms && m.version !in applied
    ensures DistinctKeys(Version(), ms) ==> StrictlyAscending(Version(), SelectPending(applied, ms))
  {
    var p := (m: Migration) => m.version !in applied;
    SortSorts(Version(), Filter(p, ms));
    forall m ensures m in SelectPending(applied, ms) <==> m in Filter(p, ms) {
      assert m in SelectPending(applied, ms) <==> m in multiset(SelectPending(applied, ms));
      assert m in Filter(p, ms) <==> m in multiset(Filter(p, ms));
    }
    if DistinctKeys(Version(), ms) {
      FilterKeepsDistinct(p, Version(), ms);
      SortIsStrict(Version(), Filter(p, ms));
    }
  }

  function FileVersions(ms: seq<Migration>): set<int> {
    set k | 0 <= k < |ms| :: ms[k].version
  }

  function MaxOf(s: set<int>): (m: int)
    requires s != {}
    ensures m in s && forall x :: x in s ==> x <= m
  {
    var sorted := SortedSet(s);
    HasElement(s);
    assert sorted != [];
    assert forall x :: x in s ==> x in sorted;
    assert forall i :: 0 <= i < |sorted| - 1 ==> (x => x)(sorted[i]) < (x => x)(sorted[|sorted| - 1]);
    sorted[|sorted| - 1]
  }

  function UpTo(n: int): (r: set<int>)
    ensures forall v :: v in r <==> 1 <= v <= n
    decreases if n > 0 then n else 0
  {
    if n <= 0 then {} else UpTo(n - 1) + {n}
  }

  /** Versions from 1 to the highest known one that are neither applied nor on disk. */
  function LedgerGaps(applied: set<int>, ms: seq<Migration>): seq<int> {
    var universe := applied + FileVersions(ms);
    if universe == {} then []
    else SortedSet(UpTo(MaxOf(universe)) - universe)
  }

  /** The version has a ledger row or a file on disk. */
  predicate Present(applied: set<int>, ms: seq<Migration>, v: int) {
    v in applied || exists k :: 0 <= k < |ms| && ms[k].version == v
  }

  /** A version is reported as a gap exactly if it is missing below a version that is present; no pending
      file can then fill it. */
  lemma {:induction false} GapsAreUnfillable(applied: set<int>, ms: seq<Migration>, v: int)
    ensures v in LedgerGaps(applied, ms) <==>
      1 <= v && !Present(applied, ms, v) && exists u :: v < u && Present(applied, ms, u)
    ensures v in LedgerGaps(applied, ms) ==> forall m :: m in SelectPending(applied, ms) ==> m.version != v
  {
    hide SelectPending, SortedSet, Present;
    var known := applied + FileVersions(ms);
    forall u ensures u in known <==> Present(applied, ms, u) { KnownIsPresent(applied, ms, u); }
    PendingIsWhatIsMissing(applied, ms);
    PresentWhereFile(applied, ms);
    if v in LedgerGaps(applied, ms) {
      assert MaxOf(known) in known;
    }
  }

  lemma {:induction false} KnownIsPresent(applied: set<int>, ms: seq<Migration>, v: int)
    ensures v in applied + FileVersions(ms) <==> Present(applied, ms, v)
  {
  }

  lemma {:induction false} PresentWhereFile(applied: set<int>, ms: seq<Migration>)
    ensures forall m | m in ms :: Present(applied, ms, m.version)
  {
  }

  // ----- the database ------------------------------------------------------

  /** A statement that took effect, and whether a transaction carried it. */
  datatype Effect = Effect(version: int, transactional: bool, statement: string)

  /**
   The ledger row keeps a migration's file name and checksum; the model keeps the migration
   that was applied. `log` is every statement that took effect, in order. `cut` records, per
   version, the statements of no-transaction attempts that ended before their ledger row.
   */
  datatype Db = Db(ledger: map<int, Migration>, log: seq<Effect>, cut: map<int, seq<Effect>>) {
    function CutOf(v: int): seq<Effect> { if v in cut then cut[v] else [] }

    /** The transaction: every statement and the ledger row, or nothing. */
    function Commit(m: Migration): Db {
      Db(ledger[m.version := m], log + Effects(m), cut)
    }

    /** One autocommitted statement. */
    function Execute(m: Migration, k: nat): Db
      requires k < |Effects(m)|
    {
      this.(log := log + [Effects(m)[k]])
    }

    /** The autocommitted ledger row. */
    function Record(m: Migration): Db {
      this.(ledger := ledger[m.version := m])
    }

    /** An attempt at `m` ends after `k` autocommitted statements, without its ledger row. */
    function Abandon(m: Migration, k: nat): Db
      requires k <= |Effects(m)|
    {
      if k == 0 then this else this.(cut := cut[m.version := CutOf(m.version) + Effects(m)[..k]])
    }
  }

  function Effects(m: Migration): (r: seq<Effect>)
    ensures |r| == |m.Statements()|
    ensures forall k :: 0 <= k < |r| ==> r[k] == Effect(m.version, !m.noTransaction, m.Statements()[k])
  {
    var statements := m.Statements();
    seq(|statements|, k requires 0 <= k < |statements| => Effect(m.version, !m.noTransaction, statements[k]))
  }

  /** What the log holds of one version, by the kind of migration that ran it. */
  function LogOf(log: seq<Effect>, v: int, transactional: bool): seq<Effect> {
    Filter((e: Effect) => e.version == v && e.transactional == transactional, log)
  }

  /** Appending statements of `m` shows up under its version and kind only. */
  lemma {:induction false} LogOfAppend(log: seq<Effect>, m: Migration, es: seq<Effect>, v: int, transactional: bool)
    requires forall e | e in es :: e.version == m.version && e.transactional == !m.noTransaction
    ensures LogOf(log + es, v, transactional)
         == LogOf(log, v, transactional) + if v == m.version && transactional == !m.noTransaction then es else []
  {
    var p := (e: Effect) => e.version == v && e.transactional == transactional;
    FilterAppend(p, log, es);
    FilterAll(p, es);
  }

  // ----- the protocol ------------------------------------------------------

  /** Where a container start stands; `k` counts autocommitted statements of `pending[0]`. */
  datatype Phase =
    | Waiting
    | Locked
    | Applying(pending: seq<Migration>, done: seq<int>, k: nat)
    | Returned(done: seq<int>)
    | Stopped(done: seq<int>)

  /** What a start has applied so far, or had applied when it ended. */
  function DoneOf(phase: Phase): seq<int> {
    if phase.Applying? || phase.Returned? || phase.Stopped? then phase.done else []
  }

  datatype Starter = Starter(files: seq<Migration>, phase: Phase)

  datatype State = State(db: Db, holder: Option<int>, starters: map<int, Starter>) {
    function With(pid: int, phase: Phase): State
      requires pid in starters
    {
      this.(starters := starters[pid := starters[pid].(phase := phase)])
    }
  }

  const Initial := State(Db(map[], [], map[]), None, map[])

  datatype Event =
    | Start(pid: int, files: seq<Migration>)
    | Acquire(pid: int)
    | Load(pid: int)
    | CommitTransaction(pid: int)
    | RunStatement(pid: int)
    | InsertRow(pid: int)
    | Fail(pid: int)
    | Return(pid: int)
    | Crash(pid: int)

  /** Some file of version `v` has the recorded checksum. */
  predicate Matches(files: seq<Migration>, v: int, row: Migration) {
    exists f | f in files :: f.version == v && f.checksum == row.checksum
  }

  /** Every applied version still has a file here, with the recorded checksum. */
  ghost predicate Verified(ledger: map<int, Migration>, files: seq<Migration>) {
    forall v | v in ledger :: Matches(files, v, ledger[v])
  }

  predicate Active(phase: Phase) {
    phase.Locked? || phase.Applying?
  }

  /** The lock goes with the session, and an interrupted attempt leaves what it autocommitted. */
  ghost function GiveUp(s: State, pid: int): State
    requires pid in s.starters
  {
    var phase := s.starters[pid].phase;
    var db := if phase.Applying? && phase.pending != [] && phase.k <= |Effects(phase.pending[0])|
              then s.db.Abandon(phase.pending[0], phase.k) else s.db;
    State(db, if Active(phase) then None else s.holder, s.starters).With(pid, Stopped(DoneOf(phase)))
  }

  /** One atomic step; `None` when the event cannot happen in this state. */
  ghost function Step(s: State, ev: Event): Option<State> {
    if ev.Start? then
      if ev.pid in s.starters then None
      else if !DistinctKeys(Version(), ev.files) then
          Some(s.(starters := s.starters[ev.pid := Starter(ev.files, Stopped([]))]))
      else Some(s.(starters := s.starters[ev.pid := Starter(SortBy(Version(), ev.files), Waiting)]))
    else if ev.pid !in s.starters then None
    else
      var Starter(files, phase) := s.starters[ev.pid];
      match ev
      case Acquire(pid) =>
        if phase.Waiting? && s.holder.None? then Some(s.(holder := Some(pid)).With(pid, Locked)) else None
      case Load(pid) =>
        if !phase.Locked? then None
        else if !Verified(s.db.ledger, files) then Some(GiveUp(s, pid))
        else Some(s.With(pid, Applying(SelectPending(s.db.ledger.Keys, files), [], 0)))
      case CommitTransaction(pid) =>
        if phase.Applying? && phase.pending != [] && !phase.pending[0].noTransaction then
          var m := phase.pending[0];
          Some(s.(db := s.db.Commit(m)).With(pid, Applying(phase.pending[1..], phase.done + [m.version], 0)))
        else None
      case RunStatement(pid) =>
        if phase.Applying? && phase.pending != [] && phase.pending[0].noTransaction &&
            phase.k < |Effects(phase.pending[0])| then
          Some(s.(db := s.db.Execute(phase.pending[0], phase.k)).With(pid, phase.(k := phase.k + 1)))
        else None
      case InsertRow(pid) =>
        if phase.Applying? && phase.pending != [] && phase.pending[0].noTransaction &&
            phase.k == |Effects(phase.pending[0])| then
          var m := phase.pending[0];
          Some(s.(db := s.db.Record(m)).With(pid, Applying(phase.pending[1..], phase.done + [m.version], 0)))
        else None
      case Fail(pid) =>
        if phase.Applying? && phase.pending != [] then Some(GiveUp(s, pid)) else None
      case Return(pid) =>
        if phase.Applying? && phase.pending == [] then
          Some(s.(holder := None).With(pid, Returned(phase.done)))
        else None
      case Crash(pid) =>
        if phase.Waiting? || Active(phase) then Some(GiveUp(s, pid)) else None
      case Start(_, _) => None
  }

  ghost function Run(events: seq<Event>): Option<State> {
    if events == [] then Some(Initial)
    else
      var s := Run(events[..|events| - 1]);
      if s.None? then None else Step(s.value, events[|events| - 1])
  }

  // ----- what every step keeps ---------------------------------------------

  /** The starter holding the lock is the only active one, and the lock is never leaked. */
  ghost predicate LockInv(s: State) {
    && (forall p | p in s.starters :: Active(s.starters[p].phase) ==> s.holder == Some(p))
    && (s.holder.Some? ==> s.holder.value in s.starters && Active(s.starters[s.holder.value].phase))
  }

  ghost predicate Covered(ledger: map<int, Migration>, f: Migration) {
    f.version in ledger && ledger[f.version].checksum == f.checksum
  }

  ghost predicate PhaseInv(db: Db, files: seq<Migration>, phase: Phase) {
    && StrictlyAscending(x => x, DoneOf(phase))
    && (forall d | d in DoneOf(phase) :: d in db.ledger)
    && match phase
       case Applying(pending, done, k) =>
         && StrictlyAscending(Version(), pending)
         && (forall m | m in pending :: m.version !in db.ledger)
         && (forall f | f in files :: f in pending || Covered(db.ledger, f))
         && (forall d, m | d in done && m in pending :: d < m.version)
         && (k > 0 ==> pending != [] && pending[0].noTransaction && k <= |Effects(pending[0])|)
       case Returned(_) => forall f | f in files :: Covered(db.ledger, f)
       case _ => true
  }

  /** An attempt under way: the first `k` statements of `m` have been autocommitted. */
  datatype Attempt = Attempt(m: Migration, k: nat) {
    function Of(v: int): seq<Effect> {
      if m.version == v && k <= |Effects(m)| then Effects(m)[..k] else []
    }
  }

  ghost function Current(s: State): Option<Attempt> {
    if s.holder.Some? && s.holder.value in s.starters then
      var phase := s.starters[s.holder.value].phase;
      if phase.Applying? && phase.pending != [] then Some(Attempt(phase.pending[0], phase.k)) else None
    else None
  }

  function InProgress(a: Option<Attempt>, v: int): seq<Effect> {
    if a.Some? then a.value.Of(v) else []
  }

  /** The statements that the ledger says took effect for `v`, by kind. */
  function Recorded(db: Db, v: int, transactional: bool): seq<Effect> {
    if v in db.ledger && !db.ledger[v].noTransaction == transactional then Effects(db.ledger[v]) else []
  }

  /** The log of `v` is what the ledger, the abandoned attempts and the current one account for. */
  predicate LogOk(db: Db, a: Option<Attempt>, v: int) {
    && (v in db.ledger ==> db.ledger[v].version == v)
    && LogOf(db.log, v, true) == Recorded(db, v, true)
    && LogOf(db.log, v, false) == db.CutOf(v) + Recorded(db, v, false) + InProgress(a, v)
  }

  ghost predicate LogInv(s: State) {
    forall v :: LogOk(s.db, Current(s), v)
  }

  lemma {:induction false} NothingYet(m: Migration, v: int)
    ensures InProgress(Some(Attempt(m, 0)), v) == [] == InProgress(None, v)
  {
  }

  lemma {:induction false} CommitLog(db: Db, m: Migration, v: int)
    requires LogOk(db, None, v) && m.version !in db.ledger && !m.noTransaction
    ensures LogOk(db.Commit(m), None, v)
  {
    LogOfAppend(db.log, m, Effects(m), v, true);
    LogOfAppend(db.log, m, Effects(m), v, false);
  }

  lemma {:induction false} StatementLog(db: Db, m: Migration, k: nat, v: int)
    requires LogOk(db, Some(Attempt(m, k)), v) && m.version !in db.ledger && m.noTransaction && k < |Effects(m)|
    ensures LogOk(db.Execute(m, k), Some(Attempt(m, k + 1)), v)
  {
    hide LogOf, Filter, Effects;
    var e := Effects(m)[k];
    LogOfAppend(db.log, m, [e], v, true);
    LogOfAppend(db.log, m, [e], v, false);
    if v == m.version {
      LogGrows(db.CutOf(v), Effects(m), k);
    } else {
      NoMore(LogOf(db.log, v, true));
      NoMore(LogOf(db.log, v, false));
    }
  }

  lemma {:induction false} LogGrows(before: seq<Effect>, run: seq<Effect>, k: nat)
    requires k < |run|
    ensures before + [] + run[..k] + [run[k]] == before + [] + run[..k + 1]
  {
    assert run[..k + 1] == run[..k] + [run[k]];
  }

  lemma {:induction false} NoMore(es: seq<Effect>)
    ensures es + [] == es
  {
  }

  lemma {:induction false} RowLog(db: Db, m: Migration, v: int)
    requires LogOk(db, Some(Attempt(m, |Effects(m)|)), v) && m.version !in db.ledger && m.noTransaction
    ensures LogOk(db.Record(m), None, v)
  {
    hide LogOf, Effects;
    if v == m.version {
      var before, run := db.CutOf(v), Effects(m);
      assert run[..|run|] == run && before + [] == before && before + run + [] == before + run;
    }
  }

  lemma {:induction false} AbandonLog(db: Db, m: Migration, k: nat, v: int)
    requires LogOk(db, Some(Attempt(m, k)), v) && m.version !in db.ledger && k <= |Effects(m)|
    ensures LogOk(db.Abandon(m, k), None, v)
  {
    hide LogOf, Effects;
    if v == m.version {
      var before := db.CutOf(v);
      assert before + [] == before && forall es: seq<Effect> :: es + [] == es;
      assert k == 0 ==> Effects(m)[..k] == [];
    }
  }

  ghost predicate Inv(s: State) {
    && LockInv(s)
    && (forall p | p in s.starters && !s.starters[p].phase.Stopped? :: DistinctKeys(Version(), s.starters[p].files))
    && (forall p | p in s.starters :: PhaseInv(s.db, s.starters[p].files, s.starters[p].phase))
    && LogInv(s)
  }

  /** The ledger keeps every row it has. */
  ghost predicate Keeps(ledger: map<int, Migration>, ledger': map<int, Migration>) {
    forall v | v in ledger :: v in ledger' && ledger'[v] == ledger[v]
  }

  /** Starters that do not move keep what they have, whatever rows the moving one adds. */
  lemma {:induction false} OthersKeep(s: State, s': State, pid: int)
    requires Inv(s) && Keeps(s.db.ledger, s'.db.ledger)
    requires pid in s'.starters && s'.starters.Keys == s.starters.Keys + {pid}
    requires forall p | p in s.starters && p != pid :: s'.starters[p] == s.starters[p]
    requires s'.db != s.db ==> s.holder == Some(pid)
    requires PhaseInv(s'.db, s'.starters[pid].files, s'.starters[pid].phase)
    ensures forall p | p in s'.starters :: PhaseInv(s'.db, s'.starters[p].files, s'.starters[p].phase)
  {
    forall p | p in s'.starters && p != pid ensures PhaseInv(s'.db, s'.starters[p].files, s'.starters[p].phase) {
      assert PhaseInv(s.db, s.starters[p].files, s.starters[p].phase);
      if Active(s.starters[p].phase) { assert s.holder == Some(p); }
    }
  }

  lemma {:induction false} DoneKeepsAscending(pending: seq<Migration>, done: seq<int>)
    requires pending != [] && StrictlyAscending(Version(), pending) && StrictlyAscending(x => x, done)
    requires forall d, m | d in done && m in pending :: d < m.version
    ensures StrictlyAscending(x => x, done + [pending[0].version])
    ensures StrictlyAscending(Version(), pending[1..])
    ensures forall d, m | d in done + [pending[0].version] && m in pending[1..] :: d < m.version
  {
    var key := (x: int) => x;
    var r := done + [pending[0].version];
    forall i, j | 0 <= i < j < |r| ensures key(r[i]) < key(r[j]) {
      if j < |done| { assert key(done[i]) < key(done[j]); } else { assert done[i] in done && pending[0] in pending; }
    }
    forall d, m | d in r && m in pending[1..] ensures d < m.version {
      var j :| 0 <= j < |pending[1..]| && pending[1..][j] == m;
      assert Version()(pending[0]) < Version()(pending[j + 1]);
      assert m in pending;
    }
  }

  /** The migration at the head of the list is applied: it moves from pending to the ledger. */
  lemma {:induction false} HeadApplied(db: Db, db': Db, files: seq<Migration>, phase: Phase)
    requires phase.Applying? && phase.pending != [] && PhaseInv(db, files, phase)
    requires db'.ledger == db.ledger[phase.pending[0].version := phase.pending[0]]
    ensures PhaseInv(db', files, Applying(phase.pending[1..], phase.done + [phase.pending[0].version], 0))
    ensures Keeps(db.ledger, db'.ledger)
  {
    var Applying(pending, done, k) := phase;
    var m := pending[0];
    assert m in pending;
    DoneKeepsAscending(pending, done);
    forall x | x in pending[1..] ensures x.version !in db'.ledger {
      assert m.version in done + [m.version];
      assert x in pending;
    }
    forall f | f in files ensures f in pending[1..] || Covered(db'.ledger, f) {
      if f in pending && f != m {
        assert pending == [m] + pending[1..];
      }
    }
  }

  /** Where the moving starter leaves no statement in progress, the log is checked as if it had no attempt. */
  lemma {:induction false} FreshHead(s: State)
    requires Current(s).Some? ==> Current(s).value.k == 0
    ensures LogInv(s) <==> forall v :: LogOk(s.db, None, v)
  {
    forall v ensures LogOk(s.db, Current(s), v) <==> LogOk(s.db, None, v) {
      if Current(s).Some? { NothingYet(Current(s).value.m, v); }
    }
  }

  /** The head of the list of the starter that is applying. */
  lemma {:induction false} Head(s: State, pid: int) returns (m: Migration)
    requires Inv(s) && pid in s.starters && s.starters[pid].phase.Applying? && s.starters[pid].phase.pending != []
    ensures m == s.starters[pid].phase.pending[0] && m.version !in s.db.ledger
    ensures s.holder == Some(pid) && Current(s) == Some(Attempt(m, s.starters[pid].phase.k))
    ensures s.starters[pid].phase.k > 0 ==> m.noTransaction
    ensures s.starters[pid].phase.k <= |Effects(m)|
  {
    var phase := s.starters[pid].phase;
    assert Active(phase);
    assert PhaseInv(s.db, s.starters[pid].files, phase);
    m := phase.pending[0];
    assert m in phase.pending;
  }

  lemma {:induction false} CommitKeepsLog(s: State, s': State, pid: int)
    requires Inv(s) && Step(s, CommitTransaction(pid)) == Some(s')
    ensures LogInv(s')
  {
    hide LogOk;
    var m := Head(s, pid);
    FreshHead(s);
    FreshHead(s');
    forall v ensures LogOk(s'.db, None, v) { CommitLog(s.db, m, v); }
  }

  lemma {:induction false} RowKeepsLog(s: State, s': State, pid: int)
    requires Inv(s) && Step(s, InsertRow(pid)) == Some(s')
    ensures LogInv(s')
  {
    hide LogOk;
    var m := Head(s, pid);
    FreshHead(s');
    forall v ensures LogOk(s'.db, None, v) {
      assert LogOk(s.db, Current(s), v);
      RowLog(s.db, m, v);
    }
  }

  lemma {:induction false} StatementKeepsLog(s: State, s': State, pid: int)
    requires Inv(s) && Step(s, RunStatement(pid)) == Some(s')
    ensures LogInv(s')
  {
    hide LogOk;
    var m := Head(s, pid);
    var k := s.starters[pid].phase.k;
    assert Current(s') == Some(Attempt(m, k + 1));
    forall v ensures LogOk(s'.db, Current(s'), v) {
      assert LogOk(s.db, Current(s), v);
      StatementLog(s.db, m, k, v);
    }
  }

  lemma {:induction false} GiveUpKeepsLog(s: State, pid: int)
    requires Inv(s) && pid in s.starters
    requires Active(s.starters[pid].phase) || s.starters[pid].phase.Waiting?
    ensures LogInv(GiveUp(s, pid))
  {
    hide LogOk;
    var s' := GiveUp(s, pid);
    var phase := s.starters[pid].phase;
    if phase.Applying? && phase.pending != [] {
      var m := Head(s, pid);
      FreshHead(s');
      forall v ensures LogOk(s'.db, None, v) {
        assert LogOk(s.db, Current(s), v);
        AbandonLog(s.db, m, phase.k, v);
      }
    } else {
      assert Current(s') == Current(s);
    }
  }

  lemma {:induction false} LoadedPhase(db: Db, files: seq<Migration>)
    requires Verified(db.ledger, files) && DistinctKeys(Version(), files)
    ensures PhaseInv(db, files, Applying(SelectPending(db.ledger.Keys, files), [], 0))
  {
    PendingIsWhatIsMissing(db.ledger.Keys, files);
    hide SelectPending, SortBy, Effects;
    forall f | f in files ensures f in SelectPending(db.ledger.Keys, files) || Covered(db.ledger, f) {
      if f.version in db.ledger {
        var g :| g in files && g.version == f.version && g.checksum == db.ledger[f.version].checksum;
        SameVersionSameFile(files, f, g);
      }
    }
  }

  lemma {:induction false} LoadKeeps(s: State, s': State, pid: int)
    requires Inv(s) && Step(s, Load(pid)) == Some(s') && Verified(s.db.ledger, s.starters[pid].files)
    requires DistinctKeys(Version(), s.starters[pid].files)
    ensures Inv(s')
  {
    hide PhaseInv, SelectPending, DistinctKeys, LogOk, Effects, Verified;
    LoadedPhase(s.db, s.starters[pid].files);
    OthersKeep(s, s', pid);
    FreshHead(s);
    FreshHead(s');
  }

  lemma {:induction false} SameVersionSameFile(files: seq<Migration>, f: Migration, g: Migration)
    requires DistinctKeys(Version(), files) && f in files && g in files && f.version == g.version
    ensures f == g
  {
    var i :| 0 <= i < |files| && files[i] == f;
    var j :| 0 <= j < |files| && files[j] == g;
    assert Version()(files[i]) == Version()(files[j]);
  }

  lemma {:induction false} StartKeeps(s: State, s': State, ev: Event)
    requires Inv(s) && ev.Start? && Step(s, ev) == Some(s')
    ensures Inv(s')
  {
    hide LogInv, Matches, SortBy, DistinctKeys;
    FreshStart(s, s', ev);
    SortSorts(Version(), ev.files);
    if DistinctKeys(Version(), ev.files) {
      DistinctKeysOfPermutation(Version(), ev.files, SortBy(Version(), ev.files));
    }
    OthersKeep(s, s', ev.pid);
    assert Current(s') == Current(s);
  }

  lemma {:induction false} FreshStart(s: State, s': State, ev: Event)
    requires Inv(s) && ev.Start? && Step(s, ev) == Some(s')
    ensures LogInv(s') && Current(s') == Current(s) && LockInv(s')
  {
    hide LogOk;
    assert Current(s') == Current(s);
    forall v ensures LogOk(s'.db, Current(s'), v) { assert LogOk(s.db, Current(s), v); }
  }

  /** A start that ends, as one that returns or not, keeps what it has done. */
  lemma {:induction false} EndedPhase(db: Db, db': Db, files: seq<Migration>, phase: Phase)
    requires PhaseInv(db, files, phase) && db'.ledger == db.ledger
    ensures PhaseInv(db', files, Stopped(DoneOf(phase)))
    ensures phase.Applying? && phase.pending == [] ==> PhaseInv(db', files, Returned(phase.done))
  {
    hide Effects, StrictlyAscending;
  }

  lemma {:induction false} GiveUpKeeps(s: State, pid: int)
    requires Inv(s) && pid in s.starters
    requires Active(s.starters[pid].phase) || s.starters[pid].phase.Waiting?
    ensures Inv(GiveUp(s, pid))
  {
    hide LogInv, Effects, PhaseInv, DistinctKeys, DoneOf;
    GiveUpKeepsLog(s, pid);
    EndedPhase(s.db, GiveUp(s, pid).db, s.starters[pid].files, s.starters[pid].phase);
    OthersKeep(s, GiveUp(s, pid), pid);
  }

  lemma {:induction false} CommitKeeps(s: State, s': State, pid: int)
    requires Inv(s) && Step(s, CommitTransaction(pid)) == Some(s')
    ensures Inv(s')
  {
    hide LogInv, PhaseInv, DistinctKeys, Effects, Verified, SelectPending;
    CommitKeepsLog(s, s', pid);
    var m := Head(s, pid);
    HeadApplied(s.db, s'.db, s.starters[pid].files, s.starters[pid].phase);
    OthersKeep(s, s', pid);
  }

  lemma {:induction false} RowKeeps(s: State, s': State, pid: int)
    requires Inv(s) && Step(s, InsertRow(pid)) == Some(s')
    ensures Inv(s')
  {
    hide LogInv, PhaseInv, DistinctKeys, Effects, Verified, SelectPending;
    RowKeepsLog(s, s', pid);
    var m := Head(s, pid);
    HeadApplied(s.db, s'.db, s.starters[pid].files, s.starters[pid].phase);
    OthersKeep(s, s', pid);
  }

  lemma {:induction false} AcquireKeeps(s: State, s': State, pid: int)
    requires Inv(s) && Step(s, Acquire(pid)) == Some(s')
    ensures Inv(s')
  {
    hide Effects, SelectPending, DistinctKeys, LogOk;
    OthersKeep(s, s', pid);
    assert Current(s') == Current(s);
  }

  /** One more statement of the file at the head has been autocommitted. */
  lemma {:induction false} StatementPhase(db: Db, db': Db, files: seq<Migration>, phase: Phase)
    requires PhaseInv(db, files, phase) && db'.ledger == db.ledger && phase.Applying? && phase.pending != []
    requires phase.pending[0].noTransaction && phase.k < |Effects(phase.pending[0])|
    ensures PhaseInv(db', files, phase.(k := phase.k + 1))
  {
    hide Effects, StrictlyAscending;
  }

  lemma {:induction false} RunStatementKeeps(s: State, s': State, pid: int)
    requires Inv(s) && Step(s, RunStatement(pid)) == Some(s')
    ensures Inv(s')
  {
    hide LogInv, PhaseInv, DistinctKeys, Effects, Verified, SelectPending;
    StatementKeepsLog(s, s', pid);
    var m := Head(s, pid);
    StatementPhase(s.db, s'.db, s.starters[pid].files, s.starters[pid].phase);
    OthersKeep(s, s', pid);
  }

  lemma {:induction false} ReturnKeeps(s: State, s': State, pid: int)
    requires Inv(s) && Step(s, Return(pid)) == Some(s')
    ensures Inv(s')
  {
    hide PhaseInv, DistinctKeys, Effects, Verified, SelectPending;
    var phase := s.starters[pid].phase;
    assert Active(phase) && PhaseInv(s.db, s.starters[pid].files, phase);
    EndedPhase(s.db, s'.db, s.starters[pid].files, phase);
    OthersKeep(s, s', pid);
    assert Current(s') == Current(s);
  }

  lemma {:induction false} StepKeeps(s: State, s': State, ev: Event)
    requires Inv(s) && Step(s, ev) == Some(s')
    ensures Inv(s')
  {
    hide Inv;
    match ev
    case Start(_, _) => StartKeeps(s, s', ev);
    case Acquire(pid) => AcquireKeeps(s, s', pid);
    case Load(pid) => LoadOrGiveUpKeeps(s, s', pid);
    case CommitTransaction(pid) => CommitKeeps(s, s', pid);
    case InsertRow(pid) => RowKeeps(s, s', pid);
    case RunStatement(pid) => RunStatementKeeps(s, s', pid);
    case Fail(pid) => GiveUpKeeps(s, pid);
    case Crash(pid) => GiveUpKeeps(s, pid);
    case Return(pid) => ReturnKeeps(s, s', pid);
  }

  lemma {:induction false} LoadOrGiveUpKeeps(s: State, s': State, pid: int)
    requires Inv(s) && Step(s, Load(pid)) == Some(s')
    ensures Inv(s')
  {
    if Verified(s.db.ledger, s.starters[pid].files) { LoadKeeps(s, s', pid); } else { GiveUpKeeps(s, pid); }
  }

  // ----- the results -------------------------------------------------------

  lemma {:induction false} RunKeeps(events: seq<Event>)
    requires Run(events).Some?
    ensures Inv(Run(events).value)
  {
    if events != [] {
      var n := |events| - 1;
      RunKeeps(events[..n]);
      StepKeeps(Run(events[..n]).value, Run(events).value, events[n]);
    }
  }

  /** However starts interleave and crash, a transactional migration took effect exactly once
      if the ledger has its row, and not at all if it has not. */
  lemma {:induction false} TransactionsTakeEffectExactlyOnce(events: seq<Event>, v: int)
    requires Run(events).Some?
    ensures var db := Run(events).value.db;
      LogOf(db.log, v, true) ==
        if v in db.ledger && !db.ledger[v].noTransaction then Effects(db.ledger[v]) else []
  {
    RunKeeps(events);
    assert LogOk(Run(events).value.db, Current(Run(events).value), v);
  }

  /** The event fails or crashes a start that has autocommitted some statement of the file of version `v`. */
  ghost predicate CutsShort(s: State, ev: Event, v: int) {
    && (ev.Fail? || ev.Crash?) && ev.pid in s.starters
    && var phase := s.starters[ev.pid].phase;
    phase.Applying? && phase.pending != [] && phase.pending[0].version == v && phase.k > 0
  }

  /** Some attempt at version `v` was cut short after its first statement. */
  ghost predicate CutShort(events: seq<Event>, v: int) {
    exists j :: 0 <= j < |events| && Run(events[..j]).Some? && CutsShort(Run(events[..j]).value, events[j], v)
  }

  /** The statements that the event leaves behind without a ledger row. */
  ghost function LeftBehind(s: State, ev: Event, v: int): seq<Effect> {
    if CutsShort(s, ev, v) && s.starters[ev.pid].phase.k <= |Effects(s.starters[ev.pid].phase.pending[0])| then
      Effects(s.starters[ev.pid].phase.pending[0])[..s.starters[ev.pid].phase.k]
    else []
  }

  /** What all the attempts at `v` that were cut short have left behind, in order. */
  ghost function CutRuns(events: seq<Event>, v: int): seq<Effect> {
    if events == [] || Run(events).None? then []
    else
      var n := |events| - 1;
      CutRuns(events[..n], v) + LeftBehind(Run(events[..n]).value, events[n], v)
  }

  lemma {:induction false} StepLeaves(s: State, s': State, ev: Event, v: int)
    requires Inv(s) && Step(s, ev) == Some(s')
    ensures s'.db.CutOf(v) == s.db.CutOf(v) + LeftBehind(s, ev, v)
    ensures LeftBehind(s, ev, v) != [] <==> CutsShort(s, ev, v)
  {
    hide PhaseInv, LogInv, DistinctKeys, SelectPending, Verified, SortBy, Effects;
    assert s.db.CutOf(v) + [] == s.db.CutOf(v);
    if (ev.Fail? || ev.Crash?) && s.starters[ev.pid].phase.Applying? && s.starters[ev.pid].phase.pending != [] {
      var m := Head(s, ev.pid);
    }
  }

  lemma {:induction false} CutShortSnoc(events: seq<Event>, v: int)
    requires events != [] && Run(events[..|events| - 1]).Some?
    ensures var n := |events| - 1;
      CutShort(events, v) <==> CutShort(events[..n], v) || CutsShort(Run(events[..n]).value, events[n], v)
  {
    hide Run, CutsShort;
    var n := |events| - 1;
    assert forall j :: 0 <= j < n ==> events[..n][..j] == events[..j] && events[..n][j] == events[j];
    if CutShort(events[..n], v) {
      var j :| 0 <= j < n && Run(events[..n][..j]).Some? && CutsShort(Run(events[..n][..j]).value, events[..n][j], v);
      assert CutsShort(Run(events[..j]).value, events[j], v);
    }
  }

  lemma {:induction false} CutOfIsCutRuns(events: seq<Event>, v: int)
    requires Run(events).Some?
    ensures Run(events).value.db.CutOf(v) == CutRuns(events, v)
    ensures CutRuns(events, v) != [] <==> CutShort(events, v)
  {
    if events != [] {
      hide Step, Inv, CutsShort, LeftBehind, CutShort;
      var n := |events| - 1;
      CutOfIsCutRuns(events[..n], v);
      RunKeeps(events[..n]);
      StepLeaves(Run(events[..n]).value, Run(events).value, events[n], v);
      CutShortSnoc(events, v);
    }
  }

  /** A recorded no-transaction migration ran exactly once iff no start failed or crashed after the first and
      before the ledger row of an attempt at it; what such attempts ran stands in the log before the complete run. */
  lemma {:induction false} AutocommitRunsOnceIffNeverCut(events: seq<Event>, v: int)
    requires Run(events).Some?
    requires v in Run(events).value.db.ledger && Run(events).value.db.ledger[v].noTransaction
    ensures var db := Run(events).value.db;
      && LogOf(db.log, v, false) == CutRuns(events, v) + Effects(db.ledger[v])
      && (LogOf(db.log, v, false) == Effects(db.ledger[v]) <==> !CutShort(events, v))
  {
    RunKeeps(events);
    CutOfIsCutRuns(events, v);
    hide CutShort, CutRuns, Run;
    var s := Run(events).value;
    assert LogOk(s.db, Current(s), v);
    NothingInProgressOnceRecorded(s, v);
    var before, run := CutRuns(events, v), Effects(s.db.ledger[v]);
    assert before + run + [] == before + run;
    assert |before + run| == |before| + |run|;
    if before == [] { assert before + run == run; }
  }

  /** A crash before the ledger row lets a statement outside a transaction take effect twice. */
  lemma {:induction false} AutocommitCanRunTwice(m: Migration) returns (events: seq<Event>)
    requires m.noTransaction && Effects(m) != []
    ensures Run(events).Some?
    ensures LogOf(Run(events).value.db.log, m.version, false) == [Effects(m)[0], Effects(m)[0]]
  {
    events := StartAndRunOne([], Initial, 0, m);
    var s := Run(events).value;
    assert Run(events + [Crash(0)]) == Step(s, Crash(0)) by { RunSnoc(events, Crash(0)); }
    events := events + [Crash(0)];
    var t := Run(events).value;
    events := StartAndRunOne(events, t, 1, m);
    var e := Effects(m)[0];
    LogOfAppend([], m, [e, e], m.version, false);
    assert Run(events).value.db.log == [] + [e, e];
    assert LogOf([], m.version, false) == [] && LogOf([], m.version, false) + [e, e] == [e, e];
  }

  lemma {:induction false} RunSnoc(events: seq<Event>, ev: Event)
    ensures Run(events + [ev]) == if Run(events).None? then None else Step(Run(events).value, ev)
  {
    assert (events + [ev])[..|events|] == events;
  }

  /** A fresh start with the one file `m` takes the lock, finds `m` pending and runs its first statement. */
  lemma {:induction false} StartAndRunOne(before: seq<Event>, s: State, pid: int, m: Migration)
      returns (events: seq<Event>)
    requires Run(before) == Some(s) && s.holder == None && pid !in s.starters && s.db.ledger == map[]
    requires m.noTransaction && Effects(m) != []
    ensures Run(events) == Some(State(s.db.Execute(m, 0), Some(pid),
        s.starters[pid := Starter([m], Applying([m], [], 1))]))
  {
    hide Effects, Run, SortBy, SelectPending, DistinctKeys;
    var e1, e2, e3, e4 := before + [Start(pid, [m])], before + [Start(pid, [m])] + [Acquire(pid)],
      before + [Start(pid, [m])] + [Acquire(pid)] + [Load(pid)],
      before + [Start(pid, [m])] + [Acquire(pid)] + [Load(pid)] + [RunStatement(pid)];
    RunSnoc(before, Start(pid, [m]));
    RunSnoc(e1, Acquire(pid));
    RunSnoc(e2, Load(pid));
    RunSnoc(e3, RunStatement(pid));
    OneFile(m);
    assert s.db.ledger.Keys == {};
    events := e4;
    assert s.starters[pid := Starter([m], Waiting)][pid := Starter([m], Locked)] ==
      s.starters[pid := Starter([m], Locked)];
    assert s.starters[pid := Starter([m], Locked)][pid := Starter([m], Applying([m], [], 0))] ==
      s.starters[pid := Starter([m], Applying([m], [], 0))];
    assert s.starters[pid := Starter([m], Applying([m], [], 0))][pid := Starter([m], Applying([m], [], 1))] ==
      s.starters[pid := Starter([m], Applying([m], [], 1))];
  }

  lemma {:induction false} OneFile(m: Migration)
    ensures SortBy(Version(), [m]) == [m] && DistinctKeys(Version(), [m])
    ensures SelectPending({}, [m]) == [m]
  {
    assert [m][1..] == [];
    var p := (x: Migration) => x.version !in {};
    assert Filter(p, [m]) == [m];
  }

  lemma {:induction false} NothingInProgressOnceRecorded(s: State, v: int)
    requires Inv(s) && v in s.db.ledger
    ensures InProgress(Current(s), v) == []
  {
    if Current(s).Some? { var m := Head(s, s.holder.value); }
  }

  /** Rows are never changed or removed. */
  lemma {:induction false} LedgerOnlyGrows(s: State, s': State, ev: Event)
    requires Inv(s) && Step(s, ev) == Some(s')
    ensures Keeps(s.db.ledger, s'.db.ledger)
  {
    if ev.CommitTransaction? || ev.InsertRow? { var m := Head(s, ev.pid); }
  }

  /** Once a start has returned, every file of its image is in the ledger with its checksum, in that
      state and in every later one; what it applied is in ascending order. A version that was missing
      below the highest applied one is no exception, so such a gap closes. */
  lemma {:induction false} ReturnedStartIsCovered(events: seq<Event>, pid: int, f: Migration)
    requires Run(events).Some? && pid in Run(events).value.starters
    requires Run(events).value.starters[pid].phase.Returned? && f in Run(events).value.starters[pid].files
    ensures Covered(Run(events).value.db.ledger, f)
    ensures StrictlyAscending(x => x, Run(events).value.starters[pid].phase.done)
  {
    RunKeeps(events);
    var s := Run(events).value;
    assert PhaseInv(s.db, s.starters[pid].files, s.starters[pid].phase);
  }

  /** Every start, returned, interrupted or still at it, has applied what it has in ascending order, and all of it
      has its ledger row. */
  lemma {:induction false} EveryStartAppliesInOrder(events: seq<Event>, pid: int)
    requires Run(events).Some? && pid in Run(events).value.starters
    ensures var s := Run(events).value;
      && StrictlyAscending(x => x, DoneOf(s.starters[pid].phase))
      && forall v | v in DoneOf(s.starters[pid].phase) :: v in s.db.ledger
  {
    RunKeeps(events);
    var s := Run(events).value;
    assert PhaseInv(s.db, s.starters[pid].files, s.starters[pid].phase);
  }

  /** At most one start is between taking the lock and letting it go. */
  lemma {:induction false} OneStartAtATime(events: seq<Event>, p: int, q: int)
    requires Run(events).Some? && p in Run(events).value.starters && q in Run(events).value.starters
    requires Active(Run(events).value.starters[p].phase) && Active(Run(events).value.starters[q].phase)
    ensures p == q
  {
    RunKeeps(events);
  }

  /** And whoever holds the lock is such a start: one that returned, failed or crashed has let it go. */
  lemma {:induction false} LockIsNeverLeaked(events: seq<Event>)
    requires Run(events).Some? && Run(events).value.holder.Some?
    ensures var s := Run(events).value;
      && s.holder.value in s.starters
      && (s.starters[s.holder.value].phase.Locked? || s.starters[s.holder.value].phase.Applying?)
  {
    RunKeeps(events);
  }

  // ----- the runner on one database ----------------------------------------

  /** Where an attempt at a migration raises: the statement's index, or the number of statements
      for the ledger row; `None` when it does not. */
  type Fate = Migration -> Option<nat>

  function ApplyOne(db: Db, m: Migration, fate: Fate): (Db, bool) {
    var n := |Effects(m)|;
    var at := fate(m);
    if at.None? || at.value > n then
      (if m.noTransaction then Db(db.ledger, db.log + Effects(m), db.cut).Record(m) else db.Commit(m), true)
    else if m.noTransaction then
      (Db(db.ledger, db.log + Effects(m)[..at.value], db.cut).Abandon(m, at.value), false)
    else (db, false)
  }

  datatype Outcome = Outcome(db: Db, applied: seq<int>, failed: Option<int>)

  /** Apply `ms` in order, stopping at the first failure. */
  function ApplyAll(db: Db, ms: seq<Migration>, fate: Fate): Outcome {
    if ms == [] then Outcome(db, [], None)
    else
      var before := ApplyAll(db, ms[..|ms| - 1], fate);
      var m := ms[|ms| - 1];
      if before.failed.Some? then before
      else
        var (db', ok) := ApplyOne(before.db, m, fate);
        if ok then Outcome(db', before.applied + [m.version], None)
        else Outcome(db', before.applied, Some(m.version))
  }

  class Database {
    var db: Db

    method ApplyMigration(m: Migration, fate: Fate) returns (ok: bool)
      modifies this
      ensures (db, ok) == ApplyOne(old(db), m, fate)
    {
      var n := |Effects(m)|;
      var at := fate(m);
      if m.noTransaction {
        ghost var was := db;
        var k := 0;
        while k < n && at != Some(k)
          invariant k <= n && (at.Some? && at.value <= n ==> k <= at.value)
          invariant db == Db(was.ledger, was.log + Effects(m)[..k], was.cut)
        {
          assert Effects(m)[..k + 1] == Effects(m)[..k] + [Effects(m)[k]];
          assert was.log + Effects(m)[..k] + [Effects(m)[k]] == was.log + Effects(m)[..k + 1];
          db := db.Execute(m, k);
          k := k + 1;
        }
        assert Effects(m)[..n] == Effects(m);
        if at == Some(k) {
          db := db.Abandon(m, k);
          return false;
        }
        db := db.Record(m);
        return true;
      } else {
        if at.Some? && at.value <= n {
          return false;
        }
        db := db.Commit(m);
        return true;
      }
    }

    /** The first applied version, ascending, whose file is missing or has changed. */
    method VerifyApplied(files: seq<Migration>) returns (error: Option<Error>)
      ensures error.None? <==> Verified(db.ledger, files)
      ensures error.Some? ==> (error.value.NoFile? || error.value.Changed?) && error.value.version in db.ledger
      ensures error.Some? && error.value.NoFile? ==> forall f | f in files :: f.version != error.value.version
      ensures error.Some? && error.value.Changed? ==>
        var v := error.value.version;
        (exists f | f in files :: f.version == v)
        && forall f | f in files && f.version == v :: f.checksum != db.ledger[v].checksum
      ensures error.Some? ==> forall v | v in db.ledger && v < error.value.version :: Matches(files, v, db.ledger[v])
    {
      var versions := SortedSet(db.ledger.Keys);
      for i := 0 to |versions|
        invariant forall k | 0 <= k < i :: Matches(files, versions[k], db.ledger[versions[k]])
      {
        var v := versions[i];
        var found, same := false, false;
        for j := 0 to |files|
          invariant found <==> exists k | 0 <= k < j :: files[k].version == v
          invariant same <==> Matches(files[..j], v, db.ledger[v])
        {
          found := found || files[j].version == v;
          same := same || (files[j].version == v && files[j].checksum == db.ledger[v].checksum);
        }
        if !same {
          assert v in db.ledger;
          FirstAtFault(db.ledger, files, versions, i);
          return Some(if found then Changed(v) else NoFile(v));
        }
        assert Matches(files, v, db.ledger[v]);
      }
      forall v | v in db.ledger ensures Matches(files, v, db.ledger[v]) {
        assert v in versions;
      }
      error := None;
    }

    /** One start, with the lock held throughout. */
    method ApplyMigrations(files: seq<Migration>, fate: Fate) returns (r: Result<seq<int>>)
      modifies this
      ensures !DistinctKeys(Version(), files) ==> r == Failure(Duplicate) && db == old(db)
      ensures DistinctKeys(Version(), files) && !Verified(old(db).ledger, files) ==> r.Failure? && db == old(db)
      ensures DistinctKeys(Version(), files) && Verified(old(db).ledger, files) ==>
        var o := ApplyAll(old(db), SelectPending(old(db).ledger.Keys, files), fate);
        db == o.db && r == if o.failed.None? then Success(o.applied) else Failure(Failed(o.failed.value))
      ensures var (db', phase) := Started(old(db), files, fate);
        db == db' && if r.Success? then phase == Returned(r.value) else phase.Stopped?
    {
      hide DistinctKeys, Verified, ApplyOne, SortBy, Matches, SelectPending;
      var discovered := DiscoverMigrations(files);
      if discovered.Failure? {
        return Failure(discovered.error);
      }
      var ms := discovered.value;
      SameFiles(files, ms, db.ledger);
      var bad := VerifyApplied(ms);
      if bad.Some? {
        return Failure(bad.value);
      }
      var pending := SelectPending(db.ledger.Keys, ms);
      var applied: seq<int> := [];
      ghost var was := db;
      for k := 0 to |pending|
        invariant ApplyAll(was, pending[..k], fate) == Outcome(db, applied, None)
      {
        assert pending[..k + 1][..k] == pending[..k];
        var ok := ApplyMigration(pending[k], fate);
        if !ok {
          ApplyAllStops(was, pending, k + 1, fate);
          return Failure(Failed(pending[k].version));
        }
        applied := applied + [pending[k].version];
      }
      assert pending[..|pending|] == pending;
      r := Success(applied);
    }
  }

  /** In ascending order everything before position `i` is smaller, and nothing else is. */
  lemma {:induction false} FirstAtFault(ledger: map<int, Migration>, files: seq<Migration>, versions: seq<int>, i: nat)
    requires versions == SortedSet(ledger.Keys) && i < |versions|
    requires forall k | 0 <= k < i :: versions[k] in ledger && Matches(files, versions[k], ledger[versions[k]])
    ensures forall v | v in ledger && v < versions[i] :: Matches(files, v, ledger[v])
  {
    hide Matches;
    SortedAscends(ledger.Keys);
    forall v | v in ledger && v < versions[i] ensures Matches(files, v, ledger[v]) {
      assert v in versions;
      var k :| 0 <= k < |versions| && versions[k] == v;
    }
  }

  lemma {:induction false} SortedAscends(s: set<int>)
    ensures forall i, j :: 0 <= i < j < |SortedSet(s)| ==> SortedSet(s)[i] < SortedSet(s)[j]
  {
    var r, key := SortedSet(s), (x: int) => x;
    forall i, j | 0 <= i < j < |r| ensures r[i] < r[j] { assert key(r[i]) < key(r[j]); }
  }

  lemma {:induction false} SameFiles(files: seq<Migration>, ms: seq<Migration>, ledger: map<int, Migration>)
    requires DistinctKeys(Version(), files) && ms == SortBy(Version(), files)
    ensures Verified(ledger, ms) <==> Verified(ledger, files)
    ensures SelectPending(ledger.Keys, ms) == SelectPending(ledger.Keys, files)
  {
    SortSorts(Version(), files);
    forall f ensures f in ms <==> f in files {
      assert f in ms <==> f in multiset(ms);
      assert f in files <==> f in multiset(files);
    }
    var p := (m: Migration) => m.version !in ledger.Keys;
    FilterOfPermutation(p, files, ms);
    FilterKeepsDistinct(p, Version(), files);
    SortOfPermutation(Version(), Filter(p, files), Filter(p, ms));
  }

  lemma {:induction false} ApplyAllStops(db: Db, ms: seq<Migration>, k: nat, fate: Fate)
    requires k <= |ms| && ApplyAll(db, ms[..k], fate).failed.Some?
    ensures ApplyAll(db, ms, fate) == ApplyAll(db, ms[..k], fate)
  {
    if k == |ms| {
      assert ms[..k] == ms;
    } else {
      assert ms[..|ms| - 1][..k] == ms[..k];
      ApplyAllStops(db, ms[..|ms| - 1], k, fate);
    }
  }

  /** One more migration applied. */
  lemma {:induction false} ApplyAllSnoc(db: Db, ms: seq<Migration>, fate: Fate)
    requires ms != [] && ApplyAll(db, ms, fate).failed.None?
    ensures var n := |ms| - 1;
      var before, after := ApplyAll(db, ms[..n], fate), ApplyAll(db, ms, fate);
      && before.failed.None?
      && after.applied == before.applied + [ms[n].version]
      && after.db.ledger == before.db.ledger[ms[n].version := ms[n]]
  {
    hide ApplyOne;
    ApplyOneLedger(ApplyAll(db, ms[..|ms| - 1], fate).db, ms[|ms| - 1], fate);
  }

  function VersionsOf(ms: seq<Migration>): (r: seq<int>)
    ensures |r| == |ms| && forall i :: 0 <= i < |ms| ==> r[i] == ms[i].version
  {
    seq(|ms|, i requires 0 <= i < |ms| => ms[i].version)
  }

  lemma {:induction false} VersionsSnoc(ms: seq<Migration>)
    requires ms != []
    ensures VersionsOf(ms) == VersionsOf(ms[..|ms| - 1]) + [ms[|ms| - 1].version]
  {
  }

  /** A start that succeeds applies exactly the pending versions, in order... */
  lemma {:induction false} SuccessAppliesInOrder(db: Db, ms: seq<Migration>, fate: Fate)
    requires ApplyAll(db, ms, fate).failed.None?
    ensures ApplyAll(db, ms, fate).applied == VersionsOf(ms)
  {
    hide VersionsOf, ApplyOne;
    if ms == [] {
      assert VersionsOf([]) == [];
    } else {
      ApplyAllSnoc(db, ms, fate);
      hide ApplyAll;
      SuccessAppliesInOrder(db, ms[..|ms| - 1], fate);
      VersionsSnoc(ms);
    }
  }

  /** ...and its ledger then has every file. */
  lemma {:induction false} SuccessCovers(db: Db, ms: seq<Migration>, fate: Fate)
    requires ApplyAll(db, ms, fate).failed.None?
    ensures ApplyAll(db, ms, fate).db.ledger.Keys == db.ledger.Keys + FileVersions(ms)
  {
    if ms == [] {
      assert FileVersions(ms) == {};
    } else {
      hide FileVersions;
      ApplyAllSnoc(db, ms, fate);
      hide ApplyAll;
      SuccessCovers(db, ms[..|ms| - 1], fate);
      FileVersionsSnoc(ms);
      var less := ApplyAll(db, ms[..|ms| - 1], fate).db.ledger;
      assert less[ms[|ms| - 1].version := ms[|ms| - 1]].Keys == less.Keys + {ms[|ms| - 1].version};
    }
  }

  /** What one attempt leaves: with no fault all statements and the row; with one, nothing of a transaction, and of
      an autocommitted file the statements before the fault, without a row. */
  lemma {:induction false} AttemptLeaves(db: Db, m: Migration, fate: Fate)
    ensures var statements := SqlScript.Split(m.sql);
      var (after, ok) := ApplyOne(db, m, fate);
      var ran := if ok then |statements| else if m.noTransaction then fate(m).value else 0;
      && (ok <==> fate(m).None? || fate(m).value > |statements|)
      && after.ledger == (if ok then db.ledger[m.version := m] else db.ledger)
      && |after.log| == |db.log| + ran && after.log[..|db.log|] == db.log
      && forall k :: 0 <= k < ran ==>
           after.log[|db.log| + k].version == m.version && after.log[|db.log| + k].statement == statements[k]
  {
  }

  /** No statement of the file raises, and neither does its row. */
  predicate Faultless(m: Migration, fate: Fate) {
    fate(m).None? || fate(m).value > |SqlScript.Split(m.sql)|
  }

  /** A start that fails stops at the first pending file with a fault: those before it are applied and recorded, and
      neither it nor any after it is. */
  lemma {:induction false} FailureStopsThere(db: Db, ms: seq<Migration>, fate: Fate) returns (k: nat)
    requires ApplyAll(db, ms, fate).failed.Some?
    ensures var o := ApplyAll(db, ms, fate);
      && k < |ms| && o.failed == Some(ms[k].version) && o.applied == VersionsOf(ms[..k])
      && !Faultless(ms[k], fate)
      && o.db.ledger.Keys == db.ledger.Keys + FileVersions(ms[..k])
      && forall m <- ms[..k] :: Faultless(m, fate)
  {
    LastOfFailure(db, ms, fate);
    hide FileVersions, VersionsOf, ApplyAll, Faultless;
    var n := |ms| - 1;
    if ApplyAll(db, ms[..n], fate).failed.Some? {
      k := FailureStopsThere(db, ms[..n], fate);
      assert ms[..n][..k] == ms[..k];
    } else {
      k := n;
      SuccessAppliesInOrder(db, ms[..n], fate);
      SuccessCovers(db, ms[..n], fate);
      NoFaultsBefore(db, ms[..n], fate);
    }
  }

  lemma {:induction false} LastOfFailure(db: Db, ms: seq<Migration>, fate: Fate)
    requires ApplyAll(db, ms, fate).failed.Some?
    ensures ms != []
    ensures var m := ms[|ms| - 1];
      var before, after := ApplyAll(db, ms[..|ms| - 1], fate), ApplyAll(db, ms, fate);
      if before.failed.Some? then after == before
      else
        && after.failed == Some(m.version) && after.applied == before.applied
        && after.db.ledger == before.db.ledger
        && !Faultless(m, fate)
  {
    NoFault(ApplyAll(db, ms[..|ms| - 1], fate).db, ms[|ms| - 1], fate);
    hide ApplyOne, Faultless;
  }

  lemma {:induction false} NoFaultsBefore(db: Db, ms: seq<Migration>, fate: Fate)
    requires ApplyAll(db, ms, fate).failed.None?
    ensures forall m <- ms :: Faultless(m, fate)
  {
    if ms != [] {
      hide Faultless, FileVersions;
      var n := |ms| - 1;
      NoFaultsBefore(db, ms[..n], fate);
      NoFault(ApplyAll(db, ms[..n], fate).db, ms[n], fate);
      hide ApplyOne;
    }
  }

  lemma {:induction false} NoFault(db: Db, m: Migration, fate: Fate)
    ensures ApplyOne(db, m, fate).1 <==> Faultless(m, fate)
    ensures !ApplyOne(db, m, fate).1 ==> ApplyOne(db, m, fate).0.ledger == db.ledger
  {
  }

  lemma {:induction false} ApplyOneLedger(db: Db, m: Migration, fate: Fate)
    ensures ApplyOne(db, m, fate).1 ==> ApplyOne(db, m, fate).0.ledger == db.ledger[m.version := m]
  {
  }

  lemma {:induction false} FileVersionsSnoc(ms: seq<Migration>)
    requires ms != []
    ensures FileVersions(ms) == FileVersions(ms[..|ms| - 1]) + {ms[|ms| - 1].version}
  {
    var n := |ms| - 1;
    forall v | v in FileVersions(ms) ensures v in FileVersions(ms[..n]) + {ms[n].version} {
      var k :| 0 <= k < |ms| && ms[k].version == v;
      if k < n { assert ms[..n][k].version == v; }
    }
    forall v | v in FileVersions(ms[..n]) ensures v in FileVersions(ms) {
      var k :| 0 <= k < n && ms[..n][k].version == v;
      assert ms[k].version == v;
    }
    assert ms[n].version in FileVersions(ms);
  }

  // ----- one start is a run of the protocol ------------------------------------

  /** The state in which starter `pid` stands at `phase`, everybody else as in `s`. */
  ghost function At(s: State, pid: int, files: seq<Migration>, db: Db, phase: Phase): State {
    State(db, if Active(phase) then Some(pid) else None, s.starters[pid := Starter(files, phase)])
  }

  lemma {:induction false} Moves(s: State, pid: int, files: seq<Migration>, db: Db, phase: Phase, next: Phase)
    ensures At(s, pid, files, db, phase).With(pid, next).starters == At(s, pid, files, db, next).starters
  {
    assert s.starters[pid := Starter(files, phase)][pid := Starter(files, next)] ==
      s.starters[pid := Starter(files, next)];
  }

  /** Up to the list of what is pending. */
  lemma {:induction false} BeginsAsRun(before: seq<Event>, s: State, pid: int, files: seq<Migration>)
      returns (after: seq<Event>)
    requires Run(before) == Some(s) && s.holder == None && pid !in s.starters && DistinctKeys(Version(), files)
    ensures before <= after
    ensures Run(after) == Some(At(s, pid, SortBy(Version(), files), s.db,
      if Verified(s.db.ledger, files) then Applying(SelectPending(s.db.ledger.Keys, files), [], 0) else Stopped([])))
  {
    hide Run, SortBy, SelectPending, Verified, DistinctKeys;
    var ms := SortBy(Version(), files);
    SameFiles(files, ms, s.db.ledger);
    RunSnoc(before, Start(pid, files));
    var e1 := before + [Start(pid, files)];
    RunSnoc(e1, Acquire(pid));
    Moves(s, pid, ms, s.db, Waiting, Locked);
    var e2 := e1 + [Acquire(pid)];
    assert Run(e2) == Some(At(s, pid, ms, s.db, Locked));
    RunSnoc(e2, Load(pid));
    Moves(s, pid, ms, s.db, Locked, Stopped([]));
    Moves(s, pid, ms, s.db, Locked, Applying(SelectPending(s.db.ledger.Keys, files), [], 0));
    after := e2 + [Load(pid)];
  }

  /** The first `k` autocommitted statements of the migration at the head. */
  lemma {:induction false} StatementsAsRun(before: seq<Event>, s: State, pid: int, files: seq<Migration>, db: Db,
                                           pending: seq<Migration>, done: seq<int>, k: nat) returns (after: seq<Event>)
    requires Run(before) == Some(At(s, pid, files, db, Applying(pending, done, 0)))
    requires pending != [] && pending[0].noTransaction && k <= |Effects(pending[0])|
    ensures before <= after
    ensures Run(after) == Some(At(s, pid, files, Db(db.ledger, db.log + Effects(pending[0])[..k], db.cut),
        Applying(pending, done, k)))
  {
    hide Run, Effects;
    var es := Effects(pending[0]);
    if k == 0 {
      after := before;
      assert db.log + es[..0] == db.log;
    } else {
      var e := StatementsAsRun(before, s, pid, files, db, pending, done, k - 1);
      RunSnoc(e, RunStatement(pid));
      assert db.log + es[..k - 1] + [es[k - 1]] == db.log + es[..k];
      Moves(s, pid, files, db, Applying(pending, done, k - 1), Applying(pending, done, k));
      after := e + [RunStatement(pid)];
    }
  }

  /** The migration at the head, to its ledger row or to its failure. */
  lemma {:induction false} OneAsRun(before: seq<Event>, s: State, pid: int, files: seq<Migration>, db: Db,
                                    pending: seq<Migration>, done: seq<int>, fate: Fate) returns (after: seq<Event>)
    requires Run(before) == Some(At(s, pid, files, db, Applying(pending, done, 0))) && pending != []
    ensures before <= after
    ensures var (db', ok) := ApplyOne(db, pending[0], fate);
      Run(after) == Some(At(s, pid, files, db', if ok then Applying(pending[1..], done + [pending[0].version], 0)
        else Stopped(done)))
  {
    hide Run, Effects;
    var m := pending[0];
    var n, at := |Effects(m)|, fate(m);
    var ok := at.None? || at.value > n;
    var k := if !m.noTransaction then 0 else if ok then n else at.value;
    after := before;
    assert db.log + Effects(m)[..0] == db.log && Effects(m)[..n] == Effects(m);
    if m.noTransaction {
      after := StatementsAsRun(before, s, pid, files, db, pending, done, k);
    }
    var next := if ok then Applying(pending[1..], done + [m.version], 0) else Stopped(done);
    Moves(s, pid, files, db, Applying(pending, done, k), next);
    var ev := if !ok then Fail(pid) else if m.noTransaction then InsertRow(pid) else CommitTransaction(pid);
    RunSnoc(after, ev);
    after := after + [ev];
  }

  lemma {:induction false} AllAsRun(before: seq<Event>, s: State, pid: int, files: seq<Migration>,
                                    ms: seq<Migration>, k: nat, fate: Fate) returns (after: seq<Event>)
    requires Run(before) == Some(At(s, pid, files, s.db, Applying(ms, [], 0))) && k <= |ms|
    ensures before <= after
    ensures var o := ApplyAll(s.db, ms[..k], fate);
      Run(after) == Some(At(s, pid, files, o.db, if o.failed.None? then Applying(ms[k..], o.applied, 0)
        else Stopped(o.applied)))
  {
    hide Run, ApplyOne;
    if k == 0 {
      after := before;
      assert ms[0..] == ms;
    } else {
      after := AllAsRun(before, s, pid, files, ms, k - 1, fate);
      assert ms[..k][..k - 1] == ms[..k - 1];
      var o := ApplyAll(s.db, ms[..k - 1], fate);
      if o.failed.None? {
        assert ms[k - 1..][1..] == ms[k..];
        after := OneAsRun(after, s, pid, files, o.db, ms[k - 1..], o.applied, fate);
      }
    }
  }

  /** Where a start on the files leaves database and starter, as `Database.ApplyMigrations` says. */
  ghost function Started(db: Db, files: seq<Migration>, fate: Fate): (Db, Phase) {
    if !DistinctKeys(Version(), files) || !Verified(db.ledger, files) then (db, Stopped([]))
    else
      var o := ApplyAll(db, SelectPending(db.ledger.Keys, files), fate);
      (o.db, if o.failed.None? then Returned(o.applied) else Stopped(o.applied))
  }

  /** A start that is not interrupted is a run of the protocol: from any state in which nobody holds the lock,
      there are steps of one starter that leave the database as the runner does. */
  lemma {:induction false} StartIsARun(before: seq<Event>, s: State, pid: int, files: seq<Migration>, fate: Fate)
      returns (after: seq<Event>)
    requires Run(before) == Some(s) && s.holder == None && pid !in s.starters
    ensures before <= after && Run(after).Some?
    ensures var (db, phase) := Started(s.db, files, fate);
      Run(after).value.db == db && Run(after).value.holder == None &&
      pid in Run(after).value.starters && Run(after).value.starters[pid].phase == phase
  {
    hide Run, ApplyAll, SelectPending, Verified, DistinctKeys;
    if !DistinctKeys(Version(), files) {
      RunSnoc(before, Start(pid, files));
      after := before + [Start(pid, files)];
    } else {
      after := BeginsAsRun(before, s, pid, files);
      if Verified(s.db.ledger, files) {
        var ms, sorted := SelectPending(s.db.ledger.Keys, files), SortBy(Version(), files);
        after := AllAsRun(after, s, pid, sorted, ms, |ms|, fate);
        assert ms[..|ms|] == ms && ms[|ms|..] == [];
        var o := ApplyAll(s.db, ms, fate);
        if o.failed.None? {
          RunSnoc(after, Return(pid));
          Moves(s, pid, sorted, o.db, Applying([], o.applied, 0), Returned(o.applied));
          after := after + [Return(pid)];
        }
      }
    }
  }
}
