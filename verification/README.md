# A model of the analyzer's core, with proofs

This project models the decision-making and coordinating code of the failure-triage service in
Dafny and proves what that code is relied on to do. Each module stands for one component:

| module | component |
|---|---|
| `SqlScript` | the lexer that splits a migration script into statements |
| `Migrations` | the migration ledger: concurrent starts, crashes, gaps, and one run of the runner |
| `Grouping` | the three passes that group the failures of a launch |
| `LaunchFanOut` | how a group's decision reaches its members |
| `DrainCas` | indexing against a versioned Drain state, saved by compare-and-swap |
| `WorkerPool` | the priority queue, workers, retries, dead letters and shutdown of the consumer |
| `LlmQueue` | the bounded heap of LLM jobs |
| `Breaker`, `TextScreen`, `Engine` | the circuit breaker, the screen for cut answers, and one LLM role run |
| `Features`, `Calibration`, `Decision`, `LabelProb` | the decision for one item and its probabilities |
| `LlmEval` | the Wilson and MOVER bounds and the nightly kill switch |
| `Excerpt` | middle-out truncation of a log to a token budget |
| `SuggestReply` | the assembly of a suggest reply |
| `DropPassed` | pruning of passed subtrees before a transfer |
| `Sorting`, `Numbers`, `Wrappers` | sorting and filtering, shared arithmetic, the optional value |

Code that computes a value is a function here. Code that changes fields or runs a loop is a class or a
method, proved to leave exactly what a specification function gives; the results are lemmas about that
function. The two distributed protocols and the worker pool are state machines whose steps interleave in
any order, with invariants over every run.

Where results are stated through a definition (a step of the lexer, the merge rule, the gate of Stage A, the
second seed, the row that becomes a result), a lemma of its own says what it amounts to over the fields of the
inputs, without that definition.

Numbers that the program keeps in floating point are reals. Where the code and its own comments
disagree, the code is followed: the queue's helper docstring (src/analyzer_ng/llm/queue.py:83-84) reads as
if an equally urgent newcomer were refused, while the code evicts the oldest queued job; the docstring of
`estimate_tokens` speaks of integer arithmetic, while the code divides and rounds up, which is the same
number.

Results that came out narrower than one might expect, each with its exact condition:

- a no-transaction migration runs once iff no start failed or crashed in the middle of an attempt at it
  (`Migrations.AutocommitCanRunTwice` is a run in which one statement takes effect twice);
- the calibrated label values sum to one iff the raw maximum is below one or the argmax keeps all the mass
  (`LabelProb.CanLoseMass` is a distribution that loses half);
- the promotion to the suggest floor becomes an auto-label iff `tau_auto` is at most the suggest threshold
  (`Decision.FloorCanBeAuto` is such an input);
- an auto decision carries no label that the model knows iff a strong mode has no recognised locator, or a
  cold install has a confident seed of an unrecognised group (`Decision.ModeCanSlip`, `Decision.SeedCanSlip`);
- every answer of a role is served again from the cache for as long as it is fresh iff the role's schema and
  post-validation together refuse a body that carries the marker of a negative row
  (`Engine.AnswersAreServedAgainIff`; `Engine.MarkerHidesAnAnswer` is the run that loses one for any such body).
  The schemas of the four shipped roles refuse fields they do not name
  (src/analyzer_ng/llm/roles/explainer.py:92 and its siblings), so they meet the condition. A cached failure is
  served only inside the shorter of its own window and the answer window;
- pruning keeps every ancestor of every kept item iff the list has no torn twin: an item that is not passed
  shares its id with a child of another parent only where that parent's id survives anyway
  (`DropPassed.AncestorsAreKeptIff`; `DropPassed.TwinLosesItsParent` is a list that has one). Lists with unique
  ids, or with one parent per id, have none.

## Model

| member | source | states |
|---|---|---|
| SqlScript.SplitStatements | src/analyzer_ng/db/migrate.py:137-210 | the loop over index, buffer, quote flag and dollar tag returns the statements that the four-mode lexer gives, for every script |
| SqlScript.Next | src/analyzer_ng/db/migrate.py:153-205 | every lexer step reads at least one character; only plain SQL drops a comment or ends a statement, and only a semicolon ends one |
| SqlScript.StepOutOfText | src/analyzer_ng/db/migrate.py:177-201 | a comment is dropped exactly in plain SQL at two hyphens, and is the text up to the line feed or the end; a statement ends exactly in plain SQL at a semicolon |
| SqlScript.TagTail | src/analyzer_ng/db/migrate.py:188-194 | a dollar tag is letters, digits and underscores up to the next dollar sign |
| SqlScript.LineLength | src/analyzer_ng/db/migrate.py:177-180 | a line comment reaches to the line feed, which it does not take |
| SqlScript.SplitThenJoin | src/analyzer_ng/db/migrate.py:137-210 | for every script, splitting the split statements rejoined by a semicolon and a line feed gives the same list |
| SqlScript.JoinThenSplit | src/analyzer_ng/db/migrate.py:137-210 | a list survives joining and splitting exactly if its statements are stripped, comment-free, self-contained and, but for the last, end in plain SQL |
| SqlScript.SplitWellFormed | src/analyzer_ng/db/migrate.py:137-210 | every list that comes out of the splitter has that form |
| SqlScript.SplitOfJoin | src/analyzer_ng/db/migrate.py:137-210 | joining then splitting a well-formed list is the identity |
| SqlScript.HeadFaithful | src/analyzer_ng/db/migrate.py:137-210 | the text of a statement, read on its own, lexes to itself and ends in the mode in which it was cut |
| SqlScript.LexAfter | src/analyzer_ng/db/migrate.py:137-210 | text that lexes to itself and ends in plain SQL does so in front of any text that starts a new token |
| SqlScript.QuotedLiteralIsOpaque | src/analyzer_ng/db/migrate.py:166-186 | any text with its quotes doubled, between quotes, is one literal: nothing inside it cuts, comments or opens a dollar body |
| SqlScript.DollarBodyIsOpaque | src/analyzer_ng/db/migrate.py:156-194 | a dollar-quoted body is kept whole up to the first occurrence of its tag, whatever it holds |
| SqlScript.CommentTakesItsLine | src/analyzer_ng/db/migrate.py:177-180 | two hyphens and any text without a line feed, in front of a line feed or the end, lex to nothing at all: the rest of the script is read as if the comment had not been there |
| SqlScript.ReadsPieceByPiece | src/analyzer_ng/db/migrate.py:137-210 | a script written as such a sequence splits as the sequence says: a semicolon ends a statement, a comment is dropped, and every other piece goes in as written; the two pieces left open run to the end |
| SqlScript.EveryScriptIsReadable | src/analyzer_ng/db/migrate.py:137-210 | every text is the writing of such a sequence, so the previous row says what the splitter does with any script |
| SqlScript.TagIsWordAndDollar | src/analyzer_ng/db/migrate.py:44-44 | between the dollar signs of a tag stand letters, digits and underscores, any number of them and nothing else |
| SqlScript.StripTakesSpaceOnly | src/analyzer_ng/db/migrate.py:196-200 | what is stripped from a statement is whitespace, at both ends and all of it |
| SqlScript.SpaceCharacters | src/analyzer_ng/db/migrate.py:196-200 | whitespace is what Python strips, character by character |
| SqlScript.NothingElseLost | src/analyzer_ng/db/migrate.py:137-210 | every script is a sequence of characters of SQL, comments, literals, dollar bodies and semicolons, and the chunks with their semicolons are that sequence without its comments |
| Migrations.DiscoverMigrations | src/analyzer_ng/db/migrate.py:75-121 | files come back in strictly ascending version order, or as an error exactly if two share a version |
| Migrations.PendingIsWhatIsMissing | src/analyzer_ng/db/migrate.py:257-265 | pending is exactly what the ledger lacks, wherever it lies, in ascending order |
| Migrations.GapsAreUnfillable | src/analyzer_ng/db/migrate.py:268-279 | a version is reported as a gap exactly if it is at least 1, has neither row nor file, and some higher version has one; no pending file can then fill it |
| Migrations.StepKeeps | src/analyzer_ng/db/migrate.py:282-384 | every step of every start keeps the invariant tying lock, ledger, log of effects and starts together |
| Migrations.RunKeeps | src/analyzer_ng/db/migrate.py:282-384 | so every reachable state has it |
| Migrations.TransactionsTakeEffectExactlyOnce | src/analyzer_ng/db/migrate.py:282-310 | over any interleaving of starts and crashes a transactional migration took effect once if the ledger has its row, and not at all otherwise |
| Migrations.AutocommitRunsOnceIffNeverCut | src/analyzer_ng/db/migrate.py:292-300 | a recorded no-transaction migration ran once exactly if no start failed or crashed after the first statement of an attempt at it; the log holds what such attempts ran, and then the complete run |
| Migrations.CutOfIsCutRuns | src/analyzer_ng/db/migrate.py:292-300 | what is left behind for a version is what the events that cut an attempt short had run of it, in order, and there is some exactly if there was such an event |
| Migrations.AutocommitCanRunTwice | src/analyzer_ng/db/migrate.py:292-300 | a crash before the ledger row and a second start: the same statement takes effect twice |
| Migrations.LedgerOnlyGrows | src/analyzer_ng/db/migrate.py:282-310 | no step changes or removes a ledger row |
| Migrations.ReturnedStartIsCovered | src/analyzer_ng/db/migrate.py:329-384 | once a start has returned, every file of its image is in the ledger with its checksum, then and later, and it applied in ascending order; so a gap left by an unmerged branch closes |
| Migrations.EveryStartAppliesInOrder | src/analyzer_ng/db/migrate.py:368-384 | every start, returned, interrupted or still at it, has applied what it has in ascending order, and all of it has its ledger row |
| Migrations.OneStartAtATime | src/analyzer_ng/db/migrate.py:314-326 | at most one start is between taking the advisory lock and letting it go |
| Migrations.LockIsNeverLeaked | src/analyzer_ng/db/migrate.py:314-326 | whoever holds the advisory lock is a start under way: one that returned, failed or crashed has let it go |
| Migrations.Database.ApplyMigration | src/analyzer_ng/db/migrate.py:282-310 | a transaction leaves all its statements and the row or nothing; an autocommitted file leaves what it ran, and the row only at the end |
| Migrations.Database.VerifyApplied | src/analyzer_ng/db/migrate.py:240-254 | no error exactly if every applied version has a file with the recorded checksum; otherwise the error names the first version, in ascending order, whose file is missing or changed |
| Migrations.Database.ApplyMigrations | src/analyzer_ng/db/migrate.py:329-384 | duplicates or a failed verification change nothing; else the pending files are applied in order up to the first failure |
| Migrations.SuccessAppliesInOrder | src/analyzer_ng/db/migrate.py:358-384 | a start that succeeds reports exactly the pending versions in order |
| Migrations.SuccessCovers | src/analyzer_ng/db/migrate.py:358-384 | and its ledger then has every pending file besides what it had |
| Migrations.AttemptLeaves | src/analyzer_ng/db/migrate.py:282-310 | with no fault all statements and the row; with one, nothing of a transaction, and of an autocommitted file the statements before the fault without a row |
| Migrations.FailureStopsThere | src/analyzer_ng/db/migrate.py:368-384 | a start that fails stops at the first pending file with a fault: those before it are applied and recorded, and neither it nor any after it is |
| Migrations.StartIsARun | src/analyzer_ng/db/migrate.py:329-384 | one whole start, successful or not, is a run of the protocol's steps: from any state with the lock free, steps of one starter leave database and result as `ApplyMigrations` does |
| Grouping.LaunchIgnoresInputOrder | src/analyzer_ng/core/grouping.py:134-196 | items with distinct ids give the same groups, in the same order, with the same members, representatives and priors, for every permutation of the input |
| Grouping.EveryItemGroupedOnce | src/analyzer_ng/core/grouping.py:134-196 | the members of all groups are the input items, each once |
| Grouping.SameFingerprintSameGroup | src/analyzer_ng/core/grouping.py:109-196 | two items that share a non-zero fingerprint are in one group, even after the merge pass |
| Grouping.FewBursts | src/analyzer_ng/core/grouping.py:183-195 | the number of groups with a burst prior times the threshold is below one |
| Grouping.PriorMeansBurst | src/analyzer_ng/core/grouping.py:183-195 | a positive prior means a new error hash, at least the minimum size, a share above the threshold, and lies between its base and its cap |
| Grouping.UnrankedNonEmpty | src/analyzer_ng/core/grouping.py:134-196 | no group is empty, so each has a representative |
| Grouping.BucketsConserve | src/analyzer_ng/core/grouping.py:152-162 | the buckets of the fingerprints hold exactly the items that have one |
| Grouping.MergeAllTogether | src/analyzer_ng/core/grouping.py:109-126 | merging groups that share no fingerprint keeps them sharing none |
| Grouping.MergesIff | src/analyzer_ng/core/grouping.py:109-126 | a group is absorbed exactly if some earlier one has a centroid at least theta close, a missing one counting as -1, and shares at least half of all templates of the two |
| Grouping.MergeGoesToTheFirst | src/analyzer_ng/core/grouping.py:109-126 | the first such group takes all members and templates, in order; no other changes, and without one the group stands last |
| Grouping.AttachGoesToTheLastBest | src/analyzer_ng/core/grouping.py:164-178 | a leftover joins the last of the groups nearest to it if they are at least theta near, and opens a group of its own otherwise; no other group changes |
| Grouping.CentroidIsMean | src/analyzer_ng/core/grouping.py:74-80 | a new group starts from the normalised mean of the vectors that its members have |
| Grouping.CentroidIsRunningMean | src/analyzer_ng/core/grouping.py:83-94 | a new member moves the centroid as the running mean over the members that have a vector, normalised again; one without a vector leaves it |
| Grouping.GroupsAreConsistent | src/analyzer_ng/core/grouping.py:74-126 | however a group came about, its templates are those of its members and it has a centroid exactly if some member has a vector |
| Grouping.GroupsStandInOrder | src/analyzer_ng/core/grouping.py:149-178 | the groups with a fingerprint come first, by the fingerprint of their first member, and the groups of leftovers follow by id |
| Grouping.Best | src/analyzer_ng/core/grouping.py:166-174 | the last of the groups whose cosine is highest, if any reaches theta |
| Grouping.FirstClose | src/analyzer_ng/core/grouping.py:113-120 | the first earlier group that the merge rule accepts, if any |
| Grouping.Representative | src/analyzer_ng/core/grouping.py:129-131 | no member ranks above it by stack trace, log count and smaller id |
| Grouping.RepresentativeIsTheBest | src/analyzer_ng/core/grouping.py:129-131 | in every group of a launch the representative has a stack trace if any member has, then the most logs, then the smallest id |
| Grouping.PriorIff | src/analyzer_ng/core/grouping.py:181-195 | a group of a launch has a prior exactly if the failure of its representative is new, it has the minimum size and more than its share of the launch; the prior is a half and that share, up to 0.9 |
| Grouping.LaunchGroup.constructor | src/analyzer_ng/core/grouping.py:74-80 | a new group has the members, the normalised mean of their embeddings, and the union of their templates |
| Grouping.LaunchGroup.Add | src/analyzer_ng/core/grouping.py:83-94 | adding a member updates members, running centroid and templates as the group value says |
| Grouping.Partition | src/analyzer_ng/core/grouping.py:152-159 | the dictionary holds each fingerprint's items in input order, and the rest are the leftovers |
| Grouping.OpenBuckets | src/analyzer_ng/core/grouping.py:160-162 | one fresh group per fingerprint in ascending order |
| Grouping.AttachItem | src/analyzer_ng/core/grouping.py:164-178 | a leftover joins the best group in place or opens a new one; no other group changes |
| Grouping.AttachLeftovers | src/analyzer_ng/core/grouping.py:164-178 | the leftovers in ascending id order leave the groups of the second pass |
| Grouping.FindClose | src/analyzer_ng/core/grouping.py:113-120 | the scan finds the first group that the merge rule accepts |
| Grouping.MergeOne | src/analyzer_ng/core/grouping.py:112-126 | a group is absorbed by the first one that the merge rule accepts, or stands behind them all |
| Grouping.MergeClose | src/analyzer_ng/core/grouping.py:109-126 | the merge pass on mutable groups leaves the groups of the specification |
| Grouping.GroupLaunch | src/analyzer_ng/core/grouping.py:134-196 | the whole algorithm on mutable groups leaves exactly the specified groups, representatives and priors |
| LaunchFanOut.CanonicalDiscriminants | src/analyzer_ng/core/analysis.py:701-736 | each analyzed item, and no other, has a discriminant: the stored one if there is one, else that of its last analysis |
| LaunchFanOut.CanonicalIs | src/analyzer_ng/core/analysis.py:719-736 | the discriminant of an item is the stored one, or else that of its last analysis, found by position; without an analysis there is none |
| LaunchFanOut.Analyzer.AnalyzeLaunch | src/analyzer_ng/core/analysis.py:339-424 | the nested loops write the rows, memberships, calls and results of the specification, group by group |
| LaunchFanOut.Analyzer.AnalyzeGroup | src/analyzer_ng/core/analysis.py:355-423 | one group: the representative is decided first, then each member keeps that decision or takes its own |
| LaunchFanOut.OneRowPerItem | src/analyzer_ng/core/analysis.py:339-424 | analyzing a launch writes exactly one suggestion row for every analyzed item |
| LaunchFanOut.DecisionsAreOwned | src/analyzer_ng/core/analysis.py:369-401 | the decision of a group reaches just the members whose discriminant is identical to that of the representative, as the one call made for the group; every other member carries a call of its own, and no other call is made |
| LaunchFanOut.ResultsAndMemberships | src/analyzer_ng/core/analysis.py:382-423 | the results are the rows with an automatic action and a group other than Ti, every one of them, in their order, with item, locator and relevant item, 0 where there is none; and each item joins the mode its own row's decision matched, once |
| LaunchFanOut.ResultsWithoutLocator | src/analyzer_ng/core/analysis.py:409-419 | with the decision layer as decider, a result is applied under a locator of no base group exactly if the decision behind its row slipped |
| DrainCas.DrainStore.SaveManager | src/analyzer_ng/ml/drain.py:284-295 | the save happens exactly if the version is the expected one, and then moves it on by one and mirrors the templates |
| DrainCas.DrainStore.MineAndBuild | src/analyzer_ng/core/ingest.py:200-252 | it succeeds exactly if some attempt meets no rival commit; then the state is the rivals' batches followed by its own, the templates were mirrored after each of them, and its signatures were mined just before its own commit; otherwise only the rivals' batches are there |
| DrainCas.StepKeeps | src/analyzer_ng/core/ingest.py:159-252 | every step of every indexer, with or without the lock, keeps the invariant on store, commits and workers |
| DrainCas.RunKeeps | src/analyzer_ng/core/ingest.py:159-252 | so every reachable state has it |
| DrainCas.StoredStateIsFoldOfCommits | src/analyzer_ng/core/ingest.py:200-252 | for any interleaving the stored state is the committed batches mined one after the other in version order, one version each, and no indexer commits twice |
| DrainCas.FoldIsMined | src/analyzer_ng/core/ingest.py:200-252 | batches mined one after the other are their entries mined one after the other, none lost and none twice |
| DrainCas.SignaturesAfterTheBatch | src/analyzer_ng/core/ingest.py:200-235 | the signature of an entry is that of what mining it gave after the entries before it, filled in from the tree that the whole batch left |
| DrainCas.LockIsNeverLeaked | src/analyzer_ng/core/ingest.py:323-331 | only an indexer inside the guarded section holds the lock: one that returned, gave up or crashed has let it go |
| DrainCas.ReturnedSignaturesMatchTheCommit | src/analyzer_ng/core/ingest.py:200-252 | the signatures an indexer returns were mined from the state its own commit replaced |
| DrainCas.ExhaustedLeavesNothing | src/analyzer_ng/core/ingest.py:245-252 | an indexer that runs out of attempts has committed nothing |
| DrainCas.LockPreventsConflicts | src/analyzer_ng/core/ingest.py:323-331 | under the advisory lock no save loses a race and no indexer runs out of attempts |
| DrainCas.MiningIsARun | src/analyzer_ng/core/ingest.py:200-252 | the retry loop with any rivals it meets is a run of the protocol's steps that leaves store, signatures or failure as the loop does |
| WorkerPool.Processor.ProcessBound | src/analyzer_ng/amqp/dispatcher.py:375-419 | the attempt loop makes the handler runs, sets the retry count and sends the message that the specification gives |
| WorkerPool.Handle | src/analyzer_ng/amqp/dispatcher.py:375-419 | at least one and at most max_retries + 1 runs, and a message only for this item |
| WorkerPool.HandleEnds | src/analyzer_ng/amqp/dispatcher.py:375-474 | all runs but the last raised an error that is tried again; the last one decides: its reply, nothing for an unknown key, a dead letter with the runs before it for a failure that is not retried or for an error in the last run allowed, and nothing after a stop |
| WorkerPool.Outbound | src/analyzer_ng/amqp/dispatcher.py:421-449 | a handled message is answered as an RPC reply exactly if it has a reply-to, and published exactly if it has none, came by one of the two analyze routes, the result exchange is set and the reply is neither empty nor an empty list; with the text of the reply, and nothing goes out otherwise |
| WorkerPool.StepKeeps | src/analyzer_ng/amqp/dispatcher.py:321-474 | every step of consumers, workers and shutdown keeps the pool invariant |
| WorkerPool.RunKeeps | src/analyzer_ng/amqp/dispatcher.py:321-474 | so every reachable state has it |
| WorkerPool.EveryMessageAccountedFor | src/analyzer_ng/amqp/dispatcher.py:321-419 | under any schedule the submitted messages are those queued, those in hand and those finished, message by message |
| WorkerPool.AtMostOneOutboundMessage | src/analyzer_ng/amqp/dispatcher.py:375-474 | under any schedule no message is handled more than max_retries + 1 times or causes two outbound messages, everything sent is what some finished message ended with, and a dead letter's retry count is attempts minus one |
| WorkerPool.HandlingIsARun | src/analyzer_ng/amqp/dispatcher.py:375-419 | the attempt loop on one message is a run of the pool's steps that leaves the messages, counts and worker the loop leaves |
| WorkerPool.TakesLeast | src/analyzer_ng/amqp/dispatcher.py:56-72 | a worker takes a waiting message, and everything left waiting has a higher priority number, or the same and a later arrival |
| WorkerPool.Least | src/analyzer_ng/amqp/dispatcher.py:56-72 | no waiting item comes before the one chosen |
| WorkerPool.FewTakesAfterShutdown | src/analyzer_ng/amqp/dispatcher.py:340-368 | after shutdown only workers already past the stop test take a message, one each |
| WorkerPool.PoolIsBounded | src/analyzer_ng/amqp/dispatcher.py:295-338 | under any schedule there are as many workers as configured, at least one, no more messages in hand than workers and no more waiting than the queue takes, and a submit waits exactly while the queue is full |
| WorkerPool.NoWorkerIsLost | src/analyzer_ng/amqp/dispatcher.py:354-368 | until shutdown no worker leaves, and whatever a worker is doing it can go on: no schedule gets stuck |
| LlmQueue.LlmQueue.Enqueue | src/analyzer_ng/llm/queue.py:68-74 | the jobs waiting become those of the offer, one is dropped exactly if the queue was full, and offered = popped + dropped + waiting |
| LlmQueue.LlmQueue.RejectOrEvict | src/analyzer_ng/llm/queue.py:76-102 | the newcomer is refused exactly if it is less urgent than the worst; otherwise the oldest of the worst goes |
| LlmQueue.LlmQueue.PopBlocking | src/analyzer_ng/llm/queue.py:109-119 | nothing once stopping; otherwise the oldest of the most urgent jobs, and the rest stays in order |
| LlmQueue.LlmQueue.Stop | src/analyzer_ng/llm/queue.py:149-155 | the stop flag is set and nothing else |
| LlmQueue.SiftUp | src/analyzer_ng/llm/queue.py:68-74 | pushing restores the heap and permutes the entries |
| LlmQueue.SiftDown | src/analyzer_ng/llm/queue.py:109-119 | popping restores the heap and permutes the entries |
| LlmQueue.Heapify | src/analyzer_ng/llm/queue.py:98-102 | any list becomes a heap of the same entries |
| LlmQueue.RootIsLeast | src/analyzer_ng/llm/queue.py:109-119 | in a heap no entry is below the root |
| LlmQueue.Worst | src/analyzer_ng/llm/queue.py:76-102 | the scan of the heap finds the oldest entry of the numerically highest priority |
| LlmQueue.SameVictim | src/analyzer_ng/llm/queue.py:76-102 | that entry is the one the arrival order names |
| LlmQueue.SameNext | src/analyzer_ng/llm/queue.py:109-119 | the root of the heap is the next job of the arrival order |
| LlmQueue.OldestWorst | src/analyzer_ng/llm/queue.py:76-102 | nothing waiting is less urgent, and nothing as urgent is older |
| LlmQueue.NextUp | src/analyzer_ng/llm/queue.py:109-119 | nothing waiting is more urgent, and nothing as urgent is older |
| LlmQueue.OnlineIsOffline | src/analyzer_ng/llm/queue.py:68-102 | after any enqueues without a pop the queue holds what an offline choice among all the jobs ever offered keeps |
| LlmQueue.KeptAreBest | src/analyzer_ng/llm/queue.py:68-102 | every job kept is more urgent, or as urgent and newer, than every job not kept |
| LlmQueue.KeepBestAppend | src/analyzer_ng/llm/queue.py:68-102 | choosing offline with one more arrival is one online enqueue |
| LlmQueue.DrainedInOrder | src/analyzer_ng/llm/queue.py:109-128 | popping until empty gives all jobs, most urgent first and oldest first within a priority |
| LlmQueue.JudgesComeFirst | src/analyzer_ng/llm/queue.py:22-40 | so judgements come out before all else, extractions and cold starts before explanations, and one kind in the order of arrival |
| Breaker.CircuitBreaker.Allow | src/analyzer_ng/llm/breaker.py:63-73 | open refuses until the cooldown has passed, then lets one probe through as half-open |
| Breaker.CircuitBreaker.RecordSuccess | src/analyzer_ng/llm/breaker.py:75-80 | closed again, count and cooldown reset, the opening time untouched |
| Breaker.CircuitBreaker.RecordResponse | src/analyzer_ng/llm/breaker.py:82-88 | any response has the effect of a success |
| Breaker.CircuitBreaker.RecordFailure | src/analyzer_ng/llm/breaker.py:90-106 | a failed probe reopens with the doubled, capped cooldown; reaching the threshold opens with the base one |
| Breaker.OutOfClosedIff | src/analyzer_ng/llm/breaker.py:63-106 | in every history the breaker is out of closed exactly when the trailing run of failures has reached the threshold |
| Breaker.OpenInTurn | src/analyzer_ng/llm/breaker.py:63-106 | with one worker an open breaker opened at the last failure, and every failure past the threshold was a probe |
| Breaker.DoorOpensIff | src/analyzer_ng/llm/breaker.py:63-106 | with one worker the next call may proceed exactly if fewer failures in a row than the threshold have been seen, or the base cooldown, doubled for each further failure up to the maximum, has passed since the last |
| Breaker.CooldownAfterFailedProbes | src/analyzer_ng/llm/breaker.py:90-106 | after k failed probes the cooldown is the lesser of base times 2^k and the maximum |
| Breaker.CooldownDoubles | src/analyzer_ng/llm/breaker.py:90-98 | repeated capped doubling is that closed form |
| Breaker.ProbesKeepTheirDistance | src/analyzer_ng/llm/breaker.py:63-106 | with one worker and a clock that does not go back, k failed probes take at least the sum of the first k cooldowns |
| Breaker.FailedProbesPerTime | src/analyzer_ng/llm/breaker.py:63-106 | so failed probes since the opening times the shortest cooldown is at most the time passed |
| Breaker.ProbesApartInStretch | src/analyzer_ng/llm/breaker.py:63-106 | in any stretch of calls in which the breaker stays open, wherever it begins, the openings lie apart by all the cooldowns of the probes that failed in between |
| Breaker.LetThroughAreProbes | src/analyzer_ng/llm/breaker.py:63-106 | while the breaker stays open the calls it lets through are exactly the failed probes |
| Breaker.ProbeRateInStretch | src/analyzer_ng/llm/breaker.py:63-106 | so the calls let through in any such stretch, times the shortest cooldown, are at most the time between its first and last opening |
| TextScreen.TrimEnd | src/analyzer_ng/llm/engine.py:127-141 | the longest tail of the given characters is gone and nothing else |
| TextScreen.LastIndex | src/analyzer_ng/llm/engine.py:154-163 | the last position of such a character, or none |
| TextScreen.LastCharacterDecides | src/analyzer_ng/llm/engine.py:113-151 | a text reads as cut exactly by its last character before closing quotes, brackets and space: one of those that never end a sentence, or, where the budget ran out, any that is no sentence terminal |
| TextScreen.EveryTextHasACore | src/analyzer_ng/llm/engine.py:127-141 | every text has those three parts |
| TextScreen.ClipDropsTheCutWord | src/analyzer_ng/llm/engine.py:154-163 | without a sentence terminal, clipping takes the last word and what dangles behind it, and keeps what stands before |
| TextScreen.FindTruncated | src/analyzer_ng/llm/engine.py:166-172 | the loop returns exactly the free-text fields that read as cut, in order |
| TextScreen.Mark | src/analyzer_ng/llm/engine.py:175-196 | the loop marks the fields and flags the payload as the specification says |
| TextScreen.ClipKeepsABeginning | src/analyzer_ng/llm/engine.py:154-163 | clipping keeps a beginning of the text with every sentence terminal in it, ending on one if there is one |
| TextScreen.MarkedKeepsABeginning | src/analyzer_ng/llm/engine.py:175-196 | what is kept of a marked text is a beginning of the original: the clipped text after a dangling token, and all but trailing space otherwise; no sentence end is lost |
| TextScreen.MarkedReadsComplete | src/analyzer_ng/llm/engine.py:144-196 | a marked text is what is kept, a space and an ellipsis, and never screens as cut again, whatever the finish reason |
| TextScreen.ScreenedIsClean | src/analyzer_ng/llm/engine.py:166-196 | no free-text field of a screened body screens as cut under its finish reason |
| TextScreen.ScreenedKeepsTheRest | src/analyzer_ng/llm/engine.py:166-196 | a complete body is kept as it came; otherwise it is flagged, cut fields become a beginning plus the marker, and all others stand |
| Engine.LlmEngine.Execute | src/analyzer_ng/llm/engine.py:217-267 | a run leaves the breaker, cache, requests, events and result that the specification of a run gives |
| Engine.LlmEngine.Produce | src/analyzer_ng/llm/engine.py:240-267 | the same for the part after a miss and an open door |
| Engine.LlmEngine.TryOnce | src/analyzer_ng/llm/engine.py:290-325 | one call: transport failure, tool calls, bad body, failed validation or answer, with the breaker told |
| Engine.LlmEngine.Resolve | src/analyzer_ng/llm/engine.py:327-355 | a cut answer costs one more call with twice the budget, and what is still cut is marked |
| Engine.LlmEngine.NegativeOutcome | src/analyzer_ng/llm/engine.py:269-283 | the failure of a negative row inside its own window, or a miss |
| Engine.LlmEngine.Record | src/analyzer_ng/llm/engine.py:357-381 | one event per run, with the output only for an answer |
| Engine.CallsPerRun | src/analyzer_ng/llm/engine.py:217-355 | the calls of a run, read off the replies: none if the cache answers, exactly if its row is fresh and, for a negative marker, fresh under the window of those, or if the breaker refuses; else seed 7, seed 8 exactly if the first response is turned down by any check, and twice the budget exactly if a free-text field of the accepted body is cut |
| Engine.ResultFromReplies | src/analyzer_ng/llm/engine.py:240-355 | what a run that asks reports, read off the replies: the first response, or the second where the first is turned down, decides; an accepted body is reported as screened, in the longer form where that was asked for and is usable |
| Engine.OneEventPerRun | src/analyzer_ng/llm/engine.py:357-381 | every run records one event with what it reports; the latency is that of the deciding response, 0 for the cache, and none where no response came |
| Engine.RunWrites | src/analyzer_ng/llm/engine.py:246-267 | an answer is stored as reported with the template hash, a failed validation as a negative row without one where the role opts in, and nothing else is ever written |
| Engine.NegativeIsNeverOk | src/analyzer_ng/llm/engine.py:222-283 | a negative row inside both windows is reported as a failed validation, and a cache hit reported as an answer is no negative row |
| Engine.AnswersAreServedAgainIff | src/analyzer_ng/llm/engine.py:217-267 | per role: every answer is served again unchanged and without a call while it is fresh, for every state, sidecar and time, exactly if schema and post-validation together refuse the marker field |
| Engine.AnswerIsServedAgain | src/analyzer_ng/llm/engine.py:217-267 | run by run: a later run inside the window returns the same answer without a call, exactly if the stored body carries no negative marker |
| Engine.MarkerHidesAnAnswer | src/analyzer_ng/llm/engine.py:99-101 | for any role and any body that its validators accept and that carries the marker there is a run whose fresh answer the next run does not serve |
| Engine.FailureIsServedAgain | src/analyzer_ng/llm/engine.py:222-283 | a later run returns a stored failure without a call exactly if it is inside the answer window and the negative one |
| Engine.StrictValidatorsKeepThemApart | src/analyzer_ng/llm/engine.py:99-101 | where schema and post-validation together refuse the marker, no answer ever carries it, screened or not |
| Engine.EveryRowIsJustified | src/analyzer_ng/llm/engine.py:217-267 | after any sequence of runs each cache row was written by a run with its key: it is the screened form of a reply to a call of that run which passed both validators, or a negative marker without a template hash for a call of that run that failed validation |
| Engine.NoStoredCut | src/analyzer_ng/llm/engine.py:327-355 | no stored answer has a free-text field that screens as cut under the finish reason of the call it came from, one of those its run made |
| Engine.OutOfClosedIffTransportDown | src/analyzer_ng/llm/engine.py:290-325 | over any sequence of runs the breaker is out of closed exactly while the last calls, as many as the threshold or more, all failed in transport |
| Features.Jaccard | src/analyzer_ng/core/features.py:136-143 | a ratio between 0 and 1 that, times the size of the union, is the size of the intersection; 1 where both sets are empty |
| Features.JaccardExtremes | src/analyzer_ng/core/features.py:136-143 | 1 exactly for equal sets, 0 exactly if nothing is shared and there is something to compare |
| Features.JaccardSymmetric | src/analyzer_ng/core/features.py:136-143 | the order of the two sets does not matter |
| Features.IdentifierJaccardExtremes | src/analyzer_ng/core/features.py:146-159 | 1 exactly for the same identifiers, and the same tokens where neither side has one; 0 exactly for disjoint identifiers, or disjoint tokens where neither side has one |
| Features.IdentifiersDecide | src/analyzer_ng/core/features.py:146-159 | the tokens compared are the identifiers of both sides if there are any, and all tokens otherwise; the similarity times the size of their union is the size of their intersection |
| Features.IdentifierShapes | src/analyzer_ng/core/features.py:133-148 | a dot, a double colon or a capital right after a small letter makes an identifier, wherever it stands, and a token without any of their characters is none |
| Features.BoilerplateDoesNotCount | src/analyzer_ng/core/features.py:146-159 | once either side has an identifier, words that are none can be added to either side without effect |
| Features.BaseGroupReadsPrefix | src/analyzer_ng/core/features.py:274-286 | a locator belongs to a base group exactly if its first two characters are the letters of that group, in either case each |
| Calibration.InterpMonotone | src/analyzer_ng/ml/calibration.py:50-55 | interpolation over ascending knots with non-decreasing values is non-decreasing |
| Calibration.InterpInRange | src/analyzer_ng/ml/calibration.py:50-55 | it stays between the first and the last value |
| Calibration.InterpHitsKnots | src/analyzer_ng/ml/calibration.py:50-55 | it passes through every knot |
| Calibration.InterpIsLinear | src/analyzer_ng/ml/calibration.py:50-55 | between two neighbouring knots it is the line through them |
| Calibration.InterpOutside | src/analyzer_ng/ml/calibration.py:50-55 | outside the knots it stays at the first or the last value |
| Calibration.PredictMonotone | src/analyzer_ng/ml/calibration.py:50-55 | a larger raw probability never calibrates lower, and without a fit it stays as it is |
| Calibration.PredictInFittedRange | src/analyzer_ng/ml/calibration.py:50-55 | a prediction lies between the extreme calibrated values |
| Decision.StageASeesOnlyEligible | src/analyzer_ng/core/decision.py:199-298 | with the same eligible matches at distinct times in any order, the same item is inherited, whatever else matched |
| Decision.RejectedMatchesDoNotCount | src/analyzer_ng/core/decision.py:199-298 | adding matches with other status codes, or with less than half of the message terms, anywhere changes nothing, ties or not |
| Decision.InheritedIsNewestEligible | src/analyzer_ng/core/decision.py:231-298 | what is inherited has the status codes of the query and at least half of its message terms, and no match with both was labelled later |
| Decision.EligibleExactly | src/analyzer_ng/core/decision.py:199-212 | the gate passes, in order, exactly the matches with equal status codes and an identifier similarity of at least one half |
| Decision.StageAInherits | src/analyzer_ng/core/decision.py:231-298 | what is inherited, and exactly when: the newest match that passes is at most 180 days old and names a base group, not as an automatic no-defect, and two or more that pass agree, or the only one is a person's with a confidence of 0.9 |
| Decision.GateBlockedIff | src/analyzer_ng/core/decision.py:215-228 | the gate is blocked exactly if there are exact matches and none has both the codes and the terms |
| Decision.DissentBlocks | src/analyzer_ng/core/decision.py:283-289 | two matches with the codes and the terms of the query but different labels stop the inherit, whatever else matched |
| Decision.NewestIsFirst | src/analyzer_ng/core/decision.py:277-277 | the newest match is taken, and the first of several |
| Decision.BestKb | src/analyzer_ng/core/decision.py:324-329 | no mode scores above it; ties go to the smaller mode id |
| Decision.BestKbScores | src/analyzer_ng/core/decision.py:304-329 | every mode scores at most as much as the one considered, and one that scores as much has no smaller id |
| Decision.KbDecidesIff | src/analyzer_ng/core/decision.py:304-339 | a mode decides exactly if nothing is inherited and the best one is confirmed, pure to 0.95, supported ten times and scores 0.85 out of 0.6 for the cosine, 0.25 for the templates and 0.15 for the fingerprint |
| Decision.KbReports | src/analyzer_ng/core/decision.py:472-483 | it is reported with its group and locator, with purity times score up to 0.93 for confidence, and without a neighbour |
| Decision.InheritDecidesIff | src/analyzer_ng/core/decision.py:454-471 | an inherit decides whenever there is one, automatically, at 0.95, with the label, item and provenance of what was inherited |
| Decision.ColdDecision | src/analyzer_ng/core/decision.py:499-511 | with no model and no short circuit a seed of at least 0.7 decides with its own group and confidence; else the reply abstains |
| Decision.PromotedIff | src/analyzer_ng/core/decision.py:522-639 | a prediction below 0.45 becomes the label of the top neighbour exactly under the guards of the floor, each spelled out over the inputs, at the confidence 0.45; else it abstains |
| Decision.DemotedIff | src/analyzer_ng/core/decision.py:578-674 | a prediction of at least 0.45 is withheld exactly if it is below the auto threshold and the top neighbour shares no fingerprint, hash, template and less than half of the terms; else it stands with the first neighbour of its group |
| Decision.GbmReports | src/analyzer_ng/core/decision.py:592-674 | every answer of the model carries its calibrated probability and what it gave each base group |
| Decision.ActionMatchesBand | src/analyzer_ng/core/decision.py:345-350 | nothing but an inherit or a strong mode is applied below the auto threshold, and nothing else abstains at 0.45 or more |
| Decision.PickRelevant | src/analyzer_ng/core/decision.py:514-519 | a candidate with an item and the predicted group, or none exactly if there is none |
| Decision.PickRelevantIsFirst | src/analyzer_ng/core/decision.py:514-519 | the first of several in retrieval order |
| Decision.GuardsExclude | src/analyzer_ng/core/decision.py:522-589 | the promote and demote guards can never both apply |
| Decision.GbmActionMonotone | src/analyzer_ng/core/decision.py:592-674 | with all else fixed, a higher calibrated probability never lowers the action |
| Decision.ActionMonotoneInRawProbability | src/analyzer_ng/core/decision.py:397-511 | the same for the whole decision in the raw probability behind a fitted calibrator |
| Decision.BlockedGateExcludesInheritAndFloor | src/analyzer_ng/core/decision.py:215-228 | a blocked gate rules out the inherit and the later promotion, so a low probability abstains |
| Decision.AutoIsConfident | src/analyzer_ng/core/decision.py:397-511 | whatever is applied automatically has at least the suggest threshold of confidence, on every path and for every tau_auto |
| Decision.FloorIsAutoIff | src/analyzer_ng/core/decision.py:620-639 | the promoted abstain becomes an auto-label exactly if tau_auto is at most the suggest threshold |
| Decision.FloorCanBeAuto | src/analyzer_ng/core/decision.py:620-639 | an input whose model is nearly sure of nothing and whose neighbour labels it automatically, with tau_auto at the suggest threshold |
| Decision.AutoWithoutLabelIff | src/analyzer_ng/core/decision.py:397-511 | over the whole decision: it is auto with no base group exactly if nothing is inherited and either a strong mode has no recognised locator, or there is no strong mode and no model and a seed of an unrecognised group reaches both its own bar and tau_auto |
| Decision.LocatorFitsGroup | src/analyzer_ng/core/decision.py:397-511 | the locator handed out belongs to the group decided, on every path |
| Decision.DefaultFitsGroup | src/analyzer_ng/core/decision.py:75-83 | the default locator of each base group reads back as that group |
| Decision.ModeCanSlip | src/analyzer_ng/core/decision.py:472-483 | a confirmed mode without a locator is applied with nothing for a label |
| Decision.SeedCanSlip | src/analyzer_ng/core/decision.py:500-508 | so is a confident seed of an unrecognised group |
| Decision.KbEvidence | src/analyzer_ng/core/decision.py:304-339 | a short circuit means a centroid cosine of at least 0.75 and the same exception fingerprint, unless cosine and template overlap are both perfect; its confidence lies between 0.8075 and the cap |
| LabelProb.StaysADistributionIff | src/analyzer_ng/core/decision.py:139-170 | the calibrated values are probabilities and sum to one exactly if the raw maximum is below one or the argmax keeps all the mass |
| LabelProb.OrderKept | src/analyzer_ng/core/decision.py:139-170 | the argmax keeps its calibrated value and the other groups their raw order |
| LabelProb.RatiosKept | src/analyzer_ng/core/decision.py:160-170 | below a raw maximum of one the other groups share what the argmax leaves in proportion to their raw probabilities |
| LabelProb.UnknownIff | src/analyzer_ng/core/decision.py:157-164 | nothing is said exactly if there is no calibrated value, no entry for the group, or no positive entry |
| LabelProb.CanLoseMass | src/analyzer_ng/core/decision.py:167-169 | a distribution with raw maximum one whose calibrated values sum to a half |
| LabelProb.CallReturnsValue | src/analyzer_ng/core/decision.py:139-170 | the clamps around the shared values never bite on a distribution |
| LabelProb.ValueIsProbability | src/analyzer_ng/core/decision.py:160-170 | each shared value lies between 0 and 1 without a clamp |
| LlmEval.WilsonContainsPrecision | src/analyzer_ng/llm/eval.py:81-97 | 0 <= lower <= precision <= upper <= 1, and the clamps change nothing |
| LlmEval.WilsonInvertsTheScoreTest | src/analyzer_ng/llm/eval.py:81-97 | a rate lies in the interval exactly if the score test does not reject it: n (x - p)^2 <= z^2 x (1 - x) |
| LlmEval.WilsonUpperMonotone | src/analyzer_ng/llm/eval.py:81-97 | more successes never lower the upper bound |
| LlmEval.SpreadMonotone | src/analyzer_ng/llm/eval.py:81-97 | the scaled upper end does not fall as the precision rises |
| LlmEval.DifferenceLowerIsBelow | src/analyzer_ng/llm/eval.py:100-114 | the bound of the difference is at most the difference |
| LlmEval.DifferenceLowerDistance | src/analyzer_ng/llm/eval.py:100-114 | it lies below the difference by the length of the two one-sided margins put at right angles |
| LlmEval.PreciseRoleIsSafe | src/analyzer_ng/llm/eval.py:156-193 | a role right at least 95 % of the time is never disabled |
| LlmEval.AbsoluteKillMonotone | src/analyzer_ng/llm/eval.py:163-170 | the absolute kill also applies with fewer successes |
| LlmEval.BoundGuardUnreachable | src/analyzer_ng/llm/eval.py:177-183 | the guard on a non-negative bound never decides |
| LlmEval.DisablesIff | src/analyzer_ng/llm/eval.py:156-193 | exactly when a role is disabled, in the numbers of the rule and without the bound of the difference |
| LlmEval.ReasonGiven | src/analyzer_ng/llm/eval.py:156-193 | each reason is reported exactly under its guard and none of those before it, in the numbers of the rule |
| LlmEval.EvalJob.Run | src/analyzer_ng/llm/eval.py:227-265 | a night turns off exactly the roles it condemns that were on, touches no other row, and reports the counts of every role |
| LlmEval.RunNights | src/analyzer_ng/llm/eval.py:227-265 | the job run on any nights in turn: a role is on afterwards exactly if it was on before and no night condemned it, and the rows of all others are untouched; so no night turns a role on |
| Excerpt.RootBlockBounds | src/analyzer_ng/llm/excerpt.py:36-58 | the block starts at the last cause or else the first header and runs to a blank line, its limit or the end; none exactly if no line matches |
| Excerpt.OneRootBlock | src/analyzer_ng/llm/excerpt.py:36-58 | that description determines the block |
| Excerpt.Render | src/analyzer_ng/llm/excerpt.py:61-74 | the loop with its running previous line puts out the pieces of the specification |
| Excerpt.RenderingReadsBack | src/analyzer_ng/llm/excerpt.py:61-74 | kept lines plus elided counts are the kept span, and reading the pieces back gives every kept line at its own position, in order |
| Excerpt.MarkersStandInGaps | src/analyzer_ng/llm/excerpt.py:61-74 | each marker stands between two lines and counts at least one |
| Excerpt.MarkerTellsItsCount | src/analyzer_ng/llm/excerpt.py:70-71 | the text of a marker holds the count of its gap in decimal digits: reading them back gives the number, and different gaps read differently |
| Excerpt.TextShowsThePieces | src/analyzer_ng/llm/excerpt.py:61-74 | the text of an excerpt, line by line, is what the kept lines and the markers show, in their order |
| Excerpt.NothingElided | src/analyzer_ng/llm/excerpt.py:61-112 | with every line kept the rendering is the text |
| Excerpt.KeepSet | src/analyzer_ng/llm/excerpt.py:94-100 | the windows and the root block, added one by one, are the set the specification keeps |
| Excerpt.MiddleOut | src/analyzer_ng/llm/excerpt.py:77-112 | a text that fits is returned as it is; otherwise the loop terminates with the first fit of the shrink order |
| Excerpt.FirstFitIsFirst | src/analyzer_ng/llm/excerpt.py:93-112 | the result is a configuration no earlier one of which fits, and it fits or is minimal |
| Excerpt.OverBudgetIff | src/analyzer_ng/llm/excerpt.py:93-112 | the result fits exactly if some configuration of the shrink order does |
| Excerpt.SacrificeOrder | src/analyzer_ng/llm/excerpt.py:104-112 | a shorter head means no tail, a shorter root block means neither window |
| Excerpt.StepClosedForm | src/analyzer_ng/llm/excerpt.py:104-112 | the k-th configuration outright: k lines off the tail, then off the head, then off the root block down to its first line |
| Excerpt.KeepsItsWindows | src/analyzer_ng/llm/excerpt.py:93-100 | any configuration keeps just the lines of its head, its tail and its part of the root block |
| Excerpt.FirstTryKeeps | src/analyzer_ng/llm/excerpt.py:90-100 | the first configuration keeps exactly the first 15 lines, the last 10 and the root block |
| Excerpt.RootBlockIsKept | src/analyzer_ng/llm/excerpt.py:93-112 | the root block is whole unless both windows are gone, and its first line always stays |
| SuggestReply.SuggestionCandidates | src/analyzer_ng/core/analysis.py:1378-1416 | the loop collects the decision's answer and then each labelled neighbour not collected before |
| SuggestReply.RenderSuggestions | src/analyzer_ng/core/analysis.py:1179-1339 | the reply's rows are rendered at positions 0, 1, ... with band, confidence, label probability and reason |
| SuggestReply.CandidatesAreDistinct | src/analyzer_ng/core/analysis.py:1378-1416 | no two candidates show the same item, and the answer stays first |
| SuggestReply.CandidatesComeFrom | src/analyzer_ng/core/analysis.py:1378-1416 | every candidate is the answer or a neighbour, and every labelled neighbour's item is there |
| SuggestReply.CandidatesStandInOrder | src/analyzer_ng/core/analysis.py:1402-1415 | behind the answer the labelled neighbours stand in the order in which retrieval first names their items, each once, with its own label, similarity up to 1, retrieval score and source |
| SuggestReply.AnswerIs | src/analyzer_ng/core/analysis.py:1387-1401 | the answer leads exactly if the decision decided and has an item: that item, with the label, confidence and provenance of the decision |
| SuggestReply.JudgeOnlyPermutes | src/analyzer_ng/core/analysis.py:1355-1376 | a verdict puts the chosen candidate first, keeps the order of the others, and leaves auto decisions alone |
| SuggestReply.PromoteThenFilter | src/analyzer_ng/core/analysis.py:1201-1219 | promoting and filtering commute on distinct items |
| SuggestReply.ReplyIsWellFormed | src/analyzer_ng/core/analysis.py:1179-1339 | distinct items, declined rows exactly a suffix, sizes within their caps, and an abstained reply with declined rows within the greater of suggest_max and their number |
| SuggestReply.WhatAReplyHolds | src/analyzer_ng/core/analysis.py:1187-1265 | what is shown, read off the candidates: nothing below the gate of 0.45, or 0.3 with the dock; else the candidates of at least 0.45 up to their budget, and behind them those from 0.3 on and the hypothesis of the model up to theirs, which on an abstention is taken from the answers |
| SuggestReply.HypothesisIff | src/analyzer_ng/core/analysis.py:1228-1258 | the hypothesis of the model is one more declined row exactly if the dock is on, the model abstained between 0.3 and 0.45 and a labelled neighbour of its group is not shown yet; it shows the first of those with the confidence of the decision |
| SuggestReply.TokensStandOnce | src/analyzer_ng/core/analysis.py:1283-1311 | each row stands at its position with its band: declined exactly from the end of the answers on, auto exactly for the item of an auto decision; the confidence stands exactly on the decision's own item and on one row at most, the reason on the first declined row only, and the label probability is that of the row's own group and lies between 0 and 1 |
| SuggestReply.NothingFabricated | src/analyzer_ng/core/analysis.py:1179-1339 | every row is the answer or shows item and label of a neighbour |
| SuggestReply.DockNeverCrowdsOut | src/analyzer_ng/core/analysis.py:1195-1265 | for every input turning the dock on costs a decided reply no answer; where the stand-in probability passes the gate either way the answers are the same, and an abstained reply keeps a beginning of its own |
| SuggestReply.AutoAnswerFirst | src/analyzer_ng/core/analysis.py:1341-1353 | an auto answer at or above the suggest threshold is the first row and the only one in the auto band, whatever the verdict |
| SuggestReply.AutoDecisionLeads | src/analyzer_ng/core/analysis.py:1341-1353 | every auto decision of the decision layer that names an item leads its reply, whatever its path and the verdict |
| SuggestReply.ArgMaxIsFirst | src/analyzer_ng/core/analysis.py:1235-1235 | the largest raw probability is taken, and the first of several in dictionary order |
| SuggestReply.Unused | src/analyzer_ng/core/analysis.py:1236-1246 | a labelled neighbour of the declined group whose item is not shown, or none exactly if there is none |
| SuggestReply.UnusedIsFirst | src/analyzer_ng/core/analysis.py:1236-1246 | the first of several in retrieval order |
| DropPassed.Pruner.Visit | tools/rp-migrate/migrate.py:361-368 | the recursive visit terminates, returns whether the item survives, and adds exactly the survivors at or below it |
| DropPassed.Prune | tools/rp-migrate/migrate.py:348-372 | on every list on which the recursion ends, the result is those items whose id belongs to one that hangs from a root and survives, in their order |
| DropPassed.UniqueIdsEnd | tools/rp-migrate/migrate.py:361-368 | the recursion ends on every list with unique ids, whatever its shape |
| DropPassed.RepeatNeverEnds | tools/rp-migrate/migrate.py:361-368 | where a line from a root meets an id twice there are lines of any length below it, so the recursion cannot end |
| DropPassed.KeptIff | tools/rp-migrate/migrate.py:348-372 | a rooted item that survives is kept; with unique ids an item is kept exactly if it hangs from a root and it or a descendant is not passed, and on a forest exactly if it or a descendant is not passed |
| DropPassed.OnlyPassedIsDropped | tools/rp-migrate/migrate.py:348-372 | a rooted item is dropped only if it and all its descendants are passed; without torn twins they are all dropped |
| DropPassed.PassedIff | tools/rp-migrate/migrate.py:365-365 | passed means a status that spells PASSED in any mixture of cases, a long s counting as one and a sharp s as two; a missing status is not passed |
| DropPassed.AncestorsAreKeptIff | tools/rp-migrate/migrate.py:348-372 | every kept item keeps every rooted ancestor exactly if the list has no torn twin |
| DropPassed.SameParentIsWhole | tools/rp-migrate/migrate.py:348-372 | lists in which items with one id name one parent have none, so they are closed |
| DropPassed.UniqueIdsAreWhole | tools/rp-migrate/migrate.py:348-372 | nor have lists with unique ids |
| DropPassed.AncestorsAreKept | tools/rp-migrate/migrate.py:348-372 | an item that survives by itself keeps every ancestor on every list |
| DropPassed.TwinLosesItsParent | tools/rp-migrate/migrate.py:372-372 | with an id that occurs twice a passed item stays for its twin while its parent goes |
| DropPassed.PruneTwice | tools/rp-migrate/migrate.py:348-372 | pruning again ends and changes nothing |

## Left out

- Message brokers, HTTP, SQL, the LLM server and the ReportPortal clients: plumbing; what the modelled code relies on is stated as an input (`world`, `decide`, `rivals`, `fate`, `outcomes`).
- Embeddings, cosine, the Drain3 miner, LightGBM and isotonic fitting: abstract functions or values; results need only that they are functions of their arguments.
- Floating point: reals throughout, without rounding of scores or of displayed numbers.
- The square root of the Wilson and MOVER formulas: a parameter of which only the non-negative root property is used.
- Migration file names, text normalisation, checksums and the no-transaction header: a migration is its version, checksum, statements and transaction flag.
- SQL block comments and double-quoted identifiers: the splitter does not treat them specially, and neither does the model.
- DrainCas: every result assumes that decoding an encoded Drain state gives that state back (`Lawful`); Drain3's own serialisation is not modelled.
- Deletion of a project's Drain state and the wording of templates: not part of the model.
- Inline mode of the worker pool, an empty list of retry delays, the watchdog's timing, metrics and logging: left out; a watchdog timeout is one of the outcomes of a handler.
- The heap inside Python's `PriorityQueue`: a worker takes the least waiting item.
- LlmQueue.LlmQueue.Enqueue: requires a maximum size of at least one; with zero the program fails on its first job.
- Wall clock and threads: times are arguments, and a step of a protocol is atomic.
- Feature extraction other than the three values the decision reads back: a long row of independent formulas.
- Status codes and message tokens: sets of strings, without the parsing that finds them.
- Engine: JSON parsing and schemas are predicates on a body, bodies are objects whose values are text, flags or anything else, and a cache key stands for its project, model, role and prompt; hit counters and retention of cache rows are left out.
- Excerpt.RootBlockBounds: the two regular expressions are predicates on a line.
- Excerpt.MiddleOut: the token estimate divides exactly, as the program's does for texts of realistic length.
- SuggestReply: `suggest_max` is not negative; log ids, feature text and the other fields copied from the request are left out, as is the rubric row appended for cold starts.
- LaunchFanOut: the suggestion text, the launch-group upsert and the LLM enqueue are left out; a membership write is taken to succeed.
- DropPassed.Prune: lists on which the recursion of the source does not end are left out, as is Python's recursion limit; letters other than the ASCII ones, the long s and the sharp s do not matter for the comparison with PASSED.
- The early pass over single items before a launch ends: the decision of one item, and a policy on what may be applied; only the launch pass is modelled.
- The inspector, the demo data, wire models, configuration, serializers and the scope and boost tables: they would only add easy members.
