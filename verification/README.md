# Task coordinator, security graph and scope file: a verified model

This project models the parts of the workbench whose correctness does not show in any single statement, and proves what holds of them over all inputs, all runs or all interleavings.

**The leased task queue** (`internal/queue/store.go`, `internal/queue/schema.sql`). `Tasks` gives the two tables and the six row operations that the SQL statements perform (insert, expire, block, take, beat, finish), each with the guard of its WHERE clause. Runs are sequences of operations whose guards hold. `TaskLog`, `Leases` and `Dependencies` prove what every run keeps. `Transactions` says which operations each call of the store may commit, what it answers and when it is refused. `Stores` has the store as a class whose methods rewrite the tables, each method proved against `Transactions` and against `Columns`, which says column by column and with literal values what each call reads, writes and answers. `Sql` has the same calls one statement at a time, with committed reads, ordered scans, row locks, SKIP LOCKED, unique keys, rollback and event ids handed out at insertion; `Framing`, `Refinement`, `Simulation` and `Serializability` prove that every interleaving of statements commits what the calls would commit atomically in commit order, each lease test using a clock reading taken while its row was locked. `LeaseTime` draws from this that no lease is taken away early; `VisibleLog` proves what this leaves open, the order and the counts of the whole event table, `Uncontended` that a Claim that meets no other transaction skips nothing, and `ClaimRounds` that such Claims finish failure propagation. `Json`, `JsonRoundTrip`, `JsonSize` and `Requests` cover request normalization, down to the JSON decoder and printer. `JsonGrammar` defines the grammar of RFC 8259 without regard to reading; `JsonReading` and `JsonSpelling` prove that a text decodes to a value exactly when it spells that value, and `JsonCanonical` which of its spellings the printer chooses.

**Path search** (`profiles/reference/sec/extensions/security-graph.ts`). `SecurityGraph` has the graph as a class; `PathSearch` the bounded breadth-first search against an independent definition of a simple route; `AttackChains` the ranked chains.

**Two printer and parser pairs and a bit-level predicate.** `EventStream` has the snapshot frames written by `internal/httpapi/server.go` and the incremental reader of `web/src/app.ts`; `ScopeFile` the scope file of `profiles/reference/sec/extensions/scope-guard-v2.ts` with its printer, `ScopeReader` what such a file says line by line and the parser that reads it so; `Cidr` its IPv4 matching with 32-bit operators. `Basics`, `Strings` and `Lines` hold what these share.

`dafny verify dfyconfig.toml` checks everything.

Some promises hold only under a condition, which is proved exactly:

- Normalizing a request twice gives the same request exactly when the canonical input has at most 8192 bytes. The printer spends six bytes on each `<`, `>` and `&`, so an accepted input can have a canonical text that is itself rejected; an input without literal `<`, `>`, `&`, U+2028 and U+2029 never grows (`Requests.NormalizeTwice`, `Requests.NormalizeTwiceCanFail`, `Requests.PlainNormalizesTwice`).
- The score of attack chains ranks by privilege gap and then by hops exactly for depth bounds up to ten, which is the default bound (`AttackChains.ScoreRanksExactly`, `AttackChains.ScoreFailsAtEleven`).
- A scope file reads back as saved exactly when every entry is clean, and the stream exactly when no body has a line feed (`ScopeFile.RoundTrip`, `EventStream.ReadBackExactly`). A CIDR prefix length outside 0 to 32 is not refused by the matching itself but taken modulo 32 (`Cidr.InCidrExactly`).

Where a comment and the code differ, the model follows the code: findPaths is described as finding all paths, but stops once twenty are found and may then return more than twenty, because the test is made between queue entries (`PathSearch.Capped`, `PathSearch.MoreThanTwenty`).

## Model

| member | source | states |
|---|---|---|
| `Tasks.RunEvolves` | internal/queue/store.go:192-325 | Along every run rows are never deleted, request columns never change, attempts never decrease, and completed or failed rows stay exactly as they are. |
| `TaskLog.NextRowOk` | internal/queue/store.go:220-325 | Every operation whose guard holds keeps the row invariant: running iff a token iff a lease; pending rows have no worker and attempts left; attempts never exceed the limit. |
| `TaskLog.BlockedUnclaimed` | internal/queue/store.go:231-236 | A task that the propagation statement can fail was never claimed. |
| `TaskLog.StepTables` | internal/queue/store.go:192-325 | Every operation keeps the row invariant, stored parents, completed parents of claimed tasks and unique request keys. |
| `TaskLog.SpellsNext` | internal/queue/store.go:203-325 | The event an operation writes extends the task's event word to the word its new row must have. |
| `TaskLog.ReplayNext` | internal/queue/store.go:214-325 | Folding the written event gives status, worker and attempts of the new row. |
| `TaskLog.StepConserved` | internal/queue/store.go:345-382 | Every operation keeps the balance between status counts and event counts. |
| `TaskLog.Reachable` | internal/queue/store.go:169-325 | In every reachable state: the row invariant, replay of each task's events to its row, the event words, and conservation between the counts and the whole log. |
| `TaskLog.EventLanguage` | internal/queue/store.go:203-321 | Every task's events are a prefix of created dependency_failed or of created (claimed lease_expired)^k claimed followed by completed, failed or attempts_exhausted, k below max_attempts, so at most 2*max_attempts+1 events. |
| `TaskLog.RetryBound` | internal/queue/store.go:220-257 | Attempts equal the number of claimed events and never pass max_attempts, although Claim does not test them. |
| `TaskLog.CountsAddUp` | internal/queue/store.go:369-382 | The four status counts add up to the number of tasks. |
| `Leases.CurrentIsRow` | internal/queue/store.go:253-325 | Worker, token and lease of a running row are those of the last claim as read off the history with its heartbeats. |
| `Leases.Fence` | internal/queue/store.go:279-325 | A heartbeat or report is accepted if and only if it names worker and token of the task's current claim while that lease has not run out. |
| `Leases.TokensNeverRepeat` | internal/queue/store.go:252-254 | No two claims of a run carry the same token. |
| `Leases.ActsOnOpenClaim` | internal/queue/store.go:220-325 | Every accepted heartbeat, report or expiry acts on an earlier claim of the task, same worker and token, that nothing has ended since. |
| `Leases.EndsOnce` | internal/queue/store.go:220-325 | Between two endings of a task lies another claim with another token, so each claim ends at most once. |
| `Leases.TerminalForever` | internal/queue/store.go:220-325 | After completion or failure no operation of the run touches the row again. |
| `Leases.LastResultIsRow` | internal/queue/store.go:300-320 | In every reachable state the result of a row is the one last reported for it, read off the history, and `{}` before any report. |
| `Leases.ResultReported` | internal/queue/store.go:300-320 | A reported task has the result and the status of its one report from then on, and nothing touches it again. |
| `Leases.ResultUnreported` | internal/queue/store.go:300-320 | A task without a report has the result `{}` and is not completed. |
| `Leases.WeightDrops` | internal/queue/store.go:220-325 | Every transition but a heartbeat lowers the row's weight: 2*(max-attempts)+1 for pending and one more for running rows. |
| `Leases.BoundedTransitions` | internal/queue/store.go:219-325 | Without new tasks every run makes at most the summed weight of transitions, at most eleven per task. |
| `Dependencies.NeverCyclic` | internal/queue/store.go:182-192 | No run stores a dependency cycle. |
| `Dependencies.ClaimedAncestors` | internal/queue/store.go:253-257 | Every transitive ancestor of a task that was ever claimed is completed. |
| `Dependencies.AncestorsCompletedFromThenOn` | internal/queue/store.go:253-257 | And stays completed for the rest of the run. |
| `Dependencies.ParentsFirst` | internal/queue/store.go:253-268 | In every log that runs of atomic operations reach, each claimed event comes after a completed event of each parent; `VisibleLog.ClaimsAfterParents` says the same of interleaved statements. |
| `Dependencies.DoomedUnclaimed` | internal/queue/store.go:231-257 | Every descendant of a failed task is pending or failed and has zero attempts. |
| `Dependencies.SettledIff` | internal/queue/store.go:231-236 | The propagation statement finds nothing exactly when every descendant of every failed task has failed. |
| `JsonRoundTrip.ValueRoundTrip` | internal/queue/store.go:151-155 | Reading printed JSON followed by any text gives back the value and that text. |
| `JsonRoundTrip.DecodeMarshal` | internal/queue/store.go:151-155 | Decoding a printed value gives that value, with number spellings kept and objects as unordered maps. |
| `JsonRoundTrip.DecodeWellFormed` | internal/queue/store.go:151-155 | Whatever decodes is a value the printer accepts, with numbers in JSON's grammar. |
| `JsonRoundTrip.CanonicalIffEqual` | internal/queue/store.go:150-156 | Two inputs get the same canonical text if and only if they decode to equal trees. |
| `JsonRoundTrip.PrintOneLine` | internal/httpapi/server.go:239-244 | Printed JSON has no line break, whatever its strings contain. |
| `JsonReading.SpelledDecodes` | internal/queue/store.go:121-124 | Every text that spells a value by the grammar of RFC 8259 decodes to it: any white space around tokens, any escape including `\/`, hex digits of either case, surrogate pairs, members in any order. |
| `JsonSpelling.DecodesExactly` | internal/queue/store.go:121-124 | A text decodes to a value if and only if it spells that value. |
| `JsonSpelling.AnyOrder` | internal/queue/store.go:150-156 | Two objects with the same members mean the same, in whatever order and layout they are written. |
| `JsonCanonical.MarshalIsCanonical` | internal/queue/store.go:150-156 | The printer writes a value without white space, with strictly ascending keys, and each character literally unless it must be escaped or is `<`, `>`, `&`, U+2028 or U+2029, short escapes first, hex digits in lower case. |
| `Requests.TrimTwice` | internal/queue/store.go:127-127 | Trimming a title twice is trimming it once. |
| `Requests.CreateRequest.Normalize` | internal/queue/store.go:126-157 | Rewrites the fields in place to the normalized request. Succeeds exactly when the texts fit all limits and the input spells an object; then the title is what is left without white space at its ends, the defaults are `demo` and 3, and the input is the canonical spelling of the same value. |
| `Requests.CheckDependencies` | internal/queue/store.go:143-149 | Accepts exactly the lists of distinct ids of 32 bytes. |
| `Requests.TrimSpaceTrims` | internal/queue/store.go:127-127 | Trimming takes white space, of Unicode too, off both ends and nothing else. |
| `Requests.ValidObjectExactly` | internal/queue/store.go:121-125 | Accepts exactly the texts of at most 8192 bytes that spell a JSON object. |
| `Requests.NormalizedExactly` | internal/queue/store.go:126-157 | Which requests are accepted and what they become, without reference to decoder or trimming functions. |
| `Requests.LayoutsAgree` | internal/queue/store.go:150-156 | Two layouts of one value make the same normalized request with the same fingerprint. |
| `Strings.Utf8Exactly` | internal/queue/store.go:129-149 | Lengths are counted in bytes of UTF-8: one per character and one more from each of U+0080, U+0800 and U+10000 on. |
| `Requests.SameFingerprint` | internal/queue/store.go:126-175 | Two requests get one fingerprint if and only if they agree up to title padding, defaults and JSON layout. |
| `Requests.NormalizeTwice` | internal/queue/store.go:121-157 | Normalizing again changes nothing if the canonical input is within 8192 bytes, and rejects the request if it is not. |
| `Requests.NormalizeTwiceCanFail` | internal/queue/store.go:121-157 | A family of accepted requests whose normalized form is rejected. |
| `Requests.PlainNormalizesTwice` | internal/queue/store.go:121-157 | A request whose input has no literal `<`, `>`, `&`, U+2028 or U+2029 always normalizes to itself the second time. |
| `JsonSize.PlainCanonical` | internal/queue/store.go:150-156 | The canonical text of such an input is not longer than the input, although keys are reordered and characters escaped. |
| `JsonSize.PrintAppend` | internal/queue/store.go:155-155 | What follows a printed value does not change how it is printed. |
| `Strings.SortedIsAscending` | internal/queue/store.go:155-155 | Object keys are printed in ascending order, each once. |
| `Transactions.CreateStores` | internal/queue/store.go:169-212 | After a committed Create the answered task is stored under its key and fingerprint. |
| `Transactions.KeyHeld` | internal/queue/store.go:192-202 | While a key is taken, a committed Create with that key has the same request, answers the same id and writes nothing. |
| `Transactions.KeyRefusal` | internal/queue/store.go:182-199 | A Create with a taken key is refused, without effect, exactly when its request differs. |
| `Transactions.IdempotentCreate` | internal/queue/store.go:126-212 | After a successful Create and any further run, a request that normalizes to the same one commits, gets the same id and adds no row or event, and another request under the key is refused. |
| `Transactions.FullClaimCommits` | internal/queue/store.go:219-275 | A Claim that takes all it may at each of its three statements is a Claim transaction. |
| `Transactions.ClaimPropagates` | internal/queue/store.go:219-257 | An uncontended Claim that finds an unsettled failure fails at least one blocked task. |
| `Transactions.PropagationFinishes` | internal/queue/store.go:219-257 | Among more Claims than tasks, with anything but new tasks between them, one starts from a state where all descendants of failed tasks have failed. |
| `Batches.ExpireBatch` | internal/queue/store.go:221-227 | Recovering a batch in one statement is recovering its rows one after the other. |
| `Batches.BlockBatch` | internal/queue/store.go:231-236 | The same for failing a batch of blocked tasks. |
| `Stores.First` | internal/queue/store.go:256-257 | The first row in a total order. |
| `Stores.Select` | internal/queue/store.go:222-222 | The first rows in order up to the limit, and all of them below it. |
| `Stores.Store.Create` | internal/queue/store.go:169-212 | Commits or refuses as the Create transaction does. A new task is pending with the normalized request, no worker, token or lease, no attempts and result `{}`, under one created event; a repeated request answers the stored row of an equal request and writes nothing; a refusal writes nothing. |
| `Stores.Store.RecoverLeases` | internal/queue/store.go:220-230 | Recovers up to 100 running rows whose lease has run out, those that ran out first, none left out below 100: back to pending, or failed once the attempts are used up, without worker, token and lease; one event each; every other row stays. |
| `Stores.Store.RewriteExpired` | internal/queue/store.go:223-227 | Rewrites exactly the rows of the batch and appends their events in order. |
| `Stores.Store.PropagateFailures` | internal/queue/store.go:231-238 | Up to 100 pending rows with a failed dependency become failed and change no other column, all of them if fewer; one event each; every other row stays. |
| `Stores.Store.RewriteBlocked` | internal/queue/store.go:235-236 | Rewrites exactly the rows of the batch and appends their events in order. |
| `Columns.LeqIsDictionary` | internal/queue/store.go:256-257 | Ids are compared in dictionary order: a prefix first, otherwise by the first difference. |
| `Columns.PickInColumns` | internal/queue/store.go:252-257 | A row that is ready and not younger than any ready one is pending, of the asked kind, with every dependency completed, and first by creation time and id among all such rows. |
| `Columns.NothingInColumns` | internal/queue/store.go:252-257 | If no row is ready, every pending row of the kind has a dependency that is not completed. |
| `Stores.Store.Pick` | internal/queue/store.go:252-268 | Leases a pending row of the asked kind all of whose dependencies are completed, created no later than any other such row, ties going to the smaller id, until exactly the reading plus the lease; changes no other row. Answers that there is no task only if every pending row of the kind has a dependency that is not completed. |
| `Stores.Store.Claim` | internal/queue/store.go:240-275 | Recovery and propagation at the first clock reading and a pick at the second are, in this order, one full Claim transaction. Says in columns what each of the three does to the rows the one before it left and which events it writes; a call with bad arguments changes nothing. |
| `Stores.Store.UpdateLease` | internal/queue/store.go:279-325 | Which of the answers is given, in terms of the arguments and the columns of the row. A heartbeat changes the lease alone, to exactly the later reading plus the duration. A report stores the given result and the status of its action, clears token and lease, keeps worker, attempts and request, and is logged. No other row changes, and a refusal changes nothing. |
| `Stores.Store.Snapshot` | internal/queue/store.go:345-405 | Each returned column is the column of that name of the stored row, for the 100 newest tasks; the 100 newest events; counts that add up to the number of tasks and balance with the whole event log. |
| `Stores.SelectTasks` | internal/queue/store.go:342-363 | Newest first, ties by larger id, each task once, none newer left out, every column that of the stored row. |
| `Stores.SnapshotHidesTokens` | internal/queue/store.go:342-363 | Tables that differ only in lease tokens admit the same answers, so none of them tells anything of a token. |
| `Stores.SelectEvents` | internal/queue/store.go:387-398 | The last events, latest first. |
| `Stores.CountAll` | internal/queue/store.go:369-381 | Counts the tasks of each status. |
| `Framing.Survives` | internal/queue/store.go:169-325 | The operations of a transaction keep their guards, events and effect after others have committed on other rows, keys and tokens. |
| `Framing.Commute` | internal/queue/store.go:169-325 | Two transactions on different rows, keys and tokens commute. |
| `Simulation.SimInsert` | internal/queue/store.go:191-192 | The INSERT statement keeps the simulation and stands for one insert at the present clock. |
| `Simulation.SimReadFingerprint` | internal/queue/store.go:193-200 | Reading the fingerprint keeps the simulation and establishes that an equal request is stored. |
| `Simulation.SimOpenScan` | internal/queue/store.go:222-257 | Opening a scan, which fixes its snapshot and the rows to visit in the order of the statement, keeps the simulation. |
| `Simulation.SimLock` | internal/queue/store.go:222-257 | Locking the next row of a scan keeps the simulation. |
| `Simulation.SimSkip` | internal/queue/store.go:222-257 | So does passing over a row that is held or no longer qualifies. |
| `Simulation.SimCloseRecover` | internal/queue/store.go:221-227 | The recovery statement stands for expiries of exactly the rows it locked, tested at the present clock, although it ran on an older snapshot. |
| `Simulation.SimClosePropagate` | internal/queue/store.go:231-236 | The propagation statement stands for a batch of blocks, although parents were read in an older snapshot. |
| `Simulation.SimCloseChoose` | internal/queue/store.go:252-257 | The claiming statement stands for one take of the locked row, with a lease from the present clock. |
| `Simulation.SimLog` | internal/queue/store.go:214-217 | Writing the event after the row update keeps the simulation. |
| `Simulation.SimUpdate` | internal/queue/store.go:289-324 | The update under the row lock stands for one heartbeat or report, tested at the present clock. |
| `Simulation.SimRelease` | internal/queue/store.go:181-207 | A rollback or refusal at any statement leaves no trace. |
| `Serializability.SimCommit` | internal/queue/store.go:208-325 | A commit performs the transaction's operations atomically on the committed tables, each timed while its row was locked, and keeps every other open transaction simulated. |
| `Serializability.CommitsInTurn` | internal/queue/store.go:289-325 | Commits are in clock order, and of two transactions that locked one row the later took its lock only after the commit of the earlier. |
| `Serializability.Serializable` | internal/queue/store.go:169-325 | Every legal interleaving of statements has, after every step, the rows of its committed calls executed atomically in commit order, their answers, and each task's visible events. Every clock reading of those calls lies between the lock of its row and the commit, lock windows of a row do not overlap, and a lease ends at most one lease duration after the commit that sets it. |
| `Serializability.SerialIsRun` | internal/queue/store.go:169-325 | Such an atomic execution is a run of row operations, so what all runs keep of the rows and of each task's events, all interleavings keep. |
| `Serializability.InterleavedRowsOk` | internal/queue/store.go:169-325 | In every interleaving each committed row satisfies the row invariant and replays from its visible events. |
| `Serializability.TestedUnderLock` | internal/queue/store.go:277-313 | When a lease update runs, the committed row is the version it sees and is locked by it, and no other commit can change that row. |
| `LeaseTime.FencedInWindow` | internal/queue/store.go:277-325 | A committed heartbeat or report owned the row, as the calls before it left it, at a clock reading between its row lock and its commit. |
| `LeaseTime.ExpiredInWindow` | internal/queue/store.go:220-227 | A committed Claim expired a lease only if it had run out at a reading between the row lock and the commit. |
| `LeaseTime.LeaseGranted` | internal/queue/store.go:253-296 | Every lease was granted by an earlier call that held the row and ends at most one lease duration after that call's commit. |
| `LeaseTime.CallStays` | internal/queue/store.go:220-325 | Before a lease has run out a committed call leaves it, extends it, or is its owner's report. |
| `LeaseTime.NoEarlyLoss` | internal/queue/store.go:220-325 | In every interleaving, as long as the clock has not reached the end of a lease, the task is still leased under that token at least as long, or a committed report with that token has finished it. |
| `Serializability.SelectedUnderLock` | internal/queue/store.go:221-257 | A row picked by a Claim statement is locked, still satisfies the WHERE clause at the present clock, and no other commit can change it. |
| `Serializability.RefusedRightly` | internal/queue/store.go:182-325 | An error answered in the middle of any interleaving is the one an atomic call would get after the calls committed so far. |
| `VisibleLog.ClaimLogged` | internal/queue/store.go:253-268 | When a Claim inserts its event, the completed events of all parents are already visible. |
| `VisibleLog.ClaimsAfterParents` | internal/queue/store.go:214-268 | In every interleaving a visible claimed entry has, for each parent, a visible completed entry with a smaller id. |
| `VisibleLog.ShownSame` | internal/queue/store.go:214-217 | Event tables that show every task the same events hold the same events. |
| `VisibleLog.CountsInterleaved` | internal/queue/store.go:345-382 | In every interleaving the status counts of the committed rows balance with the visible event table. |
| `Uncontended.SkipAlone` | internal/queue/store.go:222-257 | Alone, a scan passes over a row only because it does not qualify. |
| `Uncontended.RecoverAlone` | internal/queue/store.go:221-227 | Alone, the recovery statement takes the oldest leases, up to 100: every one that had run out when its scan opened and none that had not when it closed. |
| `Uncontended.PropagateAlone` | internal/queue/store.go:231-236 | Alone, the propagation statement takes up to 100 blocked tasks and misses none below that. |
| `Uncontended.ChooseAlone` | internal/queue/store.go:252-257 | Alone, the claiming statement takes the pending row of the kind with completed dependencies that is first by creation time and id. |
| `Uncontended.EmptyAlone` | internal/queue/store.go:252-262 | Alone, it finds nothing only if every pending row of the kind has a dependency that is not completed. |
| `Uncontended.UncontendedClaim` | internal/queue/store.go:219-275 | A Claim with no other transaction open from its begin to its commit commits a full Claim on the tables left by the calls before it, whose recovery is timed by the server clock at the opening and at the close of the recovery scan. |
| `ClaimRounds.RoundDrops` | internal/queue/store.go:219-257 | Such a Claim, finding an unsettled failure, lowers the number of unclaimed tasks. |
| `ClaimRounds.PropagationFinishesInterleaved` | internal/queue/store.go:219-257 | Among more such Claims than tasks, with any interleaving but new Creates between them, one starts from rows where all descendants of failed tasks have failed. |
| `SecurityGraph.Graph.UpsertNode` | profiles/reference/sec/extensions/security-graph.ts:132-136 | What is found under the node's id becomes that node, nothing else changes, and ids stay unique. |
| `SecurityGraph.Graph.AddEdge` | profiles/reference/sec/extensions/security-graph.ts:138-151 | An edge already there has at most its detail replaced; otherwise it is appended; no duplicates arise. |
| `SecurityGraph.Graph.Adjacency` | profiles/reference/sec/extensions/security-graph.ts:154-162 | Every id is mapped to its outgoing edges in stored order. |
| `SecurityGraph.OutIsIndexed` | profiles/reference/sec/extensions/security-graph.ts:157-160 | Outgoing edges are exactly the stored edges that start at the node, once each, in order. |
| `PathSearch.Expand` | profiles/reference/sec/extensions/security-graph.ts:179-195 | One queue entry contributes exactly its finished and its open one-edge extensions. |
| `PathSearch.SearchStep` | profiles/reference/sec/extensions/security-graph.ts:175-196 | No answer is lost, none is found twice, and lengths stay in breadth-first order. |
| `PathSearch.Search` | profiles/reference/sec/extensions/security-graph.ts:171-198 | Terminates; returns only simple source-to-target walks within the depth, distinct, shortest first, siblings together; below the limit none is missing, and at the limit every omitted one is at least as long as every returned one; beyond the limit only siblings of the walk that reached it. |
| `PathSearch.MoreThanTwenty` | profiles/reference/sec/extensions/security-graph.ts:177-196 | A graph without duplicate edges on which every such search limited to twenty returns at least thirty paths. |
| `PathSearch.FindPaths` | profiles/reference/sec/extensions/security-graph.ts:165-199 | Every path returned is a simple route of at most maxDepth hops; paths never get shorter along the list; below twenty no route over any relationship is missing, and an omitted one is at least as long as every one returned. |
| `PathSearch.AnswersAreRoutes` | profiles/reference/sec/extensions/security-graph.ts:164-199 | Walks by edge position are exactly the simple routes of nodes and stored edges. |
| `PathSearch.FoundRoutes` | profiles/reference/sec/extensions/security-graph.ts:164-199 | What the search promises of walks by edge position holds of the routes a reader sees. |
| `AttackChains.FindAttackChains` | profiles/reference/sec/extensions/security-graph.ts:205-266 | Reports only chains - from one of eight low kinds to one of six high ones, by ten relationships, scored ten per level minus hops but at least one - all of them below fifty, none twice in a graph without duplicates, by descending score, and for depth bounds up to ten best first. |
| `AttackChains.CollectChains` | profiles/reference/sec/extensions/security-graph.ts:212-262 | The two loops find chains pair by pair in order, complete below fifty and cut off at fifty up to siblings; a chain left out comes no earlier by start, end and hops than any found. |
| `AttackChains.PrivilegeLevels` | profiles/reference/sec/extensions/security-graph.ts:70-90 | Which kinds of node are on which privilege level. |
| `AttackChains.CandidatesAre` | profiles/reference/sec/extensions/security-graph.ts:92-214 | Which kinds of node start and end a chain and which relationships it follows. |
| `AttackChains.SoundAndComplete` | profiles/reference/sec/extensions/security-graph.ts:205-266 | Every reported chain joins a low-privilege node to a high-impact one by edges that line up with its path and have allowed relationships; below fifty chains the converse holds too. |
| `AttackChains.NoChainTwice` | profiles/reference/sec/extensions/security-graph.ts:132-151 | In a graph kept by upsertNode and addEdge no chain is reported twice. |
| `AttackChains.StableUnique` | profiles/reference/sec/extensions/security-graph.ts:264-264 | There is only one stable sort by score, whatever algorithm computes it. |
| `AttackChains.RankedIsStable` | profiles/reference/sec/extensions/security-graph.ts:264-264 | The ranking is sorted by score and keeps the order of equal scores. |
| `AttackChains.StablePermutes` | profiles/reference/sec/extensions/security-graph.ts:264-264 | Ranking neither drops nor repeats a chain. |
| `AttackChains.ScoreRanksExactly` | profiles/reference/sec/extensions/security-graph.ts:241-249 | A higher score means a larger privilege gap, or the same gap in fewer hops, for all chains of all graphs if and only if the depth bound is at most ten. |
| `AttackChains.ScoreFailsAtEleven` | profiles/reference/sec/extensions/security-graph.ts:241-249 | A graph where eleven hops across a gap of three tie with one hop across a gap of two. |
| `AttackChains.BestFirst` | profiles/reference/sec/extensions/security-graph.ts:205-266 | For depth bounds up to ten no chain is ranked behind a worse one. |
| `EventStream.WriteStream` | internal/httpapi/server.go:231-256 | Writes one frame for each body, in order. |
| `EventStream.Reader.Feed` | web/src/app.ts:53-63 | Fails exactly when the buffer is over two million UTF-16 units; otherwise takes all complete frames and keeps the rest. |
| `EventStream.Reader.Consume` | web/src/app.ts:50-64 | Reads chunks up to the first that does not fit; the bodies taken are those of the text so far, however it was cut. |
| `EventStream.FindBreak` | web/src/app.ts:59-59 | The first empty line. |
| `EventStream.Resume` | web/src/app.ts:50-64 | Reading on from the kept rest gives what reading the whole text at once gives. |
| `EventStream.RestHasNoBreak` | web/src/app.ts:59-60 | What is kept holds no complete frame. |
| `EventStream.AnyFrame` | web/src/app.ts:59-62 | Any frame of full lines gives its first data line, whatever other fields it has, and nothing if it has none. |
| `EventStream.Utf16Exactly` | web/src/app.ts:57-57 | Lengths are counted in UTF-16 units: two for characters from U+10000 on, one for the others. |
| `EventStream.ReadBackExactly` | web/src/app.ts:59-63 | A printed stream reads back as written if and only if no body has a line feed. |
| `EventStream.PartialStream` | web/src/app.ts:50-64 | After any prefix of a stream the reader has given the bodies of the complete frames and holds a proper part of the next. |
| `EventStream.RoomForFrames` | web/src/app.ts:57-57 | No chunk is refused if it fits the limit together with the longest frame. |
| `EventStream.PrintedTexts` | internal/httpapi/server.go:239-244 | Printed JSON values are one-line texts that decode to them. |
| `EventStream.ReceiveSnapshots` | web/src/app.ts:50-64 | One-line JSON texts sent as frames, in any chunks that fit beside a frame, are all read, in order, and decode to the values sent. |
| `ScopeReader.ParseScope` | profiles/reference/sec/extensions/scope-guard-v2.ts:70-129 | The parsing loop reads what the file says: the entries of a list are, in order, the item lines whose nearest preceding header or key line is the header of that list, each without comment and quotes; enforce is whether the last enforce line says true or yes, and true without one. |
| `ScopeReader.ParsedMeans` | profiles/reference/sec/extensions/scope-guard-v2.ts:70-129 | The same of the fold of the line transitions, on which the round trip rests. |
| `ScopeReader.KindIs` | profiles/reference/sec/extensions/scope-guard-v2.ts:91-126 | Each line is of one kind: an item, a key with a value, a header, or none of these, by what it is put together from. |
| `ScopeReader.CleansIsStrip` | profiles/reference/sec/extensions/scope-guard-v2.ts:131-145 | A written value is read without its comment, unless it opens a quote, then trimmed, without quotes, and trimmed again. |
| `ScopeReader.CommentDropped` | profiles/reference/sec/extensions/scope-guard-v2.ts:135-138 | An unquoted value followed by ` #` and any comment reads as the value. |
| `ScopeReader.QuotesDropped` | profiles/reference/sec/extensions/scope-guard-v2.ts:139-144 | A value in matching quotes reads as its trimmed inside. |
| `ScopeFile.ListItemMatches` | profiles/reference/sec/extensions/scope-guard-v2.ts:92-94 | Every way the list expression can match gives the same trimmed value, so backtracking does not matter. |
| `ScopeFile.ListItemIsMatch` | profiles/reference/sec/extensions/scope-guard-v2.ts:92-94 | Every list item found is a match of that expression. |
| `ScopeFile.StripKeeps` | profiles/reference/sec/extensions/scope-guard-v2.ts:131-145 | Which trimmed values survive comment and quote removal. |
| `ScopeFile.ItemLine` | profiles/reference/sec/extensions/scope-guard-v2.ts:91-102 | What a printed entry is read as, for any text in it. |
| `ScopeFile.SaveScope` | profiles/reference/sec/extensions/scope-guard-v2.ts:173-184 | Prints the lines of the file in order. |
| `ScopeFile.FoldFile` | profiles/reference/sec/extensions/scope-guard-v2.ts:70-184 | Reading the printed lines gives each list with its entries as read and the enforce flag. |
| `ScopeFile.ParsedOneLine` | profiles/reference/sec/extensions/scope-guard-v2.ts:78-102 | No parsed entry has a line feed in it. |
| `ScopeFile.RoundTrip` | profiles/reference/sec/extensions/scope-guard-v2.ts:70-184 | Parsing the saved file gives back all lists in order and the flag if and only if every entry is non-empty, trimmed, on one line, free of ` #` unless it starts with a quote, and not enclosed in matching quotes. |
| `Cidr.OctetExactly` | profiles/reference/sec/extensions/scope-guard-v2.ts:214-217 | A part is accepted exactly when it is the decimal text of a number from 0 to 255. |
| `Cidr.IPv4Exactly` | profiles/reference/sec/extensions/scope-guard-v2.ts:211-218 | The accepted addresses are exactly the dotted quads of 0 to 255 without leading zeros. |
| `Cidr.ParseShow` | profiles/reference/sec/extensions/scope-guard-v2.ts:214-216 | parseInt undoes String on every natural number. |
| `Cidr.ParseIntExactly` | profiles/reference/sec/extensions/scope-guard-v2.ts:215-238 | For any text, parseInt gives the number of the numeral it starts with, after white space, and NaN if there is none. |
| `Cidr.IsCidrExactly` | profiles/reference/sec/extensions/scope-guard-v2.ts:227-232 | The block test admits exactly four groups of one to three digits and, after a slash, one of one or two that is at most 32. |
| `Cidr.AndMask` | profiles/reference/sec/extensions/scope-guard-v2.ts:242-243 | Masking with ones above s zeros rounds down to a multiple of 2^s. |
| `Cidr.MaskIs` | profiles/reference/sec/extensions/scope-guard-v2.ts:242-242 | The signed shift and the unsigned cast give 2^32 - 2^(32-bits), for any prefix length but zero, including NaN. |
| `Cidr.MaskedEqual` | profiles/reference/sec/extensions/scope-guard-v2.ts:243-243 | Signed masked words are equal if and only if the unsigned words agree above the mask. |
| `Cidr.AddressIs` | profiles/reference/sec/extensions/scope-guard-v2.ts:221-224 | The shifted sum is, modulo 2^32, the number the four parts write in base 256. |
| `Cidr.InCidrExactly` | profiles/reference/sec/extensions/scope-guard-v2.ts:235-244 | For any two texts the test is true exactly when the first is an address that agrees with the network in its upper bits. |
| `Cidr.MatchesPrefix` | profiles/reference/sec/extensions/scope-guard-v2.ts:235-244 | For valid addresses and lengths 0 to 32: true if and only if division by 2^(32-bits) gives the same number. |
| `Cidr.ShorterPrefix` | profiles/reference/sec/extensions/scope-guard-v2.ts:235-244 | Shortening the prefix never loses a match. |
| `Cidr.GuardedExactly` | profiles/reference/sec/extensions/scope-guard-v2.ts:227-244 | The same for every text isCIDR admits, including parts above 255, which carry. |

## Left out

- SHA-256 and random values: the fingerprint is taken to be injective, ids and tokens to be fresh, and clock readings are parameters; the clock of the statement-level server never goes back.
- PostgreSQL beyond row locks, statement snapshots, the recheck of changed rows, unique keys, commit and rollback; connection handling, migration, contexts and timeouts. A failed statement is a rollback.
- The jsonb columns keep the text that was sent; PostgreSQL's own rewriting of stored JSON, and its refusal of some texts, are not modelled. Neither are updated_at, event times and invalid UTF-8.
- In the statement-level model a scan fixes the rows to visit when it opens: all that satisfy the WHERE clause then, and possibly more, since the clock moves while rows are filtered. Which of them a contended Claim gets depends on the locks of others and is not determined; for a Claim that is alone it is.
- A statement-level transaction starts from a request already normalized; normalization itself touches no table.
- PathSearch.Search: one method for the loops of findPaths and findAttackChains, which differ in the allowed relationships and the limit; findAttackChains counts its limit across pairs of nodes, and the caller passes what is left of it. Depth bounds are integers.
- Node details, severities and metadata, the graph file, summaries and HTML.
- Stores.Store.Snapshot: updated_at and event times are not among the columns.
- EventStream.ReceiveSnapshots: holds for any one-line JSON texts; that a text is one line is proved of the printer with sorted keys (`EventStream.PrintedTexts`), not of the field order of the response structs. A body that JSON.parse refuses ends the connection, which is not modelled, nor are the other fields and line endings of the event-stream format that the server never writes.
- EventStream.WriteStream: the ticker, write errors and stream slots are left out.
- Cidr.AddressIs: numbers are exact integers; parts long enough to be rounded by floating point are not modelled, and isCIDR admits at most three digits.
- Host name matching, command inspection, scope loading from profiles and the violation log of the scope guard: heuristics or file access.
- HTTP routing, authentication, the SDK, adapters, task-manager, dashboards and the other reference extensions: plumbing, or they would only add easy members.
