# Verified model of the Sensei command journal, entity store and context kernel

This project models the parts of Sensei whose correctness spans several functions, replicas or
whole runs, and proves what they promise. `dafny verify dfyconfig.toml` checks everything.

| file | subject |
|---|---|
| `Journal.dfy` | the durable command journal: one row per (tenant, execution key), five atomic operations, on Postgres and in memory |
| `Protocol.dfy`, `Safety.dfy`, `Progress.dfy`, `Outcomes.dfy` | the claim protocol of `ToolExecutor` as a transition system over any number of concurrent calls; `Outcomes` says what callers are told and rows record in terms of what the command answered |
| `Executor.dfy` | `ToolExecutor::execute_inner` and `dispatch_claimed` as methods on a live journal and replay map, refining the protocol |
| `BoundedMap.dfy` | the bounded replay map |
| `EntityStore.dfy` | write guards: snapshot, diff, compare-and-swap transaction, retry, rollback |
| `Context.dfy`, `Budget.dfy`, `Sections.dfy`, `ContextKernel.dfy` | ranking, token budgets, contradictions and sections of a context bundle |
| `Search.dfy` | the authorized search: one bounded query per block, merged and cut |
| `Pareto.dfy` | Pareto selection of program candidates |
| `Tickets.dfy` | one-time realtime tickets, in-memory mode |
| `Flatten.dfy`, `Literals.dfy`, `Variants.dfy` | the i18n generator |
| `Values.dfy`, `Prelude.dfy` | JSON values and output validation; options, string order, a stable sort, decimal numerals |

## How it is modelled

**The claim protocol.** A state is the journal table, a clock, every call with its program
counter, and the history of dispatches, answers and returned outcomes. An action sets the clock
to ANY value, starts a call, lets a call take one atomic step, sends a heartbeat or crashes a
call. A journal operation may fail without effect or take effect and lose its reply. Safety is
proved for every action sequence, so it needs no assumption on clocks. Fresh claim tokens are the
one assumption: they are drawn from a counter where the code draws 256 random bits. Progress
additionally assumes that one call runs alone, without journal errors, and passes the gate before
its new lease runs out. The journal's rules follow both implementations, the SQL one and the
in-memory one, which differ at the edges; every theorem holds for both.

**The executor class** mirrors the code's call structure. Its methods are proved to end in the
table, the outcome, the commands run and the replay map that the protocol's machine gives for the
same inputs, so the safety results speak about it (`Executor.NeverRunAgain`).

**The entity store.** A replica's attempt is a change computed from any snapshot whatever, fresh,
stale or never true, which covers every interleaving of guards, caches, retries and the drop
fallback. A transaction is atomic; it may fail before it commits or commit and lose the reply. The
guard's own methods take what others do to the table between its two attempts as an argument.

**Tickets.** Calls overlap: a purge reads the clock once and visits entries one by one, and what is
atomic is one visit, one insertion, or the final check-and-mark of a `consume`. The clock is
arbitrary. Ticket ids are assumed fresh, as random identifiers are.

**The context kernel** counts tokens in 32 bits with wrapping addition, as a release build does.
JSON rendering of a value (`show`) and the evidence-id hash (`derive`) are parameters.

**Search.** The corpus is the set of the tenant's rows that match the query text. A query is SOME
top-k of its block: ties at the cut may go either way.

**Hash maps** are iterated in arbitrary order everywhere; the results do not depend on it except
where stated.

## Where the code does less than it says

* `Journal.RenewalShrinksByGateDelay`: the Postgres heartbeat is documented to keep a constant
  horizon, but the gate moves `last_heartbeat` without moving the lease, so renewals of a gated
  row shrink by the time the claim waited for its gate.
* `EntityStore.RefusedGuardExact`, `EntityStore.RollbackExact`: the rollback is documented to keep
  memory in step with the database. It leaves inserted ids behind, and the guard's drop then
  publishes the refused map again. The snapshot survives iff the lock was busy at the drop, and
  nothing had been inserted or the lock was busy at `persist` too. `EntityStore.DropAgreesIff` says
  exactly when memory and table agree afterwards.
* `EntityStore.RetryLandsAgainIff`, `EntityStore.RetryCanLandTwice`: when a commit lands and its
  reply is lost, the retry usually conflicts with the guard's own write, and an error is reported
  although the table holds the change. If other replicas have meanwhile put every touched row back
  to the snapshot's value, the retry applies the change a second time.
* `EntityStore.StoreWriteGuard.Persist`: without a pool, `Ok` is reported even when the lock was
  busy and nothing was published.
* `Budget.PickIsIdealIffNoOverflow`, `Budget.WrapBreaksCap`: a token cost near 2^32 wraps the
  running total and is let in; the exact condition is that no running total overflows.
* `Tickets.PurgeShowsExactly`, `Tickets.ClockMustNotRunBack`: a purge can be noticed, exactly when
  it read a clock at or past a ticket's expiry and a later redemption reads one before it.
* `Variants.RealKeysCanClash`, `Variants.DistinctIffNoClash`: disambiguated names can collide; the
  condition is exact. The doc comment announces suffixes `_2`, `_3`; the code appends `2`, `3`,
  and the model follows the code.
* `Flatten.KeepsEveryLeafIff`, `Flatten.DottedKeyLoses`, `Flatten.EmptyKeyLoses`: with keys that
  are empty or contain a dot a leaf can be lost, exactly when two leaves with different texts fall
  on one flat key.
* `Context.FactAddressExact`: the comment on contradiction detection lets a payload's address
  block name the attribute. The code never reads such a field; the attribute is the key examined.

## Model

| member | source | states |
|---|---|---|
| `Values.ValidateOutput` | sensei-rs/crates/sensei-agent-core/src/tools.rs:210-247 | accepts an output exactly when it is an object with the declared fields and no others, each of its declared kind, whatever order the two maps are scanned in |
| `Values.KindsExact` | sensei-rs/crates/sensei-agent-core/src/tools.rs:224-232 | a declaration is met exactly by the values of the kind it names; an integer within 64 bits is also a number, null is nothing |
| `Values.TamperingBreaks` | sensei-rs/crates/sensei-agent-core/src/tools.rs:205-247 | from a conforming output no declared field may be dropped, no other added, and a field may be changed exactly to a value of its declared kind |
| `Values.ConformsByField` | sensei-rs/crates/sensei-agent-core/src/tools.rs:205-247 | conforming outputs are built field by field from the empty object; a schema that is no object asks nothing |
| `Journal.JournalTable.constructor` | sensei-rs/crates/sensei-agent-core/src/tools.rs:1268-1274 | an empty table |
| `Journal.JournalTable.Reserve` | sensei-rs/crates/sensei-services/src/ai/command_journal.rs:62-118 | an absent key is claimed as `reserved` with owner, fresh token and lease; a present row is untouched; a failing call either did nothing or did all of it |
| `Journal.JournalTable.Load` | sensei-rs/crates/sensei-services/src/ai/command_journal.rs:172-207 | status and result of the row, an error never read as an absent row |
| `Journal.JournalTable.BeginDispatch` | sensei-rs/crates/sensei-services/src/ai/command_journal.rs:120-170 | opens only for a `reserved` row under the same token with a live lease, and then makes the row `dispatching`; every other row is left as it is |
| `Journal.JournalTable.Heartbeat` | sensei-rs/crates/sensei-services/src/ai/command_journal.rs:209-258 | renews only the current token's unexpired, unsettled claim, each backend by its own rule |
| `Journal.JournalTable.Recover` | sensei-rs/crates/sensei-services/src/ai/command_journal.rs:260-360 | an expired `reserved` row goes to a fresh token with the attempt bumped; an expired `dispatching` or `executing` row becomes `reconcile_required` without a claim; nothing else changes |
| `Journal.JournalTable.Complete` | sensei-rs/crates/sensei-services/src/ai/command_journal.rs:362-418 | lands only under the row's current token and clears the claim |
| `Journal.FaultsExact` | sensei-rs/crates/sensei-agent-core/src/journal.rs:64-65 | a refused call did nothing, one whose reply was lost did everything |
| `Journal.GateEdge` | sensei-rs/crates/sensei-agent-core/src/tools.rs:1418-1431 | on a leased row the SQL gate and the in-memory gate differ at exactly one instant, the expiry itself |
| `Journal.RenewalShrinksByGateDelay` | sensei-rs/crates/sensei-services/src/ai/command_journal.rs:145-152 | on Postgres the first heartbeat after the gate renews any gated row by less than without the gate: less by the time since its claim or last heartbeat, so equal iff none had passed; in memory the gate costs nothing |
| `Safety.AdvanceMay` | sensei-rs/crates/sensei-agent-core/src/tools.rs:538-633 | one step changes at most the calling key's row, only in the ways its program counter allows, and goes only where that outcome permits |
| `Safety.ApplyKeepsInv` | sensei-rs/crates/sensei-agent-core/src/tools.rs:523-633 | every action (clock change, start, step with any journal fault, heartbeat, crash) keeps the protocol invariant |
| `Safety.RunInv` | sensei-rs/crates/sensei-agent-core/src/journal.rs:45-65 | the invariant holds in every state of every run |
| `Safety.DispatchedAtMostOnce` | sensei-rs/crates/sensei-agent-core/src/tools.rs:722-745 | in any run, with any number of calls, crashes, journal errors and clock readings, one (tenant, key) is dispatched at most once |
| `Safety.ReservedNeverDispatched` | sensei-rs/crates/sensei-agent-core/src/journal.rs:45-65 | a `reserved` row has never been dispatched, however often it was recovered |
| `Safety.ReplaysAgree` | sensei-rs/crates/sensei-agent-core/src/tools.rs:545-567 | all `Ok` values ever returned for a key, to the owner or to any replaying call, are one value: the answer of the single dispatch, and it conforms to the dispatching tool's schema |
| `Safety.ApplyKeepsRank` | sensei-rs/crates/sensei-agent-core/src/journal.rs:172-180 | no action lowers a row's rank, removes it, or changes it once settled |
| `Safety.SettledForever` | sensei-rs/crates/sensei-agent-core/src/journal.rs:172-180 | over every continuation of every run a settled row never changes and no row loses rank |
| `Safety.OnlyHolderWrites` | sensei-rs/crates/sensei-agent-core/src/journal.rs:138-149 | in every reachable state whatever changes an existing row is a step of a call holding its current token, or a recovery of its expired claim |
| `Safety.FencedForever` | sensei-rs/crates/sensei-agent-core/src/journal.rs:138-189 | once a row is no longer under a token, gate, heartbeat and completion under that token are refused and leave the whole table as it is, at every later point of the run and at any clock reading |
| `Safety.RecoverFencesEarlier` | sensei-rs/crates/sensei-agent-core/src/journal.rs:151-171 | a successful recovery takes the row from every token drawn before it |
| `Safety.BeatIsLeaseOnly` | sensei-rs/crates/sensei-services/src/ai/command_journal.rs:232-241 | a heartbeat changes nothing but lease and heartbeat time, and only of an unsettled row |
| `Safety.CrashStops` | sensei-rs/crates/sensei-agent-core/src/journal.rs:54-62 | a crash stops an active call where it is for the rest of the run and touches nothing else |
| `Safety.HeartbeatReaches` | sensei-rs/crates/sensei-agent-core/src/journal.rs:138-149 | a holder's heartbeat is the journal's, and nothing but the table changes |
| `Progress.DriveIsRun` | sensei-rs/crates/sensei-agent-core/src/tools.rs:464-633 | one call driven alone is a run of the whole system in which nobody else moves |
| `Progress.ClaimRunsOut` | sensei-rs/crates/sensei-agent-core/src/tools.rs:722-891 | a live claim left alone opens the gate, runs the command once, settles the row as the answer dictates and returns the matching outcome |
| `Progress.SoloProgress` | sensei-rs/crates/sensei-agent-core/src/tools.rs:558-630 | from every reachable state a lone call that finds an expired unsettled row and passes the gate within its new lease settles it: run to its end if never dispatched, handed to a human otherwise |
| `Progress.NeverWedged` | sensei-rs/crates/sensei-agent-core/src/journal.rs:57-65 | from every reachable state every row can still be settled |
| `Outcomes.ReserveClaims` | sensei-rs/crates/sensei-services/src/ai/command_journal.rs:86-112 | a present row is untouched; an absent key becomes a claim of the caller under the new token whose gate is open on either backend until exactly the lease's end |
| `Outcomes.RecoverClaims` | sensei-rs/crates/sensei-services/src/ai/command_journal.rs:293-348 | gives the same claim exactly on an expired never-dispatched row, counting the attempt; marks an expired possibly dispatched row and gives its claim up; does nothing otherwise |
| `Outcomes.GateOpensIff` | sensei-rs/crates/sensei-services/src/ai/command_journal.rs:145-164 | the exact condition on row, token, lease and clock, per backend, and what it changes |
| `Outcomes.HeartbeatIff` | sensei-rs/crates/sensei-services/src/ai/command_journal.rs:232-252 | the exact condition, and that lease and heartbeat time alone change |
| `Outcomes.HeartbeatKeepsHorizon` | sensei-rs/crates/sensei-services/src/ai/command_journal.rs:223-235 | in every reachable state a heartbeat before the gate leaves a whole claimed window from now, on either backend, however many came before |
| `Outcomes.CompleteReleases` | sensei-rs/crates/sensei-services/src/ai/command_journal.rs:384-412 | needs the current token alone, writes status and result, gives the claim up |
| `Outcomes.LeaseOutlivesTimeout` | sensei-rs/crates/sensei-agent-core/src/tools.rs:525-529 | the lease outlives the tool's timeout by more than 299 and at most 300 seconds |
| `Outcomes.JudgedExact` | sensei-rs/crates/sensei-agent-core/src/tools.rs:641-666 | success is exactly a conforming value, given back; a timeout, a raised error and a non-conforming value each give their own error |
| `Outcomes.SettleTells` | sensei-rs/crates/sensei-agent-core/src/tools.rs:740-891 | the terminal row is `succeeded` with the value iff it conforms, `unknown_outcome` iff the mutation may have happened unseen, `failed` otherwise, with the error the caller gets |
| `Outcomes.ClaimTells` | sensei-rs/crates/sensei-agent-core/src/tools.rs:722-891 | a live claim left alone ends in that row and that outcome |
| `Outcomes.JournalErrorsAreNamed` | sensei-rs/crates/sensei-agent-core/src/tools.rs:531-627 | a journal error ends the call at once with the error naming the failed operation, and only then |
| `Outcomes.SettledReplays` | sensei-rs/crates/sensei-agent-core/src/tools.rs:546-590 | a call on a settled key changes nothing: a success is replayed with its result, a failure with its text, an unknown outcome conflicts |
| `Outcomes.FirstCallRuns` | sensei-rs/crates/sensei-agent-core/src/tools.rs:531-544 | the first call for a key that passes the gate within 300 seconds of its claim returns what the command answered and records it |
| `Outcomes.FirstCallSucceeds` | sensei-rs/crates/sensei-agent-core/src/tools.rs:531-544 | the same from every state, as a run of the whole system |
| `Outcomes.RowsTellTheAnswer` | sensei-rs/crates/sensei-agent-core/src/tools.rs:740-891 | in every reachable state a row with an outcome records the truth about the answer of its key's single dispatch |
| `Outcomes.ReturnsAreTrue` | sensei-rs/crates/sensei-agent-core/src/tools.rs:464-674 | in every run each finished call has returned one outcome: a call that never ran the command was harmlessly refused or repeats the settled row; one that did gives the command's own outcome and the row agrees, or says the record could not be confirmed |
| `Outcomes.RetryGetsTheAnswer` | sensei-rs/crates/sensei-agent-core/src/tools.rs:558-567 | in every reachable state a fresh call on a succeeded key gets the value its single dispatch answered and changes nothing |
| `Executor.ToolExecutor.constructor` | sensei-rs/crates/sensei-agent-core/src/tools.rs:326-352 | nothing run, an empty replay map of 512 entries |
| `Executor.ToolExecutor.JudgeAnswer` | sensei-rs/crates/sensei-agent-core/src/tools.rs:740-891 | status, result and both outcomes tell the truth about the answer, and are the protocol's |
| `Executor.ToolExecutor.DispatchBegun` | sensei-rs/crates/sensei-agent-core/src/tools.rs:740-891 | past the gate the command runs once; table and outcome are those of the protocol; exactly a conforming answer is remembered, before the journal write is known to have landed |
| `Executor.ToolExecutor.DispatchClaimed` | sensei-rs/crates/sensei-agent-core/src/tools.rs:701-892 | gate first: the command runs iff the protocol lets it, and table, outcome and replay map come out as the protocol says |
| `Executor.ToolExecutor.ReplayOrRecover` | sensei-rs/crates/sensei-agent-core/src/tools.rs:545-630 | a loser replays, conflicts or reclaims exactly as the protocol's machine does |
| `Executor.ToolExecutor.RecoverClaim` | sensei-rs/crates/sensei-agent-core/src/tools.rs:601-629 | a reclaimed claim goes through the gate again; otherwise the call conflicts |
| `Executor.ToolExecutor.ExecuteJournaled` | sensei-rs/crates/sensei-agent-core/src/tools.rs:523-633 | the journaled path refines the protocol's machine on every journal fault, clock reading and answer |
| `Executor.ToolExecutor.ExecuteInner` | sensei-rs/crates/sensei-agent-core/src/tools.rs:464-674 | a refused call leaves no trace; a read-only or non-idempotent tool runs afresh and touches neither map nor journal; a mutating idempotent one is the protocol's machine, or without a journal replays or fills the replay map |
| `Executor.FirstCallIsRun` | sensei-rs/crates/sensei-agent-core/src/tools.rs:531-544 | the first call for a key runs the command if it passes the gate within 300 seconds of its claim |
| `Executor.SettledIsNotRun` | sensei-rs/crates/sensei-agent-core/src/tools.rs:545-590 | a call on a settled key never runs it, whatever fails |
| `Executor.RememberedReadsBack` | sensei-rs/crates/sensei-agent-core/src/tools.rs:634-673 | the replay map remembers exactly a valid answer and reads it back at once |
| `Executor.AnswerIsLogged` | sensei-rs/crates/sensei-agent-core/src/tools.rs:740-746 | a command an executor runs is an entry of the protocol's history |
| `Executor.OneCommander` | sensei-rs/crates/sensei-agent-core/src/tools.rs:722-745 | whoever finishes a key's command is the one call that started it, and finishes it once |
| `Executor.NeverRunAgain` | sensei-rs/crates/sensei-agent-core/src/tools.rs:523-633 | once another call has started a key's command, crashed or not, or any call has finished it, no executor driving a call for that key from any later state runs it |
| `BoundedMaps.BoundedMap.constructor` | sensei-rs/crates/sensei-agent-core/src/cache.rs:58-64 | empty, capacity at least one |
| `BoundedMaps.BoundedMap.Get` | sensei-rs/crates/sensei-agent-core/src/cache.rs:66-68 | the value the association list holds |
| `BoundedMaps.BoundedMap.Insert` | sensei-rs/crates/sensei-agent-core/src/cache.rs:70-86 | refines the FIFO list: an overwrite keeps its place, a new key goes last and the oldest go first until the capacity is met |
| `BoundedMaps.BoundedMap.Remove` | sensei-rs/crates/sensei-agent-core/src/cache.rs:88-91 | refines removal from the list |
| `BoundedMaps.PutReadsBack` | sensei-rs/crates/sensei-agent-core/src/cache.rs:70-86 | an inserted value is read back at once; a new key is the youngest, an old one keeps its place |
| `BoundedMaps.DoKeeps` | sensei-rs/crates/sensei-agent-core/src/cache.rs:70-91 | what one operation does to the key set and to another key's place in line |
| `BoundedMaps.RunKeepsShape` | sensei-rs/crates/sensei-agent-core/src/cache.rs:47-55 | over every run no key is double and the capacity is never exceeded |
| `BoundedMaps.YoungKeySurvives` | sensei-rs/crates/sensei-agent-core/src/cache.rs:47-55 | a key that is not removed outlives any run in which fewer than `capacity` entries are or become younger |
| `BoundedMaps.ReadsAreLatest` | sensei-rs/crates/sensei-agent-core/src/cache.rs:66-91 | after any run a key that is there holds the value inserted last |
| `BoundedMaps.EvictionIsExact` | sensei-rs/crates/sensei-agent-core/src/cache.rs:81-85 | without removals a key is gone iff `capacity` new keys came after it |
| `EntityStore.DiffPatches` | sensei-rs/crates/sensei-api/src/db_stores.rs:652-681 | patching the snapshot with its diff gives the guard's map; writes and deletes are disjoint; only changed ids are written, only snapshot ids deleted; empty iff nothing changed |
| `EntityStore.DiffIsLeast` | sensei-rs/crates/sensei-api/src/db_stores.rs:652-669 | any other change with the same effect writes and deletes at least these ids |
| `EntityStore.Database.constructor` | sensei-rs/crates/sensei-api/src/db_stores.rs:926-934 | the table as given |
| `EntityStore.Database.PersistChanges` | sensei-rs/crates/sensei-api/src/db_stores.rs:926-1042 | the transaction lands iff every written and deleted row equals the snapshot (absent for inserts); otherwise the table is unchanged and exactly the moved ids are reported |
| `EntityStore.PatchedAt` | sensei-rs/crates/sensei-api/src/db_stores.rs:953-1040 | a landed change alters exactly the rows it names |
| `EntityStore.LandKeepsChain` | sensei-rs/crates/sensei-api/src/db_stores.rs:948-990 | one attempt keeps the chain of landed changes intact |
| `EntityStore.NoLostUpdates` | sensei-rs/crates/sensei-api/src/db_stores.rs:926-1042 | over every interleaving of attempts with arbitrary snapshots, each landed change saw precisely what the changes before it had left, and the table is their composition |
| `EntityStore.TenantsAreApart` | sensei-rs/crates/sensei-api/src/db_stores.rs:955-958 | attempts for other tenants or types leave a row alone |
| `EntityStore.UnmovedExactly` | sensei-rs/crates/sensei-api/src/db_stores.rs:953-989 | a change may land iff every row it touches reads as in the snapshot, absent for inserts |
| `EntityStore.RefusalNamesTheMoved` | sensei-rs/crates/sensei-api/src/db_stores.rs:966-1028 | a refusal names exactly the ids whose rows differ from the snapshot, and deletions the snapshot never had |
| `EntityStore.LastWriter` | sensei-rs/crates/sensei-api/src/db_stores.rs:953-1040 | over any interleaving a row reads as before or as a change that landed on it wrote it |
| `EntityStore.RetryLandsAgainIff` | sensei-rs/crates/sensei-api/src/db_stores.rs:530-571 | after a commit whose reply was lost and any attempts by others, the retry lands a second time iff it reaches the table and every touched row reads again as in the snapshot |
| `EntityStore.RetryNeedsRewrites` | sensei-rs/crates/sensei-api/src/db_stores.rs:556-571 | for that, some other landed change must have rewritten each touched row in between to the snapshot's value |
| `EntityStore.RetryCanLandTwice` | sensei-rs/crates/sensei-api/src/db_stores.rs:530-571 | for any row and any two values: one guard, another replica that puts the value back, and the retry land in turn |
| `EntityStore.RetriedIsHonest` | sensei-rs/crates/sensei-api/src/db_stores.rs:530-597 | told of success every touched row reads as written; refused by a healthy last attempt some touched row had moved; unmoved and healthy there is success |
| `EntityStore.SuccessLanded` | sensei-rs/crates/sensei-api/src/db_stores.rs:543-585 | told of success the guard's change is the last that landed |
| `EntityStore.SuccessInMemory` | sensei-rs/crates/sensei-api/src/db_stores.rs:686-707 | after a success memory shows the working map for every id the guard knew, unless the lock was busy |
| `EntityStore.CountersConserve` | sensei-rs/crates/sensei-api/src/db_stores.rs:948-990 | if every landed guard adds to the integer it read, the row ends at its start plus the sum of all additions |
| `EntityStore.RollbackExact` | sensei-rs/crates/sensei-api/src/db_stores.rs:604-620 | right after a write-back and its rollback the tenant sees its snapshot iff the guard inserted no new id; what its drop then does is the next two rows |
| `EntityStore.RefusedGuardExact` | sensei-rs/crates/sensei-api/src/db_stores.rs:726-749 | over its whole life a refused guard leaves its snapshot in memory iff the lock was busy at its drop, and it had inserted nothing or the lock was busy at `persist` too; dropped with the lock free it leaves its refused working map |
| `EntityStore.DropAgreesIff` | sensei-rs/crates/sensei-api/src/db_stores.rs:726-771 | after a drop with the lock free memory and table agree on the touched rows iff the drop's attempt landed or the table held everything the guard wanted already, whatever both held before |
| `EntityStore.CacheTenantsApart` | sensei-rs/crates/sensei-api/src/db_stores.rs:686-707 | write-back and rollback leave other tenants' entries alone |
| `EntityStore.StoreInner.constructor` | sensei-rs/crates/sensei-api/src/db_stores.rs:386-395 | an empty shared map |
| `EntityStore.StoreWriteGuard.constructor` | sensei-rs/crates/sensei-api/src/db_stores.rs:386-409 | the guard starts from the tenant's view, nothing dirty |
| `EntityStore.StoreWriteGuard.ComputeDiff` | sensei-rs/crates/sensei-api/src/db_stores.rs:652-669 | the two sets are those of the specified diff, in any iteration order |
| `EntityStore.StoreWriteGuard.CollectChanges` | sensei-rs/crates/sensei-api/src/db_stores.rs:672-681 | the current values of the dirty ids |
| `EntityStore.StoreWriteGuard.WriteBack` | sensei-rs/crates/sensei-api/src/db_stores.rs:686-707 | publishes the whole working map and evicts the removed ids, or nothing when the lock is busy |
| `EntityStore.StoreWriteGuard.RollbackLocalCache` | sensei-rs/crates/sensei-api/src/db_stores.rs:604-620 | snapshot values for removed and changed known ids |
| `EntityStore.StoreWriteGuard.CommitWithRetry` | sensei-rs/crates/sensei-api/src/db_stores.rs:530-597 | success, failure and the rows they mean, for any faults of the two attempts and any attempts of others between them |
| `EntityStore.StoreWriteGuard.Persist` | sensei-rs/crates/sensei-api/src/db_stores.rs:502-599 | the same for the whole call, with what memory, snapshot and change sets hold after success, after an error (snapshot and change stay pending), and when there was nothing to do |
| `EntityStore.StoreWriteGuard.DropFallback` | sensei-rs/crates/sensei-api/src/db_stores.rs:726-800 | nothing when nothing is pending; otherwise one more write-back, unless the lock is busy, and one more attempt, if a runtime is left |
| `Budget.DefaultWithinMax` | sensei-rs/crates/sensei-agent-core/src/context.rs:444-452 | the three shares never exceed the maximum together |
| `Budget.DefaultExact` | sensei-rs/crates/sensei-agent-core/src/context.rs:444-452 | each share is the largest whole number within its percentage |
| `Budget.CapExact` | sensei-rs/crates/sensei-agent-core/src/context_kernel.rs:96-98 | the cap is both reserves together, cut at 2^32 - 1 |
| `Budget.Spend` | sensei-rs/crates/sensei-agent-core/src/context_kernel.rs:64-75 | the selection loop with its wrapping addition |
| `Budget.PickIsIdealIffNoOverflow` | sensei-rs/crates/sensei-agent-core/src/context_kernel.rs:67-75 | the loop takes and drops what greedy selection would, verdict by verdict, if and only if no running total overflows 32 bits |
| `Budget.ReportedTotal` | sensei-rs/crates/sensei-agent-core/src/context_kernel.rs:64-75 | the reported total never exceeds the cap and is the selection's cost modulo 2^32; it is that cost itself iff nothing overflowed |
| `Budget.PickPartitions` | sensei-rs/crates/sensei-agent-core/src/context_kernel.rs:64-75 | every candidate is selected or dropped, once |
| `Budget.SmallCostsNeverOverflow` | sensei-rs/crates/sensei-agent-core/src/context_kernel.rs:67-71 | no overflow when every cost fits above the cap |
| `Budget.WrapBreaksCap` | sensei-rs/crates/sensei-agent-core/src/context_kernel.rs:67-71 | one cost of 2^32 - 5 is let in over a cap of 10 |
| `Budget.IdealSpends` | sensei-rs/crates/sensei-agent-core/src/context_kernel.rs:64-75 | conservation and bound of greedy selection |
| `Budget.GreedyExact` | sensei-rs/crates/sensei-agent-core/src/context_kernel.rs:54-75 | an element is dropped iff what was taken before it leaves too little room, and then it does not fit at the end either |
| `Budget.SelectedInOrder` | sensei-rs/crates/sensei-agent-core/src/context_kernel.rs:64-75 | nothing is reordered |
| `Budget.AllFit` | sensei-rs/crates/sensei-agent-core/src/context_kernel.rs:110-116 | a cap that covers everything takes everything |
| `Budget.AllPickedIff` | sensei-rs/crates/sensei-agent-core/src/context_kernel.rs:110-116 | every element is taken iff no prefix sum, as 32 bits hold it, exceeds the cap |
| `Budget.CoveredIsPicked` | sensei-rs/crates/sensei-agent-core/src/context_kernel.rs:110-116 | a cap that covers everything suffices, and without overflow only such a cap does |
| `Context.PriorityIsTotal` | sensei-rs/crates/sensei-agent-core/src/context_kernel.rs:54-62 | the ranking order is a total preorder |
| `Context.HierarchyIsRank` | sensei-rs/crates/sensei-agent-core/src/context.rs:198-210 | authority goes down the declared hierarchy; an AI inference outranks nothing |
| `Context.CeilingAdmits` | sensei-rs/crates/sensei-agent-core/src/context.rs:56-62 | which classes each ceiling admits |
| `Context.TiesAgree` | sensei-rs/crates/sensei-agent-core/src/context_kernel.rs:54-62 | two items tie iff authority, date and source all agree |
| `Context.FactAddressExact` | sensei-rs/crates/sensei-agent-core/src/context.rs:454-482 | an item's address is exactly its block's object id, or failing that its own id, with kind, attribute and validity time; no identity, no address |
| `Context.ValuesAtExact` | sensei-rs/crates/sensei-agent-core/src/context.rs:496-505 | the values kept at an address are the distinct ones stated there, each once |
| `Context.ValuesInOrder` | sensei-rs/crates/sensei-agent-core/src/context.rs:496-505 | they come in the order of first statement |
| `Context.AddressesLeMeans` | sensei-rs/crates/sensei-agent-core/src/context.rs:511-516 | addresses sort by type, then id, then attribute |
| `Context.ManyValuesIffContradicted` | sensei-rs/crates/sensei-agent-core/src/context.rs:507-510 | more than one value iff two items at the address disagree |
| `Context.GroupValues` | sensei-rs/crates/sensei-agent-core/src/context.rs:493-506 | the hash map holds exactly the stated addresses with their distinct values |
| `Context.ManyValued` | sensei-rs/crates/sensei-agent-core/src/context.rs:507-510 | exactly the groups with more than one value, in any order |
| `Context.ContradictionCandidates` | sensei-rs/crates/sensei-agent-core/src/context.rs:489-518 | reports an address iff two items at it carry unequal values, once, with all its distinct values, sorted |
| `Context.ContradictedIffDisagree` | sensei-rs/crates/sensei-agent-core/src/context.rs:481-488 | an address is contradicted iff two items with one identity, kind and validity time state unequal values of the attribute |
| `Context.HasContradiction` | sensei-rs/crates/sensei-agent-core/src/context.rs:520-527 | says yes iff two such items exist: different objects or validity times never contradict |
| `Sections.PlannedNamesAreDistinct` | sensei-rs/crates/sensei-agent-core/src/context.rs:335-373 | every task's required names are distinct and none is the catch-all |
| `Sections.PlansPromise` | sensei-rs/crates/sensei-agent-core/src/context.rs:335-373 | the standing context comes first in every plan; what troubleshooting and executive plans contain and do not |
| `Sections.SectionOfExact` | sensei-rs/crates/sensei-agent-core/src/context_kernel.rs:156-165 | an item belongs to a required section iff that is the first required name its payload has |
| `Sections.GroupItems` | sensei-rs/crates/sensei-agent-core/src/context_kernel.rs:122-130 | each occupied name with its items in order, and the names in order of first appearance |
| `Sections.EmitRequired` | sensei-rs/crates/sensei-agent-core/src/context_kernel.rs:132-139 | occupied required names, once, in plan order |
| `Sections.EmitOthers` | sensei-rs/crates/sensei-agent-core/src/context_kernel.rs:140-146 | the remaining names, in order of first appearance |
| `Sections.Regroup` | sensei-rs/crates/sensei-agent-core/src/context_kernel.rs:122-146 | sections in title order, each exactly the subsequence of its items, none empty |
| `Sections.TitlesAreTheNames` | sensei-rs/crates/sensei-agent-core/src/context_kernel.rs:122-146 | no two sections share a name and every item's section is there |
| `Sections.TitlesInOrder` | sensei-rs/crates/sensei-agent-core/src/context_kernel.rs:132-146 | required sections come first in plan order, the others in the order of their first items |
| `Sections.SectionsPartition` | sensei-rs/crates/sensei-agent-core/src/context_kernel.rs:122-146 | the sections hold each item with its multiplicity, once |
| `ContextKernel.RankedExact` | sensei-rs/crates/sensei-agent-core/src/context_kernel.rs:38-62 | the ranking is a sorted permutation of exactly the items at or below the ceiling, as issued |
| `ContextKernel.VisibleIff` | sensei-rs/crates/sensei-agent-core/src/context_kernel.rs:38-40 | an item is considered iff its class is among those the ceiling admits |
| `ContextKernel.IssueExact` | sensei-rs/crates/sensei-agent-core/src/context_kernel.rs:41-51 | a present evidence id is kept, a missing one is derived, nothing else changes |
| `ContextKernel.RankedOrder` | sensei-rs/crates/sensei-agent-core/src/context_kernel.rs:54-62 | of two candidates the earlier has the higher authority, at equal authority is not older nor undated against a dated one, at equal dates has the lesser source name |
| `ContextKernel.RankingIsStable` | sensei-rs/crates/sensei-agent-core/src/context_kernel.rs:54-55 | full ties are considered in input order |
| `ContextKernel.EstimateIsCeiling` | sensei-rs/crates/sensei-agent-core/src/context_kernel.rs:186-190 | the estimate is the least number of four-character tokens that holds the line |
| `ContextKernel.SourceExact` | sensei-rs/crates/sensei-agent-core/src/context_kernel.rs:169-184 | the source named is that of the first item making the claim |
| `ContextKernel.SourceIsFirst` | sensei-rs/crates/sensei-agent-core/src/context_kernel.rs:169-184 | a disputed claim always has one, and selected items are asked before dropped ones |
| `ContextKernel.ClaimsStayInOrder` | sensei-rs/crates/sensei-agent-core/src/context_kernel.rs:101-103 | claims are offered by attribute, then address, then first statement |
| `ContextKernel.WordingReads` | sensei-rs/crates/sensei-agent-core/src/context_kernel.rs:104-109 | a line names the source of the first item stating the value, then the value, then the attribute |
| `ContextKernel.LinesAreTrue` | sensei-rs/crates/sensei-agent-core/src/context_kernel.rs:101-120 | every line of a bundle is about one disputed value and names who first stated it |
| `ContextKernel.CollectAttributes` | sensei-rs/crates/sensei-agent-core/src/context_kernel.rs:83-93 | exactly the attributes some item has, once, sorted, in whatever order a payload yields its keys |
| `ContextKernel.EmitCandidates` | sensei-rs/crates/sensei-agent-core/src/context_kernel.rs:102-118 | the inner loops charge each line against the conflict cap as the selection loop charges items |
| `ContextKernel.EmitAttribute` | sensei-rs/crates/sensei-agent-core/src/context_kernel.rs:101-119 | one attribute: the contradicted addresses are detected exactly, and each of their values is offered against the cap |
| `ContextKernel.EmitContradictions` | sensei-rs/crates/sensei-agent-core/src/context_kernel.rs:99-120 | the offered claims are exactly the disputed ones; the lines are those the cap admits, sorted; the total grows by their cost |
| `ContextKernel.Report` | sensei-rs/crates/sensei-agent-core/src/context_kernel.rs:83-120 | no disputed value at any attribute is missed, and nothing undisputed is offered |
| `ContextKernel.Assemble` | sensei-rs/crates/sensei-agent-core/src/context_kernel.rs:64-153 | a bundle is its selection, its sections, its admitted lines and their joint cost |
| `ContextKernel.BuildContextBundle` | sensei-rs/crates/sensei-agent-core/src/context_kernel.rs:30-154 | the same for a request: plan of the task, items below its ceiling |
| `ContextKernel.TokensAreConserved` | sensei-rs/crates/sensei-agent-core/src/context_kernel.rs:64-119 | for every budget and all costs the reported total is within both budgets together, and equals the cost of sections plus lines iff neither loop nor their sum overflows |
| `ContextKernel.CostIsTokens` | sensei-rs/crates/sensei-agent-core/src/context_kernel.rs:67-72 | an item's cost is its declared token cost |
| `ContextKernel.DefaultBudgetHolds` | sensei-rs/crates/sensei-agent-core/src/context.rs:444-452 | with the default budget for M tokens at most M is reported, truly iff the selection did not overflow |
| `ContextKernel.SectionsAreTheSelection` | sensei-rs/crates/sensei-agent-core/src/context_kernel.rs:38-52 | distinct sections share out exactly the selected items; nothing above the ceiling is among them |
| `ContextKernel.SectionsHoldTheirItems` | sensei-rs/crates/sensei-agent-core/src/context_kernel.rs:122-146 | each section of a bundle is exactly the subsequence of the selected items that belong to it |
| `ContextKernel.DisputesAreTheVisibleOnes` | sensei-rs/crates/sensei-agent-core/src/context_kernel.rs:83-104 | the claims are exactly the disputes among the visible items, selected or dropped |
| `ContextKernel.EveryDisputedValueIsReported` | sensei-rs/crates/sensei-agent-core/src/context_kernel.rs:96-120 | every disputed value has exactly one line in the bundle iff no running cost, as 32 bits hold it, exceeds the cap; a cap that covers all lines suffices, and short of overflow only such a cap does |
| `Search.ForCallerExact` | sensei-rs/crates/sensei-api/src/authorization/search_policy.rs:244-263 | the projection is exactly the readable requested types, each once, with the caller's scope untouched |
| `Search.ScopeDecides` | sensei-rs/crates/sensei-api/src/db_search_service.rs:485-560 | tenant data is shown whatever the scope; shop-floor data tenant-wide, not at all, or by grants; standard work never by grants |
| `Search.TypesByName` | sensei-rs/crates/sensei-api/src/db_search_service.rs:462-505 | which types have tables of their own and which are shop-floor, by name |
| `Search.GrantsExact` | sensei-rs/crates/sensei-api/src/db_search_service.rs:340-371 | a work-center grant shows exactly what that center carries, never its site's rows; a site grant what the site carries; grants add up |
| `Search.BeforeMeans` | sensei-rs/crates/sensei-api/src/db_search_service.rs:568-574 | relevance descending, then type name, then id |
| `Search.Query` | sensei-rs/crates/sensei-api/src/db_search_service.rs:309-432 | some top-k of the block, ties at the cut either way |
| `Search.Extend` | sensei-rs/crates/sensei-api/src/db_search_service.rs:463-561 | adding a block's top-50 keeps what is known of the blocks before |
| `Search.NoneOutranks` | sensei-rs/crates/sensei-api/src/db_search_service.rs:567-576 | after sorting and cutting no omitted row outranks a returned one |
| `Search.ShortPageIsAll` | sensei-rs/crates/sensei-api/src/db_search_service.rs:567-576 | fewer than 50 gathered rows are all there is |
| `Search.CutIsTopK` | sensei-rs/crates/sensei-api/src/db_search_service.rs:567-576 | sorting and cutting the gathered answers is a top-50 of everything covered |
| `Search.SearchTyped` | sensei-rs/crates/sensei-api/src/db_search_service.rs:462-483 | one query per typed table the projection names |
| `Search.SplitByMode` | sensei-rs/crates/sensei-api/src/db_search_service.rs:490-505 | the generic types by scope mode |
| `Search.SearchTenantTypes` | sensei-rs/crates/sensei-api/src/db_search_service.rs:507-519 | the tenant-mode block, skipped when empty |
| `Search.SearchOperationalTypes` | sensei-rs/crates/sensei-api/src/db_search_service.rs:520-561 | the operational block restricted by scope inside the query, skipped without scope |
| `Search.SearchAuthorized` | sensei-rs/crates/sensei-api/src/db_search_service.rs:442-577 | the page is a top-50 of ALL admissible matches, sorted: nothing inadmissible, nothing omitted that is strictly more relevant, and a short page is complete |
| `Pareto.FrontExact` | sensei-rs/crates/sensei-agent-orchestrator/src/programs.rs:375-405 | the selection is the undominated indices, each once, in input order |
| `Pareto.Beaten` | sensei-rs/crates/sensei-agent-orchestrator/src/programs.rs:379-399 | the inner scan answers whether some candidate dominates, though it stops early |
| `Pareto.ParetoSelect` | sensei-rs/crates/sensei-agent-orchestrator/src/programs.rs:375-405 | the ids of exactly the undominated candidates, in input order |
| `Pareto.SelectedAreUndominated` | sensei-rs/crates/sensei-agent-orchestrator/src/programs.rs:375-405 | the ids are those of the undominated candidates, one for each, in input order |
| `Pareto.ComparisonExact` | sensei-rs/crates/sensei-agent-orchestrator/src/programs.rs:383-394 | numbers compare as numbers between the infinities, NaN with nothing |
| `Pareto.BetterOnOneAxisDominates` | sensei-rs/crates/sensei-agent-orchestrator/src/programs.rs:371-394 | on each axis, which direction is better: improving one alone dominates |
| `Pareto.WorseOnOneAxisNeverDominates` | sensei-rs/crates/sensei-agent-orchestrator/src/programs.rs:383-394 | worse on any axis, or with a NaN, never dominates |
| `Pareto.DominanceTransitive` | sensei-rs/crates/sensei-agent-orchestrator/src/programs.rs:383-394 | dominance is transitive even with NaN |
| `Pareto.Covered` | sensei-rs/crates/sensei-agent-orchestrator/src/programs.rs:371-374 | every excluded candidate is dominated by a selected one, whatever NaNs or infinities occur |
| `Pareto.FrontNonEmpty` | sensei-rs/crates/sensei-agent-orchestrator/src/programs.rs:371-405 | something is selected from a non-empty input |
| `Pareto.SelectedAreMutuallyUndominated` | sensei-rs/crates/sensei-agent-orchestrator/src/programs.rs:371-405 | no selected candidate dominates another |
| `Tickets.RealtimeTicketStore.constructor` | sensei-rs/crates/sensei-api/src/state.rs:133-138 | an empty store |
| `Tickets.RealtimeTicketStore.PurgeExpired` | sensei-rs/crates/sensei-api/src/state.rs:250-254 | one sweep over all entries: keeps exactly the unexpired unconsumed tickets |
| `Tickets.RealtimeTicketStore.Create` | sensei-rs/crates/sensei-api/src/state.rs:184-204 | purges, then stores the ticket with the expiry computed before |
| `Tickets.RealtimeTicketStore.Consume` | sensei-rs/crates/sensei-api/src/state.rs:231-245 | answers and marks exactly a known, unspent, unexpired ticket of the same transport |
| `Tickets.DeadStaysDead` | sensei-rs/crates/sensei-api/src/state.rs:213-254 | under any overlap of calls and any clock a spent or purged ticket is never good again |
| `Tickets.RunsAgree` | sensei-rs/crates/sensei-api/src/state.rs:213-254 | the purging store against one that never purges, ticket by ticket, over every run |
| `Tickets.PurgeShowsExactly` | sensei-rs/crates/sensei-api/src/state.rs:250-254 | under any clock the answer differs from a never-purging store's iff that store says yes and a purge with a clock reading at or past the ticket's expiry has visited the ticket |
| `Tickets.PurgeIsInvisible` | sensei-rs/crates/sensei-api/src/state.rs:250-254 | if no purge read its clock later than the redemption does, the answers are the same |
| `Tickets.RedeemedAtMostOnce` | sensei-rs/crates/sensei-api/src/state.rs:208-212 | of two `consume` answers for one id, in any overlap of calls and under any clock, the later is a refusal if the earlier was a success |
| `Tickets.SuccessIsEarned` | sensei-rs/crates/sensei-api/src/state.rs:208-212 | success is only for a minted ticket, on its transport, before its expiry, and names its user and tenant |
| `Tickets.AliveIff` | sensei-rs/crates/sensei-api/src/state.rs:213-254 | a ticket is there and unspent iff it was minted, not redeemed, and not visited by a purge past its expiry |
| `Tickets.SuccessIff` | sensei-rs/crates/sensei-api/src/state.rs:208-245 | success exactly when due: minted for this transport, unexpired, not redeemed before, not purged past its expiry |
| `Tickets.ClockMustNotRunBack` | sensei-rs/crates/sensei-api/src/state.rs:250-254 | a run with a clock that runs back in which the purge shows |
| `Flatten.DottedInjective` | sensei-rs/crates/sensei-frontend/build.rs:145-149 | distinct safe paths have distinct dotted keys |
| `Flatten.PathOf` | sensei-rs/crates/sensei-frontend/build.rs:140-161 | every flat key is the dotted name of some safe path |
| `Flatten.FlatIsTree` | sensei-rs/crates/sensei-frontend/build.rs:140-161 | looking a path up in the flat map is walking it in the tree |
| `Flatten.FlattenLosesNothing` | sensei-rs/crates/sensei-frontend/build.rs:137-161 | the flat map gives back every string leaf at its path and nothing else, and determines the leaves |
| `Flatten.LeafIsNamed` | sensei-rs/crates/sensei-frontend/build.rs:140-161 | every leaf has its flat key in the map |
| `Flatten.EntryIsLeaf` | sensei-rs/crates/sensei-frontend/build.rs:140-161 | every entry of the map is the text of some leaf of that name |
| `Flatten.KeepsEveryLeafIff` | sensei-rs/crates/sensei-frontend/build.rs:140-161 | for every tree without duplicate keys in an object, whatever the keys are, no leaf is lost iff leaves that fall on one flat key carry one text |
| `Flatten.SafeTreesKeepEveryLeaf` | sensei-rs/crates/sensei-frontend/build.rs:140-161 | non-empty dot-free keys are enough |
| `Flatten.DottedKeyLoses` | sensei-rs/crates/sensei-frontend/build.rs:145-150 | in this tree a dotted key and a nested one share a flat key and the nested leaf is lost |
| `Flatten.EmptyKeyLoses` | sensei-rs/crates/sensei-frontend/build.rs:145-150 | in this tree a leaf under an empty key is lost to a plain one |
| `Literals.EscapeRustString` | sensei-rs/crates/sensei-frontend/build.rs:322-338 | the loop computes the character-wise escaping |
| `Literals.EscapedLexesBack` | sensei-rs/crates/sensei-frontend/build.rs:320-338 | between quotes the escaped text lexes back to the original and ends at the writer's quote, so it contains no bare one |
| `Literals.EscapingIsInjective` | sensei-rs/crates/sensei-frontend/build.rs:320-338 | no two texts are written alike |
| `Variants.CountVariants` | sensei-rs/crates/sensei-frontend/build.rs:217-224 | how often each base name occurs |
| `Variants.WordsArePascal` | sensei-rs/crates/sensei-frontend/build.rs:180-198 | splitting at underscores and capitalizing the words is one pass over the characters |
| `Variants.SegmentsArePascal` | sensei-rs/crates/sensei-frontend/build.rs:178-199 | so is splitting at dots and then at underscores |
| `Variants.NoSeparatorsLeft` | sensei-rs/crates/sensei-frontend/build.rs:178-183 | no separator is left in a name |
| `Variants.MendedExact` | sensei-rs/crates/sensei-frontend/build.rs:200-208 | an underscore before a digit, one after a reserved word, else unchanged |
| `Variants.DocumentedNames` | sensei-rs/crates/sensei-frontend/build.rs:165-175 | sub-segments, digits and leading underscores as documented |
| `Variants.KeyToVariant` | sensei-rs/crates/sensei-frontend/build.rs:176-210 | the loops compute the one-pass PascalCase, mended: the variant never starts with a digit and is no reserved word, for any key |
| `Variants.NameInOrder` | sensei-rs/crates/sensei-frontend/build.rs:226-253 | the n-th of a clashing group of base names is named by its base and n, the first by the base alone |
| `Variants.BuildVariantMap` | sensei-rs/crates/sensei-frontend/build.rs:216-254 | the same for keys, by their base names |
| `Variants.DistinctIffNoClash` | sensei-rs/crates/sensei-frontend/build.rs:212-254 | the names are pairwise distinct iff no suffix within a group's size makes a base name or another group's name |
| `Variants.NoDigitExtensionSuffices` | sensei-rs/crates/sensei-frontend/build.rs:245-248 | distinct whenever no base name is another followed only by digits |
| `Variants.FirstKeepsBase` | sensei-rs/crates/sensei-frontend/build.rs:241-243 | the first key of every group keeps its base name |
| `Variants.SuffixIsPlace` | sensei-rs/crates/sensei-frontend/build.rs:238-249 | every later key of a group has its base name followed by its place in the group |
| `Variants.FlagsAreClashes` | sensei-rs/crates/sensei-frontend/build.rs:232-249 | a key is flagged iff another key has its base name |
| `Variants.SuffixCanClash` | sensei-rs/crates/sensei-frontend/build.rs:245-248 | any base that occurs twice beside the same base followed by 2 gives that name twice |
| `Variants.RealKeysCanClash` | sensei-rs/crates/sensei-frontend/build.rs:245-248 | the keys a.b, a.b2 and a_b get the names AB, AB2 and AB2 |

## Left out

- Approval and policy checks: `PolicyEngine` is one boolean, `permitted`.
- Error texts: the executor's own messages are an enumeration; rendering an error to its stored JSON object and reading it back are parameters of the protocol. `validate_output` answers yes or no without its message.
- Status strings outside the seven of the state diagram, and rows written by anything but the five operations: a human's reconciliation of a row is not modelled.
- Tool name and `claimed_at` columns of a journal row, which no rule reads.
- Async mechanics: a dispatched command is a value, an error or the executor's timeout; a future dropped midway is a crash.
- SQL text and locking: each statement or transaction is one atomic step on the table.
- Serialization: entities are JSON values, so a serialization error before the transaction is not modelled.
- Loading, expiry and invalidation of the entity cache, and the NATS message: a guard's snapshot is arbitrary in the multi-replica results, so none of them rests on the cache.
- Budget.DefaultWithinMax: takes the 85, 10 and 5 percent shares as exact integer floors, because double arithmetic is not modelled; for 32-bit inputs the doubles 0.85, 0.10 and 0.05 are off by less than half a unit in the last place of a product that is a whole number, and by far less than the 1/100 that separates any other product from one, so the truncated products are these floors.
- Sensitivity parsing, semantic retrieval and site scope of context items: not read by the bundle builder.
- ContextKernel.EveryDisputedValueIsReported: says nothing of which lines are kept when the cap is too small, because groups that differ only in time come in hash-map order and one side may be dropped.
- EntityStore.RefusedGuardExact: takes nobody else to write the tenant's entries in this replica's memory during the guard's life, because the code orders such writers by a lock only; `EntityStore.DropAgreesIff` holds without it.
- Search.Query: relevance is a real number, because NaN cannot come out of the similarity function; text matching and the knowledge-pack validity gate are part of the given corpus.
- The HTTP search facade, indexing, and site-to-grant resolution.
- Postgres mode of the ticket store: one SQL statement each.
- Unicode upper-casing is a parameter of the variant names; the two module generators are string assembly.
- The rest of Rust's lexical grammar: the modelled lexer reads the five escapes the generator writes and takes every other character as itself.
- `evaluate_program` and model routing: arithmetic without an invariant worth stating.
- HTTP routing, middleware, bootstrap, telemetry, the desktop shell and the plain CRUD repositories.
