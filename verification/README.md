# Verified model of the generated-tool lifecycle and its companion protocols

The plugin lets a chat administrator have tools generated, reviewed, approved and activated. This
project models the parts of it on which that depends, and proves what they promise. It is written in
Dafny 4.11; `dafny verify dfyconfig.toml` checks all of it.

## The lifecycle

Drafts collect evidence (static validation, sandbox tests, model review) and are approved or rejected;
versions of a bundle are approved, activated, deprecated and archived; permission grants belong to
versions. `Lifecycle` holds the records and the conditions their constructors enforce,
`LifecycleCodec` the JSON documents, the state digest and the migration of schema-v2 documents,
`LifecyclePlans` the ten planners and compensation. `LifecyclePlanSafety` shows that no planner can
run into a constructor check, `LifecycleEvolution` what every plan keeps and leaves alone,
`LifecycleEffects` exactly what each request changes and when it is accepted, and `LifecycleRuns` what
holds over all runs of any number of processes that read, plan and commit by compare-and-swap.

`LifecycleDisk` is the disk under the store: one state file and the immutable version directories. It
knows both what a read returns and what may be there after a power loss, and every system call's answer
is an input. `LifecycleStore` is the durable store on it: temporary file, file sync, rename, directory
sync, read back. Every disk content on the way is kept, so that a process may die and the power may go
at any of them, and runs go on from there. `LifecycleCover` shows that the planners' plans meet the
condition under which no version directory is lost, and `LifecyclePaths` that drafts can go all the way:
what every planner refuses or keeps would mean little if nothing were accepted.

## The companions

`ReviewPages` splits a draft into pages whose header contains the number of pages. `AuditQueue` is the
lease queue of non-critical audit records, `Admission` the bounded gate with one active task a key,
`ClassificationCache` the short-lived single-flight cache with clear epochs, and `UsageFlush` the one
durable attempt for each usage record. `CallGraph` is the call-graph closure behind the AST policy,
`CostText` and `MetricsRegistry` the exact cost arithmetic and the cumulative histogram, `RunCursor` and
`RunPages` the listing of runs by cursor, and `Dispatch` the counters that decide whether a dispatched
call succeeded. `Wrappers`, `Text` and `Decimals` are shared helpers.

The protocols that suspend are modelled by one method for each stretch between two suspension points; a
task may be interleaved with any others between such calls.

## What turned out different

Five promises hold only under a condition; the members named below state it and show the case.

* A commit that returns normally is durable unless it is a no-op that publishes nothing while the current
  state's own directory sync had failed (`LifecycleStore.Store.CommitLifecyclePlan`,
  `LifecycleStore.NoOpConfirmsNothing`).
* A committed version's directory survives a power loss unless an earlier publication of it had failed
  in its last directory sync or its process was killed just before that sync: the retry reuses the
  directory without it (`LifecycleStore.Store.PublishVersion`, `LifecycleStore.RetriedPublishMayVanish`).
  Runs without such a failure are called steady, and keep every directory (`LifecycleStore.Store.Run`).
* Clearing the classification cache keeps older builds out of it, but a request made after the clear can
  still join such a build and get its answer (`ClassificationCache.MemoryCache.ResolveExact`,
  `ClassificationCache.JoinsOlderBuild`).
* A dispatch with output succeeds although a read-only call failed and was never recovered; the comment
  at `event_simulator.py:569-570` suggests otherwise (`Dispatch.UnrecoveredReadsChangeNothing`).
* A usage flush that answers true has recorded its batch unless the transaction's factory or body raised
  the clean-up error before any commit; then it has not. Plain cancellation tells nothing: it comes both
  from a cancelled body and from a confirmed commit with an interrupted clean-up
  (`UsageFlush.Runtime.PersistBatch`, `UsageFlush.Runtime.Execute`, `UsageFlush.FactoryForgesCleanup`,
  `UsageFlush.BodyForgesCleanup`, `UsageFlush.CancelledEitherWay`).

Several defensive branches are unreachable: the checks after pagination, the final comparison of the
cost text, the bucket and total overflow of a histogram, the withdrawal of a late cache publication, the
default in the admission gate's key count, the closing step of the non-waiting lease, and the outcome
"still in doubt" after a confirmed write was read again.

## Model

| member | source | states |
|---|---|---|
| Text.KeyRoundTrip | nonebot_plugin_moellmchats/generated_tool_lifecycle.py:465-480 | A permission key printed from valid parts parses to them, and only that key does |
| Text.PrefixIsVersion | nonebot_plugin_moellmchats/generated_tool_lifecycle.py:1516-1520 | The textual prefix filter selects exactly the keys whose bundle and digest are the version's |
| LifecycleCodec.EvidenceRoundTrip | nonebot_plugin_moellmchats/generated_tool_lifecycle.py:713-746 | Evidence decodes from its own document to itself |
| LifecycleCodec.DraftRoundTrip | nonebot_plugin_moellmchats/generated_tool_lifecycle.py:812-850 | A well-formed draft decodes from its own document to itself |
| LifecycleCodec.VersionRoundTrip | nonebot_plugin_moellmchats/generated_tool_lifecycle.py:853-885 | A well-formed version decodes from its own document to itself |
| LifecycleCodec.StateRoundTrip | nonebot_plugin_moellmchats/generated_tool_lifecycle.py:902-957 | Decoding inverts encoding on every well-formed state |
| LifecycleCodec.OnlyEncodingsDecode | nonebot_plugin_moellmchats/generated_tool_lifecycle.py:902-951 | Every document of the current schema that decodes is the encoding of its state, but for numbers written as integers or floats: unknown, missing or misplaced fields are refused |
| LifecycleCodec.DecodedIsWellFormed | nonebot_plugin_moellmchats/generated_tool_lifecycle.py:902-951 | Whatever document is decoded, a returned state is well formed |
| LifecycleCodec.MigratedEvidenceOk | nonebot_plugin_moellmchats/generated_tool_lifecycle.py:749-809 | Evidence made up for a schema-v2 draft satisfies every schema-v3 evidence rule, for every draft state |
| LifecycleCodec.LegacyDraftMigrates | nonebot_plugin_moellmchats/generated_tool_lifecycle.py:812-850 | A schema-v2 draft document decodes to the draft with its made-up evidence |
| LifecycleCodec.MigrationIsMarked | nonebot_plugin_moellmchats/generated_tool_lifecycle.py:749-809 | Every piece of evidence of a decoded schema-v2 draft is marked as migrated, has the draft's digest and last time, reviews are marked unverified, and there is exactly what the state requires |
| LifecycleCodec.LegacyStateMigrates | nonebot_plugin_moellmchats/generated_tool_lifecycle.py:902-951 | Every well-formed schema-v2 state document decodes, and what is then written reads back as the same state |
| LifecycleCodec.DigestSeparates | nonebot_plugin_moellmchats/generated_tool_lifecycle.py:578-580 | Two well-formed states have the same digest exactly when they are equal, revision included |
| LifecyclePlanSafety.MakePlanSound | nonebot_plugin_moellmchats/generated_tool_lifecycle.py:978-1009 | A plan made for a well-formed candidate is accepted by its constructor, is a no-op exactly when the content is unchanged, and otherwise raises the revision by one |
| LifecyclePlanSafety.PlannersNeverBreak | nonebot_plugin_moellmchats/generated_tool_lifecycle.py:1012-1524 | On every well-formed state and any arguments each planner refuses for a regular reason or returns a sound plan; no constructor check on the way can fail |
| LifecyclePlanSafety.RollbackPlansAsActivation | nonebot_plugin_moellmchats/generated_tool_lifecycle.py:1399-1447 | Rollback and activation give the same after state and digests or the same refusal, although rollback tests less |
| LifecyclePlanSafety.ArchiveDropsGrants | nonebot_plugin_moellmchats/generated_tool_lifecycle.py:1487-1524 | Archiving keeps a grant exactly when it is not for the archived version |
| LifecyclePlanSafety.RestoreSound | nonebot_plugin_moellmchats/generated_tool_lifecycle.py:1527-1559 | A compensation plan is sound, restores the snapshot's content and is only made for the exact pair of states of the failed plan |
| LifecyclePlanSafety.CompensationRestores | nonebot_plugin_moellmchats/generated_tool_lifecycle.py:1527-1559 | A changing plan followed by its compensation gives the content before, two revisions on |
| LifecyclePlanSafety.CompensationConflicts | nonebot_plugin_moellmchats/generated_tool_lifecycle.py:1539-1548 | Once any other state is current the compensation is refused as a conflict |
| LifecycleEvolution.PlansEvolve | nonebot_plugin_moellmchats/generated_tool_lifecycle.py:1012-1524 | Every plan moves drafts and versions only along their diagrams, deletes none, only appends evidence, and adds versions only for approved drafts with the same content |
| LifecycleEvolution.PlansFrame | nonebot_plugin_moellmchats/generated_tool_lifecycle.py:1012-1524 | A plan leaves all other drafts and all other bundles' versions, activation and grants as they were |
| LifecycleEvolution.PlansReach | nonebot_plugin_moellmchats/generated_tool_lifecycle.py:1012-1524 | An accepted request reaches the state it asks for |
| LifecycleEffects.ExactChange | nonebot_plugin_moellmchats/generated_tool_lifecycle.py:1012-1524 | One description for all requests of what every draft, version, running version and grant is after an accepted one; everything not named in it is unchanged |
| LifecycleEffects.AcceptedExactly | nonebot_plugin_moellmchats/generated_tool_lifecycle.py:1012-1524 | Any request is accepted exactly when what it asks for is already so, or the records' states allow it (a draft moves up one stage, fails the check it is at, or is rejected) and no record that changes has a later time; its plan is a no-op exactly in the first case |
| LifecycleRuns.RunsChain | nonebot_plugin_moellmchats/generated_tool_lifecycle.py:1903-1950 | With any interleaving of processes that read, plan, compensate and commit, the persisted states are well formed and form one chain of revisions, each made from its predecessor |
| LifecycleRuns.AtMostOneCommit | nonebot_plugin_moellmchats/generated_tool_lifecycle.py:1948-1950 | Of all changing plans made from one state at most one is ever persisted, and once |
| LifecycleRuns.StampBindsState | nonebot_plugin_moellmchats/generated_tool_lifecycle.py:636-669 | A review stamp of a draft is valid in exactly one lifecycle state |
| LifecycleRuns.ApprovalMeansUnchanged | nonebot_plugin_moellmchats/generated_tools.py:1533-1586 | An approval is persisted only if nothing at all was persisted since its stamp was shown |
| LifecycleRuns.NoUncheckedVersion | nonebot_plugin_moellmchats/generated_tool_lifecycle.py:1158-1368 | In every state of every run from the empty one, compensation included, each version has an approved draft with its bundle and digest that passed static validation, sandbox tests and model review |
| LifecycleRuns.RecordsInRuns | nonebot_plugin_moellmchats/generated_tool_lifecycle.py:164-440 | In every state of every run all evidence names its maker, is about the draft's very content and life span and has its state's outcome, the last check is the one the draft's state is about, and every version's times are in order |
| LifecycleRuns.DecisionsAreFinal | nonebot_plugin_moellmchats/generated_tool_lifecycle.py:1047-1524 | Without compensation approved and rejected drafts and archived versions never change again |
| LifecyclePaths.DraftGoes | nonebot_plugin_moellmchats/generated_tool_lifecycle.py:1012-1104 | From every well-formed state a new draft whose evidence passed can be recorded, validated, tested, reviewed and presented for approval |
| LifecyclePaths.PassedDraftRuns | nonebot_plugin_moellmchats/generated_tool_lifecycle.py:1276-1368 | It can then be approved and put into operation in one step, if its version is not archived and no version of its bundle has a later time |
| LifecyclePaths.DraftCanEnd | nonebot_plugin_moellmchats/generated_tool_lifecycle.py:1047-1104 | At every stage it can instead fail the check it is at or be rejected |
| LifecyclePaths.DraftCanBeRejected | nonebot_plugin_moellmchats/generated_tool_lifecycle.py:1107-1151 | The rejecting request is accepted at every stage |
| LifecyclePaths.ApprovalPreparedExactly | nonebot_plugin_moellmchats/generated_tools.py:1533-1586 | An approval is prepared exactly for a draft that waits for it, with at least eight characters of its hash and the stamp of this very state, when its version is usable and in time |
| LifecyclePaths.ReviewedDraftIsApproved | nonebot_plugin_moellmchats/generated_tools.py:1533-1586 | Whoever was shown a waiting draft can approve it with its stamp as long as nothing was persisted since |
| LifecyclePaths.RequestPersists | nonebot_plugin_moellmchats/generated_tool_lifecycle.py:1903-1950 | A plan made from the current state commits, and its after state is then current |
| LifecyclePaths.PlayIsARun | nonebot_plugin_moellmchats/generated_tool_lifecycle.py:1903-1950 | Whatever one process can plan and commit step by step happens in one of the runs of many processes |
| LifecyclePaths.FirstToolRuns | nonebot_plugin_moellmchats/generated_tool_lifecycle.py:1012-1368 | From the empty state a concrete small tool gets all the way to running |
| LifecycleCover.PlansCover | nonebot_plugin_moellmchats/generated_tools.py:1026-1051 | A planner's plan adds no version beyond the draft's one that its request publishes first |
| LifecycleCover.RestoringCovers | nonebot_plugin_moellmchats/generated_tool_lifecycle.py:1527-1559 | A compensation plan adds no version, so it needs no publication |
| LifecycleDisk.WriteFile | nonebot_plugin_moellmchats/generated_tool_lifecycle.py:1801-1807 | The write loop with short writes produces the whole content, synced, or reports failure, and which of the two is fixed by the system's answers |
| LifecycleDisk.Layout.LoadsBack | nonebot_plugin_moellmchats/generated_tool_lifecycle.py:1776-1784 | A state read from the file it was written to is that state |
| LifecycleStore.Store.SyncRoot | nonebot_plugin_moellmchats/generated_tool_lifecycle.py:1615-1625 | The directory sync succeeds exactly when one of three attempts does, and then no older file can come back |
| LifecycleStore.Store.WriteState | nonebot_plugin_moellmchats/generated_tool_lifecycle.py:1786-1850 | Each outcome fixes the disk before and after, arises exactly from stated answers, and every content the disk goes through is given: none loses the file or leaves a torn one |
| LifecycleStore.Store.PublishVersion | nonebot_plugin_moellmchats/generated_tool_lifecycle.py:1970-2023 | Exactly when publication succeeds, every content the disk goes through, and that a directory entry is left removable exactly when its last sync failed or it was so before |
| LifecycleStore.Store.Commit | nonebot_plugin_moellmchats/generated_tool_lifecycle.py:1903-1925 | A commit succeeds exactly under stated answers, extends the chain exactly when it replaced the file, and is durable on return except for a no-op without publication over an unconfirmed state; at every moment the new state is recoverable only after its version directory |
| LifecycleStore.Store.Settle | nonebot_plugin_moellmchats/generated_tools.py:1036-1051 | A confirmed write whose read-back failed is settled by reading again after other processes' commits and deaths: it succeeds exactly when the after state is still current, else is superseded, and never stays in doubt |
| LifecycleStore.Store.CommitLifecyclePlan | nonebot_plugin_moellmchats/generated_tools.py:1026-1051 | Which answer the caller gets, success included, by the current state and what every system call answered; on normal return the after state is current and everything older is gone for good, exactly when the plan changes something, publishes, or the state was confirmed before |
| LifecycleStore.Store.LosePower | nonebot_plugin_moellmchats/generated_tool_lifecycle.py:1786-1850 | A power loss leaves a well-formed state of the chain at or after the durable one, with all its version directories as long as attempts were careful |
| LifecycleStore.Store.Kill | nonebot_plugin_moellmchats/generated_tool_lifecycle.py:1903-1925 | A process killed after any number of the disk changes of its commit leaves exactly the disk content of that moment, the chain as it was or with exactly the after state, and a store that goes on |
| LifecycleStore.Store.Interrupt | nonebot_plugin_moellmchats/generated_tool_lifecycle.py:1903-1925 | The same when the power goes at that moment: what is read afterwards is a state at or after the durable one or exactly the after state |
| LifecycleStore.Store.Run | nonebot_plugin_moellmchats/generated_tool_lifecycle.py:1903-1925 | Over any sequence of commits, processes killed and power lost at any moment inside a commit or between, each event leaves the disk it should and a state that became durable stays in the chain; in steady runs no version directory of any state can be lost |
| LifecycleStore.Store.CommitAndGoOn | nonebot_plugin_moellmchats/generated_tools.py:1026-1051 | After a commit that changed or published something returns normally, whatever happens later the persisted state is its after state or a later one of the chain, with its version directories in steady runs |
| LifecycleStore.CrashDuringCommit | nonebot_plugin_moellmchats/generated_tool_lifecycle.py:1903-1925 | Losing power at any moment of a commit leaves a state that could come back before or exactly the after state, with all its version directories unless the published one was removable before |
| LifecycleStore.NoOpConfirmsNothing | nonebot_plugin_moellmchats/generated_tool_lifecycle.py:1916-1920 | For every changing plan: after its unconfirmed write a no-op plan commits normally and a power loss then brings the old state back |
| LifecycleStore.RetriedPublishMayVanish | nonebot_plugin_moellmchats/generated_tool_lifecycle.py:1983-1993 | For every plan with an unpublished version: a publication failing in its last sync, then a normal retry, then a power loss leave the state without the version's directory |
| ReviewPages.CutMonotone | nonebot_plugin_moellmchats/generated_tools.py:361-421 | More content or a wider total never needs fewer pages |
| ReviewPages.CutIs | nonebot_plugin_moellmchats/generated_tools.py:370-393 | The chunks make up the content, each fits beside its header, and all but the last fill the page |
| ReviewPages.Paginate | nonebot_plugin_moellmchats/generated_tools.py:361-421 | The total settles within one round more than the content's length has digits, so 64 rounds can fail only from 10^63 characters on; the later checks never fail; pages make up the content, every page but the last has exactly 1800 characters and the last no more; a header is too long only when the one with the largest numbers is |
| AuditQueue.StepOk | nonebot_plugin_moellmchats/audit_batch.py:266-359 | Every call keeps enqueue times sorted, the outstanding cap, and the accepted and acknowledged sequences growing |
| AuditQueue.RunsConserve | nonebot_plugin_moellmchats/audit_batch.py:266-359 | Over any sequence of calls accepted = acknowledged ++ leased ++ pending, and what is acknowledged is a growing prefix of what was accepted |
| AuditQueue.SeenFromOutside | nonebot_plugin_moellmchats/audit_batch.py:266-359 | Over any sequence of calls, told from the answers alone: the queue has accepted exactly the records whose put succeeded, in order, and what is acknowledged is exactly what the acknowledged leases showed |
| AuditQueue.AnswersAreRight | nonebot_plugin_moellmchats/audit_batch.py:225-359 | From a new queue every answer, leases and timeouts with their contents included, is the one its caller can work out from the calls and answers so far |
| AuditQueue.ReleasedComeFirst | nonebot_plugin_moellmchats/audit_batch.py:332-343 | Released records are the first of the next lease, whatever was put in meanwhile |
| AuditQueue.UnknownIsTerminal | nonebot_plugin_moellmchats/audit_batch.py:345-350 | After an unknown result no later call changes anything, so nothing is leased twice |
| AuditQueue.ClosedIsDrained | nonebot_plugin_moellmchats/audit_batch.py:262-264 | A closed queue has acknowledged all it accepted and stays so |
| AuditQueue.HeadSuffices | nonebot_plugin_moellmchats/audit_batch.py:225-232 | If any pending record is overdue the head is |
| AuditQueue.LeaseConstructs | nonebot_plugin_moellmchats/audit_batch.py:234-254 | The lease built from records already taken off the queue always passes its constructor |
| AuditQueue.TimeoutSuffices | nonebot_plugin_moellmchats/audit_batch.py:293-320 | A waiter is never told to wait while something is due, and finds a lease once its timeout has passed |
| AuditQueue.ClosingDrains | nonebot_plugin_moellmchats/audit_batch.py:293-359 | A closing queue is closed after as many lease and acknowledge rounds as it has batches |
| AuditQueue.Queue.PutOnce | nonebot_plugin_moellmchats/audit_batch.py:266-279 | One pass of put follows the ledger: waits, refuses or appends the record at the tail, where it stays until acknowledged (AuditQueue.SeenFromOutside) |
| AuditQueue.Queue.TakeLease | nonebot_plugin_moellmchats/audit_batch.py:234-254 | Popping the batch and building a new lease object follows the ledger |
| AuditQueue.Queue.TakeReady | nonebot_plugin_moellmchats/audit_batch.py:281-291 | A non-waiting lease follows the ledger; its closing step never does anything |
| AuditQueue.Queue.AwaitOnce | nonebot_plugin_moellmchats/audit_batch.py:293-320 | One pass of the waiting lease follows the ledger, with the timeout until the head is due |
| AuditQueue.Queue.AcknowledgeCommitted | nonebot_plugin_moellmchats/audit_batch.py:322-330 | Only the very lease object that is out can be acknowledged |
| AuditQueue.Queue.ReleaseUnwritten | nonebot_plugin_moellmchats/audit_batch.py:332-343 | Released records return to the front in their order |
| AuditQueue.Queue.MarkResultUnknown | nonebot_plugin_moellmchats/audit_batch.py:345-350 | Only the lease that is out can be marked, and marking is terminal |
| AuditQueue.Queue.Close | nonebot_plugin_moellmchats/audit_batch.py:352-359 | Closing follows the ledger |
| Admission.RunsSafe | nonebot_plugin_moellmchats/admission.py:59-128 | Over all interleavings, cancellation included: the caps hold, at most one task a key is active, and a parked task could not be activated |
| Admission.DeadlockFree | nonebot_plugin_moellmchats/admission.py:99-128 | With someone waiting and nobody active a waiting task can go on exactly when the gate admits any active task |
| Admission.RefusedOnlyAtACap | nonebot_plugin_moellmchats/admission.py:59-71 | An arrival is refused only when letting it wait would break the pending or the per-key cap |
| Admission.ParkedOnlyAtACap | nonebot_plugin_moellmchats/admission.py:99-121 | A task is parked only when activating it would break the active cap or the one active task of its key |
| Admission.LeaveKeys | nonebot_plugin_moellmchats/admission.py:73-97 | The count of a leaving task's key is there, so the default in the lookup is never used, and the counts stay exact |
| Admission.Controller.Reserve | nonebot_plugin_moellmchats/admission.py:59-71 | Admission is refused exactly at the pending or per-key cap; the counters stay the true task counts |
| Admission.Controller.TestCondition | nonebot_plugin_moellmchats/admission.py:99-121 | A task is activated exactly when the true counts allow it, otherwise it parks |
| Admission.Controller.Finish | nonebot_plugin_moellmchats/admission.py:73-97 | A finished or cancelled task leaves the counters at the true counts and wakes every waiter |
| Admission.Controller.Quiescent | nonebot_plugin_moellmchats/admission.py:46-57 | A gate that everyone has left is in its initial state |
| ClassificationCache.PoppingLeavesLive | nonebot_plugin_moellmchats/classification_cache.py:891-895 | Popping the expired keys one by one leaves exactly the live entries in order |
| ClassificationCache.NewestStays | nonebot_plugin_moellmchats/classification_cache.py:936-944 | The record just published is never the one evicted |
| ClassificationCache.MemoryCache.Prune | nonebot_plugin_moellmchats/classification_cache.py:891-895 | Pruning leaves the live entries and the exact byte total |
| ClassificationCache.MemoryCache.Evict | nonebot_plugin_moellmchats/classification_cache.py:897-900 | Eviction keeps exactly the longest recency suffix within both caps |
| ClassificationCache.MemoryCache.Lookup | nonebot_plugin_moellmchats/classification_cache.py:902-916 | A hit is the unexpired record stored under exactly this key, which becomes the most recent |
| ClassificationCache.MemoryCache.Publish | nonebot_plugin_moellmchats/classification_cache.py:918-944 | While a record of the key is alive it stays and a different one conflicts; otherwise the new record is stored last and the longest fitting suffix kept |
| ClassificationCache.MemoryCache.ResolveExact | nonebot_plugin_moellmchats/classification_cache.py:1020-1047 | A miss joins the key's one unfinished flight or starts it; its build began after the last clear exactly when no flight of the key was left from before |
| ClassificationCache.MemoryCache.FinishFlight | nonebot_plugin_moellmchats/classification_cache.py:946-993 | The end of a flight does not suspend, stores nothing when a clear came after its start, and gives all waiters one outcome: a build of the current epoch is stored and returned, or returns the same live record, or the other live record that it finds again, and otherwise fails for the stated reason |
| ClassificationCache.MemoryCache.DiscardIfOwnPublish | nonebot_plugin_moellmchats/classification_cache.py:995-1009 | The withdrawal of a record published under an older epoch finds none in any reachable state: table and byte total stay |
| ClassificationCache.MemoryCache.Clear | nonebot_plugin_moellmchats/classification_cache.py:1049-1055 | Clearing empties the table and starts a new epoch |
| ClassificationCache.JoinsOlderBuild | nonebot_plugin_moellmchats/classification_cache.py:1020-1055 | A request made after a clear may join a build begun before it and get its record, which is then not stored |
| ClassificationCache.Run | nonebot_plugin_moellmchats/classification_cache.py:902-1055 | Over any interleaving of requests, publications, clears and ends of builds a key has at most one unfinished build, builds told to end have ended, outcomes and what a request waits for never change, and the table's history is lawful |
| ClassificationCache.TableIs | nonebot_plugin_moellmchats/classification_cache.py:902-1055 | In a lawful history an entry is in the table exactly when it was stored and nothing since expired, evicted, cleared or replaced it |
| ClassificationCache.ServedIsFirst | nonebot_plugin_moellmchats/classification_cache.py:902-944 | What is served, or stays when another record is offered, is the record stored when the key was last absent, since the last clear, and has not expired |
| ClassificationCache.StoredWhenAbsent | nonebot_plugin_moellmchats/classification_cache.py:929-944 | A record is stored only while the key has no live entry, so the first published one stays |
| UsageFlush.Runtime.Execute | nonebot_plugin_moellmchats/agent_context_runtime.py:516-595 | A clean-up error means applied, and an unknown commit means that the commit was reached, exactly unless the factory or the body raised such a class before any commit; plain cancellation means applied exactly when the commit was reached; every other exception means not applied |
| UsageFlush.Runtime.TakeBatch | nonebot_plugin_moellmchats/agent_context_runtime.py:1541-1547 | The batch leaves the pending list before its one attempt |
| UsageFlush.Runtime.PersistBatch | nonebot_plugin_moellmchats/agent_context_runtime.py:1068-1097 | The answer and both stores by what the driver and the spool did: the batch goes whole to the database, to the spool or nowhere, to the spool only after a definite failure; a true answer means recorded exactly unless a clean-up error came before any commit, and then it means not recorded |
| UsageFlush.Runtime.AtMostOnce | nonebot_plugin_moellmchats/agent_context_runtime.py:1497-1548 | No record is recorded twice in database and spool together, nor before its attempt ended |
| UsageFlush.Runtime.Run | nonebot_plugin_moellmchats/agent_context_runtime.py:1068-1097 | This holds over any interleaving of captures and flushes that end in any order and any way, and the records pending and in flight are as many as the events say |
| UsageFlush.FactoryForgesCleanup | nonebot_plugin_moellmchats/agent_context_runtime.py:698-712 | A clean-up error from the transaction factory: the flush answers true and nothing is recorded |
| UsageFlush.BodyForgesCleanup | nonebot_plugin_moellmchats/agent_context_runtime.py:551-560 | The same with the clean-up error raised inside the transaction |
| UsageFlush.CancelledEitherWay | nonebot_plugin_moellmchats/agent_context_runtime.py:540-589 | Of two transactions that both end in plain cancellation one was applied and one was not |
| CallGraph.CollectReachable | nonebot_plugin_moellmchats/ast_policy.py:1415-1438 | The worklist ends; without a limit it returns exactly the reachable functions, each by a chain of at most 32 and at most 256 of them; a limit means a longer chain of distinct functions or more functions |
| CallGraph.Materialize | nonebot_plugin_moellmchats/ast_policy.py:511-536 | Findings have distinct keys, each made from the first template of its key, one for every template's key |
| CallGraph.SameBlocking | nonebot_plugin_moellmchats/ast_policy.py:511-536 | De-duplication that ignores the decision changes nothing about whether something blocks, because the code fixes the decision |
| CallGraph.HandlerReport | nonebot_plugin_moellmchats/ast_policy.py:1487-1551 | A handler is allowed exactly when it exists, no search hit a limit and no finding at module level or reachable is denied or needs a capability that is not granted; the findings shown are those; its effect is mutating only when something reachable is, and exactly then short of a limit; too many reachable functions always hit the limit, which otherwise takes a chain of distinct functions that is too deep |
| CallGraph.MoreCapabilitiesPermitMore | nonebot_plugin_moellmchats/ast_policy.py:515-523 | Granting more capabilities never turns an allowed handler into a refused one |
| CostText.CostToUnits | nonebot_plugin_moellmchats/full_metrics.py:120-145 | Accepts exactly the non-negative decimals below 10^12 that are whole numbers of 10^-12, and returns that number |
| CostText.NormalizeCost | nonebot_plugin_moellmchats/model_usage.py:62-83 | Accepts exactly the decimals that the metrics conversion accepts |
| CostText.MatchesAreCanonical | nonebot_plugin_moellmchats/full_metrics.py:157-168 | The final comparison of the text parser never fails |
| CostText.UnitsRoundTrip | nonebot_plugin_moellmchats/full_metrics.py:148-168 | The text of every amount in range parses to that amount |
| CostText.AcceptedTexts | nonebot_plugin_moellmchats/full_metrics.py:148-168 | The accepted texts are exactly the texts of amounts in range, and each prints back as itself |
| CostText.TextMeansUnits | nonebot_plugin_moellmchats/full_metrics.py:157-168 | Reading a text gives exactly the units that the metrics conversion gives for the decimal the text is written for |
| MetricsRegistry.Registry.ObserveDuration | nonebot_plugin_moellmchats/full_metrics.py:434-459 | After any observations bucket i counts exactly those up to bound i; only a full counter overflows, and then nothing changes |
| MetricsRegistry.Registry.ObserveUsage | nonebot_plugin_moellmchats/full_metrics.py:478-496 | Tokens and cost of a record are added together or not at all |
| MetricsRegistry.CountsAccumulate | nonebot_plugin_moellmchats/full_metrics.py:434-459 | Buckets of wider bounds count no less |
| RunCursor.RoundTrip64 | nonebot_plugin_moellmchats/agent_run_api.py:269-277 | Unpadded base64url decodes to the encoded bytes, for every byte string |
| RunCursor.SharedBytes | nonebot_plugin_moellmchats/agent_run_api.py:297-303 | Two tokens decode to the same bytes exactly when they agree but for the unused bits of the last character, and a token is the encoding of its bytes exactly when those bits are zero |
| RunCursor.HexMeansValue | nonebot_plugin_moellmchats/agent_run_api.py:262-266 | The hexadecimal text of a time denotes the value of its bit pattern as a double |
| RunCursor.DecodeEncode | nonebot_plugin_moellmchats/agent_run_api.py:269-337 | Every cursor survives the round trip through its token |
| RunCursor.TokensAreCanonical | nonebot_plugin_moellmchats/agent_run_api.py:334-337 | A token decodes to a cursor exactly when it is that cursor's own encoding, so tokens and cursors correspond one to one |
| RunPages.ValidatePage | nonebot_plugin_moellmchats/agent_run_api.py:446-465 | The neighbour-by-neighbour check accepts exactly the pages that are bounded, strictly descending and older than the anchor |
| RunPages.DescendingHasNoDuplicates | nonebot_plugin_moellmchats/agent_run_api.py:446-465 | A descending page holds no run twice |
| RunPages.NewestFirst | nonebot_plugin_moellmchats/agent_run_api.py:446-465 | The listing order is later start first, and falling ids among equal starts |
| RunPages.ReadPage | nonebot_plugin_moellmchats/agent_run_api.py:512-540 | A page has the first runs up to the limit, and a cursor decoding to its last run exactly when more were read |
| RunPages.FollowAll | nonebot_plugin_moellmchats/agent_run_api.py:512-540 | With any page sizes the cursors lead through every run exactly once, newest first, and end |
| Dispatch.CountsRelate | nonebot_plugin_moellmchats/event_simulator.py:308-327 | Failures are read failures or unresolved; unknown results beyond the unresolved ones are read failures |
| Dispatch.SuccessIsTruthful | nonebot_plugin_moellmchats/event_simulator.py:604-621 | A success verdict is given exactly when there is output or a mutating effect, no matcher failed and every failed call was read-only |
| Dispatch.EveryStatus | nonebot_plugin_moellmchats/event_simulator.py:604-621 | Each status of a run that was not forced, as a condition on the calls alone |
| Dispatch.ForcedStatus | nonebot_plugin_moellmchats/event_simulator.py:592-603 | A forced status is changed only to partial success when the calls had an effect, or to unknown when one of them is unknown |
| Dispatch.UnrecoveredReadsChangeNothing | nonebot_plugin_moellmchats/event_simulator.py:569-621 | Beside an effect any number of further failed reads leaves the verdict as it is, though all of them stay unrecovered |
| Dispatch.AwaitingIsWorstExcess | nonebot_plugin_moellmchats/event_simulator.py:308-331 | The reads still waiting for recovery are as many as failed reads outnumber later successful ones in the end stretch where they do most |
| Dispatch.AwaitingAtMostFailed | nonebot_plugin_moellmchats/event_simulator.py:308-331 | Waiting reads are failed ones, and the others, the recovered ones, are no more than the successful reads |
| Dispatch.Context.ConfirmOutgoing | nonebot_plugin_moellmchats/event_simulator.py:287-334 | The counters count the finished calls by effect and outcome; the reads that wait and those recovered are exactly what the sequence of calls that ended in their hooks determines |
| Dispatch.Context.DispatchResult | nonebot_plugin_moellmchats/event_simulator.py:548-645 | Every defensive minimum and maximum equals the plain counter, the status is the verdict about the calls, pending ones counted as unknown, and the recovered reads are the failed ones that do not wait |

## Left out

- Digests: SHA-256, of states and of review stamps, is an injective constructor, and `hmac`-style constant-time comparison is equality.
- JSON text: the text layout, number formatting, negative zero, lone surrogates, duplicate keys and the 16 MiB limit are not modelled; documents are JSON values, and a parser that undoes the layout is a parameter of the store (`LifecycleDisk.LayoutExists` gives one). A schema version that is not a number is not modelled.
- Time: timestamps and clocks are exact reals or ordered naturals; float rounding, for example of a due time or a duration total, is not modelled.
- LifecycleStore.Store.constructor: starts with a state file and its version directories present; creating the first file by migrating `active.json`, draft metadata and permission files is not modelled, nor is the directory sync done when the lock file is first created.
- LifecycleStore.Store.Commit: the exclusive lock, which the system takes back from a killed process, is a whole method call; lock timeouts, file modes, owners, symbolic links and the read-only entry points are not modelled.
- LifecycleStore.Store.PublishVersion: a version directory is visible or not and complete; reading its files back and the permission bits are answers of the system.
- LifecycleRuns.ApprovalMeansUnchanged: the draft's files are taken to match its record, and the short hash comes in lower case; the check of the files is not modelled.
- Plans: the payload an operation carries, `compare_and_swap` beside plans, and the projections to the old files are not modelled.
- ReviewPages.Paginate: the header is any text before and after the two numbers; its fields and the stamp are not spelled out.
- AuditQueue.Queue.PutOnce: one pass between two waits; the condition variable, process and event loop ownership are not modelled.
- Admission.Controller.Finish: releasing is uninterruptible; a second cancellation while the release waits for its lock is not modelled. Metrics are left out.
- ClassificationCache.MemoryCache.FinishFlight: the builder's result is an input, and cancellation of the flight's own task at loop shutdown is not modelled. A cancelled waiter only stops waiting, which changes nothing in the cache. Key and record validation and the bytes of a record are inputs.
- UsageFlush.Runtime.PersistBatch: what the spool later does with its records is not modelled; run transitions, messages and summaries are not part of this model.
- CallGraph.HandlerReport: the visitor's rules are not modelled, a scope comes as findings, effect and calls, and that a finding's code fixes its decision is assumed of it; sorting the findings for display is left out.
- CostText.CostToUnits: values that are not decimals are refused before the model starts.
- MetricsRegistry.Registry.ObserveDuration: one histogram stands for the five; locking, snapshots and the remaining counters are left out.
- RunPages.FollowAll: the reader is assumed to return the newest runs older than the anchor, which its documented contract does not say; without that, only order and absence of repetition within each page follow. The set of runs is fixed.
- RunCursor.DecodeEncode: the JSON parser and the parser of hexadecimal floats are parameters of which only is used that they undo the printing of cursors (`RunCursor.LibraryExists` gives such parsers); a time is the bit pattern of a finite double without its sign, so negative times and negative zero are not modelled.
- Dispatch.Context.DispatchResult: texts and images of a message are one output; durations and matcher bookkeeping other than matched and failed are left out.
- Everything else: matchers, command parsing, model providers, the sandbox, database schemas and the web endpoints are not part of this model.
