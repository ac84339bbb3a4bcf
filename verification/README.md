# Verification of the multi-tenant workflow platform

A Dafny model of the platform's stateful core, with proofs of what it keeps: the audit log's
hash chain, tenant-scoped transactions, the life of jobs, logs and tenants, the stores of
encrypted secrets, and the webhook's replay window. `dafny verify dfyconfig.toml` checks it.

## How it is built

**The audit log by itself.** `UuidText` and `AuditPreimage` are the text that is hashed and a
parser for it. `AuditChain` is chains of linked rows under any hash function of a previous
hash and an event; `TamperEvidence` puts the database's own function in. The digest is any
function from texts to 64 hexadecimal characters; it is nowhere assumed to be injective, and
the alternative to each conclusion is a computed pair of different texts with one digest.
`ReachableLogs` applies it to the log of any database that a run of the system leads to.
`AuditOrder` is `ORDER BY tenant_id, occurred_at, id`. `AuditTrail` holds the class with the
trigger, the backfill's loop and the archive job's two statements; `AuditLaws` and `Archive`
say how they fit together.

**The whole system as one state machine.** `Database` is the rows of the ten tables, the row
policies, and the statements. `Cluster` interleaves any number of transactions of the gateway,
the vault, the worker and the erasure function on one store, statement by statement, together
with the job queue and pruning. Statements read committed rows with their own transaction's
changes over them, wait for keys that another transaction has changed, and check the foreign
keys to `tenants`. `ClusterInvariant` and `ErasureSafety`, `JobLifecycle`, `JobEnding`,
`WorkflowIntegrity`, `JobAccounting`, `AuditForest`, `AuditPath`, `AuditCommits`, `Retention`,
`Isolation` and `PruneVisibility` prove properties of every run. `Handlers` gives the
statements of every handler, shows that they are the ones the runs are made of, and what each
handler reads and leaves.

**Programs as they are written.** `Gateway` is `withTenant` on a client object, and the
interleaved calls that share the pool's one connection. `WorkerProcess` is the worker's job
function on such a client, and its agreement with the uninterrupted steps of `Cluster`.
`Maintenance` is the erasure function and the pruning function. `Webhook`, `Vault` and `OAuth`
are classes whose methods follow the handlers; `Cipher` is the framing of stored secrets.

## Assumptions

- `now()` is the start of the transaction, so `occurred_at` can tie, and can commit out of order.
- `occurred_at::TEXT` has one fixed time zone and style with four-digit years, so its ninth
  character is no dash; where the chain's rows are concluded to be equal it is also injective.
- Nothing breaks ties in the trigger's query, so any of the tied rows may be the one it links
  to (`db/migrations/010_audit_hash_chain.sql:46-47`). The backfill breaks ties by id.
- The trigger can read `audit_log`. The grants shown give `app_user` INSERT only
  (`db/migrations/003_roles.sql:13-15`) and the trigger function is not SECURITY DEFINER. The
  row policy is taken to apply to its query.
- No migration creates `credential_rotation_audit`; its columns are those of
  `services/credential-vault/src/vault.routes.ts:257-262`, and it is assumed to refer to
  `tenants` like every other table, and to have no row policy.
- Ids, nonces, clock readings and the trigger's choice are inputs of the steps. A credential id
  is never generated twice (used by `Vault.RotatedIffAudited` only).
- A statement is atomic, a failed statement loses its transaction, and ROLLBACK succeeds. An
  acknowledgement of the worker's COMMIT can get lost; that is an input (`acked`).
- Of AES-GCM, base64 and HMAC only the laws in `Cipher.Sound` are used; none of UTF-8, so a
  secret reads back as what UTF-8 leaves of it (`Cipher.Readable`).
- `generation` of an audit entry, `commits`, `lostAcks`, `pruned`, `committed` and `acquired`
  are history: no behaviour depends on them.

## What the proofs found

- The hashed text is unambiguous for the four action and resource pairs the application writes
  and ambiguous in general: `AuditPreimage.EncodeInjective`, `EncodeAmbiguous`.
- The chain does not cover a row's id, address, user agent and archive mark:
  `TamperEvidence.UncoveredColumns`.
- An insert of any time keeps a verified chain verified exactly if the trigger linked the new
  row to the one before its place in (time, id) order and, when rows come after it there, the
  row hashes to the very hash it is linked to: `AuditLaws.VerifiedAfterInsert`. Whether every
  row the query may return does is told by the latest rows' hashes and the place:
  `AuditLaws.EveryPickVerifiesIff`, `TieForksChain`. Backfill and insert may change places under
  the same condition: `AuditLaws.InsertCommutesWithBackfill`.
- Concurrent transactions fork a tenant's chain: `AuditCommits.ConcurrentInsertsFork` is such a
  run from any fresh database. A run in which the transactions commit in the order of their
  entries leaves a chain that verifies exactly if every commit went on from the log's end:
  `AuditCommits.LogVerifiesIff`. The log never leaves the forest: `AuditForest.LogIsForest`;
  without concurrency and ties it is one path: `AuditPath.SerialLogIsPath`.
- A prune waits for open erasures, of any tenant, that have deleted an expired log, and for
  nothing else: `Retention.PruneWaitsForErasures`. So a tenant's expired logs can outlive a
  prune because of another tenant's erasure, and from any fresh database with two tenants a
  legal run leads there; this is the one thing of another tenant's that a tenant can see:
  `PruneVisibility.PruneShowsOthers`, `OthersAreErasures`, `WaitingPrune`.
- The webhook's window of 600 seconds holds between any two accepted deliveries of an id exactly
  for the clocks that never come back into a window whose end they have passed:
  `Webhook.WindowKeptIff`. A clock that never goes back is one of them:
  `Webhook.ForwardClockNeverComesBack`.
- An archive run loses a row from the files exactly if a row is inserted between its two
  statements: `Archive.GapLosesRows`.
- `docs/data-flow.md:16` says that tenant administrators manage TTL policies. The worker does
  not look at the stored settings: every log it writes expires after 30 days
  (`WorkflowIntegrity.RunKeepsRows`). The model follows the code, and so do the retention results.

## Model

| member | source | states |
|---|---|---|
| UuidText.ReadText | db/migrations/010_audit_hash_chain.sql:23-27 | the text of every UUID, as `::TEXT` gives it, reads back to that UUID |
| UuidText.TextRead | db/migrations/010_audit_hash_chain.sql:23-27 | only texts of UUIDs are read as UUIDs |
| UuidText.TextForm | db/migrations/010_audit_hash_chain.sql:23-27 | the text's characters one by one: dashes at four places, else the lower-case hexadecimal digits from the highest to the lowest |
| AuditPreimage.ParseEncode | db/migrations/010_audit_hash_chain.sql:20-29 | the joined text of any row the application writes parses back to all seven columns, with or without previous hash, actor and resource id |
| AuditPreimage.EncodeParse | db/migrations/010_audit_hash_chain.sql:20-29 | every text the parser accepts is the joined text of the row it returns |
| AuditPreimage.EncodeInjective | db/migrations/010_audit_hash_chain.sql:20-29 | two written rows have one text if and only if they agree in every hashed column |
| AuditPreimage.EncodeAmbiguous | db/migrations/010_audit_hash_chain.sql:25-26 | for arbitrary action and resource texts, rows alike in the other columns share a text if and only if the two texts join to the same |
| AuditPreimage.EncodeAmbiguousWitness | db/migrations/010_audit_hash_chain.sql:25-26 | a concrete pair of different rows with one text |
| TamperEvidence.HashedText | db/migrations/010_audit_hash_chain.sql:20-32 | what is hashed for a written row is the text of its columns in their order, and each column of the event can be read back from it |
| AuditChain.VerifiedSnoc | db/migrations/010_audit_hash_chain.sql:49-59 | a chain extended by a row verifies if and only if it did before and the row is linked to its head with its own hash |
| AuditChain.VerifiedJoin | db/migrations/010_audit_hash_chain.sql:49-59 | two parts make a chain that verifies if and only if the first does and the second goes on from its head |
| AuditChain.RehashVerified | scripts/backfill-audit-hashes.sql:13-34 | linking rows one after the other makes a verified chain of any rows and changes nothing but the two hashes |
| AuditChain.VerifiedIffRehashFixed | scripts/backfill-audit-hashes.sql:13-34 | a chain verifies if and only if rebuilding it changes nothing |
| TamperEvidence.TamperEvidence | db/migrations/010_audit_hash_chain.sql:8-33 | two verified chains of any lengths with one head hash hold the same records in the same order, or a computed pair of different texts has one digest |
| TamperEvidence.UncoveredColumns | db/migrations/010_audit_hash_chain.sql:8-16 | rows that agree in the hashed columns and the hashes verify alike, whatever their id, address, user agent and archive mark |
| TamperEvidence.HeadIdentifiesChain | db/migrations/010_audit_hash_chain.sql:20-32 | if the rows' texts do not collide, head hashes are equal if and only if the records are |
| ReachableLogs.LogsAreWritten | db/migrations/010_audit_hash_chain.sql:42-59 | in every reachable state every row of every log is of a kind whose text can be read back |
| ReachableLogs.ReachableTamperEvidence | db/migrations/010_audit_hash_chain.sql:8-33 | if a tenant's logs in the states of any two runs verify and have one head, they hold the same records in the same order, or two computed different texts have one digest |
| AuditTrail.AuditTrail.Insert | db/migrations/010_audit_hash_chain.sql:35-62 | an insert adds the event's row with the picked row's hash, its own hash and no archive mark, and fails without effect if and only if the key is taken |
| AuditTrail.AuditTrail.Backfill | scripts/backfill-audit-hashes.sql:8-35 | one loop over all tenants with two shared variables rebuilds every tenant's chain as its own fold would, and changes no other column |
| AuditTrail.AuditTrail.Export | scripts/archive-audit-log.ps1:13-28 | the file has one line for every unarchived row, in the query's order, with all its columns but the address and the user agent |
| AuditTrail.AuditTrail.MarkArchived | scripts/archive-audit-log.ps1:35-39 | every row that was not archived is marked with the time of the statement, and rows archived before keep their mark |
| AuditLaws.BackfillRepairs | scripts/backfill-audit-hashes.sql:8-35 | from any table, with missing hashes, forks and ties, one pass leaves one verified chain for every tenant |
| AuditLaws.BackfillFixedPoints | scripts/backfill-audit-hashes.sql:8-35 | a backfill leaves a table alone if and only if every tenant's chain verifies |
| AuditLaws.BackfillDetermined | scripts/backfill-audit-hashes.sql:8-35 | the result does not depend on the hashes the table had |
| AuditLaws.BackfillIdempotent | scripts/backfill-audit-hashes.sql:8-35 | a second pass changes nothing |
| AuditLaws.InsertKeepsChains | db/migrations/010_audit_hash_chain.sql:42-59 | a strictly later insert keeps every tenant's chain verified and free of ties |
| AuditLaws.ReplayVerified | db/migrations/010_audit_hash_chain.sql:35-62 | any interleaving of tenants' serial inserts with increasing times builds a verified chain for each |
| AuditLaws.TriggerAgreesWithBackfill | scripts/backfill-audit-hashes.sql:8-35 | such a log is the only result of backfilling it |
| AuditLaws.BackfillAfterInsert | scripts/backfill-audit-hashes.sql:8-35 | inserting and then backfilling is backfilling and then putting the row at the end, whatever the trigger picked |
| AuditLaws.InsertCommutesWithBackfill | scripts/backfill-audit-hashes.sql:8-35 | from any table and for any time, backfill then insert equals insert then backfill if and only if the insert keeps the rebuilt chain |
| AuditLaws.InsertCommutesWithoutTie | scripts/backfill-audit-hashes.sql:8-35 | it does whenever the event is later than its tenant's rows and their latest time is not shared |
| AuditLaws.InsertVerifiedIff | db/migrations/010_audit_hash_chain.sql:42-59 | after an insert of any time into any table the tenant's chain verifies if and only if the rows before the new one's place do, the picked row carries the last one's hash, and the rows after it are linked to the new one |
| AuditLaws.VerifiedAfterInsert | db/migrations/010_audit_hash_chain.sql:42-59 | from a verified chain, it verifies if and only if the picked row carries the hash before that place and, if rows come after it, the new row's own hash is that hash |
| AuditLaws.EveryPickVerifiesIff | db/migrations/010_audit_hash_chain.sql:42-47 | from a verified chain and for any time, every row the trigger's query may return leaves it verified if and only if all rows with the tenant's latest time carry one hash and the new row comes last, or comes earlier with that hash before it and as its own |
| AuditLaws.TieForksChain | db/migrations/010_audit_hash_chain.sql:42-47 | three inserts whose picks the query allows: after two rows with one time, the third linked to the first leaves a chain that verifies if and only if the two rows' hashes are equal |
| Archive.ArchivedExactlyOnce | scripts/archive-audit-log.ps1:13-39 | over every run of inserts, with whatever times, and archive jobs, every archived row is on exactly one line of exactly one file, as it is in the table, and no other row is on any |
| Archive.ArchivesPartition | scripts/archive-audit-log.ps1:13-39 | if the inserts come in the order of their times, the files put together are the archived rows in order |
| Archive.ArchivedChainsVerify | scripts/archive-audit-log.ps1:13-39 | if a tenant's own times increase, its lines are a verified prefix of its chain, whatever the other tenants' times |
| Archive.GapLosesRows | scripts/archive-audit-log.ps1:13-39 | with inserts between export and mark, some archived row is in no file if and only if there were any |
| Database.IssuedChanges | db/migrations/002_rls.sql:19-41 | a statement of the services changes rows of the set tenant only, none that another transaction holds, inserts only while the tenant exists, and deletes credentials only; it writes its own row, under its own key or id |
| Database.SelectReturns | services/api-gateway/src/routes/executions.routes.ts:50-68 | a read returns exactly the stored rows of the table that the policy lets through and that have the id asked for |
| Database.UpdateChanges | services/credential-vault/src/vault.routes.ts:240-248 | an update by id gives exactly these rows the new columns and counts them, or waits if one of them is held |
| Database.DeleteChanges | services/credential-vault/src/vault.routes.ts:302-305 | a delete by id takes exactly these rows, or waits likewise |
| Database.InsertAdds | db/migrations/001_init.sql:12-80 | an insert adds this one row if and only if the policy allows it, the key is free and the tenant exists, and waits if another transaction has changed either |
| Database.UpsertWrites | services/api-gateway/src/routes/admin.routes.ts:91-112 | settings are inserted if there are none, and else replaced or left, as the statement says |
| Database.AuditInsertAdds | db/migrations/010_audit_hash_chain.sql:35-62 | an audit insert of the tenant's own adds the trigger's row, with the transaction's start as its time, if and only if the key is free and the tenant exists |
| Database.AuditColumns | db/migrations/010_audit_hash_chain.sql:42-59 | that row has the event's columns, the picked row's hash, and the hash that both give |
| Cluster.TransactionsEnd | services/api-gateway/src/db.ts:29-37 | a commit makes exactly the transaction's changes the store's, a rollback none, and neither touches another transaction |
| Database.AuditInserted | db/migrations/010_audit_hash_chain.sql:35-62 | an audit insert that has any effect is the set tenant's own, linked to a latest of all its entries, under a free key |
| ClusterInvariant.SealedChangesNothing | db/migrations/008_gdpr_erasure.sql:82-88 | once an erasure has deleted the tenant's row, the tenant's other transactions can change nothing |
| ClusterInvariant.EraseTenantSeals | db/migrations/008_gdpr_erasure.sql:82-88 | the delete of the tenant's row goes through only when every committed row of the tenant is deleted and no uncommitted one is left elsewhere |
| ErasureSafety.StepKeepsSafe | db/migrations/001_init.sql:12-80 | every step of every actor keeps the foreign keys to `tenants`, the locks' disjointness and the transactions' confinement to their tenant |
| ErasureSafety.RunKeepsSafe | db/migrations/001_init.sql:12-80 | so does every run |
| ErasureSafety.ErasureIsComplete | db/migrations/008_gdpr_erasure.sql:9-89 | a committed erasure has removed the tenant's rows from all ten tables and no other row |
| ErasureSafety.ErasureIsPermanent | db/migrations/008_gdpr_erasure.sql:9-89 | no later state of any run holds a row of an erased tenant, under any interleaving with requests, queued jobs and retries |
| ErasureSafety.RaceHasOneWinner | db/migrations/008_gdpr_erasure.sql:82-88 | an erasure ready to commit leaves a racing transaction of its tenant, of the gateway, the vault or the worker, nothing to commit and no statement that changes anything |
| ErasureSafety.WaitingInsertFails | services/api-gateway/src/db.ts:14-38 | a row, an audit entry or settings that were to be added while the erasure was open fail once it has committed, and their transaction is gone |
| ErasureSafety.WaitingAttemptFails | services/task-orchestrator/src/workers/workflow.worker.ts:58-78 | so does the worker's, and its attempt counts as failed |
| ErasureSafety.LeftoverStopsErasure | db/migrations/008_gdpr_erasure.sql:82-88 | an insert that came first makes the erasure wait, or fail as a whole |
| JobLifecycle.StepKeepsJobs | services/task-orchestrator/src/queues/workflow.queue.ts:16-26 | every step keeps the jobs' counters consistent and at most one transaction at work on a job |
| JobLifecycle.AttemptsBounded | services/task-orchestrator/src/queues/workflow.queue.ts:16-26 | in every run a job makes at most three attempts and is given up after the third only; with no lost acknowledgement it commits exactly once if it is completed and never otherwise |
| JobLifecycle.WorkerStepsAreFinite | services/task-orchestrator/src/workers/workflow.worker.ts:28-110 | every effective step of a worker shrinks the measure of its job, attempts left and position in the transaction |
| JobEnding.StepKeepsActive | services/task-orchestrator/src/workers/workflow.worker.ts:28-112 | every step keeps that an active job has a transaction at work on it |
| JobEnding.StuckIffEnded | services/task-orchestrator/src/queues/workflow.queue.ts:16-26 | a job for which no legal step does anything is completed or dead, and conversely |
| JobEnding.JobsEnd | services/task-orchestrator/src/queues/workflow.queue.ts:16-26 | no run does more than fifteen steps for a job, whatever else is interleaved, and a run can do no more for it if and only if it has left it completed or dead |
| WorkflowIntegrity.StepKeepsRows | services/task-orchestrator/src/workers/workflow.worker.ts:45-98 | every step keeps, for committed and for pending rows, that an execution's workflow exists and that it expires 30 days after its start |
| WorkflowIntegrity.RunKeepsRows | services/task-orchestrator/src/workers/workflow.worker.ts:45-98 | so does every run |
| WorkflowIntegrity.ExecutionsHaveWorkflows | services/task-orchestrator/src/workers/workflow.worker.ts:45-78 | in every reachable state each execution's workflow exists in the execution's tenant, although nothing refers to it |
| WorkflowIntegrity.ErasedTenantsJobsFail | services/task-orchestrator/src/workers/workflow.worker.ts:45-56 | an erased tenant's queued job finds no workflow, and none of its attempts is past its inserts |
| JobAccounting.BooksBalance | services/task-orchestrator/src/workers/workflow.worker.ts:58-100 | after every run, for every tenant that exists, execution rows plus pruned rows, `workflow.executed` entries and committed attempts are equally many |
| JobAccounting.CommitsPerJob | services/task-orchestrator/src/queues/workflow.queue.ts:16-26 | a job that lost no acknowledgement is in the history of commits once if it is completed and not at all if it is not |
| AuditForest.InsertGrowsForest | db/migrations/010_audit_hash_chain.sql:42-59 | the trigger's row hangs on the row it picked, one generation further, and leaves the rest of the forest alone |
| AuditForest.CommitForest | db/migrations/010_audit_hash_chain.sql:42-59 | a commit joins its transaction's entries to the log and to what every other transaction sees, and all stay forests |
| AuditForest.LogIsForest | db/migrations/010_audit_hash_chain.sql:42-59 | under every interleaving of transactions, rollbacks and erasures, every committed entry's hash verifies and every previous hash names a committed entry of the same tenant one generation older |
| AuditForest.EveryEntryHasRoot | db/migrations/010_audit_hash_chain.sql:42-59 | following the links from any entry reaches a root in as many steps as its generation |
| AuditPath.SerialLogIsPath | db/migrations/010_audit_hash_chain.sql:42-59 | with one transaction at a time and increasing times the generations of each tenant's entries are distinct and in the order of their times |
| AuditPath.PathHasNoForks | db/migrations/010_audit_hash_chain.sql:42-59 | such a forest has one root per tenant and no two entries on one parent |
| AuditPath.PathsVerify | db/migrations/010_audit_hash_chain.sql:42-59 | where a tenant's entries form one path, in the order of time they are a verified chain |
| AuditPath.SerialLogVerifies | db/migrations/010_audit_hash_chain.sql:42-59 | so after every such run each tenant's log passes the auditor's check |
| AuditCommits.CommitVerifiedIff | db/migrations/010_audit_hash_chain.sql:42-59 | after the commit of entries later than the log's the tenant's chain verifies if and only if it did before and they go on from its last row as it is at the commit |
| AuditCommits.CommitOneVerifiedIff | db/migrations/010_audit_hash_chain.sql:42-59 | after the commit of one entry of any time to a verified log it verifies if and only if the entry is linked to the row before its place and, if rows come after it, has that row's hash itself |
| AuditCommits.LogVerifiesIff | db/migrations/010_audit_hash_chain.sql:42-59 | a run in which a tenant's transactions commit in the order of their entries leaves it a chain that verifies if and only if every one of these commits went on from the log's end |
| AuditCommits.ConcurrentInsertsFork | db/migrations/010_audit_hash_chain.sql:42-47 | from any fresh database, two transactions that both insert before either commits leave two roots and a chain that does not verify, whatever the hashes |
| Isolation.ExecPart | db/migrations/002_rls.sql:19-41 | what a statement of the services returns and changes depends on the set tenant's rows only |
| Isolation.FilterNeeded | services/api-gateway/src/routes/admin.routes.ts:12-49 | a read of a table without a policy and without a filter depends on the tenant's rows only if and only if no other tenant has rows there |
| Isolation.OwnStep | services/api-gateway/src/db.ts:14-38 | a tenant's step returns and does in the tenant's part what it returns and does in the whole |
| Isolation.OthersStep | services/api-gateway/src/db.ts:14-38 | a step of one tenant changes nothing in another tenant's part: rows, transactions, jobs, counts |
| Isolation.PrunePart | db/migrations/009_ttl_pruning.sql:11-17 | a prune that goes through prunes a tenant's part as it would alone |
| Isolation.RunProjects | services/api-gateway/src/db.ts:14-38 | any run, seen from one tenant, is the run of its own part under its own labels, with the same results |
| Isolation.Noninterference | db/migrations/002_rls.sql:19-41 | two runs that agree on a tenant's part and labels give the tenant the same results and leave it the same, whatever the other tenants have and do |
| Retention.LogGoesWhen | db/migrations/009_ttl_pruning.sql:11-17 | a step removes a log if and only if it is a prune after the log's 30 days or the end of its tenant's erasure, and never alters one |
| Retention.LogStaysThirtyDays | db/migrations/009_ttl_pruning.sql:11-17 | a run without such a prune or erasure keeps the log unchanged |
| Retention.PruneWaitsForErasures | db/migrations/009_ttl_pruning.sql:11-17 | a prune goes through if and only if no open erasure has deleted an expired log, and otherwise does nothing |
| Retention.PruneTakesOldLogs | db/migrations/009_ttl_pruning.sql:11-17 | in every reachable state a prune leaves no log older than 30 days, or waits for such an erasure and leaves everything |
| PruneVisibility.PruneShowsOthers | db/migrations/009_ttl_pruning.sql:11-17 | a prune waits that in the tenant's part alone would go through, if and only if another tenant's expired log is held and none of its own is |
| PruneVisibility.OthersAreErasures | db/migrations/009_ttl_pruning.sql:11-17 | whoever holds an expired log is an erasure of the log's own tenant |
| PruneVisibility.WaitingPrune | db/migrations/009_ttl_pruning.sql:11-17 | from any fresh database with two tenants that have a workflow each, a legal run after which this happens and the first tenant's expired log stays |
| Maintenance.DeletesKeepForeignKeys | db/migrations/008_gdpr_erasure.sql:9-89 | for any order of deletes, the foreign keys hold afterwards if and only if no row of the tenant is left once `tenants` has been deleted from |
| Maintenance.ErasureKeepsForeignKeys | db/migrations/008_gdpr_erasure.sql:9-89 | in the order of the function they hold after each of the ten deletes, which leave the rows outside the first tables of that order |
| Maintenance.OwnerSession.Delete | db/migrations/008_gdpr_erasure.sql:82-88 | one delete removes and counts exactly the rows it names, and fails without effect if and only if it would orphan a row |
| Maintenance.OwnerSession.ReturnDeleted | db/migrations/008_gdpr_erasure.sql:10-16 | one table's delete and report line: at its place in the order it never fails and keeps the foreign keys |
| Maintenance.OwnerSession.RightToErasure | db/migrations/008_gdpr_erasure.sql:1-90 | from any store it succeeds, leaves nothing of the tenant and everything else, and reports for each of the ten tables in order how many rows the tenant had in it |
| Maintenance.ReportTotals | db/migrations/008_gdpr_erasure.sql:1-90 | the counts add up to what the store lost |
| Maintenance.OwnerSession.PruneExpiredExecutionLogs | db/migrations/009_ttl_pruning.sql:1-19 | exactly the logs whose time is up go, and their number is reported |
| Maintenance.PrunesCollapse | db/migrations/009_ttl_pruning.sql:11-17 | any sequence of prunes with nothing inserted between comes to the one at the latest time, and reports as many rows |
| Gateway.Client.WithTenant | services/api-gateway/src/db.ts:14-38 | the callback's changes are committed if and only if it returns and no query breaks; the call returns, with the results of the callback's own queries, if moreover the reply to COMMIT arrives; the session is idle afterwards |
| Gateway.PoolOfOneSerializes | services/api-gateway/src/db.ts:3-38 | however calls are interleaved, the store and every result are those of the committed callbacks run one after the other in the order in which they got the connection |
| Gateway.OneTenantAtATime | services/api-gateway/src/db.ts:3-38 | at most one call has the connection, and the session carries its owner's tenant or none |
| Handlers.HandlersAreLegal | services/api-gateway/src/routes/oauth.routes.ts:37-112 | every statement of every handler, the connectors' included, is one of those the run properties are proved for |
| Handlers.HandlersEnd | services/api-gateway/src/routes/admin.routes.ts:11-62 | every handler's callback ends, on any store, after four queries at most |
| Handlers.BothOrNeither | services/api-gateway/src/routes/workflows.routes.ts:42-81 | a handler of two statements has the effect of both or, if one fails, of neither |
| Handlers.ReadsShowTheirRows | services/api-gateway/src/routes/executions.routes.ts:7-68 | the six handlers that only read return exactly the tenant's rows of their table, or the one with the id asked for, and change nothing |
| Handlers.ConnectionWithItsAudit | services/api-gateway/src/routes/oauth.routes.ts:37-112 | connecting leaves the connection and the entry of who made it if and only if the tenant exists and both keys are free, and otherwise throws |
| Handlers.RefreshWithItsAudit | services/api-gateway/src/routes/oauth.routes.ts:167-258 | a refresh replaces the columns of a connection that has a refresh token and leaves the entry of who did it, or throws |
| Handlers.ConnectorReads | services/api-gateway/src/services/slack.connector.ts:10-52 | a connector goes on if and only if the connection is the tenant's and usable, and changes nothing |
| Handlers.CredentialIsStored | services/credential-vault/src/vault.routes.ts:29-49 | creating a credential stores it if and only if the tenant exists and the key is free, and otherwise throws |
| Handlers.RotationWithItsAudit | services/credential-vault/src/vault.routes.ts:232-269 | a rotation replaces the credential's columns and adds the audit row, or throws; without a credential it changes nothing |
| Handlers.CredentialIsDeleted | services/credential-vault/src/vault.routes.ts:294-307 | a delete leaves everything but the credential |
| Handlers.WorkflowWithItsAudit | services/api-gateway/src/routes/workflows.routes.ts:42-81 | creating a workflow leaves it and the linked entry of who created which workflow if and only if the tenant exists and both keys are free, and otherwise throws |
| Handlers.ReadTenantShowsSettings | services/api-gateway/src/routes/admin.routes.ts:11-62 | the tenant page shows the tenant's row, its users and the stored settings, stores the defaults if and only if there are none, and changes nothing else |
| Handlers.SettingsRoundTrip | services/api-gateway/src/routes/admin.routes.ts:91-123 | settings that were set are the ones shown next, and reading them changes nothing |
| WorkerProcess.Worker.Process | services/task-orchestrator/src/workers/workflow.worker.ts:28-112 | whatever query breaks, both rows are there if workflow and tenant exist and the keys are free, and otherwise the store is as it was; the job succeeds if and only if they are there and the reply to COMMIT arrived |
| WorkerProcess.ExecutedColumns | services/task-orchestrator/src/workers/workflow.worker.ts:58-98 | the two rows: the workflow's run with thirty days to live, and the linked entry that names who asked for it, the action and the workflow; every other row is as it was |
| WorkerProcess.AttemptIsProcess | services/task-orchestrator/src/workers/workflow.worker.ts:35-112 | an uninterrupted attempt of the state machine does to the store what the function does, and counts for its job accordingly |
| Webhook.Receiver.Set | services/api-gateway/src/routes/webhook.routes.ts:48-54 | SET NX EX stores a key if and only if it is not alive |
| Webhook.Receiver.Receive | services/api-gateway/src/routes/webhook.routes.ts:15-73 | the receiver's answer and keys are those of `ReceiverAnswers`; a delivery without the text's own signature is refused and leaves the keys alone |
| Webhook.ReceiverAnswers | services/api-gateway/src/routes/webhook.routes.ts:15-73 | each answer if and only if its condition: accepted only with the text's own signature, an id and no live key of it; only such a delivery, or one whose reply got lost, stores the key, for 600 seconds |
| Webhook.KeysAgreeWithHistory | services/api-gateway/src/routes/webhook.routes.ts:46-60 | with a clock that never comes back into a window whose end it has passed, the expiring keys say of every id what a look through all earlier deliveries says |
| Webhook.AcceptedIffNotRecent | services/api-gateway/src/routes/webhook.routes.ts:46-60 | with such a clock a signed delivery is accepted if and only if its id was not let through in the 600 seconds before; rejected duplicates do not count |
| Webhook.StoresBounded | services/api-gateway/src/routes/webhook.routes.ts:46-60 | with such a clock, the commands that stored an id's key in T seconds lie 600 seconds apart and are at most T/600 + 1 |
| Webhook.AcceptancesBounded | services/api-gateway/src/routes/webhook.routes.ts:46-60 | and so do and are the deliveries of the id answered with acceptance |
| Webhook.WindowKeptIff | services/api-gateway/src/routes/webhook.routes.ts:46-60 | for any clock readings: every run with them keeps each accepted id's window if and only if they never come back into a window whose end they have passed |
| Webhook.ForwardClockNeverComesBack | services/api-gateway/src/routes/webhook.routes.ts:46-60 | readings that never decrease are of that kind |
| Cipher.SplitFramed | services/credential-vault/src/vault.service.ts:25-41 | both services' ways of cutting off the 16-byte tag undo the framing |
| Cipher.SplitsAgree | services/api-gateway/src/services/oauth.service.ts:29-30 | they differ on exactly the payloads of 9 to 15 bytes |
| Cipher.SplitsOfShort | services/api-gateway/src/services/oauth.service.ts:29-30 | what each makes of a payload shorter than a tag |
| Cipher.EncryptStores | services/credential-vault/src/vault.service.ts:6-31 | stored are the ciphertext under the given nonce with its tag behind it, and the nonce |
| Cipher.DecryptReads | services/credential-vault/src/vault.service.ts:33-56 | read is the text of what unseals after the service's own split, if anything does |
| Cipher.DecryptEncrypted | services/api-gateway/src/services/oauth.service.ts:8-44 | what was encrypted decrypts to what UTF-8 leaves of it, and neither stored text is empty |
| Vault.Vault.Create | services/credential-vault/src/vault.routes.ts:16-59 | on the encrypted rows it is the plain map's create, whatever breaks, and every secret stays readable |
| Vault.Vault.List | services/credential-vault/src/vault.routes.ts:61-98 | it shows the tenant's credentials without their secrets, each once, newest first |
| Vault.Vault.Read | services/credential-vault/src/vault.routes.ts:100-158 | it returns the plain map's secret, or not found |
| Vault.Vault.Test | services/credential-vault/src/vault.routes.ts:160-215 | it finds valid exactly the credentials that are there |
| Vault.Vault.Rotate | services/credential-vault/src/vault.routes.ts:217-282 | secret, `rotated_at` and audit row change together or not at all |
| Vault.Vault.Delete | services/credential-vault/src/vault.routes.ts:284-320 | the credential is gone whether or not there was one |
| Vault.VaultHoldsLastWritten | services/credential-vault/src/vault.routes.ts:16-320 | after any requests the vault holds, of every credential, what the last successful create, rotate or delete of it made; failed and foreign requests change nothing |
| Vault.ReadReturnsLastWritten | services/credential-vault/src/vault.routes.ts:100-158 | a read returns exactly that |
| Vault.WhenRefused | services/credential-vault/src/vault.routes.ts:16-320 | which requests get 400 and 500, exactly, and that these and 404 change nothing |
| Vault.CreateAnswers | services/credential-vault/src/vault.routes.ts:16-59 | after any calls a create stores its credential if and only if the tenant is known and the id is free |
| Vault.RotateAnswers | services/credential-vault/src/vault.routes.ts:217-282 | after any calls, and however often it was rotated, a rotation replaces the secret, sets `rotated_at` and adds the user's audit row if and only if the credential is there |
| Vault.TestAnswers | services/credential-vault/src/vault.routes.ts:160-215 | after any calls a test finds the credential if and only if it is there, and changes nothing |
| Vault.DeleteAnswers | services/credential-vault/src/vault.routes.ts:284-320 | after any calls a delete leaves everything but the credential |
| Vault.ListAnswers | services/credential-vault/src/vault.routes.ts:61-98 | after any calls the listing has exactly the tenant's credentials, each once, newest first, with all columns but the secret |
| Vault.EveryRotationAudited | services/credential-vault/src/vault.routes.ts:257-262 | a credential's audit rows are as many as its successful rotations |
| Vault.RotatedIffAudited | services/credential-vault/src/vault.routes.ts:240-262 | a live credential has audit rows if and only if its `rotated_at` is set |
| OAuth.Connections.Connect | services/api-gateway/src/routes/oauth.routes.ts:12-122 | on the encrypted columns it is the plain record's connect; refresh ciphertext and nonce are both null or both there and decrypt; the audit row is in the same transaction |
| OAuth.Connections.List | services/api-gateway/src/routes/oauth.routes.ts:124-159 | it shows the tenant's connections of the provider, without tokens, each once, newest first |
| OAuth.Connections.Refresh | services/api-gateway/src/routes/oauth.routes.ts:161-271 | both tokens, both nonces, the expiry and the audit row change together or not at all |
| OAuth.Connections.Erase | db/migrations/008_gdpr_erasure.sql:10-16 | erasure takes the tenant's connections and audit rows and nobody else's |
| OAuth.ConnectAnswers | services/api-gateway/src/routes/oauth.routes.ts:12-122 | when a connect succeeds, exactly, and the connection it leaves: each token in its own column, the expiry counted from now, and the user's audit row |
| OAuth.RefreshAnswers | services/api-gateway/src/routes/oauth.routes.ts:161-271 | when a refresh succeeds, exactly, and the four columns and the user's audit row that it changes and adds |
| OAuth.SimulatedTokens | services/api-gateway/src/services/oauth.service.ts:46-54 | the simulated tokens name the provider, their kind and the clock's reading in decimal digits |
| OAuth.ListAnswers | services/api-gateway/src/routes/oauth.routes.ts:124-159 | the listing has exactly the tenant's connections of the provider, each once, newest first, without their tokens |
| OAuth.EraseAnswers | db/migrations/008_gdpr_erasure.sql:10-16 | an erasure takes the tenant's connections and their audit rows, and nothing else |
| OAuth.ConnectionStays | services/api-gateway/src/routes/oauth.routes.ts:167-258 | until its tenant is erased a connection stays, keeps having or not having a refresh token, and keeps its other columns |
| OAuth.RefreshableUntilErased | services/api-gateway/src/routes/oauth.routes.ts:187-258 | an unbroken refresh succeeds, after any requests but the erasure, if and only if the connection was made with a refresh token, and leaves the simulated tokens of its provider in their columns for an hour |
| OAuth.EveryChangeAudited | services/api-gateway/src/routes/oauth.routes.ts:91-109 | a connection's audit rows of each action are as many as its committed connects, or refreshes |

## Left out

- The vault's own pool of many connections: `Vault` runs one request after the other, `Cluster` interleaves the statements of its transactions.
- The columns of workflows, users, settings, connections and credentials in `Database`: one text stands for them, and `OAuth` and `Vault` have the columns.
- Refresh under concurrency: in `OAuth` a refresh's read and update are not interleaved with another refresh of the same connection.
- Row locks of reads and of `tenants` rows held by inserts, except that the last delete of an erasure waits for uncommitted new rows of the tenant.
- Deadlocks: a transaction that waits may be rolled back at any time, which covers their resolution.
- The queue's backoff delays, stalled-job recovery and retention of finished jobs; an attempt may start at any time after it is queued or has failed.
- A lost acknowledgement of the vault's COMMIT, or of the gateway's in `Gateway.Step` and in `OAuth`; a ROLLBACK that itself fails.
- An integer overflow of `expires_in` beyond the 32-bit check, and times beyond the range of TIMESTAMPTZ.
- Bodies that are not JSON objects, and ids of webhooks that are not texts.
- Authentication and JWTs: the tenant and the user of a gateway request are inputs.
- What the connectors answer: a fixed text; their queries are in `Handlers`.
- Metrics, the web interface, the startup code, `services/credential-vault/src/main.ts` and the scripts that only test.
- The SHA-256 file that the archive job writes beside each archive file.
