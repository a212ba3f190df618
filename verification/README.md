# Verified model of durable allocation, remote execution, expiry cleanup and local publication

This project models, in Dafny, the parts of the system whose correctness depends on crashes, retries, concurrency or
exact bytes, and proves what they promise.

**Launch ledger and dispatch.** Independent clients share write-once objects: a plan, and for each attempt of a request a
preparation, a dispatch claim and a response. `Protocol` is the step relation of any number of clients, of a store that
applies a conditional PUT at any later moment or never, and of EC2. `Safety` has the invariant, `Guarantees` what follows
for every run, `Attained` that the bound on allocation is reached. `Ledger`, `Completeness` and `Lineage` rebuild histories
from raw records, `LoadedRecords` states what a load returns on the readings alone, `TornReads` what reads of different
moments do; `Fleet` and `Evidence` connect the response normaliser to the ledger validator; `LedgerClient` and `Dispatch`
are the operations as they run, in place and under interference; `Receipt`, `BatchCache`, `Reconcile`, `FleetWorkers`,
`Outcome` and `Recovery` are the receipts, the local cache, the reconciliation with EC2, and retries.

**Command execution records.** `Runner` is the step relation of a submitter and any number of runner invocations for one
command; `ExecRecords` says when records agree; `Recover` and `Observe` rebuild a verdict from partial views; `Delivery`
shows that a complete delivery is reachable; `Streams` follows output bytes from the pipe to the reader.

**Expiry cleanup.** `Expiry` is the policy, `Cleanup` one worker's state machine and the fairness of its volume rotation,
`CleanupRun` the run over all workers.

**Payload codec.** `Octets`, `Base64`, `Escapes`, `JsonText` and `Payload` work on concrete bytes; `Grammar` is the
language that the decoder accepts, as the texts that can be written.

**Publication.** `Publish` is the journaled multi-file transaction.

Assumptions about the outside: one CreateFleet call allocates at most its target; an error-free output lists everything
allocated; a definitive refusal of a single try allocates nothing; a conditional PUT creates an object at most once and
objects are never overwritten; SHA-256 has no collisions. The worker's clock does not go back; storage stamps objects with
a clock of its own. Every other answer of EC2, S3 and SSM is arbitrary.

Where code and stated intent differ, the code is modelled and the difference is a lemma:

- `Load` reads record by record. Beside a writer it can report corruption on a sound store; `TornExactly` says for which
  readings, and `TornLoad` on which stores. On one moment it never does (`ReachableLoads`).
- Folding `accept` keeps only the last start read, so an earlier, later-dated start can be shadowed and a contradiction
  missed. `FoldReports` says exactly what the fold reports, `FoldDecidesExactly` exactly when that is right,
  `ShadowedStartMisses` gives inputs on which it is not. None of them reaches `Recover`, which reads one started record
  (`OneStartRead`).
- A recovery whose first look finds a final record trusts it without reading the others, so contradictions among those are
  not reported then; `Recover` states this exception.
- The cache comparison is transitive only through recognized states (`UnrecognizedFallsBack`, `AdvanceTransitive`); saved
  receipts always have them.

What the operations compute is stated by ghost functions and predicates; functions that are not ghost are evaluated by the
operations themselves. `dafny verify dfyconfig.toml` checks everything. Large proofs hide definitions they do not need; names say what
a lemma is for.

## Model

| member | source | states |
|---|---|---|
| `Guarantees.NeverOverAllocates` | internal/lifecycle/launch_ledger.go:227-397 | In every state of every run of any number of clients, with crashes, delayed or lost PUTs, lost acknowledgements and lost EC2 replies between any two steps, the instances ever allocated for a request number at most the plan's requested count; without a stored plan there are none. |
| `Guarantees.WithinPlan` | internal/lifecycle/batch_receipt.go:91-119 | The bound as a consequence of the inductive invariant: the deepest call's bounded past names everything earlier calls allocated, and its own target is the remainder. |
| `Attained.BoundAttained` | internal/lifecycle/attempt.go:190-334 | The bound is tight and the step relation is not empty: for every valid plan and every set of identities up to its count, some run from the empty store allocates exactly that set. |
| `Guarantees.SentOnce` | internal/lifecycle/launch_ledger.go:262-291 | Two events of a run that call CreateFleet for one attempt are the same event. |
| `Guarantees.SentWithEvidence` | internal/lifecycle/attempt.go:246-276 | When CreateFleet is called, the store already holds the plan, the preparation and the dispatch claim of exactly this input digest, client token and count; the claim was created by the caller's own PUT, and no response exists. |
| `Guarantees.LostClaimNeverSends` | internal/lifecycle/launch_ledger.go:280-291 | A claim whose PUT nobody waits for any more never authorises a send, whether storage applied it before, applies it at any later moment, or never: no state of the run in which that PUT made the claim has a call for the attempt, and no later step sends one. |
| `Guarantees.AbandonDrops` | internal/lifecycle/attempt.go:261-269 | A client that gives up with its claim under way or won, but nothing sent, puts that PUT in exactly this state. |
| `Guarantees.ReachableLoads` | internal/lifecycle/launch_ledger.go:321-397 | On every reachable store a load of one moment succeeds: not-found exactly without a plan, otherwise the stored plan, a faithful snapshot, nothing beyond its end, and a receipt that `Validate` accepts. |
| `Guarantees.BoundedNamesAll` | internal/lifecycle/batch_recovery.go:209-221 | If such a load shows only terminal attempts, the receipt names every instance ever allocated and every call of the request is closed, so the remainder a retry computes is real. |
| `TornReads.TornLoad` | internal/lifecycle/launch_ledger.go:350-395 | Reads of different moments can make `Load` report an error on a coherent store if and only if the store holds the first attempt's claim. |
| `TornReads.TornExactly` | internal/lifecycle/launch_ledger.go:350-395 | For every mixture of moments: nothing is found without the plan, and otherwise the load reports corruption exactly when a pair of its readings is torn (a claim or response without its preparation, a response without its claim, or anything of a successor before the response), and no other error. |
| `Safety.StepKeeps` | internal/lifecycle/launch_ledger.go:227-319 | Every step of every client, of storage and of EC2 keeps the protocol invariant (justified records, one writer per object, permission held by one unspent claim, honest terminal responses). |
| `Safety.PrepareJustified` | internal/lifecycle/launch_ledger.go:227-260 | A preparation that passes `Prepare` after reads from any mixture of moments extends the bounded past of the real store. |
| `Safety.RecordJustified` | internal/lifecycle/launch_ledger.go:296-319 | A response that passes the checks of `RecordResponse` after such a load is justified by the stored plan, preparation, claim and bounded past. |
| `Lineage.AddJustified` | internal/lifecycle/launch_ledger.go:114-191 | Adding one justified object keeps every record of the store justified. |
| `Lineage.TracedIsPast` | internal/lifecycle/launch_ledger.go:324-397 | A terminal history loaded from any mixture of moments is the store's own bounded history: what a retry builds on cannot be stale. |
| `Ledger.Load` | internal/lifecycle/launch_ledger.go:324-397 | The loop over prepared, dispatch and response records computes the specified snapshot or error for every view. |
| `Ledger.LoadFaithful` | internal/lifecycle/launch_ledger.go:321-397 | On any view, corrupt or mixed, a load without error is a valid history: chained identities, each state what its three records say, all but the last terminal, maps holding exactly those records and every other slot read as absent, nothing behind the last. |
| `Ledger.EarlierKept` | internal/lifecycle/launch_ledger.go:321-323 | A load that ends in an error still returns the valid plan and every attempt before the failing one, each exactly what its records say. |
| `LoadedRecords.LoadedExactly` | internal/lifecycle/launch_ledger.go:321-397 | What a load returns on every view, stated on the readings alone: it needs the plan of the request, one that may be launched; then it keeps every good record of every attempt up to the first thing that is wrong, with the state those records stand for, and reports that thing: a preparation, claim or response that is not the one called for, one left alone, a claim missing under a response, or the failure of a read. |
| `LoadedRecords.PreparesExactly` | internal/lifecycle/launch_ledger.go:114-128 | A preparation is accepted if and only if its history is bounded and it is, field by field, the one that history calls for: the derived identity, the missing count, the token and the one CreateFleet input that belong to them. |
| `LoadedRecords.AnswersExactly` | internal/lifecycle/launch_ledger.go:134-222 | A response is accepted if and only if it repeats the pins of its preparation, reports new valid identities with one worker of the plan for each, and keeps to the shared vocabulary of diagnostics. |
| `LoadedRecords.MayPrepareExactly` | internal/lifecycle/launch_ledger.go:227-240 | `Prepare` accepts a receipt from its caller if and only if the plan may be launched under the client's policy and the last attempt is the preparation that the bounded attempts before it call for, within 256 attempts. |
| `Completeness.LoadComplete` | internal/lifecycle/launch_ledger.go:324-397 | On every coherent store a load of one moment reports no corruption. |
| `LedgerClient.SharedStore.Put` | internal/lifecycle/launch_ledger.go:561-575 | Success of a conditional PUT means this request created the object; a lost reply is never success; the store stays coherent under interference, and with what others do around the request store and answer are determined. |
| `LedgerClient.SharedStore.PutImmutable` | internal/lifecycle/launch_ledger.go:577-595 | An applied write that can be read back succeeds exactly when this very record is the one stored, and otherwise conflicts; a failed read is its own error. |
| `LedgerClient.SharedStore.Prepare` | internal/lifecycle/launch_ledger.go:227-260 | Refuses without touching the store what fails the local checks; otherwise the verdict of the load decides, and after success the plan and this preparation are stored. |
| `LedgerClient.SharedStore.Claim` | internal/lifecycle/launch_ledger.go:262-291 | Won exactly by the own acknowledged creation of the expected claim of the stored preparation, when the load allows it; each verdict of the load gives its own answer, and an existing claim never wins. |
| `LedgerClient.SharedStore.RecordResponse` | internal/lifecycle/launch_ledger.go:296-319 | The checks of the load decide; after success this response is stored and justified. |
| `LedgerClient.MayClaimJustified` | internal/lifecycle/launch_ledger.go:262-291 | A claim that a load allows is the expected claim of a stored preparation. |
| `Dispatch.Dispatcher.Dispatch` | internal/lifecycle/attempt.go:190-334 | Effects happen in one fixed order, nothing shared is written before the announcement, CreateFleet is called at most once and last, with the input the shared preparation and claim pin, on the own won claim. How far it comes follows from the answers of its checks, writes and reads: the first refusal or failure stops it with its own error and leaves store and files as they were by then, and without one the call is made; the receipt is then the normalised reply, to be recorded twice, and the workers are as inspected. |
| `Dispatch.Final` | internal/lifecycle/attempt.go:311-334 | No error is reported exactly when both records, the inspection, the expiry and the bound are all in order and the caller did not give up; otherwise the first of these that is not. |
| `Dispatch.Respond` | internal/lifecycle/attempt.go:296-306 | The response built from a reply is its normal form, a rejection surviving only with exactly one SDK try. |
| `Fleet.NormalizeFleetResponse` | internal/lifecycle/fleet.go:129-227 | The loops compute the normal form of every output, error or both: sorted distinct valid identities, one worker for each, the state its bounds allow, and the diagnostics in order. |
| `Fleet.NormalizedUnique` | internal/lifecycle/fleet.go:129-227 | That form is unique: attempt and workers are a function of plan, attempt and answer, although the source builds them through maps. |
| `Fleet.FleetResponsePool` | internal/lifecycle/fleet.go:229-259 | The choice is the first approved one that agrees with the reported type, subnet and, if named, zone, omitted top-level fields filled from the override; none exactly when no choice agrees; good exactly when there is one and no reported field contradicts its duplicate, the template or the image. |
| `Evidence.CompletePlaced` | internal/lifecycle/fleet.go:148-227 | In a complete normal form every worker stands in an approved choice that agrees with the type, subnet and zone of a group of the reply that lists it. |
| `Fleet.FleetDiagnostic` | internal/lifecycle/fleet.go:273-299 | Each family of error codes has its own diagnostic, and only refusals that rule out an allocation are definitive. |
| `Evidence.NormalizedAccepted` | internal/lifecycle/launch_ledger.go:134-222 | The ledger accepts the normalised reply to a prepared attempt if and only if its identities are new to the lineage and, when complete, its Fleet ID is. |
| `Evidence.ResponseValid` | internal/lifecycle/launch_ledger.go:134-188 | An accepted response extends its history to a valid receipt under the prepared identity. |
| `Receipt.Validate` | internal/lifecycle/batch_receipt.go:70-119 | The loop decides exactly the receipts whose attempts each fit the bounded history before them. |
| `Receipt.FulfilledIDs` | internal/lifecycle/batch_receipt.go:123-139 | Every identity of every attempt once, in order. |
| `Receipt.MissingCapacity` | internal/lifecycle/batch_receipt.go:141-153 | A count exists exactly for valid, bounded, correctly named receipts, and is both the request's remainder and the last attempt's shortfall; the refusal names the first failing check. |
| `Receipt.ChainAccounts` | internal/lifecycle/batch_receipt.go:91-119 | In a bounded history the attempts' lists add up to the distinct identities and stay within the request. |
| `BatchCache.BatchCacheCanAdvance` | internal/lifecycle/batch_store.go:68-94 | The nested comparison decides the advance relation. |
| `BatchCache.LoadsAdvance` | internal/lifecycle/batch_store.go:66-94 | Receipts of two successful loads always advance, however their reads interleave with writers, if no object disappears or changes in between. |
| `BatchCache.AdvanceReflexive` | internal/lifecycle/batch_store.go:68-94 | Every receipt advances to itself. |
| `BatchCache.AdvanceTransitive` | internal/lifecycle/batch_store.go:68-94 | Advancing composes when the middle copy's states are recognized, as those of every valid receipt are. |
| `BatchCache.UnrecognizedFallsBack` | internal/lifecycle/batch_store.go:80-82 | Without that condition it does not: a concrete middle state lets known evidence fall back to dispatched. |
| `BatchCache.NothingForgotten` | internal/lifecycle/batch_store.go:26-94 | Along any chain of admitted saves no identity or Fleet ID is lost or changed, no terminal attempt altered, no history shortened. |
| `BatchCache.SavesAdvance` | internal/lifecycle/batch_store.go:26-94 | Every earlier copy of a chain of saves may advance to every later one. |
| `BatchCache.Cache.SaveBatch` | internal/lifecycle/batch_store.go:26-66 | Stores exactly an admissible receipt and extends the chain of saves; each failure has its own error and leaves the file or the finished rename. |
| `BatchCache.Cache.RestoreBatch` | internal/lifecycle/batch_store.go:99-136 | Valid content obeys the save rules, unreadable content is kept beside the new copy, and no other file changes. |
| `Reconcile.ReconcileLaunch` | internal/lifecycle/batch_reconcile.go:43-76 | Keeps every identity of the snapshot and every valid identity and (volume, device, root) mapping of the pages read: of the inventory, of the Fleets, and of every exact inspection, whomever its rows are about; unless cut short it inspects every worker of the snapshot that names an attempt; bounded exactly when shared terminal responses bound every attempt and nothing contradicted them, and then the attempts are exactly the snapshot's. Attempts, workers, problems and verdict are the fold of all answers, in the order asked for, over the snapshot's own, with a problem exactly where an answer contradicts, repeats or fails. |
| `Reconcile.LaunchReconciler.Retain` | internal/lifecycle/batch_reconcile.go:157-201 | One report is held with its mappings by worker and attempt; nothing known is taken back; an invalid identity, an unknown, unclaimed or other attempt, another placement, or an identity new to a terminal attempt is a problem, and nothing else. |
| `Reconcile.LaunchReconciler.AddProblem` | internal/lifecycle/batch_reconcile.go:95-106 | Any problem ends the bound and stays on record under a sanitised identity. |
| `Reconcile.LaunchReconciler.Scan` | internal/lifecycle/batch_reconcile.go:203-263 | Every row of the pages read is retained; an invalid, untagged or repeated row, a failed page or a repeated token is a problem; a bound that survives means the last page was reached. |
| `Reconcile.LaunchReconciler.InspectFleet` | internal/lifecycle/batch_reconcile.go:265-313 | Every identity of the Fleet descriptions read is held by the attempt that created the Fleet. |
| `Reconcile.LaunchReconciler.Verify` | internal/lifecycle/batch_reconcile.go:352-395 | Every worker that names an attempt is inspected unless the caller gives up; every row that any exact inspection returned is retained; workers and attempts only grow. |
| `Reconcile.LaunchReconciler.VerifyOne` | internal/lifecycle/batch_reconcile.go:366-394 | One exact inspection: every row read is retained before the verified form takes its place; historical only if shared, every read says the instance is gone, no row shows it alive, and nothing went wrong; a bound survives only an allocated or historical worker. |
| `Reconcile.LaunchReconciler.TakePages` | internal/lifecycle/batch_reconcile.go:412-464 | The read wrapper retains every row of every answered page, and `gone`, `live` and `failed` say exactly what the pages show: absence or a terminal row, anything alive, a failed read, a repeated identity or a contradicting terminal row. |
| `Reconcile.ValidateSnapshot` | internal/lifecycle/batch_reconcile.go:108-155 | The loop decides exactly the consistent snapshots, and computes the index, the historical identities and whether all attempts are bound. |
| `Reconcile.LoadedConsistent` | internal/lifecycle/batch_reconcile.go:108-155 | Every snapshot a load returns without error passes that validation. |
| `Reconcile.BoundChain` | internal/lifecycle/batch_reconcile.go:125-146 | A consistent snapshot whose attempts all have shared bounds is a bounded chain. |
| `Reconcile.SnapshotWorkers` | internal/lifecycle/batch_outcome.go:62-75 | One worker entry for every identity of responses and attempts, and no other. |
| `FleetWorkers.MergeVolumes` | internal/lifecycle/fleet_workers.go:374-395 | The in-place merge keeps every mapping of both lists, each observed one in its latest form, each once. |
| `FleetWorkers.VerifyFleetWorkers` | internal/lifecycle/fleet_workers.go:33-201 | Exactly the known identities, in order, with every mapping known before or learned; allocated only with an observed row; no error only when all are allocated. Each worker's status follows from the rows about it and about its root, and a mismatch outweighs an answer not asked for, which outweighs a failed or incomplete read. |
| `FleetWorkers.ObserveInstance` | internal/lifecycle/fleet_workers.go:203-319 | Mappings are learned even from a contradicting row; a repeated row, a mismatched pin or a moved root is a mismatch, and only those. |
| `Outcome.Outcome` | internal/lifecycle/batch_outcome.go:86-152 | The counted identities of the attempts add up to the total whatever the evidence, each attempt counting those that no earlier one did; missing, status and retry parent follow from boundedness. |
| `Outcome.BoundedOutcome` | internal/lifecycle/batch_outcome.go:86-152 | For a bounded receipt capacity is conserved: fulfilments sum to the distinct identities, fulfilled plus missing is the request, missing equals the last attempt's own and `MissingCapacity` of that attempt, and the status matches. |
| `Outcome.BoundCounts` | internal/lifecycle/batch_outcome.go:104-118 | In a bounded history every identity counts, whatever its current worker looks like. |
| `Recovery.MergeUnknownCache` | internal/lifecycle/batch_recovery.go:152-175 | An attempt that some cached attempt may join, claimed, unbounded and with the same pins, becomes unknown, holds exactly the valid identities of both, and names its own Fleet or else the cached one; every other attempt stays as it is. |
| `Recovery.CacheCannotBound` | internal/lifecycle/batch_recovery.go:152-175 | The merge never changes whether shared responses bound the history. |
| `Recovery.RetryIsPreparable` | internal/lifecycle/batch_recovery.go:209-257 | The successor a retry builds on a bounded load with capacity missing passes every check of `Prepare` if and only if the history is below the attempt limit. |
| `Runner.StartedOnce` | internal/runner/run_linux.go:116-165 | In every run there is at most one event that starts the execution, whoever it belongs to, lost acknowledgements included. |
| `Runner.ExecutesOnce` | internal/runner/run_linux.go:116-237 | In every state at most one invocation has executed, it wrote the started record, and there is at most one outcome and one result, telling the same story. |
| `Runner.AlwaysConsonant` | internal/execution/recover.go:94-177 | At every reachable point all stored records are usable, pairwise agree, carry the command's identity, and lie under the key of their kind. |
| `Runner.RecoverNeverCorrupt` | internal/execution/recover.go:202-303 | A recovery whose reads fall into any moments of a run, with any transient failures, meets nothing contradictory. |
| `Runner.RecoverBeside` | internal/execution/recover.go:202-303 | So `Recover` itself, beside any run, never concludes corruption, and a final record that it finds first decides. |
| `Runner.ObserveNeverCorrupt` | internal/execution/observe.go:263-356 | The polls of an observer meet nothing contradictory either. |
| `Runner.ObserveBeside` | internal/execution/observe.go:263-356 | So `Observe` itself, beside any run, never concludes corruption, and the first final record found ends it with that record. |
| `Runner.StepKeeps` | internal/runner/run_linux.go:116-237 | Every step of submitter, invocations, storage and clock keeps the invariant. |
| `Runner.ClaimValid` | internal/execprotocol/records.go:141-205 | A claim inside the retention is always a valid record: whole-second rounding keeps it between submission and deadline, and the deadline is a whole number of allowed days later. |
| `Delivery.DeliveryPossible` | internal/runner/run_linux.go:116-237 | Any command with any known, captured evidence has a run that executes it and publishes that evidence, and its final record is judged complete until the retention ends. |
| `Recover.FoldReports` | internal/execution/recover.go:94-177 | What folding `accept` reports over any records in any order, without provision: a record of no use, two that state different facts, an end before the start read last, or a start after an end read before, and nothing else. |
| `Recover.FoldDecidesExactly` | internal/execution/recover.go:94-177 | The fold decides whether records agree if and only if they clash anyway or every disorder among them is one that shows where it is read. |
| `Recover.FoldDecides` | internal/execution/recover.go:94-177 | In particular it decides when no start read earlier is later than the start read last. |
| `Recover.ShadowedStartMisses` | internal/execution/recover.go:124-148 | Inputs on which it misses one: after an earlier start was read behind a later one, and no end yet, some contradicting outcome is accepted. |
| `Recover.NeverReportedWrongly` | internal/execution/recover.go:94-177 | Without the provision the fold still never reports agreeing records. |
| `Recover.OrderIrrelevant` | internal/execution/recover.go:94-177 | With one start, the verdict depends only on the set of records. |
| `Recover.AcceptedAgree` | internal/execution/recover.go:94-177 | Accepted records all state the same facts, and what is known speaks for each of them. |
| `Recover.Recovery.Accept` | internal/execution/recover.go:94-177 | A contradiction is remembered for good and changes nothing trusted; an accepted record adds exactly its own facts. |
| `Recover.Recover` | internal/execution/recover.go:202-303 | The caller gives up exactly if one of the checks of its context that this recovery makes fails (1 before an early final record, 6 before a contradiction is reported, one more behind the service's answer, and one more behind a last look that finds nothing to accept). Otherwise: a final record decides alone by its own retention and publication; contradictory or damaged records are reported, and always, unless a first look found a final record; otherwise storage trouble, then a passed retention, a recorded end, trouble of the service, a running invocation or one not yet answering behind a start, and lastly whether any record was read, in this order and each exactly then. |
| `Recover.OneStartRead` | internal/execution/recover.go:232-247 | No such input reaches `Recover`: it reads one started record, so its fold decides exactly. |
| `Observe.Observer.Durable` | internal/execution/observe.go:181-256 | One poll completes exactly with a well-identified final record that contradicts nothing read so far, and condemns exactly on damage or contradiction; otherwise what could not be read is reported, the final record's trouble first, and a retention that has passed; remembered records are never replaced. |
| `Observe.GenuinePoll` | internal/execution/observe.go:139-161 | On agreeing records no poll contradicts what an earlier one remembered. |
| `Observe.ObserveRound` | internal/execution/observe.go:286-336 | The service's word is taken only when final and only after another poll found no final record; storage failures are retried five times in a row and the service's likewise; each round ends, or goes on, exactly as its answers say. |
| `Observe.Observe` | internal/execution/observe.go:263-356 | Over honest storage it never concludes corruption; the first final record found ends it with that record; transient failures end it only after six rounds in a row. For any answers whatever the conclusion is that of the first round that ends. |
| `Streams.Capture` | internal/runner/process_linux.go:107-151 | Without a problem the file is exactly what was read; always a prefix within the limit; a problem arises exactly from an improper end, overflow, a failed write or sync, and the first of them is the one reported; reading goes on to the end. |
| `Streams.FileStream` | internal/runner/run_linux.go:251-266 | The recorded size and digest are those of the whole file. |
| `Streams.Upload` | internal/execprotocol/store.go:219-240 | An object is created only with the announced bytes, and success means the stored object has the recorded size and digest. |
| `Streams.CopyStream` | internal/logs/transfer.go:27-132 | Terminates by a lexicographic measure over remaining bytes and empty reads; emits a prefix within the recorded size; succeeds only on the exact digest; undisturbed by cancellation, a failed opening or closing, failing or stalled reads or failing writes, it decides exactly whether the body is the recorded one. |
| `Streams.Convey` | internal/logs/transfer.go:27-132 | From pipe to reader: success is reported exactly when every stage succeeded, and then delivery is exact; a prefix within the limit otherwise. |
| `Streams.Classify` | internal/runner/process_linux.go:322-356 | The workload is always valid and follows from the signs: timeout, capture failure, interruption, a stopped setup and the setup letters in this order, and only then the exit itself. |
| `CleanupRun.Run` | internal/expirycleanup/service.go:156-293 | Every scanned record has its own worker, selected exactly if the record is undisputed and shows a live instance in scope whose one usable deadline has passed; the candidates of a complete scan are those records. Each instance gets at most one termination; dry runs and incomplete scans send none; counts match the outcomes; an invalid clock or scope does nothing. An uninterrupted dry run reports for each worker what it would do; any other leaves alone what it does not follow. A run that reports success saw a complete scan and every candidate, and every instance that had ended or was ending, was withdrawn by fresh evidence or seen gone with its root; in a dry run each candidate would be terminated. In terms of what the run is told: a worker sent its termination, was seen to end and lost a record exactly when that told it so; the rounds of an uninterrupted run end only because nothing is active or all 30 are used, every active worker had its turn in each, and no wait failed; it makes a known number of checks of its context, and one whose context outlasts them and whose waits succeed is not cut short. |
| `CleanupRun.TerminationHasEvidence` | internal/expirycleanup/worker.go:17-121 | Behind every termination of a run: a complete scan, no dry run, an eligible selection, an acknowledged decision, and the warrant of its worker; no other termination in its log. |
| `CleanupRun.CleanedHasEvidence` | internal/expirycleanup/worker.go:132-223 | Behind every worker that counts as cleaned: an exact read that returned this very instance terminated, in scope and with the selected deadline, and after it an answer that its one verified root is gone. |
| `CleanupRun.RunIsFair` | internal/expirycleanup/worker.go:171-205 | In any run, a volume that a worker waits for is asked about within as many of its turns as it has volumes. |
| `CleanupRun.DistinctTargets` | internal/expirycleanup/service.go:189-240 | Terminations of different workers name different instances. |
| `CleanupRun.Scan` | internal/expirycleanup/discovery.go:109-167 | The records are the rows of the pages read, coalesced; reading stops only at a last page, one that is not whole, a token seen before or the limit; complete exactly if every page was whole and the last named no other. |
| `CleanupRun.CoalesceMeans` | internal/expirycleanup/discovery.go:133-149 | Coalescing holds every usable identity once: its common row, or a conflict exactly when two of its rows differ, which then keeps the volumes of all of them; rows without a usable identity are all kept. |
| `CleanupRun.FreezeOne` | internal/expirycleanup/service.go:185-210 | The frozen decision: eligible exactly for an expirable record, with the reason its evidence calls for, and a problem at once if that is not benign. |
| `CleanupRun.Tally` | internal/expirycleanup/service.go:318-349 | Terminated and cleaned count exactly the reported outcomes, cleaned within terminated; in a dry run the advice counts instead. |
| `CleanupRun.Close` | internal/expirycleanup/service.go:277-292 | What is followed, accounted for and ends without a problem was withdrawn by fresh evidence, or is gone with its root; whatever is still open becomes a problem. |
| `Cleanup.Worker.Prepare` | internal/expirycleanup/worker.go:17-121 | Sends one termination exactly when the worker is eligible, its root verified, the announcement acknowledged, the fresh row that of this instance, still expired with the same deadline and mappings, and the run not cancelled. Status, volumes, problems and what follows are those of the fresh row: none changes nothing, one that does not repeat the deadline withdraws, one that does leads on by its state and mappings. What it was told is kept beside it. |
| `Cleanup.Worker.Send` | internal/expirycleanup/worker.go:99-120 | One dispatch; only a refusal ends the observation, a lost answer does not; each answer has its status. |
| `Cleanup.Worker.Rotate` | internal/expirycleanup/worker.go:171-205 | At most one volume is asked about, the first waiting one from the cursor on, and the cursor moves behind it; those before it are put on record as retained or unavailable, and the others stay as they are. |
| `Cleanup.Worker.Observe` | internal/expirycleanup/worker.go:132-223 | Termination counts as seen exactly when the exact read returns this very instance terminated with its deadline; once seen every turn is one turn of the rotation with at most one question, a deletion is learned of the volume asked about only, and the wait ends exactly when nothing that goes with the instance is left; a worker stays accounted for. |
| `Cleanup.Worker.SeeEnd` | internal/expirycleanup/worker.go:137-164 | The exact read behind that: complete, singular, of this identity. |
| `Cleanup.Worker.UnresolvedVolumes` | internal/expirycleanup/worker.go:240-253 | Whatever is neither deleted nor retained becomes unavailable, and nothing else changes. |
| `Cleanup.RotationIsFair` | internal/expirycleanup/worker.go:171-205 | A volume that waits is asked about within as many turns as the worker has volumes. |
| `Cleanup.Closer` | internal/expirycleanup/worker.go:171-205 | A turn spent on another volume brings a waiting one strictly closer to its own. |
| `Cleanup.LawfulAppend` | internal/expirycleanup/worker.go:17-121 | A log whose terminations are warranted and single, and whose seen ends are witnessed by the read before them, stays so when an event with its evidence is added. |
| `Cleanup.RootProblem` | internal/expirycleanup/discovery.go:184-203 | The counting loop reports the specified root issue: exactly one root that is deleted on termination passes. |
| `Expiry.Evaluate` | internal/expiry/cleanup.go:82-146 | Eligible exactly for live instances of the scope with one parsable deadline that has passed; every other observation gets the reason that its clock, scope, place, tags, deadline or state call for. |
| `Expiry.OneReason` | internal/expiry/cleanup.go:82-146 | The conditions behind the reasons exclude one another, so an observation has one reason. |
| `Expiry.Recheck` | internal/expiry/cleanup.go:152-162 | Still eligible exactly when fresh evidence repeats identity, scope, liveness and deadline of the selection; another identity or deadline has its own reason, and otherwise the fresh observation decides. |
| `Expiry.InspectTags` | internal/expiry/cleanup.go:46-68 | The loop finds the single parsable expiry value or why there is none. |
| `Expiry.CollectTags` | internal/expiry/cleanup.go:96-115 | The loop fails exactly on ambiguous tags, for the first flaw among them, and otherwise collects each key's one value. |
| `Payload.RoundTrip` | internal/execprotocol/payload.go:67-128 | Decoding undoes encoding for every valid payload within the size limit, over concrete bytes: base64, JSON escapes, UTF-8. |
| `Payload.EncodeInjective` | internal/execprotocol/payload.go:67-78 | Two payloads never share an encoded form. |
| `Payload.DecodedValid` | internal/execprotocol/payload.go:83-128 | Whatever is accepted is a valid payload from canonical base64 of valid UTF-8 with paired surrogate escapes. |
| `Grammar.DecodedExactly` | internal/execprotocol/payload.go:83-128 | The decoder accepts a text as a payload if and only if it is the canonical base64 of some layout of a JSON object that writes it: any white space, escapes and field order, every field once and no other, each of its own type or null, no null argument, nothing behind the object, and a payload that may be run. |
| `Grammar.RuneExactly` | internal/execprotocol/payload.go:46-65 | The UTF-8 check takes bytes as a code point exactly if they are its shortest form and it is no surrogate (RFC 3629). |
| `Payload.DecodePayload` | internal/execprotocol/payload.go:83-128 | The loop over fields computes the specified decoding for every input. |
| `Payload.FieldsBack` | internal/execprotocol/payload.go:67-128 | The object the encoder writes is read back field by field. |
| `Payload.CleanMarshal` | internal/execprotocol/payload.go:132-181 | What the encoder writes passes the surrogate scanner and is valid UTF-8. |
| `Escapes.ValidEscapedUnicode` | internal/execprotocol/payload.go:132-181 | The index loop accepts exactly the texts whose left-to-right tokens pair every surrogate escape (RFC 8259, section 7). |
| `Escapes.PairedStep` | internal/execprotocol/payload.go:132-181 | A neutral token or a proper pair leaves the question to the rest; anything else decides it. |
| `Base64.DecodeEncode` | internal/execprotocol/payload.go:77-87 | Decoding undoes encoding for all bytes (RFC 4648, section 4). |
| `Base64.EncodedGroup` | internal/execprotocol/payload.go:77-87 | Each three bytes are written as the four signs of the same twenty-four bits, in order. |
| `Base64.CanonicalOnly` | internal/execprotocol/payload.go:83-92 | The canonical check accepts exactly the encodings, each as its own bytes. |
| `Publish.Disk.PublishChanges` | internal/setup/files.go:192-226 | Foreign content found by the check phase publishes nothing at all; otherwise every change stays resumable wherever a write fails, even one that was renamed before its directory sync failed; the writes are those of the targets that differ, in order, and no others, up to the first that fails; when all succeed every target has its new content. |
| `Publish.WriteKeeps` | internal/setup/files.go:205-226 | Writing one target keeps every change resumable and undoes none. |
| `Publish.StageChanges` | internal/setup/files.go:157-188 | The writes are private copies of the old and the new content of exactly the files that differ, in order, up to the first that fails; no target is touched. |
| `Publish.PublishedWanted` | internal/setup/files.go:157-226 | Publishing what was staged gives every wanted file its content, staged or already right. |
| `Publish.Publish` | internal/setup/engine.go:483-517 | A journaled transaction overtaken by somebody else's edit is refused, exactly then, with nothing changed; otherwise, wherever a write fails, the journal can be finished; enough approved writes complete it; when done every wanted file has its content and the journal is clear; no other target is ever touched. Without approval nothing is published or journaled but what an earlier run had journaled, and the run is declined exactly when some wanted file then differs. What a new transaction overwrites is kept in its private backups. The disk is left exactly as these writes in this order leave it, up to the first that fails: the targets of the journal that differ, the cleared journal, the private copies, and with approval the journal, the targets that differ, the cleared journal. |
| `Publish.RunAgain` | internal/setup/engine.go:483-517 | After any sequence of failures, the first run that is granted enough writes leaves every wanted file with its content; a number of writes that is enough is given. |

## Left out

- Calls into AWS, credentials, error-code tables, IAM and foundation drift: their results are arbitrary inputs here.
- Rendering and strict decoding of ledger and execution records, size limits and schema versions: records are values, and an
  undecodable object is one constructor. Only the payload codec is concrete.
- Nil and empty slices are one value; the source distinguishes them in places where no caller can.
- Field-by-field comparison of instance, volume and Fleet settings with the plan's pins: one verdict per row.
- Regular expressions of configuration, profiles and manifests: predicates on identities, or one verdict per plan.
- SHA-256 as a function on bytes: attempt identities, tokens and digests are the terms they are computed from.
- Contexts, timers and deadlines: cancellation may strike where the source checks for it, and between two such checks.
- The placement, image and name that a valid row adds to an inspected worker: its entry keeps what the response said.
- Delivery order of volumes in merged lists, and the order of observation workers before sorting, beyond what rows state.
- Readiness and expiry diagnostics of observed workers, `AttemptResult.Outcome`, `cachedIdentityConflict` and
  `unverifiedRecoveryEvidence`: summaries of values modelled here.
- Parallel interleaving of cleanup workers: each works on its own state only, so the run takes one after the other.
- Edits by others between the check phase and the write of one published file, and `patchTOML`.
- Replacement of invalid UTF-8 and of unpaired surrogates inside a JSON decoder: earlier checks exclude both.
- Process groups, signals and the setup of the child process: their visible signs are the inputs of `Classify`.
- `Submit` target lookup, agent checks and rejected commands: only its order of effects is part of `Runner`.
- The command line, output, SSH, readiness probes, the older single-instance commands, setup's cloud stages, and the release
  scripts.
