# Verified model of the maintenance and integration core

This Dafny project models the parts of the Go API whose correctness is a matter
of whole runs rather than of single calls, and proves what those parts promise.
`dafny verify dfyconfig.toml` checks all of it.

- **Envelope, Keyring, KeyringConfig** - the byte format of encrypted credentials and the two
  envelope ciphers (a symmetric keyring and a public-key variant), with raw
  legacy values. AES-GCM and RSA-OAEP (section 7.1 of RFC 8017) are parameters:
  opening undoes sealing and accepts nothing else, unwrapping undoes wrapping,
  sizes are as stated. `Keyring.Transparent` shows that these assumptions are
  consistent.
- **Reencryption, ReencryptionWorker, RotationReport** - the cursor-driven worker that moves
  stored credentials to the active key, with compare-and-swap against
  concurrent writers and a checkpoint after every page, and what its report says.
- **Retention** - the purge worker: nested rule and batch loops, dry runs and
  checkpoints after every batch.
- **GraphQLInspector, GraphQLCosts** - the preflight walk over an operation and its
  fragment graph, against the fragment-expanded operation, and what sizes, costs
  and depths come to.
- **SyncExecution** - sync jobs over the in-memory store under every
  interleaving of manual and scheduled syncs, enqueues, drains and purges.
- **Ingest, IngestLaws** - custom activity ingest: validation, first-wins ledger,
  repairable projection, same-key replay.
- **Backoff, Scheduling** - the two doubling delays, the selection of due
  connections, and how often a failing connection is executed.
- **Revocation, Deletion** - leased work with fencing tokens: token revocation
  jobs and the staged deletion of an account or subject.
- **Paging, SessionPaging, PagingLaws, Keyset** - keyset pages, their lookahead, clients that
  read them to the end and the resolvers' order check, over sorted-set facts that
  the credential worker shares.
- **AuthStore** - one-time links and ceremonies, sessions, and the passkey
  signature counter (section 6.1.1 of Web Authentication Level 2).
- **LiteralInventory, Heatmap, Streak** - constant string resolution and the
  hashed literal stream, the heatmap grid, the longest streak.

## How concurrency and failure are modelled

A component that is shared between callers is a state machine: a datatype of
actions, a total `Next` in which an action that is not enabled changes nothing,
and `Run` over a sequence of actions. Safety is proved for every sequence. The
classes beside a machine follow the program's own control flow, step by step,
and between any two of their steps let everybody else take arbitrary further
steps. The two maintenance workers run in a world with a script of outside
events: a call may fail with or without effect, report nonsense, find its
context cancelled, meet another writer, or be the last thing the process does.

## Where the code departs from the expected property

- A re-encryption pass that finishes with failures keeps its checkpoint; a
  resume then starts behind the last record and does not report those failures
  again. The model follows the code, so equality of cut and uncut runs is about
  counts, per-key counts and the last record.
- A retention run that crashes before its first checkpoint, with no pinned
  time, is retried at a later time and may purge more. The model states exactly
  when the first time governs.
- A scheduled execution may start right after a manual one that finished
  between the sweep and the start. It keeps the delay exactly when the
  scheduler's own guard still holds at the start, and always when the execution
  before it was scheduled too.
- The residual total of a deletion wraps. A request can therefore complete with
  rows left, exactly when their true number is a positive multiple of 2^64.
- A stored row whose ID is no canonical UUID, or whose time is outside the years
  1 to 9999, is handed out by the store but refused by the resolvers, which cannot
  make a cursor of it; a walk through a resolver succeeds exactly when there is no
  such row. The service by itself refuses to go on after such an ID.
- A heatmap range of more than 15,251 weeks puts two days on one square.

## Model

| member | source | states |
|---|---|---|
| Envelope.ParseInvertsV1 | apps/api/internal/operations/keyring.go:335-378 | Parsing what the version-1 encoding writes gives back exactly its key ID and ciphertext |
| Envelope.ParseInvertsWrapped | apps/api/internal/operations/keyring.go:380-416 | Parsing a version-2 or version-3 value gives back all fields, and the associated data is exactly the encoded prefix |
| Envelope.ParseIsUnambiguous | apps/api/internal/operations/keyring.go:349-416 | Every accepted byte string is re-encoded from its parsed fields to the same bytes, and the fields obey the format bounds |
| Envelope.ParseIsInjective | apps/api/internal/operations/keyring.go:349-416 | Two values that parse alike are the same bytes |
| Envelope.AcceptedEnvelopes | apps/api/internal/operations/keyring.go:349-416 | A value is accepted as an envelope if and only if one of the three encodings produces it |
| Envelope.EnvelopesAreMarked | apps/api/internal/operations/keyring.go:335-347 | Every envelope opens with the letters JDBK and its version, and its length fields are big-endian |
| Envelope.RawExactlyWhen | apps/api/internal/operations/keyring.go:349-378 | A value is taken as raw if and only if it does not open with those letters |
| Envelope.MarshalKeyEnvelope | apps/api/internal/operations/keyring.go:335-347 | The in-place version-1 marshal refuses an empty or overlong key ID and an empty ciphertext, and otherwise writes the encoding |
| Envelope.MarshalWrapped | apps/api/internal/operations/asymmetric_envelope.go:182-213 | The in-place wrapped marshal writes prefix, nonce and sealed text, binding the prefix as associated data, exactly when no bound is exceeded |
| Keyring.AeadRoundTrip | apps/api/internal/integrations/cipher.go:36-65 | A raw AES-GCM value decrypts under its key |
| Keyring.AeadOutputIsRaw | apps/api/internal/integrations/cipher.go:36-49 | Raw AES-GCM output is never mistaken for an envelope |
| Keyring.Ring.DecryptLegacyLoop | apps/api/internal/operations/keyring.go:187-203 | The loop over the legacy keys returns the first that opens, in configured order |
| Keyring.SymmetricWritesAreReadable | apps/api/internal/operations/keyring.go:120-185 | Any configuration that still has the writer's key reads a version-2 value and names the writer's key |
| Keyring.PublicWritesAreReadable | apps/api/internal/operations/asymmetric_envelope.go:72-141 | Any configuration with the private half reads a version-3 value and names the writer's key |
| Keyring.V1ValuesAreReadable | apps/api/internal/operations/keyring.go:155-185 | Version-1 values open under their named key, through either cipher |
| Keyring.RawValuesAreReadable | apps/api/internal/operations/keyring.go:187-203 | A raw value opens under its legacy key unless an earlier legacy key opens it too |
| Keyring.RawValuesNameTheirKeyExactlyWhen | apps/api/internal/operations/keyring.go:187-203 | A raw value names its writer's key if and only if no earlier legacy key opens it |
| Keyring.OpenedMeansSealed | apps/api/internal/operations/keyring.go:305-333 | Whatever opens under a wrapped envelope was sealed as a whole: header, key ID, wrapped key and text |
| Keyring.ReadsExactlyWhatWasWritten | apps/api/internal/operations/keyring.go:155-203 | A value reads as a text under a key if and only if it is that text written under that key in one of the four generations |
| Keyring.LabelNamesKey | apps/api/internal/operations/asymmetric_envelope.go:178-180 | The label of a wrapped key is the fixed text, a zero byte and the key ID |
| Keyring.SymmetricValueSize | apps/api/internal/operations/keyring.go:120-148 | A keyring's value is a hundred bytes longer than key ID and text together, with a wrapped data key of 61 bytes |
| KeyringConfig.NewKeyring | apps/api/internal/operations/keyring.go:80-116 | A keyring is built exactly from distinct keys with IDs of bounded length that include the active and all legacy ones; legacy keys count once, where they come first |
| Keyring.CurrentExactlyWhen | apps/api/internal/operations/keyring.go:227-236 | Under either cipher a record needs no migration if and only if it names the active key and holds an envelope of the cipher's own version under that key; it cannot be told exactly for a broken envelope |
| Keyring.WritesAreCurrent | apps/api/internal/operations/asymmetric_envelope.go:161-167 | A fresh write needs no migration |
| Keyring.ReencryptKeepsPlaintext | apps/api/internal/operations/keyring.go:241-248 | Re-encryption keeps the plaintext, moves the value to the active key and leaves nothing to migrate |
| Keyring.RotationHistoryKeepsPlaintext | apps/api/internal/operations/asymmetric_envelope.go:161-176 | Over every history of key rotations, symmetric to public included, the plaintext survives and the last active key is named |
| Keyring.EncryptsExactlyWhen | apps/api/internal/operations/asymmetric_envelope.go:188-194 | Encryption succeeds if and only if the whole envelope is no longer than a machine integer can say, which leaves room for every text short of that by the longest key ID and wrapped key |
| Keyring.RotationSucceedsExactlyWhen | apps/api/internal/operations/asymmetric_envelope.go:161-176 | A history of rotations goes through to its end if and only if the text fits under every configuration of it |
| Reencryption.LocatorsAreOrdered | apps/api/internal/operations/reencryption.go:307-313 | The record order is a strict total order |
| Reencryption.BeforeExactlyWhen | apps/api/internal/operations/reencryption.go:307-313 | Records go by kind and then by ID, in byte order |
| Reencryption.AddKeepsAccounts | apps/api/internal/operations/reencryption.go:185-232 | Counting one record keeps scanned = rotated + pending + skipped + failed, and each total the sum over source keys |
| Reencryption.CombineKeepsAccounts | apps/api/internal/operations/reencryption.go:262-286 | Combining a saved and a fresh result keeps both accounts |
| Reencryption.RotatorIsLawful | apps/api/internal/operations/keyring.go:227-248 | Both ciphers meet the laws that the worker relies on |
| ReencryptionWorker.World.SortedPage | apps/api/internal/operations/reencryption.go:42-48 | The store's page is the next batch in record order |
| ReencryptionWorker.World.Replace | apps/api/internal/operations/reencryption.go:39-48 | Replacement compares both the old key ID and the old ciphertext before it swaps |
| ReencryptionWorker.World.Visit | apps/api/internal/operations/reencryption.go:185-232 | One record is counted once under its source key with exactly the fate its replacement meets, contested or failing ones included, and changes no row but its own |
| ReencryptionWorker.World.ScanPage | apps/api/internal/operations/reencryption.go:179-233 | A page is visited in order up to the first cancellation or invalid record |
| ReencryptionWorker.World.RunFrom | apps/api/internal/operations/reencryption.go:164-244 | The cursor loop terminates; undisturbed, it visits the records beyond its start each once and in order and reports their tally |
| ReencryptionWorker.World.RunOperator | apps/api/internal/operations/reencryption.go:107-162 | An operator's run continues a checkpoint of this format and active key, refuses exactly the others without effect, and reports the saved counts plus its own; a dry run writes nothing |
| ReencryptionWorker.CutRunIsOnePass | apps/api/internal/operations/reencryption.go:107-162 | A run cut at any saved checkpoints and resumed visits every record once and reports what one pass would |
| ReencryptionWorker.ResumeEqualsUninterrupted | apps/api/internal/operations/reencryption.go:107-162 | Two runs over the same records end with the same counts, per-key counts and last record, however either was cut |
| ReencryptionWorker.CleanPassSettlesEverything | apps/api/internal/operations/reencryption.go:164-244 | After a pass with no failure every record reads as before and needs no migration, each was scanned once, and a second pass rotates nothing |
| ReencryptionWorker.CleanPassMovesEverySecret | apps/api/internal/operations/reencryption.go:164-244 | With either envelope cipher, after a clean pass every secret that could be read reads the same, and every record holds the cipher's own kind of envelope under the active key and names that key |
| RotationReport.FateExactlyWhen | apps/api/internal/operations/reencryption.go:193-232 | A record is skipped if and only if it is in order already, fails if and only if it is not and cannot be read or would not fit, and is otherwise rotated, or pending in a dry run |
| RotationReport.ScanReportsWhatHappened | apps/api/internal/operations/reencryption.go:185-232 | Each reported figure, in all and per key, is the number of records that met the fate it is named after |
| RotationReport.EnvelopeCountsUnderItsKey | apps/api/internal/operations/reencryption.go:246-254 | An envelope is counted under the key it names |
| RotationReport.OthersCountUnderTheirColumn | apps/api/internal/operations/reencryption.go:246-254 | Anything else is counted under its key column without the blanks around it, or under legacy-or-unknown |
| RotationReport.MalformedExactlyWhen | apps/api/internal/operations/reencryption.go:288-305 | A record is well-formed if and only if its kind is one of three, its ID shows something and it has a ciphertext |
| RotationReport.TrimmedTextIs | apps/api/internal/operations/reencryption.go:107-118 | Trimming takes the white space off both ends of a scope or ID and nothing else |
| Retention.Accept | apps/api/internal/operations/retention.go:101-119 | A configuration is accepted exactly when batch bounds are positive, rules exist, datasets are known and distinct, and no age is negative |
| Retention.World.PurgeExpired | apps/api/internal/operations/retention.go:52-66 | The store removes only rows of the dataset asked for that were kept longer than its rule asks, at most a batch, and a short batch means none is left |
| Retention.World.Run | apps/api/internal/operations/retention.go:124-165 | The scheduled run drains each rule on its own account, removes only rows kept longer than their rule asks, and leaves none of them when nothing failed or was truncated |
| Retention.World.RunRule | apps/api/internal/operations/retention.go:244-282 | The batch loop of one rule checkpoints after every batch and reports truncation only after a full budget of full batches |
| Retention.World.CountAll | apps/api/internal/operations/retention.go:186-212 | A dry run writes nothing and counts for every rule that did not fail exactly the rows kept longer than it asks |
| Retention.World.RunOperator | apps/api/internal/operations/retention.go:178-288 | Whatever crashes or fails around it, an operator's run removes only rows kept longer than their rule asks at its evaluation time, leaves none when it finishes from the start, refuses exactly the checkpoints that do not belong to it, and leaves a checkpoint that tells the truth |
| Retention.CheckpointedRulesStayPurged | apps/api/internal/operations/retention.go:243-282 | Over any history of runs the rules before the saved index have nothing left to purge |
| Retention.FinishedRunsPurgeOnce | apps/api/internal/operations/retention.go:178-288 | However often earlier runs crashed, were truncated or resumed, a finishing run leaves what one purge at its evaluation time would |
| Retention.FinishedRunsPurgeAtFirstAsOf | apps/api/internal/operations/retention.go:178-288 | If every later run is given the first evaluation time or finds a checkpoint, exactly the rows eligible at the first evaluation time are removed |
| Retention.FinishedRunsPurgeExactlyTheRipe | apps/api/internal/operations/retention.go:178-288 | For a store that goes by a stamp, such a history removes exactly the rows whose stamp plus retention lies before the first evaluation time |
| Retention.FirstAsOfGovernsExactlyWhen | apps/api/internal/operations/retention.go:182-185 | Otherwise the first evaluation time governs if and only if no further row became eligible meanwhile |
| Retention.CrashBeforeCheckpointMovesAsOf | apps/api/internal/operations/retention.go:182-185 | A concrete history: a crash before the first checkpoint lets the retry purge a row that was not eligible at first |
| Retention.ReportedNeverExceedsRemoved | apps/api/internal/operations/retention.go:262-281 | Reported deletions never exceed the rows removed, per dataset |
| Retention.ReportedEqualsRemoved | apps/api/internal/operations/retention.go:262-281 | When every cut falls on a checkpoint the final report is exact, per dataset |
| Retention.TruncatedRunsAreBounded | apps/api/internal/operations/retention.go:279-282 | Truncated runs make progress, so only as many can follow one another as there are rows |
| GraphQLInspector.PageSize | apps/api/internal/graphql/server.go:294-325 | An accepted page size is between 1 and 100 |
| GraphQLCosts.PageSizeIsWhatIsWritten | apps/api/internal/graphql/server.go:294-325 | A page size is granted if and only if the argument, its variable or that variable's default is a decimal writing of a number from 1 to 100 |
| GraphQLInspector.Inspector.CountField | apps/api/internal/graphql/server.go:239-268 | Counting one field makes its checks in order and adds its weight |
| GraphQLInspector.Inspector.Walk | apps/api/internal/graphql/server.go:229-292 | The recursive walk terminates on every document, leaves the set of open fragments as it was, and computes the specified counters and verdict |
| GraphQLInspector.ExpansionIsUnique | apps/api/internal/graphql/server.go:275-289 | An operation has at most one fragment-expanded form |
| GraphQLInspector.AcceptedExpands | apps/api/internal/graphql/server.go:229-292 | An accepted walk has an expansion within the limits, and field count, cost, depth and root count are that expansion's |
| GraphQLInspector.FittingIsAccepted | apps/api/internal/graphql/server.go:229-292 | An operation with an expansion within the limits is accepted, so no fragment it uses is cyclic or unknown |
| GraphQLInspector.Inspect | apps/api/internal/graphql/server.go:185-227 | The preflight accepts exactly the admissible operations whose expansion exists and is within every limit, with one root field for a mutation, and reports its cost and depth |
| GraphQLInspector.AcceptedDepthIsAtMostEleven | apps/api/internal/graphql/server.go:230-232 | Because depth is checked on entering even an empty selection set, accepted fields stand at depth eleven at most |
| GraphQLCosts.OneField | apps/api/internal/graphql/server.go:239-268 | A single field passes unless it is introspection or asks for no valid page, and costs its page size, a hundred or one |
| GraphQLCosts.CostIsProductAndSum | apps/api/internal/graphql/server.go:249-268 | A field multiplies the cost of everything under it by its own factor, fragments add nothing, and siblings add up |
| GraphQLCosts.ManyFields | apps/api/internal/graphql/server.go:243-268 | Equal fields pass up to two hundred of them and a total cost of a thousand; a mutation has one |
| GraphQLCosts.DeepFields | apps/api/internal/graphql/server.go:229-232 | Nested fields pass up to eleven levels and no further |
| GraphQLCosts.SpreadsTakeALevel | apps/api/internal/graphql/server.go:271-289 | A spread takes a level of depth, an inline fragment none |
| GraphQLInspector.CyclicHasNoExpansion | apps/api/internal/graphql/server.go:276-278 | A selection set from which some path of spreads, nested in fields and inline fragments as may be, comes back to a fragment has no expansion |
| GraphQLInspector.ExpandsExactlyWhen | apps/api/internal/graphql/server.go:275-289 | An expansion exists if and only if every path of spreads meets known fragments only and none of them twice |
| GraphQLInspector.RootSearch.Find | apps/api/internal/http/graphql_rate_limit.go:191-217 | The root-field search terminates, restores its visited set and returns the specified field |
| GraphQLInspector.AcceptedMutationHasOneRoot | apps/api/internal/http/graphql_rate_limit.go:191-217 | For an accepted mutation the search returns the one root field of the expansion |
| SyncExecution.ReachableStatesAreSafe | apps/api/internal/integrations/sync.go:269-317 | In every interleaving at most one call works on a connection, each job reaches its provider at most once, and at most one unexpired job exists per connection and key |
| SyncExecution.StatusStep | apps/api/internal/integrations/sync.go:319-340 | A step keeps a stored status or moves it from pending to running or from running to a final one |
| SyncExecution.StatusOnlyMovesForward | apps/api/internal/integrations/sync.go:319-457 | Over any stretch of a run a status never moves backward, and a final one stays until purged |
| SyncExecution.StepInv | apps/api/internal/integrations/sync.go:644-670 | Every step of every caller keeps the lock exact, the record true and keys unique |
| SyncExecution.SyncService.AcquireExecution | apps/api/internal/integrations/sync.go:658-669 | The connection is taken if and only if nobody holds it |
| SyncExecution.SyncService.GetSyncJobByIdempotencyKey | apps/api/internal/integrations/memory_store.go:362-384 | The lookup finds an unexpired job under the key if there is one, the latest created |
| SyncExecution.SyncService.IdempotentJob | apps/api/internal/integrations/sync.go:491-507 | A repeated key replays its job for the same request and conflicts for another |
| SyncExecution.SyncService.ExecutePending | apps/api/internal/integrations/sync.go:269-289 | A drained job is re-read under the lock; if it is run, the call succeeds exactly when provider and stores did; undisturbed it is run exactly when pending and free, and the lock is given back on every path |
| SyncExecution.SyncService.Sync | apps/api/internal/integrations/sync.go:291-317 | A synchronisation answers with a job of its own connection, key and request; a new job is answered without error exactly when provider and stores accepted, and is then stored as succeeded; undisturbed a new job is made exactly when the connection is free and no earlier one answers the key |
| SyncExecution.SyncService.ExecuteAcquired | apps/api/internal/integrations/sync.go:319-457 | Under any interference: no error exactly when the job was started, the provider reached and accepted, and the job saved, which is then stored as succeeded after one provider call; a provider's failure is stored as failed |
| SyncExecution.SyncService.EnqueueManualSync | apps/api/internal/integrations/sync.go:125-153 | Enqueueing answers with the earlier job of the same request or a new pending one that counts for a day, made only for a syncable connection |
| SyncExecution.PurgeTakesItsConnection | apps/api/internal/integrations/memory_store.go:110-129 | Purging a connection takes its jobs and no others |
| Ingest.Validate | apps/api/internal/integrations/custom.go:574-629 | The first failing check is reported; none fails exactly when the event is acceptable |
| IngestLaws.RejectedForTheFirstFault | apps/api/internal/integrations/custom.go:574-629 | An event is rejected for something that is wrong with it and for nothing checked later than another fault; without a fault it is not rejected |
| IngestLaws.DateExactlyWhen | apps/api/internal/integrations/custom.go:584-588 | A date is read exactly from its one writing YYYY-MM-DD |
| IngestLaws.RangeExactlyWhen | apps/api/internal/integrations/custom.go:589-593 | Dates count from the same day ten years ago, by the Gregorian calendar, to tomorrow |
| IngestLaws.EventsKeepTheirPlaces | apps/api/internal/integrations/custom.go:391-420 | An acceptable event becomes the ledger entry with its provider, subject, ID, content and time, in order; any other is reported with its ID, place and fault |
| Ingest.CustomProviderService.SaveIngestedActivities | apps/api/internal/integrations/memory_store.go:236-257 | The ledger skips events it already holds and returns the new ones in order |
| Ingest.CustomProviderService.CanonicalRequestedActivities | apps/api/internal/integrations/custom.go:706-729 | Each requested event once, in order, as the ledger holds it |
| Ingest.CustomProviderService.ExpireIdempotencyRecords | apps/api/internal/integrations/custom.go:743-749 | Exactly the records past their expiry are dropped |
| Ingest.CustomProviderService.IngestPrepared | apps/api/internal/integrations/custom.go:325-487 | One ingest replies and writes as specified on every path, failing store and sink included |
| IngestLaws.OnlyAuthenticCallsCount | apps/api/internal/integrations/custom.go:295-297 | In every run a call has a result or an effect only with an active provider's own secret, one to a thousand events and no key or one of 8 to 255 characters |
| IngestLaws.RefusedExactlyWhen | apps/api/internal/integrations/custom.go:280-297 | Each refusal is given exactly under its condition, in the order of the checks, and leaves everything as it was |
| IngestLaws.AnswersExactlyWhen | apps/api/internal/integrations/custom.go:376-487 | A call that is let in conflicts, replays, fails with the store or the sink or succeeds exactly under their conditions; what it accepts is what the ledger gains, and its answer is kept for a day |
| IngestLaws.RecordsRunOut | apps/api/internal/integrations/custom.go:743-749 | Other answers are kept exactly until they run out |
| Ingest.LedgerKeepsFirstValidEvent | apps/api/internal/integrations/memory_store.go:236-257 | Over any sequence of ingests the ledger holds, per provider and external ID, the first valid event ever saved |
| Ingest.CountsAlwaysAddUp | packages/custom-provider-sdk/src/client.ts:150-159 | After any sequence of ingests, accepted + duplicate + rejected is the batch size of every successful call, replays included |
| Ingest.PublishesCanonicalEntries | apps/api/internal/integrations/custom.go:406-430 | The sink is told, for each valid event asked for once, the ledger's own entry |
| IngestLaws.FactsTellTheEvent | apps/api/internal/integrations/custom.go:686-704 | A published fact has the entry's date, action, metric, value, properties and times, and the provider's environment |
| IngestLaws.DistinctInOrder | apps/api/internal/integrations/custom.go:706-729 | Facts are told in the order in which their events were first asked for |
| Ingest.RetryRepairsProjection | apps/api/internal/integrations/custom.go:409-430 | After a failed projection, and any calls in between, repeating the batch accepts nothing twice and publishes exactly what the failed call would have |
| Ingest.SameKeyReplays | apps/api/internal/integrations/custom.go:376-388 | Within a day and whatever comes between, the same key and body get the same result and write no event; another body is refused |
| Ingest.RecordKeysDiffer | apps/api/internal/integrations/custom.go:739-741 | Idempotency keys of different providers or requests never meet while provider IDs hold no NUL |
| Ingest.ReplayStored | apps/api/internal/integrations/custom.go:489-504 | A stored response is replayed exactly when the fingerprint matches and its status is 202 |
| Revocation.ReachableStatesAreSafe | apps/api/internal/integrations/revocation_worker.go:81-136 | Over all runs with crashes, expiring leases and several workers: at most the maximum of provider calls per job, completion only after an accepted call, dead-lettering only after that many claims |
| Revocation.LostClaimsStayLost | apps/api/internal/integrations/ports.go:51-55 | Over any stretch of a run, a claim that has stopped owning its job never owns it again |
| Revocation.LostClaimChangesNothing | apps/api/internal/integrations/ports.go:51-55 | In every run, a claim in hand whose job was meanwhile completed, dead-lettered, queued again or claimed anew changes neither a job nor an outcome at any later point |
| Revocation.ReclaimFencesOlderClaims | apps/api/internal/integrations/ports.go:51-55 | In every run, once a job is claimed again every earlier claim of it is powerless for good |
| Revocation.ReachableStatesAreFenced | apps/api/internal/integrations/ports.go:51-55 | In every reachable state each token, stored or in a worker's hands, was handed out before the next one |
| Revocation.TerminalIsForGood | apps/api/internal/integrations/revocation_worker.go:22-28 | In every run a dead-lettered job is kept as it is and a completed one never comes back |
| Revocation.NobodyTakesIt | apps/api/internal/integrations/ports.go:51-55 | A job that waits for its time, or is on a running lease, is changed by nobody but the claim that holds it |
| Revocation.WhatIsDueIsTaken | apps/api/internal/integrations/revocation_worker.go:81-86 | A worker that asks for a job that is due, or whose lease ran out, gets it on its own lease as one more attempt |
| Revocation.AttemptCallsOnce | apps/api/internal/integrations/revocation_worker.go:103-112 | An attempt calls the provider once if the token can be decrypted and not otherwise |
| Revocation.OwnClaimDecides | apps/api/internal/integrations/revocation_worker.go:113-136 | Disposal by its own claim completes an accepted job, dead-letters one whose attempts are used up, and queues any other for the chosen time |
| Revocation.NothingIsDisposedUntried | apps/api/internal/integrations/revocation_worker.go:96-112 | A job with attempts left is not disposed of before it was tried |
| Revocation.NewConfig | apps/api/internal/integrations/revocation_worker.go:51-66 | A configuration is accepted exactly with a call that ends before its lease and limits of at most a hundred; no limit stands for eight |
| Revocation.RevocationWorker.Process | apps/api/internal/integrations/revocation_worker.go:96-136 | A job beyond its attempts is dead-lettered without a call; otherwise it is tried once and completed, retried or dead-lettered, unless its lease was lost |
| Revocation.RevocationWorker.RunOnce | apps/api/internal/integrations/revocation_worker.go:81-94 | A poll reports on every job it claimed, whatever fails or interferes: each decryptable one with attempts left reached the provider, a settled success is completed, a dead letter had used up its attempts, and all of that lasts |
| Backoff.RevocationRetryDelay | apps/api/internal/integrations/revocation_worker.go:138-162 | The delay is minutes doubling up to a day, give or take a fifth, never beyond a day |
| Backoff.RevocationDelays | apps/api/internal/integrations/revocation_worker.go:11-15 | The first delays are one and two minutes, and from the twelfth attempt on a day |
| Backoff.JitterSpans | apps/api/internal/integrations/revocation_worker.go:149-157 | The random number takes the delay from its lower to its upper end |
| Deletion.ReachableStatesAreSafe | apps/api/internal/operations/deletion.go:216-298 | However claims crash, fail, are held and are superseded, credentials are revoked and data deleted at most once, completion comes at most once and only after a verification that totals zero, by the same claim, after the deletion |
| Deletion.CompletionFollowsZeroVerification | apps/api/internal/operations/deletion.go:245-254 | Every completion in every run has such a verification, whose twelve counters are all zero unless their true sum is a positive multiple of 2^64, which counters below 2^60 never reach |
| Deletion.CompletionCanHideResidues | apps/api/internal/operations/deletion.go:81-85 | A run that completes although its verification reported four counters of 2^62 |
| Deletion.StageNeverGoesBack | apps/api/internal/operations/deletion.go:230-298 | The stored stage never goes backward |
| Deletion.LostClaimsStayLost | apps/api/internal/operations/deletion.go:102-104 | Over any stretch of a run a claim that is no longer leased never becomes so again |
| Deletion.LostClaimChangesNothing | apps/api/internal/operations/deletion.go:126-128 | In every run, once a claim is superseded, released or out of time, nothing done under it at any later point changes the request or takes a destructive or completing step |
| Deletion.NewClaimFencesEarlierOnes | apps/api/internal/operations/deletion.go:102-104 | In every run, once the request is claimed again no executor of an earlier claim changes it at any later point |
| Deletion.FailureReturnsClaim | apps/api/internal/operations/deletion.go:283-298 | A legal hold gives the claim back unspent until the hold ends; another failure spends it; neither moves the stage |
| Deletion.TakenExactlyWhen | apps/api/internal/operations/deletion.go:102-104 | The request is handed out exactly while it is open, tried fewer than a hundred times, due, and on no running lease |
| Deletion.AdvanceDecides | apps/api/internal/operations/deletion.go:236-281 | Under a claim in force each stage is stored with its event; a legal hold stops the two destructive stages, a failing store any |
| Deletion.VerificationDecides | apps/api/internal/operations/deletion.go:245-254 | A verification is passed exactly when it succeeds and the true sum it reports is a multiple of 2^64 |
| Deletion.FailDecides | apps/api/internal/operations/deletion.go:283-298 | A recorded failure ends the claim, keeps the stage, and gives a try back only for a legal hold |
| Deletion.DeletionWorkflow.RunClaimed | apps/api/internal/operations/deletion.go:216-281 | One claim loads under its token, advances stage by stage, and reports success only for a completed request, and then always when nothing disturbs it and every call succeeds |
| Deletion.ZeroTotalExactlyWhen | apps/api/internal/operations/deletion.go:81-85 | The wrapping total is zero if and only if the true sum is a multiple of 2^64 |
| Deletion.ZeroTotalMisleadsExactlyWhen | apps/api/internal/operations/deletion.go:81-85 | Residues total zero if and only if their true sum is a positive multiple of 2^64; below 2^60 per counter a zero total says that nothing is left |
| Paging.Store.ListPage | apps/api/internal/integrations/memory_store.go:84-108 | Filtering, sorting and truncating yields exactly the first rows beyond the cursor in position order |
| Paging.ValidatePage | apps/api/internal/integrations/pages.go:40-54 | Arguments are accepted exactly when subject, size and cursor are well-formed |
| Paging.ListPage | apps/api/internal/integrations/pages.go:56-76 | The one-row lookahead returns the page asked for and says truly whether another follows |
| Paging.CheckConnections | apps/api/internal/graphql/integration_query_resolver.go:108-128 | The resolver accepts exactly pages of presentable rows, strictly ascending beyond the cursor, each of which a cursor can carry: a canonical UUID and a year from 1 to 9999 |
| Paging.CheckSyncJobs | apps/api/internal/graphql/syncjob_connection_resolver.go:87-114 | The sync-job resolver's differently written check accepts exactly jobs of the connection with both times and no negative attempt, in the same strict order, each of which a cursor can carry |
| Paging.Resolve | apps/api/internal/graphql/integration_query_resolver.go:92-134 | A page the service gives passes the resolver's check if and only if every row of it has its update time and makes a cursor; the order never fails |
| Paging.OddIDIsRefused | apps/api/internal/graphql/cursor/codec.go:40-49 | A stored row whose ID is no UUID is refused although it has both times and stands alone |
| Paging.ComparePositions | apps/api/internal/graphql/syncjob_connection_resolver.go:125-139 | The three-way comparison agrees with the store's order |
| Keyset.CompareExactlyWhen | apps/api/internal/graphql/syncjob_connection_resolver.go:125-139 | An ID comes before another exactly when it is a proper beginning of it or smaller where they first differ |
| PagingLaws.PageHoldsTheOldest | apps/api/internal/integrations/memory_store.go:84-108 | A page holds the subject's unrevoked rows beyond the cursor, oldest first and then by ID, and skips none before its last |
| PagingLaws.CanonicalExactlyWhen | apps/api/internal/integrations/pages.go:47-52 | A canonical ID is five groups of small hexadecimal digits |
| PagingLaws.EncodableYears | apps/api/internal/graphql/cursor/codec.go:41-49 | A cursor carries the times from year 1 to the end of year 9999 |
| Paging.ReadAll | apps/api/internal/integrations/pages.go:56-76 | Asking the service for page after page by last-row cursor ends and gives the whole sorted list; it is refused if and only if its arguments are wrong or the last row of some page that another follows is no valid cursor |
| Paging.ResolveAll | apps/api/internal/graphql/integration_query_resolver.go:92-134 | The same walk through the resolver gives the whole list if and only if the arguments are right and every visible row has its update time and makes a cursor |
| Paging.StableRowsAreVisitedOnce | apps/api/internal/integrations/memory_store.go:84-108 | Whatever is inserted or removed between pages, no row is returned twice and a row present throughout is returned exactly once |
| SessionPaging.SessionsAreOrdered | apps/api/internal/auth/memory_store.go:343-375 | Newest-first is a strict order and the session filter keeps exactly what follows the cursor |
| PagingLaws.NewestFirstExactlyWhen | apps/api/internal/auth/memory_store.go:365-370 | Newest first, and of sessions of the same age the one whose ID comes first |
| SessionPaging.ListSessionsPage | apps/api/internal/auth/memory_store.go:343-375 | The query gives the first of a user's sessions beyond the cursor, newest first, and one more than asked for |
| SessionPaging.ReadAllSessions | apps/api/internal/auth/memory_store.go:343-375 | Session pages end and concatenate to the whole newest-first list |
| Backoff.NextRetry | apps/api/internal/integrations/retry.go:35-68 | A retry is granted exactly below the attempt limit; without jitter the delay is exactly the capped power of two, computed without overflow; with jitter it stays within bounds |
| Backoff.NewPolicy | apps/api/internal/integrations/retry.go:25-34 | A policy is accepted exactly with positive, ordered delays, an attempt and a fraction |
| Backoff.Doubled | apps/api/internal/integrations/retry.go:39-49 | The doubling loop reaches exactly min(cap, initial * 2^(n-1)) |
| Scheduling.SelectDue | apps/api/internal/integrations/scheduler.go:63-104 | The selection loop with its settings cache selects exactly the due connections and hands them out in the order of their IDs |
| Scheduling.DueFrom | apps/api/internal/integrations/scheduler.go:80-103 | When a connection in each state is due: at once, an interval after its last success, from its next attempt on, or never |
| Scheduling.ScheduledExecutionsAreBounded | apps/api/internal/integrations/scheduler.go:87-103 | A connection whose provider always fails gets at most the maximum of scheduled executions, whatever manual ones come between |
| Scheduling.ScheduledExecutionsAreSpaced | apps/api/internal/integrations/scheduler.go:87-103 | In every run, of two successive executions that were both scheduled the second started no earlier than the first one's finish plus the delay returned for it |
| Scheduling.ScheduledStartIsSpacedExactlyWhen | apps/api/internal/integrations/scheduler.go:87-103 | A scheduled execution after any other one is recorded as spaced if and only if, at its start, the connection's next attempt time is set and has come |
| Scheduling.ManualExecutionBreaksSpacing | apps/api/internal/integrations/scheduler.go:87-103 | A run whose scheduled execution starts within the delay of a manual one that came between look and start |
| Scheduling.ConnectionRecord.FailedExecution | apps/api/internal/integrations/sync.go:401-421 | A failed execution counts one attempt and sets the next attempt time by the retry policy |
| AuthStore.MemoryStore.SaveMagicLink | apps/api/internal/auth/memory_store.go:154-176 | A new link consumes every pending one for its email and purpose |
| AuthStore.MemoryStore.ConsumeMagicLink | apps/api/internal/auth/memory_store.go:178-202 | A link is consumed once, before it expires |
| AuthStore.MemoryStore.GetOrCreateUserByEmail | apps/api/internal/auth/memory_store.go:88-119 | The email's user is found or created under the suggested ID, unless the email was forgotten and is still barred |
| AuthStore.MemoryStore.SaveSession | apps/api/internal/auth/memory_store.go:223-244 | A session is stored only under a new token hash and for an active user, and otherwise nothing changes |
| AuthStore.MemoryStore.ConsumeCeremony | apps/api/internal/auth/memory_store.go:467-487 | A ceremony is consumed once, of its own kind and before it expires |
| AuthStore.MemoryStore.UseCredential | apps/api/internal/auth/memory_store.go:542-565 | The counter is swapped in only for the expected stored value and only if it advanced |
| AuthStore.MemoryStore.TombstoneUserByEmail | apps/api/internal/auth/memory_store.go:125-152 | Forgetting an email removes its user, sessions and passkeys and bars it until the expiry |
| AuthStore.ReachableStatesAreSafe | apps/api/internal/auth/service.go:152-187 | In every reachable state: one pending link per email and purpose, one session per link, and counters accepted for a passkey strictly increasing once non-zero |
| AuthStore.SpentLinkStaysSpent | apps/api/internal/auth/memory_store.go:178-202 | A link that has yielded its session never yields another |
| AuthStore.RacingAssertions | apps/api/internal/auth/service.go:569-581 | Of two assertions racing on one stored count the second is accepted only if the first left it at zero |
| AuthStore.AuthService.CompleteMagicLink | apps/api/internal/auth/service.go:152-187 | Under any interference a granted link has yielded exactly one session, and a spent link is refused without effect; undisturbed it is granted exactly for a good link, an owner who may sign in and a storable session, which is then that owner's |
| AuthStore.AuthService.CompletePasskeyLogin | apps/api/internal/auth/service.go:520-588 | Under any interference a granted login advanced the stored counter it had loaded; undisturbed it is granted exactly for a good ceremony, the right passkey of an active user, an advancing counter and a storable session, which is then that user's |
| AuthStore.AdvancesExactlyWhen | apps/api/internal/auth/service.go:721-723 | A count is acceptable exactly if it is greater or both are zero |
| AuthStore.InvalidationTakesOne | apps/api/internal/auth/memory_store.go:204-221 | Invalidating takes one link out of use and no other |
| AuthStore.RegisteredExactlyWhen | apps/api/internal/auth/memory_store.go:489-511 | A passkey is registered exactly for a known user under an unused key and ID |
| AuthStore.CeremonyStoredExactlyWhen | apps/api/internal/auth/memory_store.go:451-465 | A ceremony is stored exactly under a new ID and for some time |
| AuthStore.ForgottenStaysForgotten | apps/api/internal/auth/memory_store.go:88-152 | A forgotten email finds and makes no user until its time is up |
| LiteralInventory.GroupConstants | scripts/check-adapter-sql-allowlist.go:159-184 | A constant takes its value from the nearest line of its group that has values, if the counts match |
| LiteralInventory.Resolver.StaticString | scripts/check-adapter-sql-allowlist.go:186-218 | The resolver terminates on cyclic constants, restores its set and computes the specified text |
| LiteralInventory.StaticIsFullUnfolding | scripts/check-adapter-sql-allowlist.go:186-218 | It succeeds if and only if the expression unfolds completely, and then yields the concatenated text |
| LiteralInventory.Hashed | scripts/check-adapter-sql-allowlist.go:128-134 | The loop writes each literal behind its length and a colon |
| LiteralInventory.DecimalSaysTheNumber | scripts/check-adapter-sql-allowlist.go:128-134 | Lengths are written in decimal digits, the first one counting most |
| LiteralInventory.StreamOfTwo | scripts/check-adapter-sql-allowlist.go:128-134 | The stream of two given values |
| LiteralInventory.StreamIsInjective | scripts/check-adapter-sql-allowlist.go:128-134 | No two different lists of literals feed the same stream to the hash |
| Heatmap.PlaceIsOffset | apps/api/internal/render/heatmap.go:164-167 | A day stands in column offset / 7 and row offset mod 7 |
| Heatmap.WeekHoldsDay | apps/api/internal/render/heatmap.go:270-284 | A week is the seven days from the Sunday or Monday on or before a day |
| Heatmap.WeekStartIs | apps/api/internal/render/heatmap.go:91-96 | A week starts on a Sunday unless asked to start on a Monday |
| Heatmap.WeekdaysFollow | apps/api/internal/render/heatmap.go:278-284 | 1 January 1970 is a Thursday and weekdays follow one another |
| Heatmap.SquaresAreOnAGrid | apps/api/internal/render/heatmap.go:109-117 | A square stands as many steps from the first place as its day's week and weekday say, in a picture with the given margins |
| Heatmap.LevelSteps | apps/api/internal/domain/activity/logic.go:32-45 | The level rises at one, three, six and ten |
| Heatmap.GridIsWholeWeeks | apps/api/internal/render/heatmap.go:109-111 | The grid is exactly seven days for each counted week |
| Heatmap.WellLaidExactlyWhenInReach | apps/api/internal/render/heatmap.go:109-117 | Squares are apart and inside the picture if and only if the range stays within what a duration can count |
| Heatmap.CoordinatesFit | apps/api/internal/render/heatmap.go:109-117 | For squares and gaps that together fit 32 bits, no coordinate or size leaves the 64-bit range |
| Heatmap.NormalizeDays | apps/api/internal/render/heatmap.go:249-268 | Per date the sum of all its counts; an error exactly for an invalid date, a negative count or an overflowing sum |
| Heatmap.ResolveRange | apps/api/internal/render/heatmap.go:213-247 | The shown range is the given one or the first and last recorded date; an empty range exactly when a date is neither given nor recorded, the empty text counting as none, and an invalid date exactly when one is recorded or given otherwise |
| Heatmap.Render | apps/api/internal/render/heatmap.go:67-211 | One cell a day in date order, each on its place and carrying its date's sum, in a picture of the specified size |
| Heatmap.AddMetricValues | apps/api/internal/domain/activity/logic.go:50-59 | Addition fails exactly for negative operands or overflow |
| Streak.Summarize | apps/api/internal/graphql/activity_resolver.go:73-110 | The loop yields the exact total and the longest run of successive active entries, and fails exactly on a negative count, overflow or missing date |
| Streak.LongestIsCalendarStreak | apps/api/internal/graphql/activity_resolver.go:92-107 | For days in date order that is the greatest number of consecutive active calendar dates |

## Left out

- The Cockroach adapters, SQL, HTTP clients, mail, OAuth flows and the real WebAuthn verifier: represented by the store contracts and by oracles for their answers.
- Concrete cryptography, randomness and hashing: parameters with laws; sealing is total, while the library's AES-GCM gives up beyond 2^36 - 32 bytes of plaintext, far below the length bound of `Keyring.EncryptsExactlyWhen`; random identifiers and tokens are arbitrary values, assumed unused where the original relies on that, and the ingest fingerprint is assumed injective where a property depends on it.
- The constructor of the public-key cipher, which checks key IDs, key sizes and that private and public halves match: its result is the model's `Valid`.
- JSON encoding of checkpoints and responses: lossless.
- Non-ASCII white space beyond the two Latin-1 characters that Go trims: identifiers are compared as they are. String lengths are counted in characters.
- The durable claims variant of sync jobs and the durable ingest reservation store: only the in-memory paths are modelled, with `Ingest.ReplayStored` for the stored response.
- The validation of manual sync input (key length, dates, failure policy): an easy member; requests arrive valid.
- Concurrent ingests: calls are taken one after another, as keyed calls are under the service's mutex; two calls without a key may interleave their store and sink calls in the original.
- Connection fields other than those that scheduling reads, and what a provider returns: the outcome of a provider call is an oracle.
- The scheduler's worker pool: the order in which due connections start is arbitrary in the state machine.
- Eligibility for retention is a fixed test per row; rows that become eligible because other rows went away, and rows inserted during a run, are not modelled.
- The sorted order of failed and truncated datasets in a retention result: they are sets.
- Metadata is listed in the order in which validation meets it, since the original walks a map in no fixed order.
- Looking up an operation by name, parsing the query text and decoding the request body: the model starts from the parsed operation.
- The batch result counters of the deletion executor, its audit event and its request validation: easy members.
- The revocation of peer sessions and the listing of all sessions without pages: easy members.
- A bearer token's encoding check: a token is its digest.
- The text encoding of page cursors and node IDs: lossless on the positions that it accepts.
- The SQL detection expressions of the literal inventory: regular expressions over foreign text.
- SVG text, colours and labels of the heatmap: only geometry and counts are modelled.
- Floating-point rounding of jitter: delays are scaled as real numbers and truncated.
- The error that is reported first when several days are bad: `NormalizeDays` states when an error is reported, not which.
- Heatmap.WellLaidExactlyWhenInReach: computes with unbounded integers; `Heatmap.CoordinatesFit` shows that this is the machine's arithmetic for squares and gaps that fit 32 bits, far above the cell sizes 6 to 32 that the only caller passes on. For squares near 2^62 the original wraps.
- Heatmap.NormalizeDays: takes texts that are no dates to sort behind all dates; only the choice among several errors could depend on it.
- The normalisation of session cursors and the sign-in check before a session page: only the store's query is modelled.
