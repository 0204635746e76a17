# Event-to-incident pipeline: a Dafny model

This project models how GovSec Shield turns security events into incidents, and the command path beside
it, and proves what holds over every input, every run and every interleaving.

Events are ingested together with an outbox row, the outbox dispatcher claims rows under a lease and
publishes them, and a consumer correlates the published events into incidents with evidence. Operators
move incidents through their life cycle. Payloads and texts are sanitized at several layers. Commands
run under retries and a circuit breaker.

Where the source changes state step by step, so does the model: classes whose methods are proved
against functions on values (`CorrelationStore`, `OutboxRepository`, `OutboxDispatcher`, `Ingestion`,
`IncidentLifecycle`, `CommandBus`, `KafkaEventBus`, `CorrelationConsumer`, and the loops of
`PayloadSanitizer` and `CorrelationRules`). What several actors do through one database is a state
machine over their steps, with commits, aborts at any point, row locks, savepoints and unique
constraints (`ConcurrentCorrelation`, `DispatchProtocol`, `ConcurrentIngestion`, `IncidentHistory`).

| modules | what they are about |
|---|---|
| `Prelude`, `PythonText` | shared vocabulary; lower-casing, substring search and white space as the source's language has them |
| `TextSanitizer`, `TextSanitizerTheory`, `ScrubbedText`, `PayloadSanitizer`, `PayloadPaths` | the one-pass credential scrubber and the recursive payload sanitizer: what is left readable, and what is kept |
| `TimeBucket`, `IsoTime`, `CorrelationKey`, `CorrelationRules`, `Eligibility`, `SourceClashes` | time windows and how they print, canonical keys, the two rules and what they select, the rule catalogue, sources that share incidents |
| `IncidentStatus`, `CorrelationStore`, `CorrelationGrouping`, `IncidentOrigins`, `CorrelationReplay` | the correlation handler as a refinement of a group-by, where incidents come from, and replays |
| `ConcurrentCorrelation`, `ConcurrentCorrelationSafety`, `ConcurrentOrigins` | several correlators and operators at once |
| `IncidentLifecycle`, `IncidentHistory`, `IncidentCopies` | transitions, saving, and the stored history over all runs with any number of copies in memory |
| `OutboxRow`, `RetryBounds`, `OutboxRowHistory`, `OutboxRepository` | one row's claim and retry machine and what its columns tell; both repositories |
| `OutboxDispatcher`, `DispatchProtocol`, `DispatchSafety`, `DispatchProgress`, `DispatchRefinement`, `DispatchThroughBus` | one batch; several dispatchers with crashes; the batch as a run of the protocol; batches sent through the event bus |
| `Ingestion`, `ConcurrentIngestion`, `EventsDelivered` | the transaction that writes event, audit and outbox rows; from stored event to published message |
| `KafkaEventBus`, `CorrelationConsumer`, `OffsetCommits`, `Redelivery`, `CommittedOffsets` | publishing with deduplication; the consumer loop, its offsets, what is processed again and what is lost |
| `CommandBus`, `CommandBusBounds`, `BreakerHistory` | circuit breaker, retries and dead letters; the replies told by the history |

Assumptions: SHA-256 does not collide on the keys used, so a key stands for its hash; identifiers drawn
at random never repeat; the clock does not go back; a savepoint undoes only its own insert; a statement
reads committed rows and its own transaction's; of two conflicting inserts the second waits for the
first to end. A partition is a log that fixes the message at each offset, and a poll returns for each
partition the next messages of the log from the fetch position. What databases, brokers, publishers and
handlers answer comes in as parameters. All results about text hold for every table of Unicode classes
beyond ASCII.

Where the code and its documentation or comments differ, the model follows the code:

- The consumer states that a message whose database commit fails is delivered again. The loop goes on
  past a failure, so that holds exactly while no later message of the partition has been committed; once
  one has, the message is never processed again (`Redelivery.RedeliveredIff`,
  `Redelivery.LaterSuccessSkipsFailure`).
- An offset is committed only after the database commit of its message, but it also passes whatever an
  earlier cut batch of the session left unprocessed; those messages are lost exactly then
  (`CommittedOffsets.CommitPromise`, `CommittedOffsets.LostIff`).
- Saving an incident compares no version. The stored histories stay paths of the state machine exactly
  while every save that goes through finds the status its copy set out from
  (`IncidentHistory.PathsExactlyWhenChecked`, `IncidentCopies.BrokenHistoryReached`).
- Ingestion accepts idempotency keys of up to 128 characters, but the outbox row prefixes 44 characters
  in a column of 128, so keys beyond 84 are never stored (`Ingestion.LongKeysNeverStored`); and the
  outbox key omits the source, so a tenant cannot use one key for two sources
  (`Ingestion.SecondSourceRefused`).
- The comment on an empty rule catalogue also applies to one whose versions are all deactivated: then
  every rule applies again (`CorrelationRules.DeactivatedRuleApplies`).
- The floor in the time bucket's description is a truncation followed by a floor, which differs before
  the epoch (`TimeBucket.BeforeEpochMisplaced`, `TimeBucket.BucketCovers`).
- The canonical key shares its string with no other well-formed key exactly when no identifier or
  category has a colon (`CorrelationKey.SharesWithNoneIff`).
- The asset key of an unresolved event is described by its source and type. Two different sources can
  get the same asset key, and their events the same incident, exactly when one is the other followed by a
  colon and more (`CorrelationRules.SourcesClashIff`, `SourceClashes.SourcesMergeIff`).

## Model

| member | source | states |
|---|---|---|
| TextSanitizerTheory.MatchIffOpens | src/core/domain/incidents.py:88-94 | the four-alternative expression matches at a position exactly when the leading word, what separates it and the next character open one of the four credential forms |
| TextSanitizerTheory.ScrubIsClean | src/core/domain/incidents.py:97-116 | after one pass no position of the text opens a match whose token is still readable |
| TextSanitizerTheory.ScrubKeepsClean | src/core/domain/incidents.py:97-116 | a text without readable credentials is left as it is |
| TextSanitizerTheory.UnchangedIffClean | src/core/domain/incidents.py:109-116 | the texts a pass leaves alone are exactly those without readable credentials |
| TextSanitizerTheory.NoCredentialSurvives | src/core/domain/incidents.py:109-116 | wherever a pattern still matches in the output, its token is the mask |
| TextSanitizerTheory.SanitizeTextTwice | src/core/domain/incidents.py:109-116 | sanitizing a text twice equals sanitizing it once |
| ScrubbedText.SanitizedTextIs | src/core/domain/incidents.py:97-116 | every text is pieces and tokens in turn, each token that of the first match at a word boundary at or after the end of the one before, and the sanitized text is the same pieces with the mask for each token |
| ScrubbedText.OnlyTokensReplaced | src/core/domain/incidents.py:97-116 | however those tokens are found, they are all that changes |
| ScrubbedText.HitIs | src/core/domain/incidents.py:88-94 | where a match ends its kept prefix and its token, for each of the four forms, the optional scheme of a header included |
| ScrubbedText.TokenStops | src/core/domain/incidents.py:90-93 | header tokens run up to white space, a comma or a semicolon, parameter tokens up to white space, an ampersand or a semicolon |
| ScrubbedText.AsciiClasses | src/core/domain/incidents.py:88-94 | among ASCII characters, those no match starts after are letters, digits and the underscore, and white space is as the expression has it |
| ScrubbedText.BearerTokenIs | src/core/domain/incidents.py:91 | a bearer token is a maximal run of its alphabet and then of padding |
| ScrubbedText.BasicTokenIs | src/core/domain/incidents.py:92 | a basic token is a maximal run of its alphabet and then of padding |
| ScrubbedText.ParamIsMasked | src/core/domain/incidents.py:93 | for each of the ten parameter names in any case, `name=value` keeps the name and loses the value |
| ScrubbedText.SchemeIsMasked | src/core/domain/incidents.py:91-92 | a bearer or basic credential keeps scheme and white space and loses its value |
| ScrubbedText.HeaderIsMasked | src/core/domain/incidents.py:90 | an authorization header keeps its name and scheme and loses its value |
| PayloadSanitizer.SanitizePayload | src/core/domain/incidents.py:133-145 | the dictionary loop computes the recursive sanitizer, key by key in order; `PayloadPaths` tells what that keeps |
| PayloadSanitizer.SanitizeValue | src/core/domain/incidents.py:119-130 | the recursive sanitizer over dictionaries, lists, tuples, sets and strings; `PayloadPaths` tells what that keeps at every depth |
| PayloadSanitizer.SanitizedIsSafe | src/core/domain/incidents.py:119-130 | no sanitized value holds an unmasked sensitive entry or a readable credential at any depth |
| PayloadSanitizer.KeptIffSafe | src/core/domain/incidents.py:119-130 | the values the sanitizer leaves alone are exactly the safe ones |
| PayloadSanitizer.SanitizeTwice | src/core/domain/incidents.py:133-145 | sanitizing a payload again, on reload or when evidence is created, changes nothing |
| PayloadPaths.PathsAreKept | src/core/domain/incidents.py:119-145 | on every path that passes no sensitive key the sanitized value exists exactly where the original does: a list, tuple or set as a list of the same length, a dictionary with the same keys in order, a text sanitized, any other leaf itself |
| PayloadPaths.SensitiveIsMasked | src/core/domain/incidents.py:139-142 | the first sensitive key on a path holds the mask and nothing is left below it |
| PayloadPaths.SensitiveIff | src/core/domain/incidents.py:69-84 | an ASCII key is sensitive exactly when one of the words stands in it, in any case, dashes read as underscores |
| TimeBucket.OneFloor | src/core/application/correlation_handler.py:59-60 | from the epoch on, truncating to seconds and flooring to windows is one floor at microsecond scale |
| TimeBucket.BucketCovers | src/core/application/correlation_handler.py:59-62 | the bucket starts a window that contains the time, exactly from the epoch on or when the time has no fraction to lose |
| TimeBucket.BucketIsMultiple | src/core/application/correlation_handler.py:60 | every bucket is a multiple of the window |
| TimeBucket.BucketMonotone | src/core/application/correlation_handler.py:59-62 | later times never get earlier buckets |
| TimeBucket.BucketIdempotent | src/core/application/correlation_handler.py:59-62 | the bucket of a bucket's start is that bucket |
| TimeBucket.SameBucketIff | src/core/application/correlation_handler.py:59-62 | two events share a bucket exactly when the floors of their times agree |
| TimeBucket.BeforeEpochMisplaced | src/core/application/correlation_handler.py:59-60 | just before the epoch the bucket starts after the event |
| IsoTime.IsoTextInjective | src/core/application/correlation_handler.py:61-62 | over all the years a datetime can hold, window starts print to 25 characters, and two print alike only when they are the same instant |
| IsoTime.IsoReadsBack | src/core/application/correlation_handler.py:61-62 | a printed window start is a date of the calendar and a time of day in UTC, digit by digit, and reads back to its second |
| CorrelationKey.DecodeCanonical | src/core/domain/correlation.py:49-54 | the canonical string of a well-formed key decodes to its six fields, although asset key and window contain colons |
| CorrelationKey.CanonicalDecode | src/core/domain/correlation.py:49-54 | whatever decodes is the canonical string of what it decodes to |
| CorrelationKey.RoundTripIff | src/core/domain/correlation.py:49-54 | a key survives encoding and decoding if and only if it is well formed |
| CorrelationKey.CanonicalDecodes | src/core/domain/correlation.py:49-54 | whatever colons its fields have, a canonical string reads back to some key |
| CorrelationKey.CanonicalInjective | src/core/domain/correlation.py:24-27 | distinct well-formed keys never share a canonical string |
| CorrelationKey.SharesWithNoneIff | src/core/domain/correlation.py:49-58 | a key shares its string with no other well-formed key if and only if it is well formed itself, so every malformed key collides |
| CorrelationKey.AloneIff | src/core/domain/correlation.py:49-58 | among all keys, malformed ones included, a key is alone with its string exactly when no field before the window has a colon |
| CorrelationKey.ColonCollision | src/core/domain/correlation.py:49-54 | for instance, with a colon in the category the keys of two assets collide |
| CorrelationRules.EligibleEvents | src/core/infrastructure/correlation/rules.py:63-68 | the chosen events are exactly the eligible ones (`Eligibility` tells which those are) |
| CorrelationRules.Evaluate | src/core/infrastructure/correlation/rules.py:52-85 | one key per eligible event, in order, each field told, with the window left open |
| Eligibility.AvailabilityIff | src/core/infrastructure/correlation/rules.py:63-68 | for ASCII types the availability rule selects an event exactly when one of its five words stands in the type in any mix of case, or its severity is high or critical |
| Eligibility.BruteForceIff | src/core/infrastructure/correlation/rules.py:150-152 | for ASCII types the brute-force rule selects an event exactly when one of its four words stands in the type in any mix of case, whatever the severity |
| Eligibility.KeywordSelects | src/core/infrastructure/correlation/rules.py:64-65 | in any text, whatever else it holds, a keyword in any case makes the event eligible |
| Eligibility.CaseDoesNotMatter | src/core/infrastructure/correlation/rules.py:64 | events whose types differ only in case are selected alike by every rule |
| Eligibility.AssetKeyText | src/core/application/correlation_handler.py:76-80 | an asset key is the asset, or source, colon and type of an unresolved event |
| Eligibility.AvailabilityKeyText | src/core/application/correlation_handler.py:76-90 | the canonical string of the availability rule, part by part |
| Eligibility.BruteForceKeyText | src/core/application/correlation_handler.py:76-90 | the canonical string of the brute-force rule, part by part |
| CorrelationRules.EventsHaveWindows | src/core/application/correlation_handler.py:59-62 | every event from the epoch to the end of year 9999 has a window a datetime can hold |
| CorrelationRules.SameKeyIff | src/core/application/correlation_handler.py:65-90 | two events whose windows a datetime can hold get the same canonical key exactly when tenant, rule, asset key and window agree |
| CorrelationRules.AvailableRulesArePlain | src/core/infrastructure/correlation/rules.py:36-124 | the identifiers and categories of the two rules have no colon, so their keys are well formed |
| CorrelationRules.AssetKeyTells | src/core/application/correlation_handler.py:76-80 | unless one source followed by a colon begins the other, asset keys agree exactly for the same asset, or for unresolved events of the same source and type |
| CorrelationRules.SourcesClashIff | src/core/application/correlation_handler.py:76-80 | two different sources have unresolved events with one asset key if and only if one of them followed by a colon begins the other |
| CorrelationRules.SourceColonCollision | src/core/application/correlation_handler.py:76-80 | for instance, an unresolved "down" of "fw:edge" and an "edge:down" of "fw" are both selected by the availability rule and get one canonical key |
| SourceClashes.SourcesMergeIff | src/core/application/correlation_handler.py:65-90 | two different sources accepted by ingestion have events put into one incident by the availability rule if and only if one continues the other after a colon |
| CorrelationRules.SelectActiveRules | src/core/infrastructure/messaging/correlation_consumer.py:195-206 | the rules applied are those catalogued as active, in their order, or all when none is listed |
| CorrelationRules.DeactivatedRuleApplies | src/core/infrastructure/messaging/correlation_consumer.py:195-206 | a deactivated rule applies again exactly when every catalogued version is deactivated |
| CorrelationStore.CorrelationUnitOfWork.FindOpenByCorrelationKey | src/core/infrastructure/db/repositories.py:1158-1172 | finds the active incident of a tenant's key, or there is none |
| CorrelationStore.CorrelationUnitOfWork.SaveEvidence | src/core/infrastructure/db/repositories.py:1314-1361 | an evidence link is stored once |
| CorrelationStore.CorrelateSecurityEventHandler.CorrelateOne | src/core/application/correlation_handler.py:158-235 | for one eligible rule the incident is found or created and linked, and the item names it and reports what was new |
| CorrelationStore.CorrelateSecurityEventHandler.Handle | src/core/application/correlation_handler.py:118-237 | the rule loop computes the whole new database; there is one item for each eligible rule, in rule order, naming the active incident of its key, and the items count every new row |
| CorrelationGrouping.ProcessRepresents | src/core/application/correlation_handler.py:148-237 | after any sequence of deliveries the tables represent exactly the groups delivered |
| CorrelationGrouping.EngineIsGroupBy | src/core/application/correlation_handler.py:148-237 | an incident exists for a key exactly when its group is not empty, no key has two, and its evidence is its group, each member once |
| CorrelationGrouping.OrderAndDuplicatesDoNotMatter | src/core/application/correlation_handler.py:148-237 | order and duplication of deliveries do not change which event is evidence for which key |
| IncidentOrigins.IncidentsAreExplained | src/core/application/correlation_handler.py:168-202 | after any deliveries each incident is open and has one audit entry, naming an event that its rule selects for its key; that event is its first evidence and gave it its severity |
| CorrelationReplay.ReplayNoOpIff | src/core/application/correlation_handler.py:162-226 | replaying an event changes nothing exactly while for every eligible rule an active incident of its key holds the event |
| CorrelationReplay.ReplayTwice | src/core/application/correlation_handler.py:162-226 | a second replay in a row is always a no-op |
| CorrelationReplay.OpensExactlyTheMissing | src/core/application/correlation_handler.py:168-202 | a delivery opens exactly one incident for each eligible key without an active one, for instance after resolve or close, and nothing else |
| ConcurrentCorrelationSafety.StepKeepsInv | src/core/infrastructure/db/repositories.py:1099-1121 | every step of every correlator and operator, saves from out-of-date copies included, keeps the invariant of incidents, evidence and open transactions |
| ConcurrentCorrelationSafety.RunKeepsInv | src/core/infrastructure/db/repositories.py:1099-1121 | the invariant holds after every interleaving |
| ConcurrentCorrelationSafety.NeverTwoActive | src/core/infrastructure/db/models.py:246-253 | no interleaving has two active incidents of one tenant and key |
| ConcurrentCorrelationSafety.CommittedHandlingsAreKept | src/core/application/correlation_handler.py:162-226 | every committed handling leaves its event as evidence, for each of its keys, of an incident of that key that was active when it was read |
| ConcurrentCorrelationSafety.LoserAdoptsWinner | src/core/infrastructure/db/repositories.py:1102-1114 | against a committed active incident an insert can only conflict, and the lookup after the conflict finds that incident and no other |
| ConcurrentCorrelationSafety.CommittedEvidenceIff | src/core/application/correlation_handler.py:204-226 | an event is committed evidence for a key exactly when a committed handling selected that key |
| ConcurrentCorrelationSafety.InterleavingsAreGroupBy | src/core/application/correlation_handler.py:148-237 | while every incident is active, every interleaving ends in the group-by of the committed handlings |
| ConcurrentOrigins.IncidentsHaveOrigins | src/core/application/correlation_handler.py:168-190 | in every interleaving an uncommitted incident is open with the severity of the event handled, and a committed one has the severity of some committed evidence of it |
| IncidentStatus.AllowedIsNextRank | src/core/domain/incidents.py:60-67 | a transition is allowed exactly to the next state of the life cycle |
| IncidentStatus.ActiveBeforeResolved | src/core/infrastructure/db/models.py:246-253 | the active states are exactly those before resolution |
| IncidentLifecycle.CanTransitionIff | src/core/domain/incidents.py:340-375 | a transition is made exactly with an actor and a reason that are not blank, and one rank up |
| IncidentLifecycle.Incident.TransitionTo | src/core/domain/incidents.py:340-375 | an allowed transition with actor and reason sets the status and records it; any other changes nothing |
| IncidentLifecycle.PostgresIncidentRepository.Save | src/core/infrastructure/db/repositories.py:1075-1145 | the whole new store: row updated, inserted or refused by the index, changes not yet recorded appended, and which incident is handed back or that the save raises |
| IncidentLifecycle.PostgresIncidentRepository.GetById | src/core/infrastructure/db/repositories.py:1147-1156 | a loaded incident has the stored status and no history |
| IncidentHistory.PathRanks | src/core/domain/incidents.py:60-67 | a path of allowed transitions has one change per rank, each starting at the rank the one before reached |
| IncidentHistory.SaveAppends | src/core/infrastructure/db/repositories.py:1124-1143 | a save appends exactly the changes not stored yet |
| IncidentHistory.SaveKeepsPathIff | src/core/infrastructure/db/repositories.py:1115-1143 | a save that goes through keeps the stored history a path if and only if the stored status is the one its copy set out from |
| IncidentHistory.StepKeepsInv | src/core/infrastructure/db/repositories.py:1115-1143 | creating, loading, transitions, saves and drops keep stored history and any number of copies consistent, out of date or not |
| IncidentHistory.PathsExactlyWhenChecked | src/core/infrastructure/db/repositories.py:1115-1143 | over every run with any number of copies the stored histories are paths at every moment if and only if every save that goes through is up to date |
| IncidentHistory.StoredHistoryIsPath | src/core/infrastructure/db/repositories.py:1115-1143 | after any run whose saves are up to date every stored history is a duplicate-free path from open to the stored status, as long as the status's rank |
| IncidentCopies.SerialIsChecked | src/core/infrastructure/db/repositories.py:1115-1143 | with one copy of an incident in memory at a time every save is up to date |
| IncidentCopies.StaleSaveBreaksHistory | src/core/infrastructure/db/repositories.py:1115-1121 | from any state a run that loads an incident twice, moves one copy on, saves it and then saves the unchanged other one goes through and breaks the path |
| IncidentCopies.StaleCopyBreaksHistory | src/core/infrastructure/db/repositories.py:1115-1121 | two copies of one row that each make a transition and are both saved always break that path |
| IncidentCopies.BrokenHistoryReached | src/core/infrastructure/db/repositories.py:1115-1121 | such a run exists from the empty store |
| OutboxRepository.InMemoryOutboxRepository.FetchPendingAndClaim | src/core/infrastructure/db/repositories.py:897-935 | returns exactly the first `limit` eligible rows in insertion order, leases them, and leaves every other row alone |
| OutboxRepository.InMemoryOutboxRepository.Save | src/core/infrastructure/db/repositories.py:893-895 | a new row goes to the end; a known identifier keeps its place |
| OutboxRepository.InMemoryOutboxRepository.MarkPublished | src/core/infrastructure/db/repositories.py:937-957 | the row is published and its lease dropped; no other row changes |
| OutboxRepository.InMemoryOutboxRepository.MarkFailed | src/core/infrastructure/db/repositories.py:959-993 | the row counts a failure and gets its next retry or none; no other row changes |
| OutboxRepository.PostgresOutboxRepository.FetchPendingAndClaim | src/core/infrastructure/db/repositories.py:808-848 | the rows the query returned are claimed in place and handed back without their lease |
| OutboxRepository.EntityHasNoLease | src/core/infrastructure/db/repositories.py:770-786 | what a claim hands back has no lease and is otherwise the claimed row |
| OutboxRepository.PostgresOutboxRepository.MarkPublished | src/core/infrastructure/db/repositories.py:850-858 | the field-by-field update is the same mark as in memory |
| OutboxRepository.PostgresOutboxRepository.MarkFailed | src/core/infrastructure/db/repositories.py:860-882 | the field-by-field update is the same mark as in memory |
| OutboxRepository.ClaimFirstAsSpecified | src/core/infrastructure/db/repositories.py:903-935 | the claim loop takes the first `limit` eligible rows and no others |
| OutboxRepository.QueryPicksFirst | src/core/infrastructure/db/repositories.py:813-832 | with insertion in creation order the query picks exactly the first `limit` eligible rows |
| OutboxRepository.ClaimsAgree | src/core/infrastructure/db/repositories.py:808-935 | both repositories then leave the same rows and return the same rows |
| RetryBounds.EligibleAgainWhen | src/core/infrastructure/db/repositories.py:813-882 | a claimed row is claimable again exactly when its lease ran out, a failed one exactly below the limit and after its backoff, a published one never |
| RetryBounds.CountExplained | src/core/infrastructure/db/repositories.py:837-876 | under any schedule the retry count grows by exactly the failed marks and the reclaims of expired leases |
| RetryBounds.RunConsistent | src/core/infrastructure/db/repositories.py:871-882 | a failed row has a retry scheduled exactly while its count is below the limit |
| RetryBounds.DeadNeverClaimed | src/core/infrastructure/db/repositories.py:819-829 | a failed row at the limit is never claimed again |
| RetryBounds.ClaimsBounded | src/core/infrastructure/db/repositories.py:837-882 | a new row is claimed at most `max_retries` times plus once per expired lease |
| RetryBounds.AttemptsCounted | src/core/infrastructure/db/repositories.py:966-974 | with an always-failing publisher a row gets exactly its remaining attempts |
| RetryBounds.AttemptsDouble | src/core/infrastructure/db/repositories.py:966-974 | the waits between attempts double |
| RetryBounds.AlwaysFailing | src/core/infrastructure/db/repositories.py:966-974 | exactly `max_retries` attempts, doubling waits, and a total wait of backoff times 2^(max_retries - 1) - 1 |
| OutboxRowHistory.RowTells | src/core/infrastructure/db/repositories.py:808-882 | after any schedule status, lease, time stamps and error of a row are those of the last operations that took effect, and what event it is about never changes |
| OutboxDispatcher.OutboxDispatcher.Dispatch | src/core/application/outbox_dispatcher.py:52-66 | one claimed row is sent at most once and marked one way or the other |
| OutboxDispatcher.OutboxDispatcher.ProcessOutboxBatch | src/core/application/outbox_dispatcher.py:37-69 | the whole new table and the messages sent, in order; the result counts the rows published |
| OutboxDispatcher.BatchSettlesAll | src/core/application/outbox_dispatcher.py:50-68 | no claimed row stays in processing, a row is published exactly when its message was sent and the mark went through, and that message is its own |
| OutboxDispatcher.BatchConservesSends | src/core/application/outbox_dispatcher.py:50-69 | messages sent are the rows published plus those sent and then marked failed |
| OutboxDispatcher.BatchRecords | src/core/application/outbox_dispatcher.py:50-68 | what each settled row records: its publishing time, or the error with its secrets hidden and the next retry; and it stays the row of its event |
| OutboxDispatcher.OtherRowsFail | src/core/application/outbox_dispatcher.py:71-85 | a row of another event type, or whose body does not deserialize, is never sent and ends failed |
| OutboxDispatcher.MentionsSecretIff | src/core/application/outbox_dispatcher.py:87-94 | an ASCII text mentions a secret exactly when one of the five words stands in it in any mix of case |
| OutboxDispatcher.SanitizedErrorIs | src/core/application/outbox_dispatcher.py:87-94 | the error text kept has at most 1024 characters, mentions no secret word, and is the cut message exactly when that mentions none |
| OutboxDispatcher.NoSecretStored | src/core/application/outbox_dispatcher.py:57-94 | no error text a batch stores mentions a secret word in any case |
| DispatchSafety.StepKeepsInv | src/core/application/outbox_dispatcher.py:42-69 | claims, sends, marks, commits and crashes of any dispatcher keep the invariant of rows, locks and log |
| DispatchSafety.LocksAndLeases | src/core/infrastructure/db/repositories.py:832-848 | no two open transactions hold one row, and no committed row is in processing |
| DispatchSafety.SendsConserved | src/core/application/outbox_dispatcher.py:42-69 | a row's sends are one if it is published, plus those in aborted and open transactions, plus those a failed mark followed; a published row was sent |
| DispatchSafety.AttemptsBounded | src/core/infrastructure/db/repositories.py:860-882 | over any run with crashes the stored count is the committed failures, and there are at most `max_retries` committed attempts (at least one) |
| DispatchSafety.FinalForGood | src/core/infrastructure/db/repositories.py:819-829 | no row is ever lost, and a published or dead row never changes again |
| DispatchProgress.StillDeliverable | src/core/application/outbox_dispatcher.py:18-23 | after any run, with a clock that does not go back, some continuation publishes every row that deserializes and is not dead |
| DispatchRefinement.BatchIsRun | src/core/application/outbox_dispatcher.py:42-69 | one batch is a run of the protocol that leaves the same table, logs exactly the sends of its rows in order and commits exactly the rows it published and failed, whatever else is open |
| DispatchRefinement.SendingsAreSends | src/core/application/outbox_dispatcher.py:50-56 | what the run logs are the messages the batch sends, one for one and in order |
| DispatchThroughBus.DeliveredIff | src/core/infrastructure/messaging/kafka_event_bus.py:83-126 | in every mode of the bus a row counts as sent exactly when it deserializes and its identifier was known, or the producer accepted it, or the fallback took it |
| DispatchThroughBus.EachRowHandedOnce | src/core/application/outbox_dispatcher.py:50-82 | a batch through the bus hands every row that deserializes to the producer once, under its own identifier and in order |
| DispatchThroughBus.PublishedIffAccepted | src/core/application/outbox_dispatcher.py:50-68 | with Kafka in use a row ends published if and only if it deserializes, the broker accepted its send and the mark went through |
| DispatchThroughBus.SendsAreAccepted | src/core/application/outbox_dispatcher.py:50-56 | the messages a batch counts as sent are exactly those the broker accepted, in order |
| DispatchThroughBus.BusConservesRows | src/core/application/outbox_dispatcher.py:50-69 | what the bus handed over is the rows published, those sent and then marked failed, and those refused |
| DispatchThroughBus.EveryRetryIsSent | src/core/infrastructure/messaging/kafka_event_bus.py:77-113 | over any number of batches, with aborts and retries, each claim of a row that deserializes is one send and nothing else is sent, so deduplication swallows no retry |
| Ingestion.SecurityEventUnitOfWork.SaveEvent | src/core/infrastructure/db/repositories.py:501-541 | returns the stored event of the key, or inserts, or the database refuses the row |
| Ingestion.IngestSecurityEventHandler.Handle | src/core/application/handlers.py:310-410 | the whole new database and the reply: all three kinds of row, one audit row, or nothing; `StoredRowIsNew` and `AuditTrail` tell what those rows hold |
| Ingestion.StoredRowIsNew | src/core/application/handlers.py:399-407 | a stored submission adds one outbox row, which announces it, has not been touched, and can be claimed at any time |
| Ingestion.SeverityReadsBack | src/core/application/handlers.py:265-275 | the severity name in a message reads back to the severity of the event |
| Ingestion.ReplyExact | src/core/application/handlers.py:326-410 | exactly when a submission is stored, suppressed as a duplicate or refused, and that a refusal leaves no trace |
| Ingestion.StorableKeyLength | src/core/infrastructure/db/models.py:208 | the outbox key fits its column exactly for keys of at most 84 characters |
| Ingestion.LongKeysNeverStored | src/core/application/handlers.py:405 | an accepted key of 85 to 128 characters is never stored |
| Ingestion.IngestKeepsConsistent | src/core/application/handlers.py:326-410 | events and outbox rows stay matched one to one and no key occurs twice |
| Ingestion.ReplayAddsAudit | src/core/application/handlers.py:329-356 | a replay adds one audit row and names the event first stored |
| Ingestion.SecondSourceRefused | src/core/infrastructure/db/models.py:191-192 | a second source that reuses a tenant's key is refused whole |
| Ingestion.OneEventPerKey | src/core/infrastructure/db/models.py:137-139 | a tenant has at most one event per key, whatever the sources |
| ConcurrentIngestion.StepKeepsInv | src/core/infrastructure/db/repositories.py:525-541 | overlapping ingestions with savepoints and aborts keep tables and open transactions apart |
| ConcurrentIngestion.EventsMatchOutbox | src/core/application/handlers.py:326-410 | after any run committed events and outbox rows are in bijection by aggregate identifier, each message names its event, and each key has one event |
| ConcurrentIngestion.CommitAddsAllOrAudit | src/core/application/handlers.py:326-410 | a commit adds event, audit and outbox row together or one audit row; an abort adds nothing |
| ConcurrentIngestion.AuditTrail | src/core/application/handlers.py:358-377 | after any run each event was recorded as persisted, exactly those without an asset as unresolved, and nothing else was recorded |
| EventsDelivered.EveryEventDeliverable | src/core/application/handlers.py:399-410 | after any run of overlapping ingestions and dispatchers some continuation of the dispatchers publishes every stored event whose row has not died, with a message that tells of it |
| EventsDelivered.OnlyStoredEventsAreSent | src/core/application/outbox_dispatcher.py:50-56 | whatever is sent to the broker tells of a committed event |
| KafkaEventBus.KafkaEventBus.Start | src/core/infrastructure/messaging/kafka_event_bus.py:42-66 | the producer exists afterwards, and Kafka is given up only where fallback is permitted |
| KafkaEventBus.KafkaEventBus.IsDuplicate | src/core/infrastructure/messaging/kafka_event_bus.py:77-81 | answers whether the identifier was known and records it |
| KafkaEventBus.KafkaEventBus.Publish | src/core/infrastructure/messaging/kafka_event_bus.py:83-126 | the whole new state and whether the call raises, in Kafka and in fallback mode |
| KafkaEventBus.StartThenPublish | src/core/infrastructure/messaging/kafka_event_bus.py:42-126 | from its start on, when a first event goes to the broker, when to the listeners of its type, each once and in order, and when it is refused |
| KafkaEventBus.SameEventIff | src/core/infrastructure/messaging/kafka_event_bus.py:83-96 | correlation identifiers are compared before own identifiers, and those before drawn ones |
| KafkaEventBus.RepeatedCorrelationSkipped | src/core/infrastructure/messaging/kafka_event_bus.py:98-101 | an event that repeats a correlation identifier is skipped, however new its own identifier |
| KafkaEventBus.SentAtMostOnce | src/core/infrastructure/messaging/kafka_event_bus.py:98-113 | no identifier reaches the producer twice over any run |
| KafkaEventBus.SentAreFirstOccurrences | src/core/infrastructure/messaging/kafka_event_bus.py:98-113 | what reaches the producer is exactly each identifier's first occurrence, whichever sends are refused |
| KafkaEventBus.NormalReturnIff | src/core/infrastructure/messaging/kafka_event_bus.py:98-113 | a normal return means known already or sent, and without a send it means known already |
| KafkaEventBus.RefusedIsNotRetried | src/core/infrastructure/messaging/kafka_event_bus.py:98-113 | after a refused send the same identifier returns normally and is not sent |
| KafkaEventBus.FreshAttemptsAllSent | src/core/application/outbox_dispatcher.py:71-82 | publishes whose identifiers are new and distinct are all handed to the producer |
| CorrelationConsumer.CorrelationKafkaConsumer.ProcessSingleMessage | src/core/infrastructure/messaging/correlation_consumer.py:154-259 | success means not correlatable or a confirmed commit, a commit may take effect and still report failure, a value that is no object raises, and the database is what the deliveries stored so far make of it |
| CorrelationConsumer.CorrelationKafkaConsumer.Run | src/core/infrastructure/messaging/correlation_consumer.py:261-293 | start, the polling loops message by message with stops, refused offsets and values that end a batch, and the stop at the end |
| CorrelationConsumer.CorrelationKafkaConsumer.Start | src/core/infrastructure/messaging/correlation_consumer.py:93-137 | a start fetches from the committed offsets, does nothing when a consumer exists, and leaves a consumer behind when the broker cannot be reached |
| CorrelationConsumer.StopEndsSession | src/core/infrastructure/messaging/correlation_consumer.py:275-277 | a stop requested with a message ends the session after it |
| OffsetCommits.LifeKeepsInv | src/core/infrastructure/messaging/correlation_consumer.py:271-293 | every life of the consumer keeps its trace in order |
| OffsetCommits.CommitsConfirmSuccess | src/core/infrastructure/messaging/correlation_consumer.py:278-281 | each commit directly follows the success it confirms, and the commits of a partition strictly increase across restarts |
| Redelivery.FailureIsUnconfirmed | src/core/infrastructure/messaging/correlation_consumer.py:278-281 | a failed message is never directly followed by a commit |
| Redelivery.RedeliveredIff | src/core/infrastructure/messaging/correlation_consumer.py:271-281 | a message that failed or whose offset was refused is processed again by some continuation if and only if no later message of its partition has been committed |
| Redelivery.NextSessionRedelivers | src/core/infrastructure/messaging/correlation_consumer.py:271-281 | then however the next session goes, it processes that same message before anything later of the partition, unless a batch was cut short |
| Redelivery.ProcessedAgainIff | src/core/infrastructure/messaging/correlation_consumer.py:271-281 | any message of the log can be processed in a later session exactly while the committed offset has not passed it |
| Redelivery.PassedIsGone | src/core/infrastructure/messaging/correlation_consumer.py:281 | once a commit of the partition has passed an offset, no continuation processes it again |
| Redelivery.LaterSuccessSkipsFailure | src/core/infrastructure/messaging/correlation_consumer.py:17 | when a later message of the poll succeeds, a restart fetches past the failed one, against the stated redelivery |
| Redelivery.RefusedOffsetDropsRest | src/core/infrastructure/messaging/correlation_consumer.py:275-290 | a refused offset, or a value that is no object, drops the rest of the batch, and the fetch position is past it |
| CommittedOffsets.CommitPromise | src/core/infrastructure/messaging/correlation_consumer.py:271-281 | over every life of the consumer a message below the committed offset has been processed, unless the first commit past it came after a cut batch of its session |
| CommittedOffsets.NoCutNoLoss | src/core/infrastructure/messaging/correlation_consumer.py:271-281 | while no batch is cut short nothing below the committed offset is missed |
| CommittedOffsets.LostIff | src/core/infrastructure/messaging/correlation_consumer.py:271-293 | a message not yet processed never will be, in any continuation, if and only if a poll dropped it and a later poll of that session committed an offset of its partition |
| CommittedOffsets.DroppedByCut | src/core/infrastructure/messaging/correlation_consumer.py:271-290 | a poll after which the consumer goes on drops a message only if its batch was cut short |
| CommittedOffsets.CutThenCommitLoses | src/core/infrastructure/messaging/correlation_consumer.py:271-290 | from any running state, a batch cut at its first message and a later success lose the rest of that batch |
| CommittedOffsets.LossReached | src/core/infrastructure/messaging/correlation_consumer.py:271-290 | a life from the first start reaches such a loss |
| OffsetCommits.EvidenceIffProcessed | src/core/infrastructure/messaging/correlation_consumer.py:208-219 | however often messages are redelivered, an event is evidence for a key exactly when one of its processings was stored, confirmed or not, and a rule selects it, and once |
| CommandBus.CircuitBreakerMiddleware.Enter | src/core/infrastructure/messaging/command_bus.py:38-48 | turns a command away exactly while tripped and not recovered, and forgets its failures when it lets it through again |
| CommandBus.CircuitBreakerMiddleware.Leave | src/core/infrastructure/messaging/command_bus.py:50-57 | a success clears the failures, a failure counts one and stamps the time |
| CommandBus.CommandBus.RunHandler | src/core/infrastructure/messaging/command_bus.py:136-197 | tries until the first success or the limit, and leaves a dead letter exactly when no try works |
| CommandBus.CommandBus.Send | src/core/infrastructure/messaging/command_bus.py:82-200 | the whole new state of breaker, dead letters and calls, and the reply |
| BreakerHistory.ReplyIs | src/core/infrastructure/messaging/command_bus.py:82-200 | over every run from the empty state the reply is told by request and history: turned away exactly when since its last success the command has failed a positive whole number of thresholds and the last failure is less than the recovery time ago |
| BreakerHistory.SuccessForgets | src/core/infrastructure/messaging/command_bus.py:50-57 | after a success, fewer failures than the threshold never make the bus turn the command away |
| BreakerHistory.DeadLettersAre | src/core/infrastructure/messaging/command_bus.py:171-197 | the dead letters are exactly the failed commands, in order |
| BreakerHistory.CallsAre | src/core/infrastructure/messaging/command_bus.py:136-170 | the handler is called up to and including the first attempt that works, or to the limit |
| BreakerHistory.CallsGrow | src/core/infrastructure/messaging/command_bus.py:136-200 | a run calls the handlers of exactly the commands that ran, in order |
| CommandBusBounds.AdmittedBounded | src/core/infrastructure/messaging/command_bus.py:37-57 | in a stretch of length T without success a command is let through at most threshold * (floor(T / recovery) + 1) times, whatever other commands do |
| CommandBusBounds.BoundAttained | src/core/infrastructure/messaging/command_bus.py:37-57 | that bound is reached exactly, for every number of recovery periods, by a run that fits in the stretch |
| CommandBusBounds.ExecutionsAccounted | src/core/infrastructure/messaging/command_bus.py:136-197 | each execution let through leaves one dead letter and all its handler calls |
| CommandBusBounds.CallsBounded | src/core/infrastructure/messaging/command_bus.py:136-197 | so the handler calls are bounded by max_retries times that number |

## Left out

- REST routers, middleware, dashboard, command line and scripts: input, output and user interface.
- SQLAlchemy, PostgreSQL and aiokafka internals, group rebalancing and the stop of a running consumer from outside other than between or during messages.
- Metrics, tracing, logging, the readiness file and log masking: no effect on the protocol state.
- Token checks, policy engine, access tables, scope safety, alert rendering, settings and migrations: wrappers or small tables.
- Tenant, log and alert handlers and `count_open_by_severity`: they would only add easy members.
- Parsing of ingestion commands (blank stripping, severity names, ISO times) and asset resolution: a submission starts as their result.
- Title, description, severity and times of an incident after its creation, and evidence hashes and texts: copied, never compared.
- The rejection of blank key fields in `CorrelationKey`: rule fields and identifiers are never blank.
- The limit of 100 rows in the catalogue listing and the ordering of that listing.
- The `is_new_incident` and `is_new_evidence` flags under concurrency: the source computes them before a conflict is known, so they are specified for one correlator at a time only.
- Rounding of floating-point timestamps.
- An event so early that its window starts before year 1: the source raises there, the model prints an empty text (`CorrelationRules.HasWindow` says when an event has a window).
- Message bytes that are not JSON, which fail inside the poll: a failing poll is one that returns nothing.
- Retention of the message log: messages stay where they are.
- Cancellation inside a single database call: a cancelled transaction is one that aborts.
- OutboxRepository.PostgresOutboxRepository.FetchPendingAndClaim: the query's result is a parameter constrained to the oldest eligible unlocked rows, because a query with ties is not determined by the table.
- DispatchSafety.SendsConserved: counts sends that returned normally; a send the broker kept although the publisher raised is indistinguishable from one that was sent and then marked failed.
- CommandBusBounds.AdmittedBounded: commands are sent one after the other, because the source's breaker has no lock.
- CorrelationConsumer.CorrelationKafkaConsumer.ProcessSingleMessage: the rule set is fixed over a run; choosing it from the catalogue is `CorrelationRules.SelectActiveRules`.
