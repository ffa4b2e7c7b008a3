# UK Jamaat Directory: a verified model

The Directory collects congregation (jamaat) times for mosques from many sources, decides which of them may be
published, and publishes versioned snapshots with a change feed. This project models the parts of it that hold state or
decide something, and proves what they keep.

| files | models |
|---|---|
| `ScheduleModel`, `ScheduleSpec`, `ScheduleStore`, `ScheduleInvariants`, `ScheduleFeed`, `ScheduleProvenance`, `ScheduleReplay`, `ScheduleRuns`, `ScheduleEffects`, `ScheduleCounts` | candidates through upsert, validation, approval, rejection and publication; snapshots and the change feed |
| `AuthoringModel`, `Processing`, `Orchestrator`, `OrchestratorAnswers`, `OrchestratorProgress`, `Nights`, `Counting` | the overnight authoring run as interleaved coroutines, and many nights in a row |
| `Matching`, `Scoring`, `Resolve`, `ResolveReviews`, `ResolveLinks` | scoring and deciding identity matches, and linking discovery records to mosques |
| `OpenApi` | the public specification and the schemas it keeps |
| `RateLimit` | the sliding-window limiter |
| `Throttle` | the per-domain fetch throttle under interleaving |
| `Whitespace`, `TableParser`, `CarryForward`, `Extraction`, `ExtractedRows`, `Dates` | from HTML events to timetable rows; month arithmetic |
| `Listing`, `Wrappers` | query results as sequences; optional values, lookups and counting a condition |

Objects that the program updates in place are classes (`Store`, `IdentityStore`, `RefCollector`, `SlidingWindowLimiter`,
`Parser`) whose methods are proved against step relations or functions on values; the theorems are about runs of those
steps. The two concurrent parts, the orchestrator and the throttle, are state machines: a step is what happens between
two points where another coroutine may run, and every interleaving is a run. `dafny verify dfyconfig.toml` checks
everything.

What the proofs showed about the code:

- A publish filtered on a source is rolled back when the previous snapshot holds a row of another source under a key of
  its batch: that row is out of scope, is copied first, and meets the unique constraint
  (`ScheduleFeed.SourceFilterCollidesExactly`, and a whole run in `ScheduleRuns.SourceFilterCanCollide`). Filters on
  mosque and dates alone never collide this way.
- README.md:226 says that a filtered publish replaces or removes the rows in scope. The code never removes any: rows in
  scope that the batch does not write are carried too (`ScheduleFeed.FilteredPublishKeepsTheRest`).
- When a source loses its public policy its rows leave the next snapshot without a removal event, unless the batch
  writes their keys (a whole run in `ScheduleRuns.WithdrawnRowIsDroppedSilently`). Over any run this is the only way the
  feed and the snapshots part (`ScheduleReplay.FeedRebuildsExactly`).
- The bound on authoring attempts holds as long as the outcome of a night can be stored. A source all of whose outcomes
  were lost has no row and stays a candidate for ever (`Nights.LostOutcomesRetryForEver`); in general every lost outcome
  allows one attempt more (`Nights.RetriesEnd`, `Nights.AgentCallsBounded`).
- A script that registers no extractor is not sent back for repair, although the code notes an issue for it: the repair
  branch asks for stored validation issues, which such a result does not have (`AuthoringModel.Repairable`).
- `decide_match` reads a name ratio back from its rounded reason, so 91.5 counts as strong although the scorer asks for
  92; it also counts any distance up to 500 m as a strong signal, where the scorer counts fewer
  (`Scoring.ReportedAtMostCounted`).
- Of resolving a record, accepting a review and rejecting one, only an accept ever moves a link
  (`ResolveLinks.LinkMovesExactly`); merging mosques, which also moves links, is left out. The review can be open although the source is linked exactly when a mosque was created for a source that still had an
  open review (`ResolveLinks.OpenThoughLinkedExactly`, and a whole run in `ResolveLinks.AcceptCanMoveALink`).
- In every reachable state a pending review proposes no mosque (`ResolveReviews.EveryReviewIsSigned`), so accepting one
  without a choice succeeds only when it shows a single mosque (`ResolveReviews.AcceptAfterReview`).
- A reference into a component, with a further segment, is read as naming its last segment
  (`OpenApi.ReferenceNamesComponent`, `OpenApi.PointerIntoComponentReadsItsEnd`). References are those of section 4.8.23
  of the OpenAPI Specification 3.1.0.
- Waiting for the announced `Retry-After` is not always enough: hits accepted while waiting still count
  (`RateLimit.RetryAfterWindow`, `RateLimit.RetryCanBeRefused`).
- The table parser says that nested tables are flattened with the row stream intact. It loses cells exactly when some
  cell is not closed before the next cell opens, or some row with cells not before the next row opens, or either not
  before the outermost table ends, or when cells were opened in an outermost table that never ends
  (`TableParser.NothingLostExactly`). That takes the cell around a nested table, the cells before it in its row, whatever
  relies on the optional end tags of cells and rows, and every cell of a table cut off by the end of the page
  (`TableParser.UnendedTableIsLost`).

## Model

| member | source | states |
|---|---|---|
| ScheduleModel.ErrorsExact | src/uk_jamaat_directory/schedules/validation.py:30-175 | a validation error is reported exactly when its flaw is present |
| ScheduleStore.Store.ValidateCandidate | src/uk_jamaat_directory/schedules/validation.py:30-175 | the checks append exactly the errors of the candidate, in the order they are made |
| ScheduleStore.Store.GroupByNaturalKey | src/uk_jamaat_directory/schedules/prefetch.py:92-121 | the index holds an active row under its natural key, every such row and nothing else |
| ScheduleStore.GroupIsDuplicates | src/uk_jamaat_directory/schedules/prefetch.py:92-121 | looking a row up in the index gives the pairwise definition of its duplicates |
| ScheduleStore.Store.BuildDuplicateMap | src/uk_jamaat_directory/schedules/prefetch.py:92-121 | every row is mapped to its duplicates over all active rows |
| ScheduleStore.Store.BuildKinds | src/uk_jamaat_directory/schedules/prefetch.py:35-89 | every row is mapped to the kind of its extraction run, if it has one |
| ScheduleStore.Store.BuildContext | src/uk_jamaat_directory/schedules/prefetch.py:35-89 | what the prefetch hands on agrees with the tables for every row of the batch |
| ScheduleStore.Store.Evaluate | src/uk_jamaat_directory/schedules/evaluation.py:25-75 | evaluating through the prefetched context gives the errors, the policy gate and the status the tables define |
| ScheduleStore.Store.Upsert | src/uk_jamaat_directory/schedules/candidates.py:14-99 | an upsert inserts, keeps, rewrites or supersedes an active row of the same natural key, and nothing else changes |
| ScheduleStore.Store.ValidateCandidates | src/uk_jamaat_directory/schedules/publication.py:105-162 | every selected active row gets the errors and status it had before any row was written; a dry run writes no status |
| ScheduleStore.TallyAccountsForEveryRow | src/uk_jamaat_directory/schedules/publication.py:105-162 | approved, rejected, pending and skipped add up to the rows examined |
| ScheduleCounts.TallyCounts | src/uk_jamaat_directory/schedules/publication.py:105-162 | each counter of a validation is the number of rows that came to that status, or whose source is unknown; a dry run leaves the status counters at zero |
| ScheduleStore.Store.ApproveCandidate | src/uk_jamaat_directory/schedules/approval.py:15-42 | a candidate is approved exactly when its source is known, the policy allows it and it evaluates to approved; otherwise nothing changes |
| ScheduleStore.Store.RejectCandidate | src/uk_jamaat_directory/services/schedule_moderation.py:117-138 | a known candidate becomes rejected whatever its status; an unknown one is an error and changes nothing |
| ScheduleStore.Store.CarryForward | src/uk_jamaat_directory/schedules/publication.py:279-321 | exactly the previous rows in the wanted scope whose key is free are copied, and counted |
| ScheduleStore.Store.PublishBatchRows | src/uk_jamaat_directory/schedules/publication.py:348-440 | the batch is inserted exactly when its keys are distinct and free; then rows, events, superseded candidates and count are as owed |
| ScheduleStore.Store.EmitRemovals | src/uk_jamaat_directory/schedules/publication.py:324-345 | one removal event for each previous key that is gone |
| ScheduleStore.Store.AssembleVersion | src/uk_jamaat_directory/schedules/publication.py:492-541 | rows, events and counters of the new version, and exactly when the inserts meet no unique constraint |
| ScheduleStore.Store.CommitVersion | src/uk_jamaat_directory/schedules/publication.py:541-557 | the version commits exactly when every source with rows in it has a mosque; otherwise the tables stay as they were |
| ScheduleStore.Store.PublishCandidates | src/uk_jamaat_directory/schedules/publication.py:443-557 | a publish writes one version and its owed events, or changes nothing |
| ScheduleEffects.UpsertLeavesUpload | src/uk_jamaat_directory/schedules/candidates.py:14-99 | an upload leaves one active row with every field it gave: untouched if the row showed all that before, else pending with the new evidence and no errors; at most a row of an earlier run gives way and nothing else changes |
| ScheduleEffects.UploadStandsAlone | src/uk_jamaat_directory/schedules/candidates.py:26-41 | in a reachable state that row is the only active one of its mosque, source, date, prayer and session |
| ScheduleEffects.NoErrorsExactly | src/uk_jamaat_directory/schedules/validation.py:30-175 | a row has no errors if and only if it is placed and timed, in a known zone within the window of days around today there, on a Friday for Jumuah, and alone among the active rows of its natural key |
| ScheduleEffects.EvaluationExact | src/uk_jamaat_directory/schedules/validation.py:216-259 | a row evaluates to approved exactly when it has no flaw and needs no human, to rejected exactly when it has a flaw, to pending otherwise |
| ScheduleEffects.ValidationReaches | src/uk_jamaat_directory/schedules/publication.py:50-162 | a validation changes exactly the active rows of known sources that its sources, mosque and dates let through, and only their errors and status |
| ScheduleEffects.ApprovalExact | src/uk_jamaat_directory/schedules/approval.py:15-42 | a hand approval goes through exactly for a sound row of a public source that needs no human; otherwise nothing changes |
| ScheduleEffects.BatchExact | src/uk_jamaat_directory/schedules/publication.py:237-276 | a publish takes exactly the approved, sound rows within its filter, of an existing mosque and a public source, read by AI only where that is allowed |
| ScheduleEffects.PublishCommitsExactly | src/uk_jamaat_directory/schedules/publication.py:443-557 | a publish adds a version exactly when it has rows, no two stand for one session, with a source filter none falls on a row of another source, and every source in the new version has a mosque; otherwise nothing changes |
| ScheduleCounts.PublishCountsAddUp | src/uk_jamaat_directory/schedules/publication.py:237-557 | published, skipped for policy and skipped as invalid make up the selected rows; published and carried make up the new version; removals and events are those of the tables |
| ScheduleInvariants.UpsertKeepsUnique | src/uk_jamaat_directory/schedules/candidates.py:26-97 | an upsert never makes a second active candidate for a natural key |
| ScheduleInvariants.ApproveKeepsUnique | src/uk_jamaat_directory/schedules/approval.py:22-40 | approving an old rejected or superseded row never makes a second active candidate |
| ScheduleInvariants.ApprovedMeansSafe | src/uk_jamaat_directory/schedules/validation.py:216-259 | nothing that evaluates to approved comes from AI, the community, or a website row without the repository gate |
| ScheduleInvariants.ContentChangeWithdrawsApproval | src/uk_jamaat_directory/schedules/candidates.py:65-76 | whatever step changes the content or evidence of a candidate leaves it pending |
| ScheduleInvariants.NewVersionIsSafe | src/uk_jamaat_directory/schedules/publication.py:237-276 | every row of a new version, carried or new, is safe and from a source that is public now |
| ScheduleInvariants.EveryRunIsSafe | src/uk_jamaat_directory/schedules/publication.py:443-557 | in every reachable state: one active candidate per natural key, no forbidden approval, every row of every version safe and public when written |
| ScheduleFeed.EventExactlyOnDifference | src/uk_jamaat_directory/schedules/publication.py:182-225 | a key gets an event exactly when it is new, gone, or a compared field changed |
| ScheduleFeed.BatchIsPublishedAsApproved | src/uk_jamaat_directory/schedules/publication.py:390-415 | every batch member is in the new version with its own times, label, zone and source; confidence and link stay the old ones unless one of those changed |
| ScheduleFeed.FilteredPublishKeepsTheRest | src/uk_jamaat_directory/schedules/publication.py:492-532 | a filtered publish keeps every previous row the batch does not write, unchanged, and emits no removal |
| ScheduleFeed.UnfilteredPublishReplacesAll | src/uk_jamaat_directory/schedules/publication.py:492-541 | an unfiltered publish has exactly the keys of the batch |
| ScheduleFeed.RowsAreConserved | src/uk_jamaat_directory/schedules/publication.py:485-548 | published plus carried forward is the number of rows of the new version |
| ScheduleFeed.ScopeNeverCollidesWithoutSource | src/uk_jamaat_directory/schedules/publication.py:50-102 | with filters on mosque and dates only, no row out of scope has a batch key |
| ScheduleFeed.SourceFilterCollidesExactly | src/uk_jamaat_directory/schedules/publication.py:79-102 | with a source filter a collision happens exactly when a previous row under a batch key is of another source |
| ScheduleFeed.OneSourceHasDistinctKeys | src/uk_jamaat_directory/schedules/keys.py:18-35 | with one active candidate per natural key, a batch of one source has distinct occurrence keys |
| ScheduleProvenance.NewRowOrigin | src/uk_jamaat_directory/schedules/publication.py:348-440 | a row of a new version is the previous row unchanged, or the content of a candidate approved at that moment that needed no human and has a public source |
| ScheduleProvenance.EveryRowWasApproved | src/uk_jamaat_directory/schedules/publication.py:443-557 | every row of every version in any run, however often carried, was at an earlier state the content of such an approved candidate |
| ScheduleReplay.ReplayExactlyWithoutSilentDrops | src/uk_jamaat_directory/schedules/publication.py:165-179 | a publish keeps feed and snapshot in step if and only if it drops no row of a source that is no longer public |
| ScheduleReplay.FeedRebuildsExactly | src/uk_jamaat_directory/schedules/publication.py:474-539 | over any run whatever, folding the whole feed from nothing gives the latest snapshot at every point if and only if no committing publish drops a row silently |
| ScheduleReplay.FeedAlwaysRebuildsLatest | src/uk_jamaat_directory/schedules/publication.py:474-539 | so it does in every run in which no source loses its public policy |
| ScheduleRuns.SourceFilterCanCollide | src/uk_jamaat_directory/schedules/publication.py:300-319 | a run from empty tables whose last publish, for one source, is rolled back though its batch is in order |
| ScheduleRuns.WithdrawnRowIsDroppedSilently | src/uk_jamaat_directory/schedules/publication.py:165-179 | a run from empty tables in which a row leaves the snapshot without an event and the feed no longer rebuilds it |
| AuthoringModel.RunAgent | src/uk_jamaat_directory/ingest/authoring/orchestrator.py:643-724 | the agent is called again exactly while its turn can be repaired and repairs remain, and its last turn is the result, or the exception it ends in |
| AuthoringModel.ProcessSource | src/uk_jamaat_directory/ingest/authoring/orchestrator.py:577-724 | a crashed lookup, domain policy, reachability and a missing agent decide in that order, each without an agent call; otherwise the agent runs as above |
| AuthoringModel.ResultTellsTurn | src/uk_jamaat_directory/ingest/authoring/orchestrator.py:643-724 | the stored result of a turn tells which turn it was; a turn is sent back exactly when it failed validation with a script registered or checked |
| AuthoringModel.GateTells | src/uk_jamaat_directory/ingest/authoring/orchestrator.py:577-642 | the stored result of a source that spared the agent tells which gate decided |
| Processing.CheckSource | src/uk_jamaat_directory/ingest/authoring/orchestrator.py:798-860 | a source is dropped exactly for its domain policy or a permanent fetch failure, with the result to store; only a crash leaves no verdict |
| Processing.ProcessOne | src/uk_jamaat_directory/ingest/authoring/orchestrator.py:399-522 | processing one source, with deployment and its exceptions, makes at most one agent call and one per repair, awaits review only on a dry run, stores its result or else the failure, and is lost exactly when both attempts to store fail |
| Orchestrator.InvariantThroughout | src/uk_jamaat_directory/ingest/authoring/orchestrator.py:794-876 | in every state of every interleaving: lock, slots, counters, settled list and stored rows agree with where the coroutines stand |
| Orchestrator.InFlightWithinWorkers | src/uk_jamaat_directory/ingest/authoring/orchestrator.py:410-412 | `in_flight` is never negative and never above the worker count |
| Orchestrator.SummaryAddsUp | src/uk_jamaat_directory/ingest/authoring/orchestrator.py:499-521 | whenever no source holds the progress lock, processed is deployed plus authored plus skipped plus failed |
| Orchestrator.EveryCandidateSettledOnce | src/uk_jamaat_directory/ingest/authoring/orchestrator.py:907-968 | at the end every candidate was settled exactly once, filtered by pre-flight or processed and never both, processed equals the candidates and nothing is in flight |
| OrchestratorProgress.NeverStuck | src/uk_jamaat_directory/ingest/authoring/orchestrator.py:794-876 | in every state before the end a step forward is possible, at once or as soon as the heartbeat has given back the lock |
| OrchestratorProgress.RunsAreFinite | src/uk_jamaat_directory/ingest/authoring/orchestrator.py:907-968 | a run has at most 23 steps per source and two more, heartbeats aside |
| OrchestratorProgress.FinishedRunIsANight | src/uk_jamaat_directory/ingest/authoring/orchestrator.py:438-486 | whatever the interleaving, the stored rows afterwards are the outcome of one night for exactly the candidates; the result of each is the verdict that dropped it or the one outcome of working on it; and each status counter of the summary counts those results |
| OrchestratorAnswers.AnswersThroughout | src/uk_jamaat_directory/ingest/authoring/orchestrator.py:762-968 | in every state each coroutine stands where the answers given to it put it: checked at most once, worked on at most once, and never after a drop |
| OrchestratorAnswers.WaitingMayStart | src/uk_jamaat_directory/ingest/authoring/orchestrator.py:762-968 | a waiting source may start exactly while fewer than max(1, workers) slots are held, in pre-flight and with the agents |
| OrchestratorAnswers.HeartbeatMayRead | src/uk_jamaat_directory/ingest/authoring/orchestrator.py:879-968 | while the agents run the heartbeat may take the lock exactly when no source is inside a locked section |
| OrchestratorAnswers.HeartbeatReadsOneSummary | src/uk_jamaat_directory/ingest/authoring/orchestrator.py:879-968 | the summary does not change while the heartbeat holds the lock |
| Nights.RetriesEnd | src/uk_jamaat_directory/ingest/authoring/orchestrator.py:176-192 | over any number of nights a source is processed at most max(1, max_attempts) times, plus once per outcome that could not be stored |
| Nights.CandidateExactly | src/uk_jamaat_directory/ingest/authoring/orchestrator.py:176-245 | a source is a candidate exactly when it has no row, or its row is not closed and, if failed, has attempts left, or a retry flag reaches it |
| Nights.RowIsLastStored | src/uk_jamaat_directory/ingest/authoring/orchestrator.py:222-245 | after any nights the row of a source is its last stored result, with the number of results stored |
| Nights.NextNightExactly | src/uk_jamaat_directory/ingest/authoring/orchestrator.py:195-245 | one more night may work on a source if and only if nothing was stored for it, or its last stored result is a failure that may pass and fewer than max_attempts were stored |
| Nights.EveryAttemptIsTaken | src/uk_jamaat_directory/ingest/authoring/orchestrator.py:176-192 | the bound is attained: for all limits there is a run that works on a source max(1, max_attempts) times with every repair and every outcome stored |
| Nights.ClosedForGood | src/uk_jamaat_directory/ingest/authoring/orchestrator.py:222-245 | a source deployed, awaiting review, skipped or failed for good is never processed again |
| Nights.LostSourceStaysCandidate | src/uk_jamaat_directory/ingest/authoring/orchestrator.py:475-491 | a source has no row exactly when all its outcomes were lost, and then it is a candidate again |
| Nights.LostOutcomesRetryForEver | src/uk_jamaat_directory/ingest/authoring/orchestrator.py:475-491 | for any number of nights there is a run that processes one source on each, with every repair |
| Nights.AgentCallsBounded | src/uk_jamaat_directory/ingest/authoring/orchestrator.py:643-724 | all nights together make at most (sources times max(1, max_attempts) plus the outcomes lost) times (1 + max repairs) agent calls; the calls of one processing are bounded by `Processing.ProcessOne` |
| Nights.AgentCallsWhenStored | src/uk_jamaat_directory/ingest/authoring/orchestrator.py:643-724 | while every outcome is stored that is sources times max(1, max_attempts) times (1 + max repairs) |
| Scoring.ScoreCandidate | src/uk_jamaat_directory/ingest/discovery/matching.py:44-117 | a candidate is passed on from 0.25 with the capped sum of its evidence, exactly the reasons its evidence gives, and what the decision will read from them |
| Scoring.GeoScoreMonotone | src/uk_jamaat_directory/ingest/discovery/matching.py:273-302 | closer is never worse and a trusted location never worse than a vague one |
| Scoring.ReportedAtMostCounted | src/uk_jamaat_directory/ingest/discovery/matching.py:249-260 | the signals the decision counts are at least those the scorer reports, and when they are equal |
| Scoring.LocationAlone | src/uk_jamaat_directory/ingest/discovery/matching.py:284-287 | a trusted location within 25 m convinces on its own, except for a parent organisation without postcode or domain |
| Scoring.WordsAlone | src/uk_jamaat_directory/ingest/discovery/matching.py:44-117 | without a location a candidate is convincing exactly on one of five combinations of postcode, name, alias, domain and city |
| Scoring.LocationWorth | src/uk_jamaat_directory/ingest/discovery/matching.py:94-103 | what a location adds to the score of any other evidence, trusted or vague, by distance |
| Scoring.NameWorth | src/uk_jamaat_directory/ingest/discovery/matching.py:61-70 | what a strong or similar name adds, and what a parent organisation costs |
| Scoring.FieldsWorth | src/uk_jamaat_directory/ingest/discovery/matching.py:54-92 | what an agreeing postcode, domain and city add, and an empty one never does |
| Scoring.AliasWorth | src/uk_jamaat_directory/ingest/discovery/matching.py:72-79 | a strong alias adds 0.20 and lifts the penalty of a parent organisation |
| Scoring.RoundsToNearest | src/uk_jamaat_directory/ingest/discovery/matching.py:64-78 | a recorded ratio or distance is a nearest integer, even between two |
| Scoring.AutoLinkIsJustified | src/uk_jamaat_directory/ingest/discovery/matching.py:150-161 | a mosque linked without review matches by domain, exact place or name, with a second signal, and leads every other by 0.1 |
| Matching.NameEvidenceOverride | src/uk_jamaat_directory/ingest/discovery/matching.py:212-232 | the first candidate with name evidence is promoted exactly when the best has none and leads it by at most 0.25 |
| Matching.HighestRatioIsNameEvidence | src/uk_jamaat_directory/ingest/discovery/matching.py:205-209 | the highest ratio reaches 85 exactly when some recorded ratio does |
| Matching.SortIsStable | src/uk_jamaat_directory/ingest/discovery/matching.py:130-130 | candidates with equal scores keep their order |
| Matching.DecideMatch | src/uk_jamaat_directory/ingest/discovery/matching.py:120-189 | decision, mosque and score as said of the candidates without their order; a link needs a convincing winner that leads all others by 0.1 and has name evidence or leads all who do by more than 0.25; a review shows the first three of the ranking, the promoted one in front |
| Matching.OrderDoesNotMatter | src/uk_jamaat_directory/ingest/discovery/matching.py:120-189 | an outcome for one order of the candidates is an outcome for every order |
| Matching.DecisionIsDetermined | src/uk_jamaat_directory/ingest/discovery/matching.py:120-189 | the candidates determine decision, mosque and score |
| Matching.PromotionNeverLinks | src/uk_jamaat_directory/ingest/discovery/matching.py:130-161 | a name-evidence promotion never ends in a link without review |
| Resolve.IdentityStore.ResolveDiscoveryRecord | src/uk_jamaat_directory/ingest/discovery/resolve.py:41-144 | what a resolve does to links, mosques and reviews in each of its four outcomes |
| Resolve.IdentityStore.UpsertMatchReview | src/uk_jamaat_directory/ingest/discovery/resolve.py:408-432 | the pending review of the source is rewritten, or one is added if there is none |
| Resolve.IdentityStore.AcceptPendingReviews | src/uk_jamaat_directory/ingest/discovery/resolve.py:435-457 | exactly the pending reviews of the source are closed for the mosque |
| Resolve.IdentityStore.CandidateItems | src/uk_jamaat_directory/services/admin_identity.py:614-641 | the proposed mosque and the alternatives, each once |
| Resolve.IdentityStore.AcceptIdentityReview | src/uk_jamaat_directory/services/admin_identity.py:364-407 | an accept links the source to the chosen candidate and closes the review, or names the error and changes nothing |
| Resolve.IdentityStore.RejectIdentityReview | src/uk_jamaat_directory/services/admin_identity.py:410-433 | a reject closes a pending review and touches no link |
| Resolve.OnePendingReviewPerSource | src/uk_jamaat_directory/ingest/discovery/resolve.py:408-457 | in every reachable state a source has at most one pending review, and every reference names an existing row |
| Resolve.ResolverKeepsLinks | src/uk_jamaat_directory/ingest/discovery/resolve.py:41-144 | the resolver never changes a link already set and touches no other source |
| Resolve.ResolvingAgain | src/uk_jamaat_directory/ingest/discovery/resolve.py:46-78 | resolving a linked record again gives the same mosque, creates none, closes its reviews and then changes nothing more |
| Resolve.OpenReviewAfterResolve | src/uk_jamaat_directory/ingest/discovery/resolve.py:87-144 | a review is open after a resolve exactly when the source was left for review, or got a new mosque over an open one |
| ResolveReviews.LeftForReviewShowsMatch | src/uk_jamaat_directory/ingest/discovery/resolve.py:408-478 | a record left for review has one pending review that shows the whole match: score, decision and every alternative in order; no other review changes |
| ResolveReviews.AcceptAfterReview | src/uk_jamaat_directory/services/admin_identity.py:364-407 | accepting that review links the source to the mosque chosen exactly when the match offered it; without a choice exactly when one mosque was offered; else it is refused with the right error and nothing changes |
| ResolveReviews.ClosedShowsLink | src/uk_jamaat_directory/ingest/discovery/resolve.py:435-478 | a link made or found by the resolver closes the pending reviews of the source with that mosque |
| ResolveReviews.EveryReviewIsSigned | src/uk_jamaat_directory/ingest/discovery/resolve.py:408-478 | in every reachable state a pending review proposes nothing, an accepted one names its mosque and who accepted it, and only an admin rejected |
| ResolveLinks.LinkMovesExactly | src/uk_jamaat_directory/services/admin_identity.py:364-407 | a step moves the link of a source if and only if it accepts a pending review of that linked source for a valid candidate other than its mosque |
| ResolveLinks.CreatesExactly | src/uk_jamaat_directory/ingest/discovery/matching.py:174-189 | a mosque is created exactly when there are no candidates or the deciding score is below 0.25 |
| ResolveLinks.CreatesFromNothing | src/uk_jamaat_directory/ingest/discovery/matching.py:113-117 | for candidates the scorer passes on, that is exactly when there are none |
| ResolveLinks.OpenThoughLinkedExactly | src/uk_jamaat_directory/ingest/discovery/resolve.py:105-134 | over a run, a linked source has an open review at some point if and only if some resolve met an unlinked source with an open review and no candidate good enough |
| ResolveLinks.LinksNeverMove | src/uk_jamaat_directory/services/admin_identity.py:364-407 | in a run without such a resolve no step moves a link |
| ResolveLinks.AcceptCanMoveALink | src/uk_jamaat_directory/services/admin_identity.py:385-389 | a four-step run, with candidates as the scorer makes them, in which accepting a stale review moves a link |
| OpenApi.RefCollector.CollectRefs | src/uk_jamaat_directory/api/openapi_public.py:18-28 | the found set grows by exactly the names referenced inside the node |
| OpenApi.ReferenceNamesComponent | src/uk_jamaat_directory/api/openapi_public.py:21-23 | a component reference names its component if and only if no further segment follows |
| OpenApi.WholeDocumentKeepsPointees | src/uk_jamaat_directory/api/openapi_public.py:21-23 | in a document whose references name whole components, the schemas reached are those a chain of references points into |
| OpenApi.PointerIntoComponentReadsItsEnd | src/uk_jamaat_directory/api/openapi_public.py:21-23 | a reference to something inside a component names its last segment and not the component it points into |
| OpenApi.PruneUnreferenced | src/uk_jamaat_directory/api/openapi_public.py:31-57 | exactly the schemas reachable by a chain of references are kept, unchanged; every reachable name is queued once; the worklist ends |
| OpenApi.BuildPublicOpenapi | src/uk_jamaat_directory/api/openapi_public.py:60-83 | the public document keeps the paths with a non-admin operation, those operations, and the schemas they reach |
| OpenApi.OnlyAdminIsDropped | src/uk_jamaat_directory/api/openapi_public.py:70-79 | an operation is dropped if and only if it is tagged admin, and every other one is unchanged |
| OpenApi.PublicRoots | src/uk_jamaat_directory/api/openapi_public.py:70-79 | the chains start at names a non-admin operation mentions, and no others |
| OpenApi.NoReferenceBroken | src/uk_jamaat_directory/api/openapi_public.py:54-57 | a reference from what is kept resolves after pruning if and only if it did before |
| OpenApi.PruningTwice | src/uk_jamaat_directory/api/openapi_public.py:31-57 | pruning a pruned document drops nothing |
| RateLimit.SlidingWindowLimiter.Check | src/uk_jamaat_directory/api/rate_limit.py:29-39 | checked with one limit and window, a hit is refused exactly when the trailing window of the full history holds `limit` hits; refusals and other keys leave no trace |
| RateLimit.NoWindowExceedsLimit | src/uk_jamaat_directory/api/rate_limit.py:29-39 | no half-open interval of one window length, wherever it starts, holds more than `limit` accepted hits |
| RateLimit.HitsAreSpaced | src/uk_jamaat_directory/api/rate_limit.py:29-39 | the hit `limit` places later comes at least one window later |
| RateLimit.RetryAfterWindow | src/uk_jamaat_directory/api/rate_limit.py:73-94 | once the announced time has passed, a client is admitted if and only if fewer than `limit` hits were accepted since the refusal and still count; always, if none was |
| RateLimit.RetryCanBeRefused | src/uk_jamaat_directory/api/rate_limit.py:73-94 | a history in which a client that waited the announced time is refused again |
| Throttle.GrantsAreSpaced | src/uk_jamaat_directory/ingest/fetch/throttle.py:13-26 | under any interleaving and cancellation, grants for a domain are at least `delay` apart, the first counting from the clock's zero |
| Throttle.GrantsInSpan | src/uk_jamaat_directory/ingest/fetch/throttle.py:13-26 | a span of length T holds at most floor(T / delay) + 1 grants for a domain |
| Throttle.OneGrantEach | src/uk_jamaat_directory/ingest/fetch/throttle.py:13-26 | every coroutine that gets through had one recorded grant |
| Throttle.NoDelayNoWait | src/uk_jamaat_directory/ingest/fetch/throttle.py:14-16 | without a positive delay nobody ever waits and nothing is recorded |
| Throttle.CancelLeavesNoTrace | src/uk_jamaat_directory/ingest/fetch/throttle.py:20-25 | a coroutine cancelled while waiting or sleeping leaves the lock, the fetch times and the others as if it had not come |
| Throttle.HolderFinishes | src/uk_jamaat_directory/ingest/fetch/throttle.py:19-26 | whoever holds a domain's lock can finish once one delay has passed since the last fetch |
| Throttle.QueueDrains | src/uk_jamaat_directory/ingest/fetch/throttle.py:19-26 | in whatever order the lock of a free domain is handed on, all its waiters can be granted, the k-th of them k delays after the first |
| Throttle.NoneSooner | src/uk_jamaat_directory/ingest/fetch/throttle.py:19-26 | in no run does the k-th grant of a domain from any state on come before that |
| Throttle.DomainsAreIndependent | src/uk_jamaat_directory/ingest/fetch/throttle.py:18-19 | a domain gets the same grants at the same times as if no other domain were fetched |
| Whitespace.NormalizedIsWords | src/uk_jamaat_directory/ingest/extract/helpers/html.py:15-16 | normalising whitespace is joining the words of the text by single spaces |
| Whitespace.StripExactly | src/uk_jamaat_directory/ingest/extract/helpers/html.py:15-16 | stripping takes all whitespace off both ends and nothing else |
| Whitespace.SpacesAre | src/uk_jamaat_directory/ingest/extract/helpers/html.py:8-16 | whitespace is the 29 characters that Python counts as such |
| TableParser.Parser.Feed | src/uk_jamaat_directory/ingest/extract/helpers/html.py:71-123 | the handlers take the parser from event to event as the step function says |
| TableParser.AlwaysWellFormed | src/uk_jamaat_directory/ingest/extract/helpers/html.py:87-117 | for every event stream, rows are collected exactly when the depth is positive and an open row or cell implies an open table |
| TableParser.CellsAreConserved | src/uk_jamaat_directory/ingest/extract/helpers/html.py:87-117 | for every event stream, every cell ever opened is in a table, in progress, or was dropped |
| TableParser.FlatTablesReadBack | src/uk_jamaat_directory/ingest/extract/helpers/html.py:71-123 | a page of closed flat tables reads back as those tables, each cell the words a reader sees, however the text is cut and whatever scripts, styles and markup stand between and after |
| TableParser.NothingLostExactly | src/uk_jamaat_directory/ingest/extract/helpers/html.py:87-117 | for every event stream, the tables hold every cell that was opened if and only if, by the tags alone, every cell and every row with cells is closed before the next one opens and before the outermost table ends, and no cell was opened since an outermost table last ended |
| TableParser.UnendedTableIsLost | src/uk_jamaat_directory/ingest/extract/helpers/html.py:99-106 | a closed row with a closed cell in a table that never ends is lost, whatever its text |
| TableParser.KeptInOrder | src/uk_jamaat_directory/ingest/extract/helpers/html.py:99-117 | cells closed in time, in tables that end, arrive in the order of the page, each with the text between its tags, scripts and styles left out |
| TableParser.NestedTableDropsCells | src/uk_jamaat_directory/ingest/extract/helpers/html.py:74-76 | the cells before a nested table in its row are lost |
| TableParser.NestedTableDropsItsCell | src/uk_jamaat_directory/ingest/extract/helpers/html.py:74-76 | the text of the cell around a nested table is lost and its row is split |
| TableParser.OmittedRowEndsLoseRows | src/uk_jamaat_directory/ingest/extract/helpers/html.py:92-93 | rows without end tags are lost |
| TableParser.OmittedCellEndLosesCell | src/uk_jamaat_directory/ingest/extract/helpers/html.py:94-95 | a cell without an end tag is lost |
| TableParser.ExtractTables | src/uk_jamaat_directory/ingest/extract/helpers/html.py:126-135 | the tables handed on are those of the parser without blank rows and without tables left empty |
| TableParser.EveryShownTableHasText | src/uk_jamaat_directory/ingest/extract/helpers/html.py:131-134 | no table handed on is empty and none of its rows is blank |
| TableParser.TableIsShown | src/uk_jamaat_directory/ingest/extract/helpers/html.py:126-135 | a table is handed on unless all its cells are blank, with exactly its rows that have text |
| TableParser.TablesShownInTurn | src/uk_jamaat_directory/ingest/extract/helpers/html.py:126-135 | tables are handed on in the order of the page |
| CarryForward.CarryForward | src/uk_jamaat_directory/ingest/extract/helpers/rows.py:15-26 | each position holds the value of the nearest cell at or above that has one |
| CarryForward.CleanedExactly | src/uk_jamaat_directory/ingest/extract/helpers/rows.py:20-24 | a cell has no value exactly when it is blank or a ditto mark between blanks; else its value is its text without the blanks around it |
| CarryForward.NearestAboveIs | src/uk_jamaat_directory/ingest/extract/helpers/rows.py:15-26 | that value is a cell's own with only blank or ditto cells after it, and empty exactly when all cells so far are |
| CarryForward.FilledTwice | src/uk_jamaat_directory/ingest/extract/helpers/rows.py:15-26 | filling a filled column changes nothing |
| CarryForward.FillDown | src/uk_jamaat_directory/ingest/extract/repo_extractors/declarative.py:152-157 | pad, transpose, fill, transpose gives every row the full width and every cell its nearest value above |
| CarryForward.FillDownTwice | src/uk_jamaat_directory/ingest/extract/repo_extractors/declarative.py:152-157 | filling a table twice is filling it once |
| Extraction.InferenceIsSound | src/uk_jamaat_directory/ingest/extract/helpers/times.py:48-66 | inference keeps the clock face, is plausible whenever a reading open to it is, and is idempotent |
| Extraction.WindowsAre | src/uk_jamaat_directory/ingest/extract/helpers/times.py:13-20 | the plausible hours of each prayer, none of which holds both readings of a clock face |
| Extraction.MatchesExactly | src/uk_jamaat_directory/ingest/extract/repo_extractors/declarative.py:103-107 | a header cell matches exactly when the keyword stands somewhere in it, case aside |
| Extraction.ColumnIndex | src/uk_jamaat_directory/ingest/extract/repo_extractors/declarative.py:97-107 | the first header cell containing the keyword, or the index itself if not negative |
| Extraction.ExtractFromTable | src/uk_jamaat_directory/ingest/extract/repo_extractors/declarative.py:109-220 | rows, warnings and reason of an extraction, in order, for every configuration |
| Extraction.BodyEmits | src/uk_jamaat_directory/ingest/extract/repo_extractors/declarative.py:161-213 | a schedule row is extracted if and only if a cell of a prayer column in a dated, accepted row emits it |
| Extraction.TimeComesFromCellAbove | src/uk_jamaat_directory/ingest/extract/repo_extractors/declarative.py:152-213 | with carry-forward, every time comes from its own cell or the nearest above that is neither blank nor a ditto mark |
| ExtractedRows.ExtractedExactly | src/uk_jamaat_directory/ingest/extract/repo_extractors/declarative.py:97-220 | a table yields exactly the rows that stand in it, said of its own cells: an accepted date, a plausible time of a prayer column after inference, and the start time its start column tells in that row, each read from the nearest cell above where blanks are carried |
| ExtractedRows.WarningsTell | src/uk_jamaat_directory/ingest/extract/repo_extractors/declarative.py:109-220 | without a date column nothing else is said; with one, the warnings count the prayers without a column and say whether some prayer cell of an accepted row is no time or an implausible one, and the reason says why there are no rows |
| Extraction.CountOutOfWindow | src/uk_jamaat_directory/ingest/extract/repo_extractors/semantics.py:51-61 | the semantic check counts exactly the rows outside the window of their prayer |
| Extraction.WindowCheckPasses | src/uk_jamaat_directory/ingest/extract/repo_extractors/semantics.py:51-61 | the window check never flags what this extraction produces |
| Dates.MonthsMoveExactly | src/uk_jamaat_directory/ingest/extract/helpers/dates.py:51-57 | the month moves by exactly n, negative n too, the day is kept or clamped, and it fails exactly when the year leaves the calendar |
| Dates.MonthsFillTheCalendar | src/uk_jamaat_directory/ingest/extract/helpers/dates.py:51-57 | each month is as long as the time to the next one on the Gregorian day count |
| Dates.MovingKeepsOrder | src/uk_jamaat_directory/ingest/extract/helpers/dates.py:51-57 | shifting two dates keeps their order |
| Dates.TwoStepsAgainstOne | src/uk_jamaat_directory/ingest/extract/helpers/dates.py:51-57 | two shifts reach the month of one shift on a day no later, on the same day if and only if the month between was long enough, and always for days up to 28 |
| Dates.MonthIsListed | src/uk_jamaat_directory/ingest/extract/helpers/dates.py:60-62 | every date of the month is listed, each once, in order |

## Left out

- Database rows are values in maps and each service call is one atomic step; sessions, query text, ORM mapping and the migrations are not modelled.
- ScheduleStore.Store.Upsert: updates any active row of the natural key, where the query takes the most recently updated; with one active row per key (`ScheduleInvariants.EveryRunIsSafe`) they are the same.
- ScheduleStore.Store.ValidateCandidate: returns error codes; messages and warnings (daylight saving) are not modelled, as they never change a status. The set of known time zones and today's date in each are parameters.
- ScheduleStore.Store.PublishCandidates: publishes into a fresh version; passing an existing version, the name of a version and the stored health and freshness of sources are not modelled, except that a source without a mosque makes the publish fail.
- ScheduleReplay.FeedAlwaysRebuildsLatest: an occurrence is identified by its version and key instead of a generated id, and an event points at the row instead of holding a payload.
- Cancelling the overnight run and its global timeout are not modelled: a cancelled coroutine never decrements `in_flight`. Exceptions raised by the progress callback or while storing a pre-flight verdict are not modelled either.
- The other counters of the summary (`preflight_done`, `preflight_ok`, `failure_categories`, `errors`) are not modelled.
- Nights.RetriesEnd: assumes no retry flags, no pruning of assignments and no change of settings between nights; `limit` and the country filter are covered, as any subset of the candidates may be worked on.
- AuthoringModel.ProcessSource: takes the answers of the domain policy, the reachability fetch, the agent, the registry and the smoke test as inputs, any of which may be an exception; failure texts and their classification are inputs too.
- Scoring.ScoreCandidate: scores are exact hundredths where the program adds binary fractions, so scores and gaps that lie exactly on a threshold may fall on its other side there: 0.35 + 0.30 + 0.10 is below 0.75 in binary, so postcode, strong name and city alone go to review in the program and reach 0.75 here, 0.35 + 0.10 - 0.20 falls below 0.25, and gaps of 0.1 and 0.25 can round either way. Fuzzy ratios, distances, normalised texts and whether a name looks like a parent organisation are inputs.
- Matching.DecideMatch: returns decision, mosque, score and alternatives; the list of reasons that goes with them is not modelled.
- Resolve.IdentityStore.ResolveDiscoveryRecord: models links, mosques and reviews; names, addresses, coordinates, aliases, timestamps, the audit log and the reasons kept with a review are not modelled, nor are merging mosques, deleting rows, the bulk operations and the choice of the mosques that are scored.
- OpenApi.BuildPublicOpenapi: takes the generated document as input, with `tags` a list wherever it is present, as the framework produces it.
- RateLimit.SlidingWindowLimiter.Check: the clock reading is a parameter that never goes back; client addresses and responses are not modelled.
- Throttle.GrantsAreSpaced: a sleep never ends early and the delay does not change; clearing the throttle is not modelled.
- TableParser.Parser.Feed: starts from the events of Python's HTML tokenizer, which is not modelled.
- Extraction.ExtractFromTable: date, time and case conversion are functions of the configuration; evidence texts and warning messages are not modelled, nor is the search for the table on the page or in the PDF.
- `check_result_semantics` beyond the window check (daily order, date coverage, hard-coded years, calculated times) depends on what the site shows, not on the extraction.
- HTTP, DNS, storage, browsers, the agent process, FastAPI routes, admin pages, the command line and Celery are thin plumbing around these parts.
- Regular-expression scraping of single sites and the free-text date parsers are case lists with little to prove.
