# Event discovery: a verified model

This project models the event-discovery service in Dafny and proves what its
ingestion, crawling, key rotation, rate limiting, ranking, planning, geocoding and
search promise. Each source file is modelled in its own form: objects that update
their fields are classes whose methods are proved against functions of the old
state, and the properties that range over runs are lemmas about those functions.

| file | what it models |
|---|---|
| `Listings`, `Matching`, `Merging`, `MergeRules` | the payload, routing an observation to a stored event, merging it field by field, and the rules a merge follows |
| `Ingest`, `Invariants`, `Replay`, `CatalogView`, `IngestSession` | the store, its invariants over all runs, replays, the performer/genre view, and the run on mutable tables with savepoints and chunk commits |
| `TicketmasterCrawl`, `Checkpoint` | the window stack, paging and budget of the crawl, and the worker's fetch-commit-acknowledge protocol |
| `KeyStore`, `Rotation` | the Lua transitions of the API-key store and how evenly least-used selection spends keys |
| `RateLimit` | the sliding-window limiter and the async limiter against the full history |
| `Tags`, `Vocabulary`, `Taxonomy` | tag spelling on the Python and SQL sides, and the shipped vocabularies |
| `UserProfile`, `Scoring`, `Ranking`, `Recommendations` | from a user's signals to the SQL ranking against the in-memory recommender, and paging |
| `Itinerary`, `Geocoding`, `EventbriteCrawl`, `SearchHook` | stop sequencing, the geocode cache, the slice crawl, and the paginated search hook |
| `Prelude`, `Lists`, `Text`, `Sorting` | shared vocabulary: options, `dict.fromkeys`, string helpers, stable and total-order sorting |

Times are integers (microseconds in the store, seconds elsewhere), scores and
confidences are reals, strings are ASCII. What the code asks of the outside world
(the SF calendar, similarity scores, the provider's answers, the order in which a
query lists its rows, clocks) is a parameter, and every theorem holds for all
values of it that meet the condition stated with it.

`dafny verify dfyconfig.toml` checks the whole project.

## Where the code and its intent part

- An event's performer and genre lists are meant to be a view over its source
  records. The code patches them. If the last observation to land on an event is a
  stable one, the event shows its view after the run exactly when that observation
  opened it or left no label over: every label the event shows must be retracted as
  it is shown or still be published, unless the published labels fill the cap
  (`CatalogView.EventShowsViewExactly`, one observation
  `CatalogView.ProcessShowsViewExactly`, all states of a run
  `CatalogView.RunShowsViewExactly`). A label whose 200-character clip ends in
  whitespace is such a leftover: it is shown under another spelling than the one it
  is retracted by (`CatalogView.RetractionWorksExactlyOnCleanLabels`). It can still
  leave the event: a provider that publishes the spelling shown and then drops it
  takes it off (`CatalogView.CleanIsRetracted`).
- The SQL ranking breaks ties on score and start by id, the recommender by the
  order its events come in. They give every event the same final score, whatever
  its category, exactly when ties come in id order
  (`Ranking.FinalScoresAgreeExactly`); otherwise the diversity penalty can fall on
  another event (`Ranking.TiedPairOutOfOrder`).
- A merge never loses a description, venue, address, image, organizer, price or
  currency, but it can lose the link: the link follows the winning source, and is
  erased exactly when an observation without one is of better tier or has
  authority, and is not held back (`Merging.LinkIsErasedExactly`,
  `Merging.BetterTierErasesLink`); what reaches the store is
  `Invariants.LinkIsLostExactly`.
- The sliding-window limiter reads the clock before it takes its lock, so requests
  may enter in another order than that of their times. After hits within a window of
  the first, limiter and naive rule answer all later requests alike exactly when the
  hits entered in the order of their times (`RateLimit.AgreementNeedsOrder`). On one
  next request alone they can agree without that: for a full window, exactly when the
  first to enter was the earliest (`RateLimit.AgreementNeedsEarliestFirst`,
  `RateLimit.OneRequestIsNotEnough`).
- A search list that looks finished is the whole result exactly where no announced
  total ends the paging early (`SearchHook.FinishedIsWholeExactly`); what is visible is
  a prefix of the results in any case (`SearchHook.VisibleIsAPrefix`).
- The SQL score has no floor at zero, the recommender's does. They agree exactly
  when a preference matched or the learned weight is not negative
  (`Scoring.TotalsAgreeExactly`), which the profile the service accumulates always
  meets (`UserProfile.ComputeVibeScores`, `Recommendations.RowsAgree`).

## Model

| member | source | states |
|---|---|---|
| Listings.CanonicalIdempotent | app/services/catalog_taxonomy_v1.py:20-28 | canonicalising an already canonical, deduplicated list returns it unchanged |
| Listings.CatalogLabelsAreLabels | app/services/data_pipeline.py:1004-1005 | label lists come out deduplicated, at most 100 long, each label nonblank and at most 200 characters |
| Listings.CatalogLabelsMembers | app/services/data_pipeline.py:1004-1005 | every label comes from a listed one, stripped and clipped, and below the cap each listed one that is not blank is there |
| Listings.ClipPresentFixes | app/services/data_pipeline.py:1004-1005 | a clipped label survives a second pass unchanged iff it is nonempty, trimmed and short |
| Listings.PrepareNormalizes | app/services/data_pipeline.py:96-106 | whatever a connector hands over, what reaches the store has canonical lists, bounded labels and a confidence in [0, 1] |
| Listings.PrepareExactly | app/services/data_pipeline.py:939-1003 | preparing a payload changes its lists and number fields only: a currency without a price goes, and a searchable geocoded point replaces one that is not |
| Listings.StableIds | app/services/data_pipeline.py:269-288 | which ids outlive a change of date, provider by provider |
| Matching.Best | app/services/data_pipeline.py:474-495 | among several acceptable rows the one with the highest title score is taken |
| Matching.TimeFilterKeepsCompatible | app/services/data_pipeline.py:454-472 | the query window drops no compatible start, in all four estimated/real combinations, and admits exactly the compatible ones except when only the row is an estimate |
| Matching.DuplicatesExactly | app/services/data_pipeline.py:630-687 | identities aside, two listings are duplicates iff they start within two hours, or on one local day where either hour is a guess, do not name different venues, and share a link, a title more than 85 similar, or a venue and title words 60 similar |
| Matching.FindExistingRefinesFullScan | app/services/data_pipeline.py:415-495 | a row is found iff some row of the whole table owns the identity or is accepted as a duplicate, and the row found is one of those |
| Merging.MergeSchedule | app/services/data_pipeline.py:789-824 | the overwritten time block is the specified one, which follows the rules of `MergeRules.UpdatedFollows` |
| Merging.MergePlace | app/services/data_pipeline.py:870-878 | the overwritten location block takes point, confidence and city from one side chosen by authority, venue change and confidence |
| Merging.MergeStatus | app/services/data_pipeline.py:838-843 | the status and its right to overrule severity, as one closed form per authority and replay flag |
| Merging.MergeOwner | app/services/data_pipeline.py:845-851 | owner, id, tier and link come from one side, the better tier or the authority |
| Merging.MergeEventPayloads | app/services/data_pipeline.py:774-937 | the step-by-step overwrite of the working copy equals a field-by-field closed form, so no step undoes or leaks into another; that form follows the rules of `MergeRules.UpdatedFollows` |
| Merging.StatusDropNeedsAuthority | app/services/data_pipeline.py:789-843 | a merge lowers severity only for a non-replay of no worse tier that is the owner or a changed alias of strictly better tier |
| Merging.PastLeftOnlyWithNewStart | app/services/data_pipeline.py:838-843 | "past" is left only together with a changed start and only on authority |
| Merging.EstimateReplacesPublishedTime | app/services/data_pipeline.py:789-824 | a published start becomes an estimate iff an authoritative estimate names another local day |
| Merging.CoordinateTravelsWithConfidence | app/services/data_pipeline.py:909-928 | coordinate and confidence after a merge are both the row's or both the observation's |
| Merging.OwnerTravelsWithTier | app/services/data_pipeline.py:845-851 | name, id and tier after a merge belong to one side, and the tier never worsens |
| Merging.NothingPublishedIsErased | app/services/data_pipeline.py:774-937 | a merge never replaces a present description, venue, address, image, organizer, price or currency by a missing one |
| Merging.LinkIsErasedExactly | app/services/data_pipeline.py:845-851 | a published link is lost iff the observation has none, is not held back, and is of better tier or has authority |
| MergeRules.UpdatedFollows | app/services/data_pipeline.py:774-937 | every field of a merged event: an observation with a say sets it; unchanged old evidence never does; otherwise a published start beats a guess, then the better tier gives start and end, then the earlier start and later end; the longer wording, the lower price, the larger attendance and the severer status stand; the surer coordinate of the same place; owner and link of the better tier; tags accumulate |
| MergeRules.LabelsFollow | app/services/data_pipeline.py:774-937 | performers and genres of a merge: a say that lists any replaces them, old evidence leaves them, otherwise they accumulate |
| MergeRules.PassingOverCostsLittle | app/services/data_pipeline.py:509-628 | an observation passed over as insignificant would have brought no tag, category or label, filled no gap, raised no severity, made no guess a published time, moved it by at most half an hour, confidence by at most 0.05 and the description by thirty characters unless nearly the same; from a source that may revise the event, no fact at all |
| MergeRules.CopyIsPassedOver | app/services/data_pipeline.py:509-628 | an observation that tells of an event what is already stored is insignificant, whoever it comes from |
| MergeRules.ObservationFollows | app/services/data_pipeline.py:151-184 | in any reachable state an observation opens an event that shows its facts, or the event it is routed to is left alone or merged by those rules; no other event changes |
| Ingest.RecordOrderTotal | app/services/data_pipeline.py:325-326 | the sort key of source records is a total order, so the view does not depend on how rows were listed |
| Ingest.SortedRecords | app/services/data_pipeline.py:325-326 | the sorted list holds exactly the event's records, owner first |
| Ingest.RecordsDecideOwnership | app/services/data_pipeline.py:421-453 | in a reachable store the record index alone decides who owns an identity; the fallback lookup finds nothing more |
| Ingest.ProcessTouchesOneEvent | app/services/data_pipeline.py:151-184 | an observation never meets an identity conflict, changes one event and at most its own record, and never inserts a known identity |
| Invariants.RunKeepsInv | app/services/data_pipeline.py:87-184 | foreign keys, back-pointers, fresh ids, canonical lists, bounded labels and confidences hold after every run, rejected observations and lifecycle sweeps included |
| Invariants.OneOwnerPerIdentity | app/services/data_pipeline.py:290-316 | after any run from an empty store no two events carry one stable identity |
| Invariants.RouteFlags | app/services/data_pipeline.py:421-440 | in a reachable store "replayed" and "revised" say exactly whether the recorded hash equals the new one |
| Invariants.RouteExactly | app/services/data_pipeline.py:415-495 | an identity on record goes to its event; any other observation goes to a stored row iff some row matches by time, venue and corroboration, and then to one of those whose title no other exceeds in similarity |
| Invariants.RunExtends | app/services/data_pipeline.py:845-851 | over a run a record never changes its event, nothing is deleted, and no event's tier gets worse |
| Invariants.RecordExactly | app/services/data_pipeline.py:299-333 | the record an observation leaves holds its hash, its event and what it lists, or, where it lists nothing, what its provider listed before |
| Invariants.ReobservationFindsItsEvent | app/services/data_pipeline.py:421-453 | every later observation of a stored identity, whatever its date, title, venue or tier, lands on the same event and inserts nothing |
| Invariants.ObservationIsRecorded | app/services/data_pipeline.py:299-333 | an identity seen anywhere in a run from a good store still points at its event at the end |
| Invariants.RowsHaveOneSource | app/services/data_pipeline.py:335-389 | in every reachable state an event's coordinate and confidence were carried together by one observation, and its name, id and tier were published together by one |
| Invariants.SeverityDropsOnlyOnAuthority | app/services/data_pipeline.py:1061-1066 | a step lowers an event's severity only for a non-replay from its owner or a changed-hash alias of strictly better tier |
| Invariants.PastIsLeftOnlyWithNewStart | app/services/data_pipeline.py:838-843 | a step takes an event out of "past" only by such an authority and only with a new start |
| Invariants.EstimateReplacesOnlyAnotherDay | app/services/data_pipeline.py:883-906 | a step turns a published start into an estimate only by an authoritative estimate on another local day, whose start it takes |
| Invariants.LinkIsLostExactly | app/services/data_pipeline.py:845-851 | a step takes a published link from an event iff it is an observation without one that lands there and has authority, or is of better tier and brings something significant |
| Invariants.SkippedChangesNothing | app/services/data_pipeline.py:134-149 | an observation reported neither inserted nor updated changed no event |
| Replay.CatalogLabelsOfMerge | app/services/data_pipeline.py:1157-1174 | normalising a merged list is one clip, one deduplication and one cap |
| Replay.SettledLabelsStay | app/services/data_pipeline.py:318-333 | restating facts that are still published leaves a label list as it is |
| Replay.ProcessSettles | app/services/data_pipeline.py:151-184 | processing a stable observation leaves the store with its hash recorded, its enrichment held and its labels settled |
| Replay.ReplayIsNoOp | app/services/data_pipeline.py:509-526 | from any reachable state, processing an observation again right after it was processed reports "skipped" and changes no event and no record |
| Replay.FreshKeepsSettled | app/services/data_pipeline.py:151-184 | a newly seen identity unsettles no observation already settled, even when both share an event |
| Replay.BatchReplayIsNoOp | app/services/data_pipeline.py:87-149 | a batch of distinct new identities run twice from any reachable state: the second pass skips every observation and leaves the store untouched |
| CatalogView.PatchedViewIsView | app/services/data_pipeline.py:299-333 | patching out one provider's old facts and in its new ones turns the view of the old records into the view of the new ones |
| CatalogView.LabelsAreTheView | app/services/data_pipeline.py:299-333 | over every run of clean stable observations each event's list equals the from-scratch view: current facts, owner first, deduplicated, capped |
| CatalogView.LabelShownIffListed | app/services/data_pipeline.py:318-333 | below the cap an event shows a label iff one of its records currently lists it |
| CatalogView.ClipIsUncleanExactly | app/services/data_pipeline.py:1004-1005 | clipping yields an unclean label iff it cuts a longer label right after whitespace |
| CatalogView.PatchIsExact | app/services/data_pipeline.py:318-333 | patching any list gives the list of what is now published iff every label shown is retracted as shown or still published as it is clipped, or the cap is full |
| CatalogView.ProcessShowsViewExactly | app/services/data_pipeline.py:299-333 | from any reachable store, whatever its event showed before, the event shows its view afterwards iff the observation opened it or leaves nothing over, which the store and the observation decide beforehand |
| CatalogView.NextShowsViewExactly | app/services/data_pipeline.py:299-333 | after a step from any reachable store the event observed shows its view iff nothing is left over on it, every other event iff it did before |
| CatalogView.EventShowsViewExactly | app/services/data_pipeline.py:299-333 | at the end of any run an event shows its view iff the last observation to land on it, if stable, opened it or left nothing over; what earlier ones left over does not matter |
| CatalogView.EventWasLandedOn | app/services/data_pipeline.py:151-184 | every event of a store a run reaches has a last observation that landed on it |
| CatalogView.RunShowsViewExactly | app/services/data_pipeline.py:299-333 | over any run of stable observations from an empty store the views are shown in every state iff no observation leaves anything over |
| IngestSession.Tally.SummaryAddsUp | app/services/data_pipeline.py:141-149 | inserted, updated and skipped add up to the number of distinct events seen |
| IngestSession.TallyIsExact | app/services/data_pipeline.py:108-149 | the running sets hold exactly the events the observations inserted, updated and touched, and the rejections exactly those that landed nowhere |
| IngestSession.Session.ApplyPayload | app/services/data_pipeline.py:1035-1066 | in-place write-back changes one row, keeps its city, and moves status only by reset or rising severity |
| IngestSession.Session.RememberSourceRecords | app/services/data_pipeline.py:299-333 | the in-place bookkeeping is the specified new store, or no change at all and the conflict error |
| IngestSession.Session.ProcessObservation | app/services/data_pipeline.py:151-184 | on mutable tables one observation has exactly the specified effect, and a refusal leaves no trace |
| IngestSession.Session.HandleAll | app/services/data_pipeline.py:114-140 | at every turn the durable state is the state at the last commit point |
| IngestSession.Session.ProcessRawEvents | app/services/data_pipeline.py:87-149 | a finished run is durable, equals the fold of its observations, and reports exactly the events they inserted, updated and left alone, which add up to those seen, and the payloads rejected; a crash keeps exactly the chunks committed before it |
| IngestSession.RejectedAreRefused | app/services/data_pipeline.py:121-133 | in a good store an observation is counted as rejected iff the database refuses it |
| IngestSession.InsertedAreNewRows | app/services/data_pipeline.py:134-149 | the events counted as inserted are exactly the rows the run added |
| IngestSession.Session.MarkPastEvents | app/worker.py:247-265 | exactly the scheduled events that ended before the cutoff become past, nothing else changes, none is left, and all of it is committed |
| IngestSession.LastCommitIsLatest | app/services/data_pipeline.py:114-120 | what a crash keeps ends at the last multiple of the chunk size, so less than a chunk is lost |
| TicketmasterCrawl.PagesNeededExactly | app/ingestion/ticketmaster.py:204-232 | reading k pages reads everything iff k reaches the page count |
| TicketmasterCrawl.TicketmasterSource.ReadPage | app/ingestion/ticketmaster.py:174-185 | one request against the shared budget; no payload iff the budget is spent or the request failed, and then the error is set |
| TicketmasterCrawl.TicketmasterSource.AppendEvents | app/ingestion/ticketmaster.py:187-202 | the output gains exactly the mappable listings of a page, every id staying unique |
| TicketmasterCrawl.TicketmasterSource.ReadQuery | app/ingestion/ticketmaster.py:204-254 | a query is read whole, handed back to be split, or stops with an error; it is handed back only if it holds more than a thousand listings, and read whole only if it holds no more; the output gains only what the query selects |
| TicketmasterCrawl.TicketmasterSource.ReadWindow | app/ingestion/ticketmaster.py:204-232 | the stack stays a contiguous ascending tiling of the rest of the horizon, and everything before it has been read |
| TicketmasterCrawl.TicketmasterSource.ReadUndated | app/ingestion/ticketmaster.py:234-254 | the undated passes add every mappable TBA and TBD listing or stop with an error |
| TicketmasterCrawl.TicketmasterSource.FetchEvents | app/ingestion/ticketmaster.py:135-261 | without an error: everything mappable in the horizon and everything undated, each id once; with one: everything dated before the window being read; at most 80 requests; where no request fails, no error iff everything can be read whole in 80 requests, and then exactly the requests that takes; a checkpoint is pending iff the search was whole and unfiltered |
| TicketmasterCrawl.ErrorsHaveCause | app/ingestion/ticketmaster.py:174-254 | an error means 80 requests were made, the last request failed, or a window of at most a day or an undated pass holds more than a thousand listings |
| TicketmasterCrawl.CrawlEndsCleanExactly | app/ingestion/ticketmaster.py:135-254 | where no request fails, the window stack, its pages and the undated passes end without an error iff the recursive halving of windows above a thousand listings needs at most 80 requests and meets no day above a thousand; then they make exactly as many |
| TicketmasterCrawl.SparseCrawlIsClean | app/ingestion/ticketmaster.py:204-254 | a horizon and undated listings of at most a thousand each are read in their pages, with nothing cut |
| TicketmasterCrawl.TicketmasterSource.AcknowledgePersisted | app/ingestion/ticketmaster.py:263-272 | the stored timestamp changes only to a pending one after a fetch without error, and a failed save changes nothing |
| Checkpoint.Worker.Fetch | app/worker.py:128-150 | a fetch counts as whole iff the source was created, its arguments accepted, and the crawl the server allows ends without an error; then everything searched for is handed over |
| Checkpoint.Worker.RunOnce | app/worker.py:118-218 | the checkpoint moves iff the fetch was whole and unfiltered, the pipeline finished with nothing rejected, and the save succeeded, all of it determined by the cycle's conditions, listings and store; then everything searched for is normalised and, with a stable identity, on record in the committed store; after a finished run with a sweep, nothing scheduled is overdue |
| Checkpoint.Worker.RunCycles | app/worker.py:103-218 | each cycle of a history did what its own conditions and the store before it made it do, the checkpoint follows the history, and what advancing cycles searched for is still on record at the end |
| Checkpoint.AdvanceMeansPersisted | app/worker.py:158-202 | when a cycle advances, every mappable listing in scope was normalised and, if its identity is stable, has a record in the store the cycle leaves |
| Checkpoint.CheckpointIsLatestAdvance | app/worker.py:190-218 | the stored timestamp is the fetch start of the latest advancing cycle, or the initial one if none advanced |
| Checkpoint.CheckpointVouches | app/worker.py:190-202 | a changed timestamp is the fetch start of the latest whole cycle, and everything that cycle searched for is still on record, every listing with an id under the provider's name and that id |
| Checkpoint.SearchedIsOnRecord | app/ingestion/ticketmaster.py:346-350 | where a search is persisted, each of its listings with an id is on record under the provider's name and that id |
| KeyStore.ActiveKeysHaveQuotaLeft | app/services/secrets_store.py:21-61 | under every interleaving an active key with positive quota has usage below it |
| KeyStore.StatusIsExact | app/services/secrets_store.py:21-61 | in every reachable state a key that is not disabled is exhausted iff its positive quota is used up, and active otherwise |
| KeyStore.UsageCountsCallsSinceRenewal | app/services/secrets_store.py:21-43 | a key's usage is exactly the calls reported since its last seed, reset or creation |
| KeyStore.EveryHashWasRenewed | app/services/secrets_store.py:46-61 | every stored key has such a renewal, so the count covers all keys |
| KeyStore.DisabledUntilSeeded | app/services/secrets_store.py:21-61 | a disabled key stays disabled until it is seeded again, whatever else happens |
| KeyStore.StepKeepsSettings | app/services/secrets_store.py:21-61 | a seed sets all of a key; nothing else changes its secret, only the environment refresh its quota, and a step disables a key iff it is a report that asks for it |
| KeyStore.DisabledIsNotLeased | app/services/secrets_store.py:167-205 | from the moment a key is disabled, no lease names it until it is seeded again, whatever else happens |
| KeyStore.UpdatedAtIsLastStamp | app/services/secrets_store.py:31-32 | the recorded time of a key is that of the last step that stamped it |
| KeyStore.RecordedTimeWasStamped | app/services/secrets_store.py:31-41 | behind every recorded time stands the step that stamped it, and no later step stamped the key |
| KeyStore.RunKeepsStamps | app/services/secrets_store.py:21-61 | an exhausted key has been used and a used key has been stamped, in every reachable state |
| KeyStore.ResetWaitsOutTheWindow | app/services/secrets_store.py:36-43 | in every reachable state a reset takes effect iff the key is in rotation and exhausted and its last stamping step lies at least a full window back |
| KeyStore.SecretsStore.ReportUsage | app/services/secrets_store.py:212-235 | one report on a known key, its id stripped, is exactly one atomic step; a blank or unknown id changes nothing |
| KeyStore.SecretsStore.ResetKey | app/services/secrets_store.py:36-43 | one reset script is exactly one atomic step |
| KeyStore.SecretsStore.ResetExhausted | app/services/secrets_store.py:237-261 | the loop over the inventory and the environment key renews exactly the keys whose window has rolled over, returns them in order, and touches no other |
| KeyStore.SecretsStore.SyncEnvQuota | app/services/secrets_store.py:46-61 | the environment refresh is one atomic step that keeps counts and disables |
| KeyStore.SecretsStore.SeedKey | app/services/secrets_store.py:114-137 | a seed strips its id and enlists and renews that key, or changes nothing when its arguments are refused |
| KeyStore.SecretsStore.LeastUsed | app/services/secrets_store.py:167-205 | with the hashes read one by one, the key chosen is listed, has a secret, is active and below its quota as read, and comes first by usage and id among all that were; none is chosen only if each listed key lacked one of these |
| KeyStore.SecretsStore.FallbackEnvKey | app/services/secrets_store.py:139-165 | the environment key is leased iff it is enabled, active and within its own quota |
| KeyStore.SecretsStore.GetActiveKey | app/services/secrets_store.py:167-210 | ids listed once and hashes read one by one while others may write: a non-empty inventory yields a listed, active key with a secret and quota left as read, the first of those, or an error if there was none, never the environment key; the environment key only without inventory, active and within its quota |
| KeyStore.QuietReadsLeaseFirst | app/services/secrets_store.py:167-205 | when nothing is written in between, that key is the eligible one that comes first in rotation |
| Rotation.GetWithRetry | app/ingestion/base.py:63-89 | attempts stop at the first answer that is not transient, at most three are made, and each is recorded once |
| Rotation.CrawlUsageBounded | app/ingestion/ticketmaster.py:174-185 | a crawl within its 80 requests records at most 240 calls |
| Rotation.LeaseIsDetermined | app/services/secrets_store.py:195-205 | a lease exists iff some key is eligible, and it is unique |
| Rotation.RotationStaysBalanced | app/services/secrets_store.py:167-210 | with one lease at a time and crawls of at most c calls, active keys stay within c of each other and every key below quota + c |
| Rotation.RotationBound | app/services/secrets_store.py:167-210 | with the crawl's own budgets that bound is 240 |
| RateLimit.LimiterIsNaive | app/core/ratelimit.py:36-60 | pruned and swept, the limiter admits exactly what the naive rule over the whole admitted history admits |
| RateLimit.WaitIsExact | app/core/ratelimit.py:36-51 | the wait handed back is positive and exact: the limiter refuses a retry at every instant before it and admits one from it on |
| RateLimit.HeldKeysAreRecent | app/core/ratelimit.py:53-60 | every key still held was hit within the last two windows |
| RateLimit.AgreementNeedsEarliestFirst | app/core/ratelimit.py:36-51 | for any limit and any full window of hits within a window of the first, all of them are admitted, and limiter and naive rule answer the one next request alike, whenever it comes, iff the first to enter was the earliest |
| RateLimit.AgreementNeedsOrder | app/core/ratelimit.py:36-60 | after hits within a window of the first, at most as many as the limit, limiter and naive rule answer every later run of requests alike, whatever other clients send in between, iff the hits entered in the order of their times |
| RateLimit.SlidingWindowLimiter.Sweep | app/core/ratelimit.py:53-60 | the in-place sweep drops exactly the stale keys, at most once a window |
| RateLimit.SlidingWindowLimiter.Record | app/core/ratelimit.py:36-51 | the in-place hit has exactly the specified effect and answer; a limit of zero or less admits everything |
| RateLimit.GrantsAreSpaced | app/ingestion/rate_limiter.py:15-28 | over any attempts at most `max_calls` grants fall into one half-open period |
| RateLimit.GrantIsNaive | app/ingestion/rate_limiter.py:15-28 | a slot is granted iff fewer than `max_calls` of all slots granted before lie within the last period |
| RateLimit.AcquireWaitIsExact | app/ingestion/rate_limiter.py:15-28 | an undisturbed retry is refused before the computed sleep is over and granted after it |
| RateLimit.AsyncRateLimiter.TryAcquire | app/ingestion/rate_limiter.py:15-28 | one turn under the lock expires, grants or reports the wait as specified |
| Tags.BothSidesNormalizeAlike | app/services/tags.py:26-37 | the Python and SQL clean-ups reduce a tag to the same characters, whatever its case, spaces, separators and hashes |
| Tags.CanonicalIsFixed | app/services/tags.py:26-37 | a canonical tag is its own canonical form |
| Tags.StoredFormExactly | app/services/tags.py:153-166 | a stored spelling is among the listed forms iff it resolves to the wanted vibe |
| Tags.FilterIsResolution | app/api/discovery.py:414-434 | the SQL tag filter is true iff some stored tag resolves to the wanted vibe |
| Tags.CollectVibes | app/services/tags.py:138-150 | the loop keeps the recognised vibes once each in order of first mention |
| Tags.VibeTagsAreFixed | app/services/tags.py:138-150 | the kept tags are distinct vocabulary entries, exactly those some raw tag stands for, and re-canonicalising changes nothing |
| Vocabulary.TableIsChainFree | app/services/tags.py:88-123 | in the shipped tables every alias is canonical and points at a vibe that is nobody's alias |
| Vocabulary.VibeIsProper | app/services/tags.py:43-82 | every shipped vibe is spelled canonically and is nobody's alias |
| Vocabulary.VibesCanonicalize | app/services/tags.py:43-82 | every shipped vibe stands for itself, which the replay proofs ask of the vocabulary |
| Taxonomy.CategoriesCanonicalize | app/services/catalog_taxonomy_v1.py:14-23 | what a label is filed under is filed under itself, for every table whose names differ in more than case |
| Taxonomy.ShippedTable | app/services/catalog_taxonomy_v1.py:4-15 | the shipped category table is such a table |
| Scoring.VibeScore | app/services/recommender.py:106-154 | the score depends only on how many distinct concepts are preferred and their summed learned weight; the matched tags are the specified list, or none when nothing matched |
| Scoring.MatchedExactly | app/services/recommender.py:139-149 | a tag is shown as matched iff it is how the event spells a preferred or a positively learned concept |
| Scoring.SaturationExactly | app/services/recommender.py:137-154 | the vibe score s of raw points r satisfies s (r + 100) = 100 r and stays below 100 |
| Scoring.VibeScale | app/services/recommender.py:137-154 | one preferred concept, or ten points of learned weight, scores 50; nothing in common scores 0 |
| Scoring.TotalIsMadeOf | app/api/discovery.py:922-934 | on both sides a new event without interactions has 25 points; half the vibe score comes on top, 2.5 for each of the first ten interactions, and each of three deadlines passed takes 3.75 |
| Scoring.LearnedScores | app/services/recommender.py:128-135 | spellings of one concept pool their learned weight |
| Scoring.RawWeights | app/api/discovery.py:911-917 | one term per concept, each weighing 100 if preferred plus ten times its learned weight, whatever order the sets were listed in |
| Scoring.RawScoresAgree | app/api/discovery.py:918-921 | the SQL sum over weighted tag filters equals the recommender's raw score, for every event, user and profile |
| Scoring.VibesAgreeExactly | app/services/recommender.py:137-154 | the two vibe scores are equal, undefined ones included, iff a preference matched or the learned weight is not negative |
| Scoring.TotalsAgreeExactly | app/api/discovery.py:922-934 | totals before diversity agree under exactly that condition |
| UserProfile.ComputeVibeScores | app/services/user_profile.py:81-114 | the accumulated profile lists each tag the signals name once, with the sum of what they contribute to it, which is positive |
| Ranking.ApplyDiversityPenalty | app/services/recommender.py:176-184 | the in-place pass takes the penalty off exactly the rows whose list predecessor has the same primary category |
| Ranking.ScoreEvents | app/services/recommender.py:92-99 | each event comes out once, best final score first, with its total less the penalty iff the event just before it by total, start and order of arrival shares its primary category |
| Ranking.PenaltyIsLag | app/api/discovery.py:943-957 | on a list in window order the pass gives each row the score the SQL lag window gives it |
| Ranking.FinalScoresAgreeExactly | app/api/discovery.py:943-957 | recommender and SQL give every event the same final score under every assignment of categories iff ties on score and start are listed in id order |
| Ranking.OrdersDifferOnlyOnTies | app/api/discovery.py:958-963 | wherever the final scores are the same, the two rankings carry the same score and start position by position |
| Ranking.SqlRankingSpec | app/api/discovery.py:943-963 | the SQL result lists every filtered row once, by final score, start and id |
| Ranking.PagesListEveryEventOnce | app/api/discovery.py:958-963 | pages at successive offsets, concatenated, show every filtered event exactly once in that one order |
| Ranking.ServePage | app/api/discovery.py:964-979 | rescoring, reordering, restoring and re-sorting a page in memory returns the page as SQL gave it |
| Recommendations.RowsAgree | app/api/discovery.py:911-934 | for the profile of any signals, the query and the recommender give an event the same, defined total before diversity |
| Recommendations.SqlRows | app/api/discovery.py:904-942 | from signals and preferences to the ranked rows: the query's totals are the recommender's |
| Recommendations.SameFinalScores | app/api/discovery.py:904-957 | end to end, for one filtered set and one user, both sides give every event the same final score under every assignment of categories iff ties on total and start come in id order |
| Itinerary.LegsTakeTime | app/services/planning.py:127-133 | every leg takes at least two minutes, in every travel mode |
| Itinerary.MinutesAreLeast | app/services/planning.py:127-133 | a leg takes the least whole number of minutes in which, after the mode's overhead, 1.3 times the distance is covered at its speed; half an hour where a place is unknown |
| Itinerary.BeforeIsLatest | app/services/concierge.py:110-130 | the stop before is a latest-starting feasible support event, and there is none only if none is feasible |
| Itinerary.AfterIsEarliest | app/services/concierge.py:110-131 | the stop after is an earliest-starting feasible support event, and there is none only if none is feasible |
| Itinerary.SequenceExactly | app/services/concierge.py:95-154 | the stops are the anchor and, unless its hour is a guess, a latest event before it iff one of the same outing leaves time to reach it, and an earliest one after it iff one can still be reached |
| Itinerary.StopsAreApart | app/services/concierge.py:95-154 | at most three stops of one outing around the anchor, strictly ordered, each reachable from the one before within its travel buffer |
| Itinerary.PortableStops | app/api/discovery.py:357-397 | each leg starts at the previous stop, or at the origin for the first |
| Itinerary.WarnsExactly | app/api/discovery.py:366-397 | of any stops, a leg carries a warning iff staying to the known end of the stop before makes one late |
| Itinerary.NeverWarns | app/api/discovery.py:366-397 | no leg of a sequenced itinerary carries a timing warning, for any mode and origin |
| Itinerary.SequenceIsSorted | app/api/discovery.py:1170-1172 | without planner stops, sorting the stops by start moves none of them |
| Geocoding.VariantsAreProper | app/services/geocoding.py:399-438 | the query variants are distinct, trimmed, nonblank and at most four |
| Geocoding.VariantsExactly | app/services/geocoding.py:399-438 | exactly the address, the venue unless a placeholder, and the street within either are asked for, each with the city unless it names it |
| Geocoding.AddressComesFirst | app/services/geocoding.py:399-438 | with an address, its query is the first |
| Geocoding.VenueComesNext | app/services/geocoding.py:399-438 | without one, the query of a venue that is no placeholder is |
| Geocoding.AskSpec | app/services/geocoding.py:374-394 | a lookup sequence stays within its budget, and what it settles on is what its lookups show |
| Geocoding.LastLookupDecides | app/services/geocoding.py:374-394 | a match is the answer, an outage defers the rest, no match is an answer only to the last variant; lookups go on while the budget lasts |
| Geocoding.CachedFailureTriedEverything | app/services/geocoding.py:374-397 | a cached failure exists only if every variant of some request with that key was answered "no match" |
| Geocoding.VenueGeocoder.ReadCache | app/services/geocoding.py:451-488 | answers are served for good, failures until the retry period is over; a failing table gives the cache up for the run |
| Geocoding.VenueGeocoder.WriteCache | app/services/geocoding.py:490-511 | one entry is written, or nothing without a session or a working table |
| Geocoding.VenueGeocoder.AskProvider | app/services/geocoding.py:374-395 | the loop tries variants in order until a match, an outage or the end of the budget |
| Geocoding.VenueGeocoder.Resolve | app/services/geocoding.py:339-397 | curated table, then cache, then provider; with a working table a cached answer is given at any age and a failure while younger than the retry period, either without a lookup, and an older failure or no entry is looked up by its first variant while the budget lasts; a match, or no match for the last variant, is cached, and nothing else is |
| Geocoding.VenueGeocoder.EnrichLocations | app/services/data_pipeline.py:358-389 | a run spends at most its budget; each payload stays as it was or moves from an unsearchable to a searchable confidence, at a place that is curated or that a lookup established; one at a curated venue always moves there |
| EventbriteCrawl.MergeOfSpec | app/ingestion/sources/eventbrite.py:94-101 | merging keeps per url the first candidate met and the categories of all its visits, once each in order |
| EventbriteCrawl.ReadListing | app/ingestion/sources/eventbrite.py:93-101 | a page merges every candidate, and "added" is zero iff it lists nothing new to its slice |
| EventbriteCrawl.ReadSlice | app/ingestion/sources/eventbrite.py:74-115 | the page loop ends in the one way the site's answers allow: complete, no page count, repeated, capped or failed, within the request budget |
| EventbriteCrawl.EndingMeans | app/ingestion/sources/eventbrite.py:74-115 | every page but the last announced more and listed something new; the last was the last announced, announced nothing, listed nothing new, used up pages or requests, or could not be had, as the report says |
| EventbriteCrawl.TroubleIsLast | app/ingestion/sources/eventbrite.py:102-115 | the error is that of the last slice not read to its end, and empty iff all were |
| EventbriteCrawl.EventbriteSource.CrawlListingSlices | app/ingestion/sources/eventbrite.py:69-117 | at most 25 requests; the error field is empty iff every slice was read to its end; a failure is raised iff nothing had been merged |
| EventbriteCrawl.CleanCrawlReadsEverything | app/ingestion/sources/eventbrite.py:102-115 | without an error every page of every slice was read, and no further |
| EventbriteCrawl.MergedIsTheUnion | app/ingestion/sources/eventbrite.py:94-101 | the result is the union of the pages read, and an event's categories are those of the slices listing it, in slice order |
| SearchHook.FetchKeepsValid | apps/web/hooks/use-event-search.ts:18-25 | starting a fetch leaves at most one open request, asking for exactly what the state lacks |
| SearchHook.ResponseKeepsValid | apps/web/hooks/use-event-search.ts:26-38 | a response that is applied extends the prefix by its page |
| SearchHook.VisibleIsAPrefix | apps/web/hooks/use-event-search.ts:11-58 | under any interleaving and whatever total the server announces, the visible events are the first `nextOffset` results of the current query, in full pages until all are there |
| SearchHook.FinishedIsWholeExactly | apps/web/hooks/use-event-search.ts:26-38 | for every query and interleaving a list that looks finished is the whole result, iff no announced total is reached by its pages before the results end |
| SearchHook.SupersededIsIgnored | apps/web/hooks/use-event-search.ts:30-44 | the answer or failure of a superseded request changes nothing |
| SearchHook.LoadingIsUnderWay | apps/web/hooks/use-event-search.ts:18-58 | while mounted, the hook says "loading" only with a request under way or about to be, and shows another query's state as blank only until its effect runs |
| SearchHook.AnswerEndsLoading | apps/web/hooks/use-event-search.ts:30-57 | an answer ends loading with its page and total; a failure ends it too, keeps what was shown, and lets the caller ask again from where the list ends; asking while loading changes nothing |

## Left out

- HTTP, browser, mail, Redis and SQL drivers, LLM calls and webhook alerts: outside effects, replaced by parameters or a fixed server.
- HTML, JSON-LD and feed parsing of the individual connectors: pattern detail.
- Similarity scores, case folding, the SF calendar, distances and half-life decay: parameters with only the facts the proofs need.
- Unicode whitespace, case and normalisation; display-length clamps and `Numeric(10, 2)` rounding of stored fields; floating-point rounding of scores and clocks.
- `_clamp`, `_normalize_str` and the other scalar coercions of `_normalize_event_payload`: payload text fields arrive as they will be stored.
- `deduplicate_events`: not used by the ingest run.
- Records of an older hash version, and payloads that carry several identities: normalised payloads carry at most one and the store starts empty.
- Aliasing between ORM row objects: rows are values in a map that the session's methods reassign.
- The tag cache and the tagging budget: the derived tags of an observation are part of it.
- The order in which a query lists its rows: a parameter, so rows that tie on title score may be chosen either way.
- CatalogView.LabelsAreTheView: for labels that survive another trim only; `CatalogView.RunShowsViewExactly` has the exact condition for all labels.
- CatalogView.EventShowsViewExactly: for a last observation with a stable identity; one without leaves no record, so the view says nothing of it.
- RateLimit.AgreementNeedsOrder: for hits that lie within one window of the first; over an ordered clock `RateLimit.LimiterIsNaive` covers every run.
- Replay.BatchReplayIsNoOp: for distinct identities that are new to the store; a batch holding two different observations of one identity may legitimately change on a second pass.
- Key hashes with missing fields or unreadable numbers.
- KeyStore.SecretsStore.SeedKey: its two writes are separate steps of the transition system, adjacent in the method.
- Rotation.RotationStaysBalanced: one lease at a time, no reset and no reseed; concurrent leases have no such bound.
- Sources other than Ticketmaster in a worker cycle: their payloads surround its own in the batch, but their fetches are not modelled.
- Health summaries, canary metrics and alert deduplication of the worker and the key store: reporting only.
- Scoring.VibeScore: tags are strings; other JSON values in a tag list are not modelled.
- Ranking.FinalScoresAgreeExactly: the eligibility test and the filter on positive vibe only choose the set of rows, which is arbitrary here.
- Itinerary.PortableStops: map links and addresses are not modelled; planner stops enter only as other stops of the list.
- Choosing the anchor event and the support radius of a concierge request: queries over the same ranking.
- Geocoding.VenueGeocoder.Resolve: a provider error of any kind counts as an outage; the class of the place and the provider's name are not stored.
- EventbriteCrawl.CleanCrawlReadsEverything: for a site whose pages of one slice agree on their page count.
- SearchHook.VisibleIsAPrefix: modelled as a system of asynchronous steps, each state update rendered before the next user event.
- JWT and password handling, agent tokens, folders and invites, middleware, configuration, migrations and React components.
