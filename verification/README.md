# Verified model of the search marketplace backend

This project models the stateful protocols and the ranking algorithms of a multi-tenant search
backend and proves properties of them with Dafny 4.11. `dafny verify dfyconfig.toml` checks it.

| file | what it models |
|---|---|
| `Ingestion.dfy`, `IngestionService.dfy`, `RepeatedRuns.dfy`, `Documents.dfy` | incremental indexing: row classification, gate file, two stores, deletion reconciliation, crashes, repeated runs |
| `IndexGenerations.dfy`, `TenantPool.dfy` | slot manifests and the live service pool: promote, reload, roll back, evict, retire, close |
| `ConnectionPool.dfy` | the bounded database connection pool, any number of threads |
| `TextOrder.dfy`, `IsoTime.dfy`, `Accounts.dfy`, `AccountIdentity.dfy`, `AccountStore.dfy` | analytics logins, sliding sessions, lockout, pruning by text comparison |
| `QueryPages.dfy`, `Snapshots.dfy`, `FacetCache.dfy` | analytics snapshots: keyset paging, transactional publication, facet cache under interleaving |
| `Limiters.dfy` | sliding window and token buckets |
| `Base64Url.dfy`, `Decimals.dfy`, `SearchSessions.dfy` | page cursors, pages and the session store |
| `EditDistance.dfy`, `TypoMatch.dfy` | Levenshtein distance and typo matching against a catalogue |
| `RelatedTail.dfy`, `SearchTail.dfy` | the paged result tail and the composition of result ids |
| `Reranking.dfy`, `Sorting.dfy` | verified-owner bands and title diversity, over a stable sort |
| `FilterForms.dfy`, `VectorFilters.dfy`, `Decimals.dfy` | one structured filter as a predicate, as SQL and as a vector-store filter, down to how numbers are written |
| `PlanEnrichment.dfy` | reconciling hard filters, soft hints and the catalogue |

How it is built. Code that updates fields step by step is a class or a method with loops; each is
proved to compute a specification function, and the promises are lemmas about that function over
whole runs. The connection pool and the tenant pool are concurrent protocols, so they are state
machines in which one lock section, queue operation or driver call is one step and any thread may
take the next one. Hashes, tokens and embeddings are free constructors or fresh values. Scores,
fees, tokens and seconds are reals. Regular expressions, fuzzy matching and providers are
uninterpreted functions or arbitrary outcomes.

## Where the code does less than its documentation or its neighbours suggest

Each of these is proved, with the exact condition where one exists.

- A rollback reads its target generation before it builds the service. If a candidate is recorded
  into that slot meanwhile, the live service carries a generation the manifest no longer names
  (`TenantPool.StaleRollbackHappens`); this is the only way labels part (`TenantPool.StepInStep`).
- `get` collects retired services and then may fail to build its own; the collected ones are never
  closed (`TenantPool.LostHappens`). If closing one of them raises, those after it are never closed
  either (`TenantPool.RaisingCloseLoses`), and the same holds in the pool's `close`. Nothing else
  drops a service unclosed (`TenantPool.LostIff`).
- The pool's limit holds for `get` only. A reload, activation or rollback for a company that is not
  live in a full pool stores one more service (`TenantPool.OverfillHappens`), and no other step goes
  over the limit (`TenantPool.SizeStep`); the next `get` that builds evicts down to it.
- `close` of the connection pool can leave an idle connection open if and only if some thread had
  already passed its own check of the closed flag (`ConnectionPool.StrandedIff`).
- A round of maintenance puts the idle connections back in reverse, so the pool then lends the
  connection that was oldest (`ConnectionPool.MaintenanceRound`).
- Repeating a run embeds nothing, exactly when rows that share an id say the same in every batch
  (`RepeatedRuns.RepeatIsQuietIff`); otherwise such rows are embedded or rewritten by every run.
- A row whose BM25 text became blank keeps its old BM25 row (`Ingestion.LexicalExactIff`).
- The metadata hash normalises cells a second time, so it misses a change behind the 1000-character
  cut when the cut falls after a space (`Documents.HashMissesAChange`).
- A batch whose rows share an id but not their text can leave a hash of one text beside another, if
  the run stops between two of its metadata updates; no other batch and no other stop can
  (`Ingestion.SurvivesStopsIff`, `Ingestion.CrashKeepsWellFormed`). The updates of a batch are one
  `executemany` on an autocommitting connection (src/storage/pgvector.py:521-531), so the tear needs
  an interruption inside that call. The counters of a run add up to the rows processed only if no
  unchanged id repeats inside a batch (`Ingestion.RunCountsAddUp`).
- The query cursor refuses blank fields that publication stores without complaint, so a walk that
  ends a page on such a record cannot go on (`QueryPages.WalksComplete`, `QueryPages.BlankStopsWalk`).
- A facet-cache entry for a version that is no longer active may be wrong (`FacetCache.StaleHit`).
- The composition removes equal ids, not equal products. A product whose id the hybrid pool holds as
  an integer and the catalogue tail as a text is listed twice (`SearchTail.ListedTwice`); the exact
  condition on the pool and the catalogue, with an anchor or without, is `SearchTail.NeverTwiceIff`.
- Fees stored as text, filters asking for "no value" and empty lists separate the SQL conditions
  from the exact predicate (`FilterForms.PriceAgreesIff`, `FilterForms.CategoryAgreesIff`). The vector
  store compares texts, so it loses a DECIMAL cell (src/ingestion/documents.py:117-118 makes it the
  float 5.0) against the integer filter 5, fractions that print with an exponent, truth values and
  "no value" (`VectorFilters.VectorKeepsIff`, `VectorFilters.VectorLoses`). In a list only the first
  of several equal values is sent, so a mixed list can hide its own exact match
  (`VectorFilters.FirstSpellingHides`); texts and whole numbers are safe, alone or in lists
  (`VectorFilters.PlainValuesAreKept`).
- A run that finishes lowers the gate whatever raised it, so a limited run also ends the gate that
  a failed full run left (`Ingestion.LimitedRunOpensGate`); when that is harmless is
  `Ingestion.UnreconciledUpToDateIff`.

## Model

| member | source | states |
|---|---|---|
| `Ingestion.RunGate` | src/ingestion/service.py:272-282 | In every run each vector write and each deletion happens while the gate file exists, and only the run's last action removes it |
| `Ingestion.SearchesSeeFinishedRuns` | src/ingestion/service.py:487-515 | Over any sequence of runs, each cut off anywhere, whenever searches are admitted the vector rows are those of the last run that finished |
| `Ingestion.ClassifySound` | src/ingestion/service.py:153-201 | Over rows this program wrote: a row is judged current if and only if it matches what a fresh preparation gives, changed if and only if its model, a present revision or its text differs; one judged metadata-only becomes exactly the fresh row by replacing its metadata |
| `RepeatedRuns.EmbedsIff` | src/ingestion/service.py:320-352 | A batch embeds exactly the rows it must: all under force, otherwise those not stored and those whose model, revision or text differs |
| `Ingestion.BatchesReflect` | src/ingestion/service.py:313-422 | Any batches, from any well-formed index, bring the rows they contain up to date and leave every other row alone |
| `Ingestion.FullScanMatchesRebuild` | src/ingestion/service.py:221-484 | A finished scan with reconciliation leaves exactly the rebuilt vector rows of its source, other sources untouched, the gate down, whatever the batch size and the starting index |
| `Ingestion.OtherSourcesUntouched` | src/ingestion/service.py:127-150 | No run changes a stored row of another source that it did not scan; after a reconciling run every stored row of its own source was scanned |
| `RepeatedRuns.RepeatIsQuietIff` | src/ingestion/service.py:320-347 | After any finished run, the same rows again without force, in batches of any size, embed nothing, write no metadata and do not raise the gate if and only if the rows that share an id agree |
| `RepeatedRuns.RepeatChangesNothing` | src/ingestion/service.py:221-484 | Such a repeated run leaves both stores and the gate exactly as they were |
| `RepeatedRuns.RepeatSkipsEveryRow` | src/ingestion/service.py:335-347 | With distinct ids it counts every row as skipped and none as indexed or updated |
| `Ingestion.ExactWhenStable` | src/ingestion/documents.py:85-105 | Rows that match are equal when their metadata is stable under normalisation |
| `Ingestion.LexicalAfterRun` | src/ingestion/service.py:442-466 | The BM25 rows after such a run: the scanned ones brought up to date, those not scanned removed |
| `Ingestion.LexicalExactIff` | src/ingestion/service.py:440-452 | They equal the rebuilt BM25 rows if and only if no scanned row with blank BM25 text had an old BM25 row (or the source was replaced) |
| `Ingestion.ForcedRunIsRebuild` | src/ingestion/service.py:301-308 | A forced replacing run from nothing is the rebuild itself |
| `Ingestion.CrashKeepsWellFormed` | src/ingestion/service.py:487-512 | Wherever a run stops, the index left behind is one the next run's guarantees start from: for forced runs and for rows of one id that share their text always, otherwise unless it stops between two metadata updates of a batch |
| `Ingestion.TornDuplicate` | src/ingestion/service.py:357-369 | Every batch in which two rows of one id differ in text has a well-formed index and a stop that leave a false content hash |
| `Ingestion.SurvivesStopsIff` | src/ingestion/service.py:313-422 | A batch survives every stop from every well-formed index if and only if rows that share an id share their text |
| `Ingestion.UnreconciledUpToDateIff` | src/ingestion/service.py:506-515 | A finished run without reconciliation always lowers the gate; the index is then up to date with the whole source if and only if no stored row is gone from it and every row not scanned was already as it should be |
| `Ingestion.LimitedRunOpensGate` | src/ingestion/service.py:487-515 | A crashed replacing run followed by a finished limited run: the gate is down over an index that lacks a row |
| `Ingestion.BlankKeepsOldRow` | src/ingestion/service.py:440-452 | An index and a row for which the BM25 rows differ from the rebuilt ones |
| `Ingestion.CountsAddUp` | src/ingestion/service.py:313-349 | indexed + metadata-updated + skipped never exceeds the batch, and equals it if and only if no unchanged id repeats |
| `Ingestion.RunCountsAddUp` | src/ingestion/service.py:305-401 | The totals of a whole run, over the indexes its batches pass through, never exceed the rows processed, and equal them if and only if no unchanged id repeats inside a batch |
| `Ingestion.RowsPartition` | src/ingestion/service.py:326-347 | Every row of a batch is exactly one of embedded, metadata-updated or skipped |
| `IngestionService.Ingester.Sift` | src/ingestion/service.py:313-350 | The batch loop sorts rows into the four lists the classification asks for |
| `IngestionService.NonEmptyFilters` | src/ingestion/service.py:424-445 | The rows a scan flushes are exactly those with text, in their order |
| `IngestionService.ChunkSizes` | src/ingestion/service.py:454-460 | Every batch but the last has exactly the batch size, and none is empty |
| `IngestionService.Ingester.FlushBatch` | src/ingestion/service.py:313-422 | One flush performs the batch's actions in order, or a prefix of them on failure, and adds the batch's three counts to the totals |
| `IngestionService.Ingester.Scan` | src/ingestion/service.py:424-460 | The scan skips rows without text, flushes full batches and the last partial one, collects exactly the ids seen, and its totals are those of the batches in turn |
| `IngestionService.Ingester.FinishRun` | src/ingestion/service.py:461-466 | Reconciliation and the removal of the gate perform what is left of the run |
| `IngestionService.Ingester.Ingest` | src/ingestion/service.py:487-515 | A whole run performs the specified actions, or exactly a prefix of them and reports failure; a completed reconciling run from a well-formed index leaves the rebuilt rows; the totals of a completed run are those of its batches and stay within the rows processed; bad arguments change nothing |
| `Documents.StripProperties` | src/ingestion/documents.py:128-130 | Stripping leaves trimmed text and changes only text that is not |
| `Documents.StripIs` | src/ingestion/documents.py:128 | Only white space is stripped, from the two ends |
| `Documents.CellIs` | src/ingestion/documents.py:108-133 | A text becomes no value if and only if it is blank, else it is trimmed and cut to 1000 characters; other values stay |
| `Documents.StableHashIsExact` | src/ingestion/documents.py:85-105 | On stable metadata equal hashes mean equal metadata |
| `Documents.StableIff` | src/ingestion/documents.py:108-133 | Normalising twice changes a cell if and only if it is cut to 1000 characters right after a space |
| `Documents.HashMissesAChange` | src/ingestion/documents.py:93-97 | Two different metadata values with one hash, for every such cell |
| `IndexGenerations.DefaultIsCoherent` | src/storage/index_generations.py:65-81 | The initial manifest has one active slot, pointed at, and no rollback target |
| `IndexGenerations.OperationsKeepCoherence` | src/storage/index_generations.py:153-215 | Recording, promoting and restoring keep exactly one active slot, equal to the pointer and different from the rollback target; recording succeeds if and only if the slot is inactive, promotion if and only if it is inactive and holds that generation, validated; restoring keeps coherence if and only if it restores the other slot; no generation name but the recorded one changes |
| `IndexGenerations.PromoteAgain` | src/storage/index_generations.py:175-215 | A promotion that is rolled back leaves both slots as they were and can be repeated with the same result |
| `IndexGenerations.TwoRollbacks` | src/storage/index_generations.py:201-215 | Two rollbacks restore the active and previous pointers whatever candidates are recorded in between |
| `TenantPool.LabelsAgree` | src/api/tenants.py:180-416 | In every interleaving without a stale rollback all live services carry the manifest's active slot and generation |
| `TenantPool.StepInStep` | src/api/tenants.py:258-416 | One step breaks that agreement if and only if it is the swap of a stale rollback |
| `TenantPool.SwapInStep` | src/api/tenants.py:289-297 | The same for the swap section alone |
| `TenantPool.StaleRollbackHappens` | src/api/tenants.py:369-416 | The race, as a concrete run |
| `TenantPool.GetIsOwn` | src/api/tenants.py:180-206 | Over every run, a caller of get that is handed a service is handed one built for its own company and live at that moment; while labels agree it is that of the active slot and generation |
| `TenantPool.GetHandsOut` | src/api/tenants.py:184-202 | get hands out the company's live service, else a new one labelled as the manifest says, and nothing if and only if that one cannot be built |
| `TenantPool.ReloadIff` | src/api/tenants.py:258-312 | A reload replaces the live service if and only if it is missing or not labelled as the manifest says, and touches no other company |
| `TenantPool.ActivateIff` | src/api/tenants.py:311-364 | An activation happens if and only if it names the validated candidate of the inactive slot; it swaps the service and both pointers, otherwise nothing changes |
| `TenantPool.RollbackIff` | src/api/tenants.py:369-416 | A rollback happens if and only if a previous slot is recorded and was ever filled; it returns to that slot's generation |
| `TenantPool.SizeStep` | src/api/tenants.py:200-203 | max_services is kept by every step except, if and only if, a swap for a company that a full pool does not hold |
| `TenantPool.OverfillHappens` | src/api/tenants.py:289-297 | Such a run: a pool of one with two live services |
| `TenantPool.GetEvicts` | src/api/tenants.py:200-203 | A get that builds keeps the most recently used services and retires exactly the others, oldest first |
| `TenantPool.CustodyAlways` | src/api/tenants.py:180-256 | In every run each stored service is in exactly one of: live, retired, waiting in one get's or one close()'s list, closed by it, or dropped by it; so none is closed twice |
| `TenantPool.LostIff` | src/api/tenants.py:180-206 | Services are dropped without being closed if and only if a get sweeps some and then fails to build, or a close raises, in get or in close(), with services after it in its list |
| `TenantPool.LostHappens` | src/api/tenants.py:180-206 | A run in which a failing build loses a service |
| `TenantPool.RaisingCloseLoses` | src/api/tenants.py:204-205 | A run in which a get closes two swept services, the first close raises, and the second is lost |
| `TenantPool.NoSweepWhileSearching` | src/api/tenants.py:237-256 | If callers start within the grace period, no sweep ever takes a service that is being searched |
| `TenantPool.LateSearchIsSwept` | src/api/tenants.py:237-256 | A caller that starts later can search a swept service: a concrete run |
| `TenantPool.RecentStaysLive` | src/api/tenants.py:196-206 | A service is evicted only after at least max_services uses of the pool for other companies since its own last use |
| `TenantPool.FreshIsSound` | src/api/tenants.py:46-77 | A new pool satisfies every invariant |
| `ConnectionPool.StepConserves` | src/storage/database.py:65-241 | Every step of every thread keeps: created = idle + all connections and slots threads hold, at most max_size, and each recorded connection in one place |
| `ConnectionPool.StepMarks` | src/storage/database.py:97-104 | A connection being recorded is not recorded yet, and no two threads record the same one |
| `ConnectionPool.PoolSafety` | src/storage/database.py:65-241 | Under any schedule: the bound, the conservation law, a put that never blocks and a clamp that never fires |
| `ConnectionPool.NoGrowthAfterClose` | src/storage/database.py:65-71 | Once closed, a pool stays closed and its created count never grows |
| `ConnectionPool.ClosedStaysEmpty` | src/storage/database.py:233-241 | If no thread is past its closed check, the queue stays empty after close |
| `ConnectionPool.CloserFinishes` | src/storage/database.py:233-241 | The closing thread empties the queue and returns |
| `ConnectionPool.StrandedIff` | src/storage/database.py:216-241 | An idle connection can outlive close if and only if some thread had passed its closed check when the flag was set |
| `ConnectionPool.StrandingHappens` | src/storage/database.py:216-241 | From a new pool such a moment is reached: one thread past its check, another closing |
| `ConnectionPool.NewestIsReused` | src/storage/database.py:188-214 | The connection returned last is the next one handed out |
| `ConnectionPool.LentIff` | src/storage/database.py:188-214 | A caller is given a connection if and only if it passed its check or was just opened |
| `ConnectionPool.DiscardedIff` | src/storage/database.py:106-241 | A connection is discarded exactly when its check fails, its caller raised, it came back broken or to a closed pool, maintenance found it bad, or close took it |
| `ConnectionPool.DiscardedStaysOut` | src/storage/database.py:125-131 | Under any schedule a connection being discarded is never lent or queued again |
| `ConnectionPool.OpensIff` | src/storage/database.py:65-71 | A connection is opened if and only if none is idle, the pool has room and is open; maintenance opens one if and only if the open pool is below its minimum |
| `ConnectionPool.MaintenanceRound` | src/storage/database.py:133-165 | Alone with an open pool, maintenance checks each idle connection once, frees the slots of the bad ones and puts the others back in reverse order |
| `IsoTime.DatesAscend` | src/analytics_service/auth.py:35-36 | Later days have later dates |
| `IsoTime.DateIsGregorian` | src/analytics_service/auth.py:31-36 | The date of day n is the one that n days precede by the Gregorian rule |
| `IsoTime.FirstMoments` | src/analytics_service/auth.py:35-36 | The texts of the calendar's first moment and of one microsecond later |
| `IsoTime.IsoOrder` | src/analytics_service/auth.py:35-36 | isoformat texts of UTC times, with or without microseconds, sort as the times (compare section 5.1 of RFC 3339) |
| `IsoTime.IsoNotAfter` | src/analytics_service/auth.py:1038-1042 | So the prune query's text comparison is the comparison of times |
| `Accounts.SessionsExpire` | src/analytics_service/auth.py:820-983 | In every run each session's uses have gaps below the idle limit and all lie before creation plus the absolute limit |
| `Accounts.RunSound` | src/analytics_service/auth.py:568-1046 | Stored sessions always say what their history implies, over every run |
| `Accounts.ResolvesIff` | src/analytics_service/auth.py:890-950 | An issued session resolves if and only if it is not revoked, gone or past a limit, for callers of its own portal |
| `AccountIdentity.ResolvedIs` | src/analytics_service/auth.py:951-983 | A session that resolves answers for its account as it is now, until the idle limit from now or the end of its life, and changes no other session |
| `AccountIdentity.OwnerKept` | src/analytics_service/auth.py:890-983 | Over every run a token belongs to the account it was issued to |
| `AccountIdentity.OthersSpared` | src/analytics_service/auth.py:568-649 | A logout, password change, deactivation or activation leaves every other session as it was |
| `Accounts.DeadForever` | src/analytics_service/auth.py:890-983 | Once dead, a session never resolves again, whatever happens |
| `Accounts.OwnerChangesKill` | src/analytics_service/auth.py:568-649 | A password change or deactivation that finds its user kills every session of that user |
| `Accounts.LogOutKills` | src/analytics_service/auth.py:985-1032 | A logout kills its session if and only if it does not come from another portal |
| `Accounts.PrunedIsDead` | src/analytics_service/auth.py:1034-1046 | The prune query deletes exactly the rows of dead sessions |
| `Accounts.PruningIsInvisible` | src/analytics_service/auth.py:1034-1046 | The same events with and without prunes give the same answers to every login and resolve |
| `Accounts.LockHolds` | src/analytics_service/auth.py:755-775 | Until a lock runs out, no password is accepted and nothing is counted, whatever is tried |
| `Accounts.AttemptsSpread` | src/analytics_service/auth.py:770-795 | Counted wrong attempt number max + k comes at least k + 1 locks after the first |
| `Accounts.LockoutBound` | src/analytics_service/auth.py:770-795 | Without success or reset, at most max_login_attempts + floor(T / lock) wrong attempts are counted in T from the first |
| `Accounts.ResetClears` | src/analytics_service/auth.py:827-837 | A successful login or a password change starts the count again |
| `Accounts.RoomBeforeLock` | src/analytics_service/auth.py:776-795 | After a reset an account is not locked before max_login_attempts wrong passwords were counted |
| `AccountIdentity.GrantedIff` | src/analytics_service/auth.py:711-888 | A login is granted if and only if the request names one account, which is active and not locked, with its password; the session is that account's, with the limits of its role |
| `AccountIdentity.WrongPasswordCounts` | src/analytics_service/auth.py:770-795 | A wrong password counts against that account alone; the one that fills the allowance locks it for the configured time |
| `AccountIdentity.SetPasswordIff` | src/analytics_service/auth.py:568-610 | A password changes if and only if one account is addressed and the length is allowed, and only there |
| `AccountIdentity.SetActiveIff` | src/analytics_service/auth.py:612-649 | The same for activation |
| `AccountIdentity.CreateUserIff` | src/analytics_service/auth.py:483-536 | An account is created if and only if name, role, company and password are acceptable and the name is free in its scope |
| `AccountIdentity.NamesStayUnique` | src/analytics_service/auth.py:294-306 | Over every run internal names are unique and company names are unique in their company |
| `AccountIdentity.EveryAccountIsNamed` | src/analytics_service/auth.py:538-566 | So an account's own name, role and company select it alone |
| `AccountStore.AuthStore.Open` | src/analytics_service/auth.py:160-173 | Construction fails if and only if a policy's absolute limit is below its idle limit |
| `AccountStore.AuthStore.Select` | src/analytics_service/auth.py:735-749 | The rows a login or administration query selects |
| `AccountStore.AuthStore.AuthenticateUser` | src/analytics_service/auth.py:711-888 | The statements of a login: lookup, lock, counter, session |
| `AccountStore.AuthStore.ResolveSession` | src/analytics_service/auth.py:890-983 | The statements of a resolve: the checks in order, then the refreshed idle limit |
| `AccountStore.AuthStore.RevokeSession` | src/analytics_service/auth.py:985-1032 | Logout, refused for a session of another portal |
| `AccountStore.AuthStore.SetUserPassword` | src/analytics_service/auth.py:568-610 | Password change: counter and lock reset, all the user's sessions revoked, or nothing |
| `AccountStore.AuthStore.SetUserActive` | src/analytics_service/auth.py:612-649 | Activation and deactivation, the latter revoking all the user's sessions |
| `AccountStore.AuthStore.AddUser` | src/analytics_service/auth.py:483-536 | A new user, unless the name is taken in its scope |
| `AccountStore.AuthStore.PruneExpired` | src/analytics_service/auth.py:1034-1046 | Deletes exactly the rows the text comparison selects |
| `QueryPages.FoundMembers` | src/analytics_service/store.py:615-745 | A page's candidates are exactly the matching records below the cursor |
| `QueryPages.FoundDescends` | src/analytics_service/store.py:718-745 | In strictly descending (created_at, request_id) order |
| `QueryPages.PageIs` | src/analytics_service/store.py:730-765 | A page shows the first matching records below its cursor, as many as asked for, and its cursor is the last one shown when one is left; it is refused if and only if its own cursor has a blank field |
| `QueryPages.WalkShowsPrefix` | src/analytics_service/store.py:749-765 | Following next_cursor shows the matching records in order from the start, for any page sizes, and stops only at the end, at a blank field or when visits run out |
| `QueryPages.WalksComplete` | src/analytics_service/store.py:78-97 | Every walk shows each matching record exactly once and terminates if and only if no matching record but the last has a blank created_at or request_id |
| `QueryPages.BlankStopsWalk` | src/analytics_service/store.py:85-97 | Two records without created_at stop a walk in pages of one |
| `QueryPages.MovingWalkDescends` | src/analytics_service/store.py:650-765 | With snapshots replaced between pages the keys still strictly descend, so none repeats |
| `Snapshots.SnapshotStore.InsertMany` | src/analytics_service/store.py:438-459 | executemany succeeds if and only if no primary key repeats |
| `Snapshots.SnapshotStore.InsertStream` | src/analytics_service/store.py:22-54 | The batched generator inserts every record once, whatever the batch boundaries |
| `Snapshots.SnapshotStore.Publish` | src/analytics_service/store.py:407-527 | Succeeds if and only if the stream is whole, request ids are distinct and the expected count is met; then swaps records, version and cache, otherwise changes nothing |
| `Snapshots.PublishedIsConsistent` | src/analytics_service/store.py:505-516 | Afterwards every record carries its company's active version, the company's records are exactly the published ones, other companies keep theirs |
| `Snapshots.AddsKeys` | src/analytics_service/store.py:440-459 | Publication under a new version can clash only within its own records |
| `FacetCache.HitIsCurrent` | src/analytics_service/store.py:785-873 | Under any interleaving of readers, commits and cache clears, a hit on a version active at the lookup equals recomputing from it |
| `FacetCache.StaleHit` | src/analytics_service/store.py:800-873 | For a version no longer active a hit can be wrong: a concrete run |
| `Limiters.WindowBound` | src/core/request_limit.py:43-55 | In every run no window of the configured length, open at either end, admits more than the budget |
| `Limiters.AdmitsIff` | src/core/request_limit.py:43-55 | In every run of a new limiter a call is admitted if and only if fewer than the budget were admitted before, or the budget-th last of them is a whole window old |
| `Limiters.RetryIsExact` | src/core/request_limit.py:49-53 | A denied caller's retry_after is exactly the earliest delay that succeeds, and later denials name the same moment |
| `Limiters.RequestWindow.Allow` | src/core/request_limit.py:43-55 | The deque loop computes the specified window |
| `Limiters.TokensConserved` | src/core/request_limit.py:96-110 | Tokens stay within 0 and the capacity; what was spent, what is left and what a full bucket refused are together exactly the start and the refills |
| `Limiters.TakeProper` | src/core/request_limit.py:96-110 | A request is granted if and only if it fits the capacity and the tokens with their refill, and is then paid for exactly |
| `Limiters.IntervalInRun` | src/core/request_limit.py:96-110 | Any stretch of calls lasting d seconds is granted at most capacity + rate * d |
| `Limiters.BucketRetryIsExact` | src/core/request_limit.py:104-108 | retry_after is exactly when the same request passes |
| `Limiters.TokenBudget.Allow` | src/core/request_limit.py:77-110 | The token budget: errors, oversized requests, refill and spending |
| `Limiters.ScopesAreIndependent` | src/core/rate_limit.py:64-70 | A scope's bucket depends on that scope's calls only |
| `Limiters.NewScope` | src/core/rate_limit.py:64-77 | A scope seen for the first time starts with the whole burst |
| `Limiters.ScopeBound` | src/core/rate_limit.py:55-77 | Whatever other scopes do, one scope is admitted at most burst + rate * d times in d seconds |
| `Limiters.TenantRate.Allow` | src/core/rate_limit.py:55-77 | The tenant limiter, with the whole tokens left as the remaining count |
| `Base64Url.EncodeIsUnpadded` | src/api/contracts.py:229-231 | Encoded cursors carry no padding (sections 5 and 3.2 of RFC 4648) |
| `Base64Url.RoundTrip` | src/api/contracts.py:229-239 | Decoding restores every byte sequence |
| `Base64Url.EncodeIsUrlSafe` | src/api/contracts.py:229-231 | Only URL-safe letters are written, ceil(4n / 3) for n bytes |
| `Base64Url.EncodeVectors` | src/api/contracts.py:229-231 | The test vectors of section 10 of RFC 4648, and the two special letters |
| `SearchSessions.CursorRoundTrip` | src/api/contracts.py:229-245 | decode_cursor(encode_cursor(id, n)) = (id, n) for every canonical UUID and n >= 0, with any parsers that read back what they print |
| `SearchSessions.ParsersExist` | src/api/contracts.py:239-240 | There are such parsers |
| `SearchSessions.DecodesIff` | src/api/contracts.py:234-245 | A cursor is accepted if and only if its text is v1, an identifier and a number that is not negative, separated by colons |
| `SearchSessions.PageIs` | src/api/service.py:1112-1144 | A page shows the next items, as many as asked for, and its cursor leads to the first one not shown; an offset beyond the end is refused |
| `SearchSessions.FollowShowsAll` | src/api/service.py:1112-1144 | Following page cursors from any offset shows the remaining items in order, each once, and ends, for any page sizes |
| `SearchSessions.CreateKeeps` | src/api/contracts.py:191-204 | The store never exceeds its maximum and drops an unexpired session only after at least that many other sessions were created or read since its last use |
| `SearchSessions.GetKeeps` | src/api/contracts.py:206-217 | A get answers with the stored session of that id unless it expired, says which of unknown and expired it is, removes only the session asked for and only when expired, and otherwise makes it the most recent |
| `SearchSessions.SessionStore.Create` | src/api/contracts.py:191-204 | Creation as written: expire, insert, evict the oldest |
| `SearchSessions.SessionStore.Get` | src/api/contracts.py:206-217 | Lookup as written: unknown, expired or moved to the end |
| `EditDistance.Metric` | src/search/planner_catalog.py:587-607 | The distance is zero only on equal texts, symmetric, and satisfies the triangle inequality |
| `EditDistance.NoShorterScript` | src/search/planner_catalog.py:587-607 | No script of insertions, deletions and substitutions is shorter |
| `EditDistance.DistanceIsShortest` | src/search/planner_catalog.py:587-607 | And one of that length exists |
| `EditDistance.EditDistance` | src/search/planner_catalog.py:587-607 | The two-row loop returns the length of a shortest script |
| `TypoMatch.SubsequenceExact` | src/search/planner_catalog.py:610-612 | The iterator trick accepts exactly the subsequences |
| `TypoMatch.VariantScoreIs` | src/search/planner_catalog.py:632-655 | A candidate's score by its edit distance: 98, 96 or, beside a name of more than five letters, 94; otherwise 92 for an abbreviation |
| `TypoMatch.Query.ItemScoreIs` | src/search/planner_catalog.py:621-631 | An item is scored against the text and, from four letters on, against it without its last s |
| `TypoMatch.Query.BestIsMaximum` | src/search/planner_catalog.py:627-655 | An identity's score is the best any catalogue item gives it |
| `TypoMatch.Query.OrderIndependent` | src/search/planner_catalog.py:656-668 | The identity and score chosen do not depend on catalogue order |
| `TypoMatch.TopTwoDecide` | src/search/planner_catalog.py:656-668 | Looking at the two best ranked entries decides as looking at all of them would |
| `TypoMatch.Query.WinsIff` | src/search/planner_catalog.py:661-668 | An exact match wins over anything two edits away or more; any other match wins only alone |
| `TypoMatch.TypoCatalogMatch` | src/search/planner_catalog.py:615-668 | The loops return the unique clear winner, under the first catalogue value that gives it its score, or none |
| `RelatedTail.ExtractProductIds` | src/search/retrieval.py:393-422 | Returns the first id of every identity, in candidate order |
| `RelatedTail.FirstOfIdentityPicks` | src/search/retrieval.py:393-422 | Those are the ids at the positions no earlier id of that identity precedes, in order |
| `RelatedTail.FirstOfValuePicks` | src/search/engine.py:776-785 | dict.fromkeys keeps the ids at the positions no equal id precedes, in order |
| `RelatedTail.ProductsInOrder` | src/search/retrieval.py:393-422 | The products of candidates are those of each candidate in turn |
| `RelatedTail.EligibleIsDistinct` | src/search/retrieval.py:329-341 | The one-line filter keeps every allowed product of the browse order once, and no other |
| `RelatedTail.EligiblePicks` | src/search/retrieval.py:329-341 | The products kept stand in browse order, each where it is first named |
| `RelatedTail.PagedTail` | src/search/retrieval.py:312-345 | For any page size the paged loop returns the first limit products of that filter over the whole browse order, and terminates |
| `SearchTail.Compose` | src/search/engine.py:658-785 | The composition as written, including the split of the hybrid pool and the three limits |
| `SearchTail.ComposedShape` | src/search/engine.py:658-785 | Ranked ids come first, no value repeats, the limit holds, and without a limit there is nothing else |
| `SearchTail.PartsAreTail` | src/search/engine.py:703-785 | Whatever the limit, what follows the ranked ids is a prefix, as long as the limit leaves room for, of one sequence: pool on the anchor's side, catalogue tail, rest of the pool; equal ids are then dropped |
| `SearchTail.SideInOrder` | src/search/engine.py:724-747 | One side of the pool is, candidate by candidate in pool order, the products that are not ranked and are on that side |
| `SearchTail.OutsideInOrder` | src/search/engine.py:753-762 | The catalogue rows left are, row by row in browse order, those of documents retrieval has not seen |
| `SearchTail.DistinctIff` | src/search/engine.py:658-785 | For every setting, no product is listed twice if and only if the part of that sequence the limit takes writes every product one way |
| `SearchTail.TailIff` | src/search/engine.py:703-785 | Exactly the unranked pool ids are in that sequence and, under an anchor, the first unseen row of each product of an allowed type that is neither ranked nor in the pool on the anchor's side |
| `SearchTail.NeverTwiceIff` | src/search/engine.py:658-785 | Over all limits, with an anchor or without: no product is ever listed twice if and only if the pool writes each unranked product one way and, under an anchor, the first unseen row of a product of an allowed type that the pool names only off the anchor writes it that way too |
| `SearchTail.NoProductTwice` | src/search/engine.py:703-785 | It suffices that the pool writes each product one way and no catalogue row of a document outside the pool and the ranked window names a pool product the other way |
| `SearchTail.ListedTwice` | src/search/engine.py:746-785 | An integer-keyed pool product off the anchor and a text-keyed row of it under another document are both listed |
| `Sorting.SortSorted` | src/search/reranker.py:388-392 | The stable sort orders by any strict weak order |
| `Sorting.SortStable` | src/search/reranker.py:452-464 | and keeps the order inside every class of unordered items |
| `Reranking.PrioritizedPermutes` | src/search/reranker.py:430-467 | The verified-owner pass is a permutation |
| `Reranking.PrioritizedKeepsClasses` | src/search/reranker.py:452-464 | Verified items keep their order among themselves, and so do the others |
| `Reranking.BandLeadsVerified` | src/search/reranker.py:452-464 | Wherever a band begins, the output holds at its place its verified items, then its others, each class in its order |
| `Reranking.BandsCover` | src/search/reranker.py:442-466 | The bands cover the ranking, one beginning where another ends |
| `Reranking.BandEdges` | src/search/reranker.py:446-451 | A band reaches exactly five percent of its anchor's size below it, for positive and negative scores |
| `Reranking.OvertakesOnlyInBand` | src/search/reranker.py:442-467 | Given descending scores, a lower score stands ahead of a higher one only as a verified item passing an unverified one of the same band, both within 5% below the anchor that begins it |
| `Reranking.RankingDescends` | src/search/reranker.py:388-393 | What the pass is given is in descending order, and it loses nothing |
| `Reranking.ZipPairs` | src/search/reranker.py:388-392 | Every candidate is ranked by its own score |
| `Reranking.RankingKeepsTies` | src/search/reranker.py:388-392 | Candidates of one score keep the order they came in |
| `Reranking.DiversityPermutes` | src/search/reranker.py:398-416 | The title pass only rearranges |
| `Reranking.DiversifiedShape` | src/search/reranker.py:394-427 | The result has min(k, n) items and leads with the first min(k, D) first-of-title or untitled items, in order, for every k and D |
| `Reranking.DiversifiedPlaces` | src/search/reranker.py:394-417 | The result position by position: the first D positions that are untitled or first of their title, then all others, both in ranking order |
| `Reranking.PrioritizeVerified` | src/search/reranker.py:430-467 | The index loop computes the bands |
| `Reranking.Diversify` | src/search/reranker.py:394-416 | The primary and deferred lists compute the title pass |
| `Reranking.Rerank` | src/search/reranker.py:373-427 | The whole function |
| `FilterForms.BuildConditions` | src/search/bm25.py:461-509 | The builders append exactly the specified conditions |
| `FilterForms.CategoryAgreesIff` | src/search/bm25.py:461-476 | One category: SQL and predicate agree on a row if and only if the list is not empty and the row does not lack a value the filter asks to be missing |
| `FilterForms.PriceAgreesIff` | src/search/bm25.py:479-509 | Price: they agree if and only if the fee is not a text, or is an unpriced or in-range text where unpriced rows are wanted, or a text outside the range where they are not |
| `FilterForms.NumericFeeIff` | src/search/retrieval.py:36-54 | A numeric fee is accepted, by both forms, if and only if it is above the ceiling and within the bounds, or at most the ceiling and unpriced rows are wanted |
| `FilterForms.FirstIsSent` | src/search/bm25.py:466 | Of a list exactly the values that no earlier one equals are sent, in their order |
| `FilterForms.FirstListsSame` | src/search/retrieval.py:66 | and under Python's equality they list the same values |
| `FilterForms.SqlIsExact` | src/search/retrieval.py:20-54 | With numeric or missing fees and filters that ask for values, SQL under three-valued logic accepts exactly what the predicate accepts |
| `FilterForms.SqlDiffers` | src/search/retrieval.py:42-54 | Inputs on which they part |
| `VectorFilters.MeetsIff` | src/storage/pgvector.py:292-308 | A stored value and a filter value are the same text if and only if they are equal and written alike, or one is a text that spells the other |
| `VectorFilters.ValueFoundIff` | src/storage/pgvector.py:292-297 | A row accepted for a value is found by the vector store if and only if both are written alike |
| `VectorFilters.CategoryFoundIff` | src/search/retrieval.py:64-71 | A value or a list: a row is found if and only if its cell meets the value, or one of the values sent for the list (the first of each class of equal ones); an empty list finds every row |
| `VectorFilters.PriceFoundIff` | src/storage/pgvector.py:309-321 | A row accepted by price is found if and only if its fee is a number or a plain decimal text |
| `VectorFilters.PriceClausesIff` | src/storage/pgvector.py:309-321 | On any row, the store's price test holds if and only if no bound was sent or the fee is a plain decimal within the bounds |
| `VectorFilters.VectorKeepsIff` | src/search/retrieval.py:57-86 | The vector filter keeps a row the predicate accepts if and only if every category meets the filter's value, or one of the values sent for its list, in writing and, under a price filter, the fee is a plain decimal |
| `VectorFilters.PlainValuesAreKept` | src/search/retrieval.py:57-86 | So it never rejects an accepted row whose filtered values are texts or whole numbers, filtered by single values or lists of such, and whose fee is a number |
| `VectorFilters.VectorLoses` | src/storage/pgvector.py:292-297 | Accepted rows the vector store does not find: a DECIMAL cell stored as 5.0 against the filter 5, alone or in a list; 5 against 5.0; 1e16 against itself |
| `VectorFilters.FirstSpellingHides` | src/search/retrieval.py:66 | The row 5 is accepted for the list 5.0, 5 and not found; for the list 5, 5.0 it is found |
| `VectorFilters.LawfulTexts` | src/storage/pgvector.py:309-321 | There are ways of writing numbers that meet every assumption, with finite decimals and an exponent among them |
| `Decimals.WholeText` | src/storage/pgvector.py:295-318 | Whole numbers print as plain decimal texts that read back |
| `Decimals.PlainForms` | src/storage/pgvector.py:318 | A sign, digits and, after a point, more digits are a plain decimal of the value they spell |
| `Decimals.PlainParts` | src/storage/pgvector.py:318 | and every plain decimal is such a text |
| `PlanEnrichment.CategoriesConsistent` | src/search/planner.py:152-366 | For every query, catalogue, plan and policy: never a hard and a soft subcategory together; the known parent of a hard or relaxed subcategory is the hard main category, that of another soft one the soft main category, beside which a hard one differs at most in spelling |
| `PlanEnrichment.RelaxedKeepsParentHard` | src/search/planner.py:247-363 | A relaxed subcategory is never hard and keeps a known parent as a hard boundary |
| `PlanEnrichment.CityHasState` | src/search/planner.py:373-387 | A city with a known state never leaves without a state, and where nothing else gives one it is the city's own |
| `PlanEnrichment.PlacesThatLeave` | src/search/planner.py:160-387 | Which locality, city and state leave: what the query states or confirms, else the fuzzy match; a given city or state wins over the locality's; a state still missing is that of the leaving city |
| `PlanEnrichment.StateIsGrounded` | src/search/planner.py:373-387 | A state filter that leaves was stated, mentioned and catalogued, matched fuzzily, or belongs to the leaving locality or the leaving city |
| `PlanEnrichment.ExactIsKept` | src/search/planner.py:193-221 | What the query states exactly is kept: its city, its state, and an explicit subcategory that policy neither claims nor relaxes |
| `PlanEnrichment.HardSubIff` | src/search/planner.py:170-264 | The hard subcategory is the policy's where it applies and asks for one, otherwise the one the query asks for, in every other case none |
| `PlanEnrichment.IntentIsSoft` | src/search/planner.py:234-264 | A policy that applies without asking for a hard filter relaxes its subcategory and makes it the soft one, unless a hard main category of another branch stands against it |
| `PlanEnrichment.IntentSetsMain` | src/search/planner.py:265-273 | Its main category is the hard one unless the chosen subcategory's parent takes its place |
| `PlanEnrichment.HintOfScan` | src/search/planner.py:160-232 | The soft subcategory after the field scan, by what the query names and the plan proposed |
| `PlanEnrichment.MainOfScan` | src/search/planner.py:160-232 | A main category is hard if and only if the query asks for it |
| `PlanEnrichment.InferenceIsLast` | src/search/planner.py:281-324 | A subcategory is inferred only where none is hard and no hint is catalogued, and never from the subject of a repair |
| `PlanEnrichment.InferenceIsUsed` | src/search/planner.py:294-324 | There it is used, unless a hard main category of another branch stands against it |
| `PlanEnrichment.SoftMainIs` | src/search/planner.py:326-366 | Where a soft main category comes from |
| `PlanEnrichment.BoundsThatLeave` | src/search/planner.py:336-393 | The plan's price bounds win over the query's; the duration is the query's alone |
| `PlanEnrichment.CityIsGrounded` | src/search/planner.py:222-234 | A city filter that leaves was stated, mentioned and catalogued, matched fuzzily, or belongs to a known locality |
| `PlanEnrichment.HintsAreCatalogued` | src/search/planner.py:291-335 | Soft hints that leave are catalogue values |
| `PlanEnrichment.ScanSeparates` | src/search/planner.py:194-256 | After the field scan no category is both hard and soft, whatever the plan held |
| `PlanEnrichment.EnrichQueryPlan` | src/search/planner.py:121-404 | The passes in the order written compute the specified plan |

## Left out

- HTTP routes, provider clients, Redis coordination, command lines, logging, telemetry, settings and tenant files.
- Floating-point rounding: scores, fees, tokens and seconds are reals. Only the typo scores keep an effect of rounding (0.96 - 0.92 < 0.04), as a table.
- SHA-256, scrypt, UUIDs and token generation: injective constructors or fresh arguments; rehashing of old password formats.
- Regular expressions, case folding, difflib, planner prompts and policies: uninterpreted functions and predicates. parse_query_plan and query_analysis only appear as arbitrary plans and evidence.
- SQLite, MySQL, PostgreSQL and pgvector internals: maps, an arbitrary order, atomic transactions. Column affinity of SQLite is not modelled; category columns hold values of their declared kind.
- TenantPool and ConnectionPool: state machines on values instead of classes, because the properties are about interleavings; object identity is a number. Waiting times and thread scheduling fairness are not modelled.
- `ConnectionPool.PoolSafety`: assumes the driver's close does not raise and never hands out an object that is still alive.
- `IndexGenerations.OperationsKeepCoherence`: generation names are never empty; the deployment command makes them from the time and a UUID.
- `TenantPool.LostIff`: a service whose own close raised counts as closed; what it may leave open is not modelled.
- `TenantPool.NoSweepWhileSearching`: readiness checks, prewarming and failures recorded per tenant are not part of this model.
- `Ingestion.RunGate`: claims vector writes and deletions only; BM25 upserts of a batch without vector changes are not gated. Deletions of more than 10,000 ids are one action, and the removal of the gate is an action even when no file exists.
- `Ingestion.FullScanMatchesRebuild`: raw metadata cells are compared as the metadata hash sees them; `Ingestion.ExactWhenStable` says when that is equality.
- `Limiters.WindowBound`: the clock is read before the lock is taken; here one call is one step and the clock never goes back. Construction with a non-positive budget, window or lifetime is excluded by types.
- `Accounts.PruningIsInvisible`: times stay one longest session before the end of the year 9999; the event log and last-login columns are not part of this model. Session and account rows left by older schema versions are not part of this model.
- `QueryPages.WalksComplete`: the cursor's base64 and JSON text is a free constructor; other sort orders, which page by offset, are left out.
- `Snapshots.SnapshotStore.Publish`: dashboards, refresh-run rows and watermarks are left out.
- `SearchSessions.CursorRoundTrip`: uuid.UUID and int are any functions that read back what they printed; a UTF-8 decoder above code 127 is left out because encoded cursors are ASCII.
- `SearchTail.Compose`: hydration of products and re-sorting by price.
- `Reranking.Rerank`: the providers' scores are an argument.
- `FilterForms.SqlIsExact`: source and company checks of the predicate, and fees that are NaN, infinite or negative zero.
- `VectorFilters.VectorKeepsIff`: how a float prints is any function that writes a finite value with its point or with an exponent, and JSONB any that writes the plain decimal of that value.
- `PlanEnrichment.EnrichQueryPlan`: rewriting of the query texts, the listing perspective, gender and sort order.
- Merging of vector and BM25 results by reciprocal rank, request coalescing and monitor counters, the admin log, evaluation metrics and schema migrations: easy or dependent on libraries not shown.
