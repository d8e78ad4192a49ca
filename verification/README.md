# Baldsky: a verified model of ingest, paging, purging, rate limiting and delivery

Baldsky builds Bluesky feeds. It reads commits from a relay's firehose, decides post by post which feed
pipeline wants them, keeps the chosen posts in a `post` table keyed by URI, and serves feed pages from that
table by keyset cursors. A purge command looks for posts that a feed no longer wants, an HTTP limiter holds
one token bucket per IP and evicts idle ones, and a publisher with queue workers can stand between the
firehose and the table. This project models that behaviour in Dafny and proves what it adds up to.
`dafny verify dfyconfig.toml` checks everything.

## What is modelled

- **Ingest.** `PostStore` is the `post` and `sub_state` tables with the calls that change them: an insert
  takes effect only for an absent URI, a delete removes a URI, every call can fail and every insert reads the
  clock. The primary key is the key of a map, so a URI has one row and one feed. `Ingest` turns commits into
  store calls the way `ProcessEvent` and its handlers do; a subscription moves the cursor last.
- **Replay and interleaving.** `Concurrency` is a subscriber with any number of commits in flight, those of one
  repository in turn, that may crash between any two store calls, lose cursor moves, and resume from the stored
  cursor or, without a positive one, join the live stream. `Replay` and `LiveRestarts` say what is exact for it
  with a positive cursor and with none, one commit at a time or several; `CrashLoss` what one crash loses,
  `ContainedChanges` and `Survival` which logs lose nothing. `Confluence` interleaves the calls of whole logs.
  All compare tables by URI, feed and cid; `TableRows` says what happens to whole rows, stamps included.
- **Matching.** `Regexp` reads and matches the fragment of Go's pattern syntax that the keyword patterns use,
  `Words` is the plain meaning, `Pipelines` builds pipelines and decides posts.
- **Paging.** `PageQuery` is the SQL query, with any order of rows that have equal keys; `Walks` follows
  cursors over a table that may change between requests; `FeedService` and `ServedWalks` are the same through
  the service, with cursors as text. `Purge` pages through a feed and judges it in batches.
- **Limiting.** `Caches` and `RateLimiter` are the mutable cache and limiter; `TokenBucket` and `RateLimits`
  are their effect on values and over whole traces. A request reads the clock twice, once for `lastUsed` and
  once inside the bucket; `lag` bounds the difference.
- **Delivery.** `Publishing` has the publisher, its broker connection and the worker; `Delivery` runs one
  publisher in order beside any workers, with a stream that stops or goes on when a handler fails;
  `CursorRaces` runs any number of handlers step by step.

Failures, clock readings, what the API shows, which part of a buffer a failed flush carried, and the order of
concurrent steps are parameters or events, and every theorem ranges over all of them.

## What is false, and exactly when

- Eviction of an idle limiter is invisible exactly for settings under which an entry is full before it can
  become stale. For two clock readings at most `lag` apart, what a request leaves at least and the refill of
  the maximum age less `lag` make a burst; for one reading, the maximum age refills a burst:
  `RateLimits.EvictionUnobservableIff` and `RateLimits.PlainArithmetic`. A burst or rate below zero counts as zero.
- A walk misses exactly the rows that the page limit separates from a row with the same stamp and cid:
  `Walks.WalkMissesExactlyTies`. Nothing in the schema rules such rows out.
- A replay restores feeds and cids, but a row with its stamp exactly when the replayed calls do not delete its
  URI or the insert that brings it back reads the old stamp on the clock: `TableRows.ReplayKeepsRowIff`.
- Two post URIs can coincide, for an empty repository name and the repository named `app.bsky.feed.post`:
  `AtUri.PostUriCollisions`.
- A page cursor does not come back for a stamp with `::` inside, a final `:`, or an empty part:
  `PageCursor.CursorRoundTrip`.
- Without a positive cursor a restart joins the live stream. Crashes stay invisible exactly when at every URI
  each commit hides what the commits before it may have left: it deletes the URI, or nothing before it could
  change the entry, or it puts back the same entry: `LiveRestarts.CrashesInvisibleIff`.
- With several commits at once, four being the default, a crash loses the calls that commits behind the restart
  had still to make. If the other restarts of the run skip nothing unfinished, and commits up to any point are
  handled after the crash, the table is right exactly when those that the stream sends again have, on the table
  of the crash, the effect of all calls that were pending: `CrashLoss.CrashLosesPending`.
- With several commits at once no run is ever wrong, for a given log and table, exactly when each commit that can
  change the table comes from a positive cursor and only commits of its repository follow it:
  `Survival.SurvivesIff`. Whatever the commits say, if there is a pipeline, that is when the cursor is positive
  and one repository writes them all: `Survival.ConcurrencyLosesNothingIff`. Without a positive cursor at first,
  and once one is stored, the condition is that of one commit at a time: `LiveRestarts.LiveSurvivesIff`.
- When a publisher's handler fails and the stream goes on, a commit is skipped exactly when a cursor move
  beyond it is stored before it reaches the server: `Delivery.AtLeastOnceIff`. No run skips any exactly when
  all commits but the last are too big to publish: `Delivery.EveryRunKeepsIff`.
- With many handlers at once the same condition decides whether a cursor can pass a commit that was neither
  flushed nor processed: `CursorRaces.HandlersSkipNothingIff`. Delivery of every commit is therefore stated for
  a stream that stops on errors.

## Model

| member | source | states |
|---|---|---|
| BoundaryPattern.PatternCompiles | subscription/subscription.go:64-103 | every keyword compiles, metacharacters included, and the compiled pattern holds the keyword literally, so `NewPipeline` has no error to report |
| BoundaryPattern.PatternMeansOccurrence | subscription/subscription.go:66 | unanchored search finds the pattern exactly when the keyword occurs with a text edge or a character outside `[a-zA-Z0-9-]` on both sides |
| BoundaryPattern.PatternMeansToken | subscription/subscription.go:66 | for a keyword made of word characters only, that is exactly when the keyword is a token of the text |
| Words.WordOccursIffToken | subscription/subscription.go:66 | a bounded occurrence of a single word is a token, and the other way round |
| Words.PhraseHoldsItsParts | subscription/subscription.go:125-137 | a text that holds a phrase joined at a boundary character holds both of its parts |
| Pipelines.NewPipeline | subscription/subscription.go:51-123 | the pipeline holds the lower-cased lists, one compiled pattern per word, and the language and blocklist sets; an error can only name a word whose pattern is malformed |
| Pipelines.CompileAll | subscription/subscription.go:64-71 | one compiled pattern per word, in order, or the word that does not compile |
| Pipelines.Pipeline.Matches | subscription/subscription.go:125-161 | the early-exit loops over two keyword tiers decide as one formula: a keyword, or a context keyword with a context word, and no exclude |
| Pipelines.Pipeline.MatchesPost | subscription/subscription.go:163-182 | media, language and keyword filters together, language only when both sides name one |
| Pipelines.Pipeline.ShouldInsert | subscription/subscription.go:330-353 | not blocked, and what `MatchesPost` says |
| Pipelines.BuiltDecidesAsConfigured | subscription/subscription.go:51-182 | a built pipeline accepts a post exactly when its configuration, read as plain words, wants it |
| Pipelines.InsertsAsConfigured | subscription/subscription.go:330-353 | a built pipeline inserts exactly the posts that its configuration wants, of authors that it does not block |
| Pipelines.HarmlessEditChangesNothing | subscription/subscription.go:125-161 | reordering lists, repeating words, or adding phrases of which a part is listed already changes no decision |
| AtUri.UnescapeEscape | subscription/subscription.go:355-363 | percent-escaping of a URI component loses nothing |
| AtUri.PostUriInjective | subscription/subscription.go:355-363 | repositories with different non-empty names never share a post URI |
| AtUri.PostUriCollisions | subscription/subscription.go:355-363 | the only shared post URIs over all names and post paths |
| AtUri.PlainUriIsKept | subscription/subscription.go:355-363 | the URI of a DID, or any name of letters, digits and `:._-`, with an ordinary post path is `at://<name>/<path>` with nothing escaped |
| PostStore.Store.InsertPost | db/schema/queries/feed.sql:1-4 | adds the row with the current stamp unless the URI has one; a failed call changes nothing |
| PostStore.Store.DeletePost | db/schema/queries/feed.sql:6-7 | removes the URI's row; a failed call changes nothing |
| PostStore.Store.DeletePosts | feed/feed.go:178-185 | deletes in order and stops at the first failing call, with the earlier deletes kept |
| PostStore.Store.GetCursor | feed/feed.go:265-271 | the stored cursor, 0 when there is none, an error when the query fails |
| PostStore.Store.UpsertCursor | feed/feed.go:273-278 | stores the service's cursor and touches no post |
| Ingest.Processor.HandleDelete | subscription/subscription.go:247-256 | one delete call per pipeline, failures passed over |
| Ingest.Processor.HandleCreate | subscription/subscription.go:258-285 | one insert call per pipeline that takes the post, in pipeline order; nothing for a missing or foreign record |
| Ingest.Processor.ProcessEvent | subscription/subscription.go:205-245 | the calls of all post operations in order; none for a nil, oversized or unreadable commit |
| Ingest.Subscription.HandleCommit | subscription/subscription.go:313-328 | all post calls first, the cursor move last, and success exactly when the move is stored |
| TableRows.FirstMatchingPipelineOwnsPost | subscription/subscription.go:273-284 | creating a free URI gives it to the first pipeline in order that takes the post and whose insert call succeeds, with that call's clock reading; a taken URI keeps its row; no other URI changes |
| TableRows.OperationHasEffect | subscription/subscription.go:226-242 | whichever calls fail, the calls of one operation do to the table exactly what its action means |
| TableRows.CommitMeansItsOperations | subscription/subscription.go:205-245 | without failing calls, a commit changes each entry as all its operations do, in order; one that is too big or unreadable changes none |
| TableRows.RowKeptWithoutDelete | db/schema/queries/feed.sql:1-7 | until a delete of its URI, a row keeps feed, cid and stamp through any calls and failures |
| TableRows.RowsStemFromCreates | subscription/subscription.go:226-285 | whatever calls fail, repeat or change places, a feed's row stems from a create operation whose post a pipeline of that name takes |
| TableRows.BlockedAuthorHasNoRow | subscription/subscription.go:330-333 | whatever calls fail, repeat or change places, a post of a blocked repository never has a row of the feed that blocks it |
| TableRows.ReplayKeepsRowIff | feed/feed.go:165-172 | a replay keeps every entry, and a whole row exactly when the replayed calls do not delete its URI or its last effective insert reads the old stamp |
| Entries.ReplayAbsorbed | db/schema/queries/feed.sql:1-7 | repeating any stretch of calls right after it changes no feed or cid |
| Replay.HandleNext | subscription/subscription.go:313-328 | one handled commit extends the crash-free run by that commit and sets the cursor to it |
| Replay.ReplayIsInvisible | subscription/subscription.go:304-328 | one commit at a time from a positive cursor: over any crashes and lost cursor moves, at each new furthest point the table says what a run without crashes says |
| Replay.CursorMarksCrashFreeTable | subscription/subscription.go:313-328 | with no store errors besides, when the cursor reaches a commit the table says what a crash-free run up to that commit says |
| LiveRestarts.CrashesInvisibleIff | atproto/atproto.go:14-18 | one commit at a time, for every log and initial cursor: each stored cursor finds the crash-free table in all runs, exactly when the initial cursor is positive or every commit hides what skipped or cut commits may leave |
| LiveRestarts.LiveSurvivesIff | atproto/atproto.go:14-18 | several commits in flight, no positive cursor at first: in all runs the table is right once a cursor is stored, exactly when every commit hides what a live restart may leave |
| Hiding.SettlingHides | db/schema/queries/feed.sql:1-7 | if no earlier cut or skip shows after a commit, the commit deletes the URI, or nothing before it could change the entry, or it puts back the only entry possible |
| Confluence.CommitsOwnTheirUris | subscription/subscription.go:226-242 | no two repositories' commits touch the same URI |
| Confluence.InterleavingIsConfluent | firehose/firehose.go:85-90 | every interleaving that keeps each repository's order leaves the table of handling commits one by one |
| Concurrency.SafeRestartsAreInvisible | subscription/subscription.go:304-328 | with any commits in flight, crashes anywhere and any initial cursor, if each restart finds the commits that it skips finished, the table says what handling them one by one says |
| Concurrency.ConcurrentReplayIsInvisible | firehose/firehose.go:79-96 | the same for the store calls of commits of named repositories |
| CrashLoss.PendingCompletes | subscription/subscription.go:304-328 | at any moment the table and the calls that commits have still to make add up to the table of handling them one by one |
| CrashLoss.TableAfterCrash | subscription/subscription.go:304-328 | whatever happened before a crash, handling the commits after it leaves the effect of those from the restart on, on the table of the crash |
| CrashLoss.CrashLosesPending | subscription/subscription.go:304-328 | for a crash at any moment, with commits begun on both sides of the cursor, and any later point: the table is the sequential one exactly if the commits sent again have the effect of all pending calls |
| CrashLoss.BehindStreamStays | firehose/firehose.go:59-66 | in no continuation is a URI touched again whose calls are all in commits behind the stream |
| ContainedChanges.ContainedIsRight | firehose/firehose.go:79-96 | if only a repository's own commits follow a change, no interleaving, crash or lost cursor move loses anything |
| Survival.SurvivesIff | subscription/subscription.go:304-328 | for every log, table and initial cursor: all runs with several commits in flight are right exactly when each commit that can change the table comes from a positive cursor and before its own repository only |
| Survival.ConcurrencyLosesNothingIff | cmd/root.go:66 | for given pipelines, sequence numbers and repositories: no commits, table, crash or order lose anything exactly when there is no pipeline or commit, or the cursor is positive and one repository wrote all |
| PageQuery.QueryPage | db/schema/queries/feed.sql:12-21 | newest rows below the cursor, at most the limit, any order among equal keys |
| PageQuery.PageIsStartOfOrdering | db/schema/queries/feed.sql:12-21 | a page is exactly the start of some newest-first ordering of the selected rows |
| Walks.WalkStrictlyDescends | db/schema/queries/feed.sql:12-21 | with distinct keys at each query, keys along a walk strictly decrease while the table changes |
| Walks.WalkNoRepeats | db/schema/queries/feed.sql:12-21 | no row is returned twice, distinct keys or not |
| Walks.NoUriTwice | db/schema/queries/feed.sql:12-21 | a URI deleted and created again with no older key is not returned twice |
| Walks.StayingRowReturnedOnce | db/schema/queries/feed.sql:12-21 | with distinct keys, a row that stays throughout a finished walk is returned exactly once |
| Walks.WalkMissesExactlyTies | db/schema/queries/feed.sql:12-21 | the staying rows that a walk misses are exactly those cut off from a row with the same key at a page end |
| Walks.StillWalkIsExact | feed/feed.go:211-262 | over a table at rest with distinct keys a walk is the whole feed, newest first, each row once, in ⌊n/limit⌋ + 1 requests |
| Walks.StillWalkEnds | feed/feed.go:211-262 | over a table at rest no walk makes more requests than that, ties or not |
| PageCursor.CursorRoundTrip | feed/feed.go:280-290 | parsing a built cursor gives its parts back exactly when both are non-empty and the stamp has no `::` and no final `:` |
| PageCursor.AcceptedCursorRebuilds | feed/feed.go:280-290 | an accepted cursor text is the text of the key it parses to |
| PageCursor.DateTimeCarriesInCursor | feed/feed.go:280-290 | every `date-time` of RFC 3339, section 5.6, can travel in a cursor |
| Timestamps.FormatIsDateTime | feed/feed.go:165-172 | the stamps the service writes are such `date-time` texts |
| Timestamps.TextOrderIsTimeOrder | feed/feed.go:165-172 | four-digit-year UTC stamps compare as text exactly as the instants compare in time |
| ServedWalks.OlderIsEarlier | db/schema/queries/feed.sql:20 | the query's order is time order, newest first, with the cid deciding within a second |
| FeedService.PageLimitOfText | feed/feed.go:211-217 | a limit that spells a positive 64-bit number, plus sign and leading zeros allowed, is honoured up to 100; every other text means 50 |
| FeedService.RequestKeyIff | feed/feed.go:219-237 | no cursor asks for the first page, the text of a key for the rows below it, and every text that spells no key is refused |
| FeedService.Service.RouteSpellsFeed | feed/feed.go:188-209 | a feed URI is served exactly when it spells this publisher, a known feed and its collection, none of which holds a slash, after `at://` or without a scheme |
| FeedService.Service.GetFeedPage | feed/feed.go:187-263 | routing error before cursor error before query error; otherwise a page of the feed below the cursor and the cursor of its last row when it is full |
| ServedWalks.RunKeepsWellStamped | feed/feed.go:165-172 | the store keeps rows that cursors can carry |
| ServedWalks.ServedWalkIsKeyWalk | feed/feed.go:218-262 | cursors as text lose nothing: walking through the service is walking over keys |
| ServedWalks.ServedStillWalkIsExact | feed/feed.go:187-263 | following cursors until none is given returns the whole feed in order, each row once, in ⌊n/limit⌋ + 1 requests; the responses together list each URI that the table has for the feed once, newest first, and no other |
| Purge.JudgeBatch | cmd/purge.go:134-169 | a batch with its lookup table reports what one lookup per row reports |
| Purge.JudgePage | cmd/purge.go:134-170 | a page cut into batches of 25 makes one fetch per batch and reports what one lookup per row reports; it succeeds only if every fetch does |
| Purge.FindStalePosts | cmd/purge.go:116-184 | ends on every table at rest and reports, in feed order, the verdicts of a finished walk over it; succeeds only if every query and every fetch does, and an error names a call that failed |
| PurgeProperties.PurgeReportsExactlyUnwanted | cmd/purge.go:116-184 | with distinct keys, the report has one line for each row of the feed in the table that is missing, unreadable or not wanted by the configuration, in feed order, and nothing else |
| PurgeProperties.PurgeSparesIngestedPosts | cmd/purge.go:154-168 | under the same configuration a row whose own post is unchanged is never reported, whatever was at the URI before |
| Caches.Cache.Keys | cache/cache.go:71-79 | every key once |
| Caches.Cache.SweepLocked | cache/cache.go:94-100 | leaves exactly the entries that are not stale, values unchanged |
| Caches.Cache.SweepCollected | cache/cache.go:119-135 | collecting first and deleting afterwards leaves the same entries |
| RateLimiter.RateLimiter.GetLimiter | server/ratelimit.go:44-55 | an IP's own bucket with its use noted, or a full one for a new IP |
| RateLimiter.RateLimiter.Allow | server/ratelimit.go:57-59 | answer and new state of one request; no other IP is touched |
| RateLimiter.RateLimiter.CleanupTick | server/ratelimit.go:33-42 | the cache's cleanup with the limiter's staleness test leaves exactly the entries that are not stale |
| RateLimiter.RateLimiter.CleanupCollected | cache/cache.go:108-140 | the collecting cleanup leaves the same entries |
| RateLimiter.RateLimiter.PurgeStale | server/ratelimit.go:65-73 | the key-by-key purge leaves the same entries |
| RateLimits.PurgedKeysAreSwept | server/ratelimit.go:65-73 | purging over the keys in any order is one sweep |
| RateLimits.EvictionIsUnobservable | server/ratelimit.go:40-59 | if an entry is full before it can become stale, no trace tells the limiter from one that never evicts |
| RateLimits.EvictionUnobservableIff | server/ratelimit.go:40-59 | for every lag between the two clock readings, this holds for all traces exactly for those settings |
| RateLimits.AfterAllWellKept | server/ratelimit.go:44-59 | every trace leaves a map whose stamps lie in the past and whose buckets hold what their last request leaves at least |
| RateLimits.WindowBound | server/ratelimit.go:40-59 | in every window of every trace an IP gets at most one burst per started maximum age plus the refill, whatever the settings |
| RateLimits.TightWindowBound | server/ratelimit.go:40-59 | when eviction is harmless, at most one burst plus the refill |
| RateLimits.PlainArithmetic | server/ratelimit.go:40-59 | for settings that are not negative the bounds and the condition on eviction are plain arithmetic: rate times window, a burst per started maximum age, and a maximum age that refills a burst |
| Firehose.ResumeAfterCommit | atproto/atproto.go:14-18 | resuming after a commit's number skips that commit and those before it, and no other |
| Publishing.Connection.FlushTimeout | publisher/publisher.go:112-115 | success means that the whole buffer reached the server; a failure may carry a part of it |
| Publishing.Publisher.HandleCommit | publisher/publisher.go:86-124 | publish, flush, then move the cursor, each only after the step before succeeded; a commit too big moves the cursor alone |
| Publishing.PublishSucceedsIff | publisher/publisher.go:86-124 | a handler succeeds exactly when all its steps do; then the message and all before it are at the server and the cursor is at the commit, and a failure before the move leaves the cursor where it was |
| Publishing.Worker.Handle | worker/worker.go:60-75 | process the message, then move the cursor; an unreadable message does nothing |
| Delivery.AtLeastOnceIff | firehose/firehose.go:79-96 | each commit to publish up to the stored cursor has reached the server at every moment, exactly if no cursor move is stored beyond a commit that failed while the stream went on and is not at the server |
| Delivery.EveryRunKeepsIff | firehose/firehose.go:79-96 | for every log: no run of a stream that may go on after errors skips a commit exactly when all but the last are too big |
| Delivery.AtLeastOnce | publisher/publisher.go:75-124 | if the stream stops and resumes on errors, each commit to publish up to the stored cursor has reached the server |
| CursorRaces.CursorIsEarned | worker/worker.go:60-75 | however handlers interleave and fail, the cursor is the initial one or that of a commit too big, flushed, or processed |
| CursorRaces.SoloRunIsPublish | publisher/publisher.go:86-124 | a handler that runs alone moves the cursor as the publisher's handler does, for all outcomes of its steps |
| CursorRaces.SoloWorkerIsHandle | worker/worker.go:60-75 | a worker that runs alone has made all store calls of its message before the commit counts as processed, and moves the cursor to it only then |
| CursorRaces.CursorCanOvertake | publisher/publisher.go:107-120 | of any two commits, handlers of one repository in turn, the later, too big or not, can take the cursor past the earlier, which is never published |
| CursorRaces.HandlersSkipNothingIff | worker/worker.go:60-75 | for every log: in all runs each commit to publish up to the stored cursor is flushed or processed, exactly when all but the last are too big; keeping repositories in turn changes nothing |

## Left out

- Websocket dialing, NATS transport, CAR and CBOR decoding and the Bluesky API: a commit carries its operations and a partial map from path to record, the API is a partial map from URI to record.
- The relay's own limits on how far back a cursor may reach.
- The parallel scheduler, which is not part of this repository: keeping each repository's order is a hypothesis of `Confluence.InterleavingIsConfluent` and a rule of `Concurrency`; what it does with a handler's error (firehose/firehose.go:79-96) is left open in `Delivery`, where the stream may stop or go on.
- Postgres apart from the queries: text compares character by character in place of the database's collation, and a failed call of `PostStore.Store` has no effect.
- Bytes that are not valid UTF-8: posts and keywords are sequences of characters, and lower-casing is any map on characters, as Go's is a map on runes.
- Go's pattern syntax beyond groups, alternatives, negated classes, anchors, escapes and plain characters.
- RateLimiter.RateLimiter.Allow: requests are atomic, because two concurrent first requests of one IP can each make a bucket in the source and the bounds would not hold for them.
- The inside of the token bucket library: the documented bucket over real numbers, starting full, without rounding and without the infinite rate.
- Timers and the guards on a zero cleanup interval: a sweep is one tick at one clock reading.
- Replay.CursorMarksCrashFreeTable: covers a subscription that handles one commit at a time and post calls that do not fail; for several at once see `CrashLoss` and `Survival`.
- Concurrency.SafeRestartsAreInvisible: gives a sufficient condition for a run; exact are `CrashLoss.CrashLosesPending` for one crash among safe ones and `Survival.SurvivesIff` over all runs. The bounds on queue and workers are left out, so any number of commits may be in flight.
- Delivery.AtLeastOnce: covers one commit at a time and a stream that stops on errors; `Delivery.AtLeastOnceIff` and `Delivery.EveryRunKeepsIff` cover one that goes on.
- Per-repository order in worker mode: a queue group with several workers need not keep it.
- HandleCommit of a nil commit with a cursor store, and a create operation without a cid, which the source does not survive.
- A cursor move whose acknowledgement is lost is an event of `Replay`, `Delivery` and `CursorRaces`, not of the store class.
- HTTP handlers, authentication, CORS, health, configuration loading, logging, the command line, feed publishing records, feed statistics, user agent and description texts.
